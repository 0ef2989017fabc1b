/** TCP options: how they are unpacked from a bit mask, and how they are printed. */
module Options {
  import opened SysInfoModel

  // ---- Unpacking ----

  /** One known option flag: its bit, its name, and whether its entry carries the window value. */
  datatype Entry = Entry(flag: nat, kind: string, window: bool)

  const LINUX: seq<Entry> := [
    Entry(1, "Timestamps", false), Entry(2, "SACK", false), Entry(4, "WindowScale", true), Entry(8, "ECN", false),
    Entry(16, "ECNSeen", false), Entry(32, "SYNData", false), Entry(64, "UsecTS", false), Entry(128, "TFOChild", false)]

  const DARWIN: seq<Entry> := [
    Entry(1, "Timestamps", false), Entry(2, "SACK", false), Entry(4, "WindowScale", true), Entry(8, "ECN", false)]

  /** `options & flag != 0` for a flag of one bit. */
  predicate HasFlag(options: nat, flag: nat)
    requires flag > 0
  {
    options / flag % 2 == 1
  }

  function Pow2(n: nat): (r: nat)
    ensures r > 0
  {
    if n == 0 then 1 else 2 * Pow2(n - 1)
  }

  /** The flags are the lowest bits in ascending order, and no two options share a name. */
  ghost predicate WellFormed(table: seq<Entry>) {
    && (forall i :: 0 <= i < |table| ==> table[i].flag == Pow2(i))
    && (forall i, j :: 0 <= i < j < |table| ==> table[i].kind != table[j].kind)
  }

  lemma TablesWellFormed()
    ensures WellFormed(LINUX) && WellFormed(DARWIN)
    ensures |LINUX| == 8 && |DARWIN| == 4 && Pow2(8) == 256 && Pow2(4) == 16
  {
    Powers();
    forall i | 0 <= i < |LINUX| ensures LINUX[i].flag == Pow2(i) {
    }
    forall i, j | 0 <= i < j < |LINUX| ensures LINUX[i].kind != LINUX[j].kind {
      assert "ECNSeen"[0] != "SYNData"[0];
    }
    assert forall i :: 0 <= i < |DARWIN| ==> DARWIN[i] == LINUX[i];
  }

  lemma Powers()
    ensures Pow2(0) == 1 && Pow2(1) == 2 && Pow2(2) == 4 && Pow2(3) == 8 && Pow2(4) == 16
    ensures Pow2(5) == 32 && Pow2(6) == 64 && Pow2(7) == 128 && Pow2(8) == 256
  {
    assert Pow2(2) == 4;
    assert Pow2(4) == 16;
    assert Pow2(6) == 64;
  }

  /** The entries of the options that are set. */
  function OptionsOf(table: seq<Entry>, options: nat, value: nat): seq<TcpOption>
    requires forall i :: 0 <= i < |table| ==> table[i].flag > 0
  {
    if table == [] then []
    else
      var rest := OptionsOf(table[..|table| - 1], options, value);
      var e := table[|table| - 1];
      if HasFlag(options, e.flag) then rest + [TcpOption(e.kind, if e.window then value else 0)] else rest
  }

  /** The option loop of Unpack: both lists grow together. */
  method UnpackOptions(table: seq<Entry>, options: nat, txValue: nat, rxValue: nat)
    returns (tx: seq<TcpOption>, rx: seq<TcpOption>)
    requires WellFormed(table)
    ensures tx == OptionsOf(table, options, txValue)
    ensures rx == OptionsOf(table, options, rxValue)
  {
    tx, rx := [], [];
    for i := 0 to |table|
      invariant tx == OptionsOf(table[..i], options, txValue)
      invariant rx == OptionsOf(table[..i], options, rxValue)
    {
      assert table[..i + 1][..i] == table[..i];
      var e := table[i];
      if !HasFlag(options, e.flag) {
        continue;
      }
      if e.window {
        tx := tx + [TcpOption(e.kind, txValue)];
        rx := rx + [TcpOption(e.kind, rxValue)];
      } else {
        tx := tx + [TcpOption(e.kind, 0)];
        rx := rx + [TcpOption(e.kind, 0)];
      }
    }
    assert table[..|table|] == table;
  }

  function Kinds(xs: seq<TcpOption>): (ks: seq<string>)
    ensures |ks| == |xs| && forall i :: 0 <= i < |xs| ==> ks[i] == xs[i].kind
  {
    seq(|xs|, i requires 0 <= i < |xs| => xs[i].kind)
  }

  /** The values play no part in which options are listed: Tx and Rx name the same ones in the same order. */
  lemma {:induction false} SameKinds(table: seq<Entry>, options: nat, v: nat, w: nat)
    requires WellFormed(table)
    ensures Kinds(OptionsOf(table, options, v)) == Kinds(OptionsOf(table, options, w))
  {
    if table != [] {
      SameKinds(table[..|table| - 1], options, v, w);
      assert Kinds(OptionsOf(table, options, v)) == Kinds(OptionsOf(table, options, w));
    }
  }

  /** An option is listed exactly when its bit is set. */
  lemma {:induction false} ListedIffSet(table: seq<Entry>, options: nat, v: nat, i: nat)
    requires WellFormed(table) && i < |table|
    ensures table[i].kind in Kinds(OptionsOf(table, options, v)) <==> HasFlag(options, table[i].flag)
  {
    var n := |table| - 1;
    var rest := table[..n];
    var ks := Kinds(OptionsOf(rest, options, v));
    var all := Kinds(OptionsOf(table, options, v));
    assert all == if HasFlag(options, table[n].flag) then ks + [table[n].kind] else ks;
    if i < n {
      ListedIffSet(rest, options, v, i);
    } else {
      OnlyTableKinds(rest, options, v);
    }
  }

  lemma {:induction false} OnlyTableKinds(table: seq<Entry>, options: nat, v: nat)
    requires WellFormed(table)
    ensures forall k :: k in Kinds(OptionsOf(table, options, v)) ==> exists j :: 0 <= j < |table| && table[j].kind == k
  {
    if table != [] {
      var n := |table| - 1;
      var rest := table[..n];
      OnlyTableKinds(rest, options, v);
      var ks := Kinds(OptionsOf(rest, options, v));
      assert Kinds(OptionsOf(table, options, v)) == if HasFlag(options, table[n].flag) then ks + [table[n].kind] else ks;
      forall k | k in Kinds(OptionsOf(table, options, v)) ensures exists j :: 0 <= j < |table| && table[j].kind == k {
        if k in ks {
          var j :| 0 <= j < |rest| && rest[j].kind == k;
          assert table[j].kind == k;
        } else {
          assert table[n].kind == k;
        }
      }
    }
  }

  /** How many of the first n options are set. */
  function SetBelow(table: seq<Entry>, options: nat, n: nat): nat
    requires n <= |table| && forall i :: 0 <= i < |table| ==> table[i].flag > 0
  {
    if n == 0 then 0 else SetBelow(table, options, n - 1) + if HasFlag(options, table[n - 1].flag) then 1 else 0
  }

  lemma {:induction false} SetBelowPrefix(table: seq<Entry>, options: nat, m: nat, n: nat)
    requires n <= m <= |table| && forall i :: 0 <= i < |table| ==> table[i].flag > 0
    ensures SetBelow(table[..m], options, n) == SetBelow(table, options, n)
  {
    if n > 0 {
      SetBelowPrefix(table, options, m, n - 1);
    }
  }

  /** There is one entry for each set option. */
  lemma {:induction false} OneEntryEach(table: seq<Entry>, options: nat, v: nat)
    requires forall i :: 0 <= i < |table| ==> table[i].flag > 0
    ensures |OptionsOf(table, options, v)| == SetBelow(table, options, |table|)
  {
    if table != [] {
      var n := |table| - 1;
      OneEntryEach(table[..n], options, v);
      SetBelowPrefix(table, options, n, n);
    }
  }

  /** A set option stands in table order, under its name, with the window value if it is the one that carries it. */
  lemma {:induction false} EntryAt(table: seq<Entry>, options: nat, v: nat, i: nat)
    requires i < |table| && (forall j :: 0 <= j < |table| ==> table[j].flag > 0) && HasFlag(options, table[i].flag)
    ensures var xs := OptionsOf(table, options, v);
            var at := SetBelow(table, options, i);
            at < |xs| && xs[at] == TcpOption(table[i].kind, if table[i].window then v else 0)
  {
    var n := |table| - 1;
    OneEntryEach(table[..n], options, v);
    if i < n {
      EntryAt(table[..n], options, v, i);
    }
    SetBelowPrefix(table, options, n, i);
  }

  /** The mask rebuilt from a list of option names. */
  function Mask(table: seq<Entry>, ks: seq<string>): nat {
    if table == [] then 0
    else
      var e := table[|table| - 1];
      Mask(table[..|table| - 1], ks) + if e.kind in ks then e.flag else 0
  }

  /** The bits the table knows about can be recovered from either list. */
  lemma MaskRecovered(table: seq<Entry>, options: nat, v: nat)
    requires WellFormed(table)
    ensures Mask(table, Kinds(OptionsOf(table, options, v))) == options % Pow2(|table|)
  {
    var ks := Kinds(OptionsOf(table, options, v));
    forall i | 0 <= i < |table| ensures table[i].kind in ks <==> HasFlag(options, table[i].flag) {
      ListedIffSet(table, options, v, i);
    }
    MaskOfBits(table, options, ks);
  }

  lemma {:induction false} MaskOfBits(table: seq<Entry>, options: nat, ks: seq<string>)
    requires forall i :: 0 <= i < |table| ==> table[i].flag == Pow2(i)
    requires forall i :: 0 <= i < |table| ==> (table[i].kind in ks <==> HasFlag(options, Pow2(i)))
    ensures Mask(table, ks) == options % Pow2(|table|)
  {
    if table != [] {
      var n := |table| - 1;
      MaskOfBits(table[..n], options, ks);
      NextFlag(options, Pow2(n));
    }
  }

  lemma NextFlag(x: nat, m: nat)
    requires m > 0
    ensures x % (2 * m) == x % m + if HasFlag(x, m) then m else 0
  {
    NextBit(x, m);
  }

  lemma NextBit(x: nat, m: nat)
    requires m > 0
    ensures x % (2 * m) == x % m + (x / m % 2) * m
  {
    var q, r := x / m, x % m;
    var a, b := q / 2, q % 2;
    assert x == a * (2 * m) + (b * m + r) by {
      assert q == 2 * a + b;
      assert x == q * m + r;
      Distribute(2 * a, -b, m);
      assert (2 * a) * m == a * (2 * m);
    }
    assert b == 0 || b == 1;
    Remainder(x, 2 * m, a, b * m + r);
  }

  lemma Remainder(x: nat, d: nat, a: nat, r: nat)
    requires d > 0 && r < d && x == a * d + r
    ensures x % d == r
  {
    var q := x / d;
    assert x == q * d + x % d;
    Distribute(a, q, d);
    SmallMultiple(a - q, d);
  }

  lemma Distribute(a: int, q: int, d: int)
    ensures (a - q) * d == a * d - q * d
  {
  }

  lemma AtLeastOnce(m: int, d: int)
    requires m >= 1 && d > 0
    ensures m * d >= d
  {
    Distribute(m, 1, d);
  }

  lemma SmallMultiple(m: int, d: int)
    requires d > 0 && m * d < d && (-m) * d < d
    ensures m == 0
  {
    if m >= 1 {
      AtLeastOnce(m, d);
    }
    if -m >= 1 {
      AtLeastOnce(-m, d);
    }
  }

  /** A mask with no unknown bits is recovered whole, and both directions list the same names. */
  lemma NamesTrusted(table: seq<Entry>, options: nat, tx: nat, rx: nat)
    requires WellFormed(table) && options < Pow2(|table|)
    ensures Mask(table, Kinds(OptionsOf(table, options, tx))) == options
    ensures Kinds(OptionsOf(table, options, rx)) == Kinds(OptionsOf(table, options, tx))
  {
    MaskRecovered(table, options, tx);
    Remainder(options, Pow2(|table|), 0, options);
    SameKinds(table, options, tx, rx);
  }

  /** On Linux the whole options byte can be recovered; on Darwin the low four bits. */
  lemma PlatformMasks(options: nat, v: nat)
    ensures options < 256 ==> Mask(LINUX, Kinds(OptionsOf(LINUX, options, v))) == options
    ensures Mask(DARWIN, Kinds(OptionsOf(DARWIN, options, v))) == options % 16
  {
    TablesWellFormed();
    if options < 256 {
      NamesTrusted(LINUX, options, v, v);
    }
    MaskRecovered(DARWIN, options, v);
  }

  /** The names that the Linux list gives to the bits of the options byte. */
  lemma LinuxKinds(options: nat, v: nat)
    ensures WellFormed(LINUX)
    ensures var ks := Kinds(OptionsOf(LINUX, options, v));
            && ("Timestamps" in ks <==> HasFlag(options, 1)) && ("SACK" in ks <==> HasFlag(options, 2))
            && ("WindowScale" in ks <==> HasFlag(options, 4)) && ("ECN" in ks <==> HasFlag(options, 8))
            && ("ECNSeen" in ks <==> HasFlag(options, 16)) && ("SYNData" in ks <==> HasFlag(options, 32))
            && ("UsecTS" in ks <==> HasFlag(options, 64)) && ("TFOChild" in ks <==> HasFlag(options, 128))
  {
    TablesWellFormed();
    forall i | 0 <= i < |LINUX| ensures LINUX[i].kind in Kinds(OptionsOf(LINUX, options, v)) <==> HasFlag(options, LINUX[i].flag) {
      ListedIffSet(LINUX, options, v, i);
    }
    assert LINUX[0].kind == "Timestamps" && LINUX[1].kind == "SACK" && LINUX[2].kind == "WindowScale" && LINUX[3].kind == "ECN";
    assert LINUX[4].kind == "ECNSeen" && LINUX[5].kind == "SYNData" && LINUX[6].kind == "UsecTS" && LINUX[7].kind == "TFOChild";
  }

  /** Of them only WindowScale carries a value. */
  lemma OnlyWindowScale(i: nat)
    requires i < |LINUX|
    ensures LINUX[i].window <==> LINUX[i].flag == 4
  {
  }

  // ---- Printing ----

  function HexChar(d: nat): char
    requires d < 16
  {
    if d < 10 then '0' + d as char else 'a' + (d - 10) as char
  }

  function HexDigits(n: nat): (s: string)
    ensures s != []
  {
    if n < 16 then [HexChar(n)] else HexDigits(n / 16) + [HexChar(n % 16)]
  }

  /** The `%.2x` verb: at least two digits. */
  function Hex2(n: nat): string {
    var s := HexDigits(n);
    if |s| < 2 then "0" + s else s
  }

  function String(o: TcpOption): string {
    if o.value == 0 then o.kind else o.kind + ":" + Hex2(o.value)
  }

  function HexDigitValue(c: char): nat {
    if '0' <= c <= '9' then c as int - '0' as int
    else if 'a' <= c <= 'f' then c as int - 'a' as int + 10
    else 0
  }

  function HexValue(s: string): nat {
    if s == [] then 0 else 16 * HexValue(s[..|s| - 1]) + HexDigitValue(s[|s| - 1])
  }

  function FirstColon(s: string): (i: nat)
    ensures i <= |s| && (i < |s| ==> s[i] == ':') && forall j :: 0 <= j < i ==> s[j] != ':'
  {
    if s == [] || s[0] == ':' then 0 else 1 + FirstColon(s[1..])
  }

  /** Reads a printed option. */
  function Parse(s: string): TcpOption {
    var i := FirstColon(s);
    if i == |s| then TcpOption(s, 0) else TcpOption(s[..i], HexValue(s[i + 1..]))
  }

  lemma {:induction false} HexBack(n: nat)
    ensures HexValue(HexDigits(n)) == n
  {
    var d := n % 16;
    assert HexDigitValue(HexChar(d)) == d;
    if n >= 16 {
      HexBack(n / 16);
      var s := HexDigits(n / 16) + [HexChar(d)];
      assert s[..|s| - 1] == HexDigits(n / 16);
    }
  }

  lemma {:induction false} HexLeads(n: nat)
    ensures HexDigits(n)[0] == '0' <==> n == 0
    ensures |HexDigits(n)| == 1 <==> n < 16
  {
    if n >= 16 {
      HexLeads(n / 16);
    }
  }

  /** The printed value has at least two digits, and a leading zero only to make them two. */
  lemma Hex2Shape(n: nat)
    ensures |Hex2(n)| >= 2
    ensures |Hex2(n)| > 2 ==> Hex2(n)[0] != '0'
    ensures n >= 16 ==> Hex2(n)[0] != '0'
  {
    HexLeads(n);
  }

  lemma {:induction false} LeadingZero(s: string)
    ensures HexValue("0" + s) == HexValue(s)
  {
    if s == [] {
      assert "0" + s == "0";
    } else {
      var t := "0" + s;
      LeadingZero(s[..|s| - 1]);
      assert t[..|t| - 1] == "0" + s[..|s| - 1];
    }
  }

  lemma Hex2Back(n: nat)
    ensures HexValue(Hex2(n)) == n
  {
    HexBack(n);
    LeadingZero(HexDigits(n));
  }

  predicate NoColon(s: string) {
    forall i :: 0 <= i < |s| ==> s[i] != ':'
  }

  /** Despite the padding and the dropped zero, a printed option can be read back exactly when its kind has no colon. */
  lemma PrintedOptionReadsBack(o: TcpOption)
    ensures Parse(String(o)) == o <==> NoColon(o.kind)
  {
    var s := String(o);
    if NoColon(o.kind) && o.value != 0 {
      var k := |o.kind|;
      assert s[k] == ':' && forall j :: 0 <= j < k ==> s[j] == o.kind[j];
      assert FirstColon(s) == k;
      assert s[..k] == o.kind && s[k + 1..] == Hex2(o.value);
      Hex2Back(o.value);
    }
  }

  /** Printing is injective on options whose kinds have no colon. */
  lemma PrintingIsInjective(a: TcpOption, b: TcpOption)
    requires NoColon(a.kind) && NoColon(b.kind) && String(a) == String(b)
    ensures a == b
  {
    PrintedOptionReadsBack(a);
    PrintedOptionReadsBack(b);
  }

  /** With a colon in the kind it is not: every option with a value prints like another one without. */
  lemma ColonsCollide(a: TcpOption)
    requires a.value != 0
    ensures String(TcpOption(String(a), 0)) == String(a) && TcpOption(String(a), 0) != a
  {
  }
}
