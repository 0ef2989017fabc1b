/** Kernel releases: parsing, printing and comparing them. */
module Kernel {
  import opened Base

  datatype VersionInfo = VersionInfo(kernel: int, major: int, minor: int, flavor: string)

  // ---- Comparing ----

  function CompareKernelVersion(a: VersionInfo, b: VersionInfo): int {
    if a.kernel < b.kernel then -1
    else if a.kernel > b.kernel then 1
    else if a.major < b.major then -1
    else if a.major > b.major then 1
    else if a.minor < b.minor then -1
    else if a.minor > b.minor then 1
    else 0
  }

  predicate AtLeast(a: VersionInfo, b: VersionInfo) {
    CompareKernelVersion(a, b) >= 0
  }

  /** AtLeast is a total preorder, and it ignores the flavor. */
  lemma AtLeastIsTotalPreorder(a: VersionInfo, b: VersionInfo, c: VersionInfo)
    ensures AtLeast(a, a)
    ensures AtLeast(a, b) || AtLeast(b, a)
    ensures AtLeast(a, b) && AtLeast(b, c) ==> AtLeast(a, c)
    ensures AtLeast(a, b) && AtLeast(b, a) <==> a.(flavor := b.flavor) == b
    ensures CompareKernelVersion(a, b) == -CompareKernelVersion(b, a)
  {
  }

  /** The order is lexicographic on the three numbers, and the answer is one of -1, 0 and 1. */
  lemma CompareIsLexicographic(a: VersionInfo, b: VersionInfo)
    ensures CompareKernelVersion(a, b) == -1 || CompareKernelVersion(a, b) == 0 || CompareKernelVersion(a, b) == 1
    ensures CompareKernelVersion(a, b) < 0 <==>
              || a.kernel < b.kernel
              || (a.kernel == b.kernel && a.major < b.major)
              || (a.kernel == b.kernel && a.major == b.major && a.minor < b.minor)
    ensures CompareKernelVersion(a, b) == 0 <==> a.kernel == b.kernel && a.major == b.major && a.minor == b.minor
  {
  }

  // ---- Printing ----

  predicate IsDigit(c: char) {
    '0' <= c <= '9'
  }

  function Digits(n: nat): (s: string)
    ensures s != [] && (forall i :: 0 <= i < |s| ==> IsDigit(s[i]))
  {
    if n < 10 then ['0' + n as char] else Digits(n / 10) + ['0' + (n % 10) as char]
  }

  /** The `%d` verb. */
  function Dec(i: int): string {
    if i < 0 then "-" + Digits(-i) else Digits(i)
  }

  function String(v: VersionInfo): string {
    Dec(v.kernel) + "." + Dec(v.major) + "." + Dec(v.minor) + v.flavor
  }

  // ---- Scanning, as fmt.Sscanf does it ----

  /** The white space of package fmt. */
  predicate IsSpace(c: char) {
    var x := c as int;
    || 0x9 <= x <= 0xd || x == 0x20 || x == 0x85 || x == 0xa0 || x == 0x1680
    || 0x2000 <= x <= 0x200a || 0x2028 <= x <= 0x2029 || x == 0x202f || x == 0x205f || x == 0x3000
  }

  predicate NoSpace(s: string) {
    forall i :: 0 <= i < |s| ==> !IsSpace(s[i])
  }

  /** Skipping spaces before a verb; a newline is an error. */
  function SkipSpace(s: string): (r: Option<string>)
    ensures s == [] || !IsSpace(s[0]) ==> r == Some(s)
  {
    if s == [] then Some(s)
    else if s[0] == '\n' then None
    else if IsSpace(s[0]) then SkipSpace(s[1..])
    else Some(s)
  }

  /** The length of the digits at the front. */
  function DigitRun(s: string): (n: nat)
    ensures n <= |s| && (forall i :: 0 <= i < n ==> IsDigit(s[i])) && (n < |s| ==> !IsDigit(s[n]))
  {
    if s == [] || !IsDigit(s[0]) then 0 else 1 + DigitRun(s[1..])
  }

  /** The length of the word at the front. */
  function WordRun(s: string): (n: nat)
    ensures n <= |s| && (forall i :: 0 <= i < n ==> !IsSpace(s[i])) && (n < |s| ==> IsSpace(s[n]))
  {
    if s == [] || IsSpace(s[0]) then 0 else 1 + WordRun(s[1..])
  }

  function DigitValue(c: char): nat
    requires IsDigit(c)
  {
    c as int - '0' as int
  }

  function DigitsValue(s: string): nat
    requires forall i :: 0 <= i < |s| ==> IsDigit(s[i])
  {
    if s == [] then 0 else 10 * DigitsValue(s[..|s| - 1]) + DigitValue(s[|s| - 1])
  }

  /** Digits whose value, with the sign applied, fits 64 bits. */
  function ScanDigits(negative: bool, s: string): Option<(int, string)> {
    var n := DigitRun(s);
    if n == 0 then None
    else
      var x: int := DigitsValue(s[..n]);
      var i := if negative then -x else x;
      if INT64_MIN <= i <= INT64_MAX then Some((i, s[n..])) else None
  }

  predicate IsSign(c: char) {
    c == '+' || c == '-'
  }

  /** The `%d` verb on an int: spaces, an optional sign, digits. */
  function ScanInt(s: string): Option<(int, string)> {
    var t := SkipSpace(s);
    if t.None? then None
    else if t.value != [] && IsSign(t.value[0]) then ScanDigits(t.value[0] == '-', t.value[1..])
    else ScanDigits(false, t.value)
  }

  /** The `%s` verb; the string stays empty when there is no word to take. */
  function ScanWord(s: string): string {
    var t := SkipSpace(s);
    if t.None? then "" else t.value[..WordRun(t.value)]
  }

  /** The second pass: ".%d%s" on what followed the major number. */
  function ScanMinor(partial: string): (int, string) {
    if partial == [] || partial[0] != '.' then (0, partial)
    else
      var m := ScanInt(partial[1..]);
      if m.None? then (0, partial) else (m.value.0, ScanWord(m.value.1))
  }

  function ParseRelease(release: string): Result<VersionInfo, string> {
    var bad := Failed("Can't parse kernel version " + release);
    var k := ScanInt(release);
    if k.None? || k.value.1 == [] || k.value.1[0] != '.' then bad
    else
      var m := ScanInt(k.value.1[1..]);
      if m.None? then bad
      else
        var (minor, flavor) := ScanMinor(ScanWord(m.value.1));
        Ok(VersionInfo(k.value.0, m.value.0, minor, flavor))
  }

  // ---- Printing and parsing again ----

  predicate InRange(i: int) {
    INT64_MIN <= i <= INT64_MAX
  }

  predicate Representable(v: VersionInfo) {
    InRange(v.kernel) && InRange(v.major) && InRange(v.minor)
  }

  predicate LeadingDigit(s: string) {
    s != [] && IsDigit(s[0])
  }

  lemma {:induction false} DigitsBack(n: nat)
    ensures DigitsValue(Digits(n)) == n
  {
    if n >= 10 {
      DigitsBack(n / 10);
      var s := Digits(n / 10) + ['0' + (n % 10) as char];
      assert s[..|s| - 1] == Digits(n / 10);
    }
  }

  /** A number is printed without leading zeros. */
  lemma {:induction false} NoLeadingZero(n: nat)
    ensures Digits(n)[0] == '0' <==> n == 0
  {
    if n >= 10 {
      NoLeadingZero(n / 10);
    }
  }

  lemma {:induction false} DigitRunOf(s: string, rest: string)
    requires forall i :: 0 <= i < |s| ==> IsDigit(s[i])
    requires !LeadingDigit(rest)
    ensures DigitRun(s + rest) == |s|
  {
    if s != [] {
      DigitRunOf(s[1..], rest);
      assert (s + rest)[1..] == s[1..] + rest;
    } else {
      assert s + rest == rest;
    }
  }

  function Signed(negative: bool, n: nat): int {
    if negative then -(n as int) else n
  }

  lemma ScanDigitsOf(negative: bool, n: nat, rest: string)
    requires InRange(Signed(negative, n)) && !LeadingDigit(rest)
    ensures ScanDigits(negative, Digits(n) + rest) == Some((Signed(negative, n), rest))
  {
    var s := Digits(n) + rest;
    DigitsBack(n);
    DigitRunOf(Digits(n), rest);
    assert s[..|Digits(n)|] == Digits(n) && s[|Digits(n)|..] == rest;
  }

  lemma ScanIntPlain(s: string)
    requires LeadingDigit(s)
    ensures ScanInt(s) == ScanDigits(false, s)
  {
  }

  lemma ScanIntMinus(s: string)
    ensures ScanInt("-" + s) == ScanDigits(true, s)
  {
    assert ("-" + s)[1..] == s;
  }

  lemma Regroup3(a: string, b: string, c: string)
    ensures a + b + c == a + (b + c)
  {
  }

  lemma ScanNegative(n: nat, rest: string)
    requires InRange(Signed(true, n)) && !LeadingDigit(rest)
    ensures ScanInt("-" + Digits(n) + rest) == Some((Signed(true, n), rest))
  {
    var s := Digits(n) + rest;
    ScanIntMinus(s);
    ScanDigitsOf(true, n, rest);
    Regroup3("-", Digits(n), rest);
  }

  lemma ScanPositive(n: nat, rest: string)
    requires InRange(n) && !LeadingDigit(rest)
    ensures ScanInt(Digits(n) + rest) == Some((n, rest))
  {
    ScanIntPlain(Digits(n) + rest);
    ScanDigitsOf(false, n, rest);
  }

  lemma ScanIntOfDec(i: int, rest: string)
    requires InRange(i) && !LeadingDigit(rest)
    ensures ScanInt(Dec(i) + rest) == Some((i, rest))
  {
    if i < 0 {
      ScanNegative(-i, rest);
    } else {
      ScanPositive(i, rest);
    }
  }

  lemma {:induction false} WordRunOf(s: string)
    requires NoSpace(s)
    ensures WordRun(s) == |s|
  {
    if s != [] {
      WordRunOf(s[1..]);
    }
  }

  lemma ScanWordOf(s: string)
    requires NoSpace(s)
    ensures ScanWord(s) == s
  {
    WordRunOf(s);
  }

  lemma DecHasNoSpace(i: int)
    ensures NoSpace(Dec(i))
  {
  }

  /** A flavor without white space and without a leading digit survives printing and parsing. */
  lemma ParseUndoesString(v: VersionInfo)
    requires Representable(v) && NoSpace(v.flavor) && !LeadingDigit(v.flavor)
    ensures ParseRelease(String(v)) == Ok(v)
  {
    var partial := "." + (Dec(v.minor) + v.flavor);
    ScanMinorOf(v.minor, v.flavor);
    ParseParts(v.kernel, v.major, partial);
    Regroup6(Dec(v.kernel), ".", Dec(v.major), ".", Dec(v.minor), v.flavor);
  }

  lemma Regroup6(a: string, b: string, c: string, d: string, e: string, f: string)
    ensures a + b + c + d + e + f == a + (b + (c + (d + (e + f))))
  {
  }

  lemma ScanMinorOf(minor: int, flavor: string)
    requires InRange(minor) && NoSpace(flavor) && !LeadingDigit(flavor)
    ensures ScanMinor("." + (Dec(minor) + flavor)) == (minor, flavor)
    ensures NoSpace("." + (Dec(minor) + flavor))
  {
    var partial := "." + (Dec(minor) + flavor);
    assert partial[1..] == Dec(minor) + flavor;
    ScanIntOfDec(minor, flavor);
    ScanWordOf(flavor);
    DecHasNoSpace(minor);
  }

  lemma ParseParts(kernel: int, major: int, partial: string)
    requires InRange(kernel) && InRange(major) && !LeadingDigit(partial) && NoSpace(partial)
    ensures ParseRelease(Dec(kernel) + ("." + (Dec(major) + partial)))
            == Ok(VersionInfo(kernel, major, ScanMinor(partial).0, ScanMinor(partial).1))
  {
    var r1 := "." + (Dec(major) + partial);
    ScanIntOfDec(kernel, r1);
    assert r1[1..] == Dec(major) + partial;
    ScanIntOfDec(major, partial);
    ScanWordOf(partial);
    ParseStages(Dec(kernel) + r1, kernel, r1, major, partial);
  }

  lemma ParseStages(release: string, kernel: int, r1: string, major: int, r2: string)
    requires ScanInt(release) == Some((kernel, r1)) && r1 != [] && r1[0] == '.'
    requires ScanInt(r1[1..]) == Some((major, r2))
    ensures var last := ScanMinor(ScanWord(r2));
            ParseRelease(release) == Ok(VersionInfo(kernel, major, last.0, last.1))
  {
  }

  lemma {:induction false} SkipSpaceSuffix(s: string)
    ensures var r := SkipSpace(s); r.Some? ==> |r.value| <= |s| && r.value == s[|s| - |r.value|..]
  {
    if s != [] && s[0] != '\n' && IsSpace(s[0]) {
      SkipSpaceSuffix(s[1..]);
    }
  }

  lemma ScanIntShape(s: string)
    ensures var r := ScanInt(s);
            r.Some? ==>
              && InRange(r.value.0)
              && |r.value.1| <= |s|
              && r.value.1 == s[|s| - |r.value.1|..]
              && !LeadingDigit(r.value.1)
  {
    var t := SkipSpace(s);
    SkipSpaceSuffix(s);
    if t.Some? {
      var tail := t.value;
      assert forall k :: 0 <= k <= |tail| ==> tail[k..] == s[|s| - |tail| + k..];
    }
  }

  lemma ScanWordShape(s: string)
    ensures NoSpace(ScanWord(s))
    ensures NoSpace(s) ==> ScanWord(s) == s
  {
    if NoSpace(s) {
      ScanWordOf(s);
    }
  }

  lemma ScanMinorShape(partial: string)
    requires NoSpace(partial)
    ensures InRange(ScanMinor(partial).0) && NoSpace(ScanMinor(partial).1)
    ensures !LeadingDigit(partial) ==> !LeadingDigit(ScanMinor(partial).1)
  {
    if partial != [] && partial[0] == '.' {
      var m := ScanInt(partial[1..]);
      ScanIntShape(partial[1..]);
      if m.Some? {
        ScanWordShape(m.value.1);
      }
    }
  }

  /** What every successful parse yields. */
  lemma ParsedShape(release: string)
    requires ParseRelease(release).Ok?
    ensures var v := ParseRelease(release).value;
            && Representable(v)
            && NoSpace(v.flavor)
            && (NoSpace(release) ==> !LeadingDigit(v.flavor))
  {
    var k := ScanInt(release).value;
    ScanIntShape(release);
    var m := ScanInt(k.1[1..]).value;
    ScanIntShape(k.1[1..]);
    ScanWordShape(m.1);
    ScanMinorShape(ScanWord(m.1));
  }

  lemma StringHasNoSpace(v: VersionInfo)
    requires NoSpace(v.flavor)
    ensures NoSpace(String(v))
  {
    DecHasNoSpace(v.kernel);
    DecHasNoSpace(v.major);
    DecHasNoSpace(v.minor);
  }

  /** Parsing undoes printing exactly for flavors without white space and without a leading digit. */
  lemma RoundTripExactly(v: VersionInfo)
    requires Representable(v)
    ensures ParseRelease(String(v)) == Ok(v) <==> NoSpace(v.flavor) && !LeadingDigit(v.flavor)
  {
    if ParseRelease(String(v)) == Ok(v) {
      ParsedShape(String(v));
      StringHasNoSpace(v);
    } else if NoSpace(v.flavor) && !LeadingDigit(v.flavor) {
      ParseUndoesString(v);
    }
  }

  /** A parsed release is stable under printing exactly when its flavor does not start with a digit. */
  lemma ReparseExactly(release: string)
    requires ParseRelease(release).Ok?
    ensures var v := ParseRelease(release).value;
            && (ParseRelease(String(v)) == Ok(v) <==> !LeadingDigit(v.flavor))
            && (NoSpace(release) ==> ParseRelease(String(v)) == Ok(v))
  {
    ParsedShape(release);
    RoundTripExactly(ParseRelease(release).value);
  }

  /** White space before a word that starts with a digit: printing such a parse changes the version. */
  lemma SpaceBreaksReparse(kernel: int, major: int, word: string)
    requires InRange(kernel) && InRange(major) && NoSpace(word) && LeadingDigit(word)
    ensures var v := VersionInfo(kernel, major, 0, word);
            && ParseRelease(Dec(kernel) + ("." + (Dec(major) + (" " + word)))) == Ok(v)
            && ParseRelease(String(v)) != Ok(v)
  {
    var r2 := " " + word;
    var r1 := "." + (Dec(major) + r2);
    ScanIntOfDec(kernel, r1);
    assert r1[1..] == Dec(major) + r2;
    ScanIntOfDec(major, r2);
    ScanSpacedWord(word);
    ParseStages(Dec(kernel) + r1, kernel, r1, major, r2);
    RoundTripExactly(VersionInfo(kernel, major, 0, word));
  }

  lemma ScanSpacedWord(s: string)
    requires NoSpace(s)
    ensures ScanWord(" " + s) == s
  {
    assert (" " + s)[1..] == s;
    WordRunOf(s);
  }

  // ---- What parses, and to what ----

  /** The digits of a numeral, after its sign if it has one. */
  function Unsigned(s: string): string {
    if s != [] && IsSign(s[0]) then s[1..] else s
  }

  predicate AllDigits(s: string) {
    forall i :: 0 <= i < |s| ==> IsDigit(s[i])
  }

  function NumeralValue(s: string): int
    requires AllDigits(Unsigned(s))
  {
    Signed(s != [] && s[0] == '-', DigitsValue(Unsigned(s)))
  }

  /** An optional sign and at least one digit, with a value that fits 64 bits. */
  predicate Numeral(s: string) {
    Unsigned(s) != [] && AllDigits(Unsigned(s)) && InRange(NumeralValue(s))
  }

  lemma ScanDigitsTakes(negative: bool, ds: string, rest: string)
    requires ds != [] && AllDigits(ds) && InRange(Signed(negative, DigitsValue(ds))) && !LeadingDigit(rest)
    ensures ScanDigits(negative, ds + rest) == Some((Signed(negative, DigitsValue(ds)), rest))
  {
    var s := ds + rest;
    DigitRunOf(ds, rest);
    assert s[..|ds|] == ds && s[|ds|..] == rest;
  }

  lemma ScanIntTakes(a: string, rest: string)
    requires Numeral(a) && !LeadingDigit(rest)
    ensures ScanInt(a + rest) == Some((NumeralValue(a), rest))
  {
    var s := a + rest;
    assert s[0] == a[0];
    ScanDigitsTakes(a[0] == '-', Unsigned(a), rest);
    if IsSign(a[0]) {
      assert s[1..] == a[1..] + rest;
    }
  }

  lemma ScanIntFinds(s: string) returns (a: string, rest: string)
    requires NoSpace(s) && ScanInt(s).Some?
    ensures Numeral(a) && !LeadingDigit(rest) && NoSpace(rest) && s == a + rest && rest == ScanInt(s).value.1
  {
    var k := if IsSign(s[0]) then 1 else 0;
    var t := s[k..];
    var n := DigitRun(t);
    a, rest := s[..k + n], s[k + n..];
    assert a[k..] == t[..n] && rest == t[n..];
  }

  /** The release is two numerals with a dot between them, and a rest that does not start with a digit. */
  predicate Spells(release: string, a: string, b: string, rest: string) {
    Numeral(a) && Numeral(b) && !LeadingDigit(rest) && release == a + ("." + (b + rest))
  }

  lemma SpelledParses(a: string, b: string, rest: string)
    requires Numeral(a) && Numeral(b) && !LeadingDigit(rest) && NoSpace(rest)
    ensures ParseRelease(a + ("." + (b + rest)))
            == Ok(VersionInfo(NumeralValue(a), NumeralValue(b), ScanMinor(rest).0, ScanMinor(rest).1))
  {
    var r1 := "." + (b + rest);
    ScanIntTakes(a, r1);
    assert r1[1..] == b + rest;
    ScanIntTakes(b, rest);
    ScanWordOf(rest);
    ParseStages(a + r1, NumeralValue(a), r1, NumeralValue(b), rest);
  }

  lemma ParsedSpells(release: string) returns (a: string, b: string, rest: string)
    requires NoSpace(release) && ParseRelease(release).Ok?
    ensures Spells(release, a, b, rest)
  {
    var r1;
    a, r1 := ScanIntFinds(release);
    DotAndTail(r1);
    b, rest := ScanIntFinds(r1[1..]);
  }

  lemma DotAndTail(r: string)
    requires r != [] && r[0] == '.' && NoSpace(r)
    ensures r == "." + r[1..] && NoSpace(r[1..])
  {
  }

  /** A release without white space parses exactly when it starts with two numerals with a dot between them. */
  lemma ParsesExactly(release: string)
    requires NoSpace(release)
    ensures ParseRelease(release).Ok? <==> exists a: string, b: string, rest: string :: Spells(release, a, b, rest)
  {
    if ParseRelease(release).Ok? {
      var a, b, rest := ParsedSpells(release);
    } else if a: string, b: string, rest: string :| Spells(release, a, b, rest) {
      assert forall i :: 0 <= i < |rest| ==> rest[i] == release[|release| - |rest| + i];
      SpelledParses(a, b, rest);
    }
  }

  /** No dot and no digit after the second number, as in 3.12-1-amd64: the minor number is 0 and all the rest is flavor. */
  lemma NoMinorPart(a: string, b: string, rest: string)
    requires Numeral(a) && Numeral(b) && NoSpace(rest) && !LeadingDigit(rest) && (rest != [] ==> rest[0] != '.')
    ensures ParseRelease(a + ("." + (b + rest))) == Ok(VersionInfo(NumeralValue(a), NumeralValue(b), 0, rest))
  {
    SpelledParses(a, b, rest);
  }

  /** A third numeral after a second dot is the minor number, and what follows it is the flavor. */
  lemma MinorPart(a: string, b: string, c: string, rest: string)
    requires Numeral(a) && Numeral(b) && Numeral(c) && NoSpace(rest) && !LeadingDigit(rest)
    ensures ParseRelease(a + ("." + (b + ("." + (c + rest)))))
            == Ok(VersionInfo(NumeralValue(a), NumeralValue(b), NumeralValue(c), rest))
  {
    var partial := "." + (c + rest);
    assert partial[1..] == c + rest;
    ScanIntTakes(c, rest);
    ScanWordOf(rest);
    NumeralHasNoSpace(c);
    SpelledParses(a, b, partial);
  }

  lemma NumeralHasNoSpace(c: string)
    requires Numeral(c)
    ensures NoSpace(c)
  {
    forall i | 0 <= i < |c| ensures !IsSpace(c[i]) {
      assert i > 0 && IsSign(c[0]) ==> c[i] == Unsigned(c)[i - 1];
    }
  }

  /** A dot that no number follows, or one too large: the minor number is 0 and the dot belongs to the flavor. */
  lemma BadMinorPart(a: string, b: string, tail: string)
    requires Numeral(a) && Numeral(b) && NoSpace(tail)
    requires forall c: string, rest: string :: tail == c + rest && !LeadingDigit(rest) ==> !Numeral(c)
    ensures ParseRelease(a + ("." + (b + ("." + tail)))) == Ok(VersionInfo(NumeralValue(a), NumeralValue(b), 0, "." + tail))
  {
    var partial := "." + tail;
    assert partial[1..] == tail;
    if ScanInt(tail).Some? {
      var c, rest := ScanIntFinds(tail);
    }
    SpelledParses(a, b, partial);
  }
}
