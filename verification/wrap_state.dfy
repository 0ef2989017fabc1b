/** The counters, stamps and snapshots of a wrapped connection, and what each locked section does to them. */
module ConnState {
  import opened Base
  import opened SysInfoModel

  datatype Kind = Opened | Closed

  datatype Direction = Rx | Tx

  /** The fields of `Conn` that one direction of traffic touches. */
  datatype Half = Half(first: int, last: int, bytes: int, err: Option<Error>)

  datatype Conn = Conn(
    openedAt: int,
    closedAt: int,
    rx: Half,
    tx: Half,
    reconnects: int,
    infoErr: Option<Error>,
    openedInfo: Option<SysInfo>,
    closedInfo: Option<SysInfo>
  )
  {
    function On(d: Direction): Half {
      if d == Rx then rx else tx
    }

    function With(d: Direction, h: Half): Conn {
      if d == Rx then this.(rx := h) else this.(tx := h)
    }

    function Info(k: Kind): Option<SysInfo> {
      if k == Opened then openedInfo else closedInfo
    }
  }

  const IDLE := Half(0, 0, 0, None)

  function Fresh(openedAt: int): Conn {
    Conn(openedAt, 0, IDLE, IDLE, 0, None, None, None)
  }

  /** One finished Read or Write. The stamp is taken only when the transfer was error free and not empty. */
  datatype Completion = Completion(n: nat, err: Option<Error>, ts: int)

  predicate Good(c: Completion) {
    c.err.None? && c.n > 0
  }

  predicate Hard(err: Option<Error>) {
    err.Some? && err.value.net && !err.value.timeout
  }

  // The stores of the locked section of Read and Write, one function per store.

  function StampFirst(h: Half, c: Completion): Half {
    if Good(c) && h.first == 0 then h.(first := c.ts) else h
  }

  function StampLast(h: Half, c: Completion): Half {
    if Good(c) then h.(last := c.ts) else h
  }

  function StoreBytes(h: Half, loaded: int, n: nat): Half {
    h.(bytes := Wrap64(loaded + n))
  }

  function StoreErr(d: Direction, h: Half, err: Option<Error>): Half {
    if d == Tx || Hard(err) then h.(err := err) else h
  }

  /** The whole locked section, run without interruption. */
  function Transfer(d: Direction, h: Half, c: Completion): Half {
    var stamped := StampLast(StampFirst(h, c), c);
    StoreErr(d, StoreBytes(stamped, stamped.bytes, c.n), c.err)
  }

  /** What a gather brings back: the error of `rawConn.Control`, and the two results of `GetTCPInfo`. */
  datatype Outcome = Outcome(ctl: Option<Error>, sys: Option<SysInfo>, tcp: Option<Error>)

  predicate Fails(o: Outcome) {
    o.ctl.Some? || o.tcp.Some?
  }

  predicate Delivers(o: Outcome) {
    !Fails(o) && o.sys.Some?
  }

  /** The locked section of gatherAndReport. */
  function StoreInfo(w: Conn, k: Kind, o: Outcome): Conn {
    if o.ctl.Some? then w.(infoErr := o.ctl)
    else if o.tcp.Some? then w.(infoErr := o.tcp)
    else if o.sys.None? then w
    else if k == Opened then w.(openedInfo := o.sys)
    else w.(closedInfo := o.sys)
  }

  /** A locked section that has run to its unlock. */
  datatype Commit =
    | IoDone(d: Direction, c: Completion)
    | CloseStamped(ts: int)
    | ReconnectsSet(r: int)
    | InfoStored(k: Kind, o: Outcome)
    | Peeked(seen: Conn) // Warnings and ToMap, with the fields they read

  function Apply(w: Conn, c: Commit): Conn {
    match c
    case IoDone(d, x) => w.With(d, Transfer(d, w.On(d), x))
    case CloseStamped(ts) => w.(closedAt := ts)
    case ReconnectsSet(r) => w.(reconnects := r)
    case InfoStored(k, o) => StoreInfo(w, k, o)
    case Peeked(_) => w
  }

  /** The sequential run of a list of locked sections. */
  function Replay(openedAt: int, cs: seq<Commit>): Conn {
    if cs == [] then Fresh(openedAt)
    else Apply(Replay(openedAt, cs[..|cs| - 1]), cs[|cs| - 1])
  }

  /** The transfers of one direction, in order. */
  function Transfers(d: Direction, cs: seq<Commit>): seq<Completion> {
    if cs == [] then []
    else
      var rest := Transfers(d, cs[..|cs| - 1]);
      var c := cs[|cs| - 1];
      if c.IoDone? && c.d == d then rest + [c.c] else rest
  }

  function FoldTransfers(d: Direction, xs: seq<Completion>): Half {
    if xs == [] then IDLE
    else Transfer(d, FoldTransfers(d, xs[..|xs| - 1]), xs[|xs| - 1])
  }

  function SumBytes(xs: seq<Completion>): nat {
    if xs == [] then 0 else SumBytes(xs[..|xs| - 1]) + xs[|xs| - 1].n
  }

  /** Each half depends only on the order of its own transfers. */
  lemma {:induction false} HalvesAreIndependent(d: Direction, openedAt: int, cs: seq<Commit>)
    ensures Replay(openedAt, cs).On(d) == FoldTransfers(d, Transfers(d, cs))
  {
    if cs != [] {
      var before := cs[..|cs| - 1];
      HalvesAreIndependent(d, openedAt, before);
      var c := cs[|cs| - 1];
      if c.IoDone? && c.d == d {
        var xs := Transfers(d, before) + [c.c];
        assert xs[..|xs| - 1] == Transfers(d, before);
      }
    }
  }

  /** The good stamps lie in [lo, hi] and never decrease. */
  ghost predicate StampsOrdered(xs: seq<Completion>, lo: int, hi: int) {
    && (forall i :: 0 <= i < |xs| && Good(xs[i]) ==> lo <= xs[i].ts <= hi)
    && (forall i, j :: 0 <= i < j < |xs| && Good(xs[i]) && Good(xs[j]) ==> xs[i].ts <= xs[j].ts)
  }

  /** The position of the first good transfer; the length when there is none. */
  function FirstGood(xs: seq<Completion>): (i: nat)
    ensures i <= |xs|
    ensures i < |xs| ==> Good(xs[i])
    ensures forall j :: 0 <= j < i ==> !Good(xs[j])
  {
    if xs == [] || Good(xs[0]) then 0 else 1 + FirstGood(xs[1..])
  }

  /** The position of the last good transfer; -1 when there is none. */
  function LastGood(xs: seq<Completion>): (i: int)
    ensures -1 <= i < |xs|
    ensures i >= 0 ==> Good(xs[i])
    ensures forall j :: i < j < |xs| ==> !Good(xs[j])
  {
    if xs == [] then -1
    else if Good(xs[|xs| - 1]) then |xs| - 1
    else LastGood(xs[..|xs| - 1])
  }

  /** The position of the last transfer that ended in a hard error; -1 when there is none. */
  function LastHard(xs: seq<Completion>): (i: int)
    ensures -1 <= i < |xs|
    ensures i >= 0 ==> Hard(xs[i].err)
    ensures forall j :: i < j < |xs| ==> !Hard(xs[j].err)
  {
    if xs == [] then -1
    else if Hard(xs[|xs| - 1].err) then |xs| - 1
    else LastHard(xs[..|xs| - 1])
  }

  function FirstStamp(xs: seq<Completion>): int {
    if FirstGood(xs) < |xs| then xs[FirstGood(xs)].ts else 0
  }

  function LastStamp(xs: seq<Completion>): int {
    if LastGood(xs) >= 0 then xs[LastGood(xs)].ts else 0
  }

  /** RxErr keeps the latest hard error for ever; TxErr is whatever the latest Write returned. */
  function LatestErr(d: Direction, xs: seq<Completion>): Option<Error> {
    if d == Rx then if LastHard(xs) >= 0 then xs[LastHard(xs)].err else None
    else if xs == [] then None
    else xs[|xs| - 1].err
  }

  /** What a list of transfers must leave in the fields of its direction. */
  function Summary(d: Direction, xs: seq<Completion>): Half {
    Half(FirstStamp(xs), LastStamp(xs), Wrap64(SumBytes(xs)), LatestErr(d, xs))
  }

  lemma SumSnoc(xs: seq<Completion>, x: Completion)
    ensures SumBytes(xs + [x]) == SumBytes(xs) + x.n
  {
    assert (xs + [x])[..|xs|] == xs;
  }

  lemma {:induction false} FoldBytes(d: Direction, xs: seq<Completion>)
    ensures FoldTransfers(d, xs).bytes == Wrap64(SumBytes(xs))
  {
    if xs != [] {
      FoldBytes(d, xs[..|xs| - 1]);
      WrapOnce(SumBytes(xs[..|xs| - 1]), xs[|xs| - 1].n);
    }
  }

  lemma LastSnoc(d: Direction, xs: seq<Completion>, x: Completion)
    ensures LastStamp(xs + [x]) == if Good(x) then x.ts else LastStamp(xs)
    ensures LatestErr(d, xs + [x]) == if d == Tx || Hard(x.err) then x.err else LatestErr(d, xs)
  {
    assert (xs + [x])[..|xs|] == xs;
  }

  lemma {:induction false} FirstSnoc(xs: seq<Completion>, x: Completion)
    ensures FirstStamp(xs + [x]) == if FirstGood(xs) == |xs| && Good(x) then x.ts else FirstStamp(xs)
  {
    if xs == [] {
      assert xs + [x] == [x];
      assert FirstGood([x][1..]) == 0;
    } else if !Good(xs[0]) {
      FirstSnoc(xs[1..], x);
      assert (xs + [x])[1..] == xs[1..] + [x];
    }
  }

  lemma NoGoodStamps(xs: seq<Completion>)
    requires FirstGood(xs) == |xs|
    ensures FirstStamp(xs) == 0 && LastStamp(xs) == 0
  {
    assert LastGood(xs) < 0;
  }

  lemma GoodStamps(xs: seq<Completion>, lo: int, hi: int)
    requires StampsOrdered(xs, lo, hi) && FirstGood(xs) < |xs|
    ensures lo <= FirstStamp(xs) <= LastStamp(xs) <= hi
  {
    var i, j := FirstGood(xs), LastGood(xs);
    assert i <= j;
    StampsInOrder(xs, lo, hi, i, j);
  }

  lemma StampsInOrder(xs: seq<Completion>, lo: int, hi: int, i: nat, j: nat)
    requires StampsOrdered(xs, lo, hi) && i <= j < |xs| && Good(xs[i]) && Good(xs[j])
    ensures lo <= xs[i].ts <= xs[j].ts <= hi
  {
  }

  /** With positive stamps, a zero first stamp means that there was no good transfer. */
  lemma ZeroMeansNone(xs: seq<Completion>, lo: int, hi: int)
    requires 0 < lo && StampsOrdered(xs, lo, hi)
    ensures FirstStamp(xs) == 0 <==> FirstGood(xs) == |xs|
    ensures LastStamp(xs) == 0 <==> FirstGood(xs) == |xs|
    ensures FirstGood(xs) < |xs| ==> lo <= FirstStamp(xs) <= LastStamp(xs) <= hi
  {
    if FirstGood(xs) < |xs| {
      GoodStamps(xs, lo, hi);
    } else {
      NoGoodStamps(xs);
    }
  }

  lemma TransferSummary(d: Direction, ys: seq<Completion>, x: Completion, lo: int, hi: int)
    requires 0 < lo && StampsOrdered(ys, lo, hi)
    ensures Transfer(d, Summary(d, ys), x) == Summary(d, ys + [x])
  {
    ZeroMeansNone(ys, lo, hi);
    FirstSnoc(ys, x);
    LastSnoc(d, ys, x);
    SumSnoc(ys, x);
    WrapOnce(SumBytes(ys), x.n);
  }

  /** The sequential fold of a direction's transfers leaves exactly their summary. */
  lemma {:induction false} FoldIsSummary(d: Direction, xs: seq<Completion>, lo: int, hi: int)
    requires 0 < lo && StampsOrdered(xs, lo, hi)
    ensures FoldTransfers(d, xs) == Summary(d, xs)
  {
    if xs != [] {
      var ys := xs[..|xs| - 1];
      FoldIsSummary(d, ys, lo, hi);
      TransferSummary(d, ys, xs[|xs| - 1], lo, hi);
      assert xs == ys + [xs[|xs| - 1]];
    }
  }
}
