/**
 The wrapped connection as an object, its calls made one after the other. Every method leaves the state
 that the locked sections of ConnState describe; Serial shows that interleaved calls end in the state of
 the same sections run one after the other.
 */
module Wrap {
  import opened Base
  import opened SysInfoModel
  import opened Kernel
  import S = ConnState

  /** What the outside sees: a report, with the state the callback finds, or the closing of the socket. */
  datatype Note = Report(k: S.Kind, seen: S.Conn) | SocketClosed

  /** gatherAndReport: the new state, and whether the callback runs. */
  function Gathered(reporting: bool, supported: bool, isTcp: bool, w: S.Conn, k: S.Kind, o: S.Outcome): (S.Conn, bool) {
    if !reporting || w.Info(k).Some? then (w, false)
    else if !supported || w.infoErr.Some? || !isTcp then (w, true)
    else (S.StoreInfo(w, k, o), true)
  }

  /** A gather asks the socket: there is a callback, the snapshot is not set, and nothing stands in the way. */
  predicate Asks(reporting: bool, supported: bool, isTcp: bool, w: S.Conn, k: S.Kind) {
    && reporting && supported && isTcp && w.infoErr.None?
    && (k == S.Opened ==> w.openedInfo.None?)
    && (k == S.Closed ==> w.closedInfo.None?)
  }

  /** What a gather leaves in the fields, in terms of what the socket answered. */
  ghost predicate GatherLaw(asks: bool, w: S.Conn, w': S.Conn, k: S.Kind, o: S.Outcome) {
    && w'.(infoErr := w.infoErr, openedInfo := w.openedInfo, closedInfo := w.closedInfo) == w
    && (!asks ==> w' == w)
    && (asks && o.ctl.Some? ==> w'.infoErr == o.ctl && w'.openedInfo == w.openedInfo && w'.closedInfo == w.closedInfo)
    && (asks && o.ctl.None? && o.tcp.Some? ==>
          w'.infoErr == o.tcp && w'.openedInfo == w.openedInfo && w'.closedInfo == w.closedInfo)
    && (asks && o.ctl.None? && o.tcp.None? ==>
          && w'.infoErr == w.infoErr
          && w'.openedInfo == (if k == S.Opened && o.sys.Some? then o.sys else w.openedInfo)
          && w'.closedInfo == (if k == S.Closed && o.sys.Some? then o.sys else w.closedInfo))
  }

  /** There is a report exactly when there is a callback and the snapshot was not set before. */
  predicate Told(reporting: bool, w: S.Conn, k: S.Kind) {
    reporting && (if k == S.Opened then w.openedInfo.None? else w.closedInfo.None?)
  }

  /** The specification of gatherAndReport obeys the law. */
  lemma GatheredObeys(reporting: bool, supported: bool, isTcp: bool, w: S.Conn, k: S.Kind, o: S.Outcome)
    ensures var r := Gathered(reporting, supported, isTcp, w, k, o);
            GatherLaw(Asks(reporting, supported, isTcp, w, k), w, r.0, k, o) && r.1 == Told(reporting, w, k)
  {
  }

  function Reports(r: (S.Conn, bool), k: S.Kind): seq<Note> {
    if r.1 then [Report(k, r.0)] else []
  }

  class Conn {
    const reportStats: bool
    const supportsTCPInfo: bool
    const isTcp: bool // the wrapped connection is a TCP one with a raw connection behind it
    const openedAt: int
    var closedAt: int
    var firstRxAt: int
    var firstTxAt: int
    var lastRxAt: int
    var lastTxAt: int
    var txBytes: int
    var rxBytes: int
    var rxErr: Option<Error>
    var txErr: Option<Error>
    var infoErr: Option<Error>
    var reconnects: int
    var openedInfo: Option<SysInfo>
    var closedInfo: Option<SysInfo>
    var notes: seq<Note> // what the outside has seen so far

    function View(): S.Conn
      reads this
    {
      S.Conn(openedAt, closedAt, S.Half(firstRxAt, lastRxAt, rxBytes, rxErr), S.Half(firstTxAt, lastTxAt, txBytes, txErr),
             reconnects, infoErr, openedInfo, closedInfo)
    }

    /** WrapConnWithContext: a fresh connection, gathered and reported in Opened state. */
    constructor (now: int, reporting: bool, supported: bool, tcp: bool, o: S.Outcome)
      ensures openedAt == now && reportStats == reporting && supportsTCPInfo == supported && isTcp == tcp
      ensures var r := Gathered(reporting, supported, tcp, S.Fresh(now), S.Opened, o);
              View() == r.0 && notes == Reports(r, S.Opened)
      ensures reporting ==> notes == [Report(S.Opened, View())]
      ensures GatherLaw(reporting && supported && tcp, S.Fresh(now), View(), S.Opened, o)
    {
      reportStats, supportsTCPInfo, isTcp, openedAt := reporting, supported, tcp, now;
      closedAt, firstRxAt, firstTxAt, lastRxAt, lastTxAt := 0, 0, 0, 0, 0;
      txBytes, rxBytes, reconnects := 0, 0, 0;
      rxErr, txErr, infoErr := None, None, None;
      openedInfo, closedInfo := None, None;
      notes := [];
      new;
      GatherAndReport(S.Opened, o);
    }

    method GatherAndReport(k: S.Kind, o: S.Outcome)
      modifies this`infoErr, this`openedInfo, this`closedInfo, this`notes
      ensures var r := Gathered(reportStats, supportsTCPInfo, isTcp, old(View()), k, o);
              View() == r.0 && notes == old(notes) + Reports(r, k)
      ensures GatherLaw(Asks(reportStats, supportsTCPInfo, isTcp, old(View()), k), old(View()), View(), k, o)
      ensures notes == if Told(reportStats, old(View()), k) then old(notes) + [Report(k, View())] else old(notes)
    {
      if !reportStats {
        return;
      }
      if k == S.Opened && openedInfo.Some? {
        return;
      }
      if k == S.Closed && closedInfo.Some? {
        return;
      }
      if supportsTCPInfo && infoErr.None? && isTcp {
        if o.ctl.Some? {
          infoErr := o.ctl;
        } else if o.tcp.Some? {
          infoErr := o.tcp;
        } else if o.sys.Some? {
          if k == S.Opened {
            openedInfo := o.sys;
          } else {
            closedInfo := o.sys;
          }
        }
      }
      notes := notes + [Report(k, View())];
    }

    method SetReconnects(r: int)
      modifies this`reconnects
      ensures View() == S.Apply(old(View()), S.ReconnectsSet(r)) && reconnects == r
    {
      reconnects := r;
    }

    /** The report, if there is one, comes before the socket is closed and shows the close time. */
    method Close(now: int, o: S.Outcome)
      modifies this`closedAt, this`infoErr, this`openedInfo, this`closedInfo, this`notes
      ensures var r := Gathered(reportStats, supportsTCPInfo, isTcp, S.Apply(old(View()), S.CloseStamped(now)), S.Closed, o);
              View() == r.0 && notes == old(notes) + Reports(r, S.Closed) + [SocketClosed]
      ensures closedAt == now
      ensures GatherLaw(Asks(reportStats, supportsTCPInfo, isTcp, old(View()), S.Closed), old(View()).(closedAt := now), View(), S.Closed, o)
    {
      closedAt := now;
      GatherAndReport(S.Closed, o);
      notes := notes + [SocketClosed];
    }

    method Read(n: nat, err: Option<Error>, now: int) returns (count: nat, e: Option<Error>)
      modifies this`firstRxAt, this`lastRxAt, this`rxBytes, this`rxErr
      ensures count == n && e == err
      ensures View() == S.Apply(old(View()), S.IoDone(S.Rx, S.Completion(n, err, now)))
    {
      if err.None? && n > 0 {
        if firstRxAt == 0 {
          firstRxAt := now;
          lastRxAt := now;
        } else {
          lastRxAt := now;
        }
      }
      rxBytes := Wrap64(rxBytes + n);
      if err.Some? && err.value.net && !err.value.timeout {
        rxErr := err;
      }
      return n, err;
    }

    method Write(n: nat, err: Option<Error>, now: int) returns (count: nat, e: Option<Error>)
      modifies this`firstTxAt, this`lastTxAt, this`txBytes, this`txErr
      ensures count == n && e == err
      ensures View() == S.Apply(old(View()), S.IoDone(S.Tx, S.Completion(n, err, now)))
    {
      if err.None? && n > 0 {
        if firstTxAt == 0 {
          firstTxAt := now;
          lastTxAt := now;
        } else {
          lastTxAt := now;
        }
      }
      txBytes := Wrap64(txBytes + n);
      txErr := err;
      if err.Some? && err.value.net && !err.value.timeout {
        txErr := err;
      }
      return n, err;
    }

    method Warnings() returns (warns: seq<string>)
      ensures warns == WarningsOf(View())
    {
      warns := [];
      if reconnects > 0 {
        warns := ["reconnects=" + Dec(reconnects)];
      }
      var more := SnapshotWarnings([openedInfo, closedInfo]);
      warns := warns + more;
    }
  }

  /** The loop over the snapshots in warnings. */
  method SnapshotWarnings(infos: seq<Option<SysInfo>>) returns (warns: seq<string>)
    ensures warns == InfosWarnings(infos)
  {
    warns := [];
    for i := 0 to |infos|
      invariant warns == InfosWarnings(infos[..i])
    {
      assert infos[..i + 1][..i] == infos[..i];
      var info := infos[i];
      if info.None? {
        continue;
      }
      var more := Warn(true, "retransmits=", info.value.plain.totalRetrans) + SysWarnings(info.value);
      warns := warns + more;
    }
    assert infos[..|infos|] == infos;
  }

  // ---- Warnings ----

  function Warn(raised: bool, text: string, x: nat): seq<string> {
    if raised && x > 0 then [text + Dec(x)] else []
  }

  /** SysInfo.Warnings on Linux. */
  function SysWarnings(u: SysInfo): seq<string> {
    Warn(u.nullable.bytesRetrans.valid, "retransBytes=", u.nullable.bytesRetrans.value)
    + Warn(true, "retransTotal=", u.plain.totalRetrans)
    + Warn(true, "backoff=", u.plain.backoff)
    + Warn(u.nullable.rxOutOfOrder.valid, "outOfOrderBytes=", u.nullable.rxOutOfOrder.value)
    + Warn(u.nullable.txBufferLimited.valid, "txSendBufferLimited=", u.nullable.txBufferLimited.value)
    + Warn(u.nullable.rxWindowLimited.valid, "rxWindowLimited=", u.nullable.rxWindowLimited.value)
  }

  function InfoWarnings(i: Option<SysInfo>): seq<string> {
    if i.None? then [] else Warn(true, "retransmits=", i.value.plain.totalRetrans) + SysWarnings(i.value)
  }

  /** The results of f, one after the other. */
  function Each<T>(f: T -> seq<string>, xs: seq<T>): seq<string> {
    if xs == [] then [] else Each(f, xs[..|xs| - 1]) + f(xs[|xs| - 1])
  }

  const INFO_WARNINGS: Option<SysInfo> -> seq<string> := i => InfoWarnings(i)

  function InfosWarnings(infos: seq<Option<SysInfo>>): seq<string> {
    Each(INFO_WARNINGS, infos)
  }

  function WarningsOf(w: S.Conn): seq<string> {
    (if w.reconnects > 0 then ["reconnects=" + Dec(w.reconnects)] else []) + InfosWarnings([w.openedInfo, w.closedInfo])
  }

  // ---- Which warnings, in which order ----

  datatype Signal = Retransmitted | RetransBytes | RetransTotal | BackedOff | OutOfOrder | TxLimited | RxLimited

  const SIGNALS := [Retransmitted, RetransBytes, RetransTotal, BackedOff, OutOfOrder, TxLimited, RxLimited]

  /** What a snapshot says about a signal; zero when the field is not Valid. */
  function Reading(u: SysInfo, s: Signal): nat {
    match s
    case Retransmitted => u.plain.totalRetrans
    case RetransBytes => if u.nullable.bytesRetrans.valid then u.nullable.bytesRetrans.value else 0
    case RetransTotal => u.plain.totalRetrans
    case BackedOff => u.plain.backoff
    case OutOfOrder => if u.nullable.rxOutOfOrder.valid then u.nullable.rxOutOfOrder.value else 0
    case TxLimited => if u.nullable.txBufferLimited.valid then u.nullable.txBufferLimited.value else 0
    case RxLimited => if u.nullable.rxWindowLimited.valid then u.nullable.rxWindowLimited.value else 0
  }

  function Label(s: Signal): string {
    match s
    case Retransmitted => "retransmits="
    case RetransBytes => "retransBytes="
    case RetransTotal => "retransTotal="
    case BackedOff => "backoff="
    case OutOfOrder => "outOfOrderBytes="
    case TxLimited => "txSendBufferLimited="
    case RxLimited => "rxWindowLimited="
  }

  /** The line for a signal; none when it is zero. */
  function LineOf(u: SysInfo, s: Signal): seq<string> {
    if Reading(u, s) > 0 then [Label(s) + Dec(Reading(u, s))] else []
  }

  /** The lines of the signals, in the order given. */
  function Lines(u: SysInfo, ss: seq<Signal>): seq<string> {
    if ss == [] then [] else LineOf(u, ss[0]) + Lines(u, ss[1..])
  }

  function LinesOf(i: Option<SysInfo>): seq<string> {
    if i.Some? then Lines(i.value, SIGNALS) else []
  }

  lemma LinesCons(u: SysInfo, s: Signal, ss: seq<Signal>)
    ensures Lines(u, [s] + ss) == LineOf(u, s) + Lines(u, ss)
  {
    assert ([s] + ss)[1..] == ss;
  }

  lemma SevenLines(u: SysInfo)
    ensures Lines(u, SIGNALS)
            == LineOf(u, Retransmitted) + (LineOf(u, RetransBytes) + (LineOf(u, RetransTotal) + (LineOf(u, BackedOff)
               + (LineOf(u, OutOfOrder) + (LineOf(u, TxLimited) + (LineOf(u, RxLimited) + []))))))
  {
    var six := [RxLimited] + [];
    var five := [TxLimited] + six;
    var four := [OutOfOrder] + five;
    var three := [BackedOff] + four;
    var two := [RetransTotal] + three;
    var one := [RetransBytes] + two;
    LinesCons(u, RxLimited, []);
    LinesCons(u, TxLimited, six);
    LinesCons(u, OutOfOrder, five);
    LinesCons(u, BackedOff, four);
    LinesCons(u, RetransTotal, three);
    LinesCons(u, RetransBytes, two);
    LinesCons(u, Retransmitted, one);
    assert SIGNALS == [Retransmitted] + one;
  }

  lemma Regroup7(a: seq<string>, b: seq<string>, c: seq<string>, d: seq<string>, e: seq<string>, f: seq<string>, g: seq<string>)
    ensures a + (b + c + d + e + f + g) == a + (b + (c + (d + (e + (f + (g + []))))))
  {
  }

  /** A snapshot's warnings are the lines of its signals. */
  lemma SnapshotLines(i: Option<SysInfo>)
    ensures InfoWarnings(i) == LinesOf(i)
  {
    if i.Some? {
      var u := i.value;
      SevenLines(u);
      Regroup7(LineOf(u, Retransmitted), LineOf(u, RetransBytes), LineOf(u, RetransTotal), LineOf(u, BackedOff),
               LineOf(u, OutOfOrder), LineOf(u, TxLimited), LineOf(u, RxLimited));
    }
  }

  lemma EachOfTwo<T>(f: T -> seq<string>, a: T, b: T)
    ensures Each(f, [a, b]) == f(a) + f(b)
  {
    assert [a, b][..1] == [a] && [a][..0] == [];
    assert Each(f, [a]) == Each(f, []) + f(a);
  }

  lemma BothSnapshots(a: Option<SysInfo>, b: Option<SysInfo>)
    ensures InfosWarnings([a, b]) == InfoWarnings(a) + InfoWarnings(b)
  {
    EachOfTwo(INFO_WARNINGS, a, b);
  }

  lemma RegroupTwo(a: seq<string>, b: seq<string>, c: seq<string>)
    ensures a + (b + c) == a + b + c
  {
  }

  /** The warnings of a connection: the reconnects, the lines of the opening snapshot, those of the closing one. */
  lemma WarningsInOrder(w: S.Conn)
    ensures WarningsOf(w) == (if w.reconnects > 0 then ["reconnects=" + Dec(w.reconnects)] else []) + LinesOf(w.openedInfo) + LinesOf(w.closedInfo)
  {
    BothSnapshots(w.openedInfo, w.closedInfo);
    SnapshotLines(w.openedInfo);
    SnapshotLines(w.closedInfo);
    RegroupTwo(if w.reconnects > 0 then ["reconnects=" + Dec(w.reconnects)] else [], LinesOf(w.openedInfo), LinesOf(w.closedInfo));
  }

  predicate Raised(n: Nullable) {
    n.valid && n.value > 0
  }

  /** Nothing in a snapshot calls for a warning. */
  predicate Healthy(i: Option<SysInfo>) {
    i.Some? ==>
      && i.value.plain.totalRetrans == 0
      && i.value.plain.backoff == 0
      && !Raised(i.value.nullable.bytesRetrans)
      && !Raised(i.value.nullable.rxOutOfOrder)
      && !Raised(i.value.nullable.txBufferLimited)
      && !Raised(i.value.nullable.rxWindowLimited)
  }

  /** There is no warning exactly when there were no reconnects and both snapshots are healthy. */
  lemma SilentIffHealthy(w: S.Conn)
    ensures WarningsOf(w) == [] <==> w.reconnects <= 0 && Healthy(w.openedInfo) && Healthy(w.closedInfo)
  {
    BothSnapshots(w.openedInfo, w.closedInfo);
    EmptyIffHealthy(w.openedInfo);
    EmptyIffHealthy(w.closedInfo);
  }

  lemma EmptyIffHealthy(i: Option<SysInfo>)
    ensures InfoWarnings(i) == [] <==> Healthy(i)
  {
  }
}
