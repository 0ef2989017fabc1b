/**
 A call that nobody interrupts. The object of Wrap and the machine of Protocol describe the same
 connection: run alone, a call takes the machine to the state that the object's method promises.
 */
module Alone {
  import opened Base
  import opened ConnState
  import opened Protocol
  import opened Serial
  import W = Wrap

  // ---- Steps of one goroutine ----

  /** What a goroutine that runs alone can see and change. */
  datatype Solo = Solo(frame: Option<Frame>, conn: Conn, clock: int, hist: seq<Event>)

  function Step(cfg: Config, t: nat, c: Choice, l: Solo): Solo
    requires l.frame.Some?
  {
    var r := React(cfg, t, l.frame.value, l.conn, l.clock, c);
    Solo(r.next, r.conn, r.clock, if r.event.Some? then l.hist + [r.event.value] else l.hist)
  }

  /** At most n steps, fewer if the call returns. */
  function Steps(cfg: Config, t: nat, c: Choice, l: Solo, n: nat): Solo
    decreases n
  {
    if n == 0 || l.frame.None? then l else Steps(cfg, t, c, Step(cfg, t, c, l), n - 1)
  }

  /** Goroutine t is in a call, and nobody else holds the lock. */
  ghost predicate Ready(s: State, t: nat, c: Choice) {
    && t < |s.threads|
    && s.threads[t] != []
    && s.owner == (if Holding(Top(s.threads[t])) then Some(t) else None)
    && s.clock <= c.ts
  }

  function Local(s: State, t: nat): Solo
    requires t < |s.threads| && s.threads[t] != []
  {
    Solo(Some(Top(s.threads[t])), s.conn, s.clock, s.hist)
  }

  /** The call of goroutine t as l leaves it; the others have not moved. */
  ghost predicate Reached(s: State, t: nat, l: Solo, s': State)
    requires t < |s.threads| && s.threads[t] != []
  {
    && s'.threads == s.threads[t := if l.frame.Some? then Swap(s.threads[t], l.frame.value) else Pop(s.threads[t])]
    && s'.owner == (if l.frame.Some? && Holding(l.frame.value) then Some(t) else None)
    && s'.conn == l.conn
    && s'.hist == l.hist
  }

  lemma OneStep(cfg: Config, s: State, t: nat, c: Choice)
    requires Ready(s, t, c)
    ensures Enabled(s, Advance(t, c))
    ensures var s' := Next(cfg, s, Advance(t, c));
            var l := Step(cfg, t, c, Local(s, t));
            Reached(s, t, l, s') && s'.clock == l.clock <= c.ts
  {
    ReactionLocks(cfg, t, Top(s.threads[t]), s.conn, s.clock, c);
    ClockKept(cfg, t, Top(s.threads[t]), s.conn, s.clock, c);
  }

  lemma ClockKept(cfg: Config, t: nat, f: Frame, w: Conn, now: int, c: Choice)
    requires now <= c.ts
    ensures React(cfg, t, f, w, now, c).clock <= c.ts
  {
  }

  lemma SwapTwice(ts: seq<Stack>, t: nat, f: Frame, g: Option<Frame>)
    requires t < |ts| && ts[t] != []
    ensures var us := ts[t := Swap(ts[t], f)];
            us[t := if g.Some? then Swap(us[t], g.value) else Pop(us[t])]
            == ts[t := if g.Some? then Swap(ts[t], g.value) else Pop(ts[t])]
  {
    assert Pop(Swap(ts[t], f)) == Pop(ts[t]);
  }

  lemma StillReady(s: State, t: nat, c: Choice, l: Solo, s1: State)
    requires t < |s.threads| && s.threads[t] != []
    requires Reached(s, t, l, s1) && l.frame.Some? && s1.clock == l.clock <= c.ts
    ensures Ready(s1, t, c) && Local(s1, t) == l
  {
  }

  lemma ReachedAgain(s: State, t: nat, l: Solo, s1: State, l2: Solo, s2: State)
    requires t < |s.threads| && s.threads[t] != []
    requires Reached(s, t, l, s1) && l.frame.Some? && Reached(s1, t, l2, s2)
    ensures Reached(s, t, l2, s2)
  {
    SwapTwice(s.threads, t, l.frame.value, l2.frame);
  }

  /** The machine can make the steps of a goroutine alone. */
  lemma {:induction false} RunsAlone(cfg: Config, s: State, t: nat, c: Choice, n: nat) returns (acts: seq<Action>)
    requires Ready(s, t, c)
    ensures Runs(cfg, s, acts) && OnlyAdvances(acts)
    ensures Reached(s, t, Steps(cfg, t, c, Local(s, t), n), Final(cfg, s, acts))
    decreases n
  {
    if n == 0 {
      acts := [];
      assert Swap(s.threads[t], Top(s.threads[t])) == s.threads[t];
    } else {
      var a := Advance(t, c);
      OneStep(cfg, s, t, c);
      var s1 := Next(cfg, s, a);
      var l := Step(cfg, t, c, Local(s, t));
      if l.frame.None? {
        RunsCons(cfg, s, a, []);
        acts := [a] + [];
      } else {
        StillReady(s, t, c, l, s1);
        var rest := RunsAlone(cfg, s1, t, c, n - 1);
        RunsCons(cfg, s, a, rest);
        acts := [a] + rest;
        ReachedAgain(s, t, l, s1, Steps(cfg, t, c, l, n - 1), Final(cfg, s1, rest));
      }
    }
  }

  lemma {:induction false} StepsAdd(cfg: Config, t: nat, c: Choice, l: Solo, m: nat, n: nat)
    ensures Steps(cfg, t, c, l, m + n) == Steps(cfg, t, c, Steps(cfg, t, c, l, m), n)
    decreases m
  {
    if m > 0 && l.frame.Some? {
      StepsAdd(cfg, t, c, Step(cfg, t, c, l), m - 1, n);
    }
  }

  // ---- Read and Write ----

  /** The first half of the locked section: the stamps, and the load of the counter. */
  lemma StampsAlone(cfg: Config, t: nat, c: Choice, d: Direction, w: Conn, now: int, h: seq<Event>) returns (x: Completion)
    ensures x.n == c.n && x.err == c.err && (Good(x) ==> x.ts == c.ts)
    ensures var l := Steps(cfg, t, c, Solo(Some(IoHold(d, 0, Completion(c.n, c.err, 0), 0)), w, now, h), 3);
            var stamped := StampLast(StampFirst(w.On(d), x), x);
            l.frame == Some(IoHold(d, 3, x, stamped.bytes)) && l.conn == w.With(d, stamped)
  {
    var l0 := Solo(Some(IoHold(d, 0, Completion(c.n, c.err, 0), 0)), w, now, h);
    var l1 := Step(cfg, t, c, l0);
    var l2 := Step(cfg, t, c, l1);
    var l3 := Step(cfg, t, c, l2);
    assert Steps(cfg, t, c, l0, 3) == Steps(cfg, t, c, l1, 2) == Steps(cfg, t, c, l2, 1) == l3;
    x := l1.frame.value.c;
  }

  /** The second half: the counter and the error. */
  lemma CountAlone(cfg: Config, t: nat, c: Choice, d: Direction, x: Completion, w: Conn, now: int, h: seq<Event>)
    ensures var l := Steps(cfg, t, c, Solo(Some(IoHold(d, 3, x, w.On(d).bytes)), w, now, h), 3);
            l.frame.None? && l.conn == w.With(d, StoreErr(d, StoreBytes(w.On(d), w.On(d).bytes, x.n), x.err))
  {
    var l0 := Solo(Some(IoHold(d, 3, x, w.On(d).bytes)), w, now, h);
    var l1 := Step(cfg, t, c, l0);
    var l2 := Step(cfg, t, c, l1);
    var l3 := Step(cfg, t, c, l2);
    assert Steps(cfg, t, c, l0, 3) == Steps(cfg, t, c, l1, 2) == Steps(cfg, t, c, l2, 1) == l3;
  }

  lemma SectionAlone(cfg: Config, t: nat, c: Choice, d: Direction, w: Conn, now: int, h: seq<Event>)
    ensures var l := Steps(cfg, t, c, Solo(Some(IoHold(d, 0, Completion(c.n, c.err, 0), 0)), w, now, h), 6);
            l.frame.None? && l.conn == Apply(w, IoDone(d, Completion(c.n, c.err, c.ts)))
  {
    var l0 := Solo(Some(IoHold(d, 0, Completion(c.n, c.err, 0), 0)), w, now, h);
    var x := StampsAlone(cfg, t, c, d, w, now, h);
    var l3 := Steps(cfg, t, c, l0, 3);
    StepsAdd(cfg, t, c, l0, 3, 3);
    CountAlone(cfg, t, c, d, x, l3.conn, l3.clock, l3.hist);
  }

  lemma TransferAlone(cfg: Config, t: nat, c: Choice, d: Direction, w: Conn, now: int, h: seq<Event>)
    ensures var l := Steps(cfg, t, c, Solo(Some(IoCall(d)), w, now, h), 8);
            l.frame.None? && l.conn == Apply(w, IoDone(d, Completion(c.n, c.err, c.ts)))
  {
    var l0 := Solo(Some(IoCall(d)), w, now, h);
    var l1 := Step(cfg, t, c, l0);
    var l2 := Step(cfg, t, c, l1);
    assert Steps(cfg, t, c, l0, 8) == Steps(cfg, t, c, l1, 7) == Steps(cfg, t, c, l2, 6);
    SectionAlone(cfg, t, c, d, w, now, l2.hist);
  }

  // ---- gatherAndReport and Close ----

  /** What the outside sees of a history, and of the object's notes. */
  datatype Sight = Told(k: Kind) | Shut

  function Sights(h: seq<Event>): seq<Sight> {
    if h == [] then []
    else
      var rest := Sights(h[..|h| - 1]);
      match h[|h| - 1]
      case Reported(_, k) => rest + [Told(k)]
      case SockClosed(_) => rest + [Shut]
      case _ => rest
  }

  lemma SightsSnoc(h: seq<Event>, e: Event)
    ensures Sights(h + [e]) == Sights(h) + (if e.Reported? then [Told(e.k)] else if e.SockClosed? then [Shut] else [])
  {
    Snoc(h, e);
  }

  function SightsOf(notes: seq<W.Note>): seq<Sight> {
    seq(|notes|, i requires 0 <= i < |notes| => if notes[i].Report? then Told(notes[i].k) else Shut)
  }

  /** What is left of a call after gatherAndReport. */
  function After(k: Kind): Option<Frame> {
    if k == Opened then None else Some(SockClose)
  }

  /** How many steps gatherAndReport takes. */
  function GatherLength(cfg: Config, w: Conn, k: Kind): nat {
    if !cfg.reporting || w.Info(k).Some? then 1
    else if !cfg.supported || w.infoErr.Some? || !cfg.tcp then 4
    else 8
  }

  ghost predicate GatheredTo(cfg: Config, c: Choice, k: Kind, w: Conn, h: seq<Event>, l: Solo) {
    var r := W.Gathered(cfg.reporting, cfg.supported, cfg.tcp, w, k, c.o);
    && l.frame == After(k)
    && l.conn == r.0
    && Sights(l.hist) == Sights(h) + SightsOf(W.Reports(r, k))
  }

  lemma StoreAlone(cfg: Config, t: nat, c: Choice, k: Kind, w: Conn, now: int, h: seq<Event>)
    ensures var l := Steps(cfg, t, c, Solo(Some(Fetch(k)), w, now, h), 4);
            && l.frame == Some(CallbackDue(k)) && l.conn == StoreInfo(w, k, c.o) && l.clock == now
            && Sights(l.hist) == Sights(h)
  {
    var l0 := Solo(Some(Fetch(k)), w, now, h);
    var l1 := Step(cfg, t, c, l0);
    var l2 := Step(cfg, t, c, l1);
    var l3 := Step(cfg, t, c, l2);
    var l4 := Step(cfg, t, c, l3);
    assert Steps(cfg, t, c, l0, 4) == Steps(cfg, t, c, l1, 3) == Steps(cfg, t, c, l2, 2) == Steps(cfg, t, c, l3, 1) == l4;
    SightsSnoc(h, Fetched(t, k));
    SightsSnoc(l1.hist, Took(t));
    SightsSnoc(l2.hist, Wrote(t, k, c.o));
    SightsSnoc(l3.hist, Committed(t, InfoStored(k, c.o)));
  }

  lemma ReportAlone(cfg: Config, t: nat, c: Choice, k: Kind, w: Conn, now: int, h: seq<Event>)
    ensures var l := Steps(cfg, t, c, Solo(Some(CallbackDue(k)), w, now, h), 2);
            l.frame == After(k) && l.conn == w && Sights(l.hist) == Sights(h) + [Told(k)]
  {
    var l0 := Solo(Some(CallbackDue(k)), w, now, h);
    var l1 := Step(cfg, t, c, l0);
    var l2 := Step(cfg, t, c, l1);
    assert Steps(cfg, t, c, l0, 2) == Steps(cfg, t, c, l1, 1) == l2;
    SightsSnoc(h, Reported(t, k));
  }

  /** Past the guard with nothing to gather. */
  lemma SkipAlone(cfg: Config, t: nat, c: Choice, k: Kind, w: Conn, now: int, h: seq<Event>)
    requires !cfg.supported || w.infoErr.Some? || !cfg.tcp
    ensures var l := Steps(cfg, t, c, Solo(Some(ErrCheck(k)), w, now, h), 3);
            l.frame == After(k) && l.conn == w && Sights(l.hist) == Sights(h) + [Told(k)]
  {
    var l0 := Solo(Some(ErrCheck(k)), w, now, h);
    assert Steps(cfg, t, c, l0, 3) == Steps(cfg, t, c, Step(cfg, t, c, l0), 2);
    ReportAlone(cfg, t, c, k, w, now, h);
  }

  /** Past the guard with a gather. */
  lemma FetchAlone(cfg: Config, t: nat, c: Choice, k: Kind, w: Conn, now: int, h: seq<Event>)
    requires cfg.supported && w.infoErr.None? && cfg.tcp
    ensures var l := Steps(cfg, t, c, Solo(Some(ErrCheck(k)), w, now, h), 7);
            l.frame == After(k) && l.conn == StoreInfo(w, k, c.o) && Sights(l.hist) == Sights(h) + [Told(k)]
  {
    var l0 := Solo(Some(ErrCheck(k)), w, now, h);
    var l1 := Step(cfg, t, c, l0);
    assert Steps(cfg, t, c, l0, 7) == Steps(cfg, t, c, l1, 6);
    StoreAlone(cfg, t, c, k, w, now, h);
    var l5 := Steps(cfg, t, c, l1, 4);
    StepsAdd(cfg, t, c, l1, 4, 2);
    ReportAlone(cfg, t, c, k, l5.conn, now, l5.hist);
  }

  lemma GatherAlone(cfg: Config, t: nat, c: Choice, k: Kind, w: Conn, now: int, h: seq<Event>)
    ensures GatheredTo(cfg, c, k, w, h,
                       Steps(cfg, t, c, Solo(Some(Guard(k)), w, now, h), GatherLength(cfg, w, k)))
  {
    var l0 := Solo(Some(Guard(k)), w, now, h);
    var n := GatherLength(cfg, w, k);
    assert Steps(cfg, t, c, l0, n) == Steps(cfg, t, c, Step(cfg, t, c, l0), n - 1);
    if n == 4 {
      SkipAlone(cfg, t, c, k, w, now, h);
    } else if n == 8 {
      FetchAlone(cfg, t, c, k, w, now, h);
    }
  }

  lemma StampAlone(cfg: Config, t: nat, c: Choice, w: Conn, now: int, h: seq<Event>)
    ensures var l := Steps(cfg, t, c, Solo(Some(CloseWait), w, now, h), 3);
            && l.frame == Some(Guard(Closed)) && l.conn == Apply(w, CloseStamped(c.ts))
            && Sights(l.hist) == Sights(h)
  {
    var l0 := Solo(Some(CloseWait), w, now, h);
    var l1 := Step(cfg, t, c, l0);
    var l2 := Step(cfg, t, c, l1);
    var l3 := Step(cfg, t, c, l2);
    assert Steps(cfg, t, c, l0, 3) == Steps(cfg, t, c, l1, 2) == Steps(cfg, t, c, l2, 1) == l3;
    SightsSnoc(h, Took(t));
    SightsSnoc(l1.hist, Committed(t, CloseStamped(c.ts)));
  }

  ghost predicate ClosedTo(cfg: Config, c: Choice, w: Conn, h: seq<Event>, l: Solo) {
    var r := W.Gathered(cfg.reporting, cfg.supported, cfg.tcp, Apply(w, CloseStamped(c.ts)), Closed, c.o);
    && l.frame.None?
    && l.conn == r.0
    && Sights(l.hist) == Sights(h) + SightsOf(W.Reports(r, Closed)) + [Shut]
  }

  lemma ShutAlone(cfg: Config, t: nat, c: Choice, w: Conn, now: int, h: seq<Event>)
    ensures var l := Steps(cfg, t, c, Solo(Some(SockClose), w, now, h), 1);
            l.frame.None? && l.conn == w && Sights(l.hist) == Sights(h) + [Shut]
  {
    var l0 := Solo(Some(SockClose), w, now, h);
    assert Steps(cfg, t, c, l0, 1) == Step(cfg, t, c, l0);
    SightsSnoc(h, SockClosed(t));
  }

  /** The stamp and the gather of Close, one after the other. */
  lemma StampAndGather(cfg: Config, t: nat, c: Choice, w: Conn, now: int, h: seq<Event>) returns (n: nat)
    ensures GatheredTo(cfg, c, Closed, Apply(w, CloseStamped(c.ts)), h,
                       Steps(cfg, t, c, Solo(Some(CloseWait), w, now, h), n))
  {
    var l0 := Solo(Some(CloseWait), w, now, h);
    StampAlone(cfg, t, c, w, now, h);
    var l3 := Steps(cfg, t, c, l0, 3);
    var m := GatherLength(cfg, l3.conn, Closed);
    GatherAlone(cfg, t, c, Closed, l3.conn, l3.clock, l3.hist);
    StepsAdd(cfg, t, c, l0, 3, m);
    n := 3 + m;
  }

  lemma CloseAlone(cfg: Config, t: nat, c: Choice, w: Conn, now: int, h: seq<Event>) returns (n: nat)
    ensures ClosedTo(cfg, c, w, h, Steps(cfg, t, c, Solo(Some(CloseWait), w, now, h), n))
  {
    var l0 := Solo(Some(CloseWait), w, now, h);
    var m := StampAndGather(cfg, t, c, w, now, h);
    var l := Steps(cfg, t, c, l0, m);
    ShutAlone(cfg, t, c, l.conn, l.clock, l.hist);
    StepsAdd(cfg, t, c, l0, m, 1);
    n := m + 1;
  }

  // ---- The object's calls as runs of the machine ----

  /** Goroutine t has returned from its call, nobody holds the lock, and the others have not moved. */
  ghost predicate Returned(s: State, t: nat, s': State)
    requires t < |s.threads| && s.threads[t] != []
  {
    s'.threads == s.threads[t := Pop(s.threads[t])] && s'.owner.None?
  }

  /** Wrap.Conn.Read and Wrap.Conn.Write. */
  lemma TransferIsARun(cfg: Config, s: State, t: nat, c: Choice, d: Direction) returns (acts: seq<Action>)
    requires Ready(s, t, c) && Top(s.threads[t]) == IoCall(d)
    ensures Runs(cfg, s, acts) && Returned(s, t, Final(cfg, s, acts))
    ensures Final(cfg, s, acts).conn == Apply(s.conn, IoDone(d, Completion(c.n, c.err, c.ts)))
  {
    TransferAlone(cfg, t, c, d, s.conn, s.clock, s.hist);
    acts := RunsAlone(cfg, s, t, c, 8);
  }

  /** Wrap.Conn.Close: the same fields, and the same report and closing for the outside to see. */
  lemma CloseIsARun(cfg: Config, s: State, t: nat, c: Choice) returns (acts: seq<Action>)
    requires Ready(s, t, c) && Top(s.threads[t]) == CloseWait
    ensures Runs(cfg, s, acts) && Returned(s, t, Final(cfg, s, acts))
    ensures var r := W.Gathered(cfg.reporting, cfg.supported, cfg.tcp, Apply(s.conn, CloseStamped(c.ts)), Closed, c.o);
            && Final(cfg, s, acts).conn == r.0
            && Sights(Final(cfg, s, acts).hist) == Sights(s.hist) + SightsOf(W.Reports(r, Closed)) + [Shut]
  {
    var n := CloseAlone(cfg, t, c, s.conn, s.clock, s.hist);
    acts := RunsAlone(cfg, s, t, c, n);
  }

  /** The constructor of Wrap.Conn: the fields and the report of a fresh connection. */
  lemma OpenIsARun(cfg: Config, openedAt: int, c: Choice) returns (acts: seq<Action>)
    requires openedAt <= c.ts
    ensures Runs(cfg, Init(openedAt), acts) && OnlyAdvances(acts)
    ensures Returned(Init(openedAt), 0, Final(cfg, Init(openedAt), acts))
    ensures var r := W.Gathered(cfg.reporting, cfg.supported, cfg.tcp, Fresh(openedAt), Opened, c.o);
            && Final(cfg, Init(openedAt), acts).conn == r.0
            && Sights(Final(cfg, Init(openedAt), acts).hist) == SightsOf(W.Reports(r, Opened))
  {
    var s := Init(openedAt);
    GatherAlone(cfg, 0, c, Opened, s.conn, s.clock, s.hist);
    acts := RunsAlone(cfg, s, 0, c, GatherLength(cfg, s.conn, Opened));
  }

  // ---- Whole calls ----

  lemma SetAlone(cfg: Config, t: nat, c: Choice, r: int, w: Conn, now: int, h: seq<Event>)
    ensures var l := Steps(cfg, t, c, Solo(Some(SetWait(r)), w, now, h), 3); l.frame.None? && l.conn == w.(reconnects := r)
  {
    var l0 := Solo(Some(SetWait(r)), w, now, h);
    var l1 := Step(cfg, t, c, l0);
    var l2 := Step(cfg, t, c, l1);
    var l3 := Step(cfg, t, c, l2);
    assert Steps(cfg, t, c, l0, 3) == Steps(cfg, t, c, l1, 2) == Steps(cfg, t, c, l2, 1) == l3;
  }

  lemma PeekAlone(cfg: Config, t: nat, c: Choice, w: Conn, now: int, h: seq<Event>)
    ensures var l := Steps(cfg, t, c, Solo(Some(PeekWait), w, now, h), 2);
            l.frame.None? && l.conn == w && l.hist == h + [Took(t)] + [Committed(t, Peeked(w))]
  {
    var l0 := Solo(Some(PeekWait), w, now, h);
    var l1 := Step(cfg, t, c, l0);
    var l2 := Step(cfg, t, c, l1);
    assert Steps(cfg, t, c, l0, 2) == Steps(cfg, t, c, l1, 1) == l2;
  }

  /** Goroutine t may start a call: it is idle, or inside a callback. */
  ghost predicate Free(s: State, t: nat, c: Choice) {
    s.escaped && t < |s.threads| && (s.threads[t] == [] || Top(s.threads[t]).InCallback?) && s.owner.None? && s.clock <= c.ts
  }

  /** Pushing a frame on the stack of goroutine t, and popping it. */
  lemma PushPop(ts: seq<Stack>, t: nat, f: Frame)
    requires t < |ts|
    ensures var ts' := ts[t := ts[t] + [f]];
            && |ts'| == |ts| && ts'[t] != [] && Top(ts'[t]) == f
            && ts'[t := Pop(ts'[t])] == ts
  {
    var ts' := ts[t := ts[t] + [f]];
    assert Pop(ts'[t]) == ts[t];
  }

  lemma Started(cfg: Config, s: State, t: nat, op: Op, c: Choice)
    requires Free(s, t, c)
    ensures Enabled(s, Call(t, op))
    ensures var s1 := Next(cfg, s, Call(t, op));
            && Ready(s1, t, c) && Top(s1.threads[t]) == FirstFrame(op) && s1 == s.(threads := s1.threads)
            && s1.threads[t := Pop(s1.threads[t])] == s.threads
  {
    PushPop(s.threads, t, FirstFrame(op));
    assert !Holding(FirstFrame(op));
  }

  /** What an uninterrupted call leaves in the fields. */
  ghost predicate Done(cfg: Config, op: Op, c: Choice, s: State, s': State) {
    match op
    case Read => s'.conn == Apply(s.conn, IoDone(Rx, Completion(c.n, c.err, c.ts)))
    case Write => s'.conn == Apply(s.conn, IoDone(Tx, Completion(c.n, c.err, c.ts)))
    case SetReconnects(r) => s'.conn == s.conn.(reconnects := r)
    case Close => s'.conn == W.Gathered(cfg.reporting, cfg.supported, cfg.tcp, s.conn.(closedAt := c.ts), Closed, c.o).0
    case _ => s'.conn == s.conn && |s'.hist| > 0 && s'.hist[|s'.hist| - 1].Committed? && s'.hist[|s'.hist| - 1].c == Peeked(s.conn)
  }

  /** Every call, from the caller's side to its return: the fields are those that the object's method promises. */
  lemma CallIsARun(cfg: Config, s: State, t: nat, op: Op, c: Choice) returns (acts: seq<Action>)
    requires Free(s, t, c)
    ensures Runs(cfg, s, acts) && acts != [] && acts[0] == Call(t, op)
    ensures Final(cfg, s, acts).threads == s.threads && Final(cfg, s, acts).owner.None?
    ensures Done(cfg, op, c, s, Final(cfg, s, acts))
  {
    Started(cfg, s, t, op, c);
    var s1 := Next(cfg, s, Call(t, op));
    var rest := BodyIsARun(cfg, s1, t, op, c);
    RunsCons(cfg, s, Call(t, op), rest);
    acts := [Call(t, op)] + rest;
  }

  lemma BodyIsARun(cfg: Config, s: State, t: nat, op: Op, c: Choice) returns (acts: seq<Action>)
    requires Ready(s, t, c) && Top(s.threads[t]) == FirstFrame(op)
    ensures Runs(cfg, s, acts) && Returned(s, t, Final(cfg, s, acts)) && Done(cfg, op, c, s, Final(cfg, s, acts))
  {
    match op
    case Read => acts := TransferIsARun(cfg, s, t, c, Rx);
    case Write => acts := TransferIsARun(cfg, s, t, c, Tx);
    case Close => acts := CloseIsARun(cfg, s, t, c);
    case SetReconnects(r) =>
      SetAlone(cfg, t, c, r, s.conn, s.clock, s.hist);
      acts := RunsAlone(cfg, s, t, c, 3);
    case _ =>
      PeekAlone(cfg, t, c, s.conn, s.clock, s.hist);
      acts := RunsAlone(cfg, s, t, c, 2);
  }
}
