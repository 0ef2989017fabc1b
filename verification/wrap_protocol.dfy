/**
 The wrapped connection as a machine of interleaved goroutines.

 A goroutine is a stack of calls: only a report callback can call back into the connection, so every
 frame below the top is a callback. The stores of a locked section are separate steps; nothing but the
 mutex keeps two sections apart. The guards of gatherAndReport read shared fields without the lock, each
 read as one step.
 */
module Protocol {
  import opened Base
  import opened ConnState

  /**
   What is fixed for the life of a connection: `reportStats != nil`, `supportsTCPInfo`, and whether the
   wrapped connection is a TCP one with a raw connection behind it.
   */
  datatype Config = Config(reporting: bool, supported: bool, tcp: bool)
  {
    /** Every opening and closing asks the socket, as long as nothing has failed. */
    predicate Gathers() {
      reporting && supported && tcp
    }
  }

  datatype Op = Read | Write | Close | SetReconnects(r: int) | Warnings | ToMap

  datatype Frame =
    | IoCall(d: Direction)                                   // inside the underlying Read or Write
    | IoWait(d: Direction, n: nat, err: Option<Error>)       // back from the socket, wants the lock
    | IoHold(d: Direction, stage: nat, c: Completion, loaded: int)
    | CloseWait
    | CloseHold(stored: bool, ts: int)
    | SetWait(r: int)
    | SetHold(stored: bool, r: int)
    | PeekWait                                               // Warnings and ToMap
    | PeekHold
    | Guard(k: Kind)                                         // the early returns of gatherAndReport
    | ErrCheck(k: Kind)                                      // past the defer, before the InfoErr check
    | Fetch(k: Kind)                                         // gathering from the socket
    | StoreWait(k: Kind, o: Outcome)
    | StoreHold(k: Kind, o: Outcome, stored: bool)
    | CallbackDue(k: Kind)                                   // unlocked, the deferred report is next
    | InCallback(k: Kind)
    | SockClose                                              // about to close the underlying connection

  type Stack = seq<Frame>

  datatype Event =
    | Delivered(t: nat, d: Direction, n: nat)                // the socket returned n bytes
    | Took(t: nat)                                           // acquired the mutex
    | Committed(t: nat, c: Commit)                           // released the mutex
    | Wrote(t: nat, k: Kind, o: Outcome)                     // stored the outcome of a gather
    | Fetched(t: nat, k: Kind)                               // asked the socket for its info
    | Reported(t: nat, k: Kind)                              // entered the callback
    | SockClosed(t: nat)                                     // closed the underlying connection

  datatype State = State(
    threads: seq<Stack>,
    owner: Option<nat>,
    conn: Conn,
    clock: int,
    escaped: bool,                                           // the callback or the caller has the *Conn
    hist: seq<Event>
  )

  /** Everything a step may take from outside: socket results, the clock, the outcome of a gather. */
  datatype Choice = Choice(n: nat, err: Option<Error>, ts: int, o: Outcome)

  datatype Action = Spawn | Call(t: nat, op: Op) | Advance(t: nat, c: Choice)

  function Top(st: Stack): Frame
    requires st != []
  {
    st[|st| - 1]
  }

  function Swap(st: Stack, f: Frame): Stack
    requires st != []
  {
    st[..|st| - 1] + [f]
  }

  function Pop(st: Stack): Stack
    requires st != []
  {
    st[..|st| - 1]
  }

  predicate Waiting(f: Frame) {
    f.IoWait? || f.CloseWait? || f.SetWait? || f.PeekWait? || f.StoreWait?
  }

  predicate Holding(f: Frame) {
    f.IoHold? || f.CloseHold? || f.SetHold? || f.PeekHold? || f.StoreHold?
  }

  /** The next step reads `time.Now()`. */
  predicate ReadsClock(f: Frame) {
    (f.IoHold? && f.stage == 0 && Good(f.c)) || (f.CloseHold? && !f.stored)
  }

  function FirstFrame(op: Op): Frame {
    match op
    case Read => IoCall(Rx)
    case Write => IoCall(Tx)
    case Close => CloseWait
    case SetReconnects(r) => SetWait(r)
    case Warnings => PeekWait
    case ToMap => PeekWait
  }

  /** WrapConnWithContext has built the Conn and is entering gatherAndReport(Opened). */
  function Init(openedAt: int): State {
    State([[Guard(Opened)]], None, Fresh(openedAt), openedAt, false, [])
  }

  predicate Enabled(s: State, a: Action) {
    match a
    case Spawn => true
    case Call(t, _) => s.escaped && t < |s.threads| && (s.threads[t] == [] || Top(s.threads[t]).InCallback?)
    case Advance(t, c) =>
      && t < |s.threads|
      && s.threads[t] != []
      && (Waiting(Top(s.threads[t])) ==> s.owner.None?)
      && (ReadsClock(Top(s.threads[t])) ==> s.clock <= c.ts)
  }

  /** What one step does: the frame that replaces the top (none when the call returns), and its effects. */
  datatype Reaction = Reaction(next: Option<Frame>, lock: LockOp, conn: Conn, clock: int, escapes: bool, event: Option<Event>)

  datatype LockOp = Keep | Take | Drop

  function Next(cfg: Config, s: State, a: Action): State
    requires Enabled(s, a)
  {
    match a
    case Spawn => s.(threads := s.threads + [[]])
    case Call(t, op) => s.(threads := s.threads[t := s.threads[t] + [FirstFrame(op)]])
    case Advance(t, c) => Perform(s, t, React(cfg, t, Top(s.threads[t]), s.conn, s.clock, c))
  }

  /** The state after goroutine t has made a step with this reaction. */
  function Perform(s: State, t: nat, r: Reaction): State
    requires t < |s.threads| && s.threads[t] != []
  {
    State(
      s.threads[t := if r.next.Some? then Swap(s.threads[t], r.next.value) else Pop(s.threads[t])],
      match r.lock case Keep => s.owner case Take => Some(t) case Drop => None,
      r.conn,
      r.clock,
      s.escaped || r.escapes,
      if r.event.Some? then s.hist + [r.event.value] else s.hist)
  }

  function React(cfg: Config, t: nat, f: Frame, w: Conn, now: int, c: Choice): Reaction {
    match f
    case IoCall(d) => Reaction(Some(IoWait(d, c.n, c.err)), Keep, w, now, false, Some(Delivered(t, d, c.n)))
    case IoWait(d, n, err) => Acquire(t, IoHold(d, 0, Completion(n, err, 0), 0), w, now)
    case IoHold(d, stage, x, loaded) => ReactIo(t, d, stage, x, loaded, w, now, c)
    case CloseWait => Acquire(t, CloseHold(false, 0), w, now)
    case CloseHold(stored, ts) =>
      if !stored then Reaction(Some(CloseHold(true, c.ts)), Keep, w.(closedAt := c.ts), c.ts, false, None)
      else Release(t, Some(Guard(Closed)), w, now, CloseStamped(ts))
    case SetWait(r) => Acquire(t, SetHold(false, r), w, now)
    case SetHold(stored, r) =>
      if !stored then Move(SetHold(true, r), w.(reconnects := r), now)
      else Release(t, None, w, now, ReconnectsSet(r))
    case PeekWait => Acquire(t, PeekHold, w, now)
    case PeekHold => Release(t, None, w, now, Peeked(w))
    case Guard(k) =>
      if cfg.reporting && w.Info(k).None? then Move(ErrCheck(k), w, now)
      else if k == Opened then Reaction(None, Keep, w, now, true, None)
      else Move(SockClose, w, now)
    case ErrCheck(k) =>
      if cfg.supported && w.infoErr.None? && cfg.tcp then Move(Fetch(k), w, now) else Move(CallbackDue(k), w, now)
    case Fetch(k) => Reaction(Some(StoreWait(k, c.o)), Keep, w, now, false, Some(Fetched(t, k)))
    case StoreWait(k, o) => Acquire(t, StoreHold(k, o, false), w, now)
    case StoreHold(k, o, stored) =>
      if !stored then Reaction(Some(StoreHold(k, o, true)), Keep, StoreInfo(w, k, o), now, false, Some(Wrote(t, k, o)))
      else Release(t, Some(CallbackDue(k)), w, now, InfoStored(k, o))
    case CallbackDue(k) => Reaction(Some(InCallback(k)), Keep, w, now, true, Some(Reported(t, k)))
    case InCallback(k) => if k == Opened then Reaction(None, Keep, w, now, false, None) else Move(SockClose, w, now)
    case SockClose => Reaction(None, Keep, w, now, false, Some(SockClosed(t)))
  }

  /** The locked section of Read and Write, one store or load at a time. */
  function ReactIo(t: nat, d: Direction, stage: nat, x: Completion, loaded: int, w: Conn, now: int, c: Choice): Reaction {
    var h := w.On(d);
    if stage == 0 then
      if Good(x) then
        var y := x.(ts := c.ts);
        Move(IoHold(d, 1, y, 0), w.With(d, StampFirst(h, y)), c.ts)
      else Move(IoHold(d, 1, x, 0), w, now)
    else if stage == 1 then Move(IoHold(d, 2, x, 0), w.With(d, StampLast(h, x)), now)
    else if stage == 2 then Move(IoHold(d, 3, x, h.bytes), w, now)
    else if stage == 3 then Move(IoHold(d, 4, x, loaded), w.With(d, StoreBytes(h, loaded, x.n)), now)
    else if stage == 4 then Move(IoHold(d, 5, x, loaded), w.With(d, StoreErr(d, h, x.err)), now)
    else Release(t, None, w, now, IoDone(d, x))
  }

  function Move(f: Frame, w: Conn, now: int): Reaction {
    Reaction(Some(f), Keep, w, now, false, None)
  }

  function Acquire(t: nat, f: Frame, w: Conn, now: int): Reaction {
    Reaction(Some(f), Take, w, now, false, Some(Took(t)))
  }

  function Release(t: nat, f: Option<Frame>, w: Conn, now: int, c: Commit): Reaction {
    Reaction(f, Drop, w, now, false, Some(Committed(t, c)))
  }

  // ---- Runs ----

  predicate Runs(cfg: Config, s: State, acts: seq<Action>)
    decreases |acts|
  {
    acts == [] || (Enabled(s, acts[0]) && Runs(cfg, Next(cfg, s, acts[0]), acts[1..]))
  }

  function Final(cfg: Config, s: State, acts: seq<Action>): State
    requires Runs(cfg, s, acts)
    decreases |acts|
  {
    if acts == [] then s else Final(cfg, Next(cfg, s, acts[0]), acts[1..])
  }

  lemma RunsCons(cfg: Config, s: State, a: Action, acts: seq<Action>)
    requires Enabled(s, a) && Runs(cfg, Next(cfg, s, a), acts)
    ensures Runs(cfg, s, [a] + acts) && Final(cfg, s, [a] + acts) == Final(cfg, Next(cfg, s, a), acts)
  {
    assert ([a] + acts)[1..] == acts;
  }

  lemma ConsAppend(xs: seq<Action>, ys: seq<Action>)
    requires xs != []
    ensures (xs + ys)[0] == xs[0] && (xs + ys)[1..] == xs[1..] + ys
  {
  }

  lemma {:induction false} RunsConcat(cfg: Config, s: State, xs: seq<Action>, ys: seq<Action>)
    requires Runs(cfg, s, xs) && Runs(cfg, Final(cfg, s, xs), ys)
    ensures Runs(cfg, s, xs + ys) && Final(cfg, s, xs + ys) == Final(cfg, Final(cfg, s, xs), ys)
    decreases |xs|
  {
    if xs == [] {
      assert xs + ys == ys;
    } else {
      RunsConcat(cfg, Next(cfg, s, xs[0]), xs[1..], ys);
      ConsAppend(xs, ys);
    }
  }

  predicate OnlyAdvances(acts: seq<Action>) {
    forall a :: a in acts ==> a.Advance?
  }

  /** The run starts no Close call of its own. */
  predicate NoNewClose(acts: seq<Action>) {
    forall a :: a in acts ==> !(a.Call? && a.op.Close?)
  }

  /** Some run from the opening of the connection ends in this state. */
  ghost predicate Reachable(cfg: Config, openedAt: int, s: State) {
    exists acts :: Runs(cfg, Init(openedAt), acts) && Final(cfg, Init(openedAt), acts) == s
  }

  // ---- Histories ----

  function Commits(h: seq<Event>): seq<Commit> {
    if h == [] then []
    else
      var rest := Commits(h[..|h| - 1]);
      var e := h[|h| - 1];
      if e.Committed? then rest + [e.c] else rest
  }

  /** The goroutines that took the lock, and those that released it, in order. */
  function Takers(h: seq<Event>): seq<nat> {
    if h == [] then []
    else
      var rest := Takers(h[..|h| - 1]);
      var e := h[|h| - 1];
      if e.Took? then rest + [e.t] else rest
  }

  function Releasers(h: seq<Event>): seq<nat> {
    if h == [] then []
    else
      var rest := Releasers(h[..|h| - 1]);
      var e := h[|h| - 1];
      if e.Committed? then rest + [e.t] else rest
  }

  /** Bytes the socket has handed over in one direction. */
  function DeliveredBytes(d: Direction, h: seq<Event>): nat {
    if h == [] then 0
    else
      var rest := DeliveredBytes(d, h[..|h| - 1]);
      var e := h[|h| - 1];
      if e.Delivered? && e.d == d then rest + e.n else rest
  }

  /** Every step appends at most one event. */
  lemma Snoc(h: seq<Event>, e: Event)
    ensures (h + [e])[..|h|] == h && (h + [e])[|h|] == e
  {
  }

  // ---- Sums over the goroutines ----

  function Total(ts: seq<Stack>, f: Stack -> nat): nat {
    if ts == [] then 0 else Total(ts[..|ts| - 1], f) + f(ts[|ts| - 1])
  }

  lemma {:induction false} TotalUpdate(ts: seq<Stack>, f: Stack -> nat, t: nat, st: Stack)
    requires t < |ts|
    ensures Total(ts[t := st], f) + f(ts[t]) == Total(ts, f) + f(st)
  {
    var us := ts[t := st];
    var m := |ts| - 1;
    if t == m {
      assert us[..m] == ts[..m];
    } else {
      TotalUpdate(ts[..m], f, t, st);
      assert us[..m] == ts[..m][t := st];
    }
  }

  lemma TotalGrow(ts: seq<Stack>, f: Stack -> nat, st: Stack)
    ensures Total(ts + [st], f) == Total(ts, f) + f(st)
  {
    assert (ts + [st])[..|ts|] == ts;
  }
}
