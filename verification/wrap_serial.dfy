/**
 What the mutex buys: in every reachable state the fields of the connection are those of a sequential run
 of the locked sections, in the order in which the lock was taken.
 */
module Serial {
  import opened Base
  import opened ConnState
  import opened Protocol

  // ---- Invariants ----

  /** Only a callback can be interrupted by a nested call. */
  ghost predicate Shaped(s: State) {
    forall t, i :: 0 <= t < |s.threads| && 0 <= i < |s.threads[t]| - 1 ==> s.threads[t][i].InCallback?
  }

  /** The owner is the one goroutine inside a locked section. */
  ghost predicate Locked(s: State) {
    && (s.owner.Some? ==>
          var t := s.owner.value;
          t < |s.threads| && s.threads[t] != [] && Holding(Top(s.threads[t])))
    && (forall t :: 0 <= t < |s.threads| && s.threads[t] != [] && Holding(Top(s.threads[t])) ==> s.owner == Some(t))
  }

  /** The connection as it is part way through a locked section that started from `w`. */
  function Midway(f: Frame, w: Conn): Conn {
    match f
    case IoHold(d, stage, c, _) =>
      var h0 := w.On(d);
      var h1 := if stage >= 1 then StampFirst(h0, c) else h0;
      var h2 := if stage >= 2 then StampLast(h1, c) else h1;
      var h3 := if stage >= 4 then StoreBytes(h2, h2.bytes, c.n) else h2;
      w.With(d, if stage >= 5 then StoreErr(d, h3, c.err) else h3)
    case CloseHold(stored, ts) => if stored then w.(closedAt := ts) else w
    case SetHold(stored, r) => if stored then w.(reconnects := r) else w
    case StoreHold(k, o, stored) => if stored then StoreInfo(w, k, o) else w
    case _ => w
  }

  /** The value a Read or Write has loaded is still the value of the counter. */
  predicate LoadedFresh(f: Frame, w: Conn) {
    f.IoHold? && f.stage == 3 ==> f.loaded == w.On(f.d).bytes
  }

  ghost predicate Serialized(openedAt: int, s: State)
    requires Locked(s)
  {
    var w := Replay(openedAt, Commits(s.hist));
    if s.owner.None? then s.conn == w
    else
      var f := Top(s.threads[s.owner.value]);
      s.conn == Midway(f, w) && LoadedFresh(f, w)
  }

  /** Releases follow acquisitions in the same order; at most one acquisition is outstanding. */
  ghost predicate Ordered(s: State) {
    Takers(s.hist) == Releasers(s.hist) + (if s.owner.Some? then [s.owner.value] else [])
  }

  /** The frames of gatherAndReport(Opened) up to its callback. */
  predicate Opening(f: Frame) {
    (f.Guard? || f.ErrCheck? || f.Fetch? || f.StoreWait? || f.StoreHold? || f.CallbackDue?) && f.k == Opened
  }

  /** Until the callback or the caller is handed the connection, the opening goroutine is alone with it. */
  ghost predicate Published(s: State) {
    if s.escaped then forall t :: 0 <= t < |s.threads| && s.threads[t] != [] ==> !Opening(Top(s.threads[t]))
    else
      && |s.threads| > 0
      && |s.threads[0]| == 1
      && Opening(s.threads[0][0])
      && forall t :: 0 < t < |s.threads| ==> s.threads[t] == []
  }

  // ---- Each step keeps them ----

  /** The lock discipline of a single step. */
  ghost predicate LockFacts(t: nat, f: Frame, w: Conn, r: Reaction) {
    && (r.lock.Take? <==> Waiting(f))
    && (r.lock.Drop? ==> Holding(f))
    && (r.next.Some? && Holding(r.next.value) <==> r.lock.Take? || (Holding(f) && r.lock.Keep?))
    && (!Holding(f) ==> r.conn == w)
    && (r.lock.Take? <==> r.event.Some? && r.event.value.Took?)
    && (r.lock.Drop? <==> r.event.Some? && r.event.value.Committed?)
    && (r.event.Some? ==> r.event.value.t == t)
  }

  lemma ReactionLocks(cfg: Config, t: nat, f: Frame, w: Conn, now: int, c: Choice)
    ensures LockFacts(t, f, w, React(cfg, t, f, w, now, c))
  {
  }

  lemma StepShaped(cfg: Config, s: State, a: Action)
    requires Enabled(s, a) && Shaped(s)
    ensures Shaped(Next(cfg, s, a))
  {
    if a.Advance? {
      var r := React(cfg, a.t, Top(s.threads[a.t]), s.conn, s.clock, a.c);
      PerformShaped(s, a.t, r);
    }
  }

  lemma PerformShaped(s: State, t: nat, r: Reaction)
    requires Shaped(s) && t < |s.threads| && s.threads[t] != []
    ensures Shaped(Perform(s, t, r))
  {
  }

  lemma StepLocked(cfg: Config, s: State, a: Action)
    requires Enabled(s, a) && Shaped(s) && Locked(s)
    ensures Locked(Next(cfg, s, a))
  {
    if a.Advance? {
      var f := Top(s.threads[a.t]);
      ReactionLocks(cfg, a.t, f, s.conn, s.clock, a.c);
      PerformLocked(s, a.t, React(cfg, a.t, f, s.conn, s.clock, a.c));
    }
  }

  lemma PerformLocked(s: State, t: nat, r: Reaction)
    requires Shaped(s) && Locked(s) && t < |s.threads| && s.threads[t] != []
    requires r.lock.Take? ==> s.owner.None?
    requires r.lock.Drop? ==> s.owner == Some(t)
    requires r.next.Some? && Holding(r.next.value) <==> r.lock.Take? || (s.owner == Some(t) && r.lock.Keep?)
    ensures Locked(Perform(s, t, r))
  {
  }

  lemma ReactionPublished(cfg: Config, t: nat, f: Frame, w: Conn, now: int, c: Choice)
    ensures var r := React(cfg, t, f, w, now, c);
            if Opening(f) then r.escapes <==> r.next.None? || !Opening(r.next.value)
            else r.next.Some? ==> !Opening(r.next.value)
  {
  }

  lemma StepPublished(cfg: Config, s: State, a: Action)
    requires Enabled(s, a) && Shaped(s) && Published(s)
    ensures Published(Next(cfg, s, a))
  {
    if a.Advance? {
      var f := Top(s.threads[a.t]);
      ReactionPublished(cfg, a.t, f, s.conn, s.clock, a.c);
      PerformPublished(s, a.t, f, React(cfg, a.t, f, s.conn, s.clock, a.c));
    }
  }

  lemma PerformPublished(s: State, t: nat, f: Frame, r: Reaction)
    requires t < |s.threads| && s.threads[t] != [] && f == Top(s.threads[t]) && Shaped(s) && Published(s)
    requires if Opening(f) then r.escapes <==> r.next.None? || !Opening(r.next.value)
             else r.next.Some? ==> !Opening(r.next.value)
    ensures Published(Perform(s, t, r))
  {
  }

  lemma StepOrdered(cfg: Config, s: State, a: Action)
    requires Enabled(s, a) && Locked(s) && Ordered(s)
    ensures Ordered(Next(cfg, s, a))
  {
    if a.Advance? {
      var f := Top(s.threads[a.t]);
      ReactionLocks(cfg, a.t, f, s.conn, s.clock, a.c);
      PerformOrdered(s, a.t, f, React(cfg, a.t, f, s.conn, s.clock, a.c));
    }
  }

  lemma PerformOrdered(s: State, t: nat, f: Frame, r: Reaction)
    requires t < |s.threads| && s.threads[t] != [] && f == Top(s.threads[t]) && Locked(s) && Ordered(s)
    requires LockFacts(t, f, s.conn, r) && (r.lock.Take? ==> s.owner.None?)
    ensures Ordered(Perform(s, t, r))
  {
    if r.event.Some? {
      Snoc(s.hist, r.event.value);
    }
  }

  /** A step of the lock's owner moves the connection along its own section, and commits it at the end. */
  ghost predicate SerialFacts(w: Conn, r: Reaction) {
    if r.lock.Drop? then r.event.Some? && r.event.value.Committed? && r.conn == Apply(w, r.event.value.c)
    else r.next.Some? && r.conn == Midway(r.next.value, w) && LoadedFresh(r.next.value, w)
  }

  lemma ReactionSerial(cfg: Config, t: nat, f: Frame, w: Conn, now: int, c: Choice)
    requires Holding(f) && LoadedFresh(f, w)
    ensures SerialFacts(w, React(cfg, t, f, Midway(f, w), now, c))
  {
  }

  lemma ReactionEnters(cfg: Config, t: nat, f: Frame, w: Conn, now: int, c: Choice)
    requires Waiting(f)
    ensures SerialFacts(w, React(cfg, t, f, w, now, c))
  {
  }

  lemma StepSerialized(openedAt: int, cfg: Config, s: State, a: Action)
    requires Enabled(s, a) && Shaped(s) && Locked(s) && Serialized(openedAt, s)
    ensures Locked(Next(cfg, s, a)) && Serialized(openedAt, Next(cfg, s, a))
  {
    StepLocked(cfg, s, a);
    if a.Advance? {
      var f := Top(s.threads[a.t]);
      var w := Replay(openedAt, Commits(s.hist));
      ReactionLocks(cfg, a.t, f, s.conn, s.clock, a.c);
      if Holding(f) {
        ReactionSerial(cfg, a.t, f, w, s.clock, a.c);
      }
      if Waiting(f) {
        ReactionEnters(cfg, a.t, f, w, s.clock, a.c);
      }
      PerformSerialized(openedAt, s, a.t, f, w, React(cfg, a.t, f, s.conn, s.clock, a.c));
    }
  }

  lemma PerformSerialized(openedAt: int, s: State, t: nat, f: Frame, w: Conn, r: Reaction)
    requires t < |s.threads| && s.threads[t] != [] && f == Top(s.threads[t])
    requires Shaped(s) && Locked(s) && Locked(Perform(s, t, r)) && Serialized(openedAt, s)
    requires w == Replay(openedAt, Commits(s.hist)) && LockFacts(t, f, s.conn, r)
    requires Waiting(f) ==> s.owner.None?
    requires Holding(f) || Waiting(f) ==> SerialFacts(w, r)
    ensures Serialized(openedAt, Perform(s, t, r))
  {
    CommitsAfter(s, t, r);
    if r.lock.Drop? {
      ReplaySnoc(openedAt, Commits(s.hist), r.event.value.c);
    }
  }

  lemma CommitsAfter(s: State, t: nat, r: Reaction)
    requires t < |s.threads| && s.threads[t] != []
    ensures Commits(Perform(s, t, r).hist)
            == if r.event.Some? && r.event.value.Committed? then Commits(s.hist) + [r.event.value.c] else Commits(s.hist)
  {
    if r.event.Some? {
      Snoc(s.hist, r.event.value);
    }
  }

  lemma ReplaySnoc(openedAt: int, cs: seq<Commit>, c: Commit)
    ensures Replay(openedAt, cs + [c]) == Apply(Replay(openedAt, cs), c)
  {
    assert (cs + [c])[..|cs|] == cs;
  }

  // ---- Bytes ----

  /** Bytes a goroutine has exchanged with the socket in a transfer that has not committed yet. */
  function Held(d: Direction, st: Stack): nat {
    if st == [] then 0
    else match Top(st)
      case IoWait(d', n, _) => if d' == d then n else 0
      case IoHold(d', _, c, _) => if d' == d then c.n else 0
      case _ => 0
  }

  /** Of these, the bytes it has not yet added to the counter. */
  function Pending(d: Direction, st: Stack): nat {
    if st != [] && Top(st).IoHold? && Top(st).stage > 3 then 0 else Held(d, st)
  }

  function HeldOf(d: Direction): Stack -> nat {
    st => Held(d, st)
  }

  function PendingOf(d: Direction): Stack -> nat {
    st => Pending(d, st)
  }

  function InFlight(d: Direction, s: State): nat {
    Total(s.threads, PendingOf(d))
  }

  /** Everything the socket delivered is in a committed transfer or held by a goroutine. */
  ghost predicate Conserved(d: Direction, s: State) {
    DeliveredBytes(d, s.hist) == SumBytes(Transfers(d, Commits(s.hist))) + Total(s.threads, HeldOf(d))
  }

  /** Bytes that arrive from the socket in a step, bytes it commits, and bytes still held after it. */
  function Came(d: Direction, r: Reaction): nat {
    if r.event.Some? && r.event.value.Delivered? && r.event.value.d == d then r.event.value.n else 0
  }

  function Went(d: Direction, r: Reaction): nat {
    if r.event.Some? && r.event.value.Committed? && r.event.value.c.IoDone? && r.event.value.c.d == d
    then r.event.value.c.c.n else 0
  }

  function StillHeld(d: Direction, r: Reaction): nat {
    if r.next.Some? then Held(d, [r.next.value]) else 0
  }

  lemma ReactionConserves(d: Direction, cfg: Config, t: nat, f: Frame, w: Conn, now: int, c: Choice)
    ensures var r := React(cfg, t, f, w, now, c);
            Held(d, [f]) + Came(d, r) == StillHeld(d, r) + Went(d, r)
  {
  }

  lemma StepConserved(d: Direction, cfg: Config, s: State, a: Action)
    requires Enabled(s, a) && Shaped(s) && Conserved(d, s)
    ensures Conserved(d, Next(cfg, s, a))
  {
    if a.Advance? {
      var f := Top(s.threads[a.t]);
      ReactionConserves(d, cfg, a.t, f, s.conn, s.clock, a.c);
      PerformConserves(d, s, a.t, React(cfg, a.t, f, s.conn, s.clock, a.c));
    } else {
      CallConserves(d, cfg, s, a);
    }
  }

  lemma CallConserves(d: Direction, cfg: Config, s: State, a: Action)
    requires Enabled(s, a) && !a.Advance? && Conserved(d, s)
    ensures Conserved(d, Next(cfg, s, a))
  {
    var g := HeldOf(d);
    if a.Spawn? {
      TotalGrow(s.threads, g, []);
    } else {
      var st := s.threads[a.t] + [FirstFrame(a.op)];
      TotalUpdate(s.threads, g, a.t, st);
      assert g(st) == 0 == g(s.threads[a.t]);
    }
  }

  lemma PerformConserves(d: Direction, s: State, t: nat, r: Reaction)
    requires t < |s.threads| && s.threads[t] != [] && Shaped(s) && Conserved(d, s)
    requires Held(d, [Top(s.threads[t])]) + Came(d, r) == StillHeld(d, r) + Went(d, r)
    ensures Conserved(d, Perform(s, t, r))
  {
    HeldAfter(d, s, t, r);
    DeliveredAfter(d, s, t, r);
    CommittedAfter(d, s, t, r);
  }

  lemma HeldAfter(d: Direction, s: State, t: nat, r: Reaction)
    requires t < |s.threads| && s.threads[t] != [] && Shaped(s)
    ensures Total(Perform(s, t, r).threads, HeldOf(d)) + Held(d, [Top(s.threads[t])])
            == Total(s.threads, HeldOf(d)) + StillHeld(d, r)
  {
    var st := s.threads[t];
    TotalUpdate(s.threads, HeldOf(d), t, if r.next.Some? then Swap(st, r.next.value) else Pop(st));
  }

  lemma DeliveredAfter(d: Direction, s: State, t: nat, r: Reaction)
    requires t < |s.threads| && s.threads[t] != []
    ensures DeliveredBytes(d, Perform(s, t, r).hist) == DeliveredBytes(d, s.hist) + Came(d, r)
  {
    if r.event.Some? {
      Snoc(s.hist, r.event.value);
    }
  }

  lemma CommittedAfter(d: Direction, s: State, t: nat, r: Reaction)
    requires t < |s.threads| && s.threads[t] != []
    ensures SumBytes(Transfers(d, Commits(Perform(s, t, r).hist))) == SumBytes(Transfers(d, Commits(s.hist))) + Went(d, r)
  {
    CommitsAfter(s, t, r);
    if r.event.Some? && r.event.value.Committed? {
      var c := r.event.value.c;
      TransfersSnoc(d, Commits(s.hist), c);
      if c.IoDone? && c.d == d {
        SumSnoc(Transfers(d, Commits(s.hist)), c.c);
      }
    }
  }

  // ---- Stamps ----

  /** Good stamps are taken under the lock from one clock, so they are ordered as the sections are. */
  ghost predicate Timed(openedAt: int, s: State)
    requires Locked(s)
  {
    && openedAt <= s.clock
    && (forall d :: StampsOrdered(Transfers(d, Commits(s.hist)), openedAt, s.clock))
    && (s.owner.Some? ==> TimedFrame(openedAt, s, Top(s.threads[s.owner.value])))
  }

  ghost predicate TimedFrame(openedAt: int, s: State, f: Frame) {
    f.IoHold? && f.stage >= 1 ==> StampsOrdered(Transfers(f.d, Commits(s.hist)) + [f.c], openedAt, s.clock)
  }

  lemma ReactionTimed(cfg: Config, t: nat, f: Frame, w: Conn, now: int, c: Choice)
    requires ReadsClock(f) ==> now <= c.ts
    ensures var r := React(cfg, t, f, w, now, c);
            && now <= r.clock
            && (r.next.Some? && r.next.value.IoHold? && r.next.value.stage >= 1 ==>
                  f.IoHold? && f.d == r.next.value.d &&
                  (if f.stage >= 1 then r.next.value.c == f.c
                   else !Good(r.next.value.c) || now <= r.next.value.c.ts == r.clock))
            && (r.event.Some? && r.event.value.Committed? && r.event.value.c.IoDone? ==>
                  f.IoHold? && f.stage >= 1 && r.event.value.c == IoDone(f.d, f.c))
  {
  }

  lemma LaterClock(xs: seq<Completion>, lo: int, hi: int, hi': int)
    requires StampsOrdered(xs, lo, hi) && hi <= hi'
    ensures StampsOrdered(xs, lo, hi')
  {
  }

  lemma StampedNow(xs: seq<Completion>, lo: int, hi: int, c: Completion)
    requires StampsOrdered(xs, lo, hi) && lo <= hi && (Good(c) ==> hi <= c.ts)
    ensures StampsOrdered(xs + [c], lo, if Good(c) then c.ts else hi)
  {
  }

  lemma TransfersSnoc(d: Direction, cs: seq<Commit>, c: Commit)
    ensures Transfers(d, cs + [c]) == if c.IoDone? && c.d == d then Transfers(d, cs) + [c.c] else Transfers(d, cs)
  {
    assert (cs + [c])[..|cs|] == cs;
  }

  lemma StepTimed(openedAt: int, cfg: Config, s: State, a: Action)
    requires Enabled(s, a) && Shaped(s) && Locked(s) && Timed(openedAt, s)
    ensures Locked(Next(cfg, s, a)) && Timed(openedAt, Next(cfg, s, a))
  {
    StepLocked(cfg, s, a);
    if a.Advance? {
      var t := a.t;
      var f := Top(s.threads[t]);
      var r := React(cfg, t, f, s.conn, s.clock, a.c);
      var s' := Next(cfg, s, a);
      ReactionLocks(cfg, t, f, s.conn, s.clock, a.c);
      ReactionTimed(cfg, t, f, s.conn, s.clock, a.c);
      if r.event.Some? {
        Snoc(s.hist, r.event.value);
      }
      var cs := Commits(s.hist);
      forall d ensures StampsOrdered(Transfers(d, Commits(s'.hist)), openedAt, s'.clock) {
        LaterClock(Transfers(d, cs), openedAt, s.clock, s'.clock);
        if r.event.Some? && r.event.value.Committed? {
          TransfersSnoc(d, cs, r.event.value.c);
          if r.event.value.c.IoDone? && r.event.value.c.d == d {
            LaterClock(Transfers(d, cs) + [f.c], openedAt, s.clock, s'.clock);
          }
        }
      }
      if s'.owner.Some? {
        var u := s'.owner.value;
        var f' := Top(s'.threads[u]);
        if f'.IoHold? && f'.stage >= 1 {
          StepTimedFrame(openedAt, cfg, s, a, f');
        }
      }
    }
  }

  lemma StepTimedFrame(openedAt: int, cfg: Config, s: State, a: Action, f': Frame)
    requires a.Advance? && Enabled(s, a) && Shaped(s) && Locked(s) && Timed(openedAt, s) && Locked(Next(cfg, s, a))
    requires var s' := Next(cfg, s, a); s'.owner.Some? && f' == Top(s'.threads[s'.owner.value])
    requires f'.IoHold? && f'.stage >= 1
    ensures TimedFrame(openedAt, Next(cfg, s, a), f')
  {
    var f := Top(s.threads[a.t]);
    ReactionLocks(cfg, a.t, f, s.conn, s.clock, a.c);
    ReactionTimed(cfg, a.t, f, s.conn, s.clock, a.c);
    PerformTimedFrame(openedAt, s, a.t, f, React(cfg, a.t, f, s.conn, s.clock, a.c), f');
  }

  lemma PerformTimedFrame(openedAt: int, s: State, t: nat, f: Frame, r: Reaction, f': Frame)
    requires t < |s.threads| && s.threads[t] != [] && f == Top(s.threads[t])
    requires Shaped(s) && Locked(s) && Timed(openedAt, s) && s.clock <= r.clock
    requires var s' := Perform(s, t, r); Locked(s') && s'.owner.Some? && f' == Top(s'.threads[s'.owner.value])
    requires f'.IoHold? && f'.stage >= 1
    requires r.lock.Drop? <==> r.event.Some? && r.event.value.Committed?
    requires r.lock.Take? ==> Waiting(f)
    requires r.next == Some(f') ==>
               && f.IoHold? && f.d == f'.d
               && if f.stage >= 1 then f'.c == f.c else !Good(f'.c) || s.clock <= f'.c.ts == r.clock
    ensures TimedFrame(openedAt, Perform(s, t, r), f')
  {
    var s' := Perform(s, t, r);
    var xs := Transfers(f'.d, Commits(s.hist));
    assert Commits(s'.hist) == Commits(s.hist) by {
      if r.event.Some? {
        Snoc(s.hist, r.event.value);
      }
    }
    if s'.owner.value != t || (f.IoHold? && f.stage >= 1) {
      LaterClock(xs + [f'.c], openedAt, s.clock, s'.clock);
    } else {
      assert r.next == Some(f');
      StampedNow(xs, openedAt, s.clock, f'.c);
      LaterClock(xs + [f'.c], openedAt, if Good(f'.c) then f'.c.ts else s.clock, s'.clock);
    }
  }

  // ---- Every reachable state ----

  ghost predicate Inv(openedAt: int, s: State) {
    && Shaped(s)
    && Published(s)
    && Locked(s)
    && Ordered(s)
    && Serialized(openedAt, s)
    && Timed(openedAt, s)
    && (forall d :: Conserved(d, s))
  }

  lemma InitInv(openedAt: int)
    ensures Inv(openedAt, Init(openedAt))
  {
    var s := Init(openedAt);
    forall d ensures Conserved(d, s) {
      assert s.threads[..0] == [];
    }
  }

  lemma StepInv(openedAt: int, cfg: Config, s: State, a: Action)
    requires Enabled(s, a) && Inv(openedAt, s)
    ensures Inv(openedAt, Next(cfg, s, a))
  {
    StepShaped(cfg, s, a);
    StepPublished(cfg, s, a);
    StepOrdered(cfg, s, a);
    StepSerialized(openedAt, cfg, s, a);
    StepTimed(openedAt, cfg, s, a);
    forall d ensures Conserved(d, Next(cfg, s, a)) {
      StepConserved(d, cfg, s, a);
    }
  }

  lemma {:induction false} RunInv(openedAt: int, cfg: Config, s: State, acts: seq<Action>)
    requires Runs(cfg, s, acts) && Inv(openedAt, s)
    ensures Inv(openedAt, Final(cfg, s, acts))
    decreases |acts|
  {
    if acts != [] {
      StepInv(openedAt, cfg, s, acts[0]);
      RunInv(openedAt, cfg, Next(cfg, s, acts[0]), acts[1..]);
    }
  }

  /**
   Every interleaving ends with the fields of the sequential run of its locked sections, taken in the order
   in which the lock was acquired; while a section is under way, with those of that run and the stores that
   the section has made so far.
   */
  lemma EveryRunIsSerial(cfg: Config, openedAt: int, acts: seq<Action>)
    requires Runs(cfg, Init(openedAt), acts)
    ensures var s := Final(cfg, Init(openedAt), acts);
            var w := Replay(openedAt, Commits(s.hist));
            && Releasers(s.hist) <= Takers(s.hist)
            && |Takers(s.hist)| <= |Releasers(s.hist)| + 1
            && (s.owner.None? ==> s.conn == w && Releasers(s.hist) == Takers(s.hist))
            && (s.owner.Some? ==>
                  && s.owner.value < |s.threads| && s.threads[s.owner.value] != []
                  && s.conn == Midway(Top(s.threads[s.owner.value]), w))
  {
    InitInv(openedAt);
    RunInv(openedAt, cfg, Init(openedAt), acts);
  }

  /** The goroutine that is inside the locked section of a Read (or Write). */
  predicate Transferring(s: State, d: Direction) {
    && s.owner.Some? && s.owner.value < |s.threads| && s.threads[s.owner.value] != []
    && Top(s.threads[s.owner.value]).IoHold? && Top(s.threads[s.owner.value]).d == d
  }

  /** The first good transfer of a direction has stored its first stamp and not yet its last. */
  predicate BetweenStamps(s: State, d: Direction) {
    && Transferring(s, d)
    && Top(s.threads[s.owner.value]).stage == 1
    && Good(Top(s.threads[s.owner.value]).c)
    && FirstGood(Transfers(d, Commits(s.hist))) == |Transfers(d, Commits(s.hist))|
  }

  lemma StampsMidway(openedAt: int, clock: int, d: Direction, xs: seq<Completion>, f: Frame)
    requires 0 < openedAt <= clock && f.IoHold? && f.d == d && StampsOrdered(xs, openedAt, clock)
    requires f.stage >= 1 ==> StampsOrdered(xs + [f.c], openedAt, clock)
    ensures var h0 := Summary(d, xs);
            var h1 := if f.stage >= 1 then StampFirst(h0, f.c) else h0;
            var h2 := if f.stage >= 2 then StampLast(h1, f.c) else h1;
            && (h2.first == 0 ==> h2.last == 0)
            && (h2.last != 0 ==> openedAt <= h2.first <= h2.last <= clock)
            && (h2.first != 0 ==> openedAt <= h2.first <= clock)
            && (h2.first != 0 && h2.last == 0 <==> f.stage == 1 && Good(f.c) && FirstGood(xs) == |xs|)
  {
    ZeroMeansNone(xs, openedAt, clock);
    if f.stage >= 1 && Good(f.c) {
      StampsAfter(xs, openedAt, clock, f.c);
    }
  }

  /** A stamp that is taken later is not earlier. */
  lemma StampsAfter(xs: seq<Completion>, lo: int, hi: int, c: Completion)
    requires 0 < lo && StampsOrdered(xs, lo, hi) && StampsOrdered(xs + [c], lo, hi) && Good(c)
    ensures lo <= c.ts <= hi && LastStamp(xs) <= c.ts
  {
    var ys := xs + [c];
    assert Good(ys[|xs|]);
    var j := LastGood(xs);
    if j >= 0 {
      assert Good(ys[j]) && ys[j] == xs[j];
    }
  }

  /** The two stamps of a half are those of Summary, and those of the section under way. */
  lemma MidwayStamps(d: Direction, f: Frame, w: Conn)
    ensures var h0 := w.On(d);
            var h1 := if f.IoHold? && f.d == d && f.stage >= 1 then StampFirst(h0, f.c) else h0;
            var h2 := if f.IoHold? && f.d == d && f.stage >= 2 then StampLast(h1, f.c) else h1;
            Midway(f, w).On(d).first == h2.first && Midway(f, w).On(d).last == h2.last
    ensures !(f.IoHold? && f.d == d) ==> Midway(f, w).On(d) == w.On(d)
  {
  }

  /**
   In every reachable state, each direction's stamps are ordered: a last stamp never comes without a first,
   OpenedAt <= first <= last, and the two are zero together except between the two stores of the first good
   transfer. Outside the locked section of its own transfers, a direction's fields are the summary of them:
   the first and last good stamps, the total, and the sticky Rx or latest Tx error.
   */
  lemma EveryRunSummarizes(cfg: Config, openedAt: int, acts: seq<Action>, d: Direction)
    requires 0 < openedAt && Runs(cfg, Init(openedAt), acts)
    ensures var s := Final(cfg, Init(openedAt), acts);
            var h := s.conn.On(d);
            && (!Transferring(s, d) ==> h == Summary(d, Transfers(d, Commits(s.hist))))
            && (h.first == 0 ==> h.last == 0)
            && (h.first != 0 ==> openedAt <= h.first <= s.clock)
            && (h.last != 0 ==> h.first <= h.last <= s.clock)
            && (h.first != 0 && h.last == 0 <==> BetweenStamps(s, d))
  {
    InitInv(openedAt);
    RunInv(openedAt, cfg, Init(openedAt), acts);
    StampsInState(openedAt, Final(cfg, Init(openedAt), acts), d);
  }

  lemma StampsInState(openedAt: int, s: State, d: Direction)
    requires 0 < openedAt && Inv(openedAt, s)
    ensures var h := s.conn.On(d);
            && (!Transferring(s, d) ==> h == Summary(d, Transfers(d, Commits(s.hist))))
            && (h.first == 0 ==> h.last == 0)
            && (h.first != 0 ==> openedAt <= h.first <= s.clock)
            && (h.last != 0 ==> h.first <= h.last <= s.clock)
            && (h.first != 0 && h.last == 0 <==> BetweenStamps(s, d))
  {
    var xs := Transfers(d, Commits(s.hist));
    HalvesAreIndependent(d, openedAt, Commits(s.hist));
    FoldIsSummary(d, xs, openedAt, s.clock);
    ZeroMeansNone(xs, openedAt, s.clock);
    if s.owner.Some? {
      var f := Top(s.threads[s.owner.value]);
      MidwayStamps(d, f, Replay(openedAt, Commits(s.hist)));
      if Transferring(s, d) {
        StampsMidway(openedAt, s.clock, d, xs, f);
      }
    }
  }

  /** Two runs that complete the same transfers of one direction in the same order agree on that half. */
  lemma RunsAgreeOnHalf(cfg: Config, openedAt: int, xs: seq<Action>, ys: seq<Action>, d: Direction)
    requires Runs(cfg, Init(openedAt), xs) && Runs(cfg, Init(openedAt), ys)
    requires var s := Final(cfg, Init(openedAt), xs);
             var u := Final(cfg, Init(openedAt), ys);
             !Transferring(s, d) && !Transferring(u, d) && Transfers(d, Commits(s.hist)) == Transfers(d, Commits(u.hist))
    ensures Final(cfg, Init(openedAt), xs).conn.On(d) == Final(cfg, Init(openedAt), ys).conn.On(d)
  {
    InitInv(openedAt);
    RunInv(openedAt, cfg, Init(openedAt), xs);
    RunInv(openedAt, cfg, Init(openedAt), ys);
    HalfInState(openedAt, Final(cfg, Init(openedAt), xs), d);
    HalfInState(openedAt, Final(cfg, Init(openedAt), ys), d);
  }

  lemma HalfInState(openedAt: int, s: State, d: Direction)
    requires Inv(openedAt, s) && !Transferring(s, d)
    ensures s.conn.On(d) == FoldTransfers(d, Transfers(d, Commits(s.hist)))
  {
    HalvesAreIndependent(d, openedAt, Commits(s.hist));
    if s.owner.Some? {
      MidwayStamps(d, Top(s.threads[s.owner.value]), Replay(openedAt, Commits(s.hist)));
    }
  }

  /** Bytes the lock's owner has already added to the counter in a section it has not finished. */
  function AddedByOwner(d: Direction, s: State): nat
    requires Locked(s)
  {
    if s.owner.None? then 0
    else
      var st := s.threads[s.owner.value];
      Held(d, st) - Pending(d, st)
  }

  lemma {:induction false} TotalSame(ts: seq<Stack>, f: Stack -> nat, g: Stack -> nat)
    requires forall t :: 0 <= t < |ts| ==> f(ts[t]) == g(ts[t])
    ensures Total(ts, f) == Total(ts, g)
  {
    if ts != [] {
      TotalSame(ts[..|ts| - 1], f, g);
    }
  }

  lemma HeldIsPending(d: Direction, s: State)
    requires Locked(s)
    ensures Total(s.threads, HeldOf(d)) == InFlight(d, s) + AddedByOwner(d, s)
  {
    var f, g := HeldOf(d), PendingOf(d);
    if s.owner.None? {
      TotalSame(s.threads, f, g);
    } else {
      var t := s.owner.value;
      TotalUpdate(s.threads, f, t, []);
      TotalUpdate(s.threads, g, t, []);
      TotalSame(s.threads[t := []], f, g);
    }
  }

  /** Bytes that a half-done section has added to the counter. */
  function AddedBy(d: Direction, f: Frame): nat {
    if f.IoHold? && f.d == d && f.stage > 3 then f.c.n else 0
  }

  lemma CounterMidway(d: Direction, f: Frame, w: Conn, total: int)
    requires w.On(d).bytes == Wrap64(total)
    ensures Midway(f, w).On(d).bytes == Wrap64(total + AddedBy(d, f))
  {
    WrapOnce(total, AddedBy(d, f));
  }

  lemma CounterReplayed(d: Direction, openedAt: int, cs: seq<Commit>)
    ensures Replay(openedAt, cs).On(d).bytes == Wrap64(SumBytes(Transfers(d, cs)))
  {
    HalvesAreIndependent(d, openedAt, cs);
    FoldBytes(d, Transfers(d, cs));
  }

  lemma CounterValue(d: Direction, openedAt: int, s: State)
    requires Locked(s) && Serialized(openedAt, s)
    ensures s.conn.On(d).bytes == Wrap64(SumBytes(Transfers(d, Commits(s.hist))) + AddedByOwner(d, s))
  {
    var total := SumBytes(Transfers(d, Commits(s.hist)));
    CounterReplayed(d, openedAt, Commits(s.hist));
    if s.owner.Some? {
      var f := Top(s.threads[s.owner.value]);
      assert AddedByOwner(d, s) == AddedBy(d, f);
      CounterMidway(d, f, Replay(openedAt, Commits(s.hist)), total);
    }
  }

  /**
   No byte is lost in any reachable state, mid-section states included: the counter is what the socket
   delivered less what is in flight, in int64 arithmetic, and exactly so while the total fits an int64.
   */
  lemma BytesConserved(cfg: Config, openedAt: int, acts: seq<Action>, d: Direction)
    requires Runs(cfg, Init(openedAt), acts)
    ensures var s := Final(cfg, Init(openedAt), acts);
            && InFlight(d, s) <= DeliveredBytes(d, s.hist)
            && s.conn.On(d).bytes == Wrap64(DeliveredBytes(d, s.hist) - InFlight(d, s))
            && (DeliveredBytes(d, s.hist) <= INT64_MAX ==>
                  s.conn.On(d).bytes + InFlight(d, s) == DeliveredBytes(d, s.hist))
  {
    InitInv(openedAt);
    RunInv(openedAt, cfg, Init(openedAt), acts);
    BytesInState(openedAt, Final(cfg, Init(openedAt), acts), d);
  }

  lemma BytesInState(openedAt: int, s: State, d: Direction)
    requires Inv(openedAt, s)
    ensures InFlight(d, s) <= DeliveredBytes(d, s.hist)
    ensures s.conn.On(d).bytes == Wrap64(DeliveredBytes(d, s.hist) - InFlight(d, s))
    ensures DeliveredBytes(d, s.hist) <= INT64_MAX ==>
              s.conn.On(d).bytes + InFlight(d, s) == DeliveredBytes(d, s.hist)
  {
    assert Conserved(d, s);
    HeldIsPending(d, s);
    CounterValue(d, openedAt, s);
  }

  /** No step changes a first stamp that is set, or clears a hard Rx error. */
  lemma ReactionKeeps(cfg: Config, t: nat, f: Frame, w: Conn, now: int, c: Choice, d: Direction)
    ensures w.On(d).first != 0 ==> React(cfg, t, f, w, now, c).conn.On(d).first == w.On(d).first
    ensures Hard(w.rx.err) ==> Hard(React(cfg, t, f, w, now, c).conn.rx.err)
  {
  }

  /** A first stamp, once taken, is never changed by anything that follows. */
  lemma {:induction false} FirstStampIsFinal(cfg: Config, s: State, acts: seq<Action>, d: Direction)
    requires Runs(cfg, s, acts) && s.conn.On(d).first != 0
    ensures Final(cfg, s, acts).conn.On(d).first == s.conn.On(d).first
    decreases |acts|
  {
    if acts != [] {
      if acts[0].Advance? {
        ReactionKeeps(cfg, acts[0].t, Top(s.threads[acts[0].t]), s.conn, s.clock, acts[0].c, d);
      }
      FirstStampIsFinal(cfg, Next(cfg, s, acts[0]), acts[1..], d);
    }
  }

  /** RxErr, once set, is replaced at most by a later hard error and never cleared. */
  lemma {:induction false} RxErrIsSticky(cfg: Config, s: State, acts: seq<Action>)
    requires Runs(cfg, s, acts) && Hard(s.conn.rx.err)
    ensures Hard(Final(cfg, s, acts).conn.rx.err)
    decreases |acts|
  {
    if acts != [] {
      if acts[0].Advance? {
        ReactionKeeps(cfg, acts[0].t, Top(s.threads[acts[0].t]), s.conn, s.clock, acts[0].c, Rx);
      }
      RxErrIsSticky(cfg, Next(cfg, s, acts[0]), acts[1..]);
    }
  }

  // ---- What Warnings and ToMap see ----

  predicate IsPeek(e: Event) {
    e.Committed? && e.c.Peeked?
  }

  /** Every Warnings or ToMap call read the fields that the sections before it had left. */
  ghost predicate PeeksAgree(openedAt: int, h: seq<Event>) {
    forall i :: 0 <= i < |h| && IsPeek(h[i]) ==> h[i].c.seen == Replay(openedAt, Commits(h[..i]))
  }

  lemma PeeksSnoc(openedAt: int, h: seq<Event>, e: Event)
    requires PeeksAgree(openedAt, h) && (IsPeek(e) ==> e.c.seen == Replay(openedAt, Commits(h)))
    ensures PeeksAgree(openedAt, h + [e])
  {
    var h' := h + [e];
    forall i | 0 <= i < |h'| && IsPeek(h'[i]) ensures h'[i].c.seen == Replay(openedAt, Commits(h'[..i])) {
      if i < |h| {
        assert h'[..i] == h[..i];
      } else {
        assert h'[..i] == h;
      }
    }
  }

  lemma ReactionPeeks(cfg: Config, t: nat, f: Frame, w: Conn, now: int, c: Choice)
    ensures var r := React(cfg, t, f, w, now, c);
            r.event.Some? && IsPeek(r.event.value) ==> f.PeekHold? && r.event.value.c.seen == w
  {
  }

  lemma {:induction false} RunPeeks(openedAt: int, cfg: Config, s: State, acts: seq<Action>)
    requires Runs(cfg, s, acts) && Inv(openedAt, s) && PeeksAgree(openedAt, s.hist)
    ensures PeeksAgree(openedAt, Final(cfg, s, acts).hist)
    decreases |acts|
  {
    if acts != [] {
      var a := acts[0];
      if a.Advance? {
        var f := Top(s.threads[a.t]);
        var r := React(cfg, a.t, f, s.conn, s.clock, a.c);
        ReactionPeeks(cfg, a.t, f, s.conn, s.clock, a.c);
        if r.event.Some? {
          PeeksSnoc(openedAt, s.hist, r.event.value);
        }
      }
      StepInv(openedAt, cfg, s, a);
      RunPeeks(openedAt, cfg, Next(cfg, s, a), acts[1..]);
    }
  }

  /**
   Every Warnings or ToMap call sees a state of the sequential run: all of the sections that were committed
   before it took the lock, each complete, and nothing else.
   */
  lemma PeeksAreSerial(cfg: Config, openedAt: int, acts: seq<Action>)
    requires Runs(cfg, Init(openedAt), acts)
    ensures PeeksAgree(openedAt, Final(cfg, Init(openedAt), acts).hist)
  {
    InitInv(openedAt);
    RunPeeks(openedAt, cfg, Init(openedAt), acts);
  }
}
