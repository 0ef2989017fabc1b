/** Runs in which one goroutine moves at a time, to lead the machine to a chosen state. */
module Leading {
  import opened Base
  import opened ConnState
  import opened Protocol
  import opened Serial
  import opened Locks
  import opened CloseOnce
  import opened Alone

  /** Some run of steps, with no new calls, takes s to s'. */
  ghost predicate Leads(cfg: Config, s: State, s': State) {
    exists acts :: Runs(cfg, s, acts) && OnlyAdvances(acts) && Final(cfg, s, acts) == s'
  }

  lemma LeadsNowhere(cfg: Config, s: State)
    ensures Leads(cfg, s, s)
  {
    assert Runs(cfg, s, []) && OnlyAdvances([]) && Final(cfg, s, []) == s;
  }

  lemma LeadsOn(cfg: Config, a: State, b: State, c: State)
    requires Leads(cfg, a, b) && Leads(cfg, b, c)
    ensures Leads(cfg, a, c)
  {
    var xs :| Runs(cfg, a, xs) && OnlyAdvances(xs) && Final(cfg, a, xs) == b;
    var ys :| Runs(cfg, b, ys) && OnlyAdvances(ys) && Final(cfg, b, ys) == c;
    RunsConcat(cfg, a, xs, ys);
    assert Runs(cfg, a, xs + ys) && OnlyAdvances(xs + ys) && Final(cfg, a, xs + ys) == c;
  }

  lemma LeadsToRun(cfg: Config, s: State, s': State) returns (acts: seq<Action>)
    requires Leads(cfg, s, s')
    ensures Runs(cfg, s, acts) && NoNewClose(acts) && Final(cfg, s, acts) == s'
  {
    acts :| Runs(cfg, s, acts) && OnlyAdvances(acts) && Final(cfg, s, acts) == s';
  }

  lemma LeadsReachable(cfg: Config, openedAt: int, s: State, s': State)
    requires Reachable(cfg, openedAt, s) && Leads(cfg, s, s')
    ensures Reachable(cfg, openedAt, s')
  {
    var xs :| Runs(cfg, Init(openedAt), xs) && Final(cfg, Init(openedAt), xs) == s;
    var ys :| Runs(cfg, s, ys) && OnlyAdvances(ys) && Final(cfg, s, ys) == s';
    RunsConcat(cfg, Init(openedAt), xs, ys);
    assert Runs(cfg, Init(openedAt), xs + ys) && Final(cfg, Init(openedAt), xs + ys) == s';
  }

  // ---- Where a goroutine stands, and what a history adds up to ----

  predicate At(s: State, t: nat, f: Frame) {
    t < |s.threads| && s.threads[t] != [] && Top(s.threads[t]) == f
  }

  /** Goroutine t has moved on to frame g; the others stand where they stood, and so does the lock. */
  ghost predicate Moved(s: State, t: nat, g: Frame, s': State) {
    && t < |s.threads| && s.threads[t] != []
    && s'.threads == s.threads[t := Swap(s.threads[t], g)]
    && s'.owner == s.owner
  }

  lemma MovedAt(s: State, t: nat, g: Frame, s': State)
    requires Moved(s, t, g, s')
    ensures At(s', t, g) && |s'.threads| == |s.threads|
    ensures forall u, f :: u != t ==> (At(s', u, f) <==> At(s, u, f))
  {
  }

  /** The counts that the promises of Close are about. */
  datatype Tally = Tally(stores: nat, errs: nat, reported: bool, late: nat)

  ghost function TallyOf(h: seq<Event>): Tally {
    Tally(CountStores(h, Closed), CountErrStores(h), HasReport(h), LateReports(h))
  }

  ghost function Count(y: Tally, e: Event): Tally {
    if IsStore(e, Closed) then y.(stores := y.stores + 1)
    else if IsErrStore(e) then y.(errs := y.errs + 1)
    else if IsClosedReport(e) then y.(reported := true, late := y.late + if y.stores > 0 then 1 else 0)
    else y
  }

  /** An event that none of the counts is about. */
  predicate Uncounted(e: Event) {
    !IsStore(e, Closed) && !IsErrStore(e) && !IsClosedReport(e)
  }

  lemma TallySnoc(h: seq<Event>, e: Event)
    ensures TallyOf(h + [e]) == Count(TallyOf(h), e)
  {
    Snoc(h, e);
    HasReportSnoc(h, e);
  }

  // ---- Moves ----

  function Answer(now: int, o: Outcome): Choice {
    Choice(0, None, now, o)
  }

  const NO_ANSWER := Outcome(None, None, None)

  lemma LeadsOneStep(cfg: Config, s: State, a: Action)
    requires a.Advance? && Enabled(s, a)
    ensures Leads(cfg, s, Next(cfg, s, a))
  {
    RunsCons(cfg, s, a, []);
    assert OnlyAdvances([a] + []);
  }

  /** One step that has nothing to do with the lock. */
  lemma Go(cfg: Config, s: State, t: nat, o: Outcome) returns (s': State)
    requires t < |s.threads| && s.threads[t] != [] && !Waiting(Top(s.threads[t])) && !Holding(Top(s.threads[t]))
    ensures Leads(cfg, s, s')
    ensures s' == Perform(s, t, React(cfg, t, Top(s.threads[t]), s.conn, s.clock, Answer(s.clock, o)))
  {
    var a := Advance(t, Answer(s.clock, o));
    s' := Next(cfg, s, a);
    LeadsOneStep(cfg, s, a);
  }

  /** Past the guard, while the snapshot is not set. */
  lemma PassGuard(cfg: Config, s: State, t: nat, k: Kind) returns (s': State)
    requires cfg.reporting && At(s, t, Guard(k)) && s.conn.Info(k).None?
    ensures Leads(cfg, s, s') && Moved(s, t, ErrCheck(k), s') && s'.conn == s.conn && s'.hist == s.hist
  {
    s' := Go(cfg, s, t, NO_ANSWER);
  }

  /** Past the second check, while InfoErr is not set. */
  lemma PassCheck(cfg: Config, s: State, t: nat, k: Kind) returns (s': State)
    requires cfg.Gathers() && At(s, t, ErrCheck(k)) && s.conn.infoErr.None?
    ensures Leads(cfg, s, s') && Moved(s, t, Fetch(k), s') && s'.conn == s.conn && s'.hist == s.hist
  {
    s' := Go(cfg, s, t, NO_ANSWER);
  }

  /** With InfoErr set there is nothing to gather, only to report. */
  lemma SkipCheck(cfg: Config, s: State, t: nat, k: Kind) returns (s': State)
    requires At(s, t, ErrCheck(k)) && s.conn.infoErr.Some?
    ensures Leads(cfg, s, s') && Moved(s, t, CallbackDue(k), s') && s'.conn == s.conn && s'.hist == s.hist
  {
    s' := Go(cfg, s, t, NO_ANSWER);
  }

  /** The socket answers o. */
  lemma FetchNow(cfg: Config, s: State, t: nat, k: Kind, o: Outcome) returns (s': State)
    requires At(s, t, Fetch(k))
    ensures Leads(cfg, s, s') && Moved(s, t, StoreWait(k, o), s')
    ensures s'.conn == s.conn && s'.hist == s.hist + [Fetched(t, k)] && TallyOf(s'.hist) == TallyOf(s.hist)
  {
    s' := Go(cfg, s, t, o);
    TallySnoc(s.hist, Fetched(t, k));
  }

  lemma ReportNow(cfg: Config, s: State, t: nat) returns (s': State)
    requires At(s, t, CallbackDue(Closed))
    ensures Leads(cfg, s, s') && Moved(s, t, InCallback(Closed), s')
    ensures s'.conn == s.conn && TallyOf(s'.hist) == Count(TallyOf(s.hist), Reported(t, Closed))
  {
    s' := Go(cfg, s, t, NO_ANSWER);
    TallySnoc(s.hist, Reported(t, Closed));
  }

  lemma ShutNow(cfg: Config, s: State, t: nat) returns (s': State)
    requires At(s, t, SockClose)
    ensures Leads(cfg, s, s') && s'.hist == s.hist + [SockClosed(t)]
  {
    s' := Go(cfg, s, t, NO_ANSWER);
  }

  /** A Close call that finds ClosedInfo set closes the socket at once. */
  lemma ShutAtGuard(cfg: Config, s: State, t: nat) returns (s': State)
    requires At(s, t, Guard(Closed)) && s.conn.closedInfo.Some?
    ensures Leads(cfg, s, s') && s'.hist == s.hist + [SockClosed(t)]
  {
    var s1 := Go(cfg, s, t, NO_ANSWER);
    s' := ShutNow(cfg, s1, t);
    LeadsOn(cfg, s, s1, s');
  }

  /** n steps of goroutine t, with the lock free before and after. */
  lemma Walk(cfg: Config, s: State, t: nat, c: Choice, n: nat, l: Solo) returns (s': State)
    requires t < |s.threads| && s.threads[t] != [] && s.owner.None? && !Holding(Top(s.threads[t])) && s.clock <= c.ts
    requires l == Steps(cfg, t, c, Local(s, t), n) && l.frame.Some? && !Holding(l.frame.value)
    ensures Leads(cfg, s, s') && Moved(s, t, l.frame.value, s')
    ensures s'.conn == l.conn && s'.hist == l.hist
  {
    var acts := RunsAlone(cfg, s, t, c, n);
    s' := Final(cfg, s, acts);
  }

  /** From the start of Close to its guard. */
  lemma ToGuard(cfg: Config, s: State, t: nat) returns (s': State)
    requires s.owner.None? && At(s, t, CloseWait)
    ensures Leads(cfg, s, s') && Moved(s, t, Guard(Closed), s')
    ensures s'.conn == s.conn.(closedAt := s.clock) && TallyOf(s'.hist) == TallyOf(s.hist)
  {
    var c := Answer(s.clock, NO_ANSWER);
    var l0 := Local(s, t);
    var l1 := Step(cfg, t, c, l0);
    var l2 := Step(cfg, t, c, l1);
    var l3 := Step(cfg, t, c, l2);
    assert Steps(cfg, t, c, l0, 3) == Steps(cfg, t, c, l1, 2) == Steps(cfg, t, c, l2, 1) == l3;
    s' := Walk(cfg, s, t, c, 3, l3);
    TallySnoc(s.hist, Took(t));
    TallySnoc(s.hist + [Took(t)], Committed(t, CloseStamped(s.clock)));
  }

  /** The locked section of gatherAndReport. */
  lemma StoreNow(cfg: Config, s: State, t: nat, k: Kind, o: Outcome) returns (s': State)
    requires s.owner.None? && At(s, t, StoreWait(k, o))
    ensures Leads(cfg, s, s') && Moved(s, t, CallbackDue(k), s')
    ensures s'.conn == StoreInfo(s.conn, k, o)
    ensures TallyOf(s'.hist) == Count(TallyOf(s.hist), Wrote(t, k, o))
  {
    var c := Answer(s.clock, o);
    var l0 := Local(s, t);
    var l1 := Step(cfg, t, c, l0);
    var l2 := Step(cfg, t, c, l1);
    var l3 := Step(cfg, t, c, l2);
    assert Steps(cfg, t, c, l0, 3) == Steps(cfg, t, c, l1, 2) == Steps(cfg, t, c, l2, 1) == l3;
    s' := Walk(cfg, s, t, c, 3, l3);
    TallyStore(s.hist, t, k, o);
  }

  lemma TallyStore(h: seq<Event>, t: nat, k: Kind, o: Outcome)
    ensures TallyOf(h + [Took(t)] + [Wrote(t, k, o)] + [Committed(t, InfoStored(k, o))])
            == Count(TallyOf(h), Wrote(t, k, o))
  {
    TallySnoc(h, Took(t));
    TallySnoc(h + [Took(t)], Wrote(t, k, o));
    TallySnoc(h + [Took(t)] + [Wrote(t, k, o)], Committed(t, InfoStored(k, o)));
  }

  // ---- Letting go of the lock ----

  /** The fields once the owner of the lock has made the store of gatherAndReport that it is about to make. */
  function SettledBy(f: Frame, w: Conn): Conn {
    if StoresNow(f) then StoreInfo(w, f.k, f.o) else w
  }

  /** The frame of the goroutine that holds the lock. */
  function OwnerFrame(s: State): Option<Frame> {
    if s.owner.Some? && s.owner.value < |s.threads| && s.threads[s.owner.value] != [] then Some(Top(s.threads[s.owner.value]))
    else None
  }

  function Settled(s: State): Conn {
    if OwnerFrame(s).Some? then SettledBy(OwnerFrame(s).value, s.conn) else s.conn
  }

  ghost function SettledTally(s: State): Tally {
    var y := TallyOf(s.hist);
    var f := OwnerFrame(s);
    if f.Some? && StoresNow(f.value) then Count(y, Wrote(s.owner.value, f.value.k, f.value.o)) else y
  }

  predicate SameInfos(w: Conn, v: Conn) {
    w.closedInfo == v.closedInfo && w.infoErr == v.infoErr && w.openedInfo == v.openedInfo
  }

  /** What follows the locked section of a call; none if the call returns. */
  function Leave(f: Frame): Option<Frame> {
    match f
    case CloseHold(_, _) => Some(Guard(Closed))
    case StoreHold(k, _, _) => Some(CallbackDue(k))
    case _ => None
  }

  function LeaveStack(st: Stack): Stack
    requires st != []
  {
    if Leave(Top(st)).Some? then Swap(st, Leave(Top(st)).value) else Pop(st)
  }

  /** The threads once the owner has let go of the lock. */
  function LeaveThreads(s: State): seq<Stack> {
    if OwnerFrame(s).Some? then s.threads[s.owner.value := LeaveStack(s.threads[s.owner.value])] else s.threads
  }

  /** Inside a section, a step changes neither where it leads nor what it will have stored. */
  lemma ReactionInside(cfg: Config, t: nat, f: Frame, w: Conn, now: int, c: Choice)
    requires Holding(f)
    ensures var q := React(cfg, t, f, w, now, c);
            && (q.lock.Keep? ==>
                  && q.next.Some? && Holding(q.next.value) && !StoresNow(q.next.value)
                  && Leave(q.next.value) == Leave(f) && SameInfos(q.conn, SettledBy(f, w))
                  && (if StoresNow(f) then q.event == Some(Wrote(t, f.k, f.o)) else q.event.Some? ==> Uncounted(q.event.value)))
            && (q.lock.Drop? ==>
                  && q.next == Leave(f) && !StoresNow(f) && SameInfos(q.conn, w)
                  && (q.event.Some? ==> Uncounted(q.event.value)))
            && !q.lock.Take?
  {
  }

  lemma InsideStep(cfg: Config, s: State, t: nat, q: Reaction)
    requires Locked(s) && s.owner == Some(t) && LockFacts(t, Top(s.threads[t]), s.conn, q)
    requires q.lock.Keep? && q.next.Some? && Holding(q.next.value) && !StoresNow(q.next.value)
    requires Leave(q.next.value) == Leave(Top(s.threads[t])) && SameInfos(q.conn, SettledBy(Top(s.threads[t]), s.conn))
    requires if StoresNow(Top(s.threads[t])) then q.event == Some(Wrote(t, Top(s.threads[t]).k, Top(s.threads[t]).o))
             else q.event.Some? ==> Uncounted(q.event.value)
    ensures var s' := Perform(s, t, q);
            && SameInfos(Settled(s'), Settled(s)) && SettledTally(s') == SettledTally(s)
            && LeaveThreads(s') == LeaveThreads(s)
  {
    if q.event.Some? {
      TallySnoc(s.hist, q.event.value);
    }
    SameLeave(s.threads[t], q.next.value);
  }

  lemma SameLeave(st: Stack, g: Frame)
    requires st != [] && Leave(g) == Leave(Top(st))
    ensures LeaveStack(Swap(st, g)) == LeaveStack(st)
  {
    assert Pop(Swap(st, g)) == Pop(st);
  }

  lemma LastInside(cfg: Config, s: State, t: nat, q: Reaction)
    requires Locked(s) && s.owner == Some(t) && q.lock.Drop?
    requires q.next == Leave(Top(s.threads[t])) && !StoresNow(Top(s.threads[t])) && SameInfos(q.conn, s.conn)
    requires q.event.Some? ==> Uncounted(q.event.value)
    ensures var s' := Perform(s, t, q);
            && s'.owner.None? && SameInfos(s'.conn, Settled(s)) && TallyOf(s'.hist) == SettledTally(s)
            && s'.threads == LeaveThreads(s)
  {
    if q.event.Some? {
      TallySnoc(s.hist, q.event.value);
    }
  }

  /** Whoever holds the lock lets go of it. */
  lemma {:induction false} LetGo(cfg: Config, openedAt: int, s: State) returns (s': State)
    requires Inv(openedAt, s)
    ensures Leads(cfg, s, s') && Inv(openedAt, s') && s'.owner.None?
    ensures SameInfos(s'.conn, Settled(s)) && TallyOf(s'.hist) == SettledTally(s) && s'.threads == LeaveThreads(s)
    decreases if s.owner.Some? then StepsLeft(Top(s.threads[s.owner.value])) else 0
  {
    if s.owner.None? {
      s' := s;
      LeadsNowhere(cfg, s);
    } else {
      var t := s.owner.value;
      var a := Advance(t, Tick(s.clock));
      HolderStep(cfg, s, t);
      var f := Top(s.threads[t]);
      var q := React(cfg, t, f, s.conn, s.clock, a.c);
      ReactionInside(cfg, t, f, s.conn, s.clock, a.c);
      ReactionLocks(cfg, t, f, s.conn, s.clock, a.c);
      StepInv(openedAt, cfg, s, a);
      var s1 := Next(cfg, s, a);
      LeadsOneStep(cfg, s, a);
      if q.lock.Keep? {
        InsideStep(cfg, s, t, q);
        s' := LetGo(cfg, openedAt, s1);
        LeadsOn(cfg, s, s1, s');
      } else {
        LastInside(cfg, s, t, q);
        s' := s1;
      }
    }
  }

  lemma LeadsInv(cfg: Config, openedAt: int, s: State, s': State)
    requires Inv(openedAt, s) && Leads(cfg, s, s')
    ensures Inv(openedAt, s')
  {
    var acts :| Runs(cfg, s, acts) && OnlyAdvances(acts) && Final(cfg, s, acts) == s';
    RunInv(openedAt, cfg, s, acts);
  }
}
