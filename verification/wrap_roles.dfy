/**
 What a Close call in progress can still do is its role. Roles fade: no step takes up a role that the call did
 not have before, so what no pair of calls can do together now, no run without new Close calls will do.
 */
module Roles {
  import opened Base
  import opened ConnState
  import opened Protocol
  import opened Serial
  import opened CloseOnce
  import opened Leading

  // ---- Roles ----

  datatype Role =
    | Stores  // can still store ClosedInfo
    | Errs    // can still store InfoErr
    | Fetches // can still ask the socket for its info
    | Enters  // has not read ClosedInfo yet
    | Reports // can still report Closed

  /** The roles of a Close call that will read the fields w at its guard. */
  predicate Arriving(r: Role, w: Conn) {
    match r
    case Enters => true
    case Reports => w.closedInfo.None?
    case _ => w.closedInfo.None? && w.infoErr.None?
  }

  /** The role can be played in a gather of this kind. */
  predicate Concerns(r: Role, k: Kind) {
    r.Errs? || r.Fetches? || (r.Stores? && k == Closed)
  }

  /** The roles of a call that has fetched o and not stored it yet. */
  predicate HasStored(r: Role, k: Kind, o: Outcome) {
    match r
    case Stores => k == Closed && Delivers(o)
    case Errs => Fails(o)
    case Reports => k == Closed
    case _ => false
  }

  /**
   Whether a call in frame f has the role, when the fields are w, and will be v once the lock is free. A call
   that has yet to take the lock for its stamp reads v at its guard.
   */
  predicate Has(r: Role, f: Frame, w: Conn, v: Conn) {
    match f
    case CloseWait => Arriving(r, v)
    case CloseHold(_, _) => Arriving(r, v)
    case Guard(k) => if k == Closed then Arriving(r, w) else Concerns(r, k) && w.openedInfo.None? && w.infoErr.None?
    case ErrCheck(k) => if r.Reports? then k == Closed else Concerns(r, k) && w.infoErr.None?
    case Fetch(k) => if r.Reports? then k == Closed else Concerns(r, k)
    case StoreWait(k, o) => HasStored(r, k, o)
    case StoreHold(k, o, stored) => if stored then r.Reports? && k == Closed else HasStored(r, k, o)
    case CallbackDue(k) => r.Reports? && k == Closed
    case _ => false
  }

  predicate HasAt(s: State, t: nat, r: Role) {
    t < |s.threads| && s.threads[t] != [] && Has(r, Top(s.threads[t]), s.conn, Settled(s))
  }

  ghost predicate Nobody(s: State, r: Role) {
    forall t: nat :: !HasAt(s, t, r)
  }

  /** No two different goroutines have these roles. */
  ghost predicate NoPair(s: State, a: Role, b: Role) {
    forall t: nat, u: nat :: t != u && HasAt(s, t, a) ==> !HasAt(s, u, b)
  }

  // ---- Roles fade ----

  /** Fields that are set stay set. */
  predicate StaysSet(w: Conn, w': Conn) {
    && (w.closedInfo.Some? ==> w'.closedInfo.Some?)
    && (w.infoErr.Some? ==> w'.infoErr.Some?)
    && (w.openedInfo.Some? ==> w'.openedInfo.Some?)
  }

  lemma SetFieldsFade(r: Role, f: Frame, w: Conn, v: Conn, w': Conn, v': Conn)
    requires StaysSet(w, w') && StaysSet(v, v') && Has(r, f, w', v')
    ensures Has(r, f, w, v)
  {
  }

  /** The fields that the lock will leave after a step of goroutine t. */
  function SettledNext(v: Conn, q: Reaction): Conn {
    if q.next.Some? && Holding(q.next.value) then SettledBy(q.next.value, q.conn)
    else if q.lock.Drop? then q.conn
    else v
  }

  lemma SettledAfter(s: State, t: nat, q: Reaction)
    requires Locked(s) && t < |s.threads| && s.threads[t] != [] && LockFacts(t, Top(s.threads[t]), s.conn, q)
    ensures Settled(Perform(s, t, q)) == SettledNext(Settled(s), q)
    ensures Holding(Top(s.threads[t])) ==> Settled(s) == SettledBy(Top(s.threads[t]), s.conn)
  {
  }

  lemma ReactionSettles(cfg: Config, t: nat, f: Frame, w: Conn, v: Conn, now: int, c: Choice)
    requires Holding(f) ==> v == SettledBy(f, w)
    requires Waiting(f) ==> v == w
    ensures var q := React(cfg, t, f, w, now, c); StaysSet(w, q.conn) && StaysSet(v, SettledNext(v, q))
  {
  }

  lemma ReactionFades(r: Role, cfg: Config, t: nat, f: Frame, w: Conn, v: Conn, now: int, c: Choice)
    requires Holding(f) ==> v == SettledBy(f, w)
    requires Waiting(f) ==> v == w
    ensures var q := React(cfg, t, f, w, now, c);
            q.next.Some? && Has(r, q.next.value, q.conn, SettledNext(v, q)) ==> Has(r, f, w, v)
  {
  }

  ghost predicate Faded(s: State, s': State, r: Role) {
    forall t: nat :: HasAt(s', t, r) ==> HasAt(s, t, r)
  }

  lemma PerformFades(r: Role, s: State, t: nat, q: Reaction)
    requires Shaped(s) && Locked(s) && t < |s.threads| && s.threads[t] != []
    requires LockFacts(t, Top(s.threads[t]), s.conn, q)
    requires var v := SettledNext(Settled(s), q);
             && StaysSet(s.conn, q.conn) && StaysSet(Settled(s), v)
             && (q.next.Some? && Has(r, q.next.value, q.conn, v) ==> Has(r, Top(s.threads[t]), s.conn, Settled(s)))
    ensures Faded(s, Perform(s, t, q), r)
  {
    var s' := Perform(s, t, q);
    SettledAfter(s, t, q);
    forall u: nat | HasAt(s', u, r) ensures HasAt(s, u, r) {
      if u != t {
        SetFieldsFade(r, Top(s.threads[u]), s.conn, Settled(s), s'.conn, Settled(s'));
      }
    }
  }

  lemma CallFades(r: Role, cfg: Config, s: State, a: Action)
    requires Enabled(s, a) && Locked(s) && !a.Advance? && !(a.Call? && a.op.Close?)
    ensures Faded(s, Next(cfg, s, a), r) && Settled(Next(cfg, s, a)) == Settled(s)
  {
  }

  lemma FadedPair(s: State, s': State, a: Role, b: Role)
    requires Faded(s, s', a) && Faded(s, s', b)
    ensures Nobody(s, b) ==> Nobody(s', b)
    ensures NoPair(s, a, b) ==> NoPair(s', a, b)
  {
  }

  /** When t plays its role and has lost the other, nobody has the other. */
  lemma Played(s: State, s': State, t: nat, a: Role, b: Role)
    requires Faded(s, s', b) && NoPair(s, a, b) && HasAt(s, t, a) && !HasAt(s', t, b)
    ensures Nobody(s', b)
  {
  }

  // ---- How many goroutines have a role ----

  function CountHas(s: State, r: Role, n: nat): nat {
    if n == 0 then 0 else CountHas(s, r, n - 1) + if HasAt(s, n - 1, r) then 1 else 0
  }

  /** The goroutines that have a role. */
  function Contenders(s: State, r: Role): nat {
    CountHas(s, r, |s.threads|)
  }

  lemma {:induction false} CountPast(s: State, r: Role, n: nat)
    requires n >= |s.threads|
    ensures CountHas(s, r, n) == Contenders(s, r)
  {
    if n > |s.threads| {
      CountPast(s, r, n - 1);
    }
  }

  lemma {:induction false} CountFades(s: State, s': State, r: Role, n: nat)
    requires Faded(s, s', r)
    ensures CountHas(s', r, n) <= CountHas(s, r, n)
  {
    if n > 0 {
      CountFades(s, s', r, n - 1);
    }
  }

  lemma {:induction false} CountLoses(s: State, s': State, r: Role, n: nat, t: nat)
    requires Faded(s, s', r) && t < n && HasAt(s, t, r) && !HasAt(s', t, r)
    ensures CountHas(s', r, n) + 1 <= CountHas(s, r, n)
  {
    if t < n - 1 {
      CountLoses(s, s', r, n - 1, t);
    } else {
      CountFades(s, s', r, n - 1);
    }
  }

  /** Contenders never become more, and fewer when one gives up. */
  lemma ContendersFade(s: State, s': State, r: Role)
    requires Faded(s, s', r) && |s.threads| <= |s'.threads|
    ensures Contenders(s', r) <= Contenders(s, r)
    ensures forall t: nat :: HasAt(s, t, r) && !HasAt(s', t, r) ==> Contenders(s', r) + 1 <= Contenders(s, r)
  {
    var n := |s'.threads|;
    CountPast(s, r, n);
    CountFades(s, s', r, n);
    forall t: nat | HasAt(s, t, r) && !HasAt(s', t, r) ensures Contenders(s', r) + 1 <= Contenders(s, r) {
      CountLoses(s, s', r, n, t);
    }
  }

  lemma {:induction false} CountOnly(s: State, r: Role, n: nat, t: nat)
    requires forall u: nat :: u != t ==> !HasAt(s, u, r)
    ensures CountHas(s, r, n) <= if t < n then 1 else 0
  {
    if n > 0 {
      CountOnly(s, r, n - 1, t);
    }
  }

  lemma {:induction false} SomeContender(s: State, r: Role, n: nat) returns (t: nat)
    requires CountHas(s, r, n) >= 1
    ensures t < n && HasAt(s, t, r)
  {
    t := n - 1;
    if !HasAt(s, t, r) {
      t := SomeContender(s, r, n - 1);
    }
  }

  lemma {:induction false} TwoContenders(s: State, r: Role, n: nat) returns (t: nat, u: nat)
    requires CountHas(s, r, n) >= 2
    ensures t < u < n && HasAt(s, t, r) && HasAt(s, u, r)
  {
    u := n - 1;
    if HasAt(s, u, r) {
      t := SomeContender(s, r, n - 1);
    } else {
      t, u := TwoContenders(s, r, n - 1);
    }
  }

  // ---- What every step does to the fields and the history ----

  /** About to store what plays the role, whatever the others do. */
  predicate Ripe(r: Role, f: Frame) {
    (r.Stores? || r.Errs?) && ((f.StoreWait? && HasStored(r, f.k, f.o)) || (StoresNow(f) && HasStored(r, f.k, f.o)))
  }

  /** Which steps set the fields, and which leave a mark in the history. */
  ghost predicate Effects(f: Frame, w: Conn, q: Reaction) {
    && (q.conn.closedInfo != w.closedInfo ==>
          StoresNow(f) && Ripe(Stores, f) && q.conn.infoErr == w.infoErr && q.event.Some? && IsStore(q.event.value, Closed))
    && (q.conn.infoErr != w.infoErr ==>
          StoresNow(f) && Ripe(Errs, f) && q.conn.closedInfo == w.closedInfo && q.event.Some? && IsErrStore(q.event.value))
    && (q.event.Some? && IsStore(q.event.value, Closed) ==> StoresNow(f) && Ripe(Stores, f) && q.conn.closedInfo.Some?)
    && (q.event.Some? && IsErrStore(q.event.value) ==> StoresNow(f) && Ripe(Errs, f) && q.conn.infoErr.Some?)
    && (q.event.Some? && q.event.value.Fetched? ==> f.Fetch?)
    && (q.event.Some? && q.event.value.SockClosed? ==> f.SockClose?)
    && (q.event.Some? && IsClosedReport(q.event.value) <==> f == CallbackDue(Closed))
    && (StoresNow(f) ==> q.next == Some(StoreHold(f.k, f.o, true)))
    && (f.CallbackDue? ==> q.next == Some(InCallback(f.k)))
  }

  lemma ReactionEffects(cfg: Config, t: nat, f: Frame, w: Conn, now: int, c: Choice)
    ensures Effects(f, w, React(cfg, t, f, w, now, c))
  {
  }

  /** Goroutine t is about to make the step that q describes, and s' is the state after it. */
  ghost predicate About(s: State, t: nat, f: Frame, q: Reaction, s': State) {
    && t < |s.threads| && s.threads[t] != [] && f == Top(s.threads[t])
    && Effects(f, s.conn, q)
    && s' == Perform(s, t, q)
    && (forall r: Role :: Faded(s, s', r))
    && StaysSet(s.conn, s'.conn)
  }

  lemma AdvanceIsAbout(cfg: Config, s: State, t: nat, c: Choice)
    requires Shaped(s) && Locked(s) && Enabled(s, Advance(t, c))
    ensures About(s, t, Top(s.threads[t]), React(cfg, t, Top(s.threads[t]), s.conn, s.clock, c), Next(cfg, s, Advance(t, c)))
  {
    var f := Top(s.threads[t]);
    var q := React(cfg, t, f, s.conn, s.clock, c);
    ReactionEffects(cfg, t, f, s.conn, s.clock, c);
    ReactionLocks(cfg, t, f, s.conn, s.clock, c);
    SettledAfter(s, t, q);
    ReactionSettles(cfg, t, f, s.conn, Settled(s), s.clock, c);
    forall r: Role ensures Faded(s, Perform(s, t, q), r) {
      ReactionFades(r, cfg, t, f, s.conn, Settled(s), s.clock, c);
      PerformFades(r, s, t, q);
    }
  }

  /** One who has just stored can only report; one who has just reported has no role left. */
  lemma RolesAfter(s: State, t: nat, f: Frame, q: Reaction, s': State)
    requires About(s, t, f, q, s')
    ensures StoresNow(f) ==> forall r: Role :: HasAt(s', t, r) ==> r == Reports
    ensures f.CallbackDue? ==> forall r: Role :: !HasAt(s', t, r)
    ensures forall r: Role :: Ripe(r, f) ==> HasAt(s, t, r)
  {
  }

  // ---- ClosedInfo and InfoErr exclude each other ----

  predicate BothSet(w: Conn) {
    w.closedInfo.Some? && w.infoErr.Some?
  }

  /** The fields exclude each other, and nobody can still set the second one. */
  ghost predicate Exclusive(s: State) {
    && !BothSet(s.conn)
    && (s.conn.closedInfo.Some? ==> Nobody(s, Errs))
    && (s.conn.infoErr.Some? ==> Nobody(s, Stores))
    && (s.conn.closedInfo.None? && s.conn.infoErr.None? ==> NoPair(s, Stores, Errs))
  }

  lemma PerformExclusive(s: State, t: nat, f: Frame, q: Reaction, s': State)
    requires About(s, t, f, q, s') && Exclusive(s)
    ensures Exclusive(s')
  {
    RolesAfter(s, t, f, q, s');
    FadedPair(s, s', Stores, Errs);
    FadedPair(s, s', Errs, Stores);
    if q.conn.closedInfo != s.conn.closedInfo {
      if s.conn.closedInfo.None? {
        Played(s, s', t, Stores, Errs);
      }
    } else if q.conn.infoErr != s.conn.infoErr {
      if s.conn.infoErr.None? {
        PairSwap(s, Stores, Errs);
        Played(s, s', t, Errs, Stores);
      }
    }
  }

  lemma PairSwap(s: State, a: Role, b: Role)
    requires NoPair(s, a, b)
    ensures NoPair(s, b, a)
  {
  }

  lemma {:induction false} RunExclusive(cfg: Config, s: State, acts: seq<Action>)
    requires Runs(cfg, s, acts) && NoNewClose(acts) && Shaped(s) && Locked(s) && Exclusive(s)
    ensures Exclusive(Final(cfg, s, acts))
    decreases |acts|
  {
    if acts != [] {
      var a := acts[0];
      var s' := Next(cfg, s, a);
      if a.Advance? {
        var f := Top(s.threads[a.t]);
        AdvanceIsAbout(cfg, s, a.t, a.c);
        PerformExclusive(s, a.t, f, React(cfg, a.t, f, s.conn, s.clock, a.c), s');
      } else {
        CallFades(Stores, cfg, s, a);
        CallFades(Errs, cfg, s, a);
      }
      StepShaped(cfg, s, a);
      StepLocked(cfg, s, a);
      RunExclusive(cfg, s', acts[1..]);
    }
  }

  // ---- InfoErr stops all gathering ----

  /** Nothing was fetched after InfoErr, and nobody can still do so. */
  ghost predicate ErrQuiet(s: State) {
    && ErrStopsGathering(s.hist)
    && (s.conn.infoErr.None? ==> NoPair(s, Errs, Fetches))
    && (s.conn.infoErr.Some? ==> Nobody(s, Fetches))
  }

  ghost predicate ErrQuietSoFar(s: State) {
    ErrQuiet(s) && (s.conn.infoErr.None? ==> CountErrStores(s.hist) == 0)
  }

  lemma PerformErrQuiet(s: State, t: nat, f: Frame, q: Reaction, s': State)
    requires About(s, t, f, q, s') && ErrQuietSoFar(s)
    ensures ErrQuietSoFar(s')
  {
    RolesAfter(s, t, f, q, s');
    FadedPair(s, s', Errs, Fetches);
    if q.event.Some? {
      assert q.event.value.Fetched? ==> HasAt(s, t, Fetches);
      TimesMean(s.hist, Closed);
      ErrStopsSnoc(s.hist, q.event.value);
      TallySnoc(s.hist, q.event.value);
    }
    if s.conn.infoErr.None? && q.conn.infoErr.Some? {
      Played(s, s', t, Errs, Fetches);
    }
  }

  lemma {:induction false} RunErrQuiet(cfg: Config, s: State, acts: seq<Action>)
    requires Runs(cfg, s, acts) && NoNewClose(acts) && Shaped(s) && Locked(s) && ErrQuietSoFar(s)
    ensures ErrQuietSoFar(Final(cfg, s, acts))
    decreases |acts|
  {
    if acts != [] {
      var a := acts[0];
      var s' := Next(cfg, s, a);
      if a.Advance? {
        var f := Top(s.threads[a.t]);
        AdvanceIsAbout(cfg, s, a.t, a.c);
        PerformErrQuiet(s, a.t, f, React(cfg, a.t, f, s.conn, s.clock, a.c), s');
      } else {
        CallFades(Errs, cfg, s, a);
        CallFades(Fetches, cfg, s, a);
      }
      StepShaped(cfg, s, a);
      StepLocked(cfg, s, a);
      RunErrQuiet(cfg, s', acts[1..]);
    }
  }

  // ---- The report comes before the closing of the socket ----

  /** Whoever is in a Closed callback comes after a report, in all reachable states. */
  ghost predicate CallbacksReported(s: State) {
    forall t, i :: 0 <= t < |s.threads| && 0 <= i < |s.threads[t]| && s.threads[t][i] == InCallback(Closed) ==> HasReport(s.hist)
  }

  /** Whoever is about to close the socket comes after a report. */
  ghost predicate ClosersReported(s: State) {
    forall t: nat :: At(s, t, SockClose) ==> HasReport(s.hist)
  }

  /** The socket was closed only after a report, and nobody can still close it before one. */
  ghost predicate ReportSafe(s: State) {
    && ReportsFirst(s.hist)
    && ClosersReported(s)
    && (HasReport(s.hist) || if s.conn.closedInfo.None? then NoPair(s, Stores, Enters) else Nobody(s, Enters))
  }

  ghost predicate ReportSafeSoFar(s: State) {
    ReportSafe(s) && CallbacksReported(s)
  }

  lemma PerformCallbacks(s: State, t: nat, f: Frame, q: Reaction, s': State)
    requires About(s, t, f, q, s') && StageFacts(f, s.conn, q) && CallbacksReported(s)
    ensures CallbacksReported(s')
    ensures HasReport(s.hist) ==> HasReport(s'.hist)
  {
    if q.event.Some? {
      HasReportSnoc(s.hist, q.event.value);
    }
  }

  /** A step to the closing of the socket comes after a report, or finds ClosedInfo set. */
  lemma PerformShutters(s: State, t: nat, f: Frame, q: Reaction, s': State)
    requires About(s, t, f, q, s') && Shaped(s) && StageFacts(f, s.conn, q) && CallbacksReported(s) && ClosersReported(s)
    requires f == Guard(Closed) && s.conn.closedInfo.Some? ==> HasReport(s.hist)
    ensures ClosersReported(s')
    ensures ReportsFirst(s.hist) ==> ReportsFirst(s'.hist)
  {
    assert f.SockClose? ==> At(s, t, SockClose);
    if q.event.Some? {
      HasReportSnoc(s.hist, q.event.value);
      if ReportsFirst(s.hist) {
        ReportsFirstSnoc(s.hist, q.event.value);
      }
    }
    assert f == InCallback(Closed) ==> s.threads[t][|s.threads[t]| - 1] == InCallback(Closed);
    forall u: nat | At(s', u, SockClose) ensures HasReport(s'.hist) {
      if u != t {
        assert At(s, u, SockClose);
      }
    }
  }

  lemma PerformReportSafe(s: State, t: nat, f: Frame, q: Reaction, s': State)
    requires About(s, t, f, q, s') && Shaped(s) && StageFacts(f, s.conn, q) && ReportSafeSoFar(s)
    ensures ReportSafeSoFar(s')
  {
    assert f == Guard(Closed) ==> HasAt(s, t, Enters);
    PerformCallbacks(s, t, f, q, s');
    PerformShutters(s, t, f, q, s');
    RolesAfter(s, t, f, q, s');
    FadedPair(s, s', Stores, Enters);
    if !HasReport(s.hist) && s.conn.closedInfo.None? && q.conn.closedInfo.Some? {
      Played(s, s', t, Stores, Enters);
    }
  }

  lemma CallReportSafe(cfg: Config, s: State, a: Action)
    requires Enabled(s, a) && Locked(s) && !a.Advance? && !(a.Call? && a.op.Close?) && ReportSafeSoFar(s)
    ensures ReportSafeSoFar(Next(cfg, s, a))
  {
    var s' := Next(cfg, s, a);
    CallFades(Stores, cfg, s, a);
    CallFades(Enters, cfg, s, a);
    FadedPair(s, s', Stores, Enters);
    forall u: nat | At(s', u, SockClose) ensures HasReport(s'.hist) {
      assert At(s, u, SockClose);
    }
  }

  lemma {:induction false} RunReportSafe(cfg: Config, s: State, acts: seq<Action>)
    requires cfg.reporting && Runs(cfg, s, acts) && NoNewClose(acts) && Shaped(s) && Locked(s) && ReportSafeSoFar(s)
    ensures ReportSafeSoFar(Final(cfg, s, acts))
    decreases |acts|
  {
    if acts != [] {
      var a := acts[0];
      var s' := Next(cfg, s, a);
      if a.Advance? {
        var f := Top(s.threads[a.t]);
        AdvanceIsAbout(cfg, s, a.t, a.c);
        ReactionStages(cfg, a.t, f, s.conn, s.clock, a.c);
        PerformReportSafe(s, a.t, f, React(cfg, a.t, f, s.conn, s.clock, a.c), s');
      } else {
        CallReportSafe(cfg, s, a);
      }
      StepShaped(cfg, s, a);
      StepLocked(cfg, s, a);
      RunReportSafe(cfg, s', acts[1..]);
    }
  }

  // ---- One report after the store ----

  /** At most one report came after the store of ClosedInfo, and nobody can still add a second one. */
  ghost predicate LateSafe(s: State) {
    if s.conn.closedInfo.None? then NoPair(s, Stores, Reports)
    else LateReports(s.hist) + Contenders(s, Reports) <= 1
  }

  ghost predicate LateSafeSoFar(s: State) {
    LateSafe(s) && (s.conn.closedInfo.None? ==> LateReports(s.hist) == 0 && CountStores(s.hist, Closed) == 0)
  }

  /** Whoever reports gives up the role. */
  lemma PerformTells(s: State, t: nat, f: Frame, q: Reaction, s': State)
    requires About(s, t, f, q, s')
    ensures LateReports(s'.hist) + Contenders(s', Reports) <= LateReports(s.hist) + Contenders(s, Reports)
  {
    RolesAfter(s, t, f, q, s');
    ContendersFade(s, s', Reports);
    if q.event.Some? {
      TallySnoc(s.hist, q.event.value);
      assert IsClosedReport(q.event.value) ==> HasAt(s, t, Reports);
    }
  }

  lemma PerformLateSafe(s: State, t: nat, f: Frame, q: Reaction, s': State)
    requires About(s, t, f, q, s') && LateSafeSoFar(s)
    ensures LateSafeSoFar(s')
  {
    RolesAfter(s, t, f, q, s');
    FadedPair(s, s', Stores, Reports);
    PerformTells(s, t, f, q, s');
    if q.event.Some? {
      TallySnoc(s.hist, q.event.value);
    }
    if s.conn.closedInfo.None? && q.conn.closedInfo.Some? {
      assert HasAt(s, t, Stores);
      CountOnly(s', Reports, |s'.threads|, t);
    }
  }

  lemma CallLateSafe(cfg: Config, s: State, a: Action)
    requires Enabled(s, a) && Locked(s) && !a.Advance? && !(a.Call? && a.op.Close?) && LateSafeSoFar(s)
    ensures LateSafeSoFar(Next(cfg, s, a))
  {
    var s' := Next(cfg, s, a);
    CallFades(Stores, cfg, s, a);
    CallFades(Reports, cfg, s, a);
    FadedPair(s, s', Stores, Reports);
    ContendersFade(s, s', Reports);
  }

  lemma {:induction false} RunLateSafe(cfg: Config, s: State, acts: seq<Action>)
    requires Runs(cfg, s, acts) && NoNewClose(acts) && Shaped(s) && Locked(s) && LateSafeSoFar(s)
    ensures LateSafeSoFar(Final(cfg, s, acts))
    decreases |acts|
  {
    if acts != [] {
      var a := acts[0];
      var s' := Next(cfg, s, a);
      if a.Advance? {
        var f := Top(s.threads[a.t]);
        AdvanceIsAbout(cfg, s, a.t, a.c);
        PerformLateSafe(s, a.t, f, React(cfg, a.t, f, s.conn, s.clock, a.c), s');
      } else {
        CallLateSafe(cfg, s, a);
      }
      StepShaped(cfg, s, a);
      StepLocked(cfg, s, a);
      RunLateSafe(cfg, s', acts[1..]);
    }
  }

  /** No continuation without new Close calls reports late more often than there are goroutines that can still report. */
  lemma {:induction false} ReportsBounded(cfg: Config, s: State, acts: seq<Action>)
    requires Runs(cfg, s, acts) && NoNewClose(acts) && Shaped(s) && Locked(s)
    ensures LateReports(Final(cfg, s, acts).hist) <= LateReports(s.hist) + Contenders(s, Reports)
    decreases |acts|
  {
    if acts != [] {
      var a := acts[0];
      var s' := Next(cfg, s, a);
      if a.Advance? {
        var f := Top(s.threads[a.t]);
        AdvanceIsAbout(cfg, s, a.t, a.c);
        PerformTells(s, a.t, f, React(cfg, a.t, f, s.conn, s.clock, a.c), s');
      } else {
        CallFades(Reports, cfg, s, a);
        ContendersFade(s, s', Reports);
      }
      StepShaped(cfg, s, a);
      StepLocked(cfg, s, a);
      ReportsBounded(cfg, s', acts[1..]);
    }
  }

  // ---- At most one store for each contender ----

  /** How often ClosedInfo, or InfoErr, was stored. */
  function Landings(r: Role, h: seq<Event>): nat {
    if r.Stores? then CountStores(h, Closed) else CountErrStores(h)
  }

  predicate Lands(r: Role, e: Event) {
    if r.Stores? then IsStore(e, Closed) else IsErrStore(e)
  }

  lemma LandingsSnoc(r: Role, h: seq<Event>, e: Event)
    requires r.Stores? || r.Errs?
    ensures Landings(r, h + [e]) == Landings(r, h) + if Lands(r, e) then 1 else 0
  {
    TallySnoc(h, e);
  }

  lemma PerformContends(r: Role, s: State, t: nat, f: Frame, q: Reaction, s': State)
    requires About(s, t, f, q, s') && (r.Stores? || r.Errs?)
    ensures Landings(r, s'.hist) + Contenders(s', r) <= Landings(r, s.hist) + Contenders(s, r)
  {
    RolesAfter(s, t, f, q, s');
    ContendersFade(s, s', r);
    if q.event.Some? {
      LandingsSnoc(r, s.hist, q.event.value);
      assert Lands(r, q.event.value) ==> HasAt(s, t, r) && !HasAt(s', t, r);
    }
  }

  /** No continuation without new Close calls stores more often than there are goroutines that can still store. */
  lemma {:induction false} StoresBounded(r: Role, cfg: Config, s: State, acts: seq<Action>)
    requires Runs(cfg, s, acts) && NoNewClose(acts) && Shaped(s) && Locked(s) && (r.Stores? || r.Errs?)
    ensures Landings(r, Final(cfg, s, acts).hist) <= Landings(r, s.hist) + Contenders(s, r)
    decreases |acts|
  {
    if acts != [] {
      var a := acts[0];
      var s' := Next(cfg, s, a);
      if a.Advance? {
        var f := Top(s.threads[a.t]);
        AdvanceIsAbout(cfg, s, a.t, a.c);
        PerformContends(r, s, a.t, f, React(cfg, a.t, f, s.conn, s.clock, a.c), s');
      } else {
        CallFades(r, cfg, s, a);
        ContendersFade(s, s', r);
      }
      StepShaped(cfg, s, a);
      StepLocked(cfg, s, a);
      StoresBounded(r, cfg, s', acts[1..]);
    }
  }

  // ---- What is known of every reachable state ----

  /** A field is set exactly when the history has a store of it. */
  ghost predicate Recorded(s: State) {
    && (s.conn.closedInfo.None? <==> CountStores(s.hist, Closed) == 0)
    && (s.conn.infoErr.None? <==> CountErrStores(s.hist) == 0)
    && (s.conn.closedInfo.None? ==> LateReports(s.hist) == 0)
  }

  lemma PerformRecorded(s: State, t: nat, f: Frame, q: Reaction, s': State)
    requires About(s, t, f, q, s') && Recorded(s)
    ensures Recorded(s')
  {
    if q.event.Some? {
      TallySnoc(s.hist, q.event.value);
    }
  }

  lemma {:induction false} RunRecorded(cfg: Config, s: State, acts: seq<Action>)
    requires Runs(cfg, s, acts) && Shaped(s) && Locked(s) && Recorded(s)
    ensures Recorded(Final(cfg, s, acts))
    decreases |acts|
  {
    if acts != [] {
      var a := acts[0];
      if a.Advance? {
        var f := Top(s.threads[a.t]);
        AdvanceIsAbout(cfg, s, a.t, a.c);
        PerformRecorded(s, a.t, f, React(cfg, a.t, f, s.conn, s.clock, a.c), Next(cfg, s, a));
      }
      StepShaped(cfg, s, a);
      StepLocked(cfg, s, a);
      RunRecorded(cfg, Next(cfg, s, a), acts[1..]);
    }
  }

  /** As long as ClosedInfo is not set, the socket is closed only after a report. */
  ghost predicate Past(s: State) {
    && CallbacksReported(s)
    && (s.conn.closedInfo.None? ==> ReportsFirst(s.hist) && ClosersReported(s))
  }

  lemma PerformPast(s: State, t: nat, f: Frame, q: Reaction, s': State)
    requires About(s, t, f, q, s') && Shaped(s) && StageFacts(f, s.conn, q) && Past(s)
    ensures Past(s')
  {
    PerformCallbacks(s, t, f, q, s');
    if s.conn.closedInfo.None? {
      PerformShutters(s, t, f, q, s');
    }
  }

  lemma CallPast(cfg: Config, s: State, a: Action)
    requires Enabled(s, a) && !a.Advance? && Past(s)
    ensures Past(Next(cfg, s, a))
  {
    var s' := Next(cfg, s, a);
    forall u: nat | At(s', u, SockClose) ensures At(s, u, SockClose) {
    }
  }

  lemma {:induction false} RunPast(cfg: Config, s: State, acts: seq<Action>)
    requires cfg.reporting && Runs(cfg, s, acts) && Shaped(s) && Locked(s) && Past(s)
    ensures Past(Final(cfg, s, acts))
    decreases |acts|
  {
    if acts != [] {
      var a := acts[0];
      var s' := Next(cfg, s, a);
      if a.Advance? {
        var f := Top(s.threads[a.t]);
        AdvanceIsAbout(cfg, s, a.t, a.c);
        ReactionStages(cfg, a.t, f, s.conn, s.clock, a.c);
        PerformPast(s, a.t, f, React(cfg, a.t, f, s.conn, s.clock, a.c), s');
      } else {
        CallPast(cfg, s, a);
      }
      StepShaped(cfg, s, a);
      StepLocked(cfg, s, a);
      RunPast(cfg, s', acts[1..]);
    }
  }

  lemma ReachablePast(cfg: Config, openedAt: int, s: State)
    requires cfg.reporting && Reachable(cfg, openedAt, s)
    ensures Inv(openedAt, s) && Past(s) && Recorded(s)
  {
    var acts :| Runs(cfg, Init(openedAt), acts) && Final(cfg, Init(openedAt), acts) == s;
    InitInv(openedAt);
    RunInv(openedAt, cfg, Init(openedAt), acts);
    RunPast(cfg, Init(openedAt), acts);
    RunRecorded(cfg, Init(openedAt), acts);
  }
}
