/** What holds in every run, overlapping Close calls or not, and runs in which overlapping calls break the rest. */
module Overlap {
  import opened ConnState
  import opened Protocol
  import opened Serial
  import opened CloseOnce
  import opened Alone
  import opened Leading
  import opened Roles
  import opened Contention

  // ---- In every run, overlapping or not ----

  /** ClosedInfo is stored and every goroutine that passed the guard has delivered its report. */
  ghost predicate Quiet(s: State) {
    && s.conn.closedInfo.Some?
    && forall t :: 0 <= t < |s.threads| && s.threads[t] != [] ==>
         !Armed(Top(s.threads[t]), Closed) && !Owing(Top(s.threads[t]))
  }

  function ClosedReports(h: seq<Event>): nat {
    if h == [] then 0 else ClosedReports(h[..|h| - 1]) + if IsClosedReport(h[|h| - 1]) then 1 else 0
  }

  lemma ReactionQuiet(cfg: Config, t: nat, f: Frame, w: Conn, now: int, c: Choice)
    requires w.closedInfo.Some? && !Armed(f, Closed) && !Owing(f)
    ensures var r := React(cfg, t, f, w, now, c);
            && r.conn.closedInfo.Some?
            && (r.next.Some? ==> !Armed(r.next.value, Closed) && !Owing(r.next.value))
            && (r.event.Some? ==> !IsClosedReport(r.event.value))
  {
  }

  lemma PerformQuiet(s: State, t: nat, r: Reaction)
    requires Shaped(s) && Quiet(s) && t < |s.threads| && s.threads[t] != []
    requires r.conn.closedInfo.Some?
    requires r.next.Some? ==> !Armed(r.next.value, Closed) && !Owing(r.next.value)
    requires r.event.Some? ==> !IsClosedReport(r.event.value)
    ensures Quiet(Perform(s, t, r)) && ClosedReports(Perform(s, t, r).hist) == ClosedReports(s.hist)
  {
    if r.event.Some? {
      Snoc(s.hist, r.event.value);
    }
  }

  /**
   Whatever calls follow, Close calls nested in callbacks and overlapping ones included, there is no further
   Closed report.
   */
  lemma {:induction false} QuietForever(cfg: Config, s: State, acts: seq<Action>)
    requires Runs(cfg, s, acts) && Shaped(s) && Quiet(s)
    ensures Quiet(Final(cfg, s, acts))
    ensures ClosedReports(Final(cfg, s, acts).hist) == ClosedReports(s.hist)
    decreases |acts|
  {
    if acts != [] {
      var a := acts[0];
      if a.Advance? {
        var f := Top(s.threads[a.t]);
        ReactionQuiet(cfg, a.t, f, s.conn, s.clock, a.c);
        PerformQuiet(s, a.t, React(cfg, a.t, f, s.conn, s.clock, a.c));
      }
      StepShaped(cfg, s, a);
      QuietForever(cfg, Next(cfg, s, a), acts[1..]);
    }
  }

  /** The opening call can still store OpenedInfo. */
  predicate CanOpen(f: Frame) {
    Opening(f) && !f.CallbackDue? && (f.StoreHold? ==> !f.stored)
  }

  ghost predicate OpenedOnce(s: State) {
    && CountStores(s.hist, Opened) <= 1
    && forall t :: 0 <= t < |s.threads| && s.threads[t] != [] && CanOpen(Top(s.threads[t])) ==> CountStores(s.hist, Opened) == 0
  }

  lemma ReactionOpens(cfg: Config, t: nat, f: Frame, w: Conn, now: int, c: Choice)
    ensures var r := React(cfg, t, f, w, now, c);
            && (r.event.Some? && IsStore(r.event.value, Opened) ==> CanOpen(f) && StoresNow(f))
            && (r.next.Some? && CanOpen(r.next.value) ==> CanOpen(f) && !StoresNow(f))
  {
  }

  lemma PerformOpens(s: State, t: nat, r: Reaction)
    requires Shaped(s) && Published(s) && OpenedOnce(s) && t < |s.threads| && s.threads[t] != []
    requires r.event.Some? && IsStore(r.event.value, Opened) ==> CanOpen(Top(s.threads[t])) && StoresNow(Top(s.threads[t]))
    requires r.next.Some? && CanOpen(r.next.value) ==> CanOpen(Top(s.threads[t])) && !StoresNow(Top(s.threads[t]))
    ensures OpenedOnce(Perform(s, t, r))
  {
    if r.event.Some? {
      Snoc(s.hist, r.event.value);
    }
  }

  lemma {:induction false} RunOpens(cfg: Config, s: State, acts: seq<Action>)
    requires Runs(cfg, s, acts) && Shaped(s) && Published(s) && OpenedOnce(s)
    ensures OpenedOnce(Final(cfg, s, acts))
    decreases |acts|
  {
    if acts != [] {
      var a := acts[0];
      if a.Advance? {
        var f := Top(s.threads[a.t]);
        ReactionOpens(cfg, a.t, f, s.conn, s.clock, a.c);
        PerformOpens(s, a.t, React(cfg, a.t, f, s.conn, s.clock, a.c));
      }
      StepShaped(cfg, s, a);
      StepPublished(cfg, s, a);
      RunOpens(cfg, Next(cfg, s, a), acts[1..]);
    }
  }

  /** OpenedInfo is written at most once in every run, whatever the Close calls do. */
  lemma OpenedInfoOnce(cfg: Config, openedAt: int, acts: seq<Action>)
    requires Runs(cfg, Init(openedAt), acts)
    ensures CountStores(Final(cfg, Init(openedAt), acts).hist, Opened) <= 1
  {
    RunOpens(cfg, Init(openedAt), acts);
  }

  // ---- A connection that does not gather ----

  predicate Gatherless(f: Frame) {
    !f.Fetch? && !f.StoreWait? && !f.StoreHold?
  }

  ghost predicate NothingGathered(s: State) {
    && s.conn.closedInfo.None? && s.conn.infoErr.None?
    && forall t, i :: 0 <= t < |s.threads| && 0 <= i < |s.threads[t]| ==> Gatherless(s.threads[t][i])
  }

  lemma ReactionGatherless(cfg: Config, t: nat, f: Frame, w: Conn, now: int, c: Choice)
    requires !(cfg.supported && cfg.tcp) && Gatherless(f)
    ensures var r := React(cfg, t, f, w, now, c);
            && r.conn.closedInfo == w.closedInfo && r.conn.infoErr == w.infoErr
            && (r.next.Some? ==> Gatherless(r.next.value))
  {
  }

  lemma PerformGatherless(s: State, t: nat, r: Reaction)
    requires NothingGathered(s) && t < |s.threads| && s.threads[t] != []
    requires r.conn.closedInfo == s.conn.closedInfo && r.conn.infoErr == s.conn.infoErr
    requires r.next.Some? ==> Gatherless(r.next.value)
    ensures NothingGathered(Perform(s, t, r))
  {
  }

  lemma {:induction false} RunGatherless(cfg: Config, s: State, acts: seq<Action>)
    requires !(cfg.supported && cfg.tcp) && Runs(cfg, s, acts) && NothingGathered(s)
    ensures NothingGathered(Final(cfg, s, acts))
    decreases |acts|
  {
    if acts != [] {
      var a := acts[0];
      if a.Advance? {
        var f := Top(s.threads[a.t]);
        ReactionGatherless(cfg, a.t, f, s.conn, s.clock, a.c);
        PerformGatherless(s, a.t, React(cfg, a.t, f, s.conn, s.clock, a.c));
      }
      RunGatherless(cfg, Next(cfg, s, a), acts[1..]);
    }
  }

  /** On an unsupported platform, or on a connection that is not TCP, overlapping Close calls break no promise. */
  lemma KeptWithoutGathering(cfg: Config, openedAt: int, s: State)
    requires cfg.reporting && !(cfg.supported && cfg.tcp) && Reachable(cfg, openedAt, s)
    ensures ReportsFirst(s.hist) && LateReports(s.hist) == 0
    ensures CountStores(s.hist, Closed) == 0 && CountErrStores(s.hist) == 0
  {
    ReachablePast(cfg, openedAt, s);
    var acts :| Runs(cfg, Init(openedAt), acts) && Final(cfg, Init(openedAt), acts) == s;
    RunGatherless(cfg, Init(openedAt), acts);
  }

  // ---- Overlapping calls on a connection that gathers ----

  /** The opening: a gather that delivers, and its report. */
  lemma OpenWithInfo(cfg: Config, openedAt: int, o: Outcome) returns (s: State)
    requires cfg.Gathers() && Delivers(o)
    ensures Reachable(cfg, openedAt, s) && s.threads == [[]] && s.owner.None? && s.escaped
    ensures s.conn == Fresh(openedAt).(openedInfo := o.sys) && !HasReport(s.hist)
  {
    var acts := OpenIsARun(cfg, openedAt, Answer(openedAt, o));
    s := Final(cfg, Init(openedAt), acts);
    assert Init(openedAt).threads[0 := Pop(Init(openedAt).threads[0])] == [[]];
    InitInv(openedAt);
    RunInv(openedAt, cfg, Init(openedAt), acts);
    if HasReport(s.hist) {
      ReportSeen(s.hist);
    }
  }

  lemma {:induction false} ReportSeen(h: seq<Event>)
    requires HasReport(h)
    ensures Told(Closed) in Sights(h)
  {
    var i :| 0 <= i < |h| && IsClosedReport(h[i]);
    if i < |h| - 1 {
      assert IsClosedReport(h[..|h| - 1][i]);
      ReportSeen(h[..|h| - 1]);
    }
  }

  /** Two goroutines call Close. */
  lemma TwoCalls(cfg: Config, openedAt: int, s: State) returns (s': State)
    requires Reachable(cfg, openedAt, s) && s.threads == [[]] && s.escaped
    ensures Reachable(cfg, openedAt, s')
    ensures s' == s.(threads := [[CloseWait], [CloseWait]])
  {
    var s1 := s.(threads := [[], []]);
    assert Next(cfg, s, Spawn) == s1;
    var s2 := s.(threads := [[CloseWait], []]);
    assert Next(cfg, s1, Call(0, Close)) == s2 by { assert [] + [CloseWait] == [CloseWait]; }
    s' := s.(threads := [[CloseWait], [CloseWait]]);
    assert Next(cfg, s2, Call(1, Close)) == s' by { assert [] + [CloseWait] == [CloseWait]; }
    OneMore(cfg, openedAt, s, Spawn);
    OneMore(cfg, openedAt, s1, Call(0, Close));
    OneMore(cfg, openedAt, s2, Call(1, Close));
  }

  lemma OneMore(cfg: Config, openedAt: int, s: State, a: Action)
    requires Reachable(cfg, openedAt, s) && Enabled(s, a)
    ensures Reachable(cfg, openedAt, Next(cfg, s, a))
  {
    var acts :| Runs(cfg, Init(openedAt), acts) && Final(cfg, Init(openedAt), acts) == s;
    RunsCons(cfg, s, a, []);
    RunsConcat(cfg, Init(openedAt), acts, [a] + []);
    assert Final(cfg, Init(openedAt), acts + ([a] + [])) == Next(cfg, s, a);
  }

  /** Two plain Close calls on a connection that has gathered at its opening: both still have every role. */
  lemma OverlapIsReachable(cfg: Config, openedAt: int) returns (s: State)
    requires cfg.Gathers()
    ensures LiveState(cfg, openedAt, s) && |s.threads| == 2 && s.conn.openedInfo.Some?
    ensures s.conn.closedInfo.None? && s.conn.infoErr.None? && !HasReport(s.hist)
    ensures forall r: Role :: HasAt(s, 0, r) && HasAt(s, 1, r)
  {
    var o := SomeOutcome(Stores);
    var s0 := OpenWithInfo(cfg, openedAt, o);
    s := TwoCalls(cfg, openedAt, s0);
  }

  lemma OverlapBreaksReports(cfg: Config, openedAt: int)
    requires cfg.Gathers()
    ensures exists s :: Reachable(cfg, openedAt, s) && !ReportsFirst(s.hist)
    ensures exists s :: Reachable(cfg, openedAt, s) && LateReports(s.hist) == 2
  {
    var s := OverlapIsReachable(cfg, openedAt);
    ReachablePast(cfg, openedAt, s);
    var unreported := ShutUnreported(cfg, openedAt, s, 0, 1);
    LeadsReachable(cfg, openedAt, s, unreported);
    var late := BothReport(cfg, openedAt, s, 0, 1);
    LeadsReachable(cfg, openedAt, s, late);
  }

  lemma {:induction false} CountAtMost(s: State, r: Role, n: nat)
    ensures CountHas(s, r, n) <= n
  {
    if n > 0 {
      CountAtMost(s, r, n - 1);
    }
  }

  lemma StoresTwice(cfg: Config, openedAt: int, s: State, r: Role) returns (s': State)
    requires cfg.Gathers() && Inv(openedAt, s) && Landings(r, s.hist) == 0 && |s.threads| == 2 && (r.Stores? || r.Errs?)
    requires HasAt(s, 0, r) && HasAt(s, 1, r)
    ensures Leads(cfg, s, s') && Landings(r, s'.hist) == 2
  {
    s' := BothLand(cfg, openedAt, s, 0, 1, r, r);
    var acts := LeadsToRun(cfg, s, s');
    StoresBounded(r, cfg, s, acts);
    CountAtMost(s, r, 2);
  }

  lemma OverlapBreaksStores(cfg: Config, openedAt: int)
    requires cfg.Gathers()
    ensures exists s :: Reachable(cfg, openedAt, s) && CountStores(s.hist, Closed) == 2
    ensures exists s :: Reachable(cfg, openedAt, s) && CountErrStores(s.hist) == 2
    ensures exists s :: Reachable(cfg, openedAt, s) && BothSet(s.conn)
  {
    var s := OverlapIsReachable(cfg, openedAt);
    ReachablePast(cfg, openedAt, s);
    var stored := StoresTwice(cfg, openedAt, s, Stores);
    LeadsReachable(cfg, openedAt, s, stored);
    var failed := StoresTwice(cfg, openedAt, s, Errs);
    LeadsReachable(cfg, openedAt, s, failed);
    var both := BothLand(cfg, openedAt, s, 0, 1, Stores, Errs);
    LeadsReachable(cfg, openedAt, s, both);
  }

  /** So without the non-overlap condition every promise of CloseKeepsPromises about the close fails in some run. */
  lemma OverlapBreaksPromises(cfg: Config, openedAt: int)
    requires cfg.Gathers()
    ensures exists s :: Reachable(cfg, openedAt, s) && !ReportsFirst(s.hist)
    ensures exists s :: Reachable(cfg, openedAt, s) && LateReports(s.hist) == 2
    ensures exists s :: Reachable(cfg, openedAt, s) && CountStores(s.hist, Closed) == 2
    ensures exists s :: Reachable(cfg, openedAt, s) && CountErrStores(s.hist) == 2
    ensures exists s :: Reachable(cfg, openedAt, s) && BothSet(s.conn)
    ensures exists s :: Reachable(cfg, openedAt, s) && !ErrStopsGathering(s.hist)
  {
    OverlapBreaksReports(cfg, openedAt);
    OverlapBreaksStores(cfg, openedAt);
    var s := OverlapIsReachable(cfg, openedAt);
    ReachablePast(cfg, openedAt, s);
    var fetched := FetchAfterErr(cfg, openedAt, s, 0, 1);
    LeadsReachable(cfg, openedAt, s, fetched);
  }
}
