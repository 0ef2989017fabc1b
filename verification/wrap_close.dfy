/**
 What Close promises: the report comes before the socket is closed, ClosedInfo and InfoErr are written once
 and exclude each other, and InfoErr stops all gathering. All of it holds for runs in which the Close calls
 of different goroutines do not overlap. Overlap has a run that breaks each promise, and Contention says exactly when the calls in progress
 can break it.
 */
module CloseOnce {
  import opened Base
  import opened ConnState
  import opened Protocol
  import opened Serial

  // ---- Runs whose Close calls do not overlap ----

  /** The frames of a Close call, from its start to its closing of the socket. */
  predicate InClose(f: Frame) {
    || f.CloseWait? || f.CloseHold? || f.SockClose?
    || ((f.Guard? || f.ErrCheck? || f.Fetch? || f.StoreWait? || f.StoreHold? || f.CallbackDue? || f.InCallback?) && f.k == Closed)
  }

  /** A Close call is in progress, nested ones included. */
  predicate Closes(st: Stack) {
    st != [] && (InClose(Top(st)) || Closes(Pop(st)))
  }

  /** No goroutine but t has a Close call in progress. */
  ghost predicate NoOtherCloses(s: State, t: nat) {
    forall u :: 0 <= u < |s.threads| && u != t ==> !Closes(s.threads[u])
  }

  /**
   Every Close call starts when no other goroutine has one in progress. A Close call made from inside a
   callback of the same goroutine is allowed.
   */
  ghost predicate NoOverlap(cfg: Config, s: State, acts: seq<Action>)
    requires Runs(cfg, s, acts)
    decreases |acts|
  {
    acts == [] ||
    (&& (acts[0].Call? && acts[0].op.Close? ==> NoOtherCloses(s, acts[0].t))
     && NoOverlap(cfg, Next(cfg, s, acts[0]), acts[1..]))
  }

  /** The Close calls in progress belong to one goroutine. */
  ghost predicate Apart(ts: seq<Stack>) {
    forall t, u :: 0 <= t < |ts| && 0 <= u < |ts| && t != u ==> !Closes(ts[t]) || !Closes(ts[u])
  }

  ghost predicate ClosesApart(s: State) {
    Apart(s.threads)
  }

  lemma ReactionClosers(cfg: Config, t: nat, f: Frame, w: Conn, now: int, c: Choice)
    ensures var r := React(cfg, t, f, w, now, c); r.next.Some? && InClose(r.next.value) ==> InClose(f)
  {
  }

  lemma StepClosers(cfg: Config, s: State, a: Action)
    requires Enabled(s, a) && ClosesApart(s) && (a.Call? && a.op.Close? ==> NoOtherCloses(s, a.t))
    ensures ClosesApart(Next(cfg, s, a))
  {
    if a.Advance? {
      var f := Top(s.threads[a.t]);
      ReactionClosers(cfg, a.t, f, s.conn, s.clock, a.c);
      PerformClosers(s, a.t, React(cfg, a.t, f, s.conn, s.clock, a.c));
    } else if a.Call? {
      var st := s.threads[a.t] + [FirstFrame(a.op)];
      assert Pop(st) == s.threads[a.t];
      ApartUpdate(s.threads, a.t, st);
    }
  }

  /** Replacing one stack, by one that closes no more or while no other one closes. */
  lemma ApartUpdate(ts: seq<Stack>, t: nat, st: Stack)
    requires t < |ts| && Apart(ts)
    requires Closes(st) ==> Closes(ts[t]) || forall u :: 0 <= u < |ts| && u != t ==> !Closes(ts[u])
    ensures Apart(ts[t := st])
  {
  }

  lemma PerformClosers(s: State, t: nat, r: Reaction)
    requires ClosesApart(s) && t < |s.threads| && s.threads[t] != []
    requires r.next.Some? && InClose(r.next.value) ==> InClose(Top(s.threads[t]))
    ensures ClosesApart(Perform(s, t, r))
  {
    var st := s.threads[t];
    var st' := if r.next.Some? then Swap(st, r.next.value) else Pop(st);
    assert r.next.Some? ==> Pop(st') == Pop(st);
    assert Closes(st') ==> Closes(st);
    ApartUpdate(s.threads, t, st');
  }

  /** The frames of Close belong to one goroutine. */
  lemma OneCloser(s: State, t: nat, u: nat)
    requires ClosesApart(s) && t < |s.threads| && u < |s.threads| && t != u
    requires s.threads[t] != [] && InClose(Top(s.threads[t]))
    ensures !Closes(s.threads[u])
    ensures s.threads[u] != [] ==> !InClose(Top(s.threads[u]))
  {
  }

  // ---- The stages of a gather ----

  /** Past the guard, nothing stored yet. */
  predicate Armed(f: Frame, k: Kind) {
    (f.ErrCheck? || f.Fetch? || f.StoreWait? || (f.StoreHold? && !f.stored)) && f.k == k
  }

  /** Past the InfoErr check, nothing stored yet. */
  predicate Gathering(f: Frame) {
    f.Fetch? || f.StoreWait? || (f.StoreHold? && !f.stored)
  }

  /** Stored or given up; the Closed report is owed. */
  predicate Owing(f: Frame) {
    (f.CallbackDue? || (f.StoreHold? && f.stored)) && f.k == Closed
  }

  predicate StoresNow(f: Frame) {
    f.StoreHold? && !f.stored
  }

  /** How a step moves a goroutine through the stages of a gather. */
  ghost predicate StageFacts(f: Frame, w: Conn, r: Reaction) {
    && (forall k :: r.next.Some? && Armed(r.next.value, k) ==> Armed(f, k) || (f == Guard(k) && w.Info(k).None?))
    && (r.next.Some? && Gathering(r.next.value) ==> Gathering(f) || (f.ErrCheck? && w.infoErr.None?))
    && (r.next.Some? && Owing(r.next.value) ==> Owing(f) || Armed(f, Closed))
    && (Owing(f) && !f.CallbackDue? ==> r.next.Some? && Owing(r.next.value))
    && (r.next == Some(SockClose) ==> f == InCallback(Closed) || (f == Guard(Closed) && w.closedInfo.Some?))
    && (r.next == Some(InCallback(Closed)) ==> f == CallbackDue(Closed))
  }

  lemma ReactionStages(cfg: Config, t: nat, f: Frame, w: Conn, now: int, c: Choice)
    requires cfg.reporting
    ensures StageFacts(f, w, React(cfg, t, f, w, now, c))
  {
  }

  /** Which steps write the snapshots and InfoErr, and which leave a mark in the history. */
  ghost predicate StoreFacts(t: nat, f: Frame, w: Conn, r: Reaction) {
    && (StoresNow(f) ==>
          && r.conn == StoreInfo(w, f.k, f.o)
          && r.event == Some(Wrote(t, f.k, f.o))
          && r.next == Some(StoreHold(f.k, f.o, true)))
    && (!StoresNow(f) ==>
          && r.conn.infoErr == w.infoErr
          && r.conn.openedInfo == w.openedInfo
          && r.conn.closedInfo == w.closedInfo
          && (r.event.Some? ==> !r.event.value.Wrote?))
    && (r.event.Some? && r.event.value.Reported? <==> f.CallbackDue?)
    && (f.CallbackDue? ==> r.event == Some(Reported(t, f.k)) && r.next == Some(InCallback(f.k)))
    && (r.event.Some? && r.event.value.Fetched? <==> f.Fetch?)
    && (r.event.Some? && r.event.value.SockClosed? <==> f.SockClose?)
  }

  lemma ReactionStores(cfg: Config, t: nat, f: Frame, w: Conn, now: int, c: Choice)
    ensures StoreFacts(t, f, w, React(cfg, t, f, w, now, c))
  {
  }

  // ---- Reading a history ----

  predicate IsClosedReport(e: Event) {
    e.Reported? && e.k == Closed
  }

  /** The write that stores a snapshot. */
  predicate IsStore(e: Event, k: Kind) {
    e.Wrote? && e.k == k && Delivers(e.o)
  }

  /** The write that stores InfoErr. */
  predicate IsErrStore(e: Event) {
    e.Wrote? && Fails(e.o)
  }

  predicate HasReport(h: seq<Event>) {
    exists i :: 0 <= i < |h| && IsClosedReport(h[i])
  }

  function CountStores(h: seq<Event>, k: Kind): nat {
    if h == [] then 0 else CountStores(h[..|h| - 1], k) + if IsStore(h[|h| - 1], k) then 1 else 0
  }

  function CountErrStores(h: seq<Event>): nat {
    if h == [] then 0 else CountErrStores(h[..|h| - 1]) + if IsErrStore(h[|h| - 1]) then 1 else 0
  }

  /** Closed reports that come after a store of ClosedInfo. */
  function LateReports(h: seq<Event>): nat {
    if h == [] then 0
    else
      var rest := h[..|h| - 1];
      LateReports(rest) + if IsClosedReport(h[|h| - 1]) && CountStores(rest, Closed) > 0 then 1 else 0
  }

  /** How often something happened, as far as the promises care. */
  datatype Times = Never | Once | Often

  function Again(n: Times): Times {
    if n.Never? then Once else Often
  }

  function TimesStored(h: seq<Event>, k: Kind): Times {
    if h == [] then Never
    else
      var rest := TimesStored(h[..|h| - 1], k);
      if IsStore(h[|h| - 1], k) then Again(rest) else rest
  }

  function TimesErr(h: seq<Event>): Times {
    if h == [] then Never
    else
      var rest := TimesErr(h[..|h| - 1]);
      if IsErrStore(h[|h| - 1]) then Again(rest) else rest
  }

  function TimesLate(h: seq<Event>): Times {
    if h == [] then Never
    else
      var rest := TimesLate(h[..|h| - 1]);
      if IsClosedReport(h[|h| - 1]) && TimesStored(h[..|h| - 1], Closed) != Never then Again(rest) else rest
  }

  predicate Means(n: Times, count: nat) {
    (n == Never <==> count == 0) && (n == Once <==> count == 1)
  }

  lemma {:induction false} TimesMean(h: seq<Event>, k: Kind)
    ensures Means(TimesStored(h, k), CountStores(h, k)) && Means(TimesErr(h), CountErrStores(h))
  {
    if h != [] {
      TimesMean(h[..|h| - 1], k);
    }
  }

  lemma {:induction false} TimesMeanLate(h: seq<Event>)
    ensures Means(TimesLate(h), LateReports(h))
  {
    if h != [] {
      TimesMeanLate(h[..|h| - 1]);
      TimesMean(h[..|h| - 1], Closed);
    }
  }

  /** Every closing of the socket comes after a Closed report. */
  ghost predicate ReportsFirst(h: seq<Event>) {
    forall i :: 0 <= i < |h| && h[i].SockClosed? ==> exists j :: 0 <= j < i && IsClosedReport(h[j])
  }

  /** Once InfoErr is stored nothing is gathered any more. */
  ghost predicate ErrStopsGathering(h: seq<Event>) {
    forall i, j :: 0 <= i < j < |h| && IsErrStore(h[i]) ==> !h[j].Fetched?
  }

  lemma {:induction false} NoErrStores(h: seq<Event>)
    requires CountErrStores(h) == 0
    ensures forall i :: 0 <= i < |h| ==> !IsErrStore(h[i])
  {
    if h != [] {
      NoErrStores(h[..|h| - 1]);
    }
  }

  // ---- The invariant ----

  ghost predicate StagesAgree(s: State) {
    forall t :: 0 <= t < |s.threads| && s.threads[t] != [] ==>
      var f := Top(s.threads[t]);
      && (forall k :: Armed(f, k) ==> s.conn.Info(k).None?)
      && (Gathering(f) ==> s.conn.infoErr.None?)
  }

  /** Some goroutine has yet to deliver its Closed report. */
  ghost predicate ReportOwed(s: State) {
    exists t :: 0 <= t < |s.threads| && s.threads[t] != [] && Owing(Top(s.threads[t]))
  }

  /** Whoever is in a Closed callback, or about to close the socket, comes after a report. */
  ghost predicate ReturnsAgree(s: State) {
    && (forall t, i :: 0 <= t < |s.threads| && 0 <= i < |s.threads[t]| && s.threads[t][i] == InCallback(Closed) ==> HasReport(s.hist))
    && (forall t :: 0 <= t < |s.threads| && s.threads[t] != [] && Top(s.threads[t]).SockClose? ==> HasReport(s.hist))
  }

  /** The store of ClosedInfo is followed by one report, which may be owed still. */
  predicate LateAgree(h: seq<Event>, closed: bool, owed: bool) {
    if !closed || owed then TimesLate(h) == Never else TimesLate(h) == Once && HasReport(h)
  }

  ghost predicate ReportsAgree(s: State) {
    LateAgree(s.hist, s.conn.closedInfo.Some?, ReportOwed(s))
  }

  ghost predicate WritesAgree(s: State) {
    && (forall k :: TimesStored(s.hist, k) == if s.conn.Info(k).Some? then Once else Never)
    && TimesErr(s.hist) == (if s.conn.infoErr.Some? then Once else Never)
    && (s.conn.closedInfo.Some? ==> s.conn.infoErr.None? && s.escaped)
  }

  /** What is written, and who is about to write. */
  ghost predicate CloseCore(s: State) {
    && Shaped(s)
    && Published(s)
    && ClosesApart(s)
    && StagesAgree(s)
    && WritesAgree(s)
  }

  ghost predicate CloseInv(s: State) {
    && CloseCore(s)
    && ReturnsAgree(s)
    && ReportsAgree(s)
    && ReportsFirst(s.hist)
    && ErrStopsGathering(s.hist)
  }

  /** At most one goroutine is between the guard and the callback of a gather. */
  lemma OneGatherer(s: State, t: nat, u: nat, k: Kind)
    requires Published(s) && ClosesApart(s) && t < |s.threads| && u < |s.threads| && t != u
    requires s.threads[t] != [] && Armed(Top(s.threads[t]), k)
    requires s.threads[u] != []
    ensures k == Closed && !InClose(Top(s.threads[u])) && !Opening(Top(s.threads[u]))
  {
    if k == Closed {
      OneCloser(s, t, u);
    }
  }

  /** A goroutine about to step in a state that satisfies the invariant. */
  ghost predicate Moving(s: State, t: nat, f: Frame, r: Reaction) {
    && CloseCore(s)
    && t < |s.threads| && s.threads[t] != [] && f == Top(s.threads[t])
    && StageFacts(f, s.conn, r)
    && StoreFacts(t, f, s.conn, r)
  }

  lemma PerformStages(s: State, t: nat, f: Frame, r: Reaction)
    requires Moving(s, t, f, r)
    ensures StagesAgree(Perform(s, t, r))
  {
    var s' := Perform(s, t, r);
    forall u | 0 <= u < |s'.threads| && s'.threads[u] != []
      ensures var g := Top(s'.threads[u]);
              (forall k :: Armed(g, k) ==> s'.conn.Info(k).None?) && (Gathering(g) ==> s'.conn.infoErr.None?)
    {
      if u != t && StoresNow(f) {
        OneGatherer(s, t, u, f.k);
      }
    }
  }

  lemma CountsSnoc(h: seq<Event>, e: Event, k: Kind)
    ensures TimesStored(h + [e], k) == if IsStore(e, k) then Again(TimesStored(h, k)) else TimesStored(h, k)
    ensures TimesErr(h + [e]) == if IsErrStore(e) then Again(TimesErr(h)) else TimesErr(h)
  {
    Snoc(h, e);
  }

  lemma WritesStep(s: State, t: nat, f: Frame, r: Reaction)
    requires WritesAgree(s) && StoreFacts(t, f, s.conn, r) && t < |s.threads| && s.threads[t] != []
    requires StoresNow(f) ==> s.conn.Info(f.k).None? && s.conn.infoErr.None? && (f.k == Closed <==> s.escaped)
    ensures WritesAgree(Perform(s, t, r))
  {
    if r.event.Some? {
      CountsSnoc(s.hist, r.event.value, Opened);
      CountsSnoc(s.hist, r.event.value, Closed);
    }
  }

  lemma PerformFirst(s: State, t: nat, f: Frame, r: Reaction)
    requires t < |s.threads| && s.threads[t] != [] && f == Top(s.threads[t]) && StoreFacts(t, f, s.conn, r)
    requires ReturnsAgree(s) && ReportsFirst(s.hist)
    ensures ReportsFirst(Perform(s, t, r).hist)
  {
    if r.event.Some? {
      ReportsFirstSnoc(s.hist, r.event.value);
    }
  }

  lemma ErrStopsSnoc(h: seq<Event>, e: Event)
    requires ErrStopsGathering(h) && (e.Fetched? ==> TimesErr(h) == Never)
    ensures ErrStopsGathering(h + [e])
  {
    if e.Fetched? {
      TimesMean(h, Closed);
      NoErrStores(h);
    }
  }

  lemma PerformStops(s: State, t: nat, f: Frame, r: Reaction)
    requires Moving(s, t, f, r) && ErrStopsGathering(s.hist)
    ensures ErrStopsGathering(Perform(s, t, r).hist)
  {
    if r.event.Some? {
      assert f.Fetch? ==> Gathering(f);
      ErrStopsSnoc(s.hist, r.event.value);
    }
  }

  lemma ReportsFirstSnoc(h: seq<Event>, e: Event)
    requires ReportsFirst(h) && (e.SockClosed? ==> HasReport(h))
    ensures ReportsFirst(h + [e])
  {
    var h' := h + [e];
    forall i | 0 <= i < |h'| && h'[i].SockClosed? ensures exists j :: 0 <= j < i && IsClosedReport(h'[j]) {
      if i < |h| {
        var j :| 0 <= j < i && IsClosedReport(h[j]);
        assert IsClosedReport(h'[j]);
      } else {
        var j :| 0 <= j < |h| && IsClosedReport(h[j]);
        assert IsClosedReport(h'[j]);
      }
    }
  }

  lemma HasReportSnoc(h: seq<Event>, e: Event)
    ensures HasReport(h) || IsClosedReport(e) <==> HasReport(h + [e])
  {
    var h' := h + [e];
    if i :| 0 <= i < |h| && IsClosedReport(h[i]) {
      assert IsClosedReport(h'[i]);
    }
    if IsClosedReport(e) {
      assert IsClosedReport(h'[|h|]);
    }
  }

  lemma LateSnoc(h: seq<Event>, e: Event)
    ensures TimesLate(h + [e]) == if IsClosedReport(e) && TimesStored(h, Closed) != Never then Again(TimesLate(h)) else TimesLate(h)
    ensures HasReport(h) || IsClosedReport(e) <==> HasReport(h + [e])
  {
    Snoc(h, e);
    HasReportSnoc(h, e);
  }

  /** How a step bears on the report that follows the store of ClosedInfo. */
  lemma LateStep(h: seq<Event>, e: Event, closed: bool, closed': bool, owed: bool, owed': bool)
    requires LateAgree(h, closed, owed) && (TimesStored(h, Closed) == Never <==> !closed)
    requires IsClosedReport(e) ==> closed' == closed && owed && !owed'
    requires !IsClosedReport(e) && closed ==> closed' && owed' == owed
    requires !IsClosedReport(e) && !closed && closed' ==> owed'
    ensures LateAgree(h + [e], closed', owed')
  {
    LateSnoc(h, e);
  }

  /** Who owes a report after a step. */
  lemma OwedAfter(s: State, t: nat, f: Frame, r: Reaction)
    requires Moving(s, t, f, r)
    ensures var s' := Perform(s, t, r);
            && (f == CallbackDue(Closed) ==> ReportOwed(s) && !ReportOwed(s'))
            && (s.conn.closedInfo.Some? && f != CallbackDue(Closed) ==> (ReportOwed(s') <==> ReportOwed(s)))
            && (s.conn.closedInfo.None? && s'.conn.closedInfo.Some? ==> ReportOwed(s'))
  {
    var s' := Perform(s, t, r);
    if f == CallbackDue(Closed) {
      OneOwing(s, t, s');
    } else if s.conn.closedInfo.Some? {
      SameOwing(s, t, f, r);
    } else if StoresNow(f) && f.k == Closed && Delivers(f.o) {
      assert s'.threads[t] != [] && Owing(Top(s'.threads[t]));
    }
  }

  /** Goroutines past their report, and those that found ClosedInfo stored, come after a report. */
  lemma PerformReturns(s: State, t: nat, f: Frame, r: Reaction)
    requires Moving(s, t, f, r) && ReturnsAgree(s) && ReportsAgree(s)
    ensures ReturnsAgree(Perform(s, t, r))
  {
    var s' := Perform(s, t, r);
    if r.event.Some? {
      HasReportSnoc(s.hist, r.event.value);
    }
    if f == Guard(Closed) && s.conn.closedInfo.Some? {
      forall u | 0 <= u < |s.threads| && s.threads[u] != [] ensures !Owing(Top(s.threads[u])) {
        if u != t {
          OneCloser(s, t, u);
        }
      }
      assert HasReport(s.hist);
    }
  }

  /** After the report that was owed, none is. */
  lemma OneOwing(s: State, t: nat, s': State)
    requires ClosesApart(s) && t < |s.threads| && s.threads[t] != [] && Top(s.threads[t]) == CallbackDue(Closed)
    requires s'.threads == s.threads[t := Swap(s.threads[t], InCallback(Closed))]
    ensures !ReportOwed(s') && ReportOwed(s)
  {
    assert Owing(Top(s.threads[t]));
    forall u | 0 <= u < |s'.threads| && s'.threads[u] != [] ensures !Owing(Top(s'.threads[u])) {
      if u != t {
        OneCloser(s, t, u);
      }
    }
  }

  /** Once ClosedInfo is stored, any other step leaves the same reports owed. */
  lemma SameOwing(s: State, t: nat, f: Frame, r: Reaction)
    requires Moving(s, t, f, r) && s.conn.closedInfo.Some? && f != CallbackDue(Closed)
    ensures ReportOwed(Perform(s, t, r)) <==> ReportOwed(s)
  {
    var s' := Perform(s, t, r);
    assert !Armed(f, Closed);
    if ReportOwed(s) {
      var u :| 0 <= u < |s.threads| && s.threads[u] != [] && Owing(Top(s.threads[u]));
      assert s'.threads[u] != [] && Owing(Top(s'.threads[u]));
    }
    if ReportOwed(s') {
      var u :| 0 <= u < |s'.threads| && s'.threads[u] != [] && Owing(Top(s'.threads[u]));
      assert s.threads[u] != [] && Owing(Top(s.threads[u]));
    }
  }

  lemma CallOwes(cfg: Config, s: State, a: Action)
    requires Enabled(s, a) && !a.Advance?
    ensures ReportOwed(Next(cfg, s, a)) <==> ReportOwed(s)
  {
    var s' := Next(cfg, s, a);
    if ReportOwed(s) {
      var u :| 0 <= u < |s.threads| && s.threads[u] != [] && Owing(Top(s.threads[u]));
      assert s'.threads[u] != [] && Owing(Top(s'.threads[u]));
    }
    if ReportOwed(s') {
      var u :| 0 <= u < |s'.threads| && s'.threads[u] != [] && Owing(Top(s'.threads[u]));
      assert s.threads[u] != [] && Owing(Top(s.threads[u]));
    }
  }

  lemma CallReports(cfg: Config, s: State, a: Action)
    requires Enabled(s, a) && !a.Advance? && ReportsAgree(s)
    ensures ReportsAgree(Next(cfg, s, a))
  {
    CallOwes(cfg, s, a);
  }

  lemma CallKeeps(cfg: Config, s: State, a: Action)
    requires Enabled(s, a) && !a.Advance? && CloseInv(s)
    ensures StagesAgree(Next(cfg, s, a)) && WritesAgree(Next(cfg, s, a))
    ensures ReturnsAgree(Next(cfg, s, a)) && ReportsAgree(Next(cfg, s, a))
  {
    CallReports(cfg, s, a);
  }

  lemma StepCloseInv(cfg: Config, s: State, a: Action)
    requires cfg.reporting && Enabled(s, a) && CloseInv(s) && (a.Call? && a.op.Close? ==> NoOtherCloses(s, a.t))
    ensures CloseInv(Next(cfg, s, a))
  {
    StepShaped(cfg, s, a);
    StepPublished(cfg, s, a);
    StepClosers(cfg, s, a);
    if a.Advance? {
      var f := Top(s.threads[a.t]);
      ReactionStages(cfg, a.t, f, s.conn, s.clock, a.c);
      ReactionStores(cfg, a.t, f, s.conn, s.clock, a.c);
      var r := React(cfg, a.t, f, s.conn, s.clock, a.c);
      PerformStages(s, a.t, f, r);
      assert StoresNow(f) ==> Armed(f, f.k) && Gathering(f);
      WritesStep(s, a.t, f, r);
      PerformReturns(s, a.t, f, r);
      OwedAfter(s, a.t, f, r);
      if r.event.Some? {
        LateStep(s.hist, r.event.value, s.conn.closedInfo.Some?, r.conn.closedInfo.Some?, ReportOwed(s), ReportOwed(Perform(s, a.t, r)));
      }
      PerformFirst(s, a.t, f, r);
      PerformStops(s, a.t, f, r);
    } else {
      CallKeeps(cfg, s, a);
    }
  }

  lemma InitCloseInv(openedAt: int)
    ensures CloseInv(Init(openedAt))
  {
    var s := Init(openedAt);
    assert s.threads[..0] == [];
    assert Pop(s.threads[0]) == [];
  }

  lemma {:induction false} RunCloseInv(cfg: Config, s: State, acts: seq<Action>)
    requires cfg.reporting && Runs(cfg, s, acts) && NoOverlap(cfg, s, acts) && CloseInv(s)
    ensures CloseInv(Final(cfg, s, acts))
    decreases |acts|
  {
    if acts != [] {
      StepCloseInv(cfg, s, acts[0]);
      RunCloseInv(cfg, Next(cfg, s, acts[0]), acts[1..]);
    }
  }

  /**
   In every run with a callback in which Close calls of different goroutines do not overlap: the socket is
   closed only after a Closed report; each snapshot and InfoErr are written at most once; at most one Closed report follows the store
   of ClosedInfo (the one that announces it); after InfoErr nothing is gathered; and ClosedInfo excludes
   InfoErr.
   */
  lemma CloseKeepsPromises(cfg: Config, openedAt: int, acts: seq<Action>)
    requires cfg.reporting && Runs(cfg, Init(openedAt), acts) && NoOverlap(cfg, Init(openedAt), acts)
    ensures var s := Final(cfg, Init(openedAt), acts);
            && ReportsFirst(s.hist)
            && CountStores(s.hist, Opened) <= 1
            && CountStores(s.hist, Closed) <= 1
            && CountErrStores(s.hist) <= 1
            && LateReports(s.hist) <= 1
            && ErrStopsGathering(s.hist)
            && (s.conn.closedInfo.Some? ==> s.conn.infoErr.None?)
  {
    InitCloseInv(openedAt);
    RunCloseInv(cfg, Init(openedAt), acts);
    var h := Final(cfg, Init(openedAt), acts).hist;
    TimesMean(h, Opened);
    TimesMean(h, Closed);
    TimesMeanLate(h);
  }
}
