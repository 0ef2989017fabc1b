/** For each promise of Close, exactly when the calls in progress can still break it, in every reachable state. */
module Contention {
  import opened Base
  import opened SysInfoModel
  import opened ConnState
  import opened Protocol
  import opened Serial
  import opened CloseOnce
  import opened Leading
  import opened Roles

  // ---- Moves that the other goroutines do not notice ----

  predicate RipeAt(s: State, t: nat, r: Role) {
    t < |s.threads| && s.threads[t] != [] && Ripe(r, Top(s.threads[t]))
  }

  /** Goroutines other than t keep their roles, and stand where they stood unless they were inside a section. */
  ghost predicate OthersKept(s: State, s': State, t: nat) {
    && (forall u: nat, r: Role :: u != t && HasAt(s, u, r) ==> HasAt(s', u, r))
    && (forall u: nat, r: Role :: u != t && RipeAt(s, u, r) ==> RipeAt(s', u, r))
    && (forall u: nat, f: Frame :: u != t && At(s, u, f) && !Holding(f) ==> At(s', u, f))
  }

  /** Nothing has changed that the promises are about, but for where t stands. */
  ghost predicate Calm(s: State, s': State, t: nat) {
    && SameInfos(s'.conn, s.conn)
    && SameInfos(Settled(s'), Settled(s))
    && TallyOf(s'.hist) == TallyOf(s.hist)
    && OthersKept(s, s', t)
  }

  lemma CalmOn(a: State, b: State, c: State, t: nat)
    requires Calm(a, b, t) && Calm(b, c, t)
    ensures Calm(a, c, t)
  {
  }

  lemma SameFieldsSameRoles(r: Role, f: Frame, w: Conn, v: Conn, w': Conn, v': Conn)
    requires SameInfos(w', w) && SameInfos(v', v)
    ensures Has(r, f, w, v) <==> Has(r, f, w', v')
  {
  }

  /** A move of t outside the lock that leaves the fields alone. */
  lemma CalmMove(s: State, t: nat, g: Frame, s': State)
    requires Locked(s) && Moved(s, t, g, s') && SameInfos(s'.conn, s.conn) && TallyOf(s'.hist) == TallyOf(s.hist)
    requires !Holding(Top(s.threads[t])) && !Holding(g)
    ensures Calm(s, s', t) && At(s', t, g)
  {
    MovedAt(s, t, g, s');
    assert SameInfos(Settled(s'), Settled(s));
    forall u: nat, r: Role | u != t && HasAt(s, u, r) ensures HasAt(s', u, r) {
      SameFieldsSameRoles(r, Top(s.threads[u]), s.conn, Settled(s), s'.conn, Settled(s'));
    }
  }

  /** An owner that is not about to set a field lets go of the lock. */
  lemma CalmRelease(cfg: Config, openedAt: int, s: State, t: nat) returns (s': State)
    requires Inv(openedAt, s) && SameInfos(Settled(s), s.conn) && SettledTally(s) == TallyOf(s.hist)
    ensures Leads(cfg, s, s') && Inv(openedAt, s') && s'.owner.None? && Calm(s, s', t) && s'.threads == LeaveThreads(s)
  {
    s' := LetGo(cfg, openedAt, s);
    forall u: nat, r: Role | u != t && HasAt(s, u, r) ensures HasAt(s', u, r) {
      SameFieldsSameRoles(r, Top(s.threads[u]), s.conn, Settled(s), s'.conn, Settled(s'));
      if s.owner == Some(u) {
        if StoresNow(Top(s.threads[u])) && Ripe(r, Top(s.threads[u])) {
          RipeSettles(r, Top(s.threads[u]), s.conn, TallyOf(s.hist), u);
        }
        LeaveKeepsRoles(r, Top(s.threads[u]), s.conn);
        SameFieldsSameRoles(r, Top(s'.threads[u]), s.conn, s.conn, s'.conn, s'.conn);
      }
    }
    forall u: nat, r: Role | u != t && RipeAt(s, u, r) ensures RipeAt(s', u, r) {
      if s.owner == Some(u) {
        RipeSettles(r, Top(s.threads[u]), s.conn, TallyOf(s.hist), u);
      }
    }
  }

  /** A section that stores nothing for the role leaves the roles of its goroutine as they are. */
  lemma LeaveKeepsRoles(r: Role, f: Frame, w: Conn)
    requires Holding(f) && Has(r, f, w, SettledBy(f, w)) && SameInfos(SettledBy(f, w), w) && !(StoresNow(f) && Ripe(r, f))
    ensures Leave(f).Some? && Has(r, Leave(f).value, w, w)
  {
  }

  /** A store that is ripe changes a count. */
  lemma RipeSettles(r: Role, f: Frame, w: Conn, y: Tally, t: nat)
    requires StoresNow(f) && Ripe(r, f)
    ensures Count(y, Wrote(t, f.k, f.o)) == if r.Stores? then y.(stores := y.stores + 1) else y.(errs := y.errs + 1)
    ensures if r.Stores? then SettledBy(f, w).closedInfo.Some? else SettledBy(f, w).infoErr.Some?
  {
  }

  // ---- Up to the fetch ----

  lemma FromCheck(cfg: Config, s: State, t: nat, k: Kind) returns (s': State)
    requires cfg.Gathers() && Locked(s) && At(s, t, ErrCheck(k)) && s.conn.infoErr.None?
    ensures Leads(cfg, s, s') && Calm(s, s', t) && At(s', t, Fetch(k))
  {
    s' := PassCheck(cfg, s, t, k);
    CalmMove(s, t, Fetch(k), s');
  }

  lemma FromGuard(cfg: Config, openedAt: int, s: State, t: nat, k: Kind) returns (s': State)
    requires cfg.Gathers() && Inv(openedAt, s) && At(s, t, Guard(k)) && s.conn.Info(k).None? && s.conn.infoErr.None?
    ensures Leads(cfg, s, s') && Calm(s, s', t) && At(s', t, Fetch(k))
  {
    var s1 := PassGuard(cfg, s, t, k);
    CalmMove(s, t, ErrCheck(k), s1);
    LeadsInv(cfg, openedAt, s, s1);
    s' := FromCheck(cfg, s1, t, k);
    LeadsOn(cfg, s, s1, s');
    CalmOn(s, s1, s', t);
  }

  /** While a Close call waits for the lock with both fields going to be unset, the owner is not about to set one. */
  lemma NothingSettles(openedAt: int, s: State, t: nat)
    requires Inv(openedAt, s) && At(s, t, CloseWait) && Settled(s).closedInfo.None? && Settled(s).infoErr.None?
    ensures SameInfos(Settled(s), s.conn) && SettledTally(s) == TallyOf(s.hist)
  {
  }

  /** From the start of Close to its guard, the owner of the lock not being about to set a field. */
  lemma WaitToGuard(cfg: Config, openedAt: int, s: State, t: nat) returns (s': State)
    requires Inv(openedAt, s) && At(s, t, CloseWait) && Settled(s).closedInfo.None? && Settled(s).infoErr.None?
    ensures Leads(cfg, s, s') && Inv(openedAt, s') && Calm(s, s', t) && At(s', t, Guard(Closed))
  {
    NothingSettles(openedAt, s, t);
    var s1 := CalmRelease(cfg, openedAt, s, t);
    s' := ToGuard(cfg, s1, t);
    CalmMove(s1, t, Guard(Closed), s');
    LeadsInv(cfg, openedAt, s1, s');
    LeadsOn(cfg, s, s1, s');
    CalmOn(s, s1, s', t);
  }

  lemma HoldToGuard(cfg: Config, openedAt: int, s: State, t: nat) returns (s': State)
    requires Inv(openedAt, s) && t < |s.threads| && s.threads[t] != [] && Top(s.threads[t]).CloseHold?
    ensures Leads(cfg, s, s') && Inv(openedAt, s') && Calm(s, s', t) && At(s', t, Guard(Closed))
    ensures SameInfos(s.conn, Settled(s))
  {
    s' := CalmRelease(cfg, openedAt, s, t);
  }

  /** A call that has yet to fetch. */
  predicate BeforeFetch(f: Frame) {
    f.CloseWait? || f.CloseHold? || f.Guard? || f.ErrCheck? || f.Fetch?
  }

  /** A goroutine that can still fetch is brought to its fetch. */
  lemma ToFetch(cfg: Config, openedAt: int, s: State, t: nat, r: Role) returns (s': State, k: Kind)
    requires cfg.Gathers() && Inv(openedAt, s) && HasAt(s, t, r) && (r.Stores? || r.Errs? || r.Fetches?)
    requires BeforeFetch(Top(s.threads[t]))
    ensures Leads(cfg, s, s') && Inv(openedAt, s') && Calm(s, s', t) && At(s', t, Fetch(k)) && Concerns(r, k)
  {
    var f := Top(s.threads[t]);
    match f
    case Fetch(k0) =>
      s', k := s, k0;
      LeadsNowhere(cfg, s);
    case ErrCheck(k0) =>
      k := k0;
      s' := FromCheck(cfg, s, t, k);
      LeadsInv(cfg, openedAt, s, s');
    case Guard(k0) =>
      k := k0;
      s' := FromGuard(cfg, openedAt, s, t, k);
      LeadsInv(cfg, openedAt, s, s');
    case _ =>
      k := Closed;
      s' := ArriveAtFetch(cfg, openedAt, s, t);
  }

  lemma ArriveAtFetch(cfg: Config, openedAt: int, s: State, t: nat) returns (s': State)
    requires cfg.Gathers() && Inv(openedAt, s) && t < |s.threads| && s.threads[t] != []
    requires Top(s.threads[t]).CloseWait? || Top(s.threads[t]).CloseHold?
    requires Settled(s).closedInfo.None? && Settled(s).infoErr.None?
    ensures Leads(cfg, s, s') && Inv(openedAt, s') && Calm(s, s', t) && At(s', t, Fetch(Closed))
  {
    var s1;
    if Top(s.threads[t]).CloseWait? {
      s1 := WaitToGuard(cfg, openedAt, s, t);
      NothingSettles(openedAt, s, t);
    } else {
      s1 := HoldToGuard(cfg, openedAt, s, t);
    }
    s' := FromGuard(cfg, openedAt, s1, t, Closed);
    LeadsInv(cfg, openedAt, s1, s');
    LeadsOn(cfg, s, s1, s');
    CalmOn(s, s1, s', t);
  }

  // ---- Up to the store, and the store ----

  /** An outcome that the role stores. */
  lemma SomeOutcome(r: Role) returns (o: Outcome)
    requires r.Stores? || r.Errs?
    ensures HasStored(r, Closed, o) && (r.Stores? ==> Delivers(o)) && (r.Errs? ==> Fails(o))
  {
    var sys: SysInfo := *;
    o := if r.Stores? then Outcome(None, Some(sys), None) else Outcome(Some(Error(0, false, false)), None, None);
  }

  /** The socket answers what the role needs. */
  lemma FetchAs(cfg: Config, openedAt: int, s: State, t: nat, r: Role, k: Kind) returns (s': State)
    requires Inv(openedAt, s) && At(s, t, Fetch(k)) && Concerns(r, k) && (r.Stores? || r.Errs?)
    ensures Leads(cfg, s, s') && Inv(openedAt, s') && Calm(s, s', t) && RipeAt(s', t, r)
  {
    var o := SomeOutcome(r);
    s' := FetchNow(cfg, s, t, k, o);
    CalmMove(s, t, StoreWait(k, o), s');
    LeadsInv(cfg, openedAt, s, s');
  }

  /** A goroutine that can still store is brought to where nothing can keep it from storing. */
  lemma Ripen(cfg: Config, openedAt: int, s: State, t: nat, r: Role) returns (s': State)
    requires cfg.Gathers() && Inv(openedAt, s) && HasAt(s, t, r) && (r.Stores? || r.Errs?)
    ensures Leads(cfg, s, s') && Inv(openedAt, s') && Calm(s, s', t) && RipeAt(s', t, r)
  {
    if BeforeFetch(Top(s.threads[t])) {
      var s1, k := ToFetch(cfg, openedAt, s, t, r);
      s' := FetchAs(cfg, openedAt, s1, t, r, k);
      LeadsOn(cfg, s, s1, s');
      CalmOn(s, s1, s', t);
    } else {
      s' := s;
      LeadsNowhere(cfg, s);
    }
  }

  /** A call past the guard that owes a report. */
  predicate Owes(f: Frame) {
    (f.ErrCheck? || f.Fetch? || f.StoreWait? || f.StoreHold? || f.CallbackDue?) && f.k == Closed
  }

  predicate OwesAt(s: State, t: nat) {
    t < |s.threads| && s.threads[t] != [] && Owes(Top(s.threads[t]))
  }

  /** A call that has yet to read ClosedInfo. */
  predicate EntersAt(s: State, t: nat) {
    && t < |s.threads| && s.threads[t] != []
    && (Top(s.threads[t]).CloseWait? || Top(s.threads[t]).CloseHold? || Top(s.threads[t]) == Guard(Closed))
  }

  lemma EntersIsARole(s: State, t: nat)
    ensures HasAt(s, t, Enters) <==> EntersAt(s, t)
  {
  }

  predicate TallyGrows(y: Tally, y': Tally) {
    y.stores <= y'.stores && y.errs <= y'.errs && y.reported == y'.reported && y.late == y'.late
  }

  /** Goroutines other than t keep their way to the guard and to the report. */
  ghost predicate OthersStand(s: State, s': State, t: nat) {
    && (forall u: nat :: u != t && EntersAt(s, u) ==> EntersAt(s', u))
    && (forall u: nat :: u != t && OwesAt(s, u) ==> OwesAt(s', u))
    && (forall u: nat, f: Frame :: u != t && At(s, u, f) && !Holding(f) ==> At(s', u, f))
  }

  /** Stores are only added, and fields only set. */
  ghost predicate Onward(s: State, s': State, t: nat) {
    && StaysSet(s.conn, s'.conn)
    && TallyGrows(TallyOf(s.hist), TallyOf(s'.hist))
    && OthersStand(s, s', t)
  }

  lemma OnwardOn(a: State, b: State, c: State, t: nat)
    requires Onward(a, b, t) && Onward(b, c, t)
    ensures Onward(a, c, t)
  {
  }

  lemma CountGrows(y: Tally, t: nat, k: Kind, o: Outcome)
    ensures TallyGrows(y, Count(y, Wrote(t, k, o)))
  {
  }

  lemma OwnerLeaves(s: State, s': State, t: nat)
    requires Locked(s) && s'.threads == LeaveThreads(s)
    ensures OthersStand(s, s', t)
  {
  }

  /** Whoever holds the lock lets go of it, whatever it stores. */
  lemma ReleaseOnward(cfg: Config, openedAt: int, s: State, t: nat) returns (s': State)
    requires Inv(openedAt, s)
    ensures Leads(cfg, s, s') && Inv(openedAt, s') && s'.owner.None? && Onward(s, s', t)
    ensures SameInfos(s'.conn, Settled(s)) && TallyOf(s'.hist) == SettledTally(s) && s'.threads == LeaveThreads(s)
  {
    s' := LetGo(cfg, openedAt, s);
    OwnerLeaves(s, s', t);
    if OwnerFrame(s).Some? && StoresNow(OwnerFrame(s).value) {
      CountGrows(TallyOf(s.hist), s.owner.value, OwnerFrame(s).value.k, OwnerFrame(s).value.o);
    }
  }

  /** What a ripe goroutine has done when it has stored. */
  ghost predicate Landed(s: State, s': State, t: nat, r: Role) {
    && Onward(s, s', t)
    && s'.owner.None?
    && Landings(r, s'.hist) >= Landings(r, s.hist) + 1
    && (if r.Stores? then s'.conn.closedInfo.Some? else s'.conn.infoErr.Some?)
    && (r.Stores? ==> At(s', t, CallbackDue(Closed)))
  }

  lemma RipeStores(r: Role, f: Frame, w: Conn, y: Tally, t: nat)
    requires f.StoreWait? && Ripe(r, f)
    ensures Count(y, Wrote(t, f.k, f.o)) == if r.Stores? then y.(stores := y.stores + 1) else y.(errs := y.errs + 1)
    ensures var w' := StoreInfo(w, f.k, f.o); StaysSet(w, w') && if r.Stores? then w'.closedInfo.Some? else w'.infoErr.Some?
  {
  }

  lemma LandOwner(cfg: Config, openedAt: int, s: State, t: nat, r: Role) returns (s': State)
    requires Inv(openedAt, s) && RipeAt(s, t, r) && s.owner == Some(t)
    ensures Leads(cfg, s, s') && Inv(openedAt, s') && Landed(s, s', t, r)
  {
    s' := ReleaseOnward(cfg, openedAt, s, t);
    RipeSettles(r, Top(s.threads[t]), s.conn, TallyOf(s.hist), t);
  }

  lemma LandWaiting(cfg: Config, openedAt: int, s: State, t: nat, r: Role) returns (s': State)
    requires Inv(openedAt, s) && RipeAt(s, t, r) && s.owner.None?
    ensures Leads(cfg, s, s') && Inv(openedAt, s') && Landed(s, s', t, r)
  {
    var f := Top(s.threads[t]);
    s' := StoreNow(cfg, s, t, f.k, f.o);
    MovedAt(s, t, CallbackDue(f.k), s');
    LeadsInv(cfg, openedAt, s, s');
    RipeStores(r, f, s.conn, TallyOf(s.hist), t);
  }

  /** A ripe goroutine stores, whatever the others have stored in the meantime. */
  lemma Land(cfg: Config, openedAt: int, s: State, t: nat, r: Role) returns (s': State)
    requires Inv(openedAt, s) && RipeAt(s, t, r)
    ensures Leads(cfg, s, s') && Inv(openedAt, s') && Landed(s, s', t, r)
  {
    if s.owner == Some(t) {
      s' := LandOwner(cfg, openedAt, s, t, r);
    } else {
      var s1 := ReleaseOnward(cfg, openedAt, s, t);
      s' := LandWaiting(cfg, openedAt, s1, t, r);
      LeadsOn(cfg, s, s1, s');
      OnwardOn(s, s1, s', t);
    }
  }

  // ---- How a pair breaks a promise ----

  /** Both goroutines of a pair are brought to where nothing can keep them from storing. */
  lemma BothRipe(cfg: Config, openedAt: int, s: State, t: nat, u: nat, a: Role, b: Role) returns (s': State)
    requires cfg.Gathers() && Inv(openedAt, s) && t != u && HasAt(s, t, a) && HasAt(s, u, b)
    requires (a.Stores? || a.Errs?) && (b.Stores? || b.Errs?)
    ensures Leads(cfg, s, s') && Inv(openedAt, s') && RipeAt(s', t, a) && RipeAt(s', u, b)
    ensures TallyOf(s'.hist) == TallyOf(s.hist)
  {
    var s1 := Ripen(cfg, openedAt, s, t, a);
    s' := Ripen(cfg, openedAt, s1, u, b);
    LeadsOn(cfg, s, s1, s');
  }

  /** Two ripe goroutines store, the owner of the lock first if it is one of them. */
  lemma LandInTurn(cfg: Config, openedAt: int, s: State, t: nat, u: nat, a: Role, b: Role) returns (s': State)
    requires Inv(openedAt, s) && t != u && RipeAt(s, t, a) && RipeAt(s, u, b) && s.owner != Some(u)
    ensures Leads(cfg, s, s') && TallyGrows(TallyOf(s.hist), TallyOf(s'.hist))
    ensures a == b ==> Landings(a, s'.hist) >= Landings(a, s.hist) + 2
    ensures a.Stores? || b.Stores? ==> s'.conn.closedInfo.Some?
    ensures a.Errs? || b.Errs? ==> s'.conn.infoErr.Some?
  {
    var g := Top(s.threads[u]);
    assert !Holding(g) && At(s, u, g);
    var s1 := Land(cfg, openedAt, s, t, a);
    assert At(s1, u, g);
    s' := Land(cfg, openedAt, s1, u, b);
    LeadsOn(cfg, s, s1, s');
  }

  /** Both goroutines of a pair store: the same field twice, or both fields. */
  lemma BothLand(cfg: Config, openedAt: int, s: State, t: nat, u: nat, a: Role, b: Role) returns (s': State)
    requires cfg.Gathers() && Inv(openedAt, s) && t != u && HasAt(s, t, a) && HasAt(s, u, b)
    requires (a.Stores? || a.Errs?) && (b.Stores? || b.Errs?)
    ensures Leads(cfg, s, s')
    ensures a == b ==> Landings(a, s'.hist) >= Landings(a, s.hist) + 2
    ensures a != b ==> BothSet(s'.conn)
  {
    var s1 := BothRipe(cfg, openedAt, s, t, u, a, b);
    if s1.owner == Some(u) {
      s' := LandInTurn(cfg, openedAt, s1, u, t, b, a);
    } else {
      s' := LandInTurn(cfg, openedAt, s1, t, u, a, b);
    }
    LeadsOn(cfg, s, s1, s');
  }

  /** A goroutine that can still store does so. */
  lemma OneLands(cfg: Config, openedAt: int, s: State, t: nat, r: Role) returns (s': State)
    requires cfg.Gathers() && Inv(openedAt, s) && HasAt(s, t, r) && (r.Stores? || r.Errs?)
    ensures Leads(cfg, s, s') && Inv(openedAt, s')
    ensures StaysSet(s.conn, s'.conn) && Landings(r, s'.hist) >= Landings(r, s.hist) + 1
    ensures if r.Stores? then s'.conn.closedInfo.Some? else s'.conn.infoErr.Some?
  {
    var s1 := Ripen(cfg, openedAt, s, t, r);
    s' := Land(cfg, openedAt, s1, t, r);
    LeadsOn(cfg, s, s1, s');
  }

  lemma FetchedTooLate(h: seq<Event>, u: nat, k: Kind)
    requires CountErrStores(h) > 0
    ensures !ErrStopsGathering(h + [Fetched(u, k)])
  {
    var i := SomeErrStore(h);
    var h' := h + [Fetched(u, k)];
    assert IsErrStore(h'[i]) && h'[|h|].Fetched?;
  }

  lemma {:induction false} SomeErrStore(h: seq<Event>) returns (i: nat)
    requires CountErrStores(h) > 0
    ensures i < |h| && IsErrStore(h[i])
  {
    i := |h| - 1;
    if !IsErrStore(h[i]) {
      i := SomeErrStore(h[..|h| - 1]);
    }
  }

  /** One goroutine fetches after the other has stored InfoErr. */
  lemma FetchAfterErr(cfg: Config, openedAt: int, s: State, t: nat, u: nat) returns (s': State)
    requires cfg.Gathers() && Inv(openedAt, s) && t != u && HasAt(s, t, Errs) && HasAt(s, u, Fetches)
    ensures Leads(cfg, s, s') && !ErrStopsGathering(s'.hist)
  {
    var s1, k := ToFetch(cfg, openedAt, s, u, Fetches);
    var s2 := Ripen(cfg, openedAt, s1, t, Errs);
    assert At(s2, u, Fetch(k));
    var s3 := Land(cfg, openedAt, s2, t, Errs);
    assert At(s3, u, Fetch(k));
    s' := FetchGood(cfg, s3, u, k);
    LeadsOn(cfg, s, s1, s2);
    LeadsOn(cfg, s, s2, s3);
    LeadsOn(cfg, s, s3, s');
    FetchedTooLate(s3.hist, u, k);
  }

  lemma FetchGood(cfg: Config, s: State, t: nat, k: Kind) returns (s': State)
    requires At(s, t, Fetch(k))
    ensures Leads(cfg, s, s') && s'.hist == s.hist + [Fetched(t, k)]
  {
    var o := SomeOutcome(Stores);
    s' := FetchNow(cfg, s, t, k, o);
  }

  lemma ShutTooEarly(h: seq<Event>, u: nat)
    requires !HasReport(h)
    ensures !ReportsFirst(h + [SockClosed(u)])
  {
    var h' := h + [SockClosed(u)];
    assert h'[|h|].SockClosed?;
    assert forall j :: 0 <= j < |h| ==> h'[j] == h[j];
  }

  /** With ClosedInfo set, whoever comes to the guard can close the socket before the report. */
  lemma EnterAndShut(cfg: Config, openedAt: int, s: State, u: nat) returns (s': State)
    requires Inv(openedAt, s) && s.conn.closedInfo.Some? && EntersAt(s, u) && !HasReport(s.hist)
    ensures Leads(cfg, s, s') && !ReportsFirst(s'.hist)
  {
    var s1 := s;
    LeadsNowhere(cfg, s);
    if !Top(s.threads[u]).Guard? {
      s1 := EnterToGuard(cfg, openedAt, s, u);
    }
    s' := ShutAtGuard(cfg, s1, u);
    LeadsOn(cfg, s, s1, s');
    assert !TallyOf(s.hist).reported;
    ShutTooEarly(s1.hist, u);
  }

  /** A call that has yet to take the lock for its stamp, or has it, comes to the guard. */
  lemma EnterToGuard(cfg: Config, openedAt: int, s: State, u: nat) returns (s': State)
    requires Inv(openedAt, s) && u < |s.threads| && s.threads[u] != []
    requires Top(s.threads[u]).CloseWait? || Top(s.threads[u]).CloseHold?
    ensures Leads(cfg, s, s') && Inv(openedAt, s') && Onward(s, s', u) && At(s', u, Guard(Closed))
    ensures SameInfos(s'.conn, Settled(s))
  {
    var s1 := ReleaseOnward(cfg, openedAt, s, u);
    if Top(s.threads[u]).CloseHold? {
      s' := s1;
    } else {
      assert At(s1, u, CloseWait);
      s' := ToGuard(cfg, s1, u);
      MovedOnward(s1, u, Guard(Closed), s');
      LeadsInv(cfg, openedAt, s1, s');
      LeadsOn(cfg, s, s1, s');
      OnwardOn(s, s1, s', u);
    }
  }

  lemma MovedOnward(s: State, t: nat, g: Frame, s': State)
    requires Moved(s, t, g, s') && StaysSet(s.conn, s'.conn) && TallyGrows(TallyOf(s.hist), TallyOf(s'.hist))
    ensures Onward(s, s', t) && At(s', t, g)
  {
    MovedAt(s, t, g, s');
  }

  /** One goroutine finds ClosedInfo set and closes the socket before the other has reported. */
  lemma ShutUnreported(cfg: Config, openedAt: int, s: State, t: nat, u: nat) returns (s': State)
    requires cfg.Gathers() && Inv(openedAt, s) && t != u && HasAt(s, t, Stores) && HasAt(s, u, Enters) && !HasReport(s.hist)
    ensures Leads(cfg, s, s') && !ReportsFirst(s'.hist)
  {
    var s1 := Ripen(cfg, openedAt, s, t, Stores);
    EntersIsARole(s1, u);
    var s2 := Land(cfg, openedAt, s1, t, Stores);
    assert !TallyOf(s.hist).reported;
    s' := EnterAndShut(cfg, openedAt, s2, u);
    LeadsOn(cfg, s, s1, s2);
    LeadsOn(cfg, s, s2, s');
  }

  // ---- Reports ----

  lemma DueFromStore(cfg: Config, openedAt: int, s: State, t: nat) returns (s': State)
    requires Inv(openedAt, s) && t < |s.threads| && s.threads[t] != []
    requires (Top(s.threads[t]).StoreWait? || Top(s.threads[t]).StoreHold?) && Top(s.threads[t]).k == Closed
    ensures Leads(cfg, s, s') && Inv(openedAt, s') && Onward(s, s', t) && At(s', t, CallbackDue(Closed))
  {
    var f := Top(s.threads[t]);
    var s1 := ReleaseOnward(cfg, openedAt, s, t);
    if f.StoreHold? {
      s' := s1;
    } else {
      assert At(s1, t, f);
      s' := StoreNow(cfg, s1, t, Closed, f.o);
      CountGrows(TallyOf(s1.hist), t, Closed, f.o);
      MovedOnward(s1, t, CallbackDue(Closed), s');
      LeadsInv(cfg, openedAt, s1, s');
      LeadsOn(cfg, s, s1, s');
      OnwardOn(s, s1, s', t);
    }
  }

  lemma DueFromFetch(cfg: Config, openedAt: int, s: State, t: nat) returns (s': State)
    requires Inv(openedAt, s) && At(s, t, Fetch(Closed))
    ensures Leads(cfg, s, s') && Inv(openedAt, s') && Onward(s, s', t) && At(s', t, CallbackDue(Closed))
  {
    var o := SomeOutcome(Stores);
    var s1 := FetchNow(cfg, s, t, Closed, o);
    MovedOnward(s, t, StoreWait(Closed, o), s1);
    LeadsInv(cfg, openedAt, s, s1);
    s' := DueFromStore(cfg, openedAt, s1, t);
    LeadsOn(cfg, s, s1, s');
    OnwardOn(s, s1, s', t);
  }

  lemma DueFromCheck(cfg: Config, openedAt: int, s: State, t: nat) returns (s': State)
    requires cfg.Gathers() && Inv(openedAt, s) && At(s, t, ErrCheck(Closed))
    ensures Leads(cfg, s, s') && Inv(openedAt, s') && Onward(s, s', t) && At(s', t, CallbackDue(Closed))
  {
    if s.conn.infoErr.Some? {
      s' := SkipCheck(cfg, s, t, Closed);
      MovedOnward(s, t, CallbackDue(Closed), s');
      LeadsInv(cfg, openedAt, s, s');
    } else {
      var s1 := PassCheck(cfg, s, t, Closed);
      MovedOnward(s, t, Fetch(Closed), s1);
      LeadsInv(cfg, openedAt, s, s1);
      s' := DueFromFetch(cfg, openedAt, s1, t);
      LeadsOn(cfg, s, s1, s');
      OnwardOn(s, s1, s', t);
    }
  }

  /** A call past the guard comes to its report, whatever it finds. */
  lemma ComeDue(cfg: Config, openedAt: int, s: State, t: nat) returns (s': State)
    requires cfg.Gathers() && Inv(openedAt, s) && OwesAt(s, t)
    ensures Leads(cfg, s, s') && Inv(openedAt, s') && Onward(s, s', t) && At(s', t, CallbackDue(Closed))
  {
    var f := Top(s.threads[t]);
    if f.ErrCheck? {
      s' := DueFromCheck(cfg, openedAt, s, t);
    } else if f.Fetch? {
      s' := DueFromFetch(cfg, openedAt, s, t);
    } else if f.CallbackDue? {
      s' := s;
      LeadsNowhere(cfg, s);
    } else {
      s' := DueFromStore(cfg, openedAt, s, t);
    }
  }

  /** A call past the guard reports, and the others that owe a report still do. */
  lemma DeliverReport(cfg: Config, openedAt: int, s: State, t: nat) returns (s': State)
    requires cfg.Gathers() && Inv(openedAt, s) && OwesAt(s, t) && TallyOf(s.hist).stores > 0
    ensures Leads(cfg, s, s') && Inv(openedAt, s') && OthersStand(s, s', t)
    ensures TallyOf(s'.hist).stores > 0 && TallyOf(s'.hist).late == TallyOf(s.hist).late + 1
  {
    var s1 := ComeDue(cfg, openedAt, s, t);
    s' := ReportNow(cfg, s1, t);
    MovedAt(s1, t, InCallback(Closed), s');
    LeadsInv(cfg, openedAt, s1, s');
    LeadsOn(cfg, s, s1, s');
    MovedStand(s1, t, InCallback(Closed), s');
  }

  lemma MovedStand(s: State, t: nat, g: Frame, s': State)
    requires Moved(s, t, g, s')
    ensures OthersStand(s, s', t)
  {
  }

  /** While ClosedInfo is not going to be set, a call that can still report is brought past the guard. */
  lemma PastGuard(cfg: Config, openedAt: int, s: State, t: nat, u: nat) returns (s': State)
    requires cfg.Gathers() && Inv(openedAt, s) && t != u && s.conn.closedInfo.None? && HasAt(s, u, Reports) && RipeAt(s, t, Stores)
    ensures Leads(cfg, s, s') && Inv(openedAt, s') && TallyOf(s'.hist).late == TallyOf(s.hist).late
    ensures OwesAt(s', u) && RipeAt(s', t, Stores)
  {
    var g, f := Top(s.threads[u]), Top(s.threads[t]);
    if OwesAt(s, u) {
      s' := s;
      LeadsNowhere(cfg, s);
    } else {
      var s1 := s;
      LeadsNowhere(cfg, s);
      if !g.Guard? {
        RipeOwner(s, t);
        assert At(s, t, f) && !Holding(f);
        s1 := EnterToGuard(cfg, openedAt, s, u);
      }
      s' := PassGuard(cfg, s1, u, Closed);
      MovedAt(s1, u, ErrCheck(Closed), s');
      LeadsInv(cfg, openedAt, s1, s');
      LeadsOn(cfg, s, s1, s');
    }
  }

  /** While ClosedInfo is not going to be set, one who is ripe to set it is not the owner of the lock. */
  lemma RipeOwner(s: State, t: nat)
    requires Locked(s) && RipeAt(s, t, Stores) && Settled(s).closedInfo.None?
    ensures s.owner != Some(t) && !Holding(Top(s.threads[t]))
  {
  }

  /** Both goroutines of a pair report after the store. */
  lemma BothReport(cfg: Config, openedAt: int, s: State, t: nat, u: nat) returns (s': State)
    requires cfg.Gathers() && Inv(openedAt, s) && s.conn.closedInfo.None? && t != u && HasAt(s, t, Stores) && HasAt(s, u, Reports)
    ensures Leads(cfg, s, s') && LateReports(s'.hist) == LateReports(s.hist) + 2
  {
    var s1 := Ripen(cfg, openedAt, s, t, Stores);
    var s2 := PastGuard(cfg, openedAt, s1, t, u);
    var s3 := Land(cfg, openedAt, s2, t, Stores);
    assert TallyOf(s3.hist).stores > 0 && OwesAt(s3, t) && OwesAt(s3, u);
    s' := TwoReports(cfg, openedAt, s3, t, u);
    LeadsOn(cfg, s, s1, s2);
    LeadsOn(cfg, s, s2, s3);
    LeadsOn(cfg, s, s3, s');
  }

  lemma TwoReports(cfg: Config, openedAt: int, s: State, t: nat, u: nat) returns (s': State)
    requires cfg.Gathers() && Inv(openedAt, s) && t != u && OwesAt(s, t) && OwesAt(s, u) && TallyOf(s.hist).stores > 0
    ensures Leads(cfg, s, s') && TallyOf(s'.hist).late == TallyOf(s.hist).late + 2
  {
    var s1 := DeliverReport(cfg, openedAt, s, t);
    s' := DeliverReport(cfg, openedAt, s1, u);
    LeadsOn(cfg, s, s1, s');
  }

  /** With ClosedInfo set, whoever can still report is past the guard. */
  lemma ReportsOwe(s: State, t: nat)
    requires s.conn.closedInfo.Some? && HasAt(s, t, Reports)
    ensures OwesAt(s, t)
  {
  }

  // ---- Exactly when the promises hold ----

  /** A state that a connection which gathers can be in. */
  ghost predicate LiveState(cfg: Config, openedAt: int, s: State) {
    cfg.Gathers() && Reachable(cfg, openedAt, s)
  }

  /**
   From every reachable state: every way to go on without new Close calls has ClosedInfo (or InfoErr) stored
   at most once exactly when the stores so far and the goroutines that can still store are at most one.
   */
  lemma WrittenOnceExactly(cfg: Config, openedAt: int, s: State, r: Role)
    requires LiveState(cfg, openedAt, s) && (r.Stores? || r.Errs?)
    ensures (forall acts :: Runs(cfg, s, acts) && NoNewClose(acts) ==> Landings(r, Final(cfg, s, acts).hist) <= 1)
            <==> Landings(r, s.hist) + Contenders(s, r) <= 1
  {
    ReachablePast(cfg, openedAt, s);
    if Landings(r, s.hist) + Contenders(s, r) <= 1 {
      forall acts | Runs(cfg, s, acts) && NoNewClose(acts) ensures Landings(r, Final(cfg, s, acts).hist) <= 1 {
        StoresBounded(r, cfg, s, acts);
      }
    } else {
      var s' := SecondLands(cfg, openedAt, s, r);
      var acts := LeadsToRun(cfg, s, s');
    }
  }

  lemma SecondLands(cfg: Config, openedAt: int, s: State, r: Role) returns (s': State)
    requires cfg.Gathers() && Inv(openedAt, s) && (r.Stores? || r.Errs?) && Landings(r, s.hist) + Contenders(s, r) > 1
    ensures Leads(cfg, s, s') && Landings(r, s'.hist) > 1
  {
    if Contenders(s, r) == 0 {
      s' := s;
      LeadsNowhere(cfg, s);
    } else if Contenders(s, r) == 1 {
      var t := SomeContender(s, r, |s.threads|);
      s' := OneLands(cfg, openedAt, s, t, r);
    } else {
      var t, u := TwoContenders(s, r, |s.threads|);
      s' := BothLand(cfg, openedAt, s, t, u, r, r);
    }
  }

  /**
   From every reachable state: every way to go on without new Close calls closes the socket only after a Closed
   report exactly when it was so until now and either there was a report, or nobody is about to close, and no
   call that has yet to read ClosedInfo finds it set or runs beside another that can still set it.
   */
  lemma ReportFirstExactly(cfg: Config, openedAt: int, s: State)
    requires LiveState(cfg, openedAt, s)
    ensures (forall acts :: Runs(cfg, s, acts) && NoNewClose(acts) ==> ReportsFirst(Final(cfg, s, acts).hist))
            <==> ReportSafe(s)
  {
    ReachablePast(cfg, openedAt, s);
    if ReportSafe(s) {
      forall acts | Runs(cfg, s, acts) && NoNewClose(acts) ensures ReportsFirst(Final(cfg, s, acts).hist) {
        RunReportSafe(cfg, s, acts);
      }
    } else {
      var s' := UnreportedClose(cfg, openedAt, s);
      var acts := LeadsToRun(cfg, s, s');
    }
  }

  lemma UnreportedClose(cfg: Config, openedAt: int, s: State) returns (s': State)
    requires cfg.Gathers() && Inv(openedAt, s) && !ReportSafe(s)
    ensures Leads(cfg, s, s') && !ReportsFirst(s'.hist)
  {
    if !ReportsFirst(s.hist) {
      s' := s;
      LeadsNowhere(cfg, s);
    } else if !ClosersReported(s) {
      var u: nat :| At(s, u, SockClose);
      s' := ShutNow(cfg, s, u);
      ShutTooEarly(s.hist, u);
    } else if s.conn.closedInfo.Some? {
      var u: nat :| HasAt(s, u, Enters);
      EntersIsARole(s, u);
      s' := EnterAndShut(cfg, openedAt, s, u);
    } else {
      var t: nat, u: nat :| t != u && HasAt(s, t, Stores) && HasAt(s, u, Enters);
      s' := ShutUnreported(cfg, openedAt, s, t, u);
    }
  }

  /**
   From every reachable state: every way to go on without new Close calls has at most one Closed report after
   the store of ClosedInfo exactly when, before the store, no call that can still report runs beside another
   that can still store, and after it, the late reports and the calls that can still report are at most one.
   */
  lemma ReportOnceExactly(cfg: Config, openedAt: int, s: State)
    requires LiveState(cfg, openedAt, s)
    ensures (forall acts :: Runs(cfg, s, acts) && NoNewClose(acts) ==> LateReports(Final(cfg, s, acts).hist) <= 1)
            <==> LateSafe(s)
  {
    ReachablePast(cfg, openedAt, s);
    if LateSafe(s) {
      forall acts | Runs(cfg, s, acts) && NoNewClose(acts) ensures LateReports(Final(cfg, s, acts).hist) <= 1 {
        RunLateSafe(cfg, s, acts);
      }
    } else {
      var s' := SecondReport(cfg, openedAt, s);
      var acts := LeadsToRun(cfg, s, s');
    }
  }

  lemma SecondReport(cfg: Config, openedAt: int, s: State) returns (s': State)
    requires cfg.Gathers() && Inv(openedAt, s) && Recorded(s) && !LateSafe(s)
    ensures Leads(cfg, s, s') && LateReports(s'.hist) > 1
  {
    if s.conn.closedInfo.None? {
      var t: nat, u: nat :| t != u && HasAt(s, t, Stores) && HasAt(s, u, Reports);
      s' := BothReport(cfg, openedAt, s, t, u);
    } else if Contenders(s, Reports) == 0 {
      s' := s;
      LeadsNowhere(cfg, s);
    } else if Contenders(s, Reports) == 1 {
      var t := SomeContender(s, Reports, |s.threads|);
      ReportsOwe(s, t);
      s' := DeliverReport(cfg, openedAt, s, t);
    } else {
      var t, u := TwoContenders(s, Reports, |s.threads|);
      ReportsOwe(s, t);
      ReportsOwe(s, u);
      s' := TwoReports(cfg, openedAt, s, t, u);
    }
  }

  /**
   From every reachable state: in every way to go on without new Close calls InfoErr stops all gathering exactly
   when it was so until now and, with InfoErr set, nobody can still fetch, or else no goroutine that can still
   fetch runs beside another that can still fail.
   */
  lemma ErrStopsExactly(cfg: Config, openedAt: int, s: State)
    requires LiveState(cfg, openedAt, s)
    ensures (forall acts :: Runs(cfg, s, acts) && NoNewClose(acts) ==> ErrStopsGathering(Final(cfg, s, acts).hist))
            <==> ErrQuiet(s)
  {
    ReachablePast(cfg, openedAt, s);
    if ErrQuiet(s) {
      forall acts | Runs(cfg, s, acts) && NoNewClose(acts) ensures ErrStopsGathering(Final(cfg, s, acts).hist) {
        RunErrQuiet(cfg, s, acts);
      }
    } else {
      var s' := LateFetch(cfg, openedAt, s);
      var acts := LeadsToRun(cfg, s, s');
    }
  }

  lemma LateFetch(cfg: Config, openedAt: int, s: State) returns (s': State)
    requires cfg.Gathers() && Inv(openedAt, s) && Recorded(s) && !ErrQuiet(s)
    ensures Leads(cfg, s, s') && !ErrStopsGathering(s'.hist)
  {
    if !ErrStopsGathering(s.hist) {
      s' := s;
      LeadsNowhere(cfg, s);
    } else if s.conn.infoErr.None? {
      var t: nat, u: nat :| t != u && HasAt(s, t, Errs) && HasAt(s, u, Fetches);
      s' := FetchAfterErr(cfg, openedAt, s, t, u);
    } else {
      var u: nat :| HasAt(s, u, Fetches);
      var k := FetchesAtFetch(s, u);
      s' := FetchGood(cfg, s, u, k);
      FetchedTooLate(s.hist, u, k);
    }
  }

  /** With InfoErr set, whoever can still fetch is about to. */
  lemma FetchesAtFetch(s: State, u: nat) returns (k: Kind)
    requires s.conn.infoErr.Some? && HasAt(s, u, Fetches)
    ensures At(s, u, Fetch(k))
  {
    k := if Top(s.threads[u]).Fetch? then Top(s.threads[u]).k else Closed;
  }

  /**
   From every reachable state: in every way to go on without new Close calls ClosedInfo and InfoErr exclude each
   other exactly when they do now, nobody can still set the second one, and, with neither set, no goroutine
   that can still fail runs beside another that can still store.
   */
  lemma ExclusiveExactly(cfg: Config, openedAt: int, s: State)
    requires LiveState(cfg, openedAt, s)
    ensures (forall acts :: Runs(cfg, s, acts) && NoNewClose(acts) ==> !BothSet(Final(cfg, s, acts).conn))
            <==> Exclusive(s)
  {
    ReachablePast(cfg, openedAt, s);
    if Exclusive(s) {
      forall acts | Runs(cfg, s, acts) && NoNewClose(acts) ensures !BothSet(Final(cfg, s, acts).conn) {
        RunExclusive(cfg, s, acts);
      }
    } else {
      var s' := SecondField(cfg, openedAt, s);
      var acts := LeadsToRun(cfg, s, s');
    }
  }

  lemma SecondField(cfg: Config, openedAt: int, s: State) returns (s': State)
    requires cfg.Gathers() && Inv(openedAt, s) && !Exclusive(s)
    ensures Leads(cfg, s, s') && BothSet(s'.conn)
  {
    if BothSet(s.conn) {
      s' := s;
      LeadsNowhere(cfg, s);
    } else if s.conn.closedInfo.Some? {
      var t: nat :| HasAt(s, t, Errs);
      s' := OneLands(cfg, openedAt, s, t, Errs);
    } else if s.conn.infoErr.Some? {
      var t: nat :| HasAt(s, t, Stores);
      s' := OneLands(cfg, openedAt, s, t, Stores);
    } else {
      var t: nat, u: nat :| t != u && HasAt(s, t, Stores) && HasAt(s, u, Errs);
      s' := BothLand(cfg, openedAt, s, t, u, Stores, Errs);
    }
  }
}
