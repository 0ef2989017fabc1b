/** What the fields other than the counters hold in every run, read off the history alone. */
module Fields {
  import opened Base
  import opened SysInfoModel
  import opened ConnState
  import opened Protocol
  import opened Serial

  // ---- The snapshots and InfoErr ----

  /** A gather of this kind was written that had no error and brought a snapshot. */
  predicate WroteInfo(e: Event, k: Kind) {
    e.Wrote? && e.k == k && e.o.ctl.None? && e.o.tcp.None? && e.o.sys.Some?
  }

  /** A gather was written that had failed. */
  predicate WroteErr(e: Event) {
    e.Wrote? && (e.o.ctl.Some? || e.o.tcp.Some?)
  }

  /** The position of the latest write of a snapshot; -1 when there is none. */
  function LatestInfo(h: seq<Event>, k: Kind): (i: int)
    ensures -1 <= i < |h|
    ensures i >= 0 ==> WroteInfo(h[i], k)
    ensures forall j :: i < j < |h| ==> !WroteInfo(h[j], k)
  {
    if h == [] then -1
    else if WroteInfo(h[|h| - 1], k) then |h| - 1
    else LatestInfo(h[..|h| - 1], k)
  }

  /** The position of the latest write of an error; -1 when there is none. */
  function LatestErrWrite(h: seq<Event>): (i: int)
    ensures -1 <= i < |h|
    ensures i >= 0 ==> WroteErr(h[i])
    ensures forall j :: i < j < |h| ==> !WroteErr(h[j])
  {
    if h == [] then -1
    else if WroteErr(h[|h| - 1]) then |h| - 1
    else LatestErrWrite(h[..|h| - 1])
  }

  function InfoOf(h: seq<Event>, k: Kind): Option<SysInfo> {
    var i := LatestInfo(h, k);
    if i >= 0 then h[i].o.sys else None
  }

  /** The error of Control comes before that of GetTCPInfo. */
  function ErrOf(h: seq<Event>): Option<Error> {
    var i := LatestErrWrite(h);
    if i < 0 then None else if h[i].o.ctl.Some? then h[i].o.ctl else h[i].o.tcp
  }

  lemma InfoSnoc(h: seq<Event>, e: Event, k: Kind)
    ensures InfoOf(h + [e], k) == if WroteInfo(e, k) then e.o.sys else InfoOf(h, k)
    ensures ErrOf(h + [e]) == if !WroteErr(e) then ErrOf(h) else if e.o.ctl.Some? then e.o.ctl else e.o.tcp
  {
    Snoc(h, e);
  }

  ghost predicate InfosRecorded(s: State) {
    && s.conn.openedInfo == InfoOf(s.hist, Opened)
    && s.conn.closedInfo == InfoOf(s.hist, Closed)
    && s.conn.infoErr == ErrOf(s.hist)
  }

  /** What a step writes is what it records. */
  ghost predicate WriteFacts(w: Conn, r: Reaction) {
    && r.conn.openedInfo == (if r.event.Some? && WroteInfo(r.event.value, Opened) then r.event.value.o.sys else w.openedInfo)
    && r.conn.closedInfo == (if r.event.Some? && WroteInfo(r.event.value, Closed) then r.event.value.o.sys else w.closedInfo)
    && r.conn.infoErr == (if !(r.event.Some? && WroteErr(r.event.value)) then w.infoErr
                          else if r.event.value.o.ctl.Some? then r.event.value.o.ctl
                          else r.event.value.o.tcp)
  }

  lemma ReactionWrites(cfg: Config, t: nat, f: Frame, w: Conn, now: int, c: Choice)
    ensures WriteFacts(w, React(cfg, t, f, w, now, c))
  {
  }

  lemma PerformInfos(s: State, t: nat, r: Reaction)
    requires InfosRecorded(s) && WriteFacts(s.conn, r) && t < |s.threads| && s.threads[t] != []
    ensures InfosRecorded(Perform(s, t, r))
  {
    if r.event.Some? {
      InfoSnoc(s.hist, r.event.value, Opened);
      InfoSnoc(s.hist, r.event.value, Closed);
    }
  }

  lemma {:induction false} RunInfos(cfg: Config, s: State, acts: seq<Action>)
    requires Runs(cfg, s, acts) && InfosRecorded(s)
    ensures InfosRecorded(Final(cfg, s, acts))
    decreases |acts|
  {
    if acts != [] {
      var a := acts[0];
      if a.Advance? {
        var f := Top(s.threads[a.t]);
        ReactionWrites(cfg, a.t, f, s.conn, s.clock, a.c);
        PerformInfos(s, a.t, React(cfg, a.t, f, s.conn, s.clock, a.c));
      }
      RunInfos(cfg, Next(cfg, s, a), acts[1..]);
    }
  }

  /**
   In every reachable state OpenedInfo and ClosedInfo are what the latest error-free gather of their kind
   brought, unset when there was none; InfoErr is the error of the latest failed gather, Control's before
   GetTCPInfo's, unset when none failed.
   */
  lemma InfosFromHistory(cfg: Config, openedAt: int, acts: seq<Action>)
    requires Runs(cfg, Init(openedAt), acts)
    ensures var s := Final(cfg, Init(openedAt), acts);
            && s.conn.openedInfo == InfoOf(s.hist, Opened)
            && s.conn.closedInfo == InfoOf(s.hist, Closed)
            && s.conn.infoErr == ErrOf(s.hist)
  {
    RunInfos(cfg, Init(openedAt), acts);
  }

  // ---- What is written is what the socket answered ----

  ghost predicate Carries(f: Frame, answers: Outcome -> bool) {
    f.StoreWait? || f.StoreHold? ==> answers(f.o)
  }

  ghost predicate Answered(s: State, answers: Outcome -> bool) {
    && (forall i :: 0 <= i < |s.hist| && s.hist[i].Wrote? ==> answers(s.hist[i].o))
    && forall t, i :: 0 <= t < |s.threads| && 0 <= i < |s.threads[t]| ==> Carries(s.threads[t][i], answers)
  }

  ghost predicate AllAnswer(acts: seq<Action>, answers: Outcome -> bool) {
    forall i :: 0 <= i < |acts| && acts[i].Advance? ==> answers(acts[i].c.o)
  }

  /** A step passes on the outcome that it was given, or that the socket answers. */
  lemma ReactionCarries(cfg: Config, t: nat, f: Frame, w: Conn, now: int, c: Choice)
    ensures var r := React(cfg, t, f, w, now, c);
            && (r.next.Some? && (r.next.value.StoreWait? || r.next.value.StoreHold?) ==>
                  if f.Fetch? then r.next.value.o == c.o else (f.StoreWait? || f.StoreHold?) && r.next.value.o == f.o)
            && (r.event.Some? && r.event.value.Wrote? ==> f.StoreHold? && r.event.value.o == f.o)
  {
  }

  lemma PerformAnswered(s: State, t: nat, r: Reaction, answers: Outcome -> bool)
    requires Answered(s, answers) && t < |s.threads| && s.threads[t] != []
    requires r.next.Some? ==> Carries(r.next.value, answers)
    requires r.event.Some? && r.event.value.Wrote? ==> answers(r.event.value.o)
    ensures Answered(Perform(s, t, r), answers)
  {
  }

  lemma {:induction false} RunAnswered(cfg: Config, s: State, acts: seq<Action>, answers: Outcome -> bool)
    requires Runs(cfg, s, acts) && Answered(s, answers) && AllAnswer(acts, answers)
    ensures Answered(Final(cfg, s, acts), answers)
    decreases |acts|
  {
    if acts != [] {
      var a := acts[0];
      if a.Advance? {
        var f := Top(s.threads[a.t]);
        ReactionCarries(cfg, a.t, f, s.conn, s.clock, a.c);
        PerformAnswered(s, a.t, React(cfg, a.t, f, s.conn, s.clock, a.c), answers);
      }
      RunAnswered(cfg, Next(cfg, s, a), acts[1..], answers);
    }
  }

  /** A snapshot that a connection holds is one that the socket answered, without an error, in some gather of the run. */
  lemma StoredWasAnswered(cfg: Config, openedAt: int, acts: seq<Action>, k: Kind, answers: Outcome -> bool)
    requires Runs(cfg, Init(openedAt), acts) && AllAnswer(acts, answers)
    ensures var i := if k == Opened then Final(cfg, Init(openedAt), acts).conn.openedInfo
                     else Final(cfg, Init(openedAt), acts).conn.closedInfo;
            i.Some? ==> exists o: Outcome :: answers(o) && o.ctl.None? && o.tcp.None? && o.sys == i
  {
    InfosFromHistory(cfg, openedAt, acts);
    RunAnswered(cfg, Init(openedAt), acts, answers);
    var s := Final(cfg, Init(openedAt), acts);
    var i := LatestInfo(s.hist, k);
    if i >= 0 {
      assert answers(s.hist[i].o);
    }
  }

  // ---- ClosedAt and Reconnects ----

  /** The stamp of the latest finished close section; zero before the first. */
  function ClosedAtOf(cs: seq<Commit>): int {
    if cs == [] then 0
    else if cs[|cs| - 1].CloseStamped? then cs[|cs| - 1].ts
    else ClosedAtOf(cs[..|cs| - 1])
  }

  /** The number of the latest finished SetReconnects; zero before the first. */
  function ReconnectsOf(cs: seq<Commit>): int {
    if cs == [] then 0
    else if cs[|cs| - 1].ReconnectsSet? then cs[|cs| - 1].r
    else ReconnectsOf(cs[..|cs| - 1])
  }

  lemma {:induction false} ReplayFields(openedAt: int, cs: seq<Commit>)
    ensures var w := Replay(openedAt, cs);
            w.openedAt == openedAt && w.closedAt == ClosedAtOf(cs) && w.reconnects == ReconnectsOf(cs)
  {
    if cs != [] {
      ReplayFields(openedAt, cs[..|cs| - 1]);
    }
  }

  /** The goroutine that holds the lock is inside the first section of Close. */
  predicate Stamping(s: State) {
    s.owner.Some? && s.owner.value < |s.threads| && s.threads[s.owner.value] != [] && Top(s.threads[s.owner.value]).CloseHold?
  }

  /** The goroutine that holds the lock is inside SetReconnects. */
  predicate Setting(s: State) {
    s.owner.Some? && s.owner.value < |s.threads| && s.threads[s.owner.value] != [] && Top(s.threads[s.owner.value]).SetHold?
  }

  /** A close stamp lies between the opening and now. */
  predicate Stamped(openedAt: int, w: Conn, clock: int) {
    openedAt <= clock && (w.closedAt == 0 || openedAt <= w.closedAt <= clock)
  }

  lemma ReactionStamps(openedAt: int, cfg: Config, t: nat, f: Frame, w: Conn, now: int, c: Choice)
    requires Stamped(openedAt, w, now) && (ReadsClock(f) ==> now <= c.ts)
    ensures var r := React(cfg, t, f, w, now, c); Stamped(openedAt, r.conn, r.clock)
  {
  }

  lemma {:induction false} RunStamps(openedAt: int, cfg: Config, s: State, acts: seq<Action>)
    requires Runs(cfg, s, acts) && Stamped(openedAt, s.conn, s.clock)
    ensures var s' := Final(cfg, s, acts); Stamped(openedAt, s'.conn, s'.clock)
    decreases |acts|
  {
    if acts != [] {
      var a := acts[0];
      if a.Advance? {
        ReactionStamps(openedAt, cfg, a.t, Top(s.threads[a.t]), s.conn, s.clock, a.c);
      }
      RunStamps(openedAt, cfg, Next(cfg, s, a), acts[1..]);
    }
  }

  /**
   In every reachable state OpenedAt is the opening time; outside their own sections ClosedAt is the latest
   close stamp and Reconnects the latest number set, zero before the first; and a close stamp lies between
   the opening and the clock.
   */
  lemma StampsFromHistory(cfg: Config, openedAt: int, acts: seq<Action>)
    requires Runs(cfg, Init(openedAt), acts)
    ensures var s := Final(cfg, Init(openedAt), acts);
            && s.conn.openedAt == openedAt
            && (!Stamping(s) ==> s.conn.closedAt == ClosedAtOf(Commits(s.hist)))
            && (!Setting(s) ==> s.conn.reconnects == ReconnectsOf(Commits(s.hist)))
            && (s.conn.closedAt != 0 ==> openedAt <= s.conn.closedAt <= s.clock)
  {
    EveryRunIsSerial(cfg, openedAt, acts);
    RunStamps(openedAt, cfg, Init(openedAt), acts);
    ReplayFields(openedAt, Commits(Final(cfg, Init(openedAt), acts).hist));
  }
}
