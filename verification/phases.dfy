/** The phase timings that httpstat prints for a plain http request. */
module Phases {

  /** The trace hooks that matter for plain http. */
  datatype Hook = DNSStart | DNSDone | ConnectStart | ConnectDone | GotConn | GotFirstResponseByte

  datatype Stamp = Stamp(hook: Hook, now: int)

  /** The captured variables of visit; zero means not set. */
  datatype Times = Times(t0: int, t1: int, t2: int, t3: int, t4: int)

  const UNSET := Times(0, 0, 0, 0, 0)

  function OnHook(t: Times, s: Stamp): Times {
    match s.hook
    case DNSStart => t.(t0 := s.now)
    case DNSDone => t.(t1 := s.now)
    case ConnectStart => if t.t1 == 0 then t.(t1 := s.now) else t
    case ConnectDone => t.(t2 := s.now)
    case GotConn => t.(t3 := s.now)
    case GotFirstResponseByte => t.(t4 := s.now)
  }

  function OnHooks(t: Times, ss: seq<Stamp>): Times {
    if ss == [] then t else OnHook(OnHooks(t, ss[..|ss| - 1]), ss[|ss| - 1])
  }

  /** visit, after the body is read: a skipped lookup starts when the connection does. */
  function Settle(t: Times): Times {
    if t.t0 == 0 then t.(t0 := t.t1) else t
  }

  /**
   How far a request has come: 0 nothing, 1 looking up, 2 looked up, 3 connecting, 4 connected, 5 answered.
   A dialer may try several addresses, and a losing attempt may finish late.
   */
  function Progress(stage: nat, h: Hook): nat {
    match h
    case DNSStart => if stage == 0 then 1 else 9
    case DNSDone => if stage == 1 then 2 else 9
    case ConnectStart => if stage == 0 || stage == 2 || stage == 3 then 3 else 9
    case ConnectDone => if 3 <= stage <= 5 then stage else 9
    case GotConn => if stage == 3 then 4 else 9
    case GotFirstResponseByte => if stage == 4 then 5 else 9
  }

  function StageOf(ss: seq<Stamp>): nat {
    if ss == [] then 0 else Progress(StageOf(ss[..|ss| - 1]), ss[|ss| - 1].hook)
  }

  ghost predicate Ticking(ss: seq<Stamp>) {
    && (forall i :: 0 <= i < |ss| ==> 0 < ss[i].now)
    && (forall i, j :: 0 <= i < j < |ss| ==> ss[i].now <= ss[j].now)
  }

  /** What the captured times satisfy at each stage; `hi` is the time of the last hook. */
  predicate Consistent(t: Times, stage: nat, hi: int) {
    && (stage == 0 ==> t == UNSET)
    && (stage == 1 ==> t.t1 == 0 && 0 < t.t0 <= hi)
    && (2 <= stage <= 5 ==> 0 < t.t1 <= hi && (t.t0 != 0 ==> 0 < t.t0 <= t.t1))
    && (4 <= stage <= 5 ==> t.t1 <= t.t3 <= hi)
    && (stage == 5 ==> t.t3 <= t.t4 <= hi)
  }

  lemma {:induction false} HooksConsistent(ss: seq<Stamp>)
    requires Ticking(ss)
    ensures StageOf(ss) <= 5 ==> Consistent(OnHooks(UNSET, ss), StageOf(ss), if ss == [] then 0 else ss[|ss| - 1].now)
  {
    if ss != [] {
      var before := ss[..|ss| - 1];
      HooksConsistent(before);
    }
  }

  // ---- Whose times they are ----

  /** The position of the first stamp of a hook; the length when there is none. */
  function FirstOf(ss: seq<Stamp>, h: Hook): (i: nat)
    ensures i <= |ss|
    ensures i < |ss| ==> ss[i].hook == h
    ensures forall j :: 0 <= j < i ==> ss[j].hook != h
  {
    if ss == [] || ss[0].hook == h then 0 else 1 + FirstOf(ss[1..], h)
  }

  predicate Seen(ss: seq<Stamp>, h: Hook) {
    FirstOf(ss, h) < |ss|
  }

  /** The time of the first stamp of a hook; zero when there is none. */
  function TimeOf(ss: seq<Stamp>, h: Hook): int {
    if Seen(ss, h) then ss[FirstOf(ss, h)].now else 0
  }

  lemma {:induction false} FirstSnoc(ss: seq<Stamp>, s: Stamp, h: Hook)
    ensures FirstOf(ss + [s], h) == if Seen(ss, h) then FirstOf(ss, h) else if s.hook == h then |ss| else |ss| + 1
  {
    if ss == [] {
      assert ss + [s] == [s] && [s][1..] == [];
    } else if ss[0].hook != h {
      FirstSnoc(ss[1..], s, h);
      assert (ss + [s])[1..] == ss[1..] + [s];
    }
  }

  lemma SeenSnoc(ss: seq<Stamp>, s: Stamp, h: Hook)
    ensures Seen(ss + [s], h) <==> Seen(ss, h) || s.hook == h
    ensures TimeOf(ss + [s], h) == if Seen(ss, h) then TimeOf(ss, h) else if s.hook == h then s.now else 0
  {
    FirstSnoc(ss, s, h);
  }

  /** Which hooks have been seen at each stage. */
  predicate SeenBy(ss: seq<Stamp>, stage: nat) {
    && (stage == 0 ==> !Seen(ss, DNSStart))
    && (stage == 1 ==> Seen(ss, DNSStart))
    && (stage <= 1 ==> !Seen(ss, DNSDone))
    && (stage == 2 ==> Seen(ss, DNSDone))
    && (2 <= stage ==> (Seen(ss, DNSDone) <==> Seen(ss, DNSStart)))
    && (3 <= stage <==> Seen(ss, ConnectStart))
    && (4 <= stage <==> Seen(ss, GotConn))
    && (5 <= stage <==> Seen(ss, GotFirstResponseByte))
  }

  /** Each captured time is that of its hook; t1 falls back on the first connection attempt. */
  predicate Captured(ss: seq<Stamp>, t: Times) {
    && t.t0 == TimeOf(ss, DNSStart)
    && t.t1 == (if Seen(ss, DNSDone) then TimeOf(ss, DNSDone) else TimeOf(ss, ConnectStart))
    && t.t3 == TimeOf(ss, GotConn)
    && t.t4 == TimeOf(ss, GotFirstResponseByte)
  }

  lemma AllSeenSnoc(ss: seq<Stamp>, s: Stamp)
    ensures forall h: Hook ::
              && (Seen(ss + [s], h) <==> Seen(ss, h) || s.hook == h)
              && TimeOf(ss + [s], h) == if Seen(ss, h) then TimeOf(ss, h) else if s.hook == h then s.now else 0
  {
    forall h: Hook ensures (Seen(ss + [s], h) <==> Seen(ss, h) || s.hook == h)
                        && TimeOf(ss + [s], h) == if Seen(ss, h) then TimeOf(ss, h) else if s.hook == h then s.now else 0 {
      SeenSnoc(ss, s, h);
    }
  }

  lemma SeenStep(ss: seq<Stamp>, s: Stamp, stage: nat)
    requires SeenBy(ss, stage) && stage <= 5 && Progress(stage, s.hook) <= 5
    ensures SeenBy(ss + [s], Progress(stage, s.hook))
  {
    AllSeenSnoc(ss, s);
  }

  lemma CapturedStep(ss: seq<Stamp>, s: Stamp, stage: nat, t: Times)
    requires SeenBy(ss, stage) && Captured(ss, t) && stage <= 5 && Progress(stage, s.hook) <= 5 && Ticking(ss + [s])
    ensures Captured(ss + [s], OnHook(t, s))
  {
    AllSeenSnoc(ss, s);
    assert forall i :: 0 <= i < |ss| ==> (ss + [s])[i] == ss[i];
    assert forall h: Hook :: Seen(ss, h) ==> TimeOf(ss, h) > 0;
  }

  lemma {:induction false} HooksCaptured(ss: seq<Stamp>)
    requires Ticking(ss)
    ensures StageOf(ss) <= 5 ==> SeenBy(ss, StageOf(ss)) && Captured(ss, OnHooks(UNSET, ss))
  {
    if ss != [] {
      var before, s := ss[..|ss| - 1], ss[|ss| - 1];
      assert ss == before + [s];
      HooksCaptured(before);
      if StageOf(ss) <= 5 {
        SeenStep(before, s, StageOf(before));
        CapturedStep(before, s, StageOf(before), OnHooks(UNSET, before));
      }
    }
  }

  /** The hooks that a request runs at most once. */
  predicate Single(h: Hook) {
    h.DNSStart? || h.DNSDone? || h.GotConn? || h.GotFirstResponseByte?
  }

  lemma {:induction false} SingleStamps(ss: seq<Stamp>, h: Hook, i: nat)
    requires Ticking(ss) && StageOf(ss) <= 5 && Single(h) && i < |ss| && ss[i].hook == h
    ensures i == FirstOf(ss, h)
  {
    var before, s := ss[..|ss| - 1], ss[|ss| - 1];
    assert ss == before + [s];
    FirstSnoc(before, s, h);
    HooksCaptured(before);
    if i < |before| {
      SingleStamps(before, h, i);
    }
  }

  /** The printed milliseconds of a duration: Go's division truncates toward zero. */
  function Millis(d: int): int {
    if d >= 0 then d / 1_000_000 else -((-d) / 1_000_000)
  }

  /** The whole milliseconds in a duration, of its sign. */
  lemma MillisTruncate(d: int)
    ensures d >= 0 ==> 1_000_000 * Millis(d) <= d < 1_000_000 * (Millis(d) + 1)
    ensures d <= 0 ==> 1_000_000 * (Millis(d) - 1) < d <= 1_000_000 * Millis(d)
  {
  }

  lemma FourParts(a: nat, b: nat, c: nat, d: nat)
    ensures Millis(a) + Millis(b) + Millis(c) + Millis(d) <= Millis(a + b + c + d) <= Millis(a) + Millis(b) + Millis(c) + Millis(d) + 3
  {
  }

  /** What visit prints for plain http: the four phases, and the time from the start to the end of each later one. */
  datatype Phases = Phases(lookup: int, connect: int, server: int, transfer: int, connected: int, answered: int, total: int)

  function PhasesOf(t: Times, t7: int): Phases {
    Phases(t.t1 - t.t0, t.t3 - t.t1, t.t4 - t.t3, t7 - t.t4, t.t3 - t.t0, t.t4 - t.t0, t7 - t.t0)
  }

  /**
   For every completed plain http request, the printed phases are the times between the stamps of its hooks:
   the lookup from DNSStart to DNSDone, the connection from there to GotConn, the server from there to the
   first byte, and the transfer to the end of the body. Without a lookup it counts as empty and everything
   starts at the first connection attempt.
   */
  lemma PhasesAreStamps(ss: seq<Stamp>, t7: int)
    requires Ticking(ss) && StageOf(ss) == 5 && ss[|ss| - 1].now <= t7
    ensures var p := PhasesOf(Settle(OnHooks(UNSET, ss)), t7);
            var start := if Seen(ss, DNSStart) then TimeOf(ss, DNSStart) else TimeOf(ss, ConnectStart);
            var resolved := if Seen(ss, DNSStart) then TimeOf(ss, DNSDone) else TimeOf(ss, ConnectStart);
            && p.lookup == resolved - start
            && p.connect == TimeOf(ss, GotConn) - resolved
            && p.server == TimeOf(ss, GotFirstResponseByte) - TimeOf(ss, GotConn)
            && p.transfer == t7 - TimeOf(ss, GotFirstResponseByte)
            && p.connected == TimeOf(ss, GotConn) - start
            && p.answered == TimeOf(ss, GotFirstResponseByte) - start
            && p.total == t7 - start
    ensures Seen(ss, ConnectStart) && Seen(ss, GotConn) && Seen(ss, GotFirstResponseByte)
    ensures Seen(ss, DNSStart) <==> Seen(ss, DNSDone)
    ensures forall h: Hook, i: nat :: Single(h) && i < |ss| && ss[i].hook == h ==> i == FirstOf(ss, h)
  {
    HooksCaptured(ss);
    forall h: Hook, i: nat | Single(h) && i < |ss| && ss[i].hook == h ensures i == FirstOf(ss, h) {
      SingleStamps(ss, h, i);
    }
  }

  /**
   For every completed plain http request, with or without a lookup and however many connection attempts:
   the phases are ordered, their durations account for the whole time, and the printed values add up to the
   printed total or to at most 3 ms less.
   */
  lemma PhasesAccountForTotal(ss: seq<Stamp>, t7: int)
    requires Ticking(ss) && StageOf(ss) == 5 && ss[|ss| - 1].now <= t7
    ensures var p := PhasesOf(Settle(OnHooks(UNSET, ss)), t7);
            var printed := Millis(p.lookup) + Millis(p.connect) + Millis(p.server) + Millis(p.transfer);
            && 0 <= p.lookup && 0 <= p.connect && 0 <= p.server && 0 <= p.transfer
            && p.lookup + p.connect + p.server + p.transfer == p.total
            && printed <= Millis(p.total) <= printed + 3
  {
    HooksConsistent(ss);
    var p := PhasesOf(Settle(OnHooks(UNSET, ss)), t7);
    FourParts(p.lookup, p.connect, p.server, p.transfer);
  }
}
