/** The mutex is never taken twice by one goroutine, its holder can always let go, and callbacks run unlocked. */
module Locks {
  import opened Base
  import opened ConnState
  import opened Protocol
  import opened Serial

  /** How many more of its own steps the holder needs to unlock. */
  function StepsLeft(f: Frame): nat {
    match f
    case IoHold(_, stage, _, _) => if stage <= 4 then 6 - stage else 1
    case CloseHold(stored, _) => if stored then 1 else 2
    case SetHold(stored, _) => if stored then 1 else 2
    case PeekHold => 1
    case StoreHold(_, _, stored) => if stored then 1 else 2
    case _ => 0
  }

  /** A step choice for a goroutine that needs nothing from outside but the clock. */
  function Tick(now: int): Choice {
    Choice(0, None, now, Outcome(None, None, None))
  }

  /**
   In every reachable state a goroutine that waits for the mutex does not hold it, and neither does one that
   is about to enter, or is directly inside, a report callback.
   */
  lemma NoSelfDeadlock(cfg: Config, openedAt: int, acts: seq<Action>, t: nat)
    requires Runs(cfg, Init(openedAt), acts)
    requires t < |Final(cfg, Init(openedAt), acts).threads| && Final(cfg, Init(openedAt), acts).threads[t] != []
    ensures var s := Final(cfg, Init(openedAt), acts);
            var f := Top(s.threads[t]);
            && (Waiting(f) || f.CallbackDue? || f.InCallback? ==> s.owner != Some(t))
            && (Holding(f) <==> s.owner == Some(t))
  {
    InitInv(openedAt);
    RunInv(openedAt, cfg, Init(openedAt), acts);
  }

  lemma HolderStep(cfg: Config, s: State, t: nat)
    requires Shaped(s) && Locked(s) && s.owner == Some(t)
    ensures Enabled(s, Advance(t, Tick(s.clock)))
    ensures var s' := Next(cfg, s, Advance(t, Tick(s.clock)));
            var left := StepsLeft(Top(s.threads[t]));
            && left >= 1
            && (left == 1 <==> s'.owner.None?)
            && (left > 1 ==> s'.owner == Some(t) && s'.threads[t] != [] && StepsLeft(Top(s'.threads[t])) == left - 1)
            && |s'.threads| == |s.threads|
            && (forall u :: 0 <= u < |s.threads| && u != t ==> s'.threads[u] == s.threads[u])
  {
  }

  /** The holder reaches its unlock in at most six steps of its own, whatever the others are doing. */
  lemma {:induction false} HolderReleases(cfg: Config, s: State, t: nat) returns (acts: seq<Action>)
    requires Shaped(s) && Locked(s) && s.owner == Some(t)
    ensures Runs(cfg, s, acts) && Final(cfg, s, acts).owner.None?
    ensures |acts| == StepsLeft(Top(s.threads[t])) <= 6
    ensures forall i :: 0 <= i < |acts| ==> acts[i].Advance? && acts[i].t == t
    ensures |Final(cfg, s, acts).threads| == |s.threads|
    ensures forall u :: 0 <= u < |s.threads| && u != t ==> Final(cfg, s, acts).threads[u] == s.threads[u]
    decreases StepsLeft(Top(s.threads[t]))
  {
    var a := Advance(t, Tick(s.clock));
    HolderStep(cfg, s, t);
    var s' := Next(cfg, s, a);
    if s'.owner.None? {
      acts := [a];
      assert acts[1..] == [];
    } else {
      StepShaped(cfg, s, a);
      StepLocked(cfg, s, a);
      var rest := HolderReleases(cfg, s', t);
      acts := [a] + rest;
      assert acts[1..] == rest;
    }
  }

  /** Warnings, ToMap and SetReconnects need nothing but the mutex. */
  predicate Simple(op: Op) {
    op.Warnings? || op.ToMap? || op.SetReconnects?
  }

  predicate SimpleFrame(f: Frame) {
    f.SetWait? || f.PeekWait? || f.SetHold? || f.PeekHold?
  }

  /** Whoever waits for the mutex can get it: there is no deadlock. */
  lemma WaiterCanEnter(cfg: Config, openedAt: int, s: State, w: nat) returns (acts: seq<Action>)
    requires Inv(openedAt, s)
    requires w < |s.threads| && s.threads[w] != [] && Waiting(Top(s.threads[w]))
    ensures Runs(cfg, s, acts) && Final(cfg, s, acts).owner == Some(w)
    ensures w < |Final(cfg, s, acts).threads| && |Final(cfg, s, acts).threads[w]| == |s.threads[w]|
    ensures Pop(Final(cfg, s, acts).threads[w]) == Pop(s.threads[w])
    ensures SimpleFrame(Top(s.threads[w])) ==> SimpleFrame(Top(Final(cfg, s, acts).threads[w]))
  {
    var before: seq<Action> := [];
    if s.owner.Some? {
      before := HolderReleases(cfg, s, s.owner.value);
    }
    RunInv(openedAt, cfg, s, before);
    var free := Final(cfg, s, before);
    var enter := [Advance(w, Tick(free.clock))];
    ReactionLocks(cfg, w, Top(free.threads[w]), free.conn, free.clock, Tick(free.clock));
    assert enter[1..] == [];
    RunsConcat(cfg, s, before, enter);
    acts := before + enter;
  }

  lemma {:induction false} SimpleReturns(cfg: Config, s: State, t: nat) returns (acts: seq<Action>)
    requires Shaped(s) && Locked(s) && s.owner == Some(t) && SimpleFrame(Top(s.threads[t]))
    ensures Runs(cfg, s, acts)
    ensures Final(cfg, s, acts).owner.None?
    ensures t < |Final(cfg, s, acts).threads| && Final(cfg, s, acts).threads[t] == Pop(s.threads[t])
    decreases StepsLeft(Top(s.threads[t]))
  {
    var a := Advance(t, Tick(s.clock));
    HolderStep(cfg, s, t);
    var s' := Next(cfg, s, a);
    if s'.owner.None? {
      acts := [a];
      assert acts[1..] == [];
    } else {
      StepShaped(cfg, s, a);
      StepLocked(cfg, s, a);
      var rest := SimpleReturns(cfg, s', t);
      acts := [a] + rest;
      assert acts[1..] == rest;
    }
  }

  /**
   From inside any report callback, whatever the other goroutines hold, a nested Warnings, ToMap or
   SetReconnects can run to its return, leaving the callback where it was.
   */
  lemma CallbackMayCallBack(cfg: Config, openedAt: int, s: State, t: nat, op: Op) returns (acts: seq<Action>)
    requires Inv(openedAt, s) && Simple(op)
    requires t < |s.threads| && s.threads[t] != [] && Top(s.threads[t]).InCallback?
    ensures Runs(cfg, s, acts) && acts != [] && acts[0] == Call(t, op)
    ensures t < |Final(cfg, s, acts).threads| && Final(cfg, s, acts).threads[t] == s.threads[t]
    ensures Final(cfg, s, acts).owner.None?
  {
    var call := [Call(t, op)];
    var s1 := Next(cfg, s, call[0]);
    assert call[1..] == [];
    StepInv(openedAt, cfg, s, call[0]);
    assert Pop(s1.threads[t]) == s.threads[t];
    var enter := WaiterCanEnter(cfg, openedAt, s1, t);
    RunInv(openedAt, cfg, s1, enter);
    var done := SimpleReturns(cfg, Final(cfg, s1, enter), t);
    RunsConcat(cfg, s1, enter, done);
    RunsConcat(cfg, s, call, enter + done);
    acts := call + (enter + done);
  }
}
