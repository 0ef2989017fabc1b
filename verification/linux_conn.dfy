/** A connection on Linux: what the interleaved gathers can leave in OpenedInfo and ClosedInfo. */
module LinuxConn {
  import opened SysInfoModel
  import opened ConnState
  import opened Protocol
  import opened Fields
  import opened Kernel
  import opened Adapt
  import opened LinuxTruth
  import Linux
  import LinuxCC
  import L = Layout

  /** What rawConn.Control and GetTCPInfo hand to gatherAndReport. */
  ghost predicate FromLinux(flags: seq<bool>, o: Outcome)
    requires |flags| == 13
  {
    || (o.sys.None? && o.tcp.None?)
    || exists a :: LinuxCC.GetTCPInfo(flags, a) == (o.sys, o.tcp)
  }

  ghost predicate LinuxRun(flags: seq<bool>, acts: seq<Action>)
    requires |flags| == 13
  {
    forall i :: 0 <= i < |acts| && acts[i].Advance? ==> FromLinux(flags, acts[i].c.o)
  }

  /**
   In every interleaving on Linux, a stored snapshot has a congestion control group Valid exactly when its
   algorithm names it: the partial results that come with an error are never stored.
   */
  lemma StoredGroupsMatch(flags: seq<bool>, cfg: Config, openedAt: int, acts: seq<Action>, k: Kind)
    requires |flags| == 13 && Runs(cfg, Init(openedAt), acts) && LinuxRun(flags, acts)
    ensures var i := Final(cfg, Init(openedAt), acts).conn.Info(k);
            i.Some? ==> LinuxCC.GroupsMatch(i.value)
  {
    StoredWasAnswered(cfg, openedAt, acts, k, o => FromLinux(flags, o));
    var i := Final(cfg, Init(openedAt), acts).conn.Info(k);
    if i.Some? {
      var o: Outcome :| FromLinux(flags, o) && o.ctl.None? && o.tcp.None? && o.sys == i;
      var a :| LinuxCC.GetTCPInfo(flags, a) == (o.sys, o.tcp);
      LinuxCC.CompleteResults(flags, a);
    }
  }

  // ---- The kernel's numbers in a stored snapshot ----

  /** The answers of a socket on a kernel of version v that had k in its struct. */
  ghost predicate FromStruct(v: VersionInfo, st: Settings, k: L.Content, a: LinuxCC.Answers) {
    L.InRange(k) && (a.raw.Ok? ==> a.raw.value == L.Decode(Getsockopt(v, k, st.size)))
  }

  ghost predicate FromKernel(v: VersionInfo, st: Settings, o: Outcome)
    requires |st.flags| == 13
  {
    || (o.sys.None? && o.tcp.None?)
    || exists a, k :: FromStruct(v, st, k, a) && LinuxCC.GetTCPInfo(st.flags, a) == (o.sys, o.tcp)
  }

  /** A result of GetTCPInfo is, but for the congestion control, the pipeline's reading of the kernel's struct. */
  lemma ResultIsObserved(v: VersionInfo, st: Settings, k: L.Content, a: LinuxCC.Answers)
    requires |st.flags| == 13 && FromStruct(v, st, k, a) && LinuxCC.GetTCPInfo(st.flags, a).0.Some?
    ensures LinuxCC.GetTCPInfo(st.flags, a).0.value.(cc := Linux.NO_CC, ccAlgorithm := "") == Observe(v, st, k)
    ensures st.flags[Linux.AT_2_6_2]
  {
    LinuxCC.FirstFailure(st.flags, a);
    LinuxCC.ResultKeepsStruct(st.flags, a);
  }

  /** u reports the struct k of a kernel of version v: every field truthfully, but for the misread ones. */
  ghost predicate Reports(v: VersionInfo, st: Settings, k: L.Content, u: SysInfo)
    requires |st.flags| == 13
  {
    && L.InRange(k)
    && u.(cc := Linux.NO_CC, ccAlgorithm := "") == Observe(v, st, k)
    && (forall p: Plain :: u.plain.Get(p) == Linux.PlainValue(k, p))
    && (forall key: Key ::
          if Misread(v, key) then u.nullable.Get(key) == Nullable(true, 0) else Truthful(v, key, k, u.nullable.Get(key)))
  }

  lemma ObservedReports(v: VersionInfo, before: Settings, st: Settings, k: L.Content, u: SysInfo)
    requires AtLeast(v, Linux.V(2, 6, 2)) && Adapted(Linux.TABLE, v, before, st) && L.InRange(k) && |st.flags| == 13
    requires u.(cc := Linux.NO_CC, ccAlgorithm := "") == Observe(v, st, k)
    ensures Reports(v, st, k, u)
  {
    forall p: Plain ensures u.plain.Get(p) == Linux.PlainValue(k, p) {
      PlainAlwaysTrue(v, before, st, k, p);
    }
    forall key: Key ensures if Misread(v, key) then u.nullable.Get(key) == Nullable(true, 0) else Truthful(v, key, k, u.nullable.Get(key)) {
      KeyObserved(v, before, st, k, key);
      TruthOfObserved(v, k, key, u.nullable.Get(key));
    }
  }

  /**
   In every interleaving on a Linux kernel of any version, each snapshot that the connection holds reports a
   struct that the kernel had: its plain fields are the kernel's, and its nullable fields are truthful but for
   the misread ones of the two version ranges.
   */
  lemma StoredIsTruthful(v: VersionInfo, before: Settings, st: Settings, cfg: Config, openedAt: int, acts: seq<Action>, k: Kind)
    requires Adapted(Linux.TABLE, v, before, st) && |st.flags| == 13 && Runs(cfg, Init(openedAt), acts)
    requires forall i :: 0 <= i < |acts| && acts[i].Advance? ==> FromKernel(v, st, acts[i].c.o)
    ensures var i := Final(cfg, Init(openedAt), acts).conn.Info(k);
            i.Some? ==> exists had: L.Content :: Reports(v, st, had, i.value)
  {
    StoredWasAnswered(cfg, openedAt, acts, k, o => FromKernel(v, st, o));
    var i := Final(cfg, Init(openedAt), acts).conn.Info(k);
    if i.Some? {
      var o: Outcome :| FromKernel(v, st, o) && o.ctl.None? && o.tcp.None? && o.sys == i;
      var a, had :| FromStruct(v, st, had, a) && LinuxCC.GetTCPInfo(st.flags, a) == (o.sys, o.tcp);
      ResultIsObserved(v, st, had, a);
      assert Reaches(Linux.TABLE, v, Linux.AT_2_6_2);
      ObservedReports(v, before, st, had, i.value);
    }
  }
}
