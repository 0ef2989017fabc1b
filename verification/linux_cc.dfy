/** Congestion control data: which groups a gather can return, and which a connection can store. */
module LinuxCC {
  import opened Base
  import opened SysInfoModel
  import opened Linux
  import L = Layout

  datatype VegasInfo = VegasInfo(enabled: nat, rttcnt: nat, rtt: nat, minrtt: nat)

  datatype BBRInfo = BBRInfo(bwLo: nat, bwHi: nat, minRtt: nat, pacingGain: nat, cwndGain: nat)

  datatype DCTCPInfo = DCTCPInfo(enabled: nat, ceState: nat, alpha: nat, abEcn: nat, abTot: nat)

  datatype TCPInfoPlusCC = TCPInfoPlusCC(
    raw: L.Content,
    alg: string,
    vegas: Option<VegasInfo>,
    bbr: Option<BBRInfo>,
    dctcp: Option<DCTCPInfo>
  )

  /** TCPInfoPlusCC.Unpack. */
  function UnpackCC(flags: seq<bool>, t: TCPInfoPlusCC): SysInfo
    requires |flags| == 13
  {
    var u := Unpacked(flags, t.raw).(ccAlgorithm := t.alg);
    if t.alg == "vegas" && t.vegas.Some? then
      u.(cc := NO_CC.(
        ccVegasEnabled := Nullable(true, t.vegas.value.enabled),
        ccVegasRTTCnt := Nullable(true, t.vegas.value.rttcnt),
        ccVegasRTTMin := Nullable(true, t.vegas.value.minrtt * MICROSECOND),
        ccVegasRTT := Nullable(true, t.vegas.value.rtt * MICROSECOND)))
    else if t.alg == "bbr" && t.bbr.Some? then
      u.(cc := NO_CC.(
        ccBBRBwHi := Nullable(true, t.bbr.value.bwHi),
        ccBBRBwLo := Nullable(true, t.bbr.value.bwLo),
        ccBBRMinRTT := Nullable(true, t.bbr.value.minRtt * MICROSECOND),
        ccBBRPacingGain := Nullable(true, t.bbr.value.pacingGain),
        ccBBRCWindowGain := Nullable(true, t.bbr.value.cwndGain)))
    else if t.alg == "dctcp" && t.dctcp.Some? then
      u.(cc := NO_CC.(
        ccDCTCPEnabled := Nullable(true, if t.dctcp.value.enabled != 0 then 1 else 0),
        ccDCTCPCEState := Nullable(true, t.dctcp.value.ceState),
        ccDCTCPAlpha := Nullable(true, t.dctcp.value.alpha),
        ccDCTCPABECN := Nullable(true, t.dctcp.value.abEcn),
        ccDCTCPABTOT := Nullable(true, t.dctcp.value.abTot)))
    else u
  }

  /** The algorithm a field belongs to. */
  function Group(key: CCKey): string {
    match key
    case CCVegasEnabled | CCVegasRTTCnt | CCVegasRTT | CCVegasRTTMin => "vegas"
    case CCBBRBwLo | CCBBRBwHi | CCBBRMinRTT | CCBBRPacingGain | CCBBRCWindowGain => "bbr"
    case CCDCTCPEnabled | CCDCTCPCEState | CCDCTCPAlpha | CCDCTCPABECN | CCDCTCPABTOT => "dctcp"
  }

  /** A group is Valid, every field of it, exactly when the algorithm in use is the one it describes. */
  ghost predicate GroupsMatch(u: SysInfo) {
    forall key :: u.cc.Get(key).valid <==> u.ccAlgorithm == Group(key)
  }

  /** So at most one group is Valid. */
  lemma OneGroup(u: SysInfo, a: CCKey, b: CCKey)
    requires GroupsMatch(u) && u.cc.Get(a).valid && u.cc.Get(b).valid
    ensures Group(a) == Group(b)
  {
  }

  /** What the algorithm's own record says about a field. */
  function CCSays(t: TCPInfoPlusCC, key: CCKey): nat
    requires (Group(key) == "vegas" ==> t.vegas.Some?) && (Group(key) == "bbr" ==> t.bbr.Some?) && (Group(key) == "dctcp" ==> t.dctcp.Some?)
  {
    match key
    case CCVegasEnabled => t.vegas.value.enabled
    case CCVegasRTTCnt => t.vegas.value.rttcnt
    case CCVegasRTT => Convert(Micros, t.vegas.value.rtt)
    case CCVegasRTTMin => Convert(Micros, t.vegas.value.minrtt)
    case CCBBRBwLo => t.bbr.value.bwLo
    case CCBBRBwHi => t.bbr.value.bwHi
    case CCBBRMinRTT => Convert(Micros, t.bbr.value.minRtt)
    case CCBBRPacingGain => t.bbr.value.pacingGain
    case CCBBRCWindowGain => t.bbr.value.cwndGain
    case CCDCTCPEnabled => if t.dctcp.value.enabled == 0 then 0 else 1
    case CCDCTCPCEState => t.dctcp.value.ceState
    case CCDCTCPAlpha => t.dctcp.value.alpha
    case CCDCTCPABECN => t.dctcp.value.abEcn
    case CCDCTCPABTOT => t.dctcp.value.abTot
  }

  /** Adding congestion control data fills the named group with its own values and changes nothing else. */
  lemma CCTable(flags: seq<bool>, t: TCPInfoPlusCC, key: CCKey)
    requires |flags| == 13
    ensures var u := UnpackCC(flags, t);
            && (u.cc.Get(key).valid ==> t.alg == Group(key) && Complete(t) && u.cc.Get(key).value == CCSays(t, key))
            && (!u.cc.Get(key).valid ==> u.cc.Get(key).value == 0)
            && u.(cc := NO_CC, ccAlgorithm := "") == Unpacked(flags, t.raw)
  {
    NamesDiffer();
  }

  /** What the socket calls of one gather return. */
  datatype Answers = Answers(
    raw: Result<L.Content, Error>,
    alg: Result<string, Error>,
    vegas: Result<VegasInfo, Error>,
    bbr: Result<BBRInfo, Error>,
    dctcp: Result<DCTCPInfo, Error>
  )

  const ERR_KERNEL_TOO_OLD := Error(-1, false, false)

  /** What has been read of the socket when GetTCPInfo unpacks it, and the error it stops with. */
  function Collect(raw: L.Content, a: Answers): (TCPInfoPlusCC, Option<Error>) {
    var res := TCPInfoPlusCC(raw, "", None, None, None);
    if a.alg.Failed? then (res, Some(a.alg.error))
    else
      var named := res.(alg := a.alg.value);
      if named.alg == "vegas" then
        if a.vegas.Failed? then (named, Some(a.vegas.error)) else (named.(vegas := Some(a.vegas.value)), None)
      else if named.alg == "bbr" then
        if a.bbr.Failed? then (named, Some(a.bbr.error)) else (named.(bbr := Some(a.bbr.value)), None)
      else if named.alg == "dctcp" then
        if a.dctcp.Failed? then (named, Some(a.dctcp.error)) else (named.(dctcp := Some(a.dctcp.value)), None)
      else (named, None)
  }

  /** GetTCPInfo: the result may be partial when there is an error. */
  function GetTCPInfo(flags: seq<bool>, a: Answers): (Option<SysInfo>, Option<Error>)
    requires |flags| == 13
  {
    if !flags[AT_2_6_2] then (None, Some(ERR_KERNEL_TOO_OLD))
    else if a.raw.Failed? then (None, Some(a.raw.error))
    else
      var (t, err) := Collect(a.raw.value, a);
      (Some(UnpackCC(flags, t)), err)
  }

  /** The data for a known algorithm was read. */
  predicate Complete(t: TCPInfoPlusCC) {
    (t.alg == "vegas" ==> t.vegas.Some?) && (t.alg == "bbr" ==> t.bbr.Some?) && (t.alg == "dctcp" ==> t.dctcp.Some?)
  }

  lemma NamesDiffer()
    ensures "vegas" != "bbr" && "vegas" != "dctcp" && "bbr" != "dctcp" && "" != "vegas" && "" != "bbr" && "" != "dctcp"
  {
    assert "vegas"[0] != "dctcp"[0];
  }

  /** The groups match the algorithm exactly when the data of a known algorithm was read. */
  lemma UnpackedGroups(flags: seq<bool>, t: TCPInfoPlusCC)
    requires |flags| == 13
    ensures GroupsMatch(UnpackCC(flags, t)) <==> Complete(t)
  {
    NamesDiffer();
    var u := UnpackCC(flags, t);
    if !Complete(t) {
      var key := if t.alg == "vegas" then CCVegasEnabled else if t.alg == "bbr" then CCBBRBwLo else CCDCTCPEnabled;
      assert !u.cc.Get(key).valid && u.ccAlgorithm == Group(key);
    }
  }

  /** A result returned without an error has matching groups; one returned with an error may not. */
  lemma CompleteResults(flags: seq<bool>, a: Answers)
    requires |flags| == 13
    ensures var (sys, err) := GetTCPInfo(flags, a);
            && (err.None? ==> sys.Some? && GroupsMatch(sys.value))
            && (sys.Some? ==> (GroupsMatch(sys.value) <==> err.None? || a.alg.Failed?))
  {
    if flags[AT_2_6_2] && a.raw.Ok? {
      CollectCompletes(a.raw.value, a);
      UnpackedGroups(flags, Collect(a.raw.value, a).0);
    }
  }

  lemma CollectCompletes(raw: L.Content, a: Answers)
    ensures var (t, err) := Collect(raw, a); Complete(t) <==> err.None? || a.alg.Failed?
  {
    NamesDiffer();
  }

  // ---- GetTCPInfo in terms of what the socket answered ----

  /** What the calls about the algorithms answered for a field; times in nanoseconds. */
  function Answered(a: Answers, key: CCKey): Option<nat> {
    match key
    case CCVegasEnabled => if a.vegas.Ok? then Some(a.vegas.value.enabled) else None
    case CCVegasRTTCnt => if a.vegas.Ok? then Some(a.vegas.value.rttcnt) else None
    case CCVegasRTT => if a.vegas.Ok? then Some(1000 * a.vegas.value.rtt) else None
    case CCVegasRTTMin => if a.vegas.Ok? then Some(1000 * a.vegas.value.minrtt) else None
    case CCBBRBwLo => if a.bbr.Ok? then Some(a.bbr.value.bwLo) else None
    case CCBBRBwHi => if a.bbr.Ok? then Some(a.bbr.value.bwHi) else None
    case CCBBRMinRTT => if a.bbr.Ok? then Some(1000 * a.bbr.value.minRtt) else None
    case CCBBRPacingGain => if a.bbr.Ok? then Some(a.bbr.value.pacingGain) else None
    case CCBBRCWindowGain => if a.bbr.Ok? then Some(a.bbr.value.cwndGain) else None
    case CCDCTCPEnabled => if a.dctcp.Ok? then Some(if a.dctcp.value.enabled == 0 then 0 else 1) else None
    case CCDCTCPCEState => if a.dctcp.Ok? then Some(a.dctcp.value.ceState) else None
    case CCDCTCPAlpha => if a.dctcp.Ok? then Some(a.dctcp.value.alpha) else None
    case CCDCTCPABECN => if a.dctcp.Ok? then Some(a.dctcp.value.abEcn) else None
    case CCDCTCPABTOT => if a.dctcp.Ok? then Some(a.dctcp.value.abTot) else None
  }

  lemma CollectKeeps(raw: L.Content, a: Answers)
    ensures var (t, err) := Collect(raw, a); t.raw == raw && t.alg == if a.alg.Ok? then a.alg.value else ""
  {
  }

  /** The result holds the struct that was fetched, whatever became of the calls after it. */
  lemma ResultKeepsStruct(flags: seq<bool>, a: Answers)
    requires |flags| == 13 && flags[AT_2_6_2] && a.raw.Ok?
    ensures var sys := GetTCPInfo(flags, a).0;
            && sys.Some?
            && sys.value.(cc := NO_CC, ccAlgorithm := "") == Unpacked(flags, a.raw.value)
            && sys.value.ccAlgorithm == if a.alg.Ok? then a.alg.value else ""
  {
    CollectKeeps(a.raw.value, a);
    CCTable(flags, Collect(a.raw.value, a).0, CCVegasEnabled);
  }

  /** GetTCPInfo stops at the first call that fails and returns its error; below 2.6.2 it makes none. */
  lemma FirstFailure(flags: seq<bool>, a: Answers)
    requires |flags| == 13
    ensures var (sys, err) := GetTCPInfo(flags, a);
            if !flags[AT_2_6_2] then sys.None? && err == Some(ERR_KERNEL_TOO_OLD)
            else if a.raw.Failed? then sys.None? && err == Some(a.raw.error)
            else
              && (a.alg.Failed? ==> err == Some(a.alg.error))
              && (a.alg == Ok("vegas") ==> err == if a.vegas.Failed? then Some(a.vegas.error) else None)
              && (a.alg == Ok("bbr") ==> err == if a.bbr.Failed? then Some(a.bbr.error) else None)
              && (a.alg == Ok("dctcp") ==> err == if a.dctcp.Failed? then Some(a.dctcp.error) else None)
              && (a.alg.Ok? && a.alg.value !in {"vegas", "bbr", "dctcp"} ==> err.None?)
  {
    NamesDiffer();
  }

  lemma CollectGroup(raw: L.Content, a: Answers, key: CCKey)
    ensures var t := Collect(raw, a).0;
            && (Group(key) == "vegas" ==> t.vegas == if a.alg == Ok("vegas") && a.vegas.Ok? then Some(a.vegas.value) else None)
            && (Group(key) == "bbr" ==> t.bbr == if a.alg == Ok("bbr") && a.bbr.Ok? then Some(a.bbr.value) else None)
            && (Group(key) == "dctcp" ==> t.dctcp == if a.alg == Ok("dctcp") && a.dctcp.Ok? then Some(a.dctcp.value) else None)
  {
    NamesDiffer();
  }

  /** A group field is Valid exactly when the algorithm is its own and its call succeeded, and then has that call's number. */
  lemma GroupFields(flags: seq<bool>, a: Answers, key: CCKey)
    requires |flags| == 13 && flags[AT_2_6_2] && a.raw.Ok?
    ensures var sys := GetTCPInfo(flags, a).0;
            && sys.Some?
            && sys.value.cc.Get(key) == if a.alg == Ok(Group(key)) && Answered(a, key).Some? then Nullable(true, Answered(a, key).value)
                                        else Nullable(false, 0)
  {
    var t := Collect(a.raw.value, a).0;
    NamesDiffer();
    CollectKeeps(a.raw.value, a);
    CollectGroup(a.raw.value, a, key);
    GroupOf(flags, t, key);
    CCTable(flags, t, key);
    if UnpackCC(flags, t).cc.Get(key).valid {
      SaysAnswer(t, a, key);
    }
  }

  lemma SaysAnswer(t: TCPInfoPlusCC, a: Answers, key: CCKey)
    requires Group(key) == "vegas" ==> a.vegas.Ok? && t.vegas == Some(a.vegas.value)
    requires Group(key) == "bbr" ==> a.bbr.Ok? && t.bbr == Some(a.bbr.value)
    requires Group(key) == "dctcp" ==> a.dctcp.Ok? && t.dctcp == Some(a.dctcp.value)
    ensures Answered(a, key) == Some(CCSays(t, key))
  {
    NamesDiffer();
  }

  /** Which fields the data of an algorithm makes Valid. */
  lemma GroupOf(flags: seq<bool>, t: TCPInfoPlusCC, key: CCKey)
    requires |flags| == 13
    ensures UnpackCC(flags, t).cc.Get(key).valid <==>
              && t.alg == Group(key)
              && (Group(key) == "vegas" ==> t.vegas.Some?)
              && (Group(key) == "bbr" ==> t.bbr.Some?)
              && (Group(key) == "dctcp" ==> t.dctcp.Some?)
  {
    NamesDiffer();
  }
}
