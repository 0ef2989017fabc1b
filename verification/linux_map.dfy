/** The keys of SysInfo.ToMap. */
module LinuxMap {
  import opened SysInfoModel
  import opened Kernel
  import opened Adapt
  import opened Linux
  import opened LinuxTruth
  import opened LinuxCC
  import L = Layout

  /** The keys that are always there: those of the oldest struct, in two lots. */
  const FIRST_NAMES: set<string> := {
    "state", "caState", "retransmits", "probes", "backoff", "txOptions", "rxOptions", "txWindowScale",
    "rxWindowScale", "rto", "ato", "txMSS", "rxMSS", "unAcked", "sacked", "lost", "retrans"}

  const SECOND_NAMES: set<string> := {
    "fackets", "lastTxAt", "lastTxAckAt", "lastRxAt", "lastRxAckAt", "pmtu", "rxSSThreshold", "rtt", "rttVar",
    "txSSThreshold", "txCWindow", "advMSS", "reordering", "rxRTT", "rxSpace", "totalRetrans", "ccAlgorithm"}

  const FIXED_NAMES: set<string> := FIRST_NAMES + SECOND_NAMES

  function KeyName(key: Key): string {
    match key
    case DeliveryRateAppLimited => "deliveryRateAppLimited"
    case FastOpenClientFail => "fastOpenClientFail"
    case PacingRate => "pacingRate"
    case MaxPacingRate => "maxPacingRate"
    case BytesAcked => "bytesAcked"
    case BytesReceived => "bytesReceived"
    case SegsOut => "segsOut"
    case SegsIn => "segsIn"
    case NotSentBytes => "notSentBytes"
    case MinRTT => "minRTT"
    case DataSegsIn => "dataSegsIn"
    case DataSegsOut => "dataSegsOut"
    case DeliveryRate => "deliveryRate"
    case BusyTime => "busyTime"
    case RxWindowLimited => "rxWindowLimited"
    case TxBufferLimited => "txBufferLimited"
    case Delivered => "delivered"
    case DeliveredCE => "deliveredCE"
    case BytesSent => "bytesSent"
    case BytesRetrans => "bytesRetrans"
    case DSACKDups => "dsackDups"
    case ReordSeen => "reordSeen"
    case RxOutOfOrder => "rxOutOfOrder"
    case TxWindow => "txWindow"
    case RxWindow => "rxWindow"
    case Rehash => "rehash"
    case TotalRTO => "totalRTO"
    case TotalRTORecoveries => "totalRTORecoveries"
    case TotalRTOTime => "totalRTOTime"
  }

  function CCKeyName(key: CCKey): string {
    match key
    case CCVegasEnabled => "ccVegasEnabled"
    case CCVegasRTTCnt => "ccVegasRTTCnt"
    case CCVegasRTT => "ccVegasRTT"
    case CCVegasRTTMin => "ccVegasRTTMin"
    case CCBBRBwLo => "ccBBRBwLo"
    case CCBBRBwHi => "ccBBRBwHi"
    case CCBBRMinRTT => "ccBBRMinRTT"
    case CCBBRPacingGain => "ccBBRPacingGain"
    case CCBBRCWindowGain => "ccBBRCWindowGain"
    case CCDCTCPEnabled => "ccDCTCPEnabled"
    case CCDCTCPCEState => "ccDCTCPCEState"
    case CCDCTCPAlpha => "ccDCTCPAlpha"
    case CCDCTCPABECN => "ccDCTCPABECN"
    case CCDCTCPABTOT => "ccDCTCPABTOT"
  }

  /** The keys that ToMap emits: the fixed ones, and those of the Valid fields. */
  function ToMapKeys(u: SysInfo): set<string> {
    FIXED_NAMES
    + (set key: Key | u.nullable.Get(key).valid :: KeyName(key))
    + (set key: CCKey | u.cc.Get(key).valid :: CCKeyName(key))
  }

  // ---- The names are all different ----

  /** A number that tells the names apart: from the length, and the first, fifth and last character. */
  function Mark(s: string): int {
    if s == [] then 0
    else |s| + 11 * s[0] as int + (if |s| > 4 then 5 * s[4] as int else 0) + 11 * s[|s| - 1] as int
  }

  /** What a name stands for. */
  datatype Meaning = Fixed | Versioned(key: Key) | Congestion(cc: CCKey)

  function MeaningOf(m: int): Meaning {
    if m < 2802 then
      if m < 2663 then
        if m < 2549 then
          if m < 2445 then
            if m < 2434 then
              if m == 2379 then Congestion(CCDCTCPABECN) else Fixed
            else
              if m == 2434 then Congestion(CCBBRMinRTT) else Fixed
          else
            if m < 2460 then
              if m == 2445 then Congestion(CCDCTCPABTOT) else Fixed
            else
              if m < 2538 then
                if m == 2460 then Versioned(DeliveredCE) else Fixed
              else
                if m == 2538 then Congestion(CCVegasRTT) else Fixed
        else
          if m < 2617 then
            if m < 2588 then
              if m == 2549 then Versioned(MinRTT) else Fixed
            else
              if m == 2588 then Congestion(CCDCTCPAlpha) else Fixed
          else
            if m < 2623 then
              if m == 2617 then Versioned(BusyTime) else Fixed
            else
              if m < 2634 then
                if m == 2623 then Congestion(CCDCTCPEnabled) else Fixed
              else
                if m == 2634 then Congestion(CCDCTCPCEState) else Fixed
      else
        if m < 2725 then
          if m < 2718 then
            if m < 2693 then
              if m == 2663 then Congestion(CCBBRBwHi) else Fixed
            else
              if m == 2693 then Versioned(TotalRTO) else Fixed
          else
            if m < 2723 then
              if m == 2718 then Congestion(CCVegasEnabled) else Fixed
            else
              if m < 2724 then
                if m == 2723 then Versioned(FastOpenClientFail) else Fixed
              else
                if m == 2724 then Congestion(CCBBRPacingGain) else Fixed
        else
          if m < 2763 then
            if m < 2729 then
              if m == 2725 then Congestion(CCBBRCWindowGain) else Fixed
            else
              if m < 2735 then
                if m == 2729 then Congestion(CCBBRBwLo) else Fixed
              else
                if m == 2735 then Versioned(DataSegsIn) else Fixed
          else
            if m < 2766 then
              if m == 2763 then Versioned(BytesAcked) else Fixed
            else
              if m < 2799 then
                if m == 2766 then Versioned(BytesReceived) else Fixed
              else
                if m == 2799 then Versioned(Delivered) else Fixed
    else
      if m < 2930 then
        if m < 2846 then
          if m < 2812 then
            if m < 2808 then
              if m == 2802 then Versioned(DataSegsOut) else Fixed
            else
              if m == 2808 then Versioned(MaxPacingRate) else Fixed
          else
            if m < 2813 then
              if m == 2812 then Versioned(DeliveryRateAppLimited) else Fixed
            else
              if m < 2827 then
                if m == 2813 then Versioned(DeliveryRate) else Fixed
              else
                if m == 2827 then Congestion(CCVegasRTTMin) else Fixed
        else
          if m < 2903 then
            if m < 2893 then
              if m == 2846 then Versioned(SegsIn) else Fixed
            else
              if m < 2901 then
                if m == 2893 then Congestion(CCVegasRTTCnt) else Fixed
              else
                if m == 2901 then Versioned(TxBufferLimited) else Fixed
          else
            if m < 2909 then
              if m == 2903 then Versioned(PacingRate) else Fixed
            else
              if m < 2919 then
                if m == 2909 then Versioned(DSACKDups) else Fixed
              else
                if m == 2919 then Versioned(RxWindowLimited) else Fixed
      else
        if m < 2979 then
          if m < 2939 then
            if m < 2938 then
              if m == 2930 then Versioned(BytesRetrans) else Fixed
            else
              if m == 2938 then Versioned(BytesSent) else Fixed
          else
            if m < 2943 then
              if m == 2939 then Versioned(TotalRTOTime) else Fixed
            else
              if m < 2973 then
                if m == 2943 then Versioned(SegsOut) else Fixed
              else
                if m == 2973 then Versioned(ReordSeen) else Fixed
        else
          if m < 3100 then
            if m < 2992 then
              if m == 2979 then Versioned(Rehash) else Fixed
            else
              if m < 3099 then
                if m == 2992 then Versioned(NotSentBytes) else Fixed
              else
                if m == 3099 then Versioned(TotalRTORecoveries) else Fixed
          else
            if m < 3121 then
              if m == 3100 then Versioned(RxOutOfOrder) else Fixed
            else
              if m < 3143 then
                if m == 3121 then Versioned(RxWindow) else Fixed
              else
                if m == 3143 then Versioned(TxWindow) else Fixed
  }

  lemma KeyMeans(key: Key)
    ensures MeaningOf(Mark(KeyName(key))) == Versioned(key)
  {
    if Older(key) {
      OlderMeans(key);
    } else if KeySource(key).since <= AT_4_19 {
      MiddleMeans(key);
    } else {
      NewerMeans(key);
    }
  }

  lemma OlderMeans(key: Key)
    requires Older(key)
    ensures MeaningOf(Mark(KeyName(key))) == Versioned(key)
  {
    match key
    case DeliveryRateAppLimited => assert Mark("deliveryRateAppLimited") == 2812;
    case FastOpenClientFail => assert Mark("fastOpenClientFail") == 2723;
    case PacingRate => assert Mark("pacingRate") == 2903;
    case MaxPacingRate => assert Mark("maxPacingRate") == 2808;
    case BytesAcked => assert Mark("bytesAcked") == 2763;
    case BytesReceived => assert Mark("bytesReceived") == 2766;
    case SegsOut => assert Mark("segsOut") == 2943;
    case SegsIn => assert Mark("segsIn") == 2846;
    case NotSentBytes => assert Mark("notSentBytes") == 2992;
    case MinRTT => assert Mark("minRTT") == 2549;
    case DataSegsIn => assert Mark("dataSegsIn") == 2735;
    case DataSegsOut => assert Mark("dataSegsOut") == 2802;
    case DeliveryRate => assert Mark("deliveryRate") == 2813;
    case _ =>
  }

  lemma MiddleMeans(key: Key)
    requires !Older(key) && KeySource(key).since <= AT_4_19
    ensures MeaningOf(Mark(KeyName(key))) == Versioned(key)
  {
    match key
    case BusyTime => assert Mark("busyTime") == 2617;
    case RxWindowLimited => assert Mark("rxWindowLimited") == 2919;
    case TxBufferLimited => assert Mark("txBufferLimited") == 2901;
    case Delivered => assert Mark("delivered") == 2799;
    case DeliveredCE => assert Mark("deliveredCE") == 2460;
    case BytesSent => assert Mark("bytesSent") == 2938;
    case BytesRetrans => assert Mark("bytesRetrans") == 2930;
    case DSACKDups => assert Mark("dsackDups") == 2909;
    case ReordSeen => assert Mark("reordSeen") == 2973;
    case _ =>
  }

  lemma NewerMeans(key: Key)
    requires KeySource(key).since > AT_4_19 && !Older(key)
    ensures MeaningOf(Mark(KeyName(key))) == Versioned(key)
  {
    match key
    case RxOutOfOrder => assert Mark("rxOutOfOrder") == 3100;
    case TxWindow => assert Mark("txWindow") == 3143;
    case RxWindow => assert Mark("rxWindow") == 3121;
    case Rehash => assert Mark("rehash") == 2979;
    case TotalRTO => assert Mark("totalRTO") == 2693;
    case TotalRTORecoveries => assert Mark("totalRTORecoveries") == 3099;
    case TotalRTOTime => assert Mark("totalRTOTime") == 2939;
    case _ =>
  }

  lemma CCKeyMeans(key: CCKey)
    ensures MeaningOf(Mark(CCKeyName(key))) == Congestion(key)
  {
    match key
    case CCVegasEnabled => assert Mark("ccVegasEnabled") == 2718;
    case CCVegasRTTCnt => assert Mark("ccVegasRTTCnt") == 2893;
    case CCVegasRTT => assert Mark("ccVegasRTT") == 2538;
    case CCVegasRTTMin => assert Mark("ccVegasRTTMin") == 2827;
    case CCBBRBwLo => assert Mark("ccBBRBwLo") == 2729;
    case CCBBRBwHi => assert Mark("ccBBRBwHi") == 2663;
    case CCBBRMinRTT => assert Mark("ccBBRMinRTT") == 2434;
    case CCBBRPacingGain => assert Mark("ccBBRPacingGain") == 2724;
    case CCBBRCWindowGain => assert Mark("ccBBRCWindowGain") == 2725;
    case CCDCTCPEnabled => assert Mark("ccDCTCPEnabled") == 2623;
    case CCDCTCPCEState => assert Mark("ccDCTCPCEState") == 2634;
    case CCDCTCPAlpha => assert Mark("ccDCTCPAlpha") == 2588;
    case CCDCTCPABECN => assert Mark("ccDCTCPABECN") == 2379;
    case CCDCTCPABTOT => assert Mark("ccDCTCPABTOT") == 2445;
  }

  lemma FixedMeans(n: string)
    requires n in FIXED_NAMES
    ensures MeaningOf(Mark(n)) == Fixed
  {
    if n in FIRST_NAMES {
      FirstMeans(n);
    } else {
      SecondMeans(n);
    }
  }

  lemma FirstMeans(n: string)
    requires n in FIRST_NAMES
    ensures MeaningOf(Mark(n)) == Fixed
  {
  }

  lemma SecondMeans(n: string)
    requires n in SECOND_NAMES
    ensures MeaningOf(Mark(n)) == Fixed
  {
  }

  /** ToMap has the key of a version-dependent field exactly when the field is Valid. */
  lemma KeyInMap(u: SysInfo, key: Key)
    ensures KeyName(key) in ToMapKeys(u) <==> u.nullable.Get(key).valid
  {
    KeyMeans(key);
    if KeyName(key) in ToMapKeys(u) {
      if KeyName(key) in FIXED_NAMES {
        FixedMeans(KeyName(key));
      } else if other: Key :| u.nullable.Get(other).valid && KeyName(other) == KeyName(key) {
        KeyMeans(other);
      } else {
        var other: CCKey :| u.cc.Get(other).valid && CCKeyName(other) == KeyName(key);
        CCKeyMeans(other);
      }
    }
  }

  /** ToMap has the key of a congestion control field exactly when the field is Valid. */
  lemma CCKeyInMap(u: SysInfo, key: CCKey)
    ensures CCKeyName(key) in ToMapKeys(u) <==> u.cc.Get(key).valid
  {
    CCKeyMeans(key);
    if CCKeyName(key) in ToMapKeys(u) {
      if CCKeyName(key) in FIXED_NAMES {
        FixedMeans(CCKeyName(key));
      } else if other: CCKey :| u.cc.Get(other).valid && CCKeyName(other) == CCKeyName(key) {
        CCKeyMeans(other);
      } else {
        var other: Key :| u.nullable.Get(other).valid && KeyName(other) == CCKeyName(key);
        KeyMeans(other);
      }
    }
  }

  /** Besides them ToMap has the fixed keys, always, and no other key. */
  lemma MapKeysAre(u: SysInfo, n: string)
    ensures n in ToMapKeys(u) <==>
              || n in FIXED_NAMES
              || (exists key: Key :: n == KeyName(key) && u.nullable.Get(key).valid)
              || (exists key: CCKey :: n == CCKeyName(key) && u.cc.Get(key).valid)
  {
  }

  /** Keys are never lost when no Valid field is. */
  lemma KeysFollowFields(u: SysInfo, v: SysInfo)
    requires forall key: Key :: u.nullable.Get(key).valid ==> v.nullable.Get(key).valid
    requires forall key: CCKey :: u.cc.Get(key).valid ==> v.cc.Get(key).valid
    ensures ToMapKeys(u) <= ToMapKeys(v)
  {
  }

  /** The same algorithm and the same data of its own. */
  predicate SameCC(x: TCPInfoPlusCC, y: TCPInfoPlusCC) {
    x.alg == y.alg && x.vegas == y.vegas && x.bbr == y.bbr && x.dctcp == y.dctcp
  }

  lemma SameGroups(f: seq<bool>, g: seq<bool>, x: TCPInfoPlusCC, y: TCPInfoPlusCC)
    requires |f| == 13 && |g| == 13 && SameCC(x, y)
    ensures UnpackCC(f, x).cc == UnpackCC(g, y).cc
  {
  }

  lemma GroupsApart(f: seq<bool>, x: TCPInfoPlusCC)
    requires |f| == 13
    ensures UnpackCC(f, x).nullable == Unpacked(f, x.raw).nullable
  {
    CCTable(f, x, CCVegasEnabled);
  }

  /** What GetTCPInfo has read on a kernel of version v when its struct holds k. */
  ghost predicate ReadOn(v: VersionInfo, st: Settings, k: L.Content, x: TCPInfoPlusCC) {
    x.raw == L.Decode(Getsockopt(v, k, st.size))
  }

  /**
   A newer kernel never loses a key of ToMap: for all contents of the two structs, all earlier settings, and
   the same congestion control data.
   */
  lemma KeysGrow(a: VersionInfo, b: VersionInfo, p: Settings, q: Settings, sa: Settings, sb: Settings,
                 k: L.Content, m: L.Content, x: TCPInfoPlusCC, y: TCPInfoPlusCC)
    requires AtLeast(a, V(2, 6, 2)) && AtLeast(b, a) && L.InRange(k) && L.InRange(m)
    requires Adapted(TABLE, a, p, sa) && Adapted(TABLE, b, q, sb)
    requires ReadOn(a, sa, k, x) && ReadOn(b, sb, m, y) && SameCC(x, y)
    ensures |sa.flags| == 13 && |sb.flags| == 13
    ensures ToMapKeys(UnpackCC(sa.flags, x)) <= ToMapKeys(UnpackCC(sb.flags, y))
  {
    AtLeastIsTotalPreorder(b, a, V(2, 6, 2));
    AdaptedSettings(a, p, sa);
    AdaptedSettings(b, q, sb);
    RowGrows(a, b);
    GroupsApart(sa.flags, x);
    GroupsApart(sb.flags, y);
    SameGroups(sa.flags, sb.flags, x, y);
    forall key: Key | UnpackCC(sa.flags, x).nullable.Get(key).valid ensures UnpackCC(sb.flags, y).nullable.Get(key).valid {
      KeyObserved(a, p, sa, k, key);
      KeyObserved(b, q, sb, m, key);
    }
    KeysFollowFields(UnpackCC(sa.flags, x), UnpackCC(sb.flags, y));
  }

  /** The version from which ToMap has the key of a field: the one that added it, the premature ones excepted. */
  function KeySince(key: Key): VersionInfo {
    if Premature(key) then V(6, 2, 0) else Added(key)
  }

  /** For every supported version and every content of the struct, exactly the keys of the fields up to it are there. */
  lemma KeysExactly(v: VersionInfo, before: Settings, st: Settings, k: L.Content, x: TCPInfoPlusCC, key: Key)
    requires AtLeast(v, V(2, 6, 2)) && L.InRange(k) && Adapted(TABLE, v, before, st) && ReadOn(v, st, k, x)
    ensures |st.flags| == 13
    ensures KeyName(key) in ToMapKeys(UnpackCC(st.flags, x)) <==> AtLeast(v, KeySince(key))
  {
    AdaptedSettings(v, before, st);
    GroupsApart(st.flags, x);
    KeyInMap(UnpackCC(st.flags, x), key);
    KeyObserved(v, before, st, k, key);
    ValidSince(v, key);
  }

  lemma ValidSince(v: VersionInfo, key: Key)
    requires AtLeast(v, V(2, 6, 2))
    ensures KeySource(key).since <= RowOf(v) <==> AtLeast(v, KeySince(key))
  {
    FlagMeansAdded(key);
    RowMeans(v, KeySource(key).since);
  }

  lemma RowGrows(a: VersionInfo, b: VersionInfo)
    requires AtLeast(a, V(2, 6, 2)) && AtLeast(b, a) && AtLeast(b, V(2, 6, 2))
    ensures RowOf(a) <= RowOf(b)
  {
    RowMeans(a, RowOf(a));
    RowMeans(b, RowOf(a));
    AtLeastIsTotalPreorder(b, a, Release(RowOf(a)));
  }
}
