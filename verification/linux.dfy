/** The Linux pipeline: from the kernel version to an unpacked tcp_info. */
module Linux {
  import opened SysInfoModel
  import opened Kernel
  import opened Adapt
  import opened Options
  import L = Layout

  // ---- The version table ----

  const AT_2_6_2: nat := 0
  const AT_3_15: nat := 1
  const AT_4_1: nat := 2
  const AT_4_2: nat := 3
  const AT_4_6: nat := 4
  const AT_4_9: nat := 5
  const AT_4_10: nat := 6
  const AT_4_18: nat := 7
  const AT_4_19: nat := 8
  const AT_5_4: nat := 9
  const AT_5_5: nat := 10
  const AT_6_2: nat := 11
  const AT_6_7: nat := 12

  function V(kernel: int, major: int, minor: int): VersionInfo {
    VersionInfo(kernel, major, minor, "")
  }

  /** tcpInfoSizes. The 4.9 row asks for 148 bytes, less than the row before it. */
  const TABLE: seq<Row> := [
    Row(V(2, 6, 2), 104),
    Row(V(3, 15, 0), 120),
    Row(V(4, 1, 0), 136),
    Row(V(4, 2, 0), 144),
    Row(V(4, 6, 0), 160),
    Row(V(4, 9, 0), 148),
    Row(V(4, 10, 0), 192),
    Row(V(4, 18, 0), 200),
    Row(V(4, 19, 0), 224),
    Row(V(5, 4, 0), 232),
    Row(V(5, 5, 0), 232),
    Row(V(6, 2, 0), 240),
    Row(V(6, 7, 0), 248)]

  lemma TableAscends()
    ensures |TABLE| == 13 && Ascending(TABLE)
  {
    AscendingFromNeighbours(TABLE);
  }

  // ---- Which raw field each unpacked field reads, how, and since when ----

  datatype How = Whole | Micros | LowNibble | HighNibble | FirstBit | NextTwoBits

  /** `since` is the table row whose flag makes the field Valid; plain fields are always read. */
  datatype Source = Source(since: nat, field: L.Field, how: How)

  const MICROSECOND: nat := 1000

  function Convert(how: How, x: nat): nat {
    match how
    case Whole => x
    case Micros => x * MICROSECOND
    case LowNibble => x % 16
    case HighNibble => x / 16
    case FirstBit => x % 2
    case NextTwoBits => x / 2 % 4
  }

  function PlainSource(p: Plain): Source {
    match p
    case State => Source(AT_2_6_2, L.State, Whole)
    case CAState => Source(AT_2_6_2, L.CaState, Whole)
    case Retransmits => Source(AT_2_6_2, L.Retransmits, Whole)
    case Probes => Source(AT_2_6_2, L.Probes, Whole)
    case Backoff => Source(AT_2_6_2, L.Backoff, Whole)
    case TxWindowScale => Source(AT_2_6_2, L.Bitfield0, LowNibble)
    case RxWindowScale => Source(AT_2_6_2, L.Bitfield0, HighNibble)
    case RTO => Source(AT_2_6_2, L.Rto, Micros)
    case ATO => Source(AT_2_6_2, L.Ato, Micros)
    case TxMSS => Source(AT_2_6_2, L.SndMss, Whole)
    case RxMSS => Source(AT_2_6_2, L.RcvMss, Whole)
    case UnAcked => Source(AT_2_6_2, L.Unacked, Whole)
    case Sacked => Source(AT_2_6_2, L.Sacked, Whole)
    case Lost => Source(AT_2_6_2, L.Lost, Whole)
    case Retrans => Source(AT_2_6_2, L.Retrans, Whole)
    case Fackets => Source(AT_2_6_2, L.Fackets, Whole)
    case LastTxAt => Source(AT_2_6_2, L.LastDataSent, Micros)
    case LastTxAckAt => Source(AT_2_6_2, L.LastAckSent, Micros)
    case LastRxAt => Source(AT_2_6_2, L.LastDataRecv, Micros)
    case LastRxAckAt => Source(AT_2_6_2, L.LastAckRecv, Micros)
    case PMTU => Source(AT_2_6_2, L.Pmtu, Whole)
    case RxSSThreshold => Source(AT_2_6_2, L.RcvSsthresh, Whole)
    case RTT => Source(AT_2_6_2, L.Rtt, Micros)
    case RTTVar => Source(AT_2_6_2, L.Rttvar, Micros)
    case TxSSThreshold => Source(AT_2_6_2, L.SndSsthresh, Whole)
    case TxCWindow => Source(AT_2_6_2, L.SndCwnd, Whole)
    case AdvMSS => Source(AT_2_6_2, L.Advmss, Whole)
    case Reordering => Source(AT_2_6_2, L.Reordering, Whole)
    case RxRTT => Source(AT_2_6_2, L.RcvRtt, Micros)
    case RxSpace => Source(AT_2_6_2, L.RcvSpace, Whole)
    case TotalRetrans => Source(AT_2_6_2, L.TotalRetrans, Whole)
  }

  function KeySource(key: Key): (s: Source)
    ensures s.since < 13
  {
    match key
    case DeliveryRateAppLimited => Source(AT_4_9, L.Bitfield1, FirstBit)
    case FastOpenClientFail => Source(AT_5_5, L.Bitfield1, NextTwoBits)
    case PacingRate => Source(AT_3_15, L.PacingRate, Whole)
    case MaxPacingRate => Source(AT_3_15, L.MaxPacingRate, Whole)
    case BytesAcked => Source(AT_4_1, L.BytesAcked, Whole)
    case BytesReceived => Source(AT_4_1, L.BytesReceived, Whole)
    case SegsOut => Source(AT_4_2, L.SegsOut, Whole)
    case SegsIn => Source(AT_4_2, L.SegsIn, Whole)
    case NotSentBytes => Source(AT_4_6, L.NotsentBytes, Whole)
    case MinRTT => Source(AT_4_6, L.MinRtt, Micros)
    case DataSegsIn => Source(AT_4_6, L.DataSegsIn, Whole)
    case DataSegsOut => Source(AT_4_6, L.DataSegsOut, Whole)
    case DeliveryRate => Source(AT_4_9, L.DeliveryRate, Whole)
    case BusyTime => Source(AT_4_10, L.BusyTime, Whole)
    case RxWindowLimited => Source(AT_4_10, L.RwndLimited, Whole)
    case TxBufferLimited => Source(AT_4_10, L.SndbufLimited, Whole)
    case Delivered => Source(AT_4_18, L.Delivered, Whole)
    case DeliveredCE => Source(AT_4_18, L.DeliveredCe, Whole)
    case BytesSent => Source(AT_4_19, L.BytesSent, Whole)
    case BytesRetrans => Source(AT_4_19, L.BytesRetrans, Whole)
    case DSACKDups => Source(AT_4_19, L.DsackDups, Whole)
    case ReordSeen => Source(AT_4_19, L.ReordSeen, Whole)
    case RxOutOfOrder => Source(AT_5_4, L.RcvOoopack, Whole)
    case TxWindow => Source(AT_5_4, L.SndWnd, Whole)
    case RxWindow => Source(AT_6_2, L.RcvWnd, Whole)
    case Rehash => Source(AT_6_2, L.Rehash, Whole)
    case TotalRTO => Source(AT_6_2, L.TotalRto, Whole)
    case TotalRTORecoveries => Source(AT_6_2, L.TotalRtoRecoveries, Whole)
    case TotalRTOTime => Source(AT_6_2, L.TotalRtoTime, Whole)
  }

  function StateName(x: nat): string {
    match x
    case 1 => "ESTABLISHED"
    case 2 => "SYN_SENT"
    case 3 => "SYN_RECV"
    case 4 => "FIN_WAIT1"
    case 5 => "FIN_WAIT2"
    case 6 => "TIME_WAIT"
    case 7 => "CLOSE"
    case 8 => "CLOSE_WAIT"
    case 9 => "LAST_ACK"
    case 10 => "LISTEN"
    case 11 => "CLOSING"
    case _ => ""
  }

  const ABSENT := Nullable(false, 0)

  /** A nullable that is Valid, and carries its value, only on kernels that provide it. */
  function When(provided: bool, x: nat): Nullable {
    if provided then Nullable(true, x) else ABSENT
  }

  function KernelNullable(flags: seq<bool>, raw: L.Content, key: Key): Nullable
    requires |flags| == 13
  {
    var s := KeySource(key);
    When(flags[s.since], Convert(s.how, raw(s.field)))
  }

  const NO_CC := CCFields(
    ABSENT, ABSENT, ABSENT, ABSENT, ABSENT, ABSENT, ABSENT, ABSENT, ABSENT, ABSENT, ABSENT, ABSENT, ABSENT,
    ABSENT)

  function PlainValue(raw: L.Content, p: Plain): nat {
    Convert(PlainSource(p).how, raw(PlainSource(p).field))
  }

  /** The unconditional fields of an unpacked struct. */
  function PlainOf(raw: L.Content): PlainFields {
    PlainFields(
      state := raw(L.State),
      caState := raw(L.CaState),
      retransmits := raw(L.Retransmits),
      probes := raw(L.Probes),
      backoff := raw(L.Backoff),
      txWindowScale := raw(L.Bitfield0) % 16,
      rxWindowScale := raw(L.Bitfield0) / 16,
      rto := raw(L.Rto) * MICROSECOND,
      ato := raw(L.Ato) * MICROSECOND,
      txMSS := raw(L.SndMss),
      rxMSS := raw(L.RcvMss),
      unAcked := raw(L.Unacked),
      sacked := raw(L.Sacked),
      lost := raw(L.Lost),
      retrans := raw(L.Retrans),
      fackets := raw(L.Fackets),
      lastTxAt := raw(L.LastDataSent) * MICROSECOND,
      lastTxAckAt := raw(L.LastAckSent) * MICROSECOND,
      lastRxAt := raw(L.LastDataRecv) * MICROSECOND,
      lastRxAckAt := raw(L.LastAckRecv) * MICROSECOND,
      pmtu := raw(L.Pmtu),
      rxSSThreshold := raw(L.RcvSsthresh),
      rtt := raw(L.Rtt) * MICROSECOND,
      rttVar := raw(L.Rttvar) * MICROSECOND,
      txSSThreshold := raw(L.SndSsthresh),
      txCWindow := raw(L.SndCwnd),
      advMSS := raw(L.Advmss),
      reordering := raw(L.Reordering),
      rxRTT := raw(L.RcvRtt) * MICROSECOND,
      rxSpace := raw(L.RcvSpace),
      totalRetrans := raw(L.TotalRetrans))
  }

  const NO_NULLABLE := NullableFields(
    ABSENT, ABSENT, ABSENT, ABSENT, ABSENT, ABSENT, ABSENT, ABSENT, ABSENT, ABSENT, ABSENT, ABSENT, ABSENT,
    ABSENT, ABSENT, ABSENT, ABSENT, ABSENT, ABSENT, ABSENT, ABSENT, ABSENT, ABSENT, ABSENT, ABSENT, ABSENT,
    ABSENT, ABSENT, ABSENT)

  /** The version-dependent fields up to the delivery rate. */
  function OlderOf(flags: seq<bool>, raw: L.Content, u: NullableFields): NullableFields
    requires |flags| == 13
  {
    u.(
      deliveryRateAppLimited := When(flags[AT_4_9], raw(L.Bitfield1) % 2),
      fastOpenClientFail := When(flags[AT_5_5], raw(L.Bitfield1) / 2 % 4),
      pacingRate := When(flags[AT_3_15], raw(L.PacingRate)),
      maxPacingRate := When(flags[AT_3_15], raw(L.MaxPacingRate)),
      bytesAcked := When(flags[AT_4_1], raw(L.BytesAcked)),
      bytesReceived := When(flags[AT_4_1], raw(L.BytesReceived)),
      segsOut := When(flags[AT_4_2], raw(L.SegsOut)),
      segsIn := When(flags[AT_4_2], raw(L.SegsIn)),
      notSentBytes := When(flags[AT_4_6], raw(L.NotsentBytes)),
      minRTT := When(flags[AT_4_6], raw(L.MinRtt) * MICROSECOND),
      dataSegsIn := When(flags[AT_4_6], raw(L.DataSegsIn)),
      dataSegsOut := When(flags[AT_4_6], raw(L.DataSegsOut)),
      deliveryRate := When(flags[AT_4_9], raw(L.DeliveryRate)))
  }

  /** The version-dependent fields from the busy time on. */
  function NewerOf(flags: seq<bool>, raw: L.Content, u: NullableFields): NullableFields
    requires |flags| == 13
  {
    u.(
      busyTime := When(flags[AT_4_10], raw(L.BusyTime)),
      rxWindowLimited := When(flags[AT_4_10], raw(L.RwndLimited)),
      txBufferLimited := When(flags[AT_4_10], raw(L.SndbufLimited)),
      delivered := When(flags[AT_4_18], raw(L.Delivered)),
      deliveredCE := When(flags[AT_4_18], raw(L.DeliveredCe)),
      bytesSent := When(flags[AT_4_19], raw(L.BytesSent)),
      bytesRetrans := When(flags[AT_4_19], raw(L.BytesRetrans)),
      dsackDups := When(flags[AT_4_19], raw(L.DsackDups)),
      reordSeen := When(flags[AT_4_19], raw(L.ReordSeen)),
      rxOutOfOrder := When(flags[AT_5_4], raw(L.RcvOoopack)),
      txWindow := When(flags[AT_5_4], raw(L.SndWnd)),
      rxWindow := When(flags[AT_6_2], raw(L.RcvWnd)),
      rehash := When(flags[AT_6_2], raw(L.Rehash)),
      totalRTO := When(flags[AT_6_2], raw(L.TotalRto)),
      totalRTORecoveries := When(flags[AT_6_2], raw(L.TotalRtoRecoveries)),
      totalRTOTime := When(flags[AT_6_2], raw(L.TotalRtoTime)))
  }

  function NullableOf(flags: seq<bool>, raw: L.Content): NullableFields
    requires |flags| == 13
  {
    NewerOf(flags, raw, OlderOf(flags, raw, NO_NULLABLE))
  }

  /** Each plain field reads the raw field, in the way, that PlainSource gives. */
  lemma PlainTable(raw: L.Content, p: Plain)
    ensures PlainOf(raw).Get(p) == PlainValue(raw, p)
  {
  }

  /** The keys of the fields up to the delivery rate. */
  predicate Older(key: Key) {
    KeySource(key).since <= AT_4_9 || key.FastOpenClientFail?
  }

  lemma OlderTable(flags: seq<bool>, raw: L.Content, u: NullableFields, key: Key)
    requires |flags| == 13
    ensures OlderOf(flags, raw, u).Get(key) == if Older(key) then KernelNullable(flags, raw, key) else u.Get(key)
  {
  }

  lemma NewerTable(flags: seq<bool>, raw: L.Content, u: NullableFields, key: Key)
    requires |flags| == 13
    ensures NewerOf(flags, raw, u).Get(key) == if Older(key) then u.Get(key) else KernelNullable(flags, raw, key)
  {
  }

  /** Each nullable field is Valid by the flag, and reads the raw field, that KeySource gives. */
  lemma NullableTable(flags: seq<bool>, raw: L.Content, key: Key)
    requires |flags| == 13
    ensures NullableOf(flags, raw).Get(key) == KernelNullable(flags, raw, key)
  {
  }

  function LinuxOptions(options: nat, window: nat): seq<TcpOption> {
    TablesWellFormed();
    OptionsOf(LINUX, options, window)
  }

  /** What Unpack must produce. */
  function Unpacked(flags: seq<bool>, raw: L.Content): SysInfo
    requires |flags| == 13
  {
    SysInfo(
      StateName(raw(L.State)),
      PlainOf(raw),
      NullableOf(flags, raw),
      NO_CC,
      LinuxOptions(raw(L.Options), raw(L.SndWnd)),
      LinuxOptions(raw(L.Options), raw(L.RcvWnd)),
      "")
  }

  /** The guarded assignments of RawTCPInfo.Unpack up to the delivery rate. */
  method UnpackOlder(flags: seq<bool>, raw: L.Content, before: NullableFields) returns (u: NullableFields)
    requires |flags| == 13
    ensures forall key: Key :: u.Get(key) == if Older(key) then KernelNullable(flags, raw, key) else before.Get(key)
  {
    var deliveryRateAppLimited := ABSENT;
    if flags[AT_4_9] {
      deliveryRateAppLimited := Nullable(true, raw(L.Bitfield1) % 2);
    }
    var fastOpenClientFail := ABSENT;
    if flags[AT_5_5] {
      fastOpenClientFail := Nullable(true, raw(L.Bitfield1) / 2 % 4);
    }
    var pacingRate, maxPacingRate := ABSENT, ABSENT;
    if flags[AT_3_15] {
      pacingRate := Nullable(true, raw(L.PacingRate));
      maxPacingRate := Nullable(true, raw(L.MaxPacingRate));
    }
    var bytesAcked, bytesReceived := ABSENT, ABSENT;
    if flags[AT_4_1] {
      bytesAcked := Nullable(true, raw(L.BytesAcked));
      bytesReceived := Nullable(true, raw(L.BytesReceived));
    }
    var segsOut, segsIn := ABSENT, ABSENT;
    if flags[AT_4_2] {
      segsOut := Nullable(true, raw(L.SegsOut));
      segsIn := Nullable(true, raw(L.SegsIn));
    }
    var notSentBytes, minRTT, dataSegsIn, dataSegsOut := ABSENT, ABSENT, ABSENT, ABSENT;
    if flags[AT_4_6] {
      notSentBytes := Nullable(true, raw(L.NotsentBytes));
      minRTT := Nullable(true, raw(L.MinRtt) * MICROSECOND);
      dataSegsIn := Nullable(true, raw(L.DataSegsIn));
      dataSegsOut := Nullable(true, raw(L.DataSegsOut));
    }
    var deliveryRate := ABSENT;
    if flags[AT_4_9] {
      deliveryRate := Nullable(true, raw(L.DeliveryRate));
    }
    u := before.(deliveryRateAppLimited := deliveryRateAppLimited, fastOpenClientFail := fastOpenClientFail,
      pacingRate := pacingRate, maxPacingRate := maxPacingRate, bytesAcked := bytesAcked,
      bytesReceived := bytesReceived, segsOut := segsOut, segsIn := segsIn, notSentBytes := notSentBytes,
      minRTT := minRTT, dataSegsIn := dataSegsIn, dataSegsOut := dataSegsOut, deliveryRate := deliveryRate);
    forall key: Key ensures u.Get(key) == if Older(key) then KernelNullable(flags, raw, key) else before.Get(key) {
      OlderTable(flags, raw, before, key);
    }
  }

  /** The guarded assignments of RawTCPInfo.Unpack from the busy time on. */
  method UnpackNewer(flags: seq<bool>, raw: L.Content, before: NullableFields) returns (u: NullableFields)
    requires |flags| == 13
    ensures forall key: Key :: u.Get(key) == if Older(key) then before.Get(key) else KernelNullable(flags, raw, key)
  {
    var busyTime, rxWindowLimited, txBufferLimited := ABSENT, ABSENT, ABSENT;
    if flags[AT_4_10] {
      busyTime := Nullable(true, raw(L.BusyTime));
      rxWindowLimited := Nullable(true, raw(L.RwndLimited));
      txBufferLimited := Nullable(true, raw(L.SndbufLimited));
    }
    var delivered, deliveredCE := ABSENT, ABSENT;
    if flags[AT_4_18] {
      delivered := Nullable(true, raw(L.Delivered));
      deliveredCE := Nullable(true, raw(L.DeliveredCe));
    }
    var bytesSent, bytesRetrans, dsackDups, reordSeen := ABSENT, ABSENT, ABSENT, ABSENT;
    if flags[AT_4_19] {
      bytesSent := Nullable(true, raw(L.BytesSent));
      bytesRetrans := Nullable(true, raw(L.BytesRetrans));
      dsackDups := Nullable(true, raw(L.DsackDups));
      reordSeen := Nullable(true, raw(L.ReordSeen));
    }
    var rxOutOfOrder, txWindow := ABSENT, ABSENT;
    if flags[AT_5_4] {
      rxOutOfOrder := Nullable(true, raw(L.RcvOoopack));
      txWindow := Nullable(true, raw(L.SndWnd));
    }
    var rxWindow, rehash, totalRTO, totalRTORecoveries, totalRTOTime := ABSENT, ABSENT, ABSENT, ABSENT, ABSENT;
    if flags[AT_6_2] {
      rxWindow := Nullable(true, raw(L.RcvWnd));
      rehash := Nullable(true, raw(L.Rehash));
      totalRTO := Nullable(true, raw(L.TotalRto));
      totalRTORecoveries := Nullable(true, raw(L.TotalRtoRecoveries));
      totalRTOTime := Nullable(true, raw(L.TotalRtoTime));
    }
    u := before.(busyTime := busyTime, rxWindowLimited := rxWindowLimited, txBufferLimited := txBufferLimited,
      delivered := delivered, deliveredCE := deliveredCE, bytesSent := bytesSent, bytesRetrans := bytesRetrans,
      dsackDups := dsackDups, reordSeen := reordSeen, rxOutOfOrder := rxOutOfOrder, txWindow := txWindow,
      rxWindow := rxWindow, rehash := rehash, totalRTO := totalRTO, totalRTORecoveries := totalRTORecoveries,
      totalRTOTime := totalRTOTime);
    forall key: Key ensures u.Get(key) == if Older(key) then before.Get(key) else KernelNullable(flags, raw, key) {
      NewerTable(flags, raw, before, key);
    }
  }

  /** Times are read as microseconds and reported in nanoseconds. */
  lemma TimesInNanoseconds(flags: seq<bool>, raw: L.Content)
    requires |flags| == 13
    ensures var u := Unpacked(flags, raw);
            && u.plain.rtt == 1000 * raw(L.Rtt) && u.plain.rttVar == 1000 * raw(L.Rttvar)
            && u.plain.rto == 1000 * raw(L.Rto) && u.plain.ato == 1000 * raw(L.Ato)
            && u.plain.lastTxAt == 1000 * raw(L.LastDataSent) && u.plain.lastTxAckAt == 1000 * raw(L.LastAckSent)
            && u.plain.lastRxAt == 1000 * raw(L.LastDataRecv) && u.plain.lastRxAckAt == 1000 * raw(L.LastAckRecv)
            && u.plain.rxRTT == 1000 * raw(L.RcvRtt)
            && (u.nullable.minRTT.valid ==> u.nullable.minRTT.value == 1000 * raw(L.MinRtt))
  {
  }

  /** The states in the order of the kernel's enumeration, which starts at one. */
  const STATE_NAMES := [
    "ESTABLISHED", "SYN_SENT", "SYN_RECV", "FIN_WAIT1", "FIN_WAIT2", "TIME_WAIT", "CLOSE", "CLOSE_WAIT", "LAST_ACK",
    "LISTEN", "CLOSING"]

  /** A state has its place in the enumeration as its number; other numbers have no name. */
  lemma StatesAreNumbered(x: nat)
    ensures StateName(x) == if 1 <= x <= |STATE_NAMES| then STATE_NAMES[x - 1] else ""
  {
  }

  /** Records with the same fields are the same. */
  lemma SameFields(a: NullableFields, b: NullableFields)
    requires forall key: Key :: a.Get(key) == b.Get(key)
    ensures a == b
  {
    SameFields1(a, b);
    SameFields2(a, b);
    SameFields3(a, b);
    SameFields4(a, b);
  }

  lemma SameFields1(a: NullableFields, b: NullableFields)
    requires forall key: Key :: a.Get(key) == b.Get(key)
    ensures a.deliveryRateAppLimited == b.deliveryRateAppLimited && a.fastOpenClientFail == b.fastOpenClientFail && a.pacingRate == b.pacingRate && a.maxPacingRate == b.maxPacingRate
    ensures a.bytesAcked == b.bytesAcked && a.bytesReceived == b.bytesReceived && a.segsOut == b.segsOut && a.segsIn == b.segsIn
  {
    assert a.Get(DeliveryRateAppLimited) == b.Get(DeliveryRateAppLimited);
    assert a.Get(FastOpenClientFail) == b.Get(FastOpenClientFail);
    assert a.Get(PacingRate) == b.Get(PacingRate);
    assert a.Get(MaxPacingRate) == b.Get(MaxPacingRate);
    assert a.Get(BytesAcked) == b.Get(BytesAcked);
    assert a.Get(BytesReceived) == b.Get(BytesReceived);
    assert a.Get(SegsOut) == b.Get(SegsOut);
    assert a.Get(SegsIn) == b.Get(SegsIn);
  }

  lemma SameFields2(a: NullableFields, b: NullableFields)
    requires forall key: Key :: a.Get(key) == b.Get(key)
    ensures a.notSentBytes == b.notSentBytes && a.minRTT == b.minRTT && a.dataSegsIn == b.dataSegsIn && a.dataSegsOut == b.dataSegsOut
    ensures a.deliveryRate == b.deliveryRate && a.busyTime == b.busyTime && a.rxWindowLimited == b.rxWindowLimited
  {
    assert a.Get(NotSentBytes) == b.Get(NotSentBytes);
    assert a.Get(MinRTT) == b.Get(MinRTT);
    assert a.Get(DataSegsIn) == b.Get(DataSegsIn);
    assert a.Get(DataSegsOut) == b.Get(DataSegsOut);
    assert a.Get(DeliveryRate) == b.Get(DeliveryRate);
    assert a.Get(BusyTime) == b.Get(BusyTime);
    assert a.Get(RxWindowLimited) == b.Get(RxWindowLimited);
  }

  lemma SameFields3(a: NullableFields, b: NullableFields)
    requires forall key: Key :: a.Get(key) == b.Get(key)
    ensures a.txBufferLimited == b.txBufferLimited && a.delivered == b.delivered && a.deliveredCE == b.deliveredCE && a.bytesSent == b.bytesSent
    ensures a.bytesRetrans == b.bytesRetrans && a.dsackDups == b.dsackDups && a.reordSeen == b.reordSeen
  {
    assert a.Get(TxBufferLimited) == b.Get(TxBufferLimited);
    assert a.Get(Delivered) == b.Get(Delivered);
    assert a.Get(DeliveredCE) == b.Get(DeliveredCE);
    assert a.Get(BytesSent) == b.Get(BytesSent);
    assert a.Get(BytesRetrans) == b.Get(BytesRetrans);
    assert a.Get(DSACKDups) == b.Get(DSACKDups);
    assert a.Get(ReordSeen) == b.Get(ReordSeen);
  }

  lemma SameFields4(a: NullableFields, b: NullableFields)
    requires forall key: Key :: a.Get(key) == b.Get(key)
    ensures a.rxOutOfOrder == b.rxOutOfOrder && a.txWindow == b.txWindow && a.rxWindow == b.rxWindow && a.rehash == b.rehash
    ensures a.totalRTO == b.totalRTO && a.totalRTORecoveries == b.totalRTORecoveries && a.totalRTOTime == b.totalRTOTime
  {
    assert a.Get(RxOutOfOrder) == b.Get(RxOutOfOrder);
    assert a.Get(TxWindow) == b.Get(TxWindow);
    assert a.Get(RxWindow) == b.Get(RxWindow);
    assert a.Get(Rehash) == b.Get(Rehash);
    assert a.Get(TotalRTO) == b.Get(TotalRTO);
    assert a.Get(TotalRTORecoveries) == b.Get(TotalRTORecoveries);
    assert a.Get(TotalRTOTime) == b.Get(TotalRTOTime);
  }

  /** RawTCPInfo.Unpack. */
  method Unpack(flags: seq<bool>, raw: L.Content) returns (u: SysInfo)
    requires |flags| == 13
    ensures u == Unpacked(flags, raw)
    ensures forall p: Plain :: u.plain.Get(p) == PlainValue(raw, p)
    ensures forall key: Key :: u.nullable.Get(key) == KernelNullable(flags, raw, key)
  {
    TablesWellFormed();
    var older := UnpackOlder(flags, raw, NO_NULLABLE);
    var nullable := UnpackNewer(flags, raw, older);
    var tx, rx := UnpackOptions(LINUX, raw(L.Options), raw(L.SndWnd), raw(L.RcvWnd));
    u := SysInfo(StateName(raw(L.State)), PlainOf(raw), nullable, NO_CC, tx, rx, "");
    forall p: Plain ensures u.plain.Get(p) == PlainValue(raw, p) {
      PlainTable(raw, p);
    }
    forall key: Key ensures nullable.Get(key) == KernelNullable(flags, raw, key) == NullableOf(flags, raw).Get(key) {
      NullableTable(flags, raw, key);
    }
    SameFields(nullable, NullableOf(flags, raw));
  }
}
