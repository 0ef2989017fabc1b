/** The unpacked form of the Linux tcp_info struct. */
module SysInfoModel {

  /** Fields that every supported kernel fills. */
  datatype Plain =
    | State | CAState | Retransmits | Probes | Backoff | TxWindowScale | RxWindowScale
    | RTO | ATO | TxMSS | RxMSS | UnAcked | Sacked | Lost | Retrans | Fackets
    | LastTxAt | LastTxAckAt | LastRxAt | LastRxAckAt | PMTU | RxSSThreshold | RTT | RTTVar
    | TxSSThreshold | TxCWindow | AdvMSS | Reordering | RxRTT | RxSpace | TotalRetrans

  /** Nullable fields that depend on the kernel version. */
  datatype Key =
    | DeliveryRateAppLimited | FastOpenClientFail
    | PacingRate | MaxPacingRate
    | BytesAcked | BytesReceived
    | SegsOut | SegsIn
    | NotSentBytes | MinRTT | DataSegsIn | DataSegsOut
    | DeliveryRate
    | BusyTime | RxWindowLimited | TxBufferLimited
    | Delivered | DeliveredCE
    | BytesSent | BytesRetrans | DSACKDups | ReordSeen
    | RxOutOfOrder | TxWindow
    | RxWindow | Rehash | TotalRTO | TotalRTORecoveries | TotalRTOTime

  /** Nullable fields that a congestion control algorithm fills. */
  datatype CCKey =
    | CCVegasEnabled | CCVegasRTTCnt | CCVegasRTT | CCVegasRTTMin
    | CCBBRBwLo | CCBBRBwHi | CCBBRMinRTT | CCBBRPacingGain | CCBBRCWindowGain
    | CCDCTCPEnabled | CCDCTCPCEState | CCDCTCPAlpha | CCDCTCPABECN | CCDCTCPABTOT

  /** A nullable number. Booleans are held as 0 and 1, durations in nanoseconds. */
  datatype Nullable = Nullable(valid: bool, value: nat)

  datatype TcpOption = TcpOption(kind: string, value: nat)

  datatype PlainFields = PlainFields(
    state: nat, caState: nat, retransmits: nat, probes: nat, backoff: nat, txWindowScale: nat,
    rxWindowScale: nat, rto: nat, ato: nat, txMSS: nat, rxMSS: nat, unAcked: nat, sacked: nat, lost: nat,
    retrans: nat, fackets: nat, lastTxAt: nat, lastTxAckAt: nat, lastRxAt: nat, lastRxAckAt: nat, pmtu: nat,
    rxSSThreshold: nat, rtt: nat, rttVar: nat, txSSThreshold: nat, txCWindow: nat, advMSS: nat,
    reordering: nat, rxRTT: nat, rxSpace: nat, totalRetrans: nat
  )
  {
    function Get(k: Plain): nat {
      match k
      case State => state
      case CAState => caState
      case Retransmits => retransmits
      case Probes => probes
      case Backoff => backoff
      case TxWindowScale => txWindowScale
      case RxWindowScale => rxWindowScale
      case RTO => rto
      case ATO => ato
      case TxMSS => txMSS
      case RxMSS => rxMSS
      case UnAcked => unAcked
      case Sacked => sacked
      case Lost => lost
      case Retrans => retrans
      case Fackets => fackets
      case LastTxAt => lastTxAt
      case LastTxAckAt => lastTxAckAt
      case LastRxAt => lastRxAt
      case LastRxAckAt => lastRxAckAt
      case PMTU => pmtu
      case RxSSThreshold => rxSSThreshold
      case RTT => rtt
      case RTTVar => rttVar
      case TxSSThreshold => txSSThreshold
      case TxCWindow => txCWindow
      case AdvMSS => advMSS
      case Reordering => reordering
      case RxRTT => rxRTT
      case RxSpace => rxSpace
      case TotalRetrans => totalRetrans
    }
  }

  datatype NullableFields = NullableFields(
    deliveryRateAppLimited: Nullable, fastOpenClientFail: Nullable, pacingRate: Nullable,
    maxPacingRate: Nullable, bytesAcked: Nullable, bytesReceived: Nullable, segsOut: Nullable,
    segsIn: Nullable, notSentBytes: Nullable, minRTT: Nullable, dataSegsIn: Nullable, dataSegsOut: Nullable,
    deliveryRate: Nullable, busyTime: Nullable, rxWindowLimited: Nullable, txBufferLimited: Nullable,
    delivered: Nullable, deliveredCE: Nullable, bytesSent: Nullable, bytesRetrans: Nullable,
    dsackDups: Nullable, reordSeen: Nullable, rxOutOfOrder: Nullable, txWindow: Nullable, rxWindow: Nullable,
    rehash: Nullable, totalRTO: Nullable, totalRTORecoveries: Nullable, totalRTOTime: Nullable
  )
  {
    function Get(k: Key): Nullable {
      match k
      case DeliveryRateAppLimited => deliveryRateAppLimited
      case FastOpenClientFail => fastOpenClientFail
      case PacingRate => pacingRate
      case MaxPacingRate => maxPacingRate
      case BytesAcked => bytesAcked
      case BytesReceived => bytesReceived
      case SegsOut => segsOut
      case SegsIn => segsIn
      case NotSentBytes => notSentBytes
      case MinRTT => minRTT
      case DataSegsIn => dataSegsIn
      case DataSegsOut => dataSegsOut
      case DeliveryRate => deliveryRate
      case BusyTime => busyTime
      case RxWindowLimited => rxWindowLimited
      case TxBufferLimited => txBufferLimited
      case Delivered => delivered
      case DeliveredCE => deliveredCE
      case BytesSent => bytesSent
      case BytesRetrans => bytesRetrans
      case DSACKDups => dsackDups
      case ReordSeen => reordSeen
      case RxOutOfOrder => rxOutOfOrder
      case TxWindow => txWindow
      case RxWindow => rxWindow
      case Rehash => rehash
      case TotalRTO => totalRTO
      case TotalRTORecoveries => totalRTORecoveries
      case TotalRTOTime => totalRTOTime
    }
  }

  datatype CCFields = CCFields(
    ccVegasEnabled: Nullable, ccVegasRTTCnt: Nullable, ccVegasRTT: Nullable, ccVegasRTTMin: Nullable,
    ccBBRBwLo: Nullable, ccBBRBwHi: Nullable, ccBBRMinRTT: Nullable, ccBBRPacingGain: Nullable,
    ccBBRCWindowGain: Nullable, ccDCTCPEnabled: Nullable, ccDCTCPCEState: Nullable, ccDCTCPAlpha: Nullable,
    ccDCTCPABECN: Nullable, ccDCTCPABTOT: Nullable
  )
  {
    function Get(k: CCKey): Nullable {
      match k
      case CCVegasEnabled => ccVegasEnabled
      case CCVegasRTTCnt => ccVegasRTTCnt
      case CCVegasRTT => ccVegasRTT
      case CCVegasRTTMin => ccVegasRTTMin
      case CCBBRBwLo => ccBBRBwLo
      case CCBBRBwHi => ccBBRBwHi
      case CCBBRMinRTT => ccBBRMinRTT
      case CCBBRPacingGain => ccBBRPacingGain
      case CCBBRCWindowGain => ccBBRCWindowGain
      case CCDCTCPEnabled => ccDCTCPEnabled
      case CCDCTCPCEState => ccDCTCPCEState
      case CCDCTCPAlpha => ccDCTCPAlpha
      case CCDCTCPABECN => ccDCTCPABECN
      case CCDCTCPABTOT => ccDCTCPABTOT
    }
  }

  datatype SysInfo = SysInfo(
    stateName: string,
    plain: PlainFields,
    nullable: NullableFields,
    cc: CCFields,
    txOptions: seq<TcpOption>,
    rxOptions: seq<TcpOption>,
    ccAlgorithm: string
  )
}
