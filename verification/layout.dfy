/** The 248 bytes of the Linux tcp_info struct. */
module Layout {

  /** The fields of RawTCPInfo, in order. */
  datatype Field =
    | State | CaState | Retransmits | Probes | Backoff | Options | Bitfield0 | Bitfield1
    | Rto | Ato | SndMss | RcvMss | Unacked | Sacked | Lost | Retrans
    | Fackets | LastDataSent | LastAckSent | LastDataRecv | LastAckRecv | Pmtu | RcvSsthresh | Rtt
    | Rttvar | SndSsthresh | SndCwnd | Advmss | Reordering | RcvRtt | RcvSpace | TotalRetrans
    | PacingRate | MaxPacingRate | BytesAcked | BytesReceived | SegsOut | SegsIn | NotsentBytes | MinRtt
    | DataSegsIn | DataSegsOut | DeliveryRate | BusyTime | RwndLimited | SndbufLimited | Delivered | DeliveredCe
    | BytesSent | BytesRetrans | DsackDups | ReordSeen | RcvOoopack | SndWnd | RcvWnd | Rehash
    | TotalRto | TotalRtoRecoveries | TotalRtoTime

  const SIZE: nat := 248

  datatype Span = Span(offset: nat, width: nat)

  /** Where each field lies. */
  function Place(f: Field): (s: Span)
    ensures s.width > 0 && s.offset + s.width <= SIZE
  {
    match f
    case State => Span(0, 1)
    case CaState => Span(1, 1)
    case Retransmits => Span(2, 1)
    case Probes => Span(3, 1)
    case Backoff => Span(4, 1)
    case Options => Span(5, 1)
    case Bitfield0 => Span(6, 1)
    case Bitfield1 => Span(7, 1)
    case Rto => Span(8, 4)
    case Ato => Span(12, 4)
    case SndMss => Span(16, 4)
    case RcvMss => Span(20, 4)
    case Unacked => Span(24, 4)
    case Sacked => Span(28, 4)
    case Lost => Span(32, 4)
    case Retrans => Span(36, 4)
    case Fackets => Span(40, 4)
    case LastDataSent => Span(44, 4)
    case LastAckSent => Span(48, 4)
    case LastDataRecv => Span(52, 4)
    case LastAckRecv => Span(56, 4)
    case Pmtu => Span(60, 4)
    case RcvSsthresh => Span(64, 4)
    case Rtt => Span(68, 4)
    case Rttvar => Span(72, 4)
    case SndSsthresh => Span(76, 4)
    case SndCwnd => Span(80, 4)
    case Advmss => Span(84, 4)
    case Reordering => Span(88, 4)
    case RcvRtt => Span(92, 4)
    case RcvSpace => Span(96, 4)
    case TotalRetrans => Span(100, 4)
    case PacingRate => Span(104, 8)
    case MaxPacingRate => Span(112, 8)
    case BytesAcked => Span(120, 8)
    case BytesReceived => Span(128, 8)
    case SegsOut => Span(136, 4)
    case SegsIn => Span(140, 4)
    case NotsentBytes => Span(144, 4)
    case MinRtt => Span(148, 4)
    case DataSegsIn => Span(152, 4)
    case DataSegsOut => Span(156, 4)
    case DeliveryRate => Span(160, 8)
    case BusyTime => Span(168, 8)
    case RwndLimited => Span(176, 8)
    case SndbufLimited => Span(184, 8)
    case Delivered => Span(192, 4)
    case DeliveredCe => Span(196, 4)
    case BytesSent => Span(200, 8)
    case BytesRetrans => Span(208, 8)
    case DsackDups => Span(216, 4)
    case ReordSeen => Span(220, 4)
    case RcvOoopack => Span(224, 4)
    case SndWnd => Span(228, 4)
    case RcvWnd => Span(232, 4)
    case Rehash => Span(236, 4)
    case TotalRto => Span(240, 2)
    case TotalRtoRecoveries => Span(242, 2)
    case TotalRtoTime => Span(244, 4)
  }

  function Offset(f: Field): nat {
    Place(f).offset
  }

  function Width(f: Field): nat {
    Place(f).width
  }

  function End(f: Field): nat {
    Place(f).offset + Place(f).width
  }

  function FieldIn8(p: nat): Field
    requires p < 8
  {
    if p < 1 then State
    else if p < 2 then CaState
    else if p < 3 then Retransmits
    else if p < 4 then Probes
    else if p < 5 then Backoff
    else if p < 6 then Options
    else if p < 7 then Bitfield0
    else Bitfield1
  }

  function FieldIn56(p: nat): Field
    requires 8 <= p < 56
  {
    if p < 12 then Rto
    else if p < 16 then Ato
    else if p < 20 then SndMss
    else if p < 24 then RcvMss
    else if p < 28 then Unacked
    else if p < 32 then Sacked
    else if p < 36 then Lost
    else if p < 40 then Retrans
    else if p < 44 then Fackets
    else if p < 48 then LastDataSent
    else if p < 52 then LastAckSent
    else LastDataRecv
  }

  function FieldIn104(p: nat): Field
    requires 56 <= p < 104
  {
    if p < 60 then LastAckRecv
    else if p < 64 then Pmtu
    else if p < 68 then RcvSsthresh
    else if p < 72 then Rtt
    else if p < 76 then Rttvar
    else if p < 80 then SndSsthresh
    else if p < 84 then SndCwnd
    else if p < 88 then Advmss
    else if p < 92 then Reordering
    else if p < 96 then RcvRtt
    else if p < 100 then RcvSpace
    else TotalRetrans
  }

  function FieldIn148(p: nat): Field
    requires 104 <= p < 148
  {
    if p < 112 then PacingRate
    else if p < 120 then MaxPacingRate
    else if p < 128 then BytesAcked
    else if p < 136 then BytesReceived
    else if p < 140 then SegsOut
    else if p < 144 then SegsIn
    else NotsentBytes
  }

  function FieldIn192(p: nat): Field
    requires 148 <= p < 192
  {
    if p < 152 then MinRtt
    else if p < 156 then DataSegsIn
    else if p < 160 then DataSegsOut
    else if p < 168 then DeliveryRate
    else if p < 176 then BusyTime
    else if p < 184 then RwndLimited
    else SndbufLimited
  }

  function FieldIn232(p: nat): Field
    requires 192 <= p < 232
  {
    if p < 196 then Delivered
    else if p < 200 then DeliveredCe
    else if p < 208 then BytesSent
    else if p < 216 then BytesRetrans
    else if p < 220 then DsackDups
    else if p < 224 then ReordSeen
    else if p < 228 then RcvOoopack
    else SndWnd
  }

  function FieldIn248(p: nat): Field
    requires 232 <= p < 248
  {
    if p < 236 then RcvWnd
    else if p < 240 then Rehash
    else if p < 242 then TotalRto
    else if p < 244 then TotalRtoRecoveries
    else TotalRtoTime
  }

  /** The field that holds the byte at position p. */
  function FieldAt(p: nat): Field
    requires p < SIZE
  {
    if p < 8 then FieldIn8(p)
    else if p < 56 then FieldIn56(p)
    else if p < 104 then FieldIn104(p)
    else if p < 148 then FieldIn148(p)
    else if p < 192 then FieldIn192(p)
    else if p < 232 then FieldIn232(p)
    else FieldIn248(p)
  }

  /** The field found does hold the byte. */
  lemma HoldsItsBytes(p: nat)
    requires p < SIZE
    ensures Offset(FieldAt(p)) <= p < End(FieldAt(p))
  {
    if p < 104 {
      HoldsEarly(p);
    } else if p < 192 {
      HoldsMiddle(p);
    } else {
      HoldsLate(p);
    }
  }

  lemma HoldsEarly(p: nat)
    requires p < 104
    ensures Offset(FieldAt(p)) <= p < End(FieldAt(p))
  {
  }

  lemma HoldsMiddle(p: nat)
    requires 104 <= p < 192
    ensures Offset(FieldAt(p)) <= p < End(FieldAt(p))
  {
  }

  lemma HoldsLate(p: nat)
    requires 192 <= p < SIZE
    ensures Offset(FieldAt(p)) <= p < End(FieldAt(p))
  {
  }

  /** With FieldAt's contract: the fields tile the struct, without overlap and without padding. */
  lemma CoversOnlyItself(f: Field, p: nat)
    requires Offset(f) <= p < End(f)
    ensures p < SIZE && FieldAt(p) == f
  {
    if Offset(f) < 8 {
      CoversIn8(f, p);
    } else if Offset(f) < 56 {
      CoversIn56(f, p);
    } else if Offset(f) < 104 {
      CoversIn104(f, p);
    } else if Offset(f) < 148 {
      CoversIn148(f, p);
    } else if Offset(f) < 192 {
      CoversIn192(f, p);
    } else if Offset(f) < 232 {
      CoversIn232(f, p);
    } else {
      CoversIn248(f, p);
    }
  }

  lemma CoversIn8(f: Field, p: nat)
    requires Offset(f) <= p < End(f) && Offset(f) < 8
    ensures p < 8 && FieldIn8(p) == f
  {
  }

  lemma CoversIn56(f: Field, p: nat)
    requires Offset(f) <= p < End(f) && 8 <= Offset(f) < 56
    ensures p < 56 && FieldIn56(p) == f
  {
  }

  lemma CoversIn104(f: Field, p: nat)
    requires Offset(f) <= p < End(f) && 56 <= Offset(f) < 104
    ensures p < 104 && FieldIn104(p) == f
  {
  }

  lemma CoversIn148(f: Field, p: nat)
    requires Offset(f) <= p < End(f) && 104 <= Offset(f) < 148
    ensures p < 148 && FieldIn148(p) == f
  {
  }

  lemma CoversIn192(f: Field, p: nat)
    requires Offset(f) <= p < End(f) && 148 <= Offset(f) < 192
    ensures p < 192 && FieldIn192(p) == f
  {
  }

  lemma CoversIn232(f: Field, p: nat)
    requires Offset(f) <= p < End(f) && 192 <= Offset(f) < 232
    ensures p < 232 && FieldIn232(p) == f
  {
  }

  lemma CoversIn248(f: Field, p: nat)
    requires Offset(f) <= p < End(f) && 232 <= Offset(f)
    ensures p < 248 && FieldIn248(p) == f
  {
  }

  // ---- Bytes ----

  type byte = x: nat | x < 256

  /** The struct as a value: one number per field. */
  type Content = Field -> nat

  function Pow256(n: nat): nat {
    if n == 0 then 1 else 256 * Pow256(n - 1)
  }

  ghost predicate InRange(k: Content) {
    forall f :: k(f) < Pow256(Width(f))
  }

  /** Byte i of a number, least significant first. */
  function Digit(x: nat, i: nat): byte {
    if i == 0 then x % 256 else Digit(x / 256, i - 1)
  }

  function LittleEndian(b: seq<byte>): nat {
    if b == [] then 0 else b[0] + 256 * LittleEndian(b[1..])
  }

  function ByteAt(k: Content, p: nat): byte
    requires p < SIZE
  {
    HoldsItsBytes(p);
    Digit(k(FieldAt(p)), p - Offset(FieldAt(p)))
  }

  /** The struct as the kernel lays it out. */
  function Encode(k: Content): (b: seq<byte>)
    ensures |b| == SIZE
  {
    seq<byte>(SIZE, p requires 0 <= p < SIZE => ByteAt(k, p))
  }

  function Zeros(n: nat): (b: seq<byte>)
    ensures |b| == n
  {
    seq<byte>(n, _ => 0)
  }

  /** A zeroed struct into which the kernel has copied the first n bytes of its own. */
  function CopyOut(b: seq<byte>, n: nat): (r: seq<byte>)
    requires |b| == SIZE
    ensures |r| == SIZE
  {
    var m := if n < SIZE then n else SIZE;
    b[..m] + Zeros(SIZE - m)
  }

  /** Reading a field of the struct. */
  function DecodeField(b: seq<byte>, f: Field): nat
    requires |b| == SIZE
  {
    LittleEndian(b[Offset(f)..End(f)])
  }

  function Decode(b: seq<byte>): Content
    requires |b| == SIZE
  {
    f => DecodeField(b, f)
  }

  lemma {:induction false} LittleEndianBack(b: seq<byte>, x: nat)
    requires x < Pow256(|b|) && forall i :: 0 <= i < |b| ==> b[i] == Digit(x, i)
    ensures LittleEndian(b) == x
  {
    if b != [] {
      assert forall i :: 0 <= i < |b[1..]| ==> b[1..][i] == Digit(x / 256, i);
      LittleEndianBack(b[1..], x / 256);
    }
  }

  lemma {:induction false} LittleEndianZero(b: seq<byte>)
    requires forall i :: 0 <= i < |b| ==> b[i] == 0
    ensures LittleEndian(b) == 0
  {
    if b != [] {
      LittleEndianZero(b[1..]);
    }
  }

  /** The bytes of the struct from lo to hi spell the number x. */
  ghost predicate Spells(b: seq<byte>, lo: nat, hi: nat, x: nat) {
    lo <= hi <= |b| && forall p :: lo <= p < hi ==> b[p] == Digit(x, p - lo)
  }

  lemma EncodedByte(k: Content, f: Field, p: nat)
    requires Offset(f) <= p < End(f)
    ensures Encode(k)[p] == Digit(k(f), p - Offset(f))
  {
    CoversOnlyItself(f, p);
  }

  lemma EncodedField(k: Content, f: Field)
    ensures Spells(Encode(k), Offset(f), End(f), k(f))
  {
    forall p | Offset(f) <= p < End(f) ensures Encode(k)[p] == Digit(k(f), p - Offset(f)) {
      EncodedByte(k, f, p);
    }
  }

  /** Reading a number that lies inside the copy. */
  lemma InsideCopy(b: seq<byte>, n: nat, lo: nat, hi: nat, x: nat)
    requires |b| == SIZE && Spells(b, lo, hi, x) && hi <= n && x < Pow256(hi - lo)
    ensures LittleEndian(CopyOut(b, n)[lo..hi]) == x
  {
    var part := CopyOut(b, n)[lo..hi];
    assert forall i :: 0 <= i < hi - lo ==> part[i] == b[lo + i];
    LittleEndianBack(part, x);
  }

  /** Reading a number that lies past the copy. */
  lemma PastCopy(b: seq<byte>, n: nat, lo: nat, hi: nat)
    requires |b| == SIZE && n <= lo <= hi <= SIZE
    ensures LittleEndian(CopyOut(b, n)[lo..hi]) == 0
  {
    var part := CopyOut(b, n)[lo..hi];
    assert forall i :: 0 <= i < hi - lo ==> part[i] == CopyOut(b, n)[lo + i];
    LittleEndianZero(part);
  }

  /**
   A field read back from a partial copy is the kernel's number when it lies inside the copy, and zero when
   it lies outside.
   */
  lemma ReadBack(k: Content, n: nat, f: Field)
    requires InRange(k)
    ensures End(f) <= n ==> DecodeField(CopyOut(Encode(k), n), f) == k(f)
    ensures n <= Offset(f) ==> DecodeField(CopyOut(Encode(k), n), f) == 0
  {
    if End(f) <= n {
      EncodedField(k, f);
      InsideCopy(Encode(k), n, Offset(f), End(f), k(f));
    }
    if n <= Offset(f) {
      PastCopy(Encode(k), n, Offset(f), End(f));
    }
  }
}
