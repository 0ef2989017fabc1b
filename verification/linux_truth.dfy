/**
 The promise of the nullable fields: Valid tells a value the kernel provided from one it did not.
 Proved for each field and each kernel version, with the exact versions for which it fails.
 */
module LinuxTruth {
  import opened SysInfoModel
  import opened Kernel
  import opened Adapt
  import opened Options
  import opened Linux
  import L = Layout

  // ---- What kernels provide ----

  /** The kernel releases that extended tcp_info, oldest first. */
  function Release(i: nat): VersionInfo
    requires i < 13
  {
    if i == AT_2_6_2 then V(2, 6, 2)
    else if i == AT_3_15 then V(3, 15, 0)
    else if i == AT_4_1 then V(4, 1, 0)
    else if i == AT_4_2 then V(4, 2, 0)
    else if i == AT_4_6 then V(4, 6, 0)
    else if i == AT_4_9 then V(4, 9, 0)
    else if i == AT_4_10 then V(4, 10, 0)
    else if i == AT_4_18 then V(4, 18, 0)
    else if i == AT_4_19 then V(4, 19, 0)
    else if i == AT_5_4 then V(5, 4, 0)
    else if i == AT_5_5 then V(5, 5, 0)
    else if i == AT_6_2 then V(6, 2, 0)
    else V(6, 7, 0)
  }

  /** The release that added a field to tcp_info, as the struct's comments record it. */
  function FieldAdded(f: L.Field): (i: nat)
    ensures i < 13
  {
    match f
    case PacingRate | MaxPacingRate => AT_3_15
    case BytesAcked | BytesReceived => AT_4_1
    case SegsOut | SegsIn => AT_4_2
    case NotsentBytes | MinRtt | DataSegsIn | DataSegsOut => AT_4_6
    case DeliveryRate => AT_4_9
    case BusyTime | RwndLimited | SndbufLimited => AT_4_10
    case Delivered | DeliveredCe => AT_4_18
    case BytesSent | BytesRetrans | DsackDups | ReordSeen => AT_4_19
    case RcvOoopack | SndWnd => AT_5_4
    case RcvWnd | Rehash => AT_6_2
    case TotalRto | TotalRtoRecoveries | TotalRtoTime => AT_6_7
    case _ => AT_2_6_2
  }

  /** The two bit fields inside bitfield1 are younger than the byte that holds them. */
  function KeyAdded(key: Key): (i: nat)
    ensures FieldAdded(KeySource(key).field) <= i < 13
  {
    match key
    case DeliveryRateAppLimited => AT_4_9
    case FastOpenClientFail => AT_5_5
    case _ => FieldAdded(KeySource(key).field)
  }

  /** The version from which kernels provide a nullable field. */
  function Added(key: Key): VersionInfo {
    Release(KeyAdded(key))
  }

  /** The size of the struct in each release. */
  function SizeIn(i: nat): nat
    requires i < 13
  {
    if i == AT_2_6_2 then 104
    else if i == AT_3_15 then 120
    else if i == AT_4_1 then 136
    else if i == AT_4_2 then 144
    else if i == AT_4_6 then 160
    else if i == AT_4_9 then 168
    else if i == AT_4_10 then 192
    else if i == AT_4_18 then 200
    else if i == AT_4_19 then 224
    else if i == AT_5_4 || i == AT_5_5 then 232
    else if i == AT_6_2 then 240
    else 248
  }

  /** The size of the running kernel's own struct. */
  function KernelSize(v: VersionInfo): nat {
    if AtLeast(v, V(2, 6, 2)) then SizeIn(RowOf(v)) else 104
  }

  /** The struct only ever grew at its end: a kernel has a field exactly when it fits in its struct. */
  lemma StructGrowsAtEnd(v: VersionInfo, f: L.Field)
    requires AtLeast(v, V(2, 6, 2))
    ensures AtLeast(v, Release(FieldAdded(f))) <==> L.End(f) <= KernelSize(v)
  {
    var added := FieldAdded(f);
    RowMeans(v, added);
    if added <= RowOf(v) {
      AddedWithRoom(f);
      ReleasesGrow(added, RowOf(v));
    } else {
      NoRoomBefore(f);
      ReleasesGrow(RowOf(v), added - 1);
    }
  }

  lemma ReleasesGrow(i: nat, j: nat)
    requires i <= j < 13
    ensures SizeIn(i) <= SizeIn(j)
  {
  }

  lemma AddedWithRoom(f: L.Field)
    ensures L.End(f) <= SizeIn(FieldAdded(f))
  {
    if FieldAdded(f) == AT_2_6_2 {
      OldestFit(f);
    } else {
      NewerFit(f);
    }
  }

  lemma OldestFit(f: L.Field)
    requires FieldAdded(f) == AT_2_6_2
    ensures L.End(f) <= 104
  {
  }

  lemma NewerFit(f: L.Field)
    requires FieldAdded(f) != AT_2_6_2
    ensures L.End(f) <= SizeIn(FieldAdded(f))
  {
  }

  lemma NoRoomBefore(f: L.Field)
    requires FieldAdded(f) > 0
    ensures SizeIn(FieldAdded(f) - 1) < L.End(f)
  {
  }

  /** getsockopt copies what was asked for, or the whole struct if that is shorter. */
  function Getsockopt(v: VersionInfo, k: L.Content, requested: nat): (b: seq<L.byte>)
    ensures |b| == L.SIZE
  {
    L.CopyOut(L.Encode(k), if requested < KernelSize(v) then requested else KernelSize(v))
  }

  /** The whole pipeline on a kernel of version v with settings st. */
  function Observe(v: VersionInfo, st: Settings, k: L.Content): SysInfo
    requires |st.flags| == 13
  {
    Unpacked(st.flags, L.Decode(Getsockopt(v, k, st.size)))
  }

  // ---- The table rows ----

  /** The table lists these releases. */
  lemma TableReleases(i: nat)
    requires i < 13
    ensures TABLE[i].version == Release(i)
  {
  }

  /** The greatest row not above v. */
  function RowOf(v: VersionInfo): (i: nat)
    requires AtLeast(v, V(2, 6, 2))
    ensures i < 13
  {
    if AtLeast(v, V(6, 7, 0)) then AT_6_7
    else if AtLeast(v, V(6, 2, 0)) then AT_6_2
    else if AtLeast(v, V(5, 5, 0)) then AT_5_5
    else if AtLeast(v, V(5, 4, 0)) then AT_5_4
    else if AtLeast(v, V(4, 19, 0)) then AT_4_19
    else if AtLeast(v, V(4, 18, 0)) then AT_4_18
    else if AtLeast(v, V(4, 10, 0)) then AT_4_10
    else if AtLeast(v, V(4, 9, 0)) then AT_4_9
    else if AtLeast(v, V(4, 6, 0)) then AT_4_6
    else if AtLeast(v, V(4, 2, 0)) then AT_4_2
    else if AtLeast(v, V(4, 1, 0)) then AT_4_1
    else if AtLeast(v, V(3, 15, 0)) then AT_3_15
    else AT_2_6_2
  }

  lemma RowIsGreatest(v: VersionInfo)
    requires AtLeast(v, V(2, 6, 2))
    ensures IsGreatest(TABLE, v, RowOf(v))
  {
  }

  /** Any settings that adaptation leaves behind for a supported version. */
  lemma AdaptedSettings(v: VersionInfo, before: Settings, st: Settings)
    requires AtLeast(v, V(2, 6, 2)) && Adapted(TABLE, v, before, st)
    ensures |st.flags| == 13
    ensures forall j :: 0 <= j < 13 ==> (st.flags[j] <==> j <= RowOf(v))
    ensures st.size == TABLE[RowOf(v)].size
  {
    TableAscends();
    RowIsGreatest(v);
    forall j | 0 <= j < 13 ensures st.flags[j] <==> j <= RowOf(v) {
      OlderRowsReached(TABLE, v, RowOf(v));
    }
  }

  /** From this version on, in numbers. */
  predicate From(v: VersionInfo, kernel: int, major: int, minor: int) {
    v.kernel > kernel || (v.kernel == kernel && (v.major > major || (v.major == major && v.minor >= minor)))
  }

  lemma FromMeans(v: VersionInfo, w: VersionInfo)
    ensures AtLeast(v, w) <==> From(v, w.kernel, w.major, w.minor)
  {
    CompareIsLexicographic(v, w);
  }

  /** The flags of any adaptation, in numbers. */
  lemma FlagsInNumbers(v: VersionInfo, before: Settings, st: Settings)
    requires Adapted(TABLE, v, before, st)
    ensures |st.flags| == 13
    ensures st.flags[AT_2_6_2] <==> From(v, 2, 6, 2)
    ensures st.flags[AT_3_15] <==> From(v, 3, 15, 0)
    ensures st.flags[AT_4_1] <==> From(v, 4, 1, 0)
    ensures st.flags[AT_4_2] <==> From(v, 4, 2, 0)
    ensures st.flags[AT_4_6] <==> From(v, 4, 6, 0)
    ensures st.flags[AT_4_9] <==> From(v, 4, 9, 0)
    ensures st.flags[AT_4_10] <==> From(v, 4, 10, 0)
    ensures st.flags[AT_4_18] <==> From(v, 4, 18, 0)
    ensures st.flags[AT_4_19] <==> From(v, 4, 19, 0)
    ensures st.flags[AT_5_4] <==> From(v, 5, 4, 0)
    ensures st.flags[AT_5_5] <==> From(v, 5, 5, 0)
    ensures st.flags[AT_6_2] <==> From(v, 6, 2, 0)
    ensures st.flags[AT_6_7] <==> From(v, 6, 7, 0)
  {
    OlderFlags(v, before, st);
    MiddleFlags(v, before, st);
    NewerFlags(v, before, st);
  }

  lemma OlderFlags(v: VersionInfo, before: Settings, st: Settings)
    requires Adapted(TABLE, v, before, st)
    ensures |st.flags| == 13
    ensures st.flags[AT_2_6_2] <==> From(v, 2, 6, 2)
    ensures st.flags[AT_3_15] <==> From(v, 3, 15, 0)
    ensures st.flags[AT_4_1] <==> From(v, 4, 1, 0)
    ensures st.flags[AT_4_2] <==> From(v, 4, 2, 0)
    ensures st.flags[AT_4_6] <==> From(v, 4, 6, 0)
  {
    FlagInNumbers(v, before, st, AT_2_6_2);
    FlagInNumbers(v, before, st, AT_3_15);
    FlagInNumbers(v, before, st, AT_4_1);
    FlagInNumbers(v, before, st, AT_4_2);
    FlagInNumbers(v, before, st, AT_4_6);
  }

  lemma MiddleFlags(v: VersionInfo, before: Settings, st: Settings)
    requires Adapted(TABLE, v, before, st)
    ensures |st.flags| == 13
    ensures st.flags[AT_4_9] <==> From(v, 4, 9, 0)
    ensures st.flags[AT_4_10] <==> From(v, 4, 10, 0)
    ensures st.flags[AT_4_18] <==> From(v, 4, 18, 0)
    ensures st.flags[AT_4_19] <==> From(v, 4, 19, 0)
  {
    FlagInNumbers(v, before, st, AT_4_9);
    FlagInNumbers(v, before, st, AT_4_10);
    FlagInNumbers(v, before, st, AT_4_18);
    FlagInNumbers(v, before, st, AT_4_19);
  }

  lemma NewerFlags(v: VersionInfo, before: Settings, st: Settings)
    requires Adapted(TABLE, v, before, st)
    ensures |st.flags| == 13
    ensures st.flags[AT_5_4] <==> From(v, 5, 4, 0)
    ensures st.flags[AT_5_5] <==> From(v, 5, 5, 0)
    ensures st.flags[AT_6_2] <==> From(v, 6, 2, 0)
    ensures st.flags[AT_6_7] <==> From(v, 6, 7, 0)
  {
    FlagInNumbers(v, before, st, AT_5_4);
    FlagInNumbers(v, before, st, AT_5_5);
    FlagInNumbers(v, before, st, AT_6_2);
    FlagInNumbers(v, before, st, AT_6_7);
  }

  lemma FlagInNumbers(v: VersionInfo, before: Settings, st: Settings, i: nat)
    requires Adapted(TABLE, v, before, st) && i < 13
    ensures |st.flags| == 13 && (st.flags[i] <==> From(v, Release(i).kernel, Release(i).major, Release(i).minor))
  {
    TableReleases(i);
    FromMeans(v, Release(i));
    assert st.flags[i] <==> Reaches(TABLE, v, i);
  }

  /** The library never asks for more than the kernel has. */
  lemma NeverAsksTooMuch(v: VersionInfo)
    requires AtLeast(v, V(2, 6, 2))
    ensures TABLE[RowOf(v)].size <= KernelSize(v)
  {
  }

  // ---- The nullable fields ----

  predicate Between(v: VersionInfo, lo: VersionInfo, hi: VersionInfo) {
    AtLeast(v, lo) && !AtLeast(v, hi)
  }

  /** Marked Valid, but past the end of the 148 bytes asked for on 4.9. */
  predicate CutOff(key: Key) {
    key.MinRTT? || key.DataSegsIn? || key.DataSegsOut? || key.DeliveryRate?
  }

  /** Marked Valid from 6.2, but added by 6.7. */
  predicate Premature(key: Key) {
    key.TotalRTO? || key.TotalRTORecoveries? || key.TotalRTOTime?
  }

  predicate Misread(v: VersionInfo, key: Key) {
    || (Between(v, V(4, 9, 0), V(4, 10, 0)) && CutOff(key))
    || (Between(v, V(6, 2, 0), V(6, 7, 0)) && Premature(key))
  }

  /** What the kernel says about a field. */
  function KernelSays(k: L.Content, key: Key): nat {
    Convert(KeySource(key).how, k(KeySource(key).field))
  }

  /** Valid exactly when the kernel provides the field; the value is the kernel's, or zero. */
  ghost predicate Truthful(v: VersionInfo, key: Key, k: L.Content, n: Nullable) {
    && (n.valid <==> AtLeast(v, Added(key)))
    && n.value == if n.valid then KernelSays(k, key) else 0
  }

  /** The bytes asked for in a row cover a field that the row makes Valid, or stop before it. */
  predicate RowFits(key: Key, row: nat)
    requires row < 13
  {
    var f := KeySource(key).field;
    if (row == AT_4_9 && CutOff(key)) || (row == AT_6_2 && Premature(key)) then TABLE[row].size <= L.Offset(f)
    else L.End(f) <= TABLE[row].size
  }

  lemma RowCovers(key: Key, row: nat)
    requires KeySource(key).since <= row < 13
    ensures RowFits(key, row)
  {
    RowSizes(row);
    if row == AT_4_9 {
      if CutOff(key) {
        CutOffPlaces(key);
      } else {
        EarlyEnds(key);
      }
    } else if row == AT_6_2 && Premature(key) {
      PrematurePlaces(key);
    } else {
      FlagMeansAdded(key);
      AddedWithRoom(KeySource(key).field);
      ReleasesGrow(FieldAdded(KeySource(key).field), row);
    }
  }

  /** The table asks for the whole struct of the release, except in the 4.9 row. */
  lemma RowSizes(row: nat)
    requires row < 13
    ensures TABLE[row].size == if row == AT_4_9 then 148 else SizeIn(row)
  {
  }

  lemma EarlyEnds(key: Key)
    requires KeySource(key).since <= AT_4_9 && !CutOff(key)
    ensures L.End(KeySource(key).field) <= 148
  {
  }

  lemma CutOffPlaces(key: Key)
    requires CutOff(key)
    ensures 148 <= L.Offset(KeySource(key).field)
  {
  }

  lemma PrematurePlaces(key: Key)
    requires Premature(key)
    ensures 240 <= L.Offset(KeySource(key).field)
  {
  }

  lemma RowMeans(v: VersionInfo, i: nat)
    requires AtLeast(v, V(2, 6, 2)) && i < 13
    ensures i <= RowOf(v) <==> AtLeast(v, Release(i))
  {
    TableReleases(i);
    TableAscends();
    RowIsGreatest(v);
    OlderRowsReached(TABLE, v, RowOf(v));
    assert i > RowOf(v) ==> !Reaches(TABLE, v, i);
  }

  /** The flag of a field stands for the release that added it, the premature ones excepted. */
  lemma FlagMeansAdded(key: Key)
    ensures KeySource(key).since == if Premature(key) then AT_6_2 else KeyAdded(key)
    ensures Premature(key) ==> KeyAdded(key) == AT_6_7
  {
    if KeySource(key).since <= AT_4_9 {
      EarlyFlag(key);
    } else if KeySource(key).since <= AT_4_18 {
      MiddleFlag(key);
    } else if Premature(key) {
      PrematureFlag(key);
    } else {
      LateFlag(key);
    }
  }

  lemma EarlyFlag(key: Key)
    requires KeySource(key).since <= AT_4_9
    ensures !Premature(key) && KeySource(key).since == KeyAdded(key)
  {
  }

  lemma MiddleFlag(key: Key)
    requires AT_4_9 < KeySource(key).since <= AT_4_18
    ensures !Premature(key) && KeySource(key).since == KeyAdded(key)
  {
  }

  lemma LateFlag(key: Key)
    requires KeySource(key).since > AT_4_18 && !Premature(key)
    ensures KeySource(key).since == KeyAdded(key)
  {
  }

  lemma PrematureFlag(key: Key)
    requires Premature(key)
    ensures KeySource(key).since == AT_6_2 && KeyAdded(key) == AT_6_7
  {
  }

  /** The raw field behind a Valid one: the kernel's number, or zero when it was not copied. */
  lemma RawObserved(v: VersionInfo, k: L.Content, key: Key)
    requires AtLeast(v, V(2, 6, 2)) && L.InRange(k) && KeySource(key).since <= RowOf(v)
    ensures L.Decode(Getsockopt(v, k, TABLE[RowOf(v)].size))(KeySource(key).field)
            == if Misread(v, key) then 0 else k(KeySource(key).field)
  {
    NeverAsksTooMuch(v);
    L.ReadBack(k, TABLE[RowOf(v)].size, KeySource(key).field);
    RowCovers(key, RowOf(v));
    RowRanges(v);
  }

  /** `n` is Valid by the flag of the field, and carries the kernel's number unless the field is misread. */
  ghost predicate Observed(v: VersionInfo, k: L.Content, key: Key, n: Nullable)
    requires AtLeast(v, V(2, 6, 2))
  {
    && (n.valid <==> KeySource(key).since <= RowOf(v))
    && n.value == if n.valid && !Misread(v, key) then KernelSays(k, key) else 0
  }

  /** What the pipeline reports for a field. */
  lemma KeyObserved(v: VersionInfo, before: Settings, st: Settings, k: L.Content, key: Key)
    requires AtLeast(v, V(2, 6, 2)) && Adapted(TABLE, v, before, st) && L.InRange(k)
    ensures |st.flags| == 13
    ensures Observed(v, k, key, Observe(v, st, k).nullable.Get(key))
  {
    AdaptedSettings(v, before, st);
    var raw := L.Decode(Getsockopt(v, k, st.size));
    NullableTable(st.flags, raw, key);
    ReadingObserved(v, st, k, raw, key);
  }

  lemma ReadingObserved(v: VersionInfo, st: Settings, k: L.Content, raw: L.Content, key: Key)
    requires AtLeast(v, V(2, 6, 2)) && L.InRange(k) && |st.flags| == 13
    requires forall j :: 0 <= j < 13 ==> (st.flags[j] <==> j <= RowOf(v))
    requires raw == L.Decode(Getsockopt(v, k, TABLE[RowOf(v)].size))
    ensures Observed(v, k, key, KernelNullable(st.flags, raw, key))
  {
    if KeySource(key).since <= RowOf(v) {
      RawObserved(v, k, key);
    }
  }

  /** What an observed value says about the promise. */
  lemma TruthOfObserved(v: VersionInfo, k: L.Content, key: Key, n: Nullable)
    requires AtLeast(v, V(2, 6, 2)) && Observed(v, k, key, n)
    ensures !Misread(v, key) ==> Truthful(v, key, k, n)
    ensures Misread(v, key) ==> n == Nullable(true, 0)
    ensures Misread(v, key) && k(KeySource(key).field) == 1 ==> !Truthful(v, key, k, n)
  {
    FlagMeansAdded(key);
    RowMeans(v, KeySource(key).since);
    if Misread(v, key) {
      NotABitField(key);
      MisreadIsFlagged(v, key);
    }
  }

  lemma MisreadIsFlagged(v: VersionInfo, key: Key)
    requires AtLeast(v, V(2, 6, 2)) && Misread(v, key)
    ensures KeySource(key).since <= RowOf(v)
  {
  }

  lemma NotABitField(key: Key)
    requires CutOff(key) || Premature(key)
    ensures Convert(KeySource(key).how, 1) >= 1
  {
  }

  lemma RowRanges(v: VersionInfo)
    requires AtLeast(v, V(2, 6, 2))
    ensures RowOf(v) == AT_4_9 <==> Between(v, V(4, 9, 0), V(4, 10, 0))
    ensures RowOf(v) == AT_6_2 <==> Between(v, V(6, 2, 0), V(6, 7, 0))
  {
  }

  /** A field is reported truthfully for every content of the kernel's struct. */
  ghost predicate FieldPromise(v: VersionInfo, st: Settings, key: Key)
    requires |st.flags| == 13
  {
    forall k :: L.InRange(k) ==> Truthful(v, key, k, Observe(v, st, k).nullable.Get(key))
  }

  /**
   For every supported version, whatever the earlier settings, and for every field: the reports are truthful
   exactly when the field is not one of the misread ones.
   */
  lemma FieldTruthExactly(v: VersionInfo, before: Settings, st: Settings, key: Key)
    requires AtLeast(v, V(2, 6, 2)) && Adapted(TABLE, v, before, st)
    ensures |st.flags| == 13
    ensures FieldPromise(v, st, key) <==> !Misread(v, key)
  {
    AdaptedSettings(v, before, st);
    if Misread(v, key) {
      MisreadContent(v, before, st, key);
    } else {
      forall k | L.InRange(k) ensures Truthful(v, key, k, Observe(v, st, k).nullable.Get(key)) {
        KeyObserved(v, before, st, k, key);
        TruthOfObserved(v, k, key, Observe(v, st, k).nullable.Get(key));
      }
    }
  }

  /** A struct full of ones shows a misread field. */
  lemma MisreadContent(v: VersionInfo, before: Settings, st: Settings, key: Key)
    requires AtLeast(v, V(2, 6, 2)) && Adapted(TABLE, v, before, st) && Misread(v, key)
    ensures |st.flags| == 13
    ensures !FieldPromise(v, st, key)
  {
    var ones: L.Content := _ => 1;
    OnesInRange(ones);
    KeyObserved(v, before, st, ones, key);
    TruthOfObserved(v, ones, key, Observe(v, st, ones).nullable.Get(key));
  }

  lemma OnesInRange(k: L.Content)
    requires forall f :: k(f) == 1
    ensures L.InRange(k)
  {
    forall f ensures k(f) < L.Pow256(L.Width(f)) {
      assert L.Pow256(1) == 256;
      PowersGrow(L.Width(f));
    }
  }

  lemma {:induction false} PowersGrow(n: nat)
    requires n >= 1
    ensures L.Pow256(n) >= 256
  {
    if n > 1 {
      PowersGrow(n - 1);
    }
  }

  /** So the promise of the nullable types holds on every version from 2.6.2 outside two ranges, and only there. */
  lemma PromiseExactly(v: VersionInfo, before: Settings, st: Settings)
    requires AtLeast(v, V(2, 6, 2)) && Adapted(TABLE, v, before, st)
    ensures |st.flags| == 13
    ensures (forall key :: FieldPromise(v, st, key))
            <==> !Between(v, V(4, 9, 0), V(4, 10, 0)) && !Between(v, V(6, 2, 0), V(6, 7, 0))
  {
    AdaptedSettings(v, before, st);
    forall key ensures FieldPromise(v, st, key) <==> !Misread(v, key) {
      FieldTruthExactly(v, before, st, key);
    }
    FieldTruthExactly(v, before, st, DeliveryRate);
    FieldTruthExactly(v, before, st, TotalRTO);
  }

  // ---- The plain fields ----

  /** The fields of the oldest struct are always the kernel's own. */
  lemma PlainAlwaysTrue(v: VersionInfo, before: Settings, st: Settings, k: L.Content, p: Plain)
    requires AtLeast(v, V(2, 6, 2)) && Adapted(TABLE, v, before, st) && L.InRange(k)
    ensures |st.flags| == 13
    ensures Observe(v, st, k).plain.Get(p) == PlainValue(k, p)
  {
    AdaptedSettings(v, before, st);
    NeverAsksTooMuch(v);
    var raw := L.Decode(Getsockopt(v, k, st.size));
    PlainTable(raw, p);
    L.ReadBack(k, st.size, PlainSource(p).field);
    assert L.End(PlainSource(p).field) <= 104 <= st.size by {
      PlainFits(p);
      SmallestRow(RowOf(v));
    }
  }

  lemma PlainFits(p: Plain)
    ensures L.End(PlainSource(p).field) <= 104
  {
  }

  lemma SmallestRow(row: nat)
    requires row < 13
    ensures 104 <= TABLE[row].size
  {
  }

  // ---- The option lists ----

  lemma WindowRows(row: nat)
    requires row < 13
    ensures if row >= AT_5_4 then L.End(L.SndWnd) <= TABLE[row].size else TABLE[row].size <= L.Offset(L.SndWnd)
    ensures if row >= AT_6_2 then L.End(L.RcvWnd) <= TABLE[row].size else TABLE[row].size <= L.Offset(L.RcvWnd)
    ensures L.End(L.Options) <= TABLE[row].size
  {
  }

  lemma WindowsObserved(v: VersionInfo, k: L.Content)
    requires AtLeast(v, V(2, 6, 2)) && L.InRange(k)
    ensures var raw := L.Decode(Getsockopt(v, k, TABLE[RowOf(v)].size));
            && raw(L.Options) == k(L.Options)
            && raw(L.SndWnd) == (if AtLeast(v, V(5, 4, 0)) then k(L.SndWnd) else 0)
            && raw(L.RcvWnd) == (if AtLeast(v, V(6, 2, 0)) then k(L.RcvWnd) else 0)
  {
    var size := TABLE[RowOf(v)].size;
    NeverAsksTooMuch(v);
    WindowRows(RowOf(v));
    RowMeans(v, AT_5_4);
    RowMeans(v, AT_6_2);
    L.ReadBack(k, size, L.Options);
    L.ReadBack(k, size, L.SndWnd);
    L.ReadBack(k, size, L.RcvWnd);
  }

  lemma OptionsObserved(v: VersionInfo, before: Settings, st: Settings, k: L.Content)
    requires AtLeast(v, V(2, 6, 2)) && Adapted(TABLE, v, before, st) && L.InRange(k)
    ensures |st.flags| == 13
    ensures var u := Observe(v, st, k);
            && u.txOptions == LinuxOptions(k(L.Options), if AtLeast(v, V(5, 4, 0)) then k(L.SndWnd) else 0)
            && u.rxOptions == LinuxOptions(k(L.Options), if AtLeast(v, V(6, 2, 0)) then k(L.RcvWnd) else 0)
  {
    AdaptedSettings(v, before, st);
    WindowsObserved(v, k);
  }

  /**
   The option names can always be trusted: they give back the kernel's options byte. The value of the
   WindowScale entry is the peer's window only from 5.4 (Tx) and the local window only from 6.2 (Rx); on
   older kernels it is zero, and the entry prints without a value.
   */
  lemma OptionNamesTrusted(v: VersionInfo, before: Settings, st: Settings, k: L.Content)
    requires AtLeast(v, V(2, 6, 2)) && Adapted(TABLE, v, before, st) && L.InRange(k)
    ensures |st.flags| == 13
    ensures Names(LINUX, Observe(v, st, k).txOptions, k(L.Options))
    ensures Names(LINUX, Observe(v, st, k).rxOptions, k(L.Options))
    ensures Kinds(Observe(v, st, k).rxOptions) == Kinds(Observe(v, st, k).txOptions)
  {
    OptionsObserved(v, before, st, k);
    OptionByte(k);
    LinuxNames(k(L.Options), if AtLeast(v, V(5, 4, 0)) then k(L.SndWnd) else 0,
               if AtLeast(v, V(6, 2, 0)) then k(L.RcvWnd) else 0);
  }

  lemma OptionByte(k: L.Content)
    requires L.InRange(k)
    ensures k(L.Options) < 256
  {
    assert L.Pow256(1) == 256;
  }

  /** The names in the list give back the mask. */
  ghost predicate Names(table: seq<Entry>, xs: seq<TcpOption>, options: nat) {
    Mask(table, Kinds(xs)) == options
  }

  lemma LinuxNames(options: nat, tx: nat, rx: nat)
    requires options < 256
    ensures Names(LINUX, LinuxOptions(options, tx), options) && Names(LINUX, LinuxOptions(options, rx), options)
    ensures Kinds(LinuxOptions(options, tx)) == Kinds(LinuxOptions(options, rx))
  {
    TablesWellFormed();
    BothName(LINUX, options, tx, rx, LinuxOptions(options, tx), LinuxOptions(options, rx));
  }

  lemma BothName(table: seq<Entry>, options: nat, tx: nat, rx: nat, xs: seq<TcpOption>, ys: seq<TcpOption>)
    requires WellFormed(table) && options < Pow2(|table|)
    requires xs == OptionsOf(table, options, tx) && ys == OptionsOf(table, options, rx)
    ensures Names(table, xs, options) && Names(table, ys, options) && Kinds(xs) == Kinds(ys)
  {
    NamesTrusted(table, options, tx, rx);
    NamesTrusted(table, options, rx, tx);
  }

  // ---- From the release string ----

  /** The version adaptation works with: an unparsable release counts as 2.6.2. */
  function VersionOf(release: string): VersionInfo {
    var r := ParseRelease(release);
    if r.Ok? then r.value else V(2, 6, 2)
  }

  /** An unparsable release gets the oldest struct: 104 bytes, and no nullable field is Valid. */
  lemma UnparsableIsOldest(release: string, before: Settings, st: Settings, k: L.Content, key: Key)
    requires ParseRelease(release).Failed? && Adapted(TABLE, VersionOf(release), before, st)
    ensures |st.flags| == 13 && st.size == 104
    ensures forall j :: 0 <= j < 13 ==> (st.flags[j] <==> j == 0)
    ensures Observe(VersionOf(release), st, k).nullable.Get(key) == Nullable(false, 0)
  {
    OldestSettings(before, st);
    NullableTable(st.flags, L.Decode(Getsockopt(VersionOf(release), k, st.size)), key);
    NotOldest(key);
  }

  lemma OldestSettings(before: Settings, st: Settings)
    requires Adapted(TABLE, V(2, 6, 2), before, st)
    ensures |st.flags| == 13 && st.size == 104
    ensures forall j :: 0 <= j < 13 ==> (st.flags[j] <==> j == 0)
  {
    AdaptedSettings(V(2, 6, 2), before, st);
  }

  lemma NotOldest(key: Key)
    ensures KeySource(key).since > AT_2_6_2
  {
  }

  /** Below the table nothing is Valid, and nothing is provided. */
  lemma OlderKernels(v: VersionInfo, before: Settings, st: Settings, k: L.Content, key: Key)
    requires !AtLeast(v, V(2, 6, 2)) && Adapted(TABLE, v, before, st)
    ensures |st.flags| == 13
    ensures !Misread(v, key) && Truthful(v, key, k, Observe(v, st, k).nullable.Get(key))
  {
    var raw := L.Decode(Getsockopt(v, k, st.size));
    NullableTable(st.flags, raw, key);
    OlderReading(v, st.flags, raw, k, key);
    OlderMisreads(v, key);
  }

  lemma OlderMisreads(v: VersionInfo, key: Key)
    requires !AtLeast(v, V(2, 6, 2))
    ensures !Misread(v, key)
  {
    NoneReached(v, AT_4_9);
    NoneReached(v, AT_6_2);
  }

  lemma OlderReading(v: VersionInfo, flags: seq<bool>, raw: L.Content, k: L.Content, key: Key)
    requires !AtLeast(v, V(2, 6, 2)) && |flags| == 13
    requires forall j :: 0 <= j < 13 ==> (flags[j] <==> Reaches(TABLE, v, j))
    ensures Truthful(v, key, k, KernelNullable(flags, raw, key))
  {
    NoneReached(v, KeySource(key).since);
    NoneReached(v, KeyAdded(key));
  }

  lemma NoneReached(v: VersionInfo, i: nat)
    requires !AtLeast(v, V(2, 6, 2)) && i < 13
    ensures !AtLeast(v, Release(i)) && !Reaches(TABLE, v, i)
  {
    TableReleases(i);
  }

  /**
   End to end, for any release string the kernel reports and any content of its struct: a nullable field is
   truthful, unless it is one of the misread ones, which report a Valid zero.
   */
  lemma ReleaseToReport(release: string, before: Settings, st: Settings, k: L.Content, key: Key)
    requires Adapted(TABLE, VersionOf(release), before, st) && L.InRange(k)
    ensures |st.flags| == 13
    ensures var v := VersionOf(release);
            var n := Observe(v, st, k).nullable.Get(key);
            if Misread(v, key) then n == Nullable(true, 0) else Truthful(v, key, k, n)
  {
    var v := VersionOf(release);
    if AtLeast(v, V(2, 6, 2)) {
      KeyObserved(v, before, st, k, key);
      TruthOfObserved(v, k, key, Observe(v, st, k).nullable.Get(key));
    } else {
      OlderKernels(v, before, st, k, key);
    }
  }
}
