# conniver, verified

A Dafny model of the parts of conniver whose correctness is hard to see by reading: the wrapped connection
under concurrent use, the Linux `TCP_INFO` pipeline from the kernel release string to the `Valid` bit of each
field, and the ordering, timing and search logic around them.

## What is modelled

**The wrapped connection (`wrap.go`).** `Protocol` is a machine of any number of goroutines. Each goroutine
is a stack of calls, because a report callback may call back into the connection. The stores of a locked
section are separate steps, so that nothing but the mutex keeps two sections apart, and the guards of
`gatherAndReport` read shared fields without the lock, each read being one step. A run is any sequence of
enabled steps. `Serial`, `Fields`, `Locks` and `CloseOnce` prove what every run keeps; `Roles`, `Contention` and
`Overlap` settle what overlapping Close calls can do, and `Leading` builds the runs that show it.
`Wrap.Conn` is the same object used sequentially, with its fields updated in place; `Alone` shows that its
methods promise what the machine does when a call is not interrupted.

**The Linux pipeline (`kernel.go`, `init_linux.go`, `tcpinfo_linux.go`).** A release string is scanned with
the rules of `fmt.Sscanf`, compared with the version table, and turned into flags and a buffer length. The
kernel's struct is laid out as bytes (`Layout`), a prefix of it is copied into a zeroed buffer, and the
fields are read back and unpacked. `LinuxTruth` joins these steps and compares the result with what the
kernel had in its struct; `LinuxConn` carries the comparison to the snapshots that a connection stores.

**The rest.** The option lists and their printing, the response header order and the phase timings of
`httpstat`, and the Windows host and container compatibility search.

Where the code and its documentation disagree the model follows the code:

- The README of `pkg/tcpinfo` promises that `Valid` tells a real zero from an unavailable field. The 4.9 row
  of the table asks for 148 bytes although the fields it makes Valid end at byte 168, and the total_rto group
  is marked Valid from 6.2 although 6.7 added it. `FieldTruthExactly` and `PromiseExactly` give the exact
  versions and fields for which the promise holds.
- The comment on `Close` in `wrap.go` and the once-only comment in `gatherAndReport` hold as long as the Close
  calls of different goroutines do not overlap. `CloseKeepsPromises` proves that case and
  `OverlapBreaksPromises` gives runs that break each promise. The five lemmas of `Contention` that end in
  `Exactly` say, promise by promise, from which reachable states the calls in progress can still break it.
- The Linux WindowScale option carries the window, not the shift count of section 2.2 of RFC 7323. The Darwin
  loop carries the shift. `OptionNamesTrusted` says what of the list can be relied on.
- The help text of TotalRTOTime says nanoseconds; the code copies the kernel's number unscaled.

## Assumptions

- Each unlocked read of a shared field is one atomic step, and the clock never goes back. The lemmas about
  zero stamps also need a positive opening time.
- The socket never returns a negative byte count. Counters wrap as int64, and the exact sum is stated for
  totals that fit.
- Callers do not hold the mutex that `Conn` embeds while they call its methods.
- Socket results, the outcome of a gather and the time are inputs of a step.
- The kernel's struct is little-endian, and getsockopt copies the requested length or its own struct size,
  whichever is less. The version that added a field is the one in the comments of `RawTCPInfo`.
- The running kernel's version is an input: the local variable in `adaptToKernelVersion` shadows the package
  variable.
- Booleans among the unpacked fields are the numbers 0 and 1.

## Model

| member | source | states |
|---|---|---|
| Serial.EveryRunIsSerial | wrap.go:140-197 | Every interleaving of any number of calls, nested ones included, leaves the fields of the sequential run of its locked sections in the order in which the lock was taken; while a section is under way, the fields of that run and the stores the section has made so far |
| Serial.EveryRunSummarizes | wrap.go:157-197 | In every reachable state a last stamp never comes without a first, OpenedAt <= first <= last, and the stamps are zero together except exactly between the two stores of the first good transfer; outside the sections of its own transfers each direction holds the stamps of its first and last error-free non-empty transfers, the total, and the latest hard Rx error or the result of the latest Write |
| Serial.RunsAgreeOnHalf | wrap.go:156-197 | Two runs that complete the same transfers of one direction in the same order agree on that half, whatever else differs, outside the sections of that direction |
| Serial.BytesConserved | wrap.go:158-170 | In every reachable state, mid-section ones included, the counter plus the bytes in flight is what the socket delivered, in int64 arithmetic, and exactly while the total fits |
| Serial.FirstStampIsFinal | wrap.go:161-169 | A first stamp is never changed by any continuation |
| Serial.RxErrIsSticky | wrap.go:171-173 | A hard Rx error is never cleared by any continuation |
| Serial.PeeksAreSerial | wrap.go:199-237 | In every run each Warnings or ToMap call reads the state left by exactly the sections committed before it, never a half-done one |
| Fields.InfosFromHistory | wrap.go:112-135 | In every reachable state, overlapping Close calls included, OpenedInfo and ClosedInfo are what the latest error-free gather of their own kind brought, unset when there was none; InfoErr is the error of the latest failed gather, that of Control before that of GetTCPInfo, unset when none failed |
| Fields.StoredWasAnswered | wrap.go:105-135 | So in every run a stored snapshot is one that the socket answered without an error |
| Fields.StampsFromHistory | wrap.go:140-154 | In every reachable state OpenedAt is the opening time and a close stamp lies between it and the clock; outside their own sections ClosedAt is the latest close stamp and Reconnects the latest number set |
| ConnState.HalvesAreIndependent | wrap.go:157-197 | In a sequential run each half depends only on its own transfers |
| ConnState.FoldIsSummary | wrap.go:157-197 | Folding the locked sections one by one gives the declarative summary of the list |
| Locks.NoSelfDeadlock | wrap.go:112-114 | In every reachable state a goroutine that waits for the mutex, or runs a callback, does not hold it |
| Locks.HolderReleases | wrap.go:140-197 | The holder reaches its unlock by its own steps, at most six, whatever the others do |
| Locks.WaiterCanEnter | wrap.go:147-154 | From every reachable state a waiting goroutine can get the mutex |
| Locks.CallbackMayCallBack | wrap.go:88-89 | From inside any callback a nested Warnings, ToMap or SetReconnects can run to its return |
| CloseOnce.CloseKeepsPromises | wrap.go:72-154 | With a callback, in every run in which Close calls of different goroutines do not overlap, calls from inside a callback included: the socket is closed only after a Closed report, snapshots and InfoErr are written at most once, at most one Closed report follows the store of ClosedInfo, InfoErr stops all gathering, ClosedInfo excludes InfoErr |
| Overlap.QuietForever | wrap.go:84-86 | Once ClosedInfo is stored and reported, no run reports Closed again, overlapping and re-entrant Close calls included |
| Overlap.OpenedInfoOnce | wrap.go:81-83 | OpenedInfo is written at most once in every run, overlapping Close calls included |
| Overlap.KeptWithoutGathering | wrap.go:91-99 | On an unsupported platform or a connection that is not TCP, every run keeps the promises, overlapping Close calls included |
| Overlap.OverlapIsReachable | wrap.go:147-154 | After an opening that gathered, two plain Close calls reach a state in which both can still do everything |
| Overlap.OverlapBreaksPromises | wrap.go:78-135 | So when Close calls of two goroutines overlap, each promise about the close fails in some run: report first, one report, one ClosedInfo, one InfoErr, their exclusion, no gathering after InfoErr |
| Roles.StoresBounded | wrap.go:84-135 | No continuation without new Close calls stores ClosedInfo (or InfoErr) more often than there are goroutines that can still store it |
| Roles.ReportsBounded | wrap.go:84-89 | Nor does one report late more often than there are goroutines that can still report |
| Contention.WrittenOnceExactly | wrap.go:112-135 | From every reachable state, every continuation without new Close calls has ClosedInfo (or InfoErr) stored at most once if and only if the stores so far and the goroutines that can still store are at most one |
| Contention.ReportFirstExactly | wrap.go:84-89 | From every reachable state, every such continuation closes the socket only after a Closed report if and only if it was so until now and either there was a report, or nobody is about to close and no call that has yet to read ClosedInfo finds it set or runs beside another that can still set it |
| Contention.ReportOnceExactly | wrap.go:84-89 | From every reachable state, every such continuation has at most one Closed report after the store of ClosedInfo if and only if, before the store, no call that can still report runs beside another that can still store, and after it, late reports and calls that can still report are at most one |
| Contention.ErrStopsExactly | wrap.go:91-94 | From every reachable state, InfoErr stops all gathering in every such continuation if and only if it did until now and, with InfoErr set, nobody can still fetch, or else no goroutine that can still fetch runs beside another that can still fail |
| Contention.ExclusiveExactly | wrap.go:116-135 | From every reachable state, ClosedInfo and InfoErr exclude each other in every such continuation if and only if they do now, nobody can still set the second one and, with neither set, no goroutine that can still fail runs beside another that can still store |
| Contention.BothLand | wrap.go:84-135 | Two calls with roles to store can both store: the same field twice, or both fields |
| Contention.ShutUnreported | wrap.go:84-89 | A call that finds ClosedInfo set can close the socket before the other has reported |
| Contention.BothReport | wrap.go:84-89 | Two calls can both report after the store of ClosedInfo |
| Contention.FetchAfterErr | wrap.go:91-119 | A call past the InfoErr check can ask the socket after the other has stored InfoErr |
| Wrap.Conn.constructor | wrap.go:60-70 | A fresh connection is gathered once, the snapshot that was answered is its OpenedInfo, and with a callback it is reported in Opened state with the final fields |
| Wrap.Conn.GatherAndReport | wrap.go:72-136 | If the gather asks the socket, a failure becomes InfoErr (Control first), an answer becomes the snapshot of its own kind, and nothing else changes; otherwise no field changes; the report comes exactly when there is a callback and the snapshot was not set |
| Wrap.GatheredObeys | wrap.go:72-136 | The specification that the machine is compared with obeys the same law |
| Wrap.Conn.SetReconnects | wrap.go:140-144 | Sets the count and nothing else |
| Wrap.Conn.Close | wrap.go:147-154 | The close time is stored, the gather obeys the law of GatherAndReport, and the report, if any, shows the close time and comes before the socket is closed |
| Wrap.Conn.Read | wrap.go:157-175 | The effect of one Rx locked section, and the socket's own results |
| Wrap.Conn.Write | wrap.go:178-197 | The effect of one Tx locked section, and the socket's own results |
| Wrap.Conn.Warnings | wrap.go:199-203 | The warnings of the current fields |
| Wrap.SnapshotWarnings | wrap.go:210-218 | The loop lists the warnings of the snapshots that exist, in order |
| Wrap.SnapshotLines | pkg/tcpinfo/tcpinfo_linux.go:750-771 | The warnings of a snapshot are a line for each of its seven signals that is up, in their order, with the label and the decimal number of that signal |
| Wrap.WarningsInOrder | wrap.go:205-220 | The warnings of a connection are the reconnects if there were any, the lines of the opening snapshot, then those of the closing one |
| Wrap.SilentIffHealthy | wrap.go:205-220 | There is no warning if and only if there were no reconnects and both snapshots are healthy |
| Alone.RunsAlone | wrap.go:72-197 | The machine can make all the steps of one goroutine with the others standing still |
| Alone.TransferIsARun | wrap.go:157-197 | An uninterrupted Read or Write of the machine ends in the state the object's method promises |
| Alone.CloseIsARun | wrap.go:147-154 | An uninterrupted Close ends in the promised state, with the promised report before the closing |
| Alone.OpenIsARun | wrap.go:60-70 | An uninterrupted opening ends in the state, and with the report, that the object's constructor promises |
| Alone.CallIsARun | wrap.go:140-237 | Every one of the six calls, started by an idle goroutine or from inside a callback and not interrupted, returns with the fields that the method of its own name promises; the two readers read the state they found |
| Kernel.AtLeastIsTotalPreorder | pkg/kernel/kernel.go:26-46 | Comparison is total, transitive, antisymmetric up to the flavor, and antisymmetric in sign |
| Kernel.CompareIsLexicographic | pkg/kernel/kernel.go:24-46 | The answer is -1, 0 or 1: negative exactly when the first of the three numbers that differs is smaller, 0 exactly when none differs |
| Kernel.ParseUndoesString | pkg/kernel/kernel.go:49-74 | Parsing a printed version gives it back when its flavor has no white space and no leading digit |
| Kernel.RoundTripExactly | pkg/kernel/kernel.go:20-22 | And only then |
| Kernel.ParsedShape | pkg/kernel/kernel.go:55-66 | What every successful parse yields: numbers in range, a flavor without white space, without a leading digit if the release has no white space |
| Kernel.ReparseExactly | pkg/kernel/kernel.go:49-74 | A parsed version survives printing and parsing if and only if its flavor has no leading digit, so always for a release without white space |
| Kernel.SpaceBreaksReparse | pkg/kernel/kernel.go:57-66 | A release with white space before a word that starts with a digit parses to a version that does not survive |
| Kernel.ParsesExactly | pkg/kernel/kernel.go:55-60 | A release without white space parses if and only if it starts with two numerals in range with a dot between them |
| Kernel.NoMinorPart | pkg/kernel/kernel.go:62-66 | For all such releases without a second dot, as in 3.12-1-amd64: the two numbers, minor 0, and all the rest as the flavor |
| Kernel.MinorPart | pkg/kernel/kernel.go:62-66 | For all such releases with a third numeral in range after a second dot: the three numbers, and what follows as the flavor |
| Kernel.BadMinorPart | pkg/kernel/kernel.go:62-66 | For all such releases whose second dot no numeral in range follows: minor 0, and the dot and what follows as the flavor |
| Kernel.NoLeadingZero | pkg/kernel/kernel.go:20-22 | A printed number starts with a zero if and only if it is zero |
| Adapt.Adapter.constructor | pkg/tcpinfo/init_linux.go:16-57 | An adapter for any ascending table, with all flags false and size 0 |
| Adapt.Adapter.AdaptTo | pkg/tcpinfo/init_linux.go:63-82 | For any earlier flags, flag j is set if and only if the version reaches row j, and the size is that of the greatest row reached, unchanged if there is none |
| Adapt.AdaptedIsUnique | pkg/tcpinfo/init_linux.go:63-82 | That specification leaves one possible outcome |
| Adapt.SizeIsNeverStale | pkg/tcpinfo/init_linux.go:69-81 | Over any sequence of adaptations, when the oldest flag is set the size is that of the greatest row not above the latest version |
| Linux.TableAscends | pkg/tcpinfo/init_linux.go:43-57 | The version table is strictly ascending |
| Layout.HoldsItsBytes | pkg/tcpinfo/tcpinfo_linux.go:20-80 | Every byte of the struct belongs to a field |
| Layout.CoversOnlyItself | pkg/tcpinfo/tcpinfo_linux.go:20-80 | And to one field only: no overlap, no padding |
| Layout.ReadBack | pkg/tcpinfo/tcpinfo_linux_others.go:12-36 | Read from a prefix copy, a field inside the prefix is the kernel's number and a field past it is zero |
| Linux.PlainTable | pkg/tcpinfo/tcpinfo_linux.go:376-425 | The unconditional fields, each with the raw field and the conversion that the source table gives |
| Linux.NullableTable | pkg/tcpinfo/tcpinfo_linux.go:376-534 | The version-dependent fields, each with the flag, the raw field and the conversion that the source table gives |
| Linux.UnpackOlder | pkg/tcpinfo/tcpinfo_linux.go:389-471 | The guarded blocks up to the delivery rate leave in each of their fields what the source table says, or zero, and touch no other |
| Linux.UnpackNewer | pkg/tcpinfo/tcpinfo_linux.go:473-534 | The guarded blocks from the busy time on leave in each of their fields what the source table says, or zero, and touch no other |
| Linux.Unpack | pkg/tcpinfo/tcpinfo_linux.go:376-552 | Every plain field reads what the source table says, every nullable one is Valid by its flag and reads what the table says or is zero, and both option lists are as specified |
| Linux.TimesInNanoseconds | pkg/tcpinfo/tcpinfo_linux.go:370-460 | Every time field is 1000 times its raw number |
| Linux.StatesAreNumbered | pkg/tcpinfo/tcpinfo_linux.go:580-608 | The name of a state is the one at its place in the enumeration, which starts at one; other numbers have no name |
| LinuxTruth.StructGrowsAtEnd | pkg/tcpinfo/tcpinfo_linux.go:20-80 | A kernel has a field if and only if it fits in that kernel's struct |
| LinuxTruth.AdaptedSettings | pkg/tcpinfo/init_linux.go:63-82 | The flags and the size that any adaptation leaves for a supported version |
| LinuxTruth.FlagsInNumbers | pkg/tcpinfo/init_linux.go:43-57 | After any adaptation each of the thirteen flags says that the version numbers are lexicographically at least those in its name |
| LinuxTruth.NeverAsksTooMuch | pkg/tcpinfo/init_linux.go:43-57 | The requested length never exceeds the kernel's own struct |
| LinuxTruth.KeyObserved | pkg/tcpinfo/tcpinfo_linux.go:376-534 | What the whole pipeline reports for any field, version and struct content |
| LinuxTruth.FieldTruthExactly | pkg/tcpinfo/README.md:43-48 | For every version from 2.6.2, earlier settings and field: the report is truthful for every struct content if and only if the field is not one of four on [4.9, 4.10) or three on [6.2, 6.7) |
| LinuxTruth.PromiseExactly | pkg/tcpinfo/README.md:43-48 | So the promise holds for all fields if and only if the version is outside those two ranges |
| LinuxTruth.OlderKernels | pkg/tcpinfo/init_linux.go:69-81 | Below 2.6.2 nothing is Valid, which is the truth |
| LinuxTruth.ReleaseToReport | pkg/tcpinfo/init_linux.go:63-82 | From any release string to any field: truthful, or a Valid zero for the misread ones |
| LinuxTruth.UnparsableIsOldest | pkg/tcpinfo/init_linux.go:63-67 | For a release that does not parse only the oldest flag is set, 104 bytes are asked for, and no version-dependent field is Valid |
| LinuxTruth.PlainAlwaysTrue | pkg/tcpinfo/tcpinfo_linux.go:376-425 | The fields of the oldest struct are the kernel's own on every supported version |
| LinuxTruth.OptionsObserved | pkg/tcpinfo/tcpinfo_linux.go:536-549 | The option lists that the pipeline reports, and from which versions the window values are real |
| LinuxTruth.OptionNamesTrusted | pkg/tcpinfo/tcpinfo_linux.go:536-549 | On every supported version the names give back the kernel's options byte, in both directions alike |
| LinuxMap.KeysGrow | pkg/tcpinfo/tcpinfo_linux.go:197-364 | A newer kernel never loses a key of ToMap, for any contents of the two structs and the same congestion control data |
| LinuxMap.KeyInMap | pkg/tcpinfo/tcpinfo_linux.go:197-364 | ToMap has the key of a version-dependent field if and only if the field is Valid |
| LinuxMap.CCKeyInMap | pkg/tcpinfo/tcpinfo_linux.go:197-364 | And the key of a congestion control field if and only if that field is Valid |
| LinuxMap.MapKeysAre | pkg/tcpinfo/tcpinfo_linux.go:197-364 | Besides these it has the fixed keys, always, and no other |
| LinuxMap.KeysExactly | pkg/tcpinfo/tcpinfo_linux.go:197-364 | For every supported version and every content of the struct, ToMap has the key of a field if and only if the version reaches the one from which the field is marked Valid |
| LinuxCC.CCTable | pkg/tcpinfo/tcpinfo_linux.go:671-698 | Congestion control data fills its own group with its own values and changes nothing else |
| LinuxCC.UnpackedGroups | pkg/tcpinfo/tcpinfo_linux.go:671-698 | Groups match the algorithm if and only if the data of a known algorithm was read |
| LinuxCC.OneGroup | pkg/tcpinfo/tcpinfo_linux.go:671-698 | Then at most one group is Valid |
| LinuxCC.CompleteResults | pkg/tcpinfo/tcpinfo_linux.go:701-744 | A result returned without an error has matching groups, and which of those returned with one do |
| LinuxCC.ResultKeepsStruct | pkg/tcpinfo/tcpinfo_linux.go:701-744 | Once the struct is fetched the result is the unpacked struct with the algorithm that was named, whatever became of the later calls |
| LinuxCC.GroupFields | pkg/tcpinfo/tcpinfo_linux.go:671-744 | A group field of the result is Valid if and only if the algorithm is its own and the call for it succeeded, and then has the number of that call |
| LinuxCC.FirstFailure | pkg/tcpinfo/tcpinfo_linux.go:701-744 | The error is that of the first call that failed, none if none did; below 2.6.2, or without the struct, there is no result |
| LinuxConn.StoredGroupsMatch | wrap.go:108-135 | In every interleaving on Linux a stored snapshot has a group Valid if and only if its algorithm names it |
| LinuxConn.ResultIsObserved | pkg/tcpinfo/tcpinfo_linux.go:701-744 | The result of GetTCPInfo on a struct that the kernel had is, but for the congestion control, what the whole pipeline reports for that struct |
| LinuxConn.StoredIsTruthful | wrap.go:108-135 | In every interleaving on a kernel of any version, each stored snapshot reports a struct that the kernel had: plain fields the kernel's own, nullable fields truthful but for the misread ones of the two version ranges |
| Options.UnpackOptions | pkg/tcpinfo/tcpinfo_linux.go:536-549 | The loop builds both lists as specified, for any table of single bits |
| Options.ListedIffSet | pkg/tcpinfo/tcpinfo_linux.go:536-549 | An option is listed if and only if its bit is set |
| Options.OneEntryEach | pkg/tcpinfo/tcpinfo_linux.go:536-549 | There is exactly one entry for each set option |
| Options.EntryAt | pkg/tcpinfo/tcpinfo_linux.go:536-549 | It stands in table order, under its name, with the window value if it is WindowScale and 0 otherwise |
| Options.LinuxKinds | pkg/tcpinfo/tcpinfo_linux.go:610-642 | The eight Linux names, each with the bit that stands for it |
| Options.OnlyWindowScale | pkg/tcpinfo/tcpinfo_linux.go:542-547 | Only the option with bit 4, WindowScale, carries a value |
| Options.SameKinds | pkg/tcpinfo/tcpinfo_linux.go:542-547 | Tx and Rx name the same options in the same order |
| Options.MaskRecovered | pkg/tcpinfo/tcpinfo_linux.go:622-642 | The known bits can be recovered from the names |
| Options.PlatformMasks | pkg/tcpinfo/tcpinfo_darwin.go:187-200 | The whole byte on Linux, the low four bits on Darwin |
| Options.PrintedOptionReadsBack | pkg/tcpinfo/tcpinfo.go:66-71 | A printed option can be read back if and only if its kind has no colon |
| Options.PrintingIsInjective | pkg/tcpinfo/tcpinfo.go:66-71 | So printing is injective on such options |
| Options.ColonsCollide | pkg/tcpinfo/tcpinfo.go:66-71 | With a colon, every option that has a value prints like another one |
| Options.Hex2Shape | pkg/tcpinfo/tcpinfo.go:70-70 | A printed value has at least two digits, and a leading zero only to make them two |
| Headers.LessIsBefore | cmd/httpstat/main.go:552-586 | On distinct names the comparator is the class-then-name order, strict and total |
| Headers.BeforeTransitive | cmd/httpstat/main.go:552-586 | That order is transitive |
| Headers.OnlyServerPrecedesItself | cmd/httpstat/main.go:555-558 | The comparator itself is irreflexive for every name except Server |
| Headers.ClassesAre | cmd/httpstat/main.go:555-579 | The classes: Server alone, the eight hop-by-hop names, and all others between |
| Headers.BelowMeans | cmd/httpstat/main.go:581-584 | The order of names: a proper beginning, or the smaller character where the two first differ |
| Headers.PrintedInOrder | cmd/httpstat/main.go:345-352 | A list of distinct names is sorted if and only if it is Server, then end-to-end ascending, then hop-by-hop ascending |
| Headers.OutputIsDetermined | cmd/httpstat/main.go:345-352 | Any two sorted lists of the same names are equal, so map iteration order does not show |
| Phases.HooksConsistent | cmd/httpstat/main.go:250-269 | After any prefix of the trace hooks in their order, the captured times are ordered as far as they are set |
| Phases.HooksCaptured | cmd/httpstat/main.go:250-269 | After any prefix of the trace hooks in their order, each time that plain http prints is that of its own hook in the list, unset when the hook has not come; the end of the lookup falls back on the first connection attempt |
| Phases.SingleStamps | cmd/httpstat/main.go:250-269 | All hooks but those of the connection attempts come at most once |
| Phases.PhasesAreStamps | cmd/httpstat/main.go:391-401 | For every completed plain http request each printed duration is the time between the hooks it is named after; without a lookup everything starts at the first connection attempt |
| Phases.MillisTruncate | cmd/httpstat/main.go:358-364 | A printed value is the number of whole milliseconds |
| Phases.PhasesAccountForTotal | cmd/httpstat/main.go:391-401 | For every completed plain http request the phases are not negative, sum to the total, and their printed milliseconds fall short of the printed total by 0 to 3 |
| Compat.CheckHostAndContainerCompat | pkg/osversion/platform_compat_windows.go:16-45 | The backward search answers yes if and only if the container lies between the host's floor and the host, for any ascending list that starts at LTSC2022 |
| Compat.FloorExists | pkg/osversion/platform_compat_windows.go:28-43 | Every host has a floor, not above itself |
| Compat.RunsItself | pkg/osversion/platform_compat_windows.go:16-45 | Compatibility is reflexive and never admits a newer container |
| Compat.AcceptsOneInterval | pkg/osversion/platform_compat_windows.go:16-45 | The accepted builds are one interval that ends at the host |
| Compat.FloorIsMonotone | pkg/osversion/platform_compat_windows.go:28-43 | A newer host never has a lower floor |
| Compat.SupportsPreviousRelease | pkg/osversion/platform_compat_windows.go:10-15 | Every listed release after the first supports the one before it and nothing older |
| Compat.ReleasesWellFormed | pkg/osversion/platform_compat_windows.go:5-8 | The built-in list is ascending and starts at LTSC2022 |

## Left out

- Wrap.Conn: sequential; its callback is the entry it leaves in `notes`, and calls made from inside a callback are in Protocol only.
- KeysGrow: speaks of the keys; the values of the map are copies of the fields.
- PhasesAreStamps: plain http; the https case adds the two TLS stamps.
- PhasesAccountForTotal: plain http likewise.
- ParsesExactly: speaks of releases without white space, as do NoMinorPart, MinorPart and BadMinorPart; ParsedShape and SpaceBreaksReparse cover the others.
- Linux.Unpack: a raw struct is a number per field, so the widths of the Go integer types are not modelled; the pointers and the copy between Go structs add nothing.
- Conn.ToMap: its locking and the fields it reads are modelled; the map it builds is a copy of them.
- Weak memory: an unlocked read racing with a store is modelled as one atomic step.
- Socket calls, SyscallConn, rawConn.Control and getsockopt errors: inputs of a step. A failing SyscallConn counts as a connection that is not TCP, fixed for its life.
- The 386 variant of the fetch, big-endian machines, Darwin and Windows unpacking other than the option loop: field copies.
- JSON encoding, struct tags, SysInfo.ToInfo other than the retransmit count: copies.
- Sorting itself: sort.Sort is taken at its guarantee, that no later name is less than an earlier one.
- pkg/os, registry and uname access, the rest of cmd/httpstat and cmd/get: input, output and platform lookups.
