# hebi: the Go runtime and the emitter, modelled in Dafny

hebi compiles Go to Python. Its emitter writes Python modules, and the Python
module `_hebirt` supplies the parts of Go that Python lacks. This project
models the parts with the most state, branching and arithmetic, and proves what
each of them is for.

- **Channels and select.** `Channels.dfy` has the channel object, each method one
  critical section on its fields, select on channel objects, and the whole
  program as a transition system: any number of threads and channels, one shared
  condition, each stretch between two waits one step, the random choice of select
  a parameter of the step. `ChannelSafety.dfy` proves the invariant,
  `ChannelTheorems.dfy` what follows from it, `ChannelRendezvous.dfy` capacity and
  rendezvous with and without select sends.
- **RWMutex, Cond, Once.** The same method in `RWMutex.dfy`, `Cond.dfy`, `Once.dfy`.
- **Calendar and time.** `Calendar.dfy` and `Times.dfy` are the civil calendar,
  carries, Add, Sub and AddDate. `TimeLayout.dfy` is the layout scanner that
  drives both the printer (`TimeFormat.dfy`) and the parser (`TimeParse.dfy`);
  `TimeRoundTrip.dfy` proves the RFC 3339 round trip, `TimePieces.dfy` says of each
  piece when it reads back and `TimeZones.dfy` which instant a zone lands on.
- **UTF-8.** `Utf8.dfy`: encoder, both decoders, validator, count, backward decoder.
- **Slices.** `Slices.dfy`: headers over shared backings on Dafny's heap, append,
  reslice, copy, and the amortised cost of growth.
- **Defer and panic.** `Defer.dfy` has Go's rule for a function that defers and,
  beside it, the Python shape the emitter writes, run by a small interpreter;
  `DeferSafety.dfy` compares the two.
- **The intermediate representation and the emitter.** `IR.dfy` is the tree,
  `IRVerify.dfy` the verifier. `EmitText.dfy`, `EmitExpr.dfy` and `EmitWrite.dfy`
  render expressions, `EmitLayout.dfy` lays statements out as indented lines and
  `EmitModule.dfy` writes whole modules with their imports and entry guard.
  `PyGrammar.dfy` has Python's expressions, `EmitGrammar.dfy` and `EmitSpelling.dfy`
  the tree an emitted text is read as. `EmitReading.dfy` and `EmitRoundTrip.dfy`
  read the lines back, `EmitSource.dfy` and `EmitSourceTree.dfy` from characters.
  `EmitComplete.dfy` and `EmitVerified.dfy` say what acceptance by the verifier promises, `EmitParts.dfy`
  and `EmitFields.dfy` what a constructor looks up and defaults to, `ShimUse.dfy`
  and `ShimImport.dfy` compare the import analysis with the text, and
  `CrashGuard.dfy` the crash guard with the panics in the tree.
- **Durations and integers as text.** `Duration.dfy`, `IntText.dfy`, `Digits.dfy`.

Loops and updated fields are methods and classes, each proved against a pure
function of its inputs or its old state; the theorems are about those functions.

## Where the code does less than its comments say

The model follows the code. In these places it does not do what its own comments
or documentation say; each is settled by a lemma that gives the exact condition
or a run on which it fails.

- A parked select is said to be woken by any channel operation. An arriving
  receiver notifies nobody, so a select send can sleep beside a waiting receiver
  (`SelectLostWakeupExactly`, `SelectSendIsLeftBehind`).
- A select send is ready on a full buffered channel when receivers are parked,
  and then exceeds the capacity (`OverflowsExactly`, `SelectSendCanOverflow`).
- The receiver that made a select send ready is said to take its value on the
  next wake. It may take another channel's instead (`RendezvousExactly`,
  `SelectSendIsNotTaken`).
- A send on an unbuffered channel can panic although its value was received
  (`WokenSenderExactly`, `ReceivedSendMayStillPanic`).
- A numeric zone is said to land the instant exactly. One second west is the mark
  for no zone, and UTC named beside an offset overrides it; only a layout with
  seconds in a zone or with both can lose an instant (`NumericZoneExactly`,
  `LayoutLandsExactly`, `OneSecondWestIsLost`).
- Of the reshaped defer block it is said that every exit runs the deferred calls
  exactly once. A second panic in the handler leaves the rest out
  (`AgreesWithGoExactly`, `SecondPanicSkipsACall`). The plain block is said to
  match Go's rule; any panic of a call that is not the last leaves the rest out
  (`PlainAgreesExactly`, `PlainSkipsACall`).
- An unhandled operator is said to be a hard error. In the zero of a field it
  leaves the default unwritten (`UnknownOperatorExactly`, `UnknownZeroIsDropped`).
- The import of the runtime is said to be there only when the module uses it. An
  array of length zero drops its element's text but not its import
  (`UnusedImportExactly`, `EmptyArrayImportsForNothing`), and the crash guard of a
  module that only defers names a runtime that is not imported
  (`MissingImportExactly`, `PlainDeferMissesImport`).
- The search for panics is said to recurse into every form. It does not enter slice
  literals, make, addresses and captures, so a main can run without its crash guard
  (`UnwindsExactly`, `GuardExactly`, `SliceLiteralUnguarded`).
- The suffixed constructor parameter is said to keep the class name free. Names
  looked up in the zero of an array are not considered, the suffixed name can be
  another class, and it can meet another parameter (`ParamHidesNameExactly`,
  `ArrayElementHidden`, `ConversionHidden`, `SuffixHides`, `ParamsClashExactly`,
  `ParamsMeet`).
- Integer parsing is said to follow `strconv`. Go's literals (the section "Integer
  literals" of the Go Programming Language Specification) admit an underscore
  straight after a base prefix, which the code refuses, and Go's unsigned parser
  takes no sign, while the code takes a plus (`FollowsGoExactly`,
  `GoReadsOtherwise`). The comparison is of literals, their values and bounds; which
  error `strconv` reports for a refused text is not part of it.

Three limits have no comment against them. A day of the year that Format pads with
blanks is not read back below 100 (`PieceReadsExactly`, `YearDayReads`). A lambda
and a repeated list are written without parentheses, so where something binds
tighter the text is another expression (`ReadsAsTreeExactly`, `LambdaTakesOperand`,
`LengthIsIndexed`). A source line that reads as another kind of line, or as none,
loses its statement (`SourceReadsAsTreeExactly`, `PassIsLost`).

## Model

| member | source | states |
|---|---|---|
| `Channels.Chan.BeginSend` | pkg/shim/runtime/_hebirt.py:3471-3493 | The stretch of a plain send up to its first wait changes the channel object exactly as the pure segment `SendEnter` says: panic when closed, deposit and wait when unbuffered, otherwise the room loop. |
| `Channels.Chan.ResumeDrain` | pkg/shim/runtime/_hebirt.py:3483-3487 | After a wake the unbuffered sender stays parked, returns, or panics, and changes nothing. |
| `Channels.Chan.ResumeRecv` | pkg/shim/runtime/_hebirt.py:3499-3516 | One turn of the receive loop takes the oldest value, or reports the zero value of a closed drained channel, and leaves the parked-receiver count right on every exit. |
| `Channels.Chan.Close` | pkg/shim/runtime/_hebirt.py:3518-3523 | Close sets the flag once and panics the second time. |
| `Channels.SelectOnce` | pkg/shim/runtime/_hebirt.py:3642-3671 | One turn of select on channel objects, aliased cases included: a ready case if there is one, that channel changed by its operation and no other; otherwise the default, or each receive case registered as often as it occurs. |
| `ChannelSafety.StepKeepsInv` | pkg/shim/runtime/_hebirt.py:3471-3671 | Every step of every thread keeps the invariant: conservation, the parked-receiver counts, and no lost wakeup for guards that read only buffer and closed flag. |
| `ChannelTheorems.ReachableStatesAreSafe` | pkg/shim/runtime/_hebirt.py:3446-3671 | The invariant holds in every state reachable with any number of threads and channels. |
| `ChannelTheorems.RunGrows` | pkg/shim/runtime/_hebirt.py:3471-3546 | Over any run the deposited and received histories only grow, a closed channel stays closed and takes no further deposit. |
| `ChannelTheorems.ReceivesInDepositOrder` | pkg/shim/runtime/_hebirt.py:3499-3508 | A receive with ok true hands out the oldest deposited value not yet received, of the channel operated on and of no other. |
| `ChannelTheorems.OkFalseMeansDrained` | pkg/shim/runtime/_hebirt.py:3509-3513 | ok is false only on a closed channel whose every deposit was received, and the value is its zero. |
| `ChannelTheorems.DrainedForever` | pkg/shim/runtime/_hebirt.py:3509-3513 | From then on it stays so over every run: each later receive is the zero value with ok false. |
| `ChannelTheorems.UnbufferedSendWasReceived` | pkg/shim/runtime/_hebirt.py:3479-3488 | An unbuffered send that returns normally had its own value, by position in the history, received first. |
| `ChannelTheorems.WokenSenderExactly` | pkg/shim/runtime/_hebirt.py:3483-3487 | In every reachable state a woken unbuffered sender panics if and only if the channel is closed with any value undelivered, returns if and only if none is, and waits otherwise. |
| `ChannelTheorems.ReceivedSendMayStillPanic` | pkg/shim/runtime/_hebirt.py:3485-3487 | So a sender can panic although its own value was received: a run on which it does. |
| `ChannelTheorems.SenderAndReceiverNeverBothStuck` | pkg/shim/runtime/_hebirt.py:3471-3516 | On no reachable state do an un-notified parked sender and an un-notified parked receiver, plain or in a select, wait on the same channel. |
| `ChannelTheorems.SelectLostWakeupExactly` | pkg/shim/runtime/_hebirt.py:3642-3671 | A parked, un-notified select has a ready case if and only if one of its send cases has more receivers parked on its channel, its own not counted, than values in the buffer. |
| `ChannelTheorems.ReceiveSelectsAreWoken` | pkg/shim/runtime/_hebirt.py:3659-3671 | A select of receive cases only is never left parked beside a ready case. |
| `ChannelTheorems.SelectSendIsLeftBehind` | pkg/shim/runtime/_hebirt.py:3502-3502 | It does happen with a send case: a run that ends with a select sender and a receiver both asleep on one channel, the send ready, and no thread able to move. |
| `ChannelRendezvous.DisciplineHolds` | pkg/shim/runtime/_hebirt.py:3488-3493 | Without select sends every run keeps each buffer within its capacity and fills no position by a select. |
| `ChannelRendezvous.RendezvousExactly` | pkg/shim/runtime/_hebirt.py:3479-3487 | Over every run, select sends included: a value in an open unbuffered channel has its sender still parked with it if and only if no select put it there. |
| `ChannelRendezvous.CapacityAndRendezvous` | pkg/shim/runtime/_hebirt.py:3479-3493 | So without select sends no buffered channel exceeds its capacity, and each value in an open unbuffered channel belongs to a sender still waiting. |
| `ChannelRendezvous.SelectSendIsNotTaken` | pkg/shim/runtime/_hebirt.py:3538-3546 | A run after which the value of a select send lies in an open unbuffered channel and no thread is left. |
| `ChannelRendezvous.OverflowsExactly` | pkg/shim/runtime/_hebirt.py:3531-3546 | A step takes a buffered channel over its capacity if and only if it fires a select send on that channel while it is full and open. |
| `ChannelRendezvous.SelectSendCanOverflow` | pkg/shim/runtime/_hebirt.py:3536-3546 | A run that reaches two values in a channel of capacity one. |
| `RWMutexes.RWMutex.BeginLock` | pkg/shim/runtime/_hebirt.py:3785-3791 | The first stretch of Lock counts the writer and then takes the lock or waits, as the pure segments say. |
| `RWMutexes.RWMutex.Unlock` | pkg/shim/runtime/_hebirt.py:3794-3799 | Unlock of a lock that is not write-held is fatal; otherwise the lock is released and every waiter notified. |
| `RWMutexes.MutualExclusion` | pkg/shim/runtime/_hebirt.py:3769-3815 | In every reachable state there is at most one writer, never beside a reader, the fields count the actual holders, and the waiting-writer field counts the threads blocked in Lock. |
| `RWMutexes.FatalExactlyOnUnheld` | pkg/shim/runtime/_hebirt.py:3776-3799 | A step is fatal if and only if it unlocks what nobody holds. |
| `RWMutexes.NobodyIsStuck` | pkg/shim/runtime/_hebirt.py:3769-3799 | While the lock is free and anyone is blocked, some blocked thread is notified and gets the lock when it resumes, a writer if a writer waits. |
| `RWMutexes.WriterIsNotStarved` | pkg/shim/runtime/_hebirt.py:3769-3791 | Over a run during which a writer waits throughout, readers change only by their releases. |
| `Conds.PendingStays` | pkg/shim/runtime/_hebirt.py:3893-3908 | A wait that has released L stays asleep or about to be, or woken, whatever step any thread takes. |
| `Conds.BroadcastWakesEveryWaiter` | pkg/shim/runtime/_hebirt.py:3918-3921 | A Broadcast wakes every wait that had released L when the Broadcast began, wherever the call fell between the lines of the wait. |
| `Conds.SignalWakesOneWaiter` | pkg/shim/runtime/_hebirt.py:3911-3915 | A Signal wakes exactly the longest sleeper, or finds that every wait it owed a wakeup is already woken. |
| `Conds.WaitReturnsWokenWithL` | pkg/shim/runtime/_hebirt.py:3893-3908 | A wait returns only after it was woken, and holds L when it does. |
| `Onces.OnceAndBeforeAnyReturn` | pkg/shim/runtime/_hebirt.py:3859-3867 | fn is started at most once, and no once_do returns before that one call has ended. |
| `Onces.PanicLeavesOnce` | pkg/shim/runtime/_hebirt.py:3859-3867 | Over every run fn panics at most once, and its panic leaves by exactly one call or is still on its way out. |
| `Onces.OnlyTheRunnerSeesThePanic` | pkg/shim/runtime/_hebirt.py:3859-3867 | Once the call that ran fn has left, no later or waiting caller ever holds a panic. |
| `Calendar.DaysRoundTrip` | pkg/shim/runtime/_hebirt.py:2549-2568 | For every integer day number the civil date is valid and converts back to that number. |
| `Calendar.DateRoundTrip` | pkg/shim/runtime/_hebirt.py:2549-2568 | For every valid date the day number converts back to that date. |
| `Calendar.ConsecutiveDays` | pkg/shim/runtime/_hebirt.py:2558-2568 | Consecutive day numbers are consecutive Gregorian dates, month lengths and leap years defined independently. |
| `Calendar.EpochDay` | pkg/shim/runtime/_hebirt.py:2558-2568 | Day 0 is 1970-01-01; with the previous row this fixes the whole calendar. |
| `Calendar.YearDayCounts` | pkg/shim/runtime/_hebirt.py:2688-2690 | YearDay is the number of days of the year up to the date, between 1 and 365 or 366. |
| `Times.TimeDateConserves` | pkg/shim/runtime/_hebirt.py:2772-2787 | For arbitrary integer components, normalising carries conserves the total: the instant in nanoseconds is the weighted sum of the inputs less the offset, months counted as 12*year+month, with nanoseconds in [0, 1e9). |
| `Times.ShowsItsFields` | pkg/shim/runtime/_hebirt.py:2650-2682 | A time built from a valid date and clock reading shows exactly those fields in its zone. |
| `Times.NamedByItsFields` | pkg/shim/runtime/_hebirt.py:2772-2787 | Building a time from the fields another one shows gives that time back. |
| `Times.AddDateDays` | pkg/shim/runtime/_hebirt.py:2724-2727 | AddDate(0, 0, n) is Add of n days, for every n. |
| `Times.AddTotal` | pkg/shim/runtime/_hebirt.py:2714-2718 | Add moves the instant by exactly d nanoseconds, negative or not, and keeps the nanoseconds normalised. |
| `Times.SubUndoesAdd` | pkg/shim/runtime/_hebirt.py:2720-2722 | t.Add(d).Sub(t) is d wrapped to a signed 64-bit integer, so it is d if and only if d fits int64. |
| `Times.SubWraps` | pkg/shim/runtime/_hebirt.py:143-145 | The first duration that does not fit comes back as the least one. |
| `TimeLayout.ScanChunk` | pkg/shim/runtime/_hebirt.py:2811-2898 | The scanning loop computes the leftmost chunk of a layout. |
| `TimeLayout.ChunkPartitions` | pkg/shim/runtime/_hebirt.py:2811-2898 | For every layout, prefix, piece and suffix rebuild it, a piece is never empty, so each chunk strictly shortens the layout and both loops over it end. |
| `TimeLayout.ChunkIsLeftmost` | pkg/shim/runtime/_hebirt.py:2811-2898 | The chunk is the one cut out by the piece at the first offset that holds one, and the layout is literal if and only if none does. |
| `TimeFormat.Format` | pkg/shim/runtime/_hebirt.py:2947-3033 | The formatting loop fills each piece of the layout with the component of the time, for every layout. |
| `TimeParse.Parse` | pkg/shim/runtime/_hebirt.py:3192-3415 | The parsing loop, with its early error exits, computes the specified result for every layout and value. |
| `TimeParse.SplitYearDay` | pkg/shim/runtime/_hebirt.py:3383-3387 | The month loop computes the specified split. |
| `TimeParse.OfYearDayInYear` | pkg/shim/runtime/_hebirt.py:3379-3387 | A day of the year in range is split into a valid month and day with the same count. |
| `TimePieces.PieceReadsExactly` | pkg/shim/runtime/_hebirt.py:3227-3303 | For every time and every date and clock piece, whatever text and layout follow: what Format prints for the piece is read back as that component with the text after it untouched if and only if the component fits the piece (a two-digit year from 1969 to 2068, a long year from 0 to 9999, a blank-padded day of the year from 100 on) and an unpadded number does not run on into digits, nor a second into a fraction nobody asks for. |
| `TimePieces.YearDayReads` | pkg/shim/runtime/_hebirt.py:3256-3257 | A zero-padded day of the year always reads back; a blank-padded one below 100 is refused. |
| `TimeZones.NumericZoneReads` | pkg/shim/runtime/_hebirt.py:3304-3340 | A numeric zone reads as the sign and the hours, minutes and seconds of its text, and takes exactly its text. |
| `TimeZones.NumericZoneExactly` | pkg/shim/runtime/_hebirt.py:3192-3415 | Over a whole parse: the instant is the wall clock reading less the last numeric offset in the text if and only if, with UTC named beside it, that offset is zero, and without, it is not one second west, the mark for no zone, or the default zone that then stands in is itself one second west. |
| `TimeZones.LayoutLandsExactly` | pkg/shim/runtime/_hebirt.py:3180-3184 | For every layout without seconds in a zone and without a second piece that can say UTC, every accepted text with a numeric zone lands the instant exactly. |
| `TimeZones.OneSecondWestIsLost` | pkg/shim/runtime/_hebirt.py:3404-3404 | The text -00:00:01 is accepted and read in the default zone. |
| `TimeRoundTrip.RoundTrip` | pkg/shim/runtime/_hebirt.py:2947-3033 | RFC 3339 round trip (section 5.6 of RFC 3339): a time with a local year 0..9999 and a whole-minute offset under 100 hours, printed with RFC3339Nano and parsed with it, gives an Equal time with the same offset. |
| `TimeRoundTrip.RoundTripExactly` | pkg/shim/runtime/_hebirt.py:3192-3415 | And for no other time: printing and parsing succeeds with an Equal time if and only if the layout can carry it. |
| `TimeRoundTrip.FormatPrints` | pkg/shim/runtime/_hebirt.py:2947-3033 | What is printed with RFC3339Nano, field by field, trimmed fraction and zone included. |
| `TimeRoundTrip.ParsedTime` | pkg/shim/runtime/_hebirt.py:3192-3415 | For an offset with odd seconds, what is parsed shows the same wall clock in the zone rounded to whole minutes. |
| `Utf8.DecodeAt` | pkg/shim/runtime/_hebirt.py:1329-1370 | The table-driven decoder with its loop and early exits computes the reference reading. |
| `Utf8.DecodersAgree` | pkg/shim/runtime/_hebirt.py:4126-4162 | The two decoders, written independently, agree on every byte string at every offset. |
| `Utf8.DecodeUndoesEncode` | pkg/shim/runtime/_hebirt.py:1211-1216 | Anywhere in any text, decoding the encoding of a scalar value gives the value and its width (sections 3 and 4 of RFC 3629). |
| `Utf8.EncodeUndoesDecode` | pkg/shim/runtime/_hebirt.py:1329-1370 | What decodes without error is exactly the encoding of a scalar value: no overlong form, no surrogate, nothing past U+10FFFF. |
| `Utf8.Validate` | pkg/shim/runtime/_hebirt.py:1386-1393 | The validating loop computes the specified answer. |
| `Utf8.ValidExactlyEncodings` | pkg/shim/runtime/_hebirt.py:1377-1393 | A byte string is valid if and only if it is a concatenation of encodings; the runes are then unique and `_utf8_count` is their number. |
| `Utf8.DecodeLastRune` | pkg/shim/runtime/_hebirt.py:1438-1461 | The backward loop computes the specified last rune. |
| `Utf8.DecodeLastOfEncoded` | pkg/shim/runtime/_hebirt.py:1438-1461 | For any prefix, valid or not, followed by the encoding of r, decode-last gives r and its width. |
| `Utf8.DecodeLastIsSuffix` | pkg/shim/runtime/_hebirt.py:1438-1461 | What decode-last gives without error is the encoding that ends the text. |
| `Slices.GetAt` | pkg/shim/runtime/_hebirt.py:327-332 | An index read gives the cell of the visible view and panics exactly when out of range. |
| `Slices.SetAt` | pkg/shim/runtime/_hebirt.py:334-337 | An index store changes one cell of the shared backing and panics exactly when out of range. |
| `Slices.SubsliceAliases` | pkg/shim/runtime/_hebirt.py:352-364 | A reslice aliases exactly the cells it names, up to the old capacity. |
| `Slices.SubsliceTwice` | pkg/shim/runtime/_hebirt.py:352-364 | Reslicing a reslice is one reslice at the summed bounds, with the same failures. |
| `Slices.FullSliceCutsCapacity` | pkg/shim/runtime/_hebirt.py:367-386 | The three-index form succeeds exactly when the two-index one does and max lies between high and the capacity, and differs from it only in capacity. |
| `Slices.Append` | pkg/shim/runtime/_hebirt.py:389-414 | Append gives the old view followed by the values; within capacity it changes only the cells just past the visible length of the shared backing, past capacity it changes no existing cell and shares nothing. |
| `Slices.AppendBeside` | pkg/shim/runtime/_hebirt.py:389-414 | Any other header beside an append sees exactly the cells just past the visible length change, and only over the same backing within capacity. |
| `Slices.AppendTwice` | pkg/shim/runtime/_hebirt.py:389-414 | Two appends show what one append of both lists shows. |
| `Slices.AppendTwiceInPlace` | pkg/shim/runtime/_hebirt.py:397-402 | And within capacity they leave the very header and backing of one. |
| `Slices.GrowsByAQuarter` | pkg/shim/runtime/_hebirt.py:417-435 | The growth curve reaches the needed capacity and grows by at least a quarter. |
| `Slices.AppendsAreAmortised` | pkg/shim/runtime/_hebirt.py:389-435 | For any sequence of appends from the nil slice, the elements copied stay within four times the capacity and five times the length. |
| `Slices.BuildOneByOne` | pkg/shim/runtime/_hebirt.py:389-435 | N appends on the real heap build the N values, and the turns of their copying loops are at most 5N. |
| `Slices.CopySlice` | pkg/shim/runtime/_hebirt.py:438-455 | copy is memmove: for any two headers, overlapping in one backing or not, the first min(len) cells of dst hold the old contents of src and no other cell changes. |
| `Defers.Activation.RunDefersInPlace` | pkg/shim/runtime/_hebirt.py:2295-2306 | Draining the list in place, popping before each call, leaves the activation as the specified drain does, on the panicking exit too. |
| `DeferSafety.DrainFollowsGo` | pkg/shim/runtime/_hebirt.py:2279-2306 | Whatever Go still owes after a drain, normal or panicking, is what Go owed before it; recover included. |
| `DeferSafety.RunsAPrefixInReverseOrder` | pkg/emit/emit.go:931-956 | On every exit of the emitted block the calls that ran are a prefix of the reverse push order, none twice, and control never falls out of it. |
| `DeferSafety.OnePanicOrNone` | pkg/emit/emit.go:931-956 | With at most one panic all deferred calls run, the panic escapes if and only if none recovered it, and the results are read after the last of them. |
| `DeferSafety.AgreesWithGoExactly` | pkg/emit/emit.go:931-956 | The emitted function does what Go does, and runs every deferred call, if and only if in Go's own run no second panic comes from a deferred call that is not the last to run. |
| `DeferSafety.SecondPanicSkipsACall` | pkg/emit/emit.go:946-954 | A body on which it does not: the second panic in the except block skips the call deferred first. |
| `DeferSafety.PlainAgreesExactly` | pkg/emit/emit.go:843-858 | A function with a plain block does what Go does if and only if in Go's own run no call but the last panics and no panic is recovered for good. |
| `DeferSafety.PlainSkipsACall` | pkg/emit/emit.go:853-858 | A body on which it does not: one panicking call in the finally loop skips the call deferred first. |
| `DeferSafety.TerminatedNeverFalls` | pkg/emit/emit.go:966-976 | A body that `endsTerminated` accepts never falls off its end, so leaving out the trailing drain loses nothing. |
| `EmitLayout.Builder.EmitStmt` | pkg/emit/emit.go:734-919 | Each statement appends exactly the lines specified for it and fails exactly on a node the emitter refuses. |
| `EmitLayout.Builder.EmitElse` | pkg/emit/emit.go:996-1017 | The else part appends an elif ladder or an else suite. |
| `EmitLayout.Builder.EmitDeferReshape` | pkg/emit/emit.go:931-956 | The reshaped defer block appends its try, its trailing drain when the body can fall through, and its handler. |
| `EmitRoundTrip.BlockReadsBack` | pkg/emit/emit.go:720-732 | At every depth and inside any open indentations, the lines of a block, their kinds given, come back by the indentation rule (section 2.1.8 of the Python Language Reference) as tokens that parse to its control tree, and what follows is untouched. |
| `EmitRoundTrip.FileReadsBack` | pkg/emit/emit.go:734-919 | Read as a file, those lines are the control tree of the block, elif read as an else of one if and pass as an empty suite. |
| `EmitRoundTrip.LinesDetermineTree` | pkg/emit/emit.go:734-919 | Two blocks that emit the same lines have the same control tree. |
| `EmitSource.SourceReadsBackExactly` | pkg/emit/emit.go:1440-1444 | Lines written as characters, indentation, text and line end, and read back with their kind told from the first word, are the same lines if and only if every text is clean. |
| `EmitSource.CleanExactly` | pkg/emit/emit.go:734-919 | A header is clean unless it holds a line end; a plain line unless it holds one, is blank or a comment, or looks like a header or a fixed line. |
| `EmitSourceTree.SourceReadsAsTreeExactly` | pkg/emit/emit.go:720-732 | The source text of any block without labeled jumps, read as a file, is its control tree if and only if every line is clean. |
| `EmitSourceTree.FileReadClean` | pkg/emit/emit.go:720-732 | Whatever source text is read, the tree is made of clean texts. |
| `EmitSource.BlockReadsFromSource` | pkg/emit/emit.go:720-732 | One half of it: the source text of a block of clean lines reads as its control tree. |
| `EmitSource.SourcesDetermineTree` | pkg/emit/emit.go:720-732 | And two such blocks with the same source text have the same control tree. |
| `EmitSource.PassIsLost` | pkg/emit/emit.go:736-742 | A statement that is the name pass is read as no statement. |
| `EmitExpr.BytesReadBack` | pkg/emit/emit.go:1451-1478 | The bytes literal of any byte string reads back as those bytes and ends where the emitter ended it. |
| `EmitExpr.BytesArePrintable` | pkg/emit/emit.go:1451-1478 | Such a literal is printable ASCII on one line. |
| `PyGrammar.ReadsBackExactly` | pkg/emit/emit.go:1117-1410 | For every tree of the Python expressions the emitter writes, parentheses kept: its tokens, read by precedence with left-associative operators, calls, subscripts, lambdas and comprehensions, give that tree if and only if every operand binds as tightly as its place asks. |
| `EmitSpelling.TextFollows` | pkg/emit/emit.go:1117-1446 | The text emitted for a verified expression is, character by character, the tokens of its Python tree. |
| `EmitGrammar.SitsExactly` | pkg/emit/emit.go:1117-1410 | That tree is one of the grammar if and only if no lambda or copying method expression stands under an operator or before a dot, a subscript or a bound, no repeated list stands before one of these, under a sign, right of *, // or %, or as the capacity of a repeated list, and no full slice lacks its high bound. |
| `EmitSpelling.ReadsAsTreeExactly` | pkg/emit/emit.go:1117-1410 | So the tokens that spell the emitted text of a verified expression are read as the tree the emitter means if and only if every node of the expression sits so. |
| `EmitSpelling.LambdaTakesOperand` | pkg/emit/emit.go:1260-1275 | Otherwise meaning changes: a lambda left of an operator takes the right operand into its body, for every body and operand. |
| `EmitSpelling.LengthIsIndexed` | pkg/emit/emit.go:1305-1309 | And an index on a repeated list is read as an index on its length. |
| `IRVerify.Verify` | pkg/ir/verify.go:9-164 | The verifier, with its loops over the seen names, accepts exactly the well-formed modules: sound parts, and no type, function or method name taken twice. |
| `IRVerify.DistinctMeans` | pkg/ir/verify.go:21-60 | Its test of names one after the other means that no two are the same. |
| `EmitComplete.Emits` | pkg/emit/emit.go:1117-1410 | A verified expression emits if and only if its operators are in the tables. |
| `EmitComplete.BodyEmits` | pkg/ir/verify.go:166-329 | A verified body emits if and only if the operators it emits are in the tables: nothing else the emitter refuses gets past the verifier. |
| `EmitVerified.VerifiedModulesEmit` | pkg/emit/emit.go:80-141 | A verified module emits if and only if the operators in its bodies are known. |
| `EmitVerified.VerifiedBodyReadsBack` | pkg/emit/emit.go:512-515 | For a verified body over the full expression language, emission succeeds and its lines read back as the control tree, and so does their source text when every line is clean. |
| `EmitParts.PartStands` | pkg/emit/emit.go:1117-1410 | The text of every sub-expression stands in the text of the whole, but for the element of an array of length zero. |
| `EmitFields.UnknownOperatorExactly` | pkg/emit/emit.go:575-608 | A verified module has every operator known, in bodies and in field zeros, if and only if it emits and every field default is written: an unknown operator is an error or else an unwritten default. |
| `EmitFields.UnknownZeroIsDropped` | pkg/emit/emit.go:581-581 | A family of verified modules that emit without error, leave a default unwritten and import a runtime nothing names. |
| `EmitFields.LookedUpStands` | pkg/emit/emit.go:592-608 | A name the model counts as looked up by a default in the constructor body stands in its text, a called one with its parenthesis, a class of an unbound method with its dot. |
| `EmitFields.ParamHidesNameExactly` | pkg/ir/ir.go:113-127 | A constructor parameter hides a name that a default in the constructor body looks up (an identifier, a called function, class or built-in, the class of an unbound method; lambda and comprehension variables apart) if and only if a name looked up in a zero is that of a field without a suffix, a suffixed field has the name of a struct type or of a name looked up in a zero, or one of them is named self. |
| `EmitFields.ArrayElementHidden` | pkg/ir/ir.go:113-127 | A family of verified structs whose array element class is hidden by a field of its name. |
| `EmitFields.ConversionHidden` | pkg/ir/ir.go:113-127 | A family of verified structs in which a field named int or float hides the class that a conversion in an array zero calls. |
| `EmitFields.SuffixHides` | pkg/ir/ir.go:113-127 | A family of verified structs whose suffixed parameter hides another class. |
| `EmitFields.ParamsClashExactly` | pkg/ir/ir.go:113-127 | Two fields share a constructor parameter if and only if one is named after a struct type and the other, no struct type, has that name with an underscore. |
| `EmitFields.SelfClashExactly` | pkg/emit/emit.go:576-588 | A field shares the parameter of the instance if and only if it is called self and no struct type is. |
| `EmitFields.ParamsMeet` | pkg/ir/ir.go:113-127 | A family of verified structs whose constructor repeats a parameter. |
| `EmitModule.EmitLines` | pkg/emit/emit.go:80-141 | The module is written definition by definition, in order, or fails at the first error. |
| `ShimUse.TextNamesExactly` | pkg/emit/emit.go:426-502 | The text of an expression names the runtime if and only if the analysis finds a use outside arrays of length zero. |
| `ShimUse.StmtNames` | pkg/emit/emit.go:352-424 | The same for the lines of every statement, at every depth. |
| `ShimImport.MissingImportExactly` | pkg/emit/emit.go:313-350 | No definition names the runtime without the import; the import is missing if and only if main stands in a module that defers and uses the runtime nowhere. |
| `ShimImport.UnusedImportExactly` | pkg/emit/emit.go:313-350 | The import is there and unused if and only if the text drops every use seen (the element of a zero-length array, a sync field without a runtime zero, a field zero with an unknown operator) and no crash guard is written. |
| `ShimImport.PlainDeferMissesImport` | pkg/emit/emit.go:126-139 | A family of modules whose crash guard names a runtime that is not imported. |
| `ShimImport.EmptyArrayImportsForNothing` | pkg/emit/emit.go:1293-1307 | A family of modules that import the runtime and never name it. |
| `CrashGuard.UnwindsExactly` | pkg/emit/emit.go:250-305 | The analysis finds a panic in an expression if and only if a runtime call that can panic stands in it on some path that enters no slice literal, make, address or capture. |
| `CrashGuard.GuardExactly` | pkg/emit/emit.go:126-224 | The crash guard is written if and only if there is a main and some body holds a panic or defer statement at any depth, or such a call in the open. |
| `CrashGuard.SliceLiteralUnguarded` | pkg/emit/emit.go:250-305 | A family of modules whose main evaluates a panicking call in a slice literal and has no guard. |
| `Duration.DurationString` | pkg/shim/runtime/_hebirt.py:2492-2528 | The branches and loops compute the specified text. |
| `Duration.TextReadsBack` | pkg/shim/runtime/_hebirt.py:2492-2528 | For every integer, summing the printed hours, minutes, seconds or sub-second part with its fraction gives the count back exactly. |
| `Duration.TextIsInjective` | pkg/shim/runtime/_hebirt.py:2492-2528 | So no two counts print alike. |
| `Duration.FractionEndsNonZero` | pkg/shim/runtime/_hebirt.py:2474-2489 | No printed fraction ends in 0. |
| `IntText.Format` | pkg/shim/runtime/_hebirt.py:1660-1676 | The digit loop computes the sign and digits. |
| `IntText.RoundTrip` | pkg/shim/runtime/_hebirt.py:1611-1676 | Every value within the bounds of the bit size, signed or not, formatted in any base 2..36 and parsed in it, comes back. |
| `IntText.FormatParses` | pkg/shim/runtime/_hebirt.py:1593-1657 | And an integer outside the bounds comes back as a range error, never a value or a syntax error. |
| `IntText.SyntaxErrorExactly` | pkg/shim/runtime/_hebirt.py:1611-1657 | With an explicit base a text is a syntax error if and only if it is not an optional sign and digits of a base 2..36. |
| `IntText.NumeralIsParsed` | pkg/shim/runtime/_hebirt.py:1611-1657 | Every numeral is its value when within bounds and a range error when not. |
| `IntText.RoundTripInferred` | pkg/shim/runtime/_hebirt.py:1632-1645 | Decimal text also reads back when the base is inferred. |
| `IntText.PrefixPicksBase` | pkg/shim/runtime/_hebirt.py:1632-1645 | With an inferred base, what follows 0x, 0o or 0b is read in base 16, 8 or 2, after any sign and in either case of the letter. |
| `IntText.SeparatorsAreIgnored` | pkg/shim/runtime/_hebirt.py:1646-1649 | In an accepted literal of inferred base the underscores carry no meaning: dropping them leaves the same value or range error. |
| `IntText.NoSeparatorAfterPrefix` | pkg/shim/runtime/_hebirt.py:1646-1649 | An underscore straight after a base prefix is refused, after any sign and in either case of the letter. |
| `IntText.FollowsGoExactly` | pkg/shim/runtime/_hebirt.py:1611-1657 | For every text, base and size, all refusals but out of bounds counted as one: the code and the grammar of Go literals differ on whether a text is read, on its value or on its bounds if and only if what follows the sign is a literal of that grammar and either an underscore stands straight after its prefix and the sign is absent or admitted, or none does and a plus stands before it in an unsigned read. |
| `IntText.GoReadsOtherwise` | pkg/shim/runtime/_hebirt.py:1611-1657 | Both happen: 0x_f and an unsigned +1. |

## Left out

- Process and library surface: the command, the front end, conformance runs, thread creation, crash and fatal exits, sleeping.
- The lowering from the Go tree to the representation, and the pass that removes labeled jumps.
- Floats, `strings` and `bytes` functions, `printf` rendering, maps, pointers, atomics, Mutex, WaitGroup, SyncMap, Pool: many cases or single critical sections that would only add easy members.
- Plain send, receive and close on a nil channel: the first two wait on a condition nobody signals, the third is one panic. Nil cases of select are modelled.
- Fairness and spurious wakeups of the shared condition: a thread may be notified and never run, and is only ever woken by a notification.
- Conds: no class, because cond_wait interleaves with other threads between its lines; it is a state machine with one lock operation a step.
- Onces: no class, for the same reason; one shared access a step.
- Onces.OnceAndBeforeAnyReturn: fn is a step of the thread that ends normally or by a panic; an fn that calls once_do on the same Once is not modelled.
- Channels.SelectOnce: the draw is a parameter, so the choice is any ready case and nothing is said about its distribution.
- TimeFormat.Format: Python's `isdigit` and lower-casing are taken on ASCII, and the nanoseconds are those of a normalised time.
- TimeParse.Parse: error values carry what went wrong and where, not the quoted message; the digit limit of Python's `int` is not modelled.
- IntText.GoParse: Go's rule on signs, prefixes, digits and separators; which error `strconv` reports first, for a text both out of range and malformed or for a base outside 2..36, is not modelled.
- IntText.ParseInt: CPython's limit on the digits of `int` is not modelled; a decimal text of more than 4300 digits is a ValueError there, so a syntax error where `NumeralIsParsed` says range error.
- IntText.Format: base 10 goes through Python's `%d`, taken to print the same digits as the loop.
- Slices.Grow: the branch of `_grow` for a doubled capacity below the need is left out, since the line before it rules the case out.
- Slices.CopySlice: elements are shared values; copying an element's own structure is the lowering's work.
- Defers: one function activation with one defer block. Break, continue and loops that never end are not modelled, a loop is given fuel and runs out of it as a third outcome; recover in nested frames is left out.
- EmitReading: reads suites of statements, nested definitions included; class bodies are not read back, and what stands on a line is told by its first word and not parsed further.
- EmitSpelling.ReadsAsTreeExactly: that Python's scanner cuts the text into these tokens is not modelled; identifiers, number literals and bytes literals are one token each, so a number before a dot is taken as written.
- PyGrammar.ReadAll: the part of Python's expressions that is emitted; conditional expressions, sets, chained comparisons, bitwise operators, powers and tuples without parentheses are not read.
- EmitFields.ParamHidesNameExactly: the name of the runtime is not among the names looked up, as a field of that name is another thing than its symbol.
- EmitExpr.Quoted: a field name is quoted without escapes, as identifiers need none; the runtime's name is one symbol of the text, so a user name that spells it is another thing.
- EmitModule.EmitLines: blank lines between definitions are not modelled.
- CrashGuard.GuardExactly: says where a panic stands in the tree; whether it is reached and leaves main when the module runs is not modelled.
- IRVerify.Verify: answers yes or no; the text of the first error is not modelled. Nil pointers to definitions are not modelled, nil expressions and statements are.
