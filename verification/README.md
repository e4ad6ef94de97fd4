# Ze: models and proofs

Dafny models of the parts of Ze whose correctness is easy to get wrong, with proofs that hold for
every input, every run or every interleaving. `dafny verify dfyconfig.toml` checks the project.

| files | component |
|---|---|
| `ClockModel`, `ClockRuns`, `ClockTheorems`, `ClockOrder`, `ClockTime`, `ClockSteps`, `ClockEndless`, `ClockChannels`, `ClockContents`, `TimerHeap`, `VirtualClock` | the virtual-time scheduler of the chaos tests |
| `Sessions`, `SessionRuns`, `SessionRecords`, `Negotiation`, `Filter`, `FilterContexts` | OPEN evidence of an MRT stream, ADD-PATH negotiation, and the record filter that must not disturb them |
| `Wire`, `Walker`, `Bgp`, `BgpSections`, `Update`, `UpdateRoundTrips`, `Replay` | BGP UPDATEs in their ADD-PATH context, and the replay gate |
| `Mrt`, `MrtRoundTrips`, `MrtWriters`, `Formats`, `SecondWalkers` | MRT record decoders and in-place writers, the octets of each record, the second walkers of the offline tools, UPDATEs built from RIB entries |
| `PathTrie`, `TimeSeries`, `Density`, `Bursts`, `DensityRecords`, `Sums` | the reversed AS_PATH trie, the time binning of UPDATEs and the burst analysis |
| `AsGraph`, `Layout`, `TextGrid`, `Crossings`, `Sorting` | the AS topology graph, its layered layout and its text rendering |
| `ImportClosure`, `WorkerPool` | the import closure of a kernel build and the fleet worker pool |
| `Collections` | optional values, counting maps, sequences up to order |

## How the code is modelled

Code that updates fields or buffers is a class or a method on an array, proved against a function
of the old state; the promises are then proved of that function. Code made of branches and calls is
a function.

* **Clock.** Time is an integer of nanoseconds. Entries are named by their sequence number. A user
  callback is an arbitrary list of clock operations, nested advances included; `script` lists the
  callbacks still to run, and one that runs after it is used up does nothing. A channel holds at
  most one value, and `blocked` says that an advance waits to send on a full one; `log` and `received`
  keep the firings and how many there had been when a channel was last received from. The class
  `Clock.VirtualClock` keeps the heap in array order with the sift-up and sift-down of
  container/heap, and every method is tied to the value model of `ClockModel`. A whole run is one
  whose tickers have positive intervals, so that every advance ends; `ClockSteps` and `ClockEndless`
  go one step at a time and take any interval.
* **Sessions.** The capability parser is a parameter. The outcome of `capability.Negotiate` is kept
  as the pair of lists it was given, local first; `Negotiation` says which ADD-PATH mode it gives
  each family. Records reach the observers in the order of `internal/mrt/reader.go`: header
  callback, evidence, record callback.
* **Codec.** Octets are integers below 256, integer fields are bounded, and the 8-bit addition of
  the RIB decoder and the 16-bit truncations of the writers are written out. `utf8.Valid`, the OPEN
  body parser and the content matcher of the filter are parameters.
* **Worker pool.** A run is any sequence of the steps of workers, closer and collector; the channel
  bounds are guards of the steps.

## What the code does not keep

Each of these is proved as an exact condition, not only shown by an example.

* Firing order. In any run the firings are in strictly increasing (deadline, sequence) order if and
  only if none of them had been armed for a time before the last firing, which a caller can tell at
  each AfterFunc, NewTimer, NewTicker and Reset (`RunFiresInOrderIff`, `ApplyLate`).
  `SettingBackDisorders` is a program whose firings are not in order.
* An advance can set time back: when its target is behind the clock, or when a callback leaves the
  clock past the target (`AdvanceRewindsIff`, `RewindsIffBackward`, `NestedAdvanceRewindsIff`). A
  program that only moves forward, with callbacks that do not advance, never does, fires everything
  in order and has every ticker on time (`RunRewindsIff`, `ForwardRunsKeepTime`).
* `NewTicker` accepts an interval that is not positive. An advance that reaches such a ticker is kept
  turning by it until a callback stops the ticker, and ends if and only if that comes to happen
  (`NeverReturns`, `EndsIff`). With a negative interval it never ends once the tick is the root of the
  heap (`NegativeNeverReturns`). With an interval of zero it can end only through a callback whose
  entry comes before the tick armed again, and never if no callback is due by that instant
  (`ReturnsOnlyIfStopped`, `ZeroNeverReturns`); `RescuingEnds` is a program where it does end.
* A `NewTimer` timer that fired, was not received from and is Reset makes the next advance past it
  wait forever (`AdvanceHangsIff`, `ResetHangsIffNotReceived`, `ResetAfterFiringHangs`). A run in
  which every Reset finds its channel received never waits (`ReceivedNoHang`).
* ADD-PATH modes alone do not decide whether a family carries Path Identifiers: both sides must offer
  the family as well (`UpdateCarriesIff`, `ModesAloneDoNotDecide`).
* `updateContext` promises not to read different families from one subtype, but AFI 0 with SAFI 0 is
  its mark for "no family yet". An UPDATE it lets through is of one family if and only if it does not
  mix that family with another (`OneFamilyIff`, `TwoFamiliesPass`).
* A filter run that fails has already written what it selected so far, and a record refused as
  evidence too if the header alone decides (the contract of `RunFilter`).
* Leaving an UPDATE out of a filtered file changes the context of later UPDATEs when it stood between
  the two OPENs of an epoch or disagreed with the pair in force, and in no other case
  (`DropUnnoticedIff`, `CanDropIff`).
* The RIB decoder computes prefix octets in eight bits, so lengths of 249 and more do not survive a
  round trip; all others do (`OctetsAgree`, `RIBRoundTrip`). A table of more than 65535 peers, or an
  AS number too wide for its entry, is written truncated (`PeerTableRoundTrip`).
* A built UPDATE longer than 65535 octets has a wrong length field and is refused (`BuiltUpdateParses`).
* A timestamp of zero reads as "no open bin", so every UPDATE stamped zero but a last one is missing
  from the bins (`ConservedIff`, `BurstAccountsForAllIff`).
* `drawEdge` promises not to overwrite box characters, but the blank padding inside a box is not
  protected. An edge, straight or bent, is drawn through exactly the boxes in the row it ends in whose
  layer lies between its ends (`EdgeCrossesBoxIff`), so a box keeps its padding if and only if no edge
  of the graph skips it that way (`PaddingIff`); it does in two small graphs (`RenderTriangle`,
  `RenderCorner`). A shortened label loses its first byte and shows two of the three bytes of the
  ellipsis, because lengths are counted in bytes (`LabelShown`).

## Model

| member | source | states |
|---|---|---|
| `ClockOrder.RunFiresInOrderIff` | internal/chaos/virtualclock.go:14-31 | for every program and all callbacks, any delays, targets and nested advances: firings in strictly increasing (deadline, sequence) order if and only if none was armed for a time before the last firing; each seen at its own deadline, none twice |
| `ClockOrder.ApplyLate` | internal/chaos/virtualclock.go:61-111 | the guard at each call that arms: late if and only if now + d is before the last firing |
| `ClockOrder.LateOnlyAfterRewind` | internal/chaos/virtualclock.go:61-111 | with no negative delay, a clock that was not set back never arms late |
| `ClockOrder.TickNeverLate` | internal/chaos/virtualclock.go:298-327 | a ticker that re-arms itself is never late |
| `ClockOrder.DelayKeepsOrderIff` | internal/chaos/virtualclock.go:61-74 | a delay of any sign, armed among anything pending, with callbacks that neither advance nor use negative delays: the advance that reaches it keeps the log in order if and only if the delay does not reach behind the last firing |
| `ClockOrder.SettingBackOrderIff` | internal/chaos/virtualclock.go:124-147 | fire, set the clock back, arm and fire again: in order if and only if the second is not due before the first |
| `ClockOrder.SettingBackDisorders` | internal/chaos/virtualclock.go:124-147 | a program whose firings come out of order |
| `ClockTime.RewindsIffBackward` | internal/chaos/virtualclock.go:124-147 | with no negative delay, with callbacks that do not advance, an advance sets time back if and only if its target is behind the clock |
| `ClockTime.RunRewindsIff` | internal/chaos/virtualclock.go:116-147 | with no negative delay, a program whose callbacks do not advance sets time back if and only if one of its own advances is asked to, and ends where its advances say |
| `ClockTime.AdvanceRewindsIff` | internal/chaos/virtualclock.go:130-171 | with no negative delay, whatever the callbacks do, at any depth: an advance sets time back if and only if its target is behind the clock or one of the callbacks it runs sets time back or returns past the target |
| `ClockTime.NestedAdvanceRewindsIff` | internal/chaos/virtualclock.go:130-171 | with no negative delay, told beforehand, where only the callback that fires first advances, in any way: if and only if that callback's program goes back or ends past the target |
| `ClockTime.NestedAdvanceRewindsIffItOverruns` | internal/chaos/virtualclock.go:130-171 | with no negative delay, for a callback that advances by d, with anything else pending: if and only if its deadline + d passes the target |
| `ClockTime.ForwardRunsKeepTime` | internal/chaos/virtualclock.go:14-31 | with no negative delay, a program that only moves forward, with callbacks that do not advance: never set back, firings in order, every running ticker on time whenever a call returns |
| `ClockTime.TicksExactly` | internal/chaos/virtualclock.go:295-327 | when any advance returns, whatever its callbacks did, a running ticker has missed no tick, and is on time if and only if it did not tick past the target |
| `ClockTime.TicksOnTimeIff` | internal/chaos/virtualclock.go:295-327 | also after time was set back: after an advance whose callbacks do not advance, a running ticker is on time if and only if it had not ticked past the target before |
| `ClockTime.TicksWithoutDrift` | internal/chaos/virtualclock.go:95-111 | with no negative delay, a ticker not stopped has ticked exactly at t0 + k * interval, floor((T - t0) / interval) times, when an advance to T returns and time was never set back |
| `ClockSteps.AdvanceSteps` | internal/chaos/virtualclock.go:130-171 | one step at a time, with calls, callbacks and nested loops on a stack, an advance comes to the model's result and off the stack, or waits to send |
| `ClockEndless.TurnSpins` | internal/chaos/virtualclock.go:142-169 | whatever due entry the loop takes next, a running ticker without a positive interval is due afterwards |
| `ClockEndless.NeverReturns` | internal/chaos/virtualclock.go:95-171 | with callbacks that do not stop such a ticker, an advance that has reached it is under way, with the ticker due, after any number of steps |
| `ClockEndless.ReturnsOnlyIfStopped` | internal/chaos/virtualclock.go:130-171 | it returns only after a step in which a callback stops the ticker, with an interval of zero the callback of an entry before the tick |
| `ClockEndless.EndsIff` | internal/chaos/virtualclock.go:130-171 | all other intervals positive: the advance ends if and only if a callback comes to stop the ticker, unless a send waits |
| `ClockEndless.NegativeNeverReturns` | internal/chaos/virtualclock.go:295-327 | a negative interval at the root of the heap: the loop fires that ticker once a step for ever, whatever the callbacks would do |
| `ClockEndless.ZeroNeverReturns` | internal/chaos/virtualclock.go:295-327 | an interval of zero and no callback due by that instant: the advance never returns, whatever the callbacks would do |
| `ClockEndless.NewTickerNeverReturns` | internal/chaos/virtualclock.go:95-111 | NewTicker with such an interval on any clock, then an advance that reaches it |
| `ClockEndless.RescuingEnds` | internal/chaos/virtualclock.go:95-171 | NewTicker(0), AfterFunc(0, stop it), Advance(d) returns |
| `ClockTheorems.AdvanceLeavesNothingDue` | internal/chaos/virtualclock.go:130-171 | an advance that returns leaves the clock at its target and nothing pending due by it |
| `ClockTheorems.DueFiresOnce` | internal/chaos/virtualclock.go:113-171 | every arming due by the target has fired exactly once, at its deadline, or was stopped |
| `ClockTheorems.StopMeansNever` | internal/chaos/virtualclock.go:228-239 | if Stop answers true that arming never fired and never will, whatever follows |
| `ClockTheorems.ResetLeavesOneLive` | internal/chaos/virtualclock.go:241-264 | after Reset exactly one live entry for the timer, due d from now; the answer tells whether one was live; other timers keep theirs |
| `ClockTheorems.RunLater` | internal/chaos/virtualclock.go:173-182 | over any run entries keep deadline and kind, stopped and fired never revert, a stopped entry never comes to fire, the log only grows |
| `ClockRuns.RunKeepsInv` | internal/chaos/virtualclock.go:116-327 | every run keeps: log and fired flags agree, a live entry is the one its timer or ticker points to, tickers are steady |
| `ClockRuns.AdvanceKeepsInv` | internal/chaos/virtualclock.go:131-171 | the same through every turn of the advance loop, callbacks and nested advances included |
| `ClockRuns.TickKeepsSteady` | internal/chaos/virtualclock.go:295-327 | one tick moves its ticker's series on by one interval and no other ticker's |
| `ClockModel.TurnDecreases` | internal/chaos/virtualclock.go:131-171 | each turn of the loop lowers the sum of remaining ticks and one-shots: the advance ends |
| `ClockModel.Earliest` | internal/chaos/virtualclock.go:135-147 | the entry that precedes every other pending one by deadline, then sequence number |
| `ClockModel.ApplyGrown` | internal/chaos/virtualclock.go:58-111 | a call that does not advance arms at most one entry, d from now, and otherwise only stops entries |
| `ClockChannels.ReceivedNoHang` | internal/chaos/virtualclock.go:164-169 | a program never waits to send on a timer's channel if every Reset, its own or a callback's, finds that channel received when it is made |
| `ClockChannels.NoResetNoHang` | internal/chaos/virtualclock.go:164-169 | no program without Reset ever waits to send on a timer's channel |
| `ClockChannels.AdvanceHangsIff` | internal/chaos/virtualclock.go:131-171 | from any state in which channels are not shared, with callbacks that neither advance nor touch timers and channels: an advance waits if and only if some timer due by its target has a time in its channel |
| `ClockChannels.RunKeepsSeparate` | internal/chaos/virtualclock.go:77-111 | no run comes to share a channel between two timers, or a timer and a ticker |
| `ClockChannels.ReachedHangsIff` | internal/chaos/virtualclock.go:131-171 | the same after any program on any clock |
| `ClockChannels.ResetHangsIffNotReceived` | internal/chaos/virtualclock.go:164-169 | after Reset an advance past the new deadline waits if and only if the earlier time is still in the channel, with callbacks that may advance but leave timers and channels alone |
| `ClockChannels.ResetAfterFiringHangs` | internal/chaos/virtualclock.go:164-169 | NewTimer(1), Advance(2), Reset(1), Advance(2) waits |
| `ClockContents.TickerChannelHolds` | internal/chaos/virtualclock.go:298-327 | on any clock, after any program: a ticker's channel is empty if and only if the ticker has not fired since the channel was last received from, and a time in it is what the clock read at the first firing since; later ticks are dropped |
| `ClockContents.TimerChannelHolds` | internal/chaos/virtualclock.go:77-91 | the same of a timer's channel, with the deadline of its first firing since |
| `ClockContents.RunKeepsTold` | internal/chaos/virtualclock.go:77-171 | every run keeps this of every channel at once, callbacks and nested advances included |
| `ClockContents.ApplyMarks` | internal/chaos/virtualclock.go:58-111 | no call but a receive empties a channel or forgets what was sent on it |
| `TimerHeap.RootIsLeast` | internal/chaos/virtualclock.go:184-195 | the root of an ordered heap is its least entry |
| `TimerHeap.RiseStep` | internal/chaos/virtualclock.go:188-201 | one swap of sift-up keeps the order everywhere but at the rising entry |
| `TimerHeap.SinkStep` | internal/chaos/virtualclock.go:188-201 | one swap of sift-down keeps the order everywhere but at the sinking entry |
| `Clock.VirtualClock.Swap` | internal/chaos/virtualclock.go:197-201 | exchanges two entries and keeps entry.index equal to the position |
| `Clock.VirtualClock.Push` | internal/chaos/virtualclock.go:203-210 | adds one entry under the next sequence number; heap order and indices kept |
| `Clock.VirtualClock.PopRoot` | internal/chaos/virtualclock.go:212-220 | removes the least entry, its index set to -1; heap order and indices of the rest kept |
| `Clock.VirtualClock.AfterFunc` | internal/chaos/virtualclock.go:61-74 | the model's arming of a callback |
| `Clock.VirtualClock.NewTimer` | internal/chaos/virtualclock.go:77-91 | the model's arming of a channel timer |
| `Clock.VirtualClock.NewTicker` | internal/chaos/virtualclock.go:95-111 | the model's arming of a ticker |
| `Clock.VirtualClock.Stop` | internal/chaos/virtualclock.go:230-239 | the model's Stop, answering whether the timer was active |
| `Clock.VirtualClock.Reset` | internal/chaos/virtualclock.go:243-264 | the model's Reset, answering whether the timer was active |
| `Clock.VirtualClock.TickerStop` | internal/chaos/virtualclock.go:283-290 | the model's ticker stop |
| `Clock.VirtualClock.TickerFires` | internal/chaos/virtualclock.go:298-327 | the model's tick: a non-blocking send, whose outcome `ClockContents.TickerChannelHolds` tells, then re-arm unless stopped |
| `Clock.VirtualClock.FireRoot` | internal/chaos/virtualclock.go:142-169 | pops the earliest entry and does the model's turn on it |
| `Clock.VirtualClock.AdvanceTo` | internal/chaos/virtualclock.go:126-171 | the loop ends, in the state of the model's advance |
| `Clock.VirtualClock.Advance` | internal/chaos/virtualclock.go:116-122 | the same for a duration |
| `Clock.VirtualClock.RunProgram` | internal/chaos/virtualclock.go:160-166 | a callback's operations, in order, whatever they are |
| `SessionRuns.ContextIffPair` | internal/mrt/context.go:65-144 | an UPDATE gets a context if and only if its history holds a completed pair of opposite OPENs with only silent state changes between them and nothing since that ends or contradicts the epoch; the context is Negotiate of exactly those two |
| `SessionRuns.StreamContextIffPair` | internal/mrt/context.go:71-144 | the same in a stream of any number of sessions, decided by the session's own records |
| `SessionRecords.RecordContextIffPair` | internal/mrt/context.go:52-144 | the same in the terms of the records: an UPDATE (type octet 2) gets a context if and only if the records of its own session hold two OPENs (type 1) that parse, one of subtype 6, 7, 10 or 11 and one of another, completing a pair, with only state changes between them that stay above 3 and do not leave 6, and since then only such changes, messages of types other than 1, 2 and 3, and UPDATEs whose AS numbers are those of the OPENs or AS 23456 for one that does not fit; the context is Negotiate of the capabilities sent and received |
| `SessionRecords.SameSessionIff` | internal/mrt/context.go:38-48 | two records are of one session if and only if peer, local address and interface are the same, an IPv4-mapped address being its IPv4 one |
| `SessionRecords.RefusedIff` | internal/mrt/context.go:71-113 | which record is refused, and how: an address of other than 4 or 16 octets, a message below 19 octets, an OPEN that does not parse, or a new epoch beside 65536 other sessions; nothing but an UPDATE gets a context |
| `SessionRecords.OpenReads` | internal/mrt/context.go:153-194 | octet by octet: an OPEN is evidence if and only if marker, length and version are good, its parameters fill it in the plain or the extended framing, and they parse; its AS number is octets 20 and 21 unless a capability says otherwise |
| `SessionRuns.RunIsItsSessions` | internal/mrt/context.go:17-36 | the evidence of a session is a function of that session's records alone |
| `SessionRuns.OthersUntouched` | internal/mrt/context.go:52-144 | no record, accepted or refused, changes the evidence of another session |
| `SessionRuns.ObserveKeepsBound` | internal/mrt/context.go:20-36 | every record keeps at most 65536 sessions, each negotiated if and only if both directions are seen |
| `SessionRuns.RunKeepsBound` | internal/mrt/context.go:20-36 | the same in every reachable state |
| `Sessions.SessionContexts.ObserveMessage` | internal/mrt/context.go:71-144 | the field updates of ObserveMessage are the model's step, error paths included; `SessionRecords.RecordContextIffPair` and `SessionRecords.RefusedIff` say of that step what it answers |
| `Sessions.SessionContexts.ObserveState` | internal/mrt/context.go:52-63 | the field updates of ObserveState are the model's step |
| `Sessions.SessionContexts.ObserveOpen` | internal/mrt/context.go:87-113 | an OPEN restarts, refuses, or fills its slot as the model decides |
| `Sessions.ReadOpen` | internal/mrt/context.go:153-194 | openEvidence with its loops computes the evidence of an OPEN, or none for any malformed one |
| `Sessions.LastASN4Decides` | internal/mrt/context.go:187-193 | the last four-octet AS capability gives the AS number, else the OPEN's own field |
| `Negotiation.Negotiate` | internal/core/bgp/capability/negotiated.go:140-410 | the loops of Negotiate: a family is sent, or received, with Path Identifiers if and only if both offer it, its sender advertised 2 or 3 and its receiver 1 or 3 |
| `Negotiation.CarriesIff` | internal/core/bgp/capability/negotiated.go:172-405 | that condition written out: each side has the family's Multiprotocol capability, or has none at all and the family is (1, 1); the sender's mode is 2 or 3 and the receiver's 1 or 3 |
| `Negotiation.Collect` | internal/core/bgp/capability/negotiated.go:172-328 | the families one side offers, IPv4 unicast if it names none, and its last ADD-PATH capability |
| `Negotiation.AdvertisedIs` | internal/core/bgp/capability/negotiated.go:172-381 | an OPEN advertises for a family what the last tuple of it in the last ADD-PATH capability says, and without one nothing |
| `Negotiation.ContextCarriesIff` | internal/mrt/context.go:196-207 | AddPathFor from both OPENs is what sender and receiver advertised, by the direction of the record |
| `Negotiation.UpdateCarriesIff` | internal/mrt/context.go:71-207 | end to end in a stream: an UPDATE decodes with Path Identifiers for a family if and only if, in its session's pair of OPENs, both offer it, its sender advertised 2 or 3 and its receiver 1 or 3; without a pair, if and only if its subtype says so |
| `Negotiation.BothEndsAgree` | internal/core/bgp/capability/negotiated.go:385-405 | the two ends of a session agree on every UPDATE between them |
| `Negotiation.ModesAloneDoNotDecide` | internal/core/bgp/capability/negotiated.go:385-409 | both advertise 3 for a family neither offers: no Path Identifiers |
| `Filter.RunFilter` | internal/analyze/filter.go:162-255 | a run stops if and only if some record is refused as evidence or is an UPDATE in range, of the peer asked for, that a prefix or an expression makes it decode and that does not decode, and then at the first such record; up to there a record is written, in order, if and only if its type, time, peer address and peer AS are those asked for and, if it is an UPDATE, no prefix is asked for and the expressions match it in the context it has; the record it stops at is written if the header alone decides |
| `Filter.ChooseIff` | internal/analyze/filter.go:140-255 | the decisions of the three callbacks are those two conditions on the options, the verdict and the context |
| `Filter.FilterRun.OnHeader` | internal/analyze/filter.go:191-205 | of a record whose type and time are those asked for: writes it if the header alone decides, else keeps it pending |
| `Filter.FilterRun.OnRecord` | internal/analyze/filter.go:206-255 | writes the pending record if and only if it is wanted, and fails if and only if it is broken, as `Filter.RunFilter` has it |
| `Filter.OneRecord` | internal/mrt/reader.go:238-257 | header callback, evidence, record callback, in this order |
| `FilterContexts.FilterKeepsContexts` | internal/analyze/filter.go:206-255 | a kept record gets from the filtered stream the outcome and context it got from the original, if every UPDATE left out could be |
| `FilterContexts.OutputContexts` | internal/analyze/filter.go:206-255 | a reader of the whole output attaches, record by record, exactly the contexts the written records had in the original |
| `FilterContexts.FilterKeepsMeaning` | internal/analyze/filter.go:226-241 | on a file whose UPDATEs are all in place: the output is the items that match, each once, in order, and each decodes from the output alone to what it meant at its place in the original |
| `FilterContexts.TidyDropsUnnoticed` | internal/mrt/context.go:116-141 | on such a file every content filter may drop any UPDATE |
| `FilterContexts.FilteredAgrees` | internal/analyze/filter.go:226-241 | the filtered stream reads without error, to evidence that agrees with the original's |
| `FilterContexts.DropUnnoticedIff` | internal/mrt/context.go:116-141 | leaving one UPDATE out changes no later context, whatever follows, if and only if CanDrop holds there |
| `FilterContexts.CanDropIff` | internal/mrt/context.go:116-141 | CanDrop read off the file: the UPDATE is not between the two OPENs of an epoch, and agrees with the pair in force |
| `FilterContexts.KeptStep` | internal/mrt/context.go:71-144 | a record both streams hold leaves them agreeing and is answered alike |
| `FilterContexts.IPEqualIsSameAddress` | internal/analyze/filter.go:210-213 | the peer filter's address test is equality of the session key's addresses |
| `Bgp.ParseAttributes` | internal/mrt/bgp.go:361-387 | the cursor loop yields every attribute up to the damage and says whether there was any |
| `Bgp.ParsePrefixesAFI` | internal/mrt/bgp.go:421-468 | the cursor loop yields the prefixes, and the Path Identifiers when retained, up to the damage |
| `BgpSections.AttributesExact` | internal/mrt/bgp.go:358-387 | clean if and only if the result packs back to the input; on damage the result is the whole clean parse of a proper prefix, up to something that is no attribute |
| `BgpSections.PackedAttributesParse` | internal/mrt/bgp.go:361-387 | attributes that fit their length fields survive packing and parsing |
| `BgpSections.PrefixesExact` | internal/mrt/bgp.go:399-468 | the same of a packed prefix section, with or without Path Identifiers |
| `BgpSections.PackedPrefixesParse` | internal/mrt/bgp.go:421-468 | prefixes within their family survive packing and parsing |
| `BgpSections.PrefixSectionShape` | internal/mrt/bgp.go:408-468 | no prefix exceeds its family, retained identifiers pair one to one with prefixes, an unknown family yields none |
| `UpdateRoundTrips.SectionsRoundTrip` | internal/mrt/bgp.go:262-298 | three fields survive packing and splitting if and only if the first two fit their lengths |
| `UpdateRoundTrips.SectionsPackBack` | internal/mrt/bgp.go:262-298 | splitting a body loses no octet of it |
| `UpdateRoundTrips.UpdateExact` | internal/mrt/bgp.go:300-341 | an UPDATE that parses, in any context, packs back to its body if and only if neither prefix field was damaged |
| `UpdateRoundTrips.PackedUpdateParses` | internal/mrt/bgp.go:308-341 | an UPDATE that fits, in a context that answers for it, survives packing and parsing |
| `UpdateRoundTrips.MessageRoundTrip` | internal/mrt/bgp.go:92-144 | a whole message survives packing and parsing if and only if it fits 65535 octets |
| `UpdateRoundTrips.PackedMPReachParses` | internal/mrt/bgp_attribute.go:143-182 | MP_REACH_NLRI reads as put together if and only if its next hop has 4, 16 or 32 octets |
| `UpdateRoundTrips.PackedMPUnreachParses` | internal/mrt/bgp_attribute.go:190-209 | MP_UNREACH_NLRI reads as put together |
| `Walker.WalkAll` | internal/mrt/bgp.go:361-387 | a cursor loop computes the recursive walk of its section |
| `Walker.WalkSalvage` | internal/mrt/bgp.go:399-413 | what a damaged section yields is the clean walk of everything before the damage |
| `Update.UpdateContext` | internal/mrt/context.go:209-251 | when only the subtype speaks, the loop lets an UPDATE through if and only if its multiprotocol attributes are framed, all are of IPv4 unicast if a prefix field is not empty, and after one of a family other than (0, 0) all are of that family |
| `Update.OneFamilyIff` | internal/mrt/context.go:209-251 | an UPDATE is of one family if and only if it is let through and does not mix (0, 0) with another |
| `Update.TwoFamiliesPass` | internal/mrt/context.go:209-251 | withdrawals of (0, 0) and of IPv6 unicast are let through |
| `Update.CountUpdateNLRIs` | internal/analyze/density.go:207-259 | announced are the prefixes of the NLRI field and of every MP_REACH_NLRI attribute, withdrawn those of the withdrawn field and of every MP_UNREACH_NLRI attribute; clean if and only if all of them are |
| `Replay.CheckReplayUpdate` | internal/analyze/replay_context.go:19-55 | of any octets: an UPDATE (type octet 2) is accepted if and only if it has a meaning in its captured context, every prefix in it was read, its multiprotocol attributes hold their fields, and it means the same without ADD-PATH; anything else if and only if marker and length are good and it is of type 3, 4 or 5, or of type 1 with a body that parses |
| `Replay.HasMeaningIff` | internal/mrt/bgp.go:92-144 | a message means something if and only if marker and length are good, its type octet is 2 and its body decodes |
| `Replay.CheckAttributes` | internal/analyze/replay_context.go:31-52 | the loop passes exactly the attribute lists whose multiprotocol attributes are framed and bring no identifiers |
| `Replay.AcceptedMeansTheSame` | internal/analyze/replay_context.go:13-55 | an accepted UPDATE decodes and counts the same without ADD-PATH as in its captured context |
| `Replay.AcceptsIffSameMeaning` | internal/analyze/replay_context.go:13-55 | acceptance if and only if it counts cleanly, its multiprotocol attributes are framed, and it means the same without ADD-PATH |
| `Mrt.DecodePeerIndexTable` | internal/mrt/decode.go:121-193 | the strict loop: all peers or nothing |
| `Mrt.DecodeRIBRecord` | internal/mrt/decode.go:197-230 | the strict loop over RIB entries, with the prefix octets counted in eight bits |
| `Formats.BGP4MPFormat` | internal/mrt/decode.go:371-424 | peer and local AS, interface, AFI, two addresses: any such octets decode to their values, AS numbers of four octets in the subtypes 4, 5, 7, 9 and 11 and of two in all others |
| `Formats.StateChangeFormat` | internal/mrt/decode.go:352-369 | such a header and two states decode to their values |
| `Formats.PeerFormat` | internal/mrt/decode.go:145-193 | type, BGP identifier, address and AS number of a peer decode to their values; bit 0 of the type makes the address IPv6, bit 1 the AS number four octets |
| `Formats.TableFormat` | internal/mrt/decode.go:121-193 | collector, view name after its length, count and peers |
| `Formats.EntryFormat` | internal/mrt/decode.go:287-330 | peer index, time, Path Identifier where there is one, attributes after their length |
| `Formats.RIBFormat` | internal/mrt/decode.go:197-230 | sequence number, prefix length, prefix, count and entries, with Path Identifiers in the subtypes 8 to 11 |
| `Formats.AttributeFormat` | internal/mrt/bgp.go:361-387 | flags, code, a length of two octets if bit 0x10 of the flags is set and of one if not, value |
| `Formats.PrefixFormat` | internal/mrt/bgp.go:421-468 | Path Identifier where there is one, bits, and their octets decode to an address of 4 or 16 octets, padded with zeros |
| `Formats.PrefixRefused` | internal/mrt/bgp.go:421-468 | more bits than 32, or 128 for AFI 2, or too few octets for the bits, do not decode |
| `Formats.UpdateFormat` | internal/mrt/bgp.go:269-298 | withdrawn routes and attributes, each after its length, and the NLRI |
| `Formats.MPReachFormat` | internal/mrt/bgp_attribute.go:143-182 | AFI, SAFI, next hop of 4, 16 or 32 octets after its length, a reserved octet, NLRI, which may be empty |
| `Formats.MPUnreachFormat` | internal/mrt/bgp_attribute.go:190-209 | AFI, SAFI, NLRI, which may be empty |
| `MrtRoundTrips.PeerTableRoundTrip` | internal/mrt/encode.go:48-70 | write then decode, with any octets behind, is the identity if and only if the table fits its fields |
| `MrtRoundTrips.RIBRoundTrip` | internal/mrt/encode.go:76-143 | write then decode, with any octets behind, is the identity if and only if the record fits, which takes a prefix of at most 248 bits |
| `MrtRoundTrips.OctetsAgree` | internal/mrt/decode.go:208 | the decoder's and the writer's octet counts agree if and only if the length is at most 248 |
| `MrtRoundTrips.BGP4MPRoundTrip` | internal/mrt/encode.go:145-169 | header and payload back if and only if addresses and AS numbers fit |
| `MrtRoundTrips.StateChangeRoundTrip` | internal/mrt/encode.go:188-196 | the state change back, with any octets behind, if and only if its header fits |
| `MrtRoundTrips.DecodedTableFits` | internal/mrt/decode.go:121-193 | whatever decodes fits, so decode, write, decode is stable |
| `MrtWriters.CopyIPField` | internal/mrt/encode.go:171-178 | exactly n octets written, zero padded, all others unchanged |
| `MrtWriters.WritePeerEntry` | internal/mrt/encode.go:27-46 | writes the packed entry at the offset, returns its length, changes nothing else |
| `MrtWriters.WritePeerIndexTable` | internal/mrt/encode.go:48-70 | refuses a bad view name before touching the buffer, else writes the packed table and nothing else |
| `MrtWriters.WriteRIBEntry` | internal/mrt/encode.go:101-127 | writes the packed entry, with or without its Path Identifier, and nothing else |
| `MrtWriters.WriteRIB` | internal/mrt/encode.go:76-143 | writes the packed RIB record and nothing else |
| `MrtWriters.WriteBGP4MPCommon` | internal/mrt/encode.go:145-169 | writes the packed header and nothing else |
| `MrtWriters.WriteBGP4MPMessage` | internal/mrt/encode.go:180-186 | writes header and message and nothing else |
| `MrtWriters.WriteBGP4MPStateChange` | internal/mrt/encode.go:188-196 | writes header and states and nothing else |
| `MrtWriters.WrittenTableReadsBack` | internal/mrt/encode.go:49-70 | decoding any buffer at the offset written to gives the table back |
| `MrtWriters.WrittenRIBReadsBack` | internal/mrt/encode.go:76-143 | decoding any buffer at the offset written to gives the RIB record back |
| `SecondWalkers.ExtractRefines` | internal/analyze/mrt.go:272-340 | wherever the strict decoders yield an UPDATE, the walker finds the same body, peer AS and attribute section |
| `SecondWalkers.PeersRefine` | internal/analyze/mrt.go:364-446 | wherever DecodePeerIndexTable succeeds, the walker holds exactly its peers, by index |
| `SecondWalkers.ParsePeerIndexTable` | internal/analyze/mrt.go:364-446 | the lenient loop holds the entries up to the first cut short |
| `SecondWalkers.SamePeer` | internal/analyze/mrt.go:388-433 | testing for room field by field accepts the same entries as testing once |
| `SecondWalkers.BuildUpdateBody` | internal/analyze/serve.go:301-323 | fills a new buffer with exactly the body |
| `SecondWalkers.BuildUpdateFromRIB` | internal/analyze/inject.go:200-211 | fills a new buffer with exactly the message |
| `SecondWalkers.BuiltUpdateParses` | internal/analyze/inject.go:200-211 | the UPDATE of an IPv4 unicast entry parses to no withdrawals, its attributes and its one prefix, or is refused if longer than 65535 octets |
| `PathTrie.Trie.InsertReversed` | internal/analyze/aspath.go:184-195 | the trie of the paths so far becomes the trie of those and one more |
| `PathTrie.Trie.CountTrieNodes` | internal/analyze/aspath.go:197-204 | the number of nodes below a node |
| `PathTrie.Trie.TrieDepthStats` | internal/analyze/aspath.go:206-211 | adds to the table the number of nodes below at every depth |
| `PathTrie.NodesAreSuffixes` | internal/analyze/aspath.go:184-195 | nodes are one to one with the distinct non-empty suffixes, each counting the paths that end in it |
| `PathTrie.OrderDoesNotMatter` | internal/analyze/aspath.go:184-195 | paths inserted in any order give the same suffixes with the same counts |
| `PathTrie.DepthIsSuffixLength` | internal/analyze/aspath.go:206-211 | the nodes at depth d are as many as the distinct suffixes of length d + 1 |
| `PathTrie.NodesAtMostNumbers` | internal/analyze/aspath.go:276-289 | never more nodes than AS numbers inserted |
| `PathTrie.PathAnalysis.AddPath` | internal/analyze/aspath.go:149-167 | counters, length table and trie agree on the paths; an empty path is not counted |
| `PathTrie.LengthTable` | internal/analyze/aspath.go:149-167 | the table says for every length how many paths have it, and sums up to their AS numbers |
| `PathTrie.PathAnalysis.NodeCounts` | internal/analyze/aspath.go:276-289 | the subtraction of nodes from naive slots never wraps |
| `Density.DensityStats.Process` | internal/analyze/density.go:140-205 | one UPDATE more: the bins are still what the UPDATEs counted leave, overall and for its peer |
| `Density.DensityStats.Bin` | internal/analyze/density.go:178-203 | the switch on the timestamp: closes the second, counts idle seconds up to an hour, opens the next, or restarts at zero |
| `Density.DensityStats.Flush` | internal/analyze/density.go:114-125 | the open bins are closed, overall and for every peer; `TimeSeries.TrackerSpells` and `TimeSeries.FinalRated` say what the series and the histogram then hold |
| `TimeSeries.ConservedIff` | internal/analyze/density.go:150-203 | series and open bin hold every UPDATE if and only if none but the last is stamped zero |
| `TimeSeries.TrackerSpells` | internal/analyze/density.go:150-203 | the series holds exactly the UPDATEs that are not stamped zero, and the last, in order and each under its own timestamp; no second of it is empty, and where nothing was lost no second stands twice in a row |
| `TimeSeries.FinalRated` | internal/analyze/density.go:114-203 | for every rate above zero the histogram has as many seconds as the series, and in all as many as passed, at most an hour for each silence |
| `TimeSeries.SilencesCountAnHour` | internal/analyze/density.go:191-203 | silences of an hour or more count for an hour each |
| `TimeSeries.ElapsedIsSpan` | internal/analyze/density.go:191-203 | on an ordered capture without silences over an hour, the seconds counted are its span |
| `Bursts.DetectPeerRuns` | internal/analyze/density.go:522-543 | the runs of the series, gaps taken in 32 bits |
| `Bursts.RunsPartition` | internal/analyze/density.go:522-543 | the runs are the maximal blocks of the series: cut where one is more than a second after the one before, in 32 bits, and nowhere else, each with its block's first timestamp, length and updates |
| `Bursts.RunsAddUp` | internal/analyze/density.go:522-543 | runs share out the series' updates and seconds, one more of them than breaks |
| `Bursts.BurstTotals` | internal/analyze/density.go:390-418 | set-up is the sum over all peers of the updates of those maximal blocks of their series that hold at least 100, maintenance the sum over the other blocks, and together they are what the series hold |
| `Bursts.BurstAccountsForAllIff` | internal/analyze/density.go:390-418 | they add up to the peers' totals if and only if no peer has a zero timestamp before its last |
| `DensityRecords.Measure` | internal/analyze/density.go:97-134 | for any capture, about exactly the records that contribute: the three distributions of prefixes and their totals; every second with its UPDATEs and the histogram of rates; each known peer's series; set-up and maintenance as the updates of its blocks of at least 100 and of the others, which share out all UPDATEs of known peers if and only if no peer has a zero timestamp before its last; the exit is clean if and only if no record is damaged |
| `DensityRecords.SeenIffUpdate` | internal/analyze/density.go:140-149 | a record contributes if and only if it is an UPDATE whose prefixes count cleanly, for the peer AS of its header |
| `DensityRecords.PrefixStats.Count` | internal/analyze/density.go:171-176 | one UPDATE more: the three distributions are still those of the UPDATEs' prefixes, which add up to the totals |
| `DensityRecords.PrefixesSpread` | internal/analyze/density.go:171-176 | for every number of prefixes, each distribution has as many UPDATEs as announce, withdraw or move that many |
| `Density.PeerLogIs` | internal/analyze/density.go:150-169 | a peer is tracked if and only if it is not AS 0 and was seen, and its series is of its own timestamps, in order |
| `AsGraph.DeduplicateASPath` | internal/graph/graph.go:47-61 | the path with repeated neighbours collapsed |
| `AsGraph.CollapseLinks` | internal/graph/graph.go:47-61 | collapsing drops exactly the links of an AS with itself |
| `AsGraph.CollapseMembers` | internal/graph/graph.go:47-61 | collapsing keeps the ASes of a path |
| `AsGraph.BuildGraphFromPaths` | internal/graph/graph.go:63-121 | each AS once at its greatest distance from an origin, exactly the links between different neighbours; nodes from the highest layer down and by AS number, links by their ends |
| `AsGraph.EdgeEndsAreNodes` | internal/graph/graph.go:63-121 | an edge joins two different nodes of its graph |
| `Layout.ComputeLayout` | internal/graph/layout.go:65-146 | every AS gets the slot of its column and row, columns from the highest layer, rows by ASN |
| `Layout.BoxesApart` | internal/graph/layout.go:106-137 | boxes of different ASes keep the configured gaps between them |
| `Layout.BoxInside` | internal/graph/layout.go:106-145 | every box lies within the canvas, padding kept free |
| `Layout.WidthIsWidest` | internal/graph/layout.go:92-104 | a column is as wide as its widest box, and at least the minimum |
| `TextGrid.RenderText` | internal/graph/text.go:13-51 | for any graph: refused past 100 nodes, nothing for none, else a grid on which the boxes of the layout do not touch and every border is whole; if no AS stands twice every label shows, and every other cell is blank if and only if no edge runs over it |
| `TextGrid.Draw` | internal/graph/text.go:33-51 | the same for any placement whose boxes do not touch |
| `TextGrid.Grid.DrawBox` | internal/graph/text.go:100-149 | exactly the cells of the box change, to border and centred label |
| `TextGrid.Grid.DrawEdge` | internal/graph/text.go:159-213 | exactly the blank cells on the route change |
| `TextGrid.BoxLooks` | internal/graph/text.go:96-149 | the characters of a box: corners, lines, sides, and the label within |
| `TextGrid.EdgeLooks` | internal/graph/text.go:164-213 | the characters of an edge on an empty grid: straight with an arrow head in the same row, else with two turns, the first in the first free column |
| `TextGrid.BordersSurvive` | internal/graph/text.go:151-162 | border cells survive every box and edge drawn after them |
| `TextGrid.LabelsSurvive` | internal/graph/text.go:151-162 | so does every non-blank cell of a box |
| `TextGrid.BlankStaysIff` | internal/graph/text.go:151-162 | a blank cell stays blank if and only if no edge runs over it |
| `Crossings.EdgeCrossesBoxIff` | internal/graph/text.go:159-213 | in a laid-out graph any edge runs through the middle of exactly the boxes in the row of its target whose layer lies between its ends |
| `Crossings.SlotOfNode` | internal/graph/layout.go:73-137 | a node stands in the column of its layer, in the row of its rank by AS number |
| `Crossings.PaddingIff` | internal/graph/text.go:159-213 | in the picture of a graph the padding of a box stays blank if no edge ends in its row and skips its layer, and is drawn over entirely if one does |
| `Crossings.RenderPaths` | internal/graph/text.go:13-51 | the same of every box of the picture of any paths |
| `Crossings.RenderTriangle` | internal/graph/text.go:13-51 | drawn from the paths 1 2 3 and 1 3, the picture shows a straight edge inside the box of AS2 |
| `Crossings.RenderCorner` | internal/graph/text.go:13-51 | drawn from the paths 1 2 3, 1 4 5 and 1 5, it shows a bent edge inside the box of AS4 |
| `Layout.TextBoxes` | internal/graph/layout.go:51-63 | in a text picture: boxes three rows high with one between, six characters between columns, as wide as the widest label of the column and four more, at least 11 and at most 30 |
| `Layout.DecimalReads` | internal/graph/graph.go:123-130 | the digits of a label read back as the AS number, without leading zeros |
| `TextGrid.LabelShown` | internal/graph/text.go:109-139 | a label that fits is shown whole and centred; one that does not loses its first byte |
| `ImportClosure.ZeImportClosure` | internal/appliance/cache.go:156-201 | ends on any import graph; fails if and only if something it must read cannot be read; else the source files of exactly the reachable packages, each package once, never the skipped one |
| `ImportClosure.SourceIff` | internal/appliance/cache.go:190-195 | a source file is a file named something.go and not something_test.go |
| `ImportClosure.InModuleIff` | internal/appliance/cache.go:179-183 | an import is of the module if and only if it is the module's path, a slash and a directory |
| `ImportClosure.OpenImport` | internal/appliance/cache.go:178-197 | opens a package of the module not seen before, reachable, once |
| `WorkerPool.EveryRunEnds` | internal/appliance/parallel.go:36-67 | every interleaving ends after exactly four steps a name, one a worker and two, and can go on until then |
| `WorkerPool.EveryRunDelivers` | internal/appliance/parallel.go:36-67 | when it ends, op ran once for every listing of a name and every result was tallied |
| `WorkerPool.NeverBlocks` | internal/appliance/parallel.go:42-52 | a worker with a result always finds room for it |
| `WorkerPool.SameAsSequential` | internal/appliance/parallel.go:21-92 | an op that depends only on the name gives the tallies of one pass in order |
| `WorkerPool.RunSequential` | internal/appliance/parallel.go:76-92 | exit code 1 if some name fails, else 0; the failed names are those whose code is not 0 |
| `WorkerPool.RunParallel` | internal/appliance/parallel.go:21-74 | for any scheduling, ends with the exit code of the sequential pass |

## Left out

- The clock's mutex and callers in several goroutines: the model is one caller, with callbacks run inside it.
- Wrap-around of the 64-bit sequence number, of time.Duration and of 64-bit counters.
- The capability parsers, UTF-8 validation and the content expressions of the filter: parameters. Of `capability.Negotiate` only what decides the ADD-PATH mode.
- The RIB and TABLE_DUMP callbacks of the filter: they never touch session evidence and only test attributes.
- RIB_GENERIC and TABLE_DUMP records, ParseASPath and the attribute extractors: more of the same loops.
- ribSubtypeHasTrailingNLRI, servePeerMatch and the socket side of serve, inject and replay.
- Percentiles and printing of the density tool.
- trieFanoutStats, collectOrigins and path uniqueness by 64-bit hash, which collisions make inexact.
- The SVG renderer; the layout theorems hold for any configuration.
- Eviction and hashing in the build cache: sorting and file operations.
- filepath cleaning in the import closure: directories are equal when their paths are.
- Filter.RunFilter: covers BGP4MP records; the records of other types in the file are not part of this model.
- Clock.VirtualClock.AdvanceTo: requires running tickers, and those its callbacks make, to have positive intervals; without, it need not end, and `ClockEndless.EndsIff` says when it does.
