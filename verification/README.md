# Verification of the libuvch264src element

A Dafny model of a GStreamer source element that takes H.264 and H.265 from UVC cameras, with proofs about it. Run
`dafny verify dfyconfig.toml` to check everything.

- `AnnexB.dfy`, `AccessUnits.dfy`: the start-code scanner, the unit parser and the access-unit splitter, loops proved
  equal to stateless definitions (annex B and section 7.4.1.2.3 of ITU-T H.264, section 7.4.2.4.4 of ITU-T H.265).
- `PipelineSpec.dfy`, `FramePipeline.dfy`, `ElementRuns.dfy`: one delivered frame as functions, the same on an object
  with fixed buffers, and whole runs of all entry points on that object.
- `PipelineRuns.dfy`, `PipelineLaws.dfy`, `PtsLaw.dfy`: what every run keeps: bytes, numbering, the IDR gate, parameter
  sets, time stamps. `CallbackLaws.dfy`: one callback in terms of the delivered bytes. `Feeder.dfy`: a callback as the
  streaming thread sees it.
- `Protocol.dfy`, `Session.dfy`: the streaming thread against an adversarial device, feeder and clock. Every call and
  every frame that leaves the queue goes on a history; the element's invariant says that the history follows a protocol,
  and the lemmas of `Protocol.dfy` say what that means over a whole life.
- `ParameterCache.dfy`, `CacheFiles.dfy`, `CachePath.dfy`: the disk cache of parameter sets, when it round-trips, and
  its file names.
- `Quirks.dfy`, `Negotiate.dfy`: the pixel-rate cap, the caps filter, and mode selection.
- `PortRecovery.dfy`: the sysfs escalation.

A "slice" is what the source's `nal_is_slice` accepts (types 1 and 5, or 1, 19 and 20), not every VCL type of the
standards.

## Where the code does not do what is said of it

- `gstlibuvch264src_internal.h:93-96` says the deep one-shot is re-armed by delivered frames. Only `start()` re-arms it
  (`gstlibuvch264src.c:1381`); `Session.Source.Core` and `Protocol.DeepIsLastResort` follow the code.
- `spspps_path.h:60-64` says distinct selectors never collide. That holds of the builder (`CachePath.KeysNeverCollide`);
  with the snapshot in front of it selectors collide exactly when their first 255 bytes agree
  (`CachePath.SelectorsCollide`).
- `gstlibuvch264src.c:692-693` says the highest framerate at the highest resolution is selected. The loop compares a
  mode's own top rate with the rate already fixated: `Negotiate.TieCanLoseRate`, with the exact condition in
  `Negotiate.RateIsMaximalIff`. So negotiation can fail although some mode could stream (`Negotiate.SlowModeBlocks`,
  `Negotiate.RangeTieNeedsOrder`): a smaller mode never helps, and a continuous range helps only in front of the other
  modes of its size. `Negotiate.NegotiationSucceedsIff` and, for peers that admit the rate 0 too,
  `Negotiate.NegotiationSucceedsExactly` say when it succeeds.
- `quirks.c:241-248` is said to clamp a continuous range to the cap. A range whose bottom is the cap would be left with
  one rate, which GStreamer refuses: the old range stays, rates above the cap included. `Quirks.ClampOntoBottom` is an
  input, `Quirks.FilterIsPointwise` the exact condition.
- `gstlibuvch264src.c:745` is refused in the same way when a continuous descriptor has one whole rate. One structure
  serves all descriptors of a format, so the previous descriptor's framerate stays: `Negotiate.StaleRateIsNegotiated`
  negotiates a rate that the mode never advertised, `Negotiate.AdvertisedIffHonest` says exactly when that cannot be.
- The base-time commit (`frame_pipeline.c:345-350`) overwrites a rebaseline made between the two critical sections:
  `PtsLaw.RebaselineBeforeCommit` says when the next arrival is off, `PtsLaw.LostRebaseline` gives an input. The PTS law
  rests on the previous PTS alone.
- `stop()` empties the queue without looking for the sentinel (`gstlibuvch264src.c:1523-1528`):
  `Session.StopReleasesSentinel`; `Session.Source.Stop` counts the sentinels released as buffers.
- After a recovery that failed, `create()` may be called again and starts a stream on a NULL handle; the protocol keeps
  that call apart (`StartWithoutHandle`): `Session.Source.Create`, `Protocol.NullHandleIsStarted`.
- Store then load is not the identity on every cache content: `ParameterCache.StoreLoadRoundTrip` gives the exact
  condition, `ParameterCache.TrailingZeroMoves` an input that breaks it.

## What is assumed

- A wait that nothing interrupts lasts at least as long as asked; `uvc_stop_streaming()` returns only once the feeder is
  gone; a start on a NULL handle does not succeed; `flushing` is cleared only between calls of `create()`.
- A drain is one step, and taking the head of the queue when the flush flag is read is taking it when it was popped: the
  other threads only append.
- Properties do not change during one call of `create()`; `Session.Source.Create` is the call with reconnect off, the
  default, and `Session.Source.CreateTurn` a turn of its loop with either setting.
- The clock stays below 2^64 - 1 in the PTS law, OFFSETs do not wrap, and in negotiation width * height stays below 2^31.
- `gst_structure_set()` refuses a fraction range whose start is not below its end and leaves the field as it was.
- 10^7 divided by an interval and cut off is the integer quotient. GStreamer's intersection takes the first structure of
  the peer's caps that matches, and fixating picks the nearest rate, the first of equally near ones.
- Attribute files of sysfs are read as the numbers they hold; nothing else changes the tree between two looks of one run.

## Model

| member | source | states |
|---|---|---|
| AnnexB.FindNalUnit | libuvch264src/src/frame_pipeline.c:57-91 | Searching finds the first start code at or after the position, with the zero in front of it when there is one, and its unit kind; not searching accepts only a code right there |
| AnnexB.CountNalUnits | libuvch264src/src/frame_pipeline.c:95-107 | The count is the number of units of the stateless definition |
| AnnexB.ParseNalUnits | libuvch264src/src/frame_pipeline.c:109-145 | Writes the units of the stateless definition, a smaller maximum gives exactly their prefix, the rest of the array is untouched |
| AnnexB.UnitsAreStartCodes | libuvch264src/src/frame_pipeline.c:65-83 | One unit for each position holding the bytes 0, 0, 1 with a byte behind them, in increasing order, and for no other position |
| AnnexB.UnitExtent | libuvch264src/src/frame_pipeline.c:119-133 | Unit k begins at its code, or at the zero in front, and runs to the next unit or the end of the buffer |
| AnnexB.UnitKindIs | libuvch264src/src/frame_pipeline.c:6-44 | The kind of every unit as the number of its header byte says, in both codecs, and Invalid for every other number |
| AnnexB.UnitsTile | libuvch264src/src/frame_pipeline.c:118-133 | The units tile the buffer from the first start code to the end without gap or overlap |
| AnnexB.UnitWellFormed | libuvch264src/src/frame_pipeline.c:155-160 | A unit of a known kind owns its start code and header byte, and the header offset is the real length of its start code |
| AccessUnits.TopBitDecidesFirstSlice | libuvch264src/src/frame_pipeline.c:162-179 | For every parsed slice the top-bit test equals the full decode: emulation-prevention bytes removed, ue(v) first_mb_in_slice is 0 (H.264, section 9.1) or first_slice_segment_in_pic_flag is 1 (H.265) |
| AccessUnits.ShortCodes | libuvch264src/src/frame_pipeline.c:162-179 | The full decode reads the bit strings 1, 010 and 011 as 0, 1 and 2 |
| AccessUnits.PreventionDropped | libuvch264src/src/frame_pipeline.c:162-179 | A prevention byte is dropped by the full decode |
| AccessUnits.OpensIffFirstSlice | libuvch264src/src/frame_pipeline.c:162-179 | Unit k opens a picture exactly when the full decode, begun 4 bytes behind its start code in H.264 and 5 in H.265, says so |
| AccessUnits.SplitAccessUnits | libuvch264src/src/frame_pipeline.c:196-239 | The loop with its two cursors stores the access-unit starts of the stateless definition, cut off at the maximum |
| AccessUnits.AuStartsSpec | libuvch264src/src/frame_pipeline.c:185-191 | The starts are strictly increasing, begin with 0 for a non-empty input, and are exactly the delimiters and the heads of the non-slice runs in front of picture-opening slices |
| AccessUnits.HeadsAre | libuvch264src/src/frame_pipeline.c:181-239 | Access units begin exactly at the first unit, at each delimiter, and behind each slice whose next slice, before any delimiter, opens a picture |
| AccessUnits.TwoPicturesSplit | libuvch264src/src/frame_pipeline.c:162-239 | Witness: two H.265 pictures of one slice each, without delimiters, are two access units |
| AccessUnits.SplitNeverOverflows | libuvch264src/src/frame_pipeline.c:218-225 | With room for as many starts as units the overflow branch is never taken |
| AccessUnits.AccessUnitShape | libuvch264src/src/frame_pipeline.c:181-195 | A delimiter occurs only at the head of an access unit, and no slice behind the first of a unit opens a new picture |
| AccessUnits.AccessUnitsPartition | libuvch264src/src/frame_pipeline.c:370-372 | The access units one after another are all the units |
| FramePipeline.Element.CacheParameterSet | libuvch264src/src/frame_pipeline.c:249-274 | Latches a set of 1 to 1024 bytes and refuses any other; reports a change exactly when the cached bytes differed |
| FramePipeline.Element.MeasureAu | libuvch264src/src/frame_pipeline.c:377-389 | First pass: the cache after all sets of the unit, whether it has an IDR slice and a slice, the size of what goes on, whether a set changed |
| FramePipeline.Element.FillPrefix | libuvch264src/src/frame_pipeline.c:417-424 | Copies VPS (H.265 only), SPS and PPS, in this order, behind what is there |
| FramePipeline.Element.FillAu | libuvch264src/src/frame_pipeline.c:406-430 | Second pass: the buffer of exactly the measured size is filled to its last byte and never past it; the send flag falls only when a prefix was written |
| FramePipeline.Element.AssembleAu | libuvch264src/src/frame_pipeline.c:398-433 | The sets stand immediately before the first IDR slice and only when the gate was closed or new sets arrived; the gate opens on an IDR slice |
| FramePipeline.Element.Stamp | libuvch264src/src/frame_pipeline.c:435-483 | PTS is the arrival, or one past the last PTS when the arrival is not later; no slice, no times |
| FramePipeline.Element.PushAu | libuvch264src/src/frame_pipeline.c:398-491 | Whole new state and the one buffer appended to the queue, numbered by the counter |
| FramePipeline.Element.ForwardAu | libuvch264src/src/frame_pipeline.c:374-491 | One turn of the loop: an access unit is dropped exactly when the gate is closed and it has no IDR slice, or nothing but sets is in it |
| FramePipeline.Element.ArrivalTime | libuvch264src/src/frame_pipeline.c:324-351 | Base time latched when unset; the commit is unconditional, so it overwrites a rebaseline made in between |
| FramePipeline.Element.FrameCallback | libuvch264src/src/frame_pipeline.c:303-506 | A callback changes the element as the functional step does, pushes exactly its buffers, and stores the sets on disk exactly when it is let through and an accepted set differed from the cached bytes |
| FramePipeline.Element.Carve | libuvch264src/src/frame_pipeline.c:353-368 | Counting, parsing and splitting with exactly sized arrays lose nothing |
| FramePipeline.Element.ForwardAll | libuvch264src/src/frame_pipeline.c:370-492 | The loop over access units equals the fold over them |
| PipelineSpec.FilledIsAssembly | libuvch264src/src/frame_pipeline.c:406-430 | What the filling loop writes, unit by unit, is head, sets, tail |
| PipelineSpec.FilledSize | libuvch264src/src/frame_pipeline.c:398-406 | Measured and filled sizes agree |
| PipelineSpec.AusChangedIsAnyChanged | libuvch264src/src/frame_pipeline.c:380-385 | The change flag and the cache depend on the sets in order only, not on how they fall into access units |
| CallbackLaws.CallbackPushes | libuvch264src/src/frame_pipeline.c:303-433 | With a clock and 1 to 2^31 - 1 bytes: one buffer for each access unit of the delivery that is more than parameter sets, in order, behind a closed gate from the first IDR-bearing one on; besides injected sets each holds exactly the other units of its access unit |
| CallbackLaws.OpenGateForwardsAll | libuvch264src/src/frame_pipeline.c:391-433 | Behind an open gate the pushed bytes without injected sets are, in order, all bytes of the units of the delivery that are no parameter sets |
| CallbackLaws.TurnedAway | libuvch264src/src/frame_pipeline.c:306-319 | Without a clock, with no byte, or with more than 2^31 - 1, nothing is pushed and nothing changes |
| CallbackLaws.ArrivalIs | libuvch264src/src/frame_pipeline.c:324-351 | The arrival is the clock less the base time modulo 2^64; an unset base time is read from the element |
| CallbackLaws.BufferIs | libuvch264src/src/frame_pipeline.c:435-491 | PTS, DTS, duration and offsets of one buffer, field by field |
| CallbackLaws.Rebaselined | libuvch264src/src/gstlibuvch264src.c:1101-1142 | Behind a start, a reopen, the first start of streaming or a rebaseline the base time and the PTS baseline are unset |
| CallbackLaws.LatchesByKind | libuvch264src/src/frame_pipeline.c:249-274 | Behind any units each cached set is the newest accepted one of its own kind |
| CallbackLaws.NewestSetIs | libuvch264src/src/frame_pipeline.c:249-274 | The newest set of a kind is the last unit of that kind of an accepted length |
| CallbackLaws.AnyChangedMeans | libuvch264src/src/frame_pipeline.c:380-385 | A change is reported exactly when some set, when it came, differed from the cached bytes of its kind |
| CallbackLaws.LoadedByKind | libuvch264src/src/spspps_cache.c:93-139 | A load takes, of the first three units in the first 3072 bytes of the file, for each kind the last of an accepted length, and keeps what was cached where there is none |
| ElementRuns.SetClockOf | libuvch264src/src/gstlibuvch264src.c:1101-1122 | A clock rebaselines, no clock only clears the field |
| ElementRuns.ChangeState | libuvch264src/src/gstlibuvch264src.c:1130-1142 | Paused to playing rebaselines, other transitions change nothing |
| ElementRuns.ResetFrameState | libuvch264src/src/gstlibuvch264src.c:1373-1377 | start() closes the gate, forgets pending sets, restarts numbering and PTS |
| ElementRuns.RearmStream | libuvch264src/src/gstlibuvch264src.c:1733-1739 | A reopen closes the gate and forgets the PTS baseline; numbering goes on |
| ElementRuns.SectionsAreOneInterference | libuvch264src/src/gstlibuvch264src.c:1101-1142 | Any number of critical sections of other threads between two of the callback amounts to one optional rebaseline and the last clock set |
| ElementRuns.Handle | libuvch264src/src/frame_pipeline.c:303-506 | Every entry point on the object does what the step of the run says |
| ElementRuns.Play | libuvch264src/src/frame_pipeline.c:303-506 | Any sequence of deliveries, starts, reopens, rebaselines and cache loads on one element follows the specified run, state and queue |
| PipelineRuns.RunIsItems | libuvch264src/src/frame_pipeline.c:370-492 | A run over deliveries equals the run over their access units |
| PipelineRuns.RunConservesBytes | libuvch264src/src/frame_pipeline.c:370-433 | Over every run from a fresh element, restarts included, each pushed buffer is exactly head, injected sets and tail, and without the injected sets the bytes are, in order, the non-parameter-set units of every access unit at or after the first IDR-bearing one since the latest start or reopen |
| PipelineRuns.ItemsConserveBytes | libuvch264src/src/frame_pipeline.c:391-433 | The same for any list of parsed access units, gates, rebaselines and cache loads from a closed gate, and the gate is open exactly when an IDR-bearing unit came since the latest gate |
| PipelineLaws.OffsetsCount | libuvch264src/src/frame_pipeline.c:485-489 | Without a restart the k-th buffer has OFFSET start + k and OFFSET_END one more, across reopens and rebaselines |
| PipelineLaws.FirstBufferAfterOpen | libuvch264src/src/frame_pipeline.c:391-433 | The first buffer after a start or reopen bears an IDR slice and the cached sets stand immediately in front of it |
| PipelineLaws.CacheIsNewest | libuvch264src/src/frame_pipeline.c:249-274 | For each kind the cache holds the last accepted set of the whole run |
| PipelineLaws.CacheStaysBounded | libuvch264src/src/frame_pipeline.c:262-266 | Over all runs every cached set stays within 1024 bytes |
| PipelineLaws.NextIdrCarriesNewestSets | libuvch264src/src/frame_pipeline.c:398-427 | If a set the codec prepends arrived and no IDR-bearing buffer was pushed since, the next IDR-bearing buffer carries the sets cached by then, loads of the disk cache in between included |
| PipelineLaws.CarriesExactly | libuvch264src/src/frame_pipeline.c:398-433 | Sets stand in front of a buffer exactly when it bears an IDR slice, there is something to prepend, and the gate was closed or new sets came |
| PipelineLaws.PrefixIs | libuvch264src/src/frame_pipeline.c:417-424 | What is prepended: VPS, SPS, PPS in H.265, SPS, PPS in H.264 |
| PipelineLaws.StartRenumbers | libuvch264src/src/gstlibuvch264src.c:1373-1377 | Behind a start the buffers number from 0 |
| PipelineLaws.CallbackFeeds | libuvch264src/src/frame_pipeline.c:391-491 | A callback numbers on from the counter and behind a closed gate its first buffer bears an IDR slice |
| Feeder.CallbackIsPushes | libuvch264src/src/frame_pipeline.c:391-491 | The buffers of any callback are frames that the session's feeder may push one after another, and gate and counter end as these pushes leave them |
| PtsLaw.ClampedIsLatest | libuvch264src/src/frame_pipeline.c:463-468 | The clamp in closed form: PTS n is the maximum of arrival j + n - j over j up to n |
| PtsLaw.PtsClosedForm | libuvch264src/src/frame_pipeline.c:446-468 | From one rebaseline to the next, one made by another thread inside a callback in front of the stamp included, every slice-bearing buffer has that PTS, strictly increasing and never before its arrival |
| PtsLaw.SpacedRunKeepsArrival | libuvch264src/src/frame_pipeline.c:446-468 | Over any run of deliveries between two rebaselines: when each comes later than the one before by at least the number of slice-bearing buffers that one pushed, unit i of a delivery has PTS arrival + i |
| PtsLaw.RebaselineBeforeCommit | libuvch264src/src/frame_pipeline.c:345-350 | A rebaseline between reading and committing the base time loses its base time, not its PTS baseline; the next arrival comes out as after an unset base time if and only if the element base time is the same modulo 2^64 |
| PtsLaw.LostRebaseline | libuvch264src/src/frame_pipeline.c:345-350 | Witness: base time 1000 read, 2000 set in between: the next frame comes out a thousand late |
| Protocol.ResourcesNest | libuvch264src/src/gstlibuvch264src.c:1476-1560 | In every history the protocol allows, opens minus closes is 1 exactly while the handle is held, likewise device reference and context, and they nest |
| Protocol.ResourcesNestAlways | libuvch264src/src/gstlibuvch264src.c:1763-1774 | At every moment of such a history: no double close, no unref under a handle, no exit under a device |
| Protocol.DeepIsLastResort | libuvch264src/src/gstlibuvch264src.c:1906-1937 | The deep rung runs at most once per start(), right after a settle pass that failed, itself after a port reset that succeeded |
| Protocol.AttemptsArePermitted | libuvch264src/src/gstlibuvch264src.c:2176-2210 | No wedge recovery with reconnect on or auto-port-reset off |
| Protocol.ResetsFollowAttempts | libuvch264src/src/gstlibuvch264src.c:2202-2208 | A port is reset only with the handle held and right behind a permitted attempt |
| Protocol.SettlesFollowResets | libuvch264src/src/gstlibuvch264src.c:1978-2038 | A settle pass comes right behind a port reset that went through or an escalation that acted |
| Protocol.ReturnedFramesAreFresh | libuvch264src/src/gstlibuvch264src.c:2228-2243 | A returned frame comes from the newest stream, OFFSETs of returned frames increase strictly within a session, the first frame out of a stream bears an IDR slice |
| Protocol.FramesLeaveInOrder | libuvch264src/src/gstlibuvch264src.c:2151-2244 | At every moment of a history the frame that leaves the queue, returned or dropped, has as OFFSET the number of frames that left since start(): none vanishes off the record, none is passed over |
| Protocol.DropsHaveReason | libuvch264src/src/gstlibuvch264src.c:1582-1599 | A frame is dropped only with the flush flag on, by the unlock_stop() that ends a flush, or when its stream was stopped |
| Protocol.NullHandleIsStarted | libuvch264src/src/gstlibuvch264src.c:2107-2119 | Witness: a session lost after its port reset, whose next create() starts a stream on a NULL handle |
| Session.Source.FeederPush | libuvch264src/src/frame_pipeline.c:391-491 | The feeder numbers on and, behind a closed gate, pushes only an IDR-bearing frame (Protocol.MayPush, which Feeder.CallbackIsPushes proves of every callback) |
| Session.Source.Unlock | libuvch264src/src/gstlibuvch264src.c:1564-1580 | Sets the flag and appends one sentinel, frames stay |
| Session.Source.UnlockStop | libuvch264src/src/gstlibuvch264src.c:1582-1599 | Clears the flag and drops everything queued, each frame on record between the begin and the end of the call |
| Session.Source.InterruptibleWait | libuvch264src/src/gstlibuvch264src.c:165-183 | True exactly when no flush is on, and then the whole time has passed |
| Session.Source.ResolveDevice | libuvch264src/src/gstlibuvch264src.c:1305-1352 | One look without a deadline; with one, a wait of 25, 50, 100, 200, 200, ... ms behind each look that found nothing, and it gives up only at the deadline or on a flush |
| Session.Source.TeardownHandle | libuvch264src/src/gstlibuvch264src.c:1763-1774 | Stop, close, unref in this order, each only for what is held |
| Session.Source.DrainQueue | libuvch264src/src/gstlibuvch264src.c:1778-1785 | Empties the queue, every frame dropped in order, sentinels never released |
| Session.Source.ReopenOnce | libuvch264src/src/gstlibuvch264src.c:1694-1757 | The calls are the looks that found nothing and then, in order, found, open, renegotiate, start, up to the first that failed, and the give-backs of what was taken; at least one look; without a deadline exactly one, and no wait; success is a started stream on a held handle |
| Session.Source.ReconnectTurn | libuvch264src/src/gstlibuvch264src.c:1801-1823 | One backoff and behind it one look for the device and one reopen: a new stream, a flush, or a refusal after the whole wait |
| Session.Source.ReconnectBounded | libuvch264src/src/gstlibuvch264src.c:1787-1828 | Waits 1, 2, 4, ... seconds, one look for the device behind each wait but one that a flush ended; gives up only on a bad selector, a flush, or after all of them |
| Session.Source.AwaitFirstFrame | libuvch264src/src/gstlibuvch264src.c:1841-1868 | True leaves a real frame at the head, and a frame at the head on entry is found unless a flush comes; outside a flush no frame is lost or reordered while the feeder pushes |
| Session.Source.SettleTurn | libuvch264src/src/gstlibuvch264src.c:2058-2098 | One reopen, its calls exact: refused, silent for a second or the rest of the budget and torn down again, or proved by a frame of the new stream |
| Session.Source.SettleUntilFrame | libuvch264src/src/gstlibuvch264src.c:2054-2101 | At most 4 + budget/200 refused and ceil(budget/1000) silent reopens, whatever the device does, and at least one look for the device when there is time and no flush; false leaves no handle, reference or streaming flag |
| Session.Source.DeepRecovery | libuvch264src/src/gstlibuvch264src.c:1906-1937 | Runs only when opted into and only once per start() |
| Session.Source.ReinitContext | libuvch264src/src/gstlibuvch264src.c:1997-2003 | Exit then init, with no handle or device held |
| Session.Source.ResetSilentDevice | libuvch264src/src/gstlibuvch264src.c:1636-1663 | Needs a handle |
| Session.Source.SettleAfterReset | libuvch264src/src/gstlibuvch264src.c:1978-2009 | Drops handle and context that straddled the reset, then settles |
| Session.Source.Escalate | libuvch264src/src/gstlibuvch264src.c:2011-2038 | A flush, a used one-shot or the switch off prevents it, and otherwise it runs; a new context and a second pass with its own budget exactly if it acted |
| Session.Source.RecoverWedgedDevice | libuvch264src/src/gstlibuvch264src.c:1962-2048 | With a valid selector and a handle the port reset is on record; if it went through, behind it a new context and a settle pass, and if that pass failed and the deep rung is permitted, that rung and, if it acted, a second context and pass, and nothing else; TRUE only with a live stream started by this recovery and a frame of it at the head of the queue |
| Session.Source.SettleOrEscalate | libuvch264src/src/gstlibuvch264src.c:1978-2038 | Behind the reset: exactly the rungs that are due, the deep one permitted if opted into, unused and no flush came first |
| Session.Source.CreateBegin | libuvch264src/src/gstlibuvch264src.c:2107-2145 | Starts the stream once, retries exactly once behind a clean renegotiation, leaves the flag down on failure |
| Session.Source.AwaitItem | libuvch264src/src/gstlibuvch264src.c:2152-2161 | A flush outranks what was popped; a stale sentinel is dropped; a silent second is one whole second asked for, begun on an empty queue, in which no frame was pushed |
| Session.Source.SilentSecond | libuvch264src/src/gstlibuvch264src.c:2161-2219 | Below the fifth silent second in a row only the counter moves; at the fifth the ladder decides, going on needs a newer stream, and an error comes only behind a spent ladder |
| Session.Source.SilenceLadder | libuvch264src/src/gstlibuvch264src.c:2174-2218 | With reconnect on five reopens behind their backoffs, else one wedge recovery per episode with the rungs of RecoverWedgedDevice; true only with a newer stream, an error only behind all of it |
| Session.Source.ReturnFrame | libuvch264src/src/gstlibuvch264src.c:2228-2243 | The head frame goes out; the one-shot re-arms after enough frames |
| Session.Source.CreateTurn | libuvch264src/src/gstlibuvch264src.c:2151-2244 | One turn of create(): never a sentinel out, no frame lost or reordered unless the stream is replaced or a flush is on, a non-empty queue gives a frame, a flush or one sentinel less, and it goes on only after a counted silent second, a dropped sentinel or with a newer stream |
| Session.Source.Create | libuvch264src/src/gstlibuvch264src.c:2103-2244 | With reconnect off create() returns for every device: a real frame, a flush, an error after a whole silent second behind a spent ladder, or a failed first start; with a frame queued it returns a frame or a flush; at most one wedge recovery; without one a returned frame is the head of the queue and no other is lost; without stream and handle it starts on a NULL handle |
| Session.Source.Stop | libuvch264src/src/gstlibuvch264src.c:1476-1560 | Gives everything back in order; a second stop() changes nothing, the frame state and the flag included; each sentinel still queued is released as if it were a buffer |
| Session.Source.Start | libuvch264src/src/gstlibuvch264src.c:1354-1471 | Everything held on success, nothing on failure, the calls exact: context, looks, open, and behind a failure the give-backs; without a cleanup in front one look; resets the per-session state, the deep one-shot included |
| Session.Source.SetProperties | libuvch264src/src/gstlibuvch264src.c:903-977 | The switches of the ladder take the values set, and the re-arm threshold that the amortised bound speaks of is the smallest since start() |
| Session.Source.AttemptsAreAmortised | libuvch264src/src/gstlibuvch264src.c:2229-2241 | Recovery attempts since start() are at most 1 + F/r for F frames returned and the smallest re-arm threshold r in force |
| Session.Source.NoFrameVanishes | libuvch264src/src/frame_pipeline.c:485-491 | The frame counter is the number of frames that left the queue since start() plus those still in it |
| Session.StopReleasesSentinel | libuvch264src/src/gstlibuvch264src.c:1523-1528 | Witness: a flush before stop() has its sentinel released as if it were a buffer |
| Session.BudgetBounds | libuvch264src/src/gstlibuvch264src.c:2057-2076 | The micro-backoff 25, 50, 100, 200, ... and the silent seconds bound the reopens within a budget |
| ParameterCache.StoreLoadRoundTrip | libuvch264src/src/spspps_cache.c:93-154 | Storing bounded sets and loading them into a fresh element restores them if and only if each is one unit of its kind, none holds a further start code, and none ending in 00 is followed by one with a three-byte code; the stored form is VPS, SPS, PPS in H.265 and SPS, PPS otherwise |
| ParameterCache.ParsesBackIffSeparable | libuvch264src/src/frame_pipeline.c:109-145 | For any list of typed pieces: concatenation parses back into the pieces if and only if they are separable |
| ParameterCache.SeparableLoads | libuvch264src/src/spspps_cache.c:104-140 | Loading separable sets replaces each stored set and leaves the others as they were |
| ParameterCache.LoadKeepsPrefix | libuvch264src/src/spspps_cache.c:104-140 | Loading any file never empties the cache of the sets the codec prepends |
| ParameterCache.SeparableUnits | libuvch264src/src/spspps_cache.c:96-102 | The stored form of separable sets holds at most the three units that load keeps |
| ParameterCache.StoredFormFits | libuvch264src/src/spspps_cache.h:31-36 | The stored form of bounded sets fits the 3 * 1024 bytes that load reads |
| ParameterCache.ParsedSetIsOwnUnit | libuvch264src/src/frame_pipeline.c:119-133 | A set cached from a delivery is one unit of its kind; only a bare start code at its end can still break it |
| ParameterCache.CleanSetsRoundTrip | libuvch264src/src/spspps_cache.c:93-154 | Sets cached from deliveries that end in neither 00 nor a bare start code always survive |
| ParameterCache.TrailingZeroMoves | libuvch264src/src/spspps_cache.c:150-151 | Witness: a zero at the end of the SPS comes back in front of the PPS |
| ParameterCache.SameOrder | libuvch264src/src/frame_pipeline.c:109-145 | Two cuts of one string into the same pieces of distinct kinds are the same cut |
| CacheFiles.StoreSets | libuvch264src/src/spspps_cache.c:144-154 | Writes the stored form of the current sets under the key's file name, or nothing when the file cannot be opened |
| CacheFiles.LoadUnit | libuvch264src/src/spspps_cache.c:104-140 | Copies one unit into its fixed buffer or refuses it |
| CacheFiles.LoadSets | libuvch264src/src/spspps_cache.c:93-142 | Reads, parses and latches at most three units; no file, no change |
| CacheFiles.EachKeyItsOwnFile | libuvch264src/src/spspps_cache.c:43-54 | On any directory, however stores under many keys interleave, a key's file holds the last sets stored under that key; a key not stored under keeps the file it had, or has none |
| CacheFiles.FreshLoadAfterStores | libuvch264src/src/spspps_cache.c:93-154 | After any run of stores on any directory a fresh load under a key gives the last sets stored under it, exactly when they are separable |
| CachePath.BuildKey | libuvch264src/src/spspps_path.h:66-82 | The escaping loop gives the escaped selector with its NUL, or -1 exactly when it does not fit |
| CachePath.BuildPath | libuvch264src/src/spspps_path.h:46-94 | The whole path with its NUL, or -1 exactly when path or key does not fit |
| CachePath.FileNameDecodes | libuvch264src/src/spspps_path.h:60-87 | A left-to-right decoder recovers selector, codec, width and height from every file name |
| CachePath.KeysNeverCollide | libuvch264src/src/spspps_path.h:60-64 | Distinct keys never share a file |
| CachePath.FileNameHarmless | libuvch264src/src/spspps_path.h:60-62 | No slash, dot or NUL in a file name |
| CachePath.EscapeByteIs | libuvch264src/src/spspps_path.h:66-83 | Letters, digits and the minus sign stand for themselves, every other byte is an underscore and two upper-case hex digits |
| CachePath.DecimalCanonical | libuvch264src/src/spspps_path.h:84-86 | A decimal reads back as the number, with a minus exactly for negative numbers and no leading zero |
| CachePath.FileNameExample | libuvch264src/src/spspps_path.h:46-94 | Witness: the selector a/ for H.265 at 1920x1080 |
| CachePath.SnapshotAlwaysFits | libuvch264src/src/spspps_cache.h:9-13 | A selector of at most 255 bytes never exhausts the key buffer |
| CachePath.SelectorsCollide | libuvch264src/src/spspps_cache.c:19-32 | Two selectors share a file exactly when their first 255 bytes agree |
| Quirks.FindRow | libuvch264src/src/quirks.c:4-16 | The first matching row |
| Quirks.LimitsIn | libuvch264src/src/quirks.c:24-42 | Limits of the first matching row, none without a row, no cap without its flag |
| Quirks.CapFlagIs | libuvch264src/src/quirks.h:47 | The flag is bit 1, whatever the other bits are |
| Quirks.LimitsOf | libuvch264src/src/quirks.c:150-187 | The production table caps the device 2ca3:0023 at 3840 * 2160 * 30 and no other |
| Quirks.SelectableIffBelowMaxFps | libuvch264src/src/quirks.c:44-66 | For 16-bit geometry the 64-bit product is exact, and testing a rate against the cap equals testing it against the saturated greatest rate |
| Quirks.CappedDevice | libuvch264src/src/quirks.c:47-66 | Under that cap 3840x2160 may be asked for 30 frames a second and no more |
| Quirks.CappedLadder | libuvch264src/src/quirks.c:260-273 | Witness: of 60, 50, 48, 30, 25 and 24 fps advertised there the last three are kept |
| Quirks.FilterStructure | libuvch264src/src/quirks.c:212-290 | The in-place edit of one structure equals the functional filter, a refused range included; the cast to gint is exact where it is reached |
| Quirks.FilterList | libuvch264src/src/quirks.c:260-273 | The selection loop over the listed rates |
| Quirks.FilterCaps | libuvch264src/src/quirks.c:292-314 | The loop that removes by index while it goes gives the filtered list; the advertised caps stay as they are |
| Quirks.FilterIsPointwise | libuvch264src/src/quirks.c:197-290 | The filter is pointwise, a rate being offered afterwards if and only if it was offered before and width * height * ceil(rate) is within the cap, exactly when the clamp does not ask for the range from the cap to the cap |
| Quirks.FilterOffers | libuvch264src/src/quirks.c:197-290 | For every proper mode and rate, any rational inside a continuous range included: offered afterwards if and only if offered before and within the cap, or the clamp was refused |
| Quirks.UnjudgedPass | libuvch264src/src/quirks.c:212-225 | Without a cap every mode passes as it is, and under any cap one without a size, without a framerate or with one of another type |
| Quirks.ClampOntoBottom | libuvch264src/src/quirks.c:241-248 | Witness: 100x100 from 15 to 60 fps under a cap of 15 fps keeps offering 60 |
| Quirks.DroppedIffNothingSurvives | libuvch264src/src/quirks.c:238-244 | A mode is dropped if and only if it offers no rate within the cap |
| Quirks.DeliverableTwice | libuvch264src/src/quirks.c:292-314 | Filtering twice is filtering once |
| Quirks.DeliverableAppend | libuvch264src/src/gstlibuvch264src.c:749-757 | Filtering a whole ladder equals appending filtered modes |
| Quirks.OrderIsKept | libuvch264src/src/quirks.c:304-312 | The k-th mode delivered is what the k-th surviving mode became |
| Quirks.SurvivorsAre | libuvch264src/src/quirks.c:304-312 | The surviving positions, in increasing order, none missing |
| Negotiate.Visit | libuvch264src/src/gstlibuvch264src.c:709-779 | One frame descriptor: its rates go into the structure, or what was there stays; its filtered mode joins the ladder and it replaces the running best as the comparison says |
| Negotiate.SelectMode | libuvch264src/src/gstlibuvch264src.c:694-786 | For every device the nested loops, with one structure per format, publish the filtered ladder of all descriptors and end with the fold over all candidates |
| Negotiate.FlattenIsProper | libuvch264src/src/gstlibuvch264src.c:694-747 | Over every device the structure only ever holds no framerate, a non-empty range or a list, of whole rates up to 10^7 |
| Negotiate.PublishedMode | libuvch264src/src/gstlibuvch264src.c:694-757 | A descriptor publishes at most one mode, of the media type of its format and its own size |
| Negotiate.LadderIs | libuvch264src/src/gstlibuvch264src.c:749-757 | The published ladder is what is published of each descriptor, one after another |
| Negotiate.FindTopRate | libuvch264src/src/gstlibuvch264src.c:594-611 | The loop over the listed rates |
| Negotiate.TopIsGreatest | libuvch264src/src/gstlibuvch264src.c:594-611 | The top rate is attained and bounds every listed rate, -1 for none |
| Negotiate.NegotiatedMode | libuvch264src/src/gstlibuvch264src.c:694-786 | The selected mode comes from a descriptor and is admitted by the peer, no other candidate is larger; it is within the cap where the cap reaches its rates, and advertised by the descriptor where the descriptor is honest |
| Negotiate.CandidateIsSound | libuvch264src/src/gstlibuvch264src.c:752-778 | Every candidate's fixated rate is offered by its mode, admitted by a structure of the peer's caps, and within the cap unless the mode has no rates or the clamp was refused |
| Negotiate.AdvertisedIffHonest | libuvch264src/src/gstlibuvch264src.c:735-746 | For every descriptor in its place: whatever cap and peer, what is fixated is advertised by the descriptor, if and only if its range is one, or the structure still holds a list of nothing but its own rate |
| Negotiate.StaleRateIsNegotiated | libuvch264src/src/gstlibuvch264src.c:735-746 | Witness: 640x480 listing 60 fps, then 1920x1080 continuous at 30 alone: 1920x1080 at 60 fps is negotiated |
| Negotiate.ListFixates | libuvch264src/src/gstlibuvch264src.c:771-777 | From a list the greatest admitted rate is fixated, the top rate itself when the peer admits it |
| Negotiate.NothingMeetsIff | libuvch264src/src/gstlibuvch264src.c:765-777 | Nothing of a mode is left only if no structure of the peer meets it |
| Negotiate.RangeFixatesLowest | libuvch264src/src/gstlibuvch264src.c:771-777 | From a range the fixated rate is no higher than any rate it offers and the peer admits |
| Negotiate.NothingSelectedIff | libuvch264src/src/gstlibuvch264src.c:676-764 | Nothing is selected exactly when every candidate is empty, or a single pixel with a continuous range |
| Negotiate.RateFreeNegotiation | libuvch264src/src/gstlibuvch264src.c:762-778 | With listed rates and a peer that admits every whole rate the device has, spelled as no field or as a range, the selection is the greatest by area, then by top rate |
| Negotiate.RangeFrees | libuvch264src/src/gstlibuvch264src.c:771-777 | A peer that spells the free rate as a range from 0 leaves it free |
| Negotiate.RateIsMaximalIff | libuvch264src/src/gstlibuvch264src.c:762-778 | Over discrete candidates the greatest rate among those of the greatest area is reached if and only if no mode that advertises more but is held below it follows the last mode that attains it |
| Negotiate.AttainedMeans | libuvch264src/src/gstlibuvch264src.c:762-764 | That condition spelled out over the candidates' positions |
| Negotiate.NegotiatedRateIsMaximalIff | libuvch264src/src/gstlibuvch264src.c:694-786 | The same of every device that lists its rates and every peer |
| Negotiate.TieCanLoseRate | libuvch264src/src/gstlibuvch264src.c:762-764 | Witness in descriptors: 30 fps loses to a mode of the same size that lists 60 and 25 when the peer takes 30 and 25; in the other order it wins |
| Negotiate.SucceedsIff | libuvch264src/src/gstlibuvch264src.c:802-807 | Over candidates that fixate to a positive rate where they list one: success if and only if, among those of the greatest area, one lists a positive rate or the first fixates to one |
| Negotiate.SlowModeBlocks | libuvch264src/src/gstlibuvch264src.c:802-807 | Witness in descriptors: a largest mode that lists an interval of two seconds fails negotiation although a smaller one lists 30 fps |
| Negotiate.AnyHopefulMeans | libuvch264src/src/gstlibuvch264src.c:762-764 | The condition of SucceedsIff spelled out over the positions |
| Negotiate.RateReachedIff | libuvch264src/src/gstlibuvch264src.c:762-778 | For candidates fixated no higher than their list and any rate from 1 on: the selected mode has at least this rate if and only if the candidates of the greatest area, gone through backwards, reach it |
| Negotiate.SuccessNeedsRate | libuvch264src/src/gstlibuvch264src.c:802-807 | For any candidates: success needs one of the greatest area that fixates to a positive rate |
| Negotiate.NegotiationSucceedsExactly | libuvch264src/src/gstlibuvch264src.c:676-807 | For every device and every peer: negotiation succeeds if and only if the candidates of the greatest area reach one frame a second |
| Negotiate.NegotiationSucceedsIff | libuvch264src/src/gstlibuvch264src.c:676-807 | For every device and every peer whose structures refuse the rate 0 or admit every whole rate the device lists: success if and only if, among the candidates of the greatest area, one lists a positive rate or the first fixates to one |
| Negotiate.RangeTieNeedsOrder | libuvch264src/src/gstlibuvch264src.c:762-764 | Witness in descriptors: a continuous range of the same size as a slow list succeeds in front of it and fails behind it |
| PortRecovery.Sysfs.WriteAttr | libuvch264src/src/usb_port_recovery.c:50-83 | Each attempt goes on record with its reply; the error names the reply |
| PortRecovery.Sysfs.HubCarriesOtherDevices | libuvch264src/src/usb_port_recovery.c:160-192 | Shared exactly when a sibling port holds a device or the hub cannot be read |
| PortRecovery.Sysfs.Run | libuvch264src/src/usb_port_recovery.c:194-249 | Something is written if and only if there is a target, nothing of another identity sits at its port or path, and the hub is unshared when only the port is left; which attribute, in which order and with which outcome, for every reply; the failure reported is that of the last write |
| PortRecovery.SiblingsAreSafe | libuvch264src/src/usb_port_recovery.c:160-192 | With only the port left, and nothing of another identity at it, a run is refused without a write exactly when the hub cannot be listed or another of its ports holds a device |
| PortRecovery.Sysfs.Capture | libuvch264src/src/usb_port_recovery.c:95-148 | The first device entry at the address that has an identity and a port |
| PortRecovery.FirstTargetIs | libuvch264src/src/usb_port_recovery.c:110-143 | A capture fails exactly when no entry qualifies; what is captured is the first device at the address, with the port its link names |
| PortRecovery.PortIsRestored | libuvch264src/src/usb_port_recovery.c:229-248 | The restore follows every disable that went through; the port stays disabled exactly when the restore was refused; success is exactly both writes |
| PortRecovery.CapturedIsRecognised | libuvch264src/src/usb_port_recovery.c:85-93 | A captured device is recognised again if and only if its identity fits 16 bits |

## Left out

- libuvc, libusb and kernel behaviour: their answers are arbitrary choices.
- GObject and GStreamer plumbing, properties beyond those the recovery ladder reads, logging, error posting, latency.
- PTZ, the control socket, the V4L2 probe, and the max-payload and transfer-buffers overrides: input/output or single
  branches. The retry of a failed first start is kept, its payload renegotiation is one arbitrary answer.
- The stream-control probe and its single retry (gstlibuvch264src.c:627-648): one arbitrary answer.
- Real files, the home directory and the cache directory: a map from file name to bytes; whether a file opens is a choice.
- Test hooks and the compile-gated probe policy override.
- Memory-level races: threads interleave at lock boundaries and at waits only.
- Numbers in Unicode or locale forms: `%d` prints plain decimal digits.
- Session.Source.FeederPush: a buffer is stream, OFFSET and IDR mark here; Feeder.CallbackIsPushes ties it to the bytes.
- Session.Source.DeepRecovery: what the escalation does to the device is PortRecovery's; here it has acted or not.
- Session.Source.Create: with reconnect on it need not end, and no claim is made that it does.
- Quirks.FilterIsPointwise: modes that carry no framerate field, or one of another type, pass through untouched and are
  outside the law.
- Negotiate.Visit: where neither the mode nor the peer's structure has a framerate to fixate, the source reads an unset
  one; such a descriptor gives no candidate here. That is a descriptor that lists no interval, or a continuous one of a
  single whole rate in front of any other, and a peer without a framerate field.
- Negotiate.NegotiationSucceedsExactly, Negotiate.NegotiationSucceedsIff, Negotiate.NegotiatedMode: hence silent on
  negotiations in which such a descriptor would be selected.
- PortRecovery.Sysfs.Run: the hold time between the two writes is not modelled.
- PortRecovery.Sysfs.Capture: the parsing of attribute text into numbers.
