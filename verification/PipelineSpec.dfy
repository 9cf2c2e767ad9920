/** What one delivered frame does to the element, as functions (frame_pipeline.c:241-506): the parameter-set
    cache, the IDR gate, the assembly of one buffer per access unit, the PTS clamp and the numbering. The class
    in FramePipeline.dfy is proved to compute exactly this; PipelineRuns.dfy proves what it means over runs. */
module PipelineSpec {
  import opened Bytes
  import opened AnnexB
  import opened AccessUnits

  const SPSPPSBUFSZ := 1024
  const MAX_INT := 0x7FFF_FFFF
  const TWO_TO_64 := 0x1_0000_0000_0000_0000
  /** G_MAXUINT64 / GST_CLOCK_TIME_NONE: "no PTS yet", "base time not latched". */
  const CLOCK_NONE: nat := 0xFFFF_FFFF_FFFF_FFFF

  datatype ParamSets = ParamSets(vps: seq<byte>, sps: seq<byte>, pps: seq<byte>)

  datatype Buffer = Buffer(data: seq<byte>, pts: nat, dts: nat, duration: nat, offset: nat, offsetEnd: nat)

  /** The element's fields that the feeder thread reads and writes. */
  datatype State = State(sets: ParamSets, sendSets: bool, hadIdr: bool, frameOffset: nat,
                         hasClock: bool, baseTime: nat, prevPts: nat)

  /** What set_clock() and change_state() did while the callback did not hold the object lock: the net effect of
      any number of their critical sections is an optional new clock field and an optional rebaseline. */
  datatype Interference = Interference(rebase: bool, clock: Option<bool>)

  const NoInterference := Interference(false, None)

  /** One delivered frame with everything the callback reads from outside: the clock, the element's base time,
      and the interference in front of the base-time commit and of each access unit's stamp. */
  datatype Delivery = Delivery(data: seq<byte>, now: nat, elementBase: nat, beforeCommit: Interference,
                               beforeStamp: seq<Interference>)

  function InterferenceAt(d: Delivery, a: nat): Interference {
    if a < |d.beforeStamp| then d.beforeStamp[a] else NoInterference
  }

  function Interfere(st: State, other: Interference): State {
    var st1 := if other.clock.Some? then st.(hasClock := other.clock.value) else st;
    if other.rebase then st1.(baseTime := CLOCK_NONE, prevPts := CLOCK_NONE) else st1
  }

  // ---------- the parameter-set cache ----------

  /** A parameter set that is latched rather than refused. */
  predicate Accepted(unit: NalUnit) {
    IsParameterSet(unit.kind) && 0 < |unit.bytes| <= SPSPPSBUFSZ
  }

  function CachedSet(sets: ParamSets, kind: UnitKind): seq<byte> {
    match kind
    case Vps => sets.vps
    case Sps => sets.sps
    case Pps => sets.pps
    case _ => []
  }

  function Latch(sets: ParamSets, unit: NalUnit): ParamSets {
    if !Accepted(unit) then sets
    else match unit.kind
      case Vps => sets.(vps := unit.bytes)
      case Sps => sets.(sps := unit.bytes)
      case _ => sets.(pps := unit.bytes)
  }

  /** The cache after all the sets of `units`. */
  function LatchAll(sets: ParamSets, units: seq<NalUnit>): ParamSets {
    if units == [] then sets
    else Latch(LatchAll(sets, units[..|units| - 1]), units[|units| - 1])
  }

  predicate AnyAccepted(units: seq<NalUnit>) {
    units != [] && (AnyAccepted(units[..|units| - 1]) || Accepted(units[|units| - 1]))
  }

  /** Some accepted set differs from what was cached when it arrived. */
  predicate AnyChanged(sets: ParamSets, units: seq<NalUnit>) {
    if units == [] then false
    else
      var rest, last := units[..|units| - 1], units[|units| - 1];
      AnyChanged(sets, rest) || (Accepted(last) && CachedSet(LatchAll(sets, rest), last.kind) != last.bytes)
  }

  // ---------- one access unit ----------

  /** The units that are forwarded. */
  function Forwarded(units: seq<NalUnit>): seq<NalUnit> {
    if units == [] then []
    else
      var rest, last := Forwarded(units[..|units| - 1]), units[|units| - 1];
      if IsParameterSet(last.kind) then rest else rest + [last]
  }

  function Payload(units: seq<NalUnit>): seq<byte> {
    UnitBytes(Forwarded(units))
  }

  /** The number of units in front of the first IDR slice. */
  function FirstIdr(units: seq<NalUnit>): nat {
    if units == [] || units[0].kind == FrameIdr then 0 else 1 + FirstIdr(units[1..])
  }

  predicate HasIdr(units: seq<NalUnit>) {
    FirstIdr(units) < |units|
  }

  predicate HasSlice(units: seq<NalUnit>) {
    units != [] && (HasSlice(units[..|units| - 1]) || IsSlice(units[|units| - 1].kind))
  }

  function Prefix(format: Format, sets: ParamSets): seq<byte> {
    (if format == H265 then sets.vps else []) + sets.sps + sets.pps
  }

  /** A pushed buffer's bytes in three parts: `prefix` is what was put in, `head` and `tail` came from the wire. */
  datatype Assembly = Assembly(head: seq<byte>, prefix: seq<byte>, tail: seq<byte>)

  function Flat(x: Assembly): seq<byte> {
    x.head + x.prefix + x.tail
  }

  lemma {:induction false} FirstIdrBound(units: seq<NalUnit>)
    ensures FirstIdr(units) <= |units|
    ensures HasIdr(units) ==> units[FirstIdr(units)].kind == FrameIdr
    ensures forall i :: 0 <= i < FirstIdr(units) ==> units[i].kind != FrameIdr
  {
    if units != [] && units[0].kind != FrameIdr {
      FirstIdrBound(units[1..]);
      assert forall i :: 1 <= i < |units| ==> units[i] == units[1..][i - 1];
    }
  }

  /** The sets go immediately in front of the first IDR slice, never at the head of the buffer. */
  function Assemble(format: Format, sets: ParamSets, au: seq<NalUnit>, withPrefix: bool): Assembly {
    FirstIdrBound(au);
    if withPrefix then
      Assembly(Payload(au[..FirstIdr(au)]), Prefix(format, sets), Payload(au[FirstIdr(au)..]))
    else Assembly(Payload(au), [], [])
  }

  datatype AuOutcome = AuOutcome(st: State, out: Option<(Assembly, Buffer)>)

  /** The clamp of lines 463-468. */
  function ClampPts(prevPts: nat, ts: nat): nat {
    if prevPts != CLOCK_NONE && ts <= prevPts then (prevPts + 1) % TWO_TO_64 else ts
  }

  function Duration(frameInterval: int): nat {
    if frameInterval > 0 then frameInterval else CLOCK_NONE
  }

  /** Does the gate let this access unit through, given the state in front of it? */
  predicate Passes(hadIdr: bool, au: seq<NalUnit>) {
    (hadIdr || HasIdr(au)) && Payload(au) != []
  }

  /** The state once an access unit's own sets are consumed. */
  function Consumed(st: State, au: seq<NalUnit>): State {
    st.(sets := LatchAll(st.sets, au), sendSets := st.sendSets || AnyAccepted(au))
  }

  /** Given the state with the access unit's sets consumed: does its buffer carry the cached sets? */
  predicate Prefixed(format: Format, st: State, au: seq<NalUnit>) {
    HasIdr(au) && (!st.hadIdr || st.sendSets) && Prefix(format, st.sets) != []
  }

  /** The state at the access unit's PTS critical section; without a slice there is none. */
  function AtStamp(st: State, au: seq<NalUnit>, other: Interference): State {
    if HasSlice(au) then Interfere(st, other) else st
  }

  function StampedPts(st: State, au: seq<NalUnit>, ts: nat, other: Interference): nat {
    if HasSlice(au) then ClampPts(AtStamp(st, au, other).prevPts, ts) else CLOCK_NONE
  }

  /** The state after the push, from the state `c` with the access unit's sets consumed. */
  function PushedState(format: Format, c: State, au: seq<NalUnit>, ts: nat, other: Interference): State {
    AtStamp(c, au, other).(sendSets := c.sendSets && !Prefixed(format, c, au),
                           hadIdr := c.hadIdr || HasIdr(au),
                           frameOffset := c.frameOffset + 1,
                           prevPts := if HasSlice(au) then StampedPts(c, au, ts, other) else c.prevPts)
  }

  function PushedParts(format: Format, c: State, au: seq<NalUnit>): Assembly {
    Assemble(format, c.sets, au, Prefixed(format, c, au))
  }

  function PushedBuffer(format: Format, frameInterval: int, c: State, au: seq<NalUnit>, ts: nat,
                        other: Interference): Buffer {
    var pts := StampedPts(c, au, ts, other);
    Buffer(Flat(PushedParts(format, c, au)), pts, pts, if HasSlice(au) then Duration(frameInterval) else CLOCK_NONE,
           c.frameOffset, c.frameOffset + 1)
  }

  function AuStep(format: Format, frameInterval: int, st: State, au: seq<NalUnit>, ts: nat,
                  other: Interference): AuOutcome {
    var c := Consumed(st, au);
    if Passes(st.hadIdr, au) then
      AuOutcome(PushedState(format, c, au, ts, other),
                Some((PushedParts(format, c, au), PushedBuffer(format, frameInterval, c, au, ts, other))))
    else AuOutcome(c, None)
  }

  // ---------- one delivery ----------

  /** The state afterwards, and the pushed buffers with their parts. */
  datatype Outcome = Outcome(st: State, parts: seq<Assembly>, buffers: seq<Buffer>)

  /** What a step pushes: one buffer or none. */
  function Out(step: AuOutcome): seq<Buffer> {
    match step.out
    case None => []
    case Some(pushed) => [pushed.1]
  }

  function Extend(before: Outcome, step: AuOutcome): Outcome {
    match step.out
    case None => before.(st := step.st)
    case Some(pushed) => Outcome(step.st, before.parts + [pushed.0], before.buffers + [pushed.1])
  }

  /** The first `n` access units of a delivery. */
  function RunAus(format: Format, frameInterval: int, st: State, aus: seq<seq<NalUnit>>, n: nat, ts: nat,
                  d: Delivery): Outcome
    requires n <= |aus|
  {
    if n == 0 then Outcome(st, [], [])
    else
      var before := RunAus(format, frameInterval, st, aus, n - 1, ts, d);
      Extend(before, AuStep(format, frameInterval, before.st, aus[n - 1], ts, InterferenceAt(d, n - 1)))
  }

  /** A delivery the callback does not turn away at the door. */
  predicate Admitted(st: State, data: seq<byte>) {
    0 < |data| <= MAX_INT && st.hasClock
  }

  function LatchBase(st: State, d: Delivery): State {
    if st.baseTime == CLOCK_NONE then Interfere(st, d.beforeCommit).(baseTime := d.elementBase) else st
  }

  /** Arrival in running time: now - base_time in 64-bit arithmetic. */
  function Arrival(st: State, d: Delivery): nat {
    (d.now - (if st.baseTime == CLOCK_NONE then d.elementBase else st.baseTime)) % TWO_TO_64
  }

  function AccessUnitsOf(format: Format, data: seq<byte>): seq<seq<NalUnit>> {
    Split(format, Units(format, data))
  }

  function Callback(format: Format, frameInterval: int, st: State, d: Delivery): Outcome {
    if !Admitted(st, d.data) then Outcome(st, [], [])
    else
      var aus := AccessUnitsOf(format, d.data);
      RunAus(format, frameInterval, LatchBase(st, d), aus, |aus|, Arrival(st, d), d)
  }

  // ---------- appending one unit ----------

  lemma {:induction false} PayloadSnoc(units: seq<NalUnit>, unit: NalUnit)
    ensures Payload(units + [unit]) == Payload(units) + (if IsParameterSet(unit.kind) then [] else unit.bytes)
  {
    assert (units + [unit])[..|units|] == units;
    UnitBytesAppend(Forwarded(units), [unit]);
    assert UnitBytes([unit]) == unit.bytes + UnitBytes([]);
  }

  lemma {:induction false} PayloadAppend(a: seq<NalUnit>, b: seq<NalUnit>)
    ensures Payload(a + b) == Payload(a) + Payload(b)
  {
    if b == [] {
      assert a + b == a;
    } else {
      var b', last := b[..|b| - 1], b[|b| - 1];
      PayloadAppend(a, b');
      PayloadSnoc(a + b', last);
      PayloadSnoc(b', last);
      Assoc(Payload(a), Payload(b'), if IsParameterSet(last.kind) then [] else last.bytes);
      assert a + b == (a + b') + [last] && b == b' + [last];
    }
  }

  lemma {:induction false} LatchAllAppend(sets: ParamSets, a: seq<NalUnit>, b: seq<NalUnit>)
    ensures LatchAll(sets, a + b) == LatchAll(LatchAll(sets, a), b)
  {
    if b == [] {
      assert a + b == a;
    } else {
      LatchAllAppend(sets, a, b[..|b| - 1]);
      assert (a + b)[..|a + b| - 1] == a + b[..|b| - 1];
    }
  }

  lemma {:induction false} AnyChangedAppend(sets: ParamSets, a: seq<NalUnit>, b: seq<NalUnit>)
    ensures AnyChanged(sets, a + b) <==> AnyChanged(sets, a) || AnyChanged(LatchAll(sets, a), b)
  {
    if b == [] {
      assert a + b == a;
    } else {
      var rest := b[..|b| - 1];
      AnyChangedAppend(sets, a, rest);
      LatchAllAppend(sets, a, rest);
      assert (a + b)[..|a + b| - 1] == a + rest;
    }
  }

  lemma {:induction false} AnySnoc(units: seq<NalUnit>, unit: NalUnit)
    ensures AnyAccepted(units + [unit]) <==> AnyAccepted(units) || Accepted(unit)
    ensures HasIdr(units + [unit]) <==> HasIdr(units) || unit.kind == FrameIdr
    ensures HasSlice(units + [unit]) <==> HasSlice(units) || IsSlice(unit.kind)
  {
    assert (units + [unit])[..|units|] == units;
    var u := units + [unit];
    FirstIdrBound(u);
    FirstIdrBound(units);
    assert u[|units|] == unit;
    assert forall i :: 0 <= i < |units| ==> u[i] == units[i];
  }

  lemma {:induction false} AnyChangedSnoc(sets: ParamSets, units: seq<NalUnit>, unit: NalUnit)
    ensures LatchAll(sets, units + [unit]) == Latch(LatchAll(sets, units), unit)
    ensures AnyChanged(sets, units + [unit]) <==>
              AnyChanged(sets, units) || (Accepted(unit) && CachedSet(LatchAll(sets, units), unit.kind) != unit.bytes)
  {
    assert (units + [unit])[..|units|] == units;
  }

  /** What the filling loop has written after the first `i` units, with `prefix` in front of the first IDR slice. */
  function Filled(prefix: seq<byte>, au: seq<NalUnit>, i: nat): seq<byte>
    requires i <= |au|
  {
    if i == 0 then []
    else
      Filled(prefix, au, i - 1) + (if i - 1 == FirstIdr(au) then prefix else [])
                                + (if IsParameterSet(au[i - 1].kind) then [] else au[i - 1].bytes)
  }

  lemma {:induction false} PayloadStep(au: seq<NalUnit>, lo: nat, i: nat)
    requires lo <= i < |au|
    ensures Payload(au[lo..i + 1]) == Payload(au[lo..i]) + (if IsParameterSet(au[i].kind) then [] else au[i].bytes)
  {
    assert au[lo..i + 1] == au[lo..i] + [au[i]];
    PayloadSnoc(au[lo..i], au[i]);
  }

  lemma {:induction false} FilledBeforeIdr(prefix: seq<byte>, au: seq<NalUnit>, i: nat)
    requires i <= |au| && (i <= FirstIdr(au) || prefix == [])
    ensures Filled(prefix, au, i) == Payload(au[..i])
  {
    if i > 0 {
      FilledBeforeIdr(prefix, au, i - 1);
      PayloadStep(au, 0, i - 1);
    }
  }

  lemma {:induction false} FilledNext(prefix: seq<byte>, au: seq<NalUnit>, i: nat)
    requires i < |au| && i != FirstIdr(au)
    ensures Filled(prefix, au, i + 1) ==
            Filled(prefix, au, i) + (if IsParameterSet(au[i].kind) then [] else au[i].bytes)
  {
    assert Filled(prefix, au, i) + [] == Filled(prefix, au, i);
  }

  lemma {:induction false} FilledFromIdr(prefix: seq<byte>, au: seq<NalUnit>, i: nat)
    requires FirstIdr(au) < i <= |au|
    ensures Filled(prefix, au, i) == Payload(au[..FirstIdr(au)]) + prefix + Payload(au[FirstIdr(au)..i])
  {
    var k := FirstIdr(au);
    PayloadStep(au, k, i - 1);
    if k == i - 1 {
      FilledBeforeIdr(prefix, au, k);
      assert au[k..k] == [];
    } else {
      FilledFromIdr(prefix, au, i - 1);
      FilledNext(prefix, au, i - 1);
      Assoc(Payload(au[..k]) + prefix, Payload(au[k..i - 1]), if IsParameterSet(au[i - 1].kind) then []
            else au[i - 1].bytes);
    }
  }

  /** The measuring pass and the filling pass agree: what the filling loop writes in the end is the assembly. */
  lemma {:induction false} FilledIsAssembly(format: Format, sets: ParamSets, au: seq<NalUnit>, withPrefix: bool)
    requires withPrefix ==> HasIdr(au)
    ensures Filled(if withPrefix then Prefix(format, sets) else [], au, |au|) ==
            Flat(Assemble(format, sets, au, withPrefix))
  {
    FirstIdrBound(au);
    if withPrefix {
      FilledFromIdr(Prefix(format, sets), au, |au|);
      assert au[FirstIdr(au)..|au|] == au[FirstIdr(au)..];
    } else {
      FilledBeforeIdr([], au, |au|);
      assert au[..|au|] == au;
    }
  }

  lemma {:induction false} FilledGrows(prefix: seq<byte>, au: seq<NalUnit>, i: nat, n: nat)
    requires i <= n <= |au|
    ensures |Filled(prefix, au, i)| <= |Filled(prefix, au, n)|
    decreases n
  {
    if i < n { FilledGrows(prefix, au, i, n - 1); }
  }

  /** The measured size is the size of what is filled in. */
  lemma {:induction false} FilledSize(prefix: seq<byte>, au: seq<NalUnit>)
    requires prefix == [] || HasIdr(au)
    ensures |Filled(prefix, au, |au|)| == |prefix| + |Payload(au)|
  {
    FirstIdrBound(au);
    var k := FirstIdr(au);
    if k < |au| {
      FilledFromIdr(prefix, au, |au|);
      PayloadAppend(au[..k], au[k..]);
      assert au[..k] + au[k..] == au && au[k..|au|] == au[k..];
    } else {
      FilledBeforeIdr(prefix, au, |au|);
      assert au[..|au|] == au;
    }
  }

  /** One turn of the filling loop. */
  lemma {:induction false} FillStep(prefix: seq<byte>, au: seq<NalUnit>, i: nat)
    requires i < |au|
    ensures IsParameterSet(au[i].kind) ==> Filled(prefix, au, i + 1) == Filled(prefix, au, i) && i != FirstIdr(au)
    ensures !IsParameterSet(au[i].kind) && i == FirstIdr(au) ==>
              Filled(prefix, au, i + 1) == (Filled(prefix, au, i) + prefix) + au[i].bytes
    ensures !IsParameterSet(au[i].kind) && (i != FirstIdr(au) || prefix == []) ==>
              Filled(prefix, au, i + 1) == Filled(prefix, au, i) + au[i].bytes
    ensures |Filled(prefix, au, i + 1)| <= |Filled(prefix, au, |au|)|
    ensures i <= FirstIdr(au) ==> (au[i].kind == FrameIdr <==> i == FirstIdr(au))
  {
    FilledGrows(prefix, au, i + 1, |au|);
    FirstIdrBound(au);
  }

  lemma {:induction false} AccessUnitAt(units: seq<NalUnit>, starts: seq<nat>, from: nat, k: nat)
    requires AreStarts(units, starts) && from <= k < |starts|
    ensures |AccessUnitsFrom(units, starts, from)| == |starts| - from
    ensures AccessUnitsFrom(units, starts, from)[k - from] == units[starts[k]..AuEnd(|units|, starts, k)]
    decreases k - from
  {
    if from < k {
      AccessUnitAt(units, starts, from + 1, k);
    } else {
      AccessUnitCount(units, starts, from);
    }
  }

  lemma {:induction false} AccessUnitCount(units: seq<NalUnit>, starts: seq<nat>, from: nat)
    requires AreStarts(units, starts) && from <= |starts|
    ensures |AccessUnitsFrom(units, starts, from)| == |starts| - from
    decreases |starts| - from
  {
    if from < |starts| { AccessUnitCount(units, starts, from + 1); }
  }

  lemma {:induction false} SplitShape(format: Format, units: seq<NalUnit>)
    ensures AreStarts(units, AuStarts(format, units))
    ensures |AuStarts(format, units)| <= |units|
    ensures |Split(format, units)| == |AuStarts(format, units)|
    ensures forall k :: 0 <= k < |AuStarts(format, units)| ==>
              && AuStarts(format, units)[k] <= AuEnd(|units|, AuStarts(format, units), k) <= |units|
              && Split(format, units)[k] ==
                units[AuStarts(format, units)[k]..AuEnd(|units|, AuStarts(format, units), k)]
  {
    var starts := AuStarts(format, units);
    AuStartsSpec(format, units);
    AccessUnitCount(units, starts, 0);
    forall k | 0 <= k < |starts|
      ensures Split(format, units)[k] == units[starts[k]..AuEnd(|units|, starts, k)]
    {
      AccessUnitAt(units, starts, 0, k);
    }
  }

  /** Some accepted set of the first `n` access units differed from the cache at its arrival. */
  predicate AusChanged(sets: ParamSets, aus: seq<seq<NalUnit>>, n: nat)
    requires n <= |aus|
  {
    n > 0 && (AusChanged(sets, aus, n - 1) || AnyChanged(LatchAus(sets, aus, n - 1), aus[n - 1]))
  }

  function LatchAus(sets: ParamSets, aus: seq<seq<NalUnit>>, n: nat): ParamSets
    requires n <= |aus|
  {
    if n == 0 then sets else LatchAll(LatchAus(sets, aus, n - 1), aus[n - 1])
  }

  lemma {:induction false} AusChangedIsAnyChanged(sets: ParamSets, aus: seq<seq<NalUnit>>, n: nat)
    requires n <= |aus|
    ensures AusChanged(sets, aus, n) == AnyChanged(sets, Concat(aus[..n]))
    ensures LatchAus(sets, aus, n) == LatchAll(sets, Concat(aus[..n]))
  {
    if n > 0 {
      AusChangedIsAnyChanged(sets, aus, n - 1);
      ConcatSnoc(aus[..n - 1], aus[n - 1]);
      assert aus[..n] == aus[..n - 1] + [aus[n - 1]];
      AnyChangedAppend(sets, Concat(aus[..n - 1]), aus[n - 1]);
      LatchAllAppend(sets, Concat(aus[..n - 1]), aus[n - 1]);
    }
  }

  /** `r` is what the first `n` access units come to. */
  ghost predicate AfterAus(format: Format, frameInterval: int, st: State, aus: seq<seq<NalUnit>>, n: nat, ts: nat,
                           d: Delivery, r: Outcome)
    requires n <= |aus|
  {
    r == RunAus(format, frameInterval, st, aus, n, ts, d)
  }

  lemma {:induction false} AfterAusNext(format: Format, frameInterval: int, st: State, aus: seq<seq<NalUnit>>, n: nat,
                                        ts: nat,
                                        d: Delivery, r: Outcome) returns (after: Outcome)
    requires n < |aus| && AfterAus(format, frameInterval, st, aus, n, ts, d, r)
    ensures AfterAus(format, frameInterval, st, aus, n + 1, ts, d, after)
    ensures var step := AuStep(format, frameInterval, r.st, aus[n], ts, InterferenceAt(d, n));
            after.st == step.st && after.buffers == r.buffers + Out(step)
    ensures r.st.sets == LatchAus(st.sets, aus, n)
  {
    RunAusSets(format, frameInterval, st, aus, n, ts, d);
    after := Extend(r, AuStep(format, frameInterval, r.st, aus[n], ts, InterferenceAt(d, n)));
  }

  lemma {:induction false} AuStepSets(format: Format, frameInterval: int, st: State, au: seq<NalUnit>, ts: nat,
                                      other: Interference)
    ensures AuStep(format, frameInterval, st, au, ts, other).st.sets == LatchAll(st.sets, au)
  {
  }

  lemma {:induction false} RunAusSets(format: Format, frameInterval: int, st: State, aus: seq<seq<NalUnit>>, n: nat,
                                      ts: nat, d: Delivery)
    requires n <= |aus|
    ensures RunAus(format, frameInterval, st, aus, n, ts, d).st.sets == LatchAus(st.sets, aus, n)
  {
    if n > 0 {
      RunAusSets(format, frameInterval, st, aus, n - 1, ts, d);
      AuStepSets(format, frameInterval, RunAus(format, frameInterval, st, aus, n - 1, ts, d).st, aus[n - 1], ts,
                 InterferenceAt(d, n - 1));
    }
  }

  /** One turn of the measuring loop. */
  lemma {:induction false} MeasureStep(sets: ParamSets, au: seq<NalUnit>, k: nat)
    requires k < |au|
    ensures LatchAll(sets, au[..k + 1]) == Latch(LatchAll(sets, au[..k]), au[k])
    ensures AnyAccepted(au[..k + 1]) <==> AnyAccepted(au[..k]) || Accepted(au[k])
    ensures HasIdr(au[..k + 1]) <==> HasIdr(au[..k]) || au[k].kind == FrameIdr
    ensures HasSlice(au[..k + 1]) <==> HasSlice(au[..k]) || IsSlice(au[k].kind)
    ensures |Payload(au[..k + 1])| == |Payload(au[..k])| + (if IsParameterSet(au[k].kind) then 0 else |au[k].bytes|)
    ensures AnyChanged(sets, au[..k + 1]) <==>
              AnyChanged(sets, au[..k])
                || (Accepted(au[k]) && CachedSet(LatchAll(sets, au[..k]), au[k].kind) != au[k].bytes)
  {
    assert au[..k + 1] == au[..k] + [au[k]];
    PayloadSnoc(au[..k], au[k]);
    AnySnoc(au[..k], au[k]);
    AnyChangedSnoc(sets, au[..k], au[k]);
  }
}
