/** The feeder-thread side of the element (frame_pipeline.c:249-506): fixed 1024-byte set buffers, the two-pass
    assembly and the queue, proved equal to PipelineSpec. */
module FramePipeline {
  import opened Bytes
  import opened AnnexB
  import opened AccessUnits
  import opened PipelineSpec

  class Element {
    var format: Format
    var frameInterval: int
    var hasClock: bool
    var baseTime: nat
    var prevPts: nat
    var frameOffset: nat
    var hadIdr: bool
    var sendSets: bool
    const vps: array<byte>
    const sps: array<byte>
    const pps: array<byte>
    var vpsLength: int
    var spsLength: int
    var ppsLength: int
    /** What the feeder pushed on the frame queue. */
    var queue: seq<Buffer>
    /** What was handed to the disk cache, one entry per store. */
    var stores: seq<ParamSets>

    /** The cached sets as values; `Valid` ties them to the buffers. */
    ghost var sets: ParamSets

    ghost predicate Valid()
      reads this`vpsLength, this`spsLength, this`ppsLength, this`sets, vps, sps, pps
    {
      && vps.Length == sps.Length == pps.Length == SPSPPSBUFSZ
      && vps != sps && vps != pps && sps != pps
      && 0 <= vpsLength <= SPSPPSBUFSZ && 0 <= spsLength <= SPSPPSBUFSZ && 0 <= ppsLength <= SPSPPSBUFSZ
      && sets == ParamSets(vps[..vpsLength], sps[..spsLength], pps[..ppsLength])
    }

    ghost function View(): State
      reads this
    {
      State(sets, sendSets, hadIdr, frameOffset, hasClock, baseTime, prevPts)
    }

    constructor ()
      ensures Valid() && fresh(vps) && fresh(sps) && fresh(pps)
      ensures View() == State(ParamSets([], [], []), false, false, 0, false, CLOCK_NONE, CLOCK_NONE)
      ensures queue == [] && stores == []
    {
      format, frameInterval := OtherFormat, 0;
      hasClock, baseTime, prevPts, frameOffset := false, CLOCK_NONE, CLOCK_NONE, 0;
      hadIdr, sendSets := false, false;
      vps, sps, pps := new byte[SPSPPSBUFSZ], new byte[SPSPPSBUFSZ], new byte[SPSPPSBUFSZ];
      vpsLength, spsLength, ppsLength := 0, 0, 0;
      queue, stores := [], [];
      sets := ParamSets([], [], []);
    }

    /** cache_parameter_set: refuse an empty or oversized set, rewrite the copy only when it changed. */
    method CacheParameterSet(unit: NalUnit) returns (updated: bool)
      requires Valid()
      modifies this`vpsLength, this`spsLength, this`ppsLength, this`sets, this`sendSets, vps, sps, pps
      ensures Valid()
      ensures View() == old(View()).(sets := Latch(old(sets), unit), sendSets := old(sendSets) || Accepted(unit))
      ensures updated <==> Accepted(unit) && CachedSet(old(sets), unit.kind) != unit.bytes
    {
      updated := false;
      var dst, dstLen;
      if unit.kind == Vps {
        dst, dstLen := vps, vpsLength;
      } else if unit.kind == Sps {
        dst, dstLen := sps, spsLength;
      } else if unit.kind == Pps {
        dst, dstLen := pps, ppsLength;
      } else {
        return;
      }
      var len := |unit.bytes|;
      if len == 0 || len > SPSPPSBUFSZ {
        return;
      }
      if dstLen != len || dst[..len] != unit.bytes {
        CopySet(unit);
        updated := true;
      }
      sendSets := true;
    }

    /** The set's bytes into its fixed buffer, and its length. */
    method CopySet(unit: NalUnit)
      requires Valid() && Accepted(unit)
      modifies this`vpsLength, this`spsLength, this`ppsLength, this`sets, vps, sps, pps
      ensures Valid() && sets == Latch(old(sets), unit)
    {
      var len := |unit.bytes|;
      if unit.kind == Vps {
        Fill(vps, 0, unit.bytes);
        vpsLength := len;
        assert vps[..len] == unit.bytes;
      } else if unit.kind == Sps {
        Fill(sps, 0, unit.bytes);
        spsLength := len;
        assert sps[..len] == unit.bytes;
      } else {
        Fill(pps, 0, unit.bytes);
        ppsLength := len;
        assert pps[..len] == unit.bytes;
      }
      sets := Latch(sets, unit);
    }
  
    /** First pass over an access unit: consume the sets, note what is there, measure what goes on. */
    method MeasureAu(au: seq<NalUnit>) returns (hasIdr: bool, hasSlice: bool, payloadLen: nat, updated: bool)
      requires Valid()
      modifies this`vpsLength, this`spsLength, this`ppsLength, this`sets, this`sendSets, vps, sps, pps
      ensures Valid()
      ensures View() == Consumed(old(View()), au)
      ensures hasIdr == HasIdr(au) && hasSlice == HasSlice(au)
      ensures payloadLen == |Payload(au)|
      ensures updated == AnyChanged(old(sets), au)
    {
      hasIdr, hasSlice, payloadLen, updated := false, false, 0, false;
      var i := 0;
      while i < |au|
        invariant 0 <= i <= |au| && Valid()
        invariant sets == LatchAll(old(sets), au[..i]) && sendSets == (old(sendSets) || AnyAccepted(au[..i]))
        invariant hasIdr == HasIdr(au[..i]) && hasSlice == HasSlice(au[..i])
        invariant payloadLen == |Payload(au[..i])|
        invariant updated == AnyChanged(old(sets), au[..i])
      {
        var unit := au[i];
        MeasureStep(old(sets), au, i);
        i := i + 1;
        if IsParameterSet(unit.kind) {
          var changed := CacheParameterSet(unit);
          updated := updated || changed;
          continue;
        }
        if unit.kind == FrameIdr { hasIdr := true; }
        if IsSlice(unit.kind) { hasSlice := true; }
        payloadLen := payloadLen + |unit.bytes|;
      }
      assert au[..|au|] == au;
    }

    /** The cached sets, VPS first and only for H.265, SPS, PPS. */
    method FillPrefix(buffer: array<byte>, start: nat) returns (at: nat)
      requires Valid() && buffer != vps && buffer != sps && buffer != pps
      requires start + |Prefix(format, sets)| <= buffer.Length
      modifies buffer
      ensures at == start + |Prefix(format, sets)|
      ensures buffer[..at] == old(buffer[..start]) + Prefix(format, sets)
    {
      at := start;
      if format == H265 {
        Fill(buffer, at, vps[..vpsLength]);
        at := at + vpsLength;
      }
      Fill(buffer, at, sps[..spsLength]);
      at := at + spsLength;
      Fill(buffer, at, pps[..ppsLength]);
      at := at + ppsLength;
    }

    /** Second pass: one buffer of exactly `prefixLen + payloadLen` bytes, filled to its last byte. */
    method FillAu(au: seq<NalUnit>, prefixLen: nat, payloadLen: nat) returns (data: seq<byte>)
      requires Valid()
      requires payloadLen == |Payload(au)|
      requires prefixLen > 0 ==> HasIdr(au) && prefixLen == |Prefix(format, sets)|
      modifies this`sendSets
      ensures Valid()
      ensures data == Filled(if prefixLen > 0 then Prefix(format, sets) else [], au, |au|)
      ensures sendSets == (old(sendSets) && prefixLen == 0)
    {
      var buffer := new byte[prefixLen + payloadLen];
      ghost var prefix := if prefixLen > 0 then Prefix(format, sets) else [];
      FilledSize(prefix, au);
      FirstIdrBound(au);
      var at, prefixed := 0, false;
      var i := 0;
      while i < |au|
        invariant 0 <= i <= |au| && Valid()
        invariant 0 <= at <= buffer.Length && buffer[..at] == Filled(prefix, au, i)
        invariant prefixed == (prefixLen > 0 && FirstIdr(au) < i)
        invariant sendSets == (old(sendSets) && !prefixed)
      {
        var unit := au[i];
        FillStep(prefix, au, i);
        i := i + 1;
        if IsParameterSet(unit.kind) { continue; }
        var withPrefix := !prefixed && prefixLen > 0 && unit.kind == FrameIdr;
        at := FillUnit(buffer, at, unit, withPrefix);
        if withPrefix { prefixed, sendSets := true, false; }
      }
      data := buffer[..at];
    }

    /** One forwarded unit, with the sets in front of it or without. */
    method FillUnit(buffer: array<byte>, start: nat, unit: NalUnit, withPrefix: bool) returns (at: nat)
      requires Valid() && buffer != vps && buffer != sps && buffer != pps
      requires start + (if withPrefix then |Prefix(format, sets)| else 0) + |unit.bytes| <= buffer.Length
      modifies buffer
      ensures Valid() && at == start + (if withPrefix then |Prefix(format, sets)| else 0) + |unit.bytes|
      ensures buffer[..at] == old(buffer[..start]) + (if withPrefix then Prefix(format, sets) else []) + unit.bytes
    {
      at := start;
      if withPrefix { at := FillPrefix(buffer, at); }
      Fill(buffer, at, unit.bytes);
      at := at + |unit.bytes|;
    }

    /** The object lock was free: set_clock() and change_state() may have run. */
    method OtherThreads(other: Interference)
      modifies this`hasClock, this`baseTime, this`prevPts
      ensures View() == Interfere(old(View()), other)
    {
      if other.clock.Some? { hasClock := other.clock.value; }
      if other.rebase { baseTime, prevPts := CLOCK_NONE, CLOCK_NONE; }
    }

    /** Lines 436-483: with a slice, the PTS critical section and the duration; without one, no times. */
    method Stamp(au: seq<NalUnit>, hasSlice: bool, ts: nat, other: Interference) returns (pts: nat, duration: nat)
      requires hasSlice == HasSlice(au)
      modifies this`hasClock, this`baseTime, this`prevPts
      ensures View() == AtStamp(old(View()), au, other).(prevPts := if hasSlice then pts else old(prevPts))
      ensures pts == StampedPts(old(View()), au, ts, other)
      ensures duration == if hasSlice then Duration(frameInterval) else CLOCK_NONE
    {
      pts, duration := CLOCK_NONE, CLOCK_NONE;
      if hasSlice {
        OtherThreads(other);
        pts := ts;
        if prevPts != CLOCK_NONE && pts <= prevPts { pts := (prevPts + 1) % TWO_TO_64; }
        prevPts := pts;
        duration := if frameInterval > 0 then frameInterval else CLOCK_NONE;
      }
    }

    /** Lines 398-433: size the prefix, allocate, fill, open the gate. */
    method AssembleAu(au: seq<NalUnit>, hasIdr: bool, payloadLen: nat) returns (data: seq<byte>)
      requires Valid() && hasIdr == HasIdr(au) && payloadLen == |Payload(au)|
      modifies this`sendSets, this`hadIdr
      ensures Valid()
      ensures data == Flat(Assemble(format, sets, au, Prefixed(format, old(View()), au)))
      ensures sendSets == (old(sendSets) && !Prefixed(format, old(View()), au))
      ensures hadIdr == (old(hadIdr) || hasIdr)
    {
      var prefixLen := 0;
      if hasIdr && (!hadIdr || sendSets) {
        prefixLen := spsLength + ppsLength;
        if format == H265 { prefixLen := prefixLen + vpsLength; }
      }
      FilledIsAssembly(format, sets, au, prefixLen > 0);
      data := FillAu(au, prefixLen, payloadLen);
      if hasIdr { hadIdr := true; }
    }

    /** Lines 398-491: assemble, stamp, number, push. */
    method PushAu(au: seq<NalUnit>, hasIdr: bool, hasSlice: bool, payloadLen: nat, ts: nat, other: Interference)
      requires Valid() && hasIdr == HasIdr(au) && hasSlice == HasSlice(au) && payloadLen == |Payload(au)|
      modifies this`sendSets, this`hadIdr, this`hasClock, this`baseTime, this`prevPts, this`frameOffset, this`queue
      ensures Valid()
      ensures View() == PushedState(format, old(View()), au, ts, other)
      ensures queue == old(queue) + [PushedBuffer(format, frameInterval, old(View()), au, ts, other)]
    {
      var data := AssembleAu(au, hasIdr, payloadLen);
      var pts, duration := Stamp(au, hasSlice, ts, other);
      Number(data, pts, duration);
    }

    /** Lines 485-491: number the buffer and push it. */
    method Number(data: seq<byte>, pts: nat, duration: nat)
      modifies this`frameOffset, this`queue
      ensures View() == old(View()).(frameOffset := old(frameOffset) + 1)
      ensures queue == old(queue) + [Buffer(data, pts, pts, duration, old(frameOffset), old(frameOffset) + 1)]
    {
      queue := queue + [Buffer(data, pts, pts, duration, frameOffset, frameOffset + 1)];
      frameOffset := frameOffset + 1;
    }

    /** One turn of the callback's loop: consume, gate, forward. */
    method ForwardAu(au: seq<NalUnit>, ts: nat, other: Interference) returns (updated: bool)
      requires Valid()
      modifies this, vps, sps, pps
      ensures Valid()
      ensures format == old(format) && frameInterval == old(frameInterval) && stores == old(stores)
      ensures updated == AnyChanged(old(sets), au)
      ensures var step := AuStep(format, frameInterval, old(View()), au, ts, other);
              View() == step.st && queue == old(queue) + Out(step)
    {
      var hasIdr, hasSlice, payloadLen;
      hasIdr, hasSlice, payloadLen, updated := MeasureAu(au);
      if (!hadIdr && !hasIdr) || payloadLen == 0 {
        return;
      }
      PushAu(au, hasIdr, hasSlice, payloadLen, ts, other);
    }

    /** Lines 329-351: latch the base time if it is unset, read the arrival in running time. The commit overwrites
        whatever another thread did to the base time in between. */
    method ArrivalTime(d: Delivery) returns (ts: nat)
      modifies this`hasClock, this`baseTime, this`prevPts
      ensures View() == LatchBase(old(View()), d) && ts == Arrival(old(View()), d)
    {
      var base := baseTime;
      if base == CLOCK_NONE {
        base := d.elementBase;
        OtherThreads(d.beforeCommit);
        baseTime := base;
      }
      ts := (d.now - base) % TWO_TO_64;
    }

    method FrameCallback(d: Delivery)
      requires Valid()
      modifies this, vps, sps, pps
      ensures Valid() && format == old(format) && frameInterval == old(frameInterval)
      ensures var r := Callback(format, frameInterval, old(View()), d);
              View() == r.st && queue == old(queue) + r.buffers
      ensures stores == old(stores) + if old(hasClock) && 0 < |d.data| <= 0x7FFF_FFFF
                                         && AnyChanged(old(sets), Units(format, d.data)) then [sets] else []
    {
      if |d.data| == 0 || |d.data| > MAX_INT || !hasClock {
        return;
      }
      var ts := ArrivalTime(d);
      ForwardDelivery(d, ts);
    }

    /** Lines 353-505: carve the delivery into access units, forward each, store the sets if one changed. */
    method ForwardDelivery(d: Delivery, ts: nat)
      requires Valid()
      modifies this, vps, sps, pps
      ensures Valid() && format == old(format) && frameInterval == old(frameInterval)
      ensures var aus := AccessUnitsOf(format, d.data);
              var r := RunAus(format, frameInterval, old(View()), aus, |aus|, ts, d);
              View() == r.st && queue == old(queue) + r.buffers
      ensures stores == old(stores) + if AnyChanged(old(sets), Units(format, d.data)) then [sets] else []
    {
      var units, starts := Carve(d.data);
      ghost var aus := Split(format, units);
      AccessUnitsPartition(format, units);
      AusChangedIsAnyChanged(sets, aus, |aus|);
      assert aus[..|aus|] == aus;
      var updated := ForwardAll(units, starts, aus, ts, d);
      if updated { stores := stores + [ParamSets(vps[..vpsLength], sps[..spsLength], pps[..ppsLength])]; }
    }

    /** Size the unit array to the count, parse, split: lines 353-368. */
    method Carve(data: seq<byte>) returns (units: seq<NalUnit>, starts: seq<nat>)
      ensures units == Units(format, data) && starts == AuStarts(format, units)
    {
      var unitCount := CountNalUnits(format, data);
      var unitArray := new NalUnit[unitCount];
      var c := ParseNalUnits(format, unitArray, unitCount, data);
      units := unitArray[..c];
      var startArray := new nat[c];
      SplitNeverOverflows(format, units, c);
      var auCount := SplitAccessUnits(format, units, startArray, c);
      starts := startArray[..auCount];
    }

    /** The callback's loop over access units. */
    method ForwardAll(units: seq<NalUnit>, starts: seq<nat>, ghost aus: seq<seq<NalUnit>>, ts: nat, d: Delivery)
      returns (updated: bool)
      requires Valid() && starts == AuStarts(format, units) && aus == Split(format, units)
      modifies this, vps, sps, pps
      ensures Valid() && format == old(format) && frameInterval == old(frameInterval) && stores == old(stores)
      ensures var r := RunAus(format, frameInterval, old(View()), aus, |aus|, ts, d);
              && View() == r.st && queue == old(queue) + r.buffers
              && updated == AusChanged(old(sets), aus, |aus|)
    {
      SplitShape(format, units);
      ghost var st0, sets0 := View(), sets;
      ghost var r := Outcome(st0, [], []);
      var a := 0;
      updated := false;
      while a < |starts|
        invariant 0 <= a <= |starts| == |aus| && Valid()
        invariant format == old(format) && frameInterval == old(frameInterval) && stores == old(stores)
        invariant AfterAus(format, frameInterval, st0, aus, a, ts, d, r)
        invariant View() == r.st && queue == old(queue) + r.buffers
        invariant updated == AusChanged(sets0, aus, a)
      {
        var first := starts[a];
        var end := if a + 1 < |starts| then starts[a + 1] else |units|;
        assert aus[a] == units[first..end];
        ghost var step := AuStep(format, frameInterval, r.st, aus[a], ts, InterferenceAt(d, a));
        Assoc(old(queue), r.buffers, Out(step));
        r := AfterAusNext(format, frameInterval, st0, aus, a, ts, d, r);
        var changed := ForwardAu(units[first..end], ts, InterferenceAt(d, a));
        updated := updated || changed;
        a := a + 1;
      }
    }
  }

  /** gst_buffer_fill: copy `src` to offset `at`. That the copy always fits is an obligation of the caller. */
  method Fill(buffer: array<byte>, at: nat, src: seq<byte>)
    requires at + |src| <= buffer.Length
    modifies buffer
    ensures buffer[..at + |src|] == old(buffer[..at]) + src
  {
    forall k | 0 <= k < |src| { buffer[at + k] := src[k]; }
  }
}
