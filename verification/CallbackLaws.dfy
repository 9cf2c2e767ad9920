/** What one delivered frame comes to (frame_pipeline.c:303-506) and one load of the disk cache (spspps_cache.c:93-139),
    said of bytes and units alone. */
module CallbackLaws {
  import opened Bytes
  import opened AnnexB
  import opened AccessUnits
  import opened PipelineSpec
  import opened PipelineRuns
  import opened PipelineLaws
  import opened ParameterCache

  /** The bytes of the units that are no parameter sets. */
  function Wire(units: seq<NalUnit>): seq<byte> {
    if units == [] then []
    else (if units[0].kind in {Vps, Sps, Pps} then [] else units[0].bytes) + Wire(units[1..])
  }

  lemma {:induction false} WireAppend(a: seq<NalUnit>, b: seq<NalUnit>)
    ensures Wire(a + b) == Wire(a) + Wire(b)
  {
    if a == [] {
      assert a + b == b;
    } else {
      WireAppend(a[1..], b);
      assert (a + b)[1..] == a[1..] + b;
      Assoc(if a[0].kind in {Vps, Sps, Pps} then [] else a[0].bytes, Wire(a[1..]), Wire(b));
    }
  }

  lemma {:induction false} PayloadIsWire(units: seq<NalUnit>)
    ensures Payload(units) == Wire(units)
  {
    if units != [] {
      var rest, last := units[..|units| - 1], units[|units| - 1];
      PayloadIsWire(rest);
      assert units == rest + [last] && [last][1..] == [];
      PayloadSnoc(rest, last);
      WireAppend(rest, [last]);
      assert Wire([last]) == if IsParameterSet(last.kind) then [] else last.bytes;
    }
  }

  // ---------- what is pushed ----------

  /** What each pushed buffer carries besides the sets that were put in. */
  function PartWires(parts: seq<Assembly>): seq<seq<byte>> {
    seq(|parts|, i requires 0 <= i < |parts| => parts[i].head + parts[i].tail)
  }

  /** The access units from `lo` up to `n` that are more than parameter sets, as bytes. */
  function Wires(aus: seq<seq<NalUnit>>, lo: nat, n: nat): seq<seq<byte>>
    requires n <= |aus|
  {
    if n <= lo then []
    else Wires(aus, lo, n - 1) + if Wire(aus[n - 1]) != [] then [Wire(aus[n - 1])] else []
  }

  /** The first access unit that bears an IDR slice, their number when there is none. */
  function FirstBearing(aus: seq<seq<NalUnit>>): (k: nat)
    ensures k <= |aus|
  {
    if aus == [] || HasIdr(aus[0]) then 0 else 1 + FirstBearing(aus[1..])
  }

  lemma {:induction false} FirstBearingIs(aus: seq<seq<NalUnit>>)
    ensures forall i :: 0 <= i < FirstBearing(aus) ==> !HasIdr(aus[i])
    ensures FirstBearing(aus) < |aus| ==> HasIdr(aus[FirstBearing(aus)])
  {
    if aus != [] && !HasIdr(aus[0]) {
      FirstBearingIs(aus[1..]);
      assert forall i :: 1 <= i < |aus| ==> aus[i] == aus[1..][i - 1];
    }
  }

  /** The gate lets everything through from access unit `lo` on. */
  ghost predicate OpensFrom(hadIdr: bool, aus: seq<seq<NalUnit>>, lo: nat) {
    if hadIdr then lo == 0
    else lo <= |aus| && (forall i :: 0 <= i < lo ==> !HasIdr(aus[i])) && (lo < |aus| ==> HasIdr(aus[lo]))
  }

  /** What the first `n` access units have pushed. */
  ghost predicate Pushed(aus: seq<seq<NalUnit>>, lo: nat, n: nat, r: Outcome)
    requires n <= |aus|
  {
    PartWires(r.parts) == Wires(aus, lo, n)
  }

  lemma {:induction false} PartWiresSnoc(parts: seq<Assembly>, x: Assembly)
    ensures PartWires(parts + [x]) == PartWires(parts) + [x.head + x.tail]
  {
  }

  lemma {:induction false} PushedNext(format: Format, frameInterval: int, before: Outcome, aus: seq<seq<NalUnit>>,
                                      lo: nat, n: nat, ts: nat, other: Interference)
    requires n < |aus| && (HasIdr(aus[n]) ==> Payload(aus[n]) != []) && Pushed(aus, lo, n, before)
    requires if n < lo then !before.st.hadIdr && !HasIdr(aus[n]) else before.st.hadIdr || HasIdr(aus[n])
    ensures var step := AuStep(format, frameInterval, before.st, aus[n], ts, other);
            Pushed(aus, lo, n + 1, Extend(before, step)) && step.st.hadIdr == (n >= lo)
  {
    AuConserves(format, frameInterval, before.st, aus[n], ts, other);
    PayloadIsWire(aus[n]);
    var step := AuStep(format, frameInterval, before.st, aus[n], ts, other);
    if step.out.Some? { PartWiresSnoc(before.parts, step.out.value.0); }
  }

  /** No IDR-bearing access unit is empty. */
  ghost predicate NoneEmpty(aus: seq<seq<NalUnit>>) {
    forall i :: 0 <= i < |aus| ==> (HasIdr(aus[i]) ==> Payload(aus[i]) != [])
  }

  ghost predicate PushedBy(format: Format, frameInterval: int, st: State, aus: seq<seq<NalUnit>>, lo: nat, n: nat,
                           ts: nat, d: Delivery)
    requires n <= |aus|
  {
    var r := RunAus(format, frameInterval, st, aus, n, ts, d);
    Pushed(aus, lo, n, r) && r.st.hadIdr == (if n <= lo then st.hadIdr else true)
  }

  lemma {:induction false} PushedByNext(format: Format, frameInterval: int, st: State, aus: seq<seq<NalUnit>>, lo: nat,
                                        n: nat, ts: nat, d: Delivery)
    requires 0 < n <= |aus| && OpensFrom(st.hadIdr, aus, lo) && NoneEmpty(aus)
    requires PushedBy(format, frameInterval, st, aus, lo, n - 1, ts, d)
    ensures PushedBy(format, frameInterval, st, aus, lo, n, ts, d)
  {
    PushedNext(format, frameInterval, RunAus(format, frameInterval, st, aus, n - 1, ts, d), aus, lo, n - 1, ts,
               InterferenceAt(d, n - 1));
  }

  lemma {:induction false} AusPushed(format: Format, frameInterval: int, st: State, aus: seq<seq<NalUnit>>, lo: nat,
                                     n: nat, ts: nat, d: Delivery)
    requires n <= |aus| && OpensFrom(st.hadIdr, aus, lo) && NoneEmpty(aus)
    ensures PushedBy(format, frameInterval, st, aus, lo, n, ts, d)
  {
    if n > 0 {
      AusPushed(format, frameInterval, st, aus, lo, n - 1, ts, d);
      PushedByNext(format, frameInterval, st, aus, lo, n, ts, d);
    }
  }

  /** With a clock and between 1 and 2^31 - 1 bytes nothing is turned away: one buffer for each access unit that is more
      than parameter sets, in order, behind a closed gate from the first one that bears an IDR slice on; and besides the
      sets that were put in each holds exactly its access unit. */
  lemma {:induction false} CallbackPushes(format: Format, frameInterval: int, st: State, d: Delivery)
    requires st.hasClock && 0 < |d.data| <= 0x7FFF_FFFF
    ensures var aus := AccessUnitsOf(format, d.data);
            var r := Callback(format, frameInterval, st, d);
            && PartWires(r.parts) == Wires(aus, if st.hadIdr then 0 else FirstBearing(aus), |aus|)
            && |r.buffers| == |r.parts|
            && forall k :: 0 <= k < |r.parts| ==>
                 r.buffers[k].data == r.parts[k].head + r.parts[k].prefix + r.parts[k].tail
  {
    var aus := AccessUnitsOf(format, d.data);
    FirstBearingIs(aus);
    forall k | 0 <= k < |aus| ensures HasIdr(aus[k]) ==> Payload(aus[k]) != [] { DeliveryParsed(format, d.data, k); }
    AusPushed(format, frameInterval, LatchBase(st, d), aus, if st.hadIdr then 0 else FirstBearing(aus), |aus|,
              Arrival(st, d), d);
    EventFlattened(format, frameInterval, st, d);
  }

  lemma {:induction false} EventFlattened(format: Format, frameInterval: int, st: State, d: Delivery)
    requires st.hasClock && 0 < |d.data| <= 0x7FFF_FFFF
    ensures Flattened(Callback(format, frameInterval, st, d))
  {
    var items := ItemsOf(format, st, Deliver(d));
    DeliveryIsItems(format, frameInterval, st, d);
    RunFlattened(format, frameInterval, st, items, |items|);
  }

  /** The same in bytes: with the gate open everything on the wire but parameter sets goes on. */
  lemma {:induction false} OpenGateForwardsAll(format: Format, frameInterval: int, st: State, d: Delivery)
    requires st.hasClock && 0 < |d.data| <= 0x7FFF_FFFF && st.hadIdr
    ensures Concat(PartWires(Callback(format, frameInterval, st, d).parts)) == Wire(Units(format, d.data))
  {
    var aus := AccessUnitsOf(format, d.data);
    CallbackPushes(format, frameInterval, st, d);
    WiresConcat(aus, |aus|);
    AccessUnitsPartition(format, Units(format, d.data));
    assert aus[..|aus|] == aus;
  }

  lemma {:induction false} WiresConcat(aus: seq<seq<NalUnit>>, n: nat)
    requires n <= |aus|
    ensures Concat(Wires(aus, 0, n)) == Wire(Concat(aus[..n]))
  {
    if n > 0 {
      WiresConcat(aus, n - 1);
      assert aus[..n] == aus[..n - 1] + [aus[n - 1]];
      ConcatSnoc(aus[..n - 1], aus[n - 1]);
      WireAppend(Concat(aus[..n - 1]), aus[n - 1]);
      var before := Wires(aus, 0, n - 1);
      if Wire(aus[n - 1]) != [] { ConcatSnoc(before, Wire(aus[n - 1])); } else { assert before + [] == before; }
    }
  }

  /** Without a clock, without bytes, or with 2^31 bytes and more, nothing happens. */
  lemma {:induction false} TurnedAway(format: Format, frameInterval: int, st: State, d: Delivery)
    requires !st.hasClock || |d.data| == 0 || |d.data| > 0x7FFF_FFFF
    ensures Callback(format, frameInterval, st, d) == Outcome(st, [], [])
  {
  }

  // ---------- when and how a buffer is stamped ----------

  /** The arrival is the clock's time since the base time, which the first frame behind a rebaseline reads. */
  lemma {:induction false} ArrivalIs(st: State, d: Delivery)
    ensures st.baseTime != 0xFFFF_FFFF_FFFF_FFFF ==>
              Arrival(st, d) == (d.now - st.baseTime) % 0x1_0000_0000_0000_0000 && LatchBase(st, d) == st
    ensures st.baseTime == 0xFFFF_FFFF_FFFF_FFFF ==>
              Arrival(st, d) == (d.now - d.elementBase) % 0x1_0000_0000_0000_0000
              && LatchBase(st, d).baseTime == d.elementBase
  {
  }

  lemma {:induction false} HasSliceMeans(units: seq<NalUnit>)
    ensures HasSlice(units) <==> exists i :: 0 <= i < |units| && units[i].kind in {FrameIdr, FrameNonIdr}
  {
    if units != [] {
      var rest := units[..|units| - 1];
      HasSliceMeans(rest);
      assert forall i :: 0 <= i < |rest| ==> rest[i] == units[i];
    }
  }

  /** An access unit's buffer has the next number, its DTS is its PTS, and a slice gives it the nominal duration; one
      without a slice has no times. */
  lemma {:induction false} BufferIs(format: Format, frameInterval: int, st: State, au: seq<NalUnit>, ts: nat,
                                    other: Interference)
    requires AuStep(format, frameInterval, st, au, ts, other).out.Some?
    ensures var step := AuStep(format, frameInterval, st, au, ts, other);
            var buffer := step.out.value.1;
            && buffer.offset == st.frameOffset && buffer.offsetEnd == st.frameOffset + 1
            && step.st.frameOffset == st.frameOffset + 1
            && buffer.dts == buffer.pts
            && if exists i :: 0 <= i < |au| && au[i].kind in {FrameIdr, FrameNonIdr} then
                 && buffer.duration == (if frameInterval > 0 then frameInterval else 0xFFFF_FFFF_FFFF_FFFF)
                 && step.st.prevPts == buffer.pts
               else
                 && buffer.pts == buffer.duration == 0xFFFF_FFFF_FFFF_FFFF
                 && step.st.prevPts == st.prevPts
  {
    HasSliceMeans(au);
  }

  /** What start(), a reopen, the first start of streaming, a new clock and the way from paused to playing have in
      common: the next frame is stamped with its arrival, measured from a base time it reads anew. */
  lemma {:induction false} Rebaselined(format: Format, frameInterval: int, st: State, e: Event)
    requires e.Start? || e.Reopen? || e.BeginStreaming? || (e.Elsewhere? && e.other.rebase)
    ensures var after := EventStep(format, frameInterval, st, e).st;
            after.prevPts == after.baseTime == 0xFFFF_FFFF_FFFF_FFFF
  {
  }

  // ---------- when the sets are stored ----------

  /** Some accepted set, of 1 to 1024 bytes, differs from the one cached when it arrived: the newest accepted one of its
      kind in front of it, or what the cache held. */
  lemma {:induction false} AnyChangedMeans(sets: ParamSets, units: seq<NalUnit>)
    ensures AnyChanged(sets, units) <==> exists i :: 0 <= i < |units| && ChangesAt(sets, units, i)
  {
    if units != [] {
      var n := |units| - 1;
      var rest, last := units[..n], units[n];
      AnyChangedMeans(sets, rest);
      forall i | 0 <= i < n ensures ChangesAt(sets, rest, i) <==> ChangesAt(sets, units, i) {
        assert rest[..i] == units[..i] && rest[i] == units[i];
      }
      if IsParameterSet(last.kind) { LatchAllIsNewest(sets, rest, last.kind); }
      assert ChangesAt(sets, units, n) <==>
             Accepted(last) && CachedSet(LatchAll(sets, rest), last.kind) != last.bytes;
    }
  }

  ghost predicate ChangesAt(sets: ParamSets, units: seq<NalUnit>, i: nat)
    requires i < |units|
  {
    && units[i].kind in {Vps, Sps, Pps} && 1 <= |units[i].bytes| <= 1024
    && NewestSet(Cached(sets, units[i].kind), units[..i], units[i].kind) != units[i].bytes
  }

  function Cached(sets: ParamSets, kind: UnitKind): seq<byte> {
    if kind == Vps then sets.vps else if kind == Sps then sets.sps else sets.pps
  }

  /** The cache, named: each field holds the newest accepted set of its own kind. */
  lemma {:induction false} LatchesByKind(sets: ParamSets, units: seq<NalUnit>)
    ensures var after := LatchAll(sets, units);
            && after.vps == NewestSet(sets.vps, units, Vps)
            && after.sps == NewestSet(sets.sps, units, Sps)
            && after.pps == NewestSet(sets.pps, units, Pps)
  {
    LatchAllIsNewest(sets, units, Vps);
    LatchAllIsNewest(sets, units, Sps);
    LatchAllIsNewest(sets, units, Pps);
  }

  /** What a load leaves of the cache: the first 3072 bytes of the file are read, and of their units the first three. */
  lemma {:induction false} LoadedByKind(format: Format, before: ParamSets, file: seq<byte>)
    ensures var units := Units(format, if |file| <= 3072 then file else file[..3072]);
            var read := if |units| <= 3 then units else units[..3];
            var after := LoadFrom(format, before, file);
            && after.vps == NewestSet(before.vps, read, Vps)
            && after.sps == NewestSet(before.sps, read, Sps)
            && after.pps == NewestSet(before.pps, read, Pps)
  {
    var bytes := if |file| <= 3072 then file else file[..3072];
    assert file[..Min(|file|, 3072)] == bytes;
    var units := Units(format, bytes);
    var read := if |units| <= 3 then units else units[..3];
    assert units[..Min(|units|, 3)] == read;
    LatchesByKind(before, read);
  }

  /** The newest accepted set of a kind: the last unit of that kind with 1 to 1024 bytes. */
  lemma {:induction false} NewestSetIs(initial: seq<byte>, units: seq<NalUnit>, kind: UnitKind)
    requires kind in {Vps, Sps, Pps}
    ensures if exists i :: 0 <= i < |units| && OfKind(units[i], kind)
            then exists i :: 0 <= i < |units| && NewestIsAt(initial, units, kind, i)
            else NewestSet(initial, units, kind) == initial
  {
    if units != [] {
      var n := |units| - 1;
      var rest := units[..n];
      if OfKind(units[n], kind) {
        assert NewestIsAt(initial, units, kind, n);
      } else {
        NewestSetIs(initial, rest, kind);
        assert forall i :: 0 <= i < n ==> rest[i] == units[i];
        if exists i :: 0 <= i < n && OfKind(rest[i], kind) {
          var i :| 0 <= i < n && NewestIsAt(initial, rest, kind, i);
          assert NewestIsAt(initial, units, kind, i);
        }
      }
    }
  }

  predicate OfKind(unit: NalUnit, kind: UnitKind) {
    unit.kind == kind && 1 <= |unit.bytes| <= 1024
  }

  /** Unit i is the last of its kind, and the one that is cached. */
  ghost predicate NewestIsAt(initial: seq<byte>, units: seq<NalUnit>, kind: UnitKind, i: nat)
    requires i < |units|
  {
    && OfKind(units[i], kind) && (forall j :: i < j < |units| ==> !OfKind(units[j], kind))
    && NewestSet(initial, units, kind) == units[i].bytes
  }
}
