/** What whole runs of the feeder side keep: every byte of the wire, the order and numbering of buffers, the
    parameter sets in front of IDR pictures, and the PTS law.

    A run is a list of items. An admitted delivery is the items of its access units; starting, reopening,
    rebaselining and loading the disk cache are items too, in any order and number. */
module PipelineRuns {
  import opened Bytes
  import opened AnnexB
  import opened AccessUnits
  import opened PipelineSpec

  datatype Event =
    | Deliver(d: Delivery)
    /** set_clock() or change_state() between callbacks (gstlibuvch264src.c:1101-1142) */
    | Elsewhere(other: Interference)
    /** start(): gstlibuvch264src.c:1373-1377 */
    | Start
    /** reopen_once() in front of the feeder's next life: gstlibuvch264src.c:1736-1739 */
    | Reopen
    /** create() in front of its first uvc_start_streaming(): gstlibuvch264src.c:2108-2109 */
    | BeginStreaming
    /** negotiate() reading the disk cache */
    | Load(sets: ParamSets)

  datatype Item =
    | Au(units: seq<NalUnit>, ts: nat, other: Interference)
    | Gate(restart: bool)
    | Clock(hasClock: bool, baseTime: nat, prevPts: nat)
    | Loaded(sets: ParamSets)

  const NewRun := State(ParamSets([], [], []), false, false, 0, false, CLOCK_NONE, CLOCK_NONE)

  // ---------- the element over events ----------

  function EventStep(format: Format, frameInterval: int, st: State, e: Event): Outcome {
    match e
    case Deliver(d) => Callback(format, frameInterval, st, d)
    case Elsewhere(other) => Outcome(Interfere(st, other), [], [])
    case Start => Outcome(st.(hadIdr := false, sendSets := false, frameOffset := 0, prevPts := CLOCK_NONE,
                              baseTime := CLOCK_NONE), [], [])
    case Reopen => Outcome(st.(hadIdr := false, sendSets := false, baseTime := CLOCK_NONE, prevPts := CLOCK_NONE), [],
                           [])
    case BeginStreaming => Outcome(st.(baseTime := CLOCK_NONE, prevPts := CLOCK_NONE), [], [])
    case Load(sets) => Outcome(st.(sets := sets), [], [])
  }

  function Then(before: Outcome, step: Outcome): Outcome {
    Outcome(step.st, before.parts + step.parts, before.buffers + step.buffers)
  }

  function Run(format: Format, frameInterval: int, st: State, events: seq<Event>, n: nat): Outcome
    requires n <= |events|
  {
    if n == 0 then Outcome(st, [], [])
    else
      var before := Run(format, frameInterval, st, events, n - 1);
      Then(before, EventStep(format, frameInterval, before.st, events[n - 1]))
  }

  // ---------- the same run over items ----------

  function ItemStep(format: Format, frameInterval: int, st: State, item: Item): Outcome {
    match item
    case Au(units, ts, other) =>
      var step := AuStep(format, frameInterval, st, units, ts, other);
      if step.out.None? then Outcome(step.st, [], []) else Outcome(step.st, [step.out.value.0], [step.out.value.1])
    case Gate(restart) =>
      Outcome(st.(hadIdr := false, sendSets := false, baseTime := CLOCK_NONE, prevPts := CLOCK_NONE,
                  frameOffset := if restart then 0 else st.frameOffset), [], [])
    case Clock(hasClock, baseTime, prevPts) =>
           Outcome(st.(hasClock := hasClock, baseTime := baseTime, prevPts := prevPts), [], [])
    case Loaded(sets) => Outcome(st.(sets := sets), [], [])
  }

  function RunItems(format: Format, frameInterval: int, st: State, items: seq<Item>, n: nat): Outcome
    requires n <= |items|
  {
    if n == 0 then Outcome(st, [], [])
    else
      var before := RunItems(format, frameInterval, st, items, n - 1);
      Then(before, ItemStep(format, frameInterval, before.st, items[n - 1]))
  }

  function ClockItem(st: State): Item {
    Clock(st.hasClock, st.baseTime, st.prevPts)
  }

  function AuItems(aus: seq<seq<NalUnit>>, n: nat, ts: nat, d: Delivery): seq<Item>
    requires n <= |aus|
  {
    if n == 0 then [] else AuItems(aus, n - 1, ts, d) + [Au(aus[n - 1], ts, InterferenceAt(d, n - 1))]
  }

  /** The items of one event in state `st`. */
  function ItemsOf(format: Format, st: State, e: Event): seq<Item> {
    match e
    case Deliver(d) =>
      if !Admitted(st, d.data) then []
      else
        var aus := AccessUnitsOf(format, d.data);
        [ClockItem(LatchBase(st, d))] + AuItems(aus, |aus|, Arrival(st, d), d)
    case Elsewhere(other) => [ClockItem(Interfere(st, other))]
    case Start => [Gate(true)]
    case Reopen => [Gate(false)]
    case BeginStreaming => [Clock(st.hasClock, CLOCK_NONE, CLOCK_NONE)]
    case Load(sets) => [Loaded(sets)]
  }

  function Items(format: Format, frameInterval: int, st: State, events: seq<Event>, n: nat): seq<Item>
    requires n <= |events|
  {
    if n == 0 then []
    else
      Items(format, frameInterval, st, events, n - 1) +
      ItemsOf(format, Run(format, frameInterval, st, events, n - 1).st, events[n - 1])
  }

  lemma {:induction false} RunItemsPrefix(format: Format, frameInterval: int, st: State, a: seq<Item>, b: seq<Item>,
                                          n: nat)
    requires n <= |a|
    ensures RunItems(format, frameInterval, st, a + b, n) == RunItems(format, frameInterval, st, a, n)
  {
    if n > 0 { RunItemsPrefix(format, frameInterval, st, a, b, n - 1); }
  }

  /** Running `n` items of b behind all of a. */
  ghost predicate Continues(format: Format, frameInterval: int, st: State, a: seq<Item>, b: seq<Item>, n: nat)
    requires n <= |b|
  {
    RunItems(format, frameInterval, st, a + b, |a| + n) ==
    Then(RunItems(format, frameInterval, st, a, |a|),
         RunItems(format, frameInterval, RunItems(format, frameInterval, st, a, |a|).st, b, n))
  }

  lemma {:induction false} ContinuesFirst(format: Format, frameInterval: int, st: State, a: seq<Item>, b: seq<Item>)
    ensures Continues(format, frameInterval, st, a, b, 0)
  {
    var before := RunItems(format, frameInterval, st, a, |a|);
    RunItemsPrefix(format, frameInterval, st, a, b, |a|);
    assert before.parts + [] == before.parts && before.buffers + [] == before.buffers;
  }

  lemma {:induction false} ContinuesNext(format: Format, frameInterval: int, st: State, a: seq<Item>, b: seq<Item>,
                                         n: nat)
    requires 0 < n <= |b| && Continues(format, frameInterval, st, a, b, n - 1)
    ensures Continues(format, frameInterval, st, a, b, n)
  {
    var before := RunItems(format, frameInterval, st, a, |a|);
    var mid := RunItems(format, frameInterval, before.st, b, n - 1);
    assert (a + b)[|a| + n - 1] == b[n - 1];
    ThenAssoc(before, mid, ItemStep(format, frameInterval, mid.st, b[n - 1]));
  }

  lemma {:induction false} RunItemsAppend(format: Format, frameInterval: int, st: State, a: seq<Item>, b: seq<Item>,
                                          n: nat)
    requires n <= |b|
    ensures Continues(format, frameInterval, st, a, b, n)
  {
    if n == 0 {
      ContinuesFirst(format, frameInterval, st, a, b);
    } else {
      RunItemsAppend(format, frameInterval, st, a, b, n - 1);
      ContinuesNext(format, frameInterval, st, a, b, n);
    }
  }

  lemma {:induction false} ThenAssoc(a: Outcome, b: Outcome, c: Outcome)
    ensures Then(Then(a, b), c) == Then(a, Then(b, c))
  {
    Assoc(a.parts, b.parts, c.parts);
    Assoc(a.buffers, b.buffers, c.buffers);
  }

  lemma {:induction false} ThenIsExtend(format: Format, frameInterval: int, before: Outcome, units: seq<NalUnit>,
                                        ts: nat, other: Interference)
    ensures Then(before, ItemStep(format, frameInterval, before.st, Au(units, ts, other))) ==
            Extend(before, AuStep(format, frameInterval, before.st, units, ts, other))
  {
    assert before.parts + [] == before.parts && before.buffers + [] == before.buffers;
  }

  lemma {:induction false} RunAusIsItems(format: Format, frameInterval: int, st: State, aus: seq<seq<NalUnit>>,
                                         n: nat, ts: nat, d: Delivery)
    requires n <= |aus|
    ensures |AuItems(aus, n, ts, d)| == n
    ensures RunItems(format, frameInterval, st, AuItems(aus, n, ts, d), n) ==
            RunAus(format, frameInterval, st, aus, n, ts, d)
  {
    if n > 0 {
      RunAusIsItems(format, frameInterval, st, aus, n - 1, ts, d);
      RunItemsPrefix(format, frameInterval, st, AuItems(aus, n - 1, ts, d),
                     [Au(aus[n - 1], ts, InterferenceAt(d, n - 1))], n - 1);
      ThenIsExtend(format, frameInterval, RunAus(format, frameInterval, st, aus, n - 1, ts, d), aus[n - 1], ts,
                   InterferenceAt(d, n - 1));
    }
  }

  /** A delivery's items, whatever its access units and arrival time are. */
  lemma {:induction false} LatchThenAus(format: Format, frameInterval: int, st: State, latched: State,
                                        aus: seq<seq<NalUnit>>, ts: nat, d: Delivery)
    requires latched == st.(hasClock := latched.hasClock, baseTime := latched.baseTime, prevPts := latched.prevPts)
    ensures var items := [ClockItem(latched)] + AuItems(aus, |aus|, ts, d);
            RunItems(format, frameInterval, st, items, |items|) ==
              RunAus(format, frameInterval, latched, aus, |aus|, ts, d)
  {
    var rest := AuItems(aus, |aus|, ts, d);
    RunAusIsItems(format, frameInterval, latched, aus, |aus|, ts, d);
    OneItem(format, frameInterval, st, ClockItem(latched));
    RunItemsAppend(format, frameInterval, st, [ClockItem(latched)], rest, |rest|);
    var r := RunAus(format, frameInterval, latched, aus, |aus|, ts, d);
    assert [] + r.parts == r.parts && [] + r.buffers == r.buffers;
  }

  lemma {:induction false} DeliveryIsItems(format: Format, frameInterval: int, st: State, d: Delivery)
    requires Admitted(st, d.data)
    ensures var items := ItemsOf(format, st, Deliver(d));
            RunItems(format, frameInterval, st, items, |items|) == Callback(format, frameInterval, st, d)
  {
    LatchThenAus(format, frameInterval, st, LatchBase(st, d), AccessUnitsOf(format, d.data), Arrival(st, d), d);
  }

  lemma {:induction false} EventIsItems(format: Format, frameInterval: int, st: State, e: Event)
    ensures RunItems(format, frameInterval, st, ItemsOf(format, st, e), |ItemsOf(format, st, e)|) ==
            EventStep(format, frameInterval, st, e)
  {
    if e.Deliver? {
      if Admitted(st, e.d.data) { DeliveryIsItems(format, frameInterval, st, e.d); }
    } else {
      OneItem(format, frameInterval, st, ItemsOf(format, st, e)[0]);
    }
  }

  lemma {:induction false} OneItem(format: Format, frameInterval: int, st: State, item: Item)
    ensures RunItems(format, frameInterval, st, [item], 1) == ItemStep(format, frameInterval, st, item)
  {
    assert RunItems(format, frameInterval, st, [item], 0) == Outcome(st, [], []);
  }

  lemma {:induction false} JoinRuns(format: Format, frameInterval: int, st: State, a: seq<Item>, b: seq<Item>,
                                    before: Outcome, step: Outcome)
    requires RunItems(format, frameInterval, st, a, |a|) == before
    requires RunItems(format, frameInterval, before.st, b, |b|) == step
    ensures RunItems(format, frameInterval, st, a + b, |a + b|) == Then(before, step)
  {
    RunItemsAppend(format, frameInterval, st, a, b, |b|);
    assert |a + b| == |a| + |b|;
  }

  /** `r` is what running the items gives. */
  ghost predicate RunsAlike(format: Format, frameInterval: int, st: State, items: seq<Item>, r: Outcome) {
    RunItems(format, frameInterval, st, items, |items|) == r
  }

  lemma {:induction false} JoinEvent(format: Format, frameInterval: int, st: State, a: seq<Item>, before: Outcome,
                                     e: Event)
    requires RunsAlike(format, frameInterval, st, a, before)
    ensures RunsAlike(format, frameInterval, st, a + ItemsOf(format, before.st, e),
                      Then(before, EventStep(format, frameInterval, before.st, e)))
  {
    EventIsItems(format, frameInterval, before.st, e);
    JoinRuns(format, frameInterval, st, a, ItemsOf(format, before.st, e), before,
             EventStep(format, frameInterval, before.st, e));
  }

  /** The first n events and their items give the same. */
  ghost predicate EventsAreItems(format: Format, frameInterval: int, st: State, events: seq<Event>, n: nat)
    requires n <= |events|
  {
    RunsAlike(format, frameInterval, st, Items(format, frameInterval, st, events, n),
              Run(format, frameInterval, st, events, n))
  }

  lemma {:induction false} NextEventIsItems(format: Format, frameInterval: int, st: State, events: seq<Event>, n: nat)
    requires 0 < n <= |events| && EventsAreItems(format, frameInterval, st, events, n - 1)
    ensures EventsAreItems(format, frameInterval, st, events, n)
  {
    JoinEvent(format, frameInterval, st, Items(format, frameInterval, st, events, n - 1),
              Run(format, frameInterval, st, events, n - 1), events[n - 1]);
  }

  /** Running events and running their items is the same. */
  lemma {:induction false} RunIsItems(format: Format, frameInterval: int, st: State, events: seq<Event>, n: nat)
    requires n <= |events|
    ensures EventsAreItems(format, frameInterval, st, events, n)
  {
    if n > 0 {
      RunIsItems(format, frameInterval, st, events, n - 1);
      NextEventIsItems(format, frameInterval, st, events, n);
    }
  }

  // ---------- buffers and their parts ----------

  /** Each pushed buffer holds exactly its recorded parts. */
  ghost predicate Flattened(r: Outcome) {
    |r.parts| == |r.buffers| && forall k :: 0 <= k < |r.buffers| ==> r.buffers[k].data == Flat(r.parts[k])
  }

  lemma {:induction false} FlattenedThen(a: Outcome, b: Outcome)
    requires Flattened(a) && Flattened(b)
    ensures Flattened(Then(a, b))
  {
  }

  lemma {:induction false} ItemFlattened(format: Format, frameInterval: int, st: State, item: Item)
    ensures Flattened(ItemStep(format, frameInterval, st, item))
  {
  }

  lemma {:induction false} RunFlattened(format: Format, frameInterval: int, st: State, items: seq<Item>, n: nat)
    requires n <= |items|
    ensures Flattened(RunItems(format, frameInterval, st, items, n))
  {
    if n > 0 {
      RunFlattened(format, frameInterval, st, items, n - 1);
      var before := RunItems(format, frameInterval, st, items, n - 1);
      ItemFlattened(format, frameInterval, before.st, items[n - 1]);
      FlattenedThen(before, ItemStep(format, frameInterval, before.st, items[n - 1]));
    }
  }

  // ---------- conservation of bytes ----------

  /** What a pushed buffer carries besides the sets that were put in. */
  function WireBytes(parts: seq<Assembly>): seq<byte> {
    if parts == [] then []
    else WireBytes(parts[..|parts| - 1]) + parts[|parts| - 1].head + parts[|parts| - 1].tail
  }

  /** Some access unit below `n` bears an IDR slice, and no start or reopen came after it. */
  ghost predicate GateOpen(items: seq<Item>, n: nat)
    requires n <= |items|
  {
    exists j :: 0 <= j < n && items[j].Au? && HasIdr(items[j].units) && forall k :: j < k < n ==> !items[k].Gate?
  }

  /** The bytes a run owes downstream: of each access unit at or after the first IDR-bearing one since the latest
      start or reopen, everything but its parameter sets. */
  ghost function OwedBytes(items: seq<Item>, n: nat): seq<byte>
    requires n <= |items|
  {
    if n == 0 then []
    else OwedBytes(items, n - 1) +
         (if items[n - 1].Au? && GateOpen(items, n) then Payload(items[n - 1].units) else [])
  }

  lemma {:induction false} GateOpenStep(items: seq<Item>, n: nat)
    requires n < |items|
    ensures GateOpen(items, n + 1) <==>
              if items[n].Gate? then false
              else GateOpen(items, n) || (items[n].Au? && HasIdr(items[n].units))
  {
    if GateOpen(items, n) && !items[n].Gate? {
      var j :| 0 <= j < n && items[j].Au? && HasIdr(items[j].units) && forall k :: j < k < n ==> !items[k].Gate?;
      assert items[j].Au?;
    }
  }

  lemma {:induction false} AssembleKeepsPayload(format: Format, sets: ParamSets, au: seq<NalUnit>, withPrefix: bool)
    ensures var x := Assemble(format, sets, au, withPrefix); x.head + x.tail == Payload(au)
  {
    if withPrefix {
      FirstIdrBound(au);
      PayloadAppend(au[..FirstIdr(au)], au[FirstIdr(au)..]);
      assert au[..FirstIdr(au)] + au[FirstIdr(au)..] == au;
    }
  }

  lemma {:induction false} WireBytesSnoc(parts: seq<Assembly>, x: Assembly)
    ensures WireBytes(parts + [x]) == WireBytes(parts) + (x.head + x.tail)
  {
    assert (parts + [x])[..|parts|] == parts;
    Assoc(WireBytes(parts), x.head, x.tail);
  }

  /** Items as parsing makes them: no IDR slice is empty. */
  ghost predicate Parsed(items: seq<Item>) {
    forall i :: 0 <= i < |items| && items[i].Au? ==> (HasIdr(items[i].units) ==> Payload(items[i].units) != [])
  }

  lemma {:induction false} AuConserves(format: Format, frameInterval: int, st: State, au: seq<NalUnit>, ts: nat,
                                       other: Interference)
    requires HasIdr(au) ==> Payload(au) != []
    ensures var step := AuStep(format, frameInterval, st, au, ts, other);
            && step.st.hadIdr == (st.hadIdr || HasIdr(au))
            && (if step.out.Some? then step.out.value.0.head + step.out.value.0.tail == Payload(au) && step.st.hadIdr
                else step.st.hadIdr ==> Payload(au) == [])
  {
    var c := Consumed(st, au);
    AssembleKeepsPayload(format, c.sets, au, Prefixed(format, c, au));
  }

  /** One item's share of the conservation law. */
  lemma {:induction false} StepConserves(format: Format, frameInterval: int, before: Outcome, items: seq<Item>, n: nat)
    requires n < |items| && Parsed(items)
    requires before.st.hadIdr <==> GateOpen(items, n)
    ensures var after := Then(before, ItemStep(format, frameInterval, before.st, items[n]));
            && (after.st.hadIdr <==> GateOpen(items, n + 1))
            && WireBytes(after.parts) == WireBytes(before.parts) +
               (if items[n].Au? && GateOpen(items, n + 1) then Payload(items[n].units) else [])
  {
    GateOpenStep(items, n);
    assert before.parts + [] == before.parts;
    if items[n].Au? {
      var Au(units, ts, other) := items[n];
      AuConserves(format, frameInterval, before.st, units, ts, other);
      var step := AuStep(format, frameInterval, before.st, units, ts, other);
      if step.out.Some? { WireBytesSnoc(before.parts, step.out.value.0); }
    }
  }

  /** The gate is open as the items say, and what was pushed is what they owe. */
  ghost predicate Settled(items: seq<Item>, n: nat, r: Outcome)
    requires n <= |items|
  {
    (r.st.hadIdr <==> GateOpen(items, n)) && WireBytes(r.parts) == OwedBytes(items, n)
  }

  lemma {:induction false} SettledNext(format: Format, frameInterval: int, before: Outcome, items: seq<Item>, n: nat)
    requires 0 < n <= |items| && Parsed(items) && Settled(items, n - 1, before)
    ensures Settled(items, n, Then(before, ItemStep(format, frameInterval, before.st, items[n - 1])))
  {
    StepConserves(format, frameInterval, before, items, n - 1);
  }

  lemma {:induction false} ItemsSettle(format: Format, frameInterval: int, st: State, items: seq<Item>, n: nat)
    requires n <= |items| && !st.hadIdr && Parsed(items)
    ensures Settled(items, n, RunItems(format, frameInterval, st, items, n))
  {
    if n > 0 {
      ItemsSettle(format, frameInterval, st, items, n - 1);
      SettledNext(format, frameInterval, RunItems(format, frameInterval, st, items, n - 1), items, n);
    }
  }

  lemma {:induction false} ItemsConserveBytes(format: Format, frameInterval: int, st: State, items: seq<Item>, n: nat)
    requires n <= |items| && !st.hadIdr && Parsed(items)
    ensures RunItems(format, frameInterval, st, items, n).st.hadIdr <==> GateOpen(items, n)
    ensures WireBytes(RunItems(format, frameInterval, st, items, n).parts) == OwedBytes(items, n)
    ensures Flattened(RunItems(format, frameInterval, st, items, n))
  {
    ItemsSettle(format, frameInterval, st, items, n);
    RunFlattened(format, frameInterval, st, items, n);
  }

  lemma {:induction false} PayloadOfIdr(au: seq<NalUnit>)
    requires HasIdr(au) && forall i :: 0 <= i < |au| ==> au[i].bytes != []
    ensures Payload(au) != []
  {
    FirstIdrBound(au);
    var i := FirstIdr(au);
    PayloadStep(au, 0, i);
    PayloadAppend(au[0..i + 1], au[i + 1..]);
    assert au[0..i + 1] + au[i + 1..] == au;
  }

  lemma {:induction false} UnitsNonempty(format: Format, data: seq<byte>, lo: nat, hi: nat)
    requires lo <= hi <= |Units(format, data)|
    ensures forall i :: 0 <= i < hi - lo ==> Units(format, data)[lo..hi][i].bytes != []
  {
    forall i | 0 <= i < hi - lo ensures Units(format, data)[lo..hi][i].bytes != [] {
      UnitWellFormed(format, data, lo + i);
    }
  }

  lemma {:induction false} DeliveryParsed(format: Format, data: seq<byte>, k: nat)
    requires k < |AccessUnitsOf(format, data)|
    ensures HasIdr(AccessUnitsOf(format, data)[k]) ==> Payload(AccessUnitsOf(format, data)[k]) != []
  {
    var units := Units(format, data);
    SplitShape(format, units);
    UnitsNonempty(format, data, AuStarts(format, units)[k], AuEnd(|units|, AuStarts(format, units), k));
    if HasIdr(AccessUnitsOf(format, data)[k]) { PayloadOfIdr(AccessUnitsOf(format, data)[k]); }
  }

  lemma {:induction false} AuItemsParsed(aus: seq<seq<NalUnit>>, n: nat, ts: nat, d: Delivery)
    requires n <= |aus| && forall k :: 0 <= k < |aus| ==> (HasIdr(aus[k]) ==> Payload(aus[k]) != [])
    ensures Parsed(AuItems(aus, n, ts, d))
  {
    if n > 0 { AuItemsParsed(aus, n - 1, ts, d); }
  }

  lemma {:induction false} EventParsed(format: Format, st: State, e: Event)
    ensures Parsed(ItemsOf(format, st, e))
  {
    if e.Deliver? && Admitted(st, e.d.data) {
      var aus := AccessUnitsOf(format, e.d.data);
      forall k | 0 <= k < |aus|
        ensures HasIdr(aus[k]) ==> Payload(aus[k]) != []
      {
        DeliveryParsed(format, e.d.data, k);
      }
      AuItemsParsed(aus, |aus|, Arrival(st, e.d), e.d);
    }
  }

  lemma {:induction false} ItemsParsed(format: Format, frameInterval: int, st: State, events: seq<Event>, n: nat)
    requires n <= |events|
    ensures Parsed(Items(format, frameInterval, st, events, n))
  {
    if n > 0 {
      ItemsParsed(format, frameInterval, st, events, n - 1);
      EventParsed(format, Run(format, frameInterval, st, events, n - 1).st, events[n - 1]);
    }
  }

  /** Over every run from a fresh element, restarts included: each pushed buffer is head, injected sets and tail, and
      with the injected sets erased the buffers are, byte for byte and in order, what the run owes. */
  lemma {:induction false} RunConservesBytes(format: Format, frameInterval: int, events: seq<Event>)
    ensures WireBytes(Run(format, frameInterval, NewRun, events, |events|).parts) ==
            var items := Items(format, frameInterval, NewRun, events, |events|); OwedBytes(items, |items|)
    ensures Flattened(Run(format, frameInterval, NewRun, events, |events|))
  {
    RunIsItems(format, frameInterval, NewRun, events, |events|);
    ItemsParsed(format, frameInterval, NewRun, events, |events|);
    var items := Items(format, frameInterval, NewRun, events, |events|);
    ItemsConserveBytes(format, frameInterval, NewRun, items, |items|);
  }
}
