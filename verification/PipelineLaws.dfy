/** Laws of the feeder side that name single buffers: numbering, what the first buffer after an open is, and which
    parameter sets an IDR picture carries. */
module PipelineLaws {
  import opened Bytes
  import opened AnnexB
  import opened AccessUnits
  import opened PipelineSpec
  import opened PipelineRuns

  // ---------- numbering ----------

  /** The buffers are numbered from `start` on, and the counter stands behind the last. */
  ghost predicate NumberedFrom(start: nat, r: Outcome) {
    && r.st.frameOffset == start + |r.buffers|
    && (forall k :: 0 <= k < |r.buffers| ==>
          r.buffers[k].offset == start + k && r.buffers[k].offsetEnd == start + k + 1)
  }

  lemma {:induction false} NumberedThen(start: nat, a: Outcome, b: Outcome)
    requires NumberedFrom(start, a) && NumberedFrom(start + |a.buffers|, b)
    ensures NumberedFrom(start, Then(a, b))
  {
  }

  lemma {:induction false} ItemNumbered(format: Format, frameInterval: int, st: State, item: Item)
    requires item != Gate(true)
    ensures NumberedFrom(st.frameOffset, ItemStep(format, frameInterval, st, item))
  {
  }

  /** Without a restart in between, buffer number k gets OFFSET start + k, whatever reopens, drops and
      rebaselines happen. */
  lemma {:induction false} OffsetsCount(format: Format, frameInterval: int, st: State, items: seq<Item>, n: nat)
    requires n <= |items| && forall i :: 0 <= i < n ==> items[i] != Gate(true)
    ensures NumberedFrom(st.frameOffset, RunItems(format, frameInterval, st, items, n))
    ensures Flattened(RunItems(format, frameInterval, st, items, n))
  {
    RunFlattened(format, frameInterval, st, items, n);
    if n > 0 {
      OffsetsCount(format, frameInterval, st, items, n - 1);
      var before := RunItems(format, frameInterval, st, items, n - 1);
      ItemNumbered(format, frameInterval, before.st, items[n - 1]);
      NumberedThen(st.frameOffset, before, ItemStep(format, frameInterval, before.st, items[n - 1]));
    }
  }

  /** The buffers of `after` behind those of `before` are numbered from 0. */
  ghost predicate Renumbered(before: Outcome, after: Outcome) {
    && before.buffers <= after.buffers
    && after.st.frameOffset == |after.buffers| - |before.buffers|
    && forall k :: |before.buffers| <= k < |after.buffers| ==> after.buffers[k].offset == k - |before.buffers|
  }

  lemma {:induction false} RenumberedThen(before: Outcome, r: Outcome, step: Outcome)
    requires Renumbered(before, r) && NumberedFrom(r.st.frameOffset, step)
    ensures Renumbered(before, Then(r, step))
  {
  }

  ghost predicate RenumberedAt(format: Format, frameInterval: int, st: State, items: seq<Item>, g: nat, n: nat)
    requires g <= n <= |items|
  {
    Renumbered(RunItems(format, frameInterval, st, items, g), RunItems(format, frameInterval, st, items, n))
  }

  lemma {:induction false} RenumberedNext(format: Format, frameInterval: int, st: State, items: seq<Item>, g: nat,
                                          n: nat)
    requires g < n <= |items| && items[n - 1] != Gate(true)
    requires RenumberedAt(format, frameInterval, st, items, g, n - 1)
    ensures RenumberedAt(format, frameInterval, st, items, g, n)
  {
    var r := RunItems(format, frameInterval, st, items, n - 1);
    ItemNumbered(format, frameInterval, r.st, items[n - 1]);
    RenumberedThen(RunItems(format, frameInterval, st, items, g), r,
                   ItemStep(format, frameInterval, r.st, items[n - 1]));
  }

  lemma {:induction false} RenumberedFirst(format: Format, frameInterval: int, st: State, items: seq<Item>, g: nat)
    requires 0 < g <= |items| && items[g - 1] == Gate(true)
    ensures RenumberedAt(format, frameInterval, st, items, g, g)
  {
    var r := RunItems(format, frameInterval, st, items, g - 1);
    assert RunItems(format, frameInterval, st, items, g) ==
           Then(r, ItemStep(format, frameInterval, r.st, items[g - 1]));
  }

  /** A start, item g - 1, begins the numbering anew: the k-th buffer behind it has OFFSET k. */
  lemma {:induction false} StartRenumbers(format: Format, frameInterval: int, st: State, items: seq<Item>, g: nat,
                                          n: nat)
    requires 0 < g <= n <= |items| && items[g - 1] == Gate(true)
    requires forall i :: g <= i < n ==> items[i] != Gate(true)
    ensures RenumberedAt(format, frameInterval, st, items, g, n)
    decreases n
  {
    if n > g {
      StartRenumbers(format, frameInterval, st, items, g, n - 1);
      RenumberedNext(format, frameInterval, st, items, g, n);
    } else {
      RenumberedFirst(format, frameInterval, st, items, g);
    }
  }

  // ---------- the first buffer after an open ----------

  /** Item i pushed nothing. */
  ghost predicate Silent(format: Format, frameInterval: int, st: State, items: seq<Item>, i: nat)
    requires i < |items|
  {
    |RunItems(format, frameInterval, st, items, i + 1).parts| == |RunItems(format, frameInterval, st, items, i).parts|
  }

  /** Nothing pushed since a gate means the gate is still closed. */
  lemma {:induction false} ClosedUntilPush(format: Format, frameInterval: int, st: State, items: seq<Item>, g: nat,
                                           n: nat)
    requires g < n <= |items| && items[g].Gate? && Parsed(items)
    requires forall i :: g < i < n ==> Silent(format, frameInterval, st, items, i)
    ensures !RunItems(format, frameInterval, st, items, n).st.hadIdr
    decreases n
  {
    if n > g + 1 {
      ClosedUntilPush(format, frameInterval, st, items, g, n - 1);
      SilentItem(format, frameInterval, st, items, n - 1);
    } else {
      GateCloses(format, frameInterval, st, items, g);
    }
  }

  lemma {:induction false} GateCloses(format: Format, frameInterval: int, st: State, items: seq<Item>, g: nat)
    requires g < |items| && items[g].Gate?
    ensures !RunItems(format, frameInterval, st, items, g + 1).st.hadIdr
  {
  }

  lemma {:induction false} SilentItem(format: Format, frameInterval: int, st: State, items: seq<Item>, n: nat)
    requires n < |items| && Parsed(items)
    requires !RunItems(format, frameInterval, st, items, n).st.hadIdr
    requires Silent(format, frameInterval, st, items, n)
    ensures !RunItems(format, frameInterval, st, items, n + 1).st.hadIdr
  {
    SilentStep(format, frameInterval, RunItems(format, frameInterval, st, items, n).st, items[n]);
  }

  lemma {:induction false} SilentStep(format: Format, frameInterval: int, st: State, item: Item)
    requires !st.hadIdr && (item.Au? && HasIdr(item.units) ==> Payload(item.units) != [])
    requires ItemStep(format, frameInterval, st, item).parts == []
    ensures !ItemStep(format, frameInterval, st, item).st.hadIdr
  {
    if item.Au? { AuConserves(format, frameInterval, st, item.units, item.ts, item.other); }
  }

  /** The first buffer pushed after a start or reopen bears an IDR slice, and the sets cached by then, in full,
      stand immediately in front of that slice. */
  lemma {:induction false} FirstBufferAfterOpen(format: Format, frameInterval: int, st: State, items: seq<Item>,
                                                g: nat, n: nat)
    requires g < n < |items| && items[g].Gate? && items[n].Au? && Parsed(items)
    requires forall i :: g < i < n ==> Silent(format, frameInterval, st, items, i)
    requires !Silent(format, frameInterval, st, items, n)
    ensures var after := RunItems(format, frameInterval, st, items, n + 1);
            var units, part := items[n].units, after.parts[|after.parts| - 1];
            && HasIdr(units)
            && FirstIdr(units) < |units| && units[FirstIdr(units)].kind == FrameIdr
            && part.prefix == Prefix(format, after.st.sets)
            && (part.prefix != [] ==>
                  && part.head == Payload(units[..FirstIdr(units)])
                  && part.tail == Payload(units[FirstIdr(units)..]))
  {
    ClosedUntilPush(format, frameInterval, st, items, g, n);
    FirstIdrBound(items[n].units);
  }

  // ---------- currency of the parameter sets ----------

  function ItemUnits(item: Item): seq<NalUnit> {
    if item.Au? then item.units else []
  }

  function AllUnits(items: seq<Item>, n: nat): seq<NalUnit>
    requires n <= |items|
  {
    if n == 0 then [] else AllUnits(items, n - 1) + ItemUnits(items[n - 1])
  }

  /** The bytes of the last accepted set of a kind, `old` when there is none: searched from the end. */
  function NewestSet(initial: seq<byte>, units: seq<NalUnit>, kind: UnitKind): seq<byte> {
    if units == [] then initial
    else
      var last := units[|units| - 1];
      if Accepted(last) && last.kind == kind then last.bytes else NewestSet(initial, units[..|units| - 1], kind)
  }

  lemma {:induction false} LatchAllIsNewest(sets: ParamSets, units: seq<NalUnit>, kind: UnitKind)
    requires IsParameterSet(kind)
    ensures CachedSet(LatchAll(sets, units), kind) == NewestSet(CachedSet(sets, kind), units, kind)
  {
    if units != [] { LatchAllIsNewest(sets, units[..|units| - 1], kind); }
  }

  lemma {:induction false} ItemLatches(format: Format, frameInterval: int, st: State, item: Item)
    requires !item.Loaded?
    ensures ItemStep(format, frameInterval, st, item).st.sets == LatchAll(st.sets, ItemUnits(item))
  {
    if item.Au? { AuStepSets(format, frameInterval, st, item.units, item.ts, item.other); }
  }

  lemma {:induction false} SetsAreLatched(format: Format, frameInterval: int, st: State, items: seq<Item>, n: nat)
    requires n <= |items| && forall i :: 0 <= i < n ==> !items[i].Loaded?
    ensures RunItems(format, frameInterval, st, items, n).st.sets == LatchAll(st.sets, AllUnits(items, n))
  {
    if n > 0 {
      SetsAreLatched(format, frameInterval, st, items, n - 1);
      ItemLatches(format, frameInterval, RunItems(format, frameInterval, st, items, n - 1).st, items[n - 1]);
      LatchAllAppend(st.sets, AllUnits(items, n - 1), ItemUnits(items[n - 1]));
    }
  }

  /** Over every run, start and reopen included, the cache holds for each kind the newest accepted set. */
  lemma {:induction false} CacheIsNewest(format: Format, frameInterval: int, st: State, items: seq<Item>, n: nat,
                                         kind: UnitKind)
    requires n <= |items| && IsParameterSet(kind) && forall i :: 0 <= i < n ==> !items[i].Loaded?
    ensures CachedSet(RunItems(format, frameInterval, st, items, n).st.sets, kind) ==
            NewestSet(CachedSet(st.sets, kind), AllUnits(items, n), kind)
  {
    SetsAreLatched(format, frameInterval, st, items, n);
    LatchAllIsNewest(st.sets, AllUnits(items, n), kind);
  }

  ghost predicate Bounded(sets: ParamSets) {
    |sets.vps| <= SPSPPSBUFSZ && |sets.sps| <= SPSPPSBUFSZ && |sets.pps| <= SPSPPSBUFSZ
  }

  lemma {:induction false} LatchAllBounded(sets: ParamSets, units: seq<NalUnit>)
    requires Bounded(sets)
    ensures Bounded(LatchAll(sets, units))
  {
    if units != [] { LatchAllBounded(sets, units[..|units| - 1]); }
  }

  lemma {:induction false} CacheStaysBounded(format: Format, frameInterval: int, st: State, items: seq<Item>, n: nat)
    requires n <= |items| && Bounded(st.sets) && forall i :: 0 <= i < n && items[i].Loaded? ==> Bounded(items[i].sets)
    ensures Bounded(RunItems(format, frameInterval, st, items, n).st.sets)
  {
    if n > 0 {
      CacheStaysBounded(format, frameInterval, st, items, n - 1);
      if items[n - 1].Au? {
        var before := RunItems(format, frameInterval, st, items, n - 1).st;
        AuStepSets(format, frameInterval, before, items[n - 1].units, items[n - 1].ts, items[n - 1].other);
        LatchAllBounded(before.sets, items[n - 1].units);
      }
    }
  }

  /** An accepted set the codec prepends: VPS counts in H.265 only. */
  predicate Prepended(format: Format, unit: NalUnit) {
    Accepted(unit) && (format == H265 || unit.kind != Vps)
  }

  predicate AnyPrepended(format: Format, units: seq<NalUnit>) {
    units != [] && (AnyPrepended(format, units[..|units| - 1]) || Prepended(format, units[|units| - 1]))
  }

  lemma {:induction false} LatchAllPrefix(format: Format, sets: ParamSets, units: seq<NalUnit>)
    requires Prefix(format, sets) != [] || AnyPrepended(format, units)
    ensures Prefix(format, LatchAll(sets, units)) != []
  {
    if units != [] && !Prepended(format, units[|units| - 1]) {
      LatchAllPrefix(format, sets, units[..|units| - 1]);
    }
  }

  lemma {:induction false} PrependedIsAccepted(format: Format, units: seq<NalUnit>)
    requires AnyPrepended(format, units)
    ensures AnyAccepted(units)
  {
    if !Prepended(format, units[|units| - 1]) { PrependedIsAccepted(format, units[..|units| - 1]); }
  }

  /** The state owes a prefix: sets are cached, and the next IDR-bearing buffer must carry them. */
  ghost predicate Owes(format: Format, st: State) {
    Prefix(format, st.sets) != [] && (st.sendSets || !st.hadIdr)
  }

  lemma {:induction false} OwesAfterAccepted(format: Format, frameInterval: int, st: State, au: seq<NalUnit>, ts: nat,
                                             other: Interference)
    requires Owes(format, st) || AnyPrepended(format, au)
    ensures var step := AuStep(format, frameInterval, st, au, ts, other);
            var sets := LatchAll(st.sets, au);
            if step.out.Some? && HasIdr(au) then step.out.value.0.prefix == Prefix(format, sets) != []
            else Owes(format, step.st) && (step.out.Some? ==> step.out.value.0.prefix == [])
  {
    LatchAllPrefix(format, st.sets, au);
    if !Owes(format, st) { PrependedIsAccepted(format, au); }
  }

  lemma {:induction false} OwedNext(format: Format, frameInterval: int, before: Outcome, item: Item)
    requires Owes(format, before.st) || (item.Au? && AnyPrepended(format, item.units))
    requires item.Loaded? ==> Prefix(format, item.sets) != []
    requires item.Au? && HasIdr(item.units) ==> ItemStep(format, frameInterval, before.st, item).parts == []
    ensures Owes(format, ItemStep(format, frameInterval, before.st, item).st)
  {
    if item.Au? { OwesAfterAccepted(format, frameInterval, before.st, item.units, item.ts, item.other); }
  }

  lemma {:induction false} OwedUntilPrefixed(format: Format, frameInterval: int, st: State, items: seq<Item>, j: nat,
                                             n: nat)
    requires j < n <= |items| && items[j].Au?
    requires AnyPrepended(format, items[j].units)
    requires forall i :: j <= i < n && items[i].Loaded? ==> Prefix(format, items[i].sets) != []
    requires forall i {:trigger Silent(format, frameInterval, st, items, i)} ::
               j <= i < n && items[i].Au? && HasIdr(items[i].units) ==> Silent(format, frameInterval, st, items, i)
    ensures Owes(format, RunItems(format, frameInterval, st, items, n).st)
    decreases n
  {
    if j < n - 1 { OwedUntilPrefixed(format, frameInterval, st, items, j, n - 1); }
    assert items[n - 1].Au? && HasIdr(items[n - 1].units) ==> Silent(format, frameInterval, st, items, n - 1);
    OwedNext(format, frameInterval, RunItems(format, frameInterval, st, items, n - 1), items[n - 1]);
  }

  /** The last buffer pushed carries the sets cached by now, and there are some. */
  predicate CarriesCache(format: Format, r: Outcome) {
    r.parts != [] && r.parts[|r.parts| - 1].prefix == Prefix(format, r.st.sets) != []
  }

  lemma {:induction false} NextIdrCarries(format: Format, frameInterval: int, before: Outcome, item: Item)
    requires item.Au? && HasIdr(item.units) && (Owes(format, before.st) || AnyPrepended(format, item.units))
    requires ItemStep(format, frameInterval, before.st, item).parts != []
    ensures CarriesCache(format, Then(before, ItemStep(format, frameInterval, before.st, item)))
  {
    OwesAfterAccepted(format, frameInterval, before.st, item.units, item.ts, item.other);
    AuStepSets(format, frameInterval, before.st, item.units, item.ts, item.other);
  }

  /** Item n's buffer does. */
  ghost predicate CarriesAt(format: Format, frameInterval: int, st: State, items: seq<Item>, n: nat)
    requires n < |items|
  {
    && !Silent(format, frameInterval, st, items, n)
    && CarriesCache(format, RunItems(format, frameInterval, st, items, n + 1))
  }

  /** In front of item n sets are owed, or item n brings them itself. */
  ghost predicate OwedAt(format: Format, frameInterval: int, st: State, items: seq<Item>, n: nat)
    requires n < |items| && items[n].Au?
  {
    Owes(format, RunItems(format, frameInterval, st, items, n).st) || AnyPrepended(format, items[n].units)
  }

  lemma {:induction false} OwedIsCarried(format: Format, frameInterval: int, st: State, items: seq<Item>, n: nat)
    requires n < |items| && items[n].Au? && HasIdr(items[n].units)
    requires OwedAt(format, frameInterval, st, items, n) && !Silent(format, frameInterval, st, items, n)
    ensures CarriesAt(format, frameInterval, st, items, n)
  {
    NextIdrCarries(format, frameInterval, RunItems(format, frameInterval, st, items, n), items[n]);
  }

  /** Between the set in access unit j and item n no load emptied the cache and no IDR-bearing buffer was pushed. */
  ghost predicate Unpaid(format: Format, frameInterval: int, st: State, items: seq<Item>, j: nat, n: nat)
    requires j <= n <= |items|
  {
    && (forall i :: j <= i < n && items[i].Loaded? ==> Prefix(format, items[i].sets) != [])
    && (forall i {:trigger Silent(format, frameInterval, st, items, i)} ::
          j <= i < n && items[i].Au? && HasIdr(items[i].units) ==> Silent(format, frameInterval, st, items, i))
  }

  lemma {:induction false} OwedSince(format: Format, frameInterval: int, st: State, items: seq<Item>, j: nat, n: nat)
    requires j <= n < |items| && items[j].Au? && items[n].Au? && AnyPrepended(format, items[j].units)
    requires Unpaid(format, frameInterval, st, items, j, n)
    ensures OwedAt(format, frameInterval, st, items, n)
  {
    if j < n { OwedUntilPrefixed(format, frameInterval, st, items, j, n); }
  }

  /** An accepted set arrived in access unit j and no IDR-bearing buffer has been pushed since: then the next
      IDR-bearing buffer carries a prefix, and it is the cache as of that buffer, so the newest accepted sets. Loads of
      the disk cache in between do not matter: a load never empties the cache (ParameterCache.LoadKeepsPrefix). */
  lemma {:induction false} NextIdrCarriesNewestSets(format: Format, frameInterval: int, st: State, items: seq<Item>,
                                                    j: nat, n: nat)
    requires j <= n < |items| && items[j].Au? && items[n].Au? && HasIdr(items[n].units)
    requires AnyPrepended(format, items[j].units)
    requires Unpaid(format, frameInterval, st, items, j, n)
    requires !Silent(format, frameInterval, st, items, n)
    ensures CarriesAt(format, frameInterval, st, items, n)
  {
    OwedSince(format, frameInterval, st, items, j, n);
    OwedIsCarried(format, frameInterval, st, items, n);
  }

  // ---------- which buffers carry sets ----------

  /** Item i pushed a buffer with sets put in. */
  ghost predicate Carries(format: Format, frameInterval: int, st: State, items: seq<Item>, i: nat)
    requires i < |items|
  {
    var step := ItemStep(format, frameInterval, RunItems(format, frameInterval, st, items, i).st, items[i]);
    step.parts != [] && step.parts[0].prefix != []
  }

  /** So did it, or it closed the gate. */
  ghost predicate Spends(format: Format, frameInterval: int, st: State, items: seq<Item>, i: nat)
    requires i < |items|
  {
    items[i].Gate? || Carries(format, frameInterval, st, items, i)
  }

  /** Access unit j brought a set of 1 to 1024 bytes. */
  ghost predicate BringsSet(items: seq<Item>, j: nat)
    requires j < |items|
  {
    items[j].Au? && exists i :: 0 <= i < |items[j].units| && BringsAt(items[j].units, i)
  }

  predicate BringsAt(units: seq<NalUnit>, i: nat)
    requires i < |units|
  {
    units[i].kind in {Vps, Sps, Pps} && 1 <= |units[i].bytes| <= 1024
  }

  lemma {:induction false} AnyAcceptedMeans(units: seq<NalUnit>)
    ensures AnyAccepted(units) <==> exists i :: 0 <= i < |units| && BringsAt(units, i)
  {
    if units != [] {
      var n := |units| - 1;
      AnyAcceptedMeans(units[..n]);
      forall i | 0 <= i < n ensures BringsAt(units[..n], i) <==> BringsAt(units, i) {}
      assert BringsAt(units, n) <==> Accepted(units[n]);
    }
  }

  /** Below n a set came, and since then neither were sets put into a buffer nor was the gate closed. */
  ghost predicate SetsPending(format: Format, frameInterval: int, st: State, items: seq<Item>, n: nat)
    requires n <= |items|
  {
    exists j :: 0 <= j < n && PendingSince(format, frameInterval, st, items, j, n)
  }

  ghost predicate PendingSince(format: Format, frameInterval: int, st: State, items: seq<Item>, j: nat, n: nat)
    requires j < n <= |items|
  {
    && BringsSet(items, j)
    && forall i :: j <= i < n ==> !Spends(format, frameInterval, st, items, i)
  }

  lemma {:induction false} PendingStep(format: Format, frameInterval: int, st: State, items: seq<Item>, n: nat)
    requires n < |items|
    ensures SetsPending(format, frameInterval, st, items, n + 1) <==>
              && !Spends(format, frameInterval, st, items, n)
              && (SetsPending(format, frameInterval, st, items, n) || BringsSet(items, n))
  {
    if SetsPending(format, frameInterval, st, items, n + 1) {
      var j :| 0 <= j < n + 1 && PendingSince(format, frameInterval, st, items, j, n + 1);
      if j < n { assert PendingSince(format, frameInterval, st, items, j, n); }
    }
    if !Spends(format, frameInterval, st, items, n) {
      if SetsPending(format, frameInterval, st, items, n) {
        var j :| 0 <= j < n && PendingSince(format, frameInterval, st, items, j, n);
        assert PendingSince(format, frameInterval, st, items, j, n + 1);
      } else if BringsSet(items, n) {
        assert PendingSince(format, frameInterval, st, items, n, n + 1);
      }
    }
  }

  /** What an item does to the pending flag. */
  lemma {:induction false} SendStep(format: Format, frameInterval: int, st: State, item: Item)
    ensures var step := ItemStep(format, frameInterval, st, item);
            step.st.sendSets <==>
              && !item.Gate? && !(step.parts != [] && step.parts[0].prefix != [])
              && (st.sendSets || (item.Au? && AnyAccepted(item.units)))
  {
  }

  /** The flag send_sps_pps over a run. */
  lemma {:induction false} SendMeansPending(format: Format, frameInterval: int, st: State, items: seq<Item>, n: nat)
    requires n <= |items| && !st.sendSets
    ensures RunItems(format, frameInterval, st, items, n).st.sendSets <==>
            SetsPending(format, frameInterval, st, items, n)
  {
    if n > 0 {
      SendMeansPending(format, frameInterval, st, items, n - 1);
      PendingStep(format, frameInterval, st, items, n - 1);
      if items[n - 1].Au? { AnyAcceptedMeans(items[n - 1].units); }
      SendStep(format, frameInterval, RunItems(format, frameInterval, st, items, n - 1).st, items[n - 1]);
    }
  }

  /** The sets stand immediately in front of the first IDR slice. */
  ghost predicate InFrontOfIdr(units: seq<NalUnit>, part: Assembly) {
    exists i ::
      && 0 <= i < |units| && units[i].kind == FrameIdr && (forall j :: 0 <= j < i ==> units[j].kind != FrameIdr)
      && part.head == Payload(units[..i]) && part.tail == Payload(units[i..])
  }

  /** The parts of a buffer that is pushed in state `st`. */
  lemma {:induction false} PartIs(format: Format, frameInterval: int, st: State, item: Item)
    requires item.Au? && ItemStep(format, frameInterval, st, item).parts != []
    ensures var step := ItemStep(format, frameInterval, st, item);
            var part, units := step.parts[0], item.units;
            && part.prefix == (if HasIdr(units) && (!st.hadIdr || st.sendSets || AnyAccepted(units))
                               then Prefix(format, step.st.sets) else [])
            && (part.prefix != [] ==> InFrontOfIdr(units, part))
  {
    FirstIdrBound(item.units);
    AuStepSets(format, frameInterval, st, item.units, item.ts, item.other);
  }

  /** Over any run from a closed gate: the buffer of item n carries the cached sets, in front of its first IDR slice,
      exactly when it bears one and the gate is closed or a set came since sets were last put in. */
  lemma {:induction false} CarriesExactly(format: Format, frameInterval: int, st: State, items: seq<Item>, n: nat)
    requires n < |items| && items[n].Au? && Parsed(items) && !st.hadIdr && !st.sendSets
    requires ItemStep(format, frameInterval, RunItems(format, frameInterval, st, items, n).st, items[n]).parts != []
    ensures var step := ItemStep(format, frameInterval, RunItems(format, frameInterval, st, items, n).st, items[n]);
            var part, units := step.parts[0], items[n].units;
            && part.prefix == (if HasIdr(units) && (|| !GateOpen(items, n) || BringsSet(items, n)
                                                    || SetsPending(format, frameInterval, st, items, n))
                               then Prefix(format, step.st.sets) else [])
            && (part.prefix != [] ==> InFrontOfIdr(units, part))
  {
    var before := RunItems(format, frameInterval, st, items, n);
    ItemsSettle(format, frameInterval, st, items, n);
    SendMeansPending(format, frameInterval, st, items, n);
    AnyAcceptedMeans(items[n].units);
    PartIs(format, frameInterval, before.st, items[n]);
  }

  /** What is put in: in H.265 the VPS, then the SPS, then the PPS, as cached. */
  lemma {:induction false} PrefixIs(format: Format, sets: ParamSets)
    ensures format == H265 ==> Prefix(format, sets) == sets.vps + sets.sps + sets.pps
    ensures format != H265 ==> Prefix(format, sets) == sets.sps + sets.pps
  {
    assert [] + sets.sps == sets.sps;
  }

  // ---------- the feeder as the streaming thread sees it ----------

  /** `part` is the assembly of one of these access units, and that one bears an IDR slice. */
  ghost predicate BearsIdr(format: Format, aus: seq<seq<NalUnit>>, part: Assembly) {
    exists k, sets, withPrefix :: 0 <= k < |aus| && HasIdr(aus[k]) && part == Assemble(format, sets, aus[k], withPrefix)
  }

  /** What a step of the feeder may do to the gate, the counter and the queue. */
  ghost predicate Feeds(format: Format, aus: seq<seq<NalUnit>>, st: State, r: Outcome) {
    && |r.parts| == |r.buffers|
    && r.st.hadIdr == (st.hadIdr || r.buffers != [])
    && r.st.frameOffset == st.frameOffset + |r.buffers|
    && (forall k :: 0 <= k < |r.buffers| ==> r.buffers[k].offset == st.frameOffset + k)
    && (!st.hadIdr && r.buffers != [] ==> BearsIdr(format, aus, r.parts[0]))
  }

  lemma {:induction false} FeedOne(format: Format, frameInterval: int, aus: seq<seq<NalUnit>>, n: nat, st: State,
                                   before: Outcome, ts: nat, other: Interference)
    requires n < |aus| && (HasIdr(aus[n]) ==> Payload(aus[n]) != []) && Feeds(format, aus, st, before)
    ensures Feeds(format, aus, st, Extend(before, AuStep(format, frameInterval, before.st, aus[n], ts, other)))
  {
    AuConserves(format, frameInterval, before.st, aus[n], ts, other);
    var c := Consumed(before.st, aus[n]);
    if HasIdr(aus[n]) {
      assert BearsIdr(format, aus, PushedParts(format, c, aus[n])) by {
        assert PushedParts(format, c, aus[n]) == Assemble(format, c.sets, aus[n], Prefixed(format, c, aus[n]));
      }
    }
  }

  ghost predicate FedAt(format: Format, frameInterval: int, st: State, aus: seq<seq<NalUnit>>, n: nat, ts: nat,
                        d: Delivery)
    requires n <= |aus|
  {
    Feeds(format, aus, st, RunAus(format, frameInterval, st, aus, n, ts, d))
  }

  lemma {:induction false} FedNext(format: Format, frameInterval: int, st: State, aus: seq<seq<NalUnit>>, n: nat,
                                   ts: nat, d: Delivery)
    requires 0 < n <= |aus| && (HasIdr(aus[n - 1]) ==> Payload(aus[n - 1]) != [])
    requires FedAt(format, frameInterval, st, aus, n - 1, ts, d)
    ensures FedAt(format, frameInterval, st, aus, n, ts, d)
  {
    FeedOne(format, frameInterval, aus, n - 1, st, RunAus(format, frameInterval, st, aus, n - 1, ts, d), ts,
            InterferenceAt(d, n - 1));
  }

  lemma {:induction false} AusFeed(format: Format, frameInterval: int, st: State, aus: seq<seq<NalUnit>>, n: nat,
                                   ts: nat, d: Delivery)
    requires n <= |aus| && forall k :: 0 <= k < |aus| ==> (HasIdr(aus[k]) ==> Payload(aus[k]) != [])
    ensures FedAt(format, frameInterval, st, aus, n, ts, d)
  {
    if n > 0 {
      AusFeed(format, frameInterval, st, aus, n - 1, ts, d);
      FedNext(format, frameInterval, st, aus, n, ts, d);
    }
  }

  /** A callback numbers on from the counter, and behind a closed gate its first buffer bears an IDR slice. */
  lemma {:induction false} CallbackFeeds(format: Format, frameInterval: int, st: State, d: Delivery)
    ensures Feeds(format, AccessUnitsOf(format, d.data), st, Callback(format, frameInterval, st, d))
  {
    if Admitted(st, d.data) {
      var aus := AccessUnitsOf(format, d.data);
      forall k | 0 <= k < |aus| ensures HasIdr(aus[k]) ==> Payload(aus[k]) != [] { DeliveryParsed(format, d.data, k); }
      AusFeed(format, frameInterval, LatchBase(st, d), aus, |aus|, Arrival(st, d), d);
    }
  }
}
