/** The PTS law (frame_pipeline.c:324-351 and 449-468): the clamp over any run between rebaselines in closed form. */
module PtsLaw {
  import opened Bytes
  import opened AnnexB
  import opened PipelineSpec
  import opened PipelineRuns

  /** PTS number n of a run that starts right after a rebaseline: the clamp, step by step. */
  function Clamped(arrivals: seq<nat>, n: nat): nat
    requires n < |arrivals|
  {
    if n == 0 then arrivals[0] else ClampPts(Clamped(arrivals, n - 1), arrivals[n])
  }

  /** `pts` is the largest of arrivals[j] + (n - j) over j <= n. */
  ghost predicate IsLatest(arrivals: seq<nat>, n: nat, pts: nat)
    requires n < |arrivals|
  {
    && (exists j :: 0 <= j <= n && pts == arrivals[j] + (n - j))
    && (forall j :: 0 <= j <= n ==> arrivals[j] + (n - j) <= pts)
  }

  /** No arrival is so late that counting up from it would reach the sentinel. */
  predicate InRange(arrivals: seq<nat>) {
    forall j :: 0 <= j < |arrivals| ==> arrivals[j] + |arrivals| < CLOCK_NONE
  }

  lemma {:induction false} ClampedIsLatest(arrivals: seq<nat>, n: nat)
    requires n < |arrivals| && InRange(arrivals)
    ensures IsLatest(arrivals, n, Clamped(arrivals, n))
    ensures Clamped(arrivals, n) < CLOCK_NONE - 1
  {
    if n == 0 {
      assert Clamped(arrivals, 0) == arrivals[0] + (0 - 0);
    } else {
      ClampedIsLatest(arrivals, n - 1);
      var prev, pts := Clamped(arrivals, n - 1), Clamped(arrivals, n);
      var j :| 0 <= j <= n - 1 && prev == arrivals[j] + (n - 1 - j);
      if arrivals[n] <= prev {
        assert pts == prev + 1 == arrivals[j] + (n - j);
      } else {
        assert pts == arrivals[n] + (n - n);
      }
    }
  }

  // ---------- the law over runs ----------

  /** An item that rebaselines nothing: set_clock() may still swap the clock field, the callback may still commit
      a base time. */
  predicate KeepsBaseline(st: State, item: Item) {
    match item
    case Au(_, _, other) => !other.rebase
    case Gate(_) => false
    case Clock(_, _, prevPts) => prevPts == st.prevPts
    case Loaded(_) => true
  }

  /** Item i of the run keeps the baseline. */
  ghost predicate Steady(format: Format, frameInterval: int, st: State, items: seq<Item>, i: nat)
    requires i < |items|
  {
    KeepsBaseline(RunItems(format, frameInterval, st, items, i).st, items[i])
  }

  datatype Stamp = Stamp(arrival: nat, pts: nat)

  /** The stamp of the buffer that item pushes, if it pushes one that holds a slice. */
  function ItemStamp(format: Format, frameInterval: int, st: State, item: Item): seq<Stamp> {
    if item.Au? && HasSlice(item.units) then
      match AuStep(format, frameInterval, st, item.units, item.ts, item.other).out
      case Some(out) => [Stamp(item.ts, out.1.pts)]
      case None => []
    else []
  }

  /** The stamps of the first n items, item by item. */
  function ItemParts(format: Format, frameInterval: int, st: State, items: seq<Item>, n: nat): seq<seq<Stamp>>
    requires n <= |items|
  {
    seq(n, k requires 0 <= k < n =>
      ItemStamp(format, frameInterval, RunItems(format, frameInterval, st, items, k).st, items[k]))
  }

  function Stamps(format: Format, frameInterval: int, st: State, items: seq<Item>, n: nat): seq<Stamp>
    requires n <= |items|
  {
    Concat(ItemParts(format, frameInterval, st, items, n))
  }

  /** prev_pts in front of each of the first n items and behind the last. */
  function PtsTrail(format: Format, frameInterval: int, st: State, items: seq<Item>, n: nat): seq<nat>
    requires n <= |items|
  {
    seq(n + 1, k requires 0 <= k <= n => RunItems(format, frameInterval, st, items, k).st.prevPts)
  }

  function Arrivals(stamps: seq<Stamp>): seq<nat> {
    seq(|stamps|, i requires 0 <= i < |stamps| => stamps[i].arrival)
  }

  /** Every stamp is the clamp of the arrivals so far. */
  ghost predicate FollowsClamp(stamps: seq<Stamp>) {
    forall k :: 0 <= k < |stamps| ==> stamps[k].pts == Clamped(Arrivals(stamps), k)
  }

  lemma {:induction false} ClampedPrefix(a: seq<nat>, b: seq<nat>, k: nat)
    requires k < |a| <= |b| && forall i :: 0 <= i < |a| ==> a[i] == b[i]
    ensures Clamped(a, k) == Clamped(b, k)
  {
    if k > 0 { ClampedPrefix(a, b, k - 1); }
  }

  lemma {:induction false} FollowsClampSnoc(stamps: seq<Stamp>, stamp: Stamp)
    requires FollowsClamp(stamps)
    requires stamp.pts == ClampPts(if stamps == [] then CLOCK_NONE else stamps[|stamps| - 1].pts, stamp.arrival)
    requires InRange(Arrivals(stamps + [stamp]))
    ensures FollowsClamp(stamps + [stamp])
  {
    var longer := stamps + [stamp];
    forall k | 0 <= k < |longer| ensures longer[k].pts == Clamped(Arrivals(longer), k) {
      if k < |stamps| {
        ClampedPrefix(Arrivals(stamps), Arrivals(longer), k);
      } else if k > 0 {
        ClampedPrefix(Arrivals(stamps), Arrivals(longer), k - 1);
        assert stamps[k - 1].pts == Clamped(Arrivals(stamps), k - 1);
        ClampedIsLatest(Arrivals(longer), k - 1);
      }
    }
  }

  lemma {:induction false} InRangePrefix(stamps: seq<Stamp>, more: seq<Stamp>)
    requires InRange(Arrivals(stamps + more))
    ensures InRange(Arrivals(stamps))
  {
    forall j | 0 <= j < |stamps| ensures Arrivals(stamps)[j] + |stamps| < CLOCK_NONE {
      assert Arrivals(stamps + more)[j] == Arrivals(stamps)[j];
    }
  }

  /** `prevPts` is the last stamp, or the sentinel when there is none. */
  predicate LastPts(stamps: seq<Stamp>, prevPts: nat) {
    prevPts == if stamps == [] then CLOCK_NONE else stamps[|stamps| - 1].pts
  }

  /** The law for one list of stamps and the prev_pts behind it. */
  ghost predicate Lawful(stamps: seq<Stamp>, prevPts: nat) {
    InRange(Arrivals(stamps)) ==> FollowsClamp(stamps) && LastPts(stamps, prevPts)
  }

  lemma {:induction false} ExtendStamps(stamps: seq<Stamp>, stamp: seq<Stamp>, prevPts: nat, after: nat)
    requires Lawful(stamps, prevPts)
    requires |stamp| <= 1
    requires stamp == [] ==> after == prevPts
    requires stamp != [] ==> stamp[0].pts == ClampPts(prevPts, stamp[0].arrival) == after
    ensures Lawful(stamps + stamp, after)
  {
    if InRange(Arrivals(stamps + stamp)) {
      InRangePrefix(stamps, stamp);
      if stamp == [] {
        assert stamps + stamp == stamps;
      } else {
        assert stamp == [stamp[0]];
        FollowsClampSnoc(stamps, stamp[0]);
      }
    }
  }

  /** One step of the clamp: no stamp and prev_pts stays, or one stamp, which becomes prev_pts. */
  predicate Stamped(prev: nat, stamp: seq<Stamp>, next: nat) {
    && |stamp| <= 1
    && (stamp == [] ==> next == prev)
    && (stamp != [] ==> stamp[0].pts == ClampPts(prev, stamp[0].arrival) == next)
  }

  /** Behind lawful stamps these keep the law. */
  ghost predicate KeepsLaw(prev: nat, more: seq<Stamp>, next: nat) {
    forall before :: Lawful(before, prev) ==> Lawful(before + more, next)
  }

  lemma {:induction false} StampedKeepsLaw(prev: nat, stamp: seq<Stamp>, next: nat)
    requires Stamped(prev, stamp, next)
    ensures KeepsLaw(prev, stamp, next)
  {
    forall before | Lawful(before, prev)
      ensures Lawful(before + stamp, next)
    {
      ExtendStamps(before, stamp, prev, next);
    }
  }

  lemma {:induction false} KeepsLawThen(p: nat, a: seq<Stamp>, q: nat, b: seq<Stamp>, r: nat)
    requires KeepsLaw(p, a, q) && KeepsLaw(q, b, r)
    ensures KeepsLaw(p, a + b, r)
  {
    forall before | Lawful(before, p) ensures Lawful(before + (a + b), r) { Assoc(before, a, b); }
  }

  /** Parts that keep the law one by one keep it together; trail[k] is prev_pts in front of part k. */
  lemma {:induction false} PartsKeepLaw(parts: seq<seq<Stamp>>, trail: seq<nat>)
    requires |trail| == |parts| + 1 && forall k :: 0 <= k < |parts| ==> KeepsLaw(trail[k], parts[k], trail[k + 1])
    ensures KeepsLaw(trail[0], Concat(parts), trail[|parts|])
  {
    if parts == [] {
      forall before | Lawful(before, trail[0]) ensures Lawful(before + [], trail[0]) { assert before + [] == before; }
    } else {
      RestKeepsLaw(parts, trail);
      PartsKeepLaw(parts[1..], trail[1..]);
      KeepsLawThen(trail[0], parts[0], trail[1], Concat(parts[1..]), trail[|parts|]);
    }
  }

  lemma {:induction false} RestKeepsLaw(parts: seq<seq<Stamp>>, trail: seq<nat>)
    requires parts != [] && |trail| == |parts| + 1
    requires forall k :: 0 <= k < |parts| ==> KeepsLaw(trail[k], parts[k], trail[k + 1])
    ensures var rest, trail' := parts[1..], trail[1..];
            && |trail'| == |rest| + 1 && trail'[0] == trail[1] && trail'[|rest|] == trail[|parts|]
            && forall k :: 0 <= k < |rest| ==> KeepsLaw(trail'[k], rest[k], trail'[k + 1])
  {
    var rest, trail' := parts[1..], trail[1..];
    forall k | 0 <= k < |rest| ensures KeepsLaw(trail'[k], rest[k], trail'[k + 1]) {
      assert KeepsLaw(trail[k + 1], parts[k + 1], trail[k + 1 + 1]);
    }
  }

  /** The first item is an access unit inside whose callback another thread rebaselines, right in front of its stamp. */
  predicate Opens(format: Format, frameInterval: int, st: State, items: seq<Item>) {
    && items != [] && items[0].Au? && items[0].other.rebase && HasSlice(items[0].units)
    && AuStep(format, frameInterval, st, items[0].units, items[0].ts, items[0].other).out.Some?
  }

  /** The first n items lie between two rebaselines: nothing was stamped since the one before, or it is made inside the
      callback of the first item; none follows. */
  ghost predicate Interval(format: Format, frameInterval: int, st: State, items: seq<Item>, n: nat)
    requires n <= |items|
  {
    if n > 0 && Opens(format, frameInterval, st, items) then
      forall i :: 1 <= i < n ==> Steady(format, frameInterval, st, items, i)
    else st.prevPts == CLOCK_NONE && forall i :: 0 <= i < n ==> Steady(format, frameInterval, st, items, i)
  }

  /** The stamp behind a rebaseline inside the callback is the arrival itself. */
  lemma {:induction false} OpeningStamp(format: Format, frameInterval: int, st: State, items: seq<Item>)
    requires Opens(format, frameInterval, st, items)
    ensures ItemStamp(format, frameInterval, st, items[0]) == [Stamp(items[0].ts, items[0].ts)]
    ensures ItemStep(format, frameInterval, st, items[0]).st.prevPts == items[0].ts
  {
  }

  /** What one baseline-keeping item does to the stamps and to prev_pts. */
  lemma {:induction false} ItemStamped(format: Format, frameInterval: int, st: State, item: Item)
    requires KeepsBaseline(st, item)
    ensures Stamped(st.prevPts, ItemStamp(format, frameInterval, st, item),
                    ItemStep(format, frameInterval, st, item).st.prevPts)
  {
  }

  lemma {:induction false} StepKeepsLaw(format: Format, frameInterval: int, st: State, item: Item)
    requires KeepsBaseline(st, item)
    ensures KeepsLaw(st.prevPts, ItemStamp(format, frameInterval, st, item),
                     ItemStep(format, frameInterval, st, item).st.prevPts)
  {
    ItemStamped(format, frameInterval, st, item);
    StampedKeepsLaw(st.prevPts, ItemStamp(format, frameInterval, st, item),
                    ItemStep(format, frameInterval, st, item).st.prevPts);
  }

  /** Item k keeps the law from the trail in front of it to the trail behind it, m being k + 1. */
  lemma {:induction false} ItemKeepsLaw(format: Format, frameInterval: int, st: State, items: seq<Item>, n: nat, k: nat,
                                        m: nat)
    requires k < m <= n <= |items| && m == k + 1 && Steady(format, frameInterval, st, items, k)
    ensures KeepsAt(ItemParts(format, frameInterval, st, items, n), PtsTrail(format, frameInterval, st, items, n), k)
  {
    var parts, trail := ItemParts(format, frameInterval, st, items, n), PtsTrail(format, frameInterval, st, items, n);
    StepKeepsLaw(format, frameInterval, RunItems(format, frameInterval, st, items, k).st, items[k]);
    TrailStep(format, frameInterval, st, items, n, k, m);
    PartAt(format, frameInterval, st, items, n, k);
    KeepsAtIs(parts, trail, k, m);
  }

  lemma {:induction false} KeepsAtIs(parts: seq<seq<Stamp>>, trail: seq<nat>, k: nat, m: nat)
    requires k < m <= |parts| && m == k + 1 && |trail| == |parts| + 1 && KeepsLaw(trail[k], parts[k], trail[m])
    ensures KeepsAt(parts, trail, k)
  {
  }

  lemma {:induction false} PartAt(format: Format, frameInterval: int, st: State, items: seq<Item>, n: nat, k: nat)
    requires k < n <= |items|
    ensures ItemParts(format, frameInterval, st, items, n)[k] ==
            ItemStamp(format, frameInterval, RunItems(format, frameInterval, st, items, k).st, items[k])
  {
  }

  /** The trail in front of item k and behind it, m being k + 1. */
  lemma {:induction false} TrailStep(format: Format, frameInterval: int, st: State, items: seq<Item>, n: nat, k: nat,
                                     m: nat)
    requires k < m <= n <= |items| && m == k + 1
    ensures var mid, trail := RunItems(format, frameInterval, st, items, k).st,
            PtsTrail(format, frameInterval, st, items, n);
            trail[k] == mid.prevPts && trail[m] == ItemStep(format, frameInterval, mid, items[k]).st.prevPts
  {
    TrailAt(format, frameInterval, st, items, n, k);
    TrailAt(format, frameInterval, st, items, n, m);
    RunItemsNext(format, frameInterval, st, items, k, m);
  }

  lemma {:induction false} TrailAt(format: Format, frameInterval: int, st: State, items: seq<Item>, n: nat, k: nat)
    requires k <= n <= |items|
    ensures PtsTrail(format, frameInterval, st, items, n)[k] == RunItems(format, frameInterval, st, items, k).st.prevPts
  {
  }

  lemma {:induction false} RunItemsNext(format: Format, frameInterval: int, st: State, items: seq<Item>, k: nat,
                                        m: nat)
    requires k < m <= |items| && m == k + 1
    ensures RunItems(format, frameInterval, st, items, m).st ==
            ItemStep(format, frameInterval, RunItems(format, frameInterval, st, items, k).st, items[k]).st
  {
    assert k == m - 1;
  }

  lemma {:induction false} StampsAreLawful(format: Format, frameInterval: int, st: State, items: seq<Item>, n: nat)
    requires n <= |items| && Interval(format, frameInterval, st, items, n)
    ensures Lawful(Stamps(format, frameInterval, st, items, n), PtsTrail(format, frameInterval, st, items, n)[n])
  {
    var parts, trail := ItemParts(format, frameInterval, st, items, n), PtsTrail(format, frameInterval, st, items, n);
    if n > 0 && Opens(format, frameInterval, st, items) {
      LawfulOpened(format, frameInterval, st, items, n);
      ItemsKeepLaw(format, frameInterval, st, items, n, 1);
      LawfulRest(parts, trail);
    } else {
      ItemsKeepLaw(format, frameInterval, st, items, n, 0);
      LawfulAll(parts, trail);
    }
  }

  ghost predicate AllKeep(parts: seq<seq<Stamp>>, trail: seq<nat>, lo: nat)
    requires |trail| == |parts| + 1
  {
    forall k :: lo <= k < |parts| ==> KeepsAt(parts, trail, k)
  }

  ghost predicate KeepsAt(parts: seq<seq<Stamp>>, trail: seq<nat>, k: nat)
    requires k < |parts| && |trail| == |parts| + 1
  {
    KeepsLaw(trail[k], parts[k], trail[k + 1])
  }

  lemma {:induction false} ItemsKeepLaw(format: Format, frameInterval: int, st: State, items: seq<Item>, n: nat,
                                        lo: nat)
    requires n <= |items| && forall i :: lo <= i < n ==> Steady(format, frameInterval, st, items, i)
    ensures AllKeep(ItemParts(format, frameInterval, st, items, n), PtsTrail(format, frameInterval, st, items, n), lo)
  {
    forall k | lo <= k < n
      ensures KeepsAt(ItemParts(format, frameInterval, st, items, n), PtsTrail(format, frameInterval, st, items, n), k)
    {
      ItemKeepsLaw(format, frameInterval, st, items, n, k, k + 1);
    }
  }

  lemma {:induction false} LawfulAll(parts: seq<seq<Stamp>>, trail: seq<nat>)
    requires |trail| == |parts| + 1 && Lawful([], trail[0]) && AllKeep(parts, trail, 0)
    ensures Lawful(Concat(parts), trail[|parts|])
  {
    forall k | 0 <= k < |parts| ensures KeepsLaw(trail[k], parts[k], trail[k + 1]) {
      assert KeepsAt(parts, trail, k);
    }
    PartsKeepLaw(parts, trail);
    assert [] + Concat(parts) == Concat(parts);
  }

  /** A lawful first part and law-keeping parts behind it. */
  lemma {:induction false} LawfulRest(parts: seq<seq<Stamp>>, trail: seq<nat>)
    requires parts != [] && |trail| == |parts| + 1 && Lawful(parts[0], trail[1]) && AllKeep(parts, trail, 1)
    ensures Lawful(Concat(parts), trail[|parts|])
  {
    var rest, trail' := parts[1..], trail[1..];
    forall k | 0 <= k < |rest| ensures KeepsLaw(trail'[k], rest[k], trail'[k + 1]) {
      assert KeepsAt(parts, trail, k + 1);
    }
    PartsKeepLaw(rest, trail');
  }

  lemma {:induction false} LawfulOpened(format: Format, frameInterval: int, st: State, items: seq<Item>, n: nat)
    requires 0 < n <= |items| && Opens(format, frameInterval, st, items)
    ensures Lawful(ItemParts(format, frameInterval, st, items, n)[0], PtsTrail(format, frameInterval, st, items, n)[1])
  {
    var stamp := Stamp(items[0].ts, items[0].ts);
    OpeningStamp(format, frameInterval, st, items);
    assert RunItems(format, frameInterval, st, items, 0).st == st;
    if InRange(Arrivals([stamp])) {
      assert [] + [stamp] == [stamp];
      FollowsClampSnoc([], stamp);
    }
  }

  lemma {:induction false} LawfulStamp(stamps: seq<Stamp>, prevPts: nat, k: nat)
    requires Lawful(stamps, prevPts) && InRange(Arrivals(stamps)) && k < |stamps|
    ensures IsLatest(Arrivals(stamps), k, stamps[k].pts)
    ensures stamps[k].arrival <= stamps[k].pts
    ensures k > 0 ==> stamps[k - 1].pts < stamps[k].pts
  {
    var arrivals := Arrivals(stamps);
    ClampedIsLatest(arrivals, k);
    assert arrivals[k] + (k - k) <= stamps[k].pts;
    if k > 0 {
      ClampedIsLatest(arrivals, k - 1);
      assert stamps[k - 1].pts == Clamped(arrivals, k - 1);
    }
  }

  /** Between two rebaselines, the PTS of the k-th buffer that holds a slice is the largest of
      arrival j + (k - j) over the arrivals so far: never below its own arrival and strictly increasing. */
  lemma {:induction false} PtsClosedForm(format: Format, frameInterval: int, st: State, items: seq<Item>, n: nat,
                                         k: nat)
    requires n <= |items| && Interval(format, frameInterval, st, items, n)
    requires InRange(Arrivals(Stamps(format, frameInterval, st, items, n)))
    requires k < |Stamps(format, frameInterval, st, items, n)|
    ensures var stamps := Stamps(format, frameInterval, st, items, n);
            && IsLatest(Arrivals(stamps), k, stamps[k].pts)
            && stamps[k].arrival <= stamps[k].pts
            && (k > 0 ==> stamps[k - 1].pts < stamps[k].pts)
  {
    StampsAreLawful(format, frameInterval, st, items, n);
    LawfulStamp(Stamps(format, frameInterval, st, items, n), PtsTrail(format, frameInterval, st, items, n)[n], k);
  }

  // ---------- spaced deliveries keep their arrival times ----------

  /** One arrival time and the number of buffers with a slice that came with it. */
  datatype Burst = Burst(arrival: nat, count: nat)

  function Copies(x: nat, n: nat): seq<nat> {
    if n == 0 then [] else Copies(x, n - 1) + [x]
  }

  lemma {:induction false} CopiesAt(x: nat, n: nat)
    ensures |Copies(x, n)| == n && forall i :: 0 <= i < n ==> Copies(x, n)[i] == x
  {
    if n > 0 { CopiesAt(x, n - 1); }
  }

  /** The arrivals of the first `n` bursts, one per buffer. */
  function Spread(bursts: seq<Burst>, n: nat): seq<nat>
    requires n <= |bursts|
  {
    if n == 0 then [] else Spread(bursts, n - 1) + Copies(bursts[n - 1].arrival, bursts[n - 1].count)
  }

  /** Each burst comes later than the one before by at least that one's number of buffers. */
  predicate Spaced(bursts: seq<Burst>) {
    forall d :: 0 < d < |bursts| ==> bursts[d - 1].arrival + bursts[d - 1].count <= bursts[d].arrival
  }

  lemma {:induction false} SpacedBelow(bursts: seq<Burst>, n: nat, all: seq<nat>)
    requires n < |bursts| && Spaced(bursts)
    requires |Spread(bursts, n)| <= |all| && all[..|Spread(bursts, n)|] == Spread(bursts, n) && InRange(all)
    ensures Spread(bursts, n) != [] ==> Clamped(all, |Spread(bursts, n)| - 1) < bursts[n].arrival
    decreases n, 0
  {
    if n > 0 {
      var Burst(arrival, count) := bursts[n - 1];
      CopiesAt(arrival, count);
      var base := |Spread(bursts, n - 1)|;
      assert all[..base] == Spread(bursts, n)[..base] == Spread(bursts, n - 1);
      if count > 0 {
        SpacedInBurst(bursts, n - 1, all, count - 1);
      } else {
        SpacedBelow(bursts, n - 1, all);
      }
    }
  }

  /** When deliveries are spaced, buffer i of a delivery gets exactly its arrival time plus i. */
  lemma {:induction false} SpacedInBurst(bursts: seq<Burst>, d: nat, all: seq<nat>, i: nat)
    requires d < |bursts| && i < bursts[d].count && Spaced(bursts)
    requires |Spread(bursts, d + 1)| <= |all| && all[..|Spread(bursts, d + 1)|] == Spread(bursts, d + 1) && InRange(all)
    ensures |Spread(bursts, d)| + i < |all|
    ensures Clamped(all, |Spread(bursts, d)| + i) == bursts[d].arrival + i
    decreases d, i + 1
  {
    BurstAt(bursts, d, all, i);
    if i == 0 {
      SpacedBelow(bursts, d, all);
    } else {
      SpacedInBurst(bursts, d, all, i - 1);
    }
    ClampNext(all, |Spread(bursts, d)| + i);
  }

  lemma {:induction false} ClampNext(all: seq<nat>, k: nat)
    requires k < |all| && InRange(all)
    ensures k == 0 ==> Clamped(all, k) == all[k]
    ensures k > 0 ==> Clamped(all, k) == if all[k] <= Clamped(all, k - 1) then Clamped(all, k - 1) + 1 else all[k]
  {
    if k > 0 { ClampedIsLatest(all, k - 1); }
  }

  lemma {:induction false} BurstAt(bursts: seq<Burst>, d: nat, all: seq<nat>, i: nat)
    requires d < |bursts| && i < bursts[d].count
    requires |Spread(bursts, d + 1)| <= |all| && all[..|Spread(bursts, d + 1)|] == Spread(bursts, d + 1)
    ensures |Spread(bursts, d)| + i < |all|
    ensures all[|Spread(bursts, d)| + i] == bursts[d].arrival
    ensures all[..|Spread(bursts, d)|] == Spread(bursts, d)
  {
    var base := |Spread(bursts, d)|;
    CopiesAt(bursts[d].arrival, bursts[d].count);
    assert all[base + i] == Spread(bursts, d + 1)[base + i];
    assert all[..base] == Spread(bursts, d + 1)[..base];
  }

  lemma {:induction false} SpreadPrefix(bursts: seq<Burst>, d: nat, n: nat)
    requires d <= n <= |bursts|
    ensures |Spread(bursts, d)| <= |Spread(bursts, n)| && Spread(bursts, n)[..|Spread(bursts, d)|] == Spread(bursts, d)
  {
    if d < n { SpreadPrefix(bursts, d, n - 1); }
  }

  lemma {:induction false} SpacedStamp(stamps: seq<Stamp>, prevPts: nat, bursts: seq<Burst>, d: nat, i: nat)
    requires Lawful(stamps, prevPts) && Arrivals(stamps) == Spread(bursts, |bursts|) && Spaced(bursts)
    requires InRange(Spread(bursts, |bursts|)) && d < |bursts| && i < bursts[d].count
    ensures |Spread(bursts, d)| + i < |stamps| && stamps[|Spread(bursts, d)| + i].pts == bursts[d].arrival + i
  {
    SpreadPrefix(bursts, d + 1, |bursts|);
    SpacedInBurst(bursts, d, Spread(bursts, |bursts|), i);
    StampAt(stamps, |Spread(bursts, d)| + i);
  }

  lemma {:induction false} StampAt(stamps: seq<Stamp>, k: nat)
    requires FollowsClamp(stamps) && k < |Arrivals(stamps)|
    ensures k < |stamps| && stamps[k].pts == Clamped(Arrivals(stamps), k)
  {
  }

  // ---------- deliveries as bursts ----------

  /** The stamps of a delivery, access unit by access unit. */
  function DeliveryParts(format: Format, frameInterval: int, st: State, aus: seq<seq<NalUnit>>, ts: nat,
                         d: Delivery): seq<seq<Stamp>> {
    seq(|aus|, k requires 0 <= k < |aus| =>
      ItemStamp(format, frameInterval, RunAus(format, frameInterval, st, aus, k, ts, d).st,
                Au(aus[k], ts, InterferenceAt(d, k))))
  }

  function DeliveryTrail(format: Format, frameInterval: int, st: State, aus: seq<seq<NalUnit>>, ts: nat,
                         d: Delivery): seq<nat> {
    seq(|aus| + 1, k requires 0 <= k <= |aus| => RunAus(format, frameInterval, st, aus, k, ts, d).st.prevPts)
  }

  /** The stamps an event makes: those of an admitted delivery. */
  function EventStamps(format: Format, frameInterval: int, st: State, e: Event): seq<Stamp> {
    if e.Deliver? && Admitted(st, e.d.data) then
      Concat(DeliveryParts(format, frameInterval, LatchBase(st, e.d), AccessUnitsOf(format, e.d.data),
                           Arrival(st, e.d), e.d))
    else []
  }

  /** An admitted delivery as a burst: its arrival and its number of pushed slice-bearing access units. */
  function EventBursts(format: Format, frameInterval: int, st: State, e: Event): seq<Burst> {
    if e.Deliver? && Admitted(st, e.d.data) then
      [Burst(Arrival(st, e.d), |EventStamps(format, frameInterval, st, e)|)]
    else []
  }

  function RunParts(format: Format, frameInterval: int, st: State, events: seq<Event>): seq<seq<Stamp>> {
    seq(|events|, k requires 0 <= k < |events| =>
      EventStamps(format, frameInterval, Run(format, frameInterval, st, events, k).st, events[k]))
  }

  function RunTrail(format: Format, frameInterval: int, st: State, events: seq<Event>): seq<nat> {
    seq(|events| + 1, k requires 0 <= k <= |events| => Run(format, frameInterval, st, events, k).st.prevPts)
  }

  function BurstParts(format: Format, frameInterval: int, st: State, events: seq<Event>): seq<seq<Burst>> {
    seq(|events|, k requires 0 <= k < |events| =>
      EventBursts(format, frameInterval, Run(format, frameInterval, st, events, k).st, events[k]))
  }

  /** The stamps of a run of events, and its admitted deliveries as bursts. */
  function RunStamps(format: Format, frameInterval: int, st: State, events: seq<Event>): seq<Stamp> {
    Concat(RunParts(format, frameInterval, st, events))
  }

  function Bursts(format: Format, frameInterval: int, st: State, events: seq<Event>): seq<Burst> {
    Concat(BurstParts(format, frameInterval, st, events))
  }

  /** No other thread rebaselines from the commit to the last stamp of the delivery. */
  predicate Undisturbed(st: State, d: Delivery) {
    && (st.baseTime == CLOCK_NONE ==> !d.beforeCommit.rebase)
    && forall i :: 0 <= i < |d.beforeStamp| ==> !d.beforeStamp[i].rebase
  }

  predicate EventKeeps(st: State, e: Event) {
    match e
    case Deliver(d) => Undisturbed(st, d)
    case Elsewhere(other) => !other.rebase
    case Load(_) => true
    case _ => false
  }

  /** Event i of the run rebaselines nothing. */
  ghost predicate Keeps(format: Format, frameInterval: int, st: State, events: seq<Event>, i: nat)
    requires i < |events|
  {
    EventKeeps(Run(format, frameInterval, st, events, i).st, events[i])
  }

  lemma {:induction false} AuStamped(format: Format, frameInterval: int, st: State, au: seq<NalUnit>, ts: nat,
                                     other: Interference)
    requires !other.rebase
    ensures Stamped(st.prevPts, ItemStamp(format, frameInterval, st, Au(au, ts, other)),
                    AuStep(format, frameInterval, st, au, ts, other).st.prevPts)
  {
  }

  lemma {:induction false} AuKeepsLaw(format: Format, frameInterval: int, st: State, aus: seq<seq<NalUnit>>, ts: nat,
                                      d: Delivery, k: nat)
    requires k < |aus| && !InterferenceAt(d, k).rebase
    ensures var parts, trail := DeliveryParts(format, frameInterval, st, aus, ts, d),
            DeliveryTrail(format, frameInterval, st, aus, ts, d);
            KeepsLaw(trail[k], parts[k], trail[k + 1])
  {
    var mid := RunAus(format, frameInterval, st, aus, k, ts, d).st;
    AuStamped(format, frameInterval, mid, aus[k], ts, InterferenceAt(d, k));
    StampedKeepsLaw(mid.prevPts, ItemStamp(format, frameInterval, mid, Au(aus[k], ts, InterferenceAt(d, k))),
                    AuStep(format, frameInterval, mid, aus[k], ts, InterferenceAt(d, k)).st.prevPts);
  }

  lemma {:induction false} DeliveryKeepsLaw(format: Format, frameInterval: int, st: State, d: Delivery)
    requires Admitted(st, d.data) && Undisturbed(st, d)
    ensures KeepsLaw(st.prevPts, EventStamps(format, frameInterval, st, Deliver(d)),
                     Callback(format, frameInterval, st, d).st.prevPts)
  {
    var latched, aus, ts := LatchBase(st, d), AccessUnitsOf(format, d.data), Arrival(st, d);
    forall k | 0 <= k < |aus|
      ensures KeepsLaw(DeliveryTrail(format, frameInterval, latched, aus, ts, d)[k],
                       DeliveryParts(format, frameInterval, latched, aus, ts, d)[k],
                       DeliveryTrail(format, frameInterval, latched, aus, ts, d)[k + 1])
    {
      AuKeepsLaw(format, frameInterval, latched, aus, ts, d, k);
    }
    PartsKeepLaw(DeliveryParts(format, frameInterval, latched, aus, ts, d),
                 DeliveryTrail(format, frameInterval, latched, aus, ts, d));
  }

  lemma {:induction false} NothingKeepsLaw(prev: nat)
    ensures KeepsLaw(prev, [], prev)
  {
    forall before | Lawful(before, prev) ensures Lawful(before + [], prev) { assert before + [] == before; }
  }

  lemma {:induction false} EventKeepsLaw(format: Format, frameInterval: int, st: State, e: Event)
    requires EventKeeps(st, e)
    ensures KeepsLaw(st.prevPts, EventStamps(format, frameInterval, st, e),
                     EventStep(format, frameInterval, st, e).st.prevPts)
  {
    if e.Deliver? && Admitted(st, e.d.data) {
      DeliveryKeepsLaw(format, frameInterval, st, e.d);
    } else {
      NothingKeepsLaw(st.prevPts);
    }
  }

  lemma {:induction false} RunPartKeepsLaw(format: Format, frameInterval: int, st: State, events: seq<Event>, k: nat)
    requires k < |events| && Keeps(format, frameInterval, st, events, k)
    ensures var parts, trail := RunParts(format, frameInterval, st, events),
            RunTrail(format, frameInterval, st, events);
            KeepsLaw(trail[k], parts[k], trail[k + 1])
  {
    EventKeepsLaw(format, frameInterval, Run(format, frameInterval, st, events, k).st, events[k]);
  }

  /** The stamps of a run that rebaselines nothing are lawful behind lawful ones. */
  lemma {:induction false} RunIsLawful(format: Format, frameInterval: int, st: State, events: seq<Event>,
                                       before: seq<Stamp>)
    requires forall k :: 0 <= k < |events| ==> Keeps(format, frameInterval, st, events, k)
    requires Lawful(before, st.prevPts)
    ensures Lawful(before + RunStamps(format, frameInterval, st, events),
                   RunTrail(format, frameInterval, st, events)[|events|])
  {
    var parts, trail := RunParts(format, frameInterval, st, events), RunTrail(format, frameInterval, st, events);
    forall k | 0 <= k < |parts| ensures KeepsLaw(trail[k], parts[k], trail[k + 1]) {
      RunPartKeepsLaw(format, frameInterval, st, events, k);
    }
    PartsKeepLaw(parts, trail);
  }

  /** All of these arrive at ts. */
  predicate AllArrive(stamps: seq<Stamp>, ts: nat) {
    forall i :: 0 <= i < |stamps| ==> stamps[i].arrival == ts
  }

  lemma {:induction false} ConcatArrives(parts: seq<seq<Stamp>>, ts: nat)
    requires forall k :: 0 <= k < |parts| ==> AllArrive(parts[k], ts)
    ensures AllArrive(Concat(parts), ts)
  {
    if parts != [] {
      assert forall k :: 0 <= k < |parts[1..]| ==> parts[1..][k] == parts[k + 1];
      ConcatArrives(parts[1..], ts);
    }
  }

  lemma {:induction false} CopiesOf(stamps: seq<Stamp>, ts: nat)
    requires AllArrive(stamps, ts)
    ensures Arrivals(stamps) == Copies(ts, |stamps|)
  {
    CopiesAt(ts, |stamps|);
  }

  lemma {:induction false} PartArrives(format: Format, frameInterval: int, st: State, aus: seq<seq<NalUnit>>, ts: nat,
                                       d: Delivery, k: nat)
    requires k < |aus|
    ensures AllArrive(DeliveryParts(format, frameInterval, st, aus, ts, d)[k], ts)
  {
  }

  /** All stamps of a delivery arrive with it. */
  lemma {:induction false} DeliveryArrives(format: Format, frameInterval: int, st: State, aus: seq<seq<NalUnit>>,
                                           ts: nat, d: Delivery)
    ensures AllArrive(Concat(DeliveryParts(format, frameInterval, st, aus, ts, d)), ts)
  {
    forall k | 0 <= k < |aus| ensures AllArrive(DeliveryParts(format, frameInterval, st, aus, ts, d)[k], ts) {
      PartArrives(format, frameInterval, st, aus, ts, d, k);
    }
    ConcatArrives(DeliveryParts(format, frameInterval, st, aus, ts, d), ts);
  }

  /** The arrivals of these stamps are those of the bursts. */
  predicate ArriveAs(stamps: seq<Stamp>, bursts: seq<Burst>) {
    Arrivals(stamps) == Spread(bursts, |bursts|)
  }

  lemma {:induction false} OneBurst(stamps: seq<Stamp>, ts: nat)
    requires AllArrive(stamps, ts)
    ensures ArriveAs(stamps, [Burst(ts, |stamps|)])
  {
    CopiesOf(stamps, ts);
    var bursts := [Burst(ts, |stamps|)];
    assert Spread(bursts, 0) == [];
  }

  lemma {:induction false} EventArrives(format: Format, frameInterval: int, st: State, e: Event)
    ensures ArriveAs(EventStamps(format, frameInterval, st, e), EventBursts(format, frameInterval, st, e))
  {
    if e.Deliver? && Admitted(st, e.d.data) {
      DeliveryArrives(format, frameInterval, LatchBase(st, e.d), AccessUnitsOf(format, e.d.data), Arrival(st, e.d),
                      e.d);
      OneBurst(EventStamps(format, frameInterval, st, e), Arrival(st, e.d));
    }
  }

  lemma {:induction false} SpreadSame(a: seq<Burst>, b: seq<Burst>, n: nat)
    requires n <= |a|
    ensures Spread(a + b, n) == Spread(a, n)
  {
    if n > 0 { SpreadSame(a, b, n - 1); }
  }

  lemma {:induction false} SpreadAppend(a: seq<Burst>, b: seq<Burst>, n: nat)
    requires n <= |b|
    ensures Spread(a + b, |a| + n) == Spread(a, |a|) + Spread(b, n)
  {
    if n == 0 {
      SpreadSame(a, b, |a|);
      assert Spread(a, |a|) + [] == Spread(a, |a|);
    } else {
      SpreadAppend(a, b, n - 1);
      SpreadNext(a, b, n, |a| + n);
    }
  }

  lemma {:induction false} SpreadNext(a: seq<Burst>, b: seq<Burst>, n: nat, at: nat)
    requires 0 < n <= |b| && at == |a| + n
    requires Spread(a + b, at - 1) == Spread(a, |a|) + Spread(b, n - 1)
    ensures Spread(a + b, at) == Spread(a, |a|) + Spread(b, n)
  {
    assert (a + b)[at - 1] == b[n - 1];
    Assoc(Spread(a, |a|), Spread(b, n - 1), Copies(b[n - 1].arrival, b[n - 1].count));
  }

  lemma {:induction false} ArriveThen(a: seq<Stamp>, x: seq<Burst>, b: seq<Stamp>, y: seq<Burst>)
    requires ArriveAs(a, x) && ArriveAs(b, y)
    ensures ArriveAs(a + b, x + y)
  {
    SpreadAppend(x, y, |y|);
    assert Arrivals(a + b) == Arrivals(a) + Arrivals(b);
  }

  lemma {:induction false} PartsArrive(parts: seq<seq<Stamp>>, bursts: seq<seq<Burst>>)
    requires |parts| == |bursts| && forall k :: 0 <= k < |parts| ==> ArriveAs(parts[k], bursts[k])
    ensures ArriveAs(Concat(parts), Concat(bursts))
  {
    if parts != [] {
      assert forall k :: 0 <= k < |parts[1..]| ==> parts[1..][k] == parts[k + 1] && bursts[1..][k] == bursts[k + 1];
      PartsArrive(parts[1..], bursts[1..]);
      ArriveThen(parts[0], bursts[0], Concat(parts[1..]), Concat(bursts[1..]));
    }
  }

  /** The stamps of a run arrive as its deliveries say. */
  lemma {:induction false} RunArrives(format: Format, frameInterval: int, st: State, events: seq<Event>)
    ensures ArriveAs(RunStamps(format, frameInterval, st, events), Bursts(format, frameInterval, st, events))
  {
    var parts, bursts := RunParts(format, frameInterval, st, events), BurstParts(format, frameInterval, st, events);
    forall k | 0 <= k < |parts| ensures ArriveAs(parts[k], bursts[k]) {
      EventArrives(format, frameInterval, Run(format, frameInterval, st, events, k).st, events[k]);
    }
    PartsArrive(parts, bursts);
  }

  /** Over any run of events that rebaselines nothing, behind stamps of one delivery already made since the rebaseline
      (none when `first` counts none): when each delivery arrives later than the one before by at least that one's
      number of pushed slice-bearing access units, the i-th such unit of a delivery is stamped with exactly its arrival
      plus i. */
  lemma {:induction false} SpacedRunKeepsArrival(format: Format, frameInterval: int, st: State, events: seq<Event>,
                                                 before: seq<Stamp>, first: Burst, d: nat, i: nat)
    requires forall k :: 0 <= k < |events| ==> Keeps(format, frameInterval, st, events, k)
    requires Lawful(before, st.prevPts) && |before| == first.count && AllArrive(before, first.arrival)
    requires var bursts := [first] + Bursts(format, frameInterval, st, events);
             Spaced(bursts) && InRange(Spread(bursts, |bursts|)) && d < |bursts| && i < bursts[d].count
    ensures var bursts := [first] + Bursts(format, frameInterval, st, events);
            var stamps := before + RunStamps(format, frameInterval, st, events);
            |Spread(bursts, d)| + i < |stamps| && stamps[|Spread(bursts, d)| + i].pts == bursts[d].arrival + i
  {
    RunIsLawful(format, frameInterval, st, events, before);
    RunArrives(format, frameInterval, st, events);
    OneBurst(before, first.arrival);
    ArriveThen(before, [first], RunStamps(format, frameInterval, st, events),
               Bursts(format, frameInterval, st, events));
    SpacedStamp(before + RunStamps(format, frameInterval, st, events),
                RunTrail(format, frameInterval, st, events)[|events|],
                [first] + Bursts(format, frameInterval, st, events), d, i);
  }

  // ---------- the rebaseline that is lost ----------

  /** A rebaseline in front of the callback's base-time commit loses its base time: the commit puts back the one read
      before, and the next delivery is timed against it. It comes out right only where the element's base time did not
      change, modulo the clock's width. The PTS baseline is not lost. */
  lemma {:induction false} RebaselineBeforeCommit(st: State, d: Delivery, next: Delivery)
    requires st.baseTime == CLOCK_NONE && d.beforeCommit.rebase && d.elementBase != CLOCK_NONE
    ensures LatchBase(st, d).baseTime == d.elementBase && LatchBase(st, d).prevPts == CLOCK_NONE
    ensures Arrival(LatchBase(st, d), next) == Arrival(LatchBase(st, d).(baseTime := CLOCK_NONE), next)
            <==> d.elementBase % TWO_TO_64 == next.elementBase % TWO_TO_64
  {
    SameDifference(next.now, d.elementBase, next.elementBase);
  }

  lemma {:induction false} SameDifference(now: nat, a: nat, b: nat)
    ensures (now - a) % TWO_TO_64 == (now - b) % TWO_TO_64 <==> a % TWO_TO_64 == b % TWO_TO_64
  {
  }

  /** The clock is set while a callback has read base time 1000 and not committed it, and the new base time is 2000:
      the next frame is timed against 1000, a thousand too late. */
  lemma {:induction false} LostRebaseline(st: State, data: seq<byte>)
    requires st.baseTime == CLOCK_NONE
    ensures var d := Delivery(data, 5000, 1000, Interference(true, Some(true)), []);
            var next := Delivery(data, 9000, 2000, NoInterference, []);
            && Arrival(LatchBase(st, d), next) == 8000
            && Arrival(LatchBase(st, d).(baseTime := CLOCK_NONE), next) == 7000
  {
    assert 8000 % TWO_TO_64 == 8000 && 7000 % TWO_TO_64 == 7000;
  }
}
