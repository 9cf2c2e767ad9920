/** The selection loop of caps negotiation (gstlibuvch264src.c:594-611, 694-786, 802-807): one pass over the device's
    frame descriptors with a running best, and the ladder of deliverable modes it publishes on the way. */
module Negotiate {
  import opened Bytes
  import opened AnnexB
  import opened Quirks

  // ---------- what the device and the peer offer ----------

  /** A frame descriptor: a zero-terminated list of intervals in units of 100 ns, or a continuous range. */
  datatype FrameDesc = FrameDesc(width: nat, height: nat, intervals: Option<seq<nat>>, minInterval: nat,
                                 maxInterval: nat)

  datatype FormatDesc = FormatDesc(format: Format, frames: seq<FrameDesc>)

  /** The rates one structure of the peer's caps allows. */
  datatype RateSet = AnyRate | Between(lo: Fraction, hi: Fraction) | OneOf(rates: seq<Fraction>)

  /** One structure of the caps that are left after the peer was asked: codec, geometry, rates. */
  datatype Choice = Choice(format: Format, takes: (nat, nat) -> bool, rates: RateSet)

  /** A frame descriptor in its place: one structure serves all descriptors of a format, and `held` is the framerate
      it holds when this one is reached. */
  datatype Desc = Desc(format: Format, frame: FrameDesc, held: Rates)

  const HUNDRED_NS_PER_SECOND: nat := 10_000_000

  function FpsOf(interval: nat): nat
    requires interval > 0
  {
    HUNDRED_NS_PER_SECOND / interval
  }

  /** The listed rates in order, up to the zero that ends the list. */
  function ListedRates(intervals: seq<nat>): seq<Fraction> {
    if intervals == [] || intervals[0] == 0 then []
    else [Fraction(FpsOf(intervals[0]), 1)] + ListedRates(intervals[1..])
  }

  function MediaOf(format: Format): string {
    if format == H264 then "video/x-h264" else "video/x-h265"
  }

  /** What a descriptor advertises, None for a zero interval in a continuous one. */
  function OwnRates(frame: FrameDesc): Option<Rates> {
    if frame.intervals.Some? then Some(List(ListedRates(frame.intervals.value)))
    else if frame.minInterval == 0 || frame.maxInterval == 0 then None
    else Some(Range(Fraction(FpsOf(frame.maxInterval), 1), Fraction(FpsOf(frame.minInterval), 1)))
  }

  /** The framerate of the structure behind a descriptor: a range that is not one is refused, and what was there
      stays. */
  function HeldAfter(held: Rates, frame: FrameDesc): Rates {
    match OwnRates(frame)
    case None => held
    case Some(own) => if own.Range? then WithRange(held, own.min, own.max) else own
  }

  /** The framerate of the structure in front of frame i: none before the first. */
  function HeldBefore(frames: seq<FrameDesc>, i: nat): Rates
    requires i <= |frames|
  {
    if i == 0 then NoRates else HeldAfter(HeldBefore(frames, i - 1), frames[i - 1])
  }

  /** The mode a descriptor stands for, None when it is skipped. */
  function ModeOf(desc: Desc): Option<Mode> {
    if OwnRates(desc.frame).None? then None
    else
      Some(Mode(MediaOf(desc.format), Some(desc.frame.width), Some(desc.frame.height),
                HeldAfter(desc.held, desc.frame)))
  }

  // ---------- intersection and fixation ----------

  predicate ListAllows(list: seq<Fraction>, r: Fraction) {
    list != [] && (SameRate(list[0], r) || ListAllows(list[1..], r))
  }

  predicate Admits(rates: RateSet, r: Fraction) {
    match rates
    case AnyRate => true
    case Between(lo, hi) => AtMost(lo, r) && AtMost(r, hi)
    case OneOf(list) => ListAllows(list, r)
  }

  function OnlyAdmitted(list: seq<Fraction>, rates: RateSet): seq<Fraction> {
    if list == [] then []
    else (if Admits(rates, list[0]) then [list[0]] else []) + OnlyAdmitted(list[1..], rates)
  }

  function Larger(a: Fraction, b: Fraction): Fraction {
    if AtMost(a, b) then b else a
  }

  function Smaller(a: Fraction, b: Fraction): Fraction {
    if AtMost(a, b) then a else b
  }

  /** There is something to fixate. */
  predicate Fixable(rates: Rates) {
    rates.Range? || (rates.List? && rates.rates != [])
  }

  /** The framerate field of the intersection, None when the two have nothing in common; a field that only one side
      has is taken over. */
  function Meet(rates: Rates, other: RateSet): (common: Option<Rates>)
    ensures common.Some? ==> Fixable(common.value) || (rates.NoRates? && common.value.NoRates?)
  {
    match rates
    case NoRates =>
      (match other
       case AnyRate => Some(NoRates)
       case Between(lo, hi) => Some(Range(lo, hi))
       case OneOf(list) => if list == [] then None else Some(List(list)))
    case List(list) =>
      var common := OnlyAdmitted(list, other);
      if common == [] then None else Some(List(common))
    case Range(min, max) =>
      (match other
       case AnyRate => Some(rates)
       case Between(lo, hi) =>
         var lo', hi' := Larger(min, lo), Smaller(max, hi);
         if AtMost(lo', hi') then Some(Range(lo', hi')) else None
       case OneOf(list) =>
         var common := OnlyAdmitted(list, Between(min, max));
         if common == [] then None else Some(List(common)))
    case _ => None
  }

  function Distance(r: Fraction, target: int): nat {
    if r.num >= target * r.den then r.num - target * r.den else target * r.den - r.num
  }

  /** a is strictly nearer to the target than b. */
  predicate Nearer(a: Fraction, b: Fraction, target: int) {
    Distance(a, target) * b.den < Distance(b, target) * a.den
  }

  function Nearest(list: seq<Fraction>, target: int): Fraction
    requires list != []
  {
    if |list| == 1 then list[0]
    else
      var best, last := Nearest(list[..|list| - 1], target), list[|list| - 1];
      if Nearer(last, best, target) then last else best
  }

  function Fixate(rates: Rates, target: int): Fraction
    requires Fixable(rates)
  {
    match rates
    case List(list) => Nearest(list, target)
    case Range(min, max) =>
      if AtMost(Fraction(target, 1), min) then min
      else if AtMost(max, Fraction(target, 1)) then max
      else Fraction(target, 1)
  }

  /** gst_libuvc_h264_src_top_rate(): -1 for a range. */
  function TopOf(list: seq<Fraction>): int {
    if list == [] then -1
    else
      var top, last := TopOf(list[..|list| - 1]), list[|list| - 1];
      if last.den > 0 && last.num >= 0 && last.num / last.den > top then last.num / last.den else top
  }

  function TopRate(rates: Rates): int {
    if rates.List? then TopOf(rates.rates) else -1
  }

  /** The first structure of the peer's caps that intersects the mode, and what it leaves of the rates. */
  function FirstMeet(caps: seq<Choice>, desc: Desc, rates: Rates): (common: Option<Rates>)
    ensures common.Some? ==> Fixable(common.value) || (rates.NoRates? && common.value.NoRates?)
  {
    if caps == [] then None
    else if caps[0].format == desc.format && caps[0].takes(desc.frame.width, desc.frame.height)
      && Meet(rates, caps[0].rates).Some?
    then Meet(rates, caps[0].rates)
    else FirstMeet(caps[1..], desc, rates)
  }

  // ---------- candidates and the running best ----------

  /** A mode that can be selected: its geometry, its own top rate, and the rate it fixates to. */
  datatype Candidate = Candidate(format: Format, width: nat, height: nat, top: int, rate: Fraction)

  function Delivered(limits: Option<Limits>, desc: Desc): seq<Mode> {
    if ModeOf(desc).None? then [] else Deliverable(limits, [ModeOf(desc).value])
  }

  function CandidateOf(limits: Option<Limits>, caps: seq<Choice>, desc: Desc): Option<Candidate> {
    var delivered := Delivered(limits, desc);
    if delivered == [] then None
    else
      var rates := delivered[0].rates;
      var common := FirstMeet(caps, desc, rates);
      if common.None? || common.value.NoRates? then None
      else Some(Candidate(desc.format, desc.frame.width, desc.frame.height, TopRate(rates),
                          Fixate(common.value, TopRate(rates))))
  }

  function Area(c: Candidate): nat {
    c.width * c.height
  }

  /** Integer division of non-negative gints. */
  function Floor(f: Fraction): int {
    if f.num < 0 || f.den <= 0 then 0 else f.num / f.den
  }

  /** width, height, framerate and best_caps as the loop holds them. */
  datatype Best = Best(width: int, height: int, framerate: int, pick: Option<Candidate>)

  const NoneYet := Best(-1, -1, -1, None)

  function Consider(best: Best, c: Candidate): Best {
    if Area(c) > best.width * best.height || (Area(c) == best.width * best.height && c.top > best.framerate) then
      Best(c.width, c.height, Floor(c.rate), Some(c))
    else best
  }

  function Select(cs: seq<Candidate>, n: nat): Best
    requires n <= |cs|
  {
    if n == 0 then NoneYet else Consider(Select(cs, n - 1), cs[n - 1])
  }

  /** What the selection ends with. */
  function Negotiated(limits: Option<Limits>, caps: seq<Choice>, descs: seq<Desc>): Best {
    var cs := Candidates(limits, caps, descs);
    Select(cs, |cs|)
  }

  /** The H.264 and H.265 descriptors in the order they are visited. */
  function Flatten(formats: seq<FormatDesc>): seq<Desc> {
    if formats == [] then []
    else Flatten(formats[..|formats| - 1]) + DescsOf(formats[|formats| - 1])
  }

  function DescsOf(format: FormatDesc): seq<Desc> {
    if format.format == OtherFormat then []
    else
      seq(|format.frames|, i requires 0 <= i < |format.frames| =>
        Desc(format.format, format.frames[i], HeldBefore(format.frames, i)))
  }

  function Candidates(limits: Option<Limits>, caps: seq<Choice>, descs: seq<Desc>): seq<Candidate> {
    if descs == [] then []
    else
      var rest, last := Candidates(limits, caps, descs[..|descs| - 1]), CandidateOf(limits, caps, descs[|descs| - 1]);
      if last.Some? then rest + [last.value] else rest
  }

  function Modes(descs: seq<Desc>): seq<Mode> {
    if descs == [] then []
    else
      var rest, last := Modes(descs[..|descs| - 1]), ModeOf(descs[|descs| - 1]);
      if last.Some? then rest + [last.value] else rest
  }

  // ---------- the rates a structure can hold ----------

  /** A whole number of frames a second, as 10^7 over an interval gives. */
  predicate IsWhole(f: Fraction) {
    f.den == 1 && 0 <= f.num <= HUNDRED_NS_PER_SECOND
  }

  /** Nothing, a range that GStreamer accepts, or a list, of whole rates. */
  ghost predicate Whole(rates: Rates) {
    match rates
    case NoRates => true
    case Range(min, max) => IsWhole(min) && IsWhole(max) && Below(min, max)
    case List(list) => forall i :: 0 <= i < |list| ==> IsWhole(list[i])
    case _ => false
  }

  lemma {:induction false} FpsIsWhole(interval: nat)
    requires interval > 0
    ensures IsWhole(Fraction(FpsOf(interval), 1))
  {
    DivAdjoint(interval, HUNDRED_NS_PER_SECOND, HUNDRED_NS_PER_SECOND + 1);
    MulMonotone(1, interval, HUNDRED_NS_PER_SECOND + 1);
  }

  lemma {:induction false} ListedAreWhole(intervals: seq<nat>)
    ensures Whole(List(ListedRates(intervals)))
  {
    if intervals != [] && intervals[0] != 0 {
      ListedAreWhole(intervals[1..]);
      FpsIsWhole(intervals[0]);
    }
  }

  lemma {:induction false} HeldIsWhole(held: Rates, frame: FrameDesc)
    requires Whole(held)
    ensures Whole(HeldAfter(held, frame))
  {
    if frame.intervals.Some? {
      ListedAreWhole(frame.intervals.value);
    } else if frame.minInterval != 0 && frame.maxInterval != 0 {
      FpsIsWhole(frame.minInterval);
      FpsIsWhole(frame.maxInterval);
    }
  }

  lemma {:induction false} HeldBeforeIsWhole(frames: seq<FrameDesc>, i: nat)
    requires i <= |frames|
    ensures Whole(HeldBefore(frames, i))
  {
    if i > 0 {
      HeldBeforeIsWhole(frames, i - 1);
      HeldIsWhole(HeldBefore(frames, i - 1), frames[i - 1]);
    }
  }

  // ---------- the loop ----------

  method ListRates(intervals: seq<nat>) returns (rates: seq<Fraction>)
    ensures rates == ListedRates(intervals)
  {
    rates := [];
    var i := 0;
    while i < |intervals| && intervals[i] != 0
      invariant 0 <= i <= |intervals| && rates + ListedRates(intervals[i..]) == ListedRates(intervals)
    {
      assert intervals[i..][1..] == intervals[i + 1..];
      Assoc(rates, [Fraction(FpsOf(intervals[i]), 1)], ListedRates(intervals[i + 1..]));
      rates := rates + [Fraction(FpsOf(intervals[i]), 1)];
      i := i + 1;
    }
    assert rates + [] == rates;
  }

  method FindTopRate(rates: Rates) returns (top: int)
    ensures top == TopRate(rates)
  {
    if !rates.List? { return -1; }
    top := -1;
    for i := 0 to |rates.rates|
      invariant top == TopOf(rates.rates[..i])
    {
      var rate := rates.rates[i];
      assert rates.rates[..i + 1][..i] == rates.rates[..i];
      if rate.den > 0 && rate.num >= 0 && rate.num / rate.den > top { top := rate.num / rate.den; }
    }
    assert rates.rates[..|rates.rates|] == rates.rates;
  }

  /** One descriptor: write its rates into the structure, filter the mode, append what is left to the ladder, select it
      if it beats the running best. */
  method Visit(limits: Option<Limits>, caps: seq<Choice>, desc: Desc, ladder: seq<Mode>, best: Best)
    returns (held': Rates, ladder': seq<Mode>, best': Best)
    requires Whole(desc.held)
    ensures held' == HeldAfter(desc.held, desc.frame) && Whole(held')
    ensures ladder' == ladder + Delivered(limits, desc)
    ensures var c := CandidateOf(limits, caps, desc);
            best' == if c.Some? then Consider(best, c.value) else best
  {
    held', ladder', best' := desc.held, ladder, best;
    var frame := desc.frame;
    HeldIsWhole(desc.held, frame);
    if frame.intervals.Some? {
      var listed := ListRates(frame.intervals.value);
      held' := List(listed);
    } else {
      if frame.minInterval == 0 || frame.maxInterval == 0 { return; }
      held' := WithRange(held', Fraction(FpsOf(frame.maxInterval), 1), Fraction(FpsOf(frame.minInterval), 1));
    }
    ladder', best' := Offer(limits, caps, desc, held', ladder, best);
  }

  /** The rest of the turn, with the rates in the structure. */
  method Offer(limits: Option<Limits>, caps: seq<Choice>, desc: Desc, rates: Rates, ladder: seq<Mode>, best: Best)
    returns (ladder': seq<Mode>, best': Best)
    requires OwnRates(desc.frame).Some? && rates == HeldAfter(desc.held, desc.frame) && Whole(rates)
    ensures ladder' == ladder + Delivered(limits, desc)
    ensures var c := CandidateOf(limits, caps, desc);
            best' == if c.Some? then Consider(best, c.value) else best
  {
    ladder', best' := ladder, best;
    var frame := desc.frame;
    var resolution := frame.width * frame.height;
    var advertised := new Caps([Mode(MediaOf(desc.format), Some(frame.width), Some(frame.height), rates)]);
    var deliverable := FilterCaps(limits, advertised);
    if |deliverable.modes| == 0 { return; }
    ladder' := ladder + deliverable.modes;
    var fps := FindTopRate(deliverable.modes[0].rates);
    var common := FirstMeet(caps, desc, deliverable.modes[0].rates);
    if common.Some? && !common.value.NoRates? {
      if resolution > best.width * best.height || (resolution == best.width * best.height && fps > best.framerate) {
        var rate := Fixate(common.value, fps);
        best' := Best(frame.width, frame.height, Floor(rate),
                      Some(Candidate(desc.format, frame.width, frame.height, fps, rate)));
      }
    }
  }

  /** The ladder and the running best after the descriptors visited so far. */
  ghost predicate Progress(limits: Option<Limits>, caps: seq<Choice>, descs: seq<Desc>, ladder: seq<Mode>, best: Best) {
    var cs := Candidates(limits, caps, descs);
    ladder == Deliverable(limits, Modes(descs)) && best == Select(cs, |cs|)
  }

  lemma {:induction false} ProgressStep(limits: Option<Limits>, caps: seq<Choice>, descs: seq<Desc>,
                                        ladder: seq<Mode>, best: Best, desc: Desc)
    requires Progress(limits, caps, descs, ladder, best)
    ensures var c := CandidateOf(limits, caps, desc);
            Progress(limits, caps, descs + [desc], ladder + Delivered(limits, desc),
                     if c.Some? then Consider(best, c.value) else best)
  {
    LadderGrows(limits, descs, desc);
    BestGrows(limits, caps, descs, desc);
  }

  /** The inner loop over one format's frames. */
  method VisitFormat(limits: Option<Limits>, caps: seq<Choice>, format: FormatDesc, ghost descs: seq<Desc>,
                     ladder: seq<Mode>, best: Best)
    returns (ladder': seq<Mode>, best': Best)
    requires format.format != OtherFormat && Progress(limits, caps, descs, ladder, best)
    ensures Progress(limits, caps, descs + DescsOf(format), ladder', best')
  {
    ladder', best' := ladder, best;
    var held := NoRates;
    ghost var mine := DescsOf(format);
    assert descs + mine[..0] == descs;
    for k := 0 to |format.frames|
      invariant Progress(limits, caps, descs + mine[..k], ladder', best')
      invariant held == HeldBefore(format.frames, k) && Whole(held)
    {
      var desc := Desc(format.format, format.frames[k], held);
      assert mine[k] == desc && mine[..k + 1] == mine[..k] + [desc];
      ProgressStep(limits, caps, descs + mine[..k], ladder', best', desc);
      Assoc(descs, mine[..k], [desc]);
      held, ladder', best' := Visit(limits, caps, desc, ladder', best');
    }
    assert mine[..|format.frames|] == mine;
  }

  /** The device has a format with one of the two codecs. */
  predicate HasCodec(formats: seq<FormatDesc>) {
    formats != [] && (HasCodec(formats[..|formats| - 1]) || formats[|formats| - 1].format != OtherFormat)
  }

  lemma {:induction false} FlattenStep(formats: seq<FormatDesc>, f: nat)
    requires f < |formats|
    ensures Flatten(formats[..f + 1]) == Flatten(formats[..f]) + DescsOf(formats[f])
    ensures formats[f].format == OtherFormat ==> Flatten(formats[..f + 1]) == Flatten(formats[..f])
    ensures HasCodec(formats[..f + 1]) <==> HasCodec(formats[..f]) || formats[f].format != OtherFormat
  {
    assert formats[..f + 1][..f] == formats[..f];
  }

  /** The outer loop over the device's formats: other codecs are passed over. */
  method SelectMode(limits: Option<Limits>, caps: seq<Choice>, formats: seq<FormatDesc>)
    returns (ladder: seq<Mode>, best: Best, foundCodec: bool)
    ensures ladder == Deliverable(limits, Modes(Flatten(formats)))
    ensures best == Negotiated(limits, caps, Flatten(formats))
    ensures foundCodec <==> HasCodec(formats)
  {
    ladder, best, foundCodec := [], NoneYet, false;
    for f := 0 to |formats|
      invariant Progress(limits, caps, Flatten(formats[..f]), ladder, best)
      invariant foundCodec <==> HasCodec(formats[..f])
    {
      FlattenStep(formats, f);
      if formats[f].format == OtherFormat { continue; }
      foundCodec := true;
      ladder, best := VisitFormat(limits, caps, formats[f], Flatten(formats[..f]), ladder, best);
    }
    assert formats[..|formats|] == formats;
  }

  lemma {:induction false} LadderGrows(limits: Option<Limits>, descs: seq<Desc>, desc: Desc)
    ensures Deliverable(limits, Modes(descs + [desc])) == Deliverable(limits, Modes(descs)) + Delivered(limits, desc)
  {
    assert (descs + [desc])[..|descs|] == descs;
    if ModeOf(desc).Some? { DeliverableAppend(limits, Modes(descs), [ModeOf(desc).value]); }
  }

  lemma {:induction false} SelectPrefix(cs: seq<Candidate>, more: seq<Candidate>, n: nat)
    requires n <= |cs|
    ensures Select(cs + more, n) == Select(cs, n)
  {
    if n > 0 { SelectPrefix(cs, more, n - 1); }
  }

  lemma {:induction false} BestGrows(limits: Option<Limits>, caps: seq<Choice>, descs: seq<Desc>, desc: Desc)
    ensures var before, after := Candidates(limits, caps, descs), Candidates(limits, caps, descs + [desc]);
            var c := CandidateOf(limits, caps, desc);
            Select(after, |after|) == if c.Some? then Consider(Select(before, |before|), c.value)
              else Select(before, |before|)
  {
    assert (descs + [desc])[..|descs|] == descs;
    var before, c := Candidates(limits, caps, descs), CandidateOf(limits, caps, desc);
    if c.Some? { SelectPrefix(before, [c.value], |before|); }
  }

  // ---------- what is selected ----------

  /** The running best is one of the candidates, or the state before the first. */
  lemma {:induction false} SelectedIsCandidate(cs: seq<Candidate>, n: nat)
    requires n <= |cs|
    ensures var best := Select(cs, n);
            if best.pick.None? then best == NoneYet
            else
              var c := best.pick.value;
              && c in cs[..n] && best == Best(c.width, c.height, Floor(c.rate), Some(c))
              && (Area(c) > 1 || (Area(c) == 1 && c.top >= 0))
  {
    if n > 0 {
      SelectedIsCandidate(cs, n - 1);
      assert cs[..n] == cs[..n - 1] + [cs[n - 1]];
    }
  }

  /** The greatest area of the first n candidates; the running best starts at (-1) * (-1). */
  function GreatestArea(cs: seq<Candidate>, n: nat): (area: nat)
    requires n <= |cs|
    ensures area >= 1
  {
    if n == 0 then 1 else Max(GreatestArea(cs, n - 1), Area(cs[n - 1]))
  }

  /** No candidate has a larger area than the one selected. */
  lemma {:induction false} SelectedAreaIsMaximal(cs: seq<Candidate>, n: nat)
    requires n <= |cs|
    ensures Select(cs, n).width * Select(cs, n).height == GreatestArea(cs, n)
    ensures forall i :: 0 <= i < n ==> Area(cs[i]) <= GreatestArea(cs, n)
  {
    if n > 0 { SelectedAreaIsMaximal(cs, n - 1); }
  }

  /** Nothing is selected exactly when every candidate is empty, or a single pixel with a continuous range: the
      running best starts at (-1) * (-1). */
  lemma {:induction false} NothingSelectedIff(cs: seq<Candidate>, n: nat)
    requires n <= |cs|
    ensures Select(cs, n).pick.None? <==> forall i :: 0 <= i < n ==>
              Area(cs[i]) == 0 || (Area(cs[i]) == 1 && cs[i].top < 0)
  {
    if n > 0 {
      NothingSelectedIff(cs, n - 1);
      SelectedIsCandidate(cs, n - 1);
      SelectedIsCandidate(cs, n);
    }
  }

  // ---------- ties ----------

  /** A listed rate: whole, and at most the mode's own top rate. */
  predicate Discrete(c: Candidate) {
    c.rate.den == 1 && 0 <= c.rate.num <= c.top
  }

  /** Going back from candidate n, the first of area `area` that either attains rate m or advertises more attains m. */
  predicate Attained(cs: seq<Candidate>, n: nat, area: nat, m: int)
    requires n <= |cs|
  {
    n > 0 &&
    var c := cs[n - 1];
    if Area(c) != area || (Floor(c.rate) != m && c.top <= m) then Attained(cs, n - 1, area, m) else Floor(c.rate) == m
  }

  lemma {:induction false} AttainedMeans(cs: seq<Candidate>, n: nat, area: nat, m: int)
    requires n <= |cs|
    ensures Attained(cs, n, area, m) <==>
            exists k :: 0 <= k < n && Area(cs[k]) == area && Floor(cs[k].rate) == m
                        && forall j :: k < j < n && Area(cs[j]) == area && Floor(cs[j].rate) != m ==> cs[j].top <= m
  {
    if n > 0 { AttainedMeans(cs, n - 1, area, m); }
  }

  /** No candidate of the greatest area fixates above m. */
  ghost predicate AtMostRate(cs: seq<Candidate>, m: int) {
    forall i :: 0 <= i < |cs| && Area(cs[i]) == GreatestArea(cs, |cs|) ==> Floor(cs[i].rate) <= m
  }

  lemma {:induction false} RateIsMaximalAt(cs: seq<Candidate>, n: nat, area: nat, m: int)
    requires n <= |cs| && m >= 0 && GreatestArea(cs, n) == area
    requires forall i :: 0 <= i < n ==> Discrete(cs[i]) && (Area(cs[i]) == area ==> Floor(cs[i].rate) <= m)
    ensures Select(cs, n).framerate <= m
    ensures Select(cs, n).framerate == m <==> Attained(cs, n, area, m)
  {
    if n > 0 {
      SelectedAreaIsMaximal(cs, n - 1);
      if GreatestArea(cs, n - 1) == area {
        RateIsMaximalAt(cs, n - 1, area, m);
      } else {
        NoneOfArea(cs, n - 1, area, m);
      }
    }
  }

  /** Among the modes of the greatest area the selection ends at the greatest rate m that any of them fixates to
      exactly when no mode that advertises more than m, but is held below m by the peer, comes behind the last one
      that attains m: the loop compares a mode's own top rate with the rate already fixated. */
  lemma {:induction false} RateIsMaximalIff(cs: seq<Candidate>, n: nat, m: int)
    requires n == |cs| && m >= 0 && AtMostRate(cs, m) && forall i :: 0 <= i < n ==> Discrete(cs[i])
    ensures Select(cs, n).framerate <= m
    ensures Select(cs, n).framerate == m <==> Attained(cs, n, GreatestArea(cs, n), m)
  {
    RateIsMaximalAt(cs, n, GreatestArea(cs, n), m);
  }

  lemma {:induction false} NoneOfArea(cs: seq<Candidate>, n: nat, area: nat, m: int)
    requires n <= |cs| && forall i :: 0 <= i < n ==> Area(cs[i]) != area
    ensures !Attained(cs, n, area, m)
  {
    if n > 0 { NoneOfArea(cs, n - 1, area, m); }
  }

  /** When every candidate fixates to its own top rate, as it does when the peer leaves the rate free, the selection
      is the greatest in area, then in rate. */
  lemma {:induction false} RateFreeIsLexicographic(cs: seq<Candidate>, n: nat, i: nat)
    requires n <= |cs| && i < n
    requires forall k :: 0 <= k < n ==> Discrete(cs[k]) && cs[k].rate.num == cs[k].top
    ensures var best := Select(cs, n);
            || Area(cs[i]) < best.width * best.height
            || (Area(cs[i]) == best.width * best.height && cs[i].top <= best.framerate)
  {
    SelectedAreaIsMaximal(cs, n);
    SelectedAreaIsMaximal(cs, n - 1);
    if i < n - 1 { RateFreeIsLexicographic(cs, n - 1, i); }
  }

  // ---------- the selected mode against what was asked and offered ----------

  /** A descriptor of H.264 or H.265 with 16-bit geometry, in a structure that holds what some descriptor left. */
  ghost predicate ProperDesc(desc: Desc) {
    && desc.format != OtherFormat && desc.frame.width < 0x1_0000 && desc.frame.height < 0x1_0000
    && Whole(desc.held)
  }

  ghost predicate Geometry(formats: seq<FormatDesc>) {
    forall f, i :: 0 <= f < |formats| && 0 <= i < |formats[f].frames| ==>
        formats[f].frames[i].width < 0x1_0000 && formats[f].frames[i].height < 0x1_0000
  }

  /** The descriptors of every device are proper. */
  lemma {:induction false} FlattenIsProper(formats: seq<FormatDesc>)
    requires Geometry(formats)
    ensures forall i :: 0 <= i < |Flatten(formats)| ==> ProperDesc(Flatten(formats)[i])
  {
    if formats != [] {
      var rest, last := formats[..|formats| - 1], formats[|formats| - 1];
      assert forall f :: 0 <= f < |rest| ==> rest[f] == formats[f];
      FlattenIsProper(rest);
      forall i | 0 <= i < |DescsOf(last)| ensures ProperDesc(DescsOf(last)[i]) { HeldBeforeIsWhole(last.frames, i); }
    }
  }

  ghost predicate ProperSet(rates: RateSet) {
    match rates
    case AnyRate => true
    case Between(lo, hi) => IsFraction(lo) && IsFraction(hi) && AtMost(lo, hi)
    case OneOf(list) => forall i :: 0 <= i < |list| ==> IsFraction(list[i])
  }

  ghost predicate ProperCaps(caps: seq<Choice>) {
    forall i :: 0 <= i < |caps| ==> ProperSet(caps[i].rates)
  }

  lemma {:induction false} CandidatesAre(limits: Option<Limits>, caps: seq<Choice>, descs: seq<Desc>, c: Candidate)
    ensures c in Candidates(limits, caps, descs) <==>
            exists i :: 0 <= i < |descs| && CandidateOf(limits, caps, descs[i]) == Some(c)
  {
    if descs != [] {
      var n := |descs| - 1;
      CandidatesAre(limits, caps, descs[..n], c);
      assert forall i :: 0 <= i < n ==> descs[..n][i] == descs[i];
    }
  }

  lemma {:induction false} ModeIsWhole(desc: Desc)
    requires ProperDesc(desc) && ModeOf(desc).Some?
    ensures var rates := ModeOf(desc).value.rates; Whole(rates) && (rates.NoRates? || ProperRates(rates))
  {
    HeldIsWhole(desc.held, desc.frame);
  }

  lemma {:induction false} KeptAllAre(limits: Option<Limits>, width: nat, height: nat, rates: seq<Fraction>)
    ensures forall i :: 0 <= i < |KeptRates(limits, width, height, rates)| ==>
              KeptRates(limits, width, height, rates)[i] in rates
  {
    forall i | 0 <= i < |KeptRates(limits, width, height, rates)|
      ensures KeptRates(limits, width, height, rates)[i] in rates
    {
      KeptAre(limits, width, height, rates, KeptRates(limits, width, height, rates)[i]);
    }
  }

  /** A filtered range is still a range of gint fractions that is not empty. */
  lemma {:induction false} ClampIsProper(limits: Option<Limits>, width: nat, height: nat, min: Fraction, max: Fraction)
    requires ProperRates(Range(min, max)) && FilterRates(limits, width, height, Range(min, max)).Some?
    ensures ProperRates(FilterRates(limits, width, height, Range(min, max)).value)
  {
    FpsIsCeil(min);
    FpsIsCeil(max);
    var cap := MaxFps(limits, width, height);
    CeilAdjoint(min.num, min.den, cap);
  }

  lemma {:induction false} FilteredIsProper(limits: Option<Limits>, width: nat, height: nat, rates: Rates)
    requires ProperRates(rates) && FilterRates(limits, width, height, rates).Some?
    ensures ProperRates(FilterRates(limits, width, height, rates).value)
  {
    match rates {
      case One(_) =>
      case Range(min, max) => ClampIsProper(limits, width, height, min, max);
      case List(list) => KeptAllAre(limits, width, height, list);
    }
  }

  /** The cap does not reach the mode's rates: it has none, or the clamp is refused. */
  predicate Uncapped(limits: Option<Limits>, desc: Desc) {
    ModeOf(desc).Some? &&
    var rates := ModeOf(desc).value.rates;
    rates.NoRates? || ClampRefused(limits, desc.frame.width, desc.frame.height, rates)
  }

  /** What is delivered of a descriptor is its mode with the filtered rates. */
  lemma {:induction false} DeliveredRates(limits: Option<Limits>, desc: Desc)
    requires ProperDesc(desc) && Delivered(limits, desc) != []
    ensures ModeOf(desc).Some?
    ensures var before, after := ModeOf(desc).value.rates, Delivered(limits, desc)[0].rates;
            if Unlimited(limits) then after == before
            else FilterRates(limits, desc.frame.width, desc.frame.height, before) == Some(after)
  {
    if !Unlimited(limits) { DeliverableOne(limits, ModeOf(desc).value); }
  }

  /** What is published of a descriptor: at most one mode, of its own codec's media type and its own geometry. */
  lemma {:induction false} PublishedMode(limits: Option<Limits>, desc: Desc)
    requires ProperDesc(desc)
    ensures |Delivered(limits, desc)| <= 1
    ensures forall i :: 0 <= i < |Delivered(limits, desc)| ==>
              var mode := Delivered(limits, desc)[i];
              && mode.media == (if desc.format == H264 then "video/x-h264" else "video/x-h265")
              && mode.width == Some(desc.frame.width) && mode.height == Some(desc.frame.height)
  {
    if ModeOf(desc).Some? && !Unlimited(limits) { DeliverableOne(limits, ModeOf(desc).value); }
  }

  /** The published ladder is what is published of the descriptors, one after another. */
  lemma {:induction false} LadderIs(limits: Option<Limits>, descs: seq<Desc>)
    ensures Deliverable(limits, Modes(descs)) == Concat(seq(|descs|, i requires 0 <= i < |descs| =>
                                                                         Delivered(limits, descs[i])))
  {
    if descs != [] {
      var n := |descs| - 1;
      var rest := descs[..n];
      LadderIs(limits, rest);
      LadderGrows(limits, rest, descs[n]);
      assert rest + [descs[n]] == descs;
      var parts := seq(n, i requires 0 <= i < n => Delivered(limits, rest[i]));
      ConcatSnoc(parts, Delivered(limits, descs[n]));
      assert seq(|descs|, i requires 0 <= i < |descs| => Delivered(limits, descs[i])) ==
             parts + [Delivered(limits, descs[n])];
    }
  }

  lemma {:induction false} FilterOffersWhole(limits: Option<Limits>, width: nat, height: nat, before: Rates,
                                             after: Rates, r: Fraction)
    requires width < 0x1_0000 && height < 0x1_0000 && r.num >= 0 && r.den > 0
    requires (before.NoRates? || ProperRates(before)) && FilterRates(limits, width, height, before) == Some(after)
    ensures after.NoRates? || ProperRates(after)
    ensures Offers(after, r) <==>
            Offers(before, r)
            && (Within(limits, width, height, r) || before.NoRates? || ClampRefused(limits, width, height, before))
  {
    if !before.NoRates? {
      FilterOffers(limits, width, height, before, r);
      FilteredIsProper(limits, width, height, before);
    }
  }

  /** What is delivered of a descriptor offers the rates of its mode that are within the cap, or all of them where the
      cap does not reach. */
  lemma {:induction false} DeliveredOffers(limits: Option<Limits>, desc: Desc, r: Fraction)
    requires ProperDesc(desc) && Delivered(limits, desc) != [] && r.num >= 0 && r.den > 0
    ensures ModeOf(desc).Some?
    ensures var rates := Delivered(limits, desc)[0].rates; rates.NoRates? || ProperRates(rates)
    ensures Offers(Delivered(limits, desc)[0].rates, r) <==>
            Offers(ModeOf(desc).value.rates, r)
            && (Within(limits, desc.frame.width, desc.frame.height, r) || Uncapped(limits, desc))
  {
    ModeIsWhole(desc);
    DeliveredRates(limits, desc);
    if !Unlimited(limits) {
      FilterOffersWhole(limits, desc.frame.width, desc.frame.height, ModeOf(desc).value.rates,
                        Delivered(limits, desc)[0].rates, r);
    }
  }

  lemma {:induction false} DeliverableOne(limits: Option<Limits>, mode: Mode)
    requires !Unlimited(limits)
    ensures Deliverable(limits, [mode]) == if FilterMode(limits, mode).Some? then [FilterMode(limits, mode).value]
            else []
  {
    assert [mode][..0] == [] && FilterEach(limits, [mode][..0]) == [];
  }

  lemma {:induction false} NearestIsListed(list: seq<Fraction>, target: int)
    requires list != []
    ensures Nearest(list, target) in list
  {
    if |list| > 1 { NearestIsListed(list[..|list| - 1], target); }
  }

  lemma {:induction false} AdmittedAre(list: seq<Fraction>, rates: RateSet, f: Fraction)
    ensures f in OnlyAdmitted(list, rates) <==> f in list && Admits(rates, f)
  {
    if list != [] { AdmittedAre(list[1..], rates, f); }
  }

  lemma {:induction false} AtMostTransitive(a: Fraction, b: Fraction, c: Fraction)
    requires a.den > 0 && b.den > 0 && c.den > 0 && AtMost(a, b) && AtMost(b, c)
    ensures AtMost(a, c)
  {
    MulMonotone(a.num * b.den, b.num * a.den, c.den);
    MulMonotone(b.num * c.den, c.num * b.den, a.den);
    assert (b.num * a.den) * c.den == (b.num * c.den) * a.den;
    assert (a.num * b.den) * c.den == (a.num * c.den) * b.den;
    assert (c.num * b.den) * a.den == (c.num * a.den) * b.den;
    Cancel(a.num * c.den, c.num * a.den, b.den);
  }

  lemma {:induction false} ListAdmits(list: seq<Fraction>, f: Fraction)
    requires f in list
    ensures ListAllows(list, f)
  {
    if list[0] != f { ListAdmits(list[1..], f); }
  }

  lemma {:induction false} RangeMeet(min: Fraction, max: Fraction, lo: Fraction, hi: Fraction)
    requires ProperRates(Range(min, max)) && IsFraction(lo) && IsFraction(hi)
    requires Meet(Range(min, max), Between(lo, hi)).Some?
    ensures Offers(Range(min, max), Larger(min, lo)) && Admits(Between(lo, hi), Larger(min, lo))
  {
    var lo', hi' := Larger(min, lo), Smaller(max, hi);
    AtMostTransitive(lo', hi', max);
    AtMostTransitive(lo', hi', hi);
  }

  /** The fixated rate is in both: offered by the mode and admitted by the peer's structure. */
  lemma {:induction false} FixatedIsCommon(rates: Rates, other: RateSet)
    requires (rates.NoRates? || ProperRates(rates)) && ProperSet(other)
    requires Meet(rates, other).Some? && Fixable(Meet(rates, other).value)
    ensures var r := Fixate(Meet(rates, other).value, TopRate(rates));
            r.num >= 0 && r.den > 0 && Offers(rates, r) && Admits(other, r)
  {
    var common, target := Meet(rates, other).value, TopRate(rates);
    match rates {
      case NoRates =>
        if other.OneOf? {
          NearestIsListed(other.rates, target);
          ListAdmits(other.rates, Nearest(other.rates, target));
        }
      case List(list) =>
        var r := Nearest(common.rates, target);
        NearestIsListed(common.rates, target);
        AdmittedAre(list, other, r);
        var i :| 0 <= i < |list| && list[i] == r;
        assert SameRate(list[i], r);
      case Range(min, max) =>
        match other {
          case AnyRate =>
          case Between(lo, hi) => RangeMeet(min, max, lo, hi);
          case OneOf(list) =>
            var r := Nearest(common.rates, target);
            NearestIsListed(common.rates, target);
            AdmittedAre(list, Between(min, max), r);
            ListAdmits(list, r);
        }
    }
  }

  /** The structure that is met: nothing in front of it meets. */
  lemma {:induction false} FirstMeetIs(caps: seq<Choice>, desc: Desc, rates: Rates) returns (i: nat)
    requires FirstMeet(caps, desc, rates).Some?
    ensures i < |caps| && caps[i].format == desc.format && caps[i].takes(desc.frame.width, desc.frame.height)
    ensures Meet(rates, caps[i].rates) == FirstMeet(caps, desc, rates)
    ensures FirstMeet(caps[..i], desc, rates) == None
  {
    if caps[0].format == desc.format && caps[0].takes(desc.frame.width, desc.frame.height)
      && Meet(rates, caps[0].rates).Some? {
      i := 0;
    } else {
      var k := FirstMeetIs(caps[1..], desc, rates);
      i := k + 1;
      assert caps[..i][1..] == caps[1..][..k];
    }
  }

  /** No structure of the peer's caps is passed over: nothing meets only if none of them does. */
  lemma {:induction false} NothingMeetsIff(caps: seq<Choice>, desc: Desc, rates: Rates)
    ensures FirstMeet(caps, desc, rates) == None <==>
            forall j :: 0 <= j < |caps| ==>
                          || caps[j].format != desc.format || !caps[j].takes(desc.frame.width, desc.frame.height)
                          || Meet(rates, caps[j].rates) == None
  {
    if caps != [] {
      NothingMeetsIff(caps[1..], desc, rates);
      assert forall j :: 1 <= j < |caps| ==> caps[j] == caps[1..][j - 1];
    }
  }

  /** The descriptor itself offers the rate. */
  ghost predicate Advertises(desc: Desc, r: Fraction) {
    OwnRates(desc.frame).Some? && Offers(OwnRates(desc.frame).value, r)
  }

  /** The structure takes the candidate's codec, geometry and rate. */
  predicate Welcomes(choice: Choice, c: Candidate) {
    choice.format == c.format && choice.takes(c.width, c.height) && Admits(choice.rates, c.rate)
  }

  /** Every candidate is offered by its mode, admitted by a structure of the peer's caps, and within the cap where the
      cap reaches. */
  lemma {:induction false} CandidateIsSound(limits: Option<Limits>, caps: seq<Choice>, desc: Desc)
    requires ProperDesc(desc) && CandidateOf(limits, caps, desc).Some? && ProperCaps(caps)
    ensures var c := CandidateOf(limits, caps, desc).value;
            && c.rate.num >= 0 && c.rate.den > 0
            && Offers(ModeOf(desc).value.rates, c.rate)
            && (Within(limits, c.width, c.height, c.rate) || Uncapped(limits, desc))
            && exists i :: 0 <= i < |caps| && Welcomes(caps[i], c)
  {
    var rates := Delivered(limits, desc)[0].rates;
    var i := FirstMeetIs(caps, desc, rates);
    DeliveredOffers(limits, desc, Fraction(0, 1));
    FixatedIsCommon(rates, caps[i].rates);
    DeliveredOffers(limits, desc, CandidateOf(limits, caps, desc).value.rate);
  }

  /** The descriptor's rates reach the structure, or the structure holds a list of nothing else. */
  ghost predicate Honest(desc: Desc) {
    OwnRates(desc.frame).Some? && OwnRates(desc.frame).value.Range? ==>
      var own := OwnRates(desc.frame).value;
      Below(own.min, own.max)
      || (desc.held.List? && forall i :: 0 <= i < |desc.held.rates| ==> Offers(own, desc.held.rates[i]))
  }

  // ---------- listed modes fixate to their greatest admitted rate ----------

  lemma {:induction false} TopIsGreatest(list: seq<Fraction>)
    requires forall i :: 0 <= i < |list| ==> list[i].den == 1 && list[i].num >= 0
    ensures forall i :: 0 <= i < |list| ==> list[i].num <= TopOf(list)
    ensures if list == [] then TopOf(list) == -1 else exists i :: 0 <= i < |list| && list[i].num == TopOf(list)
  {
    if list != [] {
      var rest := list[..|list| - 1];
      TopIsGreatest(rest);
      if rest != [] && TopOf(rest) == TopOf(list) {
        var i :| 0 <= i < |rest| && rest[i].num == TopOf(rest);
        assert list[i].num == TopOf(list);
      } else {
        assert list[|list| - 1].num == TopOf(list);
      }
    }
  }

  lemma {:induction false} NearestIsGreatest(list: seq<Fraction>, target: int)
    requires list != [] && forall i :: 0 <= i < |list| ==> list[i].den == 1 && 0 <= list[i].num <= target
    ensures forall i :: 0 <= i < |list| ==> list[i].num <= Nearest(list, target).num
  {
    if |list| > 1 {
      NearestIsGreatest(list[..|list| - 1], target);
      NearestIsListed(list[..|list| - 1], target);
    }
  }

  lemma {:induction false} AdmittedFrom(list: seq<Fraction>, rates: RateSet)
    ensures forall i :: 0 <= i < |OnlyAdmitted(list, rates)| ==> OnlyAdmitted(list, rates)[i] in list
  {
    forall i | 0 <= i < |OnlyAdmitted(list, rates)| ensures OnlyAdmitted(list, rates)[i] in list {
      AdmittedAre(list, rates, OnlyAdmitted(list, rates)[i]);
    }
  }

  /** From a list of whole rates the greatest admitted one is fixated, at most the list's top, and the top itself when
      that is admitted. */
  lemma {:induction false} ListFixates(list: seq<Fraction>, other: RateSet)
    requires forall i :: 0 <= i < |list| ==> list[i].den == 1 && list[i].num >= 0
    requires Meet(List(list), other).Some?
    ensures var r := Fixate(Meet(List(list), other).value, TopOf(list));
            && r in list && r.den == 1 && 0 <= r.num <= TopOf(list) && Admits(other, r)
            && (forall f :: f in list && Admits(other, f) ==> f.num <= r.num)
            && (Admits(other, Fraction(TopOf(list), 1)) ==> r.num == TopOf(list))
  {
    var common := OnlyAdmitted(list, other);
    var r := Nearest(common, TopOf(list));
    TopIsGreatest(list);
    AdmittedFrom(list, other);
    NearestIsListed(common, TopOf(list));
    AdmittedAre(list, other, r);
    NearestIsGreatest(common, TopOf(list));
    forall f | f in list && Admits(other, f) ensures f.num <= r.num {
      AdmittedAre(list, other, f);
      var k :| 0 <= k < |common| && common[k] == f;
    }
  }

  ghost predicate ListsRates(desc: Desc) {
    ModeOf(desc).Some? && ModeOf(desc).value.rates.List?
  }

  /** The listed rates go up to at most `top`. */
  ghost predicate UpTo(desc: Desc, top: nat) {
    ListsRates(desc) ==>
      var list := ModeOf(desc).value.rates.rates;
      forall i :: 0 <= i < |list| ==> list[i].num <= top
  }

  /** The structure admits every whole rate up to `top`: it leaves the rate free. */
  ghost predicate Frees(rates: RateSet, top: nat) {
    forall n: nat :: n <= top ==> Admits(rates, Fraction(n, 1))
  }

  /** A range from 0 to at least `top` leaves the rate free. */
  lemma {:induction false} RangeFrees(max: Fraction, top: nat)
    requires IsFraction(max) && AtMost(Fraction(top, 1), max)
    ensures Frees(Between(Fraction(0, 1), max), top)
  {
    forall n: nat | n <= top ensures AtMost(Fraction(n, 1), max) { MulMonotone(n, top, max.den); }
  }

  lemma {:induction false} DeliveredTop(limits: Option<Limits>, desc: Desc, top: nat)
    requires ProperDesc(desc) && ListsRates(desc) && UpTo(desc, top) && Delivered(limits, desc) != []
    ensures var rates := Delivered(limits, desc)[0].rates; rates.List? && TopOf(rates.rates) <= top
  {
    var rates := Delivered(limits, desc)[0].rates;
    DeliveredList(limits, desc);
    TopIsGreatest(rates.rates);
  }

  /** A mode with listed rates gives a discrete candidate, which fixates to its top rate when the peer leaves the rate
      free. */
  lemma {:induction false} ListedCandidate(limits: Option<Limits>, caps: seq<Choice>, desc: Desc, top: nat)
    requires ProperDesc(desc) && ListsRates(desc) && CandidateOf(limits, caps, desc).Some? && UpTo(desc, top)
    ensures Discrete(CandidateOf(limits, caps, desc).value)
    ensures (forall i :: 0 <= i < |caps| ==> Frees(caps[i].rates, top)) ==>
              CandidateOf(limits, caps, desc).value.rate.num == CandidateOf(limits, caps, desc).value.top
  {
    var rates := Delivered(limits, desc)[0].rates;
    DeliveredList(limits, desc);
    DeliveredTop(limits, desc, top);
    var i := FirstMeetIs(caps, desc, rates);
    ListFixates(rates.rates, caps[i].rates);
  }

  // ---------- continuous modes fixate to their lowest common rate ----------

  ghost predicate AreFractions(list: seq<Fraction>) {
    forall i :: 0 <= i < |list| ==> IsFraction(list[i])
  }

  /** Nearest to -1 is lowest. */
  lemma {:induction false} NearestIsLeast(list: seq<Fraction>, i: nat)
    requires i < |list| && AreFractions(list)
    ensures IsFraction(Nearest(list, -1)) && AtMost(Nearest(list, -1), list[i])
  {
    NearestIsListed(list, -1);
    if |list| > 1 {
      var rest, last := list[..|list| - 1], list[|list| - 1];
      NearestIsListed(rest, -1);
      NearerIsLess(last, Nearest(rest, -1));
      if i < |rest| {
        NearestIsLeast(rest, i);
        if Nearest(list, -1) == last { AtMostTransitive(last, Nearest(rest, -1), list[i]); }
      }
    }
  }

  lemma {:induction false} NearerIsLess(a: Fraction, b: Fraction)
    requires IsFraction(a) && IsFraction(b)
    ensures if Nearer(a, b, -1) then AtMost(a, b) else AtMost(b, a)
  {
    assert (a.num + a.den) * b.den == a.num * b.den + a.den * b.den;
    assert (b.num + b.den) * a.den == b.num * a.den + a.den * b.den;
  }

  lemma {:induction false} AllowedAt(list: seq<Fraction>, x: Fraction) returns (i: nat)
    requires ListAllows(list, x)
    ensures i < |list| && SameRate(list[i], x)
  {
    if SameRate(list[0], x) {
      i := 0;
    } else {
      var k := AllowedAt(list[1..], x);
      i := k + 1;
    }
  }

  lemma {:induction false} FractionsAdmitted(list: seq<Fraction>, rates: RateSet)
    requires AreFractions(list)
    ensures AreFractions(OnlyAdmitted(list, rates))
  {
    AdmittedFrom(list, rates);
  }

  /** A continuous mode fixates to the lowest rate that it and the peer's structure have in common. */
  lemma {:induction false} RangeFixatesLowest(min: Fraction, max: Fraction, other: RateSet, x: Fraction)
    requires ProperRates(Range(min, max)) && ProperSet(other) && Meet(Range(min, max), other).Some?
    requires x.num >= 0 && x.den > 0 && Offers(Range(min, max), x) && Admits(other, x)
    ensures AtMost(Fixate(Meet(Range(min, max), other).value, -1), x)
  {
    if other.OneOf? {
      var list, both := other.rates, OnlyAdmitted(other.rates, Between(min, max));
      var i := AllowedAt(list, x);
      AtMostTransitive(min, x, list[i]);
      AtMostTransitive(list[i], x, max);
      AdmittedAre(list, Between(min, max), list[i]);
      FractionsAdmitted(list, Between(min, max));
      var k :| 0 <= k < |both| && both[k] == list[i];
      NearestIsLeast(both, k);
      AtMostTransitive(Nearest(both, -1), list[i], x);
    }
  }

  // ---------- what a descriptor advertises and what is fixated for it ----------

  /** What an honest descriptor's mode fixates to, the descriptor advertises. */
  lemma {:induction false} HonestIsAdvertised(limits: Option<Limits>, caps: seq<Choice>, desc: Desc)
    requires ProperDesc(desc) && ProperCaps(caps) && CandidateOf(limits, caps, desc).Some? && Honest(desc)
    ensures Advertises(desc, CandidateOf(limits, caps, desc).value.rate)
  {
    CandidateIsSound(limits, caps, desc);
    if HeldAfter(desc.held, desc.frame) != OwnRates(desc.frame).value {
      var list := Delivered(limits, desc)[0].rates;
      DeliveredList(limits, desc);
      var i := FirstMeetIs(caps, desc, list);
      ListFixates(list.rates, caps[i].rates);
    }
  }

  /** A peer that takes one format of any size at these rates. */
  function Peer(format: Format, rates: RateSet): seq<Choice> {
    [Choice(format, (w, h) => true, rates)]
  }

  /** A peer that takes one rate alone admits that one and no other whole one. */
  lemma {:induction false} OnlyIt(x: Fraction, r: Fraction)
    requires IsWhole(x) && IsWhole(r)
    ensures Admits(OneOf([x]), r) <==> r == x
  {
    assert ListAllows([x], r) <==> SameRate(x, r) by { assert [x][1..] == []; }
  }

  /** Among listed whole rates a peer that takes one of them alone is given that one. */
  lemma {:induction false} OnlyThatRate(list: seq<Fraction>, x: Fraction)
    requires Whole(List(list)) && x in list
    ensures var common := Meet(List(list), OneOf([x]));
            common.Some? && common.value.List? && Nearest(common.value.rates, TopOf(list)) == x
  {
    OnlyIt(x, x);
    AdmittedAre(list, OneOf([x]), x);
    var common := OnlyAdmitted(list, OneOf([x]));
    NearestIsListed(common, TopOf(list));
    OnlyItIsAdmitted(list, x, Nearest(common, TopOf(list)));
  }

  lemma {:induction false} OnlyItIsAdmitted(list: seq<Fraction>, x: Fraction, r: Fraction)
    requires Whole(List(list)) && x in list && r in OnlyAdmitted(list, OneOf([x]))
    ensures r == x
  {
    AdmittedAre(list, OneOf([x]), r);
    OnlyIt(x, r);
  }

  /** A rate that the mode offers and the descriptor does not. */
  lemma {:induction false} Alien(desc: Desc) returns (x: Fraction)
    requires ProperDesc(desc) && !Honest(desc)
    ensures IsFraction(x) && x.den == 1 && !Advertises(desc, x)
    ensures match HeldAfter(desc.held, desc.frame)
            case NoRates => true
            case Range(min, max) => x == min || x == max
            case List(list) => x in list
            case _ => false
  {
    var own := OwnRates(desc.frame).value;
    HeldIsWhole(desc.held, desc.frame);
    FpsIsWhole(desc.frame.minInterval);
    FpsIsWhole(desc.frame.maxInterval);
    match desc.held {
      case NoRates => x := Fraction(own.min.num + 1, 1);
      case Range(min, max) => x := if Offers(own, min) then max else min;
      case List(list) => var i :| 0 <= i < |list| && !Offers(own, list[i]);
                         x := list[i];
    }
  }

  /** A peer that takes that rate alone is given it. */
  lemma {:induction false} AlienIsFixated(desc: Desc, x: Fraction)
    requires ProperDesc(desc) && OwnRates(desc.frame).Some? && IsFraction(x) && x.den == 1
    requires match HeldAfter(desc.held, desc.frame)
             case NoRates => true
             case Range(min, max) => x == min || x == max
             case List(list) => x in list
             case _ => false
    ensures var c := CandidateOf(None, Peer(desc.format, OneOf([x])), desc); c.Some? && c.value.rate == x
  {
    var rates := HeldAfter(desc.held, desc.frame);
    HeldIsWhole(desc.held, desc.frame);
    assert Delivered(None, desc) == [ModeOf(desc).value];
    if rates.List? { OnlyThatRate(rates.rates, x); }
    if rates.Range? { assert OnlyAdmitted([x], Between(rates.min, rates.max)) == [x] by { assert [x][1..] == []; } }
  }

  /** Whatever the cap and the peer, a candidate's rate is one that its descriptor advertises, exactly when the
      descriptor is honest. */
  lemma {:induction false} AdvertisedIffHonest(desc: Desc)
    requires ProperDesc(desc) && OwnRates(desc.frame).Some?
    ensures (forall limits, caps :: ProperCaps(caps) && CandidateOf(limits, caps, desc).Some? ==>
                 Advertises(desc, CandidateOf(limits, caps, desc).value.rate))
            <==> Honest(desc)
  {
    forall limits, caps | ProperCaps(caps) && CandidateOf(limits, caps, desc).Some? && Honest(desc)
      ensures Advertises(desc, CandidateOf(limits, caps, desc).value.rate)
    {
      HonestIsAdvertised(limits, caps, desc);
    }
    if !Honest(desc) {
      var x := Alien(desc);
      AlienIsFixated(desc, x);
      assert ProperCaps(Peer(desc.format, OneOf([x])));
    }
  }

  // ---------- what the whole negotiation selects ----------

  ghost predicate CandidateAt(limits: Option<Limits>, caps: seq<Choice>, descs: seq<Desc>, i: nat, c: Candidate) {
    i < |descs| && CandidateOf(limits, caps, descs[i]) == Some(c)
  }

  /** The mode that negotiation ends with comes from one of the device's descriptors, is admitted by the peer and not
      smaller than any other candidate. Where the cap reaches its rates it is within the cap, and where its descriptor
      is honest it is advertised there. */
  lemma {:induction false} NegotiatedMode(limits: Option<Limits>, caps: seq<Choice>, descs: seq<Desc>, j: nat)
    requires forall i :: 0 <= i < |descs| ==> ProperDesc(descs[i])
    requires ProperCaps(caps) && Negotiated(limits, caps, descs).pick.Some? && j < |descs|
    ensures var best := Negotiated(limits, caps, descs);
            var c := best.pick.value;
            && (best.width, best.height, best.framerate) == (c.width, c.height, Floor(c.rate))
            && c.rate.num >= 0 && c.rate.den > 0
            && (exists i: nat :: CandidateAt(limits, caps, descs, i, c)
                                 && (Within(limits, c.width, c.height, c.rate) || Uncapped(limits, descs[i]))
                                 && (Honest(descs[i]) ==> Advertises(descs[i], c.rate)))
            && (exists i :: 0 <= i < |caps| && Welcomes(caps[i], c))
            && (CandidateOf(limits, caps, descs[j]).Some? ==>
                Area(CandidateOf(limits, caps, descs[j]).value) <= Area(c))
  {
    var cs := Candidates(limits, caps, descs);
    var c := Select(cs, |cs|).pick.value;
    SelectedIsCandidate(cs, |cs|);
    SelectedAreaIsMaximal(cs, |cs|);
    assert cs[..|cs|] == cs;
    CandidatesAre(limits, caps, descs, c);
    var i :| 0 <= i < |descs| && CandidateOf(limits, caps, descs[i]) == Some(c);
    assert CandidateAt(limits, caps, descs, i, c);
    CandidateIsSound(limits, caps, descs[i]);
    if Honest(descs[i]) { HonestIsAdvertised(limits, caps, descs[i]); }
    if CandidateOf(limits, caps, descs[j]).Some? {
      CandidatesAre(limits, caps, descs, CandidateOf(limits, caps, descs[j]).value);
    }
  }

  /** With listed intervals and a peer that leaves the rate free, every candidate comes after the selected one in the
      order by area, then by top rate. */
  lemma {:induction false} RateFreeNegotiation(limits: Option<Limits>, caps: seq<Choice>, descs: seq<Desc>, top: nat,
                                               j: nat)
    requires forall i :: 0 <= i < |descs| ==> ProperDesc(descs[i]) && ListsRates(descs[i]) && UpTo(descs[i], top)
    requires forall i :: 0 <= i < |caps| ==> Frees(caps[i].rates, top)
    requires j < |descs| && CandidateOf(limits, caps, descs[j]).Some?
    ensures var best, c := Negotiated(limits, caps, descs), CandidateOf(limits, caps, descs[j]).value;
            Area(c) < best.width * best.height || (Area(c) == best.width * best.height && c.top <= best.framerate)
  {
    var cs := Candidates(limits, caps, descs);
    var c := CandidateOf(limits, caps, descs[j]).value;
    CandidatesAre(limits, caps, descs, c);
    var i :| 0 <= i < |cs| && cs[i] == c;
    forall k | 0 <= k < |cs| ensures Discrete(cs[k]) && cs[k].rate.num == cs[k].top {
      var d := DescOf(limits, caps, descs, k);
      ListedCandidate(limits, caps, descs[d], top);
    }
    RateFreeIsLexicographic(cs, |cs|, i);
  }

  /** The descriptor that candidate k comes from. */
  lemma {:induction false} DescOf(limits: Option<Limits>, caps: seq<Choice>, descs: seq<Desc>, k: nat) returns (d: nat)
    requires k < |Candidates(limits, caps, descs)|
    ensures d < |descs| && CandidateOf(limits, caps, descs[d]) == Some(Candidates(limits, caps, descs)[k])
  {
    CandidatesAre(limits, caps, descs, Candidates(limits, caps, descs)[k]);
    d :| 0 <= d < |descs| && CandidateOf(limits, caps, descs[d]) == Some(Candidates(limits, caps, descs)[k]);
  }

  /** For every device that lists its intervals and every peer: the selection ends at the greatest rate m that a
      candidate of the greatest area fixates to exactly when it is attained in the sense of AttainedMeans. */
  lemma {:induction false} NegotiatedRateIsMaximalIff(limits: Option<Limits>, caps: seq<Choice>, descs: seq<Desc>,
                                                      m: int)
    requires forall i :: 0 <= i < |descs| ==> ProperDesc(descs[i]) && ListsRates(descs[i])
    requires m >= 0 && AtMostRate(Candidates(limits, caps, descs), m)
    ensures var cs := Candidates(limits, caps, descs);
            && Negotiated(limits, caps, descs).framerate <= m
            && (Negotiated(limits, caps, descs).framerate == m <==> Attained(cs, |cs|, GreatestArea(cs, |cs|), m))
  {
    var cs := Candidates(limits, caps, descs);
    forall k | 0 <= k < |cs| ensures Discrete(cs[k]) {
      var d := DescOf(limits, caps, descs, k);
      HighestListed(descs[d]);
      ListedCandidate(limits, caps, descs[d], HUNDRED_NS_PER_SECOND);
    }
    RateIsMaximalIff(cs, |cs|, m);
  }

  lemma {:induction false} HighestListed(desc: Desc)
    requires ProperDesc(desc)
    ensures UpTo(desc, HUNDRED_NS_PER_SECOND)
  {
    if ListsRates(desc) { ModeIsWhole(desc); }
  }

  // ---------- when negotiation succeeds ----------

  /** negotiate() goes on only with a positive rate. */
  predicate Succeeds(best: Best) {
    best.width >= 0 && best.height >= 0 && best.framerate > 0 && best.pick.Some?
  }

  /** The fixated rate is at most the top rate where there is a list. */
  predicate Sane(c: Candidate) {
    c.top >= -1 && (c.top >= 0 ==> Floor(c.rate) <= c.top)
  }

  /** And a mode that advertises a positive rate fixates to one. */
  predicate Tame(c: Candidate) {
    Sane(c) && (c.top > 0 ==> Floor(c.rate) > 0)
  }

  /** Some candidate below n has this area. */
  predicate Seen(cs: seq<Candidate>, n: nat, area: nat)
    requires n <= |cs|
  {
    n > 0 && (Seen(cs, n - 1, area) || Area(cs[n - 1]) == area)
  }

  lemma {:induction false} SeenMeans(cs: seq<Candidate>, n: nat, area: nat)
    requires n <= |cs|
    ensures Seen(cs, n, area) <==> exists i :: 0 <= i < n && Area(cs[i]) == area
  {
    if n > 0 { SeenMeans(cs, n - 1, area); }
  }

  /** Candidate i lists a positive rate, or it is the first of its area and fixates to one. */
  predicate Hopeful(cs: seq<Candidate>, i: nat, area: nat)
    requires i < |cs|
  {
    Area(cs[i]) == area && (cs[i].top > 0 || (area > 1 && Floor(cs[i].rate) > 0 && !Seen(cs, i, area)))
  }

  /** Some candidate below n is (AnyHopefulMeans). */
  predicate AnyHopeful(cs: seq<Candidate>, n: nat, area: nat)
    requires n <= |cs|
  {
    n > 0 && (AnyHopeful(cs, n - 1, area) || Hopeful(cs, n - 1, area))
  }

  lemma {:induction false} AnyHopefulMeans(cs: seq<Candidate>, n: nat, area: nat)
    requires n <= |cs|
    ensures AnyHopeful(cs, n, area) <==> exists i :: 0 <= i < n && Hopeful(cs, i, area)
  {
    if n > 0 { AnyHopefulMeans(cs, n - 1, area); }
  }

  /** Going back from candidate n among those of the area: one that advertises less than theta changes nothing, one that
      fixates to theta decides, and one that advertises theta but is held below it was passed over only if the rate
      was at its top already. The first of the area is taken whatever it advertises. */
  predicate Reaches(cs: seq<Candidate>, n: nat, area: nat, theta: int)
    requires n <= |cs|
  {
    n > 0 &&
    var c := cs[n - 1];
    if Area(c) == area > 1 && !Seen(cs, n - 1, area) then Floor(c.rate) >= theta
    else if Area(c) != area || c.top < theta then Reaches(cs, n - 1, area, theta)
    else Floor(c.rate) >= theta || Reaches(cs, n - 1, area, c.top)
  }

  lemma {:induction false} NoneReaches(cs: seq<Candidate>, n: nat, area: nat, theta: int)
    requires n <= |cs| && forall i :: 0 <= i < n ==> Area(cs[i]) != area
    ensures !Reaches(cs, n, area, theta) && !Seen(cs, n, area)
  {
    if n > 0 { NoneReaches(cs, n - 1, area, theta); }
  }

  lemma {:induction false} NoneHopeful(cs: seq<Candidate>, n: nat, area: nat)
    requires n <= |cs| && forall i :: 0 <= i < n ==> Area(cs[i]) != area
    ensures !AnyHopeful(cs, n, area) && !Seen(cs, n, area)
  {
    if n > 0 { NoneHopeful(cs, n - 1, area); }
  }

  lemma {:induction false} GreatestIsSeen(cs: seq<Candidate>, n: nat)
    requires n <= |cs| && GreatestArea(cs, n) > 1
    ensures Seen(cs, n, GreatestArea(cs, n))
  {
    if GreatestArea(cs, n) == GreatestArea(cs, n - 1) { GreatestIsSeen(cs, n - 1); }
  }

  /** What the induction needs to know of the running best in front of candidate n. */
  ghost predicate Ready(cs: seq<Candidate>, n: nat)
    requires n < |cs|
  {
    var best, area := Select(cs, n), GreatestArea(cs, n);
    && best.width * best.height == area
    && (best.pick.None? ==> best == NoneYet)
    && (best.pick.Some? ==> best.width >= 0 && best.height >= 0 && best.framerate >= 0)
    && (area > 1 ==> Seen(cs, n, area))
    && (Area(cs[n]) > area ==> !AnyHopeful(cs, n, Area(cs[n])) && !Seen(cs, n, Area(cs[n])))
  }

  lemma {:induction false} IsReady(cs: seq<Candidate>, n: nat)
    requires n < |cs|
    ensures Ready(cs, n)
  {
    SelectedAreaIsMaximal(cs, n);
    SelectedIsCandidate(cs, n);
    if GreatestArea(cs, n) > 1 { GreatestIsSeen(cs, n); }
    if Area(cs[n]) > GreatestArea(cs, n) { NoneHopeful(cs, n, Area(cs[n])); }
  }

  lemma {:induction false} RateReachedNext(cs: seq<Candidate>, n: nat, theta: int)
    requires n < |cs| && theta >= 1 && Sane(cs[n]) && Ready(cs, n)
    requires Area(cs[n]) > GreatestArea(cs, n) ==> !Seen(cs, n, Area(cs[n]))
    requires Select(cs, n).framerate >= theta <==> Reaches(cs, n, GreatestArea(cs, n), theta)
    requires cs[n].top >= theta ==>
               (Select(cs, n).framerate >= cs[n].top <==> Reaches(cs, n, GreatestArea(cs, n), cs[n].top))
    ensures Select(cs, n + 1).framerate >= theta <==> Reaches(cs, n + 1, GreatestArea(cs, n + 1), theta)
  {
  }

  /** The rate of the selected mode is at least theta if and only if the candidates of the greatest area, gone through
      backwards, reach it. */
  lemma {:induction false} RateReachedIff(cs: seq<Candidate>, n: nat, theta: int)
    requires n <= |cs| && theta >= 1 && forall i :: 0 <= i < n ==> Sane(cs[i])
    ensures Select(cs, n).framerate >= theta <==> Reaches(cs, n, GreatestArea(cs, n), theta)
  {
    if n > 0 {
      RateReachedIff(cs, n - 1, theta);
      if cs[n - 1].top >= theta { RateReachedIff(cs, n - 1, cs[n - 1].top); }
      IsReady(cs, n - 1);
      RateReachedNext(cs, n - 1, theta);
    }
  }

  lemma {:induction false} SucceedsNext(cs: seq<Candidate>, n: nat)
    requires n < |cs| && Tame(cs[n]) && Ready(cs, n)
    requires Succeeds(Select(cs, n)) <==> AnyHopeful(cs, n, GreatestArea(cs, n))
    ensures Succeeds(Select(cs, n + 1)) <==> AnyHopeful(cs, n + 1, GreatestArea(cs, n + 1))
  {
  }

  /** Negotiation succeeds if and only if, among the candidates of the greatest area, one lists a positive rate or the
      first of them fixates to a positive rate: a continuous range is taken only when it comes first. */
  lemma {:induction false} SucceedsIff(cs: seq<Candidate>, n: nat)
    requires n <= |cs| && forall i :: 0 <= i < n ==> Tame(cs[i])
    ensures Succeeds(Select(cs, n)) <==> AnyHopeful(cs, n, GreatestArea(cs, n))
  {
    if n > 0 {
      SucceedsIff(cs, n - 1);
      IsReady(cs, n - 1);
      SucceedsNext(cs, n - 1);
    }
  }

  /** Without any assumption: what succeeds has a largest candidate with a positive rate. */
  lemma {:induction false} SuccessNeedsRate(cs: seq<Candidate>, n: nat)
    requires n <= |cs| && Succeeds(Select(cs, n))
    ensures exists i :: 0 <= i < n && Area(cs[i]) == GreatestArea(cs, n) && Floor(cs[i].rate) > 0
  {
    SelectedIsCandidate(cs, n);
    SelectedAreaIsMaximal(cs, n);
    var i :| 0 <= i < |cs[..n]| && cs[..n][i] == Select(cs, n).pick.value;
    assert cs[i] == Select(cs, n).pick.value;
  }

  /** Each structure of the peer's caps refuses the rate 0, or admits every whole rate from 1 to `top`. */
  ghost predicate SparesRates(caps: seq<Choice>, top: nat) {
    forall i :: 0 <= i < |caps| ==>
        !Admits(caps[i].rates, Fraction(0, 1)) || forall n :: 1 <= n <= top ==> Admits(caps[i].rates, Fraction(n, 1))
  }

  /** Every candidate is then tame. */
  lemma {:induction false} CandidateIsTame(limits: Option<Limits>, caps: seq<Choice>, desc: Desc, top: nat)
    requires ProperDesc(desc) && UpTo(desc, top) && SparesRates(caps, top) && CandidateOf(limits, caps, desc).Some?
    ensures Tame(CandidateOf(limits, caps, desc).value)
  {
    if ListsRates(desc) { ListedIsTame(limits, caps, desc, top); } else { UnlistedTop(limits, caps, desc); }
  }

  lemma {:induction false} ListedIsTame(limits: Option<Limits>, caps: seq<Choice>, desc: Desc, top: nat)
    requires ProperDesc(desc) && UpTo(desc, top) && SparesRates(caps, top) && CandidateOf(limits, caps, desc).Some?
    requires ListsRates(desc)
    ensures Tame(CandidateOf(limits, caps, desc).value)
  {
    var rates := Delivered(limits, desc)[0].rates;
    DeliveredList(limits, desc);
    DeliveredTop(limits, desc, top);
    var i := FirstMeetIs(caps, desc, rates);
    ListFixates(rates.rates, caps[i].rates);
    var c := CandidateOf(limits, caps, desc).value;
    assert c.top == TopOf(rates.rates) && c.rate == Fixate(Meet(rates, caps[i].rates).value, c.top);
  }

  lemma {:induction false} UnlistedTop(limits: Option<Limits>, caps: seq<Choice>, desc: Desc)
    requires ProperDesc(desc) && !ListsRates(desc) && CandidateOf(limits, caps, desc).Some?
    ensures CandidateOf(limits, caps, desc).value.top == -1
  {
    HeldIsWhole(desc.held, desc.frame);
    if !Unlimited(limits) { DeliverableOne(limits, ModeOf(desc).value); }
  }

  /** What is delivered of a mode with listed rates is a list of some of them. */
  lemma {:induction false} DeliveredList(limits: Option<Limits>, desc: Desc)
    requires ProperDesc(desc) && ListsRates(desc) && Delivered(limits, desc) != []
    ensures var rates := Delivered(limits, desc)[0].rates;
            && rates.List? && Whole(rates)
            && forall i :: 0 <= i < |rates.rates| ==> rates.rates[i] in ModeOf(desc).value.rates.rates
  {
    var mode := ModeOf(desc).value;
    ModeIsWhole(desc);
    if !Unlimited(limits) {
      DeliverableOne(limits, mode);
      KeptAllAre(limits, desc.frame.width, desc.frame.height, mode.rates.rates);
    }
  }

  lemma {:induction false} CandidateIsSane(limits: Option<Limits>, caps: seq<Choice>, desc: Desc)
    requires ProperDesc(desc) && CandidateOf(limits, caps, desc).Some?
    ensures Sane(CandidateOf(limits, caps, desc).value)
  {
    if ListsRates(desc) {
      HighestListed(desc);
      ListedCandidate(limits, caps, desc, HUNDRED_NS_PER_SECOND);
    } else {
      UnlistedTop(limits, caps, desc);
    }
  }

  /** For every device and every peer: negotiation succeeds if and only if the candidates of the greatest area reach one
      frame a second. */
  lemma {:induction false} NegotiationSucceedsExactly(limits: Option<Limits>, caps: seq<Choice>, descs: seq<Desc>)
    requires forall i :: 0 <= i < |descs| ==> ProperDesc(descs[i])
    ensures var cs := Candidates(limits, caps, descs);
            Succeeds(Negotiated(limits, caps, descs)) <==> Reaches(cs, |cs|, GreatestArea(cs, |cs|), 1)
  {
    var cs := Candidates(limits, caps, descs);
    forall k | 0 <= k < |cs| ensures Sane(cs[k]) {
      var d := DescOf(limits, caps, descs, k);
      CandidateIsSane(limits, caps, descs[d]);
    }
    RateReachedIff(cs, |cs|, 1);
    SelectedIsCandidate(cs, |cs|);
  }

  /** For every device and every peer that leaves the rate free or refuses the rate 0, negotiation succeeds if and only
      if among the candidates of the greatest area one lists a positive rate or the first fixates to one. */
  lemma {:induction false} NegotiationSucceedsIff(limits: Option<Limits>, caps: seq<Choice>, descs: seq<Desc>, top: nat)
    requires forall i :: 0 <= i < |descs| ==> ProperDesc(descs[i]) && UpTo(descs[i], top)
    requires SparesRates(caps, top)
    ensures var cs := Candidates(limits, caps, descs);
            Succeeds(Negotiated(limits, caps, descs)) <==> AnyHopeful(cs, |cs|, GreatestArea(cs, |cs|))
  {
    var cs := Candidates(limits, caps, descs);
    forall k | 0 <= k < |cs| ensures Tame(cs[k]) {
      var d := DescOf(limits, caps, descs, k);
      CandidateIsTame(limits, caps, descs[d], top);
    }
    SucceedsIff(cs, |cs|);
  }

  // ---------- where it falls short ----------

  function Listed(width: nat, height: nat, intervals: seq<nat>): FrameDesc {
    FrameDesc(width, height, Some(intervals), 0, 0)
  }

  function Continuous(width: nat, height: nat, minInterval: nat, maxInterval: nat): FrameDesc {
    FrameDesc(width, height, None, minInterval, maxInterval)
  }

  /** What negotiation without a cap comes to on a device with two H.264 descriptors. */
  function OnDevice(rates: RateSet, a: FrameDesc, b: FrameDesc): Best {
    Negotiated(None, Peer(H264, rates), Flatten([FormatDesc(H264, [a, b])]))
  }

  lemma {:induction false} TwoFrames(a: FrameDesc, b: FrameDesc)
    ensures Flatten([FormatDesc(H264, [a, b])]) == [Desc(H264, a, NoRates), Desc(H264, b, HeldAfter(NoRates, a))]
  {
    var format := FormatDesc(H264, [a, b]);
    assert [format][..0] == [] && HeldBefore([a, b], 1) == HeldAfter(HeldBefore([a, b], 0), a);
    assert Flatten([format]) == DescsOf(format);
  }

  lemma {:induction false} CandidatesSnoc(limits: Option<Limits>, caps: seq<Choice>, descs: seq<Desc>, desc: Desc)
    requires CandidateOf(limits, caps, desc).Some?
    ensures Candidates(limits, caps, descs + [desc]) ==
            Candidates(limits, caps, descs) + [CandidateOf(limits, caps, desc).value]
  {
    assert (descs + [desc])[..|descs|] == descs;
  }

  lemma {:induction false} TwoCandidates(rates: RateSet, a: FrameDesc, b: FrameDesc, x: Candidate, y: Candidate)
    requires CandidateOf(None, Peer(H264, rates), Desc(H264, a, NoRates)) == Some(x)
    requires CandidateOf(None, Peer(H264, rates), Desc(H264, b, HeldAfter(NoRates, a))) == Some(y)
    ensures OnDevice(rates, a, b) == Consider(Consider(NoneYet, x), y)
  {
    var caps, first, second := Peer(H264, rates), Desc(H264, a, NoRates), Desc(H264, b, HeldAfter(NoRates, a));
    TwoFrames(a, b);
    CandidatesSnoc(None, caps, [], first);
    CandidatesSnoc(None, caps, [first], second);
    assert [] + [first] == [first] && [first] + [second] == [first, second];
    assert Candidates(None, caps, [first, second]) == [x, y];
    assert Select([x, y], 0) == NoneYet && Select([x, y], 1) == Consider(NoneYet, x);
  }

  lemma {:induction false} ThirtyListed()
    ensures ListedRates([333333, 0]) == [Fraction(30, 1)]
  {
    assert FpsOf(333333) == 30;
    assert [333333, 0][1..] == [0] && ListedRates([0]) == [];
  }

  lemma {:induction false} SlowListed()
    ensures ListedRates([20000000, 0]) == [Fraction(0, 1)]
  {
    assert FpsOf(20000000) == 0;
    assert [20000000, 0][1..] == [0] && ListedRates([0]) == [];
  }

  lemma {:induction false} SixtyListed()
    ensures ListedRates([166666, 400000, 0]) == [Fraction(60, 1), Fraction(25, 1)]
  {
    assert FpsOf(166666) == 60 && FpsOf(400000) == 25;
    assert [166666, 400000, 0][1..] == [400000, 0] && [400000, 0][1..] == [0] && ListedRates([0]) == [];
    assert ListedRates([400000, 0]) == [Fraction(25, 1)];
  }

  const ThirtyOr25 := OneOf([Fraction(30, 1), Fraction(25, 1)])

  /** A descriptor that lists one rate, which the peer takes. */
  lemma {:induction false} OneRateCandidate(frame: FrameDesc, held: Rates, rates: RateSet, rate: nat)
    requires frame.intervals.Some? && ListedRates(frame.intervals.value) == [Fraction(rate, 1)]
    requires Admits(rates, Fraction(rate, 1))
    ensures CandidateOf(None, Peer(H264, rates), Desc(H264, frame, held)) ==
            Some(Candidate(H264, frame.width, frame.height, rate, Fraction(rate, 1)))
  {
    var desc, list := Desc(H264, frame, held), [Fraction(rate, 1)];
    assert Delivered(None, desc) == [ModeOf(desc).value];
    assert list[1..] == [] && OnlyAdmitted(list, rates) == list;
    assert list[..0] == [] && TopOf([]) == -1 && TopOf(list) == rate;
  }

  lemma {:induction false} SixtyHeldTo25(held: Rates)
    ensures CandidateOf(None, Peer(H264, ThirtyOr25), Desc(H264, Listed(100, 100, [166666, 400000, 0]), held)) ==
            Some(Candidate(H264, 100, 100, 60, Fraction(25, 1)))
  {
    var desc := Desc(H264, Listed(100, 100, [166666, 400000, 0]), held);
    SixtyListed();
    var sixty, slow := Fraction(60, 1), Fraction(25, 1);
    assert Delivered(None, desc) == [ModeOf(desc).value];
    var peer := [Fraction(30, 1), slow];
    assert peer[1..] == [slow] && [slow][1..] == [];
    assert !ListAllows(peer, sixty) && ListAllows(peer, slow);
    assert [sixty, slow][1..] == [slow] && OnlyAdmitted([slow], ThirtyOr25) == [slow];
    assert OnlyAdmitted([sixty, slow], ThirtyOr25) == [slow];
    assert [sixty, slow][..1] == [sixty] && [sixty][..0] == [];
    assert TopOf([]) == -1 && TopOf([sixty]) == 60 && TopOf([sixty, slow]) == 60;
  }

  /** The device lists 30 fps in one descriptor and 60 and 25 in another of the same size, the peer takes 30 and 25:
      25 is negotiated. */
  lemma {:induction false} TieCanLoseRate()
    ensures var fast, slow := Listed(100, 100, [333333, 0]), Listed(100, 100, [166666, 400000, 0]);
            OnDevice(ThirtyOr25, fast, slow).framerate == 25 && OnDevice(ThirtyOr25, slow, fast).framerate == 30
  {
    var fast, slow := Listed(100, 100, [333333, 0]), Listed(100, 100, [166666, 400000, 0]);
    var x, y := Candidate(H264, 100, 100, 30, Fraction(30, 1)), Candidate(H264, 100, 100, 60, Fraction(25, 1));
    ThirtyListed();
    OneRateCandidate(fast, NoRates, ThirtyOr25, 30);
    OneRateCandidate(fast, HeldAfter(NoRates, slow), ThirtyOr25, 30);
    SixtyHeldTo25(NoRates);
    SixtyHeldTo25(HeldAfter(NoRates, fast));
    TwoCandidates(ThirtyOr25, fast, slow, x, y);
    TwoCandidates(ThirtyOr25, slow, fast, y, x);
  }

  /** The largest mode lists an interval of two seconds: negotiation fails though a smaller mode lists 30 fps. */
  lemma {:induction false} SlowModeBlocks()
    ensures !Succeeds(OnDevice(AnyRate, Listed(200, 200, [20000000, 0]), Listed(100, 100, [333333, 0])))
  {
    var large, small := Listed(200, 200, [20000000, 0]), Listed(100, 100, [333333, 0]);
    SlowListed();
    ThirtyListed();
    OneRateCandidate(large, NoRates, AnyRate, 0);
    OneRateCandidate(small, HeldAfter(NoRates, large), AnyRate, 30);
    TwoCandidates(AnyRate, large, small, Candidate(H264, 200, 200, 0, Fraction(0, 1)),
                  Candidate(H264, 100, 100, 30, Fraction(30, 1)));
  }

  lemma {:induction false} FiveToTen(held: Rates)
    ensures CandidateOf(None, Peer(H264, AnyRate), Desc(H264, Continuous(200, 200, 1000000, 2000000), held)) ==
            Some(Candidate(H264, 200, 200, -1, Fraction(5, 1)))
  {
    var range := Desc(H264, Continuous(200, 200, 1000000, 2000000), held);
    assert FpsOf(2000000) == 5 && FpsOf(1000000) == 10;
    assert Delivered(None, range) == [ModeOf(range).value];
  }

  /** Of two largest modes one lists an interval of two seconds and one is continuous from 5 to 10 fps: negotiation
      succeeds when the continuous one comes first and fails when it comes second. */
  lemma {:induction false} RangeTieNeedsOrder()
    ensures var slow, range := Listed(200, 200, [20000000, 0]), Continuous(200, 200, 1000000, 2000000);
            !Succeeds(OnDevice(AnyRate, slow, range)) && Succeeds(OnDevice(AnyRate, range, slow))
  {
    var slow, range := Listed(200, 200, [20000000, 0]), Continuous(200, 200, 1000000, 2000000);
    var x, y := Candidate(H264, 200, 200, 0, Fraction(0, 1)), Candidate(H264, 200, 200, -1, Fraction(5, 1));
    SlowListed();
    OneRateCandidate(slow, NoRates, AnyRate, 0);
    OneRateCandidate(slow, HeldAfter(NoRates, range), AnyRate, 0);
    FiveToTen(NoRates);
    FiveToTen(HeldAfter(NoRates, slow));
    TwoCandidates(AnyRate, slow, range, x, y);
    TwoCandidates(AnyRate, range, slow, y, x);
  }

  lemma {:induction false} FastListed()
    ensures ListedRates([166666, 0]) == [Fraction(60, 1)]
  {
    assert FpsOf(166666) == 60;
    assert [166666, 0][1..] == [0] && ListedRates([0]) == [];
  }

  /** A continuous descriptor of 30 fps alone behind a list of 60: the range is refused, the list stays, and 60 fps are
      negotiated at a size that never advertised them. */
  lemma {:induction false} StaleRateIsNegotiated()
    ensures var small, large := Listed(640, 480, [166666, 0]), Continuous(1920, 1080, 333333, 333333);
            && OnDevice(AnyRate, small, large) ==
               Best(1920, 1080, 60, Some(Candidate(H264, 1920, 1080, 60, Fraction(60, 1))))
            && !Advertises(Desc(H264, large, HeldAfter(NoRates, small)), Fraction(60, 1))
  {
    var small, large := Listed(640, 480, [166666, 0]), Continuous(1920, 1080, 333333, 333333);
    FastListed();
    assert FpsOf(333333) == 30;
    OneRateCandidate(small, NoRates, AnyRate, 60);
    var stale := Desc(H264, large, HeldAfter(NoRates, small));
    assert ModeOf(stale).value.rates == List([Fraction(60, 1)]);
    var relisted := Listed(1920, 1080, [166666, 0]);
    OneRateCandidate(relisted, NoRates, AnyRate, 60);
    assert ModeOf(stale) == ModeOf(Desc(H264, relisted, NoRates));
    SameMode(None, Peer(H264, AnyRate), stale, Desc(H264, relisted, NoRates));
    TwoCandidates(AnyRate, small, large, Candidate(H264, 640, 480, 60, Fraction(60, 1)),
                  Candidate(H264, 1920, 1080, 60, Fraction(60, 1)));
  }

  /** What a candidate is depends on its mode alone. */
  lemma {:induction false} SameMode(limits: Option<Limits>, caps: seq<Choice>, a: Desc, b: Desc)
    requires ModeOf(a) == ModeOf(b) && a.format == b.format
             && (a.frame.width, a.frame.height) == (b.frame.width, b.frame.height)
    ensures CandidateOf(limits, caps, a) == CandidateOf(limits, caps, b)
  {
    if Delivered(limits, a) != [] { SameMeet(caps, a, b, Delivered(limits, a)[0].rates); }
  }

  lemma {:induction false} SameMeet(caps: seq<Choice>, a: Desc, b: Desc, rates: Rates)
    requires a.format == b.format && (a.frame.width, a.frame.height) == (b.frame.width, b.frame.height)
    ensures FirstMeet(caps, a, rates) == FirstMeet(caps, b, rates)
  {
    if caps != [] { SameMeet(caps[1..], a, b, rates); }
  }
}
