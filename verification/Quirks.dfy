/** The device quirk table and the caps filter (quirks.c:4-66, 200-314): which advertised modes are offered, and at
    which rates, under a pixel-rate cap. */
module Quirks {
  import opened Bytes

  const G_MAXUINT: nat := 0xFFFF_FFFF
  const GINT_LIMIT: nat := 0x8000_0000
  const TWO_TO_64: nat := 0x1_0000_0000_0000_0000
  const QUIRK_MAX_PIXEL_RATE: nat := 2

  // ---------- the table ----------

  datatype Entry = Entry(vid: nat, pid: nat, flags: nat, maxPixelRate: nat)

  datatype Limits = Limits(flags: nat, maxPixelRate: nat)

  predicate CapFlag(flags: nat) {
    flags / QUIRK_MAX_PIXEL_RATE % 2 == 1
  }

  /** The first row of the table for a device, its length when there is none. */
  method FindRow(table: seq<Entry>, vid: nat, pid: nat) returns (row: nat)
    ensures row <= |table|
    ensures row < |table| ==> table[row].vid == vid && table[row].pid == pid
    ensures forall i :: 0 <= i < row ==> table[i].vid != vid || table[i].pid != pid
  {
    for i := 0 to |table|
      invariant forall k :: 0 <= k < i ==> table[k].vid != vid || table[k].pid != pid
    {
      if table[i].vid == vid && table[i].pid == pid { return i; }
    }
    return |table|;
  }

  /** quirks_limits_in(): a device without a row is unlimited, and a rate without its flag limits nothing. */
  method LimitsIn(table: seq<Entry>, vid: nat, pid: nat) returns (out: Limits)
    ensures (forall i :: 0 <= i < |table| ==> table[i].vid != vid || table[i].pid != pid) ==> out == Limits(0, 0)
    ensures forall i :: 0 <= i < |table| && table[i].vid == vid && table[i].pid == pid
                        && (forall k :: 0 <= k < i ==> table[k].vid != vid || table[k].pid != pid) ==>
              out == Limits(table[i].flags, if CapFlag(table[i].flags) then table[i].maxPixelRate else 0)
  {
    out := Limits(0, 0);
    var row := FindRow(table, vid, pid);
    if row == |table| { return; }
    out := out.(flags := table[row].flags);
    if CapFlag(table[row].flags) { out := out.(maxPixelRate := table[row].maxPixelRate); }
  }

  /** The flag is bit 1, whatever the other bits are. */
  lemma {:induction false} CapFlagIs(high: nat, low: nat)
    requires low < 4
    ensures CapFlag(4 * high + low) <==> low == 2 || low == 3
  {
    assert (4 * high + low) / 2 == 2 * high + low / 2;
  }

  /** The one device with a cap. */
  const Table: seq<Entry> := [Entry(0x2ca3, 0x0023, QUIRK_MAX_PIXEL_RATE, 248832000)]

  method LimitsOf(vid: nat, pid: nat) returns (out: Limits)
    ensures out == if vid == 0x2ca3 && pid == 0x0023 then Limits(2, 3840 * 2160 * 30) else Limits(0, 0)
  {
    out := LimitsIn(Table, vid, pid);
    CapFlagIs(0, 2);
    assert Table[0].vid == vid && Table[0].pid == pid ==> out == Limits(2, 248832000);
  }

  // ---------- the arithmetic of the cap ----------

  predicate Unlimited(limits: Option<Limits>) {
    limits.None? || limits.value.maxPixelRate == 0
  }

  /** uvc_quirk_mode_selectable(): the product is taken in 64 bits. */
  predicate ModeSelectable(limits: Option<Limits>, width: nat, height: nat, fps: nat) {
    Unlimited(limits) || width * height * fps % TWO_TO_64 <= limits.value.maxPixelRate
  }

  /** uvc_quirk_max_fps(): saturating division. */
  function MaxFps(limits: Option<Limits>, width: nat, height: nat): nat {
    if Unlimited(limits) then G_MAXUINT
    else
      var pixels := width * height % TWO_TO_64;
      if pixels == 0 then G_MAXUINT
      else
        var maxFps := limits.value.maxPixelRate / pixels;
        if maxFps > G_MAXUINT then G_MAXUINT else maxFps
  }

  datatype Fraction = Fraction(num: int, den: int)

  /** quirks_fraction_fps(): rounded up. */
  function FractionFps(f: Fraction): nat {
    if f.num <= 0 || f.den <= 0 then 0 else (f.num + f.den - 1) / f.den
  }

  lemma {:induction false} DivAdjoint(p: nat, cap: nat, f: nat)
    requires p > 0
    ensures p * f <= cap <==> f <= cap / p
  {
    var q := cap / p;
    assert cap == p * q + cap % p;
    if f <= q {
      assert p * f <= p * q;
    } else {
      assert p * f >= p * (q + 1) == p * q + p;
    }
  }

  lemma {:induction false} MulMonotone(a: int, b: int, c: nat)
    requires a <= b
    ensures a * c <= b * c
  {
    assert (b - a) * c >= 0;
  }

  lemma {:induction false} ProductFits(w: nat, h: nat, f: nat)
    requires w < 0x1_0000 && h < 0x1_0000 && f <= G_MAXUINT
    ensures w * h < 0x1_0000_0000 && w * h * f < TWO_TO_64
  {
    MulMonotone(w, 0xFFFF, h);
    MulMonotone(w * h, 0xFFFE_0001, f);
  }

  /** For 16-bit geometry the 64-bit product never wraps, and testing one rate against the cap is the same as testing
      it against the greatest rate the cap allows, saturation included. */
  lemma {:induction false} SelectableIffBelowMaxFps(limits: Option<Limits>, width: nat, height: nat, fps: nat)
    requires width < 0x1_0000 && height < 0x1_0000 && fps <= G_MAXUINT
    ensures ModeSelectable(limits, width, height, fps) <==>
            Unlimited(limits) || width * height * fps <= limits.value.maxPixelRate
    ensures ModeSelectable(limits, width, height, fps) <==> fps <= MaxFps(limits, width, height)
  {
    ProductFits(width, height, fps);
    if !Unlimited(limits) && width * height > 0 {
      DivAdjoint(width * height, limits.value.maxPixelRate, fps);
    }
  }

  // ---------- modes ----------

  /** The framerate field: absent, one rate, a continuous range, a list, or something else. */
  datatype Rates = NoRates | One(rate: Fraction) | Range(min: Fraction,
                                                         max: Fraction) | List(rates: seq<Fraction>) | Unknown

  datatype Mode = Mode(media: string, width: Option<int>, height: Option<int>, rates: Rates)

  /** The cast from gint to guint. */
  function ToGuint(n: int): nat {
    n % 0x1_0000_0000
  }

  function KeptRates(limits: Option<Limits>, width: nat, height: nat, rates: seq<Fraction>): seq<Fraction> {
    if rates == [] then []
    else
      var rest, last := KeptRates(limits, width, height, rates[..|rates| - 1]), rates[|rates| - 1];
      if ModeSelectable(limits, width, height, FractionFps(last)) then rest + [last] else rest
  }

  predicate Below(a: Fraction, b: Fraction) {
    a.num * b.den < b.num * a.den
  }

  /** gst_structure_set() of a fraction range: one whose start is not below its end is refused, and the field keeps what
      it held. */
  function WithRange(held: Rates, min: Fraction, max: Fraction): Rates {
    if Below(min, max) then Range(min, max) else held
  }

  /** What one mode becomes, None when it is dropped. */
  function FilterRates(limits: Option<Limits>, width: nat, height: nat, rates: Rates): Option<Rates> {
    match rates
    case NoRates => Some(rates)
    case Unknown => Some(rates)
    case One(rate) => if ModeSelectable(limits, width, height, FractionFps(rate)) then Some(rates) else None
    case Range(min, max) =>
      var cap := MaxFps(limits, width, height);
      if cap == G_MAXUINT || FractionFps(max) <= cap then Some(rates)
      else if min.den <= 0 || FractionFps(min) > cap then None
      else Some(WithRange(rates, min, Fraction(cap, 1)))
    case List(list) =>
      var kept := KeptRates(limits, width, height, list);
      if kept == [] then None else Some(List(kept))
  }

  function FilterMode(limits: Option<Limits>, mode: Mode): Option<Mode> {
    if mode.width.None? || mode.height.None? then Some(mode)
    else match FilterRates(limits, ToGuint(mode.width.value), ToGuint(mode.height.value), mode.rates)
      case None => None
      case Some(rates) => Some(mode.(rates := rates))
  }

  function FilterEach(limits: Option<Limits>, modes: seq<Mode>): seq<Mode> {
    if modes == [] then []
    else
      var rest, last := FilterEach(limits, modes[..|modes| - 1]), FilterMode(limits, modes[|modes| - 1]);
      if last.Some? then rest + [last.value] else rest
  }

  /** uvc_quirks_filter_caps(): no cap, no change. */
  function Deliverable(limits: Option<Limits>, modes: seq<Mode>): seq<Mode> {
    if Unlimited(limits) then modes else FilterEach(limits, modes)
  }

  // ---------- the filter in place ----------

  class Caps {
    var modes: seq<Mode>

    constructor (modes: seq<Mode>)
      ensures this.modes == modes
    {
      this.modes := modes;
    }

    method RemoveStructure(i: nat)
      requires i < |modes|
      modifies this
      ensures modes == old(modes)[..i] + old(modes)[i + 1..]
    {
      modes := modes[..i] + modes[i + 1..];
    }

    method SetRange(i: nat, min: Fraction, max: Fraction)
      requires i < |modes|
      modifies this
      ensures modes == old(modes)[i := old(modes)[i].(rates := WithRange(old(modes)[i].rates, min, max))]
    {
      if Below(min, max) { modes := modes[i := modes[i].(rates := Range(min, max))]; }
    }

    method SetRates(i: nat, rates: Rates)
      requires i < |modes|
      modifies this
      ensures modes == old(modes)[i := old(modes)[i].(rates := rates)]
    {
      modes := modes[i := modes[i].(rates := rates)];
    }
  }

  /** quirks_filter_structure(): edit one structure's rates in place; false when the caller must drop it. The cast of
      the clamped top to gint is exact: it is taken only below the old top. */
  method FilterStructure(limits: Option<Limits>, caps: Caps, i: nat) returns (keep: bool)
    requires i < |caps.modes|
    requires caps.modes[i].rates.Range? ==> FractionFps(caps.modes[i].rates.max) < GINT_LIMIT
    modifies caps
    ensures keep == FilterMode(limits, old(caps.modes[i])).Some?
    ensures caps.modes == if keep then old(caps.modes)[i := FilterMode(limits, old(caps.modes[i])).value]
            else old(caps.modes)
  {
    var mode := caps.modes[i];
    if mode.width.None? || mode.height.None? { return true; }
    var width, height := ToGuint(mode.width.value), ToGuint(mode.height.value);
    match mode.rates {
      case NoRates => return true;
      case Unknown => return true;
      case One(rate) => return ModeSelectable(limits, width, height, FractionFps(rate));
      case Range(min, max) =>
        var cap := MaxFps(limits, width, height);
        if cap == G_MAXUINT || FractionFps(max) <= cap { return true; }
        if min.den <= 0 || FractionFps(min) > cap { return false; }
        assert cap < GINT_LIMIT;
        caps.SetRange(i, min, Fraction(cap, 1));
        return true;
      case List(rates) =>
        var kept := FilterList(limits, width, height, rates);
        if |kept| == 0 { return false; }
        caps.SetRates(i, List(kept));
        return true;
    }
  }

  method FilterList(limits: Option<Limits>, width: nat, height: nat, rates: seq<Fraction>) returns (kept: seq<Fraction>)
    ensures kept == KeptRates(limits, width, height, rates)
  {
    kept := [];
    for i := 0 to |rates|
      invariant kept == KeptRates(limits, width, height, rates[..i])
    {
      assert rates[..i + 1][..i] == rates[..i];
      if !ModeSelectable(limits, width, height, FractionFps(rates[i])) { continue; }
      kept := kept + [rates[i]];
    }
    assert rates[..|rates|] == rates;
  }

  /** What the cap is for: at 3840x2160 the capped device may be asked for 30 frames a second and no more. */
  lemma {:induction false} CappedDevice(fps: nat)
    requires fps <= G_MAXUINT
    ensures ModeSelectable(Some(Limits(2, 248832000)), 3840, 2160, fps) <==> fps <= 30
  {
    SelectableIffBelowMaxFps(Some(Limits(2, 248832000)), 3840, 2160, fps);
  }

  lemma {:induction false} CappedMore(front: seq<nat>, fps: nat, rates: seq<nat>)
    requires fps <= G_MAXUINT && rates == front + [fps]
    ensures var limits := Some(Limits(2, 248832000));
            KeptRates(limits, 3840, 2160, PerSecond(rates)) ==
            KeptRates(limits, 3840, 2160, PerSecond(front)) + if fps <= 30 then [Fraction(fps, 1)] else []
  {
    CappedDevice(fps);
    assert PerSecond(rates) == PerSecond(front) + [Fraction(fps, 1)];
    assert PerSecond(rates)[..|front|] == PerSecond(front);
  }

  /** Of the ladder it advertises there, three rates are kept. */
  lemma {:induction false} CappedLadder()
    ensures KeptRates(Some(Limits(2, 248832000)), 3840, 2160, PerSecond([60, 50, 48, 30, 25, 24])) ==
            [Fraction(30, 1), Fraction(25, 1), Fraction(24, 1)]
  {
    assert PerSecond([]) == [];
    CappedMore([], 60, [60]);
    CappedMore([60], 50, [60, 50]);
    CappedMore([60, 50], 48, [60, 50, 48]);
    CappedMore([60, 50, 48], 30, [60, 50, 48, 30]);
    CappedMore([60, 50, 48, 30], 25, [60, 50, 48, 30, 25]);
    CappedMore([60, 50, 48, 30, 25], 24, [60, 50, 48, 30, 25, 24]);
  }

  /** Whole rates. */
  function PerSecond(rates: seq<nat>): seq<Fraction> {
    seq(|rates|, i requires 0 <= i < |rates| => Fraction(rates[i], 1))
  }

  ghost predicate GintRates(modes: seq<Mode>) {
    forall i :: 0 <= i < |modes| && modes[i].rates.Range? ==> FractionFps(modes[i].rates.max) < GINT_LIMIT
  }

  /** The loop removes by index while it goes; the advertised caps stay as they are. */
  method FilterCaps(limits: Option<Limits>, advertised: Caps) returns (deliverable: Caps)
    requires GintRates(advertised.modes)
    ensures fresh(deliverable) && deliverable.modes == Deliverable(limits, advertised.modes)
  {
    deliverable := new Caps(advertised.modes);
    if Unlimited(limits) { return; }
    ghost var all, done := advertised.modes, 0;
    var i := 0;
    while i < |deliverable.modes|
      invariant fresh(deliverable) && 0 <= done <= |all| && 0 <= i <= |deliverable.modes|
      invariant deliverable.modes[..i] == FilterEach(limits, all[..done])
      invariant deliverable.modes[i..] == all[done..]
      decreases |deliverable.modes| - i
    {
      ghost var before := deliverable.modes;
      assert before[i] == before[i..][0] == all[done];
      assert all[..done + 1][..done] == all[..done];
      assert before[i + 1..] == before[i..][1..] == all[done + 1..];
      var keep := FilterStructure(limits, deliverable, i);
      if keep {
        assert deliverable.modes[..i + 1] == before[..i] + [deliverable.modes[i]];
        i := i + 1;
      } else {
        deliverable.RemoveStructure(i);
      }
      done := done + 1;
    }
    assert deliverable.modes[..i] == deliverable.modes && all[..done] == all;
  }

  // ---------- what the filter means ----------

  function Ceil(num: nat, den: nat): nat
    requires den > 0
  {
    (num + den - 1) / den
  }

  predicate AtMost(a: Fraction, b: Fraction) {
    a.num * b.den <= b.num * a.den
  }

  predicate SameRate(a: Fraction, b: Fraction) {
    a.num * b.den == b.num * a.den
  }

  ghost predicate InList(rates: seq<Fraction>, r: Fraction) {
    exists i :: 0 <= i < |rates| && SameRate(rates[i], r)
  }

  /** The mode offers the rate. */
  ghost predicate Offers(rates: Rates, r: Fraction) {
    match rates
    case One(rate) => SameRate(rate, r)
    case Range(min, max) => AtMost(min, r) && AtMost(r, max)
    case List(list) => InList(list, r)
    case _ => true
  }

  predicate IsFraction(f: Fraction) {
    0 <= f.num < GINT_LIMIT && 0 < f.den < GINT_LIMIT
  }

  /** Rates as GStreamer holds them: fractions of gints with a positive denominator, ranges that are not empty. */
  ghost predicate ProperRates(rates: Rates) {
    match rates
    case One(rate) => IsFraction(rate)
    case Range(min, max) => IsFraction(min) && IsFraction(max) && AtMost(min, max)
    case List(list) => forall i :: 0 <= i < |list| ==> IsFraction(list[i])
    case _ => false
  }

  lemma {:induction false} CeilAdjoint(num: nat, den: nat, c: nat)
    requires den > 0
    ensures Ceil(num, den) <= c <==> num <= c * den
  {
    var q := Ceil(num, den);
    assert num + den - 1 == den * q + (num + den - 1) % den;
    if q <= c {
      assert den * q <= den * c;
    } else {
      assert den * q >= den * (c + 1) == den * c + den;
    }
  }

  lemma {:induction false} Cancel(a: int, b: int, d: int)
    requires d > 0
    ensures a * d <= b * d <==> a <= b
  {
    if a <= b { MulMonotone(a, b, d); } else { MulMonotone(b + 1, a, d); }
  }

  lemma {:induction false} CeilMonotone(a: Fraction, b: Fraction)
    requires a.num >= 0 && a.den > 0 && b.num >= 0 && b.den > 0 && AtMost(a, b)
    ensures Ceil(a.num, a.den) <= Ceil(b.num, b.den)
  {
    var c := Ceil(b.num, b.den);
    CeilAdjoint(b.num, b.den, c);
    assert b.num * a.den <= (c * b.den) * a.den == (c * a.den) * b.den;
    Cancel(a.num, c * a.den, b.den);
    CeilAdjoint(a.num, a.den, c);
  }

  lemma {:induction false} FpsIsCeil(f: Fraction)
    requires IsFraction(f)
    ensures FractionFps(f) == Ceil(f.num, f.den) < GINT_LIMIT
  {
    CeilAdjoint(f.num, f.den, f.num);
    MulMonotone(1, f.den, f.num);
    if f.num == 0 { CeilAdjoint(0, f.den, 0); }
  }

  /** The pixel rate of the rate, judged at its ceiling, is within the cap. */
  predicate Within(limits: Option<Limits>, width: nat, height: nat, r: Fraction)
    requires r.num >= 0 && r.den > 0
  {
    Unlimited(limits) || width * height * Ceil(r.num, r.den) <= limits.value.maxPixelRate
  }

  lemma {:induction false} SelectableIsWithin(limits: Option<Limits>, width: nat, height: nat, f: Fraction)
    requires width < 0x1_0000 && height < 0x1_0000 && IsFraction(f)
    ensures ModeSelectable(limits, width, height, FractionFps(f)) <==> Within(limits, width, height, f)
  {
    FpsIsCeil(f);
    SelectableIffBelowMaxFps(limits, width, height, FractionFps(f));
  }

  lemma {:induction false} WithinIsBelowCap(limits: Option<Limits>, width: nat, height: nat, r: Fraction)
    requires width < 0x1_0000 && height < 0x1_0000 && r.num >= 0 && r.den > 0 && Ceil(r.num, r.den) <= G_MAXUINT
    ensures Within(limits, width, height, r) <==> Ceil(r.num, r.den) <= MaxFps(limits, width, height)
  {
    SelectableIffBelowMaxFps(limits, width, height, Ceil(r.num, r.den));
  }

  lemma {:induction false} SameRateWithin(limits: Option<Limits>, width: nat, height: nat, a: Fraction, b: Fraction)
    requires a.num >= 0 && a.den > 0 && b.num >= 0 && b.den > 0 && SameRate(a, b)
    ensures Within(limits, width, height, a) <==> Within(limits, width, height, b)
  {
    CeilMonotone(a, b);
    CeilMonotone(b, a);
  }

  lemma {:induction false} KeptAre(limits: Option<Limits>, width: nat, height: nat, rates: seq<Fraction>, f: Fraction)
    ensures f in KeptRates(limits, width, height, rates) <==>
            f in rates && ModeSelectable(limits, width, height, FractionFps(f))
  {
    if rates != [] {
      KeptAre(limits, width, height, rates[..|rates| - 1], f);
      assert rates == rates[..|rates| - 1] + [rates[|rates| - 1]];
    }
  }

  lemma {:induction false} ListOffers(limits: Option<Limits>, width: nat, height: nat, rates: seq<Fraction>,
                                      r: Fraction)
    requires width < 0x1_0000 && height < 0x1_0000 && r.num >= 0 && r.den > 0
    requires forall i :: 0 <= i < |rates| ==> IsFraction(rates[i])
    ensures InList(KeptRates(limits, width, height, rates), r) <==> InList(rates, r) && Within(limits, width, height, r)
  {
    var kept := KeptRates(limits, width, height, rates);
    if InList(kept, r) {
      var i :| 0 <= i < |kept| && SameRate(kept[i], r);
      KeptAre(limits, width, height, rates, kept[i]);
      SelectableIsWithin(limits, width, height, kept[i]);
      SameRateWithin(limits, width, height, kept[i], r);
    }
    if InList(rates, r) && Within(limits, width, height, r) {
      var i :| 0 <= i < |rates| && SameRate(rates[i], r);
      SameRateWithin(limits, width, height, rates[i], r);
      SelectableIsWithin(limits, width, height, rates[i]);
      KeptAre(limits, width, height, rates, rates[i]);
    }
  }

  /** The clamp asks for the range from the cap to the cap, which is refused: the rates above the cap stay. */
  predicate ClampRefused(limits: Option<Limits>, width: nat, height: nat, rates: Rates) {
    && rates.Range? && MaxFps(limits, width, height) < FractionFps(rates.max)
    && SameRate(rates.min, Fraction(MaxFps(limits, width, height), 1))
  }

  lemma {:induction false} RefusedIsKept(limits: Option<Limits>, width: nat, height: nat, rates: Rates)
    requires ProperRates(rates) && ClampRefused(limits, width, height, rates)
    ensures FilterRates(limits, width, height, rates) == Some(rates)
  {
    var cap := MaxFps(limits, width, height);
    FpsIsCeil(rates.min);
    FpsIsCeil(rates.max);
    CeilAdjoint(rates.min.num, rates.min.den, cap);
  }

  lemma {:induction false} RangeOffers(limits: Option<Limits>, width: nat, height: nat, min: Fraction, max: Fraction,
                                       r: Fraction)
    requires width < 0x1_0000 && height < 0x1_0000 && r.num >= 0 && r.den > 0
    requires ProperRates(Range(min, max)) && !ClampRefused(limits, width, height, Range(min, max))
    ensures var after := FilterRates(limits, width, height, Range(min, max));
            (after.Some? && Offers(after.value, r)) <==> Offers(Range(min, max), r) && Within(limits, width, height, r)
  {
    var cap := MaxFps(limits, width, height);
    FpsIsCeil(min);
    FpsIsCeil(max);
    CeilAdjoint(min.num, min.den, cap);
    CeilAdjoint(r.num, r.den, cap);
    if AtMost(r, max) {
      CeilMonotone(r, max);
      WithinIsBelowCap(limits, width, height, r);
    } else if FractionFps(max) > cap {
      CapBelow(r, max, cap);
    }
    if AtMost(min, r) { CeilMonotone(min, r); }
  }

  /** A rate below a cap that is below the old top is below the old top. */
  lemma {:induction false} CapBelow(r: Fraction, max: Fraction, cap: nat)
    requires r.num >= 0 && r.den > 0 && max.num >= 0 && max.den > 0 && Ceil(max.num, max.den) > cap
    ensures AtMost(r, Fraction(cap, 1)) ==> AtMost(r, max)
  {
    CeilAdjoint(max.num, max.den, cap);
    if r.num <= cap * r.den {
      MulMonotone(r.num, cap * r.den, max.den);
      MulMonotone(cap * max.den, max.num, r.den);
      assert (cap * r.den) * max.den == (cap * max.den) * r.den;
    }
  }

  /** A rate, any rational inside a continuous range included, is offered afterwards exactly when it was offered before
      and width * height * ceil(rate) is within the cap, or the clamp was refused. */
  lemma {:induction false} FilterOffers(limits: Option<Limits>, width: nat, height: nat, rates: Rates, r: Fraction)
    requires width < 0x1_0000 && height < 0x1_0000 && r.num >= 0 && r.den > 0 && ProperRates(rates)
    ensures var after := FilterRates(limits, width, height, rates);
            (after.Some? && Offers(after.value, r)) <==>
            Offers(rates, r) && (Within(limits, width, height, r) || ClampRefused(limits, width, height, rates))
  {
    if ClampRefused(limits, width, height, rates) {
      RefusedIsKept(limits, width, height, rates);
    } else {
      match rates {
        case One(rate) =>
          SelectableIsWithin(limits, width, height, rate);
          if SameRate(rate, r) { SameRateWithin(limits, width, height, rate, r); }
        case Range(min, max) => RangeOffers(limits, width, height, min, max, r);
        case List(list) => ListOffers(limits, width, height, list, r);
      }
    }
  }

  /** The rate is offered afterwards exactly when it was offered before and is within the cap. */
  ghost predicate Pointwise(limits: Option<Limits>, width: nat, height: nat, rates: Rates, r: Fraction)
    requires r.num >= 0 && r.den > 0
  {
    var after := FilterRates(limits, width, height, rates);
    (after.Some? && Offers(after.value, r)) <==> Offers(rates, r) && Within(limits, width, height, r)
  }

  /** The filter is pointwise exactly when the clamp is not refused. */
  lemma {:induction false} FilterIsPointwise(limits: Option<Limits>, width: nat, height: nat, rates: Rates)
    requires width < 0x1_0000 && height < 0x1_0000 && ProperRates(rates)
    ensures (forall r: Fraction :: r.num >= 0 && r.den > 0 ==> Pointwise(limits, width, height, rates, r)) <==>
            !ClampRefused(limits, width, height, rates)
  {
    forall r: Fraction | r.num >= 0 && r.den > 0 && !ClampRefused(limits, width, height, rates)
      ensures Pointwise(limits, width, height, rates, r)
    {
      FilterOffers(limits, width, height, rates, r);
    }
    if ClampRefused(limits, width, height, rates) { TopStays(limits, width, height, rates); }
  }

  lemma {:induction false} TopStays(limits: Option<Limits>, width: nat, height: nat, rates: Rates)
    requires width < 0x1_0000 && height < 0x1_0000 && ProperRates(rates) && ClampRefused(limits, width, height, rates)
    ensures !Pointwise(limits, width, height, rates, rates.max)
  {
    RefusedIsKept(limits, width, height, rates);
    FpsIsCeil(rates.max);
    WithinIsBelowCap(limits, width, height, rates.max);
  }

  /** 100x100 from 15 to 60 fps under a cap of 15 fps: 60 fps stay offered. */
  lemma {:induction false} ClampOntoBottom()
    ensures var limits, rates := Some(Limits(QUIRK_MAX_PIXEL_RATE, 150000)), Range(Fraction(15, 1), Fraction(60, 1));
            && FilterRates(limits, 100, 100, rates) == Some(rates)
            && Offers(rates, Fraction(60, 1)) && !Within(limits, 100, 100, Fraction(60, 1))
  {
    var limits, rates := Some(Limits(QUIRK_MAX_PIXEL_RATE, 150000)), Range(Fraction(15, 1), Fraction(60, 1));
    assert MaxFps(limits, 100, 100) == 15;
    RefusedIsKept(limits, 100, 100, rates);
    assert Ceil(60, 1) == 60;
  }

  /** A mode is dropped exactly when it offers no rate within the cap. */
  lemma {:induction false} DroppedIffNothingSurvives(limits: Option<Limits>, width: nat, height: nat, rates: Rates)
    requires width < 0x1_0000 && height < 0x1_0000 && ProperRates(rates)
    ensures FilterRates(limits, width, height, rates).None? <==>
            forall r: Fraction :: r.num >= 0 && r.den > 0 && Offers(rates, r) ==> !Within(limits, width, height, r)
  {
    var after := FilterRates(limits, width, height, rates);
    forall r: Fraction | r.num >= 0 && r.den > 0 && Offers(rates, r) && after.None?
      ensures !Within(limits, width, height, r)
    {
      FilterOffers(limits, width, height, rates, r);
    }
    if after.Some? {
      var r := match after.value
               case One(rate) => rate
               case Range(min, _) => min
               case List(list) => list[0];
      Survivor(limits, width, height, rates, r);
    }
  }

  lemma {:induction false} Survivor(limits: Option<Limits>, width: nat, height: nat, rates: Rates, r: Fraction)
    requires width < 0x1_0000 && height < 0x1_0000 && ProperRates(rates)
    requires FilterRates(limits, width, height, rates).Some?
    requires match FilterRates(limits, width, height, rates).value
             case One(rate) => r == rate
             case Range(min, _) => r == min
             case List(list) => list != [] && r == list[0]
             case _ => false
    ensures r.num >= 0 && r.den > 0 && Offers(rates, r) && Within(limits, width, height, r)
  {
    match rates {
      case One(rate) => SelectableIsWithin(limits, width, height, rate);
      case Range(min, max) =>
        FpsIsCeil(min);
        FpsIsCeil(max);
        CeilMonotone(min, max);
        WithinIsBelowCap(limits, width, height, min);
      case List(list) =>
        KeptAre(limits, width, height, list, r);
        var i :| 0 <= i < |list| && list[i] == r;
        SelectableIsWithin(limits, width, height, r);
        assert SameRate(list[i], r);
    }
  }

  // ---------- laws of the whole filter ----------

  lemma {:induction false} KeptTwice(limits: Option<Limits>, width: nat, height: nat, rates: seq<Fraction>)
    ensures var kept := KeptRates(limits, width, height, rates); KeptRates(limits, width, height, kept) == kept
  {
    if rates != [] {
      var rest := rates[..|rates| - 1];
      KeptTwice(limits, width, height, rest);
      var keptRest := KeptRates(limits, width, height, rest);
      assert (keptRest + [rates[|rates| - 1]])[..|keptRest|] == keptRest;
    }
  }

  lemma {:induction false} ModeTwice(limits: Option<Limits>, mode: Mode)
    ensures FilterMode(limits, mode).Some? ==>
              FilterMode(limits, FilterMode(limits, mode).value) == FilterMode(limits, mode)
  {
    if mode.width.Some? && mode.height.Some? && mode.rates.List? {
      KeptTwice(limits, ToGuint(mode.width.value), ToGuint(mode.height.value), mode.rates.rates);
    }
  }

  /** Filtering a list of modes that is appended to is appending the filtered modes. */
  lemma {:induction false} DeliverableAppend(limits: Option<Limits>, a: seq<Mode>, b: seq<Mode>)
    ensures Deliverable(limits, a + b) == Deliverable(limits, a) + Deliverable(limits, b)
  {
    if b == [] {
      assert a + b == a;
    } else {
      var rest := b[..|b| - 1];
      DeliverableAppend(limits, a, rest);
      assert (a + b)[..|a + b| - 1] == a + rest;
    }
  }

  /** Filtering twice is filtering once. */
  lemma {:induction false} DeliverableTwice(limits: Option<Limits>, modes: seq<Mode>)
    ensures Deliverable(limits, Deliverable(limits, modes)) == Deliverable(limits, modes)
  {
    if modes != [] && !Unlimited(limits) {
      var rest, last := modes[..|modes| - 1], modes[|modes| - 1];
      DeliverableTwice(limits, rest);
      ModeTwice(limits, last);
      var after := FilterMode(limits, last);
      if after.Some? {
        var done := FilterEach(limits, rest);
        assert (done + [after.value])[..|done|] == done;
      }
    }
  }

  /** Without a cap everything is delivered as advertised, and so are, under any cap, modes whose pixel rate cannot be
      judged: without geometry, without a framerate, or with one of another type. */
  lemma {:induction false} UnjudgedPass(limits: Option<Limits>, modes: seq<Mode>)
    requires || limits == None || limits.value.maxPixelRate == 0
             || forall i :: 0 <= i < |modes| ==>
                  || modes[i].width == None || modes[i].height == None
                  || modes[i].rates == NoRates || modes[i].rates == Unknown
    ensures Deliverable(limits, modes) == modes
  {
    if !Unlimited(limits) && modes != [] {
      var rest := modes[..|modes| - 1];
      UnjudgedPass(limits, rest);
      assert modes == rest + [modes[|modes| - 1]];
    }
  }

  predicate Survives(limits: Option<Limits>, mode: Mode) {
    Unlimited(limits) || FilterMode(limits, mode).Some?
  }

  /** What a surviving mode is offered as. */
  function Offered(limits: Option<Limits>, mode: Mode): Mode
    requires Survives(limits, mode)
  {
    if Unlimited(limits) then mode else FilterMode(limits, mode).value
  }

  /** The positions below n of the modes that survive. */
  function Survivors(limits: Option<Limits>, modes: seq<Mode>, n: nat): seq<nat>
    requires n <= |modes|
  {
    if n == 0 then []
    else Survivors(limits, modes, n - 1) + if Survives(limits, modes[n - 1]) then [n - 1] else []
  }

  /** The positions are those of the surviving modes, in order. */
  lemma {:induction false} SurvivorsAre(limits: Option<Limits>, modes: seq<Mode>, n: nat)
    requires n <= |modes|
    ensures forall i :: i in Survivors(limits, modes, n) <==> 0 <= i < n && Survives(limits, modes[i])
    ensures forall j, k :: 0 <= j < k < |Survivors(limits, modes, n)| ==>
              Survivors(limits, modes, n)[j] < Survivors(limits, modes, n)[k]
  {
    if n > 0 {
      SurvivorsAre(limits, modes, n - 1);
      var rest := Survivors(limits, modes, n - 1);
      forall j | 0 <= j < |rest| ensures rest[j] < n - 1 { assert rest[j] in rest; }
    }
  }

  lemma {:induction false} DeliverableSnoc(limits: Option<Limits>, modes: seq<Mode>, n: nat)
    requires 0 < n <= |modes|
    ensures var last := modes[n - 1];
            Deliverable(limits, modes[..n]) ==
            Deliverable(limits, modes[..n - 1]) + if Survives(limits, last) then [Offered(limits, last)] else []
  {
    assert modes[..n][..n - 1] == modes[..n - 1];
  }

  ghost predicate Placed(limits: Option<Limits>, modes: seq<Mode>, n: nat, k: nat)
    requires n <= |modes|
  {
    var at, out := Survivors(limits, modes, n), Deliverable(limits, modes[..n]);
    && k < |at| == |out|
    && at[k] < |modes| && Survives(limits, modes[at[k]]) && out[k] == Offered(limits, modes[at[k]])
  }

  lemma {:induction false} SameCount(limits: Option<Limits>, modes: seq<Mode>, n: nat)
    requires n <= |modes|
    ensures |Survivors(limits, modes, n)| == |Deliverable(limits, modes[..n])|
  {
    if n > 0 {
      SameCount(limits, modes, n - 1);
      DeliverableSnoc(limits, modes, n);
    }
  }

  /** The order is kept: the k-th mode delivered is what the k-th surviving mode became. With SurvivorsAre: nothing
      that survives is left out, nothing is swapped, nothing appears twice. */
  lemma {:induction false} OrderIsKept(limits: Option<Limits>, modes: seq<Mode>, n: nat, k: nat)
    requires n <= |modes| && k < |Survivors(limits, modes, n)|
    ensures Placed(limits, modes, n, k)
  {
    if k < |Survivors(limits, modes, n - 1)| { OrderIsKept(limits, modes, n - 1, k); }
    PlacedNext(limits, modes, n, k);
  }

  lemma {:induction false} PlacedNext(limits: Option<Limits>, modes: seq<Mode>, n: nat, k: nat)
    requires 0 < n <= |modes| && k < |Survivors(limits, modes, n)|
    requires k < |Survivors(limits, modes, n - 1)| ==> Placed(limits, modes, n - 1, k)
    ensures Placed(limits, modes, n, k)
  {
    SameCount(limits, modes, n - 1);
    DeliverableSnoc(limits, modes, n);
  }
}
