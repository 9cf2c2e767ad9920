/** Access-unit boundaries (frame_pipeline.c:147-239; section 7.4.1.2.3 of ITU-T H.264, section 7.4.2.4.4 of
    ITU-T H.265): the first-slice test, and the splitter whose running flags are proved equal to a definition
    that looks at each index alone. */
module AccessUnits {
  import opened Bytes
  import opened AnnexB

  predicate IsParameterSet(kind: UnitKind) {
    kind == Vps || kind == Sps || kind == Pps
  }

  /** The source's notion of a slice: the mapped IDR and non-IDR kinds only. */
  predicate IsSlice(kind: UnitKind) {
    kind == FrameIdr || kind == FrameNonIdr
  }

  function HeaderLength(format: Format): nat {
    if format == H265 then 2 else 1
  }

  /** The top bit of the first payload byte is set. */
  predicate OpensNewPicture(format: Format, unit: NalUnit) {
    var payload := NalHeaderOffset(unit) + HeaderLength(format);
    payload < |unit.bytes| && unit.bytes[payload] >= 128
  }

  // ---------- the full slice-header decode the top-bit test stands for ----------

  /** Section 7.3.1.1 of ITU-T H.264: drop the 03 of every 00 00 03. */
  function Rbsp(payload: seq<byte>): seq<byte>
    decreases |payload|
  {
    if |payload| >= 3 && payload[0] == 0 && payload[1] == 0 && payload[2] == 3 then [0, 0] + Rbsp(payload[3..])
    else if payload == [] then []
    else [payload[0]] + Rbsp(payload[1..])
  }

  function Pow2(n: nat): nat {
    if n == 0 then 1 else 2 * Pow2(n - 1)
  }

  /** Bit `i` of a byte string, the most significant bit of each byte first. */
  function Bit(data: seq<byte>, i: nat): nat
    requires i < 8 * |data|
  {
    Pow2Positive(7 - i % 8);
    data[i / 8] / Pow2(7 - i % 8) % 2
  }

  /** The number of zero bits from bit `i` on, or None when no one bit follows. */
  function LeadingZeros(data: seq<byte>, i: nat): Option<nat>
    decreases 8 * |data| - i
  {
    if i >= 8 * |data| then None
    else if Bit(data, i) == 1 then Some(0)
    else match LeadingZeros(data, i + 1) case Some(z) => Some(z + 1) case None => None
  }

  function ReadBits(data: seq<byte>, i: nat, n: nat): Option<nat> {
    if n == 0 then Some(0)
    else if i + n > 8 * |data| then None
    else match ReadBits(data, i, n - 1) case Some(v) => Some(2 * v + Bit(data, i + n - 1)) case None => None
  }

  /** ue(v), section 9.1 of ITU-T H.264: codeNum = 2^leadingZeroBits - 1 + read_bits(leadingZeroBits). */
  function ReadUe(data: seq<byte>, i: nat): Option<nat> {
    match LeadingZeros(data, i)
    case None => None
    case Some(z) =>
      match ReadBits(data, i + z + 1, z)
      case None => None
      case Some(v) => Pow2Positive(z); Some(Pow2(z) - 1 + v)
  }

  /** What the slice header says, decoded in full from the unit's bytes after `header`:
      first_mb_in_slice == 0 in H.264, first_slice_segment_in_pic_flag == 1 in H.265. */
  predicate IsFirstSliceOfPicture(format: Format, nalPayload: seq<byte>) {
    if format == H265 then ReadBits(Rbsp(nalPayload), 0, 1) == Some(1)
    else ReadUe(Rbsp(nalPayload), 0) == Some(0)
  }

  lemma {:induction false} Pow2Positive(n: nat)
    ensures Pow2(n) >= 1 && (n > 0 ==> Pow2(n) >= 2)
  {
    if n > 0 { Pow2Positive(n - 1); }
  }

  lemma {:induction false} FirstBit(data: seq<byte>)
    requires data != []
    ensures Bit(data, 0) == if data[0] >= 128 then 1 else 0
  {
    assert Pow2(7) == 128 by {
      assert Pow2(1) == 2 && Pow2(2) == 4 && Pow2(3) == 8 && Pow2(4) == 16;
      assert Pow2(5) == 32 && Pow2(6) == 64;
    }
  }

  /** The first rows of table 9-2 of ITU-T H.264: the bit strings 1, 010 and 011 stand for 0, 1 and 2. */
  lemma {:induction false} ShortCodes(data: seq<byte>, i: nat)
    requires i + 3 <= 8 * |data|
    ensures Bit(data, i) == 1 ==> ReadUe(data, i) == Some(0)
    ensures Bit(data, i) == 0 && Bit(data, i + 1) == 1 ==> ReadUe(data, i) == Some(1 + Bit(data, i + 2))
  {
    if Bit(data, i) == 1 {
      assert LeadingZeros(data, i) == Some(0) && ReadBits(data, i + 1, 0) == Some(0);
    } else if Bit(data, i + 1) == 1 {
      assert LeadingZeros(data, i + 1) == Some(0) && LeadingZeros(data, i) == Some(1);
      assert ReadBits(data, i + 2, 0) == Some(0) && ReadBits(data, i + 2, 1) == Some(Bit(data, i + 2));
      assert Pow2(1) == 2;
    }
  }

  /** A prevention byte is dropped, whatever stands behind it. */
  lemma {:induction false} PreventionDropped(front: byte, rest: seq<byte>)
    requires front != 0
    ensures Rbsp([front, 0, 0, 3] + rest) == [front, 0, 0] + Rbsp(rest)
  {
    var payload := [front, 0, 0, 3] + rest;
    assert payload[1..] == [0, 0, 3] + rest && payload[1..][3..] == rest;
  }

  lemma {:induction false} RbspKeepsFirstByte(payload: seq<byte>)
    requires payload != []
    ensures Rbsp(payload) != [] && Rbsp(payload)[0] == payload[0]
  {
  }

  /** For every parsed slice of either codec the one-bit test decides exactly what the full decode of the
      slice header decides, and the guessed start-code length is the real one. */
  lemma {:induction false} TopBitDecidesFirstSlice(format: Format, buf: seq<byte>, k: nat)
    requires k < |Units(format, buf)| && IsSlice(Units(format, buf)[k].kind)
    ensures k < |Codes(buf, 0)|
    ensures var unit := Units(format, buf)[k];
            var header := Codes(buf, 0)[k] + 3 - unit.start;
            && NalHeaderOffset(unit) == header < |unit.bytes|
            && (header + HeaderLength(format) <= |unit.bytes| ==>
                  (OpensNewPicture(format, unit) <==>
                   IsFirstSliceOfPicture(format, unit.bytes[header + HeaderLength(format)..])))
            && (header + HeaderLength(format) > |unit.bytes| ==> !OpensNewPicture(format, unit))
  {
    UnitWellFormed(format, buf, k);
    var unit := Units(format, buf)[k];
    var at := NalHeaderOffset(unit) + HeaderLength(format);
    if at <= |unit.bytes| { TopBitIsFirstSlice(format, unit.bytes[at..]); }
  }

  lemma {:induction false} TopBitIsFirstSlice(format: Format, payload: seq<byte>)
    ensures (payload != [] && payload[0] >= 128) <==> IsFirstSliceOfPicture(format, payload)
  {
    if payload != [] {
      RbspKeepsFirstByte(payload);
      var data := Rbsp(payload);
      FirstBit(data);
      assert ReadBits(data, 0, 0) == Some(0);
      match LeadingZeros(data, 0)
      case Some(z) => Pow2Positive(z);
      case None =>
    }
  }

  /** Where the slice's payload begins: behind the header of one byte in H.264 and of two in H.265. */
  function SlicePayload(format: Format, buf: seq<byte>, k: nat): nat
    requires k < |Codes(buf, 0)|
  {
    Codes(buf, 0)[k] + if format == H265 then 5 else 4
  }

  /** A slice opens a new picture exactly when its header, decoded in full from the byte behind the unit header up to
      the end of the unit, says that it is the first slice of a picture. */
  lemma {:induction false} OpensIffFirstSlice(format: Format, buf: seq<byte>, k: nat)
    requires k < |Units(format, buf)| && IsSlice(Units(format, buf)[k].kind)
    ensures k < |Codes(buf, 0)|
    ensures var unit, at := Units(format, buf)[k], SlicePayload(format, buf, k);
            var end := unit.start + |unit.bytes|;
            && end <= |buf|
            && (OpensNewPicture(format, unit) <==> at < end && IsFirstSliceOfPicture(format, buf[at..end]))
  {
    UnitWellFormed(format, buf, k);
    UnitExtent(format, buf, k);
    var unit, at := Units(format, buf)[k], SlicePayload(format, buf, k);
    var end := unit.start + |unit.bytes|;
    if at < end {
      TopBitIsFirstSlice(format, buf[at..end]);
      SliceAt(buf, unit.start, end, at - unit.start);
    }
  }

  // ---------- specification of the split ----------

  /** Scanning on from `i`, a slice that opens a new picture comes before any AUD and any other slice. */
  predicate NextSliceOpens(format: Format, units: seq<NalUnit>, i: nat)
    decreases |units| - i
  {
    if i >= |units| || units[i].kind == Aud then false
    else if IsSlice(units[i].kind) then OpensNewPicture(format, units[i])
    else NextSliceOpens(format, units, i + 1)
  }

  /** Unit `i` heads an access unit: it is the first unit, or an AUD, or it follows a slice and the next
      slice opens a new picture. */
  predicate IsAuStart(format: Format, units: seq<NalUnit>, i: nat) {
    && i < |units|
    && (i == 0 || units[i].kind == Aud || (IsSlice(units[i - 1].kind) && NextSliceOpens(format, units, i)))
  }

  /** The access-unit heads below `limit`, in order. */
  function StartsBelow(format: Format, units: seq<NalUnit>, limit: nat): seq<nat> {
    if limit == 0 then []
    else if IsAuStart(format, units, limit - 1) then StartsBelow(format, units, limit - 1) + [limit - 1]
    else StartsBelow(format, units, limit - 1)
  }

  function AuStarts(format: Format, units: seq<NalUnit>): seq<nat> {
    StartsBelow(format, units, |units|)
  }

  lemma {:induction false} StartsBelowSpec(format: Format, units: seq<NalUnit>, limit: nat)
    ensures |StartsBelow(format, units, limit)| <= limit
    ensures forall i :: i in StartsBelow(format, units, limit) <==> 0 <= i < limit && IsAuStart(format, units, i)
    ensures forall j, k :: 0 <= j < k < |StartsBelow(format, units, limit)| ==>
              StartsBelow(format, units, limit)[j] < StartsBelow(format, units, limit)[k]
  {
    if limit > 0 {
      StartsBelowSpec(format, units, limit - 1);
      var shorter := StartsBelow(format, units, limit - 1);
      forall j | 0 <= j < |shorter| ensures shorter[j] < limit - 1 { assert shorter[j] in shorter; }
    }
  }

  // ---------- the source's loop ----------

  /** What the running flags mean before unit `i` is looked at. While the current access unit holds a slice, the
      place right after its latest slice is a head if and only if the scan from `i` finds a picture opening. */
  ghost predicate SplitState(format: Format, units: seq<NalUnit>, i: nat, auHasSlice: bool, nonvclRun: Option<nat>,
                             stored: seq<nat>) {
    && i <= |units|
    && (i > 0 <==> stored != [])
    && (if !auHasSlice then
          StartsBelow(format, units, i) == stored && (i > 0 ==> !IsSlice(units[i - 1].kind))
        else
          var open := if nonvclRun.Some? then nonvclRun.value else i;
          && i > 0
          && open <= i
          && (open == i <==> IsSlice(units[i - 1].kind))
          && StartsBelow(format, units, i) ==
             if open < i && NextSliceOpens(format, units, i) then stored + [open] else stored)
  }

  lemma {:induction false} SplitSlice(format: Format, units: seq<NalUnit>, i: nat, auHasSlice: bool,
                                      nonvclRun: Option<nat>, stored: seq<nat>)
    requires 0 < i < |units| && IsSlice(units[i].kind)
    requires SplitState(format, units, i, auHasSlice, nonvclRun, stored)
    ensures var open := if nonvclRun.Some? then nonvclRun.value else i;
            var stored' := if auHasSlice && OpensNewPicture(format, units[i]) then stored + [open] else stored;
            && SplitState(format, units, i + 1, true, None, stored')
            && StartsBelow(format, units, i + 1) == stored'
  {
  }

  lemma {:induction false} SplitOther(format: Format, units: seq<NalUnit>, i: nat, auHasSlice: bool,
                                      nonvclRun: Option<nat>, stored: seq<nat>)
    requires 0 < i < |units| && !IsSlice(units[i].kind) && units[i].kind != Aud
    requires SplitState(format, units, i, auHasSlice, nonvclRun, stored)
    ensures SplitState(format, units, i + 1, auHasSlice, if nonvclRun == None then Some(i) else nonvclRun, stored)
  {
  }

  lemma {:induction false} SplitAud(format: Format, units: seq<NalUnit>, i: nat, auHasSlice: bool,
                                    nonvclRun: Option<nat>, stored: seq<nat>)
    requires 0 < i < |units| && units[i].kind == Aud
    requires SplitState(format, units, i, auHasSlice, nonvclRun, stored)
    ensures StartsBelow(format, units, i + 1) == stored + [i]
    ensures SplitState(format, units, i + 1, false, if nonvclRun == None then Some(i) else nonvclRun, stored + [i])
  {
  }

  lemma {:induction false} SplitFirst(format: Format, units: seq<NalUnit>)
    requires units != []
    ensures StartsBelow(format, units, 1) == [0]
    ensures if IsSlice(units[0].kind) then SplitState(format, units, 1, true, None, [0])
            else SplitState(format, units, 1, false, Some(0), [0])
  {
    assert StartsBelow(format, units, 0) == [];
  }

  lemma {:induction false} StartsBelowPrefix(format: Format, units: seq<NalUnit>, lo: nat, hi: nat)
    requires lo <= hi
    ensures |StartsBelow(format, units, lo)| <= |StartsBelow(format, units, hi)|
    ensures StartsBelow(format, units, hi)[..|StartsBelow(format, units, lo)|] == StartsBelow(format, units, lo)
    decreases hi
  {
    if lo < hi { StartsBelowPrefix(format, units, lo, hi - 1); }
  }

  /** One unit of the loop, all branches: whether it opens an access unit, and where. */
  lemma {:induction false} SplitTurn(format: Format, units: seq<NalUnit>, i: nat, auHasSlice: bool,
                                     nonvclRun: Option<nat>,
                                     stored: seq<nat>, boundary: bool, at: nat)
    requires i < |units| && SplitState(format, units, i, auHasSlice, nonvclRun, stored)
    requires i == 0 ==> !auHasSlice && nonvclRun == None
    requires boundary == (stored == [] || units[i].kind == Aud
                          || (IsSlice(units[i].kind) && auHasSlice && OpensNewPicture(format, units[i])))
    requires boundary ==> at == if stored == [] then 0
                                else if units[i].kind == Aud || nonvclRun == None then i else nonvclRun.value
    ensures var isSlice := IsSlice(units[i].kind);
            var stored' := if boundary then stored + [at] else stored;
            && (boundary ==> StartsBelow(format, units, i + 1) == stored')
            && SplitState(format, units, i + 1, isSlice || (auHasSlice && !boundary),
                          if isSlice then None else if nonvclRun == None then Some(i) else nonvclRun, stored')
  {
    if i == 0 {
      SplitFirst(format, units);
    } else if units[i].kind == Aud {
      SplitAud(format, units, i, auHasSlice, nonvclRun, stored);
    } else if IsSlice(units[i].kind) {
      SplitSlice(format, units, i, auHasSlice, nonvclRun, stored);
    } else {
      SplitOther(format, units, i, auHasSlice, nonvclRun, stored);
    }
  }

  method SplitAccessUnits(format: Format, units: seq<NalUnit>, starts: array<nat>, maxStarts: nat) returns (n: nat)
    requires maxStarts <= starts.Length
    modifies starts
    ensures n == Min(maxStarts, |AuStarts(format, units)|)
    ensures starts[..n] == AuStarts(format, units)[..n]
    ensures forall k :: n <= k < starts.Length ==> starts[k] == old(starts[k])
  {
    n := 0;
    var auHasSlice := false;
    var nonvclRun: Option<nat> := None;
    ghost var stored: seq<nat> := [];
    var i := 0;
    while i < |units|
      invariant 0 <= i <= |units|
      invariant n == |stored| <= maxStarts
      invariant starts[..n] == stored
      invariant SplitState(format, units, i, auHasSlice, nonvclRun, stored)
      invariant i == 0 ==> !auHasSlice && nonvclRun == None
      invariant forall k :: n <= k < starts.Length ==> starts[k] == old(starts[k])
    {
      var isSlice := IsSlice(units[i].kind);
      var boundary, at := true, i;
      if n == 0 {
        at := 0;
      } else if units[i].kind == Aud {
        at := i;
      } else if isSlice && auHasSlice && OpensNewPicture(format, units[i]) {
        at := if nonvclRun.Some? then nonvclRun.value else i;
      } else {
        boundary := false;
      }
      SplitTurn(format, units, i, auHasSlice, nonvclRun, stored, boundary, at);
      if boundary {
        if n >= maxStarts {
          assert StartsBelow(format, units, i + 1) == stored + [at];
          StartsBelowPrefix(format, units, i + 1, |units|);
          assert (stored + [at])[..n] == stored;
          return;
        }
        starts[n] := at;
        n := n + 1;
        auHasSlice := false;
        stored := stored + [at];
      }
      if isSlice {
        auHasSlice, nonvclRun := true, None;
      } else if nonvclRun == None {
        nonvclRun := Some(i);
      }
      i := i + 1;
    }
    assert starts[..n] == stored == AuStarts(format, units);
  }

  // ---------- what splitting promises ----------

  ghost predicate AreStarts(units: seq<NalUnit>, starts: seq<nat>) {
    && (forall j :: 0 <= j < |starts| ==> starts[j] < |units|)
    && (forall i, j :: 0 <= i < j < |starts| ==> starts[i] < starts[j])
    && (units != [] ==> starts != [] && starts[0] == 0)
  }

  /** Where access unit `k` ends: at the next head, or with the last unit. */
  function AuEnd(count: nat, starts: seq<nat>, k: nat): nat
    requires k < |starts|
  {
    if k + 1 < |starts| then starts[k + 1] else count
  }

  lemma {:induction false} IncreasingOrder(s: seq<nat>, i: nat, j: nat)
    requires forall x, y :: 0 <= x < y < |s| ==> s[x] < s[y]
    requires i < |s| && j < |s|
    ensures i <= j <==> s[i] <= s[j]
  {
  }

  lemma {:induction false} AuStartsSpec(format: Format, units: seq<NalUnit>)
    ensures AreStarts(units, AuStarts(format, units))
    ensures |AuStarts(format, units)| <= |units|
    ensures forall i :: i in AuStarts(format, units) <==> 0 <= i && IsAuStart(format, units, i)
  {
    StartsBelowSpec(format, units, |units|);
    var starts := AuStarts(format, units);
    forall j | 0 <= j < |starts| ensures starts[j] < |units| { assert starts[j] in starts; }
    if units != [] {
      assert IsAuStart(format, units, 0);
      assert 0 in starts;
      var k :| 0 <= k < |starts| && starts[k] == 0;
      IncreasingOrder(starts, 0, k);
    }
  }

  /** The first slice at or behind unit i, with no delimiter in front of it, is j. */
  ghost predicate NextSliceIs(units: seq<NalUnit>, i: nat, j: int) {
    && i <= j < |units| && (units[j].kind == FrameIdr || units[j].kind == FrameNonIdr)
    && forall m :: i <= m < j ==> units[m].kind !in {FrameIdr, FrameNonIdr, Aud}
  }

  lemma {:induction false} NextSliceOpensIs(format: Format, units: seq<NalUnit>, i: nat)
    ensures NextSliceOpens(format, units, i) <==>
              exists j :: NextSliceIs(units, i, j) && OpensNewPicture(format, units[j])
    decreases |units| - i
  {
    if i < |units| && units[i].kind != Aud {
      if IsSlice(units[i].kind) {
        assert NextSliceIs(units, i, i);
      } else {
        NextSliceOpensIs(format, units, i + 1);
        forall j | NextSliceIs(units, i + 1, j) ensures NextSliceIs(units, i, j) {}
        forall j | NextSliceIs(units, i, j) ensures NextSliceIs(units, i + 1, j) {}
      }
    }
  }

  /** Where access units begin, no sooner and no later: at the first unit, at each delimiter, and behind each slice
      whose next slice, before any delimiter, opens a new picture. */
  lemma {:induction false} HeadsAre(format: Format, units: seq<NalUnit>, i: nat)
    requires i < |units|
    ensures i in AuStarts(format, units) <==>
              || i == 0 || units[i].kind == Aud
              || ((units[i - 1].kind == FrameIdr || units[i - 1].kind == FrameNonIdr)
                  && exists j :: NextSliceIs(units, i, j) && OpensNewPicture(format, units[j]))
  {
    AuStartsSpec(format, units);
    NextSliceOpensIs(format, units, i);
  }

  const TwoPictures: seq<byte> := [0, 0, 1, 0x26, 1, 0xAF, 0, 0, 1, 2, 1, 0xD0]

  lemma {:induction false} TwoPictureCodes()
    ensures Codes(TwoPictures, 0) == [0, 6]
  {
    assert Codes(TwoPictures, 12) == [] && Codes(TwoPictures, 10) == [] && Codes(TwoPictures, 8) == [];
    assert Codes(TwoPictures, 7) == [] && Codes(TwoPictures, 6) == [6] && Codes(TwoPictures, 4) == [6];
    assert Codes(TwoPictures, 2) == [6] && Codes(TwoPictures, 1) == [6];
  }

  lemma {:induction false} SecondPicture()
    ensures |Units(H265, TwoPictures)| == 2
    ensures Units(H265, TwoPictures)[0].kind == FrameIdr && Units(H265, TwoPictures)[1].kind == FrameNonIdr
    ensures Units(H265, TwoPictures)[1].bytes == [0, 0, 1, 2, 1, 0xD0]
  {
    TwoPictureCodes();
    UnitsLength(H265, TwoPictures);
    UnitKindIs(H265, TwoPictures, 0);
    UnitKindIs(H265, TwoPictures, 1);
    UnitExtent(H265, TwoPictures, 1);
    assert TwoPictures[6..12] == [0, 0, 1, 2, 1, 0xD0];
  }

  /** Two H.265 pictures of one slice each, without delimiters: two access units. */
  lemma {:induction false} TwoPicturesSplit()
    ensures |Units(H265, TwoPictures)| == 2 && AuStarts(H265, Units(H265, TwoPictures)) == [0, 1]
  {
    SecondPicture();
    var units := Units(H265, TwoPictures);
    assert StartsBelow(H265, units, 0) == [] && StartsBelow(H265, units, 1) == [0];
  }

  /** Room for one head per unit is always enough, so the source's call never merges access units. */
  lemma {:induction false} SplitNeverOverflows(format: Format, units: seq<NalUnit>, maxStarts: nat)
    requires |units| <= maxStarts
    ensures Min(maxStarts, |AuStarts(format, units)|) == |AuStarts(format, units)|
    ensures |AuStarts(format, units)| == 0 <==> units == []
  {
    AuStartsSpec(format, units);
  }

  /** `i` lies in access unit `k`. */
  predicate InAu(units: seq<NalUnit>, starts: seq<nat>, k: nat, i: int) {
    k < |starts| && starts[k] <= i < AuEnd(|units|, starts, k) && i < |units|
  }

  lemma {:induction false} OneHeadPerAu(format: Format, units: seq<NalUnit>, k: nat, i: nat)
    requires InAu(units, AuStarts(format, units), k, i)
    ensures IsAuStart(format, units, i) ==> i == AuStarts(format, units)[k]
  {
    AuStartsSpec(format, units);
    var starts := AuStarts(format, units);
    if IsAuStart(format, units, i) {
      var j :| 0 <= j < |starts| && starts[j] == i;
      IncreasingOrder(starts, k, j);
      if k + 1 < |starts| { IncreasingOrder(starts, k + 1, j); }
    }
  }

  /** When the scan from `i` finds a picture opening, no slice of the same access unit lies before `i`. */
  lemma {:induction false} NoSliceBeforeOpening(format: Format, units: seq<NalUnit>, k: nat, i: nat)
    requires InAu(units, AuStarts(format, units), k, i) && NextSliceOpens(format, units, i)
    ensures forall s :: AuStarts(format, units)[k] <= s < i ==> !IsSlice(units[s].kind)
  {
    if AuStarts(format, units)[k] < i {
      OneHeadPerAu(format, units, k, i);
      OneHeadPerAu(format, units, k, i - 1);
      if units[i - 1].kind != Aud { NoSliceBeforeOpening(format, units, k, i - 1); }
    }
  }

  /** An AUD occurs only at the head of its access unit, and no access unit holds a picture-opening slice after
      its first slice. */
  lemma {:induction false} AccessUnitShape(format: Format, units: seq<NalUnit>, k: nat)
    requires k < |AuStarts(format, units)|
    ensures forall i :: InAu(units, AuStarts(format, units), k, i) && units[i].kind == Aud ==>
              i == AuStarts(format, units)[k]
    ensures forall s, i ::
              (&& InAu(units, AuStarts(format, units), k, s) && IsSlice(units[s].kind)
               && InAu(units, AuStarts(format, units), k, i) && IsSlice(units[i].kind) && s < i)
              ==> !OpensNewPicture(format, units[i])
  {
    AuStartsSpec(format, units);
    var starts := AuStarts(format, units);
    forall i | InAu(units, starts, k, i) && units[i].kind == Aud ensures i == starts[k] {
      OneHeadPerAu(format, units, k, i);
    }
    forall s, i | (&& InAu(units, starts, k, s) && IsSlice(units[s].kind)
                   && InAu(units, starts, k, i) && IsSlice(units[i].kind) && s < i)
      ensures !OpensNewPicture(format, units[i])
    {
      if OpensNewPicture(format, units[i]) { NoSliceBeforeOpening(format, units, k, i); }
    }
  }

  /** The access units as lists of units. */
  function AccessUnitsFrom(units: seq<NalUnit>, starts: seq<nat>, k: nat): seq<seq<NalUnit>>
    requires AreStarts(units, starts)
    decreases |starts| - k
  {
    if k >= |starts| then []
    else [units[starts[k]..AuEnd(|units|, starts, k)]] + AccessUnitsFrom(units, starts, k + 1)
  }

  function Split(format: Format, units: seq<NalUnit>): seq<seq<NalUnit>> {
    AuStartsSpec(format, units);
    AccessUnitsFrom(units, AuStarts(format, units), 0)
  }

  lemma {:induction false} AccessUnitsPartitionFrom(units: seq<NalUnit>, starts: seq<nat>, k: nat)
    requires AreStarts(units, starts) && k < |starts|
    ensures Concat(AccessUnitsFrom(units, starts, k)) == units[starts[k]..]
    decreases |starts| - k
  {
    if k + 1 < |starts| {
      AccessUnitsPartitionFrom(units, starts, k + 1);
      assert units[starts[k]..starts[k + 1]] + units[starts[k + 1]..] == units[starts[k]..];
    } else {
      assert AccessUnitsFrom(units, starts, k + 1) == [];
      ConcatOne(units[starts[k]..]);
    }
  }

  /** Splitting loses nothing and invents nothing: the access units, put end to end, are the parsed units. */
  lemma {:induction false} AccessUnitsPartition(format: Format, units: seq<NalUnit>)
    ensures Concat(Split(format, units)) == units
  {
    AuStartsSpec(format, units);
    if units != [] { AccessUnitsPartitionFrom(units, AuStarts(format, units), 0); }
  }
}
