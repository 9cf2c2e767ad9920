/** The Annex-B scanner (frame_pipeline.c:6-145; section B.1 of ITU-T H.264, section B.2 of ITU-T H.265).

    The specification is a list: `Codes(buf, 0)` is every position of a 00 00 01 that is followed
    by a header byte, and `Units` cuts the buffer at those positions. The three loops of the source
    are proved equal to it. */
module AnnexB {
  import opened Bytes

  datatype Format = H264 | H265 | OtherFormat

  datatype UnitKind = Invalid | FrameIdr | FrameNonIdr | Vps | Sps | Pps | Aud

  /** `start` is where the source's `ptr` points in the scanned buffer; `bytes` are the `len` bytes there. */
  datatype NalUnit = NalUnit(kind: UnitKind, start: nat, bytes: seq<byte>)

  datatype Found = NotFound | Found(kind: UnitKind, offset: nat, scLen: nat)

  function ConvertUnitType(format: Format, t: nat): UnitKind {
    match format
    case H264 =>
      if t == 1 then FrameNonIdr
      else if t == 5 then FrameIdr
      else if t == 7 then Sps
      else if t == 8 then Pps
      else if t == 9 then Aud
      else Invalid
    case H265 =>
      if t == 1 then FrameNonIdr
      else if t == 19 || t == 20 then FrameIdr
      else if t == 32 then Vps
      else if t == 33 then Sps
      else if t == 34 then Pps
      else if t == 35 then Aud
      else Invalid
    case OtherFormat => Invalid
  }

  /** The type bits of a header byte: the low five in H.264, bits 1..6 in H.265. */
  function HeaderKind(format: Format, header: byte): UnitKind {
    ConvertUnitType(format, if format == H264 then header % 32 else header / 2 % 64)
  }

  // ---------- specification ----------

  predicate PatternAt(buf: seq<byte>, p: nat) {
    p + 2 < |buf| && buf[p] == 0 && buf[p + 1] == 0 && buf[p + 2] == 1
  }

  /** A start code that counts: 00 00 01 with at least one byte after it. */
  predicate CodeAt(buf: seq<byte>, p: nat) {
    PatternAt(buf, p) && p + 3 < |buf|
  }

  /** Every start code at or after `from`, in order. */
  function Codes(buf: seq<byte>, from: nat): seq<nat>
    decreases |buf| - from
  {
    if from >= |buf| then []
    else if CodeAt(buf, from) then [from] + Codes(buf, from + 1)
    else Codes(buf, from + 1)
  }

  /** A zero byte in front of the 00 00 01 belongs to a four-byte start code. */
  function UnitStart(buf: seq<byte>, p: nat): nat
    requires p < |buf|
  {
    if p > 0 && buf[p - 1] == 0 then p - 1 else p
  }

  predicate AreCodes(buf: seq<byte>, codes: seq<nat>) {
    && (forall k :: 0 <= k < |codes| ==> CodeAt(buf, codes[k]))
    && (forall j, k :: 0 <= j < k < |codes| ==> codes[j] + 3 <= codes[k])
  }

  function UnitEnd(buf: seq<byte>, codes: seq<nat>, k: nat): nat
    requires AreCodes(buf, codes) && k < |codes|
  {
    if k + 1 < |codes| then UnitStart(buf, codes[k + 1]) else |buf|
  }

  function UnitAt(format: Format, buf: seq<byte>, codes: seq<nat>, k: nat): NalUnit
    requires AreCodes(buf, codes) && k < |codes|
  {
    NalUnit(HeaderKind(format, buf[codes[k] + 3]), UnitStart(buf, codes[k]),
            buf[UnitStart(buf, codes[k])..UnitEnd(buf, codes, k)])
  }

  /** The units of the codes from the k-th on. */
  function UnitsFrom(format: Format, buf: seq<byte>, codes: seq<nat>, k: nat): seq<NalUnit>
    requires AreCodes(buf, codes)
    decreases |codes| - k
  {
    if k >= |codes| then [] else [UnitAt(format, buf, codes, k)] + UnitsFrom(format, buf, codes, k + 1)
  }

  function Units(format: Format, buf: seq<byte>): seq<NalUnit> {
    CodesSpec(buf, 0);
    if format == OtherFormat then [] else UnitsFrom(format, buf, Codes(buf, 0), 0)
  }

  lemma {:induction false} UnitsFromLength(format: Format, buf: seq<byte>, codes: seq<nat>, from: nat)
    requires AreCodes(buf, codes) && from <= |codes|
    ensures |UnitsFrom(format, buf, codes, from)| == |codes| - from
    decreases |codes| - from
  {
    if from < |codes| { UnitsFromLength(format, buf, codes, from + 1); }
  }

  lemma {:induction false} UnitsFromAt(format: Format, buf: seq<byte>, codes: seq<nat>, from: nat, k: nat, i: nat)
    requires AreCodes(buf, codes) && from <= k < |codes| && k == from + i
    requires |UnitsFrom(format, buf, codes, from)| == |codes| - from
    ensures UnitsFrom(format, buf, codes, from)[i] == UnitAt(format, buf, codes, k)
    decreases i
  {
    if from < k {
      UnitsFromAt(format, buf, codes, from + 1, k, i - 1);
      SecondOf(UnitAt(format, buf, codes, from), UnitsFrom(format, buf, codes, from + 1), i);
    }
  }

  lemma {:induction false} SecondOf<T>(x: T, s: seq<T>, i: nat)
    requires 0 < i <= |s|
    ensures ([x] + s)[i] == s[i - 1]
  {
  }

  lemma {:induction false} UnitsLength(format: Format, buf: seq<byte>)
    ensures |Units(format, buf)| == if format == OtherFormat then 0 else |Codes(buf, 0)|
  {
    CodesSpec(buf, 0);
    UnitsFromLength(format, buf, Codes(buf, 0), 0);
  }

  /** `Codes` is the strictly increasing list of exactly the start codes from `from` on. */
  lemma {:induction false} CodesSpec(buf: seq<byte>, from: nat)
    ensures AreCodes(buf, Codes(buf, from))
    ensures forall p :: p in Codes(buf, from) <==> from <= p && CodeAt(buf, p)
    decreases |buf| - from
  {
    if from < |buf| {
      CodesSpec(buf, from + 1);
      var rest := Codes(buf, from + 1);
      if CodeAt(buf, from) {
        assert Codes(buf, from) == [from] + rest;
        forall k | 0 <= k < |rest| ensures from + 3 <= rest[k] {
          assert rest[k] in rest;
          assert CodeAt(buf, rest[k]);
        }
      }
    }
  }

  /** Skipping a start code's own three bytes skips no other start code. */
  lemma {:induction false} CodesAfterFirst(buf: seq<byte>, from: nat)
    requires Codes(buf, from) != []
    ensures var p := Codes(buf, from)[0];
            CodeAt(buf, p) && from <= p && Codes(buf, p + 3) == Codes(buf, from)[1..]
    decreases |buf| - from
  {
    if CodeAt(buf, from) {
      assert !CodeAt(buf, from + 1) && !CodeAt(buf, from + 2);
      assert Codes(buf, from + 1) == Codes(buf, from + 2) == Codes(buf, from + 3);
    } else {
      CodesAfterFirst(buf, from + 1);
    }
  }

  /** What one forward search from `from` finds. */
  function FirstFrom(format: Format, buf: seq<byte>, from: nat): Found {
    CodesSpec(buf, from);
    var codes := Codes(buf, from);
    if format == OtherFormat || codes == [] then NotFound
    else
      assert codes[0] in codes;
      var p := codes[0];
      var offset := if p > from && buf[p - 1] == 0 then p - 1 else p;
      Found(HeaderKind(format, buf[p + 3]), offset, p + 3 - offset)
  }

  // ---------- the source's loops ----------

  method FindNalUnit(format: Format, buf: seq<byte>, start: nat, search: bool) returns (r: Found)
    ensures search ==> r == FirstFrom(format, buf, start)
    ensures !search ==>
              var first := FirstFrom(format, buf, start);
              r == if first.Found? && first.offset == start then first else NotFound
  {
    if format == OtherFormat {
      return NotFound;
    }
    if |buf| < 4 || start > |buf| - 4 {
      NoCodeNearEnd(buf, start);
      return NotFound;
    }
    var i := start;
    while i <= |buf| - 4
      invariant start <= i <= |buf| - 3
      invariant Codes(buf, start) == Codes(buf, i)
      invariant i > start ==> search && !(CodeAt(buf, i) && buf[i - 1] == 0)
      decreases |buf| - i
    {
      var hdr, codeLen;
      if buf[i] == 0 && buf[i + 1] == 0 && buf[i + 2] == 0 && buf[i + 3] == 1 {
        assert Codes(buf, i) == Codes(buf, i + 1);
        if i + 4 >= |buf| {
          NoCodeNearEnd(buf, i + 1);
          return NotFound;
        }
        hdr, codeLen := i + 4, 4;
        FoundAt(format, buf, start, i + 1);
      } else if buf[i] == 0 && buf[i + 1] == 0 && buf[i + 2] == 1 {
        hdr, codeLen := i + 3, 3;
        FoundAt(format, buf, start, i);
      } else {
        if !search {
          NotHere(format, buf, start);
          return NotFound;
        }
        i := i + 1;
        continue;
      }
      return Found(HeaderKind(format, buf[hdr]), i, codeLen);
    }
    NoCodeNearEnd(buf, i);
    return NotFound;
  }

  lemma {:induction false} FoundAt(format: Format, buf: seq<byte>, start: nat, p: nat)
    requires format != OtherFormat && start <= p && CodeAt(buf, p) && Codes(buf, start) == Codes(buf, p)
    ensures var offset := if p > start && buf[p - 1] == 0 then p - 1 else p;
            FirstFrom(format, buf, start) == Found(HeaderKind(format, buf[p + 3]), offset, p + 3 - offset)
  {
  }

  lemma {:induction false} NotHere(format: Format, buf: seq<byte>, start: nat)
    requires !CodeAt(buf, start)
    requires !(CodeAt(buf, start + 1) && buf[start] == 0)
    ensures FirstFrom(format, buf, start).Found? ==> FirstFrom(format, buf, start).offset != start
  {
    CodesSpec(buf, start);
    if Codes(buf, start) != [] {
      assert Codes(buf, start)[0] in Codes(buf, start);
    }
  }

  lemma {:induction false} NoCodeNearEnd(buf: seq<byte>, from: nat)
    requires from + 3 >= |buf|
    ensures Codes(buf, from) == []
  {
    CodesSpec(buf, from);
    if Codes(buf, from) != [] { assert Codes(buf, from)[0] in Codes(buf, from); }
  }

  /** One step of the counting and parsing loops: from the code just found to the next. */
  lemma {:induction false} Advance(format: Format, buf: seq<byte>, from: nat)
    requires FirstFrom(format, buf, from).Found?
    ensures var r := FirstFrom(format, buf, from);
            && CodeAt(buf, Codes(buf, from)[0])
            && r.offset + r.scLen == Codes(buf, from)[0] + 3
            && Codes(buf, r.offset + r.scLen) == Codes(buf, from)[1..]
  {
    CodesAfterFirst(buf, from);
  }

  method CountNalUnits(format: Format, buf: seq<byte>) returns (count: nat)
    ensures count == |Units(format, buf)|
  {
    UnitsLength(format, buf);
    count := 0;
    var next := FindNalUnit(format, buf, 0, true);
    ghost var from: nat := 0;
    while next.Found?
      invariant next == FirstFrom(format, buf, from)
      invariant format != OtherFormat ==> count + |Codes(buf, from)| == |Codes(buf, 0)|
      invariant format == OtherFormat ==> count == 0
      decreases |Codes(buf, from)|
    {
      count := count + 1;
      Advance(format, buf, from);
      from := next.offset + next.scLen;
      next := FindNalUnit(format, buf, next.offset + next.scLen, true);
    }
  }

  /** What the parsing loop knows after `n` units: the next search result is unit `n`'s start. */
  ghost predicate Pending(format: Format, buf: seq<byte>, n: nat, next: Found, from: nat) {
    var codes := Codes(buf, 0);
    && next == FirstFrom(format, buf, from)
    && n <= |codes|
    && Codes(buf, from) == codes[n..]
    && (n < |codes| ==>
        codes[n] < |buf| && next.Found? && next.offset == UnitStart(buf, codes[n])
        && next.offset + next.scLen == codes[n] + 3)
    && (n == |codes| ==> next == NotFound)
  }

  lemma {:induction false} PendingFirst(format: Format, buf: seq<byte>)
    requires format != OtherFormat
    ensures Pending(format, buf, 0, FirstFrom(format, buf, 0), 0)
  {
    assert Codes(buf, 0)[0..] == Codes(buf, 0);
    PendingAt(format, buf, 0, 0);
  }

  lemma {:induction false} UnitBounds(buf: seq<byte>, codes: seq<nat>, k: nat)
    requires AreCodes(buf, codes) && k < |codes|
    ensures UnitStart(buf, codes[k]) <= codes[k] < codes[k] + 3 <= UnitEnd(buf, codes, k) <= |buf|
  {
    assert CodeAt(buf, codes[k]);
    if k + 1 < |codes| {
      assert CodeAt(buf, codes[k + 1]) && codes[k] + 3 <= codes[k + 1];
    }
  }

  lemma {:induction false} UnitsAt(format: Format, buf: seq<byte>, k: nat)
    requires format != OtherFormat && k < |Codes(buf, 0)|
    ensures AreCodes(buf, Codes(buf, 0))
    ensures |Units(format, buf)| == |Codes(buf, 0)|
    ensures Units(format, buf)[k] == UnitAt(format, buf, Codes(buf, 0), k)
  {
    CodesSpec(buf, 0);
    UnitsLength(format, buf);
    UnitsFromAt(format, buf, Codes(buf, 0), 0, k, k);
  }

  lemma {:induction false} DropFirst<T>(s: seq<T>, n: nat)
    requires n < |s|
    ensures s[n..] != [] && s[n..][0] == s[n] && s[n..][1..] == s[n + 1..]
  {
  }

  lemma {:induction false} PendingAt(format: Format, buf: seq<byte>, n: nat, from: nat)
    requires format != OtherFormat && n <= |Codes(buf, 0)| && Codes(buf, from) == Codes(buf, 0)[n..]
    requires 0 < from <= |buf| ==> buf[from - 1] != 0
    ensures Pending(format, buf, n, FirstFrom(format, buf, from), from)
  {
    var codes := Codes(buf, 0);
    if n < |codes| {
      DropFirst(codes, n);
      CodesAfterFirst(buf, from);
    }
  }

  lemma {:induction false} PendingNext(format: Format, buf: seq<byte>, n: nat, next: Found, from: nat)
    requires format != OtherFormat && Pending(format, buf, n, next, from) && next.Found?
    ensures Pending(format, buf, n + 1, FirstFrom(format, buf, next.offset + next.scLen), next.offset + next.scLen)
    ensures n < |Codes(buf, 0)|
  {
    Advance(format, buf, from);
    DropFirst(Codes(buf, 0), n);
    PendingAt(format, buf, n + 1, next.offset + next.scLen);
  }

  lemma {:induction false} PendingUnit(format: Format, buf: seq<byte>, n: nat, next: Found, from: nat, next': Found,
                                       from': nat)
    requires format != OtherFormat && Pending(format, buf, n, next, from) && next.Found?
    requires Pending(format, buf, n + 1, next', from')
    ensures var end := if next'.Found? then next'.offset else |buf|;
            && n < |Units(format, buf)|
            && next.offset <= end <= |buf|
            && Units(format, buf)[n] == NalUnit(next.kind, next.offset, buf[next.offset..end])
  {
    var codes := Codes(buf, 0);
    UnitsAt(format, buf, n);
    UnitBounds(buf, codes, n);
    assert codes[n..][0] == codes[n];
  }

  method ParseNalUnits(format: Format, units: array<NalUnit>, max: nat, buf: seq<byte>) returns (n: nat)
    requires max <= units.Length
    modifies units
    ensures n == Min(max, |Units(format, buf)|)
    ensures units[..n] == Units(format, buf)[..n]
    ensures units[n..] == old(units[n..])
  {
    ghost var all := Units(format, buf);
    UnitsLength(format, buf);
    n := 0;
    var next := FindNalUnit(format, buf, 0, true);
    ghost var from: nat := 0;
    if format != OtherFormat { PendingFirst(format, buf); }
    while next.Found? && n < max
      invariant 0 <= n <= max && n <= |all|
      invariant if format == OtherFormat then next == NotFound else Pending(format, buf, n, next, from)
      invariant units[..n] == all[..n]
      invariant forall k :: n <= k < units.Length ==> units[k] == old(units[k])
    {
      var kind, start := next.kind, next.offset;
      PendingNext(format, buf, n, next, from);
      ghost var next0, from0 := next, from;
      from := next.offset + next.scLen;
      next := FindNalUnit(format, buf, next.offset + next.scLen, true);
      PendingUnit(format, buf, n, next0, from0, next, from);
      var end := if next.Found? then next.offset else |buf|;
      units[n] := NalUnit(kind, start, buf[start..end]);
      n := n + 1;
    }
  }

  // ---------- what parsing promises ----------

  /** One unit per start code: `Codes` lists exactly the start codes of the buffer, each once, in order. What
      unit k is, UnitExtent says. */
  lemma {:induction false} UnitsAreStartCodes(format: Format, buf: seq<byte>)
    requires format != OtherFormat
    ensures |Units(format, buf)| == |Codes(buf, 0)|
    ensures forall p :: p in Codes(buf, 0) <==>
              0 <= p && p + 3 < |buf| && buf[p] == 0 && buf[p + 1] == 0 && buf[p + 2] == 1
    ensures forall j, k :: 0 <= j < k < |Codes(buf, 0)| ==> Codes(buf, 0)[j] < Codes(buf, 0)[k]
  {
    CodesSpec(buf, 0);
    UnitsLength(format, buf);
  }

  /** The kind of unit k by the byte behind its start code: its low five bits in H.264 (table 7-1 of ITU-T H.264),
      bits 1 to 6 in H.265 (table 7-1 of ITU-T H.265). */
  lemma {:induction false} UnitKindIs(format: Format, buf: seq<byte>, k: nat)
    requires k < |Units(format, buf)|
    ensures k < |Codes(buf, 0)| && Codes(buf, 0)[k] + 3 < |buf|
    ensures var kind, low := Units(format, buf)[k].kind, buf[Codes(buf, 0)[k] + 3] % 32;
            format == H264 ==>
              && (kind == FrameIdr <==> low == 5) && (kind == FrameNonIdr <==> low == 1)
              && (kind == Sps <==> low == 7) && (kind == Pps <==> low == 8) && (kind == Aud <==> low == 9)
              && kind != Vps && (kind == Invalid <==> low !in {1, 5, 7, 8, 9})
    ensures var kind, mid := Units(format, buf)[k].kind, buf[Codes(buf, 0)[k] + 3] / 2 % 64;
            format == H265 ==>
              && (kind == FrameIdr <==> mid == 19 || mid == 20) && (kind == FrameNonIdr <==> mid == 1)
              && (kind == Vps <==> mid == 32) && (kind == Sps <==> mid == 33) && (kind == Pps <==> mid == 34)
              && (kind == Aud <==> mid == 35) && (kind == Invalid <==> mid !in {1, 19, 20, 32, 33, 34, 35})
  {
    UnitExtent(format, buf, k);
  }

  function UnitBytes(units: seq<NalUnit>): seq<byte> {
    if units == [] then [] else units[0].bytes + UnitBytes(units[1..])
  }

  lemma {:induction false} UnitBytesAppend(a: seq<NalUnit>, b: seq<NalUnit>)
    ensures UnitBytes(a + b) == UnitBytes(a) + UnitBytes(b)
  {
    if a == [] {
      assert a + b == b;
    } else {
      UnitBytesAppend(a[1..], b);
      assert (a + b)[1..] == a[1..] + b;
      Assoc(a[0].bytes, UnitBytes(a[1..]), UnitBytes(b));
    }
  }

  lemma {:induction false} UnitsTileFrom(format: Format, buf: seq<byte>, k: nat)
    requires format != OtherFormat && k < |Codes(buf, 0)| == |Units(format, buf)|
    ensures Units(format, buf)[k].start <= |buf|
    ensures UnitBytes(Units(format, buf)[k..]) == buf[Units(format, buf)[k].start..]
    decreases |Codes(buf, 0)| - k
  {
    var units := Units(format, buf);
    UnitExtent(format, buf, k);
    UnitBytesFrom(units, k);
    if k + 1 < |units| {
      UnitsTileFrom(format, buf, k + 1);
      JoinSlices(buf, units[k].start, units[k + 1].start);
    } else {
      assert UnitBytes(units[k + 1..]) == [];
    }
  }

  lemma {:induction false} UnitBytesFrom(units: seq<NalUnit>, k: nat)
    requires k < |units|
    ensures UnitBytes(units[k..]) == units[k].bytes + UnitBytes(units[k + 1..])
  {
    assert units[k..][0] == units[k] && units[k..][1..] == units[k + 1..];
  }

  lemma {:induction false} JoinSlices(buf: seq<byte>, a: nat, b: nat)
    requires a <= b <= |buf|
    ensures buf[a..b] + buf[b..] == buf[a..]
  {
  }

  /** Unit k sits at the k-th start code, or at the zero in front of it, runs to the next unit, and is typed by the
      byte after the code. */
  lemma {:induction false} UnitExtent(format: Format, buf: seq<byte>, k: nat)
    requires k < |Units(format, buf)|
    ensures k < |Codes(buf, 0)| == |Units(format, buf)|
    ensures var units := Units(format, buf);
            var end := if k + 1 < |units| then units[k + 1].start else |buf|;
            var p := Codes(buf, 0)[k];
            && CodeAt(buf, p)
            && units[k].start == (if p > 0 && buf[p - 1] == 0 then p - 1 else p)
            && units[k].kind == HeaderKind(format, buf[Codes(buf, 0)[k] + 3])
            && units[k].start <= end <= |buf|
            && units[k].bytes == buf[units[k].start..end]
            && Codes(buf, 0)[k] + 3 <= end
  {
    var codes := Codes(buf, 0);
    UnitsLength(format, buf);
    UnitsAt(format, buf, k);
    UnitBounds(buf, codes, k);
    if k + 1 < |codes| { UnitsAt(format, buf, k + 1); }
    assert CodeAt(buf, codes[k]);
  }

  /** UnitExtent without the extent. */
  lemma {:induction false} UnitPlace(format: Format, buf: seq<byte>, k: nat)
    requires k < |Units(format, buf)|
    ensures k < |Codes(buf, 0)| && CodeAt(buf, Codes(buf, 0)[k])
    ensures Units(format, buf)[k].start == UnitStart(buf, Codes(buf, 0)[k])
    ensures Units(format, buf)[k].kind == HeaderKind(format, buf[Codes(buf, 0)[k] + 3])
  {
    UnitExtent(format, buf, k);
  }

  /** The units tile the buffer from the first start code to the end: no gap, no overlap, nothing lost. */
  lemma {:induction false} UnitsTile(format: Format, buf: seq<byte>)
    requires Units(format, buf) != []
    ensures Units(format, buf)[0].start <= |buf|
    ensures UnitBytes(Units(format, buf)) == buf[Units(format, buf)[0].start..]
    ensures forall p: nat :: CodeAt(buf, p) ==> Units(format, buf)[0].start <= p
  {
    CodesSpec(buf, 0);
    UnitsLength(format, buf);
    UnitsTileFrom(format, buf, 0);
    UnitExtent(format, buf, 0);
    assert Units(format, buf)[0..] == Units(format, buf);
    forall p: nat | CodeAt(buf, p) ensures Units(format, buf)[0].start <= p {
      var k :| 0 <= k < |Codes(buf, 0)| && Codes(buf, 0)[k] == p;
      assert k == 0 || Codes(buf, 0)[0] + 3 <= Codes(buf, 0)[k];
    }
  }

  /** Length of the start code at the front of a unit (frame_pipeline.c:158-160). */
  function NalHeaderOffset(unit: NalUnit): nat {
    if |unit.bytes| >= 3 && unit.bytes[2] == 1 then 3 else 4
  }

  /** A unit in one of the source's known kinds owns its start code and its header byte; only an
      empty unit, one start code right behind another, does not, and its kind is Invalid. */
  ghost predicate WellFormed(format: Format, unit: NalUnit) {
    var h := NalHeaderOffset(unit);
    && |unit.bytes| >= 3
    && unit.bytes[0] == 0 && unit.bytes[1] == 0
    && unit.bytes[2] == (if h == 3 then 1 else 0)
    && (unit.kind != Invalid ==>
          && h < |unit.bytes|
          && unit.bytes[h - 1] == 1
          && unit.bytes[h] != 0
          && unit.kind == HeaderKind(format, unit.bytes[h]))
  }

  lemma {:induction false} UnitWellFormed(format: Format, buf: seq<byte>, k: nat)
    requires k < |Units(format, buf)|
    ensures k < |Codes(buf, 0)|
    ensures WellFormed(format, Units(format, buf)[k])
    ensures Units(format, buf)[k].start + NalHeaderOffset(Units(format, buf)[k]) == Codes(buf, 0)[k] + 3
  {
    var unit := Units(format, buf)[k];
    UnitExtent(format, buf, k);
    var end, q := NextUnit(format, buf, k);
    UnitHead(format, buf, Codes(buf, 0)[k], unit, end, q);
  }

  lemma {:induction false} NextUnit(format: Format, buf: seq<byte>, k: nat) returns (end: nat, q: nat)
    requires k < |Units(format, buf)|
    ensures end == if k + 1 < |Units(format, buf)| then Units(format, buf)[k + 1].start else |buf|
    ensures if q == |buf| then end == q else CodeAt(buf, q) && end == UnitStart(buf, q)
  {
    if k + 1 < |Units(format, buf)| {
      UnitExtent(format, buf, k + 1);
      end, q := Units(format, buf)[k + 1].start, Codes(buf, 0)[k + 1];
    } else {
      end, q := |buf|, |buf|;
    }
  }

  lemma {:induction false} SliceAt(buf: seq<byte>, lo: nat, hi: nat, i: nat)
    requires lo + i < hi <= |buf|
    ensures buf[lo..hi][i] == buf[lo + i]
  {
  }

  /** The head of a unit that starts with the code at `p` and ends where the code at `q`, or the buffer's end, is. */
  lemma {:induction false} UnitHead(format: Format, buf: seq<byte>, p: nat, unit: NalUnit, end: nat, q: nat)
    requires CodeAt(buf, p) && unit.start == UnitStart(buf, p) && p + 3 <= end <= |buf|
    requires unit.kind == HeaderKind(format, buf[p + 3]) && unit.bytes == buf[unit.start..end]
    requires if q == |buf| then end == q else CodeAt(buf, q) && end == UnitStart(buf, q)
    ensures WellFormed(format, unit)
    ensures unit.start + NalHeaderOffset(unit) == p + 3
  {
    assert unit.bytes[0] == buf[unit.start] && unit.bytes[1] == buf[unit.start + 1]
           && unit.bytes[2] == buf[unit.start + 2];
    var h := NalHeaderOffset(unit);
    assert unit.start + h == p + 3;
    if unit.kind != Invalid {
      assert buf[p + 3] != 0;
      assert end > p + 3;
      SliceAt(buf, unit.start, end, h - 1);
      SliceAt(buf, unit.start, end, h);
    }
  }
}
