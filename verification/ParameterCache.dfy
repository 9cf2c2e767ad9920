/** The disk cache of parameter sets (spspps_cache.c:93-154, spspps_cache.h:27-36): store writes the sets one after
    another with nothing in between, load finds them again by parsing. When that works, exactly, is proved here. */
module ParameterCache {
  import opened Bytes
  import opened AnnexB
  import opened AccessUnits
  import opened PipelineSpec
  import opened PipelineLaws

  const MAX_UNITS_LOAD := 3

  const Empty := ParamSets([], [], [])

  // ---------- store and load as functions ----------

  function StoredForm(format: Format, sets: ParamSets): seq<byte> {
    Prefix(format, sets)
  }

  /** load_spspps() on a file: at most 3 * 1024 bytes, at most three units, each latched by its kind. */
  function LoadFrom(format: Format, sets: ParamSets, file: seq<byte>): ParamSets {
    var units := Units(format, file[..Min(|file|, SPSPPSBUFSZ * 3)]);
    LatchAll(sets, units[..Min(|units|, MAX_UNITS_LOAD)])
  }

  /** A load, of whatever file, never empties the cache. */
  lemma {:induction false} LoadKeepsPrefix(format: Format, before: ParamSets, file: seq<byte>)
    requires Prefix(format, before) != []
    ensures Prefix(format, LoadFrom(format, before, file)) != []
  {
    var units := Units(format, file[..Min(|file|, SPSPPSBUFSZ * 3)]);
    LatchAllPrefix(format, before, units[..Min(|units|, MAX_UNITS_LOAD)]);
  }

  /** What store writes of the sets: VPS only in H.265. */
  function Kept(format: Format, sets: ParamSets): ParamSets {
    if format == H265 then sets else sets.(vps := [])
  }

  // ---------- lists of sets and lists of units ----------

  datatype Piece = Piece(kind: UnitKind, bytes: seq<byte>)

  function StoredPiece(kind: UnitKind, bytes: seq<byte>): seq<Piece> {
    if bytes == [] then [] else [Piece(kind, bytes)]
  }

  /** The non-empty sets in the order they are stored. */
  function Pieces(format: Format, sets: ParamSets): seq<Piece> {
    (if format == H265 then StoredPiece(Vps, sets.vps) else []) + StoredPiece(Sps, sets.sps) +
      StoredPiece(Pps, sets.pps)
  }

  function Join(pieces: seq<Piece>): seq<byte> {
    if pieces == [] then [] else pieces[0].bytes + Join(pieces[1..])
  }

  /** Units without their positions. */
  function Plain(units: seq<NalUnit>): seq<Piece> {
    if units == [] then [] else [Piece(units[0].kind, units[0].bytes)] + Plain(units[1..])
  }

  lemma {:induction false} PlainAt(units: seq<NalUnit>, k: nat)
    ensures |Plain(units)| == |units|
    ensures k < |units| ==> Plain(units)[k] == Piece(units[k].kind, units[k].bytes)
  {
    if units != [] { PlainAt(units[1..], if k > 0 then k - 1 else 0); }
  }

  lemma {:induction false} JoinPlain(units: seq<NalUnit>)
    ensures Join(Plain(units)) == UnitBytes(units)
  {
    if units != [] {
      JoinPlain(units[1..]);
      assert Plain(units)[1..] == Plain(units[1..]);
    }
  }

  lemma {:induction false} JoinOne(piece: Piece)
    ensures Join([piece]) == piece.bytes
  {
    assert Join([piece]) == piece.bytes + Join([]);
  }

  lemma {:induction false} JoinAppend(a: seq<Piece>, b: seq<Piece>)
    ensures Join(a + b) == Join(a) + Join(b)
  {
    if a == [] {
      assert a + b == b;
    } else {
      JoinAppend(a[1..], b);
      assert (a + b)[1..] == a[1..] + b;
      Assoc(a[0].bytes, Join(a[1..]), Join(b));
    }
  }

  lemma {:induction false} JoinStoredPiece(kind: UnitKind, bytes: seq<byte>)
    ensures Join(StoredPiece(kind, bytes)) == bytes
  {
    if bytes != [] { JoinOne(Piece(kind, bytes)); }
  }

  lemma {:induction false} JoinPieces(format: Format, sets: ParamSets)
    ensures Join(Pieces(format, sets)) == StoredForm(format, sets)
  {
    var v := if format == H265 then StoredPiece(Vps, sets.vps) else [];
    JoinStoredPiece(Vps, sets.vps);
    JoinStoredPiece(Sps, sets.sps);
    JoinStoredPiece(Pps, sets.pps);
    JoinAppend(v, StoredPiece(Sps, sets.sps));
    JoinAppend(v + StoredPiece(Sps, sets.sps), StoredPiece(Pps, sets.pps));
  }

  // ---------- when stored pieces come apart again ----------

  /** Length of the start code a piece begins with, 0 when it begins with none that a header byte follows. */
  function CodeLength(bytes: seq<byte>): nat {
    if CodeAt(bytes, 0) then 3
    else if |bytes| > 0 && bytes[0] == 0 && CodeAt(bytes, 1) then 4
    else 0
  }

  /** The piece is one unit of its kind. Inside a stored file even a start code without a header byte must not
      follow; in the last place it may. */
  ghost predicate OwnUnit(format: Format, piece: Piece, last: bool) {
    var c := CodeLength(piece.bytes);
    && c > 0
    && HeaderKind(format, piece.bytes[c]) == piece.kind
    && (forall q: nat :: q + 3 > c ==> if last then !CodeAt(piece.bytes, q) else !PatternAt(piece.bytes, q))
  }

  /** A piece that ends in 00 is not followed by one with a three-byte start code. */
  predicate Apart(a: Piece, b: Piece) {
    a.bytes != [] && a.bytes[|a.bytes| - 1] == 0 ==> CodeLength(b.bytes) != 3
  }

  ghost predicate Separable(format: Format, pieces: seq<Piece>) {
    && (forall i :: 0 <= i < |pieces| ==> OwnUnit(format, pieces[i], i == |pieces| - 1))
    && (forall i :: 0 < i < |pieces| ==> Apart(pieces[i - 1], pieces[i]))
  }

  function Shift(codes: seq<nat>, offset: nat): seq<nat> {
    if codes == [] then [] else [codes[0] + offset] + Shift(codes[1..], offset)
  }

  lemma {:induction false} ShiftAt(codes: seq<nat>, offset: nat, k: nat)
    ensures |Shift(codes, offset)| == |codes|
    ensures k < |codes| ==> Shift(codes, offset)[k] == codes[k] + offset
  {
    if codes != [] { ShiftAt(codes[1..], offset, if k > 0 then k - 1 else 0); }
  }

  lemma {:induction false} CodeAtShift(x: seq<byte>, r: seq<byte>, p: nat)
    ensures CodeAt(x + r, |x| + p) <==> CodeAt(r, p)
  {
    if p + 3 < |r| {
      assert (x + r)[|x| + p] == r[p] && (x + r)[|x| + p + 1] == r[p + 1] && (x + r)[|x| + p + 2] == r[p + 2];
    }
  }

  /** Behind a piece the codes are those of the rest, moved. */
  lemma {:induction false} CodesShift(x: seq<byte>, r: seq<byte>, p: nat)
    ensures Codes(x + r, |x| + p) == Shift(Codes(r, p), |x|)
    decreases |r| - p
  {
    if p < |r| {
      CodesShift(x, r, p + 1);
      CodeAtShift(x, r, p);
    }
  }

  /** No code in [from, to): the codes from `from` are those from `to`. */
  lemma {:induction false} CodesSkip(buf: seq<byte>, from: nat, to: nat)
    requires from <= to <= |buf| && forall p :: from <= p < to ==> !CodeAt(buf, p)
    ensures Codes(buf, from) == Codes(buf, to)
    decreases |buf| - from
  {
    if from < to { CodesSkip(buf, from + 1, to); }
  }

  /** A piece's own code sits at its front, and none other begins in it or across its end. */
  lemma {:induction false} PieceCodes(format: Format, x: Piece, r: seq<byte>)
    requires OwnUnit(format, x, false) && CodeLength(r) > 0
    ensures Codes(x.bytes + r, 0) == [CodeLength(x.bytes) - 3] + Shift(Codes(r, 0), |x.bytes|)
  {
    var t, c, n := x.bytes + r, CodeLength(x.bytes), |x.bytes|;
    assert forall p :: 0 <= p < n ==> t[p] == x.bytes[p];
    assert r[0] == 0 && r[1] == 0 && t[n] == 0 && t[n + 1] == 0;
    assert CodeAt(t, c - 3);
    forall p: nat | p < n && p != c - 3 ensures !CodeAt(t, p) {
      if p + 2 < n {
        if p + 3 > c { assert !PatternAt(x.bytes, p); } else { assert c == 4 && p == 0; }
      }
    }
    CodesSkip(t, 0, c - 3);
    CodesSkip(t, c - 2, n);
    CodesShift(x.bytes, r, 0);
  }

  lemma {:induction false} FirstCode(r: seq<byte>)
    requires CodeLength(r) > 0
    ensures Codes(r, 0) != [] && Codes(r, 0)[0] == CodeLength(r) - 3
    ensures UnitStart(r, CodeLength(r) - 3) == 0
  {
    if CodeLength(r) == 4 {
      assert !CodeAt(r, 0);
      assert Codes(r, 0) == Codes(r, 1);
    }
  }

  lemma {:induction false} StartShift(x: seq<byte>, r: seq<byte>, p: nat)
    requires p < |r| && (p == 0 ==> x == [] || x[|x| - 1] != 0)
    ensures UnitStart(x + r, |x| + p) == |x| + UnitStart(r, p)
  {
    if p > 0 { assert (x + r)[|x| + p - 1] == r[p - 1]; }
  }

  /** Two neighbours do not run into each other. */
  predicate NoMerge(x: seq<byte>, r: seq<byte>) {
    x != [] && x[|x| - 1] == 0 ==> CodeLength(r) != 3
  }

  /** x is one piece, r begins with another, and they do not merge. */
  ghost predicate Joined(format: Format, x: Piece, r: seq<byte>) {
    format != OtherFormat && OwnUnit(format, x, false) && CodeLength(r) > 0 && NoMerge(x.bytes, r)
  }

  lemma {:induction false} CountShift(format: Format, x: Piece, r: seq<byte>)
    requires Joined(format, x, r)
    ensures |Units(format, r)| == |Codes(r, 0)| && |Units(format, x.bytes + r)| == |Units(format, r)| + 1
  {
    PieceCodes(format, x, r);
    ShiftAt(Codes(r, 0), |x.bytes|, 0);
    UnitsLength(format, x.bytes + r);
    UnitsLength(format, r);
  }

  lemma {:induction false} CodeShift(format: Format, x: Piece, r: seq<byte>, k: nat)
    requires Joined(format, x, r) && k < |Codes(r, 0)|
    ensures k + 1 < |Codes(x.bytes + r, 0)| && Codes(x.bytes + r, 0)[k + 1] == |x.bytes| + Codes(r, 0)[k]
  {
    PieceCodes(format, x, r);
    ShiftAt(Codes(r, 0), |x.bytes|, k);
  }

  lemma {:induction false} UnitStartShift(format: Format, x: Piece, r: seq<byte>, k: nat)
    requires Joined(format, x, r) && k < |Codes(r, 0)|
    ensures |Units(format, r)| == |Codes(r, 0)| && |Units(format, x.bytes + r)| == |Codes(r, 0)| + 1
    ensures Units(format, x.bytes + r)[k + 1].start == |x.bytes| + Units(format, r)[k].start
    ensures Units(format, x.bytes + r)[k + 1].kind == Units(format, r)[k].kind
  {
    var t, p := x.bytes + r, Codes(r, 0)[k];
    CountShift(format, x, r);
    CodeShift(format, x, r, k);
    PlaceOf(format, r, k, p);
    PlaceOf(format, t, k + 1, |x.bytes| + p);
    CodeShiftsStart(x.bytes, r, p);
  }

  lemma {:induction false} PlaceOf(format: Format, buf: seq<byte>, k: nat, p: nat)
    requires k < |Units(format, buf)| && k < |Codes(buf, 0)| && Codes(buf, 0)[k] == p
    ensures CodeAt(buf, p) && Units(format, buf)[k].start == UnitStart(buf, p)
    ensures Units(format, buf)[k].kind == HeaderKind(format, buf[p + 3])
  {
    UnitPlace(format, buf, k);
  }

  lemma {:induction false} CodeShiftsStart(x: seq<byte>, r: seq<byte>, p: nat)
    requires NoMerge(x, r) && CodeAt(r, p)
    ensures CodeAt(x + r, |x| + p)
    ensures UnitStart(x + r, |x| + p) == |x| + UnitStart(r, p) && (x + r)[|x| + p + 3] == r[p + 3]
  {
    CodeAtShift(x, r, p);
    ZeroCode(r, p);
    StartShift(x, r, p);
  }

  lemma {:induction false} ZeroCode(r: seq<byte>, p: nat)
    requires CodeAt(r, p)
    ensures p == 0 ==> CodeLength(r) == 3
  {
  }

  lemma {:induction false} UnitShift(format: Format, x: Piece, r: seq<byte>, k: nat)
    requires Joined(format, x, r) && k < |Codes(r, 0)|
    ensures |Units(format, x.bytes + r)| == |Units(format, r)| + 1 == |Codes(r, 0)| + 1
    ensures Units(format, x.bytes + r)[k + 1].kind == Units(format, r)[k].kind
    ensures Units(format, x.bytes + r)[k + 1].bytes == Units(format, r)[k].bytes
  {
    UnitStartShift(format, x, r, k);
    if k + 1 < |Codes(r, 0)| { UnitStartShift(format, x, r, k + 1); }
    var a, b := ExtentOf(format, r, k);
    var a', b' := ExtentOf(format, x.bytes + r, k + 1);
    SliceShift(x.bytes, r, a, b);
  }

  lemma {:induction false} ExtentOf(format: Format, buf: seq<byte>, k: nat) returns (a: nat, b: nat)
    requires k < |Units(format, buf)|
    ensures a == Units(format, buf)[k].start
    ensures b == if k + 1 < |Units(format, buf)| then Units(format, buf)[k + 1].start else |buf|
    ensures a <= b <= |buf| && Units(format, buf)[k].bytes == buf[a..b]
  {
    UnitExtent(format, buf, k);
    a := Units(format, buf)[k].start;
    b := if k + 1 < |Units(format, buf)| then Units(format, buf)[k + 1].start else |buf|;
  }

  lemma {:induction false} SliceShift(x: seq<byte>, r: seq<byte>, a: nat, b: nat)
    requires a <= b <= |r|
    ensures (x + r)[|x| + a..|x| + b] == r[a..b]
  {
  }

  lemma {:induction false} FirstUnit(format: Format, x: Piece, r: seq<byte>)
    requires Joined(format, x, r)
    ensures Units(format, x.bytes + r) != []
    ensures Units(format, x.bytes + r)[0].kind == x.kind && Units(format, x.bytes + r)[0].bytes == x.bytes
  {
    var t, c := x.bytes + r, CodeLength(x.bytes);
    CountShift(format, x, r);
    FirstCode(r);
    UnitStartShift(format, x, r, 0);
    UnitExtent(format, r, 0);
    PieceCodes(format, x, r);
    UnitExtent(format, t, 0);
    assert t[c] == x.bytes[c];
    assert c == 4 ==> t[0] == x.bytes[0] == 0;
    assert t[..|x.bytes|] == x.bytes;
  }

  lemma {:induction false} FirstPiece(format: Format, x: Piece, r: seq<byte>)
    requires Joined(format, x, r)
    ensures Plain(Units(format, x.bytes + r)) == [x] + Plain(Units(format, r))
  {
    var u, v := Units(format, x.bytes + r), Units(format, r);
    FirstUnit(format, x, r);
    CountShift(format, x, r);
    forall k | 0 <= k < |v| ensures u[k + 1].kind == v[k].kind && u[k + 1].bytes == v[k].bytes {
      UnitShift(format, x, r, k);
    }
    PlainCons(u, v, x);
  }

  lemma {:induction false} PlainCons(u: seq<NalUnit>, v: seq<NalUnit>, x: Piece)
    requires |u| == |v| + 1 && x == Piece(u[0].kind, u[0].bytes)
    requires forall k :: 0 <= k < |v| ==> u[k + 1].kind == v[k].kind && u[k + 1].bytes == v[k].bytes
    ensures Plain(u) == [x] + Plain(v)
  {
    PlainAt(u, 0);
    PlainAt(v, 0);
    forall k | 0 <= k < |v| ensures Plain(u)[k + 1] == Plain(v)[k] {
      PlainAt(u, k + 1);
      PlainAt(v, k);
    }
  }

  lemma {:induction false} LastPiece(format: Format, x: Piece)
    requires OwnUnit(format, x, true) && format != OtherFormat
    ensures Plain(Units(format, x.bytes)) == [x]
  {
    var b, c := x.bytes, CodeLength(x.bytes);
    FirstCode(b);
    CodesAfterFirst(b, 0);
    CodesSkip(b, c, |b|);
    assert Codes(b, 0) == [c - 3];
    UnitsLength(format, b);
    UnitExtent(format, b, 0);
    PlainAt(Units(format, b), 0);
    assert b[..|b|] == b;
  }

  /** Separable pieces, written one after another, parse back into themselves. */
  lemma {:induction false} SeparableParses(format: Format, pieces: seq<Piece>)
    requires Separable(format, pieces) && format != OtherFormat
    ensures Plain(Units(format, Join(pieces))) == pieces
    ensures pieces != [] ==> CodeLength(Join(pieces)) == CodeLength(pieces[0].bytes)
  {
    if pieces == [] {
      UnitsLength(format, []);
    } else if |pieces| == 1 {
      JoinOne(pieces[0]);
      assert pieces == [pieces[0]];
      LastPiece(format, pieces[0]);
    } else {
      SeparableRest(format, pieces);
      SeparableParses(format, pieces[1..]);
      FirstPiece(format, pieces[0], Join(pieces[1..]));
      CodeLengthPrefix(pieces[0].bytes, Join(pieces[1..]));
    }
  }

  lemma {:induction false} SeparableRest(format: Format, pieces: seq<Piece>)
    requires Separable(format, pieces) && |pieces| > 1
    ensures Separable(format, pieces[1..]) && OwnUnit(format, pieces[0], false)
    ensures CodeLength(pieces[1].bytes) > 0 && Apart(pieces[0], pieces[1])
  {
    var rest := pieces[1..];
    assert forall i :: 0 <= i < |rest| ==> rest[i] == pieces[i + 1];
    assert OwnUnit(format, rest[0], |rest| == 1);
  }

  lemma {:induction false} CodeLengthPrefix(x: seq<byte>, r: seq<byte>)
    requires CodeLength(x) > 0
    ensures CodeLength(x + r) == CodeLength(x)
  {
    assert forall i :: 0 <= i < |x| ==> (x + r)[i] == x[i];
  }

  // ---------- and only then ----------

  lemma {:induction false} UnitCodeLength(format: Format, unit: NalUnit)
    requires WellFormed(format, unit) && unit.kind != Invalid
    ensures CodeLength(unit.bytes) == NalHeaderOffset(unit)
    ensures HeaderKind(format, unit.bytes[CodeLength(unit.bytes)]) == unit.kind
  {
  }

  /** No start code lies strictly between a unit's own and its end. */
  lemma {:induction false} NoCodeInside(format: Format, buf: seq<byte>, k: nat, p: nat)
    requires k < |Units(format, buf)| && k < |Codes(buf, 0)|
    requires Codes(buf, 0)[k] < p < (if k + 1 < |Units(format, buf)| then Units(format, buf)[k + 1].start else |buf|)
    ensures !CodeAt(buf, p)
  {
    var codes := Codes(buf, 0);
    UnitsLength(format, buf);
    CodesSpec(buf, 0);
    if k + 1 < |codes| { UnitPlace(format, buf, k + 1); }
    forall j | 0 <= j < |codes| ensures codes[j] != p {
      IncreasingOrder(codes, j, k);
      if j > k { IncreasingOrder(codes, k + 1, j); }
    }
  }

  /** A parsed set, as frame_callback() caches it, is one unit of its kind: only a start code without a header byte
      at its very end can still spoil it. */
  lemma {:induction false} ParsedSetIsOwnUnit(format: Format, buf: seq<byte>, k: nat)
    requires k < |Units(format, buf)| && Units(format, buf)[k].kind != Invalid
    ensures OwnUnit(format, Piece(Units(format, buf)[k].kind, Units(format, buf)[k].bytes), true)
    ensures k + 1 < |Units(format, buf)| ==>
              OwnUnit(format, Piece(Units(format, buf)[k].kind, Units(format, buf)[k].bytes), false)
  {
    var unit := Units(format, buf)[k];
    UnitWellFormed(format, buf, k);
    UnitCodeLength(format, unit);
    var a, b := ExtentOf(format, buf, k);
    var more := k + 1 < |Units(format, buf)|;
    if more { UnitExtent(format, buf, k + 1); }
    forall q: nat | q + 3 > CodeLength(unit.bytes) && PatternAt(unit.bytes, q) && (more || q + 3 < |unit.bytes|)
      ensures false
    {
      InnerCode(format, buf, k, a, b, q);
    }
  }

  lemma {:induction false} InnerCode(format: Format, buf: seq<byte>, k: nat, a: nat, b: nat, q: nat)
    requires k < |Units(format, buf)| && k < |Codes(buf, 0)|
    requires a == Units(format, buf)[k].start && a <= b <= |buf| && Units(format, buf)[k].bytes == buf[a..b]
    requires b == if k + 1 < |Units(format, buf)| then Units(format, buf)[k + 1].start else |buf|
    requires PatternAt(Units(format, buf)[k].bytes, q) && a + q > Codes(buf, 0)[k]
    ensures a + q + 3 >= |buf|
  {
    var bytes := Units(format, buf)[k].bytes;
    assert bytes[q] == buf[a + q] && bytes[q + 1] == buf[a + q + 1] && bytes[q + 2] == buf[a + q + 2];
    NoCodeInside(format, buf, k, a + q);
  }

  lemma {:induction false} NeighboursApart(format: Format, buf: seq<byte>, k: nat)
    requires k + 1 < |Units(format, buf)| && Units(format, buf)[k].kind != Invalid
             && Units(format, buf)[k + 1].kind != Invalid
    ensures Apart(Piece(Units(format, buf)[k].kind, Units(format, buf)[k].bytes),
                  Piece(Units(format, buf)[k + 1].kind, Units(format, buf)[k + 1].bytes))
  {
    var a, b := ExtentOf(format, buf, k);
    var next := Units(format, buf)[k + 1];
    UnitWellFormed(format, buf, k + 1);
    UnitCodeLength(format, next);
    UnitPlace(format, buf, k + 1);
    var bytes := Units(format, buf)[k].bytes;
    assert bytes != [] ==> bytes[|bytes| - 1] == buf[b - 1];
  }

  /** Pieces that parse back into themselves are separable. */
  lemma {:induction false} ParsedIsSeparable(format: Format, pieces: seq<Piece>)
    requires Plain(Units(format, Join(pieces))) == pieces
    requires forall i :: 0 <= i < |pieces| ==> pieces[i].kind != Invalid
    ensures Separable(format, pieces)
  {
    var buf := Join(pieces);
    var units := Units(format, buf);
    forall i | 0 <= i < |pieces| ensures |units| == |pieces| && pieces[i] == Piece(units[i].kind, units[i].bytes) {
      PlainAt(units, i);
    }
    forall i | 0 <= i < |pieces| ensures OwnUnit(format, pieces[i], i == |pieces| - 1) {
      ParsedSetIsOwnUnit(format, buf, i);
    }
    forall i | 0 < i < |pieces| ensures Apart(pieces[i - 1], pieces[i]) {
      NeighboursApart(format, buf, i - 1);
    }
  }

  lemma {:induction false} OtherOwnsNothing(piece: Piece, last: bool)
    requires piece.kind != Invalid
    ensures !OwnUnit(OtherFormat, piece, last)
  {
  }

  /** For any list of typed pieces: written one after another they parse back into themselves exactly when each is
      one unit of its kind and none swallows the start code behind it. */
  lemma {:induction false} ParsesBackIffSeparable(format: Format, pieces: seq<Piece>)
    requires forall i :: 0 <= i < |pieces| ==> pieces[i].kind != Invalid
    ensures Plain(Units(format, Join(pieces))) == pieces <==> Separable(format, pieces)
  {
    if Plain(Units(format, Join(pieces))) == pieces { ParsedIsSeparable(format, pieces); }
    if format == OtherFormat {
      UnitsLength(format, Join(pieces));
      forall i | 0 <= i < |pieces| ensures !OwnUnit(format, pieces[i], i == |pieces| - 1) {
        OtherOwnsNothing(pieces[i], i == |pieces| - 1);
      }
    } else if Separable(format, pieces) {
      SeparableParses(format, pieces);
    }
  }

  // ---------- what load makes of the units ----------

  lemma {:induction false} NewestIs(initial: seq<byte>, units: seq<NalUnit>, kind: UnitKind, i: nat)
    requires i < |units| && Accepted(units[i]) && units[i].kind == kind
    requires forall j :: i < j < |units| ==> units[j].kind != kind
    ensures NewestSet(initial, units, kind) == units[i].bytes
  {
    if i + 1 < |units| { NewestIs(initial, units[..|units| - 1], kind, i); }
  }

  lemma {:induction false} NewestNone(initial: seq<byte>, units: seq<NalUnit>, kind: UnitKind)
    requires forall j :: 0 <= j < |units| ==> units[j].kind != kind
    ensures NewestSet(initial, units, kind) == initial
  {
    if units != [] { NewestNone(initial, units[..|units| - 1], kind); }
  }

  lemma {:induction false} NewestFrom(units: seq<NalUnit>, kind: UnitKind) returns (i: nat)
    requires NewestSet([], units, kind) != []
    ensures i < |units| && units[i].kind == kind && units[i].bytes == NewestSet([], units, kind)
  {
    var last := units[|units| - 1];
    if Accepted(last) && last.kind == kind {
      i := |units| - 1;
    } else {
      i := NewestFrom(units[..|units| - 1], kind);
    }
  }

  // ---------- two ways to cut one string ----------

  ghost predicate DistinctKinds(pieces: seq<Piece>) {
    forall i, j :: 0 <= i < j < |pieces| ==> pieces[i].kind != pieces[j].kind
  }

  lemma {:induction false} Without(pieces: seq<Piece>, j: nat)
    requires j < |pieces|
    ensures |Join(pieces)| == |pieces[j].bytes| + |Join(pieces[..j] + pieces[j + 1..])|
  {
    assert pieces == pieces[..j] + ([pieces[j]] + pieces[j + 1..]);
    JoinAppend(pieces[..j], [pieces[j]] + pieces[j + 1..]);
    JoinAppend([pieces[j]], pieces[j + 1..]);
    JoinAppend(pieces[..j], pieces[j + 1..]);
    JoinOne(pieces[j]);
  }

  /** When `few`, of distinct kinds, all occur in `many` and are as long in total, `many` holds nothing else. */
  lemma {:induction false} Matching(few: seq<Piece>, many: seq<Piece>)
    requires DistinctKinds(few)
    requires forall i :: 0 <= i < |few| ==> few[i] in many
    requires forall i :: 0 <= i < |many| ==> many[i].bytes != []
    requires |Join(many)| <= |Join(few)|
    ensures |Join(many)| == |Join(few)| && DistinctKinds(many)
    ensures forall i :: 0 <= i < |many| ==> many[i] in few
  {
    if few == [] {
      assert many == [];
    } else {
      var j :| 0 <= j < |many| && many[j] == few[0];
      Without(many, j);
      OthersHold(few, many, j);
      Matching(few[1..], many[..j] + many[j + 1..]);
      OthersAre(many, j, few[1..]);
      MatchedKinds(few, many, j);
    }
  }

  /** With one match taken out the rest still matches. */
  lemma {:induction false} OthersHold(few: seq<Piece>, many: seq<Piece>, j: nat)
    requires few != [] && DistinctKinds(few) && j < |many| && many[j] == few[0]
    requires forall i :: 0 <= i < |few| ==> few[i] in many
    ensures forall i :: 0 <= i < |few[1..]| ==> few[1..][i] in many[..j] + many[j + 1..]
  {
    var others := many[..j] + many[j + 1..];
    forall i | 0 <= i < |few[1..]| ensures few[1..][i] in others {
      var k :| 0 <= k < |many| && many[k] == few[i + 1];
      assert k != j;
      assert others[if k < j then k else k - 1] == many[k];
    }
  }

  lemma {:induction false} OthersAre(many: seq<Piece>, j: nat, rest: seq<Piece>)
    requires j < |many|
    requires var others := many[..j] + many[j + 1..]; forall k :: 0 <= k < |others| ==> others[k] in rest
    ensures forall k :: 0 <= k < |many| && k != j ==> many[k] in rest
  {
    var others := many[..j] + many[j + 1..];
    forall k | 0 <= k < |many| && k != j ensures many[k] in rest {
      assert others[if k < j then k else k - 1] == many[k];
    }
  }

  lemma {:induction false} MatchedKinds(few: seq<Piece>, many: seq<Piece>, j: nat)
    requires few != [] && DistinctKinds(few) && j < |many| && many[j] == few[0]
    requires DistinctKinds(many[..j] + many[j + 1..])
    requires forall k :: 0 <= k < |many| && k != j ==> many[k] in few[1..]
    ensures DistinctKinds(many)
  {
    var others := many[..j] + many[j + 1..];
    forall a, b | 0 <= a < b < |many| ensures many[a].kind != many[b].kind {
      if a == j || b == j {
        var k := if a == j then b else a;
        var i :| 0 <= i < |few[1..]| && few[1..][i] == many[k];
        assert few[i + 1] == many[k];
      } else {
        assert others[if a < j then a else a - 1] == many[a];
        assert others[if b < j then b else b - 1] == many[b];
      }
    }
  }

  /** The piece begins with a start code and a header byte of its kind. */
  predicate OwnsHeader(format: Format, piece: Piece) {
    var c := CodeLength(piece.bytes);
    c > 0 && HeaderKind(format, piece.bytes[c]) == piece.kind
  }

  /** The header at the front of a string decides the kind of the piece that is cut off there. */
  lemma {:induction false} SameHeader(format: Format, a: Piece, x: seq<byte>, b: Piece, y: seq<byte>)
    requires OwnsHeader(format, a) && OwnsHeader(format, b) && a.bytes + x == b.bytes + y
    ensures a.kind == b.kind
  {
    CodeLengthPrefix(a.bytes, x);
    CodeLengthPrefix(b.bytes, y);
    var c := CodeLength(a.bytes);
    assert (a.bytes + x)[c] == a.bytes[c] && (b.bytes + y)[c] == b.bytes[c];
  }

  /** Heads of one kind are one piece, and behind it the rests match again. */
  lemma {:induction false} SameHead(a: seq<Piece>, b: seq<Piece>)
    requires a != [] && b != [] && Join(a) == Join(b) && DistinctKinds(a) && DistinctKinds(b) && a[0].kind == b[0].kind
    requires forall i :: 0 <= i < |a| ==> a[i] in b
    ensures a[0] == b[0] && Join(a[1..]) == Join(b[1..])
    ensures forall i :: 0 <= i < |a[1..]| ==> a[1..][i] in b[1..]
  {
    var j :| 0 <= j < |b| && b[j] == a[0];
    assert j == 0;
    forall i | 0 <= i < |a[1..]| ensures a[1..][i] in b[1..] {
      var k :| 0 <= k < |b| && b[k] == a[i + 1];
      assert k != 0;
      assert b[1..][k - 1] == b[k];
    }
    assert Join(a[1..]) == Join(a)[|a[0].bytes|..] && Join(b[1..]) == Join(b)[|b[0].bytes|..];
  }

  /** Two cuts of one string into the same pieces of distinct kinds are the same cut, in the same order. */
  lemma {:induction false} SameOrder(format: Format, a: seq<Piece>, b: seq<Piece>)
    requires Join(a) == Join(b) && DistinctKinds(a) && DistinctKinds(b)
    requires forall i :: 0 <= i < |a| ==> a[i] in b && OwnsHeader(format, a[i])
    requires forall i :: 0 <= i < |b| ==> OwnsHeader(format, b[i])
    ensures a == b
  {
    if a == [] || b == [] {
      assert a == [] ==> b == [];
    } else {
      SameHeader(format, a[0], Join(a[1..]), b[0], Join(b[1..]));
      SameHead(a, b);
      SameOrder(format, a[1..], b[1..]);
      assert a == [a[0]] + a[1..] && b == [b[0]] + b[1..];
    }
  }

  // ---------- the round trip ----------

  /** The stored form of bounded sets fits the buffer it is read into. */
  lemma {:induction false} StoredFormFits(format: Format, sets: ParamSets)
    requires Bounded(sets)
    ensures |StoredForm(format, sets)| <= 3 * SPSPPSBUFSZ
    ensures LoadFrom(format, Empty, StoredForm(format, sets)) ==
            LatchAll(Empty, LoadedUnits(format, sets))
  {
    var file := StoredForm(format, sets);
    assert file[..|file|] == file;
  }

  function LoadedUnits(format: Format, sets: ParamSets): seq<NalUnit> {
    var units := Units(format, StoredForm(format, sets));
    units[..Min(|units|, MAX_UNITS_LOAD)]
  }

  /** The pieces are the kept sets that are not empty, and their kinds differ. */
  lemma {:induction false} PiecesAre(format: Format, sets: ParamSets)
    ensures |Pieces(format, sets)| <= 3 && DistinctKinds(Pieces(format, sets))
    ensures forall i :: 0 <= i < |Pieces(format, sets)| ==>
              var p := Pieces(format, sets)[i];
              IsParameterSet(p.kind) && p.bytes != [] && p.bytes == CachedSet(Kept(format, sets), p.kind)
  {
  }

  lemma {:induction false} PieceOf(format: Format, sets: ParamSets, kind: UnitKind) returns (i: nat)
    requires IsParameterSet(kind) && CachedSet(Kept(format, sets), kind) != []
    ensures i < |Pieces(format, sets)| && Pieces(format, sets)[i] == Piece(kind, CachedSet(Kept(format, sets), kind))
  {
    var v := if format == H265 then |StoredPiece(Vps, sets.vps)| else 0;
    i := if kind == Vps then 0 else if kind == Sps then v else v + |StoredPiece(Sps, sets.sps)|;
  }

  /** The units of separable stored sets are these sets, none beyond the three that load keeps. */
  lemma {:induction false} SeparableUnits(format: Format, before: ParamSets, sets: ParamSets)
    requires Bounded(sets) && Separable(format, Pieces(format, sets))
    ensures var units, pieces := Units(format, StoredForm(format, sets)), Pieces(format, sets);
            && |units| == |pieces| <= MAX_UNITS_LOAD
            && (forall j :: 0 <= j < |units| ==> pieces[j] == Piece(units[j].kind, units[j].bytes))
    ensures LoadFrom(format, before, StoredForm(format, sets)) ==
            LatchAll(before, Units(format, StoredForm(format, sets)))
  {
    PiecesAre(format, sets);
    JoinPieces(format, sets);
    ParsesBackIffSeparable(format, Pieces(format, sets));
    PlainMatches(Units(format, StoredForm(format, sets)), Pieces(format, sets));
    StoredFormShort(format, sets);
    LoadWhole(format, before, StoredForm(format, sets));
  }

  lemma {:induction false} PlainMatches(units: seq<NalUnit>, pieces: seq<Piece>)
    requires Plain(units) == pieces
    ensures |units| == |pieces| && forall j :: 0 <= j < |units| ==> pieces[j] == Piece(units[j].kind, units[j].bytes)
  {
    PlainAt(units, 0);
    forall j | 0 <= j < |units| ensures pieces[j] == Piece(units[j].kind, units[j].bytes) { PlainAt(units, j); }
  }

  /** A file that fits the buffer and holds at most three units is loaded whole. */
  lemma {:induction false} LoadWhole(format: Format, before: ParamSets, file: seq<byte>)
    requires |file| <= 3 * SPSPPSBUFSZ && |Units(format, file)| <= MAX_UNITS_LOAD
    ensures LoadFrom(format, before, file) == LatchAll(before, Units(format, file))
  {
    assert file[..|file|] == file && Units(format, file)[..|Units(format, file)|] == Units(format, file);
  }

  lemma {:induction false} StoredFormShort(format: Format, sets: ParamSets)
    requires Bounded(sets)
    ensures |StoredForm(format, sets)| <= 3 * SPSPPSBUFSZ
  {
  }

  /** Loading separable sets replaces every set that was stored and leaves the others as they were. */
  lemma {:induction false} SeparableLoads(format: Format, before: ParamSets, sets: ParamSets, kind: UnitKind)
    requires Bounded(sets) && Separable(format, Pieces(format, sets)) && IsParameterSet(kind)
    ensures var stored := CachedSet(Kept(format, sets), kind);
            CachedSet(LoadFrom(format, before, StoredForm(format, sets)), kind) ==
            if stored == [] then CachedSet(before, kind) else stored
  {
    SeparableUnits(format, before, sets);
    LatchAllIsNewest(before, Units(format, StoredForm(format, sets)), kind);
    NewestOfPieces(format, sets, Units(format, StoredForm(format, sets)), CachedSet(before, kind), kind);
  }

  lemma {:induction false} NewestOfPieces(format: Format, sets: ParamSets, units: seq<NalUnit>, initial: seq<byte>,
                                          kind: UnitKind)
    requires Bounded(sets) && IsParameterSet(kind) && |units| == |Pieces(format, sets)|
    requires forall j :: 0 <= j < |units| ==> Pieces(format, sets)[j] == Piece(units[j].kind, units[j].bytes)
    ensures var stored := CachedSet(Kept(format, sets), kind);
            NewestSet(initial, units, kind) == if stored == [] then initial else stored
  {
    PiecesAre(format, sets);
    forall j | 0 <= j < |units|
      ensures Accepted(units[j]) && units[j].bytes == CachedSet(Kept(format, sets), units[j].kind)
    {
      assert Pieces(format, sets)[j] == Piece(units[j].kind, units[j].bytes);
    }
    if CachedSet(Kept(format, sets), kind) == [] {
      NewestNone(initial, units, kind);
    } else {
      var i := PieceOf(format, sets, kind);
      assert forall j :: i < j < |units| ==> Pieces(format, sets)[j].kind != Pieces(format, sets)[i].kind;
      NewestIs(initial, units, kind, i);
    }
  }

  lemma {:induction false} SetsEqual(a: ParamSets, b: ParamSets)
    requires forall kind :: IsParameterSet(kind) ==> CachedSet(a, kind) == CachedSet(b, kind)
    ensures a == b
  {
    assert CachedSet(a, Vps) == CachedSet(b, Vps);
    assert CachedSet(a, Sps) == CachedSet(b, Sps);
    assert CachedSet(a, Pps) == CachedSet(b, Pps);
  }

  /** Every set that a load gave back is one of the units of the file. */
  lemma {:induction false} LoadedIsUnit(format: Format, sets: ParamSets, i: nat)
    requires Bounded(sets) && LoadFrom(format, Empty, StoredForm(format, sets)) == Kept(format, sets)
    requires i < |Pieces(format, sets)|
    ensures Pieces(format, sets)[i] in Plain(Units(format, StoredForm(format, sets)))
  {
    var units, loaded := Units(format, StoredForm(format, sets)), LoadedUnits(format, sets);
    var piece := Pieces(format, sets)[i];
    PiecesAre(format, sets);
    StoredFormFits(format, sets);
    LatchAllIsNewest(Empty, loaded, piece.kind);
    var j := NewestFrom(loaded, piece.kind);
    assert units[j] == loaded[j];
    PlainAt(units, j);
    assert Plain(units)[j] == piece;
  }

  lemma {:induction false} UnitOwnsHeader(format: Format, buf: seq<byte>, k: nat)
    requires k < |Units(format, buf)|
    ensures |Plain(Units(format, buf))| == |Units(format, buf)|
    ensures Plain(Units(format, buf))[k].bytes != []
    ensures Plain(Units(format, buf))[k].kind != Invalid ==> OwnsHeader(format, Plain(Units(format, buf))[k])
  {
    PlainAt(Units(format, buf), k);
    UnitWellFormed(format, buf, k);
    if Units(format, buf)[k].kind != Invalid { UnitCodeLength(format, Units(format, buf)[k]); }
  }

  lemma {:induction false} UnitBytesBound(format: Format, buf: seq<byte>)
    ensures |UnitBytes(Units(format, buf))| <= |buf|
    ensures |UnitBytes(Units(format, buf))| == |buf| ==> UnitBytes(Units(format, buf)) == buf
  {
    if Units(format, buf) != [] { UnitsTile(format, buf); }
  }

  lemma {:induction false} ParsedOwnHeaders(format: Format, buf: seq<byte>)
    ensures var parsed := Plain(Units(format, buf));
            forall k :: 0 <= k < |parsed| ==>
              parsed[k].bytes != [] && (parsed[k].kind != Invalid ==> OwnsHeader(format, parsed[k]))
  {
    PlainAt(Units(format, buf), 0);
    forall k | 0 <= k < |Units(format, buf)|
      ensures Plain(Units(format, buf))[k].bytes != []
      ensures Plain(Units(format, buf))[k].kind != Invalid ==> OwnsHeader(format, Plain(Units(format, buf))[k])
    {
      UnitOwnsHeader(format, buf, k);
    }
  }

  /** A string cut into `pieces` parses into exactly these when each of them is among its units. */
  lemma {:induction false} AllAmongUnits(format: Format, pieces: seq<Piece>)
    requires DistinctKinds(pieces) && forall i :: 0 <= i < |pieces| ==> pieces[i].kind != Invalid
    requires forall i :: 0 <= i < |pieces| ==> pieces[i] in Plain(Units(format, Join(pieces)))
    ensures Plain(Units(format, Join(pieces))) == pieces
  {
    var buf := Join(pieces);
    var parsed := Plain(Units(format, buf));
    JoinPlain(Units(format, buf));
    UnitBytesBound(format, buf);
    ParsedOwnHeaders(format, buf);
    Matching(pieces, parsed);
    forall i | 0 <= i < |pieces| ensures OwnsHeader(format, pieces[i]) {
      var k :| 0 <= k < |parsed| && parsed[k] == pieces[i];
    }
    forall k | 0 <= k < |parsed| ensures OwnsHeader(format, parsed[k]) { assert parsed[k] in pieces; }
    SameOrder(format, pieces, parsed);
  }

  lemma {:induction false} LoadedIsSeparable(format: Format, sets: ParamSets)
    requires Bounded(sets) && LoadFrom(format, Empty, StoredForm(format, sets)) == Kept(format, sets)
    ensures Separable(format, Pieces(format, sets))
  {
    var pieces := Pieces(format, sets);
    PiecesAre(format, sets);
    JoinPieces(format, sets);
    forall i | 0 <= i < |pieces|
      ensures pieces[i] in Plain(Units(format, Join(pieces)))
    {
      LoadedIsUnit(format, sets, i);
    }
    AllAmongUnits(format, pieces);
    ParsesBackIffSeparable(format, pieces);
  }

  /** Store then load into a fresh element restores exactly the kept sets if and only if the sets are separable. */
  lemma {:induction false} StoreLoadRoundTrip(format: Format, sets: ParamSets)
    requires Bounded(sets)
    ensures StoredForm(format, sets) == (if format == H265 then sets.vps else []) + sets.sps + sets.pps
    ensures LoadFrom(format, Empty, StoredForm(format, sets)) == Kept(format, sets)
            <==> Separable(format, Pieces(format, sets))
    ensures Kept(format, sets) == ParamSets(if format == H265 then sets.vps else [], sets.sps, sets.pps)
  {
    if LoadFrom(format, Empty, StoredForm(format, sets)) == Kept(format, sets) { LoadedIsSeparable(format, sets); }
    if Separable(format, Pieces(format, sets)) {
      forall kind | IsParameterSet(kind)
        ensures CachedSet(LoadFrom(format, Empty, StoredForm(format, sets)), kind) ==
                CachedSet(Kept(format, sets), kind)
      {
        SeparableLoads(format, Empty, sets, kind);
      }
      SetsEqual(LoadFrom(format, Empty, StoredForm(format, sets)), Kept(format, sets));
    }
  }

  /** A set that does not end in 00 or in 00 00 01. */
  predicate CleanEnd(bytes: seq<byte>) {
    && (bytes != [] ==> bytes[|bytes| - 1] != 0)
    && (|bytes| >= 3 ==> !PatternAt(bytes, |bytes| - 3))
  }

  /** Sets as the frame callback caches them (ParsedSetIsOwnUnit) that end in neither 00 nor a bare start code
      survive every store and load. */
  lemma {:induction false} CleanSetsRoundTrip(format: Format, sets: ParamSets)
    requires Bounded(sets)
    requires forall i :: 0 <= i < |Pieces(format, sets)| ==>
               OwnUnit(format, Pieces(format, sets)[i], true) && CleanEnd(Pieces(format, sets)[i].bytes)
    ensures LoadFrom(format, Empty, StoredForm(format, sets)) == Kept(format, sets)
  {
    var pieces := Pieces(format, sets);
    forall i | 0 <= i < |pieces| ensures OwnUnit(format, pieces[i], false) {
      assert OwnUnit(format, pieces[i], true) && CleanEnd(pieces[i].bytes);
      CleanIsInner(format, pieces[i]);
    }
    StoreLoadRoundTrip(format, sets);
  }

  lemma {:induction false} CleanIsInner(format: Format, piece: Piece)
    requires OwnUnit(format, piece, true) && CleanEnd(piece.bytes)
    ensures OwnUnit(format, piece, false)
  {
    var b := piece.bytes;
    forall q: nat | q + 3 > CodeLength(b) ensures !PatternAt(b, q) {
      assert !CodeAt(b, q);
      if q + 3 == |b| { assert !PatternAt(b, |b| - 3); }
    }
  }

  /** What goes wrong otherwise: a zero at the end of the SPS comes back as part of the PPS. */
  lemma {:induction false} TrailingZeroMoves()
    ensures StoredForm(H264, ParamSets([], [0, 0, 1, 103, 0], [0, 0, 1, 104])) == [0, 0, 1, 103, 0, 0, 0, 1, 104]
    ensures LoadFrom(H264, Empty, StoredForm(H264, ParamSets([], [0, 0, 1, 103, 0], [0, 0, 1, 104]))) ==
            ParamSets([], [0, 0, 1, 103], [0, 0, 0, 1, 104])
  {
    var moved := ParamSets([], [0, 0, 1, 103], [0, 0, 0, 1, 104]);
    assert StoredForm(H264, moved) == [0, 0, 1, 103, 0, 0, 0, 1, 104];
    MovedIsSeparable();
    StoreLoadRoundTrip(H264, moved);
  }

  lemma {:induction false} MovedIsSeparable()
    ensures Separable(H264, Pieces(H264, ParamSets([], [0, 0, 1, 103], [0, 0, 0, 1, 104])))
  {
    var sps, pps := Piece(Sps, [0, 0, 1, 103]), Piece(Pps, [0, 0, 0, 1, 104]);
    assert Pieces(H264, ParamSets([], sps.bytes, pps.bytes)) == [sps, pps];
    assert OwnUnit(H264, sps, false);
    assert OwnUnit(H264, pps, true);
  }
}
