/** The cache path builder (spspps_path.h:46-94): escape the selector, fold in codec and resolution. The file name
    is decoded again from left to right, so no two keys share a file. */
module CachePath {
  import opened Bytes

  const KEY_SIZE := 768

  /** A C string: no NUL inside. */
  predicate IsCString(s: seq<byte>) {
    forall i :: 0 <= i < |s| ==> s[i] != 0
  }

  predicate Safe(c: byte) {
    65 <= c <= 90 || 97 <= c <= 122 || 48 <= c <= 57 || c == 45
  }

  function HexDigit(d: nat): (c: char)
    requires d < 16
    ensures '0' <= c <= '9' || 'A' <= c <= 'F'
  {
    if d < 10 then (48 + d) as char else (55 + d) as char
  }

  function EscapeByte(c: byte): string {
    if Safe(c) then [c as char] else ['_', HexDigit(c / 16), HexDigit(c % 16)]
  }

  function Escape(index: seq<byte>): string {
    if index == [] then "" else Escape(index[..|index| - 1]) + EscapeByte(index[|index| - 1])
  }

  /** %d */
  function Digits(n: nat): string {
    if n < 10 then [(48 + n) as char] else Digits(n / 10) + [(48 + n % 10) as char]
  }

  function Decimal(n: int): string {
    if n < 0 then ['-'] + Digits(-n) else Digits(n)
  }

  function Codec(isH265: bool): string {
    if isH265 then "h265" else "h264"
  }

  /** The part of the path behind the directory. */
  function FileName(index: seq<byte>, isH265: bool, width: int, height: int): string {
    Escape(index) + "_" + Codec(isH265) + "_" + Decimal(width) + "x" + Decimal(height)
  }

  function PathOf(home: string, index: Option<seq<byte>>, isH265: bool, width: int, height: int): string {
    match index
    case None => home + "/.spspps"
    case Some(i) => home + "/.spspps/" + FileName(i, isH265, width, height)
  }

  // ---------- decoding ----------

  function HexValue(c: char): Option<nat> {
    if '0' <= c <= '9' then Some(c as nat - 48)
    else if 'A' <= c <= 'F' then Some(c as nat - 55)
    else None
  }

  datatype Key = Key(index: seq<byte>, isH265: bool, width: int, height: int)

  /** Read the escaped selector from the front: up to an underscore that no hex digit follows. */
  function Unescape(s: string): Option<(seq<byte>, string)>
    decreases |s|
  {
    if s == "" then None
    else if s[0] == '_' then
      if |s| < 3 || HexValue(s[1]) == None then Some(([], s))
      else match HexValue(s[2])
        case None => None
        case Some(low) =>
          match Unescape(s[3..])
          case None => None
          case Some((rest, tail)) => Some(([HexValue(s[1]).value * 16 + low] + rest, tail))
    else if s[0] as int < 256 && Safe(s[0] as int) then
      match Unescape(s[1..])
      case None => None
      case Some((rest, tail)) => Some(([s[0] as int] + rest, tail))
    else None
  }

  /** Read digits from the front: their value and what follows. */
  function ReadDigits(acc: nat, s: string): (nat, string)
    decreases |s|
  {
    if s != "" && '0' <= s[0] <= '9' then ReadDigits(10 * acc + (s[0] as nat - 48), s[1..]) else (acc, s)
  }

  function ReadDecimal(s: string): (int, string) {
    if s != "" && s[0] == '-' then
      var r := ReadDigits(0, s[1..]);
      (0 - r.0, r.1)
    else ReadDigits(0, s)
  }

  /** Read width, 'x' and height up to the end. */
  function ReadSize(s: string): Option<(int, int)> {
    var w := ReadDecimal(s);
    if w.1 == "" || w.1[0] != 'x' then None
    else
      var h := ReadDecimal(w.1[1..]);
      if h.1 != "" then None else Some((w.0, h.0))
  }

  function Decode(name: string): Option<Key> {
    match Unescape(name)
    case None => None
    case Some((index, tail)) =>
      if |tail| < 6 || (tail[..6] != "_h264_" && tail[..6] != "_h265_") then None
      else
        match ReadSize(tail[6..])
        case None => None
        case Some((width, height)) => Some(Key(index, tail[..6] == "_h265_", width, height))
  }

  // ---------- the decoder inverts the builder ----------

  lemma {:induction false} EscapeByteDecodes(c: byte, tail: string)
    requires c != 0 && Unescape(tail).Some?
    ensures Unescape(EscapeByte(c) + tail) == Some(([c] + Unescape(tail).value.0, Unescape(tail).value.1))
  {
    var s := EscapeByte(c) + tail;
    if Safe(c) {
      assert s[0] == c as char && s[1..] == tail;
    } else {
      assert s[0] == '_';
      assert s[1] == HexDigit(c / 16) && s[2] == HexDigit(c % 16) && s[3..] == tail;
      assert HexValue(s[1]) == Some(c / 16) && HexValue(s[2]) == Some(c % 16);
    }
  }

  lemma {:induction false} EscapeFront(index: seq<byte>)
    requires index != []
    ensures Escape(index) == EscapeByte(index[0]) + Escape(index[1..])
  {
    if |index| == 1 {
      assert index[..0] == [] && index[1..] == [];
    } else {
      var init := index[..|index| - 1];
      EscapeFront(init);
      assert init[1..] == index[1..][..|index[1..]| - 1];
      Assoc(EscapeByte(index[0]), Escape(init[1..]), EscapeByte(index[|index| - 1]));
    }
  }

  lemma {:induction false} EscapeDecodes(index: seq<byte>, tail: string)
    requires IsCString(index) && |tail| >= 2 && tail[0] == '_' && HexValue(tail[1]) == None
    ensures Unescape(Escape(index) + tail) == Some((index, tail))
    decreases |index|
  {
    if index == [] {
      assert Escape(index) + tail == tail;
    } else {
      EscapeDecodes(index[1..], tail);
      EscapeDecodesFront(index, tail);
    }
  }

  lemma {:induction false} EscapeDecodesFront(index: seq<byte>, tail: string)
    requires index != [] && index[0] != 0 && Unescape(Escape(index[1..]) + tail) == Some((index[1..], tail))
    ensures Unescape(Escape(index) + tail) == Some((index, tail))
  {
    EscapeFront(index);
    EscapeByteDecodes(index[0], Escape(index[1..]) + tail);
    Assoc(EscapeByte(index[0]), Escape(index[1..]), tail);
    assert [index[0]] + index[1..] == index;
  }

  function Pow10(n: nat): nat {
    if n == 0 then 1 else 10 * Pow10(n - 1)
  }

  lemma {:induction false} DigitsRead(n: nat, acc: nat, tail: string)
    requires tail == "" || !('0' <= tail[0] <= '9')
    ensures Digits(n) != "" && '0' <= Digits(n)[0] <= '9'
    ensures ReadDigits(acc, Digits(n) + tail) == (acc * Pow10(|Digits(n)|) + n, tail)
  {
    DigitsReadBefore(n, acc, tail);
    assert ReadDigits(acc * Pow10(|Digits(n)|) + n, tail) == (acc * Pow10(|Digits(n)|) + n, tail);
  }

  lemma {:induction false} ShiftIn(acc: nat, p: nat, n: nat)
    ensures 10 * (acc * p + n / 10) + n % 10 == acc * (10 * p) + n
  {
    assert acc * (10 * p) == 10 * (acc * p);
  }

  /** Reading over the digits of n leaves what is behind them to be read with the value so far. */
  lemma {:induction false} DigitsReadBefore(n: nat, acc: nat, tail: string)
    ensures Digits(n) != "" && '0' <= Digits(n)[0] <= '9'
    ensures ReadDigits(acc, Digits(n) + tail) == ReadDigits(acc * Pow10(|Digits(n)|) + n, tail)
    decreases n
  {
    if n < 10 {
      var s := Digits(n) + tail;
      assert s[0] == (48 + n) as char && s[1..] == tail;
      assert Pow10(1) == 10;
    } else {
      var last := [(48 + n % 10) as char];
      DigitsReadBefore(n / 10, acc, last + tail);
      Assoc(Digits(n / 10), last, tail);
      assert (last + tail)[0] == (48 + n % 10) as char && (last + tail)[1..] == tail;
      var k := |Digits(n / 10)|;
      ShiftIn(acc, Pow10(k), n);
    }
  }

  lemma {:induction false} DecimalReads(n: int, tail: string)
    requires tail == "" || !('0' <= tail[0] <= '9')
    ensures ReadDecimal(Decimal(n) + tail) == (n, tail)
  {
    if n < 0 {
      DigitsRead(-n, 0, tail);
      var s := Decimal(n) + tail;
      assert s[0] == '-' && s[1..] == Digits(-n) + tail;
    } else {
      DigitsRead(n, 0, tail);
      assert (Digits(n) + tail)[0] == Digits(n)[0];
    }
  }

  lemma {:induction false} DigitsLead(n: nat)
    ensures Digits(n) != "" && (Digits(n)[0] == '0' <==> n == 0)
  {
    if n >= 10 { DigitsLead(n / 10); }
  }

  /** A decimal is the number, in its one spelling: a minus exactly for negative numbers, no leading zero. */
  lemma {:induction false} DecimalCanonical(n: int)
    ensures ReadDecimal(Decimal(n)) == (n, "") && Decimal(n) != ""
    ensures Decimal(0) == "0" && (n < 0 <==> Decimal(n)[0] == '-')
    ensures n > 0 ==> Decimal(n)[0] != '0'
    ensures n < 0 ==> |Decimal(n)| > 1 && Decimal(n)[1] != '0'
  {
    DecimalReads(n, "");
    assert Decimal(n) + "" == Decimal(n);
    DigitsRead(if n < 0 then -n else n, 0, "");
    DigitsLead(if n < 0 then -n else n);
  }

  lemma {:induction false} SizeReads(width: int, height: int)
    ensures ReadSize(Decimal(width) + ("x" + Decimal(height))) == Some((width, height))
  {
    var tail := "x" + Decimal(height);
    DecimalReads(width, tail);
    assert tail[1..] == Decimal(height) + "";
    DecimalReads(height, "");
  }

  /** Every file name decodes to exactly the key it was built from. */
  lemma {:induction false} FileNameDecodes(index: seq<byte>, isH265: bool, width: int, height: int)
    requires IsCString(index)
    ensures Decode(FileName(index, isH265, width, height)) == Some(Key(index, isH265, width, height))
  {
    var size := Decimal(width) + ("x" + Decimal(height));
    NameParts(index, isH265, width, height);
    CodecTail(isH265, size);
    EscapeDecodes(index, CodecPart(isH265) + size);
    SizeReads(width, height);
  }

  function CodecPart(isH265: bool): string {
    if isH265 then "_h265_" else "_h264_"
  }

  lemma {:induction false} Regroup(a: string, b: string, c: string, d: string, e: string, f: string, g: string)
    ensures a + b + c + d + e + f + g == a + ((b + c + d) + (e + (f + g)))
  {
    Assoc(a, b, c);
    Assoc(a, b + c, d);
    Assoc(a + (b + c + d), e, f);
    Assoc(a + (b + c + d), e + f, g);
    Assoc(e, f, g);
    Assoc(a, b + c + d, e + (f + g));
  }

  lemma {:induction false} NameParts(index: seq<byte>, isH265: bool, width: int, height: int)
    ensures FileName(index, isH265, width, height) ==
            Escape(index) + (CodecPart(isH265) + (Decimal(width) + ("x" + Decimal(height))))
  {
    assert CodecPart(isH265) == "_" + Codec(isH265) + "_";
    var w, h := Decimal(width), Decimal(height);
    Regroup(Escape(index), "_", Codec(isH265), "_", w, "x", h);
  }

  lemma {:induction false} CodecTail(isH265: bool, size: string)
    ensures var tail := CodecPart(isH265) + size;
            && |tail| >= 6 && tail[..6] == CodecPart(isH265) && tail[6..] == size
            && tail[0] == '_' && HexValue(tail[1]) == None
    ensures CodecPart(isH265) == "_h265_" <==> isH265
    ensures CodecPart(isH265) == "_h264_" <==> !isH265
  {
    var tail := CodecPart(isH265) + size;
    assert tail[1] == CodecPart(isH265)[1] == 'h';
    assert "_h265_"[4] != "_h264_"[4];
  }

  /** Distinct keys never share a cache file. */
  lemma {:induction false} KeysNeverCollide(a: Key, b: Key)
    requires IsCString(a.index) && IsCString(b.index)
    requires FileName(a.index, a.isH265, a.width, a.height) == FileName(b.index, b.isH265, b.width, b.height)
    ensures a == b
  {
    FileNameDecodes(a.index, a.isH265, a.width, a.height);
    FileNameDecodes(b.index, b.isH265, b.width, b.height);
  }

  predicate Harmless(s: string) {
    forall i :: 0 <= i < |s| ==> s[i] != '/' && s[i] != '.' && s[i] != '\0'
  }

  lemma {:induction false} EscapeHarmless(index: seq<byte>)
    requires IsCString(index)
    ensures Harmless(Escape(index))
  {
    if index != [] { EscapeHarmless(index[..|index| - 1]); }
  }

  lemma {:induction false} DigitsHarmless(n: nat)
    ensures Harmless(Digits(n))
  {
    if n >= 10 { DigitsHarmless(n / 10); }
  }

  lemma {:induction false} DecimalHarmless(n: int)
    ensures Harmless(Decimal(n))
  {
    DigitsHarmless(if n < 0 then -n else n);
    HarmlessJoin("-", Digits(if n < 0 then -n else n));
  }

  lemma {:induction false} HarmlessJoin(a: string, b: string)
    requires Harmless(a) && Harmless(b)
    ensures Harmless(a + b)
  {
  }

  /** The name holds no path separator and no dot, so it stays inside the cache directory whatever the selector is. */
  lemma {:induction false} FileNameHarmless(index: seq<byte>, isH265: bool, width: int, height: int)
    requires IsCString(index)
    ensures Harmless(FileName(index, isH265, width, height))
  {
    EscapeHarmless(index);
    DecimalHarmless(width);
    DecimalHarmless(height);
    HarmlessJoin(Decimal(width), "x");
    HarmlessJoin(Decimal(width) + "x", Decimal(height));
    HarmlessJoin(CodecPart(isH265), Decimal(width) + "x" + Decimal(height));
    HarmlessJoin(Escape(index), CodecPart(isH265) + (Decimal(width) + "x" + Decimal(height)));
    NameParts(index, isH265, width, height);
    Assoc(Decimal(width), "x", Decimal(height));
  }

  lemma {:induction false} EscapeLength(index: seq<byte>)
    ensures |index| <= |Escape(index)| <= 3 * |index|
  {
    if index != [] { EscapeLength(index[..|index| - 1]); }
  }

  lemma {:induction false} EscapeGrows(index: seq<byte>, i: nat)
    requires i <= |index|
    ensures |Escape(index[..i])| <= |Escape(index)|
    decreases |index| - i
  {
    if i < |index| {
      EscapeGrows(index, i + 1);
      assert index[..i + 1][..i] == index[..i];
    } else {
      assert index[..i] == index;
    }
  }

  // ---------- the builder ----------

  /** One selector byte behind the k characters written so far, or -1 when it does not fit. */
  method PutByte(key: array<char>, k: nat, c: byte) returns (end: int)
    requires key.Length == KEY_SIZE && k < KEY_SIZE
    modifies key
    ensures end == if k + |EscapeByte(c)| >= KEY_SIZE then -1 else k + |EscapeByte(c)|
    ensures end != -1 ==> key[..end] == old(key[..k]) + EscapeByte(c)
  {
    if Safe(c) {
      if k + 1 >= KEY_SIZE { return -1; }
      key[k] := c as char;
      end := k + 1;
    } else {
      if k + 3 >= KEY_SIZE { return -1; }
      key[k], key[k + 1], key[k + 2] := '_', HexDigit(c / 16), HexDigit(c % 16);
      end := k + 3;
    }
  }

  /** The escaping loop over the fixed key buffer: length of the key, or -1 when it does not fit with its NUL. */
  method BuildKey(index: seq<byte>, key: array<char>) returns (k: int)
    requires key.Length == KEY_SIZE
    modifies key
    ensures k == -1 <==> |Escape(index)| >= 768
    ensures k != -1 ==> k == |Escape(index)| && key[..k] == Escape(index) && key[k] == '\0'
  {
    k := 0;
    for p := 0 to |index|
      invariant 0 <= k < KEY_SIZE && k == |Escape(index[..p])|
      invariant key[..k] == Escape(index[..p])
    {
      var c := index[p];
      assert index[..p + 1][..p] == index[..p];
      EscapeGrows(index, p + 1);
      k := PutByte(key, k, c);
      if k == -1 { return; }
    }
    assert index[..|index|] == index;
    key[k] := '\0';
  }

  /** snprintf: as much as fits, NUL behind it, and the length it would have taken. */
  method Print(out: array<char>, s: string) returns (n: nat)
    requires out.Length > 0
    modifies out
    ensures n == |s|
    ensures var kept := Min(n, out.Length - 1); out[..kept] == s[..kept] && out[kept] == '\0'
  {
    var kept := Min(|s|, out.Length - 1);
    forall i | 0 <= i < kept { out[i] := s[i]; }
    out[kept] := '\0';
    n := |s|;
  }

  /** spspps_build_path: the length written, or -1 when there is no room in `out` or in the key buffer. */
  method BuildPath(out: array<char>, home: Option<string>, index: Option<seq<byte>>, isH265: bool, width: int,
                   height: int)
    returns (ret: int)
    modifies out
    ensures var dir := if home.Some? then home.value else "";
            var path := PathOf(dir, index, isH265, width, height);
            if |path| < out.Length && (index.Some? ==> |Escape(index.value)| < 768) then
              ret == |path| && out[..ret] == path && out[ret] == '\0'
            else ret == -1
  {
    if out.Length == 0 { return -1; }
    var dir := if home.Some? then home.value else "";
    var n;
    if index == None {
      n := Print(out, dir + "/.spspps");
    } else {
      var key := new char[KEY_SIZE];
      var k := BuildKey(index.value, key);
      if k == -1 { return -1; }
      n := Print(out, dir + "/.spspps/" +
                 (key[..k] + "_" + Codec(isH265) + "_" + Decimal(width) + "x" + Decimal(height)));
    }
    ret := if n >= out.Length then -1 else n;
  }

  /** A selector of at most 255 bytes, all that a key snapshot can hold, never exhausts the key buffer. */
  lemma {:induction false} SnapshotAlwaysFits(index: seq<byte>)
    requires |index| <= 255
    ensures |Escape(index)| < 768
  {
    EscapeLength(index);
  }

  const INDEX_MAX := 256

  /** spspps_key_snapshot(): g_strlcpy() keeps the first 255 bytes of the selector. */
  function Snapshot(index: seq<byte>): seq<byte> {
    index[..Min(|index|, INDEX_MAX - 1)]
  }

  /** Two selectors share a file of one codec and resolution exactly when their first 255 bytes agree: selectors
      that differ only behind that do collide. */
  lemma {:induction false} SelectorsCollide(a: seq<byte>, b: seq<byte>, isH265: bool, width: int, height: int)
    requires IsCString(a) && IsCString(b)
    ensures FileName(Snapshot(a), isH265, width, height) == FileName(Snapshot(b), isH265, width, height)
            <==> a[..Min(|a|, 255)] == b[..Min(|b|, 255)]
  {
    FileNameDecodes(Snapshot(a), isH265, width, height);
    FileNameDecodes(Snapshot(b), isH265, width, height);
  }

  lemma {:induction false} DigitsOne(n: nat)
    requires n < 10
    ensures Digits(n) == [(48 + n) as char]
  {
  }

  lemma {:induction false} DigitsMore(front: string, n: nat, d: nat)
    requires n >= 1 && d < 10 && Digits(n) == front
    ensures Digits(10 * n + d) == front + [(48 + d) as char]
  {
  }

  const HexDigits := "0123456789ABCDEF"

  /** Letters, digits and '-' stand for themselves; any other byte is written as two upper-case hex digits. */
  lemma {:induction false} EscapeByteIs(c: byte)
    ensures var ch := c as char;
            EscapeByte(c) == if 'A' <= ch <= 'Z' || 'a' <= ch <= 'z' || '0' <= ch <= '9' || ch == '-' then [ch]
                             else ['_', HexDigits[c / 16], HexDigits[c % 16]]
  {
    HexDigitIs(c / 16);
    HexDigitIs(c % 16);
  }

  lemma {:induction false} HexDigitIs(d: nat)
    requires d < 16
    ensures HexDigit(d) == HexDigits[d]
  {
  }

  lemma {:induction false} EscapeMore(front: seq<byte>, c: byte)
    ensures Escape(front + [c]) == Escape(front) + EscapeByte(c)
  {
    assert (front + [c])[..|front|] == front;
  }

  lemma {:induction false} EscapeExample()
    ensures Escape([97, 47]) == "a_2F"
  {
    EscapeMore([], 97);
    assert [] + [97] == [97];
    EscapeMore([97], 47);
    assert [97] + [47] == [97, 47];
    assert Escape([97]) == "a";
    assert EscapeByte(47) == "_2F";
  }

  lemma {:induction false} DigitsExample()
    ensures Digits(1920) == "1920" && Digits(1080) == "1080"
  {
    DigitsOne(1);
    DigitsMore("1", 1, 9);
    DigitsMore("19", 19, 2);
    DigitsMore("192", 192, 0);
    DigitsMore("1", 1, 0);
    DigitsMore("10", 10, 8);
    DigitsMore("108", 108, 0);
  }

  /** The file of the selector a/ for H.265 at 1920x1080. */
  lemma {:induction false} FileNameExample()
    ensures FileName([97, 47], true, 1920, 1080) == "a_2F_h265_1920x1080"
    ensures PathOf("/root", Some([97, 47]), true, 1920, 1080) == "/root/.spspps/" + "a_2F_h265_1920x1080"
  {
    EscapeExample();
    DigitsExample();
  }
}
