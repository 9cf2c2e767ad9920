/** The cache files themselves (spspps_cache.c:76-154): store and load against a directory held as a map from file
    name to bytes. */
module CacheFiles {
  import opened Bytes
  import opened AnnexB
  import opened PipelineSpec
  import opened PipelineLaws
  import opened FramePipeline
  import opened ParameterCache
  import opened CachePath

  class Disk {
    var files: map<string, seq<byte>>
  }

  function NameOf(key: Key): string {
    FileName(key.index, key.isH265, key.width, key.height)
  }

  /** spspps_clamp_len() */
  function ClampLen(len: int): nat {
    if len <= 0 then 0 else Min(len, SPSPPSBUFSZ)
  }

  function FormatOf(key: Key): Format {
    if key.isH265 then H265 else H264
  }

  /** store_spspps(): the sets one after another, VPS only under an H.265 key; `opened` says whether fopen() worked. */
  method StoreSets(self: Element, disk: Disk, key: Key, fileOpens: bool)
    requires self.Valid()
    modifies disk
    ensures disk.files == if fileOpens
                          then old(disk.files)[NameOf(key) := StoredForm(FormatOf(key), self.sets)]
                          else old(disk.files)
  {
    if !fileOpens { return; }
    var content := [];
    if key.isH265 {
      content := content + self.vps[..ClampLen(self.vpsLength)];
    }
    content := content + self.sps[..ClampLen(self.spsLength)];
    content := content + self.pps[..ClampLen(self.ppsLength)];
    assert content == StoredForm(FormatOf(key), self.sets);
    disk.files := disk.files[NameOf(key) := content];
  }

  /** One parsed unit of the file copied into the element. */
  method LoadUnit(self: Element, unit: NalUnit)
    requires self.Valid()
    modifies self`vpsLength, self`spsLength, self`ppsLength, self`sets, self.vps, self.sps, self.pps
    ensures self.Valid() && self.sets == Latch(old(self.sets), unit)
  {
    match unit.kind {
      case Vps | Sps | Pps =>
        if |unit.bytes| == 0 || |unit.bytes| > SPSPPSBUFSZ { return; }
        self.CopySet(unit);
      case _ =>
    }
  }

  /** load_spspps(): read at most the buffer, parse at most three units, copy them in. */
  method LoadSets(self: Element, disk: Disk, key: Key)
    requires self.Valid()
    modifies self`vpsLength, self`spsLength, self`ppsLength, self`sets, self.vps, self.sps, self.pps
    ensures self.Valid()
    ensures self.sets == if NameOf(key) in disk.files then
              LoadFrom(self.format, old(self.sets), disk.files[NameOf(key)])
                         else old(self.sets)
  {
    if NameOf(key) !in disk.files { return; }
    var file := disk.files[NameOf(key)];
    var buf := file[..Min(|file|, SPSPPSBUFSZ * 3)];
    var units := new NalUnit[MAX_UNITS_LOAD](_ => NalUnit(Invalid, 0, []));
    var c := ParseNalUnits(self.format, units, MAX_UNITS_LOAD, buf);
    ghost var parsed := Units(self.format, buf)[..c];
    var i := 0;
    while i < c
      invariant 0 <= i <= c && self.Valid() && units[..c] == parsed
      invariant self.sets == LatchAll(old(self.sets), parsed[..i])
    {
      assert units[i] == units[..c][i] == parsed[i];
      LoadUnit(self, units[i]);
      i := i + 1;
      LatchStep(old(self.sets), parsed, i);
    }
    assert parsed[..c] == parsed;
  }

  lemma {:induction false} LatchStep(sets: ParamSets, units: seq<NalUnit>, i: nat)
    requires 0 < i <= |units|
    ensures LatchAll(sets, units[..i]) == Latch(LatchAll(sets, units[..i - 1]), units[i - 1])
  {
    assert units[..i][..i - 1] == units[..i - 1];
  }

  // ---------- many stores, one load ----------

  datatype Store = Store(key: Key, sets: ParamSets)

  /** The directory after a run of stores by any number of elements. */
  function DiskAfter(files: map<string, seq<byte>>, stores: seq<Store>): map<string, seq<byte>> {
    if stores == [] then files
    else
      var last := stores[|stores| - 1];
      DiskAfter(files, stores[..|stores| - 1])[NameOf(last.key) := StoredForm(FormatOf(last.key), last.sets)]
  }

  function LastStored(stores: seq<Store>, key: Key): Option<ParamSets> {
    if stores == [] then None
    else if stores[|stores| - 1].key == key then Some(stores[|stores| - 1].sets)
    else LastStored(stores[..|stores| - 1], key)
  }

  ghost predicate SoundKeys(stores: seq<Store>) {
    forall i :: 0 <= i < |stores| ==> IsCString(stores[i].key.index)
  }

  /** However stores under many keys interleave, each key's file holds the last sets stored under that very key, and a
      key that was not stored under keeps the file it had, or has none. */
  lemma {:induction false} EachKeyItsOwnFile(files: map<string, seq<byte>>, stores: seq<Store>, key: Key)
    requires SoundKeys(stores) && IsCString(key.index)
    ensures var name, last, after := NameOf(key), LastStored(stores, key), DiskAfter(files, stores);
            if last.Some? then name in after && after[name] == StoredForm(FormatOf(key), last.value)
            else (name in after <==> name in files) && (name in files ==> after[name] == files[name])
  {
    if stores != [] {
      var last := stores[|stores| - 1];
      EachKeyItsOwnFile(files, stores[..|stores| - 1], key);
      if NameOf(last.key) == NameOf(key) { KeysNeverCollide(last.key, key); }
    }
  }

  /** After any run of stores on any directory, a fresh element that loads under a key gets back the last sets stored
      under it, exactly when these are separable. */
  lemma {:induction false} FreshLoadAfterStores(files: map<string, seq<byte>>, stores: seq<Store>, key: Key)
    requires SoundKeys(stores) && IsCString(key.index)
    requires LastStored(stores, key).Some? && Bounded(LastStored(stores, key).value)
    ensures NameOf(key) in DiskAfter(files, stores)
    ensures var sets := LastStored(stores, key).value;
            LoadFrom(FormatOf(key), Empty, DiskAfter(files, stores)[NameOf(key)]) == Kept(FormatOf(key), sets)
            <==> Separable(FormatOf(key), Pieces(FormatOf(key), sets))
  {
    EachKeyItsOwnFile(files, stores, key);
    StoreLoadRoundTrip(FormatOf(key), LastStored(stores, key).value);
  }
}
