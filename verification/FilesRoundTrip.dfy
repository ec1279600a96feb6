/** Reading back the file listing that the header writer emits. */
module FilesRoundTrips {
  import opened Wrappers
  import opened Words
  import opened Parsers
  import opened Digests
  import opened PackInfos
  import opened FilesInfos
  import opened HeaderWriter

  /** The fields fit their widths and the name can be terminated. */
  ghost predicate IsValidEntry(entry: WriteEntry) {
    && IsRawName(entry.name)
    && forall tag: byte :: FieldOf(tag, entry).Some? ==> FieldOf(tag, entry).value < Capacity(WidthOf(tag))
  }

  ghost predicate AllValidEntries(entries: seq<WriteEntry>) {
    forall i :: 0 <= i < |entries| ==> IsValidEntry(entries[i])
  }

  // ---------------------------------------------------------------- one property

  lemma PropertyStep(tag: byte, block: Bytes, rest: Bytes, external: seq<Bytes>, listing: Listing, files: FilesInfo)
    requires |block| < U64_LIMIT && END < tag <= LAST_PROPERTY && IsFileProperty(tag) && tag !in listing.seen
    requires ApplyProperty(tag, block, external, listing.files) == Success(files)
    ensures ParseProperties(Property(tag, block) + rest, external, listing)
         == ParseProperties(rest, external, Listing(files, listing.seen + {tag}))
  {
    hide EncodeVarint, ApplyProperty, SizedBlock;
    var s := Property(tag, block) + rest;
    assert s[1..] == EncodeVarint(|block|) + block + rest;
    SizedBlockRoundTrip(block, rest);
  }

  lemma DefinedValuesRoundTrip(values: seq<Option<nat>>, width: nat, external: seq<Bytes>)
    requires Fits(values, width)
    ensures DefinedValues(ValueBlock(values, width), |values|, width, external) == Success(values)
  {
    hide ValuesFrom, ValueBytes, Bitmap, Flags, Defined, AllDefined;
    var bitmap := if AllDefined(values) then [] else Bitmap(Defined(values));
    var allDefined: byte := if AllDefined(values) then 1 else 0;
    var data := ValueBytes(values, width);
    var block := ValueBlock(values, width);
    assert block == [allDefined] + (bitmap + ([0] + data));
    assert |bitmap| == BitmapLength(allDefined, |values|);
    BlockParts(allDefined, bitmap, data, block);
    DefinedFlags(values);
    ValuesRoundTrip(values, width);
  }

  lemma BlockParts(allDefined: byte, bitmap: Bytes, data: Bytes, block: Bytes)
    requires block == [allDefined] + (bitmap + ([0] + data))
    ensures block[0] == allDefined && block[1..1 + |bitmap|] == bitmap
    ensures block[1 + |bitmap|..] == [0] + data && PropertyData([0] + data, []) == Success(data)
  {
    assert block[1..] == bitmap + ([0] + data);
    assert ([0] + data)[1..] == data;
  }

  function WrittenValues(values: seq<Option<nat>>): seq<Option<nat>> {
    if AnyDefined(values) then values else []
  }

  ghost function ValuesOf(tag: byte, files: FilesInfo): seq<Option<nat>> {
    if tag == C_TIME then files.cTimes
    else if tag == A_TIME then files.aTimes
    else if tag == M_TIME then files.mTimes
    else if tag == START_POS then files.startPositions
    else files.attributes
  }

  lemma ValuesStep(tag: byte, values: seq<Option<nat>>, rest: Bytes, external: seq<Bytes>, listing: Listing)
    returns (seen: set<byte>)
    requires IsDefinedProperty(tag) && tag !in listing.seen
    requires listing.files.numFiles == |values| && ValuesOf(tag, listing.files) == []
    requires Fits(values, WidthOf(tag)) && |ValueBlock(values, WidthOf(tag))| < U64_LIMIT
    ensures seen <= listing.seen + {tag}
    ensures ParseProperties(ValueProperty(tag, values) + rest, external, listing)
         == ParseProperties(rest, external, Listing(SetValues(tag, WrittenValues(values), listing.files), seen))
  {
    hide ParseProperties, Property, ValueBlock, DefinedValues, Fits;
    if AnyDefined(values) {
      DefinedValuesRoundTrip(values, WidthOf(tag), external);
      var block := ValueBlock(values, WidthOf(tag));
      PropertyStep(tag, block, rest, external, listing, SetValues(tag, values, listing.files));
      seen := listing.seen + {tag};
    } else {
      assert ValueProperty(tag, values) + rest == rest;
      seen := listing.seen;
    }
  }

  function WrittenBitmap(flags: seq<bool>): Bytes {
    if true in flags then Bitmap(flags) else []
  }

  lemma WrittenBitmapBit(flags: seq<bool>, i: nat)
    ensures BitmapIsSet(WrittenBitmap(flags), i) <==> i < |flags| && flags[i]
  {
    BitmapRoundTrip(flags, i);
    if i < |flags| && flags[i] {
      assert true in flags;
    }
  }

  lemma BitmapStep(tag: byte, flags: seq<bool>, rest: Bytes, external: seq<Bytes>, listing: Listing)
    returns (seen: set<byte>)
    requires (tag == EMPTY_FILE || tag == ANTI) && tag !in listing.seen && |flags| < U64_LIMIT
    requires if tag == ANTI then listing.files.antiItems == [] else listing.files.emptyFiles == []
    ensures seen <= listing.seen + {tag}
    ensures var files := listing.files;
      ParseProperties(BitmapProperty(tag, flags) + rest, external, listing)
      == ParseProperties(rest, external, Listing(
           if tag == ANTI then files.(antiItems := WrittenBitmap(flags))
           else files.(emptyFiles := WrittenBitmap(flags)), seen))
  {
    hide ParseProperties, Property, Bitmap;
    var files := listing.files;
    if true in flags {
      PropertyStep(tag, Bitmap(flags), rest, external, listing,
        if tag == ANTI then files.(antiItems := Bitmap(flags)) else files.(emptyFiles := Bitmap(flags)));
      seen := listing.seen + {tag};
    } else {
      assert BitmapProperty(tag, flags) + rest == rest;
      seen := listing.seen;
    }
  }

  // ---------------------------------------------------------------- the whole listing

  function WithEmpties(entries: seq<WriteEntry>, files: FilesInfo): FilesInfo {
    files.(emptyStreams := WrittenBitmap(Empties(entries)),
           emptyFiles := WrittenBitmap(EmptiesOfKind(entries, WriteFile)),
           antiItems := WrittenBitmap(EmptiesOfKind(entries, WriteAnti)))
  }

  lemma {:induction false} NoEmptiesOfAnyKind(entries: seq<WriteEntry>, kind: WriteKind)
    requires true !in Empties(entries)
    ensures EmptiesOfKind(entries, kind) == []
  {
    if entries != [] {
      assert Empties(entries)[0] == !entries[0].hasStream;
      assert Empties(entries)[1..] == Empties(entries[1..]);
      NoEmptiesOfAnyKind(entries[1..], kind);
    }
  }

  lemma EmptiesStep(entries: seq<WriteEntry>, rest: Bytes, external: seq<Bytes>) returns (seen: set<byte>)
    requires |entries| < U64_LIMIT
    ensures seen <= {EMPTY_STREAM, EMPTY_FILE, ANTI}
    ensures ParseProperties(EmptyBytes(entries) + rest, external, Listing(NoFiles(|entries|), {}))
         == ParseProperties(rest, external, Listing(WithEmpties(entries, NoFiles(|entries|)), seen))
  {
    hide ParseProperties, Property, BitmapProperty, Bitmap, EmptiesOfKind;
    var none := NoFiles(|entries|);
    var empties, files, antis := Empties(entries), EmptiesOfKind(entries, WriteFile), EmptiesOfKind(entries, WriteAnti);
    if true in empties {
      var a := BitmapProperty(ANTI, antis) + rest;
      var b := BitmapProperty(EMPTY_FILE, files) + a;
      var first := none.(emptyStreams := Bitmap(empties));
      assert EmptyBytes(entries) + rest == Property(EMPTY_STREAM, Bitmap(empties)) + b;
      PropertyStep(EMPTY_STREAM, Bitmap(empties), b, external, Listing(none, {}), first);
      seen := BitmapStep(EMPTY_FILE, files, a, external, Listing(first, {} + {EMPTY_STREAM}));
      var second := first.(emptyFiles := WrittenBitmap(files));
      seen := BitmapStep(ANTI, antis, rest, external, Listing(second, seen));
    } else {
      NoEmptiesOfAnyKind(entries, WriteFile);
      NoEmptiesOfAnyKind(entries, WriteAnti);
      assert EmptyBytes(entries) + rest == rest;
      seen := {};
    }
  }

  lemma NamesStep(entries: seq<WriteEntry>, rest: Bytes, external: seq<Bytes>, listing: Listing)
    requires 1 + |Terminated(Names(entries))| < U64_LIMIT && AllValidEntries(entries)
    requires NAME !in listing.seen && listing.files.numFiles == |entries|
    ensures ParseProperties(Property(NAME, [0] + Terminated(Names(entries))) + rest, external, listing)
         == ParseProperties(rest, external,
              Listing(listing.files.(nameData := Terminated(Names(entries))), listing.seen + {NAME}))
  {
    hide ParseProperties, Property, NamesValid, Terminated, IsRawName;
    var names := Names(entries);
    forall i | 0 <= i < |names| ensures IsRawName(names[i]) {
      assert IsValidEntry(entries[i]);
    }
    NamesRoundTrip(names);
    var block := [0] + Terminated(names);
    assert block[1..] == Terminated(names);
    PropertyStep(NAME, block, rest, external, listing, listing.files.(nameData := Terminated(names)));
  }

  function WithNames(entries: seq<WriteEntry>, files: FilesInfo): FilesInfo {
    files.(nameData := Terminated(Names(entries)))
  }

  function WithValues(entries: seq<WriteEntry>, files: FilesInfo): FilesInfo {
    files.(cTimes := WrittenValues(Fields(C_TIME, entries)),
           aTimes := WrittenValues(Fields(A_TIME, entries)),
           mTimes := WrittenValues(Fields(M_TIME, entries)),
           startPositions := WrittenValues(Fields(START_POS, entries)),
           attributes := WrittenValues(Fields(ATTRIBUTES, entries)))
  }

  lemma FieldsFit(tag: byte, entries: seq<WriteEntry>)
    requires AllValidEntries(entries)
    ensures Fits(Fields(tag, entries), WidthOf(tag))
  {
    forall i | 0 <= i < |entries| && Fields(tag, entries)[i].Some?
      ensures Fields(tag, entries)[i].value < Capacity(WidthOf(tag))
    {
      assert IsValidEntry(entries[i]);
    }
  }

  lemma FieldStep(tag: byte, entries: seq<WriteEntry>, rest: Bytes, external: seq<Bytes>, listing: Listing)
    returns (seen: set<byte>)
    requires IsDefinedProperty(tag) && tag !in listing.seen
    requires listing.files.numFiles == |entries| && ValuesOf(tag, listing.files) == []
    requires AllValidEntries(entries) && Listable(entries)
    ensures seen <= listing.seen + {tag}
    ensures ParseProperties(ValueProperty(tag, Fields(tag, entries)) + rest, external, listing)
         == ParseProperties(rest, external,
              Listing(SetValues(tag, WrittenValues(Fields(tag, entries)), listing.files), seen))
  {
    hide ParseProperties, ValueProperty, Fits, AllValidEntries;
    FieldsFit(tag, entries);
    seen := ValuesStep(tag, Fields(tag, entries), rest, external, listing);
  }

  predicate NoValues(files: FilesInfo) {
    && files.cTimes == [] && files.aTimes == [] && files.mTimes == []
    && files.startPositions == [] && files.attributes == []
  }

  function WithTimes(entries: seq<WriteEntry>, files: FilesInfo): FilesInfo {
    files.(cTimes := WrittenValues(Fields(C_TIME, entries)),
           aTimes := WrittenValues(Fields(A_TIME, entries)),
           mTimes := WrittenValues(Fields(M_TIME, entries)))
  }

  lemma TimesStep(entries: seq<WriteEntry>, rest: Bytes, external: seq<Bytes>, listing: Listing)
    returns (seen: set<byte>)
    requires AllValidEntries(entries) && Listable(entries) && listing.files.numFiles == |entries|
    requires NoValues(listing.files) && listing.seen !! {C_TIME, A_TIME, M_TIME}
    ensures seen <= listing.seen + {C_TIME, A_TIME, M_TIME}
    ensures var times := ValueProperty(C_TIME, Fields(C_TIME, entries)) + (
        ValueProperty(A_TIME, Fields(A_TIME, entries)) + (ValueProperty(M_TIME, Fields(M_TIME, entries)) + rest));
      ParseProperties(times, external, listing)
      == ParseProperties(rest, external, Listing(WithTimes(entries, listing.files), seen))
  {
    hide ParseProperties, ValueProperty, AllValidEntries, Fields, WrittenValues, FieldOf, ValueBlock;
    var a := ValueProperty(M_TIME, Fields(M_TIME, entries)) + rest;
    var b := ValueProperty(A_TIME, Fields(A_TIME, entries)) + a;
    seen := FieldStep(C_TIME, entries, b, external, listing);
    var files := listing.files.(cTimes := WrittenValues(Fields(C_TIME, entries)));
    seen := FieldStep(A_TIME, entries, a, external, Listing(files, seen));
    files := files.(aTimes := WrittenValues(Fields(A_TIME, entries)));
    seen := FieldStep(M_TIME, entries, rest, external, Listing(files, seen));
  }

  lemma AllFieldsStep(entries: seq<WriteEntry>, rest: Bytes, external: seq<Bytes>, listing: Listing)
    returns (seen: set<byte>)
    requires AllValidEntries(entries) && Listable(entries) && listing.files.numFiles == |entries|
    requires NoValues(listing.files) && listing.seen !! {C_TIME, A_TIME, M_TIME, START_POS, ATTRIBUTES}
    ensures ParseProperties(FieldsBytes(entries) + rest, external, listing)
         == ParseProperties(rest, external, Listing(WithValues(entries, listing.files), seen))
  {
    hide ParseProperties, ValueProperty, AllValidEntries, Fields, WrittenValues, FieldOf, ValueBlock;
    var a := ValueProperty(ATTRIBUTES, Fields(ATTRIBUTES, entries)) + rest;
    var b := ValueProperty(START_POS, Fields(START_POS, entries)) + a;
    assert FieldsBytes(entries) + rest
        == ValueProperty(C_TIME, Fields(C_TIME, entries)) + (ValueProperty(A_TIME, Fields(A_TIME, entries))
           + (ValueProperty(M_TIME, Fields(M_TIME, entries)) + b));
    seen := TimesStep(entries, b, external, listing);
    var files := WithTimes(entries, listing.files);
    seen := FieldStep(START_POS, entries, a, external, Listing(files, seen));
    files := files.(startPositions := WrittenValues(Fields(START_POS, entries)));
    seen := FieldStep(ATTRIBUTES, entries, rest, external, Listing(files, seen));
  }

  function WrittenFiles(entries: seq<WriteEntry>): FilesInfo
    requires |entries| < U64_LIMIT
  {
    WithValues(entries, WithNames(entries, WithEmpties(entries, NoFiles(|entries|))))
      .(emptyStreamOrdinals := Ordinals(WrittenBitmap(Empties(entries)), |entries|))
  }

  lemma FileCountRoundTrip(n: u64, rest: Bytes)
    ensures ParseFileCount([FILES_INFO] + (EncodeVarint(n) + rest)) == Ok(rest, n)
  {
    hide EncodeVarint, DecodeVarint;
    assert ([FILES_INFO] + (EncodeVarint(n) + rest))[1..] == EncodeVarint(n) + rest;
    DecodeEncode(n, rest);
  }

  lemma PropertiesEnd(external: seq<Bytes>, listing: Listing, rest: Bytes)
    ensures ParseProperties([END] + rest, external, listing) == Ok(rest, listing)
  {
    assert ([END] + rest)[1..] == rest;
  }

  /** The parts of a listing, grouped as they are parsed one after the other. */
  lemma FilesBytesSplit(entries: seq<WriteEntry>, rest: Bytes)
    requires Listable(entries)
    ensures FilesBytes(entries) + rest
         == [FILES_INFO] + (EncodeVarint(|entries|) + (EmptyBytes(entries)
            + (Property(NAME, [0] + Terminated(Names(entries))) + (FieldsBytes(entries) + ([END] + rest)))))
  {
    hide EncodeVarint, EmptyBytes, Property, Terminated, FieldsBytes;
    var a, b, c := EncodeVarint(|entries|), EmptyBytes(entries), Property(NAME, [0] + Terminated(Names(entries)));
    SixParts([FILES_INFO], a, b, c, FieldsBytes(entries), [END], rest);
  }

  lemma SixParts<T>(a: seq<T>, b: seq<T>, c: seq<T>, d: seq<T>, e: seq<T>, f: seq<T>, rest: seq<T>)
    ensures a + b + c + d + e + f + rest == a + (b + (c + (d + (e + (f + rest)))))
  {
    Grouped(a + b + c + d + e, f, rest);
    Grouped(a + b + c + d, e, f + rest);
    Grouped(a + b + c, d, e + (f + rest));
    Grouped(a + b, c, d + (e + (f + rest)));
    Grouped(a, b, c + (d + (e + (f + rest))));
  }

  /** Reading the written listing gives back every table, whatever the external data. */
  lemma FilesRoundTrip(entries: seq<WriteEntry>, external: seq<Bytes>, rest: Bytes)
    requires AllValidEntries(entries) && Listable(entries)
    ensures ParseFilesInfo(FilesBytes(entries) + rest, external) == Ok(rest, WrittenFiles(entries))
  {
    hide EncodeVarint, ParseFileCount, ParseProperties, EmptyBytes, Property, ValueProperty, Terminated, Ordinals,
      AllValidEntries, WrittenBitmap, WrittenValues, Fields;
    var a := [END] + rest;
    var b := FieldsBytes(entries) + a;
    var c := Property(NAME, [0] + Terminated(Names(entries))) + b;
    var d := EmptyBytes(entries) + c;
    FilesBytesSplit(entries, rest);
    FileCountRoundTrip(|entries|, d);
    var seen := EmptiesStep(entries, c, external);
    var files := WithEmpties(entries, NoFiles(|entries|));
    NamesStep(entries, b, external, Listing(files, seen));
    files := WithNames(entries, files);
    seen := AllFieldsStep(entries, a, external, Listing(files, seen + {NAME}));
    PropertiesEnd(external, Listing(WithValues(entries, files), seen), rest);
  }

  // ---------------------------------------------------------------- what the listing says

  /** How a written entry is to be classified on reading. */
  function WrittenKind(entry: WriteEntry): EntryKind<()> {
    var symlink := entry.attributes.Some? && IsSymlinkMode(entry.attributes.value);
    if entry.hasStream then if symlink then Symlink(()) else File(())
    else if entry.kind == WriteAnti then Anti
    else if symlink then EmptySymlink
    else if entry.kind == WriteFile then EmptyFile
    else EntryKind.Directory
  }

  function ValueAt(values: seq<Option<nat>>, i: nat): Option<nat> {
    if i < |values| then values[i] else None
  }

  lemma WrittenValueAt(values: seq<Option<nat>>, i: nat)
    requires i < |values|
    ensures ValueAt(WrittenValues(values), i) == values[i]
  {
  }

  /** The bitmaps over entries without a stream are in file order, so a rank finds its entry. */
  lemma {:induction false} RankCompresses(entries: seq<WriteEntry>, i: nat, kind: WriteKind)
    requires i <= |entries|
    ensures Rank(WrittenBitmap(Empties(entries)), i) == |EmptiesOfKind(entries[..i], kind)|
  {
    hide WrittenBitmap, BitmapIsSet, EmptiesOfKind;
    if i == 0 {
      assert entries[..0] == [] && EmptiesOfKind(entries[..0], kind) == [] by {
        NoEmpties(kind);
      }
    } else {
      RankCompresses(entries, i - 1, kind);
      EmptiesOneMore(entries, i - 1, kind);
      WrittenBitmapBit(Empties(entries), i - 1);
    }
  }

  lemma {:induction false} EmptiesPrefix(entries: seq<WriteEntry>, i: nat, kind: WriteKind)
    requires i <= |entries|
    ensures EmptiesOfKind(entries[..i], kind) <= EmptiesOfKind(entries, kind)
    decreases |entries| - i
  {
    if i == |entries| {
      assert entries[..i] == entries;
    } else {
      EmptiesOneMore(entries, i, kind);
      EmptiesPrefix(entries, i + 1, kind);
    }
  }

  lemma EmptyKindFound(entries: seq<WriteEntry>, i: nat, kind: WriteKind)
    requires i < |entries| && !entries[i].hasStream
    ensures BitmapIsSet(WrittenBitmap(EmptiesOfKind(entries, kind)), Rank(WrittenBitmap(Empties(entries)), i))
       <==> entries[i].kind == kind
  {
    hide WrittenBitmap, BitmapIsSet, EmptiesOfKind, Rank;
    var rank := Rank(WrittenBitmap(Empties(entries)), i);
    RankCompresses(entries, i, kind);
    EmptiesOneMore(entries, i, kind);
    EmptiesPrefix(entries, i + 1, kind);
    assert EmptiesOfKind(entries[..i + 1], kind)[rank] == (entries[i].kind == kind);
    WrittenBitmapBit(EmptiesOfKind(entries, kind), rank);
  }

  /** Every entry is classified on reading as it was on writing. */
  lemma KindRoundTrip(entries: seq<WriteEntry>, i: nat)
    requires |entries| < U64_LIMIT && i < |entries|
    ensures EntryKindAt(WrittenFiles(entries), i) == WrittenKind(entries[i])
  {
    hide BitmapIsSet, WrittenBitmap, WrittenValues, Rank, Terminated;
    var files := WrittenFiles(entries);
    WrittenBitmapBit(Empties(entries), i);
    WrittenValueAt(Fields(ATTRIBUTES, entries), i);
    if !entries[i].hasStream {
      EmptyKindFound(entries, i, WriteAnti);
      EmptyKindFound(entries, i, WriteFile);
    }
  }

  /** Every name and every optional field comes back for the entry it was written for. */
  lemma EntryRoundTrip(entries: seq<WriteEntry>, i: nat)
    requires AllValidEntries(entries) && |entries| < U64_LIMIT && i < |entries|
    ensures var files, entry := WrittenFiles(entries), entries[i];
      && NamesFrom(files.nameData, files.numFiles)[i] == Some(entry.name)
      && ValueAt(files.cTimes, i) == entry.cTime
      && ValueAt(files.aTimes, i) == entry.aTime
      && ValueAt(files.mTimes, i) == entry.mTime
      && ValueAt(files.startPositions, i) == entry.startPos
      && ValueAt(files.attributes, i) == entry.attributes
      && EntryKindAt(files, i) == WrittenKind(entry)
  {
    hide WrittenValues, Terminated, EntryKindAt, WrittenKind, IsRawName, Ordinals, WrittenBitmap;
    var names := Names(entries);
    forall j | 0 <= j < |names| ensures IsRawName(names[j]) {
      assert IsValidEntry(entries[j]);
    }
    NamesRoundTrip(names);
    WrittenValueAt(Fields(C_TIME, entries), i);
    WrittenValueAt(Fields(A_TIME, entries), i);
    WrittenValueAt(Fields(M_TIME, entries), i);
    WrittenValueAt(Fields(START_POS, entries), i);
    WrittenValueAt(Fields(ATTRIBUTES, entries), i);
    KindRoundTrip(entries, i);
  }
}
