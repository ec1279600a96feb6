/** The header writer: what each section looks like in bytes, and the buffer that appends them. */
module HeaderWriter {
  import opened Wrappers
  import opened Words
  import opened Parsers
  import opened Digests
  import opened FilesInfos

  // ---------------------------------------------------------------- what is written

  datatype WriteKind = WriteFile | WriteDirectory | WriteAnti

  /** name holds UTF-16 units without a terminator; times are already in file-time ticks. */
  datatype WriteEntry = WriteEntry(
    name: Bytes, kind: WriteKind, hasStream: bool,
    cTime: Option<nat>, aTime: Option<nat>, mTime: Option<nat>, startPos: Option<nat>, attributes: Option<nat>)

  datatype CompletedFolder = CompletedFolder(
    fileIndices: seq<nat>, packSizes: seq<u64>, coderInfo: Bytes, coderUnpackSizes: seq<u64>,
    folderCrc: Option<u32>, fileSizes: seq<u64>, fileCrcs: seq<Option<u32>>)

  // ---------------------------------------------------------------- tables over all folders

  function PackSizes(folders: seq<CompletedFolder>): seq<u64> {
    if folders == [] then [] else folders[0].packSizes + PackSizes(folders[1..])
  }

  function CoderInfos(folders: seq<CompletedFolder>): Bytes {
    if folders == [] then [] else folders[0].coderInfo + CoderInfos(folders[1..])
  }

  function CoderSizes(folders: seq<CompletedFolder>): seq<u64> {
    if folders == [] then [] else folders[0].coderUnpackSizes + CoderSizes(folders[1..])
  }

  function FolderCrcs(folders: seq<CompletedFolder>): (r: seq<Option<u32>>)
    ensures |r| == |folders|
  {
    seq(|folders|, i requires 0 <= i < |folders| => folders[i].folderCrc)
  }

  function FileCrcs(folders: seq<CompletedFolder>): seq<Option<u32>> {
    if folders == [] then [] else folders[0].fileCrcs + FileCrcs(folders[1..])
  }

  /** All sizes of a folder but the last. */
  function ExplicitSizes(sizes: seq<u64>): seq<u64> {
    if sizes == [] then [] else sizes[..|sizes| - 1]
  }

  function FileSizes(folders: seq<CompletedFolder>): seq<u64> {
    if folders == [] then [] else ExplicitSizes(folders[0].fileSizes) + FileSizes(folders[1..])
  }

  ghost predicate Countable(folders: seq<CompletedFolder>) {
    && |folders| < U64_LIMIT && |PackSizes(folders)| < U64_LIMIT
    && forall i :: 0 <= i < |folders| ==> |folders[i].fileIndices| < U64_LIMIT
  }

  function StreamCounts(folders: seq<CompletedFolder>): (r: seq<u64>)
    requires forall i :: 0 <= i < |folders| ==> |folders[i].fileIndices| < U64_LIMIT
    ensures |r| == |folders|
  {
    seq(|folders|, i requires 0 <= i < |folders| => |folders[i].fileIndices| as u64)
  }

  predicate AnyNotSingle(folders: seq<CompletedFolder>) {
    exists i :: 0 <= i < |folders| && |folders[i].fileIndices| != 1
  }

  predicate AnyMultiple(folders: seq<CompletedFolder>) {
    exists i :: 0 <= i < |folders| && |folders[i].fileIndices| > 1
  }

  // ---------------------------------------------------------------- sections in bytes

  /** A digest property, left out when nothing is defined. */
  function CrcProperty(crcs: seq<Option<u32>>): Bytes {
    if AnyDefined(crcs) then [CRC] + DigestBlock(crcs) else []
  }

  function PackBytes(packPos: u64, packSizes: seq<u64>): Bytes
    requires |packSizes| < U64_LIMIT
  {
    [PACK_INFO] + EncodeVarint(packPos) + EncodeVarint(|packSizes|) + [SIZE] + EncodeMany(packSizes) + [END]
  }

  function UnpackBytes(folders: seq<CompletedFolder>): Bytes
    requires |folders| < U64_LIMIT
  {
    [UNPACK_INFO] + [FOLDER] + EncodeVarint(|folders|) + [0] + CoderInfos(folders)
    + [CODERS_UNPACK_SIZE] + EncodeMany(CoderSizes(folders)) + CrcProperty(FolderCrcs(folders)) + [END]
  }

  function CountProperty(folders: seq<CompletedFolder>): Bytes
    requires Countable(folders)
  {
    if AnyNotSingle(folders) then [NUM_UNPACK_STREAM] + EncodeMany(StreamCounts(folders)) else []
  }

  function SizeProperty(folders: seq<CompletedFolder>): Bytes {
    if AnyMultiple(folders) then [SIZE] + EncodeMany(FileSizes(folders)) else []
  }

  function SubstreamBytes(folders: seq<CompletedFolder>): Bytes
    requires Countable(folders)
  {
    [SUBSTREAMS_INFO] + CountProperty(folders) + SizeProperty(folders) + CrcProperty(FileCrcs(folders)) + [END]
  }

  /** A tag, a size and that many bytes. */
  function Property(tag: byte, block: Bytes): Bytes
    requires |block| < U64_LIMIT
  {
    [tag] + EncodeVarint(|block|) + block
  }

  function BitmapProperty(tag: byte, flags: seq<bool>): Bytes
    requires |flags| < U64_LIMIT
  {
    if true in flags then Property(tag, Bitmap(flags)) else []
  }

  function Empties(entries: seq<WriteEntry>): (r: seq<bool>)
    ensures |r| == |entries|
  {
    seq(|entries|, i requires 0 <= i < |entries| => !entries[i].hasStream)
  }

  /** Whether each entry without a stream is of the given kind. */
  function EmptiesOfKind(entries: seq<WriteEntry>, kind: WriteKind): (r: seq<bool>)
    ensures |r| <= |entries|
  {
    if entries == [] then []
    else if entries[0].hasStream then EmptiesOfKind(entries[1..], kind)
    else [entries[0].kind == kind] + EmptiesOfKind(entries[1..], kind)
  }

  function EmptyBytes(entries: seq<WriteEntry>): Bytes
    requires |entries| < U64_LIMIT
  {
    if true in Empties(entries) then
      Property(EMPTY_STREAM, Bitmap(Empties(entries)))
      + BitmapProperty(EMPTY_FILE, EmptiesOfKind(entries, WriteFile))
      + BitmapProperty(ANTI, EmptiesOfKind(entries, WriteAnti))
    else []
  }

  function Names(entries: seq<WriteEntry>): (r: seq<Bytes>)
    ensures |r| == |entries|
  {
    seq(|entries|, i requires 0 <= i < |entries| => entries[i].name)
  }

  /** The optional fields of an entry, by property tag. */
  function FieldOf(tag: byte, entry: WriteEntry): Option<nat> {
    if tag == C_TIME then entry.cTime
    else if tag == A_TIME then entry.aTime
    else if tag == M_TIME then entry.mTime
    else if tag == START_POS then entry.startPos
    else entry.attributes
  }

  function Fields(tag: byte, entries: seq<WriteEntry>): (r: seq<Option<nat>>)
    ensures |r| == |entries|
  {
    seq(|entries|, i requires 0 <= i < |entries| => FieldOf(tag, entries[i]))
  }

  function ValueBlock(values: seq<Option<nat>>, width: nat): Bytes {
    (if AllDefined(values) then [1] else [0] + Bitmap(Defined(values))) + [0] + ValueBytes(values, width)
  }

  function ValueProperty(tag: byte, values: seq<Option<nat>>): Bytes
    requires |ValueBlock(values, WidthOf(tag))| < U64_LIMIT
  {
    if AnyDefined(values) then Property(tag, ValueBlock(values, WidthOf(tag))) else []
  }

  /** Every block of the listing has a size of at most 64 bits. */
  ghost predicate Listable(entries: seq<WriteEntry>) {
    && |entries| < U64_LIMIT
    && 1 + |Terminated(Names(entries))| < U64_LIMIT
    && forall tag: byte :: |ValueBlock(Fields(tag, entries), WidthOf(tag))| < U64_LIMIT
  }

  function FilesBytes(entries: seq<WriteEntry>): Bytes
    requires Listable(entries)
  {
    [FILES_INFO] + EncodeVarint(|entries|) + EmptyBytes(entries)
    + Property(NAME, [0] + Terminated(Names(entries))) + FieldsBytes(entries) + [END]
  }

  /** Times, start positions and attributes, in the order in which they are written. */
  function FieldsBytes(entries: seq<WriteEntry>): Bytes
    requires Listable(entries)
  {
    ValueProperty(C_TIME, Fields(C_TIME, entries)) + ValueProperty(A_TIME, Fields(A_TIME, entries))
    + ValueProperty(M_TIME, Fields(M_TIME, entries)) + ValueProperty(START_POS, Fields(START_POS, entries))
    + ValueProperty(ATTRIBUTES, Fields(ATTRIBUTES, entries))
  }

  function StreamsBytes(folders: seq<CompletedFolder>): Bytes
    requires Countable(folders)
  {
    PackBytes(0, PackSizes(folders)) + UnpackBytes(folders) + SubstreamBytes(folders) + [END]
  }

  function HeaderBytes(entries: seq<WriteEntry>, folders: seq<CompletedFolder>): Bytes
    requires Listable(entries) && Countable(folders)
  {
    [HEADER] + (if folders == [] then [] else [MAIN_STREAMS_INFO] + StreamsBytes(folders)) + FilesBytes(entries) + [END]
  }

  // ---------------------------------------------------------------- the buffer

  lemma NothingEncoded()
    ensures EncodeMany([]) == []
  {
  }

  lemma {:induction false} EncodeManyAppend(a: seq<u64>, b: seq<u64>)
    ensures EncodeMany(a + b) == EncodeMany(a) + EncodeMany(b)
  {
    hide EncodeVarint, EncodeMany;
    EncodeManyUnfold(a);
    if a == [] {
      assert a + b == b;
    } else {
      EncodeManyUnfold(a + b);
      EncodeManyAppend(a[1..], b);
      assert (a + b)[1..] == a[1..] + b;
    }
  }

  lemma Regroup(a: Bytes, b: Bytes, c: Bytes, d: Bytes)
    ensures a + b + c + d == a + (b + c + d)
    ensures a + b + c + d == a + (b + (c + d))
  {
  }

  /** The header under construction. */
  class HeaderBuffer {
    var h: Bytes

    constructor ()
      ensures h == []
    {
      h := [];
    }

    method Push(b: byte)
      modifies this
      ensures h == old(h) + [b]
    {
      h := h + [b];
    }

    method Extend(bytes: Bytes)
      modifies this
      ensures h == old(h) + bytes
    {
      h := h + bytes;
    }

    method WriteVarint(value: u64)
      modifies this
      ensures h == old(h) + EncodeVarint(value)
    {
      var bytes := EncodeVarintLoop(value);
      Extend(bytes);
    }

    method WriteMany(values: seq<u64>)
      modifies this
      ensures h == old(h) + EncodeMany(values)
    {
      hide EncodeVarint;
      assert h + EncodeMany([]) == h;
      for i := 0 to |values|
        invariant h == old(h) + EncodeMany(values[..i])
      {
        WriteVarint(values[i]);
        assert values[..i + 1] == values[..i] + [values[i]];
        EncodeManyAppend(values[..i], [values[i]]);
        assert EncodeMany([values[i]]) == EncodeVarint(values[i]) + EncodeMany([values[i]][1..]);
      }
      assert values[..|values|] == values;
    }

    method WritePackSizes(folders: seq<CompletedFolder>)
      modifies this
      ensures h == old(h) + EncodeMany(PackSizes(folders))
    {
      hide EncodeMany, PackSizes;
      TakeNone(folders);
      NothingEncoded();
      assert h + [] == h;
      for i := 0 to |folders|
        invariant h == old(h) + EncodeMany(PackSizes(folders[..i]))
      {
        WriteMany(folders[i].packSizes);
        TakeOneMore(folders, i);
        EncodeManyAppend(PackSizes(folders[..i]), folders[i].packSizes);
        Grouped(old(h), EncodeMany(PackSizes(folders[..i])), EncodeMany(folders[i].packSizes));
      }
      assert folders[..|folders|] == folders;
    }

    method WriteCoderInfos(folders: seq<CompletedFolder>)
      modifies this
      ensures h == old(h) + CoderInfos(folders)
    {
      hide CoderInfos;
      TakeNone(folders);
      for i := 0 to |folders|
        invariant h == old(h) + CoderInfos(folders[..i])
      {
        Extend(folders[i].coderInfo);
        TakeOneMore(folders, i);
      }
      assert folders[..|folders|] == folders;
    }

    method WriteCoderSizes(folders: seq<CompletedFolder>)
      modifies this
      ensures h == old(h) + EncodeMany(CoderSizes(folders))
    {
      hide EncodeMany, CoderSizes;
      TakeNone(folders);
      NothingEncoded();
      assert h + [] == h;
      for i := 0 to |folders|
        invariant h == old(h) + EncodeMany(CoderSizes(folders[..i]))
      {
        WriteMany(folders[i].coderUnpackSizes);
        TakeOneMore(folders, i);
        EncodeManyAppend(CoderSizes(folders[..i]), folders[i].coderUnpackSizes);
        Grouped(old(h), EncodeMany(CoderSizes(folders[..i])), EncodeMany(folders[i].coderUnpackSizes));
      }
      assert folders[..|folders|] == folders;
    }

    method WriteFileSizes(folders: seq<CompletedFolder>)
      modifies this
      ensures h == old(h) + EncodeMany(FileSizes(folders))
    {
      hide EncodeMany, FileSizes, ExplicitSizes;
      TakeNone(folders);
      NothingEncoded();
      assert h + [] == h;
      for i := 0 to |folders|
        invariant h == old(h) + EncodeMany(FileSizes(folders[..i]))
      {
        WriteMany(ExplicitSizes(folders[i].fileSizes));
        TakeOneMore(folders, i);
        EncodeManyAppend(FileSizes(folders[..i]), ExplicitSizes(folders[i].fileSizes));
        Grouped(old(h), EncodeMany(FileSizes(folders[..i])), EncodeMany(ExplicitSizes(folders[i].fileSizes)));
      }
      assert folders[..|folders|] == folders;
    }

    method WriteCrcs(crcs: seq<Option<u32>>)
      modifies this
      ensures h == old(h) + CrcBytes(crcs)
    {
      hide LeBytes;
      for i := 0 to |crcs|
        invariant h == old(h) + CrcBytes(crcs[..i])
      {
        CrcBytesOneMore(crcs, i);
        if crcs[i].Some? {
          Extend(LeBytes(crcs[i].value, 4));
        }
      }
      assert crcs[..|crcs|] == crcs;
    }

    method WritePackInfo(folders: seq<CompletedFolder>)
      requires Countable(folders)
      modifies this
      ensures h == old(h) + PackBytes(0, PackSizes(folders))
    {
      hide EncodeVarint, EncodeMany, PackSizes;
      Push(PACK_INFO);
      WriteVarint(0);
      var numPackStreams := CountPackStreams(folders);
      WriteVarint(numPackStreams);
      Push(SIZE);
      WritePackSizes(folders);
      Push(END);
    }

    method WriteUnpackInfo(folders: seq<CompletedFolder>)
      requires Countable(folders)
      modifies this
      ensures h == old(h) + UnpackBytes(folders)
    {
      hide EncodeVarint, EncodeMany, CoderInfos, CoderSizes, CrcProperty;
      Push(UNPACK_INFO);
      Push(FOLDER);
      WriteVarint(|folders|);
      Push(0);
      WriteCoderInfos(folders);
      Push(CODERS_UNPACK_SIZE);
      WriteCoderSizes(folders);
      WriteOptionalCrcs(FolderCrcs(folders));
      Push(END);
    }

    method WriteOptionalCrcs(crcs: seq<Option<u32>>)
      modifies this
      ensures h == old(h) + CrcProperty(crcs)
    {
      hide AnyDefined, AllDefined, Defined, Bitmap, CrcBytes;
      if !AnyDefined(crcs) {
        return;
      }
      Push(CRC);
      var bitmap := WriteAllDefined(AllDefined(crcs), Defined(crcs));
      WriteCrcs(crcs);
      Regroup(old(h), [CRC], if AllDefined(crcs) then [1] else [0] + bitmap, CrcBytes(crcs));
    }

    /** The all-defined byte, and the bitmap when it is needed. */
    method WriteAllDefined(allDefined: bool, defined: seq<bool>) returns (bitmap: Bytes)
      modifies this
      ensures bitmap == if allDefined then [] else Bitmap(defined)
      ensures h == old(h) + if allDefined then [1] else [0] + bitmap
    {
      hide Bitmap;
      bitmap := [];
      Push(if allDefined then 1 else 0);
      if !allDefined {
        bitmap := BoolsToBytes(defined);
        Extend(bitmap);
      }
    }

    method WriteSubstreamsInfo(folders: seq<CompletedFolder>)
      requires Countable(folders)
      modifies this
      ensures h == old(h) + SubstreamBytes(folders)
    {
      hide CountProperty, SizeProperty, FileCrcs, CrcProperty;
      Push(SUBSTREAMS_INFO);
      WriteStreamCounts(folders);
      WriteStreamSizes(folders);
      var crcs := CollectCrcs(folders);
      WriteOptionalCrcs(crcs);
      Push(END);
    }

    method WriteStreamCounts(folders: seq<CompletedFolder>)
      requires Countable(folders)
      modifies this
      ensures h == old(h) + CountProperty(folders)
    {
      hide EncodeMany, StreamCounts, AnyNotSingle;
      if AnyNotSingle(folders) {
        Push(NUM_UNPACK_STREAM);
        WriteMany(StreamCounts(folders));
      }
    }

    method WriteStreamSizes(folders: seq<CompletedFolder>)
      modifies this
      ensures h == old(h) + SizeProperty(folders)
    {
      hide EncodeMany, FileSizes, AnyMultiple;
      if AnyMultiple(folders) {
        Push(SIZE);
        WriteFileSizes(folders);
      }
    }

    method WriteProperty(tag: byte, block: Bytes)
      requires |block| < U64_LIMIT
      modifies this
      ensures h == old(h) + Property(tag, block)
    {
      Push(tag);
      WriteVarint(|block|);
      Extend(block);
    }

    method WriteBitmap(tag: byte, flags: seq<bool>)
      requires |flags| < U64_LIMIT
      modifies this
      ensures h == old(h) + BitmapProperty(tag, flags)
    {
      if true in flags {
        var bitmap := BoolsToBytes(flags);
        WriteProperty(tag, bitmap);
      }
    }

    /** The three streams sections and the end of their block. */
    method WriteStreams(folders: seq<CompletedFolder>)
      requires Countable(folders)
      modifies this
      ensures h == old(h) + StreamsBytes(folders)
    {
      hide PackBytes, UnpackBytes, SubstreamBytes, PackSizes;
      WritePackInfo(folders);
      WriteUnpackInfo(folders);
      WriteSubstreamsInfo(folders);
      Push(END);
      var pack, unpack := PackBytes(0, PackSizes(folders)), UnpackBytes(folders);
      Regroup(old(h), pack, unpack, SubstreamBytes(folders));
      Grouped(old(h), pack + unpack + SubstreamBytes(folders), [END]);
    }

    method WriteEmptyProperties(entries: seq<WriteEntry>)
      requires |entries| < U64_LIMIT
      modifies this
      ensures h == old(h) + EmptyBytes(entries)
    {
      hide Bitmap, Property, BitmapProperty, EmptiesOfKind;
      if true !in Empties(entries) {
        return;
      }
      var bitmap := BoolsToBytes(Empties(entries));
      WriteProperty(EMPTY_STREAM, bitmap);
      var emptyFiles, anti := CollectEmpties(entries);
      WriteBitmap(EMPTY_FILE, emptyFiles);
      WriteBitmap(ANTI, anti);
      Regroup(
        old(h), Property(EMPTY_STREAM, bitmap), BitmapProperty(EMPTY_FILE, emptyFiles), BitmapProperty(ANTI, anti));
    }

    method WriteNames(entries: seq<WriteEntry>)
      requires Listable(entries)
      modifies this
      ensures h == old(h) + Property(NAME, [0] + Terminated(Names(entries)))
    {
      hide EncodeVarint, Terminated;
      var nameData := CollectNames(entries);
      Push(NAME);
      WriteVarint(1 + |nameData|);
      Push(0);
      Extend(nameData);
      Regroup(old(h), [NAME], EncodeVarint(1 + |nameData|), [0] + nameData);
      Regroup(old(h) + [NAME] + EncodeVarint(1 + |nameData|), [0], nameData, []);
      assert nameData + [] == nameData && [0] + nameData + [] == [0] + nameData && h + [] == h;
    }

    method WriteValues(tag: byte, values: seq<Option<nat>>)
      requires |ValueBlock(values, WidthOf(tag))| < U64_LIMIT
      modifies this
      ensures h == old(h) + ValueProperty(tag, values)
    {
      hide EncodeVarint, Bitmap, ValueBytes, AnyDefined, AllDefined, Defined, CountTrue;
      if !AnyDefined(values) {
        return;
      }
      var width := WidthOf(tag);
      var bitmapLen := if AllDefined(values) then 0 else |Bitmap(Defined(values))|;
      var dataLen := CountTrue(Defined(values)) * width;
      ValueBytesLength(values, width);
      Push(tag);
      WriteVarint(1 + bitmapLen + 1 + dataLen);
      ghost var front := h;
      var bitmap := WriteAllDefined(AllDefined(values), Defined(values));
      Push(0);
      WriteWords(values, width);
      Regroup(front, if AllDefined(values) then [1] else [0] + bitmap, [0], ValueBytes(values, width));
      Regroup(old(h), [tag], EncodeVarint(1 + bitmapLen + 1 + dataLen), ValueBlock(values, width));
    }

    method WriteWords(values: seq<Option<nat>>, width: nat)
      modifies this
      ensures h == old(h) + ValueBytes(values, width)
    {
      hide LeBytes;
      for i := 0 to |values|
        invariant h == old(h) + ValueBytes(values[..i], width)
      {
        ValueBytesOneMore(values, i, width);
        if values[i].Some? {
          Extend(LeBytes(values[i].value, width));
        }
      }
      assert values[..|values|] == values;
    }

    method WriteFields(entries: seq<WriteEntry>)
      requires Listable(entries)
      modifies this
      ensures h == old(h) + FieldsBytes(entries)
    {
      hide ValueProperty, ValueBlock, Fields;
      WriteValues(C_TIME, Fields(C_TIME, entries));
      WriteValues(A_TIME, Fields(A_TIME, entries));
      WriteValues(M_TIME, Fields(M_TIME, entries));
      WriteValues(START_POS, Fields(START_POS, entries));
      WriteValues(ATTRIBUTES, Fields(ATTRIBUTES, entries));
    }

    method WriteFilesInfo(entries: seq<WriteEntry>)
      requires Listable(entries)
      modifies this
      ensures h == old(h) + FilesBytes(entries)
    {
      hide EncodeVarint, EmptyBytes, Property, FieldsBytes;
      Push(FILES_INFO);
      WriteVarint(|entries|);
      WriteEmptyProperties(entries);
      WriteNames(entries);
      WriteFields(entries);
      Push(END);
    }
  }

  method BuildHeader(entries: seq<WriteEntry>, folders: seq<CompletedFolder>) returns (header: Bytes)
    requires Listable(entries) && Countable(folders)
    ensures header == HeaderBytes(entries, folders)
  {
    hide StreamsBytes, FilesBytes;
    var buffer := new HeaderBuffer();
    buffer.Push(HEADER);
    if folders != [] {
      buffer.Push(MAIN_STREAMS_INFO);
      buffer.WriteStreams(folders);
    }
    buffer.WriteFilesInfo(entries);
    buffer.Push(END);
    header := buffer.h;
  }

  // ---------------------------------------------------------------- collecting

  lemma TakeNone(folders: seq<CompletedFolder>)
    ensures PackSizes(folders[..0]) == [] && CoderInfos(folders[..0]) == [] && CoderSizes(folders[..0]) == []
    ensures FileSizes(folders[..0]) == [] && FileCrcs(folders[..0]) == []
  {
  }

  /** Each table of the first i + 1 folders is that of the first i and one more. */
  lemma {:induction false} TakeOneMore(folders: seq<CompletedFolder>, i: nat)
    requires i < |folders|
    ensures PackSizes(folders[..i + 1]) == PackSizes(folders[..i]) + folders[i].packSizes
    ensures CoderInfos(folders[..i + 1]) == CoderInfos(folders[..i]) + folders[i].coderInfo
    ensures CoderSizes(folders[..i + 1]) == CoderSizes(folders[..i]) + folders[i].coderUnpackSizes
    ensures FileSizes(folders[..i + 1]) == FileSizes(folders[..i]) + ExplicitSizes(folders[i].fileSizes)
    ensures FileCrcs(folders[..i + 1]) == FileCrcs(folders[..i]) + folders[i].fileCrcs
    decreases i
  {
    hide ExplicitSizes;
    if i == 0 {
      TakeNone(folders);
      assert folders[..1] == [folders[0]] && folders[..1][1..] == folders[..0];
    } else {
      var tail, last := folders[1..], folders[i];
      TakeOneMore(tail, i - 1);
      assert folders[..i + 1][1..] == tail[..i] && folders[..i][1..] == tail[..i - 1];
      Grouped(folders[0].packSizes, PackSizes(tail[..i - 1]), last.packSizes);
      Grouped(folders[0].coderInfo, CoderInfos(tail[..i - 1]), last.coderInfo);
      Grouped(folders[0].coderUnpackSizes, CoderSizes(tail[..i - 1]), last.coderUnpackSizes);
      Grouped(ExplicitSizes(folders[0].fileSizes), FileSizes(tail[..i - 1]), ExplicitSizes(last.fileSizes));
      Grouped(folders[0].fileCrcs, FileCrcs(tail[..i - 1]), last.fileCrcs);
    }
  }

  method CountPackStreams(folders: seq<CompletedFolder>) returns (n: nat)
    ensures n == |PackSizes(folders)|
  {
    n := 0;
    for i := 0 to |folders|
      invariant n == |PackSizes(folders[..i])|
    {
      TakeOneMore(folders, i);
      n := n + |folders[i].packSizes|;
    }
    assert folders[..|folders|] == folders;
  }

  method CollectCrcs(folders: seq<CompletedFolder>) returns (crcs: seq<Option<u32>>)
    ensures crcs == FileCrcs(folders)
  {
    crcs := [];
    for i := 0 to |folders|
      invariant crcs == FileCrcs(folders[..i])
    {
      TakeOneMore(folders, i);
      crcs := crcs + folders[i].fileCrcs;
    }
    assert folders[..|folders|] == folders;
  }

  method CollectNames(entries: seq<WriteEntry>) returns (nameData: Bytes)
    ensures nameData == Terminated(Names(entries))
  {
    nameData := [];
    for i := 0 to |entries|
      invariant nameData == Terminated(Names(entries)[..i])
    {
      TerminatedOneMore(Names(entries), i);
      nameData := nameData + entries[i].name + [0, 0];
    }
    assert Names(entries)[..|entries|] == Names(entries);
  }

  lemma EmptiesUnfold(entries: seq<WriteEntry>, kind: WriteKind)
    requires entries != []
    ensures EmptiesOfKind(entries, kind)
         == (if entries[0].hasStream then [] else [entries[0].kind == kind]) + EmptiesOfKind(entries[1..], kind)
  {
  }

  lemma NoEmpties(kind: WriteKind)
    ensures EmptiesOfKind([], kind) == []
  {
  }

  lemma {:induction false} EmptiesOneMore(entries: seq<WriteEntry>, i: nat, kind: WriteKind)
    requires i < |entries|
    ensures EmptiesOfKind(entries[..i + 1], kind)
         == EmptiesOfKind(entries[..i], kind) + if entries[i].hasStream then [] else [entries[i].kind == kind]
    decreases i
  {
    hide EmptiesOfKind;
    EmptiesUnfold(entries[..i + 1], kind);
    if i == 0 {
      NoEmpties(kind);
      assert entries[..1][1..] == [] && entries[..0] == [];
    } else {
      EmptiesUnfold(entries[..i], kind);
      EmptiesOneMore(entries[1..], i - 1, kind);
      assert entries[..i + 1][1..] == entries[1..][..i] && entries[..i][1..] == entries[1..][..i - 1];
    }
  }

  method CollectEmpties(entries: seq<WriteEntry>) returns (emptyFiles: seq<bool>, anti: seq<bool>)
    ensures emptyFiles == EmptiesOfKind(entries, WriteFile) && anti == EmptiesOfKind(entries, WriteAnti)
  {
    emptyFiles, anti := [], [];
    for i := 0 to |entries|
      invariant emptyFiles == EmptiesOfKind(entries[..i], WriteFile)
      invariant anti == EmptiesOfKind(entries[..i], WriteAnti)
    {
      EmptiesOneMore(entries, i, WriteFile);
      EmptiesOneMore(entries, i, WriteAnti);
      if !entries[i].hasStream {
        emptyFiles := emptyFiles + [entries[i].kind == WriteFile];
        anti := anti + [entries[i].kind == WriteAnti];
      }
    }
    assert entries[..|entries|] == entries;
  }

  lemma {:induction false} CrcBytesOneMore(crcs: seq<Option<u32>>, i: nat)
    requires i < |crcs|
    ensures CrcBytes(crcs[..i + 1])
         == CrcBytes(crcs[..i]) + if crcs[i].Some? then LeBytes(crcs[i].value, 4) else []
    decreases i
  {
    hide CrcBytes, LeBytes;
    CrcBytesUnfold(crcs[..i + 1]);
    var last := if crcs[i].Some? then LeBytes(crcs[i].value, 4) else [];
    if i == 0 {
      NoCrcs([]);
      assert crcs[..1][1..] == [] && crcs[..0] == [] && last + [] == [] + last;
    } else {
      var first := if crcs[0].Some? then LeBytes(crcs[0].value, 4) else [];
      CrcBytesOneMore(crcs[1..], i - 1);
      CrcBytesUnfold(crcs[..i]);
      assert crcs[..i + 1][1..] == crcs[1..][..i] && crcs[..i][1..] == crcs[1..][..i - 1];
      Grouped(first, CrcBytes(crcs[1..][..i - 1]), last);
    }
  }

  lemma {:induction false} ValueBytesOneMore(values: seq<Option<nat>>, i: nat, width: nat)
    requires i < |values|
    ensures ValueBytes(values[..i + 1], width)
         == ValueBytes(values[..i], width) + if values[i].Some? then LeBytes(values[i].value, width) else []
    decreases i
  {
    hide LeBytes;
    if i == 0 {
      assert values[..1][1..] == [];
    } else {
      ValueBytesOneMore(values[1..], i - 1, width);
      assert values[..i + 1][1..] == values[1..][..i] && values[..i][1..] == values[1..][..i - 1];
    }
  }

  lemma {:induction false} TerminatedOneMore(names: seq<Bytes>, i: nat)
    requires i < |names|
    ensures Terminated(names[..i + 1]) == Terminated(names[..i]) + names[i] + [0, 0]
    decreases i
  {
    if i == 0 {
      assert names[..1][1..] == [];
    } else {
      TerminatedOneMore(names[1..], i - 1);
      assert names[..i + 1][1..] == names[1..][..i] && names[..i][1..] == names[1..][..i - 1];
    }
  }
}
