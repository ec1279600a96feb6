/** Reading back the streams descriptor that the header writer emits. */
module StreamsRoundTrips {
  import opened Wrappers
  import opened Words
  import opened Folders
  import opened Parsers
  import opened Digests
  import opened PropertyTables
  import opened PackInfos
  import opened StreamInfos
  import opened HeaderWriter
  import FolderCodec

  // ---------------------------------------------------------------- well-formed folders

  function FolderOf(folder: CompletedFolder): ParseResult<Folder> {
    FolderCodec.ParseFolder(folder.coderInfo)
  }

  /** The coder block is exactly one folder, with a size for each of its outputs, and the file lists match. */
  ghost predicate IsWellFormed(folder: CompletedFolder) {
    && FolderOf(folder).Ok? && FolderOf(folder).rest == []
    && |folder.coderUnpackSizes| == Sum(OutputCounts(FolderOf(folder).value.coders))
    && |folder.fileIndices| == |folder.fileSizes| == |folder.fileCrcs|
  }

  ghost predicate AllWellFormed(folders: seq<CompletedFolder>) {
    forall i :: 0 <= i < |folders| ==> IsWellFormed(folders[i])
  }

  /** Table sizes that the format and the reader's offsets can express. */
  ghost predicate WithinLimits(folders: seq<CompletedFolder>) {
    && Countable(folders) && |CoderInfos(folders)| < U32_LIMIT && |CoderSizes(folders)| < U64_LIMIT
    && |FileCrcs(folders)| < U64_LIMIT
  }

  /** The reader bounds the substream digest table; the writer does not, but omits an empty one. */
  predicate DigestsFit(crcs: seq<Option<u32>>) {
    AnyDefined(crcs) ==> |crcs| <= MAX_SUBSTREAM_DIGESTS
  }

  // ---------------------------------------------------------------- tables

  lemma ExpectTag(tag: byte, rest: Bytes)
    requires tag <= LAST_PROPERTY
    ensures Expect([tag] + rest, tag) == Ok(rest, ())
  {
    assert ([tag] + rest)[1..] == rest;
  }

  lemma TableStep(section: Section, tag: byte, s: Bytes, table: Table, next: Bytes, table': Table)
    requires END < tag <= LAST_PROPERTY
    requires ParseItem(section, ItemOf(section, tag), s, table) == Ok(next, table')
    ensures ParseTable(section, [tag] + s, table) == ParseTable(section, next, table')
  {
    hide ParseItem;
    assert ([tag] + s)[1..] == s;
  }

  lemma TableFails(section: Section, tag: byte, s: Bytes, table: Table, kind: ErrorKind)
    requires END < tag <= LAST_PROPERTY && ParseItem(section, ItemOf(section, tag), s, table) == Err(kind)
    ensures ParseTable(section, [tag] + s, table) == Err(kind)
  {
    hide ParseItem;
    assert ([tag] + s)[1..] == s;
  }

  lemma TableEnd(section: Section, table: Table, rest: Bytes)
    ensures ParseTable(section, [END] + rest, table) == Ok(rest, table)
  {
    assert ([END] + rest)[1..] == rest;
  }

  function WrittenDigests(crcs: seq<Option<u32>>): seq<Option<u32>> {
    if AnyDefined(crcs) then crcs else []
  }

  /** How many digests a section's table has. */
  function DigestCount(section: Section, table: Table): nat {
    match section
    case PackSection(streams) => streams
    case UnpackSection(folders, _) => folders
    case SubstreamSection(_) => Total(table.counts)
  }

  lemma CrcItem(section: Section, table: Table, crcs: seq<Option<u32>>, rest: Bytes)
    requires DigestCount(section, table) == |crcs|
    ensures ParseItem(section, DigestsItem, DigestBlock(crcs) + rest, table)
         == if section.SubstreamSection? && |crcs| > MAX_SUBSTREAM_DIGESTS then Err(TooLarge)
            else Ok(rest, table.(digests := crcs))
  {
    hide ParseDigests, ParseStreamDigests, DigestBlock;
    DigestRoundTrip(crcs, rest);
    if section.SubstreamSection? && |crcs| <= MAX_SUBSTREAM_DIGESTS {
      StreamDigestRoundTrip(crcs, rest);
    }
  }

  /** The digest property and the end tag finish a table, unless there are too many substream digests. */
  lemma CrcTable(section: Section, table: Table, crcs: seq<Option<u32>>, rest: Bytes)
    requires DigestCount(section, table) == |crcs| && table.digests == []
    ensures ParseTable(section, CrcProperty(crcs) + ([END] + rest), table)
         == if section.SubstreamSection? && !DigestsFit(crcs) then Err(TooLarge)
            else Ok(rest, table.(digests := WrittenDigests(crcs)))
  {
    hide ParseItem, ParseTable, DigestBlock;
    TableEnd(section, table.(digests := WrittenDigests(crcs)), rest);
    if AnyDefined(crcs) {
      CrcItem(section, table, crcs, [END] + rest);
      assert CrcProperty(crcs) + ([END] + rest) == [CRC] + (DigestBlock(crcs) + ([END] + rest));
      if section.SubstreamSection? && |crcs| > MAX_SUBSTREAM_DIGESTS {
        TableFails(section, CRC, DigestBlock(crcs) + ([END] + rest), table, TooLarge);
      } else {
        TableStep(section, CRC, DigestBlock(crcs) + ([END] + rest), table, [END] + rest, table.(digests := crcs));
      }
    } else {
      assert CrcProperty(crcs) + ([END] + rest) == [END] + rest;
      assert table.(digests := []) == table;
    }
  }

  /** Filling in an absent table gives back the digests that were to be written. */
  lemma WrittenDigestsFilled(crcs: seq<Option<u32>>)
    ensures DigestsOrNone(WrittenDigests(crcs), |crcs|) == crcs
  {
  }

  // ---------------------------------------------------------------- packed streams

  lemma PackInfoRoundTrip(packPos: u64, sizes: seq<u64>, rest: Bytes)
    requires |sizes| < U64_LIMIT
    ensures ParsePackInfo(PackBytes(packPos, sizes) + rest)
         == Ok(rest, PackInfo(packPos, sizes, seq(|sizes|, _ => None)))
  {
    hide EncodeVarint, DecodeVarint, ParseTable, DecodeMany, EncodeMany, Expect;
    var a := EncodeMany(sizes) + ([END] + rest);
    var b := EncodeVarint(|sizes|) + ([SIZE] + a);
    var c := EncodeVarint(packPos) + b;
    assert PackBytes(packPos, sizes) + rest == [PACK_INFO] + c;
    ExpectTag(PACK_INFO, c);
    DecodeEncode(packPos, b);
    DecodeEncode(|sizes|, [SIZE] + a);
    ExpectTag(SIZE, a);
    ManyRoundTrip(sizes, [END] + rest);
    TableEnd(PackSection(|sizes|), NO_TABLE, rest);
  }

  // ---------------------------------------------------------------- folders

  function Offsets(base: nat, folders: seq<CompletedFolder>): seq<nat>
    decreases folders
  {
    if folders == [] then [base] else [base] + Offsets(base + |folders[0].coderInfo|, folders[1..])
  }

  lemma WrittenBlock(folder: CompletedFolder, rest: Bytes)
    requires IsWellFormed(folder)
    ensures ScanFolderBlock(folder.coderInfo + rest) == Ok(rest, |folder.coderUnpackSizes|)
  {
    var block := folder.coderInfo;
    FolderCodec.FolderLocal(block, rest);
    assert Eaten(block, []) == block;
    FolderCodec.FolderScanAgrees(block + rest);
  }

  /** One written folder in front of folders that are read back. */
  lemma FolderBlocksStep(
    folder: CompletedFolder, next: Bytes, base: nat, count: nat, outputs: nat, rest: Bytes, more: Blocks)
    requires IsWellFormed(folder) && base < U32_LIMIT && outputs + |folder.coderUnpackSizes| < U64_LIMIT
    requires FolderBlocks(next, base + |folder.coderInfo|, count, outputs + |folder.coderUnpackSizes|, true)
          == Ok(rest, more)
    ensures FolderBlocks(folder.coderInfo + next, base, count + 1, outputs, true)
         == Ok(rest, Blocks([base] + more.offsets, more.outputs))
  {
    hide FolderBlocks, ScanFolderBlock, IsWellFormed;
    WrittenBlock(folder, next);
    FolderBlocksCons(folder.coderInfo + next, base, count, outputs, true, next, |folder.coderUnpackSizes|,
      Ok(rest, more));
  }

  lemma NoFolderBlocks(folders: seq<CompletedFolder>, base: nat, outputs: nat, rest: Bytes)
    requires folders == [] && base < U32_LIMIT
    ensures CoderInfos(folders) == [] && CoderSizes(folders) == [] && Offsets(base, folders) == [base]
    ensures FolderBlocks(CoderInfos(folders) + rest, base, 0, outputs, true) == Ok(rest, Blocks([base], outputs))
  {
    hide FolderBlocks;
    BlocksEnd(rest, base, outputs, true);
    assert [] + rest == rest;
  }

  lemma OffsetsCons(base: nat, folders: seq<CompletedFolder>)
    requires folders != []
    ensures Offsets(base, folders) == [base] + Offsets(base + |folders[0].coderInfo|, folders[1..])
    ensures CoderInfos(folders) == folders[0].coderInfo + CoderInfos(folders[1..])
    ensures CoderSizes(folders) == folders[0].coderUnpackSizes + CoderSizes(folders[1..])
  {
  }

  lemma {:induction false} FolderBlocksRoundTrip(folders: seq<CompletedFolder>, base: nat, outputs: nat, rest: Bytes)
    requires AllWellFormed(folders)
    requires base + |CoderInfos(folders)| < U32_LIMIT && outputs + |CoderSizes(folders)| < U64_LIMIT
    ensures FolderBlocks(CoderInfos(folders) + rest, base, |folders|, outputs, true)
         == Ok(rest, Blocks(Offsets(base, folders), outputs + |CoderSizes(folders)|))
    decreases folders
  {
    hide FolderBlocks, IsWellFormed, CoderInfos, CoderSizes, Offsets;
    if folders == [] {
      NoFolderBlocks(folders, base, outputs, rest);
    } else {
      var first, next := folders[0], CoderInfos(folders[1..]) + rest;
      var offset, sum := base + |first.coderInfo|, outputs + |first.coderUnpackSizes|;
      OffsetsCons(base, folders);
      FolderBlocksRoundTrip(folders[1..], offset, sum, rest);
      FolderBlocksStep(first, next, base, |folders| - 1, outputs, rest,
        Blocks(Offsets(offset, folders[1..]), sum + |CoderSizes(folders[1..])|));
      assert CoderInfos(folders) + rest == first.coderInfo + next;
    }
  }

  function WrittenUnpack(folders: seq<CompletedFolder>): UnpackInfo
    requires |folders| < U64_LIMIT
  {
    UnpackInfo(|folders|, CoderInfos(folders), Offsets(0, folders), CoderSizes(folders), FolderCrcs(folders))
  }

  lemma DeclarationRoundTrip(n: u64, rest: Bytes)
    ensures ParseDeclaration([UNPACK_INFO] + ([FOLDER] + (EncodeVarint(n) + ([0] + rest))))
         == Ok(rest, Declaration(n, Inline))
  {
    hide EncodeVarint, DecodeVarint, Expect;
    ExpectTag(UNPACK_INFO, [FOLDER] + (EncodeVarint(n) + ([0] + rest)));
    ExpectTag(FOLDER, EncodeVarint(n) + ([0] + rest));
    DecodeEncode(n, [0] + rest);
    assert ([0] + rest)[1..] == rest;
  }

  lemma UnpackTableRoundTrip(folders: seq<CompletedFolder>, rest: Bytes)
    ensures ParseTable(UnpackSection(|folders|, |CoderSizes(folders)|),
        [CODERS_UNPACK_SIZE] + (EncodeMany(CoderSizes(folders)) + (CrcProperty(FolderCrcs(folders)) + ([END] + rest))),
        NO_TABLE)
      == Ok(rest, Table([], CoderSizes(folders), WrittenDigests(FolderCrcs(folders))))
  {
    hide EncodeMany, DecodeMany, ParseTable, CrcProperty, CoderSizes, WrittenDigests;
    var sizes, crcs := CoderSizes(folders), FolderCrcs(folders);
    var section, next := UnpackSection(|folders|, |sizes|), CrcProperty(crcs) + ([END] + rest);
    ManyRoundTrip(sizes, next);
    assert [] + sizes == sizes;
    TableStep(section, CODERS_UNPACK_SIZE, EncodeMany(sizes) + next, NO_TABLE, next, Table([], sizes, []));
    CrcTable(section, Table([], sizes, []), crcs, rest);
  }

  lemma UnpackInfoRoundTrip(folders: seq<CompletedFolder>, external: seq<Bytes>, rest: Bytes)
    requires AllWellFormed(folders) && WithinLimits(folders)
    ensures ParseUnpackInfo(UnpackBytes(folders) + rest, external) == Ok(rest, WrittenUnpack(folders))
  {
    hide EncodeVarint, EncodeMany, ParseDeclaration, FolderBlocks, ParseTable, CrcProperty, CoderInfos, CoderSizes,
      WrittenDigests, Offsets, Eaten, AllWellFormed, DigestsOrNone;
    var sizes, crcs := CoderSizes(folders), FolderCrcs(folders);
    var a := [CODERS_UNPACK_SIZE] + (EncodeMany(sizes) + (CrcProperty(crcs) + ([END] + rest)));
    var b := CoderInfos(folders) + a;
    assert UnpackBytes(folders) + rest == [UNPACK_INFO] + ([FOLDER] + (EncodeVarint(|folders|) + ([0] + b)));
    DeclarationRoundTrip(|folders|, b);
    FolderBlocksRoundTrip(folders, 0, 0, a);
    EatenFront(CoderInfos(folders), a);
    UnpackTableRoundTrip(folders, rest);
    WrittenDigestsFilled(crcs);
  }

  // ---------------------------------------------------------------- substreams

  function WrittenSubstreams(folders: seq<CompletedFolder>): SubstreamInfo
    requires Countable(folders)
  {
    SubstreamInfo(StreamCounts(folders), FileSizes(folders), WrittenDigests(FileCrcs(folders)))
  }

  lemma {:induction false} TotalCounts(folders: seq<CompletedFolder>)
    requires Countable(folders) && AllWellFormed(folders)
    ensures Total(StreamCounts(folders)) == |FileCrcs(folders)|
    ensures Explicit(StreamCounts(folders)) == |FileSizes(folders)|
  {
    hide FolderOf;
    if folders != [] {
      assert PackSizes(folders) == folders[0].packSizes + PackSizes(folders[1..]);
      assert IsWellFormed(folders[0]);
      TotalCounts(folders[1..]);
      assert StreamCounts(folders)[1..] == StreamCounts(folders[1..]);
    }
  }

  lemma {:induction false} OnesUnlessCounted(folders: seq<CompletedFolder>)
    requires Countable(folders) && !AnyNotSingle(folders)
    ensures Ones(|folders|) == StreamCounts(folders)
  {
    if folders != [] {
      assert PackSizes(folders) == folders[0].packSizes + PackSizes(folders[1..]);
      assert |folders[0].fileIndices| == 1;
      assert !AnyNotSingle(folders[1..]) by {
        assert forall i :: 0 <= i < |folders[1..]| ==> folders[1..][i] == folders[i + 1];
      }
      OnesUnlessCounted(folders[1..]);
      assert StreamCounts(folders) == [1 as u64] + StreamCounts(folders[1..]);
    }
  }

  lemma {:induction false} NoSizesUnlessMultiple(folders: seq<CompletedFolder>)
    requires AllWellFormed(folders) && !AnyMultiple(folders)
    ensures FileSizes(folders) == []
  {
    hide FolderOf;
    if folders != [] {
      assert IsWellFormed(folders[0]) && |folders[0].fileIndices| <= 1;
      assert !AnyMultiple(folders[1..]) by {
        assert forall i :: 0 <= i < |folders[1..]| ==> folders[1..][i] == folders[i + 1];
      }
      NoSizesUnlessMultiple(folders[1..]);
    }
  }

  lemma CountsRoundTrip(folders: seq<CompletedFolder>, rest: Bytes)
    requires Countable(folders) && AllWellFormed(folders) && |FileCrcs(folders)| < U64_LIMIT
    ensures var section := SubstreamSection(|folders|);
      ParseTable(section, CountProperty(folders) + rest, Table(Ones(|folders|), [], []))
      == ParseTable(section, rest, Table(StreamCounts(folders), [], []))
  {
    hide EncodeMany, DecodeMany, ParseTable, StreamCounts, FileCrcs, AllWellFormed, AnyNotSingle;
    var section, counts := SubstreamSection(|folders|), StreamCounts(folders);
    if AnyNotSingle(folders) {
      ManyRoundTrip(counts, rest);
      TotalCounts(folders);
      var before, after := Table(Ones(|folders|), [], []), Table(counts, [], []);
      TableStep(section, NUM_UNPACK_STREAM, EncodeMany(counts) + rest, before, rest, after);
      Grouped([NUM_UNPACK_STREAM], EncodeMany(counts), rest);
    } else {
      OnesUnlessCounted(folders);
      assert [] + rest == rest;
    }
  }

  lemma {:induction false} ManyIsLongEnough(values: seq<u64>)
    ensures |EncodeMany(values)| >= |values|
  {
    hide EncodeVarint;
    if values != [] {
      ManyIsLongEnough(values[1..]);
    }
  }

  lemma SizesRoundTrip(folders: seq<CompletedFolder>, rest: Bytes)
    requires Countable(folders) && AllWellFormed(folders)
    ensures var section := SubstreamSection(|folders|);
      ParseTable(section, SizeProperty(folders) + rest, Table(StreamCounts(folders), [], []))
      == ParseTable(section, rest, Table(StreamCounts(folders), FileSizes(folders), []))
  {
    hide EncodeMany, DecodeMany, ParseTable, StreamCounts, FileSizes, AllWellFormed, AnyMultiple;
    var section, counts, sizes := SubstreamSection(|folders|), StreamCounts(folders), FileSizes(folders);
    if AnyMultiple(folders) {
      ManyRoundTrip(sizes, rest);
      ManyIsLongEnough(sizes);
      TotalCounts(folders);
      assert [] + sizes == sizes;
      TableStep(section, SIZE, EncodeMany(sizes) + rest, Table(counts, [], []), rest, Table(counts, sizes, []));
      assert SizeProperty(folders) + rest == [SIZE] + (EncodeMany(sizes) + rest);
    } else {
      NoSizesUnlessMultiple(folders);
      assert SizeProperty(folders) + rest == rest;
    }
  }

  /** The section reads back exactly when its digests fit. */
  lemma SubstreamsRoundTrip(folders: seq<CompletedFolder>, rest: Bytes)
    requires AllWellFormed(folders) && WithinLimits(folders)
    ensures ParseSubstreams(SubstreamBytes(folders) + rest, |folders|)
         == if DigestsFit(FileCrcs(folders)) then Ok(rest, WrittenSubstreams(folders)) else Err(TooLarge)
  {
    hide Expect, ParseTable, StreamCounts, FileSizes, FileCrcs, AllWellFormed, CountProperty, SizeProperty, CrcProperty,
      WrittenDigests, CoderInfos, CoderSizes;
    var crcs := FileCrcs(folders);
    var a := CrcProperty(crcs) + ([END] + rest);
    var b := SizeProperty(folders) + a;
    var c := CountProperty(folders) + b;
    assert SubstreamBytes(folders) + rest == [SUBSTREAMS_INFO] + c;
    ExpectTag(SUBSTREAMS_INFO, c);
    CountsRoundTrip(folders, b);
    SizesRoundTrip(folders, a);
    TotalCounts(folders);
    CrcTable(SubstreamSection(|folders|), Table(StreamCounts(folders), FileSizes(folders), []), crcs, rest);
  }

  // ---------------------------------------------------------------- the descriptor

  function WrittenStreams(folders: seq<CompletedFolder>): StreamInfo
    requires Countable(folders)
  {
    StreamInfo(Some(PackInfo(0, PackSizes(folders), seq(|PackSizes(folders)|, _ => None))),
               Some(WrittenUnpack(folders)), Some(WrittenSubstreams(folders)))
  }

  lemma StreamsStep(s: Bytes, external: seq<Bytes>, info: StreamInfo, next: Bytes, info': StreamInfo)
    requires s != [] && END < s[0] <= LAST_PROPERTY && ParseSection(s, external, info) == Ok(next, info')
    ensures ParseStreams(s, external, info) == ParseStreams(next, external, info')
  {
    hide ParseSection;
  }

  lemma StreamsFail(s: Bytes, external: seq<Bytes>, info: StreamInfo, kind: ErrorKind)
    requires s != [] && END < s[0] <= LAST_PROPERTY && ParseSection(s, external, info) == Err(kind)
    ensures ParseStreams(s, external, info) == Err(kind)
  {
    hide ParseSection;
  }

  /**
   * Reading the written descriptor gives back every table, whatever the external data, exactly when the
   * substream digests fit.
   */
  lemma StreamsRoundTrip(folders: seq<CompletedFolder>, external: seq<Bytes>, rest: Bytes)
    requires AllWellFormed(folders) && WithinLimits(folders)
    ensures ParseStreams(StreamsBytes(folders) + rest, external, NO_STREAMS)
         == if DigestsFit(FileCrcs(folders)) then Ok(rest, WrittenStreams(folders)) else Err(TooLarge)
  {
    hide ParsePackInfo, ParseUnpackInfo, ParseSubstreams, PackBytes, UnpackBytes, SubstreamBytes, ParseStreams,
      PackSizes, WrittenUnpack, WrittenSubstreams, AllWellFormed;
    var a := SubstreamBytes(folders) + ([END] + rest);
    var b := UnpackBytes(folders) + a;
    var c := PackBytes(0, PackSizes(folders)) + b;
    assert StreamsBytes(folders) + rest == c;
    SectionTags(folders);
    PackInfoRoundTrip(0, PackSizes(folders), b);
    UnpackInfoRoundTrip(folders, external, a);
    SubstreamsRoundTrip(folders, [END] + rest);
    var info := NO_STREAMS.(packInfo := Some(PackInfo(0, PackSizes(folders), seq(|PackSizes(folders)|, _ => None))));
    StreamsStep(c, external, NO_STREAMS, b, info);
    var info' := info.(unpackInfo := Some(WrittenUnpack(folders)));
    StreamsStep(b, external, info, a, info');
    if DigestsFit(FileCrcs(folders)) {
      StreamsStep(a, external, info', [END] + rest, info'.(substreamInfo := Some(WrittenSubstreams(folders))));
      StreamsEnd(external, WrittenStreams(folders), rest);
    } else {
      StreamsFail(a, external, info', TooLarge);
    }
  }

  lemma StreamsEnd(external: seq<Bytes>, info: StreamInfo, rest: Bytes)
    ensures ParseStreams([END] + rest, external, info) == Ok(rest, info)
  {
    assert ([END] + rest)[1..] == rest;
  }

  lemma SectionTags(folders: seq<CompletedFolder>)
    requires Countable(folders)
    ensures PackBytes(0, PackSizes(folders)) != [] && PackBytes(0, PackSizes(folders))[0] == PACK_INFO
    ensures UnpackBytes(folders) != [] && UnpackBytes(folders)[0] == UNPACK_INFO
    ensures SubstreamBytes(folders) != [] && SubstreamBytes(folders)[0] == SUBSTREAMS_INFO
    ensures WrittenUnpack(folders).numFolders == |folders|
  {
    hide EncodeVarint, EncodeMany, PackSizes, CoderInfos, CoderSizes, CrcProperty, CountProperty, SizeProperty,
      FileCrcs, FolderCrcs, Offsets;
  }

  // ---------------------------------------------------------------- single folders

  ghost predicate Locates(data: Bytes, base: nat, offsets: seq<nat>, i: nat, block: Bytes) {
    && i + 1 < |offsets|
    && base <= offsets[i] <= offsets[i + 1] <= base + |data|
    && data[offsets[i] - base..offsets[i + 1] - base] == block
  }

  lemma LocatesLater(front: Bytes, data: Bytes, base: nat, offsets: seq<nat>, i: nat, block: Bytes)
    requires Locates(data, base + |front|, offsets, i, block)
    ensures Locates(front + data, base, [base] + offsets, i + 1, block)
  {
    var a, b := offsets[i] - base, offsets[i + 1] - base;
    assert (front + data)[a..b] == data[a - |front|..b - |front|];
  }

  lemma {:induction false} OffsetsLocate(base: nat, folders: seq<CompletedFolder>, i: nat)
    requires i < |folders|
    ensures Locates(CoderInfos(folders), base, Offsets(base, folders), i, folders[i].coderInfo)
    decreases folders
  {
    hide Locates, Offsets, CoderInfos;
    var front := folders[0].coderInfo;
    OffsetsCons(base, folders);
    if i == 0 {
      OffsetsLength(base + |front|, folders[1..]);
      FirstLocated(front, CoderInfos(folders[1..]), base, Offsets(base + |front|, folders[1..]));
    } else {
      OffsetsLocate(base + |front|, folders[1..], i - 1);
      var offsets := Offsets(base + |front|, folders[1..]);
      LocatesLater(front, CoderInfos(folders[1..]), base, offsets, i - 1, folders[i].coderInfo);
    }
  }

  lemma FirstLocated(front: Bytes, data: Bytes, base: nat, offsets: seq<nat>)
    requires offsets != [] && offsets[0] == base + |front|
    ensures Locates(front + data, base, [base] + offsets, 0, front)
  {
    AppendSplit(front, data);
  }

  lemma {:induction false} OffsetsLength(base: nat, folders: seq<CompletedFolder>)
    ensures |Offsets(base, folders)| == |folders| + 1 && Offsets(base, folders)[0] == base
    decreases folders
  {
    if folders != [] {
      OffsetsLength(base + |folders[0].coderInfo|, folders[1..]);
    }
  }

  /** Each folder is found again under its index. */
  lemma WrittenFolderAt(folders: seq<CompletedFolder>, i: nat)
    requires AllWellFormed(folders) && |folders| < U64_LIMIT && i < |folders|
    ensures WrittenUnpack(folders).FolderAt(i) == Success(FolderOf(folders[i]).value)
  {
    hide FolderCodec.ParseFolder, Offsets, CoderInfos;
    OffsetsLocate(0, folders, i);
    assert IsWellFormed(folders[i]);
  }
}
