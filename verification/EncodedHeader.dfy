/** The descriptor of a compressed header: what the writer appends, and the folder a reader finds in it. */
module EncodedHeaders {
  import opened Wrappers
  import opened Words
  import opened Folders
  import opened FolderGraphs
  import opened Parsers
  import opened PropertyTables
  import opened PackInfos
  import opened Preflights
  import opened FolderLayouts
  import opened HeaderWriter
  import opened StreamsRoundTrips
  import opened ChainPlans
  import CoderWriter
  import FolderCodec

  const ENCODED_HEADER: byte := 0x17

  // ---------------------------------------------------------------- writing

  /** The header stream as a folder without files of its own. */
  function HeaderFolder(packSize: u64, coderInfo: Bytes, coderUnpackSizes: seq<u64>): CompletedFolder {
    CompletedFolder([], [packSize], coderInfo, coderUnpackSizes, None, [], [])
  }

  function DescriptorBytes(packPos: u64, packSize: u64, coderInfo: Bytes, coderUnpackSizes: seq<u64>): Bytes {
    [ENCODED_HEADER] + PackBytes(packPos, [packSize])
    + UnpackBytes([HeaderFolder(packSize, coderInfo, coderUnpackSizes)]) + [END]
  }

  lemma OneFolder(folder: CompletedFolder)
    ensures PackSizes([folder]) == folder.packSizes && CoderInfos([folder]) == folder.coderInfo
    ensures CoderSizes([folder]) == folder.coderUnpackSizes && FileCrcs([folder]) == folder.fileCrcs
    ensures FolderCrcs([folder]) == [folder.folderCrc]
  {
  }

  lemma OnePackBytes(packPos: u64, packSize: u64)
    ensures PackBytes(packPos, [packSize])
         == [PACK_INFO] + EncodeVarint(packPos) + EncodeVarint(1) + [SIZE] + EncodeVarint(packSize) + [END]
  {
    hide EncodeVarint;
    assert EncodeMany([packSize]) == EncodeVarint(packSize) + EncodeMany([packSize][1..]) == EncodeVarint(packSize);
  }

  method WriteOnePack(h: HeaderBuffer, packPos: u64, packSize: u64)
    modifies h
    ensures h.h == old(h.h) + PackBytes(packPos, [packSize])
  {
    hide EncodeVarint, PackBytes;
    h.Push(PACK_INFO);
    h.WriteVarint(packPos);
    h.WriteVarint(1);
    h.Push(SIZE);
    h.WriteVarint(packSize);
    h.Push(END);
    OnePackBytes(packPos, packSize);
  }

  lemma OneFolderBytes(packSize: u64, coderInfo: Bytes, sizes: seq<u64>)
    ensures UnpackBytes([HeaderFolder(packSize, coderInfo, sizes)])
         == [UNPACK_INFO] + [FOLDER] + EncodeVarint(1) + [0] + coderInfo + [CODERS_UNPACK_SIZE] + EncodeMany(sizes)
            + [END]
  {
    hide EncodeVarint, EncodeMany, CoderInfos, CoderSizes, FolderCrcs;
    OneFolder(HeaderFolder(packSize, coderInfo, sizes));
    assert CrcProperty([None]) == [];
  }

  method WriteOneFolder(h: HeaderBuffer, ghost packSize: u64, coderInfo: Bytes, coderUnpackSizes: seq<u64>)
    modifies h
    ensures h.h == old(h.h) + UnpackBytes([HeaderFolder(packSize, coderInfo, coderUnpackSizes)])
  {
    hide EncodeVarint, EncodeMany, UnpackBytes;
    h.Push(UNPACK_INFO);
    h.Push(FOLDER);
    h.WriteVarint(1);
    h.Push(0);
    h.Extend(coderInfo);
    h.Push(CODERS_UNPACK_SIZE);
    h.WriteMany(coderUnpackSizes);
    h.Push(END);
    OneFolderBytes(packSize, coderInfo, coderUnpackSizes);
  }

  method BuildEncodedHeaderDescriptor(packPos: u64, packSize: u64, coderInfo: Bytes, coderUnpackSizes: seq<u64>)
    returns (h: Bytes)
    ensures h == DescriptorBytes(packPos, packSize, coderInfo, coderUnpackSizes)
  {
    hide PackBytes, UnpackBytes;
    var buffer := new HeaderBuffer();
    buffer.Push(ENCODED_HEADER);
    WriteOnePack(buffer, packPos, packSize);
    WriteOneFolder(buffer, packSize, coderInfo, coderUnpackSizes);
    buffer.Push(END);
    h := buffer.h;
  }

  // ---------------------------------------------------------------- reading

  datatype EncodedHeader = EncodedHeader(packInfo: PackInfo, unpackInfo: UnpackInfo) {
    function HeaderTables(): Tables {
      Tables(packInfo, unpackInfo, None)
    }

    /** One packed stream and one folder, which pass the checks made before metadata is decoded. */
    ghost predicate HasFolder(limit: u64) {
      && |packInfo.packSizes| == 1 && unpackInfo.numFolders == 1 && HeaderTables().FolderCount() == 1
      && Passes(HeaderTables(), limit)
    }

    /** The only folder, unless it is refused. */
    ghost function Folder(limit: u64): Option<FolderLayout> {
      if HasFolder(limit) then
        assert Items(HeaderTables(), START) != [] && Items(HeaderTables(), START)[0].Success?;
        Some(Items(HeaderTables(), START)[0].value)
      else None
    }

    method FindFolder(limit: u64) returns (r: Result<FolderLayout, R7zError>)
      ensures r.Success? <==> HasFolder(limit)
      ensures r.Success? ==> Folder(limit) == Some(r.value)
    {
      hide Items;
      if |packInfo.packSizes| != 1 || unpackInfo.numFolders != 1 || HeaderTables().FolderCount() != 1 {
        return Failure(Parse);
      }
      var checked := Preflight(HeaderTables(), limit);
      if checked.Failure? {
        return Failure(checked.error);
      }
      var plans := new FolderPlans(HeaderTables());
      PlanningConserves(HeaderTables());
      var first := plans.Next();
      if first.None? {
        return Failure(Parse);
      }
      r := first.value;
    }
  }

  function ParseEncodedHeader(s: Bytes): ParseResult<EncodedHeader> {
    var (input, packInfo) :- ParsePackInfo(s);
    var (rest, unpackInfo) :- ParseUnpackInfo(input, []);
    Ok(rest, EncodedHeader(packInfo, unpackInfo))
  }

  datatype NextHeader = Plain | Encoded(header: EncodedHeader)

  /** Bytes after an encoded header are not looked at. */
  function ParseNextHeader(data: Bytes): Result<NextHeader, R7zError> {
    match Tag(data)
    case Err(_) => Failure(Parse)
    case Ok(input, tag) =>
      if tag == HEADER then Success(Plain)
      else if tag != ENCODED_HEADER then Failure(Parse)
      else
        match ParseEncodedHeader(input)
        case Err(_) => Failure(Parse)
        case Ok(_, header) => Success(Encoded(header))
  }

  // ---------------------------------------------------------------- round trip

  /** One folder with one packed stream and a size for each output. */
  ghost predicate IsHeaderFolder(coderInfo: Bytes, sizes: seq<u64>) {
    && |coderInfo| < U32_LIMIT
    && var folder := FolderCodec.ParseFolder(coderInfo);
      && folder.Ok? && folder.rest == []
      && Accepts(folder.value) && PackedStreamCount(folder.value) == 1
      && |sizes| == TotalOutStreams(folder.value) < U64_LIMIT
  }

  function WrittenEncodedHeader(packPos: u64, packSize: u64, coderInfo: Bytes, sizes: seq<u64>): EncodedHeader {
    EncodedHeader(PackInfo(packPos, [packSize], [None]),
      UnpackInfo(1, coderInfo, [0, |coderInfo|], sizes, [None]))
  }

  lemma HeaderFolderIsWellFormed(packSize: u64, coderInfo: Bytes, sizes: seq<u64>)
    requires IsHeaderFolder(coderInfo, sizes)
    ensures var folder := HeaderFolder(packSize, coderInfo, sizes);
      && AllWellFormed([folder]) && WithinLimits([folder])
      && WrittenUnpack([folder]) == UnpackInfo(1, coderInfo, [0, |coderInfo|], sizes, [None])
  {
    hide FolderCodec.ParseFolder, Accepts;
    var folder := HeaderFolder(packSize, coderInfo, sizes);
    OneFolder(folder);
    assert Offsets(0, [folder]) == [0] + Offsets(|coderInfo|, [folder][1..]) == [0, |coderInfo|];
  }

  /** The descriptor is recognised, and parses back to the one folder it was written for. */
  lemma DescriptorRoundTrip(packPos: u64, packSize: u64, coderInfo: Bytes, sizes: seq<u64>)
    requires IsHeaderFolder(coderInfo, sizes)
    ensures ParseNextHeader(DescriptorBytes(packPos, packSize, coderInfo, sizes))
         == Success(Encoded(WrittenEncodedHeader(packPos, packSize, coderInfo, sizes)))
  {
    hide ParsePackInfo, ParseUnpackInfo, PackBytes, UnpackBytes, IsHeaderFolder, WrittenUnpack;
    var folder := HeaderFolder(packSize, coderInfo, sizes);
    HeaderFolderIsWellFormed(packSize, coderInfo, sizes);
    var next := UnpackBytes([folder]) + [END];
    PackInfoRoundTrip(packPos, [packSize], next);
    UnpackInfoRoundTrip([folder], [], [END]);
    assert seq<Option<u32>>(1, _ => None) == [None];
    assert DescriptorBytes(packPos, packSize, coderInfo, sizes)
        == [ENCODED_HEADER] + (PackBytes(packPos, [packSize]) + next);
  }

  /** A header that is not encoded is recognised as such. */
  lemma PlainHeaderRecognised(entries: seq<WriteEntry>, folders: seq<CompletedFolder>)
    requires Listable(entries) && Countable(folders)
    ensures ParseNextHeader(HeaderBytes(entries, folders)) == Success(Plain)
  {
    hide StreamsBytes, FilesBytes;
  }

  function HeaderLayout(folder: Folder, packSize: u64, sizes: seq<u64>, unpackSize: u64): FolderLayout {
    FolderLayout(folder, 0, [packSize], [None], sizes, unpackSize, None, StreamLayout([], Some(unpackSize), [None]))
  }

  /**
   * The folder found in the descriptor has the whole packed stream and decodes to one unchecked stream;
   * it is refused exactly when the packed or the decoded header exceeds the metadata limit.
   */
  lemma EncodedFolderLaidOut(packPos: u64, packSize: u64, coderInfo: Bytes, sizes: seq<u64>, limit: u64)
    returns (final: nat)
    requires IsHeaderFolder(coderInfo, sizes)
    ensures var folder := FolderCodec.ParseFolder(coderInfo).value;
      && IsFinalOutput(folder, final) && final < |sizes|
      && WrittenEncodedHeader(packPos, packSize, coderInfo, sizes).Folder(limit)
         == if packSize <= limit && sizes[final] <= limit
            then Some(HeaderLayout(folder, packSize, sizes, sizes[final])) else None
  {
    hide FolderCodec.ParseFolder, Accepts, PackedStreamCount, TotalOutStreams, LayOut, Items;
    var folder := FolderCodec.ParseFolder(coderInfo).value;
    AcceptedHasFinalOutput(folder);
    var header := WrittenEncodedHeader(packPos, packSize, coderInfo, sizes);
    var tables := Tables(header.packInfo, header.unpackInfo, None);
    assert coderInfo[0..|coderInfo|] == coderInfo;
    assert tables.unpack.FolderAt(0) == Success(folder);
    final := FinalOutput(folder);
    LayOutHeader(tables, folder, final, packSize, sizes);
    OnlyItem(tables, HeaderLayout(folder, packSize, sizes, sizes[final]), |sizes|, packSize);
  }

  lemma OnlyItem(tables: Tables, layout: FolderLayout, outputs: nat, packSize: u64)
    requires NextFolder(tables, START) == Success((layout, Cursor(1, 1, outputs, packSize, 0, 1)))
    requires tables.FolderCount() == tables.unpack.numFolders == 1 && |tables.pack.packSizes| == 1
    requires |tables.unpack.unpackSizes| == outputs && |tables.pack.digests| == |tables.unpack.digests| == 1
    requires tables.substreams.None?
    ensures Items(tables, START) == [Success(layout)] && AllLaidOut(Items(tables, START))
    ensures LayoutsOf(Items(tables, START)) == [layout]
    ensures UnpackTotal(LayoutsOf(Items(tables, START))) == layout.unpackSize
    ensures Total(tables.pack.packSizes) == tables.pack.packSizes[0]
  {
    hide NextFolder;
    assert Items(tables, Cursor(1, 1, outputs, packSize, 0, 1)) == [];
    assert [layout][1..] == [] && tables.pack.packSizes[1..] == [];
  }

  lemma LayOutHeader(tables: Tables, folder: Folder, finalOutput: nat, packSize: u64, sizes: seq<u64>)
    requires PackedStreamCount(folder) == 1 && TotalOutStreams(folder) == |sizes| && finalOutput < |sizes|
    requires tables.pack.packSizes == [packSize] && tables.pack.digests == [None]
    requires tables.unpack.unpackSizes == sizes && tables.unpack.digests == [None] && tables.substreams.None?
    ensures LayOut(tables, START, folder, finalOutput).Success?
    ensures LayOut(tables, START, folder, finalOutput).value
         == (HeaderLayout(folder, packSize, sizes, sizes[finalOutput]), Cursor(1, 1, |sizes|, packSize, 0, 1))
  {
    hide PackedStreamCount, TotalOutStreams;
    assert sizes[0..|sizes|] == sizes;
    assert Total([packSize]) == packSize + Total([packSize][1..]) == packSize;
    assert [packSize][0..1] == [packSize];
    assert tables.unpack.digests[0..1] == [None] && tables.pack.digests[0..1] == [None];
    assert DigestWindow(tables, START, 1).value == [None] && ExplicitWindow(tables, START, 1).value == [];
    assert NewStreamLayout(sizes[finalOutput], 1, [], [None])
        == Success(StreamLayout([], Some(sizes[finalOutput]), [None]));
    assert Window([packSize], 0, 1) == Some([packSize]);
    assert Window(sizes, 0, |sizes|) == Some(sizes);
  }

  // ---------------------------------------------------------------- written chains

  lemma ChainUses(coders: seq<CoderInfo>, o: nat)
    requires 1 <= |coders| < U64_LIMIT && o < |coders| - 1
    ensures OutputUsed(WrittenChain(coders).bindPairs, o)
  {
    assert WrittenChain(coders).bindPairs[o].1 == o;
  }

  /** Only the last coder's output of a written chain is left over. */
  lemma ChainEndsLast(coders: seq<CoderInfo>, o: nat)
    requires 1 <= |coders| < U64_LIMIT && AllSingle(coders) && IsFinalOutput(WrittenChain(coders), o)
    ensures o == |coders| - 1
  {
    SumOfOnes(OutputCounts(coders));
    if o < |coders| - 1 {
      ChainUses(coders, o);
    }
  }

  lemma WrittenChainIsHeaderFolder(coders: seq<CoderInfo>, sizes: seq<u64>)
    requires 1 <= |coders| <= MAX_FOLDER_STREAMS && CoderWriter.AllSimple(coders)
    requires forall i :: 0 <= i < |coders| ==> StreamArity(coders[i]).Success?
    requires |CoderWriter.ChainBytes(coders)| < U32_LIMIT && |sizes| == |coders|
    ensures IsHeaderFolder(CoderWriter.ChainBytes(coders), sizes)
    ensures FolderCodec.ParseFolder(CoderWriter.ChainBytes(coders)) == Ok([], WrittenChain(coders))
  {
    hide FolderCodec.ParseFolder, CoderWriter.ChainBytes, Accepts, StreamArity;
    var block := CoderWriter.ChainBytes(coders);
    CoderWriter.ChainRoundTrip(coders, []);
    assert block + [] == block;
    WrittenChainAccepted(coders);
    SumOfOnes(InputCounts(coders));
    SumOfOnes(OutputCounts(coders));
  }

  /**
   * The descriptor of a header stream packed by any written chain leads back to that chain, the packed
   * stream and the length of the header that was packed, which is the last size given, unless one of the
   * two lengths exceeds the metadata limit.
   */
  lemma HeaderStreamFound(packPos: u64, packSize: u64, coders: seq<CoderInfo>, sizes: seq<u64>, limit: u64)
    requires 1 <= |coders| <= MAX_FOLDER_STREAMS && CoderWriter.AllSimple(coders)
    requires forall i :: 0 <= i < |coders| ==> StreamArity(coders[i]).Success?
    requires |CoderWriter.ChainBytes(coders)| < U32_LIMIT && |sizes| == |coders|
    ensures var next := ParseNextHeader(DescriptorBytes(packPos, packSize, CoderWriter.ChainBytes(coders), sizes));
      var length := sizes[|sizes| - 1];
      && next.Success? && next.value.Encoded? && next.value.header.packInfo.packPos == packPos
      && next.value.header.Folder(limit)
         == if packSize <= limit && length <= limit
            then Some(HeaderLayout(WrittenChain(coders), packSize, sizes, length)) else None
  {
    hide FolderCodec.ParseFolder, CoderWriter.ChainBytes, IsHeaderFolder, IsFinalOutput, DescriptorBytes,
      ParseNextHeader, StreamArity, WrittenChain;
    var block := CoderWriter.ChainBytes(coders);
    WrittenChainIsHeaderFolder(coders, sizes);
    DescriptorRoundTrip(packPos, packSize, block, sizes);
    var final := EncodedFolderLaidOut(packPos, packSize, block, sizes, limit);
    ChainEndsLast(coders, final);
  }
}
