/** Packed streams and folders: the parsers that keep tables and the scanners that only walk them. */
module PackInfos {
  import opened Wrappers
  import opened Words
  import opened Folders
  import opened Parsers
  import opened PropertyTables
  import FolderCodec

  const NO_TABLE := Table([], [], [])
  const NO_TALLY := Tally(0, 0)

  function Expect(s: Bytes, expected: byte): (r: ParseResult<()>)
    ensures r.Ok? ==> |r.rest| < |s|
  {
    var (rest, tag) :- Tag(s);
    if tag == expected then Ok(rest, ()) else Err(Satisfy)
  }

  lemma ExpectLocal(s: Bytes, expected: byte, tail: Bytes)
    requires Expect(s, expected).Ok?
    ensures SuffixOf(s[1..], s) && Expect(Eaten(s, s[1..]) + tail, expected) == Ok(tail, ())
  {
    TagLocal(s, tail);
  }

  /** An absent digest table stands for one without any digest. */
  function DigestsOrNone(digests: seq<Option<u32>>, n: nat): seq<Option<u32>> {
    if digests == [] then seq(n, _ => None) else digests
  }

  // ---------------------------------------------------------------- packed streams

  datatype PackInfo = PackInfo(packPos: u64, packSizes: seq<u64>, digests: seq<Option<u32>>)

  datatype PackHead = PackHead(packPos: u64, packSizes: seq<u64>)

  function ParsePackSizes(s: Bytes, packPos: u64, n: nat): (r: ParseResult<PackHead>)
    ensures r.Ok? ==> |r.rest| < |s| && |r.value.packSizes| == n
  {
    var (input, _) :- Expect(s, SIZE);
    var (rest, sizes) :- DecodeMany(input, n);
    Ok(rest, PackHead(packPos, sizes))
  }

  function ParsePackNumbers(s: Bytes): (r: ParseResult<PackHead>)
    ensures r.Ok? ==> |r.rest| < |s|
  {
    var (input, packPos) :- DecodeVarint(s);
    VarintLocal(s, []);
    var (input', n) :- DecodeVarint(input);
    VarintLocal(input, []);
    ParsePackSizes(input', packPos, n)
  }

  function ParsePackHead(s: Bytes): (r: ParseResult<PackHead>)
    ensures r.Ok? ==> |r.rest| < |s|
  {
    var (input, _) :- Expect(s, PACK_INFO);
    ParsePackNumbers(input)
  }

  function ParsePackInfo(s: Bytes): (r: ParseResult<PackInfo>)
    ensures r.Ok? ==> |r.rest| < |s|
  {
    var (input, head) :- ParsePackHead(s);
    var (rest, table) :- ParseTable(PackSection(|head.packSizes|), input, NO_TABLE);
    Ok(rest, PackInfo(head.packPos, head.packSizes, DigestsOrNone(table.digests, |head.packSizes|)))
  }

  function ScanPackInfo(s: Bytes): (r: ParseResult<()>)
    ensures r.Ok? ==> |r.rest| < |s|
  {
    var (input, head) :- ParsePackHead(s);
    var (rest, _) :- ScanTable(PackSection(|head.packSizes|), input, NO_TALLY);
    Ok(rest, ())
  }

  lemma PackInfoAgrees(s: Bytes)
    requires |s| < U64_LIMIT
    ensures SameExtent(ParsePackInfo(s), ScanPackInfo(s))
  {
    var head := ParsePackHead(s);
    if head.Ok? {
      TablesAgree(PackSection(|head.value.packSizes|), head.rest, NO_TABLE, NO_TALLY);
    }
  }

  lemma PackSizesLocal(s: Bytes, packPos: u64, n: nat, tail: Bytes)
    requires ParsePackSizes(s, packPos, n).Ok?
    ensures var r := ParsePackSizes(s, packPos, n);
      SuffixOf(r.rest, s) && ParsePackSizes(Eaten(s, r.rest) + tail, packPos, n) == Ok(tail, r.value)
  {
    var rest := ParsePackSizes(s, packPos, n).rest;
    ManyLocal(s[1..], n, tail);
    ExpectLocal(s, SIZE, Eaten(s[1..], rest) + tail);
    EatenTwice(s, s[1..], rest, tail);
  }

  lemma PackNumbersLocal(s: Bytes, tail: Bytes)
    requires ParsePackNumbers(s).Ok?
    ensures var r := ParsePackNumbers(s);
      SuffixOf(r.rest, s) && ParsePackNumbers(Eaten(s, r.rest) + tail) == Ok(tail, r.value)
  {
    var position, rest := DecodeVarint(s), ParsePackNumbers(s).rest;
    var count := DecodeVarint(position.rest);
    PackSizesLocal(count.rest, position.value, count.value, tail);
    VarintLocal(position.rest, Eaten(count.rest, rest) + tail);
    EatenTwice(position.rest, count.rest, rest, tail);
    VarintLocal(s, Eaten(position.rest, rest) + tail);
    EatenTwice(s, position.rest, rest, tail);
  }

  lemma PackHeadLocal(s: Bytes, tail: Bytes)
    requires ParsePackHead(s).Ok?
    ensures var r := ParsePackHead(s);
      SuffixOf(r.rest, s) && ParsePackHead(Eaten(s, r.rest) + tail) == Ok(tail, r.value)
  {
    var rest := ParsePackHead(s).rest;
    PackNumbersLocal(s[1..], tail);
    ExpectLocal(s, PACK_INFO, Eaten(s[1..], rest) + tail);
    EatenTwice(s, s[1..], rest, tail);
  }

  lemma PackInfoLocal(s: Bytes, tail: Bytes)
    requires ParsePackInfo(s).Ok?
    ensures var r := ParsePackInfo(s);
      SuffixOf(r.rest, s) && ParsePackInfo(Eaten(s, r.rest) + tail) == Ok(tail, r.value)
  {
    var head, rest := ParsePackHead(s), ParsePackInfo(s).rest;
    TableLocal(PackSection(|head.value.packSizes|), head.rest, NO_TABLE, tail);
    PackHeadLocal(s, Eaten(head.rest, rest) + tail);
    EatenTwice(s, head.rest, rest, tail);
  }

  // ---------------------------------------------------------------- folder declaration

  datatype FolderLocation = Inline | External(index: u64)

  datatype Declaration = Declaration(folders: u64, location: FolderLocation)

  function ParseLocation(s: Bytes, folders: u64): (r: ParseResult<Declaration>)
    ensures r.Ok? ==> |r.rest| < |s|
  {
    var (input, flag) :- Byte(s);
    if flag == 0 then Ok(input, Declaration(folders, Inline))
    else if flag == 1 then
      var (rest, index) :- DecodeVarint(input);
      VarintLocal(input, []);
      Ok(rest, Declaration(folders, External(index)))
    else Err(Verify)
  }

  function ParseFolderCount(s: Bytes): (r: ParseResult<Declaration>)
    ensures r.Ok? ==> |r.rest| < |s|
  {
    var (input, _) :- Expect(s, FOLDER);
    var (rest, folders) :- DecodeVarint(input);
    VarintLocal(input, []);
    ParseLocation(rest, folders)
  }

  function ParseDeclaration(s: Bytes): (r: ParseResult<Declaration>)
    ensures r.Ok? ==> |r.rest| < |s|
  {
    var (input, _) :- Expect(s, UNPACK_INFO);
    ParseFolderCount(input)
  }

  lemma LocationLocal(s: Bytes, folders: u64, tail: Bytes)
    requires ParseLocation(s, folders).Ok?
    ensures var r := ParseLocation(s, folders);
      SuffixOf(r.rest, s) && ParseLocation(Eaten(s, r.rest) + tail, folders) == Ok(tail, r.value)
  {
    var rest := ParseLocation(s, folders).rest;
    if s[0] == 0 {
      EatenNothing(s[1..], tail);
    } else {
      VarintLocal(s[1..], tail);
    }
    EatenCons(s, rest, tail);
  }

  lemma FolderCountLocal(s: Bytes, tail: Bytes)
    requires ParseFolderCount(s).Ok?
    ensures var r := ParseFolderCount(s);
      SuffixOf(r.rest, s) && ParseFolderCount(Eaten(s, r.rest) + tail) == Ok(tail, r.value)
  {
    var count, rest := DecodeVarint(s[1..]), ParseFolderCount(s).rest;
    LocationLocal(count.rest, count.value, tail);
    VarintLocal(s[1..], Eaten(count.rest, rest) + tail);
    EatenTwice(s[1..], count.rest, rest, tail);
    ExpectLocal(s, FOLDER, Eaten(s[1..], rest) + tail);
    EatenTwice(s, s[1..], rest, tail);
  }

  lemma DeclarationLocal(s: Bytes, tail: Bytes)
    requires ParseDeclaration(s).Ok?
    ensures var r := ParseDeclaration(s);
      SuffixOf(r.rest, s) && ParseDeclaration(Eaten(s, r.rest) + tail) == Ok(tail, r.value)
  {
    var rest := ParseDeclaration(s).rest;
    FolderCountLocal(s[1..], tail);
    ExpectLocal(s, UNPACK_INFO, Eaten(s[1..], rest) + tail);
    EatenTwice(s, s[1..], rest, tail);
  }

  // ---------------------------------------------------------------- folder blocks

  /** Where each folder starts, with a sentinel at the end, and the output streams of all of them. */
  datatype Blocks = Blocks(offsets: seq<nat>, outputs: nat)

  function ScanFolderBlock(s: Bytes): (r: ParseResult<nat>)
    ensures r.Ok? ==> |r.rest| < |s|
  {
    var (rest, outputs) :- FolderCodec.ScanFolder(s);
    FolderCodec.FolderScanAgrees(s);
    FolderCodec.FolderLocal(s, []);
    Ok(rest, outputs)
  }

  /**
   * The blocks from position base on. The parser records 32-bit offsets; the scanner records none,
   * so only the parser rejects a position that does not fit.
   */
  function FolderBlocks(s: Bytes, base: nat, count: nat, outputs: nat, indexed: bool): (r: ParseResult<Blocks>)
    ensures r.Ok? ==> |r.rest| <= |s| && |r.value.offsets| == count + 1 && r.value.offsets[0] == base
    decreases count
  {
    if indexed && base >= U32_LIMIT then Err(TooLarge)
    else if count == 0 then Ok(s, Blocks([base], outputs))
    else
      var (input, out) :- ScanFolderBlock(s);
      if outputs + out >= U64_LIMIT then Err(TooLarge) else
      JoinBlocks([base], FolderBlocks(input, base + |s| - |input|, count - 1, outputs + out, indexed))
  }

  /** Offsets already recorded in front of those still to come. */
  function JoinBlocks(done: seq<nat>, left: ParseResult<Blocks>): ParseResult<Blocks> {
    match left
    case Ok(rest, more) => Ok(rest, Blocks(done + more.offsets, more.outputs))
    case Err(kind) => Err(kind)
  }

  /** Of what counting alone accepts, recording offsets rejects exactly the blocks that reach four gigabytes. */
  lemma {:induction false} IndexingAccepts(s: Bytes, base: nat, count: nat, outputs: nat)
    ensures var indexed := FolderBlocks(s, base, count, outputs, true);
      var plain := FolderBlocks(s, base, count, outputs, false);
      && (indexed.Ok? ==> indexed == plain)
      && (plain.Ok? ==> (indexed.Ok? <==> base + |s| - |plain.rest| < U32_LIMIT))
    decreases count
  {
    hide ScanFolderBlock;
    var first := ScanFolderBlock(s);
    if count > 0 && first.Ok? && outputs + first.value < U64_LIMIT {
      IndexingAccepts(first.rest, base + |s| - |first.rest|, count - 1, outputs + first.value);
    }
  }

  lemma FolderBlockLocal(s: Bytes, tail: Bytes)
    requires ScanFolderBlock(s).Ok?
    ensures var r := ScanFolderBlock(s);
      SuffixOf(r.rest, s) && ScanFolderBlock(Eaten(s, r.rest) + tail) == Ok(tail, r.value)
  {
    var r := ScanFolderBlock(s);
    FolderCodec.FolderScanAgrees(s);
    FolderCodec.FolderLocal(s, tail);
    FolderCodec.FolderScanAgrees(Eaten(s, r.rest) + tail);
  }

  ghost predicate IsFolder(block: Bytes) {
    FolderCodec.ParseFolder(block).Ok? && FolderCodec.ParseFolder(block).rest == []
  }

  lemma FolderBlockParses(s: Bytes)
    requires ScanFolderBlock(s).Ok?
    ensures SuffixOf(ScanFolderBlock(s).rest, s) && IsFolder(Eaten(s, ScanFolderBlock(s).rest))
  {
    FolderCodec.FolderScanAgrees(s);
    FolderCodec.FolderLocal(s, []);
    var block := Eaten(s, ScanFolderBlock(s).rest);
    assert block + [] == block;
  }

  /** A block in front of blocks that start where it ends. */
  lemma FolderBlocksCons(
    s: Bytes, base: nat, count: nat, outputs: nat, indexed: bool, input: Bytes, out: nat, more: ParseResult<Blocks>)
    requires (indexed ==> base < U32_LIMIT) && |input| <= |s|
    requires ScanFolderBlock(s) == Ok(input, out) && outputs + out < U64_LIMIT
    requires more == FolderBlocks(input, base + |s| - |input|, count, outputs + out, indexed)
    ensures FolderBlocks(s, base, count + 1, outputs, indexed) == JoinBlocks([base], more)
  {
    hide ScanFolderBlock;
  }

  lemma BlocksEnd(s: Bytes, base: nat, outputs: nat, indexed: bool)
    ensures FolderBlocks(s, base, 0, outputs, indexed)
         == if indexed && base >= U32_LIMIT then Err(TooLarge) else Ok(s, Blocks([base], outputs))
  {
  }

  lemma BlocksContinue(s: Bytes, base: nat, count: nat, outputs: nat, indexed: bool)
    requires count > 0
    ensures FolderBlocks(s, base, count, outputs, indexed)
         == if indexed && base >= U32_LIMIT then Err(TooLarge) else match ScanFolderBlock(s)
            case Err(kind) => Err(kind)
            case Ok(input, out) =>
              if outputs + out >= U64_LIMIT then Err(TooLarge) else
              JoinBlocks([base], FolderBlocks(input, base + |s| - |input|, count - 1, outputs + out, indexed))
  {
    hide ScanFolderBlock;
  }

  lemma {:induction false} FolderBlocksLocal(
    s: Bytes, base: nat, count: nat, outputs: nat, indexed: bool, tail: Bytes)
    requires FolderBlocks(s, base, count, outputs, indexed).Ok?
    ensures var r := FolderBlocks(s, base, count, outputs, indexed);
      && SuffixOf(r.rest, s)
      && FolderBlocks(Eaten(s, r.rest) + tail, base, count, outputs, indexed) == Ok(tail, r.value)
    decreases count
  {
    hide FolderBlocks, ScanFolderBlock, SuffixOf, Eaten;
    if count == 0 {
      BlocksEnd(s, base, outputs, indexed);
      EatenNothing(s, tail);
      BlocksEnd(tail, base, outputs, indexed);
    } else {
      BlocksContinue(s, base, count, outputs, indexed);
      var first, rest := ScanFolderBlock(s), FolderBlocks(s, base, count, outputs, indexed).rest;
      var next := base + |s| - |first.rest|;
      FolderBlocksLocal(first.rest, next, count - 1, outputs + first.value, indexed, tail);
      var input := Eaten(first.rest, rest) + tail;
      FolderBlockLocal(s, input);
      EatenTwice(s, first.rest, rest, tail);
      FolderBlocksCons(Eaten(s, rest) + tail, base, count - 1, outputs, indexed, input, first.value,
        FolderBlocks(input, next, count - 1, outputs + first.value, indexed));
    }
  }

  /** One recorded block: its two offsets delimit bytes that are exactly one folder. */
  ghost predicate BlockParses(data: Bytes, base: nat, offsets: seq<nat>, i: nat)
    requires i + 1 < |offsets|
  {
    && base <= offsets[i] <= offsets[i + 1] <= base + |data|
    && IsFolder(data[offsets[i] - base..offsets[i + 1] - base])
  }

  lemma FirstBlockParses(front: Bytes, data: Bytes, base: nat, offsets: seq<nat>)
    requires IsFolder(front) && offsets != [] && offsets[0] == base + |front|
    ensures BlockParses(front + data, base, [base] + offsets, 0)
  {
    hide IsFolder;
    assert (front + data)[..|front|] == front;
  }

  lemma LaterBlockParses(front: Bytes, data: Bytes, base: nat, offsets: seq<nat>, i: nat)
    requires i + 1 < |offsets| && BlockParses(data, base + |front|, offsets, i)
    ensures BlockParses(front + data, base, [base] + offsets, i + 1)
  {
    hide IsFolder;
    var a, b := offsets[i] - base, offsets[i + 1] - base;
    assert (front + data)[a..b] == data[a - |front|..b - |front|];
  }

  /** The first block, and the result for the blocks after it. */
  lemma BlocksUnfold(s: Bytes, base: nat, count: nat, outputs: nat, indexed: bool)
    returns (input: Bytes, sum: nat, more: Blocks)
    requires count > 0 && FolderBlocks(s, base, count, outputs, indexed).Ok?
    ensures var r := FolderBlocks(s, base, count, outputs, indexed);
      && SuffixOf(input, s) && IsFolder(Eaten(s, input)) && SuffixOf(r.rest, input)
      && FolderBlocks(input, base + |Eaten(s, input)|, count - 1, sum, indexed) == Ok(r.rest, more)
      && r.value.offsets == [base] + more.offsets
      && Eaten(s, r.rest) == Eaten(s, input) + Eaten(input, r.rest)
  {
    hide ScanFolderBlock, SuffixOf, Eaten, IsFolder;
    input, sum := ScanFolderBlock(s).rest, outputs + ScanFolderBlock(s).value;
    var next := base + |s| - |input|;
    more := FolderBlocks(input, next, count - 1, sum, indexed).value;
    FolderBlockParses(s);
    FolderBlocksLocal(input, next, count - 1, sum, indexed, []);
    EatenSplit(s, input, FolderBlocks(s, base, count, outputs, indexed).rest);
  }

  lemma {:induction false} BlocksParse(s: Bytes, base: nat, count: nat, outputs: nat, indexed: bool, i: nat)
    requires FolderBlocks(s, base, count, outputs, indexed).Ok? && i < count
    ensures var r := FolderBlocks(s, base, count, outputs, indexed);
      SuffixOf(r.rest, s) && BlockParses(Eaten(s, r.rest), base, r.value.offsets, i)
    decreases count
  {
    hide FolderBlocks, BlockParses, Eaten, IsFolder;
    var rest := FolderBlocks(s, base, count, outputs, indexed).rest;
    var input, sum, more := BlocksUnfold(s, base, count, outputs, indexed);
    EatenSplit(s, input, rest);
    if i == 0 {
      FirstBlockParses(Eaten(s, input), Eaten(input, rest), base, more.offsets);
    } else {
      BlocksParse(input, base + |Eaten(s, input)|, count - 1, sum, indexed, i - 1);
      LaterBlockParses(Eaten(s, input), Eaten(input, rest), base, more.offsets, i - 1);
    }
  }

  // ---------------------------------------------------------------- folders

  datatype UnpackInfo = UnpackInfo(
    numFolders: u64, folderData: Bytes, folderOffsets: seq<nat>, unpackSizes: seq<u64>, digests: seq<Option<u32>>)
  {
    function FolderBytes(i: nat): Result<Bytes, R7zError> {
      if i + 1 >= |folderOffsets| then Failure(Parse)
      else if folderOffsets[i] > folderOffsets[i + 1] || folderOffsets[i + 1] > |folderData| then Failure(Parse)
      else Success(folderData[folderOffsets[i]..folderOffsets[i + 1]])
    }

    /** The folder is parsed on demand and has to take up its bytes exactly. */
    function FolderAt(i: nat): Result<Folder, R7zError> {
      var bytes :- FolderBytes(i);
      match FolderCodec.ParseFolder(bytes)
      case Ok(rest, folder) => if rest == [] then Success(folder) else Failure(Parse)
      case Err(_) => Failure(Parse)
    }
  }

  /** The declaration and the folder blocks, wherever those are stored. */
  datatype UnpackHead = UnpackHead(numFolders: u64, folderData: Bytes, blocks: Blocks)

  function ParseFolderSource(
    s: Bytes, declared: Declaration, external: seq<Bytes>, indexed: bool): (r: ParseResult<UnpackHead>)
    ensures r.Ok? ==> |r.rest| <= |s|
  {
    match declared.location
    case Inline =>
      var (rest, blocks) :- FolderBlocks(s, 0, declared.folders, 0, indexed);
      Ok(rest, UnpackHead(declared.folders, Eaten(s, rest), blocks))
    case External(index) =>
      if index >= |external| then Err(Eof) else
      var (rest, blocks) :- FolderBlocks(external[index], 0, declared.folders, 0, indexed);
      Ok(s, UnpackHead(declared.folders, Eaten(external[index], rest), blocks))
  }

  function ParseUnpackHead(s: Bytes, external: seq<Bytes>, indexed: bool): (r: ParseResult<UnpackHead>)
    ensures r.Ok? ==> |r.rest| < |s|
  {
    var (input, declared) :- ParseDeclaration(s);
    ParseFolderSource(input, declared, external, indexed)
  }

  function ParseUnpackInfo(s: Bytes, external: seq<Bytes>): (r: ParseResult<UnpackInfo>)
    ensures r.Ok? ==> |r.rest| < |s| && |r.value.folderOffsets| == r.value.numFolders + 1
  {
    var (input, head) :- ParseUnpackHead(s, external, true);
    var (rest, table) :- ParseTable(UnpackSection(head.numFolders, head.blocks.outputs), input, NO_TABLE);
    Ok(rest, UnpackInfo(head.numFolders, head.folderData, head.blocks.offsets, table.sizes,
                        DigestsOrNone(table.digests, head.numFolders)))
  }

  /** Counts the folders that the parser would list. */
  function ScanUnpackInfo(s: Bytes, external: seq<Bytes>): (r: ParseResult<u64>)
    ensures r.Ok? ==> |r.rest| < |s|
  {
    var (input, head) :- ParseUnpackHead(s, external, false);
    var (rest, _) :- ScanTable(UnpackSection(head.numFolders, head.blocks.outputs), input, NO_TALLY);
    Ok(rest, head.numFolders)
  }

  /** Every external stream is below four gigabytes. */
  ghost predicate Addressable(external: seq<Bytes>) {
    forall i :: 0 <= i < |external| ==> |external[i]| < U32_LIMIT
  }

  /** The scanner follows the parser, and the parser the scanner as far as 32-bit offsets reach. */
  ghost predicate AgreeInReach<T, U>(s: Bytes, parsed: ParseResult<T>, scanned: ParseResult<U>) {
    && (parsed.Ok? ==> scanned.Ok? && scanned.rest == parsed.rest)
    && (scanned.Ok? && |s| - |scanned.rest| < U32_LIMIT ==> parsed.Ok?)
  }

  lemma UnpackHeadAgrees(s: Bytes, external: seq<Bytes>)
    requires Addressable(external)
    ensures var parsed, scanned := ParseUnpackHead(s, external, true), ParseUnpackHead(s, external, false);
      && (parsed.Ok? ==> scanned == parsed)
      && (scanned.Ok? && |s| - |scanned.rest| < U32_LIMIT ==> parsed.Ok?)
  {
    hide FolderBlocks, ParseDeclaration;
    var declared := ParseDeclaration(s);
    if declared.Ok? {
      match declared.value.location {
        case Inline => IndexingAccepts(declared.rest, 0, declared.value.folders, 0);
        case External(index) =>
          if index < |external| {
            IndexingAccepts(external[index], 0, declared.value.folders, 0);
          }
      }
    }
  }

  lemma UnpackInfoAgrees(s: Bytes, external: seq<Bytes>)
    requires |s| < U64_LIMIT && Addressable(external)
    ensures AgreeInReach(s, ParseUnpackInfo(s, external), ScanUnpackInfo(s, external))
    ensures ParseUnpackInfo(s, external).Ok?
      ==> ParseUnpackInfo(s, external).value.numFolders == ScanUnpackInfo(s, external).value
  {
    hide ParseUnpackHead, ParseTable, ScanTable;
    UnpackHeadAgrees(s, external);
    var head := ParseUnpackHead(s, external, false);
    if head.Ok? {
      TablesAgree(UnpackSection(head.value.numFolders, head.value.blocks.outputs), head.rest, NO_TABLE, NO_TALLY);
    }
  }

  lemma FolderSourceLocal(s: Bytes, declared: Declaration, external: seq<Bytes>, indexed: bool, tail: Bytes)
    requires ParseFolderSource(s, declared, external, indexed).Ok?
    ensures var r := ParseFolderSource(s, declared, external, indexed);
      && SuffixOf(r.rest, s)
      && ParseFolderSource(Eaten(s, r.rest) + tail, declared, external, indexed) == Ok(tail, r.value)
  {
    if declared.location.Inline? {
      var rest := ParseFolderSource(s, declared, external, indexed).rest;
      FolderBlocksLocal(s, 0, declared.folders, 0, indexed, tail);
      assert Eaten(Eaten(s, rest) + tail, tail) == Eaten(s, rest);
    } else {
      EatenNothing(s, tail);
    }
  }

  lemma UnpackHeadLocal(s: Bytes, external: seq<Bytes>, indexed: bool, tail: Bytes)
    requires ParseUnpackHead(s, external, indexed).Ok?
    ensures var r := ParseUnpackHead(s, external, indexed);
      && SuffixOf(r.rest, s)
      && ParseUnpackHead(Eaten(s, r.rest) + tail, external, indexed) == Ok(tail, r.value)
  {
    var declared, rest := ParseDeclaration(s), ParseUnpackHead(s, external, indexed).rest;
    FolderSourceLocal(declared.rest, declared.value, external, indexed, tail);
    DeclarationLocal(s, Eaten(declared.rest, rest) + tail);
    EatenTwice(s, declared.rest, rest, tail);
  }

  lemma UnpackInfoLocal(s: Bytes, external: seq<Bytes>, tail: Bytes)
    requires ParseUnpackInfo(s, external).Ok?
    ensures var r := ParseUnpackInfo(s, external);
      SuffixOf(r.rest, s) && ParseUnpackInfo(Eaten(s, r.rest) + tail, external) == Ok(tail, r.value)
  {
    var head, rest := ParseUnpackHead(s, external, true), ParseUnpackInfo(s, external).rest;
    TableLocal(UnpackSection(head.value.numFolders, head.value.blocks.outputs), head.rest, NO_TABLE, tail);
    UnpackHeadLocal(s, external, true, Eaten(head.rest, rest) + tail);
    EatenTwice(s, head.rest, rest, tail);
  }

  /** Every folder of a parsed table can be parsed on demand, from its own bytes alone. */
  lemma FoldersParseOnDemand(s: Bytes, external: seq<Bytes>, i: nat)
    requires ParseUnpackInfo(s, external).Ok?
    requires i < ParseUnpackInfo(s, external).value.numFolders
    ensures ParseUnpackInfo(s, external).value.FolderAt(i).Success?
  {
    var declared := ParseDeclaration(s);
    var source := if declared.value.location.Inline? then declared.rest else external[declared.value.location.index];
    BlocksParse(source, 0, declared.value.folders, 0, true, i);
  }

  /** What parses without external data parses the same with any. */
  lemma UnpackInfoWithoutExternal(s: Bytes, external: seq<Bytes>)
    ensures ParseUnpackInfo(s, []).Ok? ==> ParseUnpackInfo(s, external) == ParseUnpackInfo(s, [])
    ensures ScanUnpackInfo(s, []).Ok? ==> ScanUnpackInfo(s, external) == ScanUnpackInfo(s, [])
  {
    hide FolderBlocks, ParseTable, ScanTable, ParseDeclaration;
  }

  /** The folder definitions are in the section itself. */
  predicate IsInline(s: Bytes) {
    ParseDeclaration(s).Ok? && ParseDeclaration(s).value.location.Inline?
  }

  /** A table that scans with external data scans without exactly when it is inline. */
  lemma ScansAloneIffInline(s: Bytes, external: seq<Bytes>)
    requires ScanUnpackInfo(s, external).Ok?
    ensures ScanUnpackInfo(s, []) == (if IsInline(s) then ScanUnpackInfo(s, external) else Err(Eof))
  {
    hide FolderBlocks, ScanTable, ParseDeclaration;
  }

  // ---------------------------------------------------------------- the loops of the source

  lemma JoinBlocksOneMore(done: seq<nat>, base: nat, left: ParseResult<Blocks>)
    ensures JoinBlocks(done, JoinBlocks([base], left)) == JoinBlocks(done + [base], left)
  {
    if left.Ok? {
      assert done + ([base] + left.value.offsets) == (done + [base]) + left.value.offsets;
    }
  }

  lemma JoinBlocksNone(left: ParseResult<Blocks>)
    ensures JoinBlocks([], left) == left
  {
    if left.Ok? {
      assert [] + left.value.offsets == left.value.offsets;
    }
  }

  lemma JoinBlocksErr(done: seq<nat>, kind: ErrorKind)
    ensures JoinBlocks(done, Err(kind)) == Err(kind)
  {
  }

  lemma JoinBlocksOk(done: seq<nat>, rest: Bytes, base: nat, outputs: nat)
    ensures JoinBlocks(done, Ok(rest, Blocks([base], outputs))) == Ok(rest, Blocks(done + [base], outputs))
  {
  }

  /** Positions are recorded at the top of every round and once more at the end. */
  method FolderBlocksLoop(data: Bytes, count: nat, indexed: bool) returns (r: ParseResult<Blocks>)
    ensures r == FolderBlocks(data, 0, count, 0, indexed)
  {
    hide ScanFolderBlock, FolderBlocks, JoinBlocks;
    var folders, offsets: seq<nat>, outputs: nat := data, [], 0;
    JoinBlocksNone(FolderBlocks(data, 0, count, 0, indexed));
    for i := 0 to count
      invariant |folders| <= |data|
      invariant FolderBlocks(data, 0, count, 0, indexed)
             == JoinBlocks(offsets, FolderBlocks(folders, |data| - |folders|, count - i, outputs, indexed))
    {
      var position := |data| - |folders|;
      BlocksContinue(folders, position, count - i, outputs, indexed);
      JoinBlocksErr(offsets, TooLarge);
      if indexed && position >= U32_LIMIT {
        return Err(TooLarge);
      }
      var block := ScanFolderBlock(folders);
      if block.Err? {
        JoinBlocksErr(offsets, block.kind);
        return Err(block.kind);
      }
      if outputs + block.value >= U64_LIMIT {
        return Err(TooLarge);
      }
      JoinBlocksOneMore(offsets, position,
        FolderBlocks(block.rest, |data| - |block.rest|, count - i - 1, outputs + block.value, indexed));
      offsets, outputs, folders := offsets + [position], outputs + block.value, block.rest;
    }
    var consumed := |data| - |folders|;
    BlocksEnd(folders, consumed, outputs, indexed);
    JoinBlocksErr(offsets, TooLarge);
    JoinBlocksOk(offsets, folders, consumed, outputs);
    if indexed && consumed >= U32_LIMIT {
      return Err(TooLarge);
    }
    r := Ok(folders, Blocks(offsets + [consumed], outputs));
  }
}
