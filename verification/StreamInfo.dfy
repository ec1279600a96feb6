/** The streams descriptor: packed streams, folders and substreams, in any order and any number. */
module StreamInfos {
  import opened Wrappers
  import opened Words
  import opened Parsers
  import opened PropertyTables
  import opened PackInfos

  datatype SubstreamInfo = SubstreamInfo(counts: seq<u64>, sizes: seq<u64>, digests: seq<Option<u32>>)

  /** Without explicit counts every folder has one stream. */
  function ParseSubstreams(s: Bytes, folders: u64): (r: ParseResult<SubstreamInfo>)
    ensures r.Ok? ==> |r.rest| < |s|
  {
    var (input, _) :- Expect(s, SUBSTREAMS_INFO);
    var (rest, table) :- ParseTable(SubstreamSection(folders), input, Table(Ones(folders), [], []));
    Ok(rest, SubstreamInfo(table.counts, table.sizes, table.digests))
  }

  function ScanSubstreams(s: Bytes, folders: u64): (r: ParseResult<()>)
    ensures r.Ok? ==> |r.rest| < |s|
  {
    var (input, _) :- Expect(s, SUBSTREAMS_INFO);
    var (rest, _) :- ScanTable(SubstreamSection(folders), input, Tally(folders, 0));
    Ok(rest, ())
  }

  lemma SubstreamsAgree(s: Bytes, folders: u64)
    requires |s| < U64_LIMIT
    ensures SameExtent(ParseSubstreams(s, folders), ScanSubstreams(s, folders))
  {
    if Expect(s, SUBSTREAMS_INFO).Ok? {
      TablesAgree(SubstreamSection(folders), s[1..], Table(Ones(folders), [], []), Tally(folders, 0));
    }
  }

  lemma SubstreamsLocal(s: Bytes, folders: u64, tail: Bytes)
    requires ParseSubstreams(s, folders).Ok?
    ensures var r := ParseSubstreams(s, folders);
      SuffixOf(r.rest, s) && ParseSubstreams(Eaten(s, r.rest) + tail, folders) == Ok(tail, r.value)
  {
    var rest := ParseSubstreams(s, folders).rest;
    TableLocal(SubstreamSection(folders), s[1..], Table(Ones(folders), [], []), tail);
    ExpectLocal(s, SUBSTREAMS_INFO, Eaten(s[1..], rest) + tail);
    EatenTwice(s, s[1..], rest, tail);
  }

  // ---------------------------------------------------------------- the descriptor

  datatype StreamInfo = StreamInfo(
    packInfo: Option<PackInfo>, unpackInfo: Option<UnpackInfo>, substreamInfo: Option<SubstreamInfo>)
  {
    /** Folders of the last table read, or none. */
    function Folders(): u64 {
      if unpackInfo.Some? then unpackInfo.value.numFolders else 0
    }
  }

  const NO_STREAMS := StreamInfo(None, None, None)

  /** One section; s starts with its tag. */
  function ParseSection(s: Bytes, external: seq<Bytes>, info: StreamInfo): (r: ParseResult<StreamInfo>)
    requires s != []
    ensures r.Ok? ==> |r.rest| < |s|
  {
    if s[0] == PACK_INFO then
      var (rest, pack) :- ParsePackInfo(s);
      Ok(rest, info.(packInfo := Some(pack)))
    else if s[0] == UNPACK_INFO then
      var (rest, unpack) :- ParseUnpackInfo(s, external);
      Ok(rest, info.(unpackInfo := Some(unpack)))
    else if s[0] == SUBSTREAMS_INFO then
      var (rest, substreams) :- ParseSubstreams(s, info.Folders());
      Ok(rest, info.(substreamInfo := Some(substreams)))
    else
      var (rest, _) :- SizedBlock(s[1..]);
      Ok(rest, info)
  }

  function ScanSection(s: Bytes, external: seq<Bytes>, folders: u64): (r: ParseResult<u64>)
    requires s != []
    ensures r.Ok? ==> |r.rest| < |s|
  {
    if s[0] == PACK_INFO then
      var (rest, _) :- ScanPackInfo(s);
      Ok(rest, folders)
    else if s[0] == UNPACK_INFO then ScanUnpackInfo(s, external)
    else if s[0] == SUBSTREAMS_INFO then
      var (rest, _) :- ScanSubstreams(s, folders);
      Ok(rest, folders)
    else
      var (rest, _) :- SizedBlock(s[1..]);
      Ok(rest, folders)
  }

  function ParseStreams(s: Bytes, external: seq<Bytes>, info: StreamInfo): (r: ParseResult<StreamInfo>)
    ensures r.Ok? ==> |r.rest| < |s|
    decreases |s|
  {
    var (input, tag) :- Tag(s);
    if tag == END then Ok(input, info) else
      var (rest, next) :- ParseSection(s, external, info);
      ParseStreams(rest, external, next)
  }

  function ScanStreams(s: Bytes, external: seq<Bytes>, folders: u64): (r: ParseResult<u64>)
    ensures r.Ok? ==> |r.rest| < |s|
    decreases |s|
  {
    var (input, tag) :- Tag(s);
    if tag == END then Ok(input, folders) else
      var (rest, next) :- ScanSection(s, external, folders);
      ScanStreams(rest, external, next)
  }

  /** Looks for the first folder table and reports whether its definitions are external. */
  function UsesExternal(s: Bytes): ParseResult<bool>
    decreases |s|
  {
    var (input, tag) :- Tag(s);
    if tag == END then Ok(input, false)
    else if tag == UNPACK_INFO then
      var (rest, declared) :- ParseDeclaration(s);
      Ok(rest, declared.location.External?)
    else
      var (rest, _) :- ScanSection(s, [], 0);
      UsesExternal(rest)
  }

  // ---------------------------------------------------------------- agreement

  lemma SectionAgrees(s: Bytes, external: seq<Bytes>, info: StreamInfo)
    requires s != [] && |s| < U64_LIMIT && Addressable(external)
    ensures AgreeInReach(s, ParseSection(s, external, info), ScanSection(s, external, info.Folders()))
    ensures ParseSection(s, external, info).Ok?
      ==> ParseSection(s, external, info).value.Folders() == ScanSection(s, external, info.Folders()).value
  {
    hide ParsePackInfo, ScanPackInfo, ParseUnpackInfo, ScanUnpackInfo, ParseSubstreams, ScanSubstreams, SizedBlock;
    PackInfoAgrees(s);
    UnpackInfoAgrees(s, external);
    SubstreamsAgree(s, info.Folders());
  }

  /**
   * On every byte string the scanner accepts what the parser accepts and stops where it stops; the
   * parser accepts what the scanner accepts unless the descriptor is four gigabytes long.
   */
  lemma {:induction false} StreamsAgree(s: Bytes, external: seq<Bytes>, info: StreamInfo)
    requires |s| < U64_LIMIT && Addressable(external)
    ensures AgreeInReach(s, ParseStreams(s, external, info), ScanStreams(s, external, info.Folders()))
    decreases |s|
  {
    hide ParseSection, ScanSection;
    if Tag(s).Ok? && s[0] != END {
      SectionAgrees(s, external, info);
      var next := ParseSection(s, external, info);
      if next.Ok? {
        StreamsAgree(next.rest, external, next.value);
      }
    }
  }

  // ---------------------------------------------------------------- locality

  lemma SectionLocal(s: Bytes, external: seq<Bytes>, info: StreamInfo, tail: Bytes)
    requires s != [] && ParseSection(s, external, info).Ok?
    ensures var r := ParseSection(s, external, info);
      && SuffixOf(r.rest, s)
      && var whole := Eaten(s, r.rest) + tail;
      && whole != [] && whole[0] == s[0]
      && ParseSection(whole, external, info) == Ok(tail, r.value)
  {
    hide ParsePackInfo, ParseUnpackInfo, ParseSubstreams, SizedBlock;
    var rest := ParseSection(s, external, info).rest;
    if s[0] == PACK_INFO {
      PackInfoLocal(s, tail);
    } else if s[0] == UNPACK_INFO {
      UnpackInfoLocal(s, external, tail);
    } else if s[0] == SUBSTREAMS_INFO {
      SubstreamsLocal(s, info.Folders(), tail);
    } else {
      SizedBlockLocal(s[1..], tail);
      EatenCons(s, rest, tail);
    }
    HeadKept(s, rest, tail);
  }

  lemma HeadKept(s: Bytes, rest: Bytes, tail: Bytes)
    requires SuffixOf(rest, s) && |rest| < |s|
    ensures var whole := Eaten(s, rest) + tail; whole != [] && whole[0] == s[0]
  {
  }

  /** The descriptor is determined by the bytes it consumes. */
  lemma {:induction false} StreamsLocal(s: Bytes, external: seq<Bytes>, info: StreamInfo, tail: Bytes)
    requires ParseStreams(s, external, info).Ok?
    ensures var r := ParseStreams(s, external, info);
      SuffixOf(r.rest, s) && ParseStreams(Eaten(s, r.rest) + tail, external, info) == Ok(tail, r.value)
    decreases |s|
  {
    hide ParseSection;
    if s[0] == END {
      TagLocal(s, tail);
    } else {
      var next, rest := ParseSection(s, external, info), ParseStreams(s, external, info).rest;
      StreamsLocal(next.rest, external, next.value, tail);
      SectionLocal(s, external, info, Eaten(next.rest, rest) + tail);
      EatenTwice(s, next.rest, rest, tail);
    }
  }

  /**
   * Once a scan has accepted a descriptor, parsing just the scanned bytes later cannot fail, and
   * gives what parsing in place would have given.
   */
  lemma LazyStreamsNeverFail(s: Bytes, external: seq<Bytes>)
    requires |s| < U64_LIMIT && Addressable(external)
    requires ScanStreams(s, external, 0).Ok? && |s| - |ScanStreams(s, external, 0).rest| < U32_LIMIT
    ensures var rest := ScanStreams(s, external, 0).rest;
      && SuffixOf(rest, s)
      && ParseStreams(s, external, NO_STREAMS).Ok?
      && ParseStreams(Eaten(s, rest), external, NO_STREAMS)
         == Ok([], ParseStreams(s, external, NO_STREAMS).value)
  {
    StreamsAgree(s, external, NO_STREAMS);
    StreamsLocal(s, external, NO_STREAMS, []);
    var block := Eaten(s, ScanStreams(s, external, 0).rest);
    assert block + [] == block;
  }

  // ---------------------------------------------------------------- external data

  /** What parses or scans without external data does the same with any. */
  lemma {:induction false} StreamsWithoutExternal(s: Bytes, external: seq<Bytes>, info: StreamInfo)
    requires ParseStreams(s, [], info).Ok?
    ensures ParseStreams(s, external, info) == ParseStreams(s, [], info)
    decreases |s|
  {
    hide ParsePackInfo, ParseUnpackInfo, ParseSubstreams, SizedBlock;
    if s[0] != END {
      UnpackInfoWithoutExternal(s, external);
      var next := ParseSection(s, [], info);
      StreamsWithoutExternal(next.rest, external, next.value);
    }
  }

  lemma {:induction false} ScanWithoutExternal(s: Bytes, external: seq<Bytes>, folders: u64)
    requires ScanStreams(s, [], folders).Ok?
    ensures ScanStreams(s, external, folders) == ScanStreams(s, [], folders)
    decreases |s|
  {
    hide ScanPackInfo, ScanUnpackInfo, ScanSubstreams, SizedBlock;
    if s[0] != END {
      UnpackInfoWithoutExternal(s, external);
      var next := ScanSection(s, [], folders);
      ScanWithoutExternal(next.rest, external, next.value);
    }
  }

  lemma UnpackWithoutExternalIsInline(s: Bytes)
    requires ScanUnpackInfo(s, []).Ok?
    ensures ParseDeclaration(s).Ok? && ParseDeclaration(s).value.location == Inline
  {
    hide ParseDeclaration, FolderBlocks, ScanTable;
  }

  /** A descriptor that scans without external data is reported as not using any. */
  lemma {:induction false} AcceptedMeansInline(s: Bytes)
    requires ScanStreams(s, [], 0).Ok?
    ensures UsesExternal(s).Ok? && !UsesExternal(s).value
    decreases |s|
  {
    hide ScanPackInfo, ScanUnpackInfo, ScanSubstreams, SizedBlock, ParseDeclaration;
    if s[0] != END {
      if s[0] == UNPACK_INFO {
        UnpackWithoutExternalIsInline(s);
      } else {
        AcceptedMeansInline(ScanSection(s, [], 0).rest);
      }
    }
  }

  /** Every folder table met in walking the descriptor with the external data is inline. */
  ghost predicate AllInline(s: Bytes, external: seq<Bytes>, folders: u64)
    decreases |s|
  {
    Tag(s).Ok? && s[0] != END ==>
      && (s[0] == UNPACK_INFO ==> IsInline(s))
      && var next := ScanSection(s, external, folders);
      && (next.Ok? ==> AllInline(next.rest, external, next.value))
  }

  /** A descriptor that scans with external data scans without exactly when all its tables are inline. */
  lemma {:induction false} ScansAloneIffAllInline(s: Bytes, external: seq<Bytes>, folders: u64)
    requires ScanStreams(s, external, folders).Ok?
    ensures ScanStreams(s, [], folders).Ok? <==> AllInline(s, external, folders)
    decreases |s|
  {
    hide ScanPackInfo, ScanUnpackInfo, ScanSubstreams, SizedBlock, IsInline;
    if s[0] != END {
      if s[0] == UNPACK_INFO {
        ScansAloneIffInline(s, external);
      }
      var next := ScanSection(s, external, folders);
      ScansAloneIffAllInline(next.rest, external, next.value);
    }
  }

  /** Where a descriptor scans with some external data, the search for its first table does not fail. */
  lemma {:induction false} SearchSucceeds(s: Bytes, external: seq<Bytes>)
    requires ScanStreams(s, external, 0).Ok?
    ensures UsesExternal(s).Ok?
    decreases |s|
  {
    hide ScanPackInfo, ScanSubstreams, SizedBlock, FolderBlocks, ScanTable, ParseDeclaration;
    if s[0] != END && s[0] != UNPACK_INFO {
      SearchSucceeds(ScanSection(s, external, 0).rest, external);
    }
  }

  // ---------------------------------------------------------------- the loops of the source

  method ReadStreams(s: Bytes, external: seq<Bytes>) returns (r: ParseResult<StreamInfo>)
    ensures r == ParseStreams(s, external, NO_STREAMS)
  {
    hide ParseSection;
    var input, info := s, NO_STREAMS;
    while true
      invariant ParseStreams(s, external, NO_STREAMS) == ParseStreams(input, external, info)
      decreases |input|
    {
      var tag := Tag(input);
      if tag.Err? {
        return Err(tag.kind);
      }
      if tag.value == END {
        return Ok(tag.rest, info);
      }
      var next := ParseSection(input, external, info);
      if next.Err? {
        return Err(next.kind);
      }
      input, info := next.rest, next.value;
    }
  }

  method WalkStreams(s: Bytes, external: seq<Bytes>) returns (r: ParseResult<u64>)
    ensures r == ScanStreams(s, external, 0)
  {
    hide ScanSection;
    var input, folders: u64 := s, 0;
    while true
      invariant ScanStreams(s, external, 0) == ScanStreams(input, external, folders)
      decreases |input|
    {
      var tag := Tag(input);
      if tag.Err? {
        return Err(tag.kind);
      }
      if tag.value == END {
        return Ok(tag.rest, folders);
      }
      var next := ScanSection(input, external, folders);
      if next.Err? {
        return Err(next.kind);
      }
      input, folders := next.rest, next.value;
    }
  }

  method FindExternal(s: Bytes) returns (r: ParseResult<bool>)
    ensures r == UsesExternal(s)
  {
    hide ScanSection, ParseDeclaration;
    var input := s;
    while true
      invariant UsesExternal(s) == UsesExternal(input)
      decreases |input|
    {
      var tag := Tag(input);
      if tag.Err? {
        return Err(tag.kind);
      }
      if tag.value == END {
        return Ok(tag.rest, false);
      }
      if tag.value == UNPACK_INFO {
        var declared := ParseDeclaration(input);
        if declared.Err? {
          return Err(declared.kind);
        }
        return Ok(declared.rest, declared.value.location.External?);
      }
      var next := ScanSection(input, [], 0);
      if next.Err? {
        return Err(next.kind);
      }
      input := next.rest;
    }
  }
}
