/** The written header, scanned and accessed section by section. */
module HeaderRoundTrips {
  import opened Wrappers
  import opened Words
  import opened Parsers
  import opened PackInfos
  import opened StreamInfos
  import opened FilesInfos
  import opened Headers
  import opened HeaderWriter
  import opened StreamsRoundTrips
  import opened FilesRoundTrips

  /** What the writer's callers guarantee; counts are lengths of lists in memory. */
  ghost predicate IsWritable(entries: seq<WriteEntry>, folders: seq<CompletedFolder>) {
    && AllValidEntries(entries) && Listable(entries)
    && AllWellFormed(folders) && Countable(folders) && |FileCrcs(folders)| < U64_LIMIT
  }

  /** What the reader can take: section ranges of 32 bits and a bounded digest table. */
  predicate IsReadable(entries: seq<WriteEntry>, folders: seq<CompletedFolder>)
    requires Listable(entries) && Countable(folders)
  {
    |HeaderBytes(entries, folders)| <= U32_LIMIT && DigestsFit(FileCrcs(folders))
  }

  lemma FilesTag(entries: seq<WriteEntry>)
    requires Listable(entries)
    ensures FilesBytes(entries) != [] && FilesBytes(entries)[0] == FILES_INFO
  {
    hide EncodeVarint, EmptyBytes, Property, ValueProperty, Terminated, Fields;
  }

  // ---------------------------------------------------------------- no external data

  lemma ScanStep(tag: byte, block: Bytes, rest: Bytes, n: u64)
    requires |block| < U64_LIMIT && END < tag <= LAST_PROPERTY && !FlagsExternal(tag, block, n)
    ensures ScanProperties(Property(tag, block) + rest, n, false) == ScanProperties(rest, n, false)
  {
    hide EncodeVarint, SizedBlock, FlagsExternal;
    var s := Property(tag, block) + rest;
    assert s[1..] == EncodeVarint(|block|) + block + rest;
    SizedBlockRoundTrip(block, rest);
  }

  lemma BitmapScan(tag: byte, flags: seq<bool>, rest: Bytes, n: u64)
    requires |flags| < U64_LIMIT && (tag == EMPTY_FILE || tag == ANTI)
    ensures ScanProperties(BitmapProperty(tag, flags) + rest, n, false) == ScanProperties(rest, n, false)
  {
    hide ScanProperties, Property;
    if true in flags {
      ScanStep(tag, Digests.Bitmap(flags), rest, n);
    } else {
      assert BitmapProperty(tag, flags) + rest == rest;
    }
  }

  lemma EmptiesScan(entries: seq<WriteEntry>, rest: Bytes, n: u64)
    requires |entries| < U64_LIMIT
    ensures ScanProperties(EmptyBytes(entries) + rest, n, false) == ScanProperties(rest, n, false)
  {
    hide ScanProperties, Property, BitmapProperty, EmptiesOfKind, Empties;
    if true in Empties(entries) {
      var a := BitmapProperty(ANTI, EmptiesOfKind(entries, WriteAnti)) + rest;
      var b := BitmapProperty(EMPTY_FILE, EmptiesOfKind(entries, WriteFile)) + a;
      assert EmptyBytes(entries) + rest == Property(EMPTY_STREAM, Digests.Bitmap(Empties(entries))) + b;
      ScanStep(EMPTY_STREAM, Digests.Bitmap(Empties(entries)), b, n);
      BitmapScan(EMPTY_FILE, EmptiesOfKind(entries, WriteFile), a, n);
      BitmapScan(ANTI, EmptiesOfKind(entries, WriteAnti), rest, n);
    } else {
      assert EmptyBytes(entries) + rest == rest;
    }
  }

  lemma ValuesScan(tag: byte, values: seq<Option<nat>>, rest: Bytes, n: u64)
    requires IsDefinedProperty(tag) && n == |values| && |ValueBlock(values, WidthOf(tag))| < U64_LIMIT
    ensures ScanProperties(ValueProperty(tag, values) + rest, n, false) == ScanProperties(rest, n, false)
  {
    hide ScanProperties, Property, ValueBytes, Digests.Bitmap, Digests.AllDefined, Digests.Defined;
    if Digests.AnyDefined(values) {
      ScanStep(tag, ValueBlock(values, WidthOf(tag)), rest, n);
    } else {
      assert ValueProperty(tag, values) + rest == rest;
    }
  }

  lemma ScanEnd(n: u64, rest: Bytes)
    ensures ScanProperties([END] + rest, n, false) == Ok(rest, false)
  {
    assert ([END] + rest)[1..] == rest;
  }

  lemma FieldScan(tag: byte, entries: seq<WriteEntry>, rest: Bytes, n: u64)
    requires IsDefinedProperty(tag) && n == |entries| && Listable(entries)
    ensures ScanProperties(ValueProperty(tag, Fields(tag, entries)) + rest, n, false) == ScanProperties(rest, n, false)
  {
    hide ScanProperties, ValueProperty, ValueBlock;
    ValuesScan(tag, Fields(tag, entries), rest, n);
  }

  lemma AllFieldsScan(entries: seq<WriteEntry>, rest: Bytes, n: u64)
    requires Listable(entries) && n == |entries|
    ensures ScanProperties(FieldsBytes(entries) + rest, n, false) == ScanProperties(rest, n, false)
  {
    hide ScanProperties, ValueProperty, Fields, ValueBlock;
    var a := ValueProperty(ATTRIBUTES, Fields(ATTRIBUTES, entries)) + rest;
    var b := ValueProperty(START_POS, Fields(START_POS, entries)) + a;
    var c := ValueProperty(M_TIME, Fields(M_TIME, entries)) + b;
    var d := ValueProperty(A_TIME, Fields(A_TIME, entries)) + c;
    assert FieldsBytes(entries) + rest == ValueProperty(C_TIME, Fields(C_TIME, entries)) + d;
    FieldScan(C_TIME, entries, d, n);
    FieldScan(A_TIME, entries, c, n);
    FieldScan(M_TIME, entries, b, n);
    FieldScan(START_POS, entries, a, n);
    FieldScan(ATTRIBUTES, entries, rest, n);
  }

  lemma NamesScan(entries: seq<WriteEntry>, rest: Bytes, n: u64)
    requires Listable(entries)
    ensures ScanProperties(Property(NAME, [0] + Terminated(Names(entries))) + rest, n, false)
         == ScanProperties(rest, n, false)
  {
    hide ScanProperties, Property, Terminated;
    ScanStep(NAME, [0] + Terminated(Names(entries)), rest, n);
  }

  /** The written listing is accepted by the scanner and refers to no external data. */
  lemma WrittenFilesScan(entries: seq<WriteEntry>, rest: Bytes)
    requires Listable(entries)
    ensures ScanFilesInfo(FilesBytes(entries) + rest) == Ok(rest, (|entries|, false))
  {
    hide EncodeVarint, ParseFileCount, ScanProperties, EmptyBytes, Property, ValueProperty, Terminated, Fields,
      ValueBlock;
    var n: u64 := |entries|;
    var a := [END] + rest;
    var b := FieldsBytes(entries) + a;
    var c := Property(NAME, [0] + Terminated(Names(entries))) + b;
    var d := EmptyBytes(entries) + c;
    assert FilesBytes(entries) + rest == [FILES_INFO] + (EncodeVarint(n) + d);
    FileCountRoundTrip(n, d);
    EmptiesScan(entries, c, n);
    NamesScan(entries, b, n);
    AllFieldsScan(entries, a, n);
    ScanEnd(n, rest);
  }

  // ---------------------------------------------------------------- the header

  /** The sections of a written header. */
  function WrittenScan(entries: seq<WriteEntry>, folders: seq<CompletedFolder>): ScanState
    requires Listable(entries) && Countable(folders)
  {
    var size := |HeaderBytes(entries, folders)|;
    var files := size - 1 - |FilesBytes(entries)|;
    var streams := if folders == [] then None else Some(Span(2, files));
    ScanState(size - 1, streams, Some(Span(files, size - 1)), None, |entries|)
  }

  lemma WrittenStreamsScan(folders: seq<CompletedFolder>, rest: Bytes)
    requires AllWellFormed(folders) && WithinLimits(folders) && DigestsFit(FileCrcs(folders))
    requires |StreamsBytes(folders) + rest| < U32_LIMIT
    ensures ScanStreams(StreamsBytes(folders) + rest, [], 0).Ok?
    ensures ScanStreams(StreamsBytes(folders) + rest, [], 0).rest == rest
    ensures UsesExternal(StreamsBytes(folders) + rest).Ok? && !UsesExternal(StreamsBytes(folders) + rest).value
  {
    hide ScanStreams, ParseStreams, UsesExternal, StreamsBytes, WrittenStreams, DigestsFit;
    var s := StreamsBytes(folders) + rest;
    StreamsRoundTrip(folders, [], rest);
    StreamsAgree(s, [], NO_STREAMS);
    AcceptedMeansInline(s);
  }

  lemma StreamsStepTaken(data: Bytes, s: Bytes, rest: Bytes, scan: ScanState)
    requires |rest| <= |s| <= |data| && |data| - |rest| < U32_LIMIT
    requires UsesExternal(s).Ok? && !UsesExternal(s).value
    requires ScanStreams(s, [], 0).Ok? && ScanStreams(s, [], 0).rest == rest
    ensures Headers.StreamsStep(data, scan, None, true, s)
         == Success(Next(scan.(position := |data| - |rest|, streams := Some(Span(|data| - |s|, |data| - |rest|)))))
  {
    hide ScanStreams, UsesExternal;
  }

  lemma StreamsSectionStep(data: Bytes, folders: seq<CompletedFolder>, rest: Bytes, scan: ScanState)
    requires AllWellFormed(folders) && WithinLimits(folders) && DigestsFit(FileCrcs(folders))
    requires |data| <= U32_LIMIT && rest != [] && scan.position <= |data|
    requires data[scan.position..] == [MAIN_STREAMS_INFO] + (StreamsBytes(folders) + rest)
    ensures Step(data, scan, None) == Success(Next(scan.(position := |data| - |rest|,
      streams := Some(Span(scan.position + 1, |data| - |rest|)))))
  {
    hide Headers.StreamsStep, StreamsBytes, ScanStreams, UsesExternal, AllWellFormed, DigestsFit;
    var s := StreamsBytes(folders) + rest;
    assert ([MAIN_STREAMS_INFO] + s)[1..] == s && |data| - |s| == scan.position + 1;
    WrittenStreamsScan(folders, rest);
    StreamsStepTaken(data, s, rest, scan);
  }

  lemma FilesSectionStep(data: Bytes, entries: seq<WriteEntry>, rest: Bytes, scan: ScanState)
    requires Listable(entries) && |data| - |rest| < U32_LIMIT && scan.position <= |data|
    requires data[scan.position..] == FilesBytes(entries) + rest
    ensures Step(data, scan, None) == Success(Next(scan.(position := |data| - |rest|,
      files := Some(Span(scan.position, |data| - |rest|)), numFiles := |entries|)))
  {
    hide ScanFilesInfo, FilesBytes;
    FilesTag(entries);
    WrittenFilesScan(entries, rest);
  }

  lemma EndStep(data: Bytes, scan: ScanState)
    requires scan.position + 1 == |data| && data[scan.position] == END
    ensures Advance(data, scan, None) == Success(Complete(Header(data, scan, []), |data|))
  {
    assert data[scan.position..] == [END];
  }

  lemma AdvanceStep(data: Bytes, scan: ScanState, next: ScanState)
    requires scan.position <= |data| && Step(data, scan, None) == Success(Next(next))
    ensures Advance(data, scan, None) == Advance(data, next, None)
  {
    hide Step;
  }

  /** A readable header has tables within the limits, since it contains them. */
  lemma ReadableIsWithinLimits(entries: seq<WriteEntry>, folders: seq<CompletedFolder>)
    requires IsWritable(entries, folders) && |HeaderBytes(entries, folders)| <= U32_LIMIT
    ensures WithinLimits(folders)
  {
    hide EncodeMany, EncodeVarint, FilesBytes, PackBytes, SubstreamBytes, CrcProperty, AllWellFormed, AllValidEntries;
    if folders == [] {
      assert CoderInfos(folders) == [] && CoderSizes(folders) == [];
    } else {
      ManyIsLongEnough(CoderSizes(folders));
    }
  }

  /** The written header resolves without external data, and exactly. */
  lemma HeaderResolves(entries: seq<WriteEntry>, folders: seq<CompletedFolder>)
    requires IsWritable(entries, folders) && IsReadable(entries, folders)
    ensures var data := HeaderBytes(entries, folders);
      Scan(data, None) == Success(Complete(Header(data, WrittenScan(entries, folders), []), |data|))
  {
    hide StreamsBytes, FilesBytes, Advance, Step, AllWellFormed, Countable, AllValidEntries, DigestsFit;
    ReadableIsWithinLimits(entries, folders);
    var data, files := HeaderBytes(entries, folders), FilesBytes(entries);
    var begun := ScanState(1, None, None, None, 0);
    assert data[0] == HEADER && data[|data| - 1] == END;
    var at := |data| - 1 - |files|;
    assert data[at..] == files + [END];
    var middle := begun;
    if folders != [] {
      assert data[1..] == [MAIN_STREAMS_INFO] + (StreamsBytes(folders) + (files + [END]));
      StreamsSectionStep(data, folders, files + [END], begun);
      middle := begun.(position := at, streams := Some(Span(2, at)));
      AdvanceStep(data, begun, middle);
    }
    FilesSectionStep(data, entries, [END], middle);
    AdvanceStep(data, middle, WrittenScan(entries, folders));
    EndStep(data, WrittenScan(entries, folders));
  }

  /** The scanned header gives access to exactly the streams descriptor and the listing that were written. */
  ghost predicate ReadsBack(entries: seq<WriteEntry>, folders: seq<CompletedFolder>)
    requires Listable(entries) && Countable(folders)
  {
    var header := Header(HeaderBytes(entries, folders), WrittenScan(entries, folders), []);
    && Scan(header.data, None) == Success(Complete(header, |header.data|))
    && TryStreams(header) == Success(if folders == [] then None else Some(WrittenStreams(folders)))
    && TryFiles(header) == Success(Some(WrittenFiles(entries)))
  }

  lemma StreamsAccess(entries: seq<WriteEntry>, folders: seq<CompletedFolder>)
    requires Listable(entries) && AllWellFormed(folders) && WithinLimits(folders)
    ensures TryStreams(Header(HeaderBytes(entries, folders), WrittenScan(entries, folders), []))
         == if folders == [] then Success(None)
            else if DigestsFit(FileCrcs(folders)) then Success(Some(WrittenStreams(folders))) else Failure(Parse)
  {
    hide StreamsBytes, FilesBytes, ParseStreams, WrittenStreams, AllWellFormed, Countable, DigestsFit;
    var data, files := HeaderBytes(entries, folders), FilesBytes(entries);
    if folders != [] {
      assert data[2..|data| - 1 - |files|] == StreamsBytes(folders);
      StreamsRoundTrip(folders, [], []);
      assert StreamsBytes(folders) + [] == StreamsBytes(folders);
    }
  }

  lemma FilesAccess(entries: seq<WriteEntry>, folders: seq<CompletedFolder>)
    requires Listable(entries) && AllValidEntries(entries) && Countable(folders)
    ensures TryFiles(Header(HeaderBytes(entries, folders), WrittenScan(entries, folders), []))
         == Success(Some(WrittenFiles(entries)))
  {
    hide StreamsBytes, FilesBytes, ParseFilesInfo, WrittenFiles, Countable, AllValidEntries;
    var data, files := HeaderBytes(entries, folders), FilesBytes(entries);
    assert data[|data| - 1 - |files|..|data| - 1] == files;
    FilesRoundTrip(entries, [], []);
    assert files + [] == files;
    FilesCount(entries);
  }

  /** Header round trip: what was written reads back exactly when the reader's limits allow it. */
  lemma HeaderRoundTrip(entries: seq<WriteEntry>, folders: seq<CompletedFolder>)
    requires IsWritable(entries, folders)
    ensures ReadsBack(entries, folders) <==> IsReadable(entries, folders)
  {
    hide HeaderBytes, TryStreams, TryFiles, Advance, AllWellFormed, AllValidEntries, Countable, Listable, DigestsFit,
      WithinLimits;
    var data := HeaderBytes(entries, folders);
    if IsReadable(entries, folders) {
      HeaderResolves(entries, folders);
    }
    if ReadsBack(entries, folders) {
      ScanLocates(data, None);
    }
    if |data| <= U32_LIMIT {
      ReadableIsWithinLimits(entries, folders);
      StreamsAccess(entries, folders);
      FilesAccess(entries, folders);
      NothingToDigest(folders);
    }
  }

  lemma NothingToDigest(folders: seq<CompletedFolder>)
    ensures folders == [] ==> DigestsFit(FileCrcs(folders))
  {
  }

  lemma FilesCount(entries: seq<WriteEntry>)
    requires |entries| < U64_LIMIT
    ensures WrittenFiles(entries).numFiles == |entries|
  {
    hide WrittenBitmap, WrittenValues, Terminated, Ordinals, Fields;
  }

  /** Building a header and resolving it gives back what was written. */
  method WriteAndResolve(entries: seq<WriteEntry>, folders: seq<CompletedFolder>)
    returns (header: Bytes, resolved: Result<Progress, R7zError>)
    requires IsWritable(entries, folders) && IsReadable(entries, folders)
    ensures header == HeaderBytes(entries, folders)
    ensures resolved.Success? && resolved.value.Complete?
    ensures TryFiles(resolved.value.header) == Success(Some(WrittenFiles(entries)))
    ensures TryStreams(resolved.value.header)
         == Success(if folders == [] then None else Some(WrittenStreams(folders)))
  {
    hide HeaderBytes, TryStreams, TryFiles, Scan, WrittenStreams, WrittenFiles, WrittenScan, AllWellFormed,
      AllValidEntries, IsReadable;
    HeaderRoundTrip(entries, folders);
    header := BuildHeader(entries, folders);
    var scan;
    resolved, scan := ResolveArchive(header);
  }
}
