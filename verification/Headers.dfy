/** The header scan: section ranges, suspension for external data, and lazy access afterwards. */
module Headers {
  import opened Wrappers
  import opened Words
  import opened Parsers
  import opened PackInfos
  import opened StreamInfos
  import opened FilesInfos

  datatype Span = Span(start: nat, end: nat)

  /** How far the scan has come and what it has found. */
  datatype ScanState = ScanState(
    position: nat, streams: Option<Span>, files: Option<Span>, additional: Option<Span>, numFiles: u64)

  /** A scanned header: the bytes, the ranges of its sections, and the external data it was given. */
  datatype Header = Header(data: Bytes, found: ScanState, external: seq<Bytes>)

  datatype Progress =
    | Complete(header: Header, consumed: nat)
    | Pending(scan: ScanState, needed: StreamInfo)

  // ---------------------------------------------------------------- sections

  /** Property identifiers here are variable-length integers. */
  function ScanArchiveProperties(s: Bytes): (r: ParseResult<()>)
    ensures r.Ok? ==> |r.rest| < |s|
    decreases |s|
  {
    var (input, id) :- DecodeVarint(s);
    VarintLocal(s, []);
    if id == END then Ok(input, ()) else
      var (rest, _) :- SizedBlock(input);
      ScanArchiveProperties(rest)
  }

  datatype Outcome = Next(scan: ScanState) | Done(consumed: nat) | Suspend(needed: StreamInfo)

  function Definitions(external: Option<seq<Bytes>>): seq<Bytes> {
    if external.Some? then external.value else []
  }

  /** A scan that needs external data stops where it is, provided the additional streams are known. */
  function SuspendAt(data: Bytes, scan: ScanState): Result<Outcome, R7zError> {
    if scan.additional.None? then Failure(Parse)
    else
      var span := scan.additional.value;
      if span.start > span.end || span.end > |data| then Failure(Parse) else
      match ParseStreams(data[span.start..span.end], [], NO_STREAMS)
      case Err(_) => Failure(Parse)
      case Ok(rest, needed) => if rest == [] then Success(Suspend(needed)) else Failure(Parse)
  }

  /** Positions of the section just scanned; both have to fit 32 bits. */
  function SpanOf(data: Bytes, from: Bytes, rest: Bytes): Result<Span, R7zError>
    requires |from| <= |data| && |rest| <= |data|
  {
    if |data| - |from| >= U32_LIMIT || |data| - |rest| >= U32_LIMIT then Failure(Parse)
    else Success(Span(|data| - |from|, |data| - |rest|))
  }

  function StreamsStep(data: Bytes, scan: ScanState, external: Option<seq<Bytes>>, main: bool, s: Bytes)
    : Result<Outcome, R7zError>
    requires |s| <= |data|
  {
    if main && external.None? && UsesExternal(s).Err? then Failure(Parse)
    else if main && external.None? && UsesExternal(s).value then SuspendAt(data, scan)
    else
      match ScanStreams(s, Definitions(external), 0)
      case Err(_) => Failure(Parse)
      case Ok(rest, _) =>
        var span :- SpanOf(data, s, rest);
        var next := scan.(position := |data| - |rest|);
        Success(Next(if main then next.(streams := Some(span)) else next.(additional := Some(span))))
  }

  function FilesStep(data: Bytes, scan: ScanState, external: Option<seq<Bytes>>, s: Bytes): Result<Outcome, R7zError>
    requires |s| <= |data|
  {
    match ScanFilesInfo(s)
    case Err(_) => Failure(Parse)
    case Ok(rest, (count, uses)) =>
      if external.None? && uses then SuspendAt(data, scan)
      else
        var span :- SpanOf(data, s, rest);
        Success(Next(scan.(position := |data| - |rest|, files := Some(span), numFiles := count)))
  }

  /** One section of the header. */
  function Step(data: Bytes, scan: ScanState, external: Option<seq<Bytes>>): (r: Result<Outcome, R7zError>)
    requires scan.position <= |data|
    ensures r.Success? && r.value.Next? ==> scan.position < r.value.scan.position <= |data|
  {
    var s := data[scan.position..];
    match Tag(s)
    case Err(_) => Failure(Parse)
    case Ok(input, tag) =>
      if tag == END then Success(Done(|data| - |input|))
      else if tag == MAIN_STREAMS_INFO || tag == ADDITIONAL_STREAMS_INFO then
        StreamsStep(data, scan, external, tag == MAIN_STREAMS_INFO, input)
      else if tag == FILES_INFO then FilesStep(data, scan, external, s)
      else
        var skipped := if tag == ARCHIVE_PROPERTIES then Extent(ScanArchiveProperties(input))
                       else Extent(SizedBlock(input));
        if skipped.None? then Failure(Parse)
        else Success(Next(scan.(position := |data| - skipped.value)))
  }

  /** The number of bytes left after an accepted block. */
  function Extent<T>(r: ParseResult<T>): Option<nat> {
    if r.Ok? then Some(|r.rest|) else None
  }

  /** Sections until the end tag or until external data is needed. */
  function Advance(data: Bytes, scan: ScanState, external: Option<seq<Bytes>>): (r: Result<Progress, R7zError>)
    requires scan.position <= |data|
    ensures r.Success? && r.value.Pending? ==> external.None? && r.value.scan.position <= |data|
    decreases |data| - scan.position
  {
    var outcome :- Step(data, scan, external);
    match outcome
    case Next(next) => Advance(data, next, external)
    case Done(consumed) => Success(Complete(Header(data, scan, Definitions(external)), consumed))
    case Suspend(needed) => Success(Pending(scan, needed))
  }

  function Begin(data: Bytes): (r: Result<ScanState, R7zError>)
    ensures r.Success? ==> r.value.position <= |data|
  {
    match Tag(data)
    case Err(_) => Failure(Parse)
    case Ok(_, tag) => if tag == HEADER then Success(ScanState(1, None, None, None, 0)) else Failure(Parse)
  }

  function Scan(data: Bytes, external: Option<seq<Bytes>>): Result<Progress, R7zError> {
    var scan :- Begin(data);
    Advance(data, scan, external)
  }

  /** A resolution has to end exactly where the data ends. */
  function CompleteExact(progress: Progress): Result<Header, R7zError> {
    if progress.Complete? && progress.consumed == |progress.header.data| then Success(progress.header)
    else Failure(Parse)
  }

  // ---------------------------------------------------------------- suspension

  /** A step that succeeds without external data is the same step with any. */
  lemma StepUnaffected(data: Bytes, scan: ScanState, external: seq<Bytes>)
    requires scan.position <= |data|
    requires Step(data, scan, None).Success? && !Step(data, scan, None).value.Suspend?
    ensures Step(data, scan, Some(external)) == Step(data, scan, None)
  {
    hide ScanStreams, ScanFilesInfo, UsesExternal, ParseStreams, SizedBlock, ScanArchiveProperties;
    var s := data[scan.position..];
    if s[0] == MAIN_STREAMS_INFO || s[0] == ADDITIONAL_STREAMS_INFO {
      ScanWithoutExternal(s[1..], external, 0);
    }
  }

  /**
   * Resuming a suspended scan with external data is the same as scanning from the start with it: the
   * same header, the same end, or the same error.
   */
  lemma {:induction false} ResumeIsRestart(data: Bytes, scan: ScanState, external: seq<Bytes>)
    requires scan.position <= |data|
    requires Advance(data, scan, None).Success? && Advance(data, scan, None).value.Pending?
    ensures Advance(data, Advance(data, scan, None).value.scan, Some(external)) == Advance(data, scan, Some(external))
    decreases |data| - scan.position
  {
    hide Step;
    var outcome := Step(data, scan, None).value;
    if outcome.Next? {
      StepUnaffected(data, scan, external);
      ResumeIsRestart(data, outcome.scan, external);
    }
  }

  /** A scan that completes without external data finds the same sections with any. */
  lemma {:induction false} CompleteWithoutExternal(data: Bytes, scan: ScanState, external: seq<Bytes>)
    requires scan.position <= |data|
    requires Advance(data, scan, None).Success? && Advance(data, scan, None).value.Complete?
    ensures var direct := Advance(data, scan, None).value;
      Advance(data, scan, Some(external))
      == Success(Complete(direct.header.(external := external), direct.consumed))
    decreases |data| - scan.position
  {
    hide Step;
    var outcome := Step(data, scan, None).value;
    StepUnaffected(data, scan, external);
    if outcome.Next? {
      CompleteWithoutExternal(data, outcome.scan, external);
    }
  }

  lemma EmptyInlineTable(rest: Bytes, external: seq<Bytes>)
    ensures ParseDeclaration([UNPACK_INFO, FOLDER, 0, 0, END] + rest) == Ok([END] + rest, Declaration(0, Inline))
    ensures ScanUnpackInfo([UNPACK_INFO, FOLDER, 0, 0, END] + rest, external) == Ok(rest, 0)
  {
    hide DecodeVarint;
    var s := [UNPACK_INFO, FOLDER, 0, 0, END] + rest;
    OneByteInteger(0, [0, END] + rest);
    assert s[1..] == [FOLDER] + ([0] + ([0, END] + rest)) && s[1..][1..] == [0] + ([0, END] + rest);
    assert ([0, END] + rest)[1..] == [END] + rest && ([END] + rest)[1..] == rest;
  }

  lemma EmptyExternalTable(rest: Bytes)
    ensures ScanUnpackInfo([UNPACK_INFO, FOLDER, 0, 1, 0, END] + rest, []) == Err(Eof)
    ensures ScanUnpackInfo([UNPACK_INFO, FOLDER, 0, 1, 0, END] + rest, [[]]) == Ok(rest, 0)
  {
    hide DecodeVarint;
    var s := [UNPACK_INFO, FOLDER, 0, 1, 0, END] + rest;
    OneByteInteger(0, [1, 0, END] + rest);
    OneByteInteger(0, [END] + rest);
    assert s[1..] == [FOLDER] + ([0] + ([1, 0, END] + rest)) && s[1..][1..] == [0] + ([1, 0, END] + rest);
    assert ([1, 0, END] + rest)[1..] == [0] + ([END] + rest) && ([END] + rest)[1..] == rest;
  }

  /** Two folder tables without folders, of which only the second is external. */
  function TwoTables(): Bytes {
    [UNPACK_INFO, FOLDER, 0, 0, END] + ([UNPACK_INFO, FOLDER, 0, 1, 0, END] + [END, END])
  }

  lemma TwoTablesScan()
    ensures |TwoTables()| < 100 && TwoTables()[|TwoTables()| - 1] == END
    ensures UsesExternal(TwoTables()).Ok? && !UsesExternal(TwoTables()).value
    ensures ScanStreams(TwoTables(), [], 0) == Err(Eof) && ScanStreams(TwoTables(), [[]], 0) == Ok([END], 0)
  {
    hide ScanUnpackInfo, ParseDeclaration;
    var second := [UNPACK_INFO, FOLDER, 0, 1, 0, END] + [END, END];
    EmptyInlineTable(second, []);
    EmptyInlineTable(second, [[]]);
    EmptyExternalTable([END, END]);
    assert second[0] == UNPACK_INFO && [END, END][1..] == [END];
    assert ScanSection(second, [[]], 0) == Ok([END, END], 0);
    assert ScanSection(second, [], 0) == Err(Eof);
    assert ScanStreams(second, [[]], 0) == Ok([END], 0);
    assert ScanStreams(second, [], 0) == Err(Eof);
  }

  /**
   * There is no converse: a header that completes with external data need not be accepted without it.
   * Here the first table of the main streams is inline, so the scan is not suspended, and fails at the
   * second. ResolvableIffSupplied says which headers fail.
   */
  lemma OnlyTheFirstTableSuspends()
    ensures var data := [HEADER, MAIN_STREAMS_INFO] + TwoTables();
      && Scan(data, None) == Failure(Parse)
      && Scan(data, Some([[]])).Success?
      && CompleteExact(Scan(data, Some([[]])).value).Success?
  {
    hide ScanStreams, UsesExternal, TwoTables;
    var data := [HEADER, MAIN_STREAMS_INFO] + TwoTables();
    TwoTablesScan();
    var begun := ScanState(1, None, None, None, 0);
    assert data[1..] == [MAIN_STREAMS_INFO] + TwoTables() && data[1..][1..] == TwoTables();
    var after := begun.(position := |data| - 1, streams := Some(Span(2, |data| - 1)));
    assert Step(data, begun, Some([[]])) == Success(Next(after));
    assert data[after.position..] == [END];
    assert Step(data, after, Some([[]])) == Success(Done(|data|));
    assert Advance(data, after, Some([[]])) == Success(Complete(Header(data, after, [[]]), |data|));
    assert Advance(data, begun, Some([[]])) == Advance(data, after, Some([[]]));
  }

  // ---------------------------------------------------------------- what the ranges mean

  /** A range is exactly one accepted streams descriptor. */
  ghost predicate StreamsSpan(data: Bytes, span: Span, external: seq<Bytes>) {
    && span.start <= span.end <= |data| && span.end < U32_LIMIT
    && ScanStreams(data[span.start..], external, 0).Ok?
    && |ScanStreams(data[span.start..], external, 0).rest| == |data| - span.end
  }

  ghost predicate FilesSpan(data: Bytes, span: Span, numFiles: u64) {
    && span.start <= span.end <= |data| && span.end < U32_LIMIT
    && ScanFilesInfo(data[span.start..]).Ok?
    && |ScanFilesInfo(data[span.start..]).rest| == |data| - span.end
    && ScanFilesInfo(data[span.start..]).value.0 == numFiles
  }

  ghost predicate Located(data: Bytes, scan: ScanState, external: seq<Bytes>) {
    && scan.position <= |data|
    && (scan.streams.Some? ==> StreamsSpan(data, scan.streams.value, external))
    && (scan.additional.Some? ==> StreamsSpan(data, scan.additional.value, external))
    && (scan.files.Some? ==> FilesSpan(data, scan.files.value, scan.numFiles))
  }

  lemma StepLocates(data: Bytes, scan: ScanState, external: Option<seq<Bytes>>)
    requires Located(data, scan, Definitions(external))
    requires Step(data, scan, external).Success? && Step(data, scan, external).value.Next?
    ensures Located(data, Step(data, scan, external).value.scan, Definitions(external))
  {
    hide ScanStreams, ScanFilesInfo, UsesExternal, ParseStreams, SizedBlock, ScanArchiveProperties;
    var s := data[scan.position..];
    if s[0] == MAIN_STREAMS_INFO || s[0] == ADDITIONAL_STREAMS_INFO {
      var rest := ScanStreams(s[1..], Definitions(external), 0).rest;
      assert data[|data| - |s[1..]|..] == s[1..];
    } else if s[0] == FILES_INFO {
      assert data[|data| - |s|..] == s;
    }
  }

  lemma {:induction false} AdvanceLocates(data: Bytes, scan: ScanState, external: Option<seq<Bytes>>)
    requires Located(data, scan, Definitions(external)) && Advance(data, scan, external).Success?
    ensures var progress := Advance(data, scan, external).value;
      match progress
      case Complete(header, _) =>
        Located(data, header.found, header.external) && header.external == Definitions(external)
      case Pending(next, _) => Located(data, next, [])
    decreases |data| - scan.position
  {
    hide Step, StreamsSpan, FilesSpan;
    var outcome := Step(data, scan, external).value;
    if outcome.Next? {
      StepLocates(data, scan, external);
      AdvanceLocates(data, outcome.scan, external);
    }
  }

  /** Every range of a completed scan is exactly one accepted section. */
  lemma ScanLocates(data: Bytes, external: Option<seq<Bytes>>)
    requires Scan(data, external).Success? && Scan(data, external).value.Complete?
    ensures var header := Scan(data, external).value.header;
      header.data == data && header.external == Definitions(external) && Located(data, header.found, header.external)
  {
    hide Advance;
    AdvanceLocates(data, Begin(data).value, external);
    CompleteKeepsData(data, Begin(data).value, external);
  }

  lemma {:induction false} CompleteKeepsData(data: Bytes, scan: ScanState, external: Option<seq<Bytes>>)
    requires scan.position <= |data|
    ensures Advance(data, scan, external).Success? && Advance(data, scan, external).value.Complete?
      ==> Advance(data, scan, external).value.header.data == data
    decreases |data| - scan.position
  {
    hide Step;
    var outcome := Step(data, scan, external);
    if outcome.Success? && outcome.value.Next? {
      CompleteKeepsData(data, outcome.value.scan, external);
    }
  }

  lemma SpanIsEaten(data: Bytes, start: nat, rest: Bytes)
    requires start <= |data| && SuffixOf(rest, data[start..])
    ensures data[start..|data| - |rest|] == Eaten(data[start..], rest)
  {
  }

  // ---------------------------------------------------------------- which scans need no external data

  /** Without external data the scan stops at this section instead of scanning it. */
  predicate Suspends(s: Bytes)
    requires s != []
  {
    || (s[0] == MAIN_STREAMS_INFO && UsesExternal(s[1..]).Ok? && UsesExternal(s[1..]).value)
    || (s[0] == FILES_INFO && ScanFilesInfo(s).Ok? && ScanFilesInfo(s).value.1)
  }

  ghost predicate TablesInline(s: Bytes, external: seq<Bytes>)
    requires s != []
  {
    s[0] == MAIN_STREAMS_INFO || s[0] == ADDITIONAL_STREAMS_INFO ==> AllInline(s[1..], external, 0)
  }

  /**
   * The sections met with the external data, up to the first one that suspends, have inline tables only,
   * and a section that suspends comes after additional streams.
   */
  ghost predicate Supplied(data: Bytes, scan: ScanState, external: seq<Bytes>)
    requires scan.position <= |data|
    decreases |data| - scan.position
  {
    var s := data[scan.position..];
    s != [] ==>
      if Suspends(s) then scan.additional.Some?
      else
        && TablesInline(s, external)
        && var outcome := Step(data, scan, Some(external));
        && (outcome.Success? && outcome.value.Next? ==> Supplied(data, outcome.value.scan, external))
  }

  /** A scan that knows its additional streams can always name what it needs. */
  lemma SuspensionSucceeds(data: Bytes, scan: ScanState)
    requires Located(data, scan, []) && |data| < U64_LIMIT
    ensures SuspendAt(data, scan).Success? <==> scan.additional.Some?
    ensures SuspendAt(data, scan).Success? ==> SuspendAt(data, scan).value.Suspend?
  {
    hide ScanStreams, ParseStreams, FilesSpan;
    if scan.additional.Some? {
      var start := scan.additional.value.start;
      LazyStreamsNeverFail(data[start..], []);
      SpanIsEaten(data, start, ScanStreams(data[start..], [], 0).rest);
    }
  }

  /** One section: without external data it is passed alike, suspends, or fails. */
  lemma StepAlone(data: Bytes, scan: ScanState, external: seq<Bytes>)
    requires Located(data, scan, []) && |data| < U64_LIMIT
    requires Step(data, scan, Some(external)).Success?
    ensures var s := data[scan.position..];
      && s != []
      && (Suspends(s) ==> (Step(data, scan, None).Success? <==> scan.additional.Some?))
      && (Suspends(s) && Step(data, scan, None).Success? ==> Step(data, scan, None).value.Suspend?)
      && (!Suspends(s) && TablesInline(s, external) ==> Step(data, scan, None) == Step(data, scan, Some(external)))
      && (!Suspends(s) && !TablesInline(s, external) ==> Step(data, scan, None).Failure?)
  {
    hide ScanStreams, ScanFilesInfo, UsesExternal, SizedBlock, ScanArchiveProperties, AllInline, SuspendAt,
      StreamsSpan, FilesSpan;
    var s := data[scan.position..];
    SuspensionSucceeds(data, scan);
    if s[0] == MAIN_STREAMS_INFO || s[0] == ADDITIONAL_STREAMS_INFO {
      SearchSucceeds(s[1..], external);
      ScansAloneIffAllInline(s[1..], external, 0);
      if ScanStreams(s[1..], [], 0).Ok? {
        ScanWithoutExternal(s[1..], external, 0);
      }
    }
  }

  /**
   * Which headers that scan with external data are accepted without it, complete or suspended. With
   * ResumeIsRestart: exactly these can be resolved.
   */
  lemma {:induction false} AcceptedIffSupplied(data: Bytes, scan: ScanState, external: seq<Bytes>)
    requires Located(data, scan, []) && |data| < U64_LIMIT
    requires Advance(data, scan, Some(external)).Success?
    ensures Advance(data, scan, None).Success? <==> Supplied(data, scan, external)
    decreases |data| - scan.position
  {
    hide Step, Suspends, TablesInline;
    StepAlone(data, scan, external);
    var alone := Step(data, scan, None);
    if alone.Success? && alone.value.Next? {
      StepLocates(data, scan, None);
      AcceptedIffSupplied(data, alone.value.scan, external);
    }
  }

  /** From the start: a header that can be resolved with some external data is found to need it, or not. */
  lemma ResolvableIffSupplied(data: Bytes, external: seq<Bytes>)
    requires Scan(data, Some(external)).Success? && |data| < U64_LIMIT
    ensures Scan(data, None).Success? <==> Supplied(data, Begin(data).value, external)
  {
    hide Advance, Supplied;
    AcceptedIffSupplied(data, Begin(data).value, external);
  }

  // ---------------------------------------------------------------- lazy access

  /** The streams descriptor, parsed from its own range on first access. */
  function TryStreams(header: Header): Result<Option<StreamInfo>, R7zError> {
    if header.found.streams.None? then Success(None)
    else
      var span := header.found.streams.value;
      if span.start > span.end || span.end > |header.data| then Failure(Parse) else
      match ParseStreams(header.data[span.start..span.end], header.external, NO_STREAMS)
      case Err(_) => Failure(Parse)
      case Ok(rest, streams) => if rest == [] then Success(Some(streams)) else Failure(Parse)
  }

  /** The file listing, parsed from its own range on first access. */
  function TryFiles(header: Header): Result<Option<FilesInfo>, R7zError> {
    if header.found.files.None? then Success(None)
    else
      var span := header.found.files.value;
      if span.start > span.end || span.end > |header.data| then Failure(Parse) else
      match ParseFilesInfo(header.data[span.start..span.end], header.external)
      case Err(_) => Failure(Parse)
      case Ok(rest, files) =>
        if rest == [] && files.numFiles == header.found.numFiles then Success(Some(files)) else Failure(Parse)
  }

  /** The descriptor as it parses in place, without a bound on its end. */
  function StreamsInPlace(header: Header): ParseResult<StreamInfo> {
    if header.found.streams.Some? && header.found.streams.value.start <= |header.data|
    then ParseStreams(header.data[header.found.streams.value.start..], header.external, NO_STREAMS)
    else Err(Eof)
  }

  /** After a completed scan, access to the streams descriptor cannot fail. */
  lemma StreamsAccessNeverFails(header: Header)
    requires Located(header.data, header.found, header.external)
    requires |header.data| < U64_LIMIT && Addressable(header.external)
    ensures header.found.streams.None? ==> TryStreams(header) == Success(None)
    ensures header.found.streams.Some?
      ==> StreamsInPlace(header).Ok? && TryStreams(header) == Success(Some(StreamsInPlace(header).value))
  {
    hide ScanStreams, ParseStreams;
    if header.found.streams.Some? {
      var start := header.found.streams.value.start;
      LazyStreamsNeverFail(header.data[start..], header.external);
      SpanIsEaten(header.data, start, ScanStreams(header.data[start..], header.external, 0).rest);
    }
  }

  /** Access to the listing succeeds exactly when the listing parses in place, and then gives the same. */
  lemma FilesAccessIsParsing(header: Header)
    requires Located(header.data, header.found, header.external) && header.found.files.Some?
    ensures var parsed := ParseFilesInfo(header.data[header.found.files.value.start..], header.external);
      TryFiles(header) == if parsed.Ok? then Success(Some(parsed.value)) else Failure(Parse)
  {
    hide ScanFilesInfo, ParseFilesInfo;
    var span, data, external := header.found.files.value, header.data, header.external;
    var s, block := data[span.start..], data[span.start..span.end];
    var lazy := ParseFilesInfo(block, external);
    assert s == block + data[span.end..] && Eaten(block, []) == block;
    if ParseFilesInfo(s, external).Ok? {
      ParsedFilesScan(s, external);
      FilesLocal(s, external, []);
      SpanIsEaten(data, span.start, ParseFilesInfo(s, external).rest);
      assert block + [] == block;
    } else if lazy.Ok? && lazy.rest == [] {
      FilesLocal(block, external, data[span.end..]);
      assert false;
    }
  }

  // ---------------------------------------------------------------- the scan of the source

  /** A scan in progress. */
  class HeaderScan {
    const data: Bytes
    var position: nat
    var streams: Option<Span>
    var files: Option<Span>
    var additional: Option<Span>
    var numFiles: u64

    ghost predicate Valid()
      reads this
    {
      position <= |data|
    }

    function State(): ScanState
      reads this
    {
      ScanState(position, streams, files, additional, numFiles)
    }

    constructor (data: Bytes)
      requires Begin(data).Success?
      ensures Valid() && this.data == data && Success(State()) == Begin(data)
    {
      this.data, position, numFiles := data, 1, 0;
      streams, files, additional := None, None, None;
    }

    method Adopt(scan: ScanState)
      modifies this
      ensures State() == scan
    {
      position, streams, files := scan.position, scan.streams, scan.files;
      additional, numFiles := scan.additional, scan.numFiles;
    }

    /** On suspension the scan itself stays where it stopped and can be resumed. */
    method Run(external: Option<seq<Bytes>>) returns (r: Result<Progress, R7zError>)
      requires Valid()
      modifies this
      ensures Valid() && r == Advance(data, old(State()), external)
      ensures r.Success? && r.value.Pending? ==> State() == r.value.scan
    {
      hide Step;
      while true
        invariant Valid() && Advance(data, old(State()), external) == Advance(data, State(), external)
        decreases |data| - position
      {
        var outcome := Step(data, State(), external);
        match outcome {
          case Failure(error) =>
            return Failure(error);
          case Success(Done(consumed)) =>
            return Success(Complete(Header(data, State(), Definitions(external)), consumed));
          case Success(Suspend(needed)) =>
            return Success(Pending(State(), needed));
          case Success(Next(next)) =>
            Adopt(next);
        }
      }
    }
  }

  /** Without additional data the archive header is complete, or names the streams it needs first. */
  method ResolveArchive(data: Bytes) returns (r: Result<Progress, R7zError>, scan: HeaderScan?)
    ensures r == ExactOrPending(Scan(data, None))
    ensures r.Success? && r.value.Pending?
      ==> scan != null && fresh(scan) && scan.Valid() && scan.data == data && scan.State() == r.value.scan
  {
    hide Advance;
    scan := null;
    if Begin(data).Failure? {
      return Failure(Parse), null;
    }
    scan := new HeaderScan(data);
    r := scan.Run(None);
    if r.Success? && r.value.Complete? && r.value.consumed != |r.value.header.data| {
      r := Failure(Parse);
    }
  }

  function ExactOrPending(progress: Result<Progress, R7zError>): Result<Progress, R7zError> {
    if progress.Success? && progress.value.Complete? && progress.value.consumed != |progress.value.header.data|
    then Failure(Parse) else progress
  }

  /** Resuming a suspended archive header gives what a scan from the start would have given. */
  method ResolveWith(scan: HeaderScan, external: seq<Bytes>) returns (r: Result<Header, R7zError>)
    requires scan.Valid() && Scan(scan.data, None).Success? && Scan(scan.data, None).value.Pending?
    requires scan.State() == Scan(scan.data, None).value.scan
    modifies scan
    ensures var restart := Scan(scan.data, Some(external));
      r == if restart.Success? then CompleteExact(restart.value) else Failure(restart.error)
  {
    hide Advance;
    ResumeIsRestart(scan.data, Begin(scan.data).value, external);
    var progress := scan.Run(Some(external));
    if progress.Failure? {
      return Failure(progress.error);
    }
    r := CompleteExact(progress.value);
  }
}
