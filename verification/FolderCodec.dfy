/** Folder blocks: the allocating parser and the scanner that must agree with it. */
module FolderCodec {
  import opened Wrappers
  import opened Words
  import opened Folders
  import opened Parsers
  import Methods

  // ---------------------------------------------------------------- coders

  /** The flag byte packs the identifier length, the complex bit and the properties bit. */
  function IdSize(flags: byte): nat {
    LowBits(flags, 8, 4)
  }

  predicate IsComplex(flags: byte) {
    BitFrom(flags, 8, 3)
  }

  predicate HasProperties(flags: byte) {
    BitFrom(flags, 8, 2)
  }

  function ParseArity(s: Bytes, complex: bool): ParseResult<(u64, u64)> {
    if complex then
      var (input, ins) :- DecodeVarint(s);
      var (rest, outs) :- DecodeVarint(input);
      Ok(rest, (ins, outs))
    else Ok(s, (1, 1))
  }

  function ParseProperties(s: Bytes, present: bool): ParseResult<Option<Bytes>> {
    if present then
      var (rest, properties) :- SizedBlock(s);
      Ok(rest, Some(properties))
    else Ok(s, None)
  }

  function ParseCoderBody(s: Bytes, flags: byte): ParseResult<CoderInfo> {
    var (input, id) :- Take(s, IdSize(flags));
    var (input, arity) :- ParseArity(input, IsComplex(flags));
    var (rest, properties) :- ParseProperties(input, HasProperties(flags));
    Ok(rest, CoderInfo(id, arity.0, arity.1, properties))
  }

  /** The borrowed form and the owned form accept the same bytes: an identifier has at most 15. */
  function ParseCoder(s: Bytes): ParseResult<CoderInfo> {
    var (input, flags) :- Byte(s);
    ParseCoderBody(input, flags)
  }

  lemma ArityLocal(s: Bytes, complex: bool, tail: Bytes)
    requires ParseArity(s, complex).Ok?
    ensures var r := ParseArity(s, complex);
      SuffixOf(r.rest, s) && ParseArity(Eaten(s, r.rest) + tail, complex) == Ok(tail, r.value)
  {
    if complex {
      var ins, rest := DecodeVarint(s), ParseArity(s, complex).rest;
      VarintLocal(ins.rest, tail);
      VarintLocal(s, Eaten(ins.rest, rest) + tail);
      EatenTwice(s, ins.rest, rest, tail);
    } else {
      EatenNothing(s, tail);
    }
  }

  lemma PropertiesLocal(s: Bytes, present: bool, tail: Bytes)
    requires ParseProperties(s, present).Ok?
    ensures var r := ParseProperties(s, present);
      SuffixOf(r.rest, s) && ParseProperties(Eaten(s, r.rest) + tail, present) == Ok(tail, r.value)
  {
    if present {
      SizedBlockLocal(s, tail);
    } else {
      EatenNothing(s, tail);
    }
  }

  lemma CoderLocal(s: Bytes, tail: Bytes)
    requires ParseCoder(s).Ok?
    ensures var r := ParseCoder(s);
      SuffixOf(r.rest, s) && |r.rest| < |s| && ParseCoder(Eaten(s, r.rest) + tail) == Ok(tail, r.value)
  {
    var flags, body, rest := s[0], s[1..], ParseCoder(s).rest;
    var afterId := body[IdSize(flags)..];
    var afterArity := ParseArity(afterId, IsComplex(flags)).rest;
    PropertiesLocal(afterArity, HasProperties(flags), tail);
    ArityLocal(afterId, IsComplex(flags), Eaten(afterArity, rest) + tail);
    EatenTwice(afterId, afterArity, rest, tail);
    TakeLocal(body, IdSize(flags), Eaten(afterId, rest) + tail);
    EatenTwice(body, afterId, rest, tail);
    EatenCons(s, rest, tail);
  }

  // ---------------------------------------------------------------- stream counts

  datatype Counts = Counts(inputs: nat, outputs: nat) {
    /** Overflowing additions are past the limit as well. */
    function Add(coder: CoderInfo): Result<Counts, ErrorKind> {
      if inputs + coder.numInStreams > MAX_FOLDER_STREAMS || outputs + coder.numOutStreams > MAX_FOLDER_STREAMS
      then Failure(TooLarge)
      else Success(Counts(inputs + coder.numInStreams, outputs + coder.numOutStreams))
    }

    /** Bind pair count and packed stream count. */
    function Layout(): Result<(nat, nat), ErrorKind> {
      if outputs == 0 || inputs < outputs - 1 then Failure(Verify)
      else Success((outputs - 1, inputs - (outputs - 1)))
    }
  }

  /** A coder and the stream counts once it has been added. */
  datatype Counted = Counted(coder: CoderInfo, counts: Counts)

  /** The coders of a folder and the stream counts they add up to. */
  datatype CoderList = CoderList(coders: seq<CoderInfo>, counts: Counts)

  function CountCoder(s: Bytes, counts: Counts): ParseResult<Counted> {
    var (rest, coder) :- ParseCoder(s);
    match counts.Add(coder)
    case Failure(kind) => Err(kind)
    case Success(next) => Ok(rest, Counted(coder, next))
  }

  function ParseCoders(s: Bytes, n: nat, counts: Counts): ParseResult<CoderList>
    decreases n
  {
    if n == 0 then Ok(s, CoderList([], counts)) else
      var (input, first) :- CountCoder(s, counts);
      var (rest, more) :- ParseCoders(input, n - 1, first.counts);
      Ok(rest, CoderList([first.coder] + more.coders, more.counts))
  }

  function ScanCoders(s: Bytes, n: nat, counts: Counts): ParseResult<Counts>
    decreases n
  {
    if n == 0 then Ok(s, counts) else
      var (input, first) :- CountCoder(s, counts);
      ScanCoders(input, n - 1, first.counts)
  }

  /** A stream index below the limit. */
  function StreamIndex(s: Bytes, total: nat): ParseResult<u64> {
    var (rest, index) :- DecodeVarint(s);
    if index < total then Ok(rest, index) else Err(Verify)
  }

  function ParsePair(s: Bytes, counts: Counts): ParseResult<(u64, u64)> {
    var (input, to) :- StreamIndex(s, counts.inputs);
    var (rest, from) :- StreamIndex(input, counts.outputs);
    Ok(rest, (to, from))
  }

  function ParsePairs(s: Bytes, n: nat, counts: Counts): ParseResult<seq<(u64, u64)>>
    decreases n
  {
    if n == 0 then Ok(s, []) else
      var (input, pair) :- ParsePair(s, counts);
      var (rest, more) :- ParsePairs(input, n - 1, counts);
      Ok(rest, [pair] + more)
  }

  function ScanPairs(s: Bytes, n: nat, counts: Counts): ParseResult<()>
    decreases n
  {
    if n == 0 then Ok(s, ()) else
      var (input, _) :- ParsePair(s, counts);
      ScanPairs(input, n - 1, counts)
  }

  function ParseIndices(s: Bytes, n: nat, total: nat): ParseResult<seq<u64>>
    decreases n
  {
    if n == 0 then Ok(s, []) else
      var (input, index) :- StreamIndex(s, total);
      var (rest, more) :- ParseIndices(input, n - 1, total);
      Ok(rest, [index] + more)
  }

  function ScanIndices(s: Bytes, n: nat, total: nat): ParseResult<()>
    decreases n
  {
    if n == 0 then Ok(s, ()) else
      var (input, _) :- StreamIndex(s, total);
      ScanIndices(input, n - 1, total)
  }

  /** Packed indices are written only when there is not exactly one packed stream. */
  function IndexCount(packed: nat): nat {
    if packed == 1 then 0 else packed
  }

  // ---------------------------------------------------------------- folders

  function CoderCount(s: Bytes): ParseResult<nat> {
    var (rest, count) :- DecodeVarint(s);
    if 1 <= count <= MAX_FOLDER_STREAMS then Ok(rest, count) else Err(TooLarge)
  }

  function ParseWiring(s: Bytes, coders: seq<CoderInfo>, counts: Counts): ParseResult<Folder> {
    match counts.Layout()
    case Failure(kind) => Err(kind)
    case Success(layout) =>
      var (input, pairs) :- ParsePairs(s, layout.0, counts);
      var (rest, indices) :- ParseIndices(input, IndexCount(layout.1), counts.inputs);
      Ok(rest, Folder(coders, pairs, indices))
  }

  function ParseFolder(s: Bytes): ParseResult<Folder> {
    var (input, n) :- CoderCount(s);
    var (input, coders) :- ParseCoders(input, n, Counts(0, 0));
    ParseWiring(input, coders.coders, coders.counts)
  }

  function ScanWiring(s: Bytes, counts: Counts): ParseResult<nat> {
    match counts.Layout()
    case Failure(kind) => Err(kind)
    case Success(layout) =>
      var (input, _) :- ScanPairs(s, layout.0, counts);
      var (rest, _) :- ScanIndices(input, IndexCount(layout.1), counts.inputs);
      Ok(rest, counts.outputs)
  }

  /** Returns the number of output streams. */
  function ScanFolder(s: Bytes): ParseResult<nat> {
    var (input, n) :- CoderCount(s);
    var (input, counts) :- ScanCoders(input, n, Counts(0, 0));
    ScanWiring(input, counts)
  }

  // ---------------------------------------------------------------- agreement

  lemma {:induction false} CodersAgree(s: Bytes, n: nat, counts: Counts)
    ensures match ParseCoders(s, n, counts)
      case Ok(rest, value) => ScanCoders(s, n, counts) == Ok(rest, value.counts)
      case Err(kind) => ScanCoders(s, n, counts) == Err(kind)
    decreases n
  {
    var first := CountCoder(s, counts);
    if n > 0 && first.Ok? {
      CodersAgree(first.rest, n - 1, first.value.counts);
    }
  }

  lemma {:induction false} CodersCount(s: Bytes, n: nat, counts: Counts)
    requires ParseCoders(s, n, counts).Ok?
    ensures var list := ParseCoders(s, n, counts).value;
      && |list.coders| == n
      && list.counts.outputs == counts.outputs + Sum(OutputCounts(list.coders))
      && list.counts.inputs == counts.inputs + Sum(InputCounts(list.coders))
    decreases n
  {
    if n > 0 {
      var first := CountCoder(s, counts);
      CodersCount(first.rest, n - 1, first.value.counts);
      CountsCons(first.value.coder, ParseCoders(first.rest, n - 1, first.value.counts).value.coders);
    }
  }

  lemma CountsCons(coder: CoderInfo, more: seq<CoderInfo>)
    ensures Sum(OutputCounts([coder] + more)) == coder.numOutStreams + Sum(OutputCounts(more))
    ensures Sum(InputCounts([coder] + more)) == coder.numInStreams + Sum(InputCounts(more))
  {
    SumCons(coder.numOutStreams, OutputCounts(more));
    SumCons(coder.numInStreams, InputCounts(more));
    assert OutputCounts([coder] + more) == [coder.numOutStreams as nat] + OutputCounts(more);
    assert InputCounts([coder] + more) == [coder.numInStreams as nat] + InputCounts(more);
  }

  lemma {:induction false} SumCons(first: nat, rest: seq<nat>)
    ensures Sum([first] + rest) == first + Sum(rest)
  {
    var all := [first] + rest;
    if rest != [] {
      SumCons(first, rest[..|rest| - 1]);
      assert all[..|all| - 1] == [first] + rest[..|rest| - 1];
    } else {
      assert all[..0] == [];
    }
  }

  lemma {:induction false} PairsAgree(s: Bytes, n: nat, counts: Counts)
    ensures SameExtent(ParsePairs(s, n, counts), ScanPairs(s, n, counts))
    decreases n
  {
    if n > 0 && ParsePair(s, counts).Ok? {
      PairsAgree(ParsePair(s, counts).rest, n - 1, counts);
    }
  }

  lemma {:induction false} IndicesAgree(s: Bytes, n: nat, total: nat)
    ensures SameExtent(ParseIndices(s, n, total), ScanIndices(s, n, total))
    decreases n
  {
    if n > 0 && StreamIndex(s, total).Ok? {
      IndicesAgree(StreamIndex(s, total).rest, n - 1, total);
    }
  }

  /** On every byte string the scanner and the parser accept alike, stop alike, and count alike. */
  lemma FolderScanAgrees(s: Bytes)
    ensures SameExtent(ParseFolder(s), ScanFolder(s))
    ensures ParseFolder(s).Ok? ==> ScanFolder(s).value == Sum(OutputCounts(ParseFolder(s).value.coders))
  {
    var count := CoderCount(s);
    if count.Ok? {
      CodersAgree(count.rest, count.value, Counts(0, 0));
      if ParseCoders(count.rest, count.value, Counts(0, 0)).Ok? {
        CodersCount(count.rest, count.value, Counts(0, 0));
      }
      var scanned := ScanCoders(count.rest, count.value, Counts(0, 0));
      if scanned.Ok? && scanned.value.Layout().Success? {
        var (pairs, packed) := scanned.value.Layout().value;
        PairsAgree(scanned.rest, pairs, scanned.value);
        var wired := ScanPairs(scanned.rest, pairs, scanned.value);
        if wired.Ok? {
          IndicesAgree(wired.rest, IndexCount(packed), scanned.value.inputs);
        }
      }
    }
  }

  // ---------------------------------------------------------------- locality

  lemma CountCoderLocal(s: Bytes, counts: Counts, tail: Bytes)
    requires CountCoder(s, counts).Ok?
    ensures var r := CountCoder(s, counts);
      SuffixOf(r.rest, s) && |r.rest| < |s| && CountCoder(Eaten(s, r.rest) + tail, counts) == Ok(tail, r.value)
  {
    CoderLocal(s, tail);
  }

  lemma {:induction false} CodersLocal(s: Bytes, n: nat, counts: Counts, tail: Bytes)
    requires ParseCoders(s, n, counts).Ok?
    ensures var r := ParseCoders(s, n, counts);
      SuffixOf(r.rest, s) && ParseCoders(Eaten(s, r.rest) + tail, n, counts) == Ok(tail, r.value)
    decreases n
  {
    if n == 0 {
      EatenNothing(s, tail);
    } else {
      var first, rest := CountCoder(s, counts), ParseCoders(s, n, counts).rest;
      CodersLocal(first.rest, n - 1, first.value.counts, tail);
      CountCoderLocal(s, counts, Eaten(first.rest, rest) + tail);
      EatenTwice(s, first.rest, rest, tail);
    }
  }

  lemma StreamIndexLocal(s: Bytes, total: nat, tail: Bytes)
    requires StreamIndex(s, total).Ok?
    ensures var r := StreamIndex(s, total);
      SuffixOf(r.rest, s) && StreamIndex(Eaten(s, r.rest) + tail, total) == Ok(tail, r.value)
  {
    VarintLocal(s, tail);
  }

  lemma PairLocal(s: Bytes, counts: Counts, tail: Bytes)
    requires ParsePair(s, counts).Ok?
    ensures var r := ParsePair(s, counts);
      SuffixOf(r.rest, s) && ParsePair(Eaten(s, r.rest) + tail, counts) == Ok(tail, r.value)
  {
    var next, rest := StreamIndex(s, counts.inputs).rest, ParsePair(s, counts).rest;
    StreamIndexLocal(next, counts.outputs, tail);
    StreamIndexLocal(s, counts.inputs, Eaten(next, rest) + tail);
    EatenTwice(s, next, rest, tail);
  }

  lemma {:induction false} PairsLocal(s: Bytes, n: nat, counts: Counts, tail: Bytes)
    requires ParsePairs(s, n, counts).Ok?
    ensures var r := ParsePairs(s, n, counts);
      SuffixOf(r.rest, s) && ParsePairs(Eaten(s, r.rest) + tail, n, counts) == Ok(tail, r.value)
    decreases n
  {
    if n == 0 {
      EatenNothing(s, tail);
    } else {
      var first, rest := ParsePair(s, counts), ParsePairs(s, n, counts).rest;
      PairsLocal(first.rest, n - 1, counts, tail);
      PairLocal(s, counts, Eaten(first.rest, rest) + tail);
      EatenTwice(s, first.rest, rest, tail);
    }
  }

  lemma {:induction false} IndicesLocal(s: Bytes, n: nat, total: nat, tail: Bytes)
    requires ParseIndices(s, n, total).Ok?
    ensures var r := ParseIndices(s, n, total);
      SuffixOf(r.rest, s) && ParseIndices(Eaten(s, r.rest) + tail, n, total) == Ok(tail, r.value)
    decreases n
  {
    if n == 0 {
      EatenNothing(s, tail);
    } else {
      var next, rest := StreamIndex(s, total).rest, ParseIndices(s, n, total).rest;
      IndicesLocal(next, n - 1, total, tail);
      StreamIndexLocal(s, total, Eaten(next, rest) + tail);
      EatenTwice(s, next, rest, tail);
    }
  }

  lemma WiringLocal(s: Bytes, coders: seq<CoderInfo>, counts: Counts, tail: Bytes)
    requires ParseWiring(s, coders, counts).Ok?
    ensures var r := ParseWiring(s, coders, counts);
      SuffixOf(r.rest, s) && ParseWiring(Eaten(s, r.rest) + tail, coders, counts) == Ok(tail, r.value)
  {
    var (pairs, packed) := counts.Layout().value;
    var wired, rest := ParsePairs(s, pairs, counts), ParseWiring(s, coders, counts).rest;
    IndicesLocal(wired.rest, IndexCount(packed), counts.inputs, tail);
    PairsLocal(s, pairs, counts, Eaten(wired.rest, rest) + tail);
    EatenTwice(s, wired.rest, rest, tail);
  }

  /** A folder block is determined by the bytes it consumes. */
  lemma FolderLocal(s: Bytes, tail: Bytes)
    requires ParseFolder(s).Ok?
    ensures var r := ParseFolder(s);
      SuffixOf(r.rest, s) && |r.rest| < |s| && ParseFolder(Eaten(s, r.rest) + tail) == Ok(tail, r.value)
  {
    var count, rest := CoderCount(s), ParseFolder(s).rest;
    var coders := ParseCoders(count.rest, count.value, Counts(0, 0));
    WiringLocal(coders.rest, coders.value.coders, coders.value.counts, tail);
    CodersLocal(count.rest, count.value, Counts(0, 0), Eaten(coders.rest, rest) + tail);
    EatenTwice(count.rest, coders.rest, rest, tail);
    VarintLocal(s, Eaten(count.rest, rest) + tail);
    EatenTwice(s, count.rest, rest, tail);
  }

  // ---------------------------------------------------------------- the loops of the source

  /** The whole list, once the coders read so far are put in front of what is left. */
  function JoinCoders(done: seq<CoderInfo>, left: ParseResult<CoderList>): ParseResult<CoderList> {
    match left
    case Ok(rest, more) => Ok(rest, CoderList(done + more.coders, more.counts))
    case Err(kind) => Err(kind)
  }

  lemma JoinNothing(left: ParseResult<CoderList>)
    ensures JoinCoders([], left) == left
  {
    if left.Ok? {
      assert [] + left.value.coders == left.value.coders;
    }
  }

  lemma ParseCodersCons(s: Bytes, n: nat, counts: Counts)
    requires n > 0 && CountCoder(s, counts).Ok?
    ensures var first := CountCoder(s, counts);
      ParseCoders(s, n, counts)
      == JoinCoders([first.value.coder], ParseCoders(first.rest, n - 1, first.value.counts))
  {
    hide CountCoder;
  }

  lemma JoinOneMore(done: seq<CoderInfo>, input: Bytes, left: nat, counts: Counts)
    requires left > 0 && CountCoder(input, counts).Ok?
    ensures var first := CountCoder(input, counts);
      JoinCoders(done, ParseCoders(input, left, counts))
      == JoinCoders(done + [first.value.coder], ParseCoders(first.rest, left - 1, first.value.counts))
  {
    hide CountCoder, ParseCoders;
    var first := CountCoder(input, counts);
    ParseCodersCons(input, left, counts);
    var more := ParseCoders(first.rest, left - 1, first.value.counts);
    if more.Ok? {
      assert done + ([first.value.coder] + more.value.coders) == (done + [first.value.coder]) + more.value.coders;
    }
  }

  lemma JoinStopped(done: seq<CoderInfo>, input: Bytes, left: nat, counts: Counts)
    ensures left == 0 ==> JoinCoders(done, ParseCoders(input, left, counts)) == Ok(input, CoderList(done, counts))
    ensures left > 0 && CountCoder(input, counts).Err? ==>
      JoinCoders(done, ParseCoders(input, left, counts)) == Err(CountCoder(input, counts).kind)
  {
    assert done + [] == done;
  }

  method CodersLoop(s: Bytes, n: nat) returns (r: ParseResult<CoderList>)
    ensures r == ParseCoders(s, n, Counts(0, 0))
  {
    hide CountCoder, ParseCoders, JoinCoders;
    var input, coders, counts := s, [], Counts(0, 0);
    JoinNothing(ParseCoders(s, n, counts));
    for i := 0 to n
      invariant ParseCoders(s, n, Counts(0, 0)) == JoinCoders(coders, ParseCoders(input, n - i, counts))
    {
      var coder := CountCoder(input, counts);
      JoinStopped(coders, input, n - i, counts);
      if coder.Err? {
        return Err(coder.kind);
      }
      JoinOneMore(coders, input, n - i, counts);
      coders, counts, input := coders + [coder.value.coder], coder.value.counts, coder.rest;
    }
    JoinStopped(coders, input, 0, counts);
    r := Ok(input, CoderList(coders, counts));
  }

  method PairsLoop(s: Bytes, n: nat, counts: Counts) returns (r: ParseResult<seq<(u64, u64)>>)
    ensures r == ParsePairs(s, n, counts)
  {
    var input, pairs := s, [];
    ContinuesAtStart(ParsePairs(s, n, counts));
    for i := 0 to n
      invariant Continues(ParsePairs(s, n, counts), pairs, ParsePairs(input, n - i, counts))
    {
      var pair := ParsePair(input, counts);
      if pair.Err? {
        return Err(pair.kind);
      }
      ContinuesStep(ParsePairs(s, n, counts), pairs, pair.value, ParsePairs(pair.rest, n - i - 1, counts));
      pairs, input := pairs + [pair.value], pair.rest;
    }
    ContinuesAtEnd(ParsePairs(s, n, counts), pairs, input);
    r := Ok(input, pairs);
  }

  method IndicesLoop(s: Bytes, n: nat, total: nat) returns (r: ParseResult<seq<u64>>)
    ensures r == ParseIndices(s, n, total)
  {
    var input, indices := s, [];
    ContinuesAtStart(ParseIndices(s, n, total));
    for i := 0 to n
      invariant Continues(ParseIndices(s, n, total), indices, ParseIndices(input, n - i, total))
    {
      var index := StreamIndex(input, total);
      if index.Err? {
        return Err(index.kind);
      }
      ContinuesStep(ParseIndices(s, n, total), indices, index.value, ParseIndices(index.rest, n - i - 1, total));
      indices, input := indices + [index.value], index.rest;
    }
    ContinuesAtEnd(ParseIndices(s, n, total), indices, input);
    r := Ok(input, indices);
  }

  /** The allocating parser, one block at a time. */
  method ReadFolder(s: Bytes) returns (r: ParseResult<Folder>)
    ensures r == ParseFolder(s)
  {
    var count := CoderCount(s);
    if count.Err? {
      return Err(count.kind);
    }
    var coders := CodersLoop(count.rest, count.value);
    if coders.Err? {
      return Err(coders.kind);
    }
    var counts := coders.value.counts;
    var layout := counts.Layout();
    if layout.Failure? {
      return Err(layout.error);
    }
    var pairs := PairsLoop(coders.rest, layout.value.0, counts);
    if pairs.Err? {
      return Err(pairs.kind);
    }
    if layout.value.1 == 1 {
      return Ok(pairs.rest, Folder(coders.value.coders, pairs.value, []));
    }
    var indices := IndicesLoop(pairs.rest, layout.value.1, counts.inputs);
    if indices.Err? {
      return Err(indices.kind);
    }
    r := Ok(indices.rest, Folder(coders.value.coders, pairs.value, indices.value));
  }

  method WalkCoders(s: Bytes, n: nat) returns (r: ParseResult<Counts>)
    ensures r == ScanCoders(s, n, Counts(0, 0))
  {
    var input, counts := s, Counts(0, 0);
    for i := 0 to n
      invariant ScanCoders(s, n, Counts(0, 0)) == ScanCoders(input, n - i, counts)
    {
      var coder := CountCoder(input, counts);
      if coder.Err? {
        return Err(coder.kind);
      }
      counts, input := coder.value.counts, coder.rest;
    }
    r := Ok(input, counts);
  }

  method WalkPairs(s: Bytes, n: nat, counts: Counts) returns (r: ParseResult<()>)
    ensures r == ScanPairs(s, n, counts)
  {
    var input := s;
    for i := 0 to n
      invariant ScanPairs(s, n, counts) == ScanPairs(input, n - i, counts)
    {
      var pair := ParsePair(input, counts);
      if pair.Err? {
        return Err(pair.kind);
      }
      input := pair.rest;
    }
    r := Ok(input, ());
  }

  method WalkIndices(s: Bytes, n: nat, total: nat) returns (r: ParseResult<()>)
    ensures r == ScanIndices(s, n, total)
  {
    var input := s;
    for i := 0 to n
      invariant ScanIndices(s, n, total) == ScanIndices(input, n - i, total)
    {
      var index := StreamIndex(input, total);
      if index.Err? {
        return Err(index.kind);
      }
      input := index.rest;
    }
    r := Ok(input, ());
  }

  /** The scanner, which keeps only the counts. */
  method WalkFolder(s: Bytes) returns (r: ParseResult<nat>)
    ensures r == ScanFolder(s)
    ensures SameExtent(ParseFolder(s), r)
  {
    FolderScanAgrees(s);
    var count := CoderCount(s);
    if count.Err? {
      return Err(count.kind);
    }
    var counts := WalkCoders(count.rest, count.value);
    if counts.Err? {
      return Err(counts.kind);
    }
    var layout := counts.value.Layout();
    if layout.Failure? {
      return Err(layout.error);
    }
    var pairs := WalkPairs(counts.rest, layout.value.0, counts.value);
    if pairs.Err? {
      return Err(pairs.kind);
    }
    if layout.value.1 == 1 {
      return Ok(pairs.rest, counts.value.outputs);
    }
    var indices := WalkIndices(pairs.rest, layout.value.1, counts.value.inputs);
    if indices.Err? {
      return Err(indices.kind);
    }
    r := Ok(indices.rest, counts.value.outputs);
  }
}
