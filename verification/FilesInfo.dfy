/** The file listing: its parser, the scanner that only looks for external references, and its queries. */
module FilesInfos {
  import opened Wrappers
  import opened Words
  import opened Parsers
  import opened Digests
  import opened PackInfos

  // ---------------------------------------------------------------- names

  /** The first zero-terminated UTF-16 name and what follows its terminator. */
  function SplitName(data: Bytes): (r: Option<(Bytes, Bytes)>)
    ensures r.Some? ==> data == r.value.0 + [0, 0] + r.value.1
  {
    if |data| < 2 then None
    else if data[0] == 0 && data[1] == 0 then Some(([], data[2..]))
    else
      match SplitName(data[2..])
      case None => None
      case Some(split) => Some((data[..2] + split.0, split.1))
  }

  /** Exactly n terminated names and nothing else. */
  predicate NamesValid(data: Bytes, n: nat)
    decreases n
  {
    if n == 0 then data == []
    else SplitName(data).Some? && NamesValid(SplitName(data).value.1, n - 1)
  }

  /** The names an iteration yields; a missing terminator ends them for good. */
  function NamesFrom(data: Bytes, n: nat): (r: seq<Option<Bytes>>)
    ensures |r| == n
    decreases n
  {
    if n == 0 then [] else
      match SplitName(data)
      case None => seq(n, _ => None)
      case Some(split) => [Some(split.0)] + NamesFrom(split.1, n - 1)
  }

  function Terminated(names: seq<Bytes>): Bytes {
    if names == [] then [] else names[0] + [0, 0] + Terminated(names[1..])
  }

  /** Whole UTF-16 units, none of them zero. */
  predicate IsRawName(name: Bytes) {
    name == [] || (|name| >= 2 && !(name[0] == 0 && name[1] == 0) && IsRawName(name[2..]))
  }

  lemma {:induction false} SplitTerminated(name: Bytes, rest: Bytes)
    requires IsRawName(name)
    ensures SplitName(name + [0, 0] + rest) == Some((name, rest))
  {
    var data := name + [0, 0] + rest;
    if name == [] {
      assert data[2..] == rest;
    } else {
      SplitTerminated(name[2..], rest);
      assert data[2..] == name[2..] + [0, 0] + rest;
      assert data[..2] + name[2..] == name;
    }
  }

  /** Written names are accepted and read back one by one. */
  lemma {:induction false} NamesRoundTrip(names: seq<Bytes>)
    requires forall i :: 0 <= i < |names| ==> IsRawName(names[i])
    ensures NamesValid(Terminated(names), |names|)
    ensures NamesFrom(Terminated(names), |names|) == seq(|names|, i requires 0 <= i < |names| => Some(names[i]))
  {
    if names != [] {
      SplitTerminated(names[0], Terminated(names[1..]));
      NamesRoundTrip(names[1..]);
    }
  }

  /** Accepted name data is nothing but the names it yields, each with its terminator. */
  lemma {:induction false} ValidNamesAreTerminated(data: Bytes, n: nat) returns (names: seq<Bytes>)
    requires NamesValid(data, n)
    ensures |names| == n && data == Terminated(names)
    ensures NamesFrom(data, n) == seq(n, i requires 0 <= i < n => Some(names[i]))
    decreases n
  {
    if n == 0 {
      names := [];
    } else {
      var split := SplitName(data).value;
      var more := ValidNamesAreTerminated(split.1, n - 1);
      names := [split.0] + more;
      assert names[1..] == more;
    }
  }

  /** The check the parser makes, one code unit at a time. */
  method ValidateNames(data: Bytes, n: nat) returns (valid: bool)
    ensures valid <==> NamesValid(data, n)
  {
    var position := 0;
    for i := 0 to n
      invariant position <= |data|
      invariant NamesValid(data, n) <==> NamesValid(data[position..], n - i)
    {
      ghost var start := position;
      var terminated := false;
      while !terminated && position + 1 < |data|
        invariant start <= position <= |data|
        invariant terminated ==> SplitName(data[start..]).Some? && SplitName(data[start..]).value.1 == data[position..]
        invariant !terminated ==> SameSplit(data[start..], data[position..])
        decreases !terminated, |data| - position
      {
        var here := data[position..];
        terminated := here[0] == 0 && here[1] == 0;
        assert here[2..] == data[position + 2..];
        position := position + 2;
      }
      if !terminated {
        return false;
      }
    }
    valid := position == |data|;
  }

  /** Both have a terminated name, with the same continuation, or neither has. */
  ghost predicate SameSplit(a: Bytes, b: Bytes) {
    && (SplitName(a).Some? <==> SplitName(b).Some?)
    && (SplitName(a).Some? ==> SplitName(a).value.1 == SplitName(b).value.1)
  }

  function Prefixed(front: Bytes, split: Option<(Bytes, Bytes)>): Option<(Bytes, Bytes)> {
    match split
    case None => None
    case Some(s) => Some((front + s.0, s.1))
  }

  lemma PrefixedStart(data: Bytes, start: nat)
    requires start <= |data|
    ensures SplitName(data[start..]) == Prefixed(data[start..start], SplitName(data[start..]))
  {
    var split := SplitName(data[start..]);
    if split.Some? {
      assert data[start..start] + split.value.0 == split.value.0;
    }
  }

  lemma PrefixedStep(data: Bytes, start: nat, position: nat)
    requires start <= position && position + 2 <= |data|
    ensures Prefixed(data[start..position], SplitName(data[position..]))
         == if data[position] == 0 && data[position + 1] == 0 then Some((data[start..position], data[position + 2..]))
            else Prefixed(data[start..position + 2], SplitName(data[position + 2..]))
  {
    var here := data[position..];
    assert here[2..] == data[position + 2..] && here[..2] == data[position..position + 2];
    var split := SplitName(data[position + 2..]);
    if data[position] == 0 && data[position + 1] == 0 {
      assert data[start..position] + [] == data[start..position];
    } else if split.Some? {
      assert data[start..position] + (here[..2] + split.value.0) == data[start..position + 2] + split.value.0;
    }
  }

  /** Walks over one name and its terminator, or to the end of the data. */
  method NextName(data: Bytes, start: nat) returns (name: Option<Bytes>, position: nat)
    requires start <= |data|
    ensures position <= |data|
    ensures SplitName(data[start..]).Some? <==> name.Some?
    ensures name.Some? ==> SplitName(data[start..]) == Some((name.value, data[position..]))
    ensures name.None? ==> SplitName(data[position..]).None?
  {
    position := start;
    PrefixedStart(data, start);
    while position + 1 < |data|
      invariant start <= position <= |data|
      invariant SplitName(data[start..]) == Prefixed(data[start..position], SplitName(data[position..]))
      decreases |data| - position
    {
      var isNull := data[position] == 0 && data[position + 1] == 0;
      PrefixedStep(data, start, position);
      position := position + 2;
      if isNull {
        return Some(data[start..position - 2]), position;
      }
    }
    name := None;
  }

  /** The borrowed names of a listing, in order. */
  class NameSlices {
    const data: Bytes
    const count: nat
    var position: nat
    var index: nat

    ghost predicate Valid()
      reads this
    {
      position <= |data| && index <= count
    }

    /** The names still to come. */
    ghost function Left(): seq<Option<Bytes>>
      requires Valid()
      reads this
    {
      NamesFrom(data[position..], count - index)
    }

    constructor (data: Bytes, count: nat)
      ensures Valid() && this.data == data && this.count == count
      ensures Left() == NamesFrom(data, count)
    {
      this.data, this.count, position, index := data, count, 0, 0;
      new;
      assert data[0..] == data;
    }

    method Next() returns (name: Option<Option<Bytes>>)
      requires Valid()
      modifies this
      ensures Valid()
      ensures old(Left()) == [] ==> name == None && Left() == []
      ensures old(Left()) != [] ==> name == Some(old(Left())[0]) && Left() == old(Left())[1..]
    {
      if index >= count {
        return None;
      }
      var found, next := NextName(data, position);
      index := index + 1;
      position := next;
      name := Some(found);
    }
  }

  // ---------------------------------------------------------------- optional values

  /** One value of the given width for each defined position; the data has to be used up. */
  function ValuesFrom(data: Bytes, flags: seq<bool>, width: nat): (r: Result<seq<Option<nat>>, ErrorKind>)
    ensures r.Success? ==> |r.value| == |flags|
  {
    if flags == [] then
      if data == [] then Success([]) else Failure(Verify)
    else if flags[0] then
      if width > |data| then Failure(Eof) else
      var more :- ValuesFrom(data[width..], flags[1..], width);
      Success([Some(FromLe(data[..width]))] + more)
    else
      var more :- ValuesFrom(data, flags[1..], width);
      Success([None] + more)
  }

  function ValueBytes(values: seq<Option<nat>>, width: nat): Bytes {
    if values == [] then []
    else (if values[0].Some? then LeBytes(values[0].value, width) else []) + ValueBytes(values[1..], width)
  }

  ghost predicate Fits(values: seq<Option<nat>>, width: nat) {
    forall i :: 0 <= i < |values| && values[i].Some? ==> values[i].value < Capacity(width)
  }

  lemma {:induction false} ValuesRoundTrip(values: seq<Option<nat>>, width: nat)
    requires Fits(values, width)
    ensures ValuesFrom(ValueBytes(values, width), Defined(values), width) == Success(values)
  {
    if values != [] {
      ValuesRoundTrip(values[1..], width);
      assert Defined(values)[1..] == Defined(values[1..]);
      assert values == [values[0]] + values[1..];
      if values[0].Some? {
        LeRoundTrip(values[0].value, width);
        AppendSplit(LeBytes(values[0].value, width), ValueBytes(values[1..], width));
      } else {
        assert [] + ValueBytes(values[1..], width) == ValueBytes(values[1..], width);
      }
    }
  }

  lemma {:induction false} ValueBytesLength(values: seq<Option<nat>>, width: nat)
    ensures |ValueBytes(values, width)| == CountTrue(Defined(values)) * width
  {
    if values != [] {
      var rest := Defined(values[1..]);
      ValueBytesLength(values[1..], width);
      assert Defined(values)[0] == values[0].Some? && Defined(values)[1..] == rest;
      if values[0].Some? {
        assert (1 + CountTrue(rest)) * width == width + CountTrue(rest) * width;
      }
    }
  }

  /** The values can be read exactly when the data has the size that the defined positions take up. */
  lemma {:induction false} ValuesFillData(data: Bytes, flags: seq<bool>, width: nat)
    ensures ValuesFrom(data, flags, width).Success? <==> |data| == CountTrue(flags) * width
    decreases flags
  {
    if flags != [] {
      if !flags[0] {
        ValuesFillData(data, flags[1..], width);
      } else {
        assert CountTrue(flags) * width == width + CountTrue(flags[1..]) * width;
        if width <= |data| {
          ValuesFillData(data[width..], flags[1..], width);
        } else {
          assert CountTrue(flags[1..]) * width >= 0;
        }
      }
    }
  }

  /** The equation that ties the values read so far to those left. */
  function JoinValues(done: seq<Option<nat>>, left: Result<seq<Option<nat>>, ErrorKind>)
    : Result<seq<Option<nat>>, ErrorKind>
  {
    match left
    case Success(more) => Success(done + more)
    case Failure(kind) => Failure(kind)
  }

  lemma JoinValuesOneMore(done: seq<Option<nat>>, data: Bytes, flags: seq<bool>, width: nat)
    requires flags != [] && (flags[0] ==> width <= |data|)
    ensures var next := if flags[0] then data[width..] else data;
      var value := if flags[0] then Some(FromLe(data[..width])) else None;
      JoinValues(done, ValuesFrom(data, flags, width))
      == JoinValues(done + [value], ValuesFrom(next, flags[1..], width))
  {
    var next := if flags[0] then data[width..] else data;
    var value := if flags[0] then Some(FromLe(data[..width])) else None;
    var more := ValuesFrom(next, flags[1..], width);
    if more.Success? {
      assert done + ([value] + more.value) == (done + [value]) + more.value;
    }
  }

  method ReadValues(data: Bytes, flags: seq<bool>, width: nat) returns (r: Result<seq<Option<nat>>, ErrorKind>)
    ensures r == ValuesFrom(data, flags, width)
  {
    var pos, values: seq<Option<nat>> := 0, [];
    assert data[0..] == data && flags[0..] == flags;
    assert ValuesFrom(data, flags, width).Success?
      ==> [] + ValuesFrom(data, flags, width).value == ValuesFrom(data, flags, width).value;
    for index := 0 to |flags|
      invariant pos <= |data|
      invariant ValuesFrom(data, flags, width) == JoinValues(values, ValuesFrom(data[pos..], flags[index..], width))
    {
      if flags[index] && pos + width > |data| {
        assert ValuesFrom(data[pos..], flags[index..], width) == Failure(Eof);
        return Failure(Eof);
      }
      JoinValuesOneMore(values, data[pos..], flags[index..], width);
      assert flags[index..][1..] == flags[index + 1..];
      if flags[index] {
        assert data[pos..][width..] == data[pos + width..] && data[pos..][..width] == data[pos..pos + width];
        values := values + [Some(FromLe(data[pos..pos + width]))];
        pos := pos + width;
      } else {
        values := values + [None];
      }
    }
    assert data[pos..] == [] <==> pos == |data|;
    assert values + [] == values;
    r := if pos == |data| then Success(values) else Failure(Verify);
  }

  // ---------------------------------------------------------------- properties

  function ExternalData(index: Bytes, external: seq<Bytes>): Result<Bytes, ErrorKind> {
    match DecodeVarint(index)
    case Err(_) => Failure(Verify)
    case Ok(rest, i) =>
      if rest != [] then Failure(Verify)
      else if i >= |external| then Failure(Eof)
      else Success(external[i])
  }

  /** The bytes after the external flag, or the external stream they name. */
  function PropertyData(payload: Bytes, external: seq<Bytes>): Result<Bytes, ErrorKind> {
    if payload == [] then Failure(Eof)
    else if payload[0] == 0 then Success(payload[1..])
    else ExternalData(payload[1..], external)
  }

  function BitmapLength(allDefined: byte, n: nat): nat {
    if allDefined == 0 then CeilDiv8(n) else 0
  }

  function DefinedValues(block: Bytes, n: nat, width: nat, external: seq<Bytes>)
    : (r: Result<seq<Option<nat>>, ErrorKind>)
    ensures r.Success? ==> |r.value| == n
  {
    if block == [] then Failure(Eof)
    else if BitmapLength(block[0], n) > |block| - 1 then Failure(Eof)
    else
      var bitmap := block[1..1 + BitmapLength(block[0], n)];
      var data :- PropertyData(block[1 + BitmapLength(block[0], n)..], external);
      ValuesFrom(data, Flags(block[0], bitmap, n), width)
  }

  datatype FilesInfo = FilesInfo(
    numFiles: u64,
    nameData: Bytes,
    cTimes: seq<Option<nat>>,
    aTimes: seq<Option<nat>>,
    mTimes: seq<Option<nat>>,
    startPositions: seq<Option<nat>>,
    attributes: seq<Option<nat>>,
    emptyStreams: Bytes,
    emptyFiles: Bytes,
    antiItems: Bytes,
    emptyStreamOrdinals: seq<Option<nat>>)

  function NoFiles(n: u64): FilesInfo {
    FilesInfo(n, [], [], [], [], [], [], [], [], [], [])
  }

  /** Only these properties may not be repeated. */
  predicate IsFileProperty(tag: byte) {
    || tag == NAME || tag == C_TIME || tag == A_TIME || tag == M_TIME || tag == START_POS || tag == ATTRIBUTES
    || tag == EMPTY_STREAM || tag == EMPTY_FILE || tag == ANTI
  }

  predicate IsDefinedProperty(tag: byte) {
    tag == C_TIME || tag == A_TIME || tag == M_TIME || tag == START_POS || tag == ATTRIBUTES
  }

  function WidthOf(tag: byte): nat {
    if tag == ATTRIBUTES then 4 else 8
  }

  function SetValues(tag: byte, values: seq<Option<nat>>, files: FilesInfo): FilesInfo
    requires IsDefinedProperty(tag)
  {
    if tag == C_TIME then files.(cTimes := values)
    else if tag == A_TIME then files.(aTimes := values)
    else if tag == M_TIME then files.(mTimes := values)
    else if tag == START_POS then files.(startPositions := values)
    else files.(attributes := values)
  }

  function ApplyProperty(tag: byte, block: Bytes, external: seq<Bytes>, files: FilesInfo)
    : Result<FilesInfo, ErrorKind>
  {
    if tag == NAME then
      var data :- PropertyData(block, external);
      if NamesValid(data, files.numFiles) then Success(files.(nameData := data)) else Failure(Verify)
    else if IsDefinedProperty(tag) then
      var values :- DefinedValues(block, files.numFiles, WidthOf(tag), external);
      Success(SetValues(tag, values, files))
    else if tag == EMPTY_STREAM then Success(files.(emptyStreams := block))
    else if tag == EMPTY_FILE then Success(files.(emptyFiles := block))
    else if tag == ANTI then Success(files.(antiItems := block))
    else Success(files)
  }

  /** What has been read, and which of the unrepeatable properties occurred. */
  datatype Listing = Listing(files: FilesInfo, seen: set<byte>)

  /** A property with the tag already consumed. */
  function ParseProperty(tag: byte, s: Bytes, external: seq<Bytes>, listing: Listing): (r: ParseResult<Listing>)
    ensures r.Ok? ==> |r.rest| < |s| && r.value.files.numFiles == listing.files.numFiles
  {
    if IsFileProperty(tag) && tag in listing.seen then Err(Verify) else
      var (rest, block) :- SizedBlock(s);
      match ApplyProperty(tag, block, external, listing.files)
      case Failure(kind) => Err(kind)
      case Success(files) =>
        Ok(rest, Listing(files, if IsFileProperty(tag) then listing.seen + {tag} else listing.seen))
  }

  function ParseProperties(s: Bytes, external: seq<Bytes>, listing: Listing): (r: ParseResult<Listing>)
    ensures r.Ok? ==> |r.rest| < |s| && r.value.files.numFiles == listing.files.numFiles
    decreases |s|
  {
    var (input, tag) :- Tag(s);
    if tag == END then Ok(input, listing) else
      var (rest, next) :- ParseProperty(tag, input, external, listing);
      ParseProperties(rest, external, next)
  }

  function ParseFileCount(s: Bytes): (r: ParseResult<u64>)
    ensures r.Ok? ==> |r.rest| < |s|
  {
    var (input, _) :- Expect(s, FILES_INFO);
    var (rest, n) :- DecodeVarint(input);
    VarintLocal(input, []);
    Ok(rest, n)
  }

  function ParseFilesInfo(s: Bytes, external: seq<Bytes>): (r: ParseResult<FilesInfo>)
    ensures r.Ok? ==> |r.rest| < |s|
  {
    var (input, n) :- ParseFileCount(s);
    var (rest, listing) :- ParseProperties(input, external, Listing(NoFiles(n), {}));
    Ok(rest, listing.files.(emptyStreamOrdinals := Ordinals(listing.files.emptyStreams, n)))
  }

  // ---------------------------------------------------------------- the scanner

  /** The external flag of a block, where the block is long enough to have one. */
  predicate FlagsExternal(tag: byte, block: Bytes, n: nat) {
    if tag == NAME then block != [] && block[0] != 0
    else if IsDefinedProperty(tag) && block != [] then
      var index := 1 + BitmapLength(block[0], n);
      index < |block| && block[index] != 0
    else false
  }

  function ScanProperties(s: Bytes, n: u64, uses: bool): (r: ParseResult<bool>)
    ensures r.Ok? ==> |r.rest| < |s|
    decreases |s|
  {
    var (input, tag) :- Tag(s);
    if tag == END then Ok(input, uses) else
      var (rest, block) :- SizedBlock(input);
      ScanProperties(rest, n, uses || FlagsExternal(tag, block, n))
  }

  /** The number of files and whether any property refers to external data. */
  function ScanFilesInfo(s: Bytes): (r: ParseResult<(u64, bool)>)
    ensures r.Ok? ==> |r.rest| < |s|
  {
    var (input, n) :- ParseFileCount(s);
    var (rest, uses) :- ScanProperties(input, n, false);
    Ok(rest, (n, uses))
  }

  lemma {:induction false} PropertiesScan(s: Bytes, external: seq<Bytes>, listing: Listing, uses: bool)
    requires ParseProperties(s, external, listing).Ok?
    ensures ScanProperties(s, listing.files.numFiles, uses).Ok?
    ensures ScanProperties(s, listing.files.numFiles, uses).rest == ParseProperties(s, external, listing).rest
    decreases |s|
  {
    hide ApplyProperty, SizedBlock, FlagsExternal;
    if s[0] != END {
      var next := ParseProperty(s[0], s[1..], external, listing);
      PropertiesScan(next.rest, external, next.value,
        uses || FlagsExternal(s[0], SizedBlock(s[1..]).value, listing.files.numFiles));
    }
  }

  /** Whatever the parser accepts, with any external data, the scanner accepts too. */
  lemma ParsedFilesScan(s: Bytes, external: seq<Bytes>)
    requires ParseFilesInfo(s, external).Ok?
    ensures ScanFilesInfo(s).Ok?
    ensures ScanFilesInfo(s).rest == ParseFilesInfo(s, external).rest
    ensures ScanFilesInfo(s).value.0 == ParseFilesInfo(s, external).value.numFiles
  {
    hide ParseProperties, ScanProperties, ParseFileCount;
    var count := ParseFileCount(s);
    PropertiesScan(count.rest, external, Listing(NoFiles(count.value), {}), false);
  }

  /** The scanner accepts more: it does not look into a block beyond its external flag. */
  lemma ScannerAcceptsMore()
    ensures var s := [FILES_INFO, 1, NAME, 0, END];
      ScanFilesInfo(s) == Ok([], (1, false)) && ParseFilesInfo(s, []) == Err(Eof)
  {
    var s := [FILES_INFO, 1, NAME, 0, END];
    OneByteInteger(1, [NAME, 0, END]);
    OneByteInteger(0, [END]);
    assert s[1..] == [1] + [NAME, 0, END] && s[1..][1..] == [NAME, 0, END];
    assert [NAME, 0, END][1..] == [0] + [END] && [END][0..] == [END];
    assert SizedBlock([0, END]) == Ok([END], []);
    assert ScanProperties([END], 1, false) == Ok([], false);
  }

  // ---------------------------------------------------------------- which scanned listings parse

  datatype Block = Block(tag: byte, bytes: Bytes)

  /** The property blocks of a listing, up to its end tag. */
  function BlocksOf(s: Bytes): seq<Block>
    decreases |s|
  {
    if Tag(s).Err? || s[0] == END || SizedBlock(s[1..]).Err? then []
    else [Block(s[0], SizedBlock(s[1..]).value)] + BlocksOf(SizedBlock(s[1..]).rest)
  }

  /** There is a flag and, if it is set, nothing after it but the number of an external stream. */
  predicate HasData(payload: Bytes, external: seq<Bytes>) {
    && payload != []
    && var index := DecodeVarint(payload[1..]);
    && (payload[0] != 0 ==> index.Ok? && index.rest == [] && index.value < |external|)
  }

  function DataOf(payload: Bytes, external: seq<Bytes>): Bytes
    requires HasData(payload, external)
  {
    if payload[0] == 0 then payload[1..] else external[DecodeVarint(payload[1..]).value]
  }

  /** The bitmap is complete, and the data has as many values as the bitmap announces. */
  predicate ValuesFit(block: Bytes, n: nat, width: nat, external: seq<Bytes>) {
    && block != []
    && var data := 1 + BitmapLength(block[0], n);
    && data < |block|
    && HasData(block[data..], external)
    && |DataOf(block[data..], external)| == CountTrue(Flags(block[0], block[1..data], n)) * width
  }

  predicate BlockFits(block: Block, n: nat, external: seq<Bytes>) {
    if block.tag == NAME then HasData(block.bytes, external) && NamesValid(DataOf(block.bytes, external), n)
    else IsDefinedProperty(block.tag) ==> ValuesFit(block.bytes, n, WidthOf(block.tag), external)
  }

  ghost predicate AllFit(blocks: seq<Block>, n: nat, external: seq<Bytes>) {
    forall i :: 0 <= i < |blocks| ==> BlockFits(blocks[i], n, external)
  }

  ghost predicate NoneRepeated(blocks: seq<Block>) {
    forall i, j :: 0 <= i < j < |blocks| && IsFileProperty(blocks[i].tag) ==> blocks[i].tag != blocks[j].tag
  }

  ghost predicate NoneIn(blocks: seq<Block>, seen: set<byte>) {
    forall i :: 0 <= i < |blocks| && IsFileProperty(blocks[i].tag) ==> blocks[i].tag !in seen
  }

  lemma BlockApplies(block: Block, external: seq<Bytes>, files: FilesInfo)
    ensures ApplyProperty(block.tag, block.bytes, external, files).Success?
       <==> BlockFits(block, files.numFiles, external)
  {
    hide NamesValid, ValuesFrom, CountTrue, Flags, DecodeVarint, SetValues;
    var bytes, n := block.bytes, files.numFiles;
    if block.tag != NAME && IsDefinedProperty(block.tag) && bytes != [] {
      var data := 1 + BitmapLength(bytes[0], n);
      if data < |bytes| && HasData(bytes[data..], external) {
        ValuesFillData(DataOf(bytes[data..], external), Flags(bytes[0], bytes[1..data], n), WidthOf(block.tag));
      }
    }
  }

  lemma FitSplit(first: Block, blocks: seq<Block>, n: nat, external: seq<Bytes>)
    ensures AllFit([first] + blocks, n, external) <==> BlockFits(first, n, external) && AllFit(blocks, n, external)
  {
    hide BlockFits;
    var all := [first] + blocks;
    assert all[0] == first && forall i :: 0 <= i < |blocks| ==> all[i + 1] == blocks[i];
  }

  /** A property may be added to those seen before the rest instead of standing in front of the rest. */
  lemma RepeatedSplit(first: Block, blocks: seq<Block>, seen: set<byte>)
    ensures NoneRepeated([first] + blocks) && NoneIn([first] + blocks, seen)
       <==> && (IsFileProperty(first.tag) ==> first.tag !in seen)
            && NoneRepeated(blocks)
            && NoneIn(blocks, if IsFileProperty(first.tag) then seen + {first.tag} else seen)
  {
    hide IsFileProperty;
    var all := [first] + blocks;
    assert all[0] == first && forall i :: 0 <= i < |blocks| ==> all[i + 1] == blocks[i];
    if NoneRepeated(all) && IsFileProperty(first.tag) {
      forall j | 0 <= j < |blocks| ensures blocks[j].tag != first.tag {
        assert all[j + 1] == blocks[j];
      }
    }
  }

  lemma {:induction false} PropertiesParse(s: Bytes, external: seq<Bytes>, listing: Listing, uses: bool)
    requires ScanProperties(s, listing.files.numFiles, uses).Ok?
    ensures ParseProperties(s, external, listing).Ok?
       <==> && AllFit(BlocksOf(s), listing.files.numFiles, external)
            && NoneRepeated(BlocksOf(s)) && NoneIn(BlocksOf(s), listing.seen)
    decreases |s|
  {
    hide ApplyProperty, BlockFits, IsFileProperty, SizedBlock, FlagsExternal, AllFit, NoneRepeated, NoneIn;
    var n := listing.files.numFiles;
    if s[0] == END {
      NoBlocks(n, external, listing.seen);
    } else {
      var block := SizedBlock(s[1..]);
      var first := Block(s[0], block.value);
      FitSplit(first, BlocksOf(block.rest), n, external);
      RepeatedSplit(first, BlocksOf(block.rest), listing.seen);
      BlockApplies(first, external, listing.files);
      var next := ParseProperty(s[0], s[1..], external, listing);
      if next.Ok? {
        PropertiesParse(block.rest, external, next.value, uses || FlagsExternal(s[0], block.value, n));
      }
    }
  }

  lemma NoBlocks(n: nat, external: seq<Bytes>, seen: set<byte>)
    ensures AllFit([], n, external) && NoneRepeated([]) && NoneIn([], seen)
  {
  }

  /**
   * The parser accepts a listing exactly when the scanner does, no file property is repeated, and each
   * block that is looked into has the data that its kind calls for.
   */
  lemma ListingParses(s: Bytes, external: seq<Bytes>)
    ensures ParseFilesInfo(s, external).Ok?
       <==> && ScanFilesInfo(s).Ok?
            && var count := ParseFileCount(s);
            && AllFit(BlocksOf(count.rest), count.value, external) && NoneRepeated(BlocksOf(count.rest))
  {
    hide ParseProperties, ScanProperties, ParseFileCount, AllFit, NoneRepeated, BlocksOf;
    if ParseFilesInfo(s, external).Ok? {
      ParsedFilesScan(s, external);
    }
    if ScanFilesInfo(s).Ok? {
      var count := ParseFileCount(s);
      PropertiesParse(count.rest, external, Listing(NoFiles(count.value), {}), false);
      assert NoneIn(BlocksOf(count.rest), {});
    }
  }

  // ---------------------------------------------------------------- external data

  lemma {:induction false} ScannedUsesStay(s: Bytes, n: u64)
    ensures ScanProperties(s, n, true).Ok? ==> ScanProperties(s, n, true).value
    decreases |s|
  {
    hide SizedBlock, FlagsExternal;
    if Tag(s).Ok? && s[0] != END && SizedBlock(s[1..]).Ok? {
      ScannedUsesStay(SizedBlock(s[1..]).rest, n);
    }
  }

  lemma {:induction false} PropertiesIgnoreExternal(s: Bytes, e: seq<Bytes>, e': seq<Bytes>, listing: Listing)
    requires ScanProperties(s, listing.files.numFiles, false).Ok?
    requires !ScanProperties(s, listing.files.numFiles, false).value
    ensures ParseProperties(s, e, listing) == ParseProperties(s, e', listing)
    decreases |s|
  {
    hide SizedBlock, NamesValid, ValuesFrom, ExternalData, SetValues;
    if s[0] != END {
      var n, block := listing.files.numFiles, SizedBlock(s[1..]);
      if FlagsExternal(s[0], block.value, n) {
        ScannedUsesStay(block.rest, n);
      }
      assert ApplyProperty(s[0], block.value, e, listing.files) == ApplyProperty(s[0], block.value, e', listing.files);
      var next := ParseProperty(s[0], s[1..], e, listing);
      if next.Ok? {
        PropertiesIgnoreExternal(next.rest, e, e', next.value);
      }
    }
  }

  /** When the scanner reports no external use, external data does not influence the listing. */
  lemma FilesIgnoreExternal(s: Bytes, e: seq<Bytes>, e': seq<Bytes>)
    requires ScanFilesInfo(s).Ok? && !ScanFilesInfo(s).value.1
    ensures ParseFilesInfo(s, e) == ParseFilesInfo(s, e')
  {
    hide ParseProperties, ScanProperties, ParseFileCount;
    var count := ParseFileCount(s);
    PropertiesIgnoreExternal(count.rest, e, e', Listing(NoFiles(count.value), {}));
  }

  // ---------------------------------------------------------------- locality

  lemma PropertyLocal(tag: byte, s: Bytes, external: seq<Bytes>, listing: Listing, tail: Bytes)
    requires ParseProperty(tag, s, external, listing).Ok?
    ensures var r := ParseProperty(tag, s, external, listing);
      SuffixOf(r.rest, s) && ParseProperty(tag, Eaten(s, r.rest) + tail, external, listing) == Ok(tail, r.value)
  {
    hide ApplyProperty, SizedBlock;
    SizedBlockLocal(s, tail);
  }

  lemma {:induction false} PropertiesLocal(s: Bytes, external: seq<Bytes>, listing: Listing, tail: Bytes)
    requires ParseProperties(s, external, listing).Ok?
    ensures var r := ParseProperties(s, external, listing);
      SuffixOf(r.rest, s) && ParseProperties(Eaten(s, r.rest) + tail, external, listing) == Ok(tail, r.value)
    decreases |s|
  {
    hide ParseProperty;
    if s[0] == END {
      TagLocal(s, tail);
    } else {
      var next, rest := ParseProperty(s[0], s[1..], external, listing), ParseProperties(s, external, listing).rest;
      PropertiesLocal(next.rest, external, next.value, tail);
      PropertyLocal(s[0], s[1..], external, listing, Eaten(next.rest, rest) + tail);
      EatenTwice(s[1..], next.rest, rest, tail);
      EatenCons(s, rest, tail);
    }
  }

  lemma FileCountLocal(s: Bytes, tail: Bytes)
    requires ParseFileCount(s).Ok?
    ensures var r := ParseFileCount(s);
      SuffixOf(r.rest, s) && ParseFileCount(Eaten(s, r.rest) + tail) == Ok(tail, r.value)
  {
    var rest := ParseFileCount(s).rest;
    VarintLocal(s[1..], tail);
    ExpectLocal(s, FILES_INFO, Eaten(s[1..], rest) + tail);
    EatenTwice(s, s[1..], rest, tail);
  }

  /** The listing is determined by the bytes it consumes. */
  lemma FilesLocal(s: Bytes, external: seq<Bytes>, tail: Bytes)
    requires ParseFilesInfo(s, external).Ok?
    ensures var r := ParseFilesInfo(s, external);
      SuffixOf(r.rest, s) && ParseFilesInfo(Eaten(s, r.rest) + tail, external) == Ok(tail, r.value)
  {
    hide ParseProperties, ParseFileCount;
    var count, rest := ParseFileCount(s), ParseFilesInfo(s, external).rest;
    PropertiesLocal(count.rest, external, Listing(NoFiles(count.value), {}), tail);
    FileCountLocal(s, Eaten(count.rest, rest) + tail);
    EatenTwice(s, count.rest, rest, tail);
  }

  method ReadFilesInfo(s: Bytes, external: seq<Bytes>) returns (r: ParseResult<FilesInfo>)
    ensures r == ParseFilesInfo(s, external)
  {
    hide ParseProperty, ParseFileCount;
    var count := ParseFileCount(s);
    if count.Err? {
      return Err(count.kind);
    }
    var input, listing := count.rest, Listing(NoFiles(count.value), {});
    while true
      invariant ParseProperties(count.rest, external, Listing(NoFiles(count.value), {}))
             == ParseProperties(input, external, listing)
      decreases |input|
    {
      var tag := Tag(input);
      if tag.Err? {
        return Err(tag.kind);
      }
      if tag.value == END {
        var ordinals := FillOrdinals(listing.files.emptyStreams, count.value);
        return Ok(tag.rest, listing.files.(emptyStreamOrdinals := ordinals));
      }
      var next := ParseProperty(tag.value, tag.rest, external, listing);
      if next.Err? {
        return Err(next.kind);
      }
      input, listing := next.rest, next.value;
    }
  }

  method WalkFilesInfo(s: Bytes) returns (r: ParseResult<(u64, bool)>)
    ensures r == ScanFilesInfo(s)
  {
    hide SizedBlock, ParseFileCount, FlagsExternal;
    var count := ParseFileCount(s);
    if count.Err? {
      return Err(count.kind);
    }
    var input, uses := count.rest, false;
    while true
      invariant ScanProperties(count.rest, count.value, false) == ScanProperties(input, count.value, uses)
      decreases |input|
    {
      var tag := Tag(input);
      if tag.Err? {
        return Err(tag.kind);
      }
      if tag.value == END {
        return Ok(tag.rest, (count.value, uses));
      }
      var block := SizedBlock(tag.rest);
      if block.Err? {
        return Err(block.kind);
      }
      uses := uses || FlagsExternal(tag.value, block.value, count.value);
      input := block.rest;
    }
  }

  // ---------------------------------------------------------------- ordinals and kinds

  /** How many of the first i entries have no stream. */
  function Rank(emptyStreams: Bytes, i: nat): nat {
    if i == 0 then 0 else Rank(emptyStreams, i - 1) + if BitmapIsSet(emptyStreams, i - 1) then 1 else 0
  }

  /** Entries without a stream are numbered among themselves. */
  function Ordinals(emptyStreams: Bytes, n: nat): seq<Option<nat>> {
    seq(n, i requires 0 <= i < n =>
      if BitmapIsSet(emptyStreams, i) then Some(Rank(emptyStreams, i)) else None)
  }

  method FillOrdinals(emptyStreams: Bytes, n: nat) returns (ordinals: seq<Option<nat>>)
    ensures ordinals == Ordinals(emptyStreams, n)
  {
    var nextEmpty: nat := 0;
    ordinals := [];
    for i := 0 to n
      invariant nextEmpty == Rank(emptyStreams, i)
      invariant ordinals == Ordinals(emptyStreams, i)
    {
      if BitmapIsSet(emptyStreams, i) {
        ordinals := ordinals + [Some(nextEmpty)];
        nextEmpty := nextEmpty + 1;
      } else {
        ordinals := ordinals + [None];
      }
    }
  }

  datatype EntryKind<+S> = File(stream: S) | Symlink(stream: S) | EmptyFile | EmptySymlink | Directory | Anti {
    predicate HasStream() {
      File? || Symlink?
    }
  }

  /** A Unix mode in the high half of the attributes whose file type is a symbolic link. */
  predicate IsSymlinkMode(attributes: nat) {
    attributes / 0x1000_0000 == 0xA
  }

  predicate IsSymlink(files: FilesInfo, i: nat) {
    i < |files.attributes| && files.attributes[i].Some? && IsSymlinkMode(files.attributes[i].value)
  }

  /** A bitmap over the entries without a stream, looked up by file index. */
  predicate IsSetAmongEmpty(files: FilesInfo, bitmap: Bytes, i: nat) {
    && i < |files.emptyStreamOrdinals| && files.emptyStreamOrdinals[i].Some?
    && BitmapIsSet(bitmap, files.emptyStreamOrdinals[i].value)
  }

  function EntryKindAt(files: FilesInfo, i: nat): EntryKind<()> {
    if IsSetAmongEmpty(files, files.antiItems, i) then Anti
    else if !BitmapIsSet(files.emptyStreams, i) then if IsSymlink(files, i) then Symlink(()) else File(())
    else if IsSymlink(files, i) then EmptySymlink
    else if IsSetAmongEmpty(files, files.emptyFiles, i) then EmptyFile
    else EntryKind.Directory
  }

  lemma {:induction false} RankOrdered(emptyStreams: Bytes, i: nat, j: nat)
    requires i < j && BitmapIsSet(emptyStreams, i)
    ensures Rank(emptyStreams, i) < Rank(emptyStreams, j)
  {
    if i + 1 < j {
      RankOrdered(emptyStreams, i, j - 1);
    }
  }

  /** Distinct entries without a stream have distinct ordinals, in file order. */
  lemma OrdinalsIncrease(emptyStreams: Bytes, n: nat, i: nat, j: nat)
    requires i < j < n && Ordinals(emptyStreams, n)[i].Some? && Ordinals(emptyStreams, n)[j].Some?
    ensures Ordinals(emptyStreams, n)[i].value < Ordinals(emptyStreams, n)[j].value
  {
    RankOrdered(emptyStreams, i, j);
  }

  /** In a parsed listing an entry has a stream exactly when its empty-stream bit is clear. */
  lemma StreamExactlyWhenNotEmpty(s: Bytes, external: seq<Bytes>, i: nat)
    requires ParseFilesInfo(s, external).Ok? && i < ParseFilesInfo(s, external).value.numFiles
    ensures var files := ParseFilesInfo(s, external).value;
      EntryKindAt(files, i).HasStream() <==> !BitmapIsSet(files.emptyStreams, i)
  {
    hide ParseProperties, ParseFileCount, BitmapIsSet, IsSymlink;
  }
}
