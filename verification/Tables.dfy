/**
 * The property loop shared by PackInfo, UnpackInfo and SubstreamInfo. Each of the three reads tagged
 * items until the end tag; the parser keeps the tables, the scanner keeps two running totals.
 */
module PropertyTables {
  import opened Wrappers
  import opened Words
  import opened Parsers
  import opened Digests

  /** A larger digest table would exceed the metadata budget. */
  const MAX_SUBSTREAM_DIGESTS: nat := 8_388_608

  datatype Section =
    | PackSection(streams: nat)
    | UnpackSection(folders: nat, outputs: nat)
    | SubstreamSection(folders: nat)

  /** What the parser has collected. counts is used by the substream section only. */
  datatype Table = Table(counts: seq<u64>, sizes: seq<u64>, digests: seq<Option<u32>>)

  /** What the scanner remembers of the substream counts. */
  datatype Tally = Tally(total: nat, explicit: nat)

  datatype Item = CountsItem | SizesItem | DigestsItem | UnknownItem

  function ItemOf(section: Section, tag: byte): Item {
    if tag == CRC then DigestsItem
    else if section.UnpackSection? && tag == CODERS_UNPACK_SIZE then SizesItem
    else if section.SubstreamSection? && tag == NUM_UNPACK_STREAM then CountsItem
    else if section.SubstreamSection? && tag == SIZE then SizesItem
    else UnknownItem
  }

  // ---------------------------------------------------------------- totals

  function Total(counts: seq<u64>): nat {
    if counts == [] then 0 else counts[0] + Total(counts[1..])
  }

  /** The last stream of a folder has no size of its own. */
  function ExplicitOf(count: nat): nat {
    if count == 0 then 0 else count - 1
  }

  function Explicit(counts: seq<u64>): (r: nat)
    ensures r <= Total(counts)
  {
    if counts == [] then 0 else ExplicitOf(counts[0]) + Explicit(counts[1..])
  }

  function Ones(n: nat): (r: seq<u64>)
    ensures |r| == n && Total(r) == n && Explicit(r) == 0
  {
    if n == 0 then [] else [1] + Ones(n - 1)
  }

  // ---------------------------------------------------------------- one item

  function ParseCounts(s: Bytes, folders: nat): (r: ParseResult<seq<u64>>)
    ensures r.Ok? ==> |r.rest| <= |s| && |r.value| == folders && Total(r.value) < U64_LIMIT
  {
    var (rest, counts) :- DecodeMany(s, folders);
    if Total(counts) >= U64_LIMIT then Err(TooLarge) else Ok(rest, counts)
  }

  function ParseSizes(s: Bytes, n: nat, checked: bool): (r: ParseResult<seq<u64>>)
    ensures r.Ok? ==> |r.rest| <= |s|
  {
    if checked && n > |s| then Err(Eof) else DecodeMany(s, n)
  }

  function ParseTableDigests(section: Section, s: Bytes, counts: seq<u64>): (r: ParseResult<seq<Option<u32>>>)
    ensures r.Ok? ==> |r.rest| <= |s|
  {
    match section
    case PackSection(streams) => ParseDigests(s, streams)
    case UnpackSection(folders, _) => ParseDigests(s, folders)
    case SubstreamSection(_) =>
      if Total(counts) > MAX_SUBSTREAM_DIGESTS then Err(TooLarge) else ParseStreamDigests(s, Total(counts))
  }

  function SizeCount(section: Section, explicit: nat): nat {
    if section.UnpackSection? then section.outputs else explicit
  }

  function ParseItem(section: Section, item: Item, s: Bytes, table: Table): (r: ParseResult<Table>)
    ensures r.Ok? ==> |r.rest| <= |s|
  {
    match item
    case CountsItem =>
      var folders := if section.PackSection? then 0 else section.folders;
      var (rest, counts) :- ParseCounts(s, folders);
      Ok(rest, table.(counts := counts))
    case SizesItem =>
      var (rest, sizes) :- ParseSizes(s, SizeCount(section, Explicit(table.counts)), section.SubstreamSection?);
      Ok(rest, table.(sizes := table.sizes + sizes))
    case DigestsItem =>
      var (rest, digests) :- ParseTableDigests(section, s, table.counts);
      Ok(rest, table.(digests := digests))
    case UnknownItem =>
      var (rest, _) :- SizedBlock(s);
      Ok(rest, table)
  }

  /** The scanner checks the running totals after every count. */
  function ScanCounts(s: Bytes, folders: nat, tally: Tally): (r: ParseResult<Tally>)
    ensures r.Ok? ==> |r.rest| <= |s|
    decreases folders
  {
    if folders == 0 then Ok(s, tally) else
      var (input, count) :- DecodeVarint(s);
      VarintLocal(s, []);
      var next := Tally(tally.total + count, tally.explicit + ExplicitOf(count));
      if next.explicit >= U64_LIMIT || next.total >= U64_LIMIT then Err(TooLarge)
      else ScanCounts(input, folders - 1, next)
  }

  function ScanTableDigests(section: Section, s: Bytes, total: nat): (r: ParseResult<()>)
    ensures r.Ok? ==> |r.rest| <= |s|
  {
    match section
    case PackSection(streams) => ScanDigests(s, streams)
    case UnpackSection(folders, _) => ScanDigests(s, folders)
    case SubstreamSection(_) =>
      if total > MAX_SUBSTREAM_DIGESTS then Err(TooLarge) else ScanDigests(s, total)
  }

  function ScanItem(section: Section, item: Item, s: Bytes, tally: Tally): (r: ParseResult<Tally>)
    ensures r.Ok? ==> |r.rest| <= |s|
  {
    match item
    case CountsItem => ScanCounts(s, if section.PackSection? then 0 else section.folders, Tally(0, 0))
    case SizesItem =>
      var (rest, _) :- ParseSizes(s, SizeCount(section, tally.explicit), section.SubstreamSection?);
      Ok(rest, tally)
    case DigestsItem =>
      var (rest, _) :- ScanTableDigests(section, s, tally.total);
      Ok(rest, tally)
    case UnknownItem =>
      var (rest, _) :- SizedBlock(s);
      Ok(rest, tally)
  }

  // ---------------------------------------------------------------- the loop

  function ParseTable(section: Section, s: Bytes, table: Table): (r: ParseResult<Table>)
    ensures r.Ok? ==> |r.rest| < |s|
    decreases |s|
  {
    var (input, tag) :- Tag(s);
    if tag == END then Ok(input, table) else
      var (rest, next) :- ParseItem(section, ItemOf(section, tag), input, table);
      ParseTable(section, rest, next)
  }

  function ScanTable(section: Section, s: Bytes, tally: Tally): (r: ParseResult<Tally>)
    ensures r.Ok? ==> |r.rest| < |s|
    decreases |s|
  {
    var (input, tag) :- Tag(s);
    if tag == END then Ok(input, tally) else
      var (rest, next) :- ScanItem(section, ItemOf(section, tag), input, tally);
      ScanTable(section, rest, next)
  }

  // ---------------------------------------------------------------- agreement

  /** The scanner's totals are those of the parser's table. */
  ghost predicate Tracks(table: Table, tally: Tally) {
    tally == Tally(Total(table.counts), Explicit(table.counts)) && tally.total < U64_LIMIT
  }

  lemma NoCounts()
    ensures Total([]) == 0 && Explicit([]) == 0
  {
  }

  lemma CountsCons(first: u64, more: seq<u64>)
    ensures Total([first] + more) == first + Total(more)
    ensures Explicit([first] + more) == ExplicitOf(first) + Explicit(more)
  {
    assert ([first] + more)[1..] == more;
  }

  lemma {:induction false} CountsAgree(s: Bytes, folders: nat, tally: Tally)
    requires tally.explicit <= tally.total < U64_LIMIT
    ensures var scanned, parsed := ScanCounts(s, folders, tally), DecodeMany(s, folders);
      && (scanned.Ok? <==> parsed.Ok? && tally.total + Total(parsed.value) < U64_LIMIT)
      && (scanned.Ok? ==> scanned == Ok(parsed.rest,
            Tally(tally.total + Total(parsed.value), tally.explicit + Explicit(parsed.value))))
    decreases folders
  {
    hide DecodeVarint, DecodeMany, Total, Explicit;
    if folders == 0 {
      NoneDecoded(s);
      NoCounts();
    } else {
      DecodeManyUnfold(s, folders);
      if DecodeVarint(s).Ok? {
        var first := DecodeVarint(s);
        var more := DecodeMany(first.rest, folders - 1);
        CountsCons(first.value, if more.Ok? then more.value else []);
        var next := Tally(tally.total + first.value, tally.explicit + ExplicitOf(first.value));
        if next.total < U64_LIMIT {
          CountsAgree(first.rest, folders - 1, next);
        }
      }
    }
  }

  lemma ItemAgrees(section: Section, item: Item, s: Bytes, table: Table, tally: Tally)
    requires Tracks(table, tally) && |s| < U64_LIMIT
    ensures SameExtent(ParseItem(section, item, s, table), ScanItem(section, item, s, tally))
    ensures var parsed, scanned := ParseItem(section, item, s, table), ScanItem(section, item, s, tally);
      parsed.Ok? && scanned.Ok? ==> Tracks(parsed.value, scanned.value)
  {
    match item
    case CountsItem =>
      CountsAgree(s, if section.PackSection? then 0 else section.folders, Tally(0, 0));
    case SizesItem =>
    case DigestsItem =>
      match section {
        case PackSection(streams) => DigestScanAgrees(s, streams);
        case UnpackSection(folders, _) => DigestScanAgrees(s, folders);
        case SubstreamSection(_) => DigestScanAgrees(s, Total(table.counts));
      }
    case UnknownItem =>
  }

  /** Parser and scanner accept the same tables and stop at the same place. */
  lemma {:induction false} TablesAgree(section: Section, s: Bytes, table: Table, tally: Tally)
    requires Tracks(table, tally) && |s| < U64_LIMIT
    ensures SameExtent(ParseTable(section, s, table), ScanTable(section, s, tally))
    decreases |s|
  {
    if Tag(s).Ok? && s[0] != END {
      var item := ItemOf(section, s[0]);
      ItemAgrees(section, item, s[1..], table, tally);
      var parsed := ParseItem(section, item, s[1..], table);
      if parsed.Ok? {
        TablesAgree(section, parsed.rest, parsed.value, ScanItem(section, item, s[1..], tally).value);
      }
    }
  }

  // ---------------------------------------------------------------- locality

  lemma SizesLocal(s: Bytes, n: nat, checked: bool, tail: Bytes)
    requires ParseSizes(s, n, checked).Ok?
    ensures var r := ParseSizes(s, n, checked);
      SuffixOf(r.rest, s) && ParseSizes(Eaten(s, r.rest) + tail, n, checked) == Ok(tail, r.value)
  {
    hide DecodeMany;
    ManyLocal(s, n, tail);
  }

  lemma TableDigestsLocal(section: Section, s: Bytes, counts: seq<u64>, tail: Bytes)
    requires ParseTableDigests(section, s, counts).Ok?
    ensures var r := ParseTableDigests(section, s, counts);
      SuffixOf(r.rest, s) && ParseTableDigests(section, Eaten(s, r.rest) + tail, counts) == Ok(tail, r.value)
  {
    hide ParseDigests, ParseStreamDigests;
    match section
    case PackSection(streams) => DigestsLocal(s, streams, tail);
    case UnpackSection(folders, _) => DigestsLocal(s, folders, tail);
    case SubstreamSection(_) => StreamDigestsLocal(s, Total(counts), tail);
  }

  lemma ItemLocal(section: Section, item: Item, s: Bytes, table: Table, tail: Bytes)
    requires ParseItem(section, item, s, table).Ok?
    ensures var r := ParseItem(section, item, s, table);
      SuffixOf(r.rest, s) && ParseItem(section, item, Eaten(s, r.rest) + tail, table) == Ok(tail, r.value)
  {
    hide ParseSizes, ParseTableDigests, DecodeMany, SizedBlock, Eaten, SuffixOf;
    match item
    case CountsItem => ManyLocal(s, if section.PackSection? then 0 else section.folders, tail);
    case SizesItem =>
      SizesLocal(s, SizeCount(section, Explicit(table.counts)), section.SubstreamSection?, tail);
    case DigestsItem => TableDigestsLocal(section, s, table.counts, tail);
    case UnknownItem => SizedBlockLocal(s, tail);
  }

  lemma {:induction false} TableLocal(section: Section, s: Bytes, table: Table, tail: Bytes)
    requires ParseTable(section, s, table).Ok?
    ensures var r := ParseTable(section, s, table);
      SuffixOf(r.rest, s) && ParseTable(section, Eaten(s, r.rest) + tail, table) == Ok(tail, r.value)
    decreases |s|
  {
    if s[0] == END {
      TagLocal(s, tail);
    } else {
      var item, rest := ItemOf(section, s[0]), ParseTable(section, s, table).rest;
      var next := ParseItem(section, item, s[1..], table);
      TableLocal(section, next.rest, next.value, tail);
      ItemLocal(section, item, s[1..], table, Eaten(next.rest, rest) + tail);
      EatenTwice(s[1..], next.rest, rest, tail);
      EatenCons(s, rest, tail);
    }
  }

  // ---------------------------------------------------------------- the loops of the source

  method ReadTable(section: Section, s: Bytes, initial: Table) returns (r: ParseResult<Table>)
    ensures r == ParseTable(section, s, initial)
  {
    var input, table := s, initial;
    while true
      invariant ParseTable(section, s, initial) == ParseTable(section, input, table)
      decreases |input|
    {
      var tag := Tag(input);
      if tag.Err? {
        return Err(tag.kind);
      }
      if tag.value == END {
        return Ok(tag.rest, table);
      }
      var next := ParseItem(section, ItemOf(section, tag.value), tag.rest, table);
      if next.Err? {
        return Err(next.kind);
      }
      input, table := next.rest, next.value;
    }
  }

  method WalkTable(section: Section, s: Bytes, initial: Tally) returns (r: ParseResult<Tally>)
    ensures r == ScanTable(section, s, initial)
  {
    var input, tally := s, initial;
    while true
      invariant ScanTable(section, s, initial) == ScanTable(section, input, tally)
      decreases |input|
    {
      var tag := Tag(input);
      if tag.Err? {
        return Err(tag.kind);
      }
      if tag.value == END {
        return Ok(tag.rest, tally);
      }
      var next := ScanItem(section, ItemOf(section, tag.value), tag.rest, tally);
      if next.Err? {
        return Err(next.kind);
      }
      input, tally := next.rest, next.value;
    }
  }
}
