/** Carving the flat size and digest tables into folders and substreams. */
module FolderLayouts {
  import opened Wrappers
  import opened Words
  import opened Counting
  import opened Folders
  import opened FolderGraphs
  import opened PropertyTables
  import opened PackInfos
  import opened StreamInfos

  // ---------------------------------------------------------------- sums

  /** The sum of a list of sizes, if it fits 64 bits. */
  function CheckedSum(start: nat, sizes: seq<u64>): Option<u64> {
    if start + Total(sizes) < U64_LIMIT then Some(start + Total(sizes)) else None
  }

  lemma {:induction false} TotalAppend(a: seq<u64>, b: seq<u64>)
    ensures Total(a + b) == Total(a) + Total(b)
  {
    if a == [] {
      assert a + b == b;
    } else {
      TotalAppend(a[1..], b);
      assert (a + b)[1..] == a[1..] + b;
    }
  }

  lemma TotalOneMore(sizes: seq<u64>, i: nat)
    requires i < |sizes|
    ensures Total(sizes[..i + 1]) == Total(sizes[..i]) + sizes[i]
  {
    TotalAppend(sizes[..i], [sizes[i]]);
    assert sizes[..i + 1] == sizes[..i] + [sizes[i]];
    assert [sizes[i]][1..] == [];
  }

  lemma TotalPrefix(sizes: seq<u64>, i: nat)
    requires i <= |sizes|
    ensures Total(sizes[..i]) <= Total(sizes)
  {
    TotalAppend(sizes[..i], sizes[i..]);
    assert sizes == sizes[..i] + sizes[i..];
  }

  /** The checked fold over sizes: it stops as soon as the running total would overflow. */
  method FoldSizes(start: u64, sizes: seq<u64>) returns (r: Option<u64>)
    ensures r == CheckedSum(start, sizes)
  {
    var total: u64 := start;
    for i := 0 to |sizes|
      invariant total == start + Total(sizes[..i])
    {
      TotalOneMore(sizes, i);
      if total + sizes[i] >= U64_LIMIT {
        TotalPrefix(sizes, i + 1);
        return None;
      }
      total := total + sizes[i];
    }
    assert sizes[..|sizes|] == sizes;
    r := Some(total);
  }

  // ---------------------------------------------------------------- substreams of one folder

  datatype StreamLayout = StreamLayout(explicitSizes: seq<u64>, finalSize: Option<u64>, digests: seq<Option<u32>>) {
    function Count(): nat {
      |explicitSizes| + if finalSize.Some? then 1 else 0
    }

    /** Every stream size, the implicit last one included. */
    function Sizes(): (r: seq<u64>)
      ensures |r| == Count()
    {
      explicitSizes + if finalSize.Some? then [finalSize.value] else []
    }

    /** Where stream i starts. */
    function Start(i: nat): nat
      requires i <= Count()
    {
      Total(Sizes()[..i])
    }

    function Digest(i: nat): Option<u32> {
      if i < |digests| then digests[i] else None
    }

    /** The streams, in order, take up exactly the folder's output when there is any stream. */
    ghost predicate Tiles(decodedLen: u64) {
      && (finalSize.None? ==> explicitSizes == [])
      && (finalSize.Some? ==> Total(Sizes()) == decodedLen)
      && (digests == [] || |digests| == Count())
    }
  }

  function NewStreamLayout(
    decodedLen: u64, count: nat, explicitSizes: seq<u64>, digests: seq<Option<u32>>): Result<StreamLayout, R7zError>
  {
    if |explicitSizes| != ExplicitOf(count) || (digests != [] && |digests| != count) then Failure(Parse)
    else
      match CheckedSum(0, explicitSizes)
      case None => Failure(Parse)
      case Some(total) =>
        if total > decodedLen then Failure(Parse)
        else Success(StreamLayout(explicitSizes, if count != 0 then Some(decodedLen - total) else None, digests))
  }

  lemma NewStreamLayoutTiles(decodedLen: u64, count: nat, explicitSizes: seq<u64>, digests: seq<Option<u32>>)
    requires NewStreamLayout(decodedLen, count, explicitSizes, digests).Success?
    ensures var layout := NewStreamLayout(decodedLen, count, explicitSizes, digests).value;
      layout.Tiles(decodedLen) && layout.Count() == count
  {
    var layout := NewStreamLayout(decodedLen, count, explicitSizes, digests).value;
    if layout.finalSize.Some? {
      TotalAppend(explicitSizes, [layout.finalSize.value]);
      assert Total([layout.finalSize.value]) == layout.finalSize.value + Total([layout.finalSize.value][1..]);
    }
  }

  datatype Substream = Substream(start: nat, end: nat, digest: Option<u32>)

  function SubstreamAt(layout: StreamLayout, i: nat): Substream
    requires i < layout.Count()
  {
    Substream(layout.Start(i), layout.Start(i + 1), layout.Digest(i))
  }

  /** The substreams still to come, in order. */
  class Substreams {
    const layout: StreamLayout
    ghost const decodedLen: u64
    var position: nat
    var offset: u64

    ghost predicate Valid()
      reads this
    {
      layout.Tiles(decodedLen) && position <= layout.Count() && offset == layout.Start(position)
    }

    constructor (layout: StreamLayout, ghost decodedLen: u64)
      requires layout.Tiles(decodedLen)
      ensures Valid() && this.layout == layout && this.decodedLen == decodedLen && position == 0
    {
      this.layout, this.decodedLen, position, offset := layout, decodedLen, 0, 0;
    }

    /** The unchecked addition of the source cannot overflow: the end lies within the folder. */
    method Next() returns (r: Option<Substream>)
      requires Valid()
      modifies this
      ensures Valid()
      ensures old(position) == layout.Count() ==> r == None && position == old(position)
      ensures old(position) < layout.Count()
        ==> r == Some(SubstreamAt(layout, old(position))) && position == old(position) + 1
      ensures r.Some? ==> r.value.end <= decodedLen
    {
      if position == layout.Count() {
        return None;
      }
      var size := if position < |layout.explicitSizes| then layout.explicitSizes[position] else layout.finalSize.value;
      assert size == layout.Sizes()[position];
      TotalOneMore(layout.Sizes(), position);
      TotalPrefix(layout.Sizes(), position + 1);
      var end: u64 := offset + size;
      r := Some(Substream(offset, end, layout.Digest(position)));
      offset, position := end, position + 1;
    }
  }

  /** Consecutive substreams meet, the first starts at zero and the last ends with the folder. */
  lemma SubstreamsTile(layout: StreamLayout, decodedLen: u64, i: nat)
    requires layout.Tiles(decodedLen) && i < layout.Count()
    ensures SubstreamAt(layout, 0).start == 0
    ensures SubstreamAt(layout, i).start <= SubstreamAt(layout, i).end <= decodedLen
    ensures SubstreamAt(layout, i).end - SubstreamAt(layout, i).start == layout.Sizes()[i]
    ensures i + 1 < layout.Count() ==> SubstreamAt(layout, i).end == SubstreamAt(layout, i + 1).start
    ensures i + 1 == layout.Count() ==> SubstreamAt(layout, i).end == decodedLen
  {
    TotalOneMore(layout.Sizes(), i);
    TotalPrefix(layout.Sizes(), i + 1);
    assert layout.Sizes()[..0] == [];
    if i + 1 == layout.Count() {
      assert layout.Sizes()[..i + 1] == layout.Sizes();
    }
  }

  // ---------------------------------------------------------------- what a folder graph contributes

  /** Inputs that no bind pair feeds are read from packed streams. */
  function PackedStreamCount(folder: Folder): nat {
    if Sum(InputCounts(folder.coders)) < |folder.bindPairs| then 0
    else Sum(InputCounts(folder.coders)) - |folder.bindPairs|
  }

  function TotalOutStreams(folder: Folder): nat {
    Sum(OutputCounts(folder.coders))
  }

  /** The output that no bind pair uses. */
  ghost predicate IsFinalOutput(folder: Folder, o: nat) {
    o < TotalOutStreams(folder) && !OutputUsed(folder.bindPairs, o)
  }

  ghost function FinalOutput(folder: Folder): nat
    requires exists o: nat :: IsFinalOutput(folder, o)
  {
    var o: nat :| IsFinalOutput(folder, o);
    o
  }

  lemma GraphFinalOutput(g: FolderGraph, folder: Folder)
    requires GraphFor(g, folder)
    ensures IsFinalOutput(folder, g.finalOutput)
    ensures forall o: nat :: IsFinalOutput(folder, o) ==> o == g.finalOutput
    ensures FinalOutput(folder) == g.finalOutput
    ensures |g.packedInputs| == PackedStreamCount(folder)
  {
    assert IsFinalOutput(folder, g.finalOutput);
  }

  lemma AcceptedHasFinalOutput(folder: Folder)
    requires Accepts(folder)
    ensures exists o: nat :: IsFinalOutput(folder, o)
  {
    var owners, pairs := OwnersOf(folder.coders), folder.bindPairs;
    if forall o: nat :: o < |owners.outputs| ==> OutputUsed(pairs, o) {
      forall o: nat | o in UpTo(|owners.outputs|) ensures o in Elements(UsedOutputs(pairs)) {
        UsedMembers(pairs, o);
      }
      SubsetSize(UpTo(|owners.outputs|), Elements(UsedOutputs(pairs)));
      ElementsAtMost(UsedOutputs(pairs));
      assert false;
    }
    var o: nat :| o < |owners.outputs| && !OutputUsed(pairs, o);
    assert IsFinalOutput(folder, o);
  }

  lemma {:induction false} ElementsAtMost(s: seq<nat>)
    ensures |Elements(s)| <= |s|
  {
    if s == [] {
      assert Elements(s) == {};
    } else {
      var init, last := s[..|s| - 1], s[|s| - 1];
      ElementsAtMost(init);
      assert s == init + [last];
      assert Elements(s) == Elements(init) + {last};
    }
  }

  // ---------------------------------------------------------------- one folder

  datatype FolderLayout = FolderLayout(
    folder: Folder, packStart: u64, packSizes: seq<u64>, packDigests: seq<Option<u32>>,
    coderSizes: seq<u64>, unpackSize: u64, crc: Option<u32>, streams: StreamLayout)

  datatype Tables = Tables(pack: PackInfo, unpack: UnpackInfo, substreams: Option<SubstreamInfo>) {
    function FolderCount(): nat {
      if |unpack.folderOffsets| == 0 then 0 else |unpack.folderOffsets| - 1
    }
  }

  /** How much of each table the folders planned so far own. */
  datatype Cursor = Cursor(
    folderIndex: nat, packIndex: nat, outputBase: nat, packOffset: u64, sizeBase: nat, digestBase: nat)

  const START := Cursor(0, 0, 0, 0, 0, 0)

  function Window<T>(s: seq<T>, from: nat, count: nat): (r: Option<seq<T>>)
    ensures r.Some? ==> from + count <= |s| && |r.value| == count
  {
    if from + count <= |s| then Some(s[from..from + count]) else None
  }

  function StreamCountOf(tables: Tables, index: nat): Option<u64> {
    match tables.substreams
    case None => Some(1)
    case Some(info) => if index < |info.counts| then Some(info.counts[index]) else None
  }

  /** The explicit stream sizes of a folder. */
  function ExplicitWindow(tables: Tables, cursor: Cursor, count: nat): Option<seq<u64>> {
    match tables.substreams
    case None => Some([])
    case Some(info) => Window(info.sizes, cursor.sizeBase, ExplicitOf(count))
  }

  /** Stream digests: from the substream table, or the folder's own for its only stream. */
  function DigestWindow(tables: Tables, cursor: Cursor, count: nat): Option<seq<Option<u32>>> {
    match tables.substreams
    case Some(info) => if info.digests != [] then Window(info.digests, cursor.digestBase, count) else Some([])
    case None =>
      Some(if cursor.folderIndex < |tables.unpack.digests|
           then tables.unpack.digests[cursor.folderIndex..cursor.folderIndex + 1] else [])
  }

  function PackDigestWindow(tables: Tables, from: nat, end: nat): seq<Option<u32>> {
    var digests := tables.pack.digests;
    var stop := if end < |digests| then end else |digests|;
    if from <= stop then digests[from..stop] else []
  }

  function FolderCrc(tables: Tables, index: nat): Option<u32> {
    if index < |tables.unpack.digests| then tables.unpack.digests[index] else None
  }

  /** The windows of one folder, given its coders and final output. */
  function LayOut(tables: Tables, cursor: Cursor, folder: Folder, finalOutput: nat)
    : Result<(FolderLayout, Cursor), R7zError>
  {
    var packCount, outputs := PackedStreamCount(folder), TotalOutStreams(folder);
    var packSizes := Window(tables.pack.packSizes, cursor.packIndex, packCount);
    var coderSizes := Window(tables.unpack.unpackSizes, cursor.outputBase, outputs);
    var count := StreamCountOf(tables, cursor.folderIndex);
    if packSizes.None? || coderSizes.None? || finalOutput >= outputs || count.None? then Failure(Parse)
    else
      var explicit := ExplicitWindow(tables, cursor, count.value);
      var digests := DigestWindow(tables, cursor, count.value);
      if explicit.None? || digests.None? then Failure(Parse)
      else
        var unpackSize := coderSizes.value[finalOutput];
        var streams :- NewStreamLayout(unpackSize, count.value, explicit.value, digests.value);
        match CheckedSum(cursor.packOffset, packSizes.value)
        case None => Failure(Parse)
        case Some(packOffset) =>
          Success((
            FolderLayout(folder, cursor.packOffset, packSizes.value,
              PackDigestWindow(tables, cursor.packIndex, cursor.packIndex + packCount),
              coderSizes.value, unpackSize, FolderCrc(tables, cursor.folderIndex), streams),
            Cursor(cursor.folderIndex + 1, cursor.packIndex + packCount, cursor.outputBase + outputs, packOffset,
              cursor.sizeBase + ExplicitOf(count.value), cursor.digestBase + count.value)))
  }

  ghost function NextFolder(tables: Tables, cursor: Cursor): Result<(FolderLayout, Cursor), R7zError> {
    match tables.unpack.FolderAt(cursor.folderIndex)
    case Failure(error) => Failure(error)
    case Success(folder) =>
      if !Accepts(folder) then Failure(InvalidFolderGraph)
      else
        AcceptedHasFinalOutput(folder);
        LayOut(tables, cursor, folder, FinalOutput(folder))
  }

  /** All tables have been used up. */
  predicate IsComplete(tables: Tables, cursor: Cursor) {
    && cursor.packIndex == |tables.pack.packSizes|
    && tables.unpack.numFolders == tables.FolderCount()
    && cursor.outputBase == |tables.unpack.unpackSizes|
    && (tables.pack.digests == [] || |tables.pack.digests| == |tables.pack.packSizes|)
    && (tables.unpack.digests == [] || |tables.unpack.digests| == tables.FolderCount())
    && (tables.substreams.Some? ==>
        && |tables.substreams.value.counts| == tables.FolderCount()
        && |tables.substreams.value.sizes| == cursor.sizeBase
        && (tables.substreams.value.digests == [] || |tables.substreams.value.digests| == cursor.digestBase))
  }

  // ---------------------------------------------------------------- all folders

  /** What the iteration yields from a cursor on: layouts up to the end or the first error. */
  ghost function Items(tables: Tables, cursor: Cursor): seq<Result<FolderLayout, R7zError>>
    decreases tables.FolderCount() - cursor.folderIndex
  {
    if cursor.folderIndex >= tables.FolderCount() then
      if IsComplete(tables, cursor) then [] else [Failure(Parse)]
    else
      match NextFolder(tables, cursor)
      case Failure(error) => [Failure(error)]
      case Success(step) => [Success(step.0)] + Items(tables, step.1)
  }

  /** The iterator over folder layouts; an error or the end finishes it. */
  class FolderPlans {
    const tables: Tables
    var cursor: Cursor
    var finished: bool

    ghost function Left(): seq<Result<FolderLayout, R7zError>>
      reads this
    {
      if finished then [] else Items(tables, cursor)
    }

    ghost predicate Valid()
      reads this
    {
      cursor.folderIndex <= tables.FolderCount()
    }

    constructor (tables: Tables)
      ensures Valid() && this.tables == tables && Left() == Items(tables, START) && cursor == START && !finished
    {
      this.tables, cursor, finished := tables, START, false;
    }

    method Next() returns (r: Option<Result<FolderLayout, R7zError>>)
      requires Valid()
      modifies this
      ensures Valid()
      ensures old(Left()) == [] ==> r == None && Left() == []
      ensures old(Left()) != [] ==> r == Some(old(Left())[0]) && Left() == old(Left())[1..]
      ensures r.Some? && r.value.Success? ==> r.value.value.streams.Tiles(r.value.value.unpackSize)
      ensures r.Some? && r.value.Failure? ==> Left() == []
      ensures cursor.digestBase
           == old(cursor.digestBase) + if r.Some? && r.value.Success? then r.value.value.streams.Count() else 0
    {
      hide LayOut, IsComplete, StreamLayout.Tiles;
      if finished {
        return None;
      }
      if cursor.folderIndex == tables.FolderCount() {
        finished := true;
        return if IsComplete(tables, cursor) then None else Some(Failure(Parse));
      }
      var result := ReadFolder();
      if result.Failure? {
        finished := true;
        return Some(Failure(result.error));
      }
      cursor := result.value.1;
      r := Some(Success(result.value.0));
    }

    method ReadFolder() returns (r: Result<(FolderLayout, Cursor), R7zError>)
      ensures r == NextFolder(tables, cursor)
      ensures r.Success? ==> r.value.1.folderIndex == cursor.folderIndex + 1
      ensures r.Success? ==> r.value.0.streams.Tiles(r.value.0.unpackSize)
      ensures r.Success? ==> r.value.1.digestBase == cursor.digestBase + r.value.0.streams.Count()
    {
      hide StreamLayout.Tiles;
      var parsed := tables.unpack.FolderAt(cursor.folderIndex);
      if parsed.Failure? {
        return Failure(parsed.error);
      }
      var graph := Graph(parsed.value);
      if graph.Failure? {
        return Failure(graph.error);
      }
      GraphFinalOutput(graph.value, parsed.value);
      r := LayOut(tables, cursor, parsed.value, graph.value.finalOutput);
      assert r == NextFolder(tables, cursor);
      if r.Success? {
        OneFolder(tables, cursor);
      }
    }
  }

  // ---------------------------------------------------------------- conservation

  ghost predicate AllLaidOut(items: seq<Result<FolderLayout, R7zError>>) {
    forall i :: 0 <= i < |items| ==> items[i].Success?
  }

  ghost function LayoutsOf(items: seq<Result<FolderLayout, R7zError>>): (r: seq<FolderLayout>)
    requires AllLaidOut(items)
    ensures |r| == |items|
  {
    seq(|items|, i requires 0 <= i < |items| => items[i].value)
  }

  function OwnedPackSizes(layouts: seq<FolderLayout>): seq<u64> {
    if layouts == [] then [] else layouts[0].packSizes + OwnedPackSizes(layouts[1..])
  }

  function OwnedCoderSizes(layouts: seq<FolderLayout>): seq<u64> {
    if layouts == [] then [] else layouts[0].coderSizes + OwnedCoderSizes(layouts[1..])
  }

  function OwnedStreamSizes(layouts: seq<FolderLayout>): seq<u64> {
    if layouts == [] then [] else layouts[0].streams.explicitSizes + OwnedStreamSizes(layouts[1..])
  }

  function OwnedStreamDigests(layouts: seq<FolderLayout>): seq<Option<u32>> {
    if layouts == [] then [] else layouts[0].streams.digests + OwnedStreamDigests(layouts[1..])
  }

  function OwnedStreams(layouts: seq<FolderLayout>): nat {
    if layouts == [] then 0 else layouts[0].streams.Count() + OwnedStreams(layouts[1..])
  }

  /** Packed ranges follow one another from a start. */
  ghost predicate PackedInOrder(layouts: seq<FolderLayout>, start: nat)
    decreases layouts
  {
    layouts == [] || (layouts[0].packStart == start && PackedInOrder(layouts[1..], start + Total(layouts[0].packSizes)))
  }

  /** Every folder's streams tile its output. */
  ghost predicate StreamsTile(layouts: seq<FolderLayout>) {
    forall i :: 0 <= i < |layouts| ==> layouts[i].streams.Tiles(layouts[i].unpackSize)
  }

  /** A folder that can be laid out is one of the table, with its own final output. */
  lemma NextIsLayOut(tables: Tables, cursor: Cursor) returns (folder: Folder, finalOutput: nat)
    requires NextFolder(tables, cursor).Success?
    ensures NextFolder(tables, cursor) == LayOut(tables, cursor, folder, finalOutput)
  {
    hide LayOut, Accepts, FinalOutput;
    folder := tables.unpack.FolderAt(cursor.folderIndex).value;
    AcceptedHasFinalOutput(folder);
    finalOutput := FinalOutput(folder);
  }

  /** What one folder takes from every table. */
  lemma OneFolder(tables: Tables, cursor: Cursor)
    requires NextFolder(tables, cursor).Success?
    ensures var (layout, next) := NextFolder(tables, cursor).value;
      && next.folderIndex == cursor.folderIndex + 1
      && next.packIndex == cursor.packIndex + |layout.packSizes| <= |tables.pack.packSizes|
      && layout.packSizes == tables.pack.packSizes[cursor.packIndex..next.packIndex]
      && next.outputBase == cursor.outputBase + |layout.coderSizes| <= |tables.unpack.unpackSizes|
      && layout.coderSizes == tables.unpack.unpackSizes[cursor.outputBase..next.outputBase]
      && layout.packStart == cursor.packOffset
      && next.packOffset == cursor.packOffset + Total(layout.packSizes)
      && layout.streams.Tiles(layout.unpackSize) && layout.unpackSize in layout.coderSizes
      && layout.crc == FolderCrc(tables, cursor.folderIndex)
      && next.digestBase == cursor.digestBase + layout.streams.Count()
      && StreamCountOf(tables, cursor.folderIndex) == Some(layout.streams.Count())
  {
    hide NewStreamLayout, NextFolder, PackedStreamCount, TotalOutStreams, ExplicitWindow, DigestWindow, StreamCountOf,
      StreamLayout.Tiles, StreamLayout.Count, PackDigestWindow, FolderCrc;
    var folder, finalOutput := NextIsLayOut(tables, cursor);
    var (layout, next) := LayOut(tables, cursor, folder, finalOutput).value;
    var count := StreamCountOf(tables, cursor.folderIndex).value;
    NewStreamLayoutTiles(layout.unpackSize, count,
      ExplicitWindow(tables, cursor, count).value, DigestWindow(tables, cursor, count).value);
  }

  lemma StreamLayoutKeeps(decodedLen: u64, count: nat, explicitSizes: seq<u64>, digests: seq<Option<u32>>)
    requires NewStreamLayout(decodedLen, count, explicitSizes, digests).Success?
    ensures var layout := NewStreamLayout(decodedLen, count, explicitSizes, digests).value;
      && layout.explicitSizes == explicitSizes && layout.digests == digests
      && |explicitSizes| == ExplicitOf(count)
  {
  }

  lemma OneFolderStreams(tables: Tables, cursor: Cursor)
    requires NextFolder(tables, cursor).Success? && tables.substreams.Some?
    ensures var (layout, next) := NextFolder(tables, cursor).value;
      var info := tables.substreams.value;
      && next.sizeBase == cursor.sizeBase + |layout.streams.explicitSizes| <= |info.sizes|
      && layout.streams.explicitSizes == info.sizes[cursor.sizeBase..next.sizeBase]
      && (info.digests != [] ==> next.digestBase <= |info.digests|)
      && (info.digests != [] ==> layout.streams.digests == info.digests[cursor.digestBase..next.digestBase])
  {
    hide NewStreamLayout, NextFolder, PackedStreamCount, TotalOutStreams, CheckedSum, PackDigestWindow, FolderCrc;
    var folder, finalOutput := NextIsLayOut(tables, cursor);
    var (layout, next) := LayOut(tables, cursor, folder, finalOutput).value;
    var count := StreamCountOf(tables, cursor.folderIndex).value;
    StreamLayoutKeeps(layout.unpackSize, count,
      ExplicitWindow(tables, cursor, count).value, DigestWindow(tables, cursor, count).value);
  }

  lemma SliceJoin<T>(s: seq<T>, a: nat, b: nat)
    requires a <= b <= |s|
    ensures s[a..b] + s[b..] == s[a..]
  {
  }

  lemma LayoutsCons(layout: FolderLayout, rest: seq<Result<FolderLayout, R7zError>>)
    requires AllLaidOut([Success(layout)] + rest)
    ensures AllLaidOut(rest)
    ensures LayoutsOf([Success(layout)] + rest) == [layout] + LayoutsOf(rest)
  {
    var items := [Success(layout)] + rest;
    forall i | 0 <= i < |rest| ensures rest[i].Success? {
      assert rest[i] == items[i + 1];
    }
    forall i | 0 <= i < |items| ensures items[i].value == ([layout] + LayoutsOf(rest))[i] {
    }
  }

  /** An iteration without errors: the end of complete tables, or a folder and the folders after it. */
  lemma ItemsUnfold(tables: Tables, cursor: Cursor)
    requires AllLaidOut(Items(tables, cursor)) && cursor.folderIndex <= tables.FolderCount()
    ensures cursor.folderIndex == tables.FolderCount() ==> IsComplete(tables, cursor) && Items(tables, cursor) == []
    ensures cursor.folderIndex < tables.FolderCount() ==> NextFolder(tables, cursor).Success?
    ensures cursor.folderIndex < tables.FolderCount() ==>
      var (layout, next) := NextFolder(tables, cursor).value;
      && next.folderIndex == cursor.folderIndex + 1 && AllLaidOut(Items(tables, next))
      && LayoutsOf(Items(tables, cursor)) == [layout] + LayoutsOf(Items(tables, next))
  {
    hide NextFolder, IsComplete;
    var items := Items(tables, cursor);
    if items != [] {
      assert items[0].Success?;
      OneFolder(tables, cursor);
      var (layout, next) := NextFolder(tables, cursor).value;
      LayoutsCons(layout, Items(tables, next));
    }
  }

  lemma {:induction false} Conservation(tables: Tables, cursor: Cursor)
    requires AllLaidOut(Items(tables, cursor))
    requires cursor.packIndex <= |tables.pack.packSizes| && cursor.outputBase <= |tables.unpack.unpackSizes|
    requires cursor.folderIndex <= tables.FolderCount()
    ensures var layouts := LayoutsOf(Items(tables, cursor));
      && |layouts| == tables.FolderCount() - cursor.folderIndex
      && OwnedPackSizes(layouts) == tables.pack.packSizes[cursor.packIndex..]
      && OwnedCoderSizes(layouts) == tables.unpack.unpackSizes[cursor.outputBase..]
      && PackedInOrder(layouts, cursor.packOffset)
      && cursor.packOffset + Total(tables.pack.packSizes[cursor.packIndex..]) < U64_LIMIT
      && StreamsTile(layouts)
    decreases tables.FolderCount() - cursor.folderIndex
  {
    hide NextFolder, StreamLayout.Tiles, Items;
    ItemsUnfold(tables, cursor);
    if cursor.folderIndex < tables.FolderCount() {
      var (layout, next) := NextFolder(tables, cursor).value;
      OneFolder(tables, cursor);
      var rest := Items(tables, next);
      Conservation(tables, next);
      SliceJoin(tables.pack.packSizes, cursor.packIndex, next.packIndex);
      SliceJoin(tables.unpack.unpackSizes, cursor.outputBase, next.outputBase);
      TotalAppend(layout.packSizes, tables.pack.packSizes[next.packIndex..]);
      TileCons(layout, LayoutsOf(rest));
    }
  }

  lemma TileCons(layout: FolderLayout, rest: seq<FolderLayout>)
    requires layout.streams.Tiles(layout.unpackSize) && StreamsTile(rest)
    ensures StreamsTile([layout] + rest)
  {
    hide StreamLayout.Tiles;
  }

  lemma {:induction false} StreamConservation(tables: Tables, cursor: Cursor)
    requires AllLaidOut(Items(tables, cursor)) && cursor.folderIndex <= tables.FolderCount()
    requires tables.substreams.Some? && cursor.sizeBase <= |tables.substreams.value.sizes|
    requires tables.substreams.value.digests != [] ==> cursor.digestBase <= |tables.substreams.value.digests|
    ensures var layouts, info := LayoutsOf(Items(tables, cursor)), tables.substreams.value;
      && OwnedStreamSizes(layouts) == info.sizes[cursor.sizeBase..]
      && (info.digests != [] ==> OwnedStreamDigests(layouts) == info.digests[cursor.digestBase..])
    decreases tables.FolderCount() - cursor.folderIndex
  {
    hide NextFolder, StreamLayout.Tiles, Items;
    var info := tables.substreams.value;
    ItemsUnfold(tables, cursor);
    if cursor.folderIndex < tables.FolderCount() {
      var (layout, next) := NextFolder(tables, cursor).value;
      OneFolder(tables, cursor);
      OneFolderStreams(tables, cursor);
      StreamConservation(tables, next);
      SliceJoin(info.sizes, cursor.sizeBase, next.sizeBase);
      if info.digests != [] {
        SliceJoin(info.digests, cursor.digestBase, next.digestBase);
      }
    }
  }

  /**
   * Layout conservation. When planning finishes without error, every pack size, coder size, stream
   * size and digest is owned by exactly one folder, in order; packed ranges tile what is packed, and
   * every folder's streams tile its output. No sum overflows.
   */
  lemma PlanningConserves(tables: Tables)
    requires AllLaidOut(Items(tables, START))
    ensures var layouts := LayoutsOf(Items(tables, START));
      && |layouts| == tables.unpack.numFolders
      && OwnedPackSizes(layouts) == tables.pack.packSizes
      && OwnedCoderSizes(layouts) == tables.unpack.unpackSizes
      && PackedInOrder(layouts, 0) && Total(tables.pack.packSizes) < U64_LIMIT
      && StreamsTile(layouts)
    ensures tables.substreams.Some?
      ==> OwnedStreamSizes(LayoutsOf(Items(tables, START))) == tables.substreams.value.sizes
    ensures tables.substreams.Some? && tables.substreams.value.digests != []
      ==> OwnedStreamDigests(LayoutsOf(Items(tables, START))) == tables.substreams.value.digests
  {
    hide NextFolder, Items;
    Conservation(tables, START);
    ItemsComplete(tables, START);
    assert tables.pack.packSizes[0..] == tables.pack.packSizes;
    assert tables.unpack.unpackSizes[0..] == tables.unpack.unpackSizes;
    if tables.substreams.Some? {
      StreamConservation(tables, START);
      assert tables.substreams.value.sizes[0..] == tables.substreams.value.sizes;
      assert tables.substreams.value.digests[0..] == tables.substreams.value.digests;
    }
  }

  lemma {:induction false} ItemsComplete(tables: Tables, cursor: Cursor)
    requires AllLaidOut(Items(tables, cursor)) && cursor.folderIndex <= tables.FolderCount()
    ensures tables.unpack.numFolders == tables.FolderCount()
    decreases tables.FolderCount() - cursor.folderIndex
  {
    hide NextFolder, Items;
    ItemsUnfold(tables, cursor);
    if cursor.folderIndex < tables.FolderCount() {
      var (layout, next) := NextFolder(tables, cursor).value;
      ItemsComplete(tables, next);
    }
  }

  // ---------------------------------------------------------------- stream counts

  /** The number of streams in all folders, or an error when the tables disagree. */
  function SubstreamCount(tables: Tables): Result<nat, R7zError> {
    match tables.substreams
    case None => Success(tables.FolderCount())
    case Some(info) =>
      if |info.counts| != tables.FolderCount() then Failure(Parse)
      else
        match CheckedSum(0, info.counts)
        case None => Failure(Parse)
        case Some(total) => Success(total)
  }

  /** The tables of a descriptor, with their lengths checked. */
  function ForStreams(info: StreamInfo): Result<Tables, R7zError> {
    if info.packInfo.None? || info.unpackInfo.None? then Failure(Parse)
    else
      var tables := Tables(info.packInfo.value, info.unpackInfo.value, info.substreamInfo);
      if (tables.pack.digests != [] && |tables.pack.digests| != |tables.pack.packSizes|)
         || tables.unpack.numFolders != tables.FolderCount()
         || (tables.unpack.digests != [] && |tables.unpack.digests| != tables.FolderCount())
      then Failure(Parse)
      else
        var _ :- SubstreamCount(tables);
        Success(tables)
  }

  lemma {:induction false} StreamsCounted(tables: Tables, cursor: Cursor)
    requires AllLaidOut(Items(tables, cursor)) && cursor.folderIndex <= tables.FolderCount()
    ensures var streams := OwnedStreams(LayoutsOf(Items(tables, cursor)));
      match tables.substreams
      case None => streams == tables.FolderCount() - cursor.folderIndex
      case Some(info) => cursor.folderIndex <= |info.counts| && streams == Total(info.counts[cursor.folderIndex..])
    decreases tables.FolderCount() - cursor.folderIndex
  {
    hide NextFolder, StreamLayout.Tiles, Items;
    ItemsUnfold(tables, cursor);
    if cursor.folderIndex < tables.FolderCount() {
      var (layout, next) := NextFolder(tables, cursor).value;
      OneFolder(tables, cursor);
      StreamsCounted(tables, next);
      if tables.substreams.Some? {
        var counts := tables.substreams.value.counts;
        assert counts[cursor.folderIndex..] == [counts[cursor.folderIndex]] + counts[next.folderIndex..];
      }
    }
  }

  /** The announced number of streams is the number of substreams of all folders together. */
  lemma StreamCountMatches(tables: Tables)
    requires AllLaidOut(Items(tables, START)) && SubstreamCount(tables).Success?
    ensures OwnedStreams(LayoutsOf(Items(tables, START))) == SubstreamCount(tables).value
  {
    hide Items;
    StreamsCounted(tables, START);
    if tables.substreams.Some? {
      assert tables.substreams.value.counts[0..] == tables.substreams.value.counts;
    }
  }
}
