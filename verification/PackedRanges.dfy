/** The packed ranges of all folders: together they tile what is packed, in table order. */
module PackedRanges {
  import opened Wrappers
  import opened Words
  import opened PropertyTables
  import opened PackInfos
  import opened FolderLayouts
  import FolderGraphs
  import Folders

  datatype PackedStream = PackedStream(start: nat, end: nat, crc: Option<u32>)

  function DigestAt(digests: seq<Option<u32>>, i: nat): Option<u32> {
    if i < |digests| then digests[i] else None
  }

  /** The packed streams of one folder, one behind the other. */
  function StreamsOf(layout: FolderLayout): seq<PackedStream> {
    seq(|layout.packSizes|, i requires 0 <= i < |layout.packSizes| => PackedStream(
      layout.packStart + Total(layout.packSizes[..i]), layout.packStart + Total(layout.packSizes[..i + 1]),
      DigestAt(layout.packDigests, i)))
  }

  /** The unchecked additions of the source: planning has made sure that they fit. */
  method ListStreams(layout: FolderLayout) returns (r: seq<PackedStream>)
    requires layout.packStart + Total(layout.packSizes) < U64_LIMIT
    ensures r == StreamsOf(layout)
  {
    r := [];
    var offset: u64 := layout.packStart;
    assert layout.packSizes[..0] == [];
    hide Total;
    for index := 0 to |layout.packSizes|
      invariant r == StreamsOf(layout)[..index]
      invariant offset == layout.packStart + Total(layout.packSizes[..index])
    {
      TotalOneMore(layout.packSizes, index);
      TotalPrefix(layout.packSizes, index + 1);
      assert StreamsOf(layout)[..index + 1] == StreamsOf(layout)[..index] + [StreamsOf(layout)[index]];
      var end: u64 := offset + layout.packSizes[index];
      r := r + [PackedStream(offset, end, DigestAt(layout.packDigests, index))];
      offset := end;
    }
  }

  function AllStreams(layouts: seq<FolderLayout>): seq<PackedStream> {
    if layouts == [] then [] else StreamsOf(layouts[0]) + AllStreams(layouts[1..])
  }

  /** Stream k of the table, wherever folders begin and end. */
  function StreamAt(pack: PackInfo, k: nat): PackedStream
    requires k < |pack.packSizes|
  {
    PackedStream(Total(pack.packSizes[..k]), Total(pack.packSizes[..k + 1]), DigestAt(pack.digests, k))
  }

  function StreamsFrom(pack: PackInfo, from: nat): seq<PackedStream>
    requires from <= |pack.packSizes|
  {
    seq(|pack.packSizes| - from, i requires 0 <= i < |pack.packSizes| - from => StreamAt(pack, from + i))
  }

  lemma TotalAcross(sizes: seq<u64>, from: nat, end: nat, i: nat)
    requires from <= end <= |sizes| && i <= end - from
    ensures Total(sizes[..from + i]) == Total(sizes[..from]) + Total(sizes[from..end][..i])
  {
    assert sizes[from..end][..i] == sizes[from..from + i];
    assert sizes[..from + i] == sizes[..from] + sizes[from..from + i];
    TotalAppend(sizes[..from], sizes[from..from + i]);
  }

  lemma WindowDigest(tables: Tables, from: nat, end: nat, i: nat)
    requires i < end - from
    ensures DigestAt(PackDigestWindow(tables, from, end), i) == DigestAt(tables.pack.digests, from + i)
  {
  }

  /** Streams cut from a window of the table are streams of the table. */
  lemma WindowStreams(tables: Tables, layout: FolderLayout, from: nat, end: nat)
    requires from <= end <= |tables.pack.packSizes| && layout.packSizes == tables.pack.packSizes[from..end]
    requires layout.packStart == Total(tables.pack.packSizes[..from])
    requires layout.packDigests == PackDigestWindow(tables, from, end)
    ensures StreamsOf(layout) + StreamsFrom(tables.pack, end) == StreamsFrom(tables.pack, from)
  {
    hide Total, PackDigestWindow, DigestAt;
    var sizes := tables.pack.packSizes;
    forall i | 0 <= i < end - from ensures StreamsOf(layout)[i] == StreamAt(tables.pack, from + i) {
      TotalAcross(sizes, from, end, i);
      TotalAcross(sizes, from, end, i + 1);
      WindowDigest(tables, from, end, i);
    }
  }

  lemma LayOutDigests(tables: Tables, cursor: Cursor, folder: Folders.Folder, finalOutput: nat)
    requires LayOut(tables, cursor, folder, finalOutput).Success?
    ensures var (layout, next) := LayOut(tables, cursor, folder, finalOutput).value;
      layout.packDigests == PackDigestWindow(tables, cursor.packIndex, next.packIndex)
  {
    hide NewStreamLayout, Window, PackDigestWindow, ExplicitWindow, DigestWindow, PackedStreamCount, TotalOutStreams,
      CheckedSum, FolderCrc, StreamCountOf;
  }

  /** A folder's streams are the next streams of the table. */
  lemma FolderTakesNext(tables: Tables, cursor: Cursor)
    requires NextFolder(tables, cursor).Success? && cursor.packIndex <= |tables.pack.packSizes|
    requires cursor.packOffset == Total(tables.pack.packSizes[..cursor.packIndex])
    ensures var (layout, next) := NextFolder(tables, cursor).value;
      && next.packIndex <= |tables.pack.packSizes|
      && next.packOffset == Total(tables.pack.packSizes[..next.packIndex])
      && StreamsOf(layout) + StreamsFrom(tables.pack, next.packIndex) == StreamsFrom(tables.pack, cursor.packIndex)
  {
    hide NextFolder, LayOut, Total, StreamLayout.Tiles, StreamsOf, StreamsFrom, PackDigestWindow;
    var (layout, next) := NextFolder(tables, cursor).value;
    OneFolder(tables, cursor);
    PackDigestsOf(tables, cursor);
    var from, end := cursor.packIndex, next.packIndex;
    TotalAcross(tables.pack.packSizes, from, end, end - from);
    assert layout.packSizes[..end - from] == layout.packSizes;
    WindowStreams(tables, layout, from, end);
  }

  lemma PackDigestsOf(tables: Tables, cursor: Cursor)
    requires NextFolder(tables, cursor).Success?
    ensures var (layout, next) := NextFolder(tables, cursor).value;
      layout.packDigests == PackDigestWindow(tables, cursor.packIndex, next.packIndex)
  {
    hide LayOut, PackDigestWindow, FolderGraphs.Accepts, FinalOutput;
    var folder := tables.unpack.FolderAt(cursor.folderIndex).value;
    AcceptedHasFinalOutput(folder);
    LayOutDigests(tables, cursor, folder, FinalOutput(folder));
  }

  lemma {:induction false} StreamsFromCursor(tables: Tables, cursor: Cursor)
    requires AllLaidOut(Items(tables, cursor)) && cursor.folderIndex <= tables.FolderCount()
    requires cursor.packIndex <= |tables.pack.packSizes|
    requires cursor.packOffset == Total(tables.pack.packSizes[..cursor.packIndex])
    ensures AllStreams(LayoutsOf(Items(tables, cursor))) == StreamsFrom(tables.pack, cursor.packIndex)
    decreases tables.FolderCount() - cursor.folderIndex
  {
    hide NextFolder, Items, StreamsOf, StreamsFrom;
    ItemsUnfold(tables, cursor);
    if cursor.folderIndex < tables.FolderCount() {
      var (layout, next) := NextFolder(tables, cursor).value;
      FolderTakesNext(tables, cursor);
      StreamsFromCursor(tables, next);
      assert ([layout] + LayoutsOf(Items(tables, next)))[1..] == LayoutsOf(Items(tables, next));
    } else {
      NoneLeft(tables.pack);
    }
  }

  lemma NoneLeft(pack: PackInfo)
    ensures StreamsFrom(pack, |pack.packSizes|) == []
  {
  }

  /**
   * When planning finishes without error, the packed streams of all folders, listed folder by folder,
   * are the streams of the size table: stream k starts where stream k - 1 ends, the first at zero, and
   * carries digest k. The last one ends below 2^64, so no addition on the way overflows.
   */
  lemma PackedStreamsTile(tables: Tables)
    requires AllLaidOut(Items(tables, START))
    ensures AllStreams(LayoutsOf(Items(tables, START))) == StreamsFrom(tables.pack, 0)
    ensures Total(tables.pack.packSizes) < U64_LIMIT
  {
    hide Items;
    assert tables.pack.packSizes[..0] == [];
    StreamsFromCursor(tables, START);
    PlanningConserves(tables);
  }
}
