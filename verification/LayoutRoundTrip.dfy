/** The layout a written header leads to: each stream-owning entry finds its folder, range and CRC again. */
module LayoutRoundTrips {
  import opened Wrappers
  import opened Words
  import opened Folders
  import opened FolderGraphs
  import opened PropertyTables
  import opened PackInfos
  import opened StreamInfos
  import opened FilesInfos
  import opened FolderLayouts
  import opened FileCursors
  import opened HeaderWriter
  import opened StreamsRoundTrips
  import opened FilesRoundTrips
  import Digests

  /** The coder graph is accepted, and sizes agree with it. */
  ghost predicate IsPlannable(folder: CompletedFolder) {
    && IsWellFormed(folder)
    && var graph := FolderOf(folder).value;
    && Accepts(graph)
    && |folder.packSizes| == PackedStreamCount(graph)
    && HasOutputSize(folder, graph)
  }

  /** The files of a folder take up exactly what its final output holds. */
  ghost predicate HasOutputSize(folder: CompletedFolder, graph: Folder)
    requires Accepts(graph)
  {
    AcceptedHasFinalOutput(graph);
    && FinalOutput(graph) < |folder.coderUnpackSizes|
    && (folder.fileSizes != [] ==> Total(folder.fileSizes) == folder.coderUnpackSizes[FinalOutput(graph)])
  }

  ghost predicate AllPlannable(folders: seq<CompletedFolder>) {
    && AllWellFormed(folders) && WithinLimits(folders) && Total(PackSizes(folders)) < U64_LIMIT
    && forall i :: 0 <= i < |folders| ==> IsPlannable(folders[i])
  }

  function WrittenTables(folders: seq<CompletedFolder>): Tables
    requires Countable(folders)
  {
    Tables(WrittenStreams(folders).packInfo.value, WrittenUnpack(folders), Some(WrittenSubstreams(folders)))
  }

  /** What the first k folders own. */
  function CursorAfter(folders: seq<CompletedFolder>, k: nat): Cursor
    requires k <= |folders| && Total(PackSizes(folders[..k])) < U64_LIMIT
  {
    Cursor(k, |PackSizes(folders[..k])|, |CoderSizes(folders[..k])|, Total(PackSizes(folders[..k])),
           |FileSizes(folders[..k])|, |FileCrcs(folders[..k])|)
  }

  /** Each table splits at any folder. */
  lemma {:induction false} TablesSplit(folders: seq<CompletedFolder>, k: nat)
    requires k <= |folders|
    ensures PackSizes(folders) == PackSizes(folders[..k]) + PackSizes(folders[k..])
    ensures CoderSizes(folders) == CoderSizes(folders[..k]) + CoderSizes(folders[k..])
    ensures FileSizes(folders) == FileSizes(folders[..k]) + FileSizes(folders[k..])
    ensures FileCrcs(folders) == FileCrcs(folders[..k]) + FileCrcs(folders[k..])
    decreases k
  {
    hide ExplicitSizes;
    if k == 0 {
      assert folders[..0] == [] && folders[0..] == folders;
    } else {
      var tail := folders[1..];
      TablesSplit(tail, k - 1);
      assert folders[..k][1..] == tail[..k - 1] && tail[k - 1..] == folders[k..];
      Grouped(folders[0].packSizes, PackSizes(tail[..k - 1]), PackSizes(folders[k..]));
      Grouped(folders[0].coderUnpackSizes, CoderSizes(tail[..k - 1]), CoderSizes(folders[k..]));
      Grouped(ExplicitSizes(folders[0].fileSizes), FileSizes(tail[..k - 1]), FileSizes(folders[k..]));
      Grouped(folders[0].fileCrcs, FileCrcs(tail[..k - 1]), FileCrcs(folders[k..]));
    }
  }

  lemma MiddleWindow<T>(all: seq<T>, front: seq<T>, mine: seq<T>, rest: seq<T>)
    requires all == front + (mine + rest)
    ensures Window(all, |front|, |mine|) == Some(mine)
  {
    assert all[|front|..|front| + |mine|] == mine;
  }

  /** Each table has a window for each folder, right after those of the folders before it. */
  lemma FolderWindows(folders: seq<CompletedFolder>, k: nat)
    requires k < |folders|
    ensures Window(PackSizes(folders), |PackSizes(folders[..k])|, |folders[k].packSizes|) == Some(folders[k].packSizes)
    ensures Window(CoderSizes(folders), |CoderSizes(folders[..k])|, |folders[k].coderUnpackSizes|)
         == Some(folders[k].coderUnpackSizes)
    ensures Window(FileSizes(folders), |FileSizes(folders[..k])|, |ExplicitSizes(folders[k].fileSizes)|)
         == Some(ExplicitSizes(folders[k].fileSizes))
    ensures Window(FileCrcs(folders), |FileCrcs(folders[..k])|, |folders[k].fileCrcs|) == Some(folders[k].fileCrcs)
  {
    hide ExplicitSizes, Window;
    TablesSplit(folders, k);
    assert folders[k..][1..] == folders[k + 1..];
    MiddleWindow(PackSizes(folders), PackSizes(folders[..k]), folders[k].packSizes, PackSizes(folders[k + 1..]));
    MiddleWindow(
      CoderSizes(folders), CoderSizes(folders[..k]), folders[k].coderUnpackSizes, CoderSizes(folders[k + 1..]));
    MiddleWindow(
      FileSizes(folders), FileSizes(folders[..k]), ExplicitSizes(folders[k].fileSizes), FileSizes(folders[k + 1..]));
    MiddleWindow(FileCrcs(folders), FileCrcs(folders[..k]), folders[k].fileCrcs, FileCrcs(folders[k + 1..]));
  }

  // ---------------------------------------------------------------- one folder

  /** The streams of a written folder; digests are absent when no file of any folder has one. */
  function WrittenStreamLayout(folder: CompletedFolder, anyCrc: bool): StreamLayout {
    StreamLayout(ExplicitSizes(folder.fileSizes),
      if folder.fileSizes == [] then None else Some(folder.fileSizes[|folder.fileSizes| - 1]),
      if anyCrc then folder.fileCrcs else [])
  }

  lemma LastSplit<T>(s: seq<T>)
    requires s != []
    ensures s[..|s| - 1] + [s[|s| - 1]] == s && s[..|s| - 1 + 1] == s
  {
  }

  lemma ExplicitTotal(sizes: seq<u64>)
    requires sizes != []
    ensures Total(sizes) == Total(ExplicitSizes(sizes)) + sizes[|sizes| - 1]
    ensures ExplicitSizes(sizes) + [sizes[|sizes| - 1]] == sizes
  {
    hide Total;
    TotalOneMore(sizes, |sizes| - 1);
    LastSplit(sizes);
  }

  lemma WrittenStreamLayoutAccepted(folder: CompletedFolder, anyCrc: bool, unpackSize: u64)
    requires |folder.fileIndices| == |folder.fileSizes| == |folder.fileCrcs|
    requires folder.fileSizes != [] ==> Total(folder.fileSizes) == unpackSize
    ensures NewStreamLayout(unpackSize, |folder.fileIndices|, ExplicitSizes(folder.fileSizes),
        if anyCrc then folder.fileCrcs else [])
      == Success(WrittenStreamLayout(folder, anyCrc))
    ensures WrittenStreamLayout(folder, anyCrc).Sizes() == folder.fileSizes
  {
    if folder.fileSizes != [] {
      ExplicitTotal(folder.fileSizes);
    }
  }

  function NoDigests(n: nat): (r: seq<Option<u32>>)
    ensures |r| == n
  {
    seq(n, _ => None)
  }

  /** The layout of one folder, given where its packed streams start and whether any file has a digest. */
  ghost function LayoutOf(folder: CompletedFolder, packStart: u64, anyCrc: bool): FolderLayout
    requires IsPlannable(folder)
  {
    var graph := FolderOf(folder).value;
    AcceptedHasFinalOutput(graph);
    FolderLayout(graph, packStart, folder.packSizes, NoDigests(|folder.packSizes|), folder.coderUnpackSizes,
      folder.coderUnpackSizes[FinalOutput(graph)], folder.folderCrc, WrittenStreamLayout(folder, anyCrc))
  }

  ghost function WrittenLayout(folders: seq<CompletedFolder>, k: nat): FolderLayout
    requires AllPlannable(folders) && k < |folders|
  {
    WasPlannable(folders, k);
    PackPrefix(folders, k);
    LayoutOf(folders[k], Total(PackSizes(folders[..k])), Digests.AnyDefined(FileCrcs(folders)))
  }

  lemma PackPrefix(folders: seq<CompletedFolder>, k: nat)
    requires k <= |folders|
    ensures Total(PackSizes(folders[..k])) <= Total(PackSizes(folders))
    ensures |PackSizes(folders[..k])| <= |PackSizes(folders)|
  {
    hide PackSizes;
    TablesSplit(folders, k);
    TotalAppend(PackSizes(folders[..k]), PackSizes(folders[k..]));
  }

  lemma NoPackDigests(folders: seq<CompletedFolder>, from: nat, end: nat)
    requires Countable(folders) && from <= end <= |PackSizes(folders)|
    ensures PackDigestWindow(WrittenTables(folders), from, end) == NoDigests(end - from)
  {
    hide PackSizes, WrittenUnpack, WrittenSubstreams;
  }

  lemma WrittenPackDigests(folders: seq<CompletedFolder>, k: nat)
    requires Countable(folders) && k < |folders|
    requires Total(PackSizes(folders[..k])) < U64_LIMIT && Total(PackSizes(folders[..k + 1])) < U64_LIMIT
    ensures var from := CursorAfter(folders, k).packIndex;
      && CursorAfter(folders, k + 1).packIndex == from + |folders[k].packSizes|
      && PackDigestWindow(WrittenTables(folders), from, from + |folders[k].packSizes|)
         == NoDigests(|folders[k].packSizes|)
  {
    hide PackSizes, CoderSizes, FileSizes, FileCrcs, WrittenTables, PackDigestWindow, NoDigests;
    PackPrefix(folders, k + 1);
    TakeOneMore(folders, k);
    NoPackDigests(folders, |PackSizes(folders[..k])|, |PackSizes(folders[..k + 1])|);
  }

  lemma DigestsOfFolder(folders: seq<CompletedFolder>, k: nat)
    requires Countable(folders) && k < |folders| && Total(PackSizes(folders[..k])) < U64_LIMIT
    requires |folders[k].fileIndices| == |folders[k].fileSizes| == |folders[k].fileCrcs|
    ensures var tables, cursor := WrittenTables(folders), CursorAfter(folders, k);
      && StreamCountOf(tables, k) == Some(|folders[k].fileIndices|)
      && ExplicitWindow(tables, cursor, |folders[k].fileIndices|) == Some(ExplicitSizes(folders[k].fileSizes))
      && DigestWindow(tables, cursor, |folders[k].fileIndices|)
         == Some(if Digests.AnyDefined(FileCrcs(folders)) then folders[k].fileCrcs else [])
  {
    hide PackSizes, CoderSizes, FileSizes, FileCrcs, Window, WrittenUnpack;
    FolderWindows(folders, k);
  }

  lemma CursorStep(folders: seq<CompletedFolder>, k: nat)
    requires k < |folders| && Total(PackSizes(folders)) < U64_LIMIT
    requires |folders[k].fileIndices| == |folders[k].fileSizes| == |folders[k].fileCrcs|
    ensures Total(PackSizes(folders[..k])) < U64_LIMIT && Total(PackSizes(folders[..k + 1])) < U64_LIMIT
    ensures var before, after := CursorAfter(folders, k), CursorAfter(folders, k + 1);
      && after == Cursor(k + 1, before.packIndex + |folders[k].packSizes|,
           before.outputBase + |folders[k].coderUnpackSizes|, after.packOffset,
           before.sizeBase + ExplicitOf(|folders[k].fileIndices|), before.digestBase + |folders[k].fileCrcs|)
      && CheckedSum(before.packOffset, folders[k].packSizes) == Some(after.packOffset)
  {
    hide PackSizes, CoderSizes, FileSizes, FileCrcs;
    PackPrefix(folders, k);
    PackPrefix(folders, k + 1);
    TakeOneMore(folders, k);
    TotalAppend(PackSizes(folders[..k]), folders[k].packSizes);
  }

  /** The windows of a folder put together. */
  lemma LayOutIs(tables: Tables, cursor: Cursor, folder: Folder, finalOutput: nat, layout: FolderLayout, next: Cursor)
    requires layout.folder == folder && layout.packStart == cursor.packOffset
    requires |layout.packSizes| == PackedStreamCount(folder) && |layout.coderSizes| == TotalOutStreams(folder)
    requires Window(tables.pack.packSizes, cursor.packIndex, |layout.packSizes|) == Some(layout.packSizes)
    requires Window(tables.unpack.unpackSizes, cursor.outputBase, |layout.coderSizes|) == Some(layout.coderSizes)
    requires finalOutput < |layout.coderSizes| && layout.unpackSize == layout.coderSizes[finalOutput]
    requires StreamCountOf(tables, cursor.folderIndex).Some?
    requires var count := StreamCountOf(tables, cursor.folderIndex).value;
      && ExplicitWindow(tables, cursor, count).Some? && DigestWindow(tables, cursor, count).Some?
      && NewStreamLayout(layout.unpackSize, count, ExplicitWindow(tables, cursor, count).value,
           DigestWindow(tables, cursor, count).value) == Success(layout.streams)
      && CheckedSum(cursor.packOffset, layout.packSizes) == Some(next.packOffset)
      && next == Cursor(cursor.folderIndex + 1, cursor.packIndex + |layout.packSizes|,
           cursor.outputBase + |layout.coderSizes|, next.packOffset, cursor.sizeBase + ExplicitOf(count),
           cursor.digestBase + count)
    requires layout.packDigests == PackDigestWindow(tables, cursor.packIndex, next.packIndex)
    requires layout.crc == FolderCrc(tables, cursor.folderIndex)
    ensures LayOut(tables, cursor, folder, finalOutput) == Success((layout, next))
  {
    hide Window, CheckedSum, NewStreamLayout, ExplicitWindow, DigestWindow, StreamCountOf, PackDigestWindow, FolderCrc,
      PackedStreamCount, TotalOutStreams;
  }

  lemma NextIs(tables: Tables, cursor: Cursor, folder: Folder, result: Result<(FolderLayout, Cursor), R7zError>)
    requires tables.unpack.FolderAt(cursor.folderIndex) == Success(folder) && Accepts(folder)
    requires (AcceptedHasFinalOutput(folder); LayOut(tables, cursor, folder, FinalOutput(folder)) == result)
    ensures NextFolder(tables, cursor) == result
  {
    hide LayOut, Accepts, FinalOutput, UnpackInfo.FolderAt;
  }

  /** The tables of packed streams and of coder outputs, seen from the cursor of a folder. */
  lemma UnpackWindows(folders: seq<CompletedFolder>, k: nat)
    requires Countable(folders) && k < |folders|
    requires Total(PackSizes(folders[..k])) < U64_LIMIT && Total(PackSizes(folders[..k + 1])) < U64_LIMIT
    ensures var tables, cursor, folder := WrittenTables(folders), CursorAfter(folders, k), folders[k];
      && tables.unpack == WrittenUnpack(folders) && FolderCrc(tables, k) == folder.folderCrc
      && cursor.folderIndex == k && cursor.packOffset == Total(PackSizes(folders[..k]))
      && Window(tables.pack.packSizes, cursor.packIndex, |folder.packSizes|) == Some(folder.packSizes)
      && Window(tables.unpack.unpackSizes, cursor.outputBase, |folder.coderUnpackSizes|)
         == Some(folder.coderUnpackSizes)
  {
    hide PackSizes, CoderSizes, FileSizes, FileCrcs, CoderInfos, Offsets, Window, ExplicitSizes;
    FolderWindows(folders, k);
  }

  /** What is known of the graph of a plannable folder. */
  lemma PlannableGraph(folder: CompletedFolder)
    requires IsPlannable(folder)
    ensures FolderOf(folder).Ok?
    ensures var graph := FolderOf(folder).value;
      && Accepts(graph) && |folder.packSizes| == PackedStreamCount(graph)
      && |folder.coderUnpackSizes| == TotalOutStreams(graph)
      && |folder.fileIndices| == |folder.fileSizes| == |folder.fileCrcs|
      && (AcceptedHasFinalOutput(graph); FinalOutput(graph) < |folder.coderUnpackSizes|
          && (folder.fileSizes != [] ==> Total(folder.fileSizes) == folder.coderUnpackSizes[FinalOutput(graph)]))
  {
    hide FolderOf, Accepts, FinalOutput, PackedStreamCount, Total;
  }

  /** The streams of a written folder, as its counts, explicit sizes and digests give them. */
  lemma StreamsOfFolder(folders: seq<CompletedFolder>, k: nat)
    requires AllPlannable(folders) && k < |folders|
    requires Countable(folders) && Total(PackSizes(folders[..k])) < U64_LIMIT
    ensures var tables, cursor, layout := WrittenTables(folders), CursorAfter(folders, k), WrittenLayout(folders, k);
      var count := |folders[k].fileIndices|;
      && StreamCountOf(tables, k) == Some(count)
      && ExplicitWindow(tables, cursor, count).Some? && DigestWindow(tables, cursor, count).Some?
      && NewStreamLayout(layout.unpackSize, count, ExplicitWindow(tables, cursor, count).value,
           DigestWindow(tables, cursor, count).value) == Success(layout.streams)
  {
    hide PackSizes, CoderSizes, FileSizes, FileCrcs, NewStreamLayout, WrittenStreamLayout, DigestWindow, ExplicitWindow,
      StreamCountOf, FolderOf, Accepts, FinalOutput, AllPlannable, WrittenTables, CursorAfter, ExplicitSizes, Total,
      Countable, IsPlannable, HasOutputSize;
    var folder, anyCrc := folders[k], Digests.AnyDefined(FileCrcs(folders));
    WasPlannable(folders, k);
    PlannableGraph(folder);
    DigestsOfFolder(folders, k);
    WrittenStreamLayoutAccepted(folder, anyCrc, WrittenLayout(folders, k).unpackSize);
  }

  lemma WrittenLayOut(folders: seq<CompletedFolder>, k: nat)
    requires AllPlannable(folders) && k < |folders|
    ensures Countable(folders) && IsPlannable(folders[k]) && Accepts(FolderOf(folders[k]).value)
    ensures Total(PackSizes(folders[..k])) < U64_LIMIT && Total(PackSizes(folders[..k + 1])) < U64_LIMIT
    ensures var graph := FolderOf(folders[k]).value;
      (AcceptedHasFinalOutput(graph);
       LayOut(WrittenTables(folders), CursorAfter(folders, k), graph, FinalOutput(graph)))
        == Success((WrittenLayout(folders, k), CursorAfter(folders, k + 1)))
  {
    hide PackSizes, CoderSizes, FileSizes, FileCrcs, Window, NewStreamLayout, CheckedSum, WrittenStreamLayout,
      DigestWindow, ExplicitWindow, StreamCountOf, PackDigestWindow, AllWellFormed, FolderOf, Accepts, FinalOutput,
      LayOut, PackedStreamCount, AllPlannable, WrittenTables, WrittenUnpack, FolderCrc, CursorAfter, ExplicitSizes,
      Total, Countable, NoDigests, IsPlannable, HasOutputSize, TotalOutStreams;
    Limits(folders);
    WasPlannable(folders, k);
    PlannableGraph(folders[k]);
    CursorStep(folders, k);
    UnpackWindows(folders, k);
    StreamsOfFolder(folders, k);
    WrittenPackDigests(folders, k);
    var graph := FolderOf(folders[k]).value;
    AcceptedHasFinalOutput(graph);
    LayOutIs(WrittenTables(folders), CursorAfter(folders, k), graph, FinalOutput(graph), WrittenLayout(folders, k),
      CursorAfter(folders, k + 1));
  }

  lemma WrittenFolderLaidOut(folders: seq<CompletedFolder>, k: nat)
    requires AllPlannable(folders) && k < |folders|
    ensures Total(PackSizes(folders[..k])) < U64_LIMIT && Total(PackSizes(folders[..k + 1])) < U64_LIMIT
    ensures NextFolder(WrittenTables(folders), CursorAfter(folders, k))
         == Success((WrittenLayout(folders, k), CursorAfter(folders, k + 1)))
  {
    hide PackSizes, FolderOf, Accepts, FinalOutput, LayOut, AllPlannable, NextFolder, WrittenTables, WrittenUnpack,
      CursorAfter, Total, Countable, IsPlannable, WrittenLayout;
    WrittenLayOut(folders, k);
    Limits(folders);
    WasPlannable(folders, k);
    WrittenFolderAt(folders, k);
    UnpackWindows(folders, k);
    NextIs(WrittenTables(folders), CursorAfter(folders, k), FolderOf(folders[k]).value,
      Success((WrittenLayout(folders, k), CursorAfter(folders, k + 1))));
  }

  // ---------------------------------------------------------------- all folders

  ghost function WrittenItems(folders: seq<CompletedFolder>, k: nat): (r: seq<Result<FolderLayout, R7zError>>)
    requires AllPlannable(folders) && k <= |folders|
    ensures |r| == |folders| - k
  {
    seq(|folders| - k, i requires 0 <= i < |folders| - k => Success(WrittenLayout(folders, k + i)))
  }

  lemma WrittenComplete(folders: seq<CompletedFolder>)
    requires AllPlannable(folders)
    ensures folders[..|folders|] == folders
    ensures WrittenTables(folders).FolderCount() == |folders|
    ensures IsComplete(WrittenTables(folders), CursorAfter(folders, |folders|))
  {
    hide PackSizes, CoderSizes, FileSizes, FileCrcs, CoderInfos, FolderCrcs, Offsets;
    assert folders[..|folders|] == folders;
    OffsetsLength(0, folders);
  }

  lemma {:induction false} WrittenItemsFrom(folders: seq<CompletedFolder>, k: nat)
    requires AllPlannable(folders) && k <= |folders|
    ensures Total(PackSizes(folders[..k])) < U64_LIMIT
    ensures Items(WrittenTables(folders), CursorAfter(folders, k)) == WrittenItems(folders, k)
    decreases |folders| - k
  {
    hide NextFolder, IsComplete, AllPlannable, WrittenTables, PackSizes, CoderSizes, FileSizes, FileCrcs;
    Limits(folders);
    PackPrefix(folders, k);
    WrittenComplete(folders);
    if k < |folders| {
      WrittenFolderLaidOut(folders, k);
      WrittenItemsFrom(folders, k + 1);
      assert WrittenItems(folders, k) == [Success(WrittenLayout(folders, k))] + WrittenItems(folders, k + 1);
    }
  }

  lemma WasPlannable(folders: seq<CompletedFolder>, k: nat)
    requires AllPlannable(folders) && k < |folders|
    ensures IsPlannable(folders[k]) && AllWellFormed(folders)
  {
  }

  lemma Limits(folders: seq<CompletedFolder>)
    requires AllPlannable(folders)
    ensures Countable(folders) && Total(PackSizes(folders)) < U64_LIMIT
  {
  }

  /** Planning the written descriptor succeeds and gives every folder back as it was completed. */
  lemma LayoutRoundTrip(folders: seq<CompletedFolder>)
    requires AllPlannable(folders)
    ensures Items(WrittenTables(folders), START) == WrittenItems(folders, 0)
  {
    hide Items, WrittenTables, WrittenItems, AllPlannable;
    WrittenItemsFrom(folders, 0);
    TakeNone(folders);
    assert CursorAfter(folders, 0) == START;
  }

  // ---------------------------------------------------------------- entries

  /** The file indices recorded by all folders, in folder order. */
  function FileIndices(folders: seq<CompletedFolder>): seq<nat> {
    if folders == [] then [] else folders[0].fileIndices + FileIndices(folders[1..])
  }

  /** The entries that own a stream, in archive order. */
  function StreamOwnersFrom(kinds: seq<EntryKind<()>>, from: nat): seq<nat>
    decreases |kinds| - from
  {
    if from >= |kinds| then []
    else (if kinds[from].HasStream() then [from] else []) + StreamOwnersFrom(kinds, from + 1)
  }

  /** The k-th entry that owns a stream has k of them before it. */
  lemma {:induction false} OwnerRank(kinds: seq<EntryKind<()>>, from: nat, k: nat)
    requires from <= |kinds| && k < |StreamOwnersFrom(kinds, from)|
    ensures var e := StreamOwnersFrom(kinds, from)[k];
      from <= e < |kinds| && kinds[e].HasStream() && StreamCount(kinds[from..e]) == k
    decreases |kinds| - from
  {
    if kinds[from].HasStream() && k == 0 {
      assert kinds[from..from] == [];
    } else {
      var rest := if kinds[from].HasStream() then k - 1 else k;
      OwnerRank(kinds, from + 1, rest);
      var e := StreamOwnersFrom(kinds, from)[k];
      assert kinds[from..e][1..] == kinds[from + 1..e];
    }
  }

  lemma {:induction false} IndicesAt(folders: seq<CompletedFolder>, f: nat, j: nat)
    requires f < |folders| && j < |folders[f].fileIndices|
    ensures var k := |FileIndices(folders[..f])| + j;
      k < |FileIndices(folders)| && FileIndices(folders)[k] == folders[f].fileIndices[j]
    decreases f
  {
    if f == 0 {
      assert folders[..0] == [];
    } else {
      IndicesAt(folders[1..], f - 1, j);
      assert folders[..f][1..] == folders[1..][..f - 1];
    }
  }

  lemma {:induction false} StreamsBefore(folders: seq<CompletedFolder>, f: nat)
    requires AllPlannable(folders) && f <= |folders|
    ensures AllLaidOut(WrittenItems(folders, 0))
    ensures OwnedStreams(LayoutsOf(WrittenItems(folders, 0))[..f]) == |FileIndices(folders[..f])|
    decreases f
  {
    hide AllPlannable, StreamLayout.Count, WrittenLayout;
    var layouts := LayoutsOf(WrittenItems(folders, 0));
    if f == 0 {
      assert layouts[..0] == [] && folders[..0] == [];
    } else {
      hide OwnedStreams, FileIndices;
      StreamsBefore(folders, f - 1);
      OwnedOneMore(layouts, f - 1);
      IndicesOneMore(folders, f - 1);
      WrittenCount(folders, f - 1);
    }
  }

  lemma {:induction false} OwnedOneMore(layouts: seq<FolderLayout>, f: nat)
    requires f < |layouts|
    ensures OwnedStreams(layouts[..f + 1]) == OwnedStreams(layouts[..f]) + layouts[f].streams.Count()
    decreases f
  {
    hide StreamLayout.Count;
    if f == 0 {
      assert layouts[..1][1..] == [];
    } else {
      OwnedOneMore(layouts[1..], f - 1);
      assert layouts[..f + 1][1..] == layouts[1..][..f] && layouts[..f][1..] == layouts[1..][..f - 1];
    }
  }

  lemma {:induction false} IndicesOneMore(folders: seq<CompletedFolder>, f: nat)
    requires f < |folders|
    ensures FileIndices(folders[..f + 1]) == FileIndices(folders[..f]) + folders[f].fileIndices
    decreases f
  {
    if f == 0 {
      assert folders[..1][1..] == [];
    } else {
      IndicesOneMore(folders[1..], f - 1);
      assert folders[..f + 1][1..] == folders[1..][..f] && folders[..f][1..] == folders[1..][..f - 1];
    }
  }

  lemma WrittenCount(folders: seq<CompletedFolder>, f: nat)
    requires AllPlannable(folders) && f < |folders|
    ensures WrittenLayout(folders, f).streams.Count() == |folders[f].fileIndices|
    ensures WrittenLayout(folders, f).streams.Sizes() == folders[f].fileSizes
    ensures |folders[f].fileIndices| == |folders[f].fileSizes| == |folders[f].fileCrcs|
  {
    hide FolderOf, Accepts, FinalOutput, FileCrcs, PackSizes;
    assert IsPlannable(folders[f]);
    var unpackSize: u64 := WrittenLayout(folders, f).unpackSize;
    WrittenStreamLayoutAccepted(folders[f], Digests.AnyDefined(FileCrcs(folders)), unpackSize);
    if folders[f].fileSizes != [] {
      ExplicitTotal(folders[f].fileSizes);
    }
  }

  /** The locations a written descriptor leads to. */
  ghost function WrittenLocations(folders: seq<CompletedFolder>): seq<StreamLocation>
    requires AllPlannable(folders)
  {
    LeftOf(0, WrittenItems(folders, 0)).locations
  }

  /** The kinds of the written entries as they are read back. */
  function WrittenKinds(entries: seq<WriteEntry>): (r: seq<EntryKind<()>>)
    ensures |r| == |entries|
  {
    seq(|entries|, i requires 0 <= i < |entries| => WrittenKind(entries[i]))
  }

  lemma KindsRoundTrip(entries: seq<WriteEntry>)
    requires |entries| < U64_LIMIT
    ensures KindsOf(Some(WrittenFiles(entries)), |entries|) == WrittenKinds(entries)
  {
    hide WrittenFiles, EntryKindAt, WrittenKind;
    forall i | 0 <= i < |entries| ensures EntryKindAt(WrittenFiles(entries), i) == WrittenKind(entries[i]) {
      KindRoundTrip(entries, i);
    }
  }

  lemma WrittenDigest(folders: seq<CompletedFolder>, f: nat, j: nat)
    requires AllPlannable(folders) && f < |folders| && j < |folders[f].fileCrcs|
    ensures WrittenLayout(folders, f).streams.Digest(j) == folders[f].fileCrcs[j]
  {
    hide FolderOf, Accepts, FinalOutput, PackSizes;
    if !Digests.AnyDefined(FileCrcs(folders)) {
      FileCrcListed(folders, f, j);
    }
  }

  lemma {:induction false} FileCrcListed(folders: seq<CompletedFolder>, f: nat, j: nat)
    requires f < |folders| && j < |folders[f].fileCrcs|
    ensures folders[f].fileCrcs[j].Some? ==> Digests.AnyDefined(FileCrcs(folders))
    decreases f
  {
    if f == 0 {
      assert FileCrcs(folders)[j] == folders[0].fileCrcs[j];
    } else {
      FileCrcListed(folders[1..], f - 1, j);
      if Digests.AnyDefined(FileCrcs(folders[1..])) {
        var i :| 0 <= i < |FileCrcs(folders[1..])| && FileCrcs(folders[1..])[i].Some?;
        assert FileCrcs(folders)[|folders[0].fileCrcs| + i].Some?;
      }
    }
  }

  /**
   * When the folders record the stream-owning entries in archive order, the locations that the written
   * tables lead to give the j-th file of folder f that folder, the byte range and the CRC that were
   * recorded for it. ArchiveRoundTrips.WriteThenFind gets there through the header bytes.
   */
  lemma EntryFindsItsData(entries: seq<WriteEntry>, folders: seq<CompletedFolder>, f: nat, j: nat)
    requires AllPlannable(folders) && f < |folders| && j < |folders[f].fileIndices|
    requires FileIndices(folders) == StreamOwnersFrom(WrittenKinds(entries), 0)
    ensures |folders[f].fileIndices| == |folders[f].fileSizes| == |folders[f].fileCrcs|
    ensures folders[f].fileIndices[j] < |entries|
    ensures |WrittenLocations(folders)| == StreamCount(WrittenKinds(entries))
    ensures var e := folders[f].fileIndices[j];
      FileAt(WrittenKinds(entries), WrittenLocations(folders), e)
      == FileStream(e, BindKind(WrittenKind(entries[e]), StreamLocation(f, j, WrittenLayout(folders, f),
           Substream(Total(folders[f].fileSizes[..j]), Total(folders[f].fileSizes[..j + 1]), folders[f].fileCrcs[j]))))
  {
    hide WrittenKind, WrittenLayout, LeftOf, AllPlannable, Total, StreamLayout.Sizes, StreamLayout.Digest, BindKind,
      StreamCount, OwnedStreams, FileIndices, StreamOwnersFrom;
    var kinds, items := WrittenKinds(entries), WrittenItems(folders, 0);
    var e, k := folders[f].fileIndices[j], |FileIndices(folders[..f])| + j;
    WrittenCount(folders, f);
    WrittenDigest(folders, f, j);
    IndicesAt(folders, f, j);
    OwnerRank(kinds, 0, k);
    assert kinds[0..e] == kinds[..e];
    StreamsBefore(folders, f);
    StreamsBefore(folders, |folders|);
    LocationsInOrder(0, items, f, j);
    AllLocations(entries, folders);
  }

  lemma AllLocations(entries: seq<WriteEntry>, folders: seq<CompletedFolder>)
    requires AllPlannable(folders) && FileIndices(folders) == StreamOwnersFrom(WrittenKinds(entries), 0)
    ensures |WrittenLocations(folders)| == StreamCount(WrittenKinds(entries))
  {
    hide LeftOf, AllPlannable;
    var items := WrittenItems(folders, 0);
    StreamsBefore(folders, |folders|);
    assert folders[..|folders|] == folders && LayoutsOf(items)[..|folders|] == LayoutsOf(items);
    NoErrorLeft(0, items);
    OwnersCounted(WrittenKinds(entries), 0);
    assert WrittenKinds(entries)[0..] == WrittenKinds(entries);
  }

  lemma {:induction false} OwnersCounted(kinds: seq<EntryKind<()>>, from: nat)
    requires from <= |kinds|
    ensures |StreamOwnersFrom(kinds, from)| == StreamCount(kinds[from..])
    decreases |kinds| - from
  {
    if from < |kinds| {
      OwnersCounted(kinds, from + 1);
      assert kinds[from..][1..] == kinds[from + 1..];
    }
  }
}
