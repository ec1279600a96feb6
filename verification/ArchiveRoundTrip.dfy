/** The whole way: tables are written into a header, the header is read, and its entries find their data. */
module ArchiveRoundTrips {
  import opened Wrappers
  import opened Words
  import opened PropertyTables
  import opened StreamInfos
  import opened FilesInfos
  import opened Headers
  import opened FolderLayouts
  import opened FileCursors
  import opened HeaderWriter
  import opened StreamsRoundTrips
  import opened FilesRoundTrips
  import opened HeaderRoundTrips
  import opened LayoutRoundTrips

  /** What the header of these folders has in place of streams: nothing at all for an archive without folders. */
  function StreamsRead(folders: seq<CompletedFolder>): Option<StreamInfo>
    requires Countable(folders)
  {
    if folders == [] then None else Some(WrittenStreams(folders))
  }

  /** The folders record the entries that own streams, in archive order. */
  ghost predicate Recorded(entries: seq<WriteEntry>, folders: seq<CompletedFolder>) {
    FileIndices(folders) == StreamOwnersFrom(WrittenKinds(entries), 0)
  }

  /** The tables of a written descriptor pass the checks in front of the cursor, and announce every file. */
  lemma WrittenTablesOpen(folders: seq<CompletedFolder>)
    requires AllPlannable(folders)
    ensures Countable(folders) && OpenTables(Some(WrittenStreams(folders))) == Success(Some(WrittenTables(folders)))
    ensures AnnouncedStreams(Some(WrittenTables(folders))) == |FileCrcs(folders)|
  {
    hide PackSizes, CoderSizes, FileSizes, FileCrcs, CoderInfos, Offsets, FolderCrcs, StreamCounts, IsPlannable,
      IsWellFormed, WrittenDigests, CursorAfter;
    WrittenComplete(folders);
    TotalCounts(folders);
  }

  /** Every recorded file has its place in the table of checksums. */
  lemma {:induction false} CrcsAreIndices(folders: seq<CompletedFolder>)
    requires AllWellFormed(folders)
    ensures |FileCrcs(folders)| == |FileIndices(folders)|
  {
    hide FolderOf;
    if folders != [] {
      CrcsAreIndices(folders[1..]);
    }
  }

  /** The cursor over what is read starts in step, with the locations of the folders that were written. */
  lemma WrittenOpens(entries: seq<WriteEntry>, folders: seq<CompletedFolder>)
    requires AllPlannable(folders) && Recorded(entries, folders)
    ensures Countable(folders) && OpenTables(StreamsRead(folders)).Success?
    ensures var tables := OpenTables(StreamsRead(folders)).value;
      && AnnouncedStreams(tables) == StreamCount(WrittenKinds(entries)) == |WrittenLocations(folders)|
      && AllLaidOut(OpenItems(tables)) && LeftOf(0, OpenItems(tables)) == Left(WrittenLocations(folders), None)
  {
    hide AllPlannable, FileIndices, FileCrcs, StreamOwnersFrom, StreamCount, LeftOf, WrittenTables, OpenTables,
      AllWellFormed, Items, WrittenItems, AnnouncedStreams, OwnedStreams, WrittenStreams, Countable;
    Limits(folders);
    AllLocations(entries, folders);
    StreamsBefore(folders, |folders|);
    NoErrorLeft(0, WrittenItems(folders, 0));
    LayoutRoundTrip(folders);
    if folders == [] {
      NothingOpens();
    } else {
      WrittenTablesOpen(folders);
      CrcsCounted(entries, folders);
    }
  }

  lemma NothingOpens()
    ensures OpenTables(None) == Success(None) && AnnouncedStreams(None) == 0 && OpenItems(None) == []
    ensures AllPlannable([]) ==> WrittenItems([], 0) == []
    ensures StreamOwnersFrom([], 0) == [] && FileIndices([]) == []
  {
  }

  lemma CrcsCounted(entries: seq<WriteEntry>, folders: seq<CompletedFolder>)
    requires AllPlannable(folders) && Recorded(entries, folders)
    ensures |FileCrcs(folders)| == StreamCount(WrittenKinds(entries))
  {
    hide IsPlannable, WithinLimits, FileIndices, FileCrcs, StreamCount, IsWellFormed;
    CrcsAreIndices(folders);
    OwnersCounted(WrittenKinds(entries), 0);
    assert WrittenKinds(entries)[0..] == WrittenKinds(entries);
  }

  lemma WasRecorded(entries: seq<WriteEntry>, folders: seq<CompletedFolder>)
    requires Recorded(entries, folders)
    ensures FileIndices(folders) == StreamOwnersFrom(WrittenKinds(entries), 0)
  {
  }

  /** The header is written, resolved, and a cursor opened over the entries and tables read from it. */
  method WriteThenOpen(entries: seq<WriteEntry>, folders: seq<CompletedFolder>) returns (cursor: FileStreams)
    requires IsWritable(entries, folders) && IsReadable(entries, folders)
    requires AllPlannable(folders) && Recorded(entries, folders)
    ensures fresh(cursor) && fresh(cursor.Repr) && cursor.Valid() && cursor.kinds == WrittenKinds(entries)
    ensures cursor.At() == Position(0, Left(WrittenLocations(folders), None))
    ensures InStep(cursor.kinds, cursor.At())
  {
    hide AllPlannable, LeftOf, OpenTables, OpenItems, WrittenStreams, WrittenFiles, WrittenKinds, StreamCount,
      TryFiles, TryStreams, WrittenLocations, KindsOf, Recorded, AnnouncedStreams, IsReadable, AllWellFormed,
      AllValidEntries, HeaderBytes, InStep;
    var header, resolved := WriteAndResolve(entries, folders);
    var files, streams := TryFiles(resolved.value.header), TryStreams(resolved.value.header);
    KindsRoundTrip(entries);
    WrittenOpens(entries, folders);
    var result := OpenFiles(KindsOf(files.value, |entries|), streams.value);
    cursor := result.value;
  }

  /**
   * The entry recorded as the j-th file of folder f gets that folder, the byte range and the CRC that were
   * recorded for it, through the header bytes, their resolution, and the cursor over what was read.
   */
  method WriteThenFind(entries: seq<WriteEntry>, folders: seq<CompletedFolder>, f: nat, j: nat)
    returns (file: Result<Option<FileStream>, R7zError>)
    requires IsWritable(entries, folders) && IsReadable(entries, folders)
    requires AllPlannable(folders) && Recorded(entries, folders)
    requires f < |folders| && j < |folders[f].fileIndices|
    ensures |folders[f].fileIndices| == |folders[f].fileSizes| == |folders[f].fileCrcs|
    ensures folders[f].fileIndices[j] < |entries|
    ensures var e := folders[f].fileIndices[j];
      file == Success(Some(FileStream(e, BindKind(WrittenKind(entries[e]), StreamLocation(f, j,
        WrittenLayout(folders, f),
        Substream(Total(folders[f].fileSizes[..j]), Total(folders[f].fileSizes[..j + 1]), folders[f].fileCrcs[j]))))))
  {
    hide AllPlannable, WrittenKind, WrittenLayout, BindKind, Total, FileIndices, StreamOwnersFrom, FileAt, Discard,
      NextFile, WrittenLocations, StreamCount, IsWritable, IsReadable, Recorded, Passed, Taken, InStep;
    WasRecorded(entries, folders);
    EntryFindsItsData(entries, folders, f, j);
    var cursor := WriteThenOpen(entries, folders);
    EntryGetsItsLocation(cursor.kinds, WrittenLocations(folders), folders[f].fileIndices[j]);
    file := cursor.Nth(folders[f].fileIndices[j]);
  }
}
