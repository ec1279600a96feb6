/** Sessions: entries requested in increasing order, read through one decoder, over a whole run. */
module Sessions {
  import opened Wrappers
  import opened Words
  import opened FilesInfos
  import opened FolderLayouts
  import opened FileCursors
  import opened ReadSessions

  /** Every location is a stream of the folder it names. */
  ghost predicate Located(locations: seq<StreamLocation>, worlds: seq<FolderWorld>) {
    forall k :: 0 <= k < |locations| ==> IsIn(locations[k], worlds)
  }

  ghost predicate IsIn(location: StreamLocation, worlds: seq<FolderWorld>) {
    && location.folderIndex < |worlds| && worlds[location.folderIndex].layout == location.folder
    && location.streamIndex < worlds[location.folderIndex].Streams().Count()
  }

  /** No location lies in front of the given place. */
  ghost predicate NoneBehind(locations: seq<StreamLocation>, folder: nat, stream: nat) {
    forall k :: 0 <= k < |locations| ==> IsAhead(locations[k], folder, stream)
  }

  predicate IsAhead(location: StreamLocation, folder: nat, stream: nat) {
    folder < location.folderIndex || (folder == location.folderIndex && stream <= location.streamIndex)
  }

  lemma PassedKeeps(before: Left, after: Left, worlds: seq<FolderWorld>, folder: nat, stream: nat)
    requires Passed(before, after)
    ensures Located(before.locations, worlds) ==> Located(after.locations, worlds)
    ensures InOrder(before.locations) ==> InOrder(after.locations)
    ensures NoneBehind(before.locations, folder, stream) ==> NoneBehind(after.locations, folder, stream)
  {
    hide IsIn, IsAhead, Precedes;
    var passed := |before.locations| - |after.locations|;
    assert forall k :: 0 <= k < |after.locations| ==> after.locations[k] == before.locations[passed + k];
  }

  lemma TakenInOrder(before: Left, after: Left, location: StreamLocation, worlds: seq<FolderWorld>)
    requires Taken(before, after, location) && Located(before.locations, worlds) && InOrder(before.locations)
    ensures IsIn(location, worlds) && NoneBehind(after.locations, location.folderIndex, location.streamIndex + 1)
    ensures forall folder: nat, stream: nat ::
      (NoneBehind(before.locations, folder, stream) ==> IsAhead(location, folder, stream))
  {
    var passed := |before.locations| - |after.locations|;
    forall k | 0 <= k < |after.locations| ensures Precedes(location, after.locations[k]) {
      assert after.locations[k] == before.locations[passed + k];
    }
  }

  /** The locations of a laid-out archive belong to its folders. */
  lemma {:induction false} LeftIsLocated(
      index: nat, items: seq<Result<FolderLayout, R7zError>>, worlds: seq<FolderWorld>)
    requires index + |items| <= |worlds|
    requires forall i :: 0 <= i < |items| && items[i].Success? ==> worlds[index + i].layout == items[i].value
    ensures Located(LeftOf(index, items).locations, worlds)
    decreases items
  {
    hide StreamLayout.Count;
    if items != [] && items[0].Success? {
      LeftIsLocated(index + 1, items[1..], worlds);
    }
  }

  /** Folders opened so far strictly increase, and none lies behind the live one. */
  lemma OneMoreOpening(openings: seq<Opening>, before: seq<Opening>, folder: nat)
    requires openings != [] && SameFolders(openings[..|openings| - 1], before) && OpenedOnce(before)
    requires openings[|openings| - 1].folder == folder
    requires before != [] ==> before[|before| - 1].folder < folder
    ensures OpenedOnce(openings)
  {
    forall i, j | 0 <= i < j < |openings| ensures openings[i].folder < openings[j].folder {
      assert openings[..|openings| - 1][i] == openings[i];
      if j < |openings| - 1 {
        assert openings[..|openings| - 1][j] == openings[j];
      }
    }
  }

  lemma SameOpenings(openings: seq<Opening>, before: seq<Opening>)
    requires SameFolders(openings, before) && OpenedOnce(before)
    ensures OpenedOnce(openings)
  {
  }

  /**
   * What one request came to. reached tells that it got as far as the decoder, sawEnd that the
   * callback read up to the end of its entry.
   */
  datatype Reading = Reading(
    error: Option<R7zError>, reached: bool, location: Option<StreamLocation>, delivered: Bytes, sawEnd: bool)

  /** The callback saw the beginning of its entry's bytes, all of them if it read to the end. */
  ghost predicate Faithful(reading: Reading, worlds: seq<FolderWorld>, crc: Bytes -> u32) {
    match reading.location
    case None => reading.delivered == []
    case Some(location) =>
      && IsIn(location, worlds)
      && var world := worlds[location.folderIndex];
      && reading.delivered <= world.Slice(location.streamIndex)
      && (reading.sawEnd ==> reading.delivered == world.Slice(location.streamIndex))
      && (reading.error.None? ==> world.StreamVerified(location.streamIndex, crc))
  }

  /** A request opens no folder but that of its own stream. */
  ghost predicate OpenedBy(before: seq<Opening>, after: seq<Opening>, reading: Reading) {
    match reading.location
    case None => after == before
    case Some(location) => OpenedMore(before, after, location.folderIndex)
  }

  predicate AsksFor(reading: Reading, folder: nat) {
    reading.location.Some? && reading.location.value.folderIndex == folder
  }

  ghost predicate SomeAsksFor(readings: seq<Reading>, folder: nat) {
    exists j :: 0 <= j < |readings| && AsksFor(readings[j], folder)
  }

  /** The folders opened since are folders of the entries that were asked for. */
  ghost predicate OpenedFor(before: seq<Opening>, after: seq<Opening>, readings: seq<Reading>) {
    && |before| <= |after| && (forall k :: 0 <= k < |before| ==> after[k].folder == before[k].folder)
    && forall k :: |before| <= k < |after| ==> SomeAsksFor(readings, after[k].folder)
  }

  lemma OpenedForOneMore(
      start: seq<Opening>, before: seq<Opening>, after: seq<Opening>, readings: seq<Reading>, r: Reading)
    requires OpenedFor(start, before, readings) && OpenedBy(before, after, r)
    ensures OpenedFor(start, after, readings + [r])
  {
    var all := readings + [r];
    forall k | |start| <= k < |after| ensures SomeAsksFor(all, after[k].folder) {
      if k < |before| {
        assert SomeAsksFor(readings, before[k].folder);
        var j :| 0 <= j < |readings| && AsksFor(readings[j], before[k].folder);
        assert AsksFor(all[j], after[k].folder);
      } else {
        assert AsksFor(all[|readings|], after[k].folder);
      }
    }
  }

  lemma OpenedForSame(start: seq<Opening>, before: seq<Opening>, after: seq<Opening>, readings: seq<Reading>)
    requires OpenedFor(start, before, readings) && SameFolders(after, before)
    ensures OpenedFor(start, after, readings)
  {
    hide SomeAsksFor;
    forall k | |start| <= k < |after| ensures SomeAsksFor(readings, after[k].folder) {
      assert after[k].folder == before[k].folder;
    }
  }

  /** What has been opened since can only be to blame for what comes later. */
  lemma SoundBeforeRequest(
      worlds: seq<FolderWorld>, before: seq<Opening>, after: seq<Opening>, reading: Reading, crc: Bytes -> u32)
    requires OpenedBy(before, after, reading) && OpenedSound(worlds, after, crc)
    ensures OpenedSound(worlds, before, crc)
  {
    hide OpenedSound;
    match reading.location
    case None =>
    case Some(location) => SoundBefore(worlds, before, after, location.folderIndex, crc);
  }

  /** Entries whose content can be read. */
  predicate IsReadable(kind: EntryKind<()>) {
    kind.HasStream() || kind.EmptyFile? || kind.EmptySymlink?
  }

  lemma LiveOpening(decoder: EntryDecoder)
    requires decoder.Valid() && decoder.active != null
    ensures decoder.openings != [] && decoder.openings[|decoder.openings| - 1].folder == decoder.current
  {
  }

  class ArchiveReadSession {
    const files: FileStreams
    const decoder: EntryDecoder
    /** No request has failed and no folder has been finished early. */
    ghost var undisturbed: bool

    ghost predicate Valid()
      reads this, files, files.Repr, decoder, decoder.budget, decoder.active
    {
      && files.Valid() && decoder.Valid()
      && this !in files.Repr && decoder !in files.Repr && decoder.budget !in files.Repr
      && (decoder.active != null ==> decoder.active !in files.Repr)
      && Located(files.At().left.locations, decoder.worlds) && InOrder(files.At().left.locations)
      && (decoder.active != null ==>
            NoneBehind(files.At().left.locations, decoder.current, decoder.active.streamPosition))
      && (undisturbed ==> Undisturbed())
    }

    /** Each folder has been opened at most once, and the last one is still live. */
    ghost predicate Undisturbed()
      reads decoder
    {
      OpenedOnce(decoder.openings) && (decoder.openings != [] ==> decoder.active != null)
    }

    constructor (files: FileStreams, decoder: EntryDecoder)
      requires files.Valid() && decoder.Valid() && decoder.openings == []
      requires decoder !in files.Repr && decoder.budget !in files.Repr
      requires decoder.active == null
      requires Located(files.At().left.locations, decoder.worlds) && InOrder(files.At().left.locations)
      ensures Valid() && this.files == files && this.decoder == decoder && undisturbed
    {
      hide Located, InOrder, FileStreams.At;
      this.files, this.decoder, undisturbed := files, decoder, true;
    }

    /** An entry that has no content to read has no variant. */
    static function ContentOf(kind: EntryKind<StreamLocation>): Option<EntryContent> {
      match kind
      case File(location) => Some(StreamOf(location.folderIndex, location.streamIndex))
      case Symlink(location) => Some(StreamOf(location.folderIndex, location.streamIndex))
      case EmptyFile => Some(NoStream)
      case EmptySymlink => Some(NoStream)
      case Directory => None
      case Anti => None
    }

    /** No wrong turn was taken: the callback agreed, and neither decoder nor an opened folder is to blame. */
    ghost predicate Blameless(verdict: Option<R7zError>)
      reads decoder
    {
      verdict.None? && !decoder.hindered && OpenedSound(decoder.worlds, decoder.openings, decoder.crc)
    }

    /**
     * Reads an entry behind all those requested before. The callback's reads are given by the sizes
     * of its buffers and by what it finally returns.
     */
    method ReadEntry(index: nat, demands: seq<nat>, verdict: Option<R7zError>) returns (r: Reading)
      requires Valid()
      modifies this, files.Repr, decoder, decoder.budget, decoder.active
      ensures Valid() && (decoder.active == null || decoder.active == old(decoder.active) || fresh(decoder.active))
      ensures Faithful(r, decoder.worlds, decoder.crc)
      ensures !(old(files.next) <= index < |files.kinds|) ==> r.error == Some(InvalidOptions) && !r.reached
      ensures !(old(files.next) <= index < |files.kinds|)
        ==> unchanged(this) && unchanged(files.Repr) && unchanged(decoder)
      ensures old(decoder.verification).Incomplete? ==> decoder.verification.Incomplete?
      ensures r.error.None? ==> undisturbed == old(undisturbed)
      ensures r.reached && r.error.Some? ==> decoder.verification.Incomplete?
      ensures old(decoder.hindered) ==> decoder.hindered
      ensures OpenedBy(old(decoder.openings), decoder.openings, r)
      ensures r.error.None? && decoder.mode.WholeFolder? ==> decoder.verification == old(decoder.verification)
      ensures old(InStep(files.kinds, files.At())) ==> InStep(files.kinds, files.At())
      ensures old(InStep(files.kinds, files.At())) && old(files.next) <= index < |files.kinds|
        ==> files.next == index + 1
      ensures (old(InStep(files.kinds, files.At())) && old(files.next) <= index < |files.kinds|
               && IsReadable(files.kinds[index]) && Blameless(verdict))
        ==> r.error.None?
    {
      hide FileStreams.At, FileStreams.Valid, EntryDecoder.Valid, Discard, NextFile, InStep, OpenedSound;
      if index < files.next || index >= |files.kinds| {
        return Reading(Some(InvalidOptions), false, None, [], false);
      }
      ghost var before, at := files.At().left, files.At();
      PositionOf(files);
      if InStep(files.kinds, at) {
        NextInStep(files.kinds, at, index - files.next);
      }
      var file := files.Nth(index - files.next);
      ghost var after := files.At().left;
      PositionOf(files);
      ghost var stream := if decoder.active == null then 0 else decoder.active.streamPosition;
      PassedKeeps(before, after, decoder.worlds, decoder.current, stream);
      if file.Failure? {
        return Reading(Some(file.error), false, None, [], false);
      }
      if file.value.None? {
        return Reading(Some(Parse), false, None, [], false);
      }
      var kind := file.value.value.kind;
      var content := ContentOf(kind);
      if content.None? {
        return Reading(Some(R7zError.Directory), false, None, [], false);
      }
      r := ReadContentOf(kind, before, after, demands, verdict);
    }

    method ReadContentOf(
      kind: EntryKind<StreamLocation>, ghost before: Left, ghost after: Left, demands: seq<nat>,
      verdict: Option<R7zError>)
      returns (r: Reading)
      requires Valid() && ContentOf(kind).Some? && after == files.At().left
      requires Located(before.locations, decoder.worlds) && InOrder(before.locations)
      requires kind.HasStream() ==> Taken(before, after, kind.stream)
      requires decoder.active != null ==> NoneBehind(before.locations, decoder.current, decoder.active.streamPosition)
      modifies this, decoder, decoder.budget, decoder.active
      ensures Valid() && (decoder.active == null || decoder.active == old(decoder.active) || fresh(decoder.active))
      ensures r.reached && Faithful(r, decoder.worlds, decoder.crc)
      ensures old(decoder.verification).Incomplete? ==> decoder.verification.Incomplete?
      ensures r.error.None? ==> undisturbed == old(undisturbed)
      ensures r.error.Some? ==> decoder.verification.Incomplete?
      ensures old(decoder.hindered) ==> decoder.hindered
      ensures OpenedBy(old(decoder.openings), decoder.openings, r)
      ensures r.error.None? && decoder.mode.WholeFolder? ==> decoder.verification == old(decoder.verification)
      ensures Blameless(verdict) ==> r.error.None?
    {
      hide FileStreams.At, FileStreams.Valid, EntryDecoder.Valid, FolderWorld.Slice, FolderWorld.StreamVerified, Taken,
        FolderWorld.Streams, OpenedSound;
      if kind.HasStream() {
        TakenInOrder(before, after, kind.stream, decoder.worlds);
      }
      ghost var openings := decoder.openings;
      if decoder.active != null {
        LiveOpening(decoder);
      }
      var error, delivered, sawEnd := decoder.Read(ContentOf(kind).value, demands, verdict);
      r := Reading(error, true, if kind.HasStream() then Some(kind.stream) else None, delivered, sawEnd);
      if error.Some? {
        undisturbed := false;
      } else if kind.HasStream() && undisturbed {
        StillOnce(
          decoder.openings, openings, kind.stream.folderIndex, old(decoder.active != null), old(decoder.current));
      }
    }

    lemma StillOnce(openings: seq<Opening>, before: seq<Opening>, folder: nat, live: bool, current: nat)
      requires OpenedOnce(before) && openings != [] && openings[|openings| - 1].folder == folder
      requires before != [] ==> live && before[|before| - 1].folder == current && current <= folder
      requires live && current == folder ==> SameFolders(openings, before)
      requires !(live && current == folder) ==> SameFolders(openings[..|openings| - 1], before)
      ensures OpenedOnce(openings)
    {
      if live && current == folder {
        SameOpenings(openings, before);
      } else {
        OneMoreOpening(openings, before, folder);
      }
    }

    /** Completes the current folder and reports the scope verified so far. */
    method FinishFolder() returns (r: Result<ReadVerification, R7zError>)
      requires Valid()
      modifies this, decoder, decoder.budget, decoder.active
      ensures Valid() && decoder.active == null && !undisturbed
      ensures r.Success? ==> r.value == decoder.verification
      ensures r.Success? && r.value.CompleteFolders? ==> decoder.AllVerified(|decoder.openings|)
      ensures SameFolders(decoder.openings, old(decoder.openings))
      ensures old(decoder.verification).Incomplete? ==> decoder.verification.Incomplete?
      ensures old(decoder.hindered) ==> decoder.hindered
      ensures Blameless(None) ==> r.Success?
      ensures r.Success? && decoder.mode.WholeFolder? ==> decoder.verification == old(decoder.verification)
    {
      hide FileStreams.At, FileStreams.Valid, EntryDecoder.Valid, Located, InOrder, EntryDecoder.AllVerified,
        OpenedSound;
      undisturbed := false;
      r := decoder.Finish();
    }
  }

  // ---------------------------------------------------------------- whole runs

  datatype Request = Request(index: nat, demands: seq<nat>, verdict: Option<R7zError>)

  ghost predicate NoFailures(readings: seq<Reading>) {
    forall k :: 0 <= k < |readings| ==> readings[k].error.None?
  }

  /** Some read that reached the decoder failed. */
  ghost predicate SomeReadFailed(readings: seq<Reading>) {
    exists k :: 0 <= k < |readings| && readings[k].error.Some? && readings[k].reached
  }

  ghost predicate AllFaithful(readings: seq<Reading>, worlds: seq<FolderWorld>, crc: Bytes -> u32) {
    forall k :: 0 <= k < |readings| ==> Faithful(readings[k], worlds, crc)
  }

  lemma NoReadings(worlds: seq<FolderWorld>, crc: Bytes -> u32)
    ensures AllFaithful([], worlds, crc) && NoFailures([]) && !SomeReadFailed([])
  {
  }

  lemma OneMoreReading(readings: seq<Reading>, r: Reading, worlds: seq<FolderWorld>, crc: Bytes -> u32)
    requires AllFaithful(readings, worlds, crc) && Faithful(r, worlds, crc)
    ensures AllFaithful(readings + [r], worlds, crc)
    ensures NoFailures(readings + [r]) <==> NoFailures(readings) && r.error.None?
    ensures SomeReadFailed(readings + [r]) ==> SomeReadFailed(readings) || (r.error.Some? && r.reached)
  {
    hide Faithful;
    var all := readings + [r];
    assert all[|readings|] == r;
    assert forall k :: 0 <= k < |readings| ==> all[k] == readings[k];
  }

  /** Increasing indices of entries with readable content, and callbacks that agree. */
  ghost predicate IsRequestable(requests: seq<Request>, next: nat, kinds: seq<EntryKind<()>>) {
    forall k :: 0 <= k < |requests| ==> IsNextRequest(requests, next, kinds, k)
  }

  ghost predicate IsNextRequest(requests: seq<Request>, next: nat, kinds: seq<EntryKind<()>>, k: nat)
    requires k < |requests|
  {
    && (if k == 0 then next else requests[k - 1].index + 1) <= requests[k].index < |kinds|
    && IsReadable(kinds[requests[k].index]) && requests[k].verdict.None?
  }

  /**
   * Any run of requests, followed by the end of the session. Every callback saw its own entry's
   * bytes; a run without failures opened no folder twice; a failed read is remembered to the end; and
   * a final CompleteFolders means that every folder visited was decoded and checked completely.
   * No folder is opened but those of the entries asked for. Increasing requests succeed, all of them, if the
   * folders opened for them are sound, whatever the other folders hold, unless the decoder is hindered; in
   * a session that completes its folders the result is then CompleteFolders.
   */
  method Run(session: ArchiveReadSession, requests: seq<Request>)
    returns (readings: seq<Reading>, r: Result<ReadVerification, R7zError>)
    requires session.Valid() && session.undisturbed && session.decoder.verification.CompleteFolders?
    modifies session, session.files.Repr, session.decoder, session.decoder.budget, session.decoder.active
    ensures |readings| == |requests|
    ensures AllFaithful(readings, session.decoder.worlds, session.decoder.crc)
    ensures NoFailures(readings) ==> OpenedOnce(session.decoder.openings)
    ensures SomeReadFailed(readings)
      ==> session.decoder.verification.Incomplete? && (r.Success? ==> r.value.Incomplete?)
    ensures r.Success? && r.value.CompleteFolders? ==> session.decoder.AllVerified(|session.decoder.openings|)
    ensures session.decoder.WellRecorded() && session.decoder.active == null
    ensures OpenedFor(old(session.decoder.openings), session.decoder.openings, readings)
    ensures (old(InStep(session.files.kinds, session.files.At()))
             && IsRequestable(requests, old(session.files.next), session.files.kinds) && session.Blameless(None))
      ==> NoFailures(readings) && r.Success? && (session.decoder.mode.WholeFolder? ==> r.value.CompleteFolders?)
  {
    hide EntryDecoder.Valid, FileStreams.At, FileStreams.Valid, Faithful, Located, InOrder, OpenedOnce, NoneBehind,
      NoFailures, SomeReadFailed, AllFaithful, InStep, OpenedSound, IsRequestable, OpenedFor,
      OpenedBy;
    readings := [];
    ghost var start := session.decoder.openings;
    NoReadings(session.decoder.worlds, session.decoder.crc);
    NothingOpened(start);
    ghost var entered, next := session.decoder.active, session.files.next;
    ghost var smooth := InStep(session.files.kinds, session.files.At())
      && IsRequestable(requests, next, session.files.kinds);
    for k := 0 to |requests|
      invariant session.Valid() && |readings| == k
      invariant session.decoder.active == null || session.decoder.active == entered || fresh(session.decoder.active)
      invariant AllFaithful(readings, session.decoder.worlds, session.decoder.crc)
      invariant OpenedFor(start, session.decoder.openings, readings)
      invariant NoFailures(readings) ==> session.undisturbed
      invariant SomeReadFailed(readings) ==> session.decoder.verification.Incomplete?
      invariant smooth ==> InStep(session.files.kinds, session.files.At())
      invariant smooth ==> session.files.next == if k == 0 then next else requests[k - 1].index + 1
      invariant smooth && session.Blameless(None) ==> NoFailures(readings)
      invariant NoFailures(readings) && session.decoder.mode.WholeFolder?
        ==> session.decoder.verification.CompleteFolders?
    {
      RequestAt(requests, next, session.files.kinds, k);
      ghost var before := session.decoder.openings;
      var reading := session.ReadEntry(requests[k].index, requests[k].demands, requests[k].verdict);
      OneMoreReading(readings, reading, session.decoder.worlds, session.decoder.crc);
      OpenedForOneMore(start, before, session.decoder.openings, readings, reading);
      if session.Blameless(None) {
        SoundBeforeRequest(session.decoder.worlds, before, session.decoder.openings, reading, session.decoder.crc);
      }
      readings := readings + [reading];
    }
    ghost var openings := session.decoder.openings;
    ghost var once := session.undisturbed;
    assert once ==> OpenedOnce(openings);
    r := session.FinishFolder();
    OpenedForSame(start, openings, session.decoder.openings, readings);
    SoundAlike(session.decoder.worlds, openings, session.decoder.openings, session.decoder.crc);
    if once {
      SameOpenings(session.decoder.openings, openings);
    }
    EndRecorded(session.decoder);
  }

  lemma NothingOpened(openings: seq<Opening>)
    ensures OpenedFor(openings, openings, [])
  {
  }

  lemma SoundAlike(worlds: seq<FolderWorld>, before: seq<Opening>, after: seq<Opening>, crc: Bytes -> u32)
    requires SameFolders(after, before)
    ensures OpenedSound(worlds, after, crc) ==> OpenedSound(worlds, before, crc)
  {
    hide Sound;
    if OpenedSound(worlds, after, crc) {
      SameIsNoMore(before, after, 0);
      SoundBefore(worlds, before, after, 0, crc);
    }
  }

  lemma RequestAt(requests: seq<Request>, next: nat, kinds: seq<EntryKind<()>>, k: nat)
    requires k < |requests|
    ensures IsRequestable(requests, next, kinds) ==> IsNextRequest(requests, next, kinds, k)
  {
  }

  lemma EndRecorded(decoder: EntryDecoder)
    requires decoder.Valid()
    ensures decoder.WellRecorded()
  {
  }
}
