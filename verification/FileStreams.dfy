/** A cursor that finds the stream of each entry, and skips, while it walks the folders once. */
module FileCursors {
  import opened Wrappers
  import opened Words
  import opened FilesInfos
  import opened FolderLayouts
  import Counting
  import StreamInfos

  datatype StreamLocation = StreamLocation(folderIndex: nat, streamIndex: nat, folder: FolderLayout, stream: Substream)

  function LocationsOf(index: nat, folder: FolderLayout): (r: seq<StreamLocation>)
    ensures |r| == folder.streams.Count()
  {
    seq(folder.streams.Count(), j requires 0 <= j < folder.streams.Count() =>
      StreamLocation(index, j, folder, SubstreamAt(folder.streams, j)))
  }

  /** The locations still to come, and the error that follows them, if any. */
  datatype Left = Left(locations: seq<StreamLocation>, error: Option<R7zError>)

  const NOTHING := Left([], None)

  ghost function LeftOf(index: nat, items: seq<Result<FolderLayout, R7zError>>): Left
    decreases items
  {
    if items == [] then NOTHING
    else if items[0].Failure? then Left([], Some(items[0].error))
    else
      var rest := LeftOf(index + 1, items[1..]);
      Left(LocationsOf(index, items[0].value) + rest.locations, rest.error)
  }

  /** Only locations at the front have been passed. */
  ghost predicate Passed(before: Left, after: Left) {
    && |after.locations| <= |before.locations|
    && after.locations == before.locations[|before.locations| - |after.locations|..]
  }

  /** The last location passed is the one that was taken. */
  ghost predicate Taken(before: Left, after: Left, location: StreamLocation) {
    && Passed(before, after) && |after.locations| < |before.locations|
    && location == before.locations[|before.locations| - |after.locations| - 1]
  }

  lemma PassedTwice(a: Left, b: Left, c: Left)
    requires Passed(a, b) && Passed(b, c)
    ensures Passed(a, c)
    ensures forall location :: Taken(b, c, location) ==> Taken(a, c, location)
  {
  }

  /** What is left after k more locations. */
  function Rest(left: Left, k: nat): Left
    requires k <= |left.locations|
  {
    Left(left.locations[k..], left.error)
  }

  lemma RestPassed(left: Left, k: nat)
    requires k <= |left.locations|
    ensures Rest(left, 0) == left && Passed(left, Rest(left, k))
    ensures k > 0 ==> Taken(left, Rest(left, k), left.locations[k - 1])
  {
    assert left.locations[0..] == left.locations;
  }

  lemma RestOfRest(left: Left, i: nat, j: nat)
    requires i + j <= |left.locations|
    ensures Rest(Rest(left, i), j) == Rest(left, i + j)
    ensures j < |left.locations| - i ==> Rest(left, i).locations[j] == left.locations[i + j]
  {
    assert left.locations[i..][j..] == left.locations[i + j..];
  }

  lemma RestAgain(left: Left, i: nat, j: nat)
    requires i <= |left.locations| && j <= |Rest(left, i).locations|
    ensures i + j <= |left.locations| && Rest(Rest(left, i), j) == Rest(left, i + j)
  {
    RestOfRest(left, i, j);
  }

  lemma RestError(left: Left, k: nat, error: Option<R7zError>)
    requires k <= |left.locations| && Rest(left, k) == Left([], error)
    ensures k == |left.locations| && error == left.error
  {
    assert |left.locations[k..]| == 0;
  }

  lemma NothingPassed(left: Left)
    ensures Passed(left, NOTHING)
  {
  }

  /** The error of a request past the last location. */
  function PastEnd(left: Left): R7zError {
    if left.error.Some? then left.error.value else Parse
  }

  // ---------------------------------------------------------------- stream locations

  /** A folder and how many of its streams have been passed. */
  datatype FolderStreams = FolderStreams(index: nat, folder: FolderLayout, position: nat) {
    function Left(): nat {
      if position <= folder.streams.Count() then folder.streams.Count() - position else 0
    }

    function Locations(): (r: seq<StreamLocation>)
      ensures |r| == Left()
    {
      if position <= folder.streams.Count() then LocationsOf(index, folder)[position..] else []
    }
  }

  lemma StreamsLeft(streams: FolderStreams, n: nat)
    requires n < streams.Left()
    ensures streams.position + n < streams.folder.streams.Count()
    ensures streams.Locations()[n] == LocationsOf(streams.index, streams.folder)[streams.position + n]
    ensures streams.(position := streams.position + n + 1).Locations() == streams.Locations()[n + 1..]
  {
  }

  /** What is left of the current folder in front of what is left of the others. */
  function WithCurrent(current: Option<FolderStreams>, rest: Left): Left {
    if current.None? then rest else Left(current.value.Locations() + rest.locations, rest.error)
  }

  lemma GivingUpCurrent(streams: FolderStreams, rest: Left)
    ensures streams.Left() <= |WithCurrent(Some(streams), rest).locations|
    ensures Rest(WithCurrent(Some(streams), rest), streams.Left()) == rest
  {
    assert (streams.Locations() + rest.locations)[streams.Left()..] == rest.locations;
  }

  lemma TakingFromCurrent(streams: FolderStreams, rest: Left, n: nat)
    requires n < streams.Left()
    ensures streams.position + n < streams.folder.streams.Count()
    ensures var all := WithCurrent(Some(streams), rest);
      && n < |all.locations|
      && all.locations[n] == LocationsOf(streams.index, streams.folder)[streams.position + n]
      && WithCurrent(Some(streams.(position := streams.position + n + 1)), rest) == Rest(all, n + 1)
  {
    StreamsLeft(streams, n);
    hide FolderStreams.Left, FolderStreams.Locations, LocationsOf, StreamLayout.Count;
    SkipInFront(streams.Locations(), rest.locations, n + 1);
  }

  lemma SkipInFront<T>(a: seq<T>, b: seq<T>, n: nat)
    requires n <= |a|
    ensures (a + b)[n..] == a[n..] + b
  {
  }

  /** Advances through folders and substreams independently of the entries. */
  class StreamLocations {
    const folders: FolderPlans?
    var nextIndex: nat
    var current: Option<FolderStreams>

    ghost const Repr: set<object>

    ghost predicate Valid()
      reads this, Repr
    {
      this in Repr && (folders != null ==> folders in Repr && folders.Valid())
    }

    /** Folders that the iterator has yet to yield. */
    ghost function FoldersLeft(): seq<Result<FolderLayout, R7zError>>
      requires Valid()
      reads this, Repr
    {
      if folders == null then [] else folders.Left()
    }

    ghost function State(): Left
      requires Valid()
      reads this, Repr
    {
      WithCurrent(current, LeftOf(nextIndex, FoldersLeft()))
    }

    constructor (folders: FolderPlans?)
      requires folders != null ==> folders.Valid()
      ensures Valid() && this.folders == folders
      ensures this.Repr == {this} + if folders == null then {} else {folders as object}
      ensures State() == LeftOf(0, if folders == null then [] else folders.Left())
    {
      this.folders, nextIndex, current := folders, 0, None;
      Repr := {this} + if folders == null then {} else {folders as object};
    }

    /** Moves on to the next folder; the one before it has been given up. */
    method Enter() returns (r: Option<R7zError>)
      requires Valid() && current == None
      modifies Repr
      ensures Valid()
      ensures current.Some? ==> r == None && State() == old(State()) && |FoldersLeft()| < |old(FoldersLeft())|
      ensures current.None? ==> old(State()) == Left([], r) && State() == NOTHING
    {
      hide Items, FolderPlans.Left, FolderPlans.Valid, StreamLayout.Count, SubstreamAt;
      if folders == null {
        return None;
      }
      var item := folders.Next();
      if item.None? {
        return None;
      }
      if item.value.Failure? {
        return Some(item.value.error);
      }
      current, nextIndex := Some(FolderStreams(nextIndex, item.value.value, 0)), nextIndex + 1;
      ghost var folder := item.value.value;
      assert LocationsOf(nextIndex - 1, folder)[0..] == LocationsOf(nextIndex - 1, folder);
      r := None;
    }

    /** Whole folders are passed over by their stream counts; only the last one is entered. */
    method Nth(n: nat) returns (r: Result<StreamLocation, R7zError>)
      requires Valid()
      modifies Repr
      ensures Valid()
      ensures n < |old(State()).locations|
        ==> r == Success(old(State()).locations[n]) && State() == Rest(old(State()), n + 1)
      ensures n >= |old(State()).locations| ==> r == Failure(PastEnd(old(State()))) && State() == NOTHING
    {
      hide LeftOf, FolderStreams.Locations, Items, FolderPlans.Left, FolderPlans.Valid, FolderStreams.Left, LocationsOf,
        Rest, WithCurrent;
      var skip: nat := n;
      ghost var all := State();
      RestPassed(all, 0);
      while current.None? || skip >= current.value.Left()
        invariant Valid() && skip <= n && n - skip <= |all.locations|
        invariant State() == Rest(all, n - skip)
        decreases |FoldersLeft()|, if current.Some? then 1 else 0
      {
        if current.Some? {
          GiveUp(all, n - skip);
          skip := skip - current.value.Left();
          current := None;
        } else {
          var error := Enter();
          if current.None? {
            RestError(all, n - skip, error);
            return Failure(if error.Some? then error.value else Parse);
          }
        }
      }
      ghost var rest := LeftOf(nextIndex, FoldersLeft());
      var streams := current.value;
      TakingFromCurrent(streams, rest, skip);
      RestAgain(all, n - skip, skip + 1);
      RestOfRest(all, n - skip, skip);
      r := Success(LocationsOf(streams.index, streams.folder)[streams.position + skip]);
      current := Some(streams.(position := streams.position + skip + 1));
    }

    /** Without the current folder, what is left begins after its streams. */
    lemma GiveUp(all: Left, passed: nat)
      requires Valid() && current.Some? && passed <= |all.locations| && State() == Rest(all, passed)
      ensures passed + current.value.Left() <= |all.locations|
      ensures WithCurrent(None, LeftOf(nextIndex, FoldersLeft())) == Rest(all, passed + current.value.Left())
    {
      hide LeftOf, FolderStreams.Locations, Items, FolderPlans.Left, FolderPlans.Valid, FolderStreams.Left;
      GivingUpCurrent(current.value, LeftOf(nextIndex, FoldersLeft()));
      RestAgain(all, passed, current.value.Left());
    }

    /** Drops the current folder, and with it the streams that it has left. */
    method LeaveCurrent() returns (incomplete: bool)
      requires Valid() && current.Some?
      modifies this`current
      ensures Valid() && current == None && FoldersLeft() == old(FoldersLeft())
      ensures Passed(old(State()), State())
      ensures if incomplete then old(State()) != NOTHING else State() == old(State())
    {
      hide LeftOf, FolderStreams.Locations, FolderStreams.Left, FolderPlans.Left, FolderPlans.Valid, Items;
      GivingUpCurrent(current.value, LeftOf(nextIndex, FoldersLeft()));
      RestPassed(State(), current.value.Left());
      incomplete := current.value.Left() != 0;
      current := None;
    }

    method AdvanceBy(count: nat) returns (r: Option<R7zError>)
      requires Valid()
      modifies Repr
      ensures Valid()
      ensures count <= |old(State()).locations| ==> r == None && State() == Rest(old(State()), count)
      ensures count > |old(State()).locations| ==> r == Some(PastEnd(old(State()))) && State() == NOTHING
    {
      hide LeftOf, State, FoldersLeft, FolderPlans.Valid, Rest, PastEnd, Passed, Taken;
      RestPassed(State(), 0);
      if count == 0 {
        return None;
      }
      var skipped := Nth(count - 1);
      r := if skipped.Failure? then Some(skipped.error) else None;
    }

    /** The end of all entries has to be the end of all folders. */
    method Finish() returns (r: Option<R7zError>)
      requires Valid()
      modifies Repr
      ensures Valid()
      ensures r == None <==> old(State()) == NOTHING
      ensures r == None ==> State() == NOTHING
      ensures Passed(old(State()), State())
    {
      hide State, FoldersLeft, Passed, FolderPlans.Valid;
      ghost var before := State();
      NothingPassed(before);
      if current.Some? {
        var incomplete := LeaveCurrent();
        if incomplete {
          return Some(Parse);
        }
      }
      while true
        invariant Valid() && current == None && State() == before
        decreases |FoldersLeft()|
      {
        var error := Enter();
        if current.None? {
          return error;
        }
        var incomplete := LeaveCurrent();
        if incomplete {
          return Some(Parse);
        }
      }
    }
  }

  // ---------------------------------------------------------------- files

  /** An entry together with the location of its stream, if it owns one. */
  datatype FileStream = FileStream(index: nat, kind: EntryKind<StreamLocation>)

  function BindKind(kind: EntryKind<()>, location: StreamLocation): EntryKind<StreamLocation> {
    match kind
    case File(_) => File(location)
    case Symlink(_) => Symlink(location)
    case EmptyFile => EmptyFile
    case EmptySymlink => EmptySymlink
    case Directory => EntryKind.Directory
    case Anti => Anti
  }

  function BindEmpty(kind: EntryKind<()>): EntryKind<StreamLocation>
    requires !kind.HasStream()
  {
    match kind
    case EmptyFile => EmptyFile
    case EmptySymlink => EmptySymlink
    case Directory => EntryKind.Directory
    case Anti => Anti
  }

  /** How many of the entries own a stream. */
  function StreamCount(kinds: seq<EntryKind<()>>): nat {
    if kinds == [] then 0 else (if kinds[0].HasStream() then 1 else 0) + StreamCount(kinds[1..])
  }

  /** The kinds of all entries; without a listing every entry is a file with a stream. */
  function KindsOf(files: Option<FilesInfo>, count: nat): (r: seq<EntryKind<()>>)
    ensures |r| == count
  {
    seq(count, i requires 0 <= i < count => if files.Some? then EntryKindAt(files.value, i) else File(()))
  }

  datatype Position = Position(next: nat, left: Left)

  /** No error lies ahead and there is exactly one location for every entry that owns a stream. */
  ghost predicate InStep(kinds: seq<EntryKind<()>>, at: Position) {
    && at.next <= |kinds| && at.left.error == None
    && |at.left.locations| == StreamCount(kinds[at.next..])
  }

  lemma CountStep(kinds: seq<EntryKind<()>>, i: nat)
    requires i < |kinds|
    ensures StreamCount(kinds[i..]) == (if kinds[i].HasStream() then 1 else 0) + StreamCount(kinds[i + 1..])
  {
    assert kinds[i..][1..] == kinds[i + 1..];
  }

  /** A request for the next entry succeeds if its location, or the end, is where it should be. */
  predicate NextSucceeds(kinds: seq<EntryKind<()>>, at: Position) {
    if at.next >= |kinds| then at.left == NOTHING
    else kinds[at.next].HasStream() ==> at.left.locations != []
  }

  /** The next entry, and what is left after it. */
  function NextOf(kinds: seq<EntryKind<()>>, at: Position): (Option<FileStream>, Position)
    requires NextSucceeds(kinds, at)
  {
    if at.next >= |kinds| then (None, at)
    else if kinds[at.next].HasStream() then
      (Some(FileStream(at.next, BindKind(kinds[at.next], at.left.locations[0]))),
       Position(at.next + 1, Rest(at.left, 1)))
    else
      (Some(FileStream(at.next, BindEmpty(kinds[at.next]))), at.(next := at.next + 1))
  }

  /** The next entry, when entries and locations are in step. */
  function NextFile(kinds: seq<EntryKind<()>>, at: Position): (r: (Option<FileStream>, Position))
    requires InStep(kinds, at)
    ensures InStep(kinds, r.1)
  {
    if at.next < |kinds| then
      CountStep(kinds, at.next);
      NextOf(kinds, at)
    else
      assert kinds[at.next..] == [];
      NextOf(kinds, at)
  }

  /** Discarding n entries one by one. */
  function Discard(kinds: seq<EntryKind<()>>, at: Position, n: nat): (r: Position)
    requires InStep(kinds, at)
    ensures InStep(kinds, r)
    decreases n
  {
    if n == 0 then at else Discard(kinds, NextFile(kinds, at).1, n - 1)
  }

  /** Skipping n entries at once: the streams they own are passed together. */
  function Skip(kinds: seq<EntryKind<()>>, at: Position, n: nat): Position
    requires InStep(kinds, at)
  {
    var end := if n < |kinds| - at.next then at.next + n else |kinds|;
    SkipInRange(kinds, at.next, end);
    Position(end, Rest(at.left, StreamCount(kinds[at.next..end])))
  }

  lemma {:induction false} SkipInRange(kinds: seq<EntryKind<()>>, from: nat, end: nat)
    requires from <= end <= |kinds|
    ensures StreamCount(kinds[from..]) == StreamCount(kinds[from..end]) + StreamCount(kinds[end..])
    decreases end - from
  {
    if from < end {
      SkipInRange(kinds, from + 1, end);
      assert kinds[from..][1..] == kinds[from + 1..] && kinds[from..end][1..] == kinds[from + 1..end];
    } else {
      assert kinds[from..end] == [];
    }
  }

  lemma SkipOne(kinds: seq<EntryKind<()>>, at: Position, n: nat)
    requires InStep(kinds, at) && at.next < |kinds|
    ensures Skip(kinds, at, n + 1) == Skip(kinds, NextFile(kinds, at).1, n)
  {
    var end := if n + 1 < |kinds| - at.next then at.next + n + 1 else |kinds|;
    SkipInRange(kinds, at.next, end);
    SkipInRange(kinds, at.next + 1, end);
    CountStep(kinds, at.next);
    var left, rest := at.left.locations, StreamCount(kinds[at.next + 1..end]);
    if kinds[at.next].HasStream() {
      assert left[1..][rest..] == left[rest + 1..];
    }
  }

  lemma SkipNone(kinds: seq<EntryKind<()>>, at: Position, n: nat)
    requires InStep(kinds, at) && (n == 0 || at.next == |kinds|)
    ensures Skip(kinds, at, n) == at
  {
    assert kinds[at.next..at.next] == [] && at.left.locations[0..] == at.left.locations;
  }

  /** Skipping is the same as discarding one by one. */
  lemma {:induction false} SkipIsDiscard(kinds: seq<EntryKind<()>>, at: Position, n: nat)
    requires InStep(kinds, at)
    ensures Skip(kinds, at, n) == Discard(kinds, at, n)
    decreases n
  {
    hide InStep, Skip;
    if n == 0 || at.next == |kinds| {
      SkipNone(kinds, at, n);
    }
    if n > 0 {
      InStepRange(kinds, at);
      SkipIsDiscard(kinds, NextFile(kinds, at).1, n - 1);
      if at.next < |kinds| {
        SkipOne(kinds, at, n - 1);
      } else {
        SkipNone(kinds, at, n - 1);
      }
    }
  }

  lemma InStepRange(kinds: seq<EntryKind<()>>, at: Position)
    requires InStep(kinds, at)
    ensures at.next <= |kinds|
  {
  }

  /** Entries and the locations of their streams, advanced side by side. */
  class FileStreams {
    const kinds: seq<EntryKind<()>>
    var next: nat
    const streams: StreamLocations
    ghost const Repr: set<object>

    ghost predicate Valid()
      reads this, Repr
    {
      && this in Repr && streams in Repr && streams.Repr <= Repr && this !in streams.Repr
      && streams.Valid() && next <= |kinds|
    }

    ghost function At(): Position
      requires Valid()
      reads this, Repr
    {
      Position(next, streams.State())
    }

    constructor (kinds: seq<EntryKind<()>>, streams: StreamLocations)
      requires streams.Valid()
      ensures Valid() && this.kinds == kinds && this.streams == streams && Repr == {this} + streams.Repr
      ensures At() == Position(0, streams.State())
    {
      this.kinds, next, this.streams := kinds, 0, streams;
      Repr := {this} + streams.Repr;
    }

    function Remaining(): nat
      reads this
    {
      if next <= |kinds| then |kinds| - next else 0
    }

    /** The location of an entry that owns a stream is the next one. */
    method Next() returns (r: Result<Option<FileStream>, R7zError>)
      requires Valid()
      modifies Repr
      ensures Valid()
      ensures next == if old(next) < |kinds| then old(next) + 1 else old(next)
      ensures r.Success? <==> NextSucceeds(kinds, old(At()))
      ensures r.Success? ==> r == Success(NextOf(kinds, old(At())).0) && At() == NextOf(kinds, old(At())).1
      ensures Passed(old(At()).left, At().left)
    {
      hide LeftOf, StreamLocations.State, StreamLocations.Valid, Passed;
      ghost var left := streams.State();
      RestPassed(left, 0);
      NothingPassed(left);
      if next == |kinds| {
        var error := streams.Finish();
        return if error.Some? then Failure(error.value) else Success(None);
      }
      var kind := kinds[next];
      next := next + 1;
      if !kind.HasStream() {
        return Success(Some(FileStream(next - 1, BindEmpty(kind))));
      }
      var location := streams.Nth(0);
      if location.Failure? {
        return Failure(location.error);
      }
      RestPassed(left, 1);
      r := Success(Some(FileStream(next - 1, BindKind(kind, location.value))));
    }

    /** Passes over up to n entries and counts the streams they own. */
    method PassEntries(n: nat) returns (skipped: nat)
      requires Valid()
      modifies this
      ensures Valid() && streams.State() == old(streams.State())
      ensures next == if n < |kinds| - old(next) then old(next) + n else |kinds|
      ensures skipped == StreamCount(kinds[old(next)..next])
    {
      hide StreamLocations.State, StreamLocations.Valid;
      ghost var from := next;
      var passed := 0;
      skipped := 0;
      assert kinds[from..from] == [];
      while next < |kinds| && passed < n
        invariant Valid() && streams.State() == old(streams.State()) && from + passed == next && passed <= n
        invariant skipped == StreamCount(kinds[from..next])
        decreases n - passed
      {
        StreamCountOneMore(kinds, from, next);
        if kinds[next].HasStream() {
          skipped := skipped + 1;
        }
        next, passed := next + 1, passed + 1;
      }
    }

    /** Skips n entries and advances only the streams those entries own. */
    method Nth(n: nat) returns (r: Result<Option<FileStream>, R7zError>)
      requires Valid()
      modifies Repr
      ensures Valid()
      ensures old(InStep(kinds, At())) ==>
        var before := Discard(kinds, old(At()), n);
        r == Success(NextFile(kinds, before).0) && At() == NextFile(kinds, before).1
      ensures Passed(old(At()).left, At().left) && old(next) <= next
      ensures n < |kinds| - old(next) && r.Success? && r.value.Some? ==> next == old(next) + n + 1
      ensures r.Success? && r.value.Some? && r.value.value.kind.HasStream()
        ==> Taken(old(At()).left, At().left, r.value.value.kind.stream)
    {
      hide StreamLocations.State, StreamLocations.Valid, Discard, LeftOf, Passed, Taken, NextOf, NextSucceeds, InStep;
      ghost var start := At();
      var skipped := PassEntries(n);
      assert InStep(kinds, start) ==> SkipReaches(kinds, start, n, next, skipped) by {
        if InStep(kinds, start) {
          SkipLands(kinds, start, n, next, skipped);
        }
      }
      var error := streams.AdvanceBy(skipped);
      AdvancePassed(start.left, skipped, At().left, error);
      if error.Some? {
        return Failure(error.value);
      }
      ghost var middle := At();
      r := Next();
      if r.Success? {
        NextTakes(kinds, middle);
      }
      PassedTwice(start.left, middle.left, At().left);
      if InStep(kinds, start) {
        NextFileIsNext(kinds, Discard(kinds, start, n));
      }
    }
  }

  lemma SkipLands(kinds: seq<EntryKind<()>>, start: Position, n: nat, next: nat, skipped: nat)
    requires InStep(kinds, start)
    requires next == if n < |kinds| - start.next then start.next + n else |kinds|
    requires skipped == StreamCount(kinds[start.next..next])
    ensures SkipReaches(kinds, start, n, next, skipped)
  {
    SkipIsDiscard(kinds, start, n);
    SkipInRange(kinds, start.next, next);
  }

  lemma NextTakes(kinds: seq<EntryKind<()>>, at: Position)
    requires NextSucceeds(kinds, at)
    ensures var (file, after) := NextOf(kinds, at);
      && (file.Some? && file.value.kind.HasStream() ==> Taken(at.left, after.left, file.value.kind.stream))
      && (file.Some? ==> at.next < |kinds|)
  {
    if at.left.locations != [] {
      RestPassed(at.left, 1);
    }
  }

  lemma NextFileIsNext(kinds: seq<EntryKind<()>>, at: Position)
    requires InStep(kinds, at)
    ensures NextSucceeds(kinds, at) && NextFile(kinds, at) == NextOf(kinds, at)
  {
    if at.next < |kinds| {
      CountStep(kinds, at.next);
    } else {
      assert kinds[at.next..] == [];
    }
  }

  lemma AdvancePassed(left: Left, count: nat, after: Left, error: Option<R7zError>)
    requires count <= |left.locations| ==> after == Rest(left, count)
    requires count > |left.locations| ==> after == NOTHING
    ensures Passed(left, after)
  {
    if count <= |left.locations| {
      RestPassed(left, count);
    }
  }

  lemma StreamCountOneMore(kinds: seq<EntryKind<()>>, from: nat, end: nat)
    requires from <= end < |kinds|
    ensures StreamCount(kinds[from..end + 1]) == StreamCount(kinds[from..end]) + if kinds[end].HasStream() then 1 else 0
  {
    SkipInRange(kinds[..end + 1], from, end);
    assert kinds[..end + 1][from..] == kinds[from..end + 1] && kinds[..end + 1][from..end] == kinds[from..end];
    assert kinds[..end + 1][end..] == [kinds[end]] && [kinds[end]][1..] == [];
  }

  /** Passing these entries and streams leads to where discarding one by one does. */
  ghost predicate SkipReaches(kinds: seq<EntryKind<()>>, start: Position, n: nat, next: nat, skipped: nat)
    requires InStep(kinds, start)
  {
    && skipped <= |start.left.locations|
    && Discard(kinds, start, n) == Position(next, Rest(start.left, skipped))
  }

  // ---------------------------------------------------------------- which location an entry gets

  lemma {:induction false} DiscardPosition(kinds: seq<EntryKind<()>>, at: Position, i: nat)
    requires InStep(kinds, at) && at.next + i <= |kinds|
    ensures var passed := StreamCount(kinds[at.next..at.next + i]);
      && passed <= |at.left.locations|
      && Discard(kinds, at, i) == Position(at.next + i, Rest(at.left, passed))
  {
    SkipIsDiscard(kinds, at, i);
    SkipInRange(kinds, at.next, at.next + i);
  }

  /** The entry at an index, reached from the start. */
  function FileAt(kinds: seq<EntryKind<()>>, locations: seq<StreamLocation>, i: nat): FileStream
    requires |locations| == StreamCount(kinds) && i < |kinds|
  {
    assert kinds[0..] == kinds;
    SkipInRange(kinds, 0, i);
    CountStep(kinds, i);
    FileStream(i, if kinds[i].HasStream() then BindKind(kinds[i], locations[StreamCount(kinds[..i])])
                  else BindEmpty(kinds[i]))
  }

  /** The entry that owns the k-th stream gets the k-th location, and no other entry gets one. */
  lemma EntryGetsItsLocation(kinds: seq<EntryKind<()>>, locations: seq<StreamLocation>, i: nat)
    requires |locations| == StreamCount(kinds) && i < |kinds|
    ensures kinds[0..] == kinds && InStep(kinds, Position(0, Left(locations, None)))
    ensures NextFile(kinds, Discard(kinds, Position(0, Left(locations, None)), i)).0
         == Some(FileAt(kinds, locations, i))
  {
    assert kinds[0..] == kinds && kinds[0..i] == kinds[..i];
    DiscardPosition(kinds, Position(0, Left(locations, None)), i);
  }

  lemma {:induction false} DiscardTwice(kinds: seq<EntryKind<()>>, at: Position, i: nat, j: nat)
    requires InStep(kinds, at)
    ensures Discard(kinds, Discard(kinds, at, i), j) == Discard(kinds, at, i + j)
    decreases i
  {
    hide InStep, NextFile;
    if i > 0 {
      DiscardTwice(kinds, NextFile(kinds, at).1, i - 1, j);
    }
  }

  /** Folders that hold no stream contribute no location, the others one for each stream. */
  lemma {:induction false} LocationsInOrder(index: nat, items: seq<Result<FolderLayout, R7zError>>, f: nat, j: nat)
    requires AllLaidOut(items) && f < |items| && j < items[f].value.streams.Count()
    ensures LeftOf(index, items).error == None
    ensures var k := OwnedStreams(LayoutsOf(items)[..f]) + j;
      && k < |LeftOf(index, items).locations|
      && LeftOf(index, items).locations[k] == LocationsOf(index + f, items[f].value)[j]
    decreases f
  {
    hide LocationsOf, StreamLayout.Count;
    AllLaidOutTail(items);
    NoErrorLeft(index, items);
    if f > 0 {
      LocationsInOrder(index + 1, items[1..], f - 1, j);
      assert LayoutsOf(items)[..f][1..] == LayoutsOf(items[1..])[..f - 1];
    }
  }

  /** Folders in order, and streams in order within a folder. */
  ghost predicate InOrder(locations: seq<StreamLocation>) {
    forall i, j :: 0 <= i < j < |locations| ==> Precedes(locations[i], locations[j])
  }

  predicate Precedes(a: StreamLocation, b: StreamLocation) {
    a.folderIndex < b.folderIndex || (a.folderIndex == b.folderIndex && a.streamIndex < b.streamIndex)
  }

  /** Whatever the tables say, the cursor runs through folders and streams in lexicographic order. */
  lemma {:induction false} LeftInOrder(index: nat, items: seq<Result<FolderLayout, R7zError>>)
    ensures InOrder(LeftOf(index, items).locations)
    ensures forall k :: 0 <= k < |LeftOf(index, items).locations| ==>
      LeftOf(index, items).locations[k].folderIndex >= index
    decreases items
  {
    hide StreamLayout.Count;
    if items != [] && items[0].Success? {
      LeftInOrder(index + 1, items[1..]);
      var front, rest := LocationsOf(index, items[0].value), LeftOf(index + 1, items[1..]).locations;
      forall i, j | 0 <= i < j < |front + rest| ensures Precedes((front + rest)[i], (front + rest)[j]) {
        assert j >= |front| ==> (front + rest)[j] == rest[j - |front|];
      }
    }
  }

  /** An entry in step is delivered under its own index, with a stream exactly if it owns one. */
  lemma NextInStep(kinds: seq<EntryKind<()>>, at: Position, n: nat)
    requires InStep(kinds, at) && at.next + n < |kinds|
    ensures var (file, after) := NextFile(kinds, Discard(kinds, at, n));
      && file.Some? && file.value.index == at.next + n && after.next == at.next + n + 1
      && SameShape(kinds[at.next + n], file.value.kind)
  {
    DiscardPosition(kinds, at, n);
  }

  /** The same kind, whatever its stream. */
  predicate SameShape<S, T>(a: EntryKind<S>, b: EntryKind<T>) {
    && (a.File? <==> b.File?) && (a.Symlink? <==> b.Symlink?) && (a.EmptyFile? <==> b.EmptyFile?)
    && (a.EmptySymlink? <==> b.EmptySymlink?) && (a.Directory? <==> b.Directory?)
  }

  lemma AllLaidOutTail(items: seq<Result<FolderLayout, R7zError>>)
    requires AllLaidOut(items) && items != []
    ensures AllLaidOut(items[1..]) && LayoutsOf(items) == [items[0].value] + LayoutsOf(items[1..])
  {
  }

  lemma {:induction false} NoErrorLeft(index: nat, items: seq<Result<FolderLayout, R7zError>>)
    requires AllLaidOut(items)
    ensures LeftOf(index, items).error == None
    ensures |LeftOf(index, items).locations| == OwnedStreams(LayoutsOf(items))
    decreases items
  {
    hide LocationsOf, StreamLayout.Count;
    if items != [] {
      AllLaidOutTail(items);
      NoErrorLeft(index + 1, items[1..]);
    }
  }

  // ---------------------------------------------------------------- opening

  /** The stream tables of a descriptor that has folders, with the number of streams they announce. */
  function OpenTables(streams: Option<StreamInfos.StreamInfo>): Result<Option<Tables>, R7zError> {
    if streams.None? || streams.value.unpackInfo.None? then Success(None)
    else
      var tables :- ForStreams(streams.value);
      Success(Some(tables))
  }

  function AnnouncedStreams(tables: Option<Tables>): nat {
    if tables.None? || SubstreamCount(tables.value).Failure? then 0 else SubstreamCount(tables.value).value
  }

  ghost function OpenItems(tables: Option<Tables>): seq<Result<FolderLayout, R7zError>> {
    if tables.None? then [] else Items(tables.value, START)
  }

  method CountStreams(kinds: seq<EntryKind<()>>) returns (n: nat)
    ensures n == StreamCount(kinds)
  {
    n := 0;
    assert kinds[0..0] == [];
    for i := 0 to |kinds|
      invariant n == StreamCount(kinds[0..i])
    {
      StreamCountOneMore(kinds, 0, i);
      if kinds[i].HasStream() {
        n := n + 1;
      }
    }
    assert kinds[0..|kinds|] == kinds;
  }

  /** Entries and folders have to agree on the number of streams before anything is mapped. */
  method OpenFiles(kinds: seq<EntryKind<()>>, streams: Option<StreamInfos.StreamInfo>)
    returns (r: Result<FileStreams, R7zError>)
    ensures r.Success? <==> (OpenTables(streams).Success?
      && AnnouncedStreams(OpenTables(streams).value) == StreamCount(kinds))
    ensures r.Success? ==> fresh(r.value) && fresh(r.value.Repr) && r.value.Valid() && r.value.kinds == kinds
    ensures r.Success? ==> r.value.At() == Position(0, LeftOf(0, OpenItems(OpenTables(streams).value)))
    ensures r.Success? && AllLaidOut(OpenItems(OpenTables(streams).value)) ==> InStep(kinds, r.value.At())
  {
    hide LeftOf, Items, ForStreams, SubstreamCount;
    var count := CountStreams(kinds);
    var tables := OpenTables(streams);
    if tables.Failure? {
      return Failure(tables.error);
    }
    if AnnouncedStreams(tables.value) != count {
      return Failure(Parse);
    }
    var plans: FolderPlans? := null;
    if tables.value.Some? {
      plans := new FolderPlans(tables.value.value);
    }
    var locations := new StreamLocations(plans);
    var files := new FileStreams(kinds, locations);
    if AllLaidOut(OpenItems(tables.value)) {
      OpenedInStep(kinds, streams);
    }
    r := Success(files);
  }

  lemma OpenedInStep(kinds: seq<EntryKind<()>>, streams: Option<StreamInfos.StreamInfo>)
    requires OpenTables(streams).Success? && AnnouncedStreams(OpenTables(streams).value) == StreamCount(kinds)
    requires AllLaidOut(OpenItems(OpenTables(streams).value))
    ensures InStep(kinds, Position(0, LeftOf(0, OpenItems(OpenTables(streams).value))))
  {
    hide Items;
    var tables := OpenTables(streams).value;
    NoErrorLeft(0, OpenItems(tables));
    if tables.Some? {
      StreamCountMatches(tables.value);
    } else {
      assert LayoutsOf(OpenItems(tables)) == [];
    }
    assert kinds[0..] == kinds;
  }

  // ---------------------------------------------------------------- selections

  ghost predicate Ascending(indices: seq<nat>) {
    forall i, j :: 0 <= i < j < |indices| ==> indices[i] < indices[j]
  }

  ghost predicate Sorted(indices: seq<nat>) {
    forall i, j :: 0 <= i < j < |indices| ==> indices[i] <= indices[j]
  }

  /** Inserts one index into a sorted list. */
  method Insert(sorted: seq<nat>, index: nat) returns (r: seq<nat>)
    requires Sorted(sorted)
    ensures Sorted(r) && multiset(r) == multiset(sorted) + multiset{index}
  {
    var at := 0;
    while at < |sorted| && sorted[at] <= index
      invariant at <= |sorted| && forall i :: 0 <= i < at ==> sorted[i] <= index
    {
      at := at + 1;
    }
    r := sorted[..at] + [index] + sorted[at..];
    InsertKeepsOrder(sorted, at, index);
    InsertAddsOne(sorted, at, index);
  }

  lemma InsertKeepsOrder(sorted: seq<nat>, at: nat, index: nat)
    requires Sorted(sorted) && at <= |sorted|
    requires (forall i :: 0 <= i < at ==> sorted[i] <= index) && (at < |sorted| ==> index < sorted[at])
    ensures Sorted(sorted[..at] + [index] + sorted[at..])
  {
    var r := sorted[..at] + [index] + sorted[at..];
    forall i, j | 0 <= i < j < |r| ensures r[i] <= r[j] {
      assert r[i] == if i < at then sorted[i] else if i == at then index else sorted[i - 1];
      assert r[j] == if j < at then sorted[j] else if j == at then index else sorted[j - 1];
    }
  }

  lemma InsertAddsOne(s: seq<nat>, at: nat, index: nat)
    requires at <= |s|
    ensures multiset(s[..at] + [index] + s[at..]) == multiset(s) + multiset{index}
  {
    assert s == s[..at] + s[at..];
  }

  /** A selection is every entry, or the given indices in archive order, each valid and given once. */
  method SelectEntries(indices: Option<seq<nat>>, count: nat) returns (r: Result<seq<nat>, R7zError>)
    ensures r.Failure? ==> r.error == InvalidOptions
    ensures r.Success? ==> Ascending(r.value) && forall i :: 0 <= i < |r.value| ==> r.value[i] < count
    ensures indices.None? ==> r == Success(seq(count, i => i))
    ensures indices.Some? && r.Success? ==> multiset(r.value) == multiset(indices.value)
    ensures indices.Some? ==>
      (r.Success? <==> && Counting.Distinct(indices.value)
                       && forall i :: 0 <= i < |indices.value| ==> indices.value[i] < count)
  {
    if indices.None? {
      return Success(seq(count, i => i));
    }
    var given := indices.value;
    if exists i :: 0 <= i < |given| && given[i] >= count {
      return Failure(InvalidOptions);
    }
    var sorted: seq<nat> := [];
    for i := 0 to |given|
      invariant Sorted(sorted) && multiset(sorted) == multiset(given[..i])
    {
      assert given[..i + 1] == given[..i] + [given[i]];
      sorted := Insert(sorted, given[i]);
    }
    assert given[..|given|] == given;
    DistinctPermutation(given, sorted);
    if exists i :: 0 <= i < |sorted| - 1 && sorted[i] == sorted[i + 1] {
      return Failure(InvalidOptions);
    }
    SortedDistinct(sorted);
    forall i | 0 <= i < |sorted| ensures sorted[i] < count {
      assert sorted[i] in multiset(given);
    }
    r := Success(sorted);
  }

  lemma SortedDistinct(sorted: seq<nat>)
    requires Sorted(sorted) && forall i :: 0 <= i < |sorted| - 1 ==> sorted[i] != sorted[i + 1]
    ensures Ascending(sorted) && Counting.Distinct(sorted)
  {
    forall i, j | 0 <= i < j < |sorted| ensures sorted[i] < sorted[j] {
      assert sorted[i] <= sorted[i + 1] && sorted[i] != sorted[i + 1];
    }
  }

  lemma {:induction false} OneOfEach(s: seq<nat>)
    ensures Counting.Distinct(s) <==> forall x :: x in s ==> multiset(s)[x] == 1
  {
    if s != [] {
      var init, last := s[..|s| - 1], s[|s| - 1];
      OneOfEach(init);
      assert s == init + [last];
      if Counting.Distinct(s) {
        assert last !in init;
        assert Counting.Distinct(init);
        forall x | x in s ensures multiset(s)[x] == 1 {
          assert multiset(s) == multiset(init) + multiset{last};
        }
      } else if forall x :: x in s ==> multiset(s)[x] == 1 {
        assert multiset(s) == multiset(init) + multiset{last};
        assert last in s && multiset(init)[last] == 0 && last !in multiset(init);
        assert forall x :: x in init ==> x in s && multiset(s)[x] == 1;
        Counting.DistinctAppend(init, last);
        assert false;
      }
    }
  }

  lemma DistinctPermutation(a: seq<nat>, b: seq<nat>)
    requires multiset(a) == multiset(b)
    ensures Counting.Distinct(a) <==> Counting.Distinct(b)
  {
    OneOfEach(a);
    OneOfEach(b);
    assert forall x :: x in a <==> x in multiset(a);
    assert forall x :: x in b <==> x in multiset(b);
  }

  lemma StartInStep(kinds: seq<EntryKind<()>>, start: Position)
    requires InStep(kinds, start) && start.next == 0
    ensures |start.left.locations| == StreamCount(kinds) && start == Position(0, Left(start.left.locations, None))
    ensures Discard(kinds, start, 0) == start
  {
    assert kinds[0..] == kinds;
  }

  lemma DiscardOneMore(kinds: seq<EntryKind<()>>, start: Position, i: nat)
    requires InStep(kinds, start) && start.next == 0 && i < |kinds|
    ensures NextFile(kinds, Discard(kinds, start, i)).1 == Discard(kinds, start, i + 1)
    ensures Discard(kinds, start, i + 1).next == i + 1
  {
    DiscardTwice(kinds, start, i, 1);
    DiscardPosition(kinds, start, i + 1);
    assert Discard(kinds, Discard(kinds, start, i), 1)
        == Discard(kinds, NextFile(kinds, Discard(kinds, start, i)).1, 0);
  }

  /** Passing to an index from any earlier one yields its file, and leads behind it. */
  lemma MapsTo(kinds: seq<EntryKind<()>>, start: Position, next: nat, index: nat)
    requires InStep(kinds, start) && start.next == 0 && next <= index < |kinds|
    ensures |start.left.locations| == StreamCount(kinds) && InStep(kinds, Discard(kinds, start, next))
    ensures var at := Discard(kinds, Discard(kinds, start, next), index - next);
      && NextFile(kinds, at).0 == Some(FileAt(kinds, start.left.locations, index))
      && NextFile(kinds, at).1 == Discard(kinds, start, index + 1)
  {
    hide NextFile, Discard, FileAt;
    StartInStep(kinds, start);
    DiscardPosition(kinds, start, next);
    DiscardTwice(kinds, start, next, index - next);
    EntryGetsItsLocation(kinds, start.left.locations, index);
    DiscardOneMore(kinds, start, index);
  }

  /** Reads the entry at an index that has not been passed. */
  method MapOne(files: FileStreams, ghost start: Position, index: nat) returns (r: FileStream)
    requires files.Valid() && InStep(files.kinds, start) && start.next == 0
    requires files.next <= index < |files.kinds| && files.At() == Discard(files.kinds, start, files.next)
    modifies files.Repr
    ensures files.Valid() && |start.left.locations| == StreamCount(files.kinds)
    ensures r == FileAt(files.kinds, start.left.locations, index)
    ensures files.next == index + 1 && files.At() == Discard(files.kinds, start, files.next)
  {
    hide NextFile, Discard, FileAt, InStep, FileStreams.At, FileStreams.Valid;
    MapsTo(files.kinds, start, files.next, index);
    var file := files.Nth(index - files.next);
    r := file.value.value;
  }

  /** What mapping every entry would give the selected ones. */
  ghost function FilesAt(kinds: seq<EntryKind<()>>, locations: seq<StreamLocation>, selection: seq<nat>)
    : seq<FileStream>
    requires |locations| == StreamCount(kinds)
    requires forall i :: 0 <= i < |selection| ==> selection[i] < |kinds|
  {
    if selection == [] then []
    else
      FilesAt(kinds, locations, selection[..|selection| - 1])
      + [FileAt(kinds, locations, selection[|selection| - 1])]
  }

  lemma PositionOf(files: FileStreams)
    requires files.Valid()
    ensures files.At().next == files.next && files.next <= |files.kinds|
  {
  }

  lemma SelectionStep(selection: seq<nat>, i: nat)
    requires Ascending(selection) && i < |selection|
    ensures i > 0 ==> selection[i - 1] + 1 <= selection[i]
  {
  }

  lemma FilesAtNone(kinds: seq<EntryKind<()>>, locations: seq<StreamLocation>, selection: seq<nat>)
    requires |locations| == StreamCount(kinds)
    ensures FilesAt(kinds, locations, selection[..0]) == []
  {
  }

  lemma FilesAtOneMore(kinds: seq<EntryKind<()>>, locations: seq<StreamLocation>, selection: seq<nat>, i: nat)
    requires |locations| == StreamCount(kinds) && i < |selection|
    requires forall k :: 0 <= k < |selection| ==> selection[k] < |kinds|
    ensures FilesAt(kinds, locations, selection[..i + 1])
         == FilesAt(kinds, locations, selection[..i]) + [FileAt(kinds, locations, selection[i])]
  {
    hide FileAt;
    assert selection[..i + 1][..i] == selection[..i];
  }

  ghost predicate Selectable(selection: seq<nat>, count: nat) {
    Ascending(selection) && forall i :: 0 <= i < |selection| ==> selection[i] < count
  }

  /** Mapping a selection gives, for each selected entry, what mapping every entry would give it. */
  method MapSelected(files: FileStreams, selection: seq<nat>) returns (r: seq<FileStream>)
    requires files.Valid() && files.At().next == 0 && InStep(files.kinds, files.At())
    requires Selectable(selection, |files.kinds|)
    modifies files.Repr
    ensures |old(files.At()).left.locations| == StreamCount(files.kinds)
    ensures r == FilesAt(files.kinds, old(files.At()).left.locations, selection)
  {
    hide NextFile, Discard, FileAt, FilesAt, InStep, FileStreams.Valid, FileStreams.At, Ascending, StreamCount;
    ghost var start := files.At();
    PositionOf(files);
    StartInStep(files.kinds, start);
    r := [];
    FilesAtNone(files.kinds, start.left.locations, selection);
    for i := 0 to |selection|
      invariant files.Valid() && (i > 0 ==> files.next == selection[i - 1] + 1) && (i == 0 ==> files.next == 0)
      invariant files.At() == Discard(files.kinds, start, files.next)
      invariant r == FilesAt(files.kinds, start.left.locations, selection[..i])
    {
      FilesAtOneMore(files.kinds, start.left.locations, selection, i);
      SelectionStep(selection, i);
      var file := MapOne(files, start, selection[i]);
      r := r + [file];
    }
    assert selection[..|selection|] == selection;
  }
}
