/** Forward-only reads: one live folder decoder, what has been verified, and what has been charged. */
module ReadSessions {
  import opened Wrappers
  import opened Words
  import opened PropertyTables
  import opened FolderLayouts

  // ---------------------------------------------------------------- verification scope

  datatype ReadVerification = CompleteFolders | SelectedEntries | Incomplete {
    function Combine(other: ReadVerification): ReadVerification {
      if Incomplete? || other.Incomplete? then Incomplete
      else if SelectedEntries? || other.SelectedEntries? then SelectedEntries
      else CompleteFolders
    }

    /** Combining keeps the narrower of two scopes. */
    function Rank(): nat {
      match this
      case Incomplete => 0
      case SelectedEntries => 1
      case CompleteFolders => 2
    }
  }

  lemma CombineKeepsNarrower(a: ReadVerification, b: ReadVerification)
    ensures a.Combine(b).Rank() == if a.Rank() < b.Rank() then a.Rank() else b.Rank()
  {
  }

  // ---------------------------------------------------------------- decoded-byte budget

  const MAX_TOTAL := U64_LIMIT - 1

  /** How starting a decoder ended. Two refusals happen before any output is decoded. */
  datatype StartOutcome = Started | Refused(error: R7zError) | FailedStart(error: R7zError)

  /** Decoded bytes charged so far, and cancellation, which is permanent. */
  class Budget {
    const limit: Option<u64>
    var decoded: u64
    var cancelled: bool
    /** Every byte ever charged, without the cap of the counter. */
    ghost var total: nat

    ghost predicate Valid()
      reads this
    {
      && (limit.Some? ==> total <= limit.value)
      && decoded == if total <= MAX_TOTAL then total else MAX_TOTAL
    }

    /** Nothing more may be decoded; once reached, this stays so. */
    ghost predicate Exhausted()
      reads this
    {
      limit.Some? && total == limit.value
    }

    constructor (limit: Option<u64>)
      ensures Valid() && this.limit == limit && decoded == 0 && total == 0
    {
      this.limit, decoded, cancelled, total := limit, 0, false, 0;
    }

    /** What may still be decoded. The subtraction cannot underflow. */
    function Remaining(): (r: Option<u64>)
      requires Valid()
      reads this
      ensures limit.Some? ==> r == Some(limit.value - total)
    {
      if limit.Some? then Some(limit.value - decoded) else None
    }

    function NextDecoded(bytes: u64): (r: Result<u64, R7zError>)
      requires Valid()
      reads this
      ensures r.Success? <==> (limit.Some? ==> total + bytes <= limit.value)
      ensures r.Success? ==> r.value == if total + bytes <= MAX_TOTAL then total + bytes else MAX_TOTAL
      ensures r.Failure? ==> r.error == ResourceLimitExceeded
    {
      if decoded + bytes > MAX_TOTAL then
        if limit.Some? then Failure(ResourceLimitExceeded) else Success(MAX_TOTAL)
      else if limit.Some? && decoded + bytes > limit.value then Failure(ResourceLimitExceeded)
      else Success(decoded + bytes)
    }

    method ChargeDecoded(bytes: u64) returns (r: Option<R7zError>)
      requires Valid()
      modifies this
      ensures Valid() && cancelled == old(cancelled)
      ensures r.None? <==> (limit.Some? ==> old(total) + bytes <= limit.value)
      ensures total == old(total) + if r.None? then bytes else 0
    {
      var next := NextDecoded(bytes);
      if next.Failure? {
        return Some(next.error);
      }
      decoded := next.value;
      total := total + bytes;
      r := None;
    }

    /** Cancellation can be requested at any time and is never withdrawn. */
    method Check() returns (r: Option<R7zError>)
      requires Valid()
      modifies this
      ensures Valid() && total == old(total) && decoded == old(decoded)
      ensures old(cancelled) ==> cancelled
      ensures r.Some? <==> cancelled
    {
      if * {
        cancelled := true;
      }
      r := if cancelled then Some(Cancelled) else None;
    }

    /** The output size is charged once, up front, unless decoding was refused before it began. */
    method WithEagerDecodedOutput(bytes: u64, outcome: StartOutcome) returns (r: Option<R7zError>)
      requires Valid()
      modifies this
      ensures Valid() && cancelled == old(cancelled)
      ensures r.None? ==> outcome.Started? && total == old(total) + bytes
      ensures outcome.Refused? ==> r.Some? && total == old(total)
      ensures r.Some? && outcome.Started? ==> r.value == ResourceLimitExceeded && total == old(total)
      ensures total == old(total) || total == old(total) + bytes
    {
      var next := NextDecoded(bytes);
      if next.Failure? {
        return Some(next.error);
      }
      match outcome {
        case Started =>
          decoded, total := next.value, total + bytes;
          r := None;
        case Refused(error) =>
          r := Some(error);
        case FailedStart(error) =>
          decoded, total := next.value, total + bytes;
          r := Some(error);
      }
    }
  }

  // ---------------------------------------------------------------- digests

  /** A checksum that is not kept, or the bytes it has been fed. */
  datatype DigestState = Absent | Checking(expected: u32, fed: Bytes) {
    function Update(bytes: Bytes): DigestState {
      if Absent? then Absent else Checking(expected, fed + bytes)
    }

    predicate Matches(crc: Bytes -> u32) {
      Absent? || crc(fed) == expected
    }
  }

  function DigestOf(digest: Option<u32>, fed: Bytes): DigestState {
    if digest.Some? then Checking(digest.value, fed) else Absent
  }

  /** Feeding a checksum the next stretch of some content. */
  lemma DigestExtends(digest: Option<u32>, content: Bytes, from: nat, middle: nat, end: nat)
    requires from <= middle <= end <= |content|
    ensures DigestOf(digest, content[from..middle]).Update(content[middle..end]) == DigestOf(digest, content[from..end])
  {
    assert content[from..middle] + content[middle..end] == content[from..end];
  }

  // ---------------------------------------------------------------- a folder and its decoded bytes

  /** A folder as laid out, what its decoder would deliver, and what its plan charges before that. */
  datatype FolderWorld = FolderWorld(layout: FolderLayout, content: Bytes, early: Option<u64>) {
    /** Nothing is charged early, or all of the folder is: PlannedFolders.PlanFolder makes it so. */
    ghost predicate Valid() {
      && layout.streams.Tiles(layout.unpackSize)
      && (early.Some? ==> early.value == layout.unpackSize)
    }

    function Streams(): StreamLayout {
      layout.streams
    }

    /** What the decoder delivers of stream i; less than its size if the decoder runs dry. */
    function Slice(i: nat): Bytes
      requires i < Streams().Count()
    {
      var start, end := Streams().Start(i), Streams().Start(i) + Streams().Sizes()[i];
      if start > |content| then [] else if end > |content| then content[start..] else content[start..end]
    }

    /** Stream i decodes to its full size and its checksum, if present, matches. */
    ghost predicate StreamVerified(i: nat, crc: Bytes -> u32)
      requires i < Streams().Count()
    {
      && |Slice(i)| == Streams().Sizes()[i]
      && (Streams().Digest(i).Some? ==> crc(Slice(i)) == Streams().Digest(i).value)
    }

    /** Output that belongs to no stream: such a folder never completes, whatever it decodes to. */
    predicate Unstreamed() {
      Streams().Count() == 0 && layout.unpackSize > 0
    }

    /** The folder decodes to exactly its declared length and every checksum present matches. */
    ghost predicate Verified(crc: Bytes -> u32) {
      && |content| == layout.unpackSize
      && (layout.crc.Some? ==> crc(content) == layout.crc.value)
      && forall i :: 0 <= i < Streams().Count() ==> StreamVerified(i, crc)
    }
  }

  /** A folder that a decoder without failures passes. */
  ghost predicate Sound(world: FolderWorld, crc: Bytes -> u32) {
    world.Verified(crc) && !world.Unstreamed()
  }

  lemma UnsoundStream(world: FolderWorld, crc: Bytes -> u32, k: nat)
    requires k < world.Streams().Count() && !world.StreamVerified(k, crc)
    ensures !Sound(world, crc)
  {
  }

  datatype CompletionMode = WholeFolder | SelectedStreams

  /** A substream being read: where it started and what is left of it. */
  datatype OpenStream = OpenStream(start: nat, remaining: nat, digest: DigestState, limitExceeded: bool)

  /** What has been read of a stream is the beginning of its slice. */
  lemma SliceSoFar(world: FolderWorld, i: nat, start: nat, read: nat)
    requires i < world.Streams().Count() && start == world.Streams().Start(i)
    requires start <= read <= |world.content| && read <= start + world.Streams().Sizes()[i]
    ensures world.content[start..read] <= world.Slice(i)
    ensures read == start + world.Streams().Sizes()[i]
      ==> world.Slice(i) == world.content[start..read] && |world.Slice(i)| == world.Streams().Sizes()[i]
  {
    hide StreamLayout.Start, StreamLayout.Sizes;
    assert world.content[start..read] == world.content[start..][..read - start];
    var end := start + world.Streams().Sizes()[i];
    if end <= |world.content| {
      assert world.content[start..read] == world.content[start..end][..read - start];
    }
  }

  /** A live decoder, its place in the folder, and the checksums under way. */
  class ActiveFolder {
    const world: FolderWorld
    const crc: Bytes -> u32
    var readPosition: nat
    var streamPosition: nat
    var digest: DigestState
    var decodedLen: u64
    /** What reading this folder has added to the budget. */
    ghost var charged: nat
    /** How many reads of the decoder have failed. */
    ghost var failures: nat

    /** Whatever has been read so far is what has been hashed, counted and, unless eager, charged. */
    ghost predicate Consistent()
      reads this
    {
      && world.Valid() && readPosition <= |world.content| && readPosition <= world.layout.unpackSize
      && decodedLen == readPosition
      && digest == DigestOf(world.layout.crc, world.content[..readPosition])
      && streamPosition <= world.Streams().Count()
      && charged == (if world.early.Some? then 0 else readPosition)
    }

    /** A read of the decoder has failed since, the operation is cancelled, or the limit is used up. */
    ghost predicate Hindered(budget: Budget, before: nat)
      reads this`failures, budget
    {
      failures > before || budget.cancelled || budget.Exhausted()
    }

    ghost predicate StreamsVerified(n: nat)
    {
      n <= world.Streams().Count() && forall i :: 0 <= i < n ==> world.StreamVerified(i, crc)
    }

    /** Between streams: all streams before the current one have been read and verified. */
    ghost predicate Valid()
      reads this
    {
      && Consistent() && StreamsVerified(streamPosition)
      && readPosition == world.Streams().Start(streamPosition)
    }

    constructor (world: FolderWorld, crc: Bytes -> u32)
      requires world.Valid()
      ensures Valid() && this.world == world && this.crc == crc
      ensures streamPosition == 0 && readPosition == 0 && charged == 0
    {
      this.world, this.crc, readPosition, streamPosition := world, crc, 0, 0;
      digest, decodedLen, charged, failures := DigestOf(world.layout.crc, []), 0, 0, 0;
      new;
      assert world.Streams().Sizes()[..0] == [] && world.content[..0] == [];
    }

    /** The decoder: any short read, or an error, in which case nothing is delivered. */
    method ReadDecoder(limit: nat) returns (r: Result<Bytes, R7zError>)
      requires readPosition <= |world.content|
      modifies this`readPosition, this`failures
      ensures readPosition <= |world.content|
      ensures r.Success? ==> old(readPosition) <= readPosition <= old(readPosition) + limit
      ensures r.Success? ==> r.value == world.content[old(readPosition)..readPosition]
      ensures r.Success? ==> (r.value == [] <==> limit == 0 || old(readPosition) == |world.content|)
      ensures r.Failure? ==> readPosition == old(readPosition)
      ensures failures == old(failures) + if r.Failure? then 1 else 0
    {
      if * {
        var error: R7zError := *;
        failures := failures + 1;
        return Failure(error);
      }
      var most := if limit < |world.content| - readPosition then limit else |world.content| - readPosition;
      var count: nat := 0;
      if most > 0 {
        count :| 0 < count <= most;
      }
      r := Success(world.content[readPosition..readPosition + count]);
      readPosition := readPosition + count;
    }

    /** The stream open between the given state and the folder it reads from. */
    ghost predicate Reading(s: OpenStream)
      reads this
    {
      && Consistent() && streamPosition < world.Streams().Count()
      && s.start == world.Streams().Start(streamPosition) <= readPosition
      && readPosition + s.remaining == s.start + world.Streams().Sizes()[streamPosition] <= world.layout.unpackSize
      && s.digest == DigestOf(world.Streams().Digest(streamPosition), world.content[s.start..readPosition])
    }

    /** What a read may deliver: limited by the stream, the buffer and the budget. */
    function AllowedBytes(budget: Budget, requested: nat): nat
      requires budget.Valid()
      reads this, budget
    {
      if world.early.Some? || budget.Remaining().None? then requested
      else if requested < budget.Remaining().value then requested else budget.Remaining().value
    }

    /** Counts and hashes bytes the decoder has just delivered. */
    method Account(s: OpenStream, bytes: Bytes, budget: Budget, ghost before: nat) returns (s': OpenStream)
      requires budget.Valid() && world.Valid() && streamPosition < world.Streams().Count()
      requires s.start <= before <= readPosition <= |world.content| && bytes == world.content[before..readPosition]
      requires |bytes| <= s.remaining
      requires s.start == world.Streams().Start(streamPosition)
      requires before + s.remaining == s.start + world.Streams().Sizes()[streamPosition] <= world.layout.unpackSize
      requires decodedLen == before && digest == DigestOf(world.layout.crc, world.content[..before])
      requires s.digest == DigestOf(world.Streams().Digest(streamPosition), world.content[s.start..before])
      requires charged == (if world.early.Some? then 0 else before)
      requires |bytes| < U64_LIMIT && (!world.early.Some? ==> |bytes| == AllowedBytes(budget, |bytes|))
      modifies this`decodedLen, this`digest, this`charged, budget
      ensures budget.Valid() && budget.cancelled == old(budget.cancelled)
      ensures Reading(s') && s'.start == s.start && s'.limitExceeded == s.limitExceeded
      ensures s'.remaining == s.remaining - |bytes|
      ensures budget.total == old(budget.total) + (charged - old(charged))
    {
      hide DigestOf, DigestState.Update;
      hide StreamLayout.Start, StreamLayout.Sizes, StreamLayout.Digest, StreamLayout.Count;
      if !world.early.Some? {
        var error := budget.ChargeDecoded(|bytes|);
        assert error.None?;
        charged := charged + |bytes|;
      }
      decodedLen := decodedLen + |bytes|;
      DigestExtends(world.layout.crc, world.content, 0, before, readPosition);
      DigestExtends(world.Streams().Digest(streamPosition), world.content, s.start, before, readPosition);
      assert world.content[0..before] == world.content[..before];
      assert world.content[0..readPosition] == world.content[..readPosition];
      digest := digest.Update(bytes);
      s' := OpenStream(s.start, s.remaining - |bytes|, s.digest.Update(bytes), s.limitExceeded);
    }

    /** One read of the open stream. */
    method ReadContent(s: OpenStream, size: nat, budget: Budget) returns (r: Result<Bytes, R7zError>, s': OpenStream)
      requires budget.Valid() && Reading(s)
      modifies this`readPosition, this`decodedLen, this`digest, this`charged, this`failures, budget
      ensures budget.Valid() && Reading(s') && s'.start == s.start
      ensures budget.total == old(budget.total) + (charged - old(charged))
      ensures old(budget.cancelled) ==> budget.cancelled && r.Failure?
      ensures old(readPosition) <= readPosition && s'.remaining <= s.remaining
      ensures r.Success? ==> r.value == world.content[old(readPosition)..readPosition] && |r.value| <= size
      ensures r.Success? ==> (r.value == [] <==> size == 0 || s.remaining == 0)
      ensures r.Failure? ==> readPosition == old(readPosition) || budget.cancelled
      ensures r.Success? ==> !budget.cancelled
      ensures old(failures) <= failures && old(budget.total) <= budget.total
      ensures r.Failure? ==>
        Hindered(budget, old(failures)) || (readPosition == |world.content| && s'.remaining > 0)
      ensures s'.limitExceeded ==> s.limitExceeded || budget.Exhausted()
    {
      var stopped := budget.Check();
      if stopped.Some? {
        return Failure(stopped.value), s;
      }
      var limit := if s.remaining < size then s.remaining else size;
      if limit == 0 {
        return Success(world.content[readPosition..readPosition]), s;
      }
      var allowed := AllowedBytes(budget, limit);
      if allowed == 0 {
        return Failure(ResourceLimitExceeded), s.(limitExceeded := true);
      }
      ghost var before := readPosition;
      var bytes := ReadDecoder(allowed);
      if bytes.Failure? {
        return Failure(bytes.error), s;
      }
      if bytes.value == [] {
        return Failure(Io), s;
      }
      s' := Account(s, bytes.value, budget, before);
      if !world.early.Some? {
        stopped := budget.Check();
        if stopped.Some? {
          return Failure(stopped.value), s';
        }
      }
      r := bytes;
    }

    /** Starts on the next stream. */
    method OpenNext() returns (s: OpenStream)
      requires Valid() && streamPosition < world.Streams().Count()
      ensures Reading(s) && s.start == readPosition && !s.limitExceeded
    {
      var i := streamPosition;
      s := OpenStream(readPosition, world.Streams().Sizes()[i], DigestOf(world.Streams().Digest(i), []), false);
      TotalOneMore(world.Streams().Sizes(), i);
      TotalPrefix(world.Streams().Sizes(), i + 1);
      assert world.content[s.start..s.start] == [];
    }

    /**
     * The callback: reads with buffers of the given sizes, carrying on after a failed read. Whatever
     * it gets is the beginning of the stream, and all of the stream once it has seen the end.
     */
    method Consume(open: OpenStream, demands: seq<nat>, budget: Budget)
      returns (s: OpenStream, delivered: Bytes, sawEnd: bool)
      requires budget.Valid() && Reading(open) && open.start == readPosition
      modifies this`readPosition, this`decodedLen, this`digest, this`charged, this`failures, budget
      ensures budget.Valid() && Reading(s) && s.start == open.start
      ensures budget.total == old(budget.total) + (charged - old(charged))
      ensures old(budget.cancelled) ==> budget.cancelled
      ensures delivered <= world.content[s.start..readPosition]
      ensures sawEnd ==> s.remaining == 0 && delivered == world.content[s.start..readPosition]
      ensures old(failures) <= failures && old(budget.total) <= budget.total
      ensures s.limitExceeded ==> open.limitExceeded || budget.Exhausted()
    {
      s, delivered, sawEnd := open, [], false;
      for i := 0 to |demands|
        invariant budget.Valid() && Reading(s) && s.start == open.start
        invariant budget.total == old(budget.total) + (charged - old(charged))
        invariant old(budget.cancelled) ==> budget.cancelled
        invariant delivered <= world.content[s.start..readPosition]
        invariant !budget.cancelled ==> delivered == world.content[s.start..readPosition]
        invariant sawEnd ==> s.remaining == 0 && delivered == world.content[s.start..readPosition]
        invariant old(failures) <= failures && old(budget.total) <= budget.total
        invariant s.limitExceeded ==> open.limitExceeded || budget.Exhausted()
      {
        ghost var before := readPosition;
        var bytes;
        bytes, s := ReadContent(s, demands[i], budget);
        StretchGrows(world.content, s.start, before, readPosition, delivered);
        if bytes.Success? {
          delivered := delivered + bytes.value;
          sawEnd := sawEnd || (bytes.value == [] && demands[i] > 0);
        }
      }
    }

    /** Reads and drops what the callback has left of the stream. */
    method Drain(open: OpenStream, budget: Budget) returns (error: Option<R7zError>, s: OpenStream)
      requires budget.Valid() && Reading(open)
      modifies this`readPosition, this`decodedLen, this`digest, this`charged, this`failures, budget
      ensures budget.Valid() && Reading(s) && s.start == open.start && old(readPosition) <= readPosition
      ensures budget.total == old(budget.total) + (charged - old(charged))
      ensures error.None? ==> s.remaining == 0
      ensures old(failures) <= failures && old(budget.total) <= budget.total
      ensures error.Some? ==>
        Hindered(budget, old(failures)) || (readPosition == |world.content| && s.remaining > 0)
      ensures s.limitExceeded ==> open.limitExceeded || budget.Exhausted()
    {
      s := open;
      while true
        invariant budget.Valid() && Reading(s) && s.start == open.start && old(readPosition) <= readPosition
        invariant budget.total == old(budget.total) + (charged - old(charged))
        invariant old(failures) <= failures && old(budget.total) <= budget.total
        invariant s.limitExceeded ==> open.limitExceeded || budget.Exhausted()
        decreases |world.content| - readPosition
      {
        ghost var before := readPosition;
        var bytes;
        bytes, s := ReadContent(s, 8192, budget);
        if bytes.Failure? {
          return Some(bytes.error), s;
        }
        if bytes.value == [] {
          return None, s;
        }
      }
    }

    /**
     * Reads one stream: the callback sees a prefix of the stream's bytes; the rest is drained, and
     * only a stream that is complete and matches its checksum is passed.
     */
    method ReadStream(demands: seq<nat>, verdict: Option<R7zError>, budget: Budget)
      returns (error: Option<R7zError>, delivered: Bytes, sawEnd: bool)
      requires budget.Valid() && Valid()
      modifies this, budget
      ensures budget.Valid() && Consistent()
      ensures budget.total == old(budget.total) + (charged - old(charged))
      ensures old(streamPosition) == world.Streams().Count() ==> error == Some(Parse) && delivered == []
      ensures old(streamPosition) < world.Streams().Count() ==> delivered <= world.Slice(old(streamPosition))
      ensures old(streamPosition) < world.Streams().Count() && sawEnd ==> delivered == world.Slice(old(streamPosition))
      ensures error.None? ==> Valid() && streamPosition == old(streamPosition) + 1 && verdict.None?
      ensures error.None? ==> world.StreamVerified(old(streamPosition), crc)
      ensures old(failures) <= failures && old(budget.total) <= budget.total
      ensures error.Some? && old(streamPosition) < world.Streams().Count() ==>
        verdict.Some? || Hindered(budget, old(failures)) || !world.StreamVerified(old(streamPosition), crc)
    {
      if streamPosition == world.Streams().Count() {
        return Some(Parse), [], false;
      }
      var s := OpenNext();
      s, delivered, sawEnd := Consume(s, demands, budget);
      DeliveredIsPrefix(s, delivered);
      if s.limitExceeded {
        return Some(ResourceLimitExceeded), delivered, sawEnd;
      }
      if verdict.Some? {
        return verdict, delivered, sawEnd;
      }
      error, s := Drain(s, budget);
      if s.limitExceeded {
        return Some(ResourceLimitExceeded), delivered, sawEnd;
      }
      if error.Some? {
        RunsDry(s);
        return error, delivered, sawEnd;
      }
      if !s.digest.Matches(crc) {
        ReadToTheEnd(s);
        return Some(Crc), delivered, sawEnd;
      }
      PassStream(s);
    }

    /** A stream whose decoder ends early is not verified. */
    lemma RunsDry(s: OpenStream)
      requires Reading(s)
      ensures readPosition == |world.content| && s.remaining > 0 ==> !world.StreamVerified(streamPosition, crc)
    {
    }

    lemma DeliveredIsPrefix(s: OpenStream, delivered: Bytes)
      requires Reading(s) && delivered <= world.content[s.start..readPosition]
      ensures delivered <= world.Slice(streamPosition)
      ensures s.remaining == 0 && delivered == world.content[s.start..readPosition]
        ==> delivered == world.Slice(streamPosition)
    {
      hide FolderWorld.Slice, StreamLayout.Start, StreamLayout.Sizes, DigestOf;
      SliceSoFar(world, streamPosition, s.start, readPosition);
    }

    /** A stream that has been read to its end is verified exactly when its checksum matches. */
    lemma ReadToTheEnd(s: OpenStream)
      requires Reading(s) && s.remaining == 0
      ensures world.StreamVerified(streamPosition, crc) <==> s.digest.Matches(crc)
    {
      hide FolderWorld.Slice, StreamLayout.Start, StreamLayout.Sizes;
      SliceSoFar(world, streamPosition, s.start, readPosition);
    }

    lemma StreamEnds(s: OpenStream)
      requires Reading(s) && s.remaining == 0
      ensures streamPosition + 1 <= world.Streams().Count() && readPosition == world.Streams().Start(streamPosition + 1)
    {
      hide Total;
      TotalOneMore(world.Streams().Sizes(), streamPosition);
    }

    method PassStream(s: OpenStream)
      requires Reading(s) && s.remaining == 0 && s.digest.Matches(crc) && StreamsVerified(streamPosition)
      modifies this`streamPosition
      ensures Valid() && streamPosition == old(streamPosition) + 1
    {
      hide FolderWorld.StreamVerified, FolderWorld.Slice, DigestOf, DigestState.Matches, StreamLayout.Start,
        StreamLayout.Sizes, StreamLayout.Count;
      ReadToTheEnd(s);
      StreamEnds(s);
      streamPosition := streamPosition + 1;
    }

    /** Streams in front of the requested one are read and verified, too. */
    method SkipTo(position: nat, budget: Budget) returns (error: Option<R7zError>)
      requires budget.Valid() && Valid()
      modifies this, budget
      ensures budget.Valid() && Consistent()
      ensures budget.total == old(budget.total) + (charged - old(charged))
      ensures error.None? ==> Valid() && streamPosition == position
      ensures !(old(streamPosition) <= position <= world.Streams().Count()) ==> error == Some(Parse)
      ensures old(failures) <= failures && old(budget.total) <= budget.total
      ensures error.Some? && old(streamPosition) <= position <= world.Streams().Count() ==>
        || Hindered(budget, old(failures))
        || exists i :: old(streamPosition) <= i < position && !world.StreamVerified(i, crc)
    {
      if position < streamPosition || position > world.Streams().Count() {
        return Some(Parse);
      }
      while streamPosition < position
        invariant budget.Valid() && Valid() && streamPosition <= position
        invariant budget.total == old(budget.total) + (charged - old(charged))
        invariant old(streamPosition) <= streamPosition
        invariant old(failures) <= failures && old(budget.total) <= budget.total
      {
        var delivered, sawEnd;
        error, delivered, sawEnd := ReadStream([], None, budget);
        if error.Some? {
          return;
        }
      }
      error := None;
    }

    /** Passes over the streams in front of the requested one and reads it. */
    method ReadAt(stream: nat, demands: seq<nat>, verdict: Option<R7zError>, budget: Budget)
      returns (error: Option<R7zError>, delivered: Bytes, sawEnd: bool)
      requires budget.Valid() && Valid() && stream < world.Streams().Count()
      modifies this, budget
      ensures budget.Valid() && Consistent() && old(failures) <= failures
      ensures budget.total == old(budget.total) + (charged - old(charged))
      ensures delivered <= world.Slice(stream) && (sawEnd ==> delivered == world.Slice(stream))
      ensures error.None? ==> Valid() && streamPosition == stream + 1 && world.StreamVerified(stream, crc)
      ensures error.Some? && old(streamPosition) <= stream
        ==> verdict.Some? || Hindered(budget, old(failures)) || !Sound(world, crc)
    {
      hide FolderWorld.Slice, FolderWorld.StreamVerified, StreamLayout.Count, Sound, Consistent, StreamsVerified;
      NothingIsPrefix(world.Slice(stream));
      ghost var before := failures;
      delivered, sawEnd := [], false;
      error := SkipTo(stream, budget);
      if error.Some? {
        if old(streamPosition) <= stream && !Hindered(budget, before) {
          ghost var k :| old(streamPosition) <= k < stream && !world.StreamVerified(k, crc);
          UnsoundStream(world, crc, k);
        }
        return;
      }
      error, delivered, sawEnd := ReadStream(demands, verdict, budget);
      if error.Some? && !world.StreamVerified(stream, crc) {
        UnsoundStream(world, crc, stream);
      }
    }

    /** The streams, if there are any, take up all of the declared size. */
    lemma AllStreamsRead()
      requires Valid() && streamPosition == world.Streams().Count()
      ensures readPosition == world.layout.unpackSize || world.Unstreamed()
    {
      assert world.Streams().Sizes()[..streamPosition] == world.Streams().Sizes();
    }

    /**
     * Completes the folder. A result of CompleteFolders means that it decoded to exactly its declared
     * length and that every checksum present matched; a failure means that reading was hindered or that
     * this is not so. Only without a folder checksum may a selection leave a tail unread.
     */
    method Finish(mode: CompletionMode, budget: Budget) returns (r: Result<ReadVerification, R7zError>)
      requires budget.Valid() && Valid()
      modifies this, budget
      ensures budget.Valid()
      ensures charged == if world.early.Some? then 0 else decodedLen
      ensures decodedLen <= |world.content| && decodedLen <= world.layout.unpackSize
      ensures budget.total == old(budget.total) + (charged - old(charged))
      ensures r.Success? ==> r.value.CompleteFolders? || r.value.SelectedEntries?
      ensures r.Success? && r.value.CompleteFolders? ==> world.Verified(crc) && decodedLen == |world.content|
      ensures r.Success? && r.value.SelectedEntries?
        ==> mode.SelectedStreams? && world.layout.crc.None? && old(streamPosition) < world.Streams().Count()
      ensures r.Failure? ==> Hindered(budget, old(failures)) || !world.Verified(crc) || world.Unstreamed()
    {
      if mode.SelectedStreams? && digest.Absent? && world.Streams().Count() - streamPosition != 0 {
        return Success(SelectedEntries);
      }
      var error := SkipTo(world.Streams().Count(), budget);
      if error.Some? {
        return Failure(error.value);
      }
      AllStreamsRead();
      if decodedLen != world.layout.unpackSize {
        return Failure(Decompression);
      }
      var extra := ReadDecoder(1);
      if extra.Failure? {
        return Failure(extra.error);
      }
      if extra.value != [] {
        return Failure(Decompression);
      }
      assert world.content[..decodedLen] == world.content;
      if !digest.Matches(crc) {
        return Failure(Crc);
      }
      r := Success(CompleteFolders);
    }
  }

  /** What has been delivered grows by what has been read, or not at all. */
  lemma StretchGrows(content: Bytes, start: nat, before: nat, after: nat, delivered: Bytes)
    requires start <= before <= after <= |content| && delivered <= content[start..before]
    ensures delivered <= content[start..after]
    ensures delivered == content[start..before] ==> delivered + content[before..after] == content[start..after]
  {
    assert content[start..after][..before - start] == content[start..before];
  }

  // ---------------------------------------------------------------- one live decoder

  /** The bytes read of each opened folder, in the order of opening. */
  datatype Opening = Opening(folder: nat, read: nat)

  /** What an opened folder has been charged: all of its output up front, or exactly what was read. */
  function ChargeOf(worlds: seq<FolderWorld>, opening: Opening): nat
    requires opening.folder < |worlds|
  {
    if worlds[opening.folder].early.Some? then worlds[opening.folder].layout.unpackSize else opening.read
  }

  /** Every opening is of a known folder and reads no more than its decoder delivers. */
  ghost predicate InRange(worlds: seq<FolderWorld>, openings: seq<Opening>) {
    forall k :: 0 <= k < |openings| ==>
      (openings[k].folder < |worlds| && openings[k].read <= |worlds[openings[k].folder].content|)
  }

  /** The same folders, opened in the same order. */
  ghost predicate SameFolders(a: seq<Opening>, b: seq<Opening>) {
    |a| == |b| && forall k :: 0 <= k < |a| ==> a[k].folder == b[k].folder
  }

  /** Nothing has been opened since, or just the given folder. */
  ghost predicate OpenedMore(before: seq<Opening>, after: seq<Opening>, folder: nat) {
    && |before| <= |after| <= |before| + 1
    && (forall k :: 0 <= k < |before| ==> after[k].folder == before[k].folder)
    && (|after| > |before| ==> after[|before|].folder == folder)
  }

  /** Every folder opened is one that a decoder without failures passes; the others do not matter. */
  ghost predicate OpenedSound(worlds: seq<FolderWorld>, openings: seq<Opening>, crc: Bytes -> u32) {
    forall k :: 0 <= k < |openings| && openings[k].folder < |worlds| ==> Sound(worlds[openings[k].folder], crc)
  }

  lemma UnsoundOne(worlds: seq<FolderWorld>, openings: seq<Opening>, crc: Bytes -> u32, k: nat)
    requires k < |openings| && openings[k].folder < |worlds| && !Sound(worlds[openings[k].folder], crc)
    ensures !OpenedSound(worlds, openings, crc)
  {
  }

  lemma SoundBefore(
      worlds: seq<FolderWorld>, before: seq<Opening>, after: seq<Opening>, folder: nat, crc: Bytes -> u32)
    requires OpenedMore(before, after, folder) && OpenedSound(worlds, after, crc)
    ensures OpenedSound(worlds, before, crc)
  {
    hide Sound;
    assert forall k :: 0 <= k < |before| ==> after[k].folder == before[k].folder;
  }

  lemma SameIsNoMore(before: seq<Opening>, after: seq<Opening>, folder: nat)
    requires SameFolders(after, before)
    ensures OpenedMore(before, after, folder)
  {
  }

  ghost function Charges(worlds: seq<FolderWorld>, openings: seq<Opening>): nat
    requires InRange(worlds, openings)
  {
    if openings == [] then 0
    else Charges(worlds, openings[..|openings| - 1]) + ChargeOf(worlds, openings[|openings| - 1])
  }

  /** Replacing the last opening changes the charges by the difference. */
  lemma ChargesOfLast(worlds: seq<FolderWorld>, openings: seq<Opening>, last: Opening)
    requires InRange(worlds, openings)
    requires openings != [] && last.folder == openings[|openings| - 1].folder
    requires last.read <= |worlds[last.folder].content|
    ensures InRange(worlds, openings[|openings| - 1 := last])
    ensures Charges(worlds, openings[|openings| - 1 := last])
         == Charges(worlds, openings) - ChargeOf(worlds, openings[|openings| - 1]) + ChargeOf(worlds, last)
  {
    assert openings[|openings| - 1 := last][..|openings| - 1] == openings[..|openings| - 1];
  }

  lemma ChargesOfNew(worlds: seq<FolderWorld>, openings: seq<Opening>, opening: Opening)
    requires InRange(worlds, openings) && opening.folder < |worlds| && opening.read <= |worlds[opening.folder].content|
    ensures InRange(worlds, openings + [opening])
    ensures Charges(worlds, openings + [opening]) == Charges(worlds, openings) + ChargeOf(worlds, opening)
  {
    assert (openings + [opening])[..|openings|] == openings;
  }

  /** Folder indices of the openings strictly increase: no folder was opened twice. */
  ghost predicate OpenedOnce(openings: seq<Opening>) {
    forall i, j :: 0 <= i < j < |openings| ==> openings[i].folder < openings[j].folder
  }

  /** What a readable entry asks for: nothing, or one stream of one folder. */
  datatype EntryContent = NoStream | StreamOf(folder: nat, stream: nat)

  /** Keeps at most one decoder alive and remembers how much has been checked. */
  class EntryDecoder {
    const worlds: seq<FolderWorld>
    const crc: Bytes -> u32
    const mode: CompletionMode
    const budget: Budget
    var verification: ReadVerification
    var current: nat
    var active: ActiveFolder?
    ghost var openings: seq<Opening>
    /** Charged for eager decoders that failed to start after decoding had begun. */
    ghost var failedStarts: nat
    /** A start or a decoder read has failed, the operation was cancelled, or the limit was used up. */
    ghost var hindered: bool
    ghost const before: nat

    ghost predicate WellRecorded()
      reads this`openings, this`failedStarts, budget
    {
      && budget.Valid()
      && (forall i :: 0 <= i < |worlds| ==> worlds[i].Valid())
      && InRange(worlds, openings)
      && budget.total == before + Charges(worlds, openings) + failedStarts
    }

    /** All folders but the live one have been verified. */
    ghost predicate AllVerified(n: nat)
      requires n <= |openings|
      reads this`openings
    {
      forall k :: 0 <= k < n && openings[k].folder < |worlds| ==> worlds[openings[k].folder].Verified(crc)
    }

    ghost predicate Live()
      reads this, active
    {
      && active != null && active.Valid() && current < |worlds| && active.world == worlds[current] && active.crc == crc
      && openings != [] && openings[|openings| - 1] == Opening(current, active.readPosition)
    }

    ghost predicate Valid()
      reads this, budget, active
    {
      && WellRecorded()
      && (active != null ==> Live())
      && (verification.CompleteFolders? ==>
            AllVerified(if active == null then |openings| else |openings| - 1))
    }

    constructor (worlds: seq<FolderWorld>, crc: Bytes -> u32, mode: CompletionMode, budget: Budget)
      requires budget.Valid() && forall i :: 0 <= i < |worlds| ==> worlds[i].Valid()
      ensures Valid() && this.worlds == worlds && this.crc == crc && this.mode == mode && this.budget == budget
      ensures verification.CompleteFolders? && active == null && openings == [] && failedStarts == 0 && !hindered
      ensures before == budget.total
    {
      this.worlds, this.crc, this.mode, this.budget := worlds, crc, mode, budget;
      verification, current, active := CompleteFolders, 0, null;
      openings, failedStarts, hindered, before := [], 0, false, budget.total;
    }

    /** Records how far the live folder was read and gives it up. */
    ghost method GiveUp(folder: ActiveFolder, read: nat)
      requires openings != [] && active == null && InRange(worlds, openings)
      requires read <= |worlds[openings[|openings| - 1].folder].content|
      modifies this`openings
      ensures openings == old(openings)[|old(openings)| - 1 := Opening(old(openings)[|old(openings)| - 1].folder, read)]
      ensures InRange(worlds, openings) && SameFolders(openings, old(openings))
      ensures Charges(worlds, openings) == Charges(worlds, old(openings))
        + if worlds[old(openings)[|old(openings)| - 1].folder].early.Some? then 0
          else read - old(openings)[|old(openings)| - 1].read
    {
      hide Charges, ChargeOf;
      var last := Opening(openings[|openings| - 1].folder, read);
      ChargedSo(worlds, openings[|openings| - 1]);
      ChargedSo(worlds, last);
      ChargesOfLast(worlds, openings, last);
      openings := openings[|openings| - 1 := last];
    }

    /** Finishes the live folder and settles its account; the decoder is gone either way. */
    method FinishLive() returns (r: Result<ReadVerification, R7zError>)
      requires Valid() && active != null
      modifies this`active, this`openings, this`hindered, budget, active
      ensures WellRecorded() && active == null && SameFolders(openings, old(openings))
      ensures old(hindered) ==> hindered
      ensures r.Failure? ==> hindered || !OpenedSound(worlds, openings, crc)
      ensures r.Success? ==> r.value.CompleteFolders? || (r.value.SelectedEntries? && mode.SelectedStreams?)
      ensures r.Success? && r.value.CompleteFolders? ==> worlds[current].Verified(crc)
    {
      hide Charges, ChargeOf, OpenedSound, FolderWorld.Verified, StreamLayout.Count, DigestOf;
      var folder := active;
      active := null;
      ghost var failures := folder.failures;
      r := folder.Finish(mode, budget);
      hindered := hindered || folder.Hindered(budget, failures);
      GiveUp(folder, folder.decodedLen);
      if r.Failure? && !hindered {
        UnsoundOne(worlds, openings, crc, |openings| - 1);
      }
    }

    /** Completes the detached folder; on failure nothing is claimed any more. */
    method Complete() returns (error: Option<R7zError>)
      requires Valid()
      modifies this`verification, this`active, this`openings, this`hindered, budget, active
      ensures Valid() && active == null && SameFolders(openings, old(openings))
      ensures old(hindered) ==> hindered
      ensures error.Some? ==> hindered || !OpenedSound(worlds, openings, crc)
      ensures error.None? && mode.WholeFolder? ==> verification == old(verification)
      ensures error.Some? ==> verification.Incomplete?
      ensures old(verification).Incomplete? ==> verification.Incomplete?
      ensures error.None? && verification.Incomplete? ==> old(verification).Incomplete?
    {
      hide WellRecorded, OpenedSound, FolderWorld.Verified, ActiveFolder.Valid;
      if active == null {
        return None;
      }
      var result := FinishLive();
      match result {
        case Success(verified) =>
          verification := verification.Combine(verified);
          error := None;
        case Failure(e) =>
          verification := Incomplete;
          error := Some(e);
      }
    }

    /** Starts a decoder without keeping it. An eager one is charged for all of its output. */
    method Start(folder: nat) returns (error: Option<R7zError>)
      requires Valid() && active == null && folder < |worlds|
      modifies this`failedStarts, this`hindered, budget
      ensures budget.Valid() && (old(budget.cancelled) ==> budget.cancelled)
      ensures hindered == (old(hindered) || error.Some?)
      ensures error.Some? ==> budget.total - old(budget.total) == failedStarts - old(failedStarts)
      ensures error.None? ==> failedStarts == old(failedStarts)
      ensures error.None? ==>
        budget.total == old(budget.total) + if worlds[folder].early.Some? then worlds[folder].layout.unpackSize else 0
    {
      hide Charges, ChargeOf;
      if * {
        var unbound: R7zError := *;
        hindered := true;
        return Some(unbound);
      }
      var outcome: StartOutcome := *;
      if worlds[folder].early.Some? {
        error := budget.WithEagerDecodedOutput(worlds[folder].early.value, outcome);
        if error.Some? {
          failedStarts := failedStarts + (budget.total - old(budget.total));
        }
      } else {
        match outcome {
          case Started => error := None;
          case Refused(e) => error := Some(e);
          case FailedStart(e) => error := Some(e);
        }
      }
      hindered := hindered || error.Some?;
    }

    /** Binds and starts a decoder. */
    method Open(folder: nat) returns (error: Option<R7zError>)
      requires Valid() && active == null && folder < |worlds|
      modifies this`active, this`current, this`openings, this`failedStarts, this`hindered, budget
      ensures Valid() && (error.None? <==> active != null)
      ensures hindered == (old(hindered) || error.Some?)
      ensures error.None? ==> current == folder && fresh(active) && active.streamPosition == 0
      ensures openings == if error.None? then old(openings) + [Opening(folder, 0)] else old(openings)
    {
      hide Charges, ChargeOf;
      error := Start(folder);
      if error.Some? {
        return;
      }
      ChargedSo(worlds, Opening(folder, 0));
      ChargesOfNew(worlds, openings, Opening(folder, 0));
      active := new ActiveFolder(worlds[folder], crc);
      current, openings := folder, openings + [Opening(folder, 0)];
    }

    /** The live decoder of the folder, or a new one after the previous folder has been completed. */
    method Switch(folder: nat) returns (error: Option<R7zError>)
      requires Valid() && folder < |worlds|
      modifies this, budget, active
      ensures Valid() && (error.None? <==> active != null) && OpenedMore(old(openings), openings, folder)
      ensures error.None? ==> current == folder && (active == old(active) || fresh(active))
      ensures old(hindered) ==> hindered
      ensures error.Some? ==> hindered || !OpenedSound(worlds, openings, crc)
      ensures error.None? && mode.WholeFolder? ==> verification == old(verification)
      ensures error.None? && old(active) != null && old(current) == folder
        ==> active.streamPosition == old(active.streamPosition)
      ensures error.None? && !(old(active) != null && old(current) == folder) ==> active.streamPosition == 0
      ensures old(verification).Incomplete? ==> verification.Incomplete?
      ensures error.None? && old(active) != null && old(current) == folder ==> openings == old(openings)
      ensures error.None? && !(old(active) != null && old(current) == folder)
        ==> openings != [] && SameFolders(openings[..|openings| - 1], old(openings))
    {
      if active != null && current == folder {
        return None;
      }
      error := Complete();
      if error.Some? {
        return;
      }
      error := Open(folder);
    }

    /** Reads a stream; on failure the decoder is gone and the caller withdraws every claim. */
    method ReadStream(folder: nat, stream: nat, demands: seq<nat>, verdict: Option<R7zError>)
      returns (error: Option<R7zError>, delivered: Bytes, sawEnd: bool)
      requires Valid() && folder < |worlds| && stream < worlds[folder].Streams().Count()
      modifies this, budget, active
      ensures error.None? ==> Valid() && active != null && current == folder && (active == old(active) || fresh(active))
      ensures error.Some? ==> WellRecorded() && active == null
      ensures OpenedMore(old(openings), openings, folder)
      ensures error.None? ==> active.streamPosition == stream + 1
      ensures old(hindered) ==> hindered
      ensures error.Some? && !(old(active) != null && old(current) == folder && old(active.streamPosition) > stream)
        ==> hindered || verdict.Some? || !OpenedSound(worlds, openings, crc)
      ensures error.None? && mode.WholeFolder? ==> verification == old(verification)
      ensures old(verification).Incomplete? ==> verification.Incomplete?
      ensures delivered <= worlds[folder].Slice(stream)
      ensures sawEnd ==> delivered == worlds[folder].Slice(stream)
      ensures error.None? ==> worlds[folder].StreamVerified(stream, crc)
      ensures error.None? && old(active) != null && old(current) == folder ==> SameFolders(openings, old(openings))
      ensures error.None? && !(old(active) != null && old(current) == folder)
        ==> openings != [] && SameFolders(openings[..|openings| - 1], old(openings))
      ensures error.None? ==> openings != [] && openings[|openings| - 1].folder == folder
    {
      hide Charges, ChargeOf, FolderWorld.Slice, FolderWorld.StreamVerified, StreamLayout.Count;
      hide ActiveFolder.Valid, ActiveFolder.Consistent, OpenedSound;
      error := Switch(folder);
      if error.Some? {
        NothingIsPrefix(worlds[folder].Slice(stream));
        return error, [], false;
      }
      error, delivered, sawEnd := ReadLive(stream, demands, verdict);
    }

    /** Reads from the live decoder, which is taken out and put back only on success. */
    method ReadLive(stream: nat, demands: seq<nat>, verdict: Option<R7zError>)
      returns (error: Option<R7zError>, delivered: Bytes, sawEnd: bool)
      requires Valid() && active != null && stream < worlds[current].Streams().Count()
      modifies this`active, this`openings, this`hindered, budget, active
      ensures error.None? ==> Valid() && active == old(active)
      ensures error.None? ==> active.streamPosition == stream + 1
      ensures old(hindered) ==> hindered
      ensures error.Some? ==>
        hindered || verdict.Some? || !OpenedSound(worlds, openings, crc) || old(active.streamPosition) > stream
      ensures error.Some? ==> WellRecorded() && active == null
      ensures delivered <= worlds[current].Slice(stream)
      ensures sawEnd ==> delivered == worlds[current].Slice(stream)
      ensures error.None? ==> worlds[current].StreamVerified(stream, crc)
      ensures SameFolders(openings, old(openings))
    {
      hide Charges, ChargeOf, FolderWorld.Slice, FolderWorld.StreamVerified, StreamLayout.Count, FolderWorld.Verified,
        StreamLayout.Start, DigestOf, OpenedSound, Sound;
      var taken := active;
      active := null;
      ghost var failures := taken.failures;
      error, delivered, sawEnd := taken.ReadAt(stream, demands, verdict, budget);
      GiveUp(taken, taken.readPosition);
      hindered := hindered || taken.Hindered(budget, failures);
      if error.None? {
        active := taken;
      } else if !Sound(worlds[current], crc) {
        UnsoundOne(worlds, openings, crc, |openings| - 1);
      }
    }

    /** Reads an entry. Any failure leaves the verification incomplete for good. */
    method Read(content: EntryContent, demands: seq<nat>, verdict: Option<R7zError>)
      returns (error: Option<R7zError>, delivered: Bytes, sawEnd: bool)
      requires Valid()
      requires content.StreamOf?
        ==> content.folder < |worlds| && content.stream < worlds[content.folder].Streams().Count()
      modifies this, budget, active
      ensures Valid() && (active == null || active == old(active) || fresh(active))
      ensures error.Some? ==> verification.Incomplete?
      ensures old(verification).Incomplete? ==> verification.Incomplete?
      ensures old(hindered) ==> hindered
      ensures error.Some? && !(content.StreamOf? && old(active) != null && old(current) == content.folder
                               && old(active.streamPosition) > content.stream)
        ==> hindered || verdict.Some? || !OpenedSound(worlds, openings, crc)
      ensures error.None? && mode.WholeFolder? ==> verification == old(verification)
      ensures content.NoStream? ==> delivered == [] && openings == old(openings)
      ensures content.StreamOf? ==> OpenedMore(old(openings), openings, content.folder)
      ensures content.NoStream? ==> active == old(active) && current == old(current)
      ensures content.NoStream? && active != null ==> active.streamPosition == old(active.streamPosition)
      ensures content.StreamOf? && error.None? ==> active != null && active.streamPosition == content.stream + 1
      ensures content.StreamOf? && error.Some? && active != null ==>
        active == old(active) && active.streamPosition == old(active.streamPosition) && current == old(current)
      ensures content.StreamOf? ==> delivered <= worlds[content.folder].Slice(content.stream)
      ensures content.StreamOf? && sawEnd ==> delivered == worlds[content.folder].Slice(content.stream)
      ensures content.StreamOf? && error.None? ==>
        worlds[content.folder].StreamVerified(content.stream, crc) && active != null && current == content.folder
      ensures content.StreamOf? && error.None? && old(active) != null && old(current) == content.folder
        ==> SameFolders(openings, old(openings))
      ensures content.StreamOf? && error.None? && !(old(active) != null && old(current) == content.folder)
        ==> openings != [] && SameFolders(openings[..|openings| - 1], old(openings))
      ensures content.StreamOf? && error.None? ==> openings != [] && openings[|openings| - 1].folder == content.folder
    {
      hide Charges, ChargeOf, FolderWorld.Slice, FolderWorld.StreamVerified, StreamLayout.Count, OpenedSound,
        ActiveFolder.Valid;
      delivered, sawEnd := [], false;
      error := budget.Check();
      if error.None? {
        match content {
          case NoStream => error := verdict;
          case StreamOf(folder, stream) => error, delivered, sawEnd := ReadStream(folder, stream, demands, verdict);
        }
      } else {
        hindered := true;
        if content.StreamOf? {
          NothingIsPrefix(worlds[content.folder].Slice(content.stream));
        }
      }
      if error.Some? {
        verification := Incomplete;
      }
    }

    /** Completes the live folder and reports what has been verified of every folder opened so far. */
    method Finish() returns (r: Result<ReadVerification, R7zError>)
      requires Valid()
      modifies this, budget, active
      ensures Valid() && active == null && SameFolders(openings, old(openings))
      ensures r.Success? ==> r.value == verification
      ensures r.Success? && r.value.CompleteFolders? ==> AllVerified(|openings|)
      ensures old(verification).Incomplete? ==> verification.Incomplete?
      ensures old(hindered) ==> hindered
      ensures r.Failure? ==> hindered || !OpenedSound(worlds, openings, crc)
      ensures r.Success? && mode.WholeFolder? ==> verification == old(verification)
    {
      var error := Complete();
      if error.Some? {
        return Failure(error.value);
      }
      var stopped := budget.Check();
      if stopped.Some? {
        hindered := true;
        return Failure(stopped.value);
      }
      r := Success(verification);
    }
  }

  lemma NothingIsPrefix(bytes: Bytes)
    ensures [] <= bytes
  {
  }

  lemma ChargedSo(worlds: seq<FolderWorld>, opening: Opening)
    requires opening.folder < |worlds|
    ensures ChargeOf(worlds, opening)
         == if worlds[opening.folder].early.Some? then worlds[opening.folder].layout.unpackSize else opening.read
  {
  }
}
