/** Byte sources and sinks that may read short or fail. */
module Readers {
  import opened Wrappers
  import opened Words

  /** A reader over fixed content. A read delivers some of what is left, or fails and delivers nothing. */
  class Source {
    const content: Bytes
    var position: nat
    /** How many reads have failed. */
    ghost var failures: nat

    ghost predicate Valid()
      reads this
    {
      position <= |content|
    }

    constructor (content: Bytes)
      ensures Valid() && this.content == content && position == 0
    {
      this.content, position, failures := content, 0, 0;
    }

    method Read(limit: nat) returns (r: Result<Bytes, R7zError>)
      requires Valid()
      modifies this
      ensures Valid()
      ensures r.Success? ==> old(position) <= position <= old(position) + limit
      ensures r.Success? ==> r.value == content[old(position)..position]
      ensures r.Success? ==> (r.value == [] <==> limit == 0 || old(position) == |content|)
      ensures r.Failure? ==> position == old(position)
      ensures failures == old(failures) + if r.Failure? then 1 else 0
    {
      if * {
        var error: R7zError := *;
        failures := failures + 1;
        return Failure(error);
      }
      var most := if limit < |content| - position then limit else |content| - position;
      var count: nat := 0;
      if most > 0 {
        count :| 0 < count <= most;
      }
      r := Success(content[position..position + count]);
      position := position + count;
    }

    /** Reads exactly that many bytes, in as many reads as it takes, unless a read fails or too few are left. */
    method ReadExact(count: nat) returns (r: Result<Bytes, R7zError>)
      requires Valid()
      modifies this
      ensures Valid() && old(position) <= position
      ensures r.Success? ==> position == old(position) + count && r.value == content[old(position)..position]
      ensures old(failures) <= failures
      ensures r.Failure? ==> position < old(position) + count
      ensures r.Failure? ==> old(failures) < failures || |content| < old(position) + count
    {
      var bytes: Bytes := [];
      while |bytes| < count
        invariant Valid() && |bytes| <= count && position == old(position) + |bytes|
        invariant bytes == content[old(position)..position] && failures == old(failures)
        decreases count - |bytes|
      {
        var more := Read(count - |bytes|);
        if more.Failure? {
          return more;
        }
        if more.value == [] {
          return Failure(Io);
        }
        bytes := bytes + more.value;
      }
      r := Success(bytes);
    }
  }

  /** A writer that keeps everything it has accepted; a failed write may have accepted a part. */
  class Sink {
    var written: Bytes
    /** How many writes and flushes have failed. */
    ghost var failures: nat

    constructor ()
      ensures written == []
    {
      written, failures := [], 0;
    }

    method WriteAll(bytes: Bytes) returns (error: Option<R7zError>)
      modifies this
      ensures error.None? ==> written == old(written) + bytes
      ensures error.Some? ==> old(written) <= written <= old(written) + bytes
      ensures failures == old(failures) + if error.Some? then 1 else 0
    {
      if * {
        failures := failures + 1;
        var part: nat :| part <= |bytes|;
        written := written + bytes[..part];
        var e: R7zError := *;
        return Some(e);
      }
      written := written + bytes;
      error := None;
    }

    method Flush() returns (error: Option<R7zError>)
      modifies this`failures
      ensures failures == old(failures) + if error.Some? then 1 else 0
    {
      if * {
        failures := failures + 1;
        var e: R7zError := *;
        return Some(e);
      }
      error := None;
    }
  }
}
