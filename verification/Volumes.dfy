/** Splitting an archive into volumes, and reading through a list of volumes as if it were one file. */
module Volumes {
  import opened Wrappers
  import opened Words

  function Joined(volumes: seq<Bytes>): Bytes {
    if volumes == [] then [] else volumes[0] + Joined(volumes[1..])
  }

  lemma JoinedUnfold(volumes: seq<Bytes>)
    ensures Joined(volumes) == if volumes == [] then [] else volumes[0] + Joined(volumes[1..])
  {
  }

  lemma {:induction false} JoinedAppend(a: seq<Bytes>, b: seq<Bytes>)
    ensures Joined(a + b) == Joined(a) + Joined(b)
  {
    hide Joined;
    JoinedUnfold(a);
    if a == [] {
      assert a + b == b;
    } else {
      JoinedUnfold(a + b);
      JoinedAppend(a[1..], b);
      assert (a + b)[1..] == a[1..] + b;
    }
  }

  lemma JoinedOneMore(volumes: seq<Bytes>, last: Bytes)
    ensures Joined(volumes + [last]) == Joined(volumes) + last
  {
    JoinedAppend(volumes, [last]);
    assert Joined([last]) == last + Joined([last][1..]) == last;
  }

  // ---------------------------------------------------------------- splitting

  /** The last size goes on for all further volumes. */
  function SizeAt(sizes: seq<u64>, i: nat): u64
    requires sizes != []
  {
    if i < |sizes| then sizes[i] else sizes[|sizes| - 1]
  }

  /** A volume of size zero comes up before everything has been written. */
  predicate StopsEarly(length: nat, sizes: seq<u64>, i: nat)
    requires sizes != []
    decreases length
  {
    var size := SizeAt(sizes, i);
    length > 0 && (size == 0 || (size < length && StopsEarly(length - size, sizes, i + 1)))
  }

  /**
   * Writes volumes until the input is used up or a volume comes out empty. An empty input makes one
   * empty volume.
   */
  method WriteVolumes(input: Bytes, sizes: seq<u64>) returns (volumes: seq<Bytes>)
    requires sizes != []
    ensures volumes != [] && forall i :: 0 <= i < |volumes| ==> |volumes[i]| <= SizeAt(sizes, i)
    ensures forall i :: 0 <= i < |volumes| - 1 ==> |volumes[i]| == SizeAt(sizes, i) && volumes[i] != []
    ensures Joined(volumes) <= input
    ensures Joined(volumes) == input <==> !StopsEarly(|input|, sizes, 0)
  {
    volumes := [];
    var offset := 0;
    assert input[..0] == [];
    while offset < |input| || (|volumes| == 0 && |input| == 0)
      invariant offset <= |input| && Joined(volumes) == input[..offset]
      invariant forall i :: 0 <= i < |volumes| ==>
        |volumes[i]| <= SizeAt(sizes, i) && (volumes[i] != [] || |input| == 0)
      invariant offset < |input| ==> forall i :: 0 <= i < |volumes| ==> |volumes[i]| == SizeAt(sizes, i)
      invariant forall i :: 0 <= i < |volumes| - 1 ==> |volumes[i]| == SizeAt(sizes, i) && volumes[i] != []
      invariant volumes == [] ==> offset == 0
      invariant StopsEarly(|input|, sizes, 0) == StopsEarly(|input| - offset, sizes, |volumes|)
      decreases |input| - offset, if volumes == [] then 1 else 0
    {
      var start, size := offset, SizeAt(sizes, |volumes|);
      var end := if start + size < |input| then start + size else |input|;
      JoinedOneMore(volumes, input[start..end]);
      assert input[..start] + input[start..end] == input[..end];
      volumes := volumes + [input[start..end]];
      offset := end;
      if end == start {
        break;
      }
    }
    assert offset == |input| ==> input[..offset] == input;
  }

  // ---------------------------------------------------------------- joining

  /** A volume and the part of the whole that it holds. */
  datatype VolumeReader = VolumeReader(file: Bytes, start: nat, end: nat)

  /** The readers for volumes that follow one another from a position on. */
  function Readers(volumes: seq<Bytes>, start: nat): (r: seq<VolumeReader>)
    ensures |r| == |volumes|
    decreases volumes
  {
    if volumes == [] then []
    else [VolumeReader(volumes[0], start, start + |volumes[0]|)] + Readers(volumes[1..], start + |volumes[0]|)
  }

  predicate Covers(reader: VolumeReader, offset: nat) {
    reader.start <= offset < reader.end
  }

  /** A reader holds its part of the whole. */
  ghost predicate Holds(reader: VolumeReader, all: Bytes, base: nat) {
    && base <= reader.start <= reader.end <= base + |all|
    && reader.file == all[reader.start - base..reader.end - base]
  }

  lemma {:induction false} ReadersHold(volumes: seq<Bytes>, start: nat, i: nat)
    requires i < |volumes|
    ensures Holds(Readers(volumes, start)[i], Joined(volumes), start)
    decreases volumes
  {
    hide Holds;
    if i == 0 {
      FirstHolds(volumes[0], Joined(volumes[1..]), start);
    } else {
      ReadersHold(volumes[1..], start + |volumes[0]|, i - 1);
      HoldsLater(Readers(volumes, start)[i], volumes[0], Joined(volumes[1..]), start);
    }
  }

  lemma FirstHolds(front: Bytes, all: Bytes, base: nat)
    ensures Holds(VolumeReader(front, base, base + |front|), front + all, base)
  {
    assert (front + all)[..|front|] == front;
  }

  lemma HoldsLater(reader: VolumeReader, front: Bytes, all: Bytes, base: nat)
    requires Holds(reader, all, base + |front|)
    ensures Holds(reader, front + all, base)
  {
    var a, b := reader.start - base, reader.end - base;
    assert (front + all)[a..b] == all[a - |front|..b - |front|];
  }

  /** Every position of the whole is in some volume, whatever empty volumes lie between. */
  lemma {:induction false} SomeReaderCovers(volumes: seq<Bytes>, start: nat, offset: nat) returns (i: nat)
    requires start <= offset < start + |Joined(volumes)|
    ensures i < |volumes| && Covers(Readers(volumes, start)[i], offset)
    decreases volumes
  {
    if offset < start + |volumes[0]| {
      i := 0;
    } else {
      var j := SomeReaderCovers(volumes[1..], start + |volumes[0]|, offset);
      i := j + 1;
    }
  }

  datatype Opened = Split(readers: seq<VolumeReader>, length: u64) | NotSplit

  /**
   * Opening the volumes one by one, with their running positions. It takes as many open files as there
   * are volumes and a total length of 64 bits; a single volume is not treated as split.
   */
  method OpenVolumes(volumes: seq<Bytes>, openLimit: nat) returns (r: Result<Opened, R7zError>)
    ensures r.Success? <==> |volumes| <= openLimit && |Joined(volumes)| < U64_LIMIT
    ensures r.Success? ==>
      r.value == if |volumes| > 1 then Split(Readers(volumes, 0), |Joined(volumes)|) else NotSplit
    ensures |volumes| <= openLimit && r.Failure? ==> r.error == Parse
  {
    var readers: seq<VolumeReader>, length: nat := [], 0;
    assert volumes[0..] == volumes;
    for i := 0 to |volumes|
      invariant i <= openLimit && length < U64_LIMIT && |readers| == i
      invariant readers + Readers(volumes[i..], length) == Readers(volumes, 0)
      invariant length + |Joined(volumes[i..])| == |Joined(volumes)|
    {
      if i + 1 > openLimit {
        return Failure(ResourceLimitExceeded);
      }
      assert volumes[i..][1..] == volumes[i + 1..];
      var start := length;
      if length + |volumes[i]| >= U64_LIMIT {
        return Failure(Parse);
      }
      length := length + |volumes[i]|;
      ghost var rest := Readers(volumes[i + 1..], length);
      assert readers + ([VolumeReader(volumes[i], start, length)] + rest)
          == (readers + [VolumeReader(volumes[i], start, length)]) + rest;
      readers := readers + [VolumeReader(volumes[i], start, length)];
    }
    assert volumes[|volumes|..] == [] && readers + [] == readers;
    r := Success(if |readers| > 1 then Split(readers, length) else NotSplit);
  }

  /** The first volume that covers a position. */
  method FindVolume(readers: seq<VolumeReader>, offset: nat) returns (i: nat)
    requires exists k :: 0 <= k < |readers| && Covers(readers[k], offset)
    ensures i < |readers| && Covers(readers[i], offset)
  {
    i := 0;
    while !Covers(readers[i], offset)
      invariant i < |readers| && exists k :: i <= k < |readers| && Covers(readers[k], offset)
      decreases |readers| - i
    {
      i := i + 1;
    }
  }

  lemma PartOf(all: Bytes, start: nat, end: nat, a: nat, b: nat)
    requires start <= end <= |all| && a <= b <= end - start
    ensures all[start..end][a..b] == all[start + a..start + b]
  {
    var part := all[start + a..start + b];
    assert forall k :: 0 <= k < |part| ==> all[start..end][a..b][k] == part[k];
  }

  /** Which positioned reads of a volume file fail, by volume, offset and length. */
  type Faults = (nat, nat, nat) -> bool

  /** A failing read of one volume that stays within the given span of the whole. */
  ghost predicate FaultWithin(readers: seq<VolumeReader>, faults: Faults, from: nat, end: nat) {
    exists i: nat, at: nat, n: nat {:trigger faults(i, at, n)} ::
      i < |readers| && faults(i, at, n) && 0 < n && from <= readers[i].start + at
      && readers[i].start + at + n <= end && readers[i].start + at + n <= readers[i].end
  }

  /** Reads from the volume that covers a position, up to its end. */
  method ReadPart(volumes: seq<Bytes>, readers: seq<VolumeReader>, faults: Faults, logical: nat, limit: nat)
    returns (r: Result<Bytes, R7zError>)
    requires readers == Readers(volumes, 0) && logical < |Joined(volumes)| && limit > 0
    ensures r.Success? ==> 0 < |r.value| <= limit && logical + |r.value| <= |Joined(volumes)|
    ensures r.Success? ==> r.value == Joined(volumes)[logical..logical + |r.value|]
    ensures r.Failure? ==> r.error == Io && FaultWithin(readers, faults, logical, logical + limit)
  {
    hide Joined, Readers;
    ghost var k := SomeReaderCovers(volumes, 0, logical);
    var i := FindVolume(readers, logical);
    ReadersHold(volumes, 0, i);
    var volume := readers[i];
    var n := if volume.end - logical < limit then volume.end - logical else limit;
    if faults(i, logical - volume.start, n) {
      return Failure(Io);
    }
    PartOf(Joined(volumes), volume.start, volume.end, logical - volume.start, logical - volume.start + n);
    r := Success(volume.file[logical - volume.start..logical - volume.start + n]);
  }

  /** Reading any span through the volume list is slicing the whole, unless a read within the span fails. */
  method ReadExactAt(
      volumes: seq<Bytes>, readers: seq<VolumeReader>, length: nat, faults: Faults, offset: nat, count: nat)
    returns (r: Result<Bytes, R7zError>)
    requires readers == Readers(volumes, 0) && length == |Joined(volumes)|
    ensures count == 0 ==> r == Success([])
    ensures count > 0 && offset + count > length ==> r == Failure(Parse)
    ensures count > 0 && offset + count <= length ==>
      || r == Success(Joined(volumes)[offset..offset + count])
      || (r == Failure(Io) && FaultWithin(readers, faults, offset, offset + count))
  {
    hide Joined, Readers;
    if count == 0 {
      return Success([]);
    }
    if offset + count > length {
      return Failure(Parse);
    }
    var logical, bytes: Bytes := offset, [];
    while |bytes| < count
      invariant logical == offset + |bytes| && |bytes| <= count && bytes == Joined(volumes)[offset..logical]
      decreases count - |bytes|
    {
      var part := ReadPart(volumes, readers, faults, logical, count - |bytes|);
      if part.Failure? {
        return Failure(part.error);
      }
      Adjacent(Joined(volumes), offset, logical, logical + |part.value|);
      bytes := bytes + part.value;
      logical := logical + |part.value|;
    }
    r := Success(bytes);
  }

  /**
   * Splitting into volumes of positive size and reading back any span gives that span of the input. It
   * fails only with more volumes than may be open, or when a read fails. A single volume is the input.
   */
  method SplitThenRead(
      input: Bytes, sizes: seq<u64>, openLimit: nat, faults: Faults, offset: nat, count: nat)
    returns (r: Result<Bytes, R7zError>, volumes: seq<Bytes>)
    requires sizes != [] && forall i :: 0 <= i < |sizes| ==> sizes[i] > 0
    requires 0 < count && offset + count <= |input| < U64_LIMIT
    ensures Joined(volumes) == input
    ensures r.Success? ==> r.value == input[offset..offset + count]
    ensures r.Failure? ==> |volumes| > openLimit || FaultWithin(Readers(volumes, 0), faults, offset, offset + count)
  {
    hide FaultWithin;
    NeverStopsEarly(|input|, sizes, 0);
    volumes := WriteVolumes(input, sizes);
    var source := OpenVolumes(volumes, openLimit);
    if source.Failure? {
      return Failure(source.error), volumes;
    }
    match source.value {
      case Split(readers, length) =>
        r := ReadExactAt(volumes, readers, length, faults, offset, count);
      case NotSplit =>
        r := ReadOnly(volumes, faults, offset, count);
    }
  }

  /** A file that is not split is read as one. */
  method ReadOnly(volumes: seq<Bytes>, faults: Faults, offset: nat, count: nat) returns (r: Result<Bytes, R7zError>)
    requires |volumes| <= 1 && 0 < count && offset + count <= |Joined(volumes)|
    ensures r.Success? ==> r.value == Joined(volumes)[offset..offset + count]
    ensures r.Failure? ==> FaultWithin(Readers(volumes, 0), faults, offset, offset + count)
  {
    assert |volumes| == 1 && volumes[1..] == [] && volumes[0] + [] == volumes[0];
    if faults(0, offset, count) {
      return Failure(Io);
    }
    r := Success(volumes[0][offset..offset + count]);
  }

  lemma {:induction false} NeverStopsEarly(length: nat, sizes: seq<u64>, i: nat)
    requires sizes != [] && forall k :: 0 <= k < |sizes| ==> sizes[k] > 0
    ensures !StopsEarly(length, sizes, i)
    decreases length
  {
    if length > 0 && SizeAt(sizes, i) < length {
      NeverStopsEarly(length - SizeAt(sizes, i), sizes, i + 1);
    }
  }
}
