/** Looking for the archive signature, in one slice or chunk by chunk with a short carry. */
module Signatures {
  import opened Wrappers
  import opened Words
  import Digests

  const MAGIC: Bytes := [0x37, 0x7A, 0xBC, 0xAF, 0x27, 0x1C]
  const MAGIC_LENGTH: nat := 6
  const HEADER_LENGTH: nat := 32

  predicate MagicAt(data: Bytes, p: nat) {
    p + MAGIC_LENGTH <= |data| && data[p..p + MAGIC_LENGTH] == MAGIC
  }

  datatype Candidate = Valid | BadCrc | Incomplete

  /** The stored checksum of the start header against the bytes it covers. */
  function Validate(header: Bytes, crc: Bytes -> u32): Candidate
    requires |header| == HEADER_LENGTH
  {
    if header[..MAGIC_LENGTH] != MAGIC then Incomplete
    else if crc(header[12..32]) == Digests.FromLe(header[8..12]) then Valid
    else BadCrc
  }

  function SignatureAt(data: Bytes, p: nat, crc: Bytes -> u32): Candidate {
    if p + HEADER_LENGTH > |data| then Incomplete else Validate(data[p..p + HEADER_LENGTH], crc)
  }

  /** The first valid signature, and whether one with a wrong checksum was seen before it. */
  datatype Outcome = Outcome(found: Option<nat>, sawBad: bool)

  /** Every occurrence of the magic bytes before end is examined once, in increasing order. */
  function ScanFrom(data: Bytes, end: nat, p: nat, sawBad: bool, crc: Bytes -> u32): Outcome
    decreases if p <= end then end - p else 0
  {
    if p + MAGIC_LENGTH > end then Outcome(None, sawBad)
    else if !MagicAt(data, p) then ScanFrom(data, end, p + 1, sawBad, crc)
    else
      match SignatureAt(data, p, crc)
      case Valid => Outcome(Some(p), sawBad)
      case BadCrc => ScanFrom(data, end, p + 1, true, crc)
      case Incomplete => ScanFrom(data, end, p + 1, sawBad, crc)
  }

  /** What the scan finds is the smallest offset of a valid signature in the scanned part. */
  lemma {:induction false} ScanFindsTheFirst(data: Bytes, end: nat, p: nat, sawBad: bool, crc: Bytes -> u32)
    requires end <= |data|
    ensures var r := ScanFrom(data, end, p, sawBad, crc).found;
      && (r.Some? ==> p <= r.value && r.value + MAGIC_LENGTH <= end && IsSignature(data, r.value, crc))
      && (forall q: nat :: p <= q && q + MAGIC_LENGTH <= end && IsSignature(data, q, crc) ==> r.Some? && r.value <= q)
    decreases if p <= end then end - p else 0
  {
    if p + MAGIC_LENGTH <= end && !IsSignature(data, p, crc) {
      ScanFindsTheFirst(data, end, p + 1, sawBad || (MagicAt(data, p) && SignatureAt(data, p, crc).BadCrc?), crc);
    }
  }

  ghost predicate IsSignature(data: Bytes, p: nat, crc: Bytes -> u32) {
    MagicAt(data, p) && SignatureAt(data, p, crc).Valid?
  }

  /** The result of a scan of the first bytes of a source. */
  function Conclude(outcome: Outcome, truncated: bool): Result<nat, R7zError> {
    if outcome.found.Some? then Success(outcome.found.value)
    else if outcome.sawBad then Failure(R7zError.Crc)
    else if truncated then Failure(ResourceLimitExceeded)
    else Failure(Parse)
  }

  function FindSignatureIn(data: Bytes, limit: nat, crc: Bytes -> u32): Result<nat, R7zError> {
    Conclude(ScanFrom(data, if |data| < limit then |data| else limit, 0, false, crc), |data| > limit)
  }

  /** The whole slice at once. */
  method FindSignatureInSlice(data: Bytes, crc: Bytes -> u32) returns (r: Result<nat, R7zError>)
    ensures r == FindSignatureIn(data, |data|, crc)
  {
    var sawBad := false;
    var offset := 0;
    while offset + MAGIC_LENGTH <= |data|
      invariant ScanFrom(data, |data|, 0, false, crc) == ScanFrom(data, |data|, offset, sawBad, crc)
    {
      if MagicAt(data, offset) && offset + HEADER_LENGTH <= |data| {
        match Validate(data[offset..offset + HEADER_LENGTH], crc) {
          case Valid => return Success(offset);
          case BadCrc => sawBad := true;
          case Incomplete =>
        }
      }
      offset := offset + 1;
    }
    r := if sawBad then Failure(R7zError.Crc) else Failure(Parse);
  }

  /** Which positioned reads fail, by offset and length. */
  type Faults = (nat, nat) -> bool

  ghost function ChunkAt(k: nat, chunkSize: nat): nat {
    if k == 0 then 0 else ChunkAt(k - 1, chunkSize) + chunkSize
  }

  ghost predicate IsChunk(end: nat, chunkSize: nat, offset: nat, count: nat) {
    && (exists k :: ChunkAt(k, chunkSize) == offset) && offset < end
    && count == if end - offset < chunkSize then end - offset else chunkSize
  }

  /** The scan issues this read: a chunk, or the start header at an occurrence of the magic bytes. */
  ghost predicate IsRead(data: Bytes, end: nat, chunkSize: nat, offset: nat, count: nat) {
    || IsChunk(end, chunkSize, offset, count)
    || (count == HEADER_LENGTH && offset + count <= |data| && offset + MAGIC_LENGTH <= end && MagicAt(data, offset))
  }

  /** No valid signature lies before a position. */
  ghost predicate NoneBefore(data: Bytes, offset: nat, crc: Bytes -> u32) {
    forall q: nat :: q + MAGIC_LENGTH <= offset ==> !IsSignature(data, q, crc)
  }

  /** A read that the scan issues fails before a valid signature has been reached. */
  ghost predicate ReadFails(data: Bytes, faults: Faults, end: nat, chunkSize: nat, crc: Bytes -> u32) {
    exists offset: nat, count: nat {:trigger faults(offset, count)} ::
      faults(offset, count) && IsRead(data, end, chunkSize, offset, count) && NoneBefore(data, offset, crc)
  }

  /** Where a scan from the start goes on as a scan from a later position, it has passed no signature. */
  lemma PassedNone(data: Bytes, end: nat, p: nat, sawBad: bool, crc: Bytes -> u32)
    requires p <= end <= |data| && ScanFrom(data, end, 0, false, crc) == ScanFrom(data, end, p, sawBad, crc)
    ensures forall q: nat :: q < p && q + MAGIC_LENGTH <= end ==> !IsSignature(data, q, crc)
  {
    hide ScanFrom, IsSignature;
    ScanFindsTheFirst(data, end, 0, false, crc);
    ScanFindsTheFirst(data, end, p, sawBad, crc);
  }

  /** A failing read that reaches less than a magic beyond where the scan stands comes before any signature. */
  lemma FailsHere(
      data: Bytes, faults: Faults, end: nat, chunkSize: nat, p: nat, sawBad: bool, crc: Bytes -> u32, offset: nat,
      count: nat)
    requires p <= end <= |data| && ScanFrom(data, end, 0, false, crc) == ScanFrom(data, end, p, sawBad, crc)
    requires offset < p + MAGIC_LENGTH && offset <= end
    requires faults(offset, count) && IsRead(data, end, chunkSize, offset, count)
    ensures ReadFails(data, faults, end, chunkSize, crc)
  {
    hide ScanFrom, IsSignature, IsRead;
    PassedNone(data, end, p, sawBad, crc);
    assert NoneBefore(data, offset, crc);
  }

  /** A positioned read of the source. */
  method ReadExactAt(data: Bytes, faults: Faults, offset: nat, count: nat) returns (r: Result<Bytes, R7zError>)
    requires offset + count <= |data|
    ensures r == if faults(offset, count) then Failure(Io) else Success(data[offset..offset + count])
  {
    if faults(offset, count) {
      return Failure(Io);
    }
    r := Success(data[offset..offset + count]);
  }

  method CandidateAt(data: Bytes, faults: Faults, offset: nat, crc: Bytes -> u32)
    returns (r: Result<Candidate, R7zError>)
    ensures r.Success? ==> r.value == SignatureAt(data, offset, crc)
    ensures r.Failure? ==> r.error == Io && faults(offset, HEADER_LENGTH) && offset + HEADER_LENGTH <= |data|
  {
    if offset + HEADER_LENGTH > |data| {
      return Success(Incomplete);
    }
    var header := ReadExactAt(data, faults, offset, HEADER_LENGTH);
    if header.Failure? {
      return Failure(header.error);
    }
    r := Success(Validate(header.value, crc));
  }

  /** A window of the buffer is the same window of the source. */
  lemma WindowOf(data: Bytes, base: nat, buffer: Bytes, i: nat)
    requires base + |buffer| <= |data| && buffer == data[base..base + |buffer|] && i + MAGIC_LENGTH <= |buffer|
    ensures buffer[i..i + MAGIC_LENGTH] == data[base + i..base + i + MAGIC_LENGTH]
  {
    var window := data[base + i..base + i + MAGIC_LENGTH];
    assert forall k :: 0 <= k < MAGIC_LENGTH ==> buffer[i..i + MAGIC_LENGTH][k] == window[k];
  }

  /** Examines every occurrence in the buffer, which holds the source from base on. */
  method ScanBuffer(
    data: Bytes, faults: Faults, end: nat, base: nat, buffer: Bytes, saw: bool, crc: Bytes -> u32,
    ghost chunkSize: nat)
    returns (r: Result<Outcome, R7zError>)
    requires base + |buffer| <= end <= |data| && buffer == data[base..base + |buffer|]
    requires ScanFrom(data, end, 0, false, crc) == ScanFrom(data, end, base, saw, crc)
    ensures r.Failure? ==> r.error == Io && ReadFails(data, faults, end, chunkSize, crc)
    ensures r.Success? && r.value.found.Some? ==> ScanFrom(data, end, base, saw, crc) == r.value
    ensures r.Success? && r.value.found.None? ==>
      ScanFrom(data, end, base, saw, crc)
      == ScanFrom(data, end, if |buffer| < MAGIC_LENGTH then base else base + |buffer| - (MAGIC_LENGTH - 1),
                  r.value.sawBad, crc)
  {
    hide ScanFrom, ReadFails;
    var i, sawBad := 0, saw;
    while i + MAGIC_LENGTH <= |buffer|
      invariant i == 0 || i + MAGIC_LENGTH <= |buffer| + 1
      invariant ScanFrom(data, end, base, saw, crc) == ScanFrom(data, end, base + i, sawBad, crc)
    {
      WindowOf(data, base, buffer, i);
      ScanUnfold(data, end, base + i, sawBad, crc);
      if buffer[i..i + MAGIC_LENGTH] == MAGIC {
        var candidate := CandidateAt(data, faults, base + i, crc);
        if candidate.Failure? {
          FailsHere(data, faults, end, chunkSize, base + i, sawBad, crc, base + i, HEADER_LENGTH);
          return Failure(candidate.error);
        }
        match candidate.value {
          case Valid => return Success(Outcome(Some(base + i), sawBad));
          case BadCrc => sawBad := true;
          case Incomplete =>
        }
      }
      i := i + 1;
    }
    r := Success(Outcome(None, sawBad));
  }

  lemma ScanUnfold(data: Bytes, end: nat, p: nat, sawBad: bool, crc: Bytes -> u32)
    requires p + MAGIC_LENGTH <= end
    ensures !MagicAt(data, p) ==> ScanFrom(data, end, p, sawBad, crc) == ScanFrom(data, end, p + 1, sawBad, crc)
    ensures MagicAt(data, p) ==> ScanFrom(data, end, p, sawBad, crc) == match SignatureAt(data, p, crc)
      case Valid => Outcome(Some(p), sawBad)
      case BadCrc => ScanFrom(data, end, p + 1, true, crc)
      case Incomplete => ScanFrom(data, end, p + 1, sawBad, crc)
  {
  }

  /** The carry holds the last bytes before an offset, too few for an occurrence. */
  ghost predicate Carried(data: Bytes, offset: nat, carry: Bytes) {
    && offset <= |data| && |carry| == (if offset < MAGIC_LENGTH - 1 then offset else MAGIC_LENGTH - 1)
    && carry == data[offset - |carry|..offset]
  }

  lemma CarryIs(data: Bytes, offset: nat, carry: Bytes)
    requires Carried(data, offset, carry)
    ensures |carry| <= offset <= |data| && carry == data[offset - |carry|..offset]
    ensures |carry| == if offset < MAGIC_LENGTH - 1 then offset else MAGIC_LENGTH - 1
  {
  }

  lemma BufferIs(data: Bytes, offset: nat, carry: Bytes, count: nat)
    requires Carried(data, offset, carry) && offset + count <= |data|
    ensures var base := offset - |carry|;
      carry + data[offset..offset + count] == data[base..base + (|carry| + count)]
  {
    Adjacent(data, offset - |carry|, offset, offset + count);
  }

  /** The last five bytes of a buffer, or all of a shorter one. */
  function Tail(buffer: Bytes): Bytes {
    if |buffer| >= MAGIC_LENGTH - 1 then buffer[|buffer| - (MAGIC_LENGTH - 1)..] else buffer
  }

  /** The tail of a buffer is carried, and starts where the examination of the buffer ended. */
  lemma TailIsCarried(data: Bytes, base: nat, buffer: Bytes)
    requires base + |buffer| <= |data| && buffer == data[base..base + |buffer|]
    requires base > 0 ==> |buffer| >= MAGIC_LENGTH - 1
    ensures Carried(data, base + |buffer|, Tail(buffer))
    ensures base + |buffer| - |Tail(buffer)|
         == if |buffer| < MAGIC_LENGTH then base else base + |buffer| - (MAGIC_LENGTH - 1)
  {
  }

  /** Examines one chunk together with the carry, and keeps its last bytes. */
  method ScanChunk(
    data: Bytes, faults: Faults, end: nat, offset: nat, carry: Bytes, chunkLen: nat, saw: bool, crc: Bytes -> u32,
    ghost chunkSize: nat)
    returns (r: Result<Outcome, R7zError>, kept: Bytes)
    requires Carried(data, offset, carry) && offset + chunkLen <= end <= |data|
    requires IsRead(data, end, chunkSize, offset, chunkLen)
    requires ScanFrom(data, end, 0, false, crc) == ScanFrom(data, end, offset - |carry|, saw, crc)
    ensures r.Failure? ==> r.error == Io && ReadFails(data, faults, end, chunkSize, crc)
    ensures r.Success? && r.value.found.Some? ==> ScanFrom(data, end, offset - |carry|, saw, crc) == r.value
    ensures r.Success? && r.value.found.None? ==> Carried(data, offset + chunkLen, kept)
    ensures r.Success? && r.value.found.None? ==>
      ScanFrom(data, end, offset - |carry|, saw, crc)
      == ScanFrom(data, end, offset + chunkLen - |kept|, r.value.sawBad, crc)
  {
    hide ScanFrom, IsRead, Carried, ReadFails, Tail;
    kept := carry;
    CarryIs(data, offset, carry);
    var chunk := ReadExactAt(data, faults, offset, chunkLen);
    if chunk.Failure? {
      FailsHere(data, faults, end, chunkSize, offset - |carry|, saw, crc, offset, chunkLen);
      return Failure(chunk.error), kept;
    }
    var base, buffer := offset - |carry|, carry + chunk.value;
    BufferIs(data, offset, carry, chunkLen);
    r := ScanBuffer(data, faults, end, base, buffer, saw, crc, chunkSize);
    TailIsCarried(data, base, buffer);
    kept := Tail(buffer);
  }

  /**
   * Chunk by chunk, keeping the last five bytes: for every chunk size the result is that of the scan
   * in one go, unless a read fails that comes before any valid signature.
   */
  method FindSignature(data: Bytes, faults: Faults, limit: nat, chunkSize: nat, crc: Bytes -> u32)
    returns (r: Result<nat, R7zError>)
    requires chunkSize >= 1
    ensures r != FindSignatureIn(data, limit, crc) ==>
      r == Failure(Io) && ReadFails(data, faults, if |data| < limit then |data| else limit, chunkSize, crc)
  {
    hide ScanFrom, Conclude, ReadFails;
    var scanLen := if |data| < limit then |data| else limit;
    var offset, carry: Bytes, sawBad := 0, [], false;
    ghost var k := 0;
    assert data[0..0] == [];
    while offset < scanLen
      invariant offset <= scanLen && Carried(data, offset, carry)
      invariant offset < scanLen ==> offset == ChunkAt(k, chunkSize)
      invariant ScanFrom(data, scanLen, 0, false, crc) == ScanFrom(data, scanLen, offset - |carry|, sawBad, crc)
    {
      var chunkLen := if scanLen - offset < chunkSize then scanLen - offset else chunkSize;
      assert IsChunk(scanLen, chunkSize, offset, chunkLen);
      var outcome;
      outcome, carry := ScanChunk(data, faults, scanLen, offset, carry, chunkLen, sawBad, crc, chunkSize);
      if outcome.Failure? {
        return Failure(outcome.error);
      }
      if outcome.value.found.Some? {
        FoundConcludes(outcome.value, |data| > limit);
        return Success(outcome.value.found.value);
      }
      sawBad := outcome.value.sawBad;
      offset, k := offset + chunkLen, k + 1;
    }
    ScanEnds(data, scanLen, offset - |carry|, sawBad, crc);
    NoneConcludes(sawBad, |data| > limit);
    r := if sawBad then Failure(R7zError.Crc)
         else if |data| > limit then Failure(ResourceLimitExceeded)
         else Failure(Parse);
  }

  lemma FoundConcludes(outcome: Outcome, truncated: bool)
    requires outcome.found.Some?
    ensures Conclude(outcome, truncated) == Success(outcome.found.value)
  {
  }

  lemma NoneConcludes(sawBad: bool, truncated: bool)
    ensures Conclude(Outcome(None, sawBad), truncated)
         == if sawBad then Failure(R7zError.Crc)
            else if truncated then Failure(ResourceLimitExceeded) else Failure(Parse)
  {
  }

  lemma ScanEnds(data: Bytes, end: nat, p: nat, sawBad: bool, crc: Bytes -> u32)
    requires p + MAGIC_LENGTH > end
    ensures ScanFrom(data, end, p, sawBad, crc) == Outcome(None, sawBad)
  {
  }

  /** With a limit that covers the source, scanning in chunks is scanning the slice. */
  lemma LimitBeyondTheEnd(data: Bytes, limit: nat, crc: Bytes -> u32)
    requires limit >= |data|
    ensures FindSignatureIn(data, limit, crc) == FindSignatureIn(data, |data|, crc)
  {
  }
}
