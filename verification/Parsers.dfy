/** Byte-level readers and writers of the 7z header: variable-length integers, bitmaps, words. */
module Parsers {
  import opened Wrappers
  import opened Words

  datatype ErrorKind = Eof | Satisfy | Verify | TooLarge

  /** The unread input and a value, or the kind of failure. */
  datatype ParseResult<+T> = Ok(rest: Bytes, value: T) | Err(kind: ErrorKind) {
    predicate IsFailure() {
      Err?
    }

    function PropagateFailure<U>(): ParseResult<U>
      requires Err?
    {
      Err(kind)
    }

    function Extract(): (Bytes, T)
      requires Ok?
    {
      (rest, value)
    }
  }

  // ---------------------------------------------------------------- what a parser reads

  /** The part of s in front of rest. */
  function Eaten(s: Bytes, rest: Bytes): (r: Bytes)
    requires |rest| <= |s|
    ensures |r| == |s| - |rest|
  {
    s[..|s| - |rest|]
  }

  /** The rest is a suffix of the input. */
  ghost predicate SuffixOf(rest: Bytes, s: Bytes) {
    |rest| <= |s| && s == Eaten(s, rest) + rest
  }

  lemma EatenFront(front: Bytes, rest: Bytes)
    ensures SuffixOf(rest, front + rest) && Eaten(front + rest, rest) == front
  {
  }

  lemma EatenTwice(s: Bytes, middle: Bytes, rest: Bytes, tail: Bytes)
    requires SuffixOf(middle, s) && SuffixOf(rest, middle)
    ensures SuffixOf(rest, s)
    ensures Eaten(s, rest) + tail == Eaten(s, middle) + (Eaten(middle, rest) + tail)
  {
    assert s == Eaten(s, middle) + (Eaten(middle, rest) + rest);
    assert Eaten(s, rest) == Eaten(s, middle) + Eaten(middle, rest);
  }

  lemma EatenSplit(s: Bytes, middle: Bytes, rest: Bytes)
    requires SuffixOf(middle, s) && SuffixOf(rest, middle)
    ensures SuffixOf(rest, s) && Eaten(s, rest) == Eaten(s, middle) + Eaten(middle, rest)
  {
    EatenTwice(s, middle, rest, []);
  }

  lemma EatenCons(s: Bytes, rest: Bytes, tail: Bytes)
    requires s != [] && SuffixOf(rest, s[1..])
    ensures SuffixOf(rest, s)
    ensures var whole := Eaten(s, rest) + tail;
      whole != [] && whole[0] == s[0] && whole[1..] == Eaten(s[1..], rest) + tail
  {
    assert Eaten(s, rest) == [s[0]] + Eaten(s[1..], rest);
  }

  lemma EatenNothing(s: Bytes, tail: Bytes)
    ensures SuffixOf(s, s) && Eaten(s, s) + tail == tail
  {
  }

  // ---------------------------------------------------------------- bytes and blocks

  function Byte(s: Bytes): ParseResult<byte> {
    if s == [] then Err(Eof) else Ok(s[1..], s[0])
  }

  function Take(s: Bytes, n: nat): ParseResult<Bytes> {
    if n > |s| then Err(Eof) else Ok(s[n..], s[..n])
  }

  lemma ByteLocal(s: Bytes, tail: Bytes)
    requires s != []
    ensures SuffixOf(s[1..], s) && Byte(Eaten(s, s[1..]) + tail) == Ok(tail, s[0])
  {
    EatenNothing(s[1..], tail);
    EatenCons(s, s[1..], tail);
  }

  lemma TakeLocal(s: Bytes, n: nat, tail: Bytes)
    requires n <= |s|
    ensures SuffixOf(s[n..], s)
    ensures Take(Eaten(s, s[n..]) + tail, n) == Ok(tail, s[..n])
  {
    assert Eaten(s, s[n..]) == s[..n];
    assert (s[..n] + tail)[..n] == s[..n] && (s[..n] + tail)[n..] == tail;
  }

  lemma AppendSplit(a: Bytes, b: Bytes)
    ensures (a + b)[..|a|] == a && (a + b)[|a|..] == b
  {
  }

  /** Two results accept the same input and stop at the same place. */
  ghost predicate SameExtent<T, U>(a: ParseResult<T>, b: ParseResult<U>) {
    (a.Ok? <==> b.Ok?) && (a.Ok? ==> a.rest == b.rest)
  }

  /** A list parser has read done so far and what is left finishes the whole. */
  ghost predicate Continues<T>(whole: ParseResult<seq<T>>, done: seq<T>, left: ParseResult<seq<T>>) {
    match left
    case Ok(rest, more) => whole == Ok(rest, done + more)
    case Err(kind) => whole == Err(kind)
  }

  function Prepend<T>(first: T, left: ParseResult<seq<T>>): ParseResult<seq<T>> {
    match left
    case Ok(rest, more) => Ok(rest, [first] + more)
    case Err(kind) => Err(kind)
  }

  lemma ContinuesAtStart<T>(whole: ParseResult<seq<T>>)
    ensures Continues(whole, [], whole)
  {
    if whole.Ok? {
      assert [] + whole.value == whole.value;
    }
  }

  lemma ContinuesAtEnd<T>(whole: ParseResult<seq<T>>, done: seq<T>, rest: Bytes)
    requires Continues(whole, done, Ok(rest, []))
    ensures whole == Ok(rest, done)
  {
    assert done + [] == done;
  }

  lemma ContinuesStep<T>(whole: ParseResult<seq<T>>, done: seq<T>, first: T, left: ParseResult<seq<T>>)
    requires Continues(whole, done, Prepend(first, left))
    ensures Continues(whole, done + [first], left)
  {
    if left.Ok? {
      assert done + ([first] + left.value) == (done + [first]) + left.value;
    }
  }

  // ---------------------------------------------------------------- variable-length integers

  /** The mask of the first-byte bit that announces one more byte: 1, 2, 4, up to 0x80, or 0 at the end. */
  function Mask(extra: nat): (mask: nat)
    ensures extra > 0 ==> mask > 0
  {
    if extra == 0 then 0 else if extra == 1 then 1 else 2 * Mask(extra - 1)
  }

  /** How many values the last extra levels can carry. */
  function Capacity(extra: nat): nat {
    if extra == 0 then 1 else 0x100 * Capacity(extra - 1)
  }

  /** Bit k of the last extra bits of a byte, counted from the most significant of them. */
  predicate BitFrom(low: nat, extra: nat, k: nat)
    requires k < extra
    decreases k, low
  {
    if k == 0 then low >= Mask(extra)
    else BitFrom(if low >= Mask(extra) then low - Mask(extra) else low, extra - 1, k - 1)
  }

  /** The lowest keep of the last extra bits of a byte. */
  function LowBits(low: nat, extra: nat, keep: nat): (r: nat)
    requires keep <= extra
    decreases extra, low
  {
    if extra == keep then low
    else LowBits(if low >= Mask(extra) then low - Mask(extra) else low, extra - 1, keep)
  }

  lemma FullRange()
    ensures Mask(8) == 0x80 && Capacity(8) == U64_LIMIT
  {
    assert Mask(4) == 8 && Capacity(4) == U32_LIMIT;
    assert Mask(6) == 0x20 && Capacity(6) == 0x1_0000_0000_0000;
  }

  lemma MaskBelowCapacity(extra: nat)
    ensures Mask(extra) <= Capacity(extra)
  {
  }

  /** The low bits of the first byte and the bytes that follow, with extra levels to go. */
  function EncodeFrom(value: nat, extra: nat): (r: (nat, Bytes))
    ensures extra > 0 ==> r.0 < 2 * Mask(extra)
    ensures extra == 0 ==> r == (0, [])
  {
    if extra == 0 then (0, [])
    else if value < Mask(extra) then (value, [])
    else
      var (low, tail) := EncodeFrom(value / 0x100, extra - 1);
      (Mask(extra) + low, [value % 0x100] + tail)
  }

  function EncodeVarint(value: u64): (r: Bytes)
    ensures 1 <= |r|
  {
    FullRange();
    var (first, tail) := EncodeFrom(value, 8);
    [first] + tail
  }

  /**
   * Reads the remaining levels. low is the first byte without the mask bits already seen to be
   * set, so the next bit is set exactly when low is at least its mask.
   */
  function DecodeFrom(low: nat, extra: nat, s: Bytes): (r: ParseResult<nat>)
    ensures r.Ok? ==> r.value < Capacity(extra)
  {
    if extra == 0 then Ok(s, 0)
    else if low < Mask(extra) then
      MaskBelowCapacity(extra);
      Ok(s, low)
    else if s == [] then Err(Eof)
    else
      var (rest, high) :- DecodeFrom(low - Mask(extra), extra - 1, s[1..]);
      Ok(rest, s[0] + 0x100 * high)
  }

  function DecodeVarint(s: Bytes): (r: ParseResult<u64>)
  {
    if s == [] then Err(Eof) else
      FullRange();
      var (rest, value) :- DecodeFrom(s[0], 8, s[1..]);
      Ok(rest, value)
  }

  lemma ConsAppend(b: byte, tail: Bytes, rest: Bytes)
    ensures ([b] + tail + rest)[0] == b && ([b] + tail + rest)[1..] == tail + rest
  {
  }

  lemma {:induction false} DecodeEncodeFrom(value: nat, extra: nat, rest: Bytes)
    requires value < Capacity(extra)
    ensures DecodeFrom(EncodeFrom(value, extra).0, extra, EncodeFrom(value, extra).1 + rest)
         == Ok(rest, value)
  {
    if extra == 0 || value < Mask(extra) {
      assert [] + rest == rest;
    } else {
      ConsAppend(value % 0x100, EncodeFrom(value / 0x100, extra - 1).1, rest);
      DecodeEncodeFrom(value / 0x100, extra - 1, rest);
    }
  }

  /** Decoding what was encoded gives the value back and leaves the rest untouched. */
  lemma DecodeEncode(value: u64, rest: Bytes)
    ensures DecodeVarint(EncodeVarint(value) + rest) == Ok(rest, value)
  {
    FullRange();
    ConsAppend(EncodeFrom(value, 8).0, EncodeFrom(value, 8).1, rest);
    DecodeEncodeFrom(value, 8, rest);
  }

  /** Small values take one byte. */
  lemma OneByteInteger(value: u64, rest: Bytes)
    requires value < 0x80
    ensures DecodeVarint([value] + rest) == Ok(rest, value)
  {
    FullRange();
    ConsAppend(value, [], rest);
  }

  lemma {:induction false} DecodeFromLength(low: nat, extra: nat, s: Bytes)
    requires DecodeFrom(low, extra, s).Ok?
    ensures var r := DecodeFrom(low, extra, s);
      |r.rest| + |EncodeFrom(r.value, extra).1| <= |s|
  {
    if extra > 0 && low >= Mask(extra) {
      DecodeFromLength(low - Mask(extra), extra - 1, s[1..]);
    }
  }

  /** No accepted encoding of a value is shorter than the one the encoder writes. */
  lemma EncodingIsMinimal(s: Bytes)
    requires DecodeVarint(s).Ok?
    ensures var r := DecodeVarint(s); |r.rest| + |EncodeVarint(r.value)| <= |s|
  {
    DecodeFromLength(s[0], 8, s[1..]);
  }

  lemma {:induction false} DecodeFromLocal(low: nat, extra: nat, s: Bytes, tail: Bytes)
    requires DecodeFrom(low, extra, s).Ok?
    ensures var r := DecodeFrom(low, extra, s);
      SuffixOf(r.rest, s) && DecodeFrom(low, extra, Eaten(s, r.rest) + tail) == Ok(tail, r.value)
  {
    if extra > 0 && low >= Mask(extra) {
      DecodeFromLocal(low - Mask(extra), extra - 1, s[1..], tail);
      EatenCons(s, DecodeFrom(low, extra, s).rest, tail);
    } else {
      EatenNothing(s, tail);
    }
  }

  /** A variable-length integer depends only on the bytes it consumes. */
  lemma VarintLocal(s: Bytes, tail: Bytes)
    requires DecodeVarint(s).Ok?
    ensures var r := DecodeVarint(s);
      SuffixOf(r.rest, s) && |r.rest| < |s| && DecodeVarint(Eaten(s, r.rest) + tail) == Ok(tail, r.value)
  {
    DecodeFromLocal(s[0], 8, s[1..], tail);
    EatenCons(s, DecodeVarint(s).rest, tail);
  }

  lemma EncodeFromUnfold(value: nat, extra: nat)
    ensures extra == 0 ==> EncodeFrom(value, extra) == (0, [])
    ensures extra > 0 && value < Mask(extra) ==> EncodeFrom(value, extra) == (value, [])
    ensures extra > 0 && value >= Mask(extra) ==>
      var (low, tail) := EncodeFrom(value / 0x100, extra - 1);
      EncodeFrom(value, extra) == (Mask(extra) + low, [value % 0x100] + tail)
  {
  }

  /** The encoder's loop: one mask bit and one byte per round. */
  method EncodeVarintLoop(input: u64) returns (result: Bytes)
    ensures result == EncodeVarint(input)
  {
    FullRange();
    var value: nat, mask: nat := input, 0x80;
    var first: nat, tail: Bytes := 0, [];
    ghost var extra: nat := 8;
    assert [] + EncodeFrom(input, 8).1 == EncodeFrom(input, 8).1;
    hide EncodeFrom;
    while mask != 0
      invariant mask == Mask(extra)
      invariant var (low, more) := EncodeFrom(value, extra);
        EncodeFrom(input, 8) == (first + low, tail + more)
      decreases mask
    {
      EncodeFromUnfold(value, extra);
      if value < mask {
        first := first + value;
        break;
      }
      ghost var more := EncodeFrom(value / 0x100, extra - 1).1;
      assert tail + ([value % 0x100] + more) == (tail + [value % 0x100]) + more;
      first := first + mask;
      tail := tail + [value % 0x100];
      value := value / 0x100;
      mask := mask / 2;
      extra := extra - 1;
    }
    EncodeFromUnfold(value, extra);
    result := [first] + tail;
  }

  /** What is left to read contributes at this scale to the whole value. */
  ghost predicate Pending(s: Bytes, value: nat, scale: nat, low: nat, extra: nat, rest: Bytes)
    requires s != []
  {
    match DecodeFrom(low, extra, rest)
    case Ok(end, high) => DecodeFrom(s[0], 8, s[1..]) == Ok(end, value + scale * high)
    case Err(kind) => DecodeFrom(s[0], 8, s[1..]) == Err(kind)
  }

  lemma ScaleStep(scale: nat, next: nat, high: nat)
    ensures scale * next >= 0
    ensures scale * (next + 0x100 * high) == scale * next + 0x100 * scale * high
  {
  }

  lemma DecodeFromCons(low: nat, extra: nat, s: Bytes)
    requires extra > 0 && low >= Mask(extra) && s != []
    ensures DecodeFrom(low, extra, s) == match DecodeFrom(low - Mask(extra), extra - 1, s[1..])
      case Ok(rest, high) => Ok(rest, s[0] + 0x100 * high)
      case Err(kind) => Err(kind)
  {
  }

  lemma PendingStep(s: Bytes, value: nat, scale: nat, low: nat, extra: nat, rest: Bytes)
    requires extra > 0 && low >= Mask(extra) && s != [] && rest != []
    requires Pending(s, value, scale, low, extra, rest)
    ensures value + scale * rest[0] >= 0
    ensures Pending(s, value + scale * rest[0], 0x100 * scale, low - Mask(extra), extra - 1, rest[1..])
  {
    hide DecodeFrom;
    DecodeFromCons(low, extra, rest);
    var high := DecodeFrom(low - Mask(extra), extra - 1, rest[1..]);
    ScaleStep(scale, rest[0], if high.Ok? then high.value else 0);
  }

  lemma PendingEnd(s: Bytes, value: nat, scale: nat, low: nat, extra: nat, rest: Bytes)
    requires s != [] && Pending(s, value, scale, low, extra, rest)
    ensures extra == 0 ==> DecodeVarint(s) == Ok(rest, value)
    ensures extra > 0 && low < Mask(extra) ==> DecodeVarint(s) == Ok(rest, value + scale * low)
    ensures extra > 0 && low >= Mask(extra) && rest == [] ==> DecodeVarint(s) == Err(Eof)
  {
  }

  /** The decoder's loop: value bytes arrive least significant first. */
  method DecodeVarintLoop(s: Bytes) returns (r: ParseResult<u64>)
    ensures r == DecodeVarint(s)
  {
    if s == [] {
      return Err(Eof);
    }
    FullRange();
    var value: nat, mask: nat, consumed: nat := 0, 0x80, 1;
    var low: nat, scale: nat := s[0], 1;
    ghost var extra: nat := 8;
    assert Pending(s, value, scale, low, extra, s[1..]);
    hide DecodeFrom, DecodeVarint, Pending;
    while mask != 0
      invariant mask == Mask(extra) && 1 <= consumed <= |s|
      invariant Pending(s, value, scale, low, extra, s[consumed..])
      decreases mask
    {
      PendingEnd(s, value, scale, low, extra, s[consumed..]);
      if low < mask {
        value := value + scale * low;
        return Ok(s[consumed..], value);
      }
      if consumed >= |s| {
        return Err(Eof);
      }
      PendingStep(s, value, scale, low, extra, s[consumed..]);
      assert s[consumed..][1..] == s[consumed + 1..];
      value := value + scale * s[consumed];
      scale := 0x100 * scale;
      low := low - mask;
      consumed := consumed + 1;
      mask := mask / 2;
      extra := extra - 1;
    }
    PendingEnd(s, value, scale, low, extra, s[consumed..]);
    r := Ok(s[consumed..], value);
  }

  // ---------------------------------------------------------------- property tags

  const END: byte := 0x00
  const HEADER: byte := 0x01
  const ARCHIVE_PROPERTIES: byte := 0x02
  const ADDITIONAL_STREAMS_INFO: byte := 0x03
  const MAIN_STREAMS_INFO: byte := 0x04
  const FILES_INFO: byte := 0x05
  const PACK_INFO: byte := 0x06
  const UNPACK_INFO: byte := 0x07
  const SUBSTREAMS_INFO: byte := 0x08
  const SIZE: byte := 0x09
  const CRC: byte := 0x0A
  const FOLDER: byte := 0x0B
  const CODERS_UNPACK_SIZE: byte := 0x0C
  const NUM_UNPACK_STREAM: byte := 0x0D
  const EMPTY_STREAM: byte := 0x0E
  const EMPTY_FILE: byte := 0x0F
  const ANTI: byte := 0x10
  const NAME: byte := 0x11
  const C_TIME: byte := 0x12
  const A_TIME: byte := 0x13
  const M_TIME: byte := 0x14
  const ATTRIBUTES: byte := 0x15
  const START_POS: byte := 0x18
  const LAST_PROPERTY: byte := 0x19

  function Tag(s: Bytes): ParseResult<byte> {
    if s == [] then Err(Eof) else if s[0] > LAST_PROPERTY then Err(Satisfy) else Ok(s[1..], s[0])
  }

  lemma TagLocal(s: Bytes, tail: Bytes)
    requires Tag(s).Ok?
    ensures SuffixOf(s[1..], s) && Tag(Eaten(s, s[1..]) + tail) == Ok(tail, s[0])
  {
    ByteLocal(s, tail);
    EatenCons(s, s[1..], tail);
  }

  /** A size and that many bytes. */
  function SizedBlock(s: Bytes): (r: ParseResult<Bytes>)
    ensures r.Ok? ==> |r.rest| < |s|
  {
    var (input, size) :- DecodeVarint(s);
    VarintLocal(s, []);
    Take(input, size)
  }

  lemma SizedBlockLocal(s: Bytes, tail: Bytes)
    requires SizedBlock(s).Ok?
    ensures var r := SizedBlock(s);
      SuffixOf(r.rest, s) && SizedBlock(Eaten(s, r.rest) + tail) == Ok(tail, r.value)
  {
    var size, rest := DecodeVarint(s), SizedBlock(s).rest;
    VarintLocal(s, Eaten(size.rest, rest) + tail);
    TakeLocal(size.rest, size.value, tail);
    EatenTwice(s, size.rest, rest, tail);
  }

  lemma SizedBlockRoundTrip(block: Bytes, rest: Bytes)
    requires |block| < U64_LIMIT
    ensures SizedBlock(EncodeVarint(|block|) + block + rest) == Ok(rest, block)
  {
    DecodeEncode(|block|, block + rest);
    assert EncodeVarint(|block|) + block + rest == EncodeVarint(|block|) + (block + rest);
    AppendSplit(block, rest);
  }

  // ---------------------------------------------------------------- lists of integers

  function DecodeMany(s: Bytes, n: nat): (r: ParseResult<seq<u64>>)
    ensures r.Ok? ==> |r.value| == n && |r.rest| + n <= |s|
    decreases n
  {
    if n == 0 then Ok(s, []) else
      var (input, first) :- DecodeVarint(s);
      VarintLocal(s, []);
      var (rest, more) :- DecodeMany(input, n - 1);
      Ok(rest, [first] + more)
  }

  function EncodeMany(values: seq<u64>): Bytes {
    if values == [] then [] else EncodeVarint(values[0]) + EncodeMany(values[1..])
  }

  lemma EncodeManyUnfold(values: seq<u64>)
    ensures EncodeMany(values) == if values == [] then [] else EncodeVarint(values[0]) + EncodeMany(values[1..])
  {
  }

  lemma DecodeManyUnfold(s: Bytes, n: nat)
    requires n > 0
    ensures DecodeVarint(s).Err? ==> DecodeMany(s, n) == Err(DecodeVarint(s).kind)
    ensures DecodeVarint(s).Ok?
      ==> DecodeMany(s, n) == Prepend(DecodeVarint(s).value, DecodeMany(DecodeVarint(s).rest, n - 1))
  {
    hide DecodeVarint;
  }

  lemma NoneDecoded(s: Bytes)
    ensures DecodeMany(s, 0) == Ok(s, [])
  {
  }

  lemma ManyCons(first: u64, next: Bytes, more: seq<u64>, rest: Bytes)
    requires DecodeMany(next, |more|) == Ok(rest, more)
    ensures DecodeMany(EncodeVarint(first) + next, |more| + 1) == Ok(rest, [first] + more)
  {
    DecodeEncode(first, next);
  }

  lemma {:induction false} ManyRoundTrip(values: seq<u64>, rest: Bytes)
    ensures DecodeMany(EncodeMany(values) + rest, |values|) == Ok(rest, values)
  {
    hide EncodeMany, DecodeMany, EncodeVarint;
    EncodeManyUnfold(values);
    if values == [] {
      NoneDecoded(rest);
      assert [] + rest == rest;
    } else {
      ManyRoundTrip(values[1..], rest);
      ManyCons(values[0], EncodeMany(values[1..]) + rest, values[1..], rest);
      assert EncodeMany(values) + rest == EncodeVarint(values[0]) + (EncodeMany(values[1..]) + rest);
      assert values == [values[0]] + values[1..];
    }
  }

  lemma {:induction false} ManyLocal(s: Bytes, n: nat, tail: Bytes)
    requires DecodeMany(s, n).Ok?
    ensures var r := DecodeMany(s, n);
      SuffixOf(r.rest, s) && DecodeMany(Eaten(s, r.rest) + tail, n) == Ok(tail, r.value)
    decreases n
  {
    if n == 0 {
      EatenNothing(s, tail);
    } else {
      var first, rest := DecodeVarint(s), DecodeMany(s, n).rest;
      ManyLocal(first.rest, n - 1, tail);
      VarintLocal(s, Eaten(first.rest, rest) + tail);
      EatenTwice(s, first.rest, rest, tail);
    }
  }

  method DecodeManyLoop(s: Bytes, n: nat) returns (r: ParseResult<seq<u64>>)
    ensures r == DecodeMany(s, n)
  {
    var input, values := s, [];
    ContinuesAtStart(DecodeMany(s, n));
    for i := 0 to n
      invariant Continues(DecodeMany(s, n), values, DecodeMany(input, n - i))
    {
      var next := DecodeVarintLoop(input);
      if next.Err? {
        return Err(next.kind);
      }
      ContinuesStep(DecodeMany(s, n), values, next.value, DecodeMany(next.rest, n - i - 1));
      values := values + [next.value];
      input := next.rest;
    }
    ContinuesAtEnd(DecodeMany(s, n), values, input);
    r := Ok(input, values);
  }
}
