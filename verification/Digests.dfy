/** Bitmaps, little-endian words and the digest blocks built from them. */
module Digests {
  import opened Wrappers
  import opened Words
  import opened Parsers

  // ---------------------------------------------------------------- bitmaps

  function CeilDiv8(n: nat): nat {
    (n + 7) / 8
  }

  /** Bits are numbered from the most significant end; bits past the bitmap are clear. */
  predicate BitmapIsSet(bitmap: Bytes, index: nat) {
    index / 8 < |bitmap| && BitFrom(bitmap[index / 8], 8, index % 8)
  }

  /** The flags at positions from, from + 1, ... packed into extra bits. */
  function ByteFrom(values: seq<bool>, from: nat, extra: nat): (b: nat)
    ensures extra == 0 ==> b == 0
    ensures extra > 0 ==> b < 2 * Mask(extra)
    decreases extra
  {
    if extra == 0 then 0
    else (if from < |values| && values[from] then Mask(extra) else 0) + ByteFrom(values, from + 1, extra - 1)
  }

  function Bitmap(values: seq<bool>): (r: Bytes)
    ensures |r| == CeilDiv8(|values|)
  {
    FullRange();
    seq(CeilDiv8(|values|), j requires j >= 0 => FullRange(); ByteFrom(values, 8 * j, 8))
  }

  lemma {:induction false} ByteBit(values: seq<bool>, from: nat, extra: nat, k: nat)
    requires k < extra
    ensures BitFrom(ByteFrom(values, from, extra), extra, k)
            <==> from + k < |values| && values[from + k]
    decreases k
  {
    if k > 0 {
      ByteBit(values, from + 1, extra - 1, k - 1);
    }
  }

  /** Reading a packed bitmap gives back every flag, and nothing past the end. */
  lemma BitmapRoundTrip(values: seq<bool>, index: nat)
    ensures BitmapIsSet(Bitmap(values), index) <==> index < |values| && values[index]
  {
    if index / 8 < CeilDiv8(|values|) {
      ByteBit(values, 8 * (index / 8), 8, index % 8);
    }
  }

  function OrBit(b: nat, extra: nat, k: nat): nat
    requires k < extra
  {
    if BitFrom(b, extra, k) then b else b + Mask(extra - k)
  }

  lemma ByteUnfold(values: seq<bool>, from: nat, extra: nat)
    requires extra > 0
    ensures ByteFrom(values, from, extra)
         == (if from < |values| && values[from] then Mask(extra) else 0) + ByteFrom(values, from + 1, extra - 1)
  {
  }

  lemma {:induction false} ByteGrows(values: seq<bool>, n: nat, from: nat, extra: nat)
    requires n < |values|
    ensures ByteFrom(values[..n + 1], from, extra) == ByteFrom(values[..n], from, extra)
      + if from <= n < from + extra && values[n] then Mask(extra - (n - from)) else 0
    decreases extra
  {
    if extra > 0 {
      hide ByteFrom, Mask;
      ByteGrows(values, n, from + 1, extra - 1);
      ByteUnfold(values[..n + 1], from, extra);
      ByteUnfold(values[..n], from, extra);
      if from < n {
        assert values[..n + 1][from] == values[..n][from];
      } else if from == n {
        assert values[..n + 1][from] == values[n] && extra - (n - from) == extra;
      }
    }
  }

  /** The bitmap after the first n flags have been processed. */
  ghost function PartialBitmap(values: seq<bool>, n: nat): (r: seq<nat>)
    requires n <= |values|
    ensures |r| == CeilDiv8(|values|)
  {
    seq(CeilDiv8(|values|), j requires j >= 0 => ByteFrom(values[..n], 8 * j, 8))
  }

  lemma PartialEmpty(values: seq<bool>)
    ensures PartialBitmap(values, 0) == seq(CeilDiv8(|values|), _ => 0)
  {
    assert values[..0] == [];
    forall j: nat ensures ByteFrom([], 8 * j, 8) == 0 {
      EmptyByte(8 * j, 8);
    }
  }

  lemma SetBit(values: seq<bool>, n: nat, from: nat, extra: nat)
    requires from <= n < from + extra && n < |values|
    ensures ByteFrom(values[..n + 1], from, extra)
         == if values[n] then OrBit(ByteFrom(values[..n], from, extra), extra, n - from)
            else ByteFrom(values[..n], from, extra)
  {
    ByteGrows(values, n, from, extra);
    ByteBit(values[..n], from, extra, n - from);
  }

  lemma ByteStep(values: seq<bool>, n: nat, j: nat)
    requires n < |values|
    ensures ByteFrom(values[..n + 1], 8 * j, 8)
         == if j != n / 8 || !values[n] then ByteFrom(values[..n], 8 * j, 8)
            else OrBit(ByteFrom(values[..n], 8 * j, 8), 8, n % 8)
  {
    hide ByteFrom, OrBit;
    if j == n / 8 {
      SetBit(values, n, 8 * j, 8);
    } else {
      ByteGrows(values, n, 8 * j, 8);
    }
  }

  lemma PartialStep(values: seq<bool>, n: nat)
    requires n < |values|
    ensures n / 8 < CeilDiv8(|values|)
    ensures var before := PartialBitmap(values, n);
      PartialBitmap(values, n + 1)
      == if values[n] then before[n / 8 := OrBit(before[n / 8], 8, n % 8)] else before
  {
    hide ByteFrom, OrBit;
    var before, after := PartialBitmap(values, n), PartialBitmap(values, n + 1);
    forall j: nat | j < CeilDiv8(|values|)
      ensures after[j] == if j != n / 8 || !values[n] then before[j] else OrBit(before[j], 8, n % 8)
    {
      ByteStep(values, n, j);
    }
  }

  /** Bits are set in place, one flag at a time. */
  method BoolsToBytes(values: seq<bool>) returns (r: Bytes)
    ensures r == Bitmap(values)
  {
    hide PartialBitmap, OrBit, Bitmap, CeilDiv8;
    var out: seq<nat> := seq(CeilDiv8(|values|), _ => 0);
    PartialEmpty(values);
    for index := 0 to |values|
      invariant out == PartialBitmap(values, index)
    {
      PartialStep(values, index);
      if values[index] {
        out := out[index / 8 := OrBit(out[index / 8], 8, index % 8)];
      }
    }
    PartialAll(values);
    r := out;
  }

  lemma PartialAll(values: seq<bool>)
    ensures PartialBitmap(values, |values|) == Bitmap(values)
  {
    hide ByteFrom, CeilDiv8;
    assert values[..|values|] == values;
  }

  lemma {:induction false} EmptyByte(from: nat, extra: nat)
    ensures ByteFrom([], from, extra) == 0
    decreases extra
  {
    if extra > 0 {
      EmptyByte(from + 1, extra - 1);
    }
  }

  // ---------------------------------------------------------------- little-endian words

  function LeBytes(value: nat, width: nat): (r: Bytes)
    ensures |r| == width
  {
    if width == 0 then [] else [value % 0x100] + LeBytes(value / 0x100, width - 1)
  }

  function FromLe(s: Bytes): (r: nat)
    ensures r < Capacity(|s|)
  {
    if s == [] then 0 else s[0] + 0x100 * FromLe(s[1..])
  }

  lemma {:induction false} LeRoundTrip(value: nat, width: nat)
    requires value < Capacity(width)
    ensures FromLe(LeBytes(value, width)) == value
  {
    if width > 0 {
      LeRoundTrip(value / 0x100, width - 1);
      assert LeBytes(value, width)[1..] == LeBytes(value / 0x100, width - 1);
    }
  }

  lemma WordRanges()
    ensures Capacity(4) == U32_LIMIT && Capacity(8) == U64_LIMIT
  {
    assert Capacity(2) == U16_LIMIT;
    FullRange();
  }

  function LeU32(s: Bytes): ParseResult<u32> {
    WordRanges();
    if |s| < 4 then Err(Eof) else Ok(s[4..], FromLe(s[..4]))
  }

  // ---------------------------------------------------------------- digest values

  function Flags(allDefined: byte, bitmap: Bytes, num: nat): seq<bool> {
    seq(num, i requires 0 <= i < num => allDefined != 0 || BitmapIsSet(bitmap, i))
  }

  function CountTrue(flags: seq<bool>): (n: nat)
    ensures n <= |flags|
  {
    if flags == [] then 0 else (if flags[0] then 1 else 0) + CountTrue(flags[1..])
  }

  function OptionalCrc(s: Bytes, defined: bool): (r: ParseResult<Option<u32>>)
    ensures r.Ok? ==> |r.rest| <= |s|
  {
    if defined then
      var (rest, crc) :- LeU32(s);
      Ok(rest, Some(crc))
    else Ok(s, None)
  }

  /** One word for each defined position. */
  function CrcsFrom(s: Bytes, flags: seq<bool>): (r: ParseResult<seq<Option<u32>>>)
    ensures r.Ok? ==> |r.value| == |flags| && |r.rest| <= |s|
  {
    if flags == [] then Ok(s, []) else
      var (input, first) :- OptionalCrc(s, flags[0]);
      var (rest, more) :- CrcsFrom(input, flags[1..]);
      Ok(rest, [first] + more)
  }

  /** The words read are exactly four bytes for each defined position. */
  lemma {:induction false} CrcsConsume(s: Bytes, flags: seq<bool>)
    ensures CrcsFrom(s, flags).Ok? <==> 4 * CountTrue(flags) <= |s|
    ensures CrcsFrom(s, flags).Ok? ==> CrcsFrom(s, flags).rest == s[4 * CountTrue(flags)..]
    ensures CrcsFrom(s, flags).Err? ==> CrcsFrom(s, flags).kind == Eof
  {
    if flags != [] {
      var next := if flags[0] && |s| >= 4 then s[4..] else s;
      CrcsConsume(next, flags[1..]);
    }
  }

  lemma OptionalCrcLocal(s: Bytes, defined: bool, tail: Bytes)
    requires OptionalCrc(s, defined).Ok?
    ensures var r := OptionalCrc(s, defined);
      SuffixOf(r.rest, s) && OptionalCrc(Eaten(s, r.rest) + tail, defined) == Ok(tail, r.value)
  {
    if defined {
      TakeLocal(s, 4, tail);
    } else {
      EatenNothing(s, tail);
    }
  }

  lemma {:induction false} CrcsLocal(s: Bytes, flags: seq<bool>, tail: Bytes)
    requires CrcsFrom(s, flags).Ok?
    ensures var r := CrcsFrom(s, flags);
      SuffixOf(r.rest, s) && CrcsFrom(Eaten(s, r.rest) + tail, flags) == Ok(tail, r.value)
  {
    if flags == [] {
      EatenNothing(s, tail);
    } else {
      var next, rest := OptionalCrc(s, flags[0]).rest, CrcsFrom(s, flags).rest;
      CrcsLocal(next, flags[1..], tail);
      OptionalCrcLocal(s, flags[0], Eaten(next, rest) + tail);
      EatenTwice(s, next, rest, tail);
    }
  }

  /** The all-defined byte and the bitmap that follows when it is zero. */
  function DigestHead(s: Bytes, num: nat): (r: ParseResult<seq<bool>>)
    ensures r.Ok? ==> |r.value| == num && |r.rest| < |s|
  {
    var (input, allDefined) :- Byte(s);
    if allDefined == 0 then
      var (rest, bitmap) :- Take(input, CeilDiv8(num));
      Ok(rest, Flags(allDefined, bitmap, num))
    else
      Ok(input, Flags(allDefined, [], num))
  }

  /** parse_digests of the pack and folder tables. */
  function ParseDigests(s: Bytes, num: nat): (r: ParseResult<seq<Option<u32>>>)
    ensures r.Ok? ==> |r.value| == num && |r.rest| < |s|
  {
    var (rest, flags) :- DigestHead(s, num);
    CrcsFrom(rest, flags)
  }

  /** parse_stream_digests of the substream table, which checks the total size first. */
  function ParseStreamDigests(s: Bytes, num: nat): (r: ParseResult<seq<Option<u32>>>)
    ensures r.Ok? ==> |r.value| == num && |r.rest| < |s|
  {
    var (rest, flags) :- DigestHead(s, num);
    StreamCrcs(rest, flags)
  }

  function StreamCrcs(s: Bytes, flags: seq<bool>): (r: ParseResult<seq<Option<u32>>>)
    ensures r.Ok? ==> |r.value| == |flags| && |r.rest| <= |s|
  {
    if 4 * CountTrue(flags) >= U64_LIMIT then Err(TooLarge)
    else if 4 * CountTrue(flags) > |s| then Err(Eof)
    else CrcsFrom(s, flags)
  }

  /** The allocation-free walk over the same block. */
  function ScanDigests(s: Bytes, num: nat): (r: ParseResult<()>)
    ensures r.Ok? ==> |r.rest| < |s|
  {
    var (input, allDefined) :- Byte(s);
    if allDefined != 0 then
      if 4 * num >= U64_LIMIT then Err(TooLarge) else
      var (rest, _) :- Take(input, 4 * num);
      Ok(rest, ())
    else
      var (input, bitmap) :- Take(input, CeilDiv8(num));
      var count := CountTrue(Flags(0, bitmap, num));
      if 4 * count >= U64_LIMIT then Err(TooLarge) else
      var (rest, _) :- Take(input, 4 * count);
      Ok(rest, ())
  }

  lemma {:induction false} CountAll(flags: seq<bool>)
    requires forall i :: 0 <= i < |flags| ==> flags[i]
    ensures CountTrue(flags) == |flags|
  {
    if flags != [] {
      CountAll(flags[1..]);
    }
  }

  /** The scanner and both parsers agree on every digest block shorter than the address space. */
  lemma DigestScanAgrees(s: Bytes, num: nat)
    requires |s| < U64_LIMIT
    ensures SameExtent(ScanDigests(s, num), ParseDigests(s, num))
    ensures SameExtent(ScanDigests(s, num), ParseStreamDigests(s, num))
  {
    if s != [] {
      if s[0] != 0 {
        CountAll(Flags(s[0], [], num));
        CrcsConsume(s[1..], Flags(s[0], [], num));
      } else if CeilDiv8(num) < |s| {
        var bitmap, rest := s[1..][..CeilDiv8(num)], s[1..][CeilDiv8(num)..];
        CrcsConsume(rest, Flags(0, bitmap, num));
      }
    }
  }

  lemma DigestHeadLocal(s: Bytes, num: nat, tail: Bytes)
    requires DigestHead(s, num).Ok?
    ensures var r := DigestHead(s, num);
      && SuffixOf(r.rest, s) && |r.rest| < |s|
      && DigestHead(Eaten(s, r.rest) + tail, num) == Ok(tail, r.value)
  {
    var rest := DigestHead(s, num).rest;
    if s[0] == 0 {
      TakeLocal(s[1..], CeilDiv8(num), tail);
    } else {
      EatenNothing(s[1..], tail);
    }
    EatenCons(s, rest, tail);
  }

  lemma DigestsLocal(s: Bytes, num: nat, tail: Bytes)
    requires ParseDigests(s, num).Ok?
    ensures var r := ParseDigests(s, num);
      SuffixOf(r.rest, s) && |r.rest| < |s| && ParseDigests(Eaten(s, r.rest) + tail, num) == Ok(tail, r.value)
  {
    var head, rest := DigestHead(s, num), ParseDigests(s, num).rest;
    CrcsLocal(head.rest, head.value, tail);
    DigestHeadLocal(s, num, Eaten(head.rest, rest) + tail);
    EatenTwice(s, head.rest, rest, tail);
  }

  lemma StreamDigestsLocal(s: Bytes, num: nat, tail: Bytes)
    requires ParseStreamDigests(s, num).Ok?
    ensures var r := ParseStreamDigests(s, num);
      && SuffixOf(r.rest, s) && |r.rest| < |s|
      && ParseStreamDigests(Eaten(s, r.rest) + tail, num) == Ok(tail, r.value)
  {
    var head, rest := DigestHead(s, num), ParseStreamDigests(s, num).rest;
    CrcsLocal(head.rest, head.value, tail);
    CrcsConsume(Eaten(head.rest, rest) + tail, head.value);
    DigestHeadLocal(s, num, Eaten(head.rest, rest) + tail);
    EatenTwice(s, head.rest, rest, tail);
  }

  // ---------------------------------------------------------------- writing digests

  function Defined<T>(values: seq<Option<T>>): (r: seq<bool>)
    ensures |r| == |values|
  {
    seq(|values|, i requires 0 <= i < |values| => values[i].Some?)
  }

  predicate AnyDefined<T>(values: seq<Option<T>>) {
    exists i :: 0 <= i < |values| && values[i].Some?
  }

  predicate AllDefined<T>(values: seq<Option<T>>) {
    forall i :: 0 <= i < |values| ==> values[i].Some?
  }

  function CrcBytes(crcs: seq<Option<u32>>): Bytes {
    if crcs == [] then []
    else (if crcs[0].Some? then LeBytes(crcs[0].value, 4) else []) + CrcBytes(crcs[1..])
  }

  /** The block after the CRC tag. */
  function DigestBlock(crcs: seq<Option<u32>>): Bytes {
    (if AllDefined(crcs) then [1] else [0] + Bitmap(Defined(crcs))) + CrcBytes(crcs)
  }

  lemma CrcsCons(crc: Option<u32>, next: Bytes, flags: seq<bool>, crcs: seq<Option<u32>>, rest: Bytes)
    requires CrcsFrom(next, flags) == Ok(rest, crcs)
    ensures CrcsFrom((if crc.Some? then LeBytes(crc.value, 4) else []) + next, [crc.Some?] + flags)
         == Ok(rest, [crc] + crcs)
  {
    assert ([crc.Some?] + flags)[1..] == flags;
    if crc.Some? {
      WordRoundTrip(crc.value, next);
    } else {
      assert [] + next == next;
    }
  }

  lemma CrcBytesUnfold(crcs: seq<Option<u32>>)
    requires crcs != []
    ensures CrcBytes(crcs) == (if crcs[0].Some? then LeBytes(crcs[0].value, 4) else []) + CrcBytes(crcs[1..])
  {
  }

  lemma NoCrcs(rest: Bytes)
    ensures CrcBytes([]) == [] && Defined<u32>([]) == [] && CrcsFrom(rest, []) == Ok(rest, [])
  {
  }

  lemma {:induction false} CrcsRoundTrip(crcs: seq<Option<u32>>, rest: Bytes)
    ensures CrcsFrom(CrcBytes(crcs) + rest, Defined(crcs)) == Ok(rest, crcs)
  {
    hide LeBytes, CrcsFrom, CrcBytes;
    if crcs == [] {
      NoCrcs(rest);
      assert CrcBytes(crcs) + rest == rest;
    } else {
      var crc, next := crcs[0], CrcBytes(crcs[1..]) + rest;
      CrcsRoundTrip(crcs[1..], rest);
      CrcsCons(crc, next, Defined(crcs[1..]), crcs[1..], rest);
      CrcBytesUnfold(crcs);
      assert Defined(crcs) == [crc.Some?] + Defined(crcs[1..]);
      Grouped(if crc.Some? then LeBytes(crc.value, 4) else [], CrcBytes(crcs[1..]), rest);
      assert crcs == [crc] + crcs[1..];
    }
  }

  lemma WordRoundTrip(value: u32, rest: Bytes)
    ensures LeU32(LeBytes(value, 4) + rest) == Ok(rest, value)
  {
    WordRanges();
    LeRoundTrip(value, 4);
    AppendSplit(LeBytes(value, 4), rest);
  }

  lemma DefinedFlags<T>(values: seq<Option<T>>)
    ensures Flags(0, Bitmap(Defined(values)), |values|) == Defined(values)
    ensures AllDefined(values) ==> Flags(1, [], |values|) == Defined(values)
  {
    forall i | 0 <= i < |values|
      ensures BitmapIsSet(Bitmap(Defined(values)), i) == Defined(values)[i]
    {
      BitmapRoundTrip(Defined(values), i);
    }
  }

  lemma DigestHeadRoundTrip(crcs: seq<Option<u32>>, rest: Bytes)
    ensures var head := if AllDefined(crcs) then [1] else [0] + Bitmap(Defined(crcs));
      DigestHead(head + rest, |crcs|) == Ok(rest, Defined(crcs))
  {
    DefinedFlags(crcs);
    if AllDefined(crcs) {
      assert ([1] + rest)[1..] == rest;
    } else {
      var bitmap := Bitmap(Defined(crcs));
      ConsAppend(0, bitmap, rest);
      AppendSplit(bitmap, rest);
    }
  }

  lemma DigestBlockSplit(crcs: seq<Option<u32>>, rest: Bytes)
    ensures DigestHead(DigestBlock(crcs) + rest, |crcs|) == Ok(CrcBytes(crcs) + rest, Defined(crcs))
  {
    hide DigestHead, CrcBytes, Bitmap, Defined, AllDefined;
    var head := if AllDefined(crcs) then [1] else [0] + Bitmap(Defined(crcs));
    DigestHeadRoundTrip(crcs, CrcBytes(crcs) + rest);
    Grouped(head, CrcBytes(crcs), rest);
  }

  /** Reading a written digest block gives back every optional CRC. */
  lemma DigestRoundTrip(crcs: seq<Option<u32>>, rest: Bytes)
    ensures ParseDigests(DigestBlock(crcs) + rest, |crcs|) == Ok(rest, crcs)
  {
    DigestBlockSplit(crcs, rest);
    CrcsRoundTrip(crcs, rest);
  }

  lemma StreamDigestRoundTrip(crcs: seq<Option<u32>>, rest: Bytes)
    requires |crcs| < 0x1000_0000
    ensures ParseStreamDigests(DigestBlock(crcs) + rest, |crcs|) == Ok(rest, crcs)
  {
    DigestBlockSplit(crcs, rest);
    CrcsRoundTrip(crcs, rest);
    CrcsConsume(CrcBytes(crcs) + rest, Defined(crcs));
  }
}
