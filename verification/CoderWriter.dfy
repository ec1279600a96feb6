/** Folder blocks as the archive writer emits them, and what parsing them gives back. */
module CoderWriter {
  import opened Wrappers
  import opened Words
  import opened Folders
  import opened Parsers
  import opened FolderCodec
  import opened ChainPlans
  import Methods

  // ---------------------------------------------------------------- one coder

  /** Coders with one stream on either side are written in the short form. */
  predicate IsSimple(coder: CoderInfo) {
    && coder.numInStreams == 1 && coder.numOutStreams == 1
    && |coder.codecId| <= 15
    && (coder.properties.Some? ==> |coder.properties.value| < U64_LIMIT)
  }

  function PropertyBytes(properties: Option<Bytes>): Bytes
    requires properties.Some? ==> |properties.value| < U64_LIMIT
  {
    if properties.Some? then EncodeVarint(|properties.value|) + properties.value else []
  }

  function SimpleFlags(coder: CoderInfo): byte
    requires |coder.codecId| <= 15
  {
    |coder.codecId| + if coder.properties.Some? then 0x20 else 0
  }

  function SimpleCoder(coder: CoderInfo): Bytes
    requires IsSimple(coder)
  {
    [SimpleFlags(coder)] + coder.codecId + PropertyBytes(coder.properties)
  }

  lemma FlagBits(size: nat, properties: bool)
    requires size <= 15
    ensures var flags := size + if properties then 0x20 else 0;
      IdSize(flags) == size && !IsComplex(flags) && (HasProperties(flags) <==> properties)
  {
    FullRange();
    var flags := size + if properties then 0x20 else 0;
    assert Mask(7) == 0x40 && Mask(6) == 0x20 && Mask(5) == 0x10;
    assert LowBits(flags, 7, 4) == LowBits(flags, 6, 4);
    assert LowBits(flags, 6, 4) == LowBits(size, 5, 4) == size;
    assert BitFrom(flags, 7, 1) == BitFrom(flags, 6, 0);
    assert BitFrom(flags, 8, 3) == BitFrom(flags, 7, 2) == BitFrom(flags, 6, 1) == BitFrom(size, 5, 0);
  }

  lemma PropertiesRoundTrip(properties: Option<Bytes>, rest: Bytes)
    requires properties.Some? ==> |properties.value| < U64_LIMIT
    ensures ParseProperties(PropertyBytes(properties) + rest, properties.Some?) == Ok(rest, properties)
  {
    if properties.Some? {
      SizedBlockRoundTrip(properties.value, rest);
    } else {
      assert [] + rest == rest;
    }
  }

  lemma SimpleCoderRoundTrip(coder: CoderInfo, rest: Bytes)
    requires IsSimple(coder)
    ensures ParseCoder(SimpleCoder(coder) + rest) == Ok(rest, coder)
  {
    hide ParseProperties, PropertyBytes, SimpleFlags;
    var flags, id, tail := SimpleFlags(coder), coder.codecId, PropertyBytes(coder.properties) + rest;
    SimpleFlagBits(coder);
    PropertiesRoundTrip(coder.properties, rest);
    assert SimpleCoder(coder) + rest == [flags] + (id + tail);
    assert ([flags] + (id + tail))[1..] == id + tail;
    AppendSplit(id, tail);
  }

  lemma SimpleFlagBits(coder: CoderInfo)
    requires |coder.codecId| <= 15
    ensures var flags := SimpleFlags(coder);
      IdSize(flags) == |coder.codecId| && !IsComplex(flags) && (HasProperties(flags) <==> coder.properties.Some?)
  {
    FlagBits(|coder.codecId|, coder.properties.Some?);
  }

  // ---------------------------------------------------------------- a chain of coders

  ghost predicate AllSimple(coders: seq<CoderInfo>) {
    forall i :: 0 <= i < |coders| ==> IsSimple(coders[i])
  }

  function CodersBytes(coders: seq<CoderInfo>): Bytes
    requires AllSimple(coders)
  {
    if coders == [] then [] else SimpleCoder(coders[0]) + CodersBytes(coders[1..])
  }

  /** The bind pairs (k + 1, k), ... up to but not including last. */
  function PairBytes(k: nat, last: nat): Bytes
    requires k <= last < U64_LIMIT
    decreases last - k
  {
    if k == last then [] else EncodeVarint(k + 1) + EncodeVarint(k) + PairBytes(k + 1, last)
  }

  function ChainBytes(coders: seq<CoderInfo>): Bytes
    requires 1 <= |coders| <= MAX_FOLDER_STREAMS && AllSimple(coders)
  {
    EncodeVarint(|coders|) + CodersBytes(coders) + PairBytes(0, |coders| - 1)
  }

  lemma NoCoders(s: Bytes, counts: Counts)
    ensures ParseCoders(s, 0, counts) == Ok(s, CoderList([], counts))
  {
  }

  lemma {:induction false} CodersRoundTrip(coders: seq<CoderInfo>, counts: Counts, rest: Bytes)
    requires AllSimple(coders)
    requires counts.inputs + |coders| <= MAX_FOLDER_STREAMS && counts.outputs + |coders| <= MAX_FOLDER_STREAMS
    ensures ParseCoders(CodersBytes(coders) + rest, |coders|, counts)
         == Ok(rest, CoderList(coders, Counts(counts.inputs + |coders|, counts.outputs + |coders|)))
  {
    hide ParseCoder, SimpleCoder, ParseCoders;
    if coders == [] {
      NoCoders(rest, counts);
      assert CodersBytes(coders) + rest == rest;
    } else {
      var next := CodersBytes(coders[1..]) + rest;
      SimpleCoderRoundTrip(coders[0], next);
      CodersRoundTrip(coders[1..], Counts(counts.inputs + 1, counts.outputs + 1), rest);
      ParseCodersCons(SimpleCoder(coders[0]) + next, |coders|, counts);
      assert CodersBytes(coders) + rest == SimpleCoder(coders[0]) + next;
      assert coders == [coders[0]] + coders[1..];
    }
  }

  function PairsFrom(k: nat, n: nat): seq<(u64, u64)>
    requires k + n < U64_LIMIT
  {
    seq(n, i requires 0 <= i < n => (k + i + 1, k + i))
  }

  lemma PairRoundTrip(k: nat, counts: Counts, rest: Bytes)
    requires k + 1 < counts.inputs < U64_LIMIT && k < counts.outputs
    ensures ParsePair(EncodeVarint(k + 1) + EncodeVarint(k) + rest, counts) == Ok(rest, (k + 1, k))
  {
    hide DecodeVarint, EncodeVarint;
    DecodeEncode(k + 1, EncodeVarint(k) + rest);
    DecodeEncode(k, rest);
    assert EncodeVarint(k + 1) + EncodeVarint(k) + rest == EncodeVarint(k + 1) + (EncodeVarint(k) + rest);
  }

  lemma PairBytesUnfold(k: nat, last: nat)
    requires k <= last < U64_LIMIT
    ensures k == last ==> PairBytes(k, last) == []
    ensures k < last ==> PairBytes(k, last) == EncodeVarint(k + 1) + EncodeVarint(k) + PairBytes(k + 1, last)
  {
  }

  lemma PairsFromUnfold(k: nat, n: nat)
    requires k + n < U64_LIMIT
    ensures n == 0 ==> PairsFrom(k, n) == []
    ensures n > 0 ==> PairsFrom(k, n) == [((k + 1) as u64, k as u64)] + PairsFrom(k + 1, n - 1)
  {
  }

  lemma ParsePairsUnfold(s: Bytes, n: nat, counts: Counts)
    ensures n == 0 ==> ParsePairs(s, n, counts) == Ok(s, [])
    ensures n > 0 && ParsePair(s, counts).Ok? && ParsePairs(ParsePair(s, counts).rest, n - 1, counts).Ok? ==>
      var pair, more := ParsePair(s, counts), ParsePairs(ParsePair(s, counts).rest, n - 1, counts);
      ParsePairs(s, n, counts) == Ok(more.rest, [pair.value] + more.value)
  {
  }

  lemma {:induction false} PairsRoundTrip(k: nat, last: nat, counts: Counts, rest: Bytes)
    requires k <= last < counts.inputs < U64_LIMIT && last < counts.outputs
    ensures ParsePairs(PairBytes(k, last) + rest, last - k, counts) == Ok(rest, PairsFrom(k, last - k))
    decreases last - k
  {
    hide ParsePair, ParsePairs, PairsFrom, EncodeVarint, PairBytes;
    PairBytesUnfold(k, last);
    PairsFromUnfold(k, last - k);
    ParsePairsUnfold(PairBytes(k, last) + rest, last - k, counts);
    if k == last {
      assert [] + rest == rest;
    } else {
      PairRoundTrip(k, counts, PairBytes(k + 1, last) + rest);
      PairsRoundTrip(k + 1, last, counts, rest);
      Grouped(EncodeVarint(k + 1) + EncodeVarint(k), PairBytes(k + 1, last), rest);
    }
  }

  /** Parsing a written chain gives back its coders, each reading from the one before it. */
  lemma ChainRoundTrip(coders: seq<CoderInfo>, rest: Bytes)
    requires 1 <= |coders| <= MAX_FOLDER_STREAMS && AllSimple(coders)
    ensures ParseFolder(ChainBytes(coders) + rest) == Ok(rest, WrittenChain(coders))
  {
    hide DecodeVarint, EncodeVarint, ParseCoders, CodersBytes, ParsePairs, PairBytes;
    var n, counts := |coders|, Counts(|coders|, |coders|);
    var wiring := PairBytes(0, n - 1) + rest;
    DecodeEncode(n, CodersBytes(coders) + wiring);
    CodersRoundTrip(coders, Counts(0, 0), wiring);
    PairsRoundTrip(0, n - 1, counts, rest);
    assert ChainBytes(coders) + rest == EncodeVarint(n) + (CodersBytes(coders) + wiring);
    assert PairsFrom(0, n - 1) == WrittenChain(coders).bindPairs;
  }

  // ---------------------------------------------------------------- the encoders of the source

  datatype CoderSpec = Copy | Lzma(props: Bytes) | Lzma2(prop: byte) | Ppmd(props: Bytes) | Bcj {
    /** LZMA and PPMd properties are announced as five bytes. */
    predicate Valid() {
      (Lzma? || Ppmd?) ==> |props| == 5
    }

    function Coder(): (r: CoderInfo)
      requires Valid()
      ensures IsSimple(r)
    {
      match this
      case Copy => CoderInfo(Methods.CODEC_COPY, 1, 1, None)
      case Lzma(props) => CoderInfo(Methods.CODEC_LZMA, 1, 1, Some(props))
      case Lzma2(prop) => CoderInfo(Methods.CODEC_LZMA2, 1, 1, Some([prop]))
      case Ppmd(props) => CoderInfo(Methods.CODEC_PPMD, 1, 1, Some(props))
      case Bcj => CoderInfo(Methods.CODEC_BCJ_X86, 1, 1, None)
    }

    function Bytes(): Bytes {
      match this
      case Copy => [0x01, 0x00]
      case Lzma(props) => [0x23, 0x03, 0x01, 0x01] + EncodeVarint(5) + props
      case Lzma2(prop) => [0x21, 0x21] + EncodeVarint(1) + [prop]
      case Ppmd(props) => [0x23, 0x03, 0x04, 0x01] + EncodeVarint(5) + props
      case Bcj => [0x04, 0x03, 0x03, 0x01, 0x03]
    }
  }

  ghost predicate AllValid(specs: seq<CoderSpec>) {
    forall i :: 0 <= i < |specs| ==> specs[i].Valid()
  }

  function Coders(specs: seq<CoderSpec>): (r: seq<CoderInfo>)
    requires AllValid(specs)
    ensures AllSimple(r)
  {
    seq(|specs|, i requires 0 <= i < |specs| => specs[i].Coder())
  }

  lemma SpecIsSimpleCoder(spec: CoderSpec)
    requires spec.Valid()
    ensures spec.Bytes() == SimpleCoder(spec.Coder())
  {
    match spec
    case Copy =>
    case Lzma(props) => assert spec.Bytes() == [0x23] + [0x03, 0x01, 0x01] + (EncodeVarint(5) + props);
    case Lzma2(prop) => assert spec.Bytes() == [0x21] + [0x21] + (EncodeVarint(1) + [prop]);
    case Ppmd(props) => assert spec.Bytes() == [0x23] + [0x03, 0x04, 0x01] + (EncodeVarint(5) + props);
    case Bcj =>
  }

  function AesCoder(props: Bytes): (r: CoderInfo)
    ensures |props| < U64_LIMIT ==> IsSimple(r)
  {
    CoderInfo(Methods.CODEC_AES_256_SHA_256, 1, 1, Some(props))
  }

  lemma CodersBytesAppend(coders: seq<CoderInfo>, coder: CoderInfo)
    requires AllSimple(coders) && IsSimple(coder)
    ensures AllSimple(coders + [coder])
    ensures CodersBytes(coders + [coder]) == CodersBytes(coders) + SimpleCoder(coder)
  {
    hide SimpleCoder;
    if coders != [] {
      CodersBytesAppend(coders[1..], coder);
      assert (coders + [coder])[1..] == coders[1..] + [coder];
    }
  }

  lemma {:induction false} PairBytesAppend(k: nat, last: nat)
    requires k <= last && last + 1 < U64_LIMIT
    ensures PairBytes(k, last + 1) == PairBytes(k, last) + (EncodeVarint(last + 1) + EncodeVarint(last))
    decreases last - k
  {
    hide EncodeVarint, PairBytes;
    PairBytesUnfold(k, last);
    PairBytesUnfold(k, last + 1);
    var pair := EncodeVarint(last + 1) + EncodeVarint(last);
    if k < last {
      PairBytesAppend(k + 1, last);
      Grouped(EncodeVarint(k + 1) + EncodeVarint(k), PairBytes(k + 1, last), pair);
    } else {
      PairBytesUnfold(k + 1, last + 1);
      assert pair + [] == [] + pair;
    }
  }

  /** An encrypted folder: the AES coder first, then the inner coders, each fed by the one before. */
  method EncodeCoderInfoAesThen(inner: seq<CoderSpec>, aesProps: Bytes) returns (bytes: Bytes)
    requires |aesProps| < U64_LIMIT && AllValid(inner) && 1 + |inner| <= MAX_FOLDER_STREAMS
    ensures bytes == ChainBytes([AesCoder(aesProps)] + Coders(inner))
    ensures ParseFolder(bytes) == Ok([], WrittenChain([AesCoder(aesProps)] + Coders(inner)))
  {
    hide EncodeVarint, SimpleCoder, CodersBytes, PairBytes, ParseFolder, CoderSpec.Bytes, WrittenChain;
    var count := EncodeVarint(1 + |inner|);
    ghost var coders := [AesCoder(aesProps)];
    bytes := count + ([0x24] + [0x06, 0xF1, 0x07, 0x01] + EncodeVarint(|aesProps|) + aesProps);
    StartChain(aesProps);
    for i := 0 to |inner|
      invariant coders == [AesCoder(aesProps)] + Coders(inner)[..i] && AllSimple(coders)
      invariant bytes == count + CodersBytes(coders)
    {
      SpecIsSimpleCoder(inner[i]);
      CodersBytesAppend(coders, inner[i].Coder());
      coders := coders + [Coders(inner)[i]];
      bytes := bytes + inner[i].Bytes();
    }
    assert coders == [AesCoder(aesProps)] + Coders(inner);
    ghost var front := bytes;
    NoPairs();
    for outIdx := 0 to |inner|
      invariant bytes == front + PairBytes(0, outIdx)
    {
      PairBytesAppend(0, outIdx);
      bytes := bytes + (EncodeVarint(outIdx + 1) + EncodeVarint(outIdx));
    }
    ChainRoundTrip(coders, []);
    assert bytes + [] == bytes;
  }

  lemma StartChain(aesProps: Bytes)
    requires |aesProps| < U64_LIMIT
    ensures CodersBytes([AesCoder(aesProps)])
         == [0x24] + [0x06, 0xF1, 0x07, 0x01] + EncodeVarint(|aesProps|) + aesProps
  {
    hide EncodeVarint;
    var coder := AesCoder(aesProps);
    assert CodersBytes([coder]) == SimpleCoder(coder) + [];
  }

  lemma NoPairs()
    ensures PairBytes(0, 0) == []
  {
  }

  /** The unencrypted folders: one coder, or LZMA2 followed by the x86 filter. */
  method EncodeCoderInfo(specs: seq<CoderSpec>) returns (bytes: Bytes)
    requires AllValid(specs)
    requires |specs| == 1 || (|specs| == 2 && specs[0].Lzma2? && specs[1].Bcj?)
    ensures bytes == ChainBytes(Coders(specs))
    ensures ParseFolder(bytes) == Ok([], WrittenChain(Coders(specs)))
  {
    hide EncodeVarint, SimpleCoder, ParseFolder, CoderSpec.Bytes, WrittenChain;
    ghost var coders := Coders(specs);
    bytes := EncodeVarint(|specs|) + specs[0].Bytes();
    SpecIsSimpleCoder(specs[0]);
    if |specs| == 2 {
      SpecIsSimpleCoder(specs[1]);
      bytes := bytes + specs[1].Bytes() + EncodeVarint(1) + EncodeVarint(0);
      assert coders[1..] == [coders[1]];
      assert PairBytes(0, 1) == EncodeVarint(1) + EncodeVarint(0) + [];
    }
    assert CodersBytes(coders) == SimpleCoder(coders[0]) + CodersBytes(coders[1..]);
    ChainRoundTrip(coders, []);
    assert bytes + [] == bytes;
  }
}
