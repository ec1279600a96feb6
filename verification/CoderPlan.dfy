/** Setting up one decoder: what its properties have to be, and how much memory it takes. */
module CoderPlans {
  import opened Wrappers
  import opened Words
  import opened Folders
  import opened DecoderPlans
  import Cbc
  import Digests
  import Methods

  /** Branch filters that take no properties. */
  const PLAIN_BRANCH_IDS: set<Bytes> := {
    Methods.CODEC_BCJ_X86, Methods.CODEC_BCJ_ARM, Methods.CODEC_BCJ_ARM_THUMB, Methods.CODEC_BCJ_IA64,
    Methods.CODEC_BCJ_PPC, Methods.CODEC_BCJ_SPARC
  }

  const MAX_LZMA_DICTIONARY_BYTES := 0x1000_0000
  const MAX_PPMD_MEMORY_BYTES := 0x1000_0000
  const OTHER_CODER_WORKING_SET_BYTES := 0x20_0000
  const DECODER_OVERHEAD_BYTES := 0x2_0000
  const AES_CBC_WORKING_SET_BYTES := 1024
  const BCJ_READER_WORKING_SET_BYTES := 4096
  const DELTA_READER_WORKING_SET_BYTES := 256

  /** What the LZMA library says about its memory, in KiB; it may refuse the first property byte. */
  datatype LzmaMemory = LzmaMemory(lzma: (u32, byte) -> Option<u32>, lzma2: u32 -> u32)

  // ---------------------------------------------------------------- properties

  function Power2(n: nat): nat {
    if n == 0 then 1 else 2 * Power2(n - 1)
  }

  /** Two or three times a power of two, as one byte encodes it; 40 and more are refused first. */
  function Lzma2Dictionary(properties: Option<Bytes>): Option<u32> {
    if properties.None? || |properties.value| != 1 || properties.value[0] >= 40 then None
    else
      var p := properties.value[0];
      var size := (2 + p % 2) * Power2(p / 2 + 11);
      if size > MAX_LZMA_DICTIONARY_BYTES then None else Some(size)
  }

  /** Property byte, and dictionary size in little-endian order. */
  function LzmaWorkingSet(memory: LzmaMemory, properties: Bytes): Option<u64> {
    if |properties| != 5 || Digests.FromLe(properties[1..]) > MAX_LZMA_DICTIONARY_BYTES then None
    else
      var kib := memory.lzma(Digests.FromLe(properties[1..]), properties[0]);
      if kib.None? then None else Some(kib.value * 1024 + DECODER_OVERHEAD_BYTES)
  }

  function PpmdWorkingSet(properties: Bytes): Option<u64> {
    if |properties| != 5 || Digests.FromLe(properties[1..]) > MAX_PPMD_MEMORY_BYTES then None
    else Some(Digests.FromLe(properties[1..]) + DECODER_OVERHEAD_BYTES)
  }

  /** A filter may start at an aligned position, which is zero where none is given. */
  predicate StartsAligned(properties: Option<Bytes>, alignment: nat)
    requires alignment > 0
  {
    || properties.None? || properties.value == []
    || (|properties.value| == 4 && Digests.FromLe(properties.value) % alignment == 0)
  }

  // ---------------------------------------------------------------- all methods

  /** The working set of a decoder, or none where there is no decoder or its properties are refused. */
  function WorkingSetOf(memory: LzmaMemory, coder: CoderInfo): Option<u64> {
    var id, properties := coder.codecId, coder.properties;
    if id in {Methods.CODEC_COPY, Methods.CODEC_SWAP2, Methods.CODEC_SWAP4} then
      if NoProperties(coder) then Some(0) else None
    else if id in PLAIN_BRANCH_IDS then
      if NoProperties(coder) then Some(BCJ_READER_WORKING_SET_BYTES) else None
    else if id in {Methods.CODEC_DEFLATE, Methods.CODEC_DEFLATE64, Methods.CODEC_BZIP2} then
      if NoProperties(coder) then Some(OTHER_CODER_WORKING_SET_BYTES) else None
    else if id == Methods.CODEC_BCJ_ARM64 then
      if StartsAligned(properties, 4) then Some(BCJ_READER_WORKING_SET_BYTES) else None
    else if id == Methods.CODEC_BCJ_RISCV then
      if StartsAligned(properties, 2) then Some(BCJ_READER_WORKING_SET_BYTES) else None
    else if id == Methods.CODEC_LZMA2 then
      var dictionary := Lzma2Dictionary(properties);
      if dictionary.None? then None else Some(memory.lzma2(dictionary.value) * 1024 + DECODER_OVERHEAD_BYTES)
    else if properties.None? then None
    else if id == Methods.CODEC_DELTA then
      if |properties.value| == 1 then Some(DELTA_READER_WORKING_SET_BYTES) else None
    else if id == Methods.CODEC_LZMA then LzmaWorkingSet(memory, properties.value)
    else if id == Methods.CODEC_PPMD then PpmdWorkingSet(properties.value)
    else if id == Methods.CODEC_AES_256_SHA_256 then
      if Cbc.ParseAesProperties(properties.value).Success?
      then Some(AES_CBC_WORKING_SET_BYTES + DECODER_OVERHEAD_BYTES) else None
    else None
  }

  function EstimateWith(memory: LzmaMemory): Estimate {
    (coder: CoderInfo) => WorkingSetOf(memory, coder)
  }

  lemma {:induction false} Power2Grows(a: nat, b: nat)
    requires a <= b
    ensures 1 <= Power2(a) <= Power2(b)
    decreases b
  {
    if b > 0 {
      Power2Grows(if a == b then a - 1 else a, b - 1);
    }
  }

  lemma LargestDictionary()
    ensures Power2(26) == 0x400_0000 && Power2(27) == 0x800_0000 && Power2(28) == 0x1000_0000
  {
    assert Power2(14) == 0x4000;
    assert Power2(20) == 0x10_0000;
  }

  /** The dictionaries accepted are those announced by one byte up to 32, the last one being 256 MiB. */
  lemma Lzma2DictionaryAccepted(properties: Option<Bytes>)
    ensures Lzma2Dictionary(properties).Some?
       <==> properties.Some? && |properties.value| == 1 && properties.value[0] <= 32
  {
    hide Power2;
    if properties.Some? && |properties.value| == 1 {
      var p := properties.value[0];
      LargestDictionary();
      if p <= 31 {
        Power2Grows(p / 2 + 11, 26);
      } else if p >= 34 {
        Power2Grows(28, p / 2 + 11);
      }
      var power := Power2(p / 2 + 11);
      assert p % 2 == 0 ==> (2 + p % 2) * power == 2 * power;
      assert p % 2 == 1 ==> (2 + p % 2) * power == 3 * power;
    }
  }

  /** The properties that the writer gives an AES coder are accepted, whatever cost, salt and vector it chose. */
  lemma WrittenAesAccepted(memory: LzmaMemory, coder: CoderInfo, cost: byte, salt: Bytes, iv: Bytes)
    requires |salt| <= 16 && |iv| <= 16 && coder.codecId == Methods.CODEC_AES_256_SHA_256
    requires coder.properties == Some(Cbc.EncodeAesProperties(cost, salt, iv))
    ensures WorkingSetOf(memory, coder) == Some(AES_CBC_WORKING_SET_BYTES + DECODER_OVERHEAD_BYTES)
  {
    hide Cbc.EncodeAesProperties, Cbc.ParseAesProperties;
    Cbc.AesPropertiesRoundTrip(cost, salt, iv);
  }

  /** The checked sum of the working sets never overflows: a folder has at most 64 coders. */
  lemma {:induction false} WorkingSetsFit(memory: LzmaMemory, coders: seq<CoderInfo>)
    requires WorkingSet(EstimateWith(memory), coders).Some?
    ensures WorkingSet(EstimateWith(memory), coders).value <= |coders| * (U32_LIMIT * 1024 + DECODER_OVERHEAD_BYTES)
    decreases |coders|
  {
    hide WorkingSetOf;
    if coders != [] {
      var last := coders[|coders| - 1];
      WorkingSetsFit(memory, coders[..|coders| - 1]);
      OneFits(memory, last);
    }
  }

  lemma OneFits(memory: LzmaMemory, coder: CoderInfo)
    requires WorkingSetOf(memory, coder).Some?
    ensures WorkingSetOf(memory, coder).value <= U32_LIMIT * 1024 + DECODER_OVERHEAD_BYTES
  {
  }
}
