/** The method registry, used only as a table of identifiers and stream arities. */
module Methods {
  import opened Wrappers
  import opened Words

  const CODEC_COPY: Bytes := [0x00]
  const CODEC_LZMA: Bytes := [0x03, 0x01, 0x01]
  const CODEC_LZMA2: Bytes := [0x21]
  const CODEC_PPMD: Bytes := [0x03, 0x04, 0x01]
  const CODEC_BCJ_X86: Bytes := [0x03, 0x03, 0x01, 0x03]
  const CODEC_BCJ2: Bytes := [0x03, 0x03, 0x01, 0x1B]
  const CODEC_AES_256_SHA_256: Bytes := [0x06, 0xF1, 0x07, 0x01]
  const CODEC_BCJ_ARM: Bytes := [0x03, 0x03, 0x05, 0x01]
  const CODEC_BCJ_ARM64: Bytes := [0x0A]
  const CODEC_BCJ_ARM_THUMB: Bytes := [0x03, 0x03, 0x07, 0x01]
  const CODEC_BCJ_IA64: Bytes := [0x03, 0x03, 0x04, 0x01]
  const CODEC_BCJ_PPC: Bytes := [0x03, 0x03, 0x02, 0x05]
  const CODEC_BCJ_SPARC: Bytes := [0x03, 0x03, 0x08, 0x05]
  const CODEC_BCJ_RISCV: Bytes := [0x0B]
  const CODEC_DEFLATE: Bytes := [0x04, 0x01, 0x08]
  const CODEC_BZIP2: Bytes := [0x04, 0x02, 0x02]
  const CODEC_DEFLATE64: Bytes := [0x04, 0x01, 0x09]
  const CODEC_DELTA: Bytes := [0x03]
  const CODEC_SWAP2: Bytes := [0x02, 0x03, 0x02]
  const CODEC_SWAP4: Bytes := [0x02, 0x03, 0x04]

  /** Registered identifiers of methods with one input and one output. */
  predicate IsSingleStreamId(id: Bytes) {
    id in {
      CODEC_COPY, CODEC_LZMA, CODEC_LZMA2, CODEC_PPMD, CODEC_BCJ_X86, CODEC_AES_256_SHA_256,
      CODEC_BZIP2, CODEC_DEFLATE, CODEC_DEFLATE64, CODEC_BCJ_ARM, CODEC_BCJ_ARM64, CODEC_BCJ_ARM_THUMB,
      CODEC_BCJ_IA64, CODEC_BCJ_PPC, CODEC_BCJ_SPARC, CODEC_BCJ_RISCV, CODEC_DELTA, CODEC_SWAP2, CODEC_SWAP4,
      [0x04, 0xF7, 0x11, 0x01], [0x04, 0xF7, 0x11, 0x02], [0x04, 0xF7, 0x11, 0x04],
      [0x04, 0xF7, 0x11, 0x05], [0x04, 0xF7, 0x11, 0x06], [0x04, 0xF7, 0x10, 0x01],
      [0x06, 0xF0, 0x01, 0x81]
    }
  }

  function KnownArity(id: Bytes): Option<(nat, nat)> {
    if id == CODEC_BCJ2 then Some((4, 1))
    else if IsSingleStreamId(id) then Some((1, 1))
    else None
  }
}
