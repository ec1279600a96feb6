/**
 * Cipher block chaining over an abstract block cipher (section 6.2 of NIST SP 800-38A), with the
 * zero padding of encrypted archives. Blocks are sixteen bytes.
 */
module Cbc {
  import opened Wrappers
  import opened Words
  import opened Parsers

  const BLOCK: nat := 16

  type BlockCipher = Bytes -> Bytes

  /** Deciphering a block undoes enciphering it, and enciphering keeps the block size. */
  ghost predicate IsCipher(enc: BlockCipher, dec: BlockCipher) {
    forall b: Bytes {:trigger enc(b)} :: |b| == BLOCK ==> |enc(b)| == BLOCK && dec(enc(b)) == b
  }

  ghost predicate KeepsBlocks(dec: BlockCipher) {
    forall s: Bytes {:trigger dec(s)} :: |s| == BLOCK ==> |dec(s)| == BLOCK
  }

  lemma CipherKeepsBlocks(dec: BlockCipher, enc: BlockCipher)
    requires IsCipher(dec, enc)
    ensures KeepsBlocks(dec)
  {
  }

  // ---------------------------------------------------------------- exclusive or

  function XorBits(a: nat, b: nat, bits: nat): (r: nat)
    ensures r < Pow2(bits)
  {
    if bits == 0 then 0
    else (if a % 2 == b % 2 then 0 else 1) + 2 * XorBits(a / 2, b / 2, bits - 1)
  }

  function Pow2(bits: nat): nat {
    if bits == 0 then 1 else 2 * Pow2(bits - 1)
  }

  lemma LowBit(low: nat, high: nat)
    requires low < 2
    ensures (low + 2 * high) % 2 == low && (low + 2 * high) / 2 == high
  {
  }

  lemma {:induction false} XorTwice(a: nat, b: nat, bits: nat)
    requires a < Pow2(bits)
    ensures XorBits(XorBits(a, b, bits), b, bits) == a
  {
    if bits > 0 {
      var high := XorBits(a / 2, b / 2, bits - 1);
      var low := if a % 2 == b % 2 then 0 else 1;
      LowBit(low, high);
      XorTwice(a / 2, b / 2, bits - 1);
      assert XorBits(a, b, bits) == low + 2 * high;
      assert XorBits(low + 2 * high, b, bits) == (if low == b % 2 then 0 else 1) + 2 * XorBits(high, b / 2, bits - 1);
    }
  }

  lemma ByteRange()
    ensures Pow2(8) == U8_LIMIT
  {
    assert Pow2(4) == 16;
  }

  function XorByte(a: byte, b: byte): byte {
    ByteRange();
    XorBits(a, b, 8)
  }

  lemma XorByteTwice(a: byte, b: byte)
    ensures XorByte(XorByte(a, b), b) == a
  {
    ByteRange();
    XorTwice(a, b, 8);
  }

  function Xor(a: Bytes, b: Bytes): (r: Bytes)
    requires |a| == |b|
    ensures |r| == |a|
  {
    seq(|a|, i requires 0 <= i < |a| => XorByte(a[i], b[i]))
  }

  lemma XorUndone(a: Bytes, b: Bytes)
    requires |a| == |b|
    ensures Xor(Xor(a, b), b) == a
  {
    hide XorByte;
    forall i | 0 <= i < |a| ensures Xor(Xor(a, b), b)[i] == a[i] {
      XorByteTwice(a[i], b[i]);
    }
  }

  // ---------------------------------------------------------------- whole-buffer encryption

  function Encrypt(enc: BlockCipher, iv: Bytes, plain: Bytes): Bytes
    requires |iv| == BLOCK
    decreases |plain|
  {
    if |plain| < BLOCK then []
    else
      var block := enc(Xor(plain[..BLOCK], iv));
      if |block| != BLOCK then [] else block + Encrypt(enc, block, plain[BLOCK..])
  }

  function Decrypt(dec: BlockCipher, iv: Bytes, cipher: Bytes): Bytes
    requires |iv| == BLOCK
    decreases |cipher|
  {
    if |cipher| < BLOCK then []
    else
      var block := dec(cipher[..BLOCK]);
      if |block| != BLOCK then [] else Xor(block, iv) + Decrypt(dec, cipher[..BLOCK], cipher[BLOCK..])
  }

  /** The block that the next one is chained to. */
  function Chain(iv: Bytes, cipher: Bytes): (r: Bytes)
    requires |iv| == BLOCK
    ensures |r| == BLOCK
  {
    if |cipher| < BLOCK then iv else cipher[|cipher| - BLOCK..]
  }

  /** A number of whole blocks. */
  ghost predicate IsBlocks(s: Bytes) {
    |s| % BLOCK == 0
  }

  lemma {:induction false} EncryptLength(enc: BlockCipher, dec: BlockCipher, iv: Bytes, plain: Bytes)
    requires IsCipher(enc, dec) && |iv| == BLOCK && IsBlocks(plain)
    ensures |Encrypt(enc, iv, plain)| == |plain|
    decreases |plain|
  {
    if plain != [] {
      EncryptLength(enc, dec, enc(Xor(plain[..BLOCK], iv)), plain[BLOCK..]);
    }
  }

  /** Deciphering what was enciphered, with the same initialization vector, gives the plaintext. */
  lemma {:induction false} DecryptEncrypt(enc: BlockCipher, dec: BlockCipher, iv: Bytes, plain: Bytes)
    requires IsCipher(enc, dec) && |iv| == BLOCK && IsBlocks(plain)
    ensures Decrypt(dec, iv, Encrypt(enc, iv, plain)) == plain
    decreases |plain|
  {
    hide Xor;
    if plain != [] {
      var first := plain[..BLOCK];
      var block := enc(Xor(first, iv));
      var rest := Encrypt(enc, block, plain[BLOCK..]);
      DecryptEncrypt(enc, dec, block, plain[BLOCK..]);
      XorUndone(first, iv);
      AppendSplit(block, rest);
      assert plain == first + plain[BLOCK..];
    }
  }

  lemma ChainOfChain(iv: Bytes, a: Bytes, b: Bytes)
    requires |iv| == BLOCK && IsBlocks(a) && IsBlocks(b)
    ensures Chain(Chain(iv, a), b) == Chain(iv, a + b)
  {
    if b == [] {
      assert a + b == a;
    } else {
      assert (a + b)[|a + b| - BLOCK..] == b[|b| - BLOCK..];
    }
  }

  lemma ChainOfBlock(iv: Bytes, block: Bytes, rest: Bytes)
    requires |iv| == BLOCK && |block| == BLOCK && IsBlocks(rest)
    ensures Chain(iv, block + rest) == Chain(block, rest)
  {
    assert Chain(iv, block) == block;
    ChainOfChain(iv, block, rest);
  }

  lemma EncryptBlock(enc: BlockCipher, dec: BlockCipher, iv: Bytes, plain: Bytes)
    requires IsCipher(enc, dec) && |iv| == BLOCK && |plain| >= BLOCK
    ensures var block := enc(Xor(plain[..BLOCK], iv));
      |block| == BLOCK && Encrypt(enc, iv, plain) == block + Encrypt(enc, block, plain[BLOCK..])
  {
    hide Xor;
  }

  lemma DecryptBlock(dec: BlockCipher, iv: Bytes, cipher: Bytes)
    requires |iv| == BLOCK && |cipher| >= BLOCK && |dec(cipher[..BLOCK])| == BLOCK
    ensures Decrypt(dec, iv, cipher) == Xor(dec(cipher[..BLOCK]), iv) + Decrypt(dec, cipher[..BLOCK], cipher[BLOCK..])
  {
    hide Xor;
  }

  lemma NothingEncrypted(cipher: BlockCipher, iv: Bytes)
    requires |iv| == BLOCK
    ensures Encrypt(cipher, iv, []) == [] && Decrypt(cipher, iv, []) == [] && Chain(iv, []) == iv
  {
  }

  /** Encryption continues from the last block. */
  lemma {:induction false} EncryptAppend(enc: BlockCipher, dec: BlockCipher, iv: Bytes, a: Bytes, b: Bytes)
    requires IsCipher(enc, dec) && |iv| == BLOCK && IsBlocks(a)
    ensures Encrypt(enc, iv, a + b)
         == Encrypt(enc, iv, a) + Encrypt(enc, Chain(iv, Encrypt(enc, iv, a)), b)
    decreases |a|
  {
    hide Xor, Encrypt, Chain;
    if a == [] {
      NothingEncrypted(enc, iv);
      assert a + b == b;
    } else {
      EncryptBlock(enc, dec, iv, a);
      EncryptBlock(enc, dec, iv, a + b);
      var block, rest := enc(Xor(a[..BLOCK], iv)), a[BLOCK..];
      var cipher := Encrypt(enc, block, rest);
      EncryptAppend(enc, dec, block, rest, b);
      EncryptLength(enc, dec, block, rest);
      assert (a + b)[..BLOCK] == a[..BLOCK] && (a + b)[BLOCK..] == rest + b;
      ChainOfBlock(iv, block, cipher);
      Grouped(block, cipher, Encrypt(enc, Chain(block, cipher), b));
    }
  }

  lemma {:induction false} DecryptAppend(dec: BlockCipher, iv: Bytes, a: Bytes, b: Bytes)
    requires |iv| == BLOCK && IsBlocks(a) && KeepsBlocks(dec)
    ensures Decrypt(dec, iv, a + b) == Decrypt(dec, iv, a) + Decrypt(dec, Chain(iv, a), b)
    decreases |a|
  {
    hide Xor, Decrypt, Chain;
    if a == [] {
      NothingEncrypted(dec, iv);
      assert a + b == b;
    } else {
      var block, rest := a[..BLOCK], a[BLOCK..];
      DecryptBlock(dec, iv, a);
      assert (a + b)[..BLOCK] == block && |dec(block)| == BLOCK;
      DecryptBlock(dec, iv, a + b);
      DecryptAppend(dec, block, rest, b);
      assert (a + b)[..BLOCK] == block && (a + b)[BLOCK..] == rest + b && a == block + rest;
      ChainOfBlock(iv, block, rest);
      Grouped(Xor(dec(block), iv), Decrypt(dec, block, rest), Decrypt(dec, Chain(block, rest), b));
    }
  }

  // ---------------------------------------------------------------- padding

  function Zeros(n: nat): (r: Bytes)
    ensures |r| == n
  {
    seq(n, _ => 0)
  }

  /** At least one block; an empty input takes one block, too. */
  function PaddedSize(size: nat): (r: nat)
    ensures r % BLOCK == 0 && size <= r && BLOCK <= r
    ensures size > 0 ==> r < size + BLOCK
  {
    if size == 0 then BLOCK else (size + BLOCK - 1) / BLOCK * BLOCK
  }

  function ZeroPad(plain: Bytes): (r: Bytes)
    ensures IsBlocks(r) && |r| == PaddedSize(|plain|) && plain <= r
  {
    plain + Zeros(PaddedSize(|plain|) - |plain|)
  }

  function EncryptZeroPad(enc: BlockCipher, iv: Bytes, plain: Bytes): Bytes
    requires |iv| == BLOCK
  {
    Encrypt(enc, iv, ZeroPad(plain))
  }

  /** The one-shot encryption. Deciphering and cutting at the plaintext size restores the plaintext. */
  lemma EncryptZeroPadInverts(enc: BlockCipher, dec: BlockCipher, iv: Bytes, plain: Bytes)
    requires IsCipher(enc, dec) && |iv| == BLOCK
    ensures |EncryptZeroPad(enc, iv, plain)| == PaddedSize(|plain|)
    ensures plain <= Decrypt(dec, iv, EncryptZeroPad(enc, iv, plain))
  {
    EncryptLength(enc, dec, iv, ZeroPad(plain));
    DecryptEncrypt(enc, dec, iv, ZeroPad(plain));
  }

  // ---------------------------------------------------------------- coder properties

  datatype AesProperties = AesProperties(numCyclesPower: nat, salt: Bytes, iv: Bytes)

  function BoolBit(b: bool): nat {
    if b then 1 else 0
  }

  function EncodeAesProperties(numCyclesPower: byte, salt: Bytes, iv: Bytes): Bytes
    requires |salt| <= 16 && |iv| <= 16
  {
    var hasSalt, hasIv := salt != [], iv != [];
    var first: byte := numCyclesPower % 0x40 + 0x80 * BoolBit(hasSalt) + 0x40 * BoolBit(hasIv);
    if hasSalt || hasIv then
      var second: byte := 0x10 * (|salt| - BoolBit(hasSalt)) + (|iv| - BoolBit(hasIv));
      [first, second] + salt + iv
    else [first]
  }

  /** The sizes announced by the two leading bytes. */
  function AnnouncedSizes(first: byte, second: byte): (nat, nat) {
    (first / 0x80 + second / 0x10, first / 0x40 % 2 + second % 0x10)
  }

  function ParseAesProperties(props: Bytes): Result<AesProperties, R7zError> {
    if props == [] then Failure(Decompression)
    else if props[0] / 0x40 == 0 then Success(AesProperties(props[0] % 0x40, [], Zeros(BLOCK)))
    else if |props| < 2 then Failure(Decompression)
    else
      var (saltSize, ivSize) := AnnouncedSizes(props[0], props[1]);
      var rest := props[2..];
      if |rest| < saltSize + ivSize then Failure(Decompression)
      else Success(AesProperties(props[0] % 0x40, rest[..saltSize], PadIv(rest[saltSize..saltSize + ivSize])))
  }

  /** A short initialization vector is completed with zeros. */
  function PadIv(iv: Bytes): (r: Bytes)
    ensures |iv| <= BLOCK ==> |r| == BLOCK
  {
    iv + Zeros(if |iv| <= BLOCK then BLOCK - |iv| else 0)
  }

  /** Parsing written properties gives back the cost, the salt and the padded vector. */
  lemma AesPropertiesRoundTrip(numCyclesPower: byte, salt: Bytes, iv: Bytes)
    requires |salt| <= 16 && |iv| <= 16
    ensures ParseAesProperties(EncodeAesProperties(numCyclesPower, salt, iv))
         == Success(AesProperties(numCyclesPower % 0x40, salt, PadIv(iv)))
  {
    hide AnnouncedSizes, Zeros;
    var props := EncodeAesProperties(numCyclesPower, salt, iv);
    if salt != [] || iv != [] {
      LeadingBytes(numCyclesPower % 0x40, |salt|, |iv|);
      assert props[2..] == salt + iv;
      AppendSplit(salt, iv);
      assert (salt + iv)[|salt|..|salt| + |iv|] == iv;
    } else {
      assert PadIv([]) == Zeros(BLOCK);
    }
  }

  lemma LeadingBytes(power: nat, salt: nat, iv: nat)
    requires power < 0x40 && salt <= 16 && iv <= 16 && (salt > 0 || iv > 0)
    ensures var first := power + 0x80 * BoolBit(salt > 0) + 0x40 * BoolBit(iv > 0);
      var second := 0x10 * (salt - BoolBit(salt > 0)) + (iv - BoolBit(iv > 0));
      && first < 0x100 && first / 0x40 != 0 && first % 0x40 == power && 0 <= second < 0x100
      && AnnouncedSizes(first, second) == (salt, iv)
  {
  }
}
