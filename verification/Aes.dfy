/** Streaming encryption and decryption refine the whole-buffer functions for any chunking. */
module AesStreams {
  import opened Wrappers
  import opened Words
  import opened Readers
  import opened Cbc

  const CIPHERTEXT_BUFFER_SIZE: nat := 8192

  // ---------------------------------------------------------------- encryption

  class Aes256CbcEncryptWriter {
    const enc: BlockCipher
    ghost const dec: BlockCipher
    const iv: Bytes
    const inner: Sink
    /** The block the next one is chained to. */
    var chain: Bytes
    var pending: Bytes
    var ciphertext: Bytes
    var plaintextSize: u64
    var encryptedBlock: bool
    /** All plaintext accepted so far. */
    ghost var accepted: Bytes

    /** The blocks of this plaintext have been enciphered: written, or waiting in the buffer. */
    ghost predicate Emitted(whole: Bytes)
      reads this`chain, this`ciphertext, this`encryptedBlock, inner
    {
      && IsCipher(enc, dec) && |iv| == BLOCK && IsBlocks(whole)
      && IsBlocks(ciphertext) && |ciphertext| < CIPHERTEXT_BUFFER_SIZE
      && inner.written + ciphertext == Encrypt(enc, iv, whole)
      && chain == Chain(iv, Encrypt(enc, iv, whole))
      && (encryptedBlock <==> whole != [])
    }

    ghost predicate Holds()
      reads this, inner
    {
      && |pending| < BLOCK && |pending| <= |accepted|
      && pending == accepted[|accepted| - |pending|..]
      && Emitted(accepted[..|accepted| - |pending|])
    }

    ghost predicate Valid()
      reads this, inner
    {
      Holds() && plaintextSize == |accepted|
    }

    constructor (inner: Sink, enc: BlockCipher, ghost dec: BlockCipher, iv: Bytes)
      requires IsCipher(enc, dec) && |iv| == BLOCK && inner.written == []
      ensures Valid() && this.inner == inner && this.enc == enc && this.dec == dec && this.iv == iv && accepted == []
    {
      this.inner, this.enc, this.dec, this.iv := inner, enc, dec, iv;
      chain, pending, ciphertext, plaintextSize, encryptedBlock, accepted := iv, [], [], 0, false, [];
    }

    method FlushCiphertext() returns (error: Option<R7zError>)
      modifies this`ciphertext, inner
      ensures error.None? ==> ciphertext == [] && inner.written == old(inner.written) + old(ciphertext)
      ensures inner.failures == old(inner.failures) + if error.Some? then 1 else 0
    {
      if ciphertext == [] {
        assert inner.written + [] == inner.written;
        return None;
      }
      error := inner.WriteAll(ciphertext);
      if error.None? {
        ciphertext := [];
      }
    }

    /** One more block, filled up with zeros; the buffer takes it and is emptied when it is full. */
    method EncryptPending(ghost whole: Bytes) returns (error: Option<R7zError>)
      requires Emitted(whole) && |pending| <= BLOCK
      modifies this`chain, this`pending, this`ciphertext, this`encryptedBlock, inner
      ensures error.None? ==> pending == [] && Emitted(whole + (old(pending) + Zeros(BLOCK - |old(pending)|)))
      ensures inner.failures == old(inner.failures) + if error.Some? then 1 else 0
    {
      hide Encrypt, Chain, Xor, IsCipher;
      ghost var block := pending + Zeros(BLOCK - |pending|);
      BlockAppended(whole, block);
      chain := enc(Xor(pending + Zeros(BLOCK - |pending|), chain));
      assert |ciphertext| + BLOCK <= CIPHERTEXT_BUFFER_SIZE;
      assert (inner.written + ciphertext) + chain == inner.written + (ciphertext + chain);
      ciphertext := ciphertext + chain;
      pending := [];
      encryptedBlock := true;
      if |ciphertext| == CIPHERTEXT_BUFFER_SIZE {
        ghost var emitted := inner.written + ciphertext;
        error := FlushCiphertext();
        assert error.None? ==> inner.written + ciphertext == emitted;
      } else {
        error := None;
      }
    }

    lemma BlockAppended(whole: Bytes, block: Bytes)
      requires Emitted(whole) && |block| == BLOCK
      ensures |chain| == BLOCK && |enc(Xor(block, chain))| == BLOCK && IsBlocks(whole + block)
      ensures var c := enc(Xor(block, chain));
        && Encrypt(enc, iv, whole + block) == Encrypt(enc, iv, whole) + c
        && Chain(iv, Encrypt(enc, iv, whole + block)) == c
    {
      EncryptAppend(enc, dec, iv, whole, block);
      EncryptLength(enc, dec, iv, whole);
      var c := enc(Xor(block, chain));
      assert block[..BLOCK] == block && block[BLOCK..] == [];
      assert Encrypt(enc, chain, block) == c + Encrypt(enc, c, []);
      assert (Encrypt(enc, iv, whole) + c)[|whole|..] == c;
    }

    /** Accepts all of the input, however it is cut into writes. */
    method Write(input: Bytes) returns (r: Result<nat, R7zError>)
      requires Valid()
      modifies this, inner
      ensures r.Success? ==> Valid() && r.value == |input| && accepted == old(accepted) + input
      ensures r.Failure? ==> inner.failures > old(inner.failures) || old(|accepted|) + |input| >= U64_LIMIT
      ensures r.Success? ==> inner.failures == old(inner.failures) && old(|accepted|) + |input| < U64_LIMIT
    {
      hide Emitted;
      if plaintextSize + |input| >= U64_LIMIT {
        return Failure(Io);
      }
      var size := plaintextSize + |input|;
      var at := 0;
      assert accepted + input[..0] == accepted;
      while at < |input|
        invariant at <= |input| && Holds() && accepted == old(accepted) + input[..at]
        invariant plaintextSize == old(plaintextSize) && inner.failures == old(inner.failures)
      {
        var copied := if BLOCK - |pending| < |input| - at then BLOCK - |pending| else |input| - at;
        var error := Take(input[at..at + copied]);
        if error.Some? {
          return Failure(error.value);
        }
        assert input[..at] + input[at..at + copied] == input[..at + copied];
        assert (old(accepted) + input[..at]) + input[at..at + copied] == old(accepted) + input[..at + copied];
        at := at + copied;
      }
      assert input[..|input|] == input;
      plaintextSize := size;
      r := Success(|input|);
    }

    /** Copies bytes behind the pending ones and enciphers the block once it is full. */
    method Take(bytes: Bytes) returns (error: Option<R7zError>)
      requires Holds() && bytes != [] && |pending| + |bytes| <= BLOCK
      modifies this`pending, this`accepted, this`chain, this`ciphertext, this`encryptedBlock, inner
      ensures error.None? ==> Holds() && accepted == old(accepted) + bytes
      ensures inner.failures == old(inner.failures) + if error.Some? then 1 else 0
    {
      hide Emitted;
      ghost var whole := accepted[..|accepted| - |pending|];
      pending := pending + bytes;
      accepted := accepted + bytes;
      assert whole == accepted[..|accepted| - |pending|] && whole + pending == accepted;
      error := None;
      if |pending| == BLOCK {
        assert pending + Zeros(0) == pending && accepted[..|accepted|] == accepted;
        error := EncryptPending(whole);
      }
    }

    /** Flushing in between changes nothing of what is finally emitted. */
    method Flush() returns (error: Option<R7zError>)
      requires Valid()
      modifies this`ciphertext, inner
      ensures error.None? ==> Valid() && ciphertext == []
      ensures inner.failures == old(inner.failures) + if error.Some? then 1 else 0
    {
      ghost var emitted := inner.written + ciphertext;
      error := FlushCiphertext();
      if error.None? {
        assert inner.written + ciphertext == emitted;
        error := inner.Flush();
      }
    }

    /** The last block is filled up with zeros; an empty plaintext takes one block. */
    method FinishBlocks() returns (error: Option<R7zError>)
      requires Holds()
      modifies this`chain, this`pending, this`ciphertext, this`encryptedBlock, inner
      ensures error.None? ==> Emitted(ZeroPad(accepted))
      ensures inner.failures == old(inner.failures) + if error.Some? then 1 else 0
    {
      ghost var whole := accepted[..|accepted| - |pending|];
      assert accepted == whole + pending;
      if |pending| != 0 || !encryptedBlock {
        PadsAtTheEnd(whole, pending);
        error := EncryptPending(whole);
      } else {
        NothingToPad(accepted);
        error := None;
      }
    }

    /** What has been written in the end is the one-shot ciphertext of everything accepted. */
    method Finish() returns (r: Result<u64, R7zError>)
      requires Valid()
      modifies this`chain, this`pending, this`ciphertext, this`encryptedBlock, inner
      ensures r.Success? ==> inner.written == EncryptZeroPad(enc, iv, accepted) && r.value == |accepted|
      ensures inner.failures == old(inner.failures) + if r.Failure? then 1 else 0
    {
      hide Encrypt, IsBlocks, IsCipher;
      var error := FinishBlocks();
      if error.Some? {
        return Failure(error.value);
      }
      error := FlushCiphertext();
      if error.Some? {
        return Failure(error.value);
      }
      error := inner.Flush();
      if error.Some? {
        return Failure(error.value);
      }
      r := Success(plaintextSize);
    }
  }

  lemma NothingToPad(plain: Bytes)
    requires IsBlocks(plain) && plain != []
    ensures ZeroPad(plain) == plain
  {
    assert PaddedSize(|plain|) == |plain|;
  }

  lemma PadsAtTheEnd(whole: Bytes, pending: Bytes)
    requires IsBlocks(whole) && |pending| < BLOCK && (pending != [] || whole == [])
    ensures whole + (pending + Zeros(BLOCK - |pending|)) == ZeroPad(whole + pending)
  {
    assert PaddedSize(|whole + pending|) == |whole| + BLOCK;
  }

  // ---------------------------------------------------------------- decryption

  /** The ciphertext size to expect, if the two declared sizes agree. */
  function ExpectedSize(ciphertextSize: Option<u64>, plaintextSize: Option<u64>): Result<Option<nat>, R7zError> {
    if ciphertextSize.Some? && ciphertextSize.value % BLOCK != 0 then Failure(Decompression)
    else if plaintextSize.Some? && plaintextSize.value + BLOCK - 1 >= U64_LIMIT then Failure(Decompression)
    else if ciphertextSize.Some? && plaintextSize.Some?
      && ciphertextSize.value != PaddedSize(plaintextSize.value)
      && !(plaintextSize.value == 0 && ciphertextSize.value == 0) then Failure(Decompression)
    else if ciphertextSize.Some? then Success(Some(ciphertextSize.value as nat))
    else if plaintextSize.Some? then Success(Some(PaddedSize(plaintextSize.value)))
    else Success(None)
  }

  /** The plaintext ends at its declared size; what follows is padding. */
  function Cut(plain: Bytes, size: Option<u64>): Bytes {
    if size.Some? && size.value < |plain| then plain[..size.value] else plain
  }

  class Aes256CbcDecryptReader {
    const dec: BlockCipher
    const iv: Bytes
    const inner: Source
    const ciphertextSize: Option<u64>
    const plaintextSize: Option<u64>
    const expected: Option<nat>
    var chain: Bytes
    /** What is left of the current block. */
    var plaintext: Bytes
    var plaintextRead: nat
    var ciphertextRead: nat
    var finished: bool
    /** Everything returned so far. */
    ghost var delivered: Bytes

    ghost function Plain(): Bytes
      requires ciphertextRead <= |inner.content| && |iv| == BLOCK
      reads this
    {
      Cut(Decrypt(dec, iv, inner.content[..ciphertextRead]), plaintextSize)
    }

    /** The length of the input is exactly what the declared sizes call for. */
    ghost predicate ExactLength() {
      && |inner.content| % BLOCK == 0
      && (expected.None? || |inner.content| == expected.value
          || (inner.content == [] && ciphertextSize.None? && plaintextSize == Some(0)))
    }

    ghost predicate Holds()
      reads this, inner
    {
      && inner.Valid() && KeepsBlocks(dec) && |iv| == BLOCK
      && ciphertextRead == inner.position && ciphertextRead % BLOCK == 0
      && chain == Chain(iv, inner.content[..ciphertextRead])
      && delivered + plaintext == Plain() && plaintextRead == |delivered|
      && (finished ==> ciphertextRead == |inner.content| && ExactLength())
    }

    constructor (inner: Source, dec: BlockCipher, iv: Bytes, ciphertextSize: Option<u64>, plaintextSize: Option<u64>)
      requires inner.Valid() && inner.position == 0 && KeepsBlocks(dec) && |iv| == BLOCK
      requires ExpectedSize(ciphertextSize, plaintextSize).Success?
      ensures Holds() && delivered == [] && this.inner == inner && this.dec == dec && this.iv == iv
      ensures this.ciphertextSize == ciphertextSize && this.plaintextSize == plaintextSize
      ensures expected == ExpectedSize(ciphertextSize, plaintextSize).value
    {
      this.inner, this.dec, this.iv := inner, dec, iv;
      this.ciphertextSize, this.plaintextSize := ciphertextSize, plaintextSize;
      expected := ExpectedSize(ciphertextSize, plaintextSize).value;
      chain, plaintext, plaintextRead, ciphertextRead, finished, delivered := iv, [], 0, 0, false, [];
      new;
      assert inner.content[..0] == [];
    }

    /** How much of the next block is plaintext. */
    function BlockLength(): (r: nat)
      reads this
      ensures r <= BLOCK
    {
      if plaintextSize.None? then BLOCK
      else if plaintextSize.value <= plaintextRead then 0
      else if plaintextSize.value - plaintextRead < BLOCK then plaintextSize.value - plaintextRead
      else BLOCK
    }

    /** At the expected end of the ciphertext nothing may follow. */
    method CheckEnd() returns (r: Result<bool, R7zError>)
      requires Holds() && plaintext == [] && expected == Some(ciphertextRead)
      modifies this`finished, inner
      ensures inner.Valid() && (Holds() <==> inner.position % BLOCK == 0) && old(inner.failures) <= inner.failures
      ensures r.Success? ==> Holds() && !r.value && finished
      ensures r.Failure? ==> old(inner.failures) < inner.failures || !ExactLength()
    {
      hide Decrypt;
      var extra := inner.Read(1);
      if extra.Failure? {
        return Failure(extra.error);
      }
      if extra.value != [] {
        return Failure(Io);
      }
      finished := true;
      r := Success(false);
    }

    /** The input ends inside a block. */
    lemma EndsInside()
      requires ciphertextRead % BLOCK == 0 && ciphertextRead < |inner.content| < ciphertextRead + BLOCK
      ensures !ExactLength()
    {
      assert |inner.content| % BLOCK == |inner.content| - ciphertextRead;
    }

    /** The next block, unless the input ends exactly where it should. */
    method ReadBlock() returns (r: Result<bool, R7zError>)
      requires Holds() && plaintext == []
      modifies this, inner
      ensures inner.Valid() && (Holds() <==> inner.position % BLOCK == 0) && delivered == old(delivered)
      ensures r.Success? ==> Holds()
      ensures r.Success? && !r.value ==> finished && plaintext == []
      ensures r.Success? && r.value ==> inner.position > old(inner.position)
      ensures old(inner.failures) <= inner.failures
      ensures r.Failure? ==> old(inner.failures) < inner.failures || !ExactLength()
    {
      hide Decrypt, Chain, Cut, KeepsBlocks;
      if finished {
        return Success(false);
      }
      if expected.Some? && ciphertextRead == expected.value {
        r := CheckEnd();
        return;
      }
      var first := inner.Read(1);
      if first.Failure? {
        return Failure(first.error);
      }
      if first.value == [] {
        if expected.Some? && !(ciphertextSize.None? && plaintextSize == Some(0) && ciphertextRead == 0) {
          return Failure(Io);
        }
        finished := true;
        return Success(false);
      }
      var rest := inner.ReadExact(BLOCK - 1);
      if rest.Failure? {
        if |inner.content| < ciphertextRead + BLOCK {
          EndsInside();
        }
        return Failure(rest.error);
      }
      TakeBlock(first.value + rest.value);
      r := Success(true);
    }

    /** Deciphers a block that has been read completely. */
    method TakeBlock(block: Bytes)
      requires inner.Valid() && KeepsBlocks(dec) && |iv| == BLOCK && !finished && plaintext == []
      requires inner.position == ciphertextRead + BLOCK && ciphertextRead % BLOCK == 0
      requires block == inner.content[ciphertextRead..inner.position]
      requires chain == Chain(iv, inner.content[..ciphertextRead])
      requires delivered == Plain() && plaintextRead == |delivered|
      modifies this`chain, this`plaintext, this`ciphertextRead
      ensures Holds()
    {
      ghost var front := inner.content[..ciphertextRead];
      OneBlock(front, block);
      assert inner.content[..ciphertextRead + BLOCK] == front + block;
      var plain := Xor(dec(block), chain);
      plaintext := plain[..BlockLength()];
      CutGrows(Decrypt(dec, iv, front), plain, plaintextSize);
      chain := block;
      ciphertextRead := ciphertextRead + BLOCK;
    }

    lemma OneBlock(front: Bytes, block: Bytes)
      requires KeepsBlocks(dec) && |iv| == BLOCK && IsBlocks(front) && |block| == BLOCK
      ensures Decrypt(dec, iv, front + block) == Decrypt(dec, iv, front) + Xor(dec(block), Chain(iv, front))
      ensures Chain(iv, front + block) == block
    {
      hide Xor;
      DecryptAppend(dec, iv, front, block);
      assert block[..BLOCK] == block && block[BLOCK..] == [];
      var plain := Xor(dec(block), Chain(iv, front));
      assert Decrypt(dec, Chain(iv, front), block) == plain + [] == plain;
    }

    /**
     * Zero bytes into a nonempty buffer mean that the input had exactly the expected length; a read
     * fails only when it has not, or when a read of the inner reader has failed. After a failure the
     * reader can go on exactly when the inner reader stands between two blocks.
     */
    method Read(size: nat) returns (r: Result<Bytes, R7zError>)
      requires Holds()
      modifies this, inner
      ensures inner.Valid() && (Holds() <==> inner.position % BLOCK == 0) && (r.Success? ==> Holds())
      ensures r.Success? ==> |r.value| <= size && delivered == old(delivered) + r.value
      ensures r.Failure? ==> delivered == old(delivered)
      ensures r.Success? ==> delivered <= Plain()
      ensures r.Success? && r.value == [] && size > 0 ==>
        ExactLength() && delivered == Cut(Decrypt(dec, iv, inner.content), plaintextSize)
      ensures old(inner.failures) <= inner.failures
      ensures r.Failure? ==> old(inner.failures) < inner.failures || !ExactLength()
    {
      if size == 0 {
        assert delivered + [] == delivered;
        return Success([]);
      }
      while plaintext == []
        invariant Holds() && delivered == old(delivered) && old(inner.failures) <= inner.failures
        decreases |inner.content| - inner.position
      {
        var more := ReadBlock();
        if more.Failure? {
          return Failure(more.error);
        }
        if !more.value {
          assert inner.content[..ciphertextRead] == inner.content;
          assert delivered + [] == delivered;
          return Success([]);
        }
      }
      var length := if size < |plaintext| then size else |plaintext|;
      var bytes := plaintext[..length];
      assert delivered + plaintext == (delivered + plaintext[..length]) + plaintext[length..];
      plaintext := plaintext[length..];
      delivered := delivered + bytes;
      plaintextRead := plaintextRead + length;
      r := Success(bytes);
    }
  }

  /** Cutting after one more block is cutting that block at what is left of the size. */
  lemma CutGrows(before: Bytes, block: Bytes, size: Option<u64>)
    requires |block| == BLOCK
    ensures var done := |Cut(before, size)|;
      var length := if size.None? then BLOCK
                    else if size.value <= done then 0
                    else if size.value - done < BLOCK then size.value - done
                    else BLOCK;
      Cut(before + block, size) == Cut(before, size) + block[..length]
  {
    if size.Some? && size.value <= |before| {
      assert (before + block)[..size.value] == before[..size.value];
    } else if size.Some? && size.value < |before| + BLOCK {
      assert (before + block)[..size.value] == before + block[..size.value - |before|];
    }
  }

  /**
   * The decryption reader over what the encryption writer emits: the sizes are accepted, the length is
   * right, and the whole output is the plaintext.
   */
  lemma DecryptsWhatWasEncrypted(
    enc: BlockCipher, dec: BlockCipher, iv: Bytes, plain: Bytes, ciphertextSize: Option<u64>)
    requires IsCipher(enc, dec) && |iv| == BLOCK && |plain| + BLOCK - 1 < U64_LIMIT
    requires ciphertextSize.Some? ==> ciphertextSize.value == |EncryptZeroPad(enc, iv, plain)|
    ensures ExpectedSize(ciphertextSize, Some(|plain|)) == Success(Some(|EncryptZeroPad(enc, iv, plain)|))
    ensures Cut(Decrypt(dec, iv, EncryptZeroPad(enc, iv, plain)), Some(|plain|)) == plain
  {
    EncryptZeroPadInverts(enc, dec, iv, plain);
  }

  /**
   * The reader over what the writer has emitted, for any cut of the plaintext into writes, any flushes in
   * between, any buffer sizes and with or without a declared ciphertext size.
   */
  method EncryptThenDecrypt(enc: BlockCipher, dec: BlockCipher, iv: Bytes, plain: Bytes, declared: bool)
    returns (r: Result<Bytes, R7zError>, ghost faults: nat)
    requires IsCipher(enc, dec) && IsCipher(dec, enc) && |iv| == BLOCK && |plain| + BLOCK - 1 < U64_LIMIT
    ensures r.Success? ==> r.value == plain
    ensures r.Failure? ==> faults > 0
  {
    var sink := new Sink();
    faults := 0;
    var written := EncryptAll(enc, dec, iv, plain, sink);
    if written.Some? {
      return Failure(written.value), 1;
    }
    var source := new Source(sink.written);
    EncryptZeroPadInverts(enc, dec, iv, plain);
    var size: Option<u64> := if declared then Some(|sink.written|) else None;
    DecryptsWhatWasEncrypted(enc, dec, iv, plain, size);
    r := DecryptAll(enc, dec, iv, plain, source, size, |plain|);
    faults := source.failures;
  }

  /** Writes of any sizes, flushed or not. */
  method EncryptAll(enc: BlockCipher, ghost dec: BlockCipher, iv: Bytes, plain: Bytes, sink: Sink)
    returns (error: Option<R7zError>)
    requires IsCipher(enc, dec) && |iv| == BLOCK && |plain| < U64_LIMIT && sink.written == []
    modifies sink
    ensures error.None? ==> sink.written == EncryptZeroPad(enc, iv, plain)
    ensures error.Some? ==> sink.failures > old(sink.failures)
  {
    hide IsCipher, EncryptZeroPad, Aes256CbcEncryptWriter.Valid;
    var writer := new Aes256CbcEncryptWriter(sink, enc, dec, iv);
    var at := 0;
    while at < |plain|
      invariant at <= |plain| && writer.Valid() && writer.accepted == plain[..at] && fresh(writer)
      invariant writer.inner == sink && writer.enc == enc && writer.iv == iv && sink.failures == old(sink.failures)
    {
      var count :| 0 < count <= |plain| - at;
      var next := writer.Write(plain[at..at + count]);
      if next.Failure? {
        return Some(next.error);
      }
      assert plain[..at] + plain[at..at + count] == plain[..at + count];
      at := at + count;
      if * {
        error := writer.Flush();
        if error.Some? {
          return;
        }
      }
    }
    assert plain[..|plain|] == plain;
    var finished := writer.Finish();
    error := if finished.Success? then None else Some(finished.error);
  }

  /** Reads of any sizes, to the end. */
  method DecryptAll(
      ghost enc: BlockCipher, dec: BlockCipher, iv: Bytes, ghost plain: Bytes, source: Source, size: Option<u64>,
      length: u64)
    returns (r: Result<Bytes, R7zError>)
    requires IsCipher(enc, dec) && IsCipher(dec, enc) && |iv| == BLOCK && |plain| + BLOCK - 1 < U64_LIMIT
    requires source.Valid() && source.position == 0 && source.content == EncryptZeroPad(enc, iv, plain)
    requires (size.Some? ==> size.value == |source.content|) && length == |plain|
    modifies source
    ensures old(source.failures) <= source.failures
    ensures r.Success? ==> r.value == plain
    ensures r.Failure? ==> source.failures > old(source.failures)
  {
    hide Decrypt, EncryptZeroPad;
    DecryptsWhatWasEncrypted(enc, dec, iv, plain, size);
    CipherKeepsBlocks(dec, enc);
    EncryptZeroPadInverts(enc, dec, iv, plain);
    var reader := new Aes256CbcDecryptReader(source, dec, iv, size, Some(length));
    var output: Bytes := [];
    while true
      invariant reader.Holds() && fresh(reader) && reader.inner == source && reader.dec == dec && reader.iv == iv
      invariant reader.plaintextSize == Some(|plain|) && reader.expected == Some(|source.content|)
      invariant reader.delivered == output && |output| <= |plain| && old(source.failures) <= source.failures
      decreases |plain| - |output|
    {
      var count :| 0 < count;
      var next := reader.Read(count);
      if next.Failure? {
        return Failure(next.error);
      }
      output := output + next.value;
      if next.value == [] {
        return Success(output);
      }
    }
  }
}
