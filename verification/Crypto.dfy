/** The hash, cipher and checksum a repository is configured with, as parameters, and what
    the block layer builds from them (block_manager.go, block_formatter.go). */
module Crypto {
  import opened ByteStrings
  import opened ContentId

  const IV_LENGTH := 16

  datatype Suite = Suite(
    hash: Bytes -> Bytes,
    encrypt: (Bytes, Bytes) -> Bytes,
    decrypt: (Bytes, Bytes) -> Bytes,
    crc: Bytes -> uint32)
  {
    /** Hashes are 16 bytes, as with the default BLAKE2B-256-128; encryption keeps lengths and
        is undone by decryption with the same initialisation vector. Nothing is assumed
        about collisions. */
    ghost predicate Lawful() {
      && (forall d :: |hash(d)| == IV_LENGTH)
      && (forall d, iv :: |encrypt(d, iv)| == |d| && decrypt(encrypt(d, iv), iv) == d)
    }

    /** The ID under which `WriteBlock` stores `data`. */
    function BlockId(prefix: Bytes, data: Bytes): Bytes {
      prefix + HexEncode(hash(data))
    }

    /** `verifyChecksum`. */
    predicate ChecksumOk(data: Bytes, iv: Bytes) {
      var h := hash(data);
      var expected := if |h| >= IV_LENGTH then h[|h| - IV_LENGTH..] else h;
      |expected| <= |iv| && iv[|iv| - |expected|..] == expected
    }

    /** `decryptAndVerify`. */
    function DecryptAndVerify(encrypted: Bytes, iv: Bytes): (r: Result<Bytes>) {
      var d := decrypt(encrypted, iv);
      if ChecksumOk(d, iv) then Ok(d) else Err(BadChecksum)
    }
  }

  predicate ValidPrefix(prefix: Bytes) {
    |prefix| == 0 || (|prefix| == 1 && 103 <= prefix[0] <= 122)
  }

  /** A prefix is a lower-case letter that is not a digit of the hash behind it, or nothing. */
  lemma ValidPrefixIff(prefix: Bytes)
    ensures ValidPrefix(prefix) <==>
      prefix == [] || (|prefix| == 1 && 97 <= prefix[0] <= 122 && HexValue(prefix[0]).None?)
  {
  }

  /** `getPackedBlockIV`: the last 32 digits of the ID. */
  function PackedIV(id: Bytes): (r: Option<Bytes>) {
    if |id| < 2 * IV_LENGTH then None else HexDecode(id[|id| - 2 * IV_LENGTH..])
  }

  /** The IDs of blocks: canonical, with a key of the one length that index files have. */
  predicate KeyOk(id: Bytes) {
    Canonical(id) && |ToKey(id)| == IV_LENGTH + 1
  }

  /** `id` is the ID of `data` under some valid prefix. */
  ghost predicate Identifies(c: Suite, id: Bytes, data: Bytes) {
    exists prefix :: ValidPrefix(prefix) && id == c.BlockId(prefix, data)
  }

  lemma BlockIdIdentifies(c: Suite, prefix: Bytes, data: Bytes)
    requires ValidPrefix(prefix)
    ensures Identifies(c, c.BlockId(prefix, data), data)
  {
    hide HexEncode;
  }

  /** The initialisation vector is recovered from the ID alone. */
  lemma IvOfId(c: Suite, id: Bytes, data: Bytes)
    requires c.Lawful() && Identifies(c, id, data)
    ensures PackedIV(id) == Some(c.hash(data))
    ensures Canonical(id) && |ToKey(id)| == IV_LENGTH + 1 && id != []
  {
    hide HexEncode;
    hide HexDecode;
    hide Canonical;
    hide ToKey;
    var prefix :| ValidPrefix(prefix) && id == c.BlockId(prefix, data);
    var h := c.hash(data);
    HexRoundTrip(h);
    assert id[|id| - 2 * IV_LENGTH..] == HexEncode(h);
    HashIdCanonical(prefix, h);
  }

  lemma EncryptKeepsLength(c: Suite, d: Bytes, iv: Bytes)
    requires c.Lawful()
    ensures |c.encrypt(d, iv)| == |d|
  {
  }

  /** What was encrypted under a block's own hash decrypts and passes the checksum. */
  lemma DecryptsBack(c: Suite, data: Bytes)
    requires c.Lawful()
    ensures c.DecryptAndVerify(c.encrypt(data, c.hash(data)), c.hash(data)) == Ok(data)
  {
    var h := c.hash(data);
    assert h[|h| - IV_LENGTH..] == h;
  }

  /** Bytes come back from decryption exactly if their own hash ends the vector they were decrypted
      with; anything else is an invalid checksum. */
  lemma VerifiedIff(c: Suite, encrypted: Bytes, iv: Bytes, d: Bytes)
    requires c.Lawful()
    ensures c.DecryptAndVerify(encrypted, iv) == Ok(d) <==>
      c.decrypt(encrypted, iv) == d && |iv| >= IV_LENGTH && iv[|iv| - IV_LENGTH..] == c.hash(d)
    ensures c.DecryptAndVerify(encrypted, iv).Err? ==> c.DecryptAndVerify(encrypted, iv) == Err(BadChecksum)
  {
    var h := c.hash(c.decrypt(encrypted, iv));
    assert h[|h| - IV_LENGTH..] == h;
  }

  lemma PackedIvLength(id: Bytes)
    ensures PackedIV(id).Some? ==> |PackedIV(id).value| == IV_LENGTH
  {
    hide HexDecode;
  }
}
