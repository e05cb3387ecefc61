/** Recovering the repository format block from its checksummed copies (format_block.go). */
module FormatBlock {
  import opened ByteStrings

  const CHECKSUM_SIZE := 32
  const MAX_CHECKSUMMED_LENGTH := 65000
  const CHUNK_LENGTH := 65536

  /** The keyed checksum; all that is used of it is its width. */
  ghost predicate IsChecksum(mac: Bytes -> Bytes) {
    forall d :: |mac(d)| == CHECKSUM_SIZE
  }

  function TwoBytes(l: nat): Bytes {
    [l % 0x100, l / 0x100 % 0x100]
  }

  /** `addFormatBlockChecksumAndLength`: length, checksummed bytes, length again. */
  function AddChecksumAndLength(mac: Bytes -> Bytes, fb: Bytes): (r: Result<Bytes>) {
    var c := fb + mac(fb);
    if |c| > MAX_CHECKSUMMED_LENGTH then Err(TooLong) else Ok(TwoBytes(|c|) + c + TwoBytes(|c|))
  }

  function VerifyChecksum(mac: Bytes -> Bytes, b: Bytes): (r: Option<Bytes>) {
    if |b| < CHECKSUM_SIZE then None
    else
      var data, sum := b[..|b| - CHECKSUM_SIZE], b[|b| - CHECKSUM_SIZE..];
      if mac(data) == sum then Some(data) else None
  }

  /** A copy at the start of the chunk. */
  function TryPrefix(mac: Bytes -> Bytes, chunk: Bytes): (r: Option<Bytes>)
    requires |chunk| >= 2
  {
    var l: int := chunk[0] + chunk[1] as int * 0x100;
    if l <= MAX_CHECKSUMMED_LENGTH && l + 2 < |chunk| then VerifyChecksum(mac, chunk[2..2 + l]) else None
  }

  /** A copy at the end of the chunk. */
  function TrySuffix(mac: Bytes -> Bytes, chunk: Bytes): (r: Option<Bytes>)
    requires |chunk| >= 2
  {
    var n := |chunk|;
    var l: int := chunk[n - 2] + chunk[n - 1] as int * 0x100;
    if l <= MAX_CHECKSUMMED_LENGTH && l + 2 < n then VerifyChecksum(mac, chunk[n - 2 - l..n - 2]) else None
  }

  function ChunkLength(length: nat): nat {
    if length < CHUNK_LENGTH then length else CHUNK_LENGTH
  }

  /** `recoverFormatBlockWithLength` on a file of that length. */
  function Recover(mac: Bytes -> Bytes, file: Bytes): (r: Result<Bytes>) {
    var n := ChunkLength(|file|);
    if n <= 4 then Err(NotFound)
    else match TryPrefix(mac, file[..n])
      case Some(b) => Ok(b)
      case None =>
        match TrySuffix(mac, file[|file| - n..])
        case Some(b) => Ok(b)
        case None => Err(NotFound)
  }

  lemma ChecksumVerifies(mac: Bytes -> Bytes, fb: Bytes)
    requires IsChecksum(mac)
    ensures VerifyChecksum(mac, fb + mac(fb)) == Some(fb)
  {
    var b := fb + mac(fb);
    assert b[..|b| - CHECKSUM_SIZE] == fb;
    assert b[|b| - CHECKSUM_SIZE..] == mac(fb);
  }

  /** Bytes verify exactly if they end in the checksum of the rest. */
  lemma VerifiesIff(mac: Bytes -> Bytes, b: Bytes, d: Bytes)
    requires IsChecksum(mac)
    ensures VerifyChecksum(mac, b) == Some(d) <==> b == d + mac(d)
  {
    if b == d + mac(d) {
      ChecksumVerifies(mac, d);
    }
    if VerifyChecksum(mac, b) == Some(d) {
      assert b == b[..|b| - CHECKSUM_SIZE] + b[|b| - CHECKSUM_SIZE..];
    }
  }

  lemma TwoBytesRead(l: nat)
    requires l < 0x1_0000
    ensures TwoBytes(l)[0] as int + TwoBytes(l)[1] as int * 0x100 == l
  {
  }

  lemma TryPrefixFinds(mac: Bytes -> Bytes, fb: Bytes, rest: Bytes)
    requires IsChecksum(mac) && |fb + mac(fb)| <= MAX_CHECKSUMMED_LENGTH && rest != []
    ensures TryPrefix(mac, TwoBytes(|fb + mac(fb)|) + (fb + mac(fb)) + rest) == Some(fb)
  {
    hide VerifyChecksum;
    hide TwoBytes;
    var c := fb + mac(fb);
    var t := TwoBytes(|c|);
    var chunk := t + c + rest;
    TwoBytesRead(|c|);
    assert |t| == 2 by { TwoBytesWidth(|c|); }
    assert chunk[0] == t[0] && chunk[1] == t[1];
    assert chunk[2..2 + |c|] == c;
    ChecksumVerifies(mac, fb);
  }

  lemma TwoBytesWidth(l: nat)
    ensures |TwoBytes(l)| == 2
  {
  }

  lemma TrySuffixFinds(mac: Bytes -> Bytes, fb: Bytes, front: Bytes)
    requires IsChecksum(mac) && |fb + mac(fb)| <= MAX_CHECKSUMMED_LENGTH && front != []
    ensures TrySuffix(mac, front + (fb + mac(fb)) + TwoBytes(|fb + mac(fb)|)) == Some(fb)
  {
    hide VerifyChecksum;
    hide TwoBytes;
    var c := fb + mac(fb);
    var t := TwoBytes(|c|);
    var chunk := front + c + t;
    TwoBytesRead(|c|);
    assert |t| == 2 by { TwoBytesWidth(|c|); }
    var n := |chunk|;
    assert chunk[n - 2] == t[0] && chunk[n - 1] == t[1];
    assert chunk[n - 2 - |c|..n - 2] == c;
    ChecksumVerifies(mac, fb);
  }

  /** Any file that begins with the checksummed copy gives the format block back. */
  lemma RecoverFromPrefix(mac: Bytes -> Bytes, fb: Bytes, tail: Bytes)
    requires IsChecksum(mac) && AddChecksumAndLength(mac, fb).Ok?
    ensures Recover(mac, AddChecksumAndLength(mac, fb).value + tail) == Ok(fb)
  {
    hide TryPrefix;
    hide TrySuffix;
    hide TwoBytes;
    var c := fb + mac(fb);
    var t := TwoBytes(|c|);
    TwoBytesWidth(|c|);
    var file := AddChecksumAndLength(mac, fb).value + tail;
    var n := ChunkLength(|file|);
    var rest := (t + tail)[..n - |c| - 2];
    assert file == t + c + (t + tail);
    assert file[..n] == t + c + rest;
    TryPrefixFinds(mac, fb, rest);
  }

  /** A file that ends with the copy gives the format block back exactly when its start is
      not itself taken for a copy of something else. */
  lemma RecoverFromSuffix(mac: Bytes -> Bytes, fb: Bytes, head: Bytes)
    requires IsChecksum(mac) && AddChecksumAndLength(mac, fb).Ok?
    ensures var file := head + AddChecksumAndLength(mac, fb).value;
      var start := TryPrefix(mac, file[..ChunkLength(|file|)]);
      Recover(mac, file) == Ok(fb) <==> start == None || start == Some(fb)
  {
    hide TryPrefix;
    hide TrySuffix;
    hide TwoBytes;
    var c := fb + mac(fb);
    var t := TwoBytes(|c|);
    TwoBytesWidth(|c|);
    var file := head + AddChecksumAndLength(mac, fb).value;
    var n := ChunkLength(|file|);
    var all := head + t;
    assert file == all + c + t;
    var front := all[|file| - n..];
    assert file[|file| - n..] == front + c + t;
    TrySuffixFinds(mac, fb, front);
  }

  /** Copies are refused exactly when the block and its checksum exceed 65000 bytes. */
  lemma SizeLimit(mac: Bytes -> Bytes, fb: Bytes)
    requires IsChecksum(mac)
    ensures AddChecksumAndLength(mac, fb).Ok? <==> |fb| <= 64968
  {
  }

  /** The file has the checksummed block behind its length, at the start, or before its length, at
      the end. */
  ghost predicate HasCopy(mac: Bytes -> Bytes, file: Bytes, fb: Bytes) {
    var c := fb + mac(fb);
    && |c| <= MAX_CHECKSUMMED_LENGTH && |c| + 2 < |file|
    && (file[..2 + |c|] == TwoBytes(|c|) + c || file[|file| - 2 - |c|..] == c + TwoBytes(|c|))
  }

  /** Whatever the file holds, only what it has a copy of is recovered. */
  lemma RecoveredHasCopy(mac: Bytes -> Bytes, file: Bytes, fb: Bytes)
    requires IsChecksum(mac) && Recover(mac, file) == Ok(fb)
    ensures HasCopy(mac, file, fb)
  {
    hide TryPrefix;
    hide TrySuffix;
    hide HasCopy;
    var n := ChunkLength(|file|);
    if TryPrefix(mac, file[..n]) == Some(fb) {
      PrefixCopy(mac, file, n, fb);
    } else {
      SuffixCopy(mac, file, n, fb);
    }
  }

  lemma PrefixCopy(mac: Bytes -> Bytes, file: Bytes, n: nat, fb: Bytes)
    requires IsChecksum(mac) && 2 <= n <= |file| && TryPrefix(mac, file[..n]) == Some(fb)
    ensures HasCopy(mac, file, fb)
  {
    hide VerifyChecksum;
    hide TwoBytes;
    var l: int := file[0] + file[1] as int * 0x100;
    assert file[..n][2..2 + l] == file[2..2 + l];
    VerifiesIff(mac, file[2..2 + l], fb);
    TwoBytesOf(file[0], file[1]);
    assert file[..2 + l] == [file[0], file[1]] + file[2..2 + l];
  }

  lemma SuffixCopy(mac: Bytes -> Bytes, file: Bytes, n: nat, fb: Bytes)
    requires IsChecksum(mac) && 2 <= n <= |file| && TrySuffix(mac, file[|file| - n..]) == Some(fb)
    ensures HasCopy(mac, file, fb)
  {
    hide VerifyChecksum;
    hide TwoBytes;
    var m := |file| - 2;
    var l: int := file[m] + file[m + 1] as int * 0x100;
    assert file[|file| - n..][n - 2 - l..n - 2] == file[m - l..m];
    VerifiesIff(mac, file[m - l..m], fb);
    TwoBytesOf(file[m], file[m + 1]);
    assert file[m - l..] == file[m - l..m] + [file[m], file[m + 1]];
  }

  lemma TwoBytesOf(lo: byte, hi: byte)
    ensures TwoBytes(lo + hi as int * 0x100) == [lo, hi]
  {
  }
}
