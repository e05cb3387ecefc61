/** Cutting a stream of bytes into chunks (object_splitter.go). A splitter's decision after a
    byte depends on the bytes it was fed so far, so it is given as a function of them. */
module ObjectSplitter {
  import opened ByteStrings

  type Splitter = Bytes -> bool

  /** The chunks flushed so far and the bytes still buffered, after a stream was written. */
  datatype Cut = Cut(chunks: seq<Bytes>, buffer: Bytes)

  function Feed(split: Splitter, data: Bytes): (r: Cut) {
    if data == [] then Cut([], [])
    else
      var c := Feed(split, data[..|data| - 1]);
      var b := c.buffer + [data[|data| - 1]];
      if split(data) then Cut(c.chunks + [b], []) else Cut(c.chunks, b)
  }

  /** The chunks of a finished object: the rest of the buffer is flushed, and an empty object
      still has one chunk. */
  function Chunks(split: Splitter, data: Bytes): (r: seq<Bytes>)
    ensures |r| >= 1
  {
    var c := Feed(split, data);
    if c.buffer != [] || c.chunks == [] then c.chunks + [c.buffer] else c.chunks
  }

  function Concat(chunks: seq<Bytes>): (r: Bytes) {
    if chunks == [] then [] else Concat(chunks[..|chunks| - 1]) + chunks[|chunks| - 1]
  }

  lemma ConcatAppend(chunks: seq<Bytes>, c: Bytes)
    ensures Concat(chunks + [c]) == Concat(chunks) + c
  {
    assert (chunks + [c])[..|chunks|] == chunks;
  }

  /** Chunks and buffer together are the stream. */
  predicate CutOf(c: Cut, data: Bytes) {
    Concat(c.chunks) + c.buffer == data
  }

  lemma {:induction false} FeedConcat(split: Splitter, data: Bytes)
    ensures CutOf(Feed(split, data), data)
  {
    hide CutOf;
    if data == [] {
      NothingCut();
    } else {
      var n := |data| - 1;
      FeedConcat(split, data[..n]);
      OneMore(Feed(split, data[..n]), data[..n], data[n]);
      assert data == data[..n] + [data[n]];
    }
  }

  lemma NothingCut()
    ensures CutOf(Cut([], []), [])
  {
  }

  lemma OneMore(c: Cut, data: Bytes, x: byte)
    requires CutOf(c, data)
    ensures CutOf(Cut(c.chunks, c.buffer + [x]), data + [x])
    ensures CutOf(Cut(c.chunks + [c.buffer + [x]], []), data + [x])
  {
    ConcatAppend(c.chunks, c.buffer + [x]);
    assert Concat(c.chunks) + (c.buffer + [x]) == (Concat(c.chunks) + c.buffer) + [x];
  }

  /** Cutting loses nothing. */
  lemma ChunksConcat(split: Splitter, data: Bytes)
    ensures Concat(Chunks(split, data)) == data
  {
    FeedConcat(split, data);
    ConcatAppend(Feed(split, data).chunks, Feed(split, data).buffer);
  }

  /* ----- the fixed splitter ----- */

  /** Every `length` bytes; a length below 1 cuts after every byte. */
  function Fixed(length: int): Splitter {
    (h: Bytes) => if length <= 1 then true else |h| % length == 0
  }

  class FixedSplitter {
    const chunkLength: int
    var cur: int
    ghost var fed: Bytes

    ghost predicate Valid()
      reads this
    {
      cur == if chunkLength <= 1 then 0 else |fed| % chunkLength
    }

    constructor (chunkLength: int)
      ensures Valid() && this.chunkLength == chunkLength && fed == []
    {
      this.chunkLength := chunkLength;
      cur := 0;
      fed := [];
    }

    method Add(b: byte) returns (cut: bool)
      requires Valid()
      modifies this
      ensures Valid() && fed == old(fed) + [b] && cut == Fixed(chunkLength)(fed)
    {
      if chunkLength > 1 {
        NextRemainder(|fed|, chunkLength);
      }
      fed := fed + [b];
      cur := cur + 1;
      if cur >= chunkLength {
        cur := 0;
        return true;
      }
      return false;
    }
  }

  lemma NextRemainder(n: nat, m: nat)
    requires m > 0
    ensures (n + 1) % m == if n % m + 1 == m then 0 else n % m + 1
  {
    var q, r := n / m, n % m;
    assert n == m * q + r;
    if r + 1 == m {
      assert n + 1 == m * (q + 1);
      RemainderIs(q + 1, 0, m);
    } else {
      RemainderIs(q, r + 1, m);
    }
  }

  lemma {:induction false} RemainderIs(q: nat, r: nat, m: nat)
    requires r < m
    ensures (m * q + r) % m == r
  {
    var x := m * q + r;
    assert m * (x / m) + x % m == x;
    var d := x / m - q;
    assert m * d == r - x % m;
    assert d >= 1 ==> m * d >= m;
    assert d <= -1 ==> m * d <= 0 - m;
  }

  /** `ceil(n / length)` chunks, and one for an empty object. */
  function ChunkCount(n: nat, length: nat): (r: nat)
    requires length > 0
  {
    if n <= length then 1 else 1 + ChunkCount(n - length, length)
  }

  /** State of the fixed splitter after `n` bytes. */
  lemma {:induction false} FixedFeed(length: nat, data: Bytes)
    requires length > 0
    ensures var c := Feed(Fixed(length), data);
      |c.buffer| < length && |data| == length * |c.chunks| + |c.buffer|
  {
    if data != [] {
      var n := |data| - 1;
      FixedFeed(length, data[..n]);
      var c := Feed(Fixed(length), data[..n]);
      RemainderIs(|c.chunks|, |c.buffer|, length);
      if length > 1 {
        NextRemainder(n, length);
      }
      assert length * (|c.chunks| + 1) == length * |c.chunks| + length;
    }
  }

  lemma {:induction false} ChunkCountIs(q: nat, r: nat, length: nat)
    requires length > 0 && r < length
    ensures ChunkCount(length * q + r, length) == if r > 0 || q == 0 then q + 1 else q
  {
    var n := length * q + r;
    if q > 0 {
      assert n == length * (q - 1) + r + length;
      if n > length {
        ChunkCountIs(q - 1, r, length);
      } else {
        assert length * (q - 1) == 0 && r == 0;
        assert q > 1 ==> length * (q - 1) >= length;
      }
    }
  }

  lemma FixedChunkCount(length: nat, data: Bytes)
    requires length > 0
    ensures |Chunks(Fixed(length), data)| == ChunkCount(|data|, length)
  {
    hide Feed;
    FixedFeed(length, data);
    var c := Feed(Fixed(length), data);
    ChunkCountIs(|c.chunks|, |c.buffer|, length);
  }

  /* ----- the rolling-hash splitter ----- */

  /** Bytes since the last cut. `sum` is the rolling hash after the bytes fed so far. */
  function RollingSize(sum: Bytes -> uint32, modulus: nat, min: int, max: int, h: Bytes): (r: nat)
    requires modulus > 0
  {
    if h == [] then 0
    else
      var n := RollingSize(sum, modulus, min, max, h[..|h| - 1]) + 1;
      if n >= max || (sum(h) % modulus == 0 && n > min && sum(h) != 0) then 0 else n
  }

  /** The mask is one below a power of two, so masking is taking the remainder. */
  function Rolling(sum: Bytes -> uint32, modulus: nat, min: int, max: int): Splitter
    requires modulus > 0
  {
    (h: Bytes) => RollingSize(sum, modulus, min, max, h) == 0
  }

  class RollingHashSplitter {
    const sum: Bytes -> uint32
    const modulus: nat
    const minBlockSize: int
    const maxBlockSize: int
    var currentBlockSize: nat
    var fed: Bytes

    ghost predicate Valid()
      reads this
    {
      modulus > 0 && currentBlockSize == RollingSize(sum, modulus, minBlockSize, maxBlockSize, fed)
    }

    constructor (sum: Bytes -> uint32, modulus: nat, min: int, max: int)
      requires modulus > 0
      ensures Valid() && fed == []
      ensures this.sum == sum && this.modulus == modulus && minBlockSize == min && maxBlockSize == max
    {
      this.sum, this.modulus, minBlockSize, maxBlockSize := sum, modulus, min, max;
      currentBlockSize, fed := 0, [];
    }

    method Add(b: byte) returns (cut: bool)
      requires Valid()
      modifies this
      ensures Valid() && fed == old(fed) + [b]
      ensures cut == Rolling(sum, modulus, minBlockSize, maxBlockSize)(fed)
    {
      fed := fed + [b];
      assert fed[..|fed| - 1] == old(fed);
      var s := sum(fed);
      currentBlockSize := currentBlockSize + 1;
      if currentBlockSize >= maxBlockSize {
        currentBlockSize := 0;
        return true;
      }
      if s % modulus == 0 && currentBlockSize > minBlockSize && s != 0 {
        currentBlockSize := 0;
        return true;
      }
      return false;
    }
  }

  /** Chunks never exceed the maximum, and every chunk but the last is longer than the minimum
      unless it has the maximum length. */
  lemma {:induction false} RollingChunkSizes(sum: Bytes -> uint32, modulus: nat, min: int, max: nat, data: Bytes)
    requires modulus > 0 && max > 0
    ensures var c := Feed(Rolling(sum, modulus, min, max), data);
      && |c.buffer| == RollingSize(sum, modulus, min, max, data) && |c.buffer| < max
      && forall i :: 0 <= i < |c.chunks| ==> |c.chunks[i]| == max || (min < |c.chunks[i]| < max && c.chunks[i] != [])
  {
    if data != [] {
      RollingChunkSizes(sum, modulus, min, max, data[..|data| - 1]);
    }
  }

  /* ----- where the rolling-hash splitter cuts ----- */

  /** The hash asks for a cut after these bytes. */
  predicate Hit(sum: Bytes -> uint32, modulus: nat, h: Bytes)
    requires modulus > 0
  {
    sum(h) != 0 && sum(h) % modulus == 0
  }

  lemma {:induction false} RollingBuffer(sum: Bytes -> uint32, modulus: nat, min: int, max: int, data: Bytes)
    requires modulus > 0
    ensures |Feed(Rolling(sum, modulus, min, max), data).buffer| == RollingSize(sum, modulus, min, max, data)
  {
    if data != [] {
      RollingBuffer(sum, modulus, min, max, data[..|data| - 1]);
    }
  }

  /** A chunk ends with a byte exactly when it then has the maximum length, or is longer than the
      minimum and the hash asks for it. */
  lemma RollingCutIff(sum: Bytes -> uint32, modulus: nat, min: int, max: int, data: Bytes)
    requires modulus > 0 && data != []
    ensures var n := |data| - 1;
      var c := Feed(Rolling(sum, modulus, min, max), data[..n]);
      var b := c.buffer + [data[n]];
      Feed(Rolling(sum, modulus, min, max), data) ==
        if |b| >= max || (|b| > min && Hit(sum, modulus, data)) then Cut(c.chunks + [b], []) else Cut(c.chunks, b)
  {
    RollingBuffer(sum, modulus, min, max, data[..|data| - 1]);
  }

  /** A chunk that begins at `from` may end at `to`. */
  predicate Ends(sum: Bytes -> uint32, modulus: nat, min: int, max: int, data: Bytes, from: nat, to: nat)
    requires modulus > 0 && from <= to <= |data|
  {
    to - from >= max || (to - from > min && Hit(sum, modulus, data[..to]))
  }

  /** It must, and not before. */
  ghost predicate EndsFirst(sum: Bytes -> uint32, modulus: nat, min: int, max: int, data: Bytes, from: nat, to: nat)
    requires modulus > 0
  {
    && from < to <= |data| && Ends(sum, modulus, min, max, data, from, to)
    && forall e :: from < e < to ==> !Ends(sum, modulus, min, max, data, from, e)
  }

  /** No chunk that begins at `from` ends. */
  ghost predicate NoEnd(sum: Bytes -> uint32, modulus: nat, min: int, max: int, data: Bytes, from: nat)
    requires modulus > 0
  {
    from <= |data| && forall e :: from < e <= |data| ==> !Ends(sum, modulus, min, max, data, from, e)
  }

  /** Where chunk `i` begins. */
  function Begin(chunks: seq<Bytes>, i: nat): nat
    requires i <= |chunks|
  {
    |Concat(chunks[..i])|
  }

  /** Every chunk ends at the first place where it may, and the rest, which is flushed at the end,
      has no such place. This fixes the chunks of every stream. */
  lemma {:induction false} RollingCutsFirst(sum: Bytes -> uint32, modulus: nat, min: int, max: int, data: Bytes)
    requires modulus > 0
    ensures var chunks := Feed(Rolling(sum, modulus, min, max), data).chunks;
      && (forall i :: 0 <= i < |chunks| ==>
            EndsFirst(sum, modulus, min, max, data, Begin(chunks, i), Begin(chunks, i) + |chunks[i]|))
      && NoEnd(sum, modulus, min, max, data, Begin(chunks, |chunks|))
  {
    hide Feed;
    hide Rolling;
    hide Concat;
    hide Ends;
    if data == [] {
      NothingFed(Rolling(sum, modulus, min, max));
    } else {
      var n := |data| - 1;
      var c, d := Feed(Rolling(sum, modulus, min, max), data[..n]), Feed(Rolling(sum, modulus, min, max), data);
      RollingCutsFirst(sum, modulus, min, max, data[..n]);
      RollingCutIff(sum, modulus, min, max, data);
      BufferLength(Rolling(sum, modulus, min, max), data[..n]);
      var from := Begin(c.chunks, |c.chunks|);
      assert c.chunks[..|c.chunks|] == c.chunks;
      forall i | 0 <= i < |c.chunks|
        ensures EndsFirst(sum, modulus, min, max, data, Begin(d.chunks, i), Begin(d.chunks, i) + |d.chunks[i]|)
      {
        assert d.chunks[..i] == c.chunks[..i];
        EndsFirstLater(sum, modulus, min, max, data, Begin(c.chunks, i), Begin(c.chunks, i) + |c.chunks[i]|);
      }
      NoEndLater(sum, modulus, min, max, data, from);
      EndsIs(sum, modulus, min, max, data, from);
      if d.buffer == [] {
        assert d.chunks[..|c.chunks|] == c.chunks;
        BufferLength(Rolling(sum, modulus, min, max), data);
        assert d.chunks[..|d.chunks|] == d.chunks;
      }
    }
  }

  lemma NothingFed(split: Splitter)
    ensures Feed(split, []) == Cut([], []) && Concat([]) == []
  {
  }

  lemma BufferLength(split: Splitter, data: Bytes)
    ensures var c := Feed(split, data); |Concat(c.chunks)| + |c.buffer| == |data|
  {
    FeedConcat(split, data);
  }

  lemma EndsIs(sum: Bytes -> uint32, modulus: nat, min: int, max: int, data: Bytes, from: nat)
    requires modulus > 0 && from < |data|
    ensures Ends(sum, modulus, min, max, data, from, |data|) <==>
      |data| - from >= max || (|data| - from > min && Hit(sum, modulus, data))
  {
    assert data[..|data|] == data;
  }

  lemma EndsLater(sum: Bytes -> uint32, modulus: nat, min: int, max: int, data: Bytes, from: nat, to: nat)
    requires modulus > 0 && from <= to < |data|
    ensures Ends(sum, modulus, min, max, data, from, to) <==> Ends(sum, modulus, min, max, data[..|data| - 1], from, to)
  {
    assert data[..|data| - 1][..to] == data[..to];
  }

  lemma EndsFirstLater(sum: Bytes -> uint32, modulus: nat, min: int, max: int, data: Bytes, from: nat, to: nat)
    requires modulus > 0 && data != [] && EndsFirst(sum, modulus, min, max, data[..|data| - 1], from, to)
    ensures EndsFirst(sum, modulus, min, max, data, from, to)
  {
    hide Ends;
    forall e | from < e <= to
      ensures Ends(sum, modulus, min, max, data, from, e) <==> Ends(sum, modulus, min, max, data[..|data| - 1], from, e)
    {
      EndsLater(sum, modulus, min, max, data, from, e);
    }
  }

  lemma NoEndLater(sum: Bytes -> uint32, modulus: nat, min: int, max: int, data: Bytes, from: nat)
    requires modulus > 0 && data != [] && NoEnd(sum, modulus, min, max, data[..|data| - 1], from)
    ensures forall e :: from < e < |data| ==> !Ends(sum, modulus, min, max, data, from, e)
  {
    hide Ends;
    forall e | from < e < |data| ensures !Ends(sum, modulus, min, max, data, from, e) {
      EndsLater(sum, modulus, min, max, data, from, e);
    }
  }

  /* ----- how long the chunks are ----- */

  /** Every chunk but the last has at least `m` bytes, and of several the last is not empty. */
  predicate LongChunks(chunks: seq<Bytes>, m: nat) {
    && (forall i :: 0 <= i < |chunks| - 1 ==> |chunks[i]| >= m)
    && (|chunks| >= 2 ==> chunks[|chunks| - 1] != [])
  }

  ghost predicate CutsLong(split: Splitter, m: nat) {
    forall data :: LongChunks(Chunks(split, data), m)
  }

  lemma {:induction false} LongSum(chunks: seq<Bytes>, m: nat)
    requires forall i :: 0 <= i < |chunks| ==> |chunks[i]| >= m
    ensures |Concat(chunks)| >= m * |chunks|
  {
    if chunks != [] {
      var n := |chunks| - 1;
      LongSum(chunks[..n], m);
      assert m * |chunks| == m * n + m;
    }
  }

  /** More than `m` bytes for each chunk but the last. */
  lemma ChunksLong(split: Splitter, m: nat, data: Bytes)
    requires CutsLong(split, m) && |Chunks(split, data)| >= 2
    ensures |data| > m * (|Chunks(split, data)| - 1)
  {
    hide Chunks;
    var chunks := Chunks(split, data);
    var n := |chunks| - 1;
    ChunksConcat(split, data);
    LongSum(chunks[..n], m);
  }

  predicate AllOf(chunks: seq<Bytes>, length: nat) {
    forall i :: 0 <= i < |chunks| ==> |chunks[i]| == length
  }

  lemma {:induction false} FixedChunkSizes(length: nat, data: Bytes)
    requires length > 0
    ensures AllOf(Feed(Fixed(length), data).chunks, length)
  {
    hide Fixed;
    if data != [] {
      var n := |data| - 1;
      FixedChunkSizes(length, data[..n]);
      FixedFeed(length, data[..n]);
      FixedFeed(length, data);
      var c, d := Feed(Fixed(length), data[..n]), Feed(Fixed(length), data);
      if Fixed(length)(data) {
        FullChunk(length, |c.chunks|, |c.buffer|, n);
      }
    }
  }

  lemma FullChunk(length: nat, chunks: nat, buffer: nat, n: nat)
    requires n == length * chunks + buffer && n + 1 == length * (chunks + 1)
    ensures buffer + 1 == length
  {
  }

  lemma AllLong(c: Cut, m: nat)
    requires m > 0 && forall i :: 0 <= i < |c.chunks| ==> |c.chunks[i]| >= m
    ensures LongChunks(if c.buffer != [] || c.chunks == [] then c.chunks + [c.buffer] else c.chunks, m)
  {
  }

  lemma FixedLong(length: nat, data: Bytes)
    requires length > 0
    ensures LongChunks(Chunks(Fixed(length), data), length)
  {
    FixedChunkSizes(length, data);
    var c := Feed(Fixed(length), data);
    assert AllOf(c.chunks, length);
    AllLong(c, length);
  }

  lemma FixedCutsLong(length: nat)
    requires length > 0
    ensures CutsLong(Fixed(length), length)
  {
    forall data ensures LongChunks(Chunks(Fixed(length), data), length) {
      FixedLong(length, data);
    }
  }

  /** The shortest chunk the rolling-hash splitter cuts. */
  function ShortestChunk(min: int, max: nat): (r: nat) {
    if min + 1 >= max then max else if min < 0 then 1 else min + 1
  }

  lemma RollingCutsLong(sum: Bytes -> uint32, modulus: nat, min: int, max: nat)
    requires modulus > 0 && max > 0
    ensures CutsLong(Rolling(sum, modulus, min, max), ShortestChunk(min, max))
  {
    forall data ensures LongChunks(Chunks(Rolling(sum, modulus, min, max), data), ShortestChunk(min, max)) {
      RollingChunkSizes(sum, modulus, min, max, data);
      AllLong(Feed(Rolling(sum, modulus, min, max), data), ShortestChunk(min, max));
    }
  }
}
