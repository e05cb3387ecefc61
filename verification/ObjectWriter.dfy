/** Writing an object as a stream of bytes (object_writer.go). */
module ObjectWriter {
  import opened ByteStrings
  import opened ObjectSplitter
  import opened Objects

  /** The part of the block manager the writer uses. Storing a block that is already there
      changes nothing. A failure may be reported for a block, which is stored all the same. */
  class BlockStore {
    const id: Bytes -> Bytes
    const accepts: Bytes -> bool
    var blocks: Store

    constructor (id: Bytes -> Bytes, accepts: Bytes -> bool)
      ensures this.id == id && this.accepts == accepts && blocks == map[]
    {
      this.id, this.accepts := id, accepts;
      blocks := map[];
    }

    ghost predicate AcceptsAll() {
      forall d :: accepts(d)
    }

    method WriteBlock(data: Bytes) returns (r: Result<Bytes>)
      modifies this
      ensures r == if accepts(data) then Ok(id(data)) else Err(StorageFailure)
      ensures blocks == if id(data) !in old(blocks) then old(blocks)[id(data) := data] else old(blocks)
    {
      if id(data) !in blocks {
        blocks := blocks[id(data) := data];
      }
      if !accepts(data) {
        return Err(StorageFailure);
      }
      return Ok(id(data));
    }
  }

  /** From `before` to `after` exactly these contents were stored: each has its ID, and nothing
      else was added or changed. */
  ghost predicate StoredAll(blockId: Bytes -> Bytes, before: Store, after: Store, contents: set<Bytes>) {
    && (forall c :: c in contents ==> blockId(c) in after)
    && (forall id :: id in before ==> id in after && after[id] == before[id])
    && (forall id :: id in after && id !in before ==> after[id] in contents && id == blockId(after[id]))
  }

  /** No content clashes with another, nor with what the store already had. */
  ghost predicate CollisionFree(blockId: Bytes -> Bytes, before: Store, contents: set<Bytes>) {
    && (forall a, b :: a in contents && b in contents && blockId(a) == blockId(b) ==> a == b)
    && (forall c :: c in contents && blockId(c) in before ==> before[blockId(c)] == c)
  }

  /** Without collisions the store then holds every content under its ID. */
  lemma StoredHolds(r: Repo, before: Store, after: Store, contents: set<Bytes>)
    requires StoredAll(r.blockId, before, after, contents) && CollisionFree(r.blockId, before, contents)
    ensures HoldsAll(r, after, contents)
  {
  }

  lemma StoredOne(blockId: Bytes -> Bytes, s: Store, data: Bytes)
    ensures StoredAll(blockId, s, if blockId(data) !in s then s[blockId(data) := data] else s, {data})
  {
  }

  lemma StoredMore(blockId: Bytes -> Bytes, a: Store, b: Store, c: Store, x: set<Bytes>, y: set<Bytes>)
    requires StoredAll(blockId, a, b, x) && StoredAll(blockId, b, c, y)
    ensures StoredAll(blockId, a, c, x + y)
  {
  }

  lemma StoredNone(blockId: Bytes -> Bytes, s: Store)
    ensures StoredAll(blockId, s, s, {})
  {
  }

  function ContentsOf(chunks: seq<Bytes>): set<Bytes> {
    set c | c in chunks
  }

  lemma OneMoreChunk(r: Repo, chunks: seq<Bytes>, data: Bytes)
    ensures Concat(chunks + [data]) == Concat(chunks) + data
    ensures Entries(r, chunks + [data])
         == Entries(r, chunks) + [ListEntry(|Concat(chunks)|, |data|, r.blockId(data))]
    ensures ContentsOf(chunks + [data]) == ContentsOf(chunks) + {data}
  {
    ConcatAppend(chunks, data);
    assert (chunks + [data])[..|chunks|] == chunks;
  }

  class Writer {
    const repo: Repo
    const store: BlockStore
    var buffer: Bytes
    var totalLength: nat
    var currentPosition: nat
    var blockIndex: seq<ListEntry>
    var fed: Bytes
    ghost var start: Store

    /** The writer's fields are what cutting the bytes fed so far gives, and the store has
        gained exactly the chunks cut so far. */
    ghost predicate Valid()
      reads this, store
    {
      store.id == repo.blockId && InStep() && totalLength == |fed|
    }

    ghost predicate InStep()
      reads this`buffer, this`blockIndex, this`currentPosition, this`start, this`fed, store
    {
      Holding(Feed(repo.split, fed))
    }

    ghost predicate Holding(c: Cut)
      reads this`buffer, this`blockIndex, this`currentPosition, this`start, store
    {
      && buffer == c.buffer && blockIndex == Entries(repo, c.chunks) && currentPosition == |Concat(c.chunks)|
      && StoredAll(repo.blockId, start, store.blocks, ContentsOf(c.chunks))
    }

    constructor (repo: Repo, store: BlockStore)
      requires store.id == repo.blockId
      ensures Valid() && this.repo == repo && this.store == store && fed == [] && start == store.blocks
    {
      this.repo, this.store := repo, store;
      buffer, totalLength, currentPosition, blockIndex, fed := [], 0, 0, [], [];
      start := store.blocks;
      new;
      StoredNone(repo.blockId, store.blocks);
      assert ContentsOf([]) == {};
    }

    /** Stores the buffered bytes as the next chunk. */
    method FlushBuffer(ghost c: Cut) returns (ok: bool)
      requires store.id == repo.blockId && Holding(c)
      modifies this`buffer, this`currentPosition, this`blockIndex, store
      ensures ok == store.accepts(c.buffer)
      ensures ok ==> Holding(Cut(c.chunks + [c.buffer], []))
    {
      hide StoredAll;
      hide Entries;
      hide Concat;
      hide ContentsOf;
      var length := |buffer|;
      var chunkID := |blockIndex|;
      blockIndex := blockIndex + [ListEntry(currentPosition, length, [])];
      currentPosition := currentPosition + length;
      var data := buffer;
      buffer := [];
      ghost var before := store.blocks;
      var blockID := store.WriteBlock(data);
      if blockID.Err? {
        return false;
      }
      blockIndex := blockIndex[chunkID := blockIndex[chunkID].(oid := blockID.value)];
      StoredOne(repo.blockId, before, data);
      StoredMore(repo.blockId, start, before, store.blocks, ContentsOf(c.chunks), {data});
      OneMoreChunk(repo, c.chunks, data);
      return true;
    }

    /** Appends one byte and stores the chunk if the splitter says that it ends here. */
    method WriteByte(d: byte) returns (ok: bool)
      requires store.id == repo.blockId && InStep()
      modifies this`buffer, this`currentPosition, this`blockIndex, this`fed, store
      ensures fed == old(fed) + [d]
      ensures store.AcceptsAll() ==> ok
      ensures ok ==> InStep()
    {
      hide StoredAll;
      hide Entries;
      hide Concat;
      ghost var c := Feed(repo.split, fed);
      buffer := buffer + [d];
      fed := fed + [d];
      assert fed[..|fed| - 1] == old(fed) && fed[|fed| - 1] == d;
      if repo.split(fed) {
        ok := FlushBuffer(Cut(c.chunks, c.buffer + [d]));
      } else {
        ok := true;
      }
    }

    /** Appends bytes to the object. However a stream is cut into calls, the writer ends up as
        if it had been written at once. */
    method Write(data: Bytes) returns (r: Result<nat>)
      requires Valid()
      modifies this`buffer, this`totalLength, this`currentPosition, this`blockIndex, this`fed, store
      ensures store.AcceptsAll() ==> r.Ok?
      ensures r.Ok? ==> Valid() && fed == old(fed) + data && r.value == |data|
    {
      hide InStep;
      totalLength := totalLength + |data|;
      for i := 0 to |data|
        invariant fed == old(fed) + data[..i]
        invariant InStep() && totalLength == old(totalLength) + |data|
      {
        var ok := WriteByte(data[i]);
        if !ok {
          return Err(StorageFailure);
        }
        assert data[..i + 1] == data[..i] + [data[i]];
      }
      assert data[..|data|] == data;
      return Ok(|data|);
    }

    /** Finishes the object and gives its ID, which depends only on the bytes written. It ends if
        some number of lists on top of each other is enough, for which `ListsEnd` gives a
        condition. The store has gained exactly the blocks of the object. */
    method Result(ghost levels: nat) returns (r: Result<Bytes>)
      requires Valid() && ObjectId(repo, fed, levels).Some?
      modifies this`buffer, this`currentPosition, this`blockIndex, store
      ensures fed == old(fed) && start == old(start)
      ensures store.AcceptsAll() ==> r.Ok?
      ensures r.Ok? ==> ObjectId(repo, fed, levels) == Some(r.value)
      ensures r.Ok? ==> StoredAll(repo.blockId, start, store.blocks, Written(repo, fed, levels))
      decreases levels
    {
      hide StoredAll;
      hide Feed;
      ghost var c := Feed(repo.split, fed);
      if buffer != [] || blockIndex == [] {
        var ok := FlushBuffer(c);
        if !ok {
          return Err(StorageFailure);
        }
      }
      ghost var chunks := Chunks(repo.split, fed);
      assert Holding(Cut(chunks, []));
      if |blockIndex| == 1 {
        FirstEntry(repo, chunks);
        SingleWritten(repo, fed, levels);
        return Ok(blockIndex[0].oid);
      }
      hide Chunks;
      hide ObjectId;
      hide Written;
      Unfold(repo, fed, levels);
      ghost var middle := store.blocks;
      var iw := new Writer(repo, store);
      var list := repo.encode(blockIndex);
      var w := iw.Write(list);
      if w.Err? {
        return Err(w.error);
      }
      assert [] + list == list;
      var oid := iw.Result(levels - 1);
      if oid.Err? {
        return Err(oid.error);
      }
      StoredMore(repo.blockId, start, middle, store.blocks, ContentsOf(chunks), Written(repo, list, levels - 1));
      return Ok(IndirectObjectID(oid.value));
    }
  }

  /** What a successful `Result` promises, and no collisions, give the object back: reading the
      ID returns the bytes written. */
  lemma WrittenReadsBack(r: Repo, before: Store, after: Store, data: Bytes, levels: nat, depth: nat)
    requires r.Lawful() && InRange(r, data, levels) && ObjectId(r, data, levels).Some? && depth > levels
    requires StoredAll(r.blockId, before, after, Written(r, data, levels))
    requires CollisionFree(r.blockId, before, Written(r, data, levels))
    ensures ReadObject(r, after, ObjectId(r, data, levels).value, depth) == Ok(data)
  {
    hide *;
    StoredHolds(r, before, after, Written(r, data, levels));
    ReadBack(r, data, levels, after, depth);
  }

  lemma FirstEntry(r: Repo, chunks: seq<Bytes>)
    requires |chunks| == 1
    ensures Entries(r, chunks)[0].oid == r.blockId(chunks[0])
  {
  }

  lemma SingleWritten(r: Repo, data: Bytes, levels: nat)
    requires |Chunks(r.split, data)| == 1
    ensures Written(r, data, levels) == ContentsOf(Chunks(r.split, data))
  {
    hide Chunks;
  }
}
