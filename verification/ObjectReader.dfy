/** The seekable reader of an object stored as a list of chunks (object_reader.go). */
module ObjectReader {
  import opened ByteStrings
  import opened ObjectSplitter
  import opened Objects

  /** `table` lists `chunks`: it has their offsets and lengths, and opening an entry, if it
      succeeds, gives an object that starts with the chunk. */
  ghost predicate TableOf(table: seq<ListEntry>, open: Bytes -> Result<Bytes>, chunks: seq<Bytes>) {
    && |table| == |chunks| >= 1
    && forall i :: 0 <= i < |table| ==> EntryOf(table[i], open, chunks, i)
  }

  ghost predicate EntryOf(e: ListEntry, open: Bytes -> Result<Bytes>, chunks: seq<Bytes>, i: nat)
    requires i < |chunks|
  {
    && e.start == StartOf(chunks, i) && e.length == |chunks[i]|
    && (Opens(e, open) ==> chunks[i] <= open(e.oid).value)
  }

  /** The chunk can be opened and is not too short. */
  predicate Opens(e: ListEntry, open: Bytes -> Result<Bytes>) {
    open(e.oid).Ok? && |open(e.oid).value| >= e.length
  }

  predicate AllOpen(table: seq<ListEntry>, open: Bytes -> Result<Bytes>) {
    forall i :: 0 <= i < |table| ==> Opens(table[i], open)
  }

  /** Where chunk `i` begins; for the number of chunks, where the object ends. */
  function StartOf(chunks: seq<Bytes>, i: nat): (r: nat)
    requires i <= |chunks|
  {
    |Concat(chunks[..i])|
  }

  lemma StartNext(chunks: seq<Bytes>, i: nat)
    requires i < |chunks|
    ensures StartOf(chunks, i + 1) == StartOf(chunks, i) + |chunks[i]|
  {
    assert chunks[..i + 1] == chunks[..i] + [chunks[i]];
    ConcatAppend(chunks[..i], chunks[i]);
  }

  lemma {:induction false} StartMonotone(chunks: seq<Bytes>, i: nat, j: nat)
    requires i <= j <= |chunks|
    ensures StartOf(chunks, i) <= StartOf(chunks, j)
  {
    if i < j {
      StartMonotone(chunks, i, j - 1);
      StartNext(chunks, j - 1);
    }
  }

  /** A chunk is a slice of the whole. */
  lemma {:induction false} ChunkIsSlice(chunks: seq<Bytes>, i: nat)
    requires i < |chunks|
    ensures StartOf(chunks, i) + |chunks[i]| <= |Concat(chunks)|
    ensures Concat(chunks)[StartOf(chunks, i)..StartOf(chunks, i) + |chunks[i]|] == chunks[i]
  {
    var n := |chunks| - 1;
    var t := chunks[..n];
    if i < n {
      ChunkIsSlice(t, i);
      assert t[..i] == chunks[..i];
    }
  }

  /** What a read of `n` bytes at a position of some content returns. */
  function ReadAt(content: Bytes, pos: nat, n: nat): (r: Result<Bytes>)
    requires pos <= |content|
  {
    if n == 0 || pos == |content| then Err(EndOfFile)
    else Ok(content[pos..if pos + n < |content| then pos + n else |content|])
  }

  class Reader {
    const seekTable: seq<ListEntry>
    const open: Bytes -> Result<Bytes>
    const totalLength: nat
    ghost const chunks: seq<Bytes>
    var currentPosition: nat
    var currentChunkIndex: nat
    var currentChunkData: Option<Bytes>
    var currentChunkPosition: nat

    ghost predicate Valid()
      reads this
    {
      && TableOf(seekTable, open, chunks) && totalLength == |Content()|
      && currentChunkIndex <= |chunks|
      && (currentChunkData.Some? ==>
            && currentChunkIndex < |chunks| && currentChunkData.value == chunks[currentChunkIndex]
            && currentChunkPosition <= |chunks[currentChunkIndex]|)
    }

    /** The flat content of the object. */
    ghost function Content(): Bytes {
      Concat(chunks)
    }

    /** The offset from which the next byte will be taken. */
    ghost function Cursor(): (r: nat)
      requires Valid()
      reads this
    {
      StartOf(chunks, currentChunkIndex) + if currentChunkData.Some? then currentChunkPosition else 0
    }

    /** The position the reader reports is where it reads. */
    ghost predicate InStep()
      requires Valid()
      reads this
    {
      currentPosition == Cursor()
    }

    constructor (table: seq<ListEntry>, open: Bytes -> Result<Bytes>, ghost chunks: seq<Bytes>)
      requires TableOf(table, open, chunks)
      ensures Valid() && InStep() && currentPosition == 0
      ensures this.chunks == chunks && this.open == open && seekTable == table
    {
      seekTable, this.open, this.chunks := table, open, chunks;
      totalLength := table[|table| - 1].start + table[|table| - 1].length;
      currentPosition, currentChunkIndex, currentChunkData, currentChunkPosition := 0, 0, None, 0;
      new;
      assert EntryOf(table[|table| - 1], open, chunks, |table| - 1);
      StartNext(chunks, |chunks| - 1);
      assert chunks[..|chunks|] == chunks && chunks[..0] == [];
    }

    lemma Bounds()
      requires Valid()
      ensures Cursor() <= totalLength
      ensures currentChunkIndex == |chunks| ==> Cursor() == totalLength
    {
      hide Concat;
      StartMonotone(chunks, currentChunkIndex, |chunks|);
      assert chunks[..|chunks|] == chunks;
      if currentChunkData.Some? {
        ChunkIsSlice(chunks, currentChunkIndex);
      }
    }

    /** Opens the chunk at the cursor; if that fails nothing changes. */
    method OpenCurrentChunk() returns (r: Result<()>)
      requires Valid() && currentChunkData.None? && currentChunkIndex < |seekTable|
      modifies this`currentChunkData, this`currentChunkPosition
      ensures Valid() && Cursor() == old(Cursor())
      ensures r.Ok? <==> Opens(seekTable[currentChunkIndex], open)
      ensures currentChunkData.Some? <==> r.Ok?
      ensures r.Ok? ==> currentChunkPosition == 0
    {
      hide Concat;
      var st := seekTable[currentChunkIndex];
      assert EntryOf(st, open, chunks, currentChunkIndex);
      var block := open(st.oid);
      if block.Err? {
        return Err(block.error);
      }
      if |block.value| < st.length {
        return Err(ShortRead);
      }
      currentChunkData := Some(block.value[..st.length]);
      currentChunkPosition := 0;
      return Ok(());
    }

    /** Takes up to `limit` bytes from the open chunk. */
    method CopyFromChunk(limit: nat) returns (piece: Bytes)
      requires Valid() && limit > 0 && currentChunkData.Some? && currentChunkPosition < |currentChunkData.value|
      modifies this`currentPosition, this`currentChunkPosition
      ensures Valid() && 0 < |piece| <= limit
      ensures Cursor() == old(Cursor()) + |piece| <= |Content()|
      ensures currentPosition == old(currentPosition) + |piece|
      ensures piece == Content()[old(Cursor())..Cursor()]
    {
      hide TableOf;
      hide StartOf;
      var data := currentChunkData.value;
      var toCopy := |data| - currentChunkPosition;
      if toCopy > limit {
        toCopy := limit;
      }
      ChunkIsSlice(chunks, currentChunkIndex);
      SliceOfSlice(Content(), StartOf(chunks, currentChunkIndex), data, currentChunkPosition, currentChunkPosition + toCopy);
      piece := data[currentChunkPosition..currentChunkPosition + toCopy];
      currentChunkPosition := currentChunkPosition + toCopy;
      currentPosition := currentPosition + toCopy;
    }

    /** The first chunk from `from` on that begins before `limit` and cannot be opened. */
    ghost predicate Blocks(from: nat, limit: int, i: nat)
      requires TableOf(seekTable, open, chunks)
    {
      && from <= i < |chunks| && StartOf(chunks, i) < limit && !Opens(seekTable[i], open)
      && (forall j :: from <= j < i ==> Opens(seekTable[j], open))
    }

    /** All chunks from `from` on that begin before `limit` can be opened. */
    ghost predicate Clear(from: nat, limit: int)
      requires TableOf(seekTable, open, chunks)
    {
      forall i :: from <= i < |chunks| && StartOf(chunks, i) < limit ==> Opens(seekTable[i], open)
    }

    /** The first chunk that a read has yet to open. */
    ghost function Unopened(): nat
      reads this
    {
      if currentChunkData.Some? then currentChunkIndex + 1 else currentChunkIndex
    }

    /** Reads up to `n` bytes. If every chunk that is needed opens, they are exactly the next
        bytes of the content, as many as there are. If one does not, the read fails with the
        cursor at the beginning of that chunk: bytes before it are skipped. Either way the
        reported position moves as the cursor does. */
    method Read(n: nat) returns (r: Result<Bytes>)
      requires Valid()
      modifies this`currentPosition, this`currentChunkIndex, this`currentChunkData, this`currentChunkPosition
      ensures Valid() && old(Cursor()) <= |Content()|
      ensures currentPosition - old(currentPosition) == Cursor() - old(Cursor())
      ensures !Clear(old(Unopened()), old(Cursor()) + n) ==>
        && r.Err? && Blocks(old(Unopened()), old(Cursor()) + n, currentChunkIndex)
        && Cursor() == StartOf(chunks, currentChunkIndex)
      ensures Clear(old(Unopened()), old(Cursor()) + n) ==>
        r == ReadAt(Content(), old(Cursor()), n) && Cursor() == old(Cursor()) + (if r.Ok? then |r.value| else 0)
    {
      hide TableOf;
      hide StartOf;
      hide Clear;
      hide Blocks;
      hide Opens;
      Bounds();
      var out: Bytes := [];
      var remaining := n;
      ghost var from, limit := Unopened(), Cursor() + n;
      while remaining > 0
        invariant Valid() && 0 <= remaining == n - |out|
        invariant Cursor() == old(Cursor()) + |out| <= |Content()|
        invariant currentPosition == old(currentPosition) + |out|
        invariant out == Content()[old(Cursor())..Cursor()]
        invariant from <= Unopened() && forall j :: from <= j < Unopened() && j < |seekTable| ==> Opens(seekTable[j], open)
        decreases |chunks| - currentChunkIndex, if currentChunkData.None? then 1 else 0, remaining
      {
        if currentChunkData.Some? {
          if currentChunkPosition == |currentChunkData.value| {
            StartNext(chunks, currentChunkIndex);
            currentChunkData := None;
            currentChunkIndex := currentChunkIndex + 1;
            continue;
          }
          ghost var before := Cursor();
          var piece := CopyFromChunk(remaining);
          SliceAppend(Content(), old(Cursor()), before, Cursor());
          out := out + piece;
          remaining := remaining - |piece|;
        } else if currentChunkIndex < |seekTable| {
          TableLength(seekTable, open, chunks);
          var chunk := OpenCurrentChunk();
          if chunk.Err? {
            BlockedHere(from, limit);
            return Err(chunk.error);
          }
        } else {
          TableLength(seekTable, open, chunks);
          Bounds();
          break;
        }
      }
      NotBlocked(from, limit, remaining);
      if out == [] {
        return Err(EndOfFile);
      }
      return Ok(out);
    }

    lemma BlockedHere(from: nat, limit: int)
      requires Valid() && currentChunkData.None? && currentChunkIndex < |chunks| && Cursor() < limit
      requires from <= currentChunkIndex && !Opens(seekTable[currentChunkIndex], open)
      requires forall j :: from <= j < currentChunkIndex && j < |seekTable| ==> Opens(seekTable[j], open)
      ensures Blocks(from, limit, currentChunkIndex) && !Clear(from, limit)
    {
      hide StartOf;
    }

    /** After the loop no chunk that was needed is left: all of those before the limit were opened. */
    lemma NotBlocked(from: nat, limit: int, remaining: int)
      requires Valid() && from <= Unopened() && Cursor() + remaining == limit && remaining >= 0
      requires remaining == 0 || currentChunkIndex == |chunks|
      requires forall j :: from <= j < Unopened() && j < |seekTable| ==> Opens(seekTable[j], open)
      ensures Clear(from, limit)
    {
      hide Concat;
      hide StartOf;
      forall i | from <= i < |chunks| && StartOf(chunks, i) < limit ensures Opens(seekTable[i], open) {
        if i >= Unopened() {
          StartMonotone(chunks, currentChunkIndex, i);
          if currentChunkData.Some? {
            StartNext(chunks, currentChunkIndex);
            StartMonotone(chunks, currentChunkIndex + 1, i);
          }
        }
      }
    }

    /** The chunk that holds a given offset, by binary search. */
    method FindChunkIndexForOffset(offset: int) returns (r: Result<nat>)
      requires Valid()
      ensures r.Ok? <==> 0 <= offset < totalLength
      ensures r.Ok? ==> r.value < |chunks| && StartOf(chunks, r.value) <= offset < StartOf(chunks, r.value) + |chunks[r.value]|
    {
      hide Concat;
      hide StartOf;
      var left, right := 0, |seekTable| - 1;
      while left <= right
        invariant 0 <= left <= right + 1 <= |seekTable|
        invariant forall k :: 0 <= k < left ==> StartOf(chunks, k) + |chunks[k]| <= offset
        invariant forall k :: right < k < |chunks| ==> offset < StartOf(chunks, k)
        decreases right - left
      {
        var middle := (left + right) / 2;
        assert EntryOf(seekTable[middle], open, chunks, middle);
        if offset < seekTable[middle].start {
          forall k | middle <= k < |chunks| ensures offset < StartOf(chunks, k) {
            StartMonotone(chunks, middle, k);
          }
          right := middle - 1;
          continue;
        }
        if offset >= seekTable[middle].start + seekTable[middle].length {
          forall k | 0 <= k <= middle ensures StartOf(chunks, k) + |chunks[k]| <= offset {
            StartNext(chunks, k);
            StartMonotone(chunks, k + 1, middle + 1);
            StartNext(chunks, middle);
          }
          left := middle + 1;
          continue;
        }
        WithinBounds(chunks, middle);
        return Ok(middle);
      }
      NotInside(chunks, left, offset);
      return Err(InvalidOffset);
    }

    /** Moves the cursor. Seeking succeeds exactly for offsets inside the content whose chunk is
        open or can be opened; the end of the content is not one of them. Afterwards the
        reported position is where it reads. If the chunk cannot be opened, the cursor is at its
        beginning and the reported position is the old one. */
    method SeekTo(target: int) returns (r: Result<int>)
      requires Valid()
      modifies this`currentPosition, this`currentChunkIndex, this`currentChunkData, this`currentChunkPosition
      ensures Valid()
      ensures !(0 <= target < totalLength) ==> r == Err(InvalidOffset) && Cursor() == old(Cursor())
      ensures r.Ok? ==> r.value == target && InStep() && currentPosition == target
      ensures r.Err? ==> currentPosition == old(currentPosition)
      ensures 0 <= target < totalLength ==> currentChunkIndex < |chunks| && HoldsOffset(currentChunkIndex, target)
      ensures 0 <= target < totalLength ==>
        (r.Ok? <==> (old(currentChunkData.Some?) && currentChunkIndex == old(currentChunkIndex))
                    || Opens(seekTable[currentChunkIndex], open))
      ensures 0 <= target < totalLength && r.Err? ==> Cursor() == StartOf(chunks, currentChunkIndex)
    {
      hide Concat;
      hide StartOf;
      hide TableOf;
      TableLength(seekTable, open, chunks);
      if target < 0 {
        return Err(InvalidOffset);
      }
      var offset := if target > totalLength then totalLength else target;
      var found := FindChunkIndexForOffset(offset);
      if found.Err? {
        return Err(InvalidOffset);
      }
      var index := found.value;
      var start := StartOfChunk(index);
      if index != currentChunkIndex {
        currentChunkData := None;
        currentChunkIndex := index;
      }
      if currentChunkData.None? {
        var chunk := OpenCurrentChunk();
        if chunk.Err? {
          return Err(chunk.error);
        }
      }
      currentChunkPosition := offset - start;
      currentPosition := offset;
      return Ok(currentPosition);
    }

    ghost predicate HoldsOffset(i: nat, offset: int)
      requires i < |chunks|
    {
      StartOf(chunks, i) <= offset < StartOf(chunks, i) + |chunks[i]|
    }

    function StartOfChunk(i: nat): (r: nat)
      requires TableOf(seekTable, open, chunks) && i < |chunks|
      ensures r == StartOf(chunks, i)
    {
      assert EntryOf(seekTable[i], open, chunks, i);
      seekTable[i].start
    }

    /** `Seek` relative to the start, the reported position (1) or the end (2). */
    method Seek(offset: int, whence: int) returns (r: Result<int>)
      requires Valid()
      modifies this`currentPosition, this`currentChunkIndex, this`currentChunkData, this`currentChunkPosition
      ensures Valid()
      ensures var target := offset + (if whence == 1 then old(currentPosition) else if whence == 2 then totalLength else 0);
        && (!(0 <= target < totalLength) ==> r == Err(InvalidOffset) && Cursor() == old(Cursor()))
        && (r.Ok? ==> r.value == target && InStep() && currentPosition == target)
        && (r.Err? ==> currentPosition == old(currentPosition))
        && (0 <= target < totalLength && AllOpen(seekTable, open) ==> r.Ok?)
    {
      hide Opens;
      hide StartOf;
      TableLength(seekTable, open, chunks);
      if whence == 1 {
        r := SeekTo(currentPosition + offset);
      } else if whence == 2 {
        r := SeekTo(totalLength + offset);
      } else {
        r := SeekTo(offset);
      }
    }
  }

  lemma WithinBounds(chunks: seq<Bytes>, i: nat)
    requires i < |chunks|
    ensures StartOf(chunks, i) + |chunks[i]| <= |Concat(chunks)|
  {
    ChunkIsSlice(chunks, i);
  }

  /** An offset after the chunks before `i` and before those from `i` on is outside. */
  lemma NotInside(chunks: seq<Bytes>, i: nat, offset: int)
    requires chunks != [] && i <= |chunks|
    requires forall k :: 0 <= k < i ==> StartOf(chunks, k) + |chunks[k]| <= offset
    requires forall k :: i <= k < |chunks| ==> offset < StartOf(chunks, k)
    ensures !(0 <= offset < |Concat(chunks)|)
  {
    hide Concat;
    if i > 0 {
      StartNext(chunks, i - 1);
      assert chunks[..|chunks|] == chunks;
    } else {
      NothingBefore(chunks);
    }
  }

  lemma NothingBefore(chunks: seq<Bytes>)
    ensures StartOf(chunks, 0) == 0
  {
    assert chunks[..0] == [];
  }

  lemma TableLength(table: seq<ListEntry>, open: Bytes -> Result<Bytes>, chunks: seq<Bytes>)
    requires TableOf(table, open, chunks)
    ensures |table| == |chunks|
  {
  }

  lemma SliceOfSlice(content: Bytes, at: nat, data: Bytes, lo: nat, hi: nat)
    requires at + |data| <= |content| && content[at..at + |data|] == data && lo <= hi <= |data|
    ensures data[lo..hi] == content[at + lo..at + hi]
  {
    forall k | 0 <= k < hi - lo ensures data[lo..hi][k] == content[at + lo..at + hi][k] {
      assert data[lo + k] == content[at..at + |data|][lo + k];
    }
  }

  lemma SliceAppend(content: Bytes, a: nat, b: nat, c: nat)
    requires a <= b <= c <= |content|
    ensures content[a..b] + content[b..c] == content[a..c]
  {
  }

  /** The list the writer makes of stored chunks is a table of those chunks. */
  lemma {:induction false} WriterMakesTable(r: Repo, store: Store, chunks: seq<Bytes>, depth: nat)
    requires r.Lawful() && depth > 0 && chunks != [] && HoldsAll(r, store, set c | c in chunks)
    ensures TableOf(Entries(r, chunks), oid => ReadObject(r, store, oid, depth), chunks)
    ensures AllOpen(Entries(r, chunks), oid => ReadObject(r, store, oid, depth))
  {
    hide Repo.Lawful;
    hide ReadObject;
    var open := oid => ReadObject(r, store, oid, depth);
    var es := Entries(r, chunks);
    forall i | 0 <= i < |es| ensures EntryOf(es[i], open, chunks, i) && Opens(es[i], open) {
      EntryAt(r, chunks, i);
      assert chunks[i] in chunks;
      ReadStored(r, store, chunks[i], depth);
    }
  }

  lemma {:induction false} EntryAt(r: Repo, chunks: seq<Bytes>, i: nat)
    requires i < |chunks|
    ensures Entries(r, chunks)[i] == ListEntry(StartOf(chunks, i), |chunks[i]|, r.blockId(chunks[i]))
  {
    var n := |chunks| - 1;
    if i < n {
      EntryAt(r, chunks[..n], i);
      assert chunks[..n][..i] == chunks[..i];
    }
  }

  /** `Open` on the ID of a written object with several chunks: the list it reads is a table of
      those chunks, all of which open, and together they are the object's bytes. */
  lemma OpenWritten(r: Repo, data: Bytes, levels: nat, store: Store, depth: nat)
    requires r.Lawful() && ObjectId(r, data, levels).Some? && InRange(r, data, levels) && depth > levels && |Chunks(r.split, data)| >= 2
    requires HoldsAll(r, store, Written(r, data, levels))
    ensures var inner := IndexObjectID(ObjectId(r, data, levels).value);
      && inner.Some? && ReadObject(r, store, inner.value, depth - 1).Ok?
      && var table := r.decode(ReadObject(r, store, inner.value, depth - 1).value);
         && table == Some(Entries(r, Chunks(r.split, data)))
         && TableOf(table.value, oid => ReadObject(r, store, oid, depth - 1), Chunks(r.split, data))
         && AllOpen(table.value, oid => ReadObject(r, store, oid, depth - 1))
    ensures Concat(Chunks(r.split, data)) == data
  {
    hide Repo.Lawful;
    hide Chunks;
    hide HoldsAll;
    hide TableOf;
    hide AllOpen;
    var chunks, list := Chunks(r.split, data), ListBytes(r, data);
    ChunksConcat(r.split, data);
    Unfold(r, data, levels);
    HoldsBoth(r, store, (set c | c in chunks), Written(r, list, levels - 1));
    var inner := ObjectId(r, list, levels - 1).value;
    IndirectIs(inner);
    ReadBack(r, list, levels - 1, store, depth - 1);
    DecodesBack(r, chunks);
    WriterMakesTable(r, store, chunks, depth - 1);
  }
}
