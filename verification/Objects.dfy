/** Objects of any size stored as chunks and lists of chunks (object_writer.go,
    object_manager.go, objectid.go). */
module Objects {
  import opened ByteStrings
  import opened ContentId
  import opened ObjectSplitter
  import Crypto

  /* ----- object IDs ----- */

  const INDIRECT: byte := 73
  const DIRECT: byte := 68

  function IndexObjectID(oid: Bytes): (r: Option<Bytes>) {
    if [INDIRECT] <= oid then Some(oid[1..]) else None
  }

  function BlockID(oid: Bytes): (r: Option<Bytes>) {
    if [DIRECT] <= oid then Some(oid[1..])
    else if [INDIRECT] <= oid then None
    else Some(oid)
  }

  function IndirectObjectID(oid: Bytes): (r: Bytes) {
    [INDIRECT] + oid
  }

  /** A block ID that cannot be taken for an object ID with a type letter. */
  predicate PlainId(b: Bytes) {
    !([DIRECT] <= b) && !([INDIRECT] <= b)
  }

  /** The IDs the block manager makes are plain, and lists can hold them. */
  lemma BlockIdsArePlain(c: Crypto.Suite, prefix: Bytes, data: Bytes)
    requires Crypto.ValidPrefix(prefix) && |c.hash(data)| <= 64
    ensures PlainId(c.BlockId(prefix, data)) && IdText(c.BlockId(prefix, data))
  {
    hide HexEncode;
    var h := HexEncode(c.hash(data));
    HexEncodeLower(c.hash(data));
    var b := c.BlockId(prefix, data);
    if b != [] {
      assert b[0] == if prefix == [] then h[0] else prefix[0];
    }
  }

  /* ----- lists of chunks ----- */

  datatype ListEntry = ListEntry(start: nat, length: nat, oid: Bytes)

  /** Lengths and offsets are 63-bit, and no ID is longer than a prefix and 64 bytes of hash. */
  const TWO63 := 0x8000_0000_0000_0000
  const MAX_ID_LENGTH := 129

  /** Text that a list can hold as an ID: 7-bit characters, of limited length. */
  predicate IdText(id: Bytes) {
    |id| <= MAX_ID_LENGTH && forall i :: 0 <= i < |id| ==> id[i] < 0x80
  }

  /** Lists as the writer makes them. */
  ghost predicate Plausible(es: seq<ListEntry>) {
    forall i :: 0 <= i < |es| ==> es[i].start < TWO63 && es[i].length < TWO63 && IdText(es[i].oid)
  }

  /** What objects are built with: a splitter, the block store's naming, and the encoding of
      lists as bytes. */
  datatype Repo = Repo(
    split: Splitter,
    blockId: Bytes -> Bytes,
    encode: seq<ListEntry> -> Bytes,
    decode: Bytes -> Option<seq<ListEntry>>)
  {
    ghost predicate Lawful() {
      && (forall es :: Plausible(es) ==> decode(encode(es)) == Some(es))
      && (forall d :: PlainId(blockId(d)) && IdText(blockId(d)))
    }
  }

  /** The list of a sequence of chunks. */
  function Entries(r: Repo, chunks: seq<Bytes>): (es: seq<ListEntry>)
    ensures |es| == |chunks|
  {
    if chunks == [] then []
    else
      var n := |chunks| - 1;
      Entries(r, chunks[..n]) + [ListEntry(|Concat(chunks[..n])|, |chunks[n]|, r.blockId(chunks[n]))]
  }

  function ListBytes(r: Repo, data: Bytes): Bytes {
    r.encode(Entries(r, Chunks(r.split, data)))
  }

  /** The ID of the object holding `data`, with at most `levels` lists on top of each other. */
  function ObjectId(r: Repo, data: Bytes, levels: nat): (oid: Option<Bytes>)
    decreases levels
  {
    var chunks := Chunks(r.split, data);
    if |chunks| == 1 then Some(r.blockId(chunks[0]))
    else if levels == 0 then None
    else match ObjectId(r, ListBytes(r, data), levels - 1)
      case None => None
      case Some(oid) => Some(IndirectObjectID(oid))
  }

  /** The contents of all blocks written for that object. */
  function Written(r: Repo, data: Bytes, levels: nat): (bs: set<Bytes>)
    decreases levels
  {
    var chunks := Chunks(r.split, data);
    (set c | c in chunks) +
    (if |chunks| == 1 || levels == 0 then {} else Written(r, ListBytes(r, data), levels - 1))
  }

  /** The object and each of its lists are within the 63-bit lengths. */
  ghost predicate InRange(r: Repo, data: Bytes, levels: nat)
    decreases levels
  {
    |data| < TWO63 && (|Chunks(r.split, data)| >= 2 && levels > 0 ==> InRange(r, ListBytes(r, data), levels - 1))
  }

  /** More allowed levels do not change the ID. */
  lemma {:induction false} MoreLevels(r: Repo, data: Bytes, levels: nat, more: nat)
    requires levels <= more && ObjectId(r, data, levels).Some?
    ensures ObjectId(r, data, more) == ObjectId(r, data, levels)
    ensures Written(r, data, more) == Written(r, data, levels)
    decreases levels
  {
    hide Chunks;
    hide ListBytes;
    if |Chunks(r.split, data)| != 1 {
      MoreLevels(r, ListBytes(r, data), levels - 1, more - 1);
    }
  }

  /* ----- reading ----- */

  type Store = map<Bytes, Bytes>

  /** The whole contents of an object; `depth` bounds the nesting of lists that is followed. */
  function ReadObject(r: Repo, store: Store, oid: Bytes, depth: nat): (b: Result<Bytes>)
    decreases depth, 0
  {
    if depth == 0 then Err(TooLong)
    else match IndexObjectID(oid)
      case None => ReadRaw(store, oid)
      case Some(inner) =>
        match ReadObject(r, store, inner, depth - 1)
        case Err(e) => Err(e)
        case Ok(bytes) =>
          match r.decode(bytes)
          case None => Err(InvalidList)
          case Some(es) => if es == [] then Err(InvalidList) else ReadList(r, store, es, depth - 1)
  }

  /** `newRawReader`. */
  function ReadRaw(store: Store, oid: Bytes): (b: Result<Bytes>) {
    match BlockID(oid)
    case None => Err(InvalidObjectId)
    case Some(id) => if id in store then Ok(store[id]) else Err(NotFound)
  }

  /** One chunk of a list, read to exactly its recorded length. */
  function ReadChunk(r: Repo, store: Store, e: ListEntry, depth: nat): (b: Result<Bytes>)
    decreases depth, 1
  {
    match ReadObject(r, store, e.oid, depth)
    case Err(x) => Err(x)
    case Ok(b) => if |b| < e.length then Err(ShortRead) else Ok(b[..e.length])
  }

  function ReadList(r: Repo, store: Store, es: seq<ListEntry>, depth: nat): (b: Result<Bytes>)
    decreases depth, |es| + 2
  {
    if es == [] then Ok([])
    else
      var n := |es| - 1;
      match ReadList(r, store, es[..n], depth)
      case Err(x) => Err(x)
      case Ok(a) =>
        match ReadChunk(r, store, es[n], depth)
        case Err(x) => Err(x)
        case Ok(b) => Ok(a + b)
  }

  /** The store has every one of these contents under its ID. */
  ghost predicate HoldsAll(r: Repo, store: Store, contents: set<Bytes>) {
    forall c :: c in contents ==> r.blockId(c) in store && store[r.blockId(c)] == c
  }

  lemma ReadStored(r: Repo, store: Store, c: Bytes, depth: nat)
    requires r.Lawful() && r.blockId(c) in store && store[r.blockId(c)] == c && depth > 0
    ensures ReadObject(r, store, r.blockId(c), depth) == Ok(c)
  {
  }

  /** A list of stored chunks reads as their concatenation. */
  lemma {:induction false} ReadEntries(r: Repo, store: Store, chunks: seq<Bytes>, depth: nat)
    requires r.Lawful() && depth > 0 && HoldsAll(r, store, set c | c in chunks)
    ensures ReadList(r, store, Entries(r, chunks), depth) == Ok(Concat(chunks))
  {
    hide Repo.Lawful;
    if chunks != [] {
      var n := |chunks| - 1;
      assert chunks[n] in chunks;
      forall c | c in chunks[..n] ensures c in chunks {}
      ReadEntries(r, store, chunks[..n], depth);
      ReadStored(r, store, chunks[n], depth);
      var es := Entries(r, chunks);
      assert es[..n] == Entries(r, chunks[..n]);
      assert chunks[n][..|chunks[n]|] == chunks[n];
    }
  }

  /** Whatever the splitter and however many levels the lists take, reading the object gives
      back exactly the bytes that were written. */
  lemma {:induction false} ReadBack(r: Repo, data: Bytes, levels: nat, store: Store, depth: nat)
    requires r.Lawful() && ObjectId(r, data, levels).Some? && InRange(r, data, levels) && depth > levels
    requires HoldsAll(r, store, Written(r, data, levels))
    ensures ReadObject(r, store, ObjectId(r, data, levels).value, depth) == Ok(data)
    decreases levels
  {
    hide Repo.Lawful;
    hide Chunks;
    hide Concat;
    hide Entries;
    var chunks := Chunks(r.split, data);
    ChunksConcat(r.split, data);
    if |chunks| == 1 {
      OneChunk(chunks);
      assert chunks[0] in chunks;
      ReadStored(r, store, data, depth);
    } else {
      var list := ListBytes(r, data);
      ReadBack(r, list, levels - 1, store, depth - 1);
      DecodesBack(r, chunks);
      ReadEntries(r, store, chunks, depth - 1);
      IndirectIs(ObjectId(r, list, levels - 1).value);
    }
  }

  lemma OneChunk(chunks: seq<Bytes>)
    requires |chunks| == 1
    ensures Concat(chunks) == chunks[0]
  {
    assert chunks[..0] == [];
  }

  lemma DecodesBack(r: Repo, chunks: seq<Bytes>)
    requires r.Lawful() && |Concat(chunks)| < TWO63
    ensures r.decode(r.encode(Entries(r, chunks))) == Some(Entries(r, chunks))
  {
    EntriesPlausible(r, chunks);
  }

  lemma {:induction false} EntriesPlausible(r: Repo, chunks: seq<Bytes>)
    requires r.Lawful() && |Concat(chunks)| < TWO63
    ensures Plausible(Entries(r, chunks))
  {
    if chunks != [] {
      var n := |chunks| - 1;
      EntriesPlausible(r, chunks[..n]);
      var es := Entries(r, chunks);
      forall i | 0 <= i < |es| ensures es[i].start < TWO63 && es[i].length < TWO63 && IdText(es[i].oid) {
        if i < n {
          assert es[i] == Entries(r, chunks[..n])[i];
        }
      }
    }
  }

  lemma IndirectIs(oid: Bytes)
    ensures IndexObjectID(IndirectObjectID(oid)) == Some(oid)
  {
    assert IndirectObjectID(oid)[1..] == oid;
  }

  /* ----- verifying ----- */

  /** `verifyObjectInternal`: the length of an object and the IDs of the blocks it is made of. */
  function VerifyObject(r: Repo, store: Store, oid: Bytes, depth: nat): (v: Result<(nat, set<Bytes>)>)
    decreases depth, 0
  {
    if depth == 0 then Err(TooLong)
    else match IndexObjectID(oid)
      case None =>
        (match BlockID(oid)
         case None => Err(InvalidObjectId)
         case Some(id) => if id in store then Ok((|store[id]|, {id})) else Err(NotFound))
      case Some(inner) =>
        match VerifyObject(r, store, inner, depth - 1)
        case Err(e) => Err(e)
        case Ok((_, indexBlocks)) =>
          match ReadObject(r, store, inner, depth - 1)
          case Err(e) => Err(e)
          case Ok(bytes) =>
            match r.decode(bytes)
            case None => Err(InvalidList)
            case Some(es) =>
              if es == [] then Err(InvalidList)
              else match VerifyList(r, store, es, depth - 1)
                case Err(e) => Err(e)
                case Ok(blocks) => Ok((es[|es| - 1].start + es[|es| - 1].length, indexBlocks + blocks))
  }

  /** The verification loop over the entries: each must have its recorded length. */
  function VerifyList(r: Repo, store: Store, es: seq<ListEntry>, depth: nat): (v: Result<set<Bytes>>)
    decreases depth, |es| + 1
  {
    if es == [] then Ok({})
    else
      var n := |es| - 1;
      match VerifyList(r, store, es[..n], depth)
      case Err(x) => Err(x)
      case Ok(before) =>
        match VerifyObject(r, store, es[n].oid, depth)
        case Err(x) => Err(x)
        case Ok((length, blocks)) => if length != es[n].length then Err(InvalidList) else Ok(before + blocks)
  }

  ghost function IdsOf(r: Repo, contents: set<Bytes>): set<Bytes> {
    set c | c in contents :: r.blockId(c)
  }

  lemma VerifyStored(r: Repo, store: Store, c: Bytes, depth: nat)
    requires r.Lawful() && r.blockId(c) in store && store[r.blockId(c)] == c && depth > 0
    ensures VerifyObject(r, store, r.blockId(c), depth) == Ok((|c|, {r.blockId(c)}))
  {
  }

  lemma IdsOfUnion(r: Repo, a: set<Bytes>, b: set<Bytes>)
    ensures IdsOf(r, a + b) == IdsOf(r, a) + IdsOf(r, b)
  {
  }

  lemma {:induction false} VerifyEntries(r: Repo, store: Store, chunks: seq<Bytes>, depth: nat)
    requires r.Lawful() && depth > 0 && HoldsAll(r, store, set c | c in chunks)
    ensures VerifyList(r, store, Entries(r, chunks), depth) == Ok(IdsOf(r, set c | c in chunks))
  {
    hide Repo.Lawful;
    hide IdsOf;
    if chunks == [] {
      NoIds(r);
      assert (set c | c in chunks) == {};
    } else {
      var n := |chunks| - 1;
      assert chunks[n] in chunks;
      forall c | c in chunks[..n] ensures c in chunks {}
      VerifyEntries(r, store, chunks[..n], depth);
      VerifyStored(r, store, chunks[n], depth);
      var es := Entries(r, chunks);
      assert es[..n] == Entries(r, chunks[..n]);
      assert chunks == chunks[..n] + [chunks[n]];
      assert (set c | c in chunks) == (set c | c in chunks[..n]) + {chunks[n]};
      IdsOfUnion(r, (set c | c in chunks[..n]), {chunks[n]});
      OneId(r, chunks[n]);
    }
  }

  lemma NoIds(r: Repo)
    ensures IdsOf(r, {}) == {}
  {
  }

  lemma OneId(r: Repo, c: Bytes)
    ensures IdsOf(r, {c}) == {r.blockId(c)}
  {
    assert r.blockId(c) in IdsOf(r, {c});
  }

  /** The last entry of a list ends where the data ends. */
  lemma LastEnds(r: Repo, chunks: seq<Bytes>)
    requires chunks != []
    ensures var es := Entries(r, chunks); es[|es| - 1].start + es[|es| - 1].length == |Concat(chunks)|
  {
  }

  lemma VerifyIndirect(r: Repo, store: Store, inner: Bytes, depth: nat, indexBlocks: set<Bytes>, length: nat,
                       es: seq<ListEntry>, blocks: set<Bytes>)
    requires depth > 0 && es != []
    requires VerifyObject(r, store, inner, depth - 1) == Ok((length, indexBlocks))
    requires ReadObject(r, store, inner, depth - 1).Ok? && r.decode(ReadObject(r, store, inner, depth - 1).value) == Some(es)
    requires VerifyList(r, store, es, depth - 1) == Ok(blocks)
    ensures VerifyObject(r, store, IndirectObjectID(inner), depth)
         == Ok((es[|es| - 1].start + es[|es| - 1].length, indexBlocks + blocks))
  {
    hide VerifyList;
    hide ReadObject;
    IndirectIs(inner);
  }

  /** Verification of a written object succeeds and reports its exact length and exactly the
      blocks that were written for it. */
  lemma {:induction false} VerifyBack(r: Repo, data: Bytes, levels: nat, store: Store, depth: nat)
    requires r.Lawful() && ObjectId(r, data, levels).Some? && InRange(r, data, levels) && depth > levels
    requires HoldsAll(r, store, Written(r, data, levels))
    ensures VerifyObject(r, store, ObjectId(r, data, levels).value, depth)
         == Ok((|data|, IdsOf(r, Written(r, data, levels))))
    decreases levels
  {
    hide Repo.Lawful;
    hide Chunks;
    hide IdsOf;
    hide VerifyObject;
    hide HoldsAll;
    hide ListBytes;
    var chunks := Chunks(r.split, data);
    if |chunks| == 1 {
      SingleChunk(r, data, levels);
      HeldOne(r, store, data);
      OneId(r, data);
      VerifyStored(r, store, data, depth);
    } else {
      var list := ListBytes(r, data);
      Unfold(r, data, levels);
      HoldsBoth(r, store, (set c | c in chunks), Written(r, list, levels - 1));
      VerifyBack(r, list, levels - 1, store, depth - 1);
      VerifyLevel(r, data, levels, store, depth, ObjectId(r, list, levels - 1).value);
    }
  }

  lemma SingleChunk(r: Repo, data: Bytes, levels: nat)
    requires |Chunks(r.split, data)| == 1
    ensures ObjectId(r, data, levels) == Some(r.blockId(data)) && Written(r, data, levels) == {data}
  {
    hide Chunks;
    var chunks := Chunks(r.split, data);
    ChunksConcat(r.split, data);
    OneChunk(chunks);
    assert chunks[0] in chunks;
    assert (set c | c in chunks) + {} == {data};
  }

  lemma HeldOne(r: Repo, store: Store, c: Bytes)
    requires HoldsAll(r, store, {c})
    ensures r.blockId(c) in store && store[r.blockId(c)] == c
  {
  }

  /** One level of an object that needs a list. */
  lemma Unfold(r: Repo, data: Bytes, levels: nat)
    requires |Chunks(r.split, data)| != 1 && ObjectId(r, data, levels).Some?
    ensures levels > 0 && ObjectId(r, ListBytes(r, data), levels - 1).Some?
    ensures ObjectId(r, data, levels) == Some(IndirectObjectID(ObjectId(r, ListBytes(r, data), levels - 1).value))
    ensures Written(r, data, levels) == (set c | c in Chunks(r.split, data)) + Written(r, ListBytes(r, data), levels - 1)
  {
    hide Chunks;
    hide ListBytes;
  }

  lemma HoldsBoth(r: Repo, store: Store, a: set<Bytes>, b: set<Bytes>)
    requires HoldsAll(r, store, a + b)
    ensures HoldsAll(r, store, a) && HoldsAll(r, store, b)
  {
  }

  lemma VerifyLevel(r: Repo, data: Bytes, levels: nat, store: Store, depth: nat, inner: Bytes)
    requires r.Lawful() && levels > 0 && depth > levels
    requires |Chunks(r.split, data)| != 1 && ObjectId(r, data, levels).Some? && InRange(r, data, levels)
    requires ObjectId(r, ListBytes(r, data), levels - 1) == Some(inner)
    requires HoldsAll(r, store, Written(r, ListBytes(r, data), levels - 1))
    requires HoldsAll(r, store, set c | c in Chunks(r.split, data))
    requires VerifyObject(r, store, inner, depth - 1)
          == Ok((|ListBytes(r, data)|, IdsOf(r, Written(r, ListBytes(r, data), levels - 1))))
    ensures VerifyObject(r, store, IndirectObjectID(inner), depth) == Ok((|data|, IdsOf(r, Written(r, data, levels))))
  {
    hide Repo.Lawful;
    hide Chunks;
    hide IdsOf;
    hide HoldsAll;
    hide ObjectId;
    hide Written;
    hide VerifyObject;
    hide ReadObject;
    var chunks, list := Chunks(r.split, data), ListBytes(r, data);
    Unfold(r, data, levels);
    ReadBack(r, list, levels - 1, store, depth - 1);
    ChunksConcat(r.split, data);
    DecodesBack(r, chunks);
    VerifyEntries(r, store, chunks, depth - 1);
    LastEnds(r, chunks);
    var ofList, ofChunks := IdsOf(r, Written(r, list, levels - 1)), IdsOf(r, set c | c in chunks);
    VerifyIndirect(r, store, inner, depth, ofList, |list|, Entries(r, chunks), ofChunks);
    IdsOfUnion(r, (set c | c in chunks), Written(r, list, levels - 1));
    assert ofList + ofChunks == ofChunks + ofList;
  }

  /* ----- any list and any ID ----- */

  /** The pieces that the entries of a list stand for, when they can be read. */
  function Pieces(r: Repo, store: Store, es: seq<ListEntry>, depth: nat): (ps: seq<Bytes>)
    requires AllLongEnough(r, store, es, depth)
  {
    seq(|es|, i requires 0 <= i < |es| => ReadObject(r, store, es[i].oid, depth).value[..es[i].length])
  }

  /** Every entry can be read and has at least the length recorded. */
  predicate AllLongEnough(r: Repo, store: Store, es: seq<ListEntry>, depth: nat) {
    forall i :: 0 <= i < |es| ==>
      ReadObject(r, store, es[i].oid, depth).Ok? && |ReadObject(r, store, es[i].oid, depth).value| >= es[i].length
  }

  /** Any list reads as its pieces, each cut to the recorded length, or else is an error. */
  lemma {:induction false} ReadListIs(r: Repo, store: Store, es: seq<ListEntry>, depth: nat)
    ensures ReadList(r, store, es, depth).Ok? <==> AllLongEnough(r, store, es, depth)
    ensures AllLongEnough(r, store, es, depth) ==> ReadList(r, store, es, depth) == Ok(Concat(Pieces(r, store, es, depth)))
    decreases |es|
  {
    hide ReadObject;
    if es != [] {
      var n := |es| - 1;
      ReadListIs(r, store, es[..n], depth);
      assert forall i :: 0 <= i < n ==> es[..n][i] == es[i];
      if AllLongEnough(r, store, es, depth) {
        assert Pieces(r, store, es, depth)[..n] == Pieces(r, store, es[..n], depth);
      }
    }
  }

  /** An ID marked as direct stands for the block behind the mark. */
  lemma DirectIds(r: Repo, store: Store, b: Bytes, depth: nat)
    requires PlainId(b)
    ensures ReadObject(r, store, [DIRECT] + b, depth) == ReadObject(r, store, b, depth)
    ensures VerifyObject(r, store, [DIRECT] + b, depth) == VerifyObject(r, store, b, depth)
  {
    var oid := [DIRECT] + b;
    assert oid[0] == DIRECT && oid[1..] == b;
    assert IndexObjectID(oid) == None && BlockID(oid) == Some(b);
    assert IndexObjectID(b) == None && BlockID(b) == Some(b);
  }

  /* ----- missing blocks ----- */

  /** Whatever the store and the ID, verification reports only blocks that are there. */
  lemma {:induction false} VerifiedPresent(r: Repo, store: Store, oid: Bytes, depth: nat)
    ensures VerifyObject(r, store, oid, depth).Ok? ==> VerifyObject(r, store, oid, depth).value.1 <= store.Keys
    decreases depth, 0
  {
    hide ReadObject;
    if depth > 0 && IndexObjectID(oid).Some? {
      var inner := IndexObjectID(oid).value;
      VerifiedPresent(r, store, inner, depth - 1);
      var bytes := ReadObject(r, store, inner, depth - 1);
      if bytes.Ok? && r.decode(bytes.value).Some? {
        ListPresent(r, store, r.decode(bytes.value).value, depth - 1);
      }
    }
  }

  lemma {:induction false} ListPresent(r: Repo, store: Store, es: seq<ListEntry>, depth: nat)
    ensures VerifyList(r, store, es, depth).Ok? ==> VerifyList(r, store, es, depth).value <= store.Keys
    decreases depth, |es| + 1
  {
    hide VerifyObject;
    if es != [] {
      ListPresent(r, store, es[..|es| - 1], depth);
      VerifiedPresent(r, store, es[|es| - 1].oid, depth);
    }
  }

  /** A list verifies exactly if every entry does, with the length it records. */
  lemma {:induction false} VerifyListIff(r: Repo, store: Store, es: seq<ListEntry>, depth: nat)
    ensures VerifyList(r, store, es, depth).Ok? <==>
      forall i :: 0 <= i < |es| ==>
        VerifyObject(r, store, es[i].oid, depth).Ok? && VerifyObject(r, store, es[i].oid, depth).value.0 == es[i].length
    decreases |es|
  {
    hide VerifyObject;
    if es != [] {
      var n := |es| - 1;
      VerifyListIff(r, store, es[..n], depth);
      assert forall i :: 0 <= i < n ==> es[..n][i] == es[i];
    }
  }

  /** Blocks may be missing, but none of these contents is there with other contents. */
  ghost predicate NothingElse(r: Repo, store: Store, contents: set<Bytes>) {
    forall c :: c in contents && r.blockId(c) in store ==> store[r.blockId(c)] == c
  }

  lemma HeldIff(r: Repo, store: Store, contents: set<Bytes>)
    requires NothingElse(r, store, contents)
    ensures HoldsAll(r, store, contents) <==> IdsOf(r, contents) <= store.Keys
  {
    if IdsOf(r, contents) <= store.Keys {
      forall c | c in contents ensures r.blockId(c) in store {
        assert r.blockId(c) in IdsOf(r, contents);
      }
    }
  }

  /** A stored chunk that is missing can be neither read nor verified. */
  lemma MissingFails(r: Repo, store: Store, c: Bytes, depth: nat)
    requires r.Lawful() && r.blockId(c) !in store
    ensures VerifyObject(r, store, r.blockId(c), depth).Err? && ReadObject(r, store, r.blockId(c), depth).Err?
  {
  }

  lemma EntryAt(r: Repo, chunks: seq<Bytes>, i: nat)
    requires i < |chunks|
    ensures Entries(r, chunks)[i].oid == r.blockId(chunks[i])
    decreases |chunks|
  {
    if i < |chunks| - 1 {
      EntryAt(r, chunks[..|chunks| - 1], i);
    }
  }

  /** A list with a missing chunk does not verify. */
  lemma MissingChunkVerifies(r: Repo, store: Store, chunks: seq<Bytes>, depth: nat)
    requires r.Lawful() && NothingElse(r, store, set c | c in chunks) && VerifyList(r, store, Entries(r, chunks), depth).Ok?
    ensures HoldsAll(r, store, set c | c in chunks)
  {
    hide Repo.Lawful;
    hide VerifyObject;
    hide VerifyList;
    hide Entries;
    VerifyListIff(r, store, Entries(r, chunks), depth);
    forall c | c in chunks ensures r.blockId(c) in store {
      var i :| 0 <= i < |chunks| && chunks[i] == c;
      EntryAt(r, chunks, i);
      if r.blockId(c) !in store {
        MissingFails(r, store, c, depth);
      }
    }
  }

  lemma MissingChunkReads(r: Repo, store: Store, chunks: seq<Bytes>, depth: nat)
    requires r.Lawful() && NothingElse(r, store, set c | c in chunks) && ReadList(r, store, Entries(r, chunks), depth).Ok?
    ensures HoldsAll(r, store, set c | c in chunks)
  {
    hide Repo.Lawful;
    hide ReadObject;
    hide ReadList;
    hide Entries;
    forall c | c in chunks ensures r.blockId(c) in store {
      var i :| 0 <= i < |chunks| && chunks[i] == c;
      EntryAt(r, chunks, i);
      ReadListIs(r, store, Entries(r, chunks), depth);
      if r.blockId(c) !in store {
        MissingFails(r, store, c, depth);
      }
    }
  }

  /** The list that an object with this ID as its index has, if it can be read and is not empty. */
  ghost function ListOf(r: Repo, store: Store, inner: Bytes, depth: nat): (es: Option<seq<ListEntry>>) {
    match ReadObject(r, store, inner, depth)
    case Err(_) => None
    case Ok(bytes) => if r.decode(bytes) == Some([]) then None else r.decode(bytes)
  }

  /** An object with a list reads exactly if the list does, and verifies exactly if its index and the
      list do; a list that is missing, damaged or empty is an error. */
  lemma IndirectIff(r: Repo, store: Store, inner: Bytes, depth: nat)
    requires depth > 0
    ensures var es := ListOf(r, store, inner, depth - 1);
      && (ReadObject(r, store, IndirectObjectID(inner), depth).Ok? <==>
            es.Some? && ReadList(r, store, es.value, depth - 1).Ok?)
      && (es.Some? ==> ReadObject(r, store, IndirectObjectID(inner), depth) == ReadList(r, store, es.value, depth - 1))
      && (VerifyObject(r, store, IndirectObjectID(inner), depth).Ok? <==>
            es.Some? && VerifyObject(r, store, inner, depth - 1).Ok? && VerifyList(r, store, es.value, depth - 1).Ok?)
  {
    IndirectIs(inner);
  }

  lemma NothingElseBoth(r: Repo, store: Store, a: set<Bytes>, b: set<Bytes>)
    requires NothingElse(r, store, a + b)
    ensures NothingElse(r, store, a) && NothingElse(r, store, b)
    ensures HoldsAll(r, store, a) && HoldsAll(r, store, b) ==> HoldsAll(r, store, a + b)
  {
  }

  /** With a block missing, a written object neither verifies nor reads. */
  lemma {:induction false} MissingBlockFails(r: Repo, data: Bytes, levels: nat, store: Store, depth: nat)
    requires r.Lawful() && ObjectId(r, data, levels).Some? && InRange(r, data, levels) && depth > levels
    requires NothingElse(r, store, Written(r, data, levels))
    ensures var oid := ObjectId(r, data, levels).value;
      VerifyObject(r, store, oid, depth).Ok? || ReadObject(r, store, oid, depth).Ok? ==> HoldsAll(r, store, Written(r, data, levels))
    decreases levels
  {
    hide Repo.Lawful;
    hide Chunks;
    hide VerifyObject;
    hide ReadObject;
    hide VerifyList;
    hide ReadList;
    hide HoldsAll;
    hide NothingElse;
    hide Entries;
    var chunks := Chunks(r.split, data);
    if |chunks| == 1 {
      SingleChunk(r, data, levels);
      if r.blockId(data) !in store {
        MissingFails(r, store, data, depth);
      } else {
        OneHeld(r, store, data);
      }
    } else {
      var list := ListBytes(r, data);
      Unfold(r, data, levels);
      var inner := ObjectId(r, list, levels - 1).value;
      NothingElseBoth(r, store, (set c | c in chunks), Written(r, list, levels - 1));
      IndirectIff(r, store, inner, depth);
      MissingBlockFails(r, list, levels - 1, store, depth - 1);
      ChunksConcat(r.split, data);
      DecodesBack(r, chunks);
      if HoldsAll(r, store, Written(r, list, levels - 1)) {
        ReadBack(r, list, levels - 1, store, depth - 1);
        if VerifyList(r, store, Entries(r, chunks), depth - 1).Ok? {
          MissingChunkVerifies(r, store, chunks, depth - 1);
        }
        if ReadList(r, store, Entries(r, chunks), depth - 1).Ok? {
          MissingChunkReads(r, store, chunks, depth - 1);
        }
      }
    }
  }

  lemma OneHeld(r: Repo, store: Store, c: Bytes)
    requires NothingElse(r, store, {c}) && r.blockId(c) in store
    ensures HoldsAll(r, store, {c})
  {
  }

  /** A written object verifies, and reads, exactly if every one of its blocks is in the store. */
  lemma VerifiesIffPresent(r: Repo, data: Bytes, levels: nat, store: Store, depth: nat)
    requires r.Lawful() && ObjectId(r, data, levels).Some? && InRange(r, data, levels) && depth > levels
    requires NothingElse(r, store, Written(r, data, levels))
    ensures var oid := ObjectId(r, data, levels).value;
      && (VerifyObject(r, store, oid, depth).Ok? <==> IdsOf(r, Written(r, data, levels)) <= store.Keys)
      && (ReadObject(r, store, oid, depth).Ok? <==> IdsOf(r, Written(r, data, levels)) <= store.Keys)
  {
    hide *;
    HeldIff(r, store, Written(r, data, levels));
    MissingBlockFails(r, data, levels, store, depth);
    if HoldsAll(r, store, Written(r, data, levels)) {
      VerifyBack(r, data, levels, store, depth);
      ReadBack(r, data, levels, store, depth);
    }
  }

  /* ----- how many levels are needed ----- */

  /** Lists of n entries take at most a + b * n bytes. */
  ghost predicate ListSize(r: Repo, a: nat, b: nat) {
    forall es :: Plausible(es) ==> |r.encode(es)| <= a + b * |es|
  }

  /** The splitter makes chunks of at least `m` bytes, which hold two list entries. */
  ghost predicate Halves(r: Repo, m: nat, a: nat, b: nat) {
    r.Lawful() && CutsLong(r.split, m) && ListSize(r, a, b) && m > 0 && m >= a + 2 * b
  }

  /** Halving, rounded up, until one is left: ceil(log2 n). */
  function Halvings(n: nat): (k: nat) {
    if n <= 1 then 0 else 1 + Halvings((n + 1) / 2)
  }

  lemma {:induction false} HalvingsMonotone(m: nat, n: nat)
    requires m <= n
    ensures Halvings(m) <= Halvings(n)
  {
    if m > 1 {
      HalvingsMonotone((m + 1) / 2, (n + 1) / 2);
    }
  }

  lemma ListFits(a: nat, b: nat, n: nat, k: nat, m: nat)
    requires n >= 2 && 2 * k >= n && m >= a + 2 * b
    ensures a + b * n <= m * k
  {
    assert k >= 1;
    assert m * k >= (a + 2 * b) * k;
    assert (a + 2 * b) * k == a * k + b * (2 * k);
    assert a * k >= a;
    assert b * (2 * k) >= b * n;
  }

  lemma Smaller(m: nat, x: nat, y: nat)
    requires m * x < m * y
    ensures x < y
  {
    assert x >= y ==> m * x >= m * y;
  }

  lemma AtMostTimes(m: nat, x: nat, y: nat)
    requires x <= y
    ensures m * x <= m * y
  {
  }

  /** A list level has at most half as many chunks, rounded up, as the level it lists, and it
      is shorter. */
  lemma LevelHalves(r: Repo, m: nat, a: nat, b: nat, data: Bytes)
    requires Halves(r, m, a, b) && |data| < TWO63 && |Chunks(r.split, data)| >= 2
    ensures |Chunks(r.split, ListBytes(r, data))| <= (|Chunks(r.split, data)| + 1) / 2
    ensures |ListBytes(r, data)| < |data|
  {
    hide Chunks;
    hide Repo.Lawful;
    hide Plausible;
    hide CutsLong;
    var chunks := Chunks(r.split, data);
    var n, k := |chunks|, (|chunks| + 1) / 2;
    var list := ListBytes(r, data);
    ChunksConcat(r.split, data);
    EntriesPlausible(r, chunks);
    ListFits(a, b, n, k, m);
    ChunksLong(r.split, m, data);
    AtMostTimes(m, k, n - 1);
    var j := |Chunks(r.split, list)|;
    if j >= 2 {
      ChunksLong(r.split, m, list);
      Smaller(m, j - 1, k);
    }
  }

  /** With such a splitter `Result` ends within ceil(log2 n) levels of lists, where n is the
      number of chunks, and no length leaves its range. */
  lemma {:induction false} ListsEnd(r: Repo, m: nat, a: nat, b: nat, data: Bytes, levels: nat)
    requires Halves(r, m, a, b) && |data| < TWO63 && levels >= Halvings(|Chunks(r.split, data)|)
    ensures ObjectId(r, data, levels).Some? && InRange(r, data, levels)
    decreases levels
  {
    hide Chunks;
    hide ListBytes;
    hide Halves;
    if |Chunks(r.split, data)| >= 2 {
      LevelHalves(r, m, a, b, data);
      HalvingsMonotone(|Chunks(r.split, ListBytes(r, data))|, (|Chunks(r.split, data)| + 1) / 2);
      ListsEnd(r, m, a, b, ListBytes(r, data), levels - 1);
    }
  }

  /** The fixed splitter, with chunks long enough for two list entries. */
  lemma FixedEnds(r: Repo, length: nat, a: nat, b: nat, data: Bytes)
    requires r.Lawful() && r.split == Fixed(length) && length > 0 && ListSize(r, a, b) && length >= a + 2 * b
    requires |data| < TWO63
    ensures ObjectId(r, data, Halvings(ChunkCount(|data|, length))).Some?
    ensures InRange(r, data, Halvings(ChunkCount(|data|, length)))
  {
    hide Repo.Lawful;
    hide ListSize;
    hide CutsLong;
    FixedCutsLong(length);
    FixedChunkCount(length, data);
    ListsEnd(r, length, a, b, data, Halvings(ChunkCount(|data|, length)));
  }

  /** The rolling-hash splitter with any hash, when its shortest chunk but the last is long
      enough for two list entries. */
  lemma RollingEnds(r: Repo, sum: Bytes -> uint32, modulus: nat, min: int, max: nat, a: nat, b: nat, data: Bytes)
    requires modulus > 0 && max > 0 && r.split == Rolling(sum, modulus, min, max)
    requires r.Lawful() && ListSize(r, a, b) && ShortestChunk(min, max) >= a + 2 * b && |data| < TWO63
    ensures var levels := Halvings(|Chunks(r.split, data)|);
      ObjectId(r, data, levels).Some? && InRange(r, data, levels)
  {
    hide Repo.Lawful;
    hide ListSize;
    hide CutsLong;
    RollingCutsLong(sum, modulus, min, max);
    ListsEnd(r, ShortestChunk(min, max), a, b, data, Halvings(|Chunks(r.split, data)|));
  }

  /** Hence every object up to the 63-bit limit gets an ID, and reading and verifying that ID
      give back the bytes, their length and the blocks they are stored in. */
  lemma EveryObjectReadsBack(r: Repo, m: nat, a: nat, b: nat, data: Bytes, store: Store, depth: nat)
    requires Halves(r, m, a, b) && |data| < TWO63 && depth > Halvings(|Chunks(r.split, data)|)
    requires HoldsAll(r, store, Written(r, data, Halvings(|Chunks(r.split, data)|)))
    ensures var oid := ObjectId(r, data, Halvings(|Chunks(r.split, data)|));
      && oid.Some? && ReadObject(r, store, oid.value, depth) == Ok(data)
      && VerifyObject(r, store, oid.value, depth)
         == Ok((|data|, IdsOf(r, Written(r, data, Halvings(|Chunks(r.split, data)|)))))
  {
    var levels := Halvings(|Chunks(r.split, data)|);
    hide *;
    HalvesLawful(r, m, a, b);
    ListsEnd(r, m, a, b, data, levels);
    ReadBack(r, data, levels, store, depth);
    VerifyBack(r, data, levels, store, depth);
  }

  lemma HalvesLawful(r: Repo, m: nat, a: nat, b: nat)
    requires Halves(r, m, a, b)
    ensures r.Lawful()
  {
  }
}
