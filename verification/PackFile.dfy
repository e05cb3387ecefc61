/** Pack files: encrypted payloads laid out one after the other, padding, and a recovery copy
    of the pack's own index (block_manager.go, block_index_recovery.go). */
module PackFile {
  import opened ByteStrings
  import opened ContentId
  import opened BlockInfo
  import opened Crypto
  import opened IndexFormat
  import opened IndexReader
  import opened IndexBuilder
  import opened Postamble

  const MAX_PACK := 0x8000_0000
  const FORMAT_VERSION: byte := 1

  /** The pack under construction: its bytes so far and the entries placed in it. */
  datatype Pack = Pack(data: Bytes, index: Index)

  function PackedEntry(it: Info, packFile: Bytes, offset: nat): (e: Info)
    requires it.payload.Some?
  {
    Info(it.blockID, |it.payload.value| % TWO32, it.timestamp, packFile, offset % TWO32, it.deleted, None, FORMAT_VERSION)
  }

  /** One round of the packing loop: tombstones carry no payload and take no space. */
  function AddItem(c: Suite, p: Pack, packFile: Bytes, it: Info): (r: Result<Pack>) {
    if it.payload.None? then Ok(p)
    else match PackedIV(it.blockID)
      case None => Err(InvalidBlockId)
      case Some(iv) =>
        Ok(Pack(p.data + c.encrypt(it.payload.value, iv), AddTo(p.index, PackedEntry(it, packFile, |p.data|))))
  }

  /** The packing loop over the pending items in iteration order. */
  function AddItems(c: Suite, start: Bytes, packFile: Bytes, items: seq<Info>): (r: Result<Pack>) {
    if items == [] then Ok(Pack(start, map[]))
    else match AddItems(c, start, packFile, items[..|items| - 1])
      case Err(e) => Err(e)
      case Ok(p) => AddItem(c, p, packFile, items[|items| - 1])
  }

  /** Bytes of padding: up to the next multiple of the unit, a whole unit if already there. */
  function Missing(length: nat, unit: nat): (r: nat)
    requires unit > 0
  {
    unit - length % unit
  }

  function Pad(data: Bytes, unit: nat, random: nat -> Bytes): (r: Bytes) {
    if unit == 0 then data else data + random(Missing(|data|, unit))
  }

  /** `appendPackFileIndexRecoveryData` for the encoded local index. */
  function AppendRecovery(c: Suite, data: Bytes, localIndex: Bytes): (r: Result<Bytes>) {
    var iv := c.hash(localIndex);
    match ToBytes(c.crc, PackPostamble(iv, |data| % TWO32, |localIndex| % TWO32))
    case Err(e) => Err(e)
    case Ok(post) => Ok(data + c.encrypt(localIndex, iv) + post)
  }

  /** `preparePackDataBlock`: nothing when no item has a payload, else the pack file and the
      entries in it. `random` stands for the random padding bytes. */
  ghost function PackFileOf(c: Suite, start: Bytes, packFile: Bytes, items: seq<Info>, unit: nat, random: nat -> Bytes)
    : (r: Result<Option<Pack>>)
  {
    match AddItems(c, start, packFile, items)
    case Err(e) => Err(e)
    case Ok(p) =>
      if p.index == map[] then Ok(None)
      else
        var padded := Pad(p.data, unit, random);
        match EncodeIndex(p.index)
        case Err(e) => Err(e)
        case Ok(local) =>
          match AppendRecovery(c, padded, local)
          case Err(e) => Err(e)
          case Ok(file) => Ok(Some(Pack(file, p.index)))
  }

  ghost function EncodeIndex(b: Index): Result<Bytes> {
    if Keyed(b) then Encode(Sorted(b)) else Err(InvalidBlockId)
  }

  lemma {:induction false} AddItemsKeyed(c: Suite, start: Bytes, packFile: Bytes, items: seq<Info>)
    requires AddItems(c, start, packFile, items).Ok?
    ensures Keyed(AddItems(c, start, packFile, items).value.index)
  {
    hide PackedIV;
    if items != [] {
      AddItemsKeyed(c, start, packFile, items[..|items| - 1]);
    }
  }

  /** The packing loop and what follows it, as the manager runs them. */
  method PreparePackDataBlock(c: Suite, start: Bytes, packFile: Bytes, items: seq<Info>, unit: nat, random: nat -> Bytes)
    returns (r: Result<Option<Pack>>)
    ensures r == PackFileOf(c, start, packFile, items, unit, random)
  {
    hide PackedIV;
    hide Sorted;
    hide Encode;
    var data := start;
    var builder := new PackIndexBuilder();
    for i := 0 to |items|
      invariant fresh(builder) && builder.Valid()
      invariant AddItems(c, start, packFile, items[..i]) == Ok(Pack(data, builder.entries))
    {
      var it := items[i];
      assert items[..i + 1][..i] == items[..i];
      if it.payload.Some? {
        var iv := PackedIV(it.blockID);
        if iv.None? {
          AddItemsFails(c, start, packFile, items, i + 1);
          return Err(InvalidBlockId);
        }
        builder.Add(PackedEntry(it, packFile, |data|));
        data := data + c.encrypt(it.payload.value, iv.value);
      }
    }
    assert items[..|items|] == items;
    if builder.entries == map[] {
      return Ok(None);
    }
    if unit > 0 {
      data := data + random(unit - |data| % unit);
    }
    var local := builder.Build();
    if local.Err? {
      return Err(local.error);
    }
    var file := AppendRecovery(c, data, local.value);
    match file {
      case Err(e) => r := Err(e);
      case Ok(f) => r := Ok(Some(Pack(f, builder.entries)));
    }
  }

  lemma {:induction false} AddItemsFails(c: Suite, start: Bytes, packFile: Bytes, items: seq<Info>, n: nat)
    requires n <= |items| && AddItems(c, start, packFile, items[..n]).Err?
    ensures AddItems(c, start, packFile, items) == AddItems(c, start, packFile, items[..n])
  {
    hide PackedIV;
    if n < |items| {
      assert items[..|items| - 1][..n] == items[..n];
      AddItemsFails(c, start, packFile, items[..|items| - 1], n);
    } else {
      assert items[..n] == items;
    }
  }

  /* ----- what a pack holds ----- */

  /** Pending items as the manager keeps them: distinct IDs, each payload under its own hash. */
  ghost predicate PackableItems(c: Suite, items: seq<Info>) {
    && (forall i :: 0 <= i < |items| && items[i].payload.Some? ==>
          Identifies(c, items[i].blockID, items[i].payload.value))
    && (forall i, j :: 0 <= i < j < |items| ==> items[i].blockID != items[j].blockID)
  }

  /** Reading an entry's range of the pack (`getBlockContentsUnlocked`). */
  function ReadEntry(c: Suite, data: Bytes, e: Info): (r: Result<Bytes>) {
    if e.packOffset + e.length > |data| then Err(InvalidOffset)
    else match PackedIV(e.blockID)
      case None => Err(InvalidBlockId)
      case Some(iv) => c.DecryptAndVerify(data[e.packOffset..e.packOffset + e.length], iv)
  }

  /** Whatever the pack file holds, an entry reads as `d` exactly if its range is there, decrypts to
      `d` and the ID has the hash of `d`. */
  lemma ReadEntryIff(c: Suite, data: Bytes, e: Info, d: Bytes)
    requires c.Lawful()
    ensures ReadEntry(c, data, e) == Ok(d) <==>
      && PackedIV(e.blockID) == Some(c.hash(d)) && e.packOffset + e.length <= |data|
      && c.decrypt(data[e.packOffset..e.packOffset + e.length], c.hash(d)) == d
  {
    hide PackedIV;
    hide Suite.DecryptAndVerify;
    PackedIvLength(e.blockID);
    if e.packOffset + e.length <= |data| && PackedIV(e.blockID).Some? {
      var iv := PackedIV(e.blockID).value;
      VerifiedIff(c, data[e.packOffset..e.packOffset + e.length], iv, d);
      assert iv[|iv| - IV_LENGTH..] == iv;
    }
  }

  /** The pack has an entry for `it` and its range reads back as the payload. */
  ghost predicate Placed(c: Suite, p: Pack, packFile: Bytes, it: Info) {
    && it.payload.Some? && it.blockID in p.index
    && var e := p.index[it.blockID];
       && e == PackedEntry(it, packFile, e.packOffset) && e.length == |it.payload.value|
       && e.packOffset + |it.payload.value| <= |p.data|
       && ReadEntry(c, p.data, e) == Ok(it.payload.value)
  }

  /** Appending to a pack does not disturb what was placed. */
  lemma ReadEntryExtends(c: Suite, data: Bytes, more: Bytes, e: Info)
    requires ReadEntry(c, data, e).Ok?
    ensures ReadEntry(c, data + more, e) == ReadEntry(c, data, e)
  {
    hide PackedIV;
    assert (data + more)[e.packOffset..e.packOffset + e.length] == data[e.packOffset..e.packOffset + e.length];
  }

  lemma PlacedExtends(c: Suite, p: Pack, q: Pack, packFile: Bytes, it: Info)
    requires Placed(c, p, packFile, it)
    requires p.data <= q.data && it.blockID in q.index && q.index[it.blockID] == p.index[it.blockID]
    ensures Placed(c, q, packFile, it)
  {
    hide ReadEntry;
    assert q.data == p.data + q.data[|p.data|..];
    ReadEntryExtends(c, p.data, q.data[|p.data|..], p.index[it.blockID]);
  }

  /** An entry appended to a pack reads back as what was encrypted. */
  lemma ReadsBackAtEnd(c: Suite, data: Bytes, e: Info, d: Bytes)
    requires c.Lawful() && PackedIV(e.blockID) == Some(c.hash(d))
    requires e.packOffset == |data| && e.length == |d|
    ensures ReadEntry(c, data + c.encrypt(d, c.hash(d)), e) == Ok(d)
  {
    hide PackedIV;
    hide Suite.DecryptAndVerify;
    hide Suite.Lawful;
    var x := c.encrypt(d, c.hash(d));
    EncryptKeepsLength(c, d, c.hash(d));
    assert (data + x)[|data|..|data| + |d|] == x;
    DecryptsBack(c, d);
  }

  /** The item just added is placed at the old end. */
  lemma AddItemPlaces(c: Suite, p: Pack, packFile: Bytes, it: Info)
    requires c.Lawful() && it.payload.Some? && Identifies(c, it.blockID, it.payload.value)
    requires it.blockID !in p.index && |p.data| + |it.payload.value| < TWO32
    ensures AddItem(c, p, packFile, it).Ok?
    ensures var q := AddItem(c, p, packFile, it).value;
      && Placed(c, q, packFile, it)
      && q.index == p.index[it.blockID := PackedEntry(it, packFile, |p.data|)]
      && p.data <= q.data && |q.data| == |p.data| + |it.payload.value|
  {
    hide PackedIV;
    hide Identifies;
    hide ReadEntry;
    hide Suite.Lawful;
    var d := it.payload.value;
    IvOfId(c, it.blockID, d);
    EncryptKeepsLength(c, d, c.hash(d));
    PackedEntryFields(it, packFile, |p.data|);
    ReadsBackAtEnd(c, p.data, PackedEntry(it, packFile, |p.data|), d);
  }

  /** Payload bytes of the items. */
  function PayloadBytes(items: seq<Info>): (r: nat) {
    if items == [] then 0
    else
      var it := items[|items| - 1];
      PayloadBytes(items[..|items| - 1]) + (if it.payload.Some? then |it.payload.value| else 0)
  }

  ghost predicate HasItem(items: seq<Info>, id: Bytes) {
    exists i :: 0 <= i < |items| && items[i].blockID == id && items[i].payload.Some?
  }

  /** The packing loop succeeds, places every payload and nothing else, one after the other. */
  lemma {:induction false} AddItemsPlaces(c: Suite, start: Bytes, packFile: Bytes, items: seq<Info>) returns (p: Pack)
    requires c.Lawful() && PackableItems(c, items)
    requires |start| + PayloadBytes(items) < TWO32
    ensures AddItems(c, start, packFile, items) == Ok(p)
    ensures start <= p.data && |p.data| == |start| + PayloadBytes(items)
    ensures Keyed(p.index) && |p.index| <= |items|
    ensures forall i :: 0 <= i < |items| && items[i].payload.Some? ==> Placed(c, p, packFile, items[i])
    ensures forall id :: id in p.index <==> HasItem(items, id)
    ensures InRanges(p.index, |start|, |p.data|) && DisjointRanges(p.index)
  {
    hide AddItem;
    hide Placed;
    hide Identifies;
    hide HasItem;
    hide InRanges;
    hide DisjointRanges;
    if items == [] {
      p := Pack(start, map[]);
      NoRanges(|start|);
      NoItems();
    } else {
      var n := |items| - 1;
      var t, it := items[..n], items[n];
      var q := AddItemsPlaces(c, start, packFile, t);
      HasItemLast(items);
      if it.payload.None? {
        p := q;
        SkipsTombstone(c, q, packFile, it);
        forall i | 0 <= i < |items| && items[i].payload.Some? ensures Placed(c, p, packFile, items[i]) {
          assert items[i] == t[i];
        }
      } else {
        NotYetPlaced(items);
        p := PlaceLast(c, start, packFile, items, q);
      }
    }
  }

  lemma PlaceLast(c: Suite, start: Bytes, packFile: Bytes, items: seq<Info>, q: Pack) returns (p: Pack)
    requires c.Lawful() && PackableItems(c, items) && items != [] && items[|items| - 1].payload.Some?
    requires |q.data| + |items[|items| - 1].payload.value| < TWO32
    requires items[|items| - 1].blockID !in q.index && Keyed(q.index)
    requires forall i :: 0 <= i < |items| - 1 && items[i].payload.Some? ==> Placed(c, q, packFile, items[i])
    requires |start| <= |q.data| && InRanges(q.index, |start|, |q.data|) && DisjointRanges(q.index)
    ensures AddItem(c, q, packFile, items[|items| - 1]) == Ok(p)
    ensures q.data <= p.data && |p.data| == |q.data| + |items[|items| - 1].payload.value|
    ensures Keyed(p.index) && |p.index| == |q.index| + 1
    ensures p.index.Keys == q.index.Keys + {items[|items| - 1].blockID}
    ensures forall i :: 0 <= i < |items| && items[i].payload.Some? ==> Placed(c, p, packFile, items[i])
    ensures InRanges(p.index, |start|, |p.data|) && DisjointRanges(p.index)
  {
    hide AddItem;
    hide Placed;
    hide PackableItems;
    hide InRanges;
    hide DisjointRanges;
    hide PackedEntry;
    var n := |items| - 1;
    var it := items[n];
    ItemIdentified(c, items, n);
    AddItemPlaces(c, q, packFile, it);
    p := AddItem(c, q, packFile, it).value;
    var e := PackedEntry(it, packFile, |q.data|);
    assert e.blockID == it.blockID && e.packOffset == |q.data| && e.length == |it.payload.value| by {
      PackedEntryFields(it, packFile, |q.data|);
    }
    RangesExtend(q.index, |start|, |q.data|, e);
    assert p.index.Keys == q.index.Keys + {it.blockID};
    forall i | 0 <= i < n && items[i].payload.Some? ensures Placed(c, p, packFile, items[i]) {
      PlacedKept(c, q, p, packFile, items[i], e);
    }
  }

  lemma ItemIdentified(c: Suite, items: seq<Info>, i: nat)
    requires PackableItems(c, items) && i < |items| && items[i].payload.Some?
    ensures Identifies(c, items[i].blockID, items[i].payload.value)
  {
  }

  lemma PackedEntryFields(it: Info, packFile: Bytes, offset: nat)
    requires it.payload.Some? && offset + |it.payload.value| < TWO32
    ensures var e := PackedEntry(it, packFile, offset);
      e.blockID == it.blockID && e.packOffset == offset && e.length == |it.payload.value|
  {
  }

  lemma SkipsTombstone(c: Suite, p: Pack, packFile: Bytes, it: Info)
    requires it.payload.None?
    ensures AddItem(c, p, packFile, it) == Ok(p)
  {
  }

  lemma PlacedKept(c: Suite, p: Pack, q: Pack, packFile: Bytes, it: Info, e: Info)
    requires Placed(c, p, packFile, it) && e.blockID !in p.index
    requires p.data <= q.data && q.index == p.index[e.blockID := e]
    ensures Placed(c, q, packFile, it)
  {
    hide ReadEntry;
    PlacedExtends(c, p, q, packFile, it);
  }

  lemma NoItems()
    ensures forall id :: !HasItem([], id)
  {
  }

  lemma HasItemLast(items: seq<Info>)
    requires items != []
    ensures forall id :: HasItem(items, id) <==>
      HasItem(items[..|items| - 1], id) || (id == items[|items| - 1].blockID && items[|items| - 1].payload.Some?)
  {
    var n := |items| - 1;
    var t := items[..n];
    forall id ensures HasItem(items, id) <==> HasItem(t, id) || (id == items[n].blockID && items[n].payload.Some?) {
      if HasItem(t, id) {
        var i :| 0 <= i < |t| && t[i].blockID == id && t[i].payload.Some?;
        assert items[i] == t[i];
      }
      if HasItem(items, id) {
        var i :| 0 <= i < |items| && items[i].blockID == id && items[i].payload.Some?;
        assert i < n ==> t[i] == items[i];
      }
    }
  }

  lemma NotYetPlaced(items: seq<Info>)
    requires items != [] && forall i, j :: 0 <= i < j < |items| ==> items[i].blockID != items[j].blockID
    ensures !HasItem(items[..|items| - 1], items[|items| - 1].blockID)
  {
  }

  /* Ranges of the payloads. */

  ghost predicate InRanges(b: Index, lo: nat, hi: nat) {
    forall id :: id in b ==> lo <= b[id].packOffset && b[id].packOffset + b[id].length <= hi
  }

  predicate Apart(x: Info, y: Info) {
    x.packOffset + x.length <= y.packOffset || y.packOffset + y.length <= x.packOffset
  }

  /** No two blocks share bytes of the pack. */
  ghost predicate DisjointRanges(b: Index) {
    forall i, j :: i in b && j in b && i != j ==> Apart(b[i], b[j])
  }

  lemma NoRanges(n: nat)
    ensures InRanges(map[], n, n) && DisjointRanges(map[])
  {
  }

  lemma RangesExtend(b: Index, lo: nat, hi: nat, e: Info)
    requires lo <= hi && InRanges(b, lo, hi) && DisjointRanges(b) && e.packOffset == hi && e.blockID !in b
    ensures InRanges(b[e.blockID := e], lo, hi + e.length) && DisjointRanges(b[e.blockID := e])
  {
    var d := b[e.blockID := e];
    forall i, j | i in d && j in d && i != j ensures Apart(d[i], d[j]) {
    }
  }

  /* ----- recovering the index from the pack ----- */

  /** `readPackFileLocalIndex`; the end offset is computed in 32 bits. */
  function ReadLocalIndex(c: Suite, file: Bytes): (r: Result<Bytes>) {
    match FindPostamble(c.crc, file)
    case None => Err(NoPostamble)
    case Some(p) =>
      var end := (p.offset + p.length) % TWO32;
      if end > |file| || end < p.offset then Err(InvalidOffset)
      else c.DecryptAndVerify(file[p.offset..end], p.iv)
  }

  /** Whatever the file holds, a local index is recovered exactly if there is a postamble, which
      names a range of the file that decrypts to it and has its hash at the end of its vector. */
  lemma LocalIndexIff(c: Suite, file: Bytes, local: Bytes)
    requires c.Lawful()
    ensures ReadLocalIndex(c, file) == Ok(local) <==>
      && FindPostamble(c.crc, file).Some?
      && var p := FindPostamble(c.crc, file).value;
      var end := (p.offset + p.length) % TWO32;
      && p.offset <= end <= |file| && c.decrypt(file[p.offset..end], p.iv) == local
      && |p.iv| >= IV_LENGTH && p.iv[|p.iv| - IV_LENGTH..] == c.hash(local)
  {
    hide FindPostamble;
    hide Suite.DecryptAndVerify;
    var found := FindPostamble(c.crc, file);
    if found.Some? {
      var p := found.value;
      var end := (p.offset + p.length) % TWO32;
      if p.offset <= end <= |file| {
        VerifiedIff(c, file[p.offset..end], p.iv, local);
      }
    }
  }

  lemma LocalIndexReadBack(c: Suite, data: Bytes, local: Bytes)
    requires c.Lawful() && |data| + |local| < TWO32
    ensures AppendRecovery(c, data, local).Ok?
    ensures data <= AppendRecovery(c, data, local).value
    ensures ReadLocalIndex(c, AppendRecovery(c, data, local).value) == Ok(local)
    ensures var p := FindPostamble(c.crc, AppendRecovery(c, data, local).value); p.Some? && p.value.offset == |data|
  {
    hide ToBytes;
    hide FindPostamble;
    hide Suite.DecryptAndVerify;
    var iv := c.hash(local);
    var p := PackPostamble(iv, |data|, |local|);
    PostambleFits(c.crc, p);
    var x := c.encrypt(local, iv);
    var file := data + x + ToBytes(c.crc, p).value;
    PostambleRoundTrip(c.crc, data + x, p);
    assert file[|data|..|data| + |local|] == x;
    DecryptsBack(c, local);
  }

  /** The file carries a readable copy of the index `b`. */
  ghost predicate Recoverable(c: Suite, file: Bytes, b: Index) {
    Keyed(b) && Encodable(Sorted(b)) && ReadLocalIndex(c, file) == Encode(Sorted(b))
  }

  lemma RecoverableFits(c: Suite, file: Bytes, b: Index, id: Bytes)
    requires Recoverable(c, file, b) && id in b
    ensures Representable(b[id]) && b[id].packFile != []
  {
    hide Ascending;
    hide Representable;
    hide Canonical;
    hide ToKey;
    hide NamesOf;
    hide Encode;
    var s := Sorted(b);
    var i :| 0 <= i < |s| && s[i].blockID == id;
    assert s[i] == b[id];
  }

  /** `RecoverIndexFromPackFile` without commit. */
  method RecoverIndexFromPackFile(c: Suite, file: Bytes, ghost b: Index) returns (r: Result<seq<Info>>)
    ensures Recoverable(c, file, b) ==> r == Ok(Sorted(b))
    ensures ReadLocalIndex(c, file).Err? ==> r == Err(ReadLocalIndex(c, file).error)
    ensures ReadLocalIndex(c, file).Ok? && Open(ReadLocalIndex(c, file).value).Err? ==> r.Err?
  {
    hide Encode;
    hide Encodable;
    hide Open;
    hide ReadLocalIndex;
    hide Sorted;
    hide File.Lists;
    ghost var s := if Keyed(b) then Sorted(b) else [];
    if Recoverable(c, file, b) {
      var f := BuildThenOpen(b, s);
      EmptyPrefixKeepsAll(s);
    }
    var local := ReadLocalIndex(c, file);
    if local.Err? {
      return Err(local.error);
    }
    var f := Open(local.value);
    if f.Err? {
      return Err(f.error);
    }
    r := Iterate(f.value, [], s);
  }

  /** Inputs within the format's limits: 48-bit timestamps, a pack name of 1 to 255 bytes, and
      a pack below 2^31 bytes including its padding and local index. */
  ghost predicate WithinLimits(start: Bytes, packFile: Bytes, items: seq<Info>, unit: nat) {
    && 1 <= |packFile| <= 255
    && (forall i :: 0 <= i < |items| ==> 0 <= items[i].timestamp < 0x1_0000_0000_0000)
    && |start| + PayloadBytes(items) + unit + 8 + RowOffset(|items|, IV_LENGTH + 1 + ENTRY_LENGTH) + |packFile| < MAX_PACK
  }

  lemma PackedRepresentable(c: Suite, p: Pack, packFile: Bytes, items: seq<Info>, id: Bytes)
    requires c.Lawful() && PackableItems(c, items) && 1 <= |packFile| <= 255 && |p.data| < MAX_PACK
    requires forall i :: 0 <= i < |items| ==> 0 <= items[i].timestamp < 0x1_0000_0000_0000
    requires forall i :: 0 <= i < |items| && items[i].payload.Some? ==> Placed(c, p, packFile, items[i])
    requires HasItem(items, id)
    ensures id in p.index
    ensures var e := p.index[id];
      && Representable(e) && e.packFile == packFile && e.payload == None
      && e.blockID == id && Canonical(id) && |ToKey(id)| == IV_LENGTH + 1
  {
    hide Identifies;
    hide ReadEntry;
    hide Canonical;
    hide ToKey;
    hide PackedIV;
    var i :| 0 <= i < |items| && items[i].blockID == id && items[i].payload.Some?;
    assert Placed(c, p, packFile, items[i]);
    IvOfId(c, id, items[i].payload.value);
  }

  /** All entries name the same pack, so its name is stored once. */
  lemma {:induction false} OneName(s: seq<Info>, packFile: Bytes)
    requires packFile != [] && forall i :: 0 <= i < |s| ==> s[i].packFile == packFile
    ensures NamesOf(s) == if s == [] then Names(map[], []) else Names(map[packFile := 0], packFile)
  {
    if s != [] {
      OneName(s[..|s| - 1], packFile);
    }
  }

  lemma {:induction false} RowOffsetMonotone(i: nat, j: nat, w: nat)
    requires i <= j
    ensures RowOffset(i, w) <= RowOffset(j, w)
  {
    if i < j {
      RowOffsetMonotone(i, j - 1, w);
    }
  }

  ghost predicate Uniform(s: seq<Info>, packFile: Bytes, k: nat) {
    forall i :: 0 <= i < |s| ==>
      && Representable(s[i]) && s[i].packFile == packFile && s[i].payload == None
      && Canonical(s[i].blockID) && |ToKey(s[i].blockID)| == k
  }

  lemma UniformEncodable(s: seq<Info>, packFile: Bytes, k: nat)
    requires s != [] && packFile != [] && Uniform(s, packFile, k) && 2 <= k <= 255
    requires 8 + RowOffset(|s|, k + ENTRY_LENGTH) + |packFile| < TWO32
    ensures Encodable(s) && Encode(s).Ok?
    ensures |Encode(s).value| == 8 + RowOffset(|s|, k + ENTRY_LENGTH) + |packFile|
  {
    hide Representable;
    hide Canonical;
    hide ToKey;
    hide NamesOf;
    hide Encode;
    hide RowOffset;
    OneName(s, packFile);
    assert KeyLength(s) == k;
    EncodedLength(s);
  }

  lemma PackIndexUniform(c: Suite, packFile: Bytes, items: seq<Info>, p: Pack)
    requires c.Lawful() && PackableItems(c, items) && 1 <= |packFile| <= 255 && |p.data| < MAX_PACK && Keyed(p.index)
    requires forall i :: 0 <= i < |items| ==> 0 <= items[i].timestamp < 0x1_0000_0000_0000
    requires forall i :: 0 <= i < |items| && items[i].payload.Some? ==> Placed(c, p, packFile, items[i])
    requires forall id :: id in p.index <==> HasItem(items, id)
    ensures Uniform(Sorted(p.index), packFile, IV_LENGTH + 1)
  {
    hide PackableItems;
    hide Placed;
    hide HasItem;
    hide Representable;
    hide Canonical;
    hide ToKey;
    hide Ascending;
    var s := Sorted(p.index);
    forall i | 0 <= i < |s|
      ensures Representable(s[i]) && s[i].packFile == packFile && s[i].payload == None
      ensures Canonical(s[i].blockID) && |ToKey(s[i].blockID)| == IV_LENGTH + 1
    {
      assert s[i].blockID in p.index;
      PackedRepresentable(c, p, packFile, items, s[i].blockID);
    }
  }

  lemma PackIndexEncodable(c: Suite, start: Bytes, packFile: Bytes, items: seq<Info>, unit: nat, p: Pack)
    requires c.Lawful() && PackableItems(c, items) && WithinLimits(start, packFile, items, unit)
    requires |p.data| < MAX_PACK && Keyed(p.index) && |p.index| <= |items| && p.index != map[]
    requires forall i :: 0 <= i < |items| && items[i].payload.Some? ==> Placed(c, p, packFile, items[i])
    requires forall id :: id in p.index <==> HasItem(items, id)
    ensures Encodable(Sorted(p.index)) && Encode(Sorted(p.index)).Ok?
    ensures |Encode(Sorted(p.index)).value| <= 8 + RowOffset(|items|, IV_LENGTH + 1 + ENTRY_LENGTH) + |packFile|
  {
    hide PackableItems;
    hide Placed;
    hide HasItem;
    hide Uniform;
    hide Encode;
    hide Encodable;
    hide RowOffset;
    hide Enumerates;
    hide Sorted;
    var s := Sorted(p.index);
    EnumerationLength(s, p.index);
    PackIndexUniform(c, packFile, items, p);
    RowOffsetMonotone(|s|, |items|, IV_LENGTH + 1 + ENTRY_LENGTH);
    UniformEncodable(s, packFile, IV_LENGTH + 1);
  }

  lemma EncodedLength(s: seq<Info>)
    requires Encodable(s)
    ensures Encode(s).Ok?
    ensures |Encode(s).value| == 8 + RowOffset(|s|, if s == [] then 0 else KeyLength(s) + ENTRY_LENGTH) + |NamesOf(s).extra|
  {
    hide ToKey;
    hide Canonical;
    hide Representable;
    hide FirstError;
    hide NamesOf;
    NoError(s, KeyLength(s));
    if s != [] {
      RowsLength(s, NamesOf(s), ExtraOffset(s), KeyLength(s));
    }
  }

  /** Packing any set of pending items within the limits succeeds; the file starts with the
      given bytes, every payload reads back from its own range, ranges do not overlap, and
      the index is recoverable from the file alone. */
  lemma PackCorrect(c: Suite, start: Bytes, packFile: Bytes, items: seq<Info>, unit: nat, random: nat -> Bytes)
    requires c.Lawful() && PackableItems(c, items) && WithinLimits(start, packFile, items, unit)
    requires forall n :: |random(n)| == n
    ensures PackFileOf(c, start, packFile, items, unit, random).Ok?
    ensures PackFileOf(c, start, packFile, items, unit, random).value.None? <==>
      forall i :: 0 <= i < |items| ==> items[i].payload.None?
    ensures PackFileOf(c, start, packFile, items, unit, random).value.Some? ==>
      GoodPack(c, start, packFile, items, PackFileOf(c, start, packFile, items, unit, random).value.value)
  {
    hide PackableItems;
    hide Placed;
    hide Encode;
    hide Encodable;
    hide AppendRecovery;
    hide Sorted;
    hide AddItems;
    hide RowOffset;
    hide ReadLocalIndex;
    var p := AddItemsPlaces(c, start, packFile, items);
    if p.index == map[] {
      NoPayloads(items);
    } else {
      var id :| id in p.index;
      assert HasItem(items, id);
      PackIndexEncodable(c, start, packFile, items, unit, p);
      var local := Encode(Sorted(p.index)).value;
      var padded := Pad(p.data, unit, random);
      LocalIndexReadBack(c, padded, local);
      var file := AppendRecovery(c, padded, local).value;
      var q := Pack(file, p.index);
      GoodPackExtends(c, start, packFile, items, p, q);
    }
  }

  lemma NoPayloads(items: seq<Info>)
    requires forall id :: !HasItem(items, id)
    ensures forall i :: 0 <= i < |items| ==> items[i].payload.None?
  {
    forall i | 0 <= i < |items| ensures items[i].payload.None? {
      assert !HasItem(items, items[i].blockID);
    }
  }

  /** Payloads and padding end at a multiple of the unit, where the local index begins; at least one
      byte is added, and a whole unit at most. */
  lemma PackPadded(c: Suite, start: Bytes, packFile: Bytes, items: seq<Info>, unit: nat, random: nat -> Bytes, q: Pack)
    requires c.Lawful() && PackableItems(c, items) && WithinLimits(start, packFile, items, unit)
    requires (forall n :: |random(n)| == n) && unit > 0
    requires PackFileOf(c, start, packFile, items, unit, random) == Ok(Some(q))
    ensures FindPostamble(c.crc, q.data).Some?
    ensures var offset := FindPostamble(c.crc, q.data).value.offset;
      && offset % unit == 0 && 0 < offset - (|start| + PayloadBytes(items)) <= unit
      && InRanges(q.index, |start|, |start| + PayloadBytes(items))
  {
    hide PackableItems;
    hide Placed;
    hide Encode;
    hide Encodable;
    hide AppendRecovery;
    hide Sorted;
    hide AddItems;
    hide RowOffset;
    hide ReadLocalIndex;
    hide FindPostamble;
    hide Pad;
    hide InRanges;
    hide DisjointRanges;
    var p := AddItemsPlaces(c, start, packFile, items);
    PackIndexEncodable(c, start, packFile, items, unit, p);
    PadEnds(p.data, unit, random);
    LocalIndexReadBack(c, Pad(p.data, unit, random), Encode(Sorted(p.index)).value);
  }

  lemma PadEnds(data: Bytes, unit: nat, random: nat -> Bytes)
    requires unit > 0 && forall n :: |random(n)| == n
    ensures data <= Pad(data, unit, random) && |Pad(data, unit, random)| % unit == 0
    ensures 0 < |Pad(data, unit, random)| - |data| <= unit
  {
    var n, q := |data|, |data| / unit;
    assert n == unit * q + n % unit;
    assert n + Missing(n, unit) == unit * (q + 1);
    MultipleOf(q + 1, unit);
  }

  lemma MultipleOf(q: nat, unit: nat)
    requires unit > 0
    ensures unit * q % unit == 0
  {
    var x := unit * q;
    assert unit * (x / unit) + x % unit == x;
    var d := x / unit - q;
    assert unit * d == 0 - x % unit;
    assert d >= 0 ==> unit * d >= 0;
    assert d <= -1 ==> unit * d <= 0 - unit;
  }

  ghost predicate GoodPack(c: Suite, start: Bytes, packFile: Bytes, items: seq<Info>, p: Pack) {
    && start <= p.data
    && (forall i :: 0 <= i < |items| && items[i].payload.Some? ==> Placed(c, p, packFile, items[i]))
    && (forall id :: id in p.index <==> HasItem(items, id))
    && DisjointRanges(p.index)
    && Recoverable(c, p.data, p.index)
  }

  lemma GoodPackExtends(c: Suite, start: Bytes, packFile: Bytes, items: seq<Info>, p: Pack, q: Pack)
    requires p.data <= q.data && q.index == p.index && start <= p.data
    requires forall i :: 0 <= i < |items| && items[i].payload.Some? ==> Placed(c, p, packFile, items[i])
    requires forall id :: id in p.index <==> HasItem(items, id)
    requires DisjointRanges(p.index) && Recoverable(c, q.data, q.index)
    ensures GoodPack(c, start, packFile, items, q)
  {
    hide HasItem;
    hide DisjointRanges;
    hide Recoverable;
    hide ReadEntry;
    forall i | 0 <= i < |items| && items[i].payload.Some? ensures Placed(c, q, packFile, items[i]) {
      PlacedExtends(c, p, q, packFile, items[i]);
    }
  }
}
