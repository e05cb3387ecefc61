/** The manifest manager (manifest_manager.go): a last-writer-wins database kept in blocks,
    each holding a list of entries. */
module Manifests {
  import opened ByteStrings
  import opened BlockStores

  datatype Entry = Entry(id: Bytes, labels: map<Bytes, Bytes>, modTime: int, deleted: bool, content: Bytes)

  type Entries = map<Bytes, Entry>

  /** `blocks` are the manifest blocks that can be read from the block store, `inline` those it
      holds inline and `indexed` those its index files have; `blockIDs` are those the manager knows. */
  datatype State = State(
    pending: Entries,
    committed: Entries,
    blockIDs: set<Bytes>,
    blocks: map<Bytes, seq<Entry>>,
    inline: set<Bytes>,
    indexed: map<Bytes, seq<Entry>>)

  const EMPTY := State(map[], map[], {}, map[], {}, map[])

  function StoreOf(s: State): (r: Store<seq<Entry>>) {
    Store(s.blocks, s.inline, s.indexed)
  }

  function WithStore(s: State, t: Store<seq<Entry>>): (r: State) {
    s.(blocks := t.readable, inline := t.inline, indexed := t.indexed)
  }

  /* ----- queries ----- */

  function Live(e: Entry): (r: Option<Entry>) {
    if e.deleted then None else Some(e)
  }

  /** `GetMetadata` and `GetRaw`: pending entries first, tombstones are not found. */
  function Get(s: State, id: Bytes): (r: Option<Entry>) {
    if id in s.pending then Live(s.pending[id])
    else if id in s.committed then Live(s.committed[id])
    else None
  }

  /* ----- updates ----- */

  function Put(s: State, e: Entry): State {
    s.(pending := s.pending[e.id := e])
  }

  /** `Delete`: a tombstone, unless nothing is known of the ID. */
  function Delete(s: State, id: Bytes, now: int): State {
    if id !in s.pending && id !in s.committed then s
    else s.(pending := s.pending[id := Entry(id, map[], now, true, [])])
  }

  ghost predicate OrderOf(order: seq<Bytes>, m: Entries) {
    && (forall id :: id in order <==> id in m)
    && (forall i, j :: 0 <= i < j < |order| ==> order[i] != order[j])
  }

  function Listed(m: Entries, order: seq<Bytes>): (r: seq<Entry>)
    requires forall id :: id in order ==> id in m
  {
    seq(|order|, i requires 0 <= i < |order| => m[order[i]])
  }

  /** A block added to the block store, unless it is there. */
  function Stored(blocks: map<Bytes, seq<Entry>>, b: Bytes, list: seq<Entry>): (r: map<Bytes, seq<Entry>>) {
    if b in blocks then blocks else blocks[b := list]
  }

  /** `flushPendingEntriesLocked`: one block with all pending entries, in the iteration order
      of the map; `name` is the ID the block store gives to a list of entries. When the block
      store reports a failure it still has the block. */
  ghost function Flush(name: seq<Entry> -> Bytes, s: State, order: seq<Bytes>, writeOk: bool, how: Settling): (r: State)
    requires OrderOf(order, s.pending)
  {
    if s.pending == map[] then s
    else
      var list := Listed(s.pending, order);
      var t := WithStore(s, Write(StoreOf(s), name(list), list, how));
      if !writeOk then t
      else t.(pending := map[], committed := s.committed + s.pending, blockIDs := s.blockIDs + {name(list)})
  }

  /** `mergeEntry`: a strictly newer entry replaces. */
  function MergeEntry(m: Entries, e: Entry): (r: Entries) {
    if e.id !in m || e.modTime > m[e.id].modTime then m[e.id := e] else m
  }

  function MergeAll(es: seq<Entry>): (r: Entries) {
    if es == [] then map[] else MergeEntry(MergeAll(es[..|es| - 1]), es[|es| - 1])
  }

  function DropDeleted(m: Entries): (r: Entries) {
    map id | id in m && !m[id].deleted :: m[id]
  }

  /** All entries of the blocks, in the order the blocks are loaded. */
  function Loaded(blocks: map<Bytes, seq<Entry>>, order: seq<Bytes>): (r: seq<Entry>)
    requires forall b :: b in order ==> b in blocks
  {
    if order == [] then [] else Loaded(blocks, order[..|order| - 1]) + blocks[order[|order| - 1]]
  }

  function MergedBlocks(blocks: map<Bytes, seq<Entry>>, order: seq<Bytes>): (r: Entries)
    requires forall b :: b in order ==> b in blocks
  {
    MergeAll(Loaded(blocks, order))
  }

  /** `loadManifestBlocks` with the blocks arriving in any order. */
  function Load(s: State, order: seq<Bytes>): (r: State)
    requires forall b :: b in order <==> b in s.blocks
  {
    s.(committed := DropDeleted(MergedBlocks(s.blocks, order)), blockIDs := s.blocks.Keys)
  }

  /** `DeleteBlock` for each of these blocks in turn, until one cannot be read. */
  function DeleteBlocks(s: State, olds: seq<Bytes>): (r: (State, bool))
    decreases |olds|
  {
    if olds == [] then (s, true)
    else if olds[0] !in s.blocks then (s, false)
    else DeleteBlocks(Forget(s, olds[0]), olds[1..])
  }

  function Forget(s: State, b: Bytes): (r: State) {
    WithStore(s, Remove(StoreOf(s), b)).(blockIDs := s.blockIDs - {b})
  }

  /** The blocks that a compaction deletes. */
  ghost function Olds(name: seq<Entry> -> Bytes, s: State, order: seq<Bytes>): (r: set<Bytes>)
    requires OrderOf(order, s.pending + s.committed)
  {
    var all := s.pending + s.committed;
    if all == map[] then s.blockIDs else s.blockIDs - {name(Listed(all, order))}
  }

  /** `order` lists what a compaction writes and `olds` what it deletes. */
  ghost predicate CompactOrder(name: seq<Entry> -> Bytes, s: State, order: seq<Bytes>, olds: seq<Bytes>) {
    && OrderOf(order, s.pending + s.committed)
    && (forall b :: b in olds <==> b in Olds(name, s, order))
    && (forall i, j :: 0 <= i < j < |olds| ==> olds[i] != olds[j])
  }

  /** `compactLocked`: committed entries overwrite pending ones, everything is written as one
      block, and the other known blocks are deleted. */
  ghost function Compact(name: seq<Entry> -> Bytes, s: State, order: seq<Bytes>, writeOk: bool, how: Settling, olds: seq<Bytes>)
    : (r: (State, bool))
    requires CompactOrder(name, s, order, olds)
  {
    if |s.blockIDs| == 1 && s.pending == map[] then (s, true)
    else
      var all := s.pending + s.committed;
      var t := Flush(name, s.(pending := all), order, writeOk, how);
      if all != map[] && !writeOk then (t, false) else DeleteBlocks(t, olds)
  }

  /** The other blocks the manager knows are gone. */
  function DropOthers(s: State, keep: set<Bytes>): (r: State) {
    s.(blockIDs := s.blockIDs * keep, blocks := s.blocks - (s.blockIDs - keep))
  }

  const AUTO_COMPACTION_BLOCK_COUNT := 16

  /** What the outside decides during a reload: orders, whether the block store reports success,
      and how far its pending blocks get. */
  datatype ReloadChoice = ReloadChoice(
    order: seq<Bytes>, all: seq<Bytes>, olds: seq<Bytes>, writeOk: bool, how: Settling, flushed: Settling)

  /** `loadCommittedBlocksLocked`: loading is followed by a compaction if there are many blocks,
      with whatever is pending at that time, and the block store is then flushed. */
  ghost function Reload(name: seq<Entry> -> Bytes, s: State, ch: ReloadChoice): (r: State)
    requires ReloadOrder(name, s, ch)
  {
    var t := Load(s, ch.order);
    if |t.blockIDs| < AUTO_COMPACTION_BLOCK_COUNT then t
    else
      var (u, ok) := Compact(name, t, ch.all, ch.writeOk, ch.how, ch.olds);
      if ok then WithStore(u, Settle(StoreOf(u), ch.flushed)) else u
  }

  /** The orders list the blocks, and what a compaction would write and delete. */
  ghost predicate ReloadOrder(name: seq<Entry> -> Bytes, s: State, ch: ReloadChoice) {
    && (forall b :: b in ch.order <==> b in s.blocks)
    && (|Load(s, ch.order).blockIDs| >= AUTO_COMPACTION_BLOCK_COUNT ==>
          CompactOrder(name, Load(s, ch.order), ch.all, ch.olds))
  }

  /** Deleting an ID the manager does not know leaves nothing to be written; deleting any other hides
      it and nothing else, and is written by the next flush. */
  lemma DeleteIs(s: State, id: Bytes, now: int, other: Bytes)
    ensures Get(Delete(s, id, now), id) == None && (other != id ==> Get(Delete(s, id, now), other) == Get(s, other))
    ensures Delete(s, id, now).pending == s.pending <==>
      (id !in s.pending && id !in s.committed) || (id in s.pending && s.pending[id] == Entry(id, map[], now, true, []))
  {
    hide Live;
    var t := Delete(s, id, now);
    if t.pending == s.pending && id in t.pending {
      assert t.pending[id] == s.pending[id];
    }
    assert Live(Entry(id, map[], now, true, [])) == None by { NotLive(id, now); }
  }

  lemma NotLive(id: Bytes, now: int)
    ensures Live(Entry(id, map[], now, true, [])) == None
  {
  }

  /* ----- loading ----- */

  ghost predicate InBlocks(blocks: map<Bytes, seq<Entry>>, e: Entry) {
    exists b :: b in blocks && e in blocks[b]
  }

  lemma {:induction false} LoadedContents(blocks: map<Bytes, seq<Entry>>, order: seq<Bytes>, e: Entry)
    requires forall b :: b in order ==> b in blocks
    ensures e in Loaded(blocks, order) <==> exists b :: b in order && e in blocks[b]
  {
    if order != [] {
      var n := |order| - 1;
      LoadedContents(blocks, order[..n], e);
      assert order == order[..n] + [order[n]];
    }
  }

  /** Merging keeps, for every ID there is, an entry none of the others is newer than. */
  lemma {:induction false} MergeAllIsNewest(es: seq<Entry>)
    ensures forall e :: e in es ==> e.id in MergeAll(es) && e.modTime <= MergeAll(es)[e.id].modTime
    ensures forall id :: id in MergeAll(es) ==> MergeAll(es)[id] in es && MergeAll(es)[id].id == id
  {
    if es != [] {
      var n := |es| - 1;
      MergeAllIsNewest(es[..n]);
      assert es == es[..n] + [es[n]];
    }
  }

  /** Of several entries that are equally new, the first one loaded stays. */
  lemma {:induction false} FirstOfNewest(es: seq<Entry>, id: Bytes) returns (k: nat)
    requires id in MergeAll(es)
    ensures k < |es| && es[k] == MergeAll(es)[id] && forall j :: 0 <= j < k && es[j].id == id ==> es[j].modTime < es[k].modTime
    decreases |es|
  {
    var n := |es| - 1;
    var less := es[..n];
    MergeAllIsNewest(less);
    if es[n].id == id && (id !in MergeAll(less) || es[n].modTime > MergeAll(less)[id].modTime) {
      k := n;
      forall j | 0 <= j < n && es[j].id == id ensures es[j].modTime < es[n].modTime {
        assert less[j] in less;
      }
    } else {
      k := FirstOfNewest(less, id);
      assert forall j :: 0 <= j < n ==> less[j] == es[j];
    }
  }

  /* ----- invariant ----- */

  /** Entries of an ID with the same time are the same entry. */
  ghost predicate TiesAgree(blocks: map<Bytes, seq<Entry>>) {
    forall e, d :: InBlocks(blocks, e) && InBlocks(blocks, d) && e.id == d.id && e.modTime == d.modTime ==> e == d
  }

  /** No entry of this ID in any block is newer. */
  ghost predicate NewestInBlocks(blocks: map<Bytes, seq<Entry>>, e: Entry) {
    InBlocks(blocks, e) && forall d :: InBlocks(blocks, d) && d.id == e.id ==> d.modTime <= e.modTime
  }

  /** `e` does not matter beside `p`: it is older, the same, or both are tombstones. */
  predicate Shadowed(e: Entry, p: Entry) {
    e.modTime < p.modTime || e == p || (e.deleted && p.deleted && p.modTime < e.modTime)
  }

  ghost predicate Supersedes(blocks: map<Bytes, seq<Entry>>, p: Entry) {
    forall e :: InBlocks(blocks, e) && e.id == p.id ==> Shadowed(e, p)
  }

  ghost predicate PendingOk(s: State) {
    forall id :: id in s.pending ==> s.pending[id].id == id && Supersedes(s.blocks, s.pending[id])
  }

  /** The blocks the manager knows. Others hold entries whose write was reported as failed. */
  function Known(s: State): map<Bytes, seq<Entry>> {
    map b | b in s.blocks && b in s.blockIDs :: s.blocks[b]
  }

  /** A committed entry supersedes the known blocks, and if nothing is pending for its ID it is
      in a block and supersedes all of them. */
  ghost predicate CommittedOk(s: State) {
    forall id :: id in s.committed ==>
      && s.committed[id].id == id && Supersedes(Known(s), s.committed[id])
      && (id !in s.pending ==> Supersedes(s.blocks, s.committed[id]) && InBlocks(s.blocks, s.committed[id]))
  }

  /** IDs that are neither pending nor committed have a tombstone as their newest entry, if they
      have any, and no entry outside the known blocks. */
  ghost predicate OthersOk(s: State) {
    && (forall e :: NewestInBlocks(s.blocks, e) && e.id !in s.pending && e.id !in s.committed ==> e.deleted)
    && (forall b, e :: b in s.blocks && b !in s.blockIDs && e in s.blocks[b] ==> e.id in s.pending || e.id in s.committed)
  }

  ghost predicate Consistent(s: State) {
    CommittedOk(s) && PendingOk(s) && OthersOk(s) && TiesAgree(s.blocks) && s.blockIDs <= s.blocks.Keys
  }

  /** The manager is consistent with its blocks, and no block was re-created. */
  ghost predicate Inv(s: State) {
    Consistent(s) && Plain(StoreOf(s))
  }

  lemma EmptyInv()
    ensures Inv(EMPTY)
  {
  }

  /** Consistency is about the blocks that can be read. */
  lemma SameConsistent(s: State, t: State)
    requires Consistent(s) && t.pending == s.pending && t.committed == s.committed
    requires t.blockIDs == s.blockIDs && t.blocks == s.blocks
    ensures Consistent(t)
  {
    hide TiesAgree;
    hide Supersedes;
    hide NewestInBlocks;
    assert Known(t) == Known(s);
  }

  ghost predicate NewerThanBlocks(blocks: map<Bytes, seq<Entry>>, id: Bytes, now: int) {
    forall e :: InBlocks(blocks, e) && e.id == id ==> e.modTime < now
  }

  lemma PendingInv(s: State, e: Entry)
    requires Consistent(s) && NewerThanBlocks(s.blocks, e.id, e.modTime)
    ensures Consistent(s.(pending := s.pending[e.id := e]))
  {
    hide InBlocks;
    hide TiesAgree;
    var t := s.(pending := s.pending[e.id := e]);
    assert Known(t) == Known(s);
  }

  lemma KnownWithin(s: State, e: Entry)
    ensures InBlocks(Known(s), e) ==> InBlocks(s.blocks, e)
    ensures s.blockIDs == s.blocks.Keys ==> Known(s) == s.blocks
  {
    if InBlocks(Known(s), e) {
      var b :| b in Known(s) && e in Known(s)[b];
      assert b in s.blocks && e in s.blocks[b];
    }
  }

  /* ----- reloading ----- */

  lemma MergedIsNewest(s: State, order: seq<Bytes>)
    requires forall b :: b in order <==> b in s.blocks
    ensures var m := MergedBlocks(s.blocks, order);
      && (forall id :: id in m ==> m[id].id == id && NewestInBlocks(s.blocks, m[id]))
      && (forall e :: InBlocks(s.blocks, e) ==> e.id in m)
  {
    var es := Loaded(s.blocks, order);
    hide Loaded;
    hide MergeAll;
    MergeAllIsNewest(es);
    forall e ensures e in es <==> InBlocks(s.blocks, e) {
      LoadedContents(s.blocks, order, e);
    }
  }

  lemma NewestUnique(blocks: map<Bytes, seq<Entry>>, e: Entry, d: Entry)
    requires TiesAgree(blocks) && NewestInBlocks(blocks, e) && NewestInBlocks(blocks, d) && e.id == d.id
    ensures e == d
  {
    hide InBlocks;
  }

  lemma NewestIn(blocks: map<Bytes, seq<Entry>>, e: Entry)
    requires NewestInBlocks(blocks, e)
    ensures InBlocks(blocks, e)
  {
  }

  lemma NewestSupersedes(blocks: map<Bytes, seq<Entry>>, p: Entry)
    requires NewestInBlocks(blocks, p) && TiesAgree(blocks)
    ensures Supersedes(blocks, p)
  {
    hide InBlocks;
  }

  /** A live entry of a block that supersedes the blocks is the newest. */
  lemma SupersedingNewest(blocks: map<Bytes, seq<Entry>>, p: Entry)
    requires Supersedes(blocks, p) && InBlocks(blocks, p) && !p.deleted
    ensures NewestInBlocks(blocks, p)
  {
    hide InBlocks;
  }

  /** The newest entry beside a superseding tombstone is a tombstone. */
  lemma NewestDeleted(blocks: map<Bytes, seq<Entry>>, p: Entry, e: Entry)
    requires Supersedes(blocks, p) && InBlocks(blocks, p) && p.deleted && NewestInBlocks(blocks, e) && e.id == p.id
    ensures e.deleted
  {
    hide InBlocks;
  }

  /** What a load finds for an ID with nothing pending is what the manager held, if that is live. */
  lemma LoadedEntry(s: State, m: Entries, id: Bytes)
    requires CommittedOk(s) && OthersOk(s) && TiesAgree(s.blocks) && id !in s.pending
    requires forall i :: i in m ==> m[i].id == i && NewestInBlocks(s.blocks, m[i])
    requires forall e :: InBlocks(s.blocks, e) ==> e.id in m
    ensures id in DropDeleted(m) <==> id in s.committed && !s.committed[id].deleted
    ensures id in DropDeleted(m) ==> DropDeleted(m)[id] == s.committed[id]
  {
    hide InBlocks;
    hide TiesAgree;
    hide NewestInBlocks;
    hide Known;
    if id in s.committed {
      if s.committed[id].deleted {
        NewestDeleted(s.blocks, s.committed[id], m[id]);
      } else {
        SupersedingNewest(s.blocks, s.committed[id]);
        NewestUnique(s.blocks, m[id], s.committed[id]);
      }
    }
  }

  ghost predicate SameAnswers(s: State, t: State) {
    forall id :: Get(t, id) == Get(s, id)
  }

  /** Loading the blocks in any order changes no answer and keeps the manager consistent; it then
      knows all blocks. */
  lemma LoadKeeps(s: State, order: seq<Bytes>)
    requires Consistent(s) && forall b :: b in order <==> b in s.blocks
    ensures Consistent(Load(s, order)) && SameAnswers(s, Load(s, order)) && Load(s, order).blockIDs == s.blocks.Keys
  {
    hide TiesAgree;
    hide NewestInBlocks;
    hide DropDeleted;
    hide Supersedes;
    hide InBlocks;
    hide MergedBlocks;
    var m := MergedBlocks(s.blocks, order);
    var t := Load(s, order);
    MergedIsNewest(s, order);
    LoadedOk(s, order);
    forall id ensures Get(t, id) == Get(s, id) {
      if id !in s.pending {
        LoadedEntry(s, m, id);
      }
    }
  }

  lemma LoadedOk(s: State, order: seq<Bytes>)
    requires Consistent(s) && forall b :: b in order <==> b in s.blocks
    ensures Consistent(Load(s, order))
  {
    hide TiesAgree;
    hide NewestInBlocks;
    hide Supersedes;
    hide InBlocks;
    hide MergedBlocks;
    var m := MergedBlocks(s.blocks, order);
    var t := Load(s, order);
    MergedIsNewest(s, order);
    forall id | id in m ensures Supersedes(s.blocks, m[id]) && InBlocks(s.blocks, m[id]) {
      NewestSupersedes(s.blocks, m[id]);
      NewestIn(s.blocks, m[id]);
    }
    assert Known(t) == t.blocks;
    forall e | NewestInBlocks(s.blocks, e) && e.id !in t.pending && e.id !in t.committed ensures e.deleted {
      NewestIn(s.blocks, e);
      NewestUnique(s.blocks, e, m[e.id]);
    }
  }

  /* ----- flushing ----- */

  /** The name of a list already stored is only given to that list. */
  ghost predicate NoCollision(name: seq<Entry> -> Bytes, s: State, list: seq<Entry>) {
    name(list) in s.blocks ==> s.blocks[name(list)] == list
  }

  lemma ListedContents(m: Entries, order: seq<Bytes>, e: Entry)
    requires OrderOf(order, m) && forall id :: id in m ==> m[id].id == id
    ensures e in Listed(m, order) <==> e.id in m && m[e.id] == e
  {
    var l := Listed(m, order);
    if e.id in m && m[e.id] == e {
      assert e.id in order;
      var i :| 0 <= i < |order| && order[i] == e.id;
      assert l[i] == e;
    }
    if e in l {
      var i :| 0 <= i < |l| && l[i] == e;
      assert order[i] in order;
    }
  }

  /** The entries of `m` and nothing else were added to the blocks. */
  ghost predicate EntriesAdded(was: map<Bytes, seq<Entry>>, blocks: map<Bytes, seq<Entry>>, m: Entries) {
    forall e :: InBlocks(blocks, e) <==> InBlocks(was, e) || (e.id in m && m[e.id] == e)
  }

  lemma StoredAdds(blocks: map<Bytes, seq<Entry>>, b: Bytes, m: Entries, order: seq<Bytes>)
    requires OrderOf(order, m) && (forall id :: id in m ==> m[id].id == id)
    requires b in blocks ==> blocks[b] == Listed(m, order)
    ensures EntriesAdded(blocks, Stored(blocks, b, Listed(m, order)), m)
  {
    hide Listed;
    var list := Listed(m, order);
    var c := Stored(blocks, b, list);
    forall e ensures InBlocks(c, e) <==> InBlocks(blocks, e) || (e.id in m && m[e.id] == e) {
      ListedContents(m, order, e);
      if InBlocks(blocks, e) {
        var k :| k in blocks && e in blocks[k];
        assert k in c && e in c[k];
      }
      if e in list {
        assert b in c && e in c[b];
      }
    }
  }

  /** Entries that supersede the blocks can be added to them. */
  lemma AddedTies(was: map<Bytes, seq<Entry>>, blocks: map<Bytes, seq<Entry>>, m: Entries)
    requires TiesAgree(was) && EntriesAdded(was, blocks, m) && forall id :: id in m ==> m[id].id == id && Supersedes(was, m[id])
    ensures TiesAgree(blocks)
  {
    hide InBlocks;
  }

  lemma AddedSupersedes(was: map<Bytes, seq<Entry>>, blocks: map<Bytes, seq<Entry>>, m: Entries, p: Entry)
    requires EntriesAdded(was, blocks, m) && Supersedes(was, p) && (p.id in m ==> m[p.id] == p)
    ensures Supersedes(blocks, p)
  {
    hide InBlocks;
  }

  lemma AddedNewest(was: map<Bytes, seq<Entry>>, blocks: map<Bytes, seq<Entry>>, m: Entries, e: Entry)
    requires EntriesAdded(was, blocks, m) && NewestInBlocks(blocks, e) && e.id !in m
    ensures NewestInBlocks(was, e)
  {
    hide InBlocks;
  }

  /** The pending entries are also in a block the manager does not know. */
  lemma FailedFlushInv(s: State, b: Bytes, order: seq<Bytes>)
    requires Consistent(s) && OrderOf(order, s.pending) && (b in s.blocks ==> s.blocks[b] == Listed(s.pending, order))
    ensures Consistent(s.(blocks := Stored(s.blocks, b, Listed(s.pending, order))))
  {
    hide InBlocks;
    hide NewestInBlocks;
    hide Supersedes;
    hide TiesAgree;
    hide Listed;
    hide EntriesAdded;
    var list := Listed(s.pending, order);
    var t := s.(blocks := Stored(s.blocks, b, list));
    StoredAdds(s.blocks, b, s.pending, order);
    AddedTies(s.blocks, t.blocks, s.pending);
    assert Known(t) == Known(s);
    forall id | id in t.pending ensures Supersedes(t.blocks, t.pending[id]) {
      AddedSupersedes(s.blocks, t.blocks, s.pending, s.pending[id]);
    }
    forall id | id in t.committed && id !in t.pending
      ensures Supersedes(t.blocks, t.committed[id]) && InBlocks(t.blocks, t.committed[id])
    {
      AddedSupersedes(s.blocks, t.blocks, s.pending, s.committed[id]);
      AddedIn(s.blocks, t.blocks, s.pending, s.committed[id]);
    }
    forall e | NewestInBlocks(t.blocks, e) && e.id !in t.pending && e.id !in t.committed ensures e.deleted {
      AddedNewest(s.blocks, t.blocks, s.pending, e);
    }
    forall c, e | c in t.blocks && c !in t.blockIDs && e in t.blocks[c] ensures e.id in t.pending || e.id in t.committed {
      if c !in s.blocks {
        ListedContents(s.pending, order, e);
      }
    }
  }

  lemma AddedIn(was: map<Bytes, seq<Entry>>, blocks: map<Bytes, seq<Entry>>, m: Entries, e: Entry)
    requires EntriesAdded(was, blocks, m) && (InBlocks(was, e) || (e.id in m && m[e.id] == e))
    ensures InBlocks(blocks, e)
  {
    hide InBlocks;
  }

  function Flushed(s: State, b: Bytes, list: seq<Entry>): State {
    s.(pending := map[], committed := s.committed + s.pending, blockIDs := s.blockIDs + {b}, blocks := Stored(s.blocks, b, list))
  }

  lemma FlushedInv(s: State, b: Bytes, order: seq<Bytes>)
    requires Consistent(s) && OrderOf(order, s.pending) && (b in s.blocks ==> s.blocks[b] == Listed(s.pending, order))
    ensures Consistent(Flushed(s, b, Listed(s.pending, order)))
  {
    hide InBlocks;
    hide NewestInBlocks;
    hide Supersedes;
    hide TiesAgree;
    hide Listed;
    hide EntriesAdded;
    var t := Flushed(s, b, Listed(s.pending, order));
    StoredAdds(s.blocks, b, s.pending, order);
    AddedTies(s.blocks, t.blocks, s.pending);
    forall id | id in t.committed
      ensures t.committed[id].id == id && Supersedes(t.blocks, t.committed[id]) && Supersedes(Known(t), t.committed[id])
      ensures InBlocks(t.blocks, t.committed[id])
    {
      AddedSupersedes(s.blocks, t.blocks, s.pending, t.committed[id]);
      AddedIn(s.blocks, t.blocks, s.pending, t.committed[id]);
      KnownSupersedes(t, t.committed[id]);
    }
    forall e | NewestInBlocks(t.blocks, e) && e.id !in t.pending && e.id !in t.committed ensures e.deleted {
      AddedNewest(s.blocks, t.blocks, s.pending, e);
    }
  }

  lemma KnownSupersedes(s: State, p: Entry)
    requires Supersedes(s.blocks, p)
    ensures Supersedes(Known(s), p)
  {
    hide InBlocks;
    forall e | InBlocks(Known(s), e) && e.id == p.id ensures Shadowed(e, p) {
      KnownWithin(s, e);
    }
  }

  /** Flushing, whether the block store reports success or failure, changes no answer and keeps
      the manager consistent with the blocks. */
  lemma FlushKeeps(name: seq<Entry> -> Bytes, s: State, order: seq<Bytes>, writeOk: bool, how: Settling)
    requires Consistent(s) && OrderOf(order, s.pending) && NoCollision(name, s, Listed(s.pending, order))
    ensures Consistent(Flush(name, s, order, writeOk, how)) && SameAnswers(s, Flush(name, s, order, writeOk, how))
  {
    hide Consistent;
    hide Listed;
    if s.pending != map[] {
      var list := Listed(s.pending, order);
      var t := Flush(name, s, order, writeOk, how);
      if writeOk {
        FlushedInv(s, name(list), order);
        SameConsistent(Flushed(s, name(list), list), t);
      } else {
        FailedFlushInv(s, name(list), order);
        SameConsistent(s.(blocks := Stored(s.blocks, name(list), list)), t);
      }
    }
  }

  /** The block that a flush writes is re-created by it. */
  ghost predicate FlushRecreates(name: seq<Entry> -> Bytes, s: State, order: seq<Bytes>, how: Settling)
    requires OrderOf(order, s.pending)
  {
    s.pending != map[] && Recreates(StoreOf(s), name(Listed(s.pending, order)), how)
  }

  /** A flush leaves no block re-created exactly when it does not re-create the one it writes. */
  lemma FlushPlainIff(name: seq<Entry> -> Bytes, s: State, order: seq<Bytes>, writeOk: bool, how: Settling)
    requires Plain(StoreOf(s)) && OrderOf(order, s.pending)
    ensures Plain(StoreOf(Flush(name, s, order, writeOk, how))) <==> !FlushRecreates(name, s, order, how)
  {
    hide Listed;
    hide Plain;
    if s.pending != map[] {
      var list := Listed(s.pending, order);
      PlainSteps(StoreOf(s), name(list), list, how);
      assert StoreOf(Flush(name, s, order, writeOk, how)) == Write(StoreOf(s), name(list), list, how);
    }
  }

  /* ----- compaction ----- */

  /** No ID is both pending and committed with different answers. */
  ghost predicate Undisputed(s: State) {
    forall id :: id in s.pending && id in s.committed ==> Live(s.pending[id]) == Live(s.committed[id])
  }

  lemma {:induction false} DeletesKeepEntries(s: State, olds: seq<Bytes>)
    ensures var t := DeleteBlocks(s, olds).0; t.pending == s.pending && t.committed == s.committed
    decreases |olds|
  {
    if olds != [] && olds[0] in s.blocks {
      DeletesKeepEntries(Forget(s, olds[0]), olds[1..]);
    }
  }

  lemma CompactAnswers(name: seq<Entry> -> Bytes, s: State, order: seq<Bytes>, writeOk: bool, how: Settling,
                       olds: seq<Bytes>, id: Bytes)
    requires CompactOrder(name, s, order, olds)
    ensures Get(Compact(name, s, order, writeOk, how, olds).0, id) ==
      if |s.blockIDs| == 1 && s.pending == map[] then Get(s, id)
      else if id in s.committed then Live(s.committed[id])
      else if id in s.pending then Live(s.pending[id])
      else None
  {
    hide OrderOf;
    hide Listed;
    hide Live;
    hide DeleteBlocks;
    hide Olds;
    var all := s.pending + s.committed;
    assert id in all <==> id in s.pending || id in s.committed;
    DeletesKeepEntries(Flush(name, s.(pending := all), order, writeOk, how), olds);
  }

  /** Compaction, whether its write succeeds or fails, preserves every answer exactly when no
      ID is both pending and committed with different answers. */
  lemma CompactPreservesIff(name: seq<Entry> -> Bytes, s: State, order: seq<Bytes>, writeOk: bool, how: Settling,
                            olds: seq<Bytes>)
    requires CompactOrder(name, s, order, olds)
    ensures SameAnswers(s, Compact(name, s, order, writeOk, how, olds).0) <==> Undisputed(s)
  {
    hide CompactOrder;
    hide Compact;
    var t := Compact(name, s, order, writeOk, how, olds).0;
    forall id ensures Get(t, id) == Get(s, id) <==>
      (id in s.pending && id in s.committed ==> Live(s.pending[id]) == Live(s.committed[id]))
    {
      CompactAnswers(name, s, order, writeOk, how, olds, id);
    }
    if SameAnswers(s, t) {
      forall id | id in s.pending && id in s.committed ensures Live(s.pending[id]) == Live(s.committed[id]) {
        assert Get(t, id) == Get(s, id);
      }
    }
  }

  /** Deleting a committed manifest and compacting before the next flush brings it back. */
  lemma CompactionUndoesDelete(name: seq<Entry> -> Bytes, s: State, id: Bytes, now: int, order: seq<Bytes>, writeOk: bool,
                               how: Settling, olds: seq<Bytes>)
    requires id in s.committed && !s.committed[id].deleted
    requires CompactOrder(name, Delete(s, id, now), order, olds)
    ensures Get(Delete(s, id, now), id) == None
    ensures Get(Compact(name, Delete(s, id, now), order, writeOk, how, olds).0, id) == Some(s.committed[id])
  {
    hide CompactOrder;
    hide Compact;
    CompactAnswers(name, Delete(s, id, now), order, writeOk, how, olds, id);
  }

  /** Where a compaction leaves the manager consistent with the blocks: the answers agree, and if
      there are blocks the manager does not know, even the entries do. */
  ghost predicate Settled(s: State) {
    && Undisputed(s)
    && (s.blockIDs == s.blocks.Keys || forall id :: id in s.pending && id in s.committed ==> s.pending[id] == s.committed[id])
  }

  lemma AllPendingInv(s: State)
    requires Consistent(s) && Settled(s)
    ensures Consistent(s.(pending := s.pending + s.committed))
  {
    hide InBlocks;
    hide TiesAgree;
    hide NewestInBlocks;
    hide Supersedes;
    var t := s.(pending := s.pending + s.committed);
    assert Known(t) == Known(s);
    forall id | id in t.pending ensures t.pending[id].id == id && Supersedes(t.blocks, t.pending[id]) {
      if id in s.committed && id in s.pending && s.blockIDs == s.blocks.Keys {
        AllKnown(s);
      }
    }
  }

  lemma AllKnown(s: State)
    requires s.blockIDs == s.blocks.Keys
    ensures Known(s) == s.blocks
  {
  }

  /** Entries in blocks the manager does not know. */
  ghost predicate Orphan(s: State, e: Entry) {
    exists b :: b in s.blocks && b !in s.blockIDs && e in s.blocks[b]
  }

  lemma OrphansTracked(s: State, e: Entry)
    requires OthersOk(s) && Orphan(s, e)
    ensures e.id in s.pending || e.id in s.committed
  {
  }

  /** After the drop the entries are those of the kept block, and of the blocks not known. */
  lemma LeftAfterDrop(s: State, b: Bytes, list: seq<Entry>, e: Entry)
    requires b in s.blocks && s.blocks[b] == list
    ensures InBlocks(DropOthers(s, {b}).blocks, e) <==> e in list || Orphan(s, e)
    ensures InBlocks(DropOthers(s, {b}).blocks, e) ==> InBlocks(s.blocks, e)
    ensures Orphan(DropOthers(s, {b}), e) ==> Orphan(s, e)
  {
    var t := DropOthers(s, {b});
    if e in list {
      assert b in t.blocks && e in t.blocks[b];
    }
    if Orphan(s, e) {
      var c :| c in s.blocks && c !in s.blockIDs && e in s.blocks[c];
      assert c in t.blocks && e in t.blocks[c];
    }
    if InBlocks(t.blocks, e) {
      var c :| c in t.blocks && e in t.blocks[c];
      assert c in s.blocks && e in s.blocks[c];
    }
  }

  /** Once everything is committed and listed in one known block, the others can go. */
  lemma DroppedInv(s: State, b: Bytes, order: seq<Bytes>)
    requires Consistent(s) && s.pending == map[] && OrderOf(order, s.committed) && b in s.blocks && b in s.blockIDs
    requires s.blocks[b] == Listed(s.committed, order)
    ensures Consistent(DropOthers(s, {b})) && DropOthers(s, {b}).blockIDs == {b}
  {
    hide InBlocks;
    hide Listed;
    hide DropOthers;
    hide Orphan;
    hide Supersedes;
    hide Known;
    var list := Listed(s.committed, order);
    var t := DropOthers(s, {b});
    DropKeeps(s, b);
    forall e ensures (InBlocks(t.blocks, e) ==> InBlocks(s.blocks, e) && e.id in s.committed)
      && (e.id in s.committed && s.committed[e.id] == e ==> InBlocks(t.blocks, e))
      && (Orphan(t, e) ==> e.id in s.committed)
    {
      LeftAfterDrop(s, b, list, e);
      ListedContents(s.committed, order, e);
      if Orphan(s, e) {
        OrphansTracked(s, e);
      }
    }
    FewerTies(s.blocks, t.blocks);
    forall id | id in t.committed
      ensures Supersedes(t.blocks, t.committed[id]) && Supersedes(Known(t), t.committed[id]) && InBlocks(t.blocks, t.committed[id])
    {
      FewerSupersedes(s.blocks, t.blocks, s.committed[id]);
      KnownSupersedes(t, s.committed[id]);
    }
    OnlyTracked(t);
  }

  lemma DropKeeps(s: State, b: Bytes)
    requires b in s.blockIDs && b in s.blocks
    ensures var t := DropOthers(s, {b});
      t.pending == s.pending && t.committed == s.committed && t.blockIDs == {b} && b in t.blocks
  {
  }

  lemma FewerTies(more: map<Bytes, seq<Entry>>, blocks: map<Bytes, seq<Entry>>)
    requires TiesAgree(more) && forall e :: InBlocks(blocks, e) ==> InBlocks(more, e)
    ensures TiesAgree(blocks)
  {
    hide InBlocks;
  }

  lemma FewerSupersedes(more: map<Bytes, seq<Entry>>, blocks: map<Bytes, seq<Entry>>, p: Entry)
    requires Supersedes(more, p) && forall e :: InBlocks(blocks, e) ==> InBlocks(more, e)
    ensures Supersedes(blocks, p)
  {
    hide InBlocks;
  }

  lemma OnlyTracked(t: State)
    requires forall e :: InBlocks(t.blocks, e) ==> e.id in t.committed
    ensures OthersOk(t)
  {
    forall b, e | b in t.blocks && b !in t.blockIDs && e in t.blocks[b] ensures e.id in t.committed {
      assert InBlocks(t.blocks, e);
    }
  }

  lemma DroppedAllInv(s: State)
    requires Consistent(s) && s.pending == map[] && s.committed == map[]
    ensures Consistent(DropOthers(s, {}))
  {
    var t := DropOthers(s, {});
    forall e ensures !InBlocks(t.blocks, e) {
      LeftAfterDropAll(s, e);
      if Orphan(s, e) {
        OrphansTracked(s, e);
      }
    }
    NothingLeft(t);
  }

  lemma LeftAfterDropAll(s: State, e: Entry)
    ensures InBlocks(DropOthers(s, {}).blocks, e) ==> Orphan(s, e)
  {
    var t := DropOthers(s, {});
    if InBlocks(t.blocks, e) {
      var b :| b in t.blocks && e in t.blocks[b];
      assert b in s.blocks && b !in s.blockIDs && e in s.blocks[b];
    }
  }

  lemma NothingLeft(t: State)
    requires t.pending == map[] && t.committed == map[] && t.blockIDs == {}
    requires forall e :: !InBlocks(t.blocks, e)
    ensures Consistent(t)
  {
    OnlyTracked(t);
  }

  /* ----- deleting the old blocks ----- */

  predicate Distinct(olds: seq<Bytes>) {
    forall i, j :: 0 <= i < j < |olds| ==> olds[i] != olds[j]
  }

  lemma ForgetPlain(s: State, b: Bytes)
    requires Plain(StoreOf(s)) && b in s.blocks
    ensures Plain(StoreOf(Forget(s, b))) && Forget(s, b).blocks == s.blocks - {b} && Forget(s, b).blockIDs == s.blockIDs - {b}
    ensures Forget(s, b).pending == s.pending && Forget(s, b).committed == s.committed
  {
    hide Plain;
    PlainSteps(StoreOf(s), b, s.blocks[b], Kept);
    assert StoreOf(Forget(s, b)) == Remove(StoreOf(s), b);
  }

  /** Where nothing was re-created, the deletes succeed and remove exactly these blocks. */
  lemma {:induction false} DeletesAreDrops(s: State, olds: seq<Bytes>)
    requires Plain(StoreOf(s)) && Distinct(olds) && forall b :: b in olds ==> b in s.blocks
    ensures var (t, ok) := DeleteBlocks(s, olds);
      && ok && Plain(StoreOf(t)) && t.pending == s.pending && t.committed == s.committed
      && t.blocks == s.blocks - (set b | b in olds) && t.blockIDs == s.blockIDs - (set b | b in olds)
    decreases |olds|
  {
    hide Plain;
    if olds == [] {
      assert (set b | b in olds) == {};
    } else {
      assert olds == [olds[0]] + olds[1..];
      ForgetPlain(s, olds[0]);
      forall b | b in olds[1..] ensures b in s.blocks && b != olds[0] {}
      DeletesAreDrops(Forget(s, olds[0]), olds[1..]);
      assert (set b | b in olds) == {olds[0]} + (set b | b in olds[1..]);
    }
  }

  lemma RemoveOther<V>(s: Store<V>, b: Bytes, x: Bytes)
    requires x != b
    ensures Recreated(Remove(s, b), x) == Recreated(s, x)
    ensures x in Remove(s, b).readable <==> x in s.readable
  {
  }

  lemma {:induction false} DeletesKeepOthers(s: State, olds: seq<Bytes>, x: Bytes)
    requires x !in olds
    ensures x in DeleteBlocks(s, olds).0.blocks <==> x in s.blocks
    decreases |olds|
  {
    if olds != [] && olds[0] in s.blocks {
      RemoveOther(StoreOf(s), olds[0], x);
      DeletesKeepOthers(Forget(s, olds[0]), olds[1..], x);
    }
  }

  /** The deletes of a compaction remove all these blocks exactly when none was re-created. */
  lemma {:induction false} DeletesRemoveIff(s: State, olds: seq<Bytes>)
    requires Distinct(olds) && forall b :: b in olds ==> b in s.blocks
    ensures DeleteBlocks(s, olds).1
    ensures (forall b :: b in olds ==> b !in DeleteBlocks(s, olds).0.blocks) <==>
      forall b :: b in olds ==> !Recreated(StoreOf(s), b)
    decreases |olds|
  {
    if olds != [] {
      var b, rest := olds[0], olds[1..];
      var t := Forget(s, b);
      assert olds == [b] + rest;
      assert b !in rest;
      forall x | x in rest ensures x in t.blocks && (Recreated(StoreOf(t), x) <==> Recreated(StoreOf(s), x)) {
        assert x in olds;
        RemoveOther(StoreOf(s), b, x);
      }
      DeletesRemoveIff(t, rest);
      DeletesKeepOthers(t, rest, b);
      RemoveRemovesIff(StoreOf(s), b);
      OneOrRest(olds, s, DeleteBlocks(t, rest).0);
    }
  }

  lemma OneOrRest(olds: seq<Bytes>, s: State, t: State)
    requires olds != []
    ensures (forall b :: b in olds ==> b !in t.blocks) <==> olds[0] !in t.blocks && forall b :: b in olds[1..] ==> b !in t.blocks
    ensures (forall b :: b in olds ==> !Recreated(StoreOf(s), b)) <==>
      !Recreated(StoreOf(s), olds[0]) && forall b :: b in olds[1..] ==> !Recreated(StoreOf(s), b)
  {
    assert olds == [olds[0]] + olds[1..];
  }

  /** The block that a compaction writes is re-created by it. */
  ghost predicate CompactRecreates(name: seq<Entry> -> Bytes, s: State, order: seq<Bytes>, how: Settling)
    requires OrderOf(order, s.pending + s.committed)
  {
    FlushRecreates(name, s.(pending := s.pending + s.committed), order, how)
  }

  /** A settled compaction that re-creates no block keeps the manager consistent with the blocks,
      and fails only if its write does; if it succeeds, one block at most is left of those the
      manager knew. */
  lemma CompactInv(name: seq<Entry> -> Bytes, s: State, order: seq<Bytes>, writeOk: bool, how: Settling, olds: seq<Bytes>)
    requires Inv(s) && Settled(s) && CompactOrder(name, s, order, olds) && !CompactRecreates(name, s, order, how)
    requires NoCollision(name, s, Listed(s.pending + s.committed, order))
    ensures var (t, ok) := Compact(name, s, order, writeOk, how, olds);
      Inv(t) && (!ok ==> !writeOk) && (writeOk ==> |t.blockIDs| <= 1)
  {
    hide Consistent;
    hide Plain;
    hide Settled;
    hide Listed;
    hide DropOthers;
    hide DeleteBlocks;
    hide FlushRecreates;
    var all := s.pending + s.committed;
    if !(|s.blockIDs| == 1 && s.pending == map[]) {
      var s1 := s.(pending := all);
      AllPendingInv(s);
      assert StoreOf(s1) == StoreOf(s);
      FlushKeeps(name, s1, order, writeOk, how);
      FlushPlainIff(name, s1, order, writeOk, how);
      var t := Flush(name, s1, order, writeOk, how);
      if all == map[] {
        NoPending(s);
        DropStep(t, olds, {});
        DroppedAllInv(t);
        NoneKept(t);
      } else if writeOk {
        EverythingCommitted(name, s, order, how);
        var b := name(Listed(all, order));
        DropStep(t, olds, {b});
        DroppedInv(t, b, order);
      }
    }
  }

  lemma DropStep(t: State, olds: seq<Bytes>, keep: set<Bytes>)
    requires Consistent(t) && Plain(StoreOf(t)) && Distinct(olds) && forall b :: b in olds <==> b in t.blockIDs - keep
    ensures var (u, ok) := DeleteBlocks(t, olds);
      && ok && Plain(StoreOf(u)) && u.blockIDs == DropOthers(t, keep).blockIDs
      && (Consistent(DropOthers(t, keep)) ==> Consistent(u))
  {
    hide Plain;
    hide CommittedOk;
    hide OthersOk;
    hide PendingOk;
    hide TiesAgree;
    DeletesAreDrops(t, olds);
    assert (set b | b in olds) == t.blockIDs - keep;
    var u, d := DeleteBlocks(t, olds).0, DropOthers(t, keep);
    assert u.blockIDs == d.blockIDs && u.blocks == d.blocks;
    if Consistent(d) {
      SameConsistent(d, u);
    }
  }

  lemma NoneKept(s: State)
    ensures DropOthers(s, {}).blockIDs == {}
  {
  }

  lemma NoPending(s: State)
    requires s.pending + s.committed == map[]
    ensures s.pending == map[] && s.committed == map[]
  {
    forall id ensures id !in s.pending && id !in s.committed {
      assert id !in s.pending + s.committed;
    }
  }

  lemma EverythingCommitted(name: seq<Entry> -> Bytes, s: State, order: seq<Bytes>, how: Settling)
    requires OrderOf(order, s.pending + s.committed) && s.pending + s.committed != map[]
    requires NoCollision(name, s, Listed(s.pending + s.committed, order))
    ensures var all := s.pending + s.committed;
      var t := Flush(name, s.(pending := all), order, true, how);
      var b := name(Listed(all, order));
      && t.pending == map[] && t.committed == all && b in t.blocks && t.blocks[b] == Listed(all, order)
      && t.blockIDs == s.blockIDs + {b}
  {
    hide Listed;
    var all := s.pending + s.committed;
    assert s.committed + all == all;
  }

  /* ----- reloading with compaction ----- */

  /** A reload preserves every answer exactly when there are too few blocks for the automatic
      compaction, or nothing pending disagrees with what was loaded. */
  lemma ReloadPreservesIff(name: seq<Entry> -> Bytes, s: State, ch: ReloadChoice)
    requires Consistent(s) && ReloadOrder(name, s, ch)
    ensures SameAnswers(s, Reload(name, s, ch)) <==>
      |s.blocks| < AUTO_COMPACTION_BLOCK_COUNT || Undisputed(Load(s, ch.order))
  {
    hide Consistent;
    hide Load;
    hide Compact;
    hide CompactOrder;
    hide Undisputed;
    hide SameAnswers;
    var t := Load(s, ch.order);
    LoadKeeps(s, ch.order);
    assert |s.blocks| == |s.blocks.Keys|;
    if |t.blockIDs| >= AUTO_COMPACTION_BLOCK_COUNT {
      var u := Compact(name, t, ch.all, ch.writeOk, ch.how, ch.olds).0;
      CompactPreservesIff(name, t, ch.all, ch.writeOk, ch.how, ch.olds);
      AnswersCompose(s, t, u);
      SettledAnswers(u, ch.flushed);
      SameEntries(s, u, WithStore(u, Settle(StoreOf(u), ch.flushed)));
    }
  }

  /** An automatic compaction that succeeds, followed by a flush of the block store that does, leaves
      every block in an index file, so that none is hidden. */
  lemma ReloadIndexes(name: seq<Entry> -> Bytes, s: State, ch: ReloadChoice, b: Bytes)
    requires ReloadOrder(name, s, ch) && |s.blocks| >= AUTO_COMPACTION_BLOCK_COUNT && ch.flushed.Flushed?
    requires Compact(name, Load(s, ch.order), ch.all, ch.writeOk, ch.how, ch.olds).1
    ensures var t := Reload(name, s, ch); t.indexed == t.blocks && t.inline == {} && !Hidden(StoreOf(t), b)
  {
    hide Compact;
    hide MergedBlocks;
    hide DropDeleted;
    hide CompactOrder;
    assert |Load(s, ch.order).blockIDs| == |s.blocks.Keys| == |s.blocks|;
  }

  lemma SettledAnswers(u: State, how: Settling)
    ensures var v := WithStore(u, Settle(StoreOf(u), how)); v.pending == u.pending && v.committed == u.committed
  {
  }

  lemma SameEntries(s: State, u: State, v: State)
    requires u.pending == v.pending && u.committed == v.committed
    ensures SameAnswers(s, u) <==> SameAnswers(s, v)
  {
    forall id ensures Get(u, id) == Get(v, id) {}
    if SameAnswers(s, u) {
      forall id ensures Get(v, id) == Get(s, id) {
        assert Get(u, id) == Get(s, id);
      }
    }
    if SameAnswers(s, v) {
      forall id ensures Get(u, id) == Get(s, id) {
        assert Get(v, id) == Get(s, id);
      }
    }
  }

  lemma AnswersCompose(s: State, t: State, u: State)
    ensures SameAnswers(s, t) ==> (SameAnswers(s, u) <==> SameAnswers(t, u))
  {
    hide Get;
    if SameAnswers(s, t) && SameAnswers(s, u) {
      forall id ensures Get(u, id) == Get(t, id) {
        assert Get(u, id) == Get(s, id) && Get(t, id) == Get(s, id);
      }
    }
    if SameAnswers(s, t) && SameAnswers(t, u) {
      forall id ensures Get(u, id) == Get(s, id) {
        assert Get(u, id) == Get(t, id) && Get(t, id) == Get(s, id);
      }
    }
  }

  /** With 16 or more blocks, a delete that is followed by a refresh before the next flush is
      undone: the committed manifest is back. */
  lemma RefreshUndoesDelete(name: seq<Entry> -> Bytes, s: State, id: Bytes, now: int, ch: ReloadChoice)
    requires Consistent(s) && |s.blocks| >= AUTO_COMPACTION_BLOCK_COUNT && NewerThanBlocks(s.blocks, id, now)
    requires id !in s.pending && id in s.committed && !s.committed[id].deleted
    requires ReloadOrder(name, Delete(s, id, now), ch)
    ensures Get(Delete(s, id, now), id) == None
    ensures Get(Reload(name, Delete(s, id, now), ch), id) == Some(s.committed[id])
  {
    hide Consistent;
    hide Compact;
    hide CompactOrder;
    hide MergedBlocks;
    hide DropDeleted;
    var t := Delete(s, id, now);
    var u := Load(t, ch.order);
    assert |t.blocks| == |t.blocks.Keys|;
    LoadKeeps(s, ch.order);
    assert u.committed == Load(s, ch.order).committed;
    assert Get(Load(s, ch.order), id) == Get(s, id);
    CompactAnswers(name, u, ch.all, ch.writeOk, ch.how, ch.olds, id);
    SettledAnswers(Compact(name, u, ch.all, ch.writeOk, ch.how, ch.olds).0, ch.flushed);
  }
}
