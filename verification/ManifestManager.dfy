/** The manifest manager object (manifest_manager.go). Each method is proved to make exactly the
    step of `Manifests` that it stands for. */
module ManifestManager {
  import opened ByteStrings
  import opened ContentId
  import opened BlockStores
  import M = Manifests

  /** The letters of "type". */
  const TYPE_LABEL: Bytes := [116, 121, 112, 101]

  type Entry = M.Entry

  class Manager {
    const name: seq<Entry> -> Bytes
    var pending: M.Entries
    var committed: M.Entries
    var blockIDs: set<Bytes>
    var store: Store<seq<Entry>>
    var disableCount: int

    ghost function Abs(): M.State
      reads this
    {
      M.State(pending, committed, blockIDs, store.readable, store.inline, store.indexed)
    }

    constructor (name: seq<Entry> -> Bytes)
      ensures this.name == name && Abs() == M.EMPTY && disableCount == 0
    {
      this.name := name;
      pending, committed, blockIDs, store, disableCount := map[], map[], {}, Store(map[], {}, map[]), 0;
    }

    /** Stores a manifest under a new random ID. A type label is required. */
    method Put(labels: map<Bytes, Bytes>, content: Bytes, random: Bytes, now: int) returns (r: Result<Bytes>)
      modifies this`pending
      ensures var e := M.Entry(HexEncode(random), labels, now, false, content);
        if TYPE_LABEL in labels && labels[TYPE_LABEL] != [] then r == Ok(e.id) && Abs() == M.Put(old(Abs()), e)
        else r == Err(MissingType) && Abs() == old(Abs())
    {
      if TYPE_LABEL !in labels || labels[TYPE_LABEL] == [] {
        return Err(MissingType);
      }
      var e := M.Entry(HexEncode(random), labels, now, false, content);
      pending := pending[e.id := e];
      r := Ok(e.id);
    }

    method Delete(id: Bytes, now: int)
      modifies this`pending
      ensures Abs() == M.Delete(old(Abs()), id, now)
    {
      if id !in pending && id !in committed {
        return;
      }
      pending := pending[id := M.Entry(id, map[], now, true, [])];
    }

    method GetRaw(id: Bytes) returns (r: Result<Bytes>)
      ensures r == match M.Get(Abs(), id) case None => Err(NotFound) case Some(e) => Ok(e.content)
    {
      if id in pending {
        r := if pending[id].deleted then Err(NotFound) else Ok(pending[id].content);
      } else if id in committed {
        r := if committed[id].deleted then Err(NotFound) else Ok(committed[id].content);
      } else {
        r := Err(NotFound);
      }
    }

    /** Writes all pending entries as one block and makes them committed. While index flushes are
        disabled the write does not get as far as an index. */
    method FlushPendingEntries(order: seq<Bytes>, writeOk: bool, how: Settling) returns (r: Result<Option<Bytes>>)
      requires M.OrderOf(order, pending) && (disableCount > 0 ==> !how.Flushed?)
      requires forall k :: k in pending ==> pending[k].id == k
      modifies this`pending, this`committed, this`blockIDs, this`store
      ensures Abs() == M.Flush(name, old(Abs()), order, writeOk, how)
      ensures r == if old(pending) == map[] then Ok(None)
                   else if !writeOk then Err(StorageFailure)
                   else Ok(Some(name(M.Listed(old(pending), order))))
    {
      if pending == map[] {
        return Ok(None);
      }
      var list := ListPending(order);
      var block := name(list);
      store := Write(store, block, list, how);
      if !writeOk {
        return Err(StorageFailure);
      }
      CommitPending();
      blockIDs := blockIDs + {block};
      r := Ok(Some(block));
    }

    method ListPending(order: seq<Bytes>) returns (list: seq<Entry>)
      requires M.OrderOf(order, pending)
      ensures list == M.Listed(pending, order)
    {
      list := [];
      for i := 0 to |order|
        invariant |list| == i && forall j :: 0 <= j < i ==> list[j] == pending[order[j]]
      {
        assert order[i] in order;
        list := list + [pending[order[i]]];
      }
    }

    method CommitPending()
      requires forall k :: k in pending ==> pending[k].id == k
      modifies this`pending, this`committed
      ensures pending == map[] && committed == old(committed) + old(pending)
    {
      while pending != map[]
        invariant pending.Keys <= old(pending).Keys
        invariant forall k :: k in pending ==> pending[k] == old(pending)[k]
        invariant committed == old(committed) + (old(pending) - pending.Keys)
        decreases pending.Keys
      {
        var k :| k in pending;
        committed := committed[pending[k].id := pending[k]];
        pending := pending - {k};
      }
    }

    /** The committed entries are those of this list merged. */
    ghost predicate Merged(es: seq<Entry>)
      reads this`committed
    {
      committed == M.MergeAll(es)
    }

    method MergeEntry(e: Entry, ghost es: seq<Entry>)
      requires Merged(es)
      modifies this`committed
      ensures Merged(es + [e])
    {
      assert (es + [e])[..|es|] == es;
      if e.id !in committed || e.modTime > committed[e.id].modTime {
        committed := committed[e.id := e];
      }
    }

    method MergeManifest(man: seq<Entry>, ghost es: seq<Entry>)
      requires Merged(es)
      modifies this`committed
      ensures Merged(es + man)
    {
      hide Merged;
      assert es + man[..0] == es;
      for k := 0 to |man|
        invariant Merged(es + man[..k])
      {
        MergeEntry(man[k], es + man[..k]);
        assert es + man[..k + 1] == es + man[..k] + [man[k]];
      }
      assert man[..|man|] == man;
    }

    /** Reloads all blocks, which arrive in any order, forgets the tombstones, and compacts if
        there are many blocks. */
    method LoadCommittedBlocks(ch: M.ReloadChoice)
      requires M.ReloadOrder(name, Abs(), ch) && !ch.how.Flushed?
      requires forall k :: k in pending ==> pending[k].id == k
      modifies this
      ensures Abs() == M.Reload(name, old(Abs()), ch) && disableCount == old(disableCount)
    {
      hide M.Compact;
      hide M.CompactOrder;
      hide M.MergedBlocks;
      Load(ch.order);
      LoadedIds(ch.order);
      MaybeCompact(ch);
    }

    method Load(order: seq<Bytes>)
      requires forall b :: b in order <==> b in store.readable
      modifies this`committed, this`blockIDs
      ensures Abs() == M.Load(old(Abs()), order)
    {
      hide M.MergedBlocks;
      committed := map[];
      blockIDs := store.readable.Keys;
      LoadManifestBlocks(order);
      committed := map id | id in committed && !committed[id].deleted :: committed[id];
    }

    lemma LoadedIds(order: seq<Bytes>)
      requires (forall b :: b in order ==> b in store.readable) && committed == M.DropDeleted(M.MergedBlocks(store.readable, order))
      ensures forall k :: k in committed ==> committed[k].id == k
    {
      M.MergeAllIsNewest(M.Loaded(store.readable, order));
    }

    /** Compacts if there are many blocks, and then flushes the block store, which gets as far as
        `ch.flushed` says. */
    method MaybeCompact(ch: M.ReloadChoice)
      requires !ch.how.Flushed?
      requires |blockIDs| >= M.AUTO_COMPACTION_BLOCK_COUNT ==> M.CompactOrder(name, Abs(), ch.all, ch.olds)
      requires forall k :: k in pending ==> pending[k].id == k
      requires forall k :: k in committed ==> committed[k].id == k
      modifies this
      ensures disableCount == old(disableCount)
      ensures |old(blockIDs)| < M.AUTO_COMPACTION_BLOCK_COUNT ==> Abs() == old(Abs())
      ensures |old(blockIDs)| >= M.AUTO_COMPACTION_BLOCK_COUNT ==>
        var (t, ok) := M.Compact(name, old(Abs()), ch.all, ch.writeOk, ch.how, ch.olds);
        Abs() == if ok then M.WithStore(t, Settle(M.StoreOf(t), ch.flushed)) else t
    {
      hide M.Compact;
      hide M.CompactOrder;
      if |blockIDs| < M.AUTO_COMPACTION_BLOCK_COUNT {
        return;
      }
      var ok := Compact(ch.all, ch.writeOk, ch.how, ch.olds);
      if ok {
        store := Settle(store, ch.flushed);
      }
    }

    method LoadManifestBlocks(order: seq<Bytes>)
      requires committed == map[] && forall b :: b in order ==> b in store.readable
      modifies this`committed
      ensures committed == M.MergedBlocks(store.readable, order)
    {
      assert Merged([]);
      MergeBlocks(order);
    }

    method MergeBlocks(order: seq<Bytes>)
      requires Merged([]) && forall b :: b in order ==> b in store.readable
      modifies this`committed
      ensures Merged(M.Loaded(store.readable, order))
    {
      hide Merged;
      assert order[..0] == [];
      for i := 0 to |order|
        invariant Merged(M.Loaded(store.readable, order[..i]))
      {
        assert order[i] in order;
        MergeManifest(store.readable[order[i]], M.Loaded(store.readable, order[..i]));
        assert order[..i + 1][..i] == order[..i];
      }
      assert order[..|order|] == order;
    }

    /** Rewrites everything as one block and deletes the others, in the order `olds`; one that
        cannot be read is an error. Index flushes are disabled meanwhile. */
    method Compact(order: seq<Bytes>, writeOk: bool, how: Settling, olds: seq<Bytes>) returns (ok: bool)
      requires M.CompactOrder(name, Abs(), order, olds) && !how.Flushed?
      requires forall k :: k in pending ==> pending[k].id == k
      requires forall k :: k in committed ==> committed[k].id == k
      modifies this
      ensures (Abs(), ok) == M.Compact(name, old(Abs()), order, writeOk, how, olds) && disableCount == old(disableCount)
    {
      hide M.Listed;
      hide M.DeleteBlocks;
      hide M.Flush;
      hide M.Olds;
      if |blockIDs| == 1 && pending == map[] {
        return true;
      }
      disableCount := disableCount + 1;
      CommittedToPending();
      var flushed := FlushPendingEntries(order, writeOk, how);
      if flushed.Err? {
        ok := false;
      } else {
        ok := DeleteOtherBlocks(olds);
      }
      disableCount := disableCount - 1;
    }

    method CommittedToPending()
      requires forall k :: k in committed ==> committed[k].id == k
      modifies this`pending
      ensures pending == old(pending) + committed
    {
      var todo := committed.Keys;
      while todo != {}
        invariant todo <= committed.Keys
        invariant pending == old(pending) + (committed - todo)
        decreases todo
      {
        var k :| k in todo;
        pending := pending[committed[k].id := committed[k]];
        todo := todo - {k};
      }
      assert committed - {} == committed;
    }

    /** Deletes the blocks in turn, until one cannot be read. */
    method DeleteOtherBlocks(olds: seq<Bytes>) returns (ok: bool)
      modifies this`store, this`blockIDs
      ensures (Abs(), ok) == M.DeleteBlocks(old(Abs()), olds)
    {
      for i := 0 to |olds|
        invariant pending == old(pending) && committed == old(committed)
        invariant M.DeleteBlocks(Abs(), olds[i..]) == M.DeleteBlocks(old(Abs()), olds)
      {
        assert olds[i..][1..] == olds[i + 1..];
        if olds[i] !in store.readable {
          return false;
        }
        store := Remove(store, olds[i]);
        blockIDs := blockIDs - {olds[i]};
      }
      return true;
    }
  }
}
