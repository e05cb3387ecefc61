/** The block manager seen as a block store: which blocks can be read, which of them are held
    inline, and which the index files have as live. Every call on the manager is exactly a step
    of that store (block_manager.go). */
module StoreOfBlocks {
  import opened ByteStrings
  import opened Crypto
  import opened MergedIndex
  import opened BlockState
  import opened BlockPacking
  import opened BlockWrites
  import opened BlockRuns
  import opened AtomicFlush
  import opened BlockStores

  predicate Inline(s: State, b: Bytes) {
    b in s.current && !s.current[b].deleted
  }

  /** `m` has exactly the successful answers. */
  ghost predicate Answers(m: map<Bytes, Bytes>, b: Bytes, r: Result<Bytes>) {
    if r.Ok? then b in m && m[b] == r.value else b !in m
  }

  /** What the store says of one block. */
  ghost predicate Seen(c: Suite, s: State, v: Store<Bytes>, b: Bytes) {
    && Answers(v.readable, b, GetBlock(c, s, b)) && Answers(v.indexed, b, StorageAnswer(c, s, b))
    && (b in v.inline <==> Inline(s, b))
  }

  ghost predicate View(c: Suite, s: State, v: Store<Bytes>) {
    forall b :: KeyOk(b) ==> Seen(c, s, v, b)
  }

  /* ----- settling ----- */

  /** How far a successful or failed attempt to finish the pack and write the index gets. */
  ghost function HowFar(cfg: Config, s: State, ch: PackChoice, write: bool, now: int, indexOk: bool): (r: Settling)
    requires OrderOf(ch.order, s.current)
  {
    var (t, ok) := FinishPack(cfg, s, ch);
    if !ok then Kept
    else if write && t.disabled <= 0 && FlushIndexes(t, now, indexOk).1 then Flushed
    else Packed
  }

  lemma PackedSeen(c: Suite, s: State, t: State, v: Store<Bytes>, b: Bytes)
    requires Seen(c, s, v, b) && GetBlock(c, t, b) == GetBlock(c, s, b) && t.current == map[]
    requires StorageAnswer(c, t, b) == StorageAnswer(c, s, b)
    ensures Seen(c, t, Settle(v, Packed), b)
  {
    hide GetBlock;
    hide StorageAnswer;
  }

  lemma FlushedSeen(c: Suite, s: State, t: State, v: Store<Bytes>, b: Bytes)
    requires Seen(c, s, v, b) && GetBlock(c, t, b) == GetBlock(c, s, b) && t.current == map[]
    requires StorageAnswer(c, t, b) == GetBlock(c, t, b)
    ensures Seen(c, t, Settle(v, Flushed), b)
  {
    hide GetBlock;
    hide StorageAnswer;
  }

  /** What the index files say does not depend on new packs. */
  lemma StoredSame(cfg: Config, s: State, ch: PackChoice, b: Bytes)
    requires cfg.suite.Lawful() && Inv(cfg.suite, s) && LegalPack(cfg, s, ch)
    ensures OrderOf(ch.order, s.current)
    ensures StorageAnswer(cfg.suite, FinishPack(cfg, s, ch).0, b) == StorageAnswer(cfg.suite, s, b)
  {
    hide Suite.Lawful;
    hide Inv;
    hide FinishPack;
    hide MergedFind;
    hide Contents;
    LegalOrder(cfg, s, ch);
    FinishPackKeeps(cfg, s, ch);
    var t := FinishPack(cfg, s, ch).0;
    if MergedFind(s.committed, b).Some? && !MergedFind(s.committed, b).value.deleted {
      GrownReads(cfg.suite, s, t, b);
    }
  }

  lemma GrownReads(c: Suite, s: State, t: State, b: Bytes)
    requires Inv(c, s) && PacksGrow(s, t) && MergedFind(s.committed, b).Some? && !MergedFind(s.committed, b).value.deleted
    ensures Contents(c, t.packs, MergedFind(s.committed, b).value) == Contents(c, s.packs, MergedFind(s.committed, b).value)
  {
    hide MergedFind;
    hide KeyOk;
    MergedFindIsNewest(s.committed, b);
    var e := MergedFind(s.committed, b).value;
    var k :| 0 <= k < |s.committed| && b in s.committed[k] && s.committed[k][b] == e;
    assert IndexOk(c, s.packs, s.committed[k]);
    assert PackedOk(c, s.packs, e);
  }

  /** With nothing pending and nothing unwritten the index files say it all. */
  lemma AllIndexed(c: Suite, t: State, b: Bytes)
    requires t.current == map[] && t.builder == map[]
    ensures StorageAnswer(c, t, b) == GetBlock(c, t, b)
  {
    hide MergedFind;
    hide Contents;
  }

  /** Finishing the pack and perhaps writing the index settles the pending blocks. */
  lemma SettleViews(cfg: Config, s: State, v: Store<Bytes>, ch: PackChoice, write: bool, now: int, indexOk: bool)
    requires cfg.suite.Lawful() && Inv(cfg.suite, s) && LegalPack(cfg, s, ch) && View(cfg.suite, s, v)
    ensures OrderOf(ch.order, s.current)
    ensures var (t, ok) := FinishPack(cfg, s, ch);
      var u := if ok && write then FlushIndexes(t, now, indexOk).0 else t;
      View(cfg.suite, u, Settle(v, HowFar(cfg, s, ch, write, now, indexOk)))
  {
    hide Suite.Lawful;
    hide Inv;
    hide FinishPack;
    hide FlushIndexes;
    hide LegalPack;
    hide Seen;
    hide Settle;
    hide KeyOk;
    hide GetBlock;
    hide StorageAnswer;
    var c := cfg.suite;
    LegalOrder(cfg, s, ch);
    FinishPackKeeps(cfg, s, ch);
    var (t, ok) := FinishPack(cfg, s, ch);
    if ok {
      FlushIndexesKeeps(c, t, now, indexOk);
    }
    var u := if ok && write then FlushIndexes(t, now, indexOk).0 else t;
    var how := HowFar(cfg, s, ch, write, now, indexOk);
    forall b | KeyOk(b) ensures Seen(c, u, Settle(v, how), b) {
      if !ok {
        SettleKept(v);
      } else {
        StoredSame(cfg, s, ch, b);
        assert GetBlock(c, t, b) == GetBlock(c, s, b);
        if how == Flushed {
          assert GetBlock(c, u, b) == GetBlock(c, t, b);
          AllIndexed(c, u, b);
          FlushedSeen(c, s, u, v, b);
        } else {
          PackedSeen(c, s, t, v, b);
        }
      }
    }
  }

  lemma SettleKept(v: Store<Bytes>)
    ensures Settle(v, Kept) == v
  {
  }

  /* ----- the calls ----- */

  /** A new block is readable and held inline. */
  lemma AddedView(c: Suite, s: State, v: Store<Bytes>, prefix: Bytes, data: Bytes, now: int64)
    requires c.Lawful() && Inv(c, s) && ValidPrefix(prefix) && View(c, s, v)
    requires !Tracked(s, c.BlockId(prefix, data)) && NotBefore(s, c.BlockId(prefix, data), now)
    ensures var id := c.BlockId(prefix, data);
      id !in v.readable && Inv(c, Added(s, id, data, now)) && View(c, Added(s, id, data, now), Write(v, id, data, Kept))
  {
    hide Suite.Lawful;
    hide Inv;
    hide ValidPrefix;
    hide NotBefore;
    hide KeyOk;
    hide GetBlock;
    hide StorageAnswer;
    hide Added;
    hide Tracked;
    hide Suite.BlockId;
    var id := c.BlockId(prefix, data);
    WrittenKeyOk(c, prefix, data);
    TrackedReads(c, s, id);
    AddedKeeps(c, s, prefix, data, now);
    var t := Added(s, id, data, now);
    forall b | KeyOk(b) ensures Seen(c, t, Write(v, id, data, Kept), b) {
      assert Seen(c, s, v, b);
      AddedParts(c, s, id, data, now, b);
    }
  }

  lemma AddedParts(c: Suite, s: State, id: Bytes, data: Bytes, now: int64, b: Bytes)
    ensures var t := Added(s, id, data, now);
      StorageAnswer(c, t, b) == StorageAnswer(c, s, b) && (Inline(t, b) <==> b == id || Inline(s, b))
  {
    hide MergedFind;
    hide Contents;
  }

  ghost function HowWritten(cfg: Config, s: State, data: Bytes, prefix: Bytes, now: int64, ch: PackChoice, later: int, indexOk: bool)
    : (r: Settling)
    requires PackOrder(cfg, s, data, prefix, now, ch)
  {
    if !FillsPack(cfg, s, data, prefix, now) then Kept
    else
      var t := Added(s, cfg.suite.BlockId(prefix, data), data, now);
      HowFar(cfg, t, ch, later > FinishPack(cfg, t, ch).0.flushAfter, later, indexOk)
  }

  /** `WriteBlock` writes to the store. */
  lemma WriteViews(cfg: Config, s: State, v: Store<Bytes>, data: Bytes, prefix: Bytes, now: int64, ch: PackChoice, later: int,
                   indexOk: bool)
    requires cfg.suite.Lawful() && Inv(cfg.suite, s) && ValidPrefix(prefix) && View(cfg.suite, s, v)
    requires LegalWrite(cfg, s, data, prefix, now, ch) && PackOrder(cfg, s, data, prefix, now, ch)
    ensures View(cfg.suite, WriteBlock(cfg, s, data, prefix, now, ch, later, indexOk).0,
                 Write(v, cfg.suite.BlockId(prefix, data), data, HowWritten(cfg, s, data, prefix, now, ch, later, indexOk)))
  {
    hide Suite.Lawful;
    hide Inv;
    hide Tracked;
    hide ValidPrefix;
    hide NotBefore;
    hide LegalPack;
    hide FinishPack;
    hide FlushIndexes;
    hide Added;
    hide Suite.BlockId;
    hide View;
    hide HowFar;
    hide Settle;
    var c := cfg.suite;
    var id := c.BlockId(prefix, data);
    if Tracked(s, id) {
      TrackedReadable(c, s, v, prefix, data);
    } else {
      var t := Added(s, id, data, now);
      AddedView(c, s, v, prefix, data, now);
      var w := v.(readable := v.readable[id := data], inline := v.inline + {id});
      SettleKept(w);
      if t.currentLength >= cfg.maxPackSize {
        SettleViews(cfg, t, w, ch, later > FinishPack(cfg, t, ch).0.flushAfter, later, indexOk);
      }
    }
  }

  lemma TrackedReadable(c: Suite, s: State, v: Store<Bytes>, prefix: Bytes, data: Bytes)
    requires c.Lawful() && Inv(c, s) && ValidPrefix(prefix) && View(c, s, v) && Tracked(s, c.BlockId(prefix, data))
    ensures c.BlockId(prefix, data) in v.readable
  {
    hide Suite.Lawful;
    hide Inv;
    hide ValidPrefix;
    hide KeyOk;
    hide GetBlock;
    hide StorageAnswer;
    hide Tracked;
    hide Suite.BlockId;
    WrittenKeyOk(c, prefix, data);
    TrackedReads(c, s, c.BlockId(prefix, data));
    assert Seen(c, s, v, c.BlockId(prefix, data));
  }

  /** `DeleteBlock` of a block that can be read removes it from the store; of another it changes
      nothing. */
  lemma DeleteViews(c: Suite, s: State, v: Store<Bytes>, id: Bytes, now: int64)
    requires Inv(c, s) && KeyOk(id) && After(s, id, now) && View(c, s, v)
    ensures View(c, DeleteBlock(s, id, now).0, if id in v.readable then Remove(v, id) else v)
  {
    hide Inv;
    hide KeyOk;
    hide GetBlock;
    hide StorageAnswer;
    hide Tracked;
    hide After;
    hide DeleteBlock;
    hide Uncovers;
    hide MergedFind;
    hide Contents;
    var t := DeleteBlock(s, id, now).0;
    DeleteKeeps(c, s, id, now);
    TrackedReads(c, s, id);
    assert Seen(c, s, v, id);
    UncoversIff(c, s, id);
    forall b | KeyOk(b) ensures Seen(c, t, if id in v.readable then Remove(v, id) else v, b) {
      assert Seen(c, s, v, b);
      DeletedParts(c, s, id, now, b);
    }
  }

  lemma UncoversIff(c: Suite, s: State, id: Bytes)
    requires Inv(c, s)
    ensures Uncovers(s, id) <==> Inline(s, id) && StorageAnswer(c, s, id).Ok?
    ensures Uncovers(s, id) ==> StorageAnswer(c, s, id) == Contents(c, s.packs, MergedFind(s.committed, id).value)
    ensures Inline(s, id) ==> Tracked(s, id)
  {
    hide KeyOk;
    hide MergedFind;
    hide Identifies;
    hide TiesIdentical;
    hide Newer;
    hide PackFile.ReadEntry;
    MergedFindIsNewest(s.committed, id);
    if MergedFind(s.committed, id).Some? {
      var k :| 0 <= k < |s.committed| && id in s.committed[k] && s.committed[k][id] == MergedFind(s.committed, id).value;
      assert IndexOk(c, s.packs, s.committed[k]);
    }
  }

  lemma DeletedParts(c: Suite, s: State, id: Bytes, now: int64, b: Bytes)
    requires Inv(c, s)
    ensures var t := DeleteBlock(s, id, now).0;
      StorageAnswer(c, t, b) == StorageAnswer(c, s, b) && (Inline(t, b) <==> Inline(s, b) && (b != id || !Tracked(s, id)))
  {
    hide KeyOk;
    hide MergedFind;
    hide Contents;
    hide Identifies;
    hide CommittedOk;
    hide StorageOk;
    hide Newer;
    FoundKeyed(c, s, id);
  }

  /** `Flush` settles the store. */
  lemma FlushViews(cfg: Config, s: State, v: Store<Bytes>, ch: PackChoice, now: int, indexOk: bool)
    requires cfg.suite.Lawful() && Inv(cfg.suite, s) && LegalPack(cfg, s, ch) && View(cfg.suite, s, v)
    ensures OrderOf(ch.order, s.current)
    ensures View(cfg.suite, Flush(cfg, s, ch, now, indexOk).0, Settle(v, HowFar(cfg, s, ch, true, now, indexOk)))
  {
    hide Suite.Lawful;
    hide Inv;
    hide LegalPack;
    hide FinishPack;
    hide FlushIndexes;
    hide View;
    hide HowFar;
    hide Settle;
    SettleViews(cfg, s, v, ch, true, now, indexOk);
  }

  /** The block manager's own condition for a write, that the block is not hidden, is that of the
      store. */
  lemma HiddenIff(c: Suite, s: State, v: Store<Bytes>, b: Bytes)
    requires Inv(c, s) && KeyOk(b) && View(c, s, v)
    ensures Hidden(v, b) <==> HidesLive(s, b)
  {
    hide KeyOk;
    hide MergedFind;
    hide Identifies;
    hide TiesIdentical;
    hide Newer;
    hide PackFile.ReadEntry;
    assert Seen(c, s, v, b);
    TrackedReads(c, s, b);
    MergedFindIsNewest(s.committed, b);
    if MergedFind(s.committed, b).Some? {
      var k :| 0 <= k < |s.committed| && b in s.committed[k] && s.committed[k][b] == MergedFind(s.committed, b).value;
      assert IndexOk(c, s.packs, s.committed[k]);
    }
  }
}
