/** Pack files alone are enough: in every state a manager reaches, the entry of each packed
    block can be recovered from its pack (block_index_recovery.go, block_manager.go). */
module BlockRecovery {
  import opened ByteStrings
  import opened BlockInfo
  import opened Crypto
  import opened MergedIndex
  import opened PackFile
  import opened BlockState
  import opened BlockPacking
  import opened BlockWrites
  import opened BlockRuns

  /** The index recovered from this file has this very entry. */
  ghost predicate HasEntry(c: Suite, file: Bytes, e: Info) {
    exists b :: Recoverable(c, file, b) && e.blockID in b && b[e.blockID] == e
  }

  ghost predicate Recovers(c: Suite, packs: map<Bytes, Bytes>, e: Info) {
    !e.deleted ==> e.packFile in packs && HasEntry(c, packs[e.packFile], e)
  }

  ghost predicate BuilderRecovers(c: Suite, s: State) {
    forall id :: id in s.builder && id !in s.current ==> Recovers(c, s.packs, s.builder[id])
  }

  ghost predicate CommittedRecovers(c: Suite, s: State) {
    forall k, id :: 0 <= k < |s.committed| && id in s.committed[k] ==> Recovers(c, s.packs, s.committed[k][id])
  }

  ghost predicate AllRecover(c: Suite, s: State) {
    BuilderRecovers(c, s) && CommittedRecovers(c, s)
  }

  /** More packs do not matter. */
  lemma CommittedStays(c: Suite, s: State, t: State)
    requires CommittedRecovers(c, s) && t.committed == s.committed && PacksGrow(s, t)
    ensures CommittedRecovers(c, t)
  {
    hide HasEntry;
  }

  lemma PackGood(cfg: Config, s: State, ch: PackChoice)
    requires cfg.suite.Lawful() && Inv(cfg.suite, s) && LegalPack(cfg, s, ch)
    ensures var items := ItemsOf(s.current, ch.order);
      var r := PackFileOf(cfg.suite, cfg.formatBytes + ch.preamble, ch.name, items, cfg.unit, ch.random);
      && r.Ok? && ch.name != [] && CurrentOk(cfg.suite, s)
      && (r.value.None? ==> forall id :: id in s.current ==> s.current[id].deleted)
      && (r.value.Some? ==> GoodPack(cfg.suite, cfg.formatBytes + ch.preamble, ch.name, items, r.value.value))
  {
    hide Inv;
    hide CurrentOk;
    hide PackFileOf;
    hide GoodPack;
    hide WithinLimits;
    var items := ItemsOf(s.current, ch.order);
    var start := cfg.formatBytes + ch.preamble;
    InvCurrent(cfg.suite, s);
    PendingPackable(cfg.suite, s, ch.order);
    PackCorrect(cfg.suite, start, ch.name, items, cfg.unit, ch.random);
    NameOk(start, ch.name, items, cfg.unit);
    if PackFileOf(cfg.suite, start, ch.name, items, cfg.unit, ch.random).value.None? {
      AllTombstones(cfg.suite, s, ch.order);
    }
  }

  /** The builder's entry for a packed block is the one in the pack's own index. */
  lemma PackedRecovers(cfg: Config, s: State, ch: PackChoice, p: Pack, id: Bytes)
    requires CurrentOk(cfg.suite, s) && BuilderRecovers(cfg.suite, s) && OrderOf(ch.order, s.current) && ch.name !in s.packs
    requires GoodPack(cfg.suite, cfg.formatBytes + ch.preamble, ch.name, ItemsOf(s.current, ch.order), p)
    requires id in AddAll(s.builder, p.index)
    ensures Recovers(cfg.suite, s.packs[ch.name := p.data], AddAll(s.builder, p.index)[id])
  {
    hide Identifies;
    hide ReadEntry;
    hide Recoverable;
    hide DisjointRanges;
    PackHolds(cfg, s, ch, p, id);
    if id in p.index {
      var e := p.index[id];
      assert AddAll(s.builder, p.index)[id] == e;
      assert Recoverable(cfg.suite, p.data, p.index) && e.blockID in p.index && p.index[e.blockID] == e;
      assert HasEntry(cfg.suite, p.data, e);
    }
  }

  lemma FinishRecovers(cfg: Config, s: State, ch: PackChoice)
    requires cfg.suite.Lawful() && Inv(cfg.suite, s) && LegalPack(cfg, s, ch) && AllRecover(cfg.suite, s)
    ensures OrderOf(ch.order, s.current) && AllRecover(cfg.suite, FinishPack(cfg, s, ch).0)
  {
    hide Suite.Lawful;
    hide Inv;
    hide GoodPack;
    hide PackFileOf;
    hide WithinLimits;
    hide AddAll;
    hide HasEntry;
    hide PendingOk;
    PackGood(cfg, s, ch);
    var t := FinishPack(cfg, s, ch).0;
    CommittedStays(cfg.suite, s, t);
    var r := PackFileOf(cfg.suite, cfg.formatBytes + ch.preamble, ch.name, ItemsOf(s.current, ch.order), cfg.unit, ch.random);
    if s.current != map[] && r.value.Some? && ch.putOk {
      forall id | id in t.builder ensures Recovers(cfg.suite, t.packs, t.builder[id]) {
        PackedRecovers(cfg, s, ch, r.value.value, id);
      }
    }
  }

  lemma FlushRecovers(c: Suite, s: State, now: int, putOk: bool)
    requires AllRecover(c, s) && s.current == map[]
    ensures AllRecover(c, FlushIndexes(s, now, putOk).0)
  {
    hide Recovers;
    hide EncodeIndex;
  }

  lemma FinishAndFlush(cfg: Config, s: State, ch: PackChoice, now: int, indexOk: bool)
    requires cfg.suite.Lawful() && Inv(cfg.suite, s) && LegalPack(cfg, s, ch) && AllRecover(cfg.suite, s)
    ensures OrderOf(ch.order, s.current)
    ensures var (t, ok) := FinishPack(cfg, s, ch);
      AllRecover(cfg.suite, t) && (ok ==> AllRecover(cfg.suite, FlushIndexes(t, now, indexOk).0))
  {
    hide *;
    FinishRecovers(cfg, s, ch);
    FinishPackKeeps(cfg, s, ch);
    if FinishPack(cfg, s, ch).1 {
      FlushRecovers(cfg.suite, FinishPack(cfg, s, ch).0, now, indexOk);
    }
  }

  lemma AddedRecovers(c: Suite, s: State, id: Bytes, data: Bytes, now: int64)
    requires AllRecover(c, s)
    ensures AllRecover(c, Added(s, id, data, now))
  {
    hide Recovers;
  }

  lemma WriteRecovers(cfg: Config, s: State, data: Bytes, prefix: Bytes, now: int64, ch: PackChoice, later: int, indexOk: bool)
    requires cfg.suite.Lawful() && Inv(cfg.suite, s) && AllRecover(cfg.suite, s)
    requires LegalWrite(cfg, s, data, prefix, now, ch) && PackOrder(cfg, s, data, prefix, now, ch)
    ensures AllRecover(cfg.suite, WriteBlock(cfg, s, data, prefix, now, ch, later, indexOk).0)
  {
    hide Suite.Lawful;
    hide Inv;
    hide Tracked;
    hide ValidPrefix;
    hide NotBefore;
    hide LegalPack;
    hide FinishPack;
    hide FlushIndexes;
    hide Added;
    hide Suite.BlockId;
    hide AllRecover;
    var id := cfg.suite.BlockId(prefix, data);
    if ValidPrefix(prefix) && !Tracked(s, id) {
      AddedRecovers(cfg.suite, s, id, data, now);
      if Added(s, id, data, now).currentLength >= cfg.maxPackSize {
        AddedKeeps(cfg.suite, s, prefix, data, now);
        FinishAndFlush(cfg, Added(s, id, data, now), ch, later, indexOk);
      }
    }
  }

  lemma DeleteRecovers(c: Suite, s: State, id: Bytes, now: int64)
    requires AllRecover(c, s)
    ensures AllRecover(c, DeleteBlock(s, id, now).0)
  {
    hide Recovers;
    hide MergedFind;
  }

  lemma StepRecovers(cfg: Config, s: State, op: Op)
    requires cfg.suite.Lawful() && Inv(cfg.suite, s) && Legal(cfg, s, op) && AllRecover(cfg.suite, s)
    ensures AllRecover(cfg.suite, Step(cfg, s, op))
  {
    hide Suite.Lawful;
    hide Inv;
    hide Recovers;
    hide FinishPack;
    hide FlushIndexes;
    hide WriteBlock;
    hide DeleteBlock;
    hide LegalWrite;
    hide LegalPack;
    hide PackOrder;
    match op {
      case WriteOp(data, prefix, now, ch, later, indexOk) => WriteRecovers(cfg, s, data, prefix, now, ch, later, indexOk);
      case DeleteOp(id, now) => DeleteRecovers(cfg.suite, s, id, now);
      case FlushOp(ch, now, indexOk) => FinishAndFlush(cfg, s, ch, now, indexOk);
      case DisableOp =>
      case EnableOp =>
    }
  }

  lemma {:induction false} RunRecovers(cfg: Config, t: int, ops: seq<Op>, s: State)
    requires cfg.suite.Lawful() && Run(cfg, Fresh(t), ops) == Some(s)
    ensures Inv(cfg.suite, s) && AllRecover(cfg.suite, s)
  {
    hide Suite.Lawful;
    hide Inv;
    hide Legal;
    hide Step;
    ManagerIsAMap(cfg, t, ops, s);
    if ops != [] {
      var n := |ops| - 1;
      var u := Run(cfg, Fresh(t), ops[..n]).value;
      RunRecovers(cfg, t, ops[..n], u);
      StepRecovers(cfg, u, ops[n]);
    }
  }

  /** Losing every index file loses no packed block: in every state a manager reaches, the
      index recovered from the pack a block is read from has exactly the entry that the
      manager answers with. */
  lemma LostIndexesAreRecovered(cfg: Config, t: int, ops: seq<Op>, s: State, id: Bytes)
    requires cfg.suite.Lawful() && Run(cfg, Fresh(t), ops) == Some(s)
    requires Tracked(s, id) && id !in s.current
    ensures var e := GetBlockInfo(s, id).value;
      && e.blockID == id && e.packFile in s.packs && HasEntry(cfg.suite, s.packs[e.packFile], e)
      && GetBlock(cfg.suite, s, id) == ReadEntry(cfg.suite, s.packs[e.packFile], e)
  {
    hide Suite.Lawful;
    hide HasEntry;
    hide ReadEntry;
    hide MergedFind;
    RunRecovers(cfg, t, ops, s);
    if id !in s.builder {
      MergedFindIsNewest(s.committed, id);
      var k :| 0 <= k < |s.committed| && id in s.committed[k] && s.committed[k][id] == GetBlockInfo(s, id).value;
      assert IndexOk(cfg.suite, s.packs, s.committed[k]);
      assert Recovers(cfg.suite, s.packs, s.committed[k][id]);
    } else {
      assert Recovers(cfg.suite, s.packs, s.builder[id]);
    }
  }
}
