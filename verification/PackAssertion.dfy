/** What the block manager asserts of its own state before and after each call
    (verifyPackIndexBuilderLocked in block_manager.go), and the calls that break it. */
module PackAssertion {
  import opened ByteStrings
  import opened BlockInfo
  import opened Crypto
  import opened MergedIndex
  import opened PackFile
  import opened BlockState
  import opened BlockPacking
  import opened BlockWrites
  import opened BlockRuns

  /** What `verifyPackIndexBuilderLocked` asserts of a deleted entry that is not pending: that it
      names no pack. */
  ghost predicate DeletedNamesNoPack(s: State) {
    forall id :: id in s.builder && id !in s.current && s.builder[id].deleted ==> s.builder[id].packFile == []
  }

  /** The assertion holds exactly when no deleted entry has left the pending ones. */
  lemma AssertionHoldsIff(c: Suite, s: State)
    requires Inv(c, s)
    ensures DeletedNamesNoPack(s) <==> forall id :: id in s.builder && id !in s.current ==> !s.builder[id].deleted
  {
    hide KeyOk;
    hide CommittedOk;
    hide StorageOk;
    hide BuilderNewer;
    hide CurrentOk;
    hide Contents;
  }

  /** The other assertions on the two maps, `verifyCurrentPackItemsLocked` and the rest of
      `verifyPackIndexBuilderLocked`, except those on the clock. */
  ghost predicate OtherAssertions(s: State) {
    && (forall id :: id in s.current ==>
          && s.current[id].blockID == id && (s.current[id].deleted || s.current[id].packFile == [])
          && id in s.builder && s.builder[id] == s.current[id])
    && (forall id :: id in s.builder ==> s.builder[id].blockID == id)
    && (forall id :: id in s.builder && id !in s.current && !s.builder[id].deleted ==>
          s.builder[id].packFile != [] && s.builder[id].formatVersion == FORMAT_VERSION)
  }

  lemma OtherAssertionsHold(c: Suite, s: State)
    requires Inv(c, s)
    ensures OtherAssertions(s)
  {
    hide KeyOk;
    hide CommittedOk;
    hide StorageOk;
    hide BuilderNewer;
    hide Contents;
    hide Identifies;
  }

  /* ----- which calls break it ----- */

  ghost predicate HasTombstone(current: Index) {
    exists id :: id in current && current[id].deleted
  }

  /** The pending blocks are written to a pack, or there are only tombstones. */
  ghost predicate Finishes(s: State, ch: PackChoice) {
    ch.putOk || forall id :: id in s.current ==> s.current[id].deleted
  }

  /** A tombstone stops being pending and no index is written after it. */
  ghost predicate LeavesTombstone(s: State, ch: PackChoice, flushes: bool, indexOk: bool) {
    HasTombstone(s.current) && Finishes(s, ch) && !(flushes && s.disabled <= 0 && indexOk)
  }

  ghost predicate WriteBreaks(cfg: Config, s: State, data: Bytes, prefix: Bytes, now: int64, ch: PackChoice,
                              later: int, indexOk: bool) {
    && FillsPack(cfg, s, data, prefix, now)
    && var t := Added(s, cfg.suite.BlockId(prefix, data), data, now);
    LeavesTombstone(t, ch, later > t.flushAfter, indexOk)
  }

  /** A flush with a pending tombstone, or a write that fills a pack with one, if it does not
      write the index: because flushes are disabled, storage refuses it, or it is not yet time. */
  ghost predicate Breaks(cfg: Config, s: State, op: Op) {
    match op
    case WriteOp(data, prefix, now, ch, later, indexOk) => WriteBreaks(cfg, s, data, prefix, now, ch, later, indexOk)
    case FlushOp(ch, _, indexOk) => LeavesTombstone(s, ch, true, indexOk)
    case DeleteOp(_, _) => false
    case DisableOp => false
    case EnableOp => false
  }

  /** A call on a manager for which the assertion holds breaks it exactly if it is one of those. */
  lemma StepBreaksIff(cfg: Config, s: State, op: Op)
    requires cfg.suite.Lawful() && Inv(cfg.suite, s) && Legal(cfg, s, op) && DeletedNamesNoPack(s)
    ensures DeletedNamesNoPack(Step(cfg, s, op)) <==> !Breaks(cfg, s, op)
  {
    hide *;
    LegalCases(cfg, s, op);
    match op
    case WriteOp(data, prefix, now, ch, later, indexOk) =>
      if ValidPrefix(prefix) && !Tracked(s, cfg.suite.BlockId(prefix, data)) {
        AddedInv(cfg.suite, s, prefix, data, now);
        AddedHolds(s, cfg.suite.BlockId(prefix, data), data, now);
      }
      WriteBreaksIff(cfg, s, data, prefix, now, ch, later, indexOk);
    case FlushOp(ch, later, indexOk) =>
      FlushIsFinish(cfg, s, ch, later, indexOk);
      FinishBreaksIff(cfg, s, ch, true, later, indexOk);
    case DeleteOp(id, now) => DeleteHolds(s, id, now);
    case DisableOp => CounterHolds(s, s.disabled + 1);
    case EnableOp => CounterHolds(s, s.disabled - 1);
  }

  /** What is legal, and what the step and the condition are, call by call. */
  lemma LegalCases(cfg: Config, s: State, op: Op)
    requires Legal(cfg, s, op)
    ensures match op
      case WriteOp(data, prefix, now, ch, later, indexOk) =>
        && LegalWrite(cfg, s, data, prefix, now, ch) && PackOrder(cfg, s, data, prefix, now, ch)
        && NotBefore(s, cfg.suite.BlockId(prefix, data), now)
        && Step(cfg, s, op) == WriteBlock(cfg, s, data, prefix, now, ch, later, indexOk).0
        && (Breaks(cfg, s, op) <==> WriteBreaks(cfg, s, data, prefix, now, ch, later, indexOk))
      case FlushOp(ch, later, indexOk) =>
        && LegalPack(cfg, s, ch) && OrderOf(ch.order, s.current)
        && Step(cfg, s, op) == Flush(cfg, s, ch, later, indexOk).0
        && (Breaks(cfg, s, op) <==> LeavesTombstone(s, ch, true, indexOk))
      case DeleteOp(id, now) => Step(cfg, s, op) == DeleteBlock(s, id, now).0 && !Breaks(cfg, s, op)
      case DisableOp => Step(cfg, s, op) == s.(disabled := s.disabled + 1) && !Breaks(cfg, s, op)
      case EnableOp => Step(cfg, s, op) == s.(disabled := s.disabled - 1) && !Breaks(cfg, s, op)
  {
    hide WithinLimits;
    hide KeyOk;
    hide WriteBlock;
    hide Flush;
    hide DeleteBlock;
    hide WriteBreaks;
    hide LeavesTombstone;
  }

  lemma WriteBreaksIff(cfg: Config, s: State, data: Bytes, prefix: Bytes, now: int64, ch: PackChoice, later: int, indexOk: bool)
    requires cfg.suite.Lawful() && DeletedNamesNoPack(s)
    requires LegalWrite(cfg, s, data, prefix, now, ch) && PackOrder(cfg, s, data, prefix, now, ch)
    requires var t := Added(s, cfg.suite.BlockId(prefix, data), data, now);
      ValidPrefix(prefix) && !Tracked(s, cfg.suite.BlockId(prefix, data)) ==> Inv(cfg.suite, t) && DeletedNamesNoPack(t)
    ensures DeletedNamesNoPack(WriteBlock(cfg, s, data, prefix, now, ch, later, indexOk).0)
      <==> !WriteBreaks(cfg, s, data, prefix, now, ch, later, indexOk)
  {
    hide Suite.Lawful;
    hide Inv;
    hide Tracked;
    hide LegalPack;
    hide LeavesTombstone;
    hide DeletedNamesNoPack;
    hide FinishPack;
    hide FlushIndexes;
    hide Added;
    hide NotBefore;
    var t := Added(s, cfg.suite.BlockId(prefix, data), data, now);
    if FillsPack(cfg, s, data, prefix, now) {
      LegalOrder(cfg, t, ch);
      FinishAfter(cfg, t, ch);
      FinishBreaksIff(cfg, t, ch, later > t.flushAfter, later, indexOk);
    }
  }

  /** Finishing the pack and then, if wanted, flushing the index. */
  ghost function FinishThenFlush(cfg: Config, s: State, ch: PackChoice, flushes: bool, later: int, indexOk: bool): State
    requires OrderOf(ch.order, s.current)
  {
    var (t, ok) := FinishPack(cfg, s, ch);
    if ok && flushes then FlushIndexes(t, later, indexOk).0 else t
  }

  lemma FlushIsFinish(cfg: Config, s: State, ch: PackChoice, later: int, indexOk: bool)
    requires OrderOf(ch.order, s.current)
    ensures Flush(cfg, s, ch, later, indexOk).0 == FinishThenFlush(cfg, s, ch, true, later, indexOk)
  {
    hide FinishPack;
    hide FlushIndexes;
  }

  lemma FinishAfter(cfg: Config, s: State, ch: PackChoice)
    requires OrderOf(ch.order, s.current)
    ensures FinishPack(cfg, s, ch).0.flushAfter == s.flushAfter && FinishPack(cfg, s, ch).0.disabled == s.disabled
  {
    hide PackFileOf;
  }

  lemma FinishBreaksIff(cfg: Config, s: State, ch: PackChoice, flushes: bool, later: int, indexOk: bool)
    requires cfg.suite.Lawful() && Inv(cfg.suite, s) && LegalPack(cfg, s, ch) && DeletedNamesNoPack(s)
    ensures OrderOf(ch.order, s.current)
    ensures DeletedNamesNoPack(FinishThenFlush(cfg, s, ch, flushes, later, indexOk)) <==> !LeavesTombstone(s, ch, flushes, indexOk)
  {
    hide *;
    LegalOrder(cfg, s, ch);
    FinishMarks(cfg, s, ch);
    FinishPackKeeps(cfg, s, ch);
    AssertionHoldsIff(cfg.suite, s);
    var (t, ok) := FinishPack(cfg, s, ch);
    AssertionHoldsIff(cfg.suite, t);
    ThenFlush(cfg, s, ch, flushes, later, indexOk);
    if ok {
      FlushIndexesKeeps(cfg.suite, t, later, indexOk);
      FlushWrites(cfg.suite, t, later, indexOk);
      PendingInBuilder(cfg.suite, s);
      MarksLeft(s, t, ch, flushes, indexOk);
    } else {
      NotFinished(s, ch, flushes, indexOk);
    }
  }

  lemma ThenFlush(cfg: Config, s: State, ch: PackChoice, flushes: bool, later: int, indexOk: bool)
    requires OrderOf(ch.order, s.current)
    ensures var (t, ok) := FinishPack(cfg, s, ch);
      FinishThenFlush(cfg, s, ch, flushes, later, indexOk) == if ok && flushes then FlushIndexes(t, later, indexOk).0 else t
  {
    hide FinishPack;
    hide FlushIndexes;
  }

  /** Writing the index leaves nothing behind; otherwise the builder stays. */
  lemma FlushWrites(c: Suite, s: State, now: int, putOk: bool)
    requires Inv(c, s) && s.current == map[]
    ensures var t := FlushIndexes(s, now, putOk).0;
      && (s.disabled <= 0 && putOk ==> DeletedNamesNoPack(t))
      && (!(s.disabled <= 0 && putOk) ==> (DeletedNamesNoPack(t) <==> DeletedNamesNoPack(s)))
  {
    hide EncodeIndex;
    hide KeyOk;
    hide PackedOk;
    BuilderEncodes(c, s);
  }

  /** A finished pack leaves the deletion marks of the builder as they were. */
  lemma FinishMarks(cfg: Config, s: State, ch: PackChoice)
    requires cfg.suite.Lawful() && Inv(cfg.suite, s) && LegalPack(cfg, s, ch)
    ensures OrderOf(ch.order, s.current)
    ensures var (t, ok) := FinishPack(cfg, s, ch);
      && (ok <==> Finishes(s, ch)) && SameMarks(s.builder, t.builder)
  {
    hide Inv;
    hide PackFileOf;
    hide GoodPack;
    hide WithinLimits;
    hide AddAll;
    hide AllTimed;
    hide SameMarks;
    hide Suite.Lawful;
    hide PackableItems;
    hide CurrentOk;
    var c := cfg.suite;
    AreMarks(s.builder, s.builder);
    if s.current != map[] {
      var items := ItemsOf(s.current, ch.order);
      var start := cfg.formatBytes + ch.preamble;
      InvCurrent(c, s);
      PendingPackable(c, s, ch.order);
      PackCorrect(c, start, ch.name, items, cfg.unit, ch.random);
      OnlyDeleted(c, s, ch.order);
      var r := PackFileOf(c, start, ch.name, items, cfg.unit, ch.random);
      LegalTimes(cfg, s, ch);
      if r.value.Some? {
        PackedMarks(cfg, s, ch, r.value.value);
      }
    }
  }

  lemma PackedMarks(cfg: Config, s: State, ch: PackChoice, p: Pack)
    requires Inv(cfg.suite, s) && OrderOf(ch.order, s.current) && ch.name !in s.packs && AllTimed(s)
    requires GoodPack(cfg.suite, cfg.formatBytes + ch.preamble, ch.name, ItemsOf(s.current, ch.order), p)
    ensures SameMarks(s.builder, AddAll(s.builder, p.index))
  {
    hide *;
    var b := AddAll(s.builder, p.index);
    forall id ensures (id in b <==> id in s.builder) && (id in b ==> b[id].deleted == s.builder[id].deleted) {
      PackedBuilder(cfg, s, ch, p, id);
    }
    AreMarks(s.builder, b);
  }

  lemma AreMarks(b: Index, d: Index)
    requires forall id :: (id in d <==> id in b) && (id in d ==> d[id].deleted == b[id].deleted)
    ensures SameMarks(b, d)
  {
  }

  ghost predicate SameMarks(b: Index, d: Index) {
    forall id :: (id in d <==> id in b) && (id in d ==> d[id].deleted == b[id].deleted)
  }

  lemma OnlyDeleted(c: Suite, s: State, order: seq<Bytes>)
    requires CurrentOk(c, s) && OrderOf(order, s.current)
    ensures (forall i :: 0 <= i < |ItemsOf(s.current, order)| ==> ItemsOf(s.current, order)[i].payload.None?)
      <==> forall id :: id in s.current ==> s.current[id].deleted
  {
    hide Identifies;
    if forall i :: 0 <= i < |ItemsOf(s.current, order)| ==> ItemsOf(s.current, order)[i].payload.None? {
      AllTombstones(c, s, order);
    }
    if forall id :: id in s.current ==> s.current[id].deleted {
      forall i | 0 <= i < |order| ensures s.current[order[i]].payload.None? {
        assert order[i] in order;
      }
    }
  }

  lemma MarksLeft(s: State, t: State, ch: PackChoice, flushes: bool, indexOk: bool)
    requires SameMarks(s.builder, t.builder) && t.current == map[] && t.disabled == s.disabled && Finishes(s, ch)
    requires forall id :: id in s.builder && id !in s.current ==> !s.builder[id].deleted
    requires forall id :: id in s.current ==> id in s.builder && s.builder[id] == s.current[id]
    requires DeletedNamesNoPack(t) <==> forall id :: id in t.builder && id !in t.current ==> !t.builder[id].deleted
    ensures DeletedNamesNoPack(t) <==> !HasTombstone(s.current)
    ensures LeavesTombstone(s, ch, flushes, indexOk) <==> HasTombstone(s.current) && !(flushes && t.disabled <= 0 && indexOk)
  {
    hide DeletedNamesNoPack;
    if id :| id in s.current && s.current[id].deleted {
      assert id in t.builder && t.builder[id].deleted;
    }
  }

  lemma PendingInBuilder(c: Suite, s: State)
    requires Inv(c, s)
    ensures forall id :: id in s.current ==> id in s.builder && s.builder[id] == s.current[id]
  {
    hide PendingOk;
    hide BuilderOk;
    hide CommittedOk;
    hide BuilderNewer;
    hide StorageOk;
  }

  lemma NotFinished(s: State, ch: PackChoice, flushes: bool, indexOk: bool)
    requires !Finishes(s, ch)
    ensures !LeavesTombstone(s, ch, flushes, indexOk)
  {
  }

  lemma AddedHolds(s: State, id: Bytes, data: Bytes, now: int64)
    requires DeletedNamesNoPack(s)
    ensures DeletedNamesNoPack(Added(s, id, data, now))
  {
  }

  lemma DeleteHolds(s: State, id: Bytes, now: int64)
    requires DeletedNamesNoPack(s)
    ensures DeletedNamesNoPack(DeleteBlock(s, id, now).0)
  {
    hide MergedFind;
  }

  lemma CounterHolds(s: State, n: int)
    requires DeletedNamesNoPack(s)
    ensures DeletedNamesNoPack(s.(disabled := n))
  {
  }

  /** Deleting a committed block and flushing while index flushes are disabled breaks it. */
  lemma TombstoneBreaksAssertion(cfg: Config, s: State, id: Bytes, now: int64, ch: PackChoice, later: int, indexOk: bool)
    requires cfg.suite.Lawful() && Inv(cfg.suite, s) && s.current == map[] && s.builder == map[] && s.disabled >= 0
    requires KeyOk(id) && Tracked(s, id) && After(s, id, now)
    requires LegalPack(cfg, DeleteBlock(s, id, now).0.(disabled := s.disabled + 1), ch)
    ensures var d := DeleteBlock(s, id, now).0.(disabled := s.disabled + 1);
      OrderOf(ch.order, d.current) && Flush(cfg, d, ch, later, indexOk).1
      && !DeletedNamesNoPack(Flush(cfg, d, ch, later, indexOk).0)
  {
    hide Suite.Lawful;
    hide Inv;
    hide KeyOk;
    hide MergedFind;
    hide PackFileOf;
    hide WithinLimits;
    hide Contents;
    var c := cfg.suite;
    DeleteKeeps(c, s, id, now);
    var e := MergedFind(s.committed, id).value;
    CommittedEntry(c, s, id);
    var d := DeleteBlock(s, id, now).0.(disabled := s.disabled + 1);
    var tomb := e.(deleted := true, timestamp := now);
    assert d.current == map[id := tomb] && d.builder == map[id := tomb];
    SameBlocks(c, DeleteBlock(s, id, now).0, d);
    NothingToPack(cfg, d, ch);
    var t := Flush(cfg, d, ch, later, indexOk).0;
    assert t.builder[id] == tomb;
  }

  lemma CommittedEntry(c: Suite, s: State, id: Bytes)
    requires Inv(c, s) && MergedFind(s.committed, id).Some?
    ensures var e := MergedFind(s.committed, id).value; e.blockID == id && e.packFile != [] && e.payload == None
  {
    hide KeyOk;
    hide MergedFind;
    hide Contents;
    MergedFindIsNewest(s.committed, id);
    var k :| 0 <= k < |s.committed| && id in s.committed[k] && s.committed[k][id] == MergedFind(s.committed, id).value;
    assert IndexOk(c, s.packs, s.committed[k]);
  }

  /** When only tombstones are pending no pack is written. */
  lemma NothingToPack(cfg: Config, s: State, ch: PackChoice)
    requires cfg.suite.Lawful() && Inv(cfg.suite, s) && LegalPack(cfg, s, ch)
    requires forall id :: id in s.current ==> s.current[id].payload == None
    ensures OrderOf(ch.order, s.current) && FinishPack(cfg, s, ch) == (s.(current := map[], currentLength := FinishPack(cfg, s, ch).0.currentLength), true)
  {
    hide Inv;
    hide PackFileOf;
    hide WithinLimits;
    hide GoodPack;
    if s.current != map[] {
      var items := ItemsOf(s.current, ch.order);
      InvCurrent(cfg.suite, s);
      PendingPackable(cfg.suite, s, ch.order);
      PackCorrect(cfg.suite, cfg.formatBytes + ch.preamble, ch.name, items, cfg.unit, ch.random);
      forall i | 0 <= i < |items| ensures items[i].payload.None? {
        assert ch.order[i] in ch.order;
      }
    }
  }
}
