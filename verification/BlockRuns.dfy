/** Whole runs of a block manager against a plain map from ID to bytes, and the exact
    case in which deleting does not delete (block_manager.go). */
module BlockRuns {
  import opened ByteStrings
  import opened ContentId
  import opened BlockInfo
  import opened Crypto
  import opened MergedIndex
  import opened PackFile
  import opened BlockState
  import opened BlockPacking
  import opened BlockWrites

  /* ----- whole runs ----- */

  /** One call on the manager, with what the outside decides during it. */
  datatype Op =
    | WriteOp(data: Bytes, prefix: Bytes, now: int64, ch: PackChoice, later: int, indexOk: bool)
    | DeleteOp(id: Bytes, now: int64)
    | FlushOp(ch: PackChoice, later: int, indexOk: bool)
    | DisableOp
    | EnableOp

  /** The clock, the randomness and the delete contract: block IDs are deleted, not other texts,
      and a block whose tombstone still hides a live committed entry is not written again. */
  ghost predicate Legal(cfg: Config, s: State, op: Op) {
    match op
    case WriteOp(data, prefix, now, ch, _, _) =>
      && LegalWrite(cfg, s, data, prefix, now, ch) && PackOrder(cfg, s, data, prefix, now, ch)
      && !HidesLive(s, cfg.suite.BlockId(prefix, data))
    case DeleteOp(id, now) => KeyOk(id) && After(s, id, now)
    case FlushOp(ch, _, _) => LegalPack(cfg, s, ch)
    case DisableOp => true
    case EnableOp => true
  }

  ghost function Step(cfg: Config, s: State, op: Op): (t: State)
    requires Legal(cfg, s, op)
  {
    match op
    case WriteOp(data, prefix, now, ch, later, indexOk) => WriteBlock(cfg, s, data, prefix, now, ch, later, indexOk).0
    case DeleteOp(id, now) => DeleteBlock(s, id, now).0
    case FlushOp(ch, now, indexOk) => Flush(cfg, s, ch, now, indexOk).0
    case DisableOp => s.(disabled := s.disabled + 1)
    case EnableOp => s.(disabled := s.disabled - 1)
  }

  /** The same calls on a plain map from ID to bytes. */
  function MapStep(c: Suite, m: map<Bytes, Bytes>, op: Op): (r: map<Bytes, Bytes>) {
    match op
    case WriteOp(data, prefix, _, _, _, _) =>
      var id := c.BlockId(prefix, data);
      if !ValidPrefix(prefix) || id in m then m else m[id := data]
    case DeleteOp(id, _) => m - {id}
    case FlushOp(_, _, _) => m
    case DisableOp => m
    case EnableOp => m
  }

  ghost function Run(cfg: Config, s: State, ops: seq<Op>): (r: Option<State>) {
    if ops == [] then Some(s)
    else match Run(cfg, s, ops[..|ops| - 1])
      case None => None
      case Some(t) => if Legal(cfg, t, ops[|ops| - 1]) then Some(Step(cfg, t, ops[|ops| - 1])) else None
  }

  function MapRun(c: Suite, m: map<Bytes, Bytes>, ops: seq<Op>): (r: map<Bytes, Bytes>) {
    if ops == [] then m else MapStep(c, MapRun(c, m, ops[..|ops| - 1]), ops[|ops| - 1])
  }

  /** Every read of a block ID is a lookup in the map. */
  ghost predicate AgreesWith(c: Suite, s: State, m: map<Bytes, Bytes>) {
    forall id :: KeyOk(id) ==> GetBlock(c, s, id) == if id in m then Ok(m[id]) else Err(NotFound)
  }

  /** The IDs the manager makes are block IDs. */
  lemma WrittenKeyOk(c: Suite, prefix: Bytes, data: Bytes)
    requires c.Lawful() && ValidPrefix(prefix)
    ensures KeyOk(c.BlockId(prefix, data))
  {
    hide *;
    BlockIdIdentifies(c, prefix, data);
    IvOfId(c, c.BlockId(prefix, data), data);
    KeyOkIs(c.BlockId(prefix, data));
  }

  lemma KeyOkIs(id: Bytes)
    requires Canonical(id) && |ToKey(id)| == IV_LENGTH + 1
    ensures KeyOk(id)
  {
    hide Canonical;
    hide ToKey;
  }

  ghost predicate Good(c: Suite, s: State) {
    Inv(c, s) && NothingHidden(s)
  }

  lemma NeverUncovers(c: Suite, s: State, id: Bytes)
    requires Good(c, s)
    ensures !Uncovers(s, id)
  {
    hide KeyOk;
    hide MergedFind;
    hide CommittedOk;
    hide StorageOk;
    hide BuilderNewer;
    hide Contents;
    hide Identifies;
  }

  lemma StepRefines(cfg: Config, s: State, op: Op, m: map<Bytes, Bytes>)
    requires cfg.suite.Lawful() && Good(cfg.suite, s) && Legal(cfg, s, op) && AgreesWith(cfg.suite, s, m)
    ensures Good(cfg.suite, Step(cfg, s, op))
    ensures AgreesWith(cfg.suite, Step(cfg, s, op), MapStep(cfg.suite, m, op))
  {
    hide Suite.Lawful;
    hide Inv;
    hide NothingHidden;
    hide GetBlock;
    hide LegalWrite;
    hide PackOrder;
    hide WriteBlock;
    hide DeleteBlock;
    hide Flush;
    hide HidesLive;
    hide ValidPrefix;
    hide Tracked;
    hide Uncovers;
    hide KeyOk;
    hide Suite.BlockId;
    var c := cfg.suite;
    match op
    case WriteOp(data, prefix, now, ch, later, indexOk) =>
      if ValidPrefix(prefix) {
        WrittenKeyOk(c, prefix, data);
      }
      TrackedReads(c, s, c.BlockId(prefix, data));
      WriteKeeps(cfg, s, data, prefix, now, ch, later, indexOk);
    case DeleteOp(id, now) =>
      DeleteKeeps(c, s, id, now);
      NeverUncovers(c, s, id);
    case FlushOp(ch, now, indexOk) =>
      FlushKeeps(cfg, s, ch, now, indexOk);
    case DisableOp => SameBlocks(c, s, s.(disabled := s.disabled + 1));
    case EnableOp => SameBlocks(c, s, s.(disabled := s.disabled - 1));
  }

  lemma FreshAgrees(c: Suite, t: int)
    ensures AgreesWith(c, Fresh(t), map[]) && Good(c, Fresh(t))
  {
    FreshInv(c, t);
  }

  /** Any run keeps a valid state valid and moves the map it agrees with along. */
  lemma {:induction false} RunRefines(cfg: Config, s: State, m: map<Bytes, Bytes>, ops: seq<Op>, t: State)
    requires cfg.suite.Lawful() && Good(cfg.suite, s) && AgreesWith(cfg.suite, s, m)
    requires Run(cfg, s, ops) == Some(t)
    ensures Good(cfg.suite, t) && AgreesWith(cfg.suite, t, MapRun(cfg.suite, m, ops))
  {
    hide Suite.Lawful;
    hide Good;
    hide AgreesWith;
    hide Legal;
    hide Step;
    hide MapStep;
    if ops != [] {
      var n := |ops| - 1;
      var u := Run(cfg, s, ops[..n]).value;
      RunRefines(cfg, s, m, ops[..n], u);
      StepRefines(cfg, u, ops[n], MapRun(cfg.suite, m, ops[..n]));
    }
  }

  /** Every run of writes, deletes and flushes of a new manager, with any failures of the
      storage along the way, agrees with a plain map from block ID to bytes. */
  lemma ManagerIsAMap(cfg: Config, t: int, ops: seq<Op>, s: State)
    requires cfg.suite.Lawful() && Run(cfg, Fresh(t), ops) == Some(s)
    ensures Good(cfg.suite, s) && AgreesWith(cfg.suite, s, MapRun(cfg.suite, map[], ops))
  {
    hide *;
    FreshAgrees(cfg.suite, t);
    RunRefines(cfg, Fresh(t), map[], ops, s);
  }

  /** A manager that has just opened the index files of a storage, in some order. */
  ghost predicate OpenedOn(s: State, t: State) {
    && t.current == map[] && t.builder == map[] && t.packs == s.packs && t.indexes == s.indexes
    && (forall f :: f in t.committed <==> f in s.indexes)
  }

  /** The merged answer does not depend on the order of the index files. */
  lemma OrderIrrelevant(ms: seq<Index>, ns: seq<Index>, id: Bytes)
    requires TiesIdentical(ms) && forall f :: f in ms <==> f in ns
    ensures MergedFind(ms, id) == MergedFind(ns, id)
  {
    hide MergedFind;
    hide TiesIdentical;
    MergedFindIsNewest(ms, id);
    MergedFindIsNewest(ns, id);
    forall k | 0 <= k < |ms| ensures ms[k] in ns {
      assert ms[k] in ms;
    }
    forall k | 0 <= k < |ns| ensures ns[k] in ms {
      assert ns[k] in ns;
    }
    if MergedFind(ns, id).Some? {
      NewestInBoth(ns, ms, id, MergedFind(ns, id).value);
      NewestUnique(ms, id, MergedFind(ms, id).value, MergedFind(ns, id).value);
    }
  }

  lemma NewestInBoth(ns: seq<Index>, ms: seq<Index>, id: Bytes, x: Info)
    requires (forall f :: f in ms <==> f in ns) && IsNewest(ns, id, x)
    ensures IsNewest(ms, id, x) && exists k :: 0 <= k < |ms| && id in ms[k]
  {
    hide NotOlder;
    var k :| 0 <= k < |ns| && id in ns[k] && ns[k][id] == x;
    assert ns[k] in ms;
    forall j | 0 <= j < |ms| && id in ms[j] ensures NotOlder(x, ms[j][id]) {
      assert ms[j] in ms;
    }
  }

  /** After a successful flush while flushes are enabled, a fresh manager on the same storage
      gives the same answer for every block. */
  lemma FreshManagerAgrees(cfg: Config, s: State, ch: PackChoice, now: int, indexOk: bool, other: State)
    requires cfg.suite.Lawful() && Inv(cfg.suite, s) && LegalPack(cfg, s, ch) && s.disabled <= 0
    requires Flush(cfg, s, ch, now, indexOk).1 && OpenedOn(Flush(cfg, s, ch, now, indexOk).0, other)
    ensures SameAnswers(cfg.suite, s, other)
  {
    hide Flush;
    hide LegalPack;
    hide Suite.Lawful;
    hide MergedFind;
    hide TiesIdentical;
    hide Contents;
    hide CurrentOk;
    hide BuilderOk;
    hide CommittedOk;
    hide BuilderNewer;
    LegalOrder(cfg, s, ch);
    FlushKeeps(cfg, s, ch, now, indexOk);
    var t := Flush(cfg, s, ch, now, indexOk).0;
    forall id ensures GetBlock(cfg.suite, other, id) == GetBlock(cfg.suite, s, id) {
      OrderIrrelevant(t.committed, other.committed, id);
      assert GetBlock(cfg.suite, t, id) == GetBlock(cfg.suite, s, id);
    }
  }

  /** An index file that was stored but could not be added to those in use changes no answer of
      this manager; one that opens the storage gives the same answers; and flushing again leads
      to the very state a flush without the failure leads to. */
  lemma StoredOnlyIsRepaired(c: Suite, s: State, now: int, other: State)
    requires Inv(c, s) && s.current == map[] && s.builder != map[] && s.disabled <= 0
    requires OpenedOn(StoredOnly(s), other)
    ensures SameAnswers(c, s, StoredOnly(s)) && SameAnswers(c, s, other)
    ensures FlushIndexes(StoredOnly(s), now, true) == FlushIndexes(s, now, true)
  {
    hide *;
    InvParts(c, s);
    BuilderEncodes(c, s);
    FlushedSame(s);
    FlushedState(s, now);
    var t := FlushIndexes(s, now, true).0;
    FlushIndexesKeeps(c, s, now, true);
    InvParts(c, t);
    StoredQueries(c, s);
    OpenedSame(c, s, t, other);
    SameAnswersTransitive(c, s, t, other);
  }

  lemma FlushedState(s: State, now: int)
    requires s.disabled <= 0 && s.builder != map[] && EncodeIndex(s.builder).Ok? && s.builder !in s.committed
    ensures FlushIndexes(StoredOnly(s), now, true) == FlushIndexes(s, now, true)
    ensures var t := FlushIndexes(s, now, true).0;
      t.indexes == StoredOnly(s).indexes && t.packs == s.packs && t.builder == map[] && t.current == s.current
  {
    hide EncodeIndex;
    assert StoredOnly(s).indexes + {s.builder} == s.indexes + {s.builder};
  }

  lemma StoredQueries(c: Suite, s: State)
    ensures SameAnswers(c, s, StoredOnly(s))
  {
    hide MergedFind;
    hide Contents;
  }

  lemma OpenedSame(c: Suite, s: State, t: State, other: State)
    requires StorageOk(t) && t.current == map[] && t.builder == map[]
    requires t.indexes == StoredOnly(s).indexes && t.packs == s.packs && OpenedOn(StoredOnly(s), other)
    ensures SameAnswers(c, t, other)
  {
    hide MergedFind;
    hide Contents;
    hide TiesIdentical;
    TiesOf(t);
    forall id ensures GetBlock(c, other, id) == GetBlock(c, t, id) {
      OrderIrrelevant(t.committed, other.committed, id);
    }
  }

  lemma TiesOf(s: State)
    requires StorageOk(s)
    ensures TiesIdentical(s.committed) && forall f :: f in s.indexes <==> f in s.committed
  {
    hide TiesIdentical;
  }

  lemma FlushedSame(s: State)
    requires BuilderNewer(s) && StorageOk(s) && s.builder != map[]
    ensures s.builder !in s.committed
  {
    FlushedTies(s);
  }

  /* ----- when deleting does not delete ----- */

  /** `DeleteBlock` makes the block unreadable exactly when it is not held inline over a live
      committed entry. */
  lemma DeleteRemovesIff(c: Suite, s: State, id: Bytes, now: int64)
    requires Inv(c, s) && After(s, id, now)
    ensures GetBlock(c, DeleteBlock(s, id, now).0, id) == Err(NotFound) <==> !Uncovers(s, id)
  {
    hide Inv;
    hide DeleteBlock;
    hide MergedFind;
    hide GetBlock;
    hide After;
    DeleteKeeps(c, s, id, now);
    if Uncovers(s, id) {
      CommittedReads(c, s, id);
    }
  }

  lemma CommittedReads(c: Suite, s: State, id: Bytes)
    requires Inv(c, s) && MergedFind(s.committed, id).Some? && !MergedFind(s.committed, id).value.deleted
    ensures Contents(c, s.packs, MergedFind(s.committed, id).value).Ok?
  {
    hide KeyOk;
    hide MergedFind;
    hide CurrentOk;
    hide BuilderOk;
    hide BuilderNewer;
    hide StorageOk;
    hide Contents;
    MergedFindIsNewest(s.committed, id);
    var k :| 0 <= k < |s.committed| && id in s.committed[k] && s.committed[k][id] == MergedFind(s.committed, id).value;
    assert IndexOk(c, s.packs, s.committed[k]);
  }

  /** Deleting a committed block, writing it again and deleting it again leaves it readable:
      the second delete forgets the inline copy together with the first tombstone. */
  lemma ReCreatedBlockSurvives(cfg: Config, s: State, prefix: Bytes, data: Bytes,
                               t1: int64, t2: int64, t3: int64, ch: PackChoice, later: int, indexOk: bool)
    requires ValidPrefix(prefix) && s.current == map[] && s.builder == map[]
    requires Tracked(s, cfg.suite.BlockId(prefix, data)) && MergedKeyed(s, cfg.suite.BlockId(prefix, data))
    requires t1 <= t2 && |data| + s.currentLength < cfg.maxPackSize
    requires MergedFind(s.committed, cfg.suite.BlockId(prefix, data)).value.packFile != []
    requires PackOrder(cfg, DeleteBlock(s, cfg.suite.BlockId(prefix, data), t1).0, data, prefix, t2, ch)
    ensures var id := cfg.suite.BlockId(prefix, data);
      var deleted := DeleteBlock(s, id, t1).0;
      var written := WriteBlock(cfg, deleted, data, prefix, t2, ch, later, indexOk);
      && GetBlock(cfg.suite, deleted, id) == Err(NotFound)
      && written.1 == Ok(id)
      && GetBlock(cfg.suite, DeleteBlock(written.0, id, t3).0, id) == GetBlock(cfg.suite, s, id)
  {
    hide MergedFind;
    hide Contents;
    hide FinishPack;
    hide FlushIndexes;
    hide ValidPrefix;
    hide Suite.BlockId;
    var id := cfg.suite.BlockId(prefix, data);
    var tomb := MergedFind(s.committed, id).value.(deleted := true, timestamp := t1);
    var deleted := DeleteBlock(s, id, t1).0;
    assert deleted.builder == map[id := tomb];
    var written := WriteBlock(cfg, deleted, data, prefix, t2, ch, later, indexOk);
    assert written.0.builder == map[id := NewInfo(id, data, t2)];
  }

  predicate MergedKeyed(s: State, id: Bytes) {
    MergedFind(s.committed, id).Some? ==> MergedFind(s.committed, id).value.blockID == id
  }
}
