/** Compacting manifests over the block manager (compactLocked in manifest_manager.go): index
    flushes are disabled, the new manifest block is written, the old ones are deleted, and index
    flushes are enabled again. */
module ManifestsInBlocks {
  import opened ByteStrings
  import opened Crypto
  import opened BlockState
  import opened BlockRuns
  import opened AtomicFlush

  /** The letter "m". */
  const MANIFEST_PREFIX: Bytes := [109]

  /** The calls of one compaction on the block manager, between disabling and enabling. */
  ghost predicate CompactionCalls(during: seq<Op>, list: Bytes, olds: seq<Bytes>) {
    && |during| == 1 + |olds|
    && during[0].WriteOp? && during[0].data == list && during[0].prefix == MANIFEST_PREFIX
    && (forall i :: 1 <= i < |during| ==> during[i].DeleteOp? && during[i].id == olds[i - 1])
  }

  lemma ManifestPrefixValid()
    ensures ValidPrefix(MANIFEST_PREFIX)
  {
  }

  /** In the plain map the new block replaces the old ones. */
  lemma {:induction false} MapAfter(c: Suite, m0: map<Bytes, Bytes>, during: seq<Op>, list: Bytes, olds: seq<Bytes>)
    requires CompactionCalls(during, list, olds) && c.BlockId(MANIFEST_PREFIX, list) !in olds
    ensures var id, m := c.BlockId(MANIFEST_PREFIX, list), MapRun(c, m0, during);
      && id in m && m[id] == (if id in m0 then m0[id] else list)
      && (forall o :: o in olds ==> o !in m)
      && (forall other :: other != id && other !in olds ==> (other in m <==> other in m0) && (other in m ==> m[other] == m0[other]))
    decreases |olds|
  {
    hide Suite.BlockId;
    ManifestPrefixValid();
    if olds == [] {
      assert during[..0] == [];
      assert MapRun(c, m0, during[..0]) == m0;
    } else {
      var n := |olds| - 1;
      assert olds == olds[..n] + [olds[n]];
      MapAfter(c, m0, during[..1 + n], list, olds[..n]);
    }
  }

  lemma {:induction false} NeverEnabled(ops: seq<Op>)
    requires forall i :: 0 <= i < |ops| ==> !ops[i].EnableOp?
    ensures StaysDisabled(ops)
  {
    forall n | 0 <= n <= |ops| ensures Balance(ops[..n]) >= 0 {
      NoEnabling(ops[..n]);
    }
  }

  lemma {:induction false} NoEnabling(ops: seq<Op>)
    requires forall i :: 0 <= i < |ops| ==> !ops[i].EnableOp?
    ensures Balance(ops) >= 0
  {
    if ops != [] {
      NoEnabling(ops[..|ops| - 1]);
    }
  }

  /** A manager that opens the storage at any time afterwards, whatever other blocks are written,
      deleted and flushed in between, finds the manifest blocks as they were in storage before
      the compaction, or finds the new block and none of the old ones. */
  lemma CompactionIsAtomic(cfg: Config, s0: State, m0: map<Bytes, Bytes>, list: Bytes, olds: seq<Bytes>,
                           during: seq<Op>, s1: State, after: seq<Op>, s2: State, other: State)
    requires cfg.suite.Lawful() && Good(cfg.suite, s0) && s0.disabled >= 0 && AgreesWith(cfg.suite, s0, m0)
    requires CompactionCalls(during, list, olds) && cfg.suite.BlockId(MANIFEST_PREFIX, list) !in olds
    requires forall o :: o in olds ==> KeyOk(o)
    requires Run(cfg, s0.(disabled := s0.disabled + 1), during) == Some(s1)
    requires Run(cfg, s1.(disabled := s1.disabled - 1), after) == Some(s2)
    requires forall k :: 0 <= k < |after| ==>
      Touches(cfg.suite, after[k]) !! {cfg.suite.BlockId(MANIFEST_PREFIX, list)} + (set o | o in olds)
    requires OpenedOn(s2, other)
    ensures var id := cfg.suite.BlockId(MANIFEST_PREFIX, list);
      || (&& GetBlock(cfg.suite, other, id) == StorageAnswer(cfg.suite, s0, id)
          && forall o :: o in olds ==> GetBlock(cfg.suite, other, o) == StorageAnswer(cfg.suite, s0, o))
      || (&& GetBlock(cfg.suite, other, id) == Ok(if id in m0 then m0[id] else list)
          && forall o :: o in olds ==> GetBlock(cfg.suite, other, o) == Err(NotFound))
  {
    hide Suite.Lawful;
    hide Good;
    hide AgreesWith;
    hide Run;
    hide KeyOk;
    hide GetBlock;
    hide StorageAnswer;
    hide OpenedOn;
    hide Touches;
    hide MapRun;
    hide StaysDisabled;
    hide ValidPrefix;
    hide Suite.BlockId;
    var id := cfg.suite.BlockId(MANIFEST_PREFIX, list);
    var ids := {id} + (set o | o in olds);
    CallsNeverEnable(during, list, olds);
    NeverEnabled(during);
    ManifestPrefixValid();
    WrittenKeyOk(cfg.suite, MANIFEST_PREFIX, list);
    MapAfter(cfg.suite, m0, during, list, olds);
    ReadersSeeAllOrNothing(cfg, s0, m0, during, s1, after, s2, ids, other);
    assert id in ids && forall o :: o in olds ==> o in ids;
  }

  lemma CallsNeverEnable(during: seq<Op>, list: Bytes, olds: seq<Bytes>)
    requires CompactionCalls(during, list, olds)
    ensures forall i :: 0 <= i < |during| ==> !during[i].EnableOp?
  {
  }
}
