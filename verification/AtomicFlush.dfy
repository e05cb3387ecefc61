/** Changes made while index flushes are disabled become visible together: the mechanism
    that makes manifest compaction atomic (manifest_manager.go, block_manager.go). */
module AtomicFlush {
  import opened ByteStrings
  import opened BlockInfo
  import opened Crypto
  import opened MergedIndex
  import opened BlockState
  import opened BlockPacking
  import opened BlockWrites
  import opened BlockRuns

  /** The block an operation may write or delete. */
  function Touches(c: Suite, op: Op): (r: set<Bytes>) {
    match op
    case WriteOp(data, prefix, _, _, _, _) => {c.BlockId(prefix, data)}
    case DeleteOp(id, _) => {id}
    case FlushOp(_, _, _) => {}
    case DisableOp => {}
    case EnableOp => {}
  }

  ghost predicate SameKeys(a: Index, b: Index, ids: set<Bytes>) {
    forall id :: id in ids ==> (id in a <==> id in b)
  }

  ghost predicate NoKeys(a: Index, ids: set<Bytes>) {
    forall id :: id in ids ==> id !in a
  }

  /** No index was written. */
  ghost predicate Quiet(s: State, t: State, ids: set<Bytes>) {
    t.committed == s.committed && t.indexes == s.indexes && SameKeys(t.builder, s.builder, ids)
  }

  /** One index was written, with the builder as it then was, and nothing stays behind. */
  ghost predicate WroteIndex(s: State, t: State, ids: set<Bytes>) {
    && s.disabled <= 0 && t.builder == map[]
    && exists b :: SameKeys(b, s.builder, ids) && t.indexes == s.indexes + {b}
  }

  lemma FlushEffect(c: Suite, s: State, now: int, putOk: bool, ids: set<Bytes>)
    requires Inv(c, s) && s.current == map[]
    ensures var t := FlushIndexes(s, now, putOk).0;
      && (Quiet(s, t, ids) || WroteIndex(s, t, ids)) && PacksGrow(s, t)
  {
    hide Inv;
    hide PackFile.EncodeIndex;
    if s.disabled <= 0 && s.builder != map[] && PackFile.EncodeIndex(s.builder).Ok? && putOk {
      assert SameKeys(s.builder, s.builder, ids);
    }
  }

  /** Quiet changes compose, and may be followed by one index write. */
  lemma Compose(s: State, t: State, u: State, ids: set<Bytes>)
    requires Quiet(s, t, ids) && s.disabled == t.disabled && PacksGrow(s, t) && PacksGrow(t, u)
    requires Quiet(t, u, ids) || WroteIndex(t, u, ids)
    ensures (Quiet(s, u, ids) || WroteIndex(s, u, ids)) && PacksGrow(s, u)
  {
    if WroteIndex(t, u, ids) {
      var b :| SameKeys(b, t.builder, ids) && u.indexes == t.indexes + {b};
      assert SameKeys(b, s.builder, ids);
    }
  }

  lemma FinishEffect(cfg: Config, s: State, ch: PackChoice, ids: set<Bytes>)
    requires cfg.suite.Lawful() && Inv(cfg.suite, s) && LegalPack(cfg, s, ch)
    ensures OrderOf(ch.order, s.current)
    ensures var (t, ok) := FinishPack(cfg, s, ch);
      && Quiet(s, t, ids) && PacksGrow(s, t) && t.disabled == s.disabled
      && Inv(cfg.suite, t) && (ok ==> t.current == map[])
  {
    hide Inv;
    hide FinishPack;
    LegalOrder(cfg, s, ch);
    FinishPackKeeps(cfg, s, ch);
    var t := FinishPack(cfg, s, ch).0;
    forall id ensures id in t.builder <==> id in s.builder {
      assert id in t.builder.Keys <==> id in s.builder.Keys;
    }
  }

  lemma FlushOpEffect(cfg: Config, s: State, ch: PackChoice, now: int, indexOk: bool, ids: set<Bytes>)
    requires cfg.suite.Lawful() && Inv(cfg.suite, s) && LegalPack(cfg, s, ch)
    ensures OrderOf(ch.order, s.current)
    ensures var t := Flush(cfg, s, ch, now, indexOk).0;
      && (Quiet(s, t, ids) || WroteIndex(s, t, ids)) && PacksGrow(s, t)
  {
    hide Inv;
    hide FinishPack;
    hide FlushIndexes;
    hide Quiet;
    hide WroteIndex;
    hide PacksGrow;
    FinishEffect(cfg, s, ch, ids);
    var (t, ok) := FinishPack(cfg, s, ch);
    if ok {
      FlushEffect(cfg.suite, t, now, indexOk, ids);
      Compose(s, t, FlushIndexes(t, now, indexOk).0, ids);
    }
  }

  lemma WriteOpEffect(cfg: Config, s: State, data: Bytes, prefix: Bytes, now: int64, ch: PackChoice, later: int, indexOk: bool,
                      ids: set<Bytes>)
    requires cfg.suite.Lawful() && Inv(cfg.suite, s) && cfg.suite.BlockId(prefix, data) !in ids
    requires LegalWrite(cfg, s, data, prefix, now, ch) && PackOrder(cfg, s, data, prefix, now, ch)
    ensures var t := WriteBlock(cfg, s, data, prefix, now, ch, later, indexOk).0;
      && (Quiet(s, t, ids) || WroteIndex(s, t, ids)) && PacksGrow(s, t)
  {
    hide Suite.Lawful;
    hide Inv;
    hide Tracked;
    hide ValidPrefix;
    hide NotBefore;
    hide LegalPack;
    hide FinishPack;
    hide FlushIndexes;
    hide Added;
    hide Suite.BlockId;
    hide Quiet;
    hide WroteIndex;
    hide PacksGrow;
    var c := cfg.suite;
    var id := c.BlockId(prefix, data);
    NoEffect(s, ids);
    if ValidPrefix(prefix) && !Tracked(s, id) {
      var s1 := Added(s, id, data, now);
      AddedEffect(s, id, data, now, ids);
      if s1.currentLength >= cfg.maxPackSize {
        AddedKeeps(c, s, prefix, data, now);
        FinishEffect(cfg, s1, ch, ids);
        var (s2, ok) := FinishPack(cfg, s1, ch);
        Compose(s, s1, s2, ids);
        if ok && later > s2.flushAfter {
          FlushEffect(c, s2, later, indexOk, ids);
          var s3 := FlushIndexes(s2, later, indexOk).0;
          Compose(s1, s2, s3, ids);
          Compose(s, s1, s3, ids);
        }
      }
    }
  }

  lemma NoEffect(s: State, ids: set<Bytes>)
    ensures Quiet(s, s, ids) && PacksGrow(s, s)
  {
  }

  lemma AddedEffect(s: State, id: Bytes, data: Bytes, now: int64, ids: set<Bytes>)
    requires id !in ids
    ensures var t := Added(s, id, data, now); Quiet(s, t, ids) && PacksGrow(s, t) && t.disabled == s.disabled
  {
  }

  lemma DeleteOpEffect(s: State, id: Bytes, now: int64, ids: set<Bytes>)
    requires id !in ids
    requires forall e :: MergedFind(s.committed, id) == Some(e) ==> e.blockID == id
    requires Keyed(s.builder)
    ensures var t := DeleteBlock(s, id, now).0; Quiet(s, t, ids) && PacksGrow(s, t)
  {
    hide MergedFind;
  }

  lemma FoundKeyed(c: Suite, s: State, id: Bytes)
    requires Inv(c, s)
    ensures Keyed(s.builder)
    ensures forall e :: MergedFind(s.committed, id) == Some(e) ==> e.blockID == id
  {
    hide MergedFind;
    hide KeyOk;
    hide PackedOk;
    hide PendingOk;
    hide BuilderNewer;
    hide StorageOk;
    MergedFindIsNewest(s.committed, id);
    if MergedFind(s.committed, id).Some? {
      var k :| 0 <= k < |s.committed| && id in s.committed[k] && s.committed[k][id] == MergedFind(s.committed, id).value;
      assert IndexOk(c, s.packs, s.committed[k]);
    }
  }

  /** What one operation that stays away from `ids` does to storage and to their answers. */
  lemma StepEffect(cfg: Config, s: State, op: Op, ids: set<Bytes>)
    requires cfg.suite.Lawful() && Good(cfg.suite, s) && Legal(cfg, s, op) && Touches(cfg.suite, op) !! ids
    ensures var t := Step(cfg, s, op);
      && Good(cfg.suite, t) && PacksGrow(s, t) && (Quiet(s, t, ids) || WroteIndex(s, t, ids))
      && (forall id :: id in ids ==> GetBlock(cfg.suite, t, id) == GetBlock(cfg.suite, s, id))
  {
    hide Suite.Lawful;
    hide Inv;
    hide NothingHidden;
    hide GetBlock;
    hide LegalWrite;
    hide PackOrder;
    hide LegalPack;
    hide WriteBlock;
    hide DeleteBlock;
    hide Flush;
    hide HidesLive;
    hide After;
    hide Quiet;
    hide WroteIndex;
    hide PacksGrow;
    hide Suite.BlockId;
    var c := cfg.suite;
    match op
    case WriteOp(data, prefix, now, ch, later, indexOk) =>
      WriteKeeps(cfg, s, data, prefix, now, ch, later, indexOk);
      WriteOpEffect(cfg, s, data, prefix, now, ch, later, indexOk, ids);
    case DeleteOp(id, now) =>
      DeleteKeeps(c, s, id, now);
      FoundKeyed(c, s, id);
      DeleteOpEffect(s, id, now, ids);
    case FlushOp(ch, now, indexOk) =>
      FlushKeeps(cfg, s, ch, now, indexOk);
      FlushOpEffect(cfg, s, ch, now, indexOk, ids);
    case DisableOp => CounterEffect(c, s, s.disabled + 1, ids);
    case EnableOp => CounterEffect(c, s, s.disabled - 1, ids);
  }

  lemma CounterEffect(c: Suite, s: State, n: int, ids: set<Bytes>)
    requires Good(c, s)
    ensures var t := s.(disabled := n);
      Good(c, t) && PacksGrow(s, t) && Quiet(s, t, ids) && forall id :: GetBlock(c, t, id) == GetBlock(c, s, id)
  {
    hide Inv;
    hide NothingHidden;
    SameBlocks(c, s, s.(disabled := n));
  }

  /* ----- while flushes are disabled ----- */

  /** How much a sequence of operations raises the disable counter. */
  function Balance(ops: seq<Op>): (r: int) {
    if ops == [] then 0
    else
      var op := ops[|ops| - 1];
      Balance(ops[..|ops| - 1]) + (if op.DisableOp? then 1 else if op.EnableOp? then -1 else 0)
  }

  /** Every enabling is preceded by its own disabling. */
  ghost predicate StaysDisabled(ops: seq<Op>) {
    forall n :: 0 <= n <= |ops| ==> Balance(ops[..n]) >= 0
  }

  lemma FinishCounter(cfg: Config, s: State, ch: PackChoice)
    requires OrderOf(ch.order, s.current)
    ensures FinishPack(cfg, s, ch).0.disabled == s.disabled
  {
    hide PackFile.PackFileOf;
    hide AddAll;
  }

  lemma FlushCounter(s: State, now: int, putOk: bool)
    ensures FlushIndexes(s, now, putOk).0.disabled == s.disabled
  {
    hide PackFile.EncodeIndex;
  }

  lemma WriteCounter(cfg: Config, s: State, data: Bytes, prefix: Bytes, now: int64, ch: PackChoice, later: int, indexOk: bool)
    requires PackOrder(cfg, s, data, prefix, now, ch)
    ensures WriteBlock(cfg, s, data, prefix, now, ch, later, indexOk).0.disabled == s.disabled
  {
    hide FinishPack;
    hide FlushIndexes;
    hide Tracked;
    hide ValidPrefix;
    hide Suite.BlockId;
    var id := cfg.suite.BlockId(prefix, data);
    if ValidPrefix(prefix) && !Tracked(s, id) {
      var s1 := Added(s, id, data, now);
      if s1.currentLength >= cfg.maxPackSize {
        FinishCounter(cfg, s1, ch);
        FlushCounter(FinishPack(cfg, s1, ch).0, later, indexOk);
      }
    }
  }

  lemma CounterStep(cfg: Config, s: State, op: Op)
    requires Legal(cfg, s, op)
    ensures Step(cfg, s, op).disabled == s.disabled + (if op.DisableOp? then 1 else if op.EnableOp? then -1 else 0)
  {
    hide WriteBlock;
    hide FinishPack;
    hide FlushIndexes;
    hide MergedFind;
    hide LegalWrite;
    hide PackOrder;
    hide PackFile.WithinLimits;
    match op
    case WriteOp(data, prefix, now, ch, later, indexOk) =>
      WriteCounter(cfg, s, data, prefix, now, ch, later, indexOk);
    case DeleteOp(id, now) =>
    case FlushOp(ch, later, indexOk) =>
      FinishCounter(cfg, s, ch);
      FlushCounter(FinishPack(cfg, s, ch).0, later, indexOk);
    case DisableOp =>
    case EnableOp =>
  }

  /** No index file is written while the counter is positive, whatever packs fill up. */
  lemma {:induction false} NothingWrittenWhileDisabled(cfg: Config, s: State, ops: seq<Op>, t: State)
    requires cfg.suite.Lawful() && Good(cfg.suite, s) && s.disabled > 0
    requires StaysDisabled(ops) && Run(cfg, s, ops) == Some(t)
    ensures t.committed == s.committed && t.indexes == s.indexes && t.disabled == s.disabled + Balance(ops)
    ensures Good(cfg.suite, t) && PacksGrow(s, t)
  {
    hide Suite.Lawful;
    hide Good;
    hide Legal;
    hide Step;
    if ops != [] {
      var n := |ops| - 1;
      var u := Run(cfg, s, ops[..n]).value;
      assert StaysDisabled(ops[..n]) by {
        forall k | 0 <= k <= n ensures Balance(ops[..n][..k]) >= 0 {
          assert ops[..n][..k] == ops[..k];
        }
      }
      NothingWrittenWhileDisabled(cfg, s, ops[..n], u);
      assert Balance(ops[..n]) >= 0;
      StepEffect(cfg, u, ops[n], {});
      CounterStep(cfg, u, ops[n]);
    }
  }

  /* ----- and afterwards ----- */

  ghost predicate AllOrNone(f: Index, changed: Index, ids: set<Bytes>) {
    SameKeys(f, changed, ids) || NoKeys(f, ids)
  }

  /** Before any index is written storage is as at the start; from the first one on, nothing
      about `ids` is pending and every new index has all of the changes or none. */
  ghost predicate Phase(s0: State, s1: State, ids: set<Bytes>, s: State) {
    || (s.committed == s0.committed && s.indexes == s0.indexes && SameKeys(s.builder, s1.builder, ids))
    || (NoKeys(s.builder, ids) && forall f :: f in s.indexes && f !in s0.indexes ==> AllOrNone(f, s1.builder, ids))
  }

  lemma PhaseStep(s0: State, s1: State, ids: set<Bytes>, s: State, t: State)
    requires Phase(s0, s1, ids, s) && (Quiet(s, t, ids) || WroteIndex(s, t, ids))
    ensures Phase(s0, s1, ids, t)
  {
    if WroteIndex(s, t, ids) {
      var b :| SameKeys(b, s.builder, ids) && t.indexes == s.indexes + {b};
      assert AllOrNone(b, s1.builder, ids);
      forall f | f in t.indexes && f !in s0.indexes ensures AllOrNone(f, s1.builder, ids) {
      }
    }
  }

  lemma {:induction false} PhaseRun(cfg: Config, s0: State, s1: State, ids: set<Bytes>, s: State, ops: seq<Op>, t: State)
    requires cfg.suite.Lawful() && Good(cfg.suite, s) && Phase(s0, s1, ids, s) && Run(cfg, s, ops) == Some(t)
    requires forall k :: 0 <= k < |ops| ==> Touches(cfg.suite, ops[k]) !! ids
    ensures Good(cfg.suite, t) && Phase(s0, s1, ids, t) && PacksGrow(s, t)
    ensures forall id :: id in ids ==> GetBlock(cfg.suite, t, id) == GetBlock(cfg.suite, s, id)
  {
    hide Suite.Lawful;
    hide Good;
    hide Legal;
    hide Step;
    hide Phase;
    hide GetBlock;
    hide Quiet;
    hide WroteIndex;
    hide Touches;
    if ops != [] {
      var n := |ops| - 1;
      var u := Run(cfg, s, ops[..n]).value;
      forall k | 0 <= k < n ensures Touches(cfg.suite, ops[..n][k]) !! ids {
        assert ops[..n][k] == ops[k];
      }
      PhaseRun(cfg, s0, s1, ids, s, ops[..n], u);
      StepEffect(cfg, u, ops[n], ids);
      PhaseStep(s0, s1, ids, u, t);
    }
  }

  /** What a manager that opens the storage of `s` answers. */
  function StorageAnswer(c: Suite, s: State, id: Bytes): (r: Result<Bytes>) {
    match MergedFind(s.committed, id)
    case None => Err(NotFound)
    case Some(e) => if e.deleted then Err(NotFound) else Contents(c, s.packs, e)
  }

  lemma OpenedAnswers(c: Suite, s: State, other: State, id: Bytes)
    requires Inv(c, s) && OpenedOn(s, other)
    ensures GetBlock(c, other, id) == StorageAnswer(c, s, id)
  {
    hide MergedFind;
    hide Contents;
    hide TiesIdentical;
    hide CurrentOk;
    hide BuilderOk;
    hide CommittedOk;
    hide BuilderNewer;
    OrderIrrelevant(s.committed, other.committed, id);
  }

  lemma OldStorageAnswers(c: Suite, s: State, t: State, id: Bytes)
    requires Inv(c, s) && t.committed == s.committed && PacksGrow(s, t)
    ensures StorageAnswer(c, t, id) == StorageAnswer(c, s, id)
  {
    hide MergedFind;
    hide KeyOk;
    hide CurrentOk;
    hide BuilderOk;
    hide BuilderNewer;
    hide StorageOk;
    hide PackFile.ReadEntry;
    MergedFindIsNewest(s.committed, id);
    if MergedFind(s.committed, id).Some? {
      var k :| 0 <= k < |s.committed| && id in s.committed[k] && s.committed[k][id] == MergedFind(s.committed, id).value;
      assert IndexOk(c, s.packs, s.committed[k]);
    }
  }

  lemma UnpendingAnswers(c: Suite, s: State, id: Bytes)
    requires Inv(c, s) && id !in s.builder
    ensures StorageAnswer(c, s, id) == GetBlock(c, s, id)
  {
    hide MergedFind;
    hide Contents;
    hide PendingOk;
    hide BuilderOk;
    hide CommittedOk;
    hide BuilderNewer;
    hide StorageOk;
  }

  lemma PhaseVisible(c: Suite, s0: State, s1: State, ids: set<Bytes>, s2: State)
    requires Inv(c, s0) && Inv(c, s2) && Phase(s0, s1, ids, s2) && PacksGrow(s0, s2)
    requires forall id :: id in ids ==> GetBlock(c, s2, id) == GetBlock(c, s1, id)
    ensures (forall id :: id in ids ==> StorageAnswer(c, s2, id) == StorageAnswer(c, s0, id))
         || (forall id :: id in ids ==> StorageAnswer(c, s2, id) == GetBlock(c, s1, id))
  {
    hide Inv;
    hide GetBlock;
    hide StorageAnswer;
    if s2.committed == s0.committed {
      forall id | id in ids ensures StorageAnswer(c, s2, id) == StorageAnswer(c, s0, id) {
        OldStorageAnswers(c, s0, s2, id);
      }
    } else {
      forall id | id in ids ensures StorageAnswer(c, s2, id) == GetBlock(c, s1, id) {
        UnpendingAnswers(c, s2, id);
      }
    }
  }

  lemma PacksGrowTransitive(s: State, t: State, u: State)
    requires PacksGrow(s, t) && PacksGrow(t, u)
    ensures PacksGrow(s, u)
  {
  }

  /** Let flushes be disabled at `s0`, any operations lead to `s1`, flushes be enabled again
      and operations that stay away from `ids` lead to `s2`. Then no index was written before
      `s1`; every index written since has the changes to all of `ids` or to none of them; and a
      manager that opens the storage sees all of `ids` as they were in storage at `s0`, or all
      of them as they were at `s1`. */
  lemma ChangesAreAtomic(cfg: Config, s0: State, during: seq<Op>, s1: State, after: seq<Op>, s2: State,
                         ids: set<Bytes>, other: State)
    requires cfg.suite.Lawful() && Good(cfg.suite, s0) && s0.disabled >= 0
    requires Run(cfg, s0.(disabled := s0.disabled + 1), during) == Some(s1) && StaysDisabled(during)
    requires Run(cfg, s1.(disabled := s1.disabled - 1), after) == Some(s2)
    requires forall k :: 0 <= k < |after| ==> Touches(cfg.suite, after[k]) !! ids
    requires OpenedOn(s2, other)
    ensures s1.indexes == s0.indexes
    ensures forall f :: f in s2.indexes && f !in s0.indexes ==> AllOrNone(f, s1.builder, ids)
    ensures (forall id :: id in ids ==> GetBlock(cfg.suite, other, id) == StorageAnswer(cfg.suite, s0, id))
         || (forall id :: id in ids ==> GetBlock(cfg.suite, other, id) == GetBlock(cfg.suite, s1, id))
  {
    hide Suite.Lawful;
    hide Run;
    hide Inv;
    hide NothingHidden;
    hide GetBlock;
    hide Touches;
    hide StaysDisabled;
    hide Phase;
    hide StorageAnswer;
    hide OpenedOn;
    var c := cfg.suite;
    var d := s0.(disabled := s0.disabled + 1);
    CounterEffect(c, s0, s0.disabled + 1, ids);
    NothingWrittenWhileDisabled(cfg, d, during, s1);
    var e := s1.(disabled := s1.disabled - 1);
    CounterEffect(c, s1, s1.disabled - 1, ids);
    assert Phase(s0, s1, ids, e) by { PhaseStarts(s0, s1, ids, e); }
    PhaseRun(cfg, s0, s1, ids, e, after, s2);
    PacksGrowTransitive(s0, d, s1);
    PacksGrowTransitive(s0, s1, e);
    PacksGrowTransitive(s0, e, s2);
    PhaseVisible(c, s0, s1, ids, s2);
    forall id ensures GetBlock(c, other, id) == StorageAnswer(c, s2, id) {
      OpenedAnswers(c, s2, other, id);
    }
    PhaseFiles(s0, s1, ids, s2);
  }

  lemma PhaseStarts(s0: State, s1: State, ids: set<Bytes>, e: State)
    requires s1.committed == s0.committed && s1.indexes == s0.indexes
    requires e.committed == s1.committed && e.indexes == s1.indexes && e.builder == s1.builder
    ensures Phase(s0, s1, ids, e)
  {
  }

  lemma PhaseFiles(s0: State, s1: State, ids: set<Bytes>, s: State)
    requires Phase(s0, s1, ids, s)
    ensures forall f :: f in s.indexes && f !in s0.indexes ==> AllOrNone(f, s1.builder, ids)
  {
  }

  /** In terms of the plain map that the manager agrees with: readers see `ids` as they were in
      storage before the changes, or as all the changes together leave them. */
  lemma ReadersSeeAllOrNothing(cfg: Config, s0: State, m0: map<Bytes, Bytes>, during: seq<Op>, s1: State,
                               after: seq<Op>, s2: State, ids: set<Bytes>, other: State)
    requires cfg.suite.Lawful() && Good(cfg.suite, s0) && s0.disabled >= 0 && AgreesWith(cfg.suite, s0, m0)
    requires Run(cfg, s0.(disabled := s0.disabled + 1), during) == Some(s1) && StaysDisabled(during)
    requires Run(cfg, s1.(disabled := s1.disabled - 1), after) == Some(s2)
    requires forall k :: 0 <= k < |after| ==> Touches(cfg.suite, after[k]) !! ids
    requires OpenedOn(s2, other) && forall id :: id in ids ==> KeyOk(id)
    ensures var m1 := MapRun(cfg.suite, m0, during);
      || (forall id :: id in ids ==> GetBlock(cfg.suite, other, id) == StorageAnswer(cfg.suite, s0, id))
      || (forall id :: id in ids ==> GetBlock(cfg.suite, other, id) == if id in m1 then Ok(m1[id]) else Err(NotFound))
  {
    hide Suite.Lawful;
    hide Run;
    hide Good;
    hide GetBlock;
    hide KeyOk;
    hide Touches;
    hide StaysDisabled;
    hide StorageAnswer;
    hide OpenedOn;
    ChangesAreAtomic(cfg, s0, during, s1, after, s2, ids, other);
    CounterEffect(cfg.suite, s0, s0.disabled + 1, ids);
    RunRefines(cfg, s0.(disabled := s0.disabled + 1), m0, during, s1);
  }
}
