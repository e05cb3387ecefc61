/** When the block manager writes pack and index files: how full packs are, and how often index files
    are written without a flush (addToPackLocked in block_manager.go). */
module PackPacing {
  import opened ByteStrings
  import opened BlockInfo
  import opened Crypto
  import opened MergedIndex
  import opened PackFile
  import opened BlockState
  import opened BlockPacking
  import opened BlockWrites
  import opened BlockRuns

  /* ----- how much is pending ----- */

  function Weight(e: Info): nat {
    if e.payload.Some? then |e.payload.value| else 0
  }

  /** The bytes of all payloads. */
  ghost function Total(m: Index): nat {
    if m == map[] then 0
    else
      var id :| id in m;
      Weight(m[id]) + Total(m - {id})
  }

  lemma {:induction false} TotalWithout(m: Index, id: Bytes)
    requires id in m
    ensures Total(m) == Weight(m[id]) + Total(m - {id})
    decreases |m|
  {
    hide Weight;
    var first :| first in m && Total(m) == Weight(m[first]) + Total(m - {first});
    if first != id {
      TotalWithout(m - {first}, id);
      TotalWithout(m - {id}, first);
      assert m - {first} - {id} == m - {id} - {first};
    }
  }

  /** The payloads of a pack are those pending, in whatever order. */
  lemma {:induction false} OrderTotal(m: Index, order: seq<Bytes>)
    requires OrderOf(order, m)
    ensures PayloadBytes(ItemsOf(m, order)) == Total(m)
    decreases |order|
  {
    hide Total;
    if order == [] {
      NoTotal(m);
    } else {
      var n := |order| - 1;
      var id := order[n];
      assert order == order[..n] + [id];
      assert id in order;
      TotalWithout(m, id);
      var less := m - {id};
      forall x ensures x in order[..n] <==> x in less {
        assert x in order <==> x in m;
      }
      OrderTotal(less, order[..n]);
      var items := ItemsOf(m, order);
      assert items[..n] == ItemsOf(less, order[..n]);
      assert items[n] == m[id];
    }
  }

  lemma NoTotal(m: Index)
    requires forall id :: id !in m
    ensures m == map[] && Total(m) == 0
  {
  }

  lemma TotalReplaced(m: Index, id: Bytes, e: Info)
    ensures Total(m[id := e]) == Weight(e) + Total(m - {id}) && Total(m - {id}) <= Total(m)
  {
    hide Total;
    hide Weight;
    var n := m[id := e];
    TotalWithout(n, id);
    assert n - {id} == m - {id};
    if id in m {
      TotalWithout(m, id);
    } else {
      assert m - {id} == m;
    }
  }

  /** What is pending was counted. */
  ghost predicate Counted(s: State) {
    Total(s.current) <= s.currentLength
  }

  /** Less than a pack is pending. */
  ghost predicate Fits(cfg: Config, s: State) {
    s.currentLength < cfg.maxPackSize
  }

  lemma AddedCounted(s: State, id: Bytes, data: Bytes, now: int64)
    requires Counted(s)
    ensures Counted(Added(s, id, data, now)) && Added(s, id, data, now).currentLength == s.currentLength + |data|
  {
    hide Total;
    TotalReplaced(s.current, id, NewInfo(id, data, now));
  }

  lemma FinishCounted(cfg: Config, s: State, ch: PackChoice)
    requires OrderOf(ch.order, s.current) && Counted(s)
    ensures var (t, ok) := FinishPack(cfg, s, ch);
      Counted(t) && t.currentLength <= s.currentLength && (ok && s.current != map[] ==> t.currentLength == 0)
  {
    hide PackFileOf;
    hide Total;
    NoTotal(map[]);
  }

  lemma FlushCounted(s: State, now: int, putOk: bool)
    ensures var t := FlushIndexes(s, now, putOk).0; t.current == s.current && t.currentLength == s.currentLength
  {
    hide EncodeIndex;
  }

  /** Nothing that is deleted weighs anything. */
  lemma DeleteCounted(c: Suite, s: State, id: Bytes, now: int64)
    requires Inv(c, s) && Counted(s)
    ensures var t := DeleteBlock(s, id, now).0; Counted(t) && t.currentLength == s.currentLength
  {
    hide Total;
    hide KeyOk;
    hide MergedFind;
    hide Contents;
    hide Identifies;
    hide StorageOk;
    hide BuilderNewer;
    hide CommittedOk;
    if id in s.builder {
      TotalReplaced(s.current, id, s.builder[id].(deleted := true, timestamp := now));
    } else if MergedFind(s.committed, id).Some? {
      CommittedPackedOk(c, s, id);
      var e := MergedFind(s.committed, id).value;
      TotalReplaced(s.current, e.blockID, e.(deleted := true, timestamp := now));
    }
  }

  lemma WriteCounted(cfg: Config, s: State, data: Bytes, prefix: Bytes, now: int64, ch: PackChoice, later: int, indexOk: bool)
    requires cfg.suite.Lawful() && Inv(cfg.suite, s) && Counted(s)
    requires LegalWrite(cfg, s, data, prefix, now, ch) && PackOrder(cfg, s, data, prefix, now, ch)
    ensures var t := WriteBlock(cfg, s, data, prefix, now, ch, later, indexOk).0;
      Counted(t) && (ch.putOk && Fits(cfg, s) && cfg.maxPackSize > 0 ==> Fits(cfg, t))
  {
    hide Suite.Lawful;
    hide Inv;
    hide Tracked;
    hide NotBefore;
    hide LegalPack;
    hide FinishPack;
    hide FlushIndexes;
    hide Added;
    hide Total;
    hide ValidPrefix;
    hide Suite.BlockId;
    var id := cfg.suite.BlockId(prefix, data);
    if ValidPrefix(prefix) && !Tracked(s, id) {
      var t := Added(s, id, data, now);
      AddedCounted(s, id, data, now);
      AddedInv(cfg.suite, s, prefix, data, now);
      if t.currentLength >= cfg.maxPackSize {
        FinishCounted(cfg, t, ch);
        FinishPackKeeps(cfg, t, ch);
        FlushCounted(FinishPack(cfg, t, ch).0, later, indexOk);
        AddedPending(s, id, data, now);
      }
    }
  }

  lemma AddedPending(s: State, id: Bytes, data: Bytes, now: int64)
    ensures id in Added(s, id, data, now).current
  {
  }

  /** The pack that the call would write, if it writes one, is taken by the storage. */
  predicate PackTaken(op: Op) {
    op.WriteOp? ==> op.ch.putOk
  }

  lemma StepCounted(cfg: Config, s: State, op: Op)
    requires cfg.suite.Lawful() && Inv(cfg.suite, s) && Legal(cfg, s, op) && Counted(s)
    ensures Counted(Step(cfg, s, op))
    ensures PackTaken(op) && Fits(cfg, s) && cfg.maxPackSize > 0 ==> Fits(cfg, Step(cfg, s, op))
  {
    hide Suite.Lawful;
    hide Inv;
    hide Total;
    hide FinishPack;
    hide FlushIndexes;
    hide WriteBlock;
    hide DeleteBlock;
    hide LegalWrite;
    hide PackOrder;
    hide WithinLimits;
    hide KeyOk;
    match op
    case WriteOp(data, prefix, now, ch, later, indexOk) => WriteCounted(cfg, s, data, prefix, now, ch, later, indexOk);
    case DeleteOp(id, now) => DeleteCounted(cfg.suite, s, id, now);
    case FlushOp(ch, now, indexOk) =>
      FinishCounted(cfg, s, ch);
      FlushCounted(FinishPack(cfg, s, ch).0, now, indexOk);
    case DisableOp =>
    case EnableOp =>
  }

  /** In every state a manager reaches, what is pending was counted, and is less than a pack as long
      as no pack that was full was refused. */
  lemma {:induction false} PendingFits(cfg: Config, t: int, ops: seq<Op>, s: State)
    requires cfg.suite.Lawful() && Run(cfg, Fresh(t), ops) == Some(s)
    ensures Total(s.current) <= s.currentLength
    ensures cfg.maxPackSize > 0 && (forall op :: op in ops ==> PackTaken(op)) ==> s.currentLength < cfg.maxPackSize
  {
    hide Suite.Lawful;
    hide Total;
    hide Step;
    hide Legal;
    if ops == [] {
      NoTotal(map[]);
    } else {
      var n := |ops| - 1;
      var before := Run(cfg, Fresh(t), ops[..n]).value;
      PendingFits(cfg, t, ops[..n], before);
      ManagerIsAMap(cfg, t, ops[..n], before);
      StepCounted(cfg, before, ops[n]);
      assert ops[n] in ops && forall op :: op in ops[..n] ==> op in ops;
    }
  }

  /** So the payloads of a pack exceed the limit by less than the block that filled it. */
  lemma PackPayloads(cfg: Config, t: int, ops: seq<Op>, s: State, id: Bytes, data: Bytes, now: int64, order: seq<Bytes>)
    requires cfg.suite.Lawful() && cfg.maxPackSize > 0 && Run(cfg, Fresh(t), ops) == Some(s)
    requires forall op :: op in ops ==> PackTaken(op)
    requires OrderOf(order, Added(s, id, data, now).current)
    ensures PayloadBytes(ItemsOf(Added(s, id, data, now).current, order)) < cfg.maxPackSize + |data|
  {
    hide Suite.Lawful;
    hide Total;
    hide Run;
    hide Added;
    PendingFits(cfg, t, ops, s);
    AddedCounted(s, id, data, now);
    OrderTotal(Added(s, id, data, now).current, order);
  }

  /* ----- how often index files are written ----- */

  /** Neither a flush nor later than this. */
  predicate Before(op: Op, time: int) {
    match op
    case WriteOp(_, _, _, _, later, _) => later <= time
    case DeleteOp(_, _) => true
    case FlushOp(_, _, _) => false
    case DisableOp => true
    case EnableOp => true
  }

  lemma QuietStep(cfg: Config, s: State, op: Op, time: int)
    requires Legal(cfg, s, op) && Before(op, time) && time <= s.flushAfter
    ensures var t := Step(cfg, s, op); t.indexes == s.indexes && t.committed == s.committed && t.flushAfter == s.flushAfter
  {
    hide WithinLimits;
    hide KeyOk;
    hide WriteBlock;
    hide DeleteBlock;
    match op
    case WriteOp(data, prefix, now, ch, later, indexOk) => QuietWrite(cfg, s, data, prefix, now, ch, later, indexOk);
    case DeleteOp(id, now) => QuietDelete(s, id, now);
    case DisableOp =>
    case EnableOp =>
  }

  lemma QuietDelete(s: State, id: Bytes, now: int64)
    ensures var t := DeleteBlock(s, id, now).0; t.indexes == s.indexes && t.committed == s.committed && t.flushAfter == s.flushAfter
  {
    hide MergedFind;
    hide AddTo;
  }

  lemma QuietFinish(cfg: Config, s: State, ch: PackChoice)
    requires OrderOf(ch.order, s.current)
    ensures var t := FinishPack(cfg, s, ch).0; t.indexes == s.indexes && t.committed == s.committed && t.flushAfter == s.flushAfter
  {
    hide PackFileOf;
    hide AddAll;
  }

  lemma QuietWrite(cfg: Config, s: State, data: Bytes, prefix: Bytes, now: int64, ch: PackChoice, later: int, indexOk: bool)
    requires PackOrder(cfg, s, data, prefix, now, ch) && later <= s.flushAfter
    ensures var t := WriteBlock(cfg, s, data, prefix, now, ch, later, indexOk).0;
      t.indexes == s.indexes && t.committed == s.committed && t.flushAfter == s.flushAfter
  {
    hide FinishPack;
    hide FlushIndexes;
    hide Tracked;
    hide Suite.BlockId;
    hide AddTo;
    if FillsPack(cfg, s, data, prefix, now) {
      QuietFinish(cfg, Added(s, cfg.suite.BlockId(prefix, data), data, now), ch);
    }
  }

  /** After an index was written, none is written without a flush in the next ten minutes, however
      many packs fill up. */
  lemma {:induction false} NoIndexSoon(cfg: Config, s: State, now: int, ops: seq<Op>, t: State)
    requires s.disabled <= 0 && FlushIndexes(s, now, true).1
    requires Run(cfg, FlushIndexes(s, now, true).0, ops) == Some(t)
    requires forall op :: op in ops ==> Before(op, now + 600)
    ensures var u := FlushIndexes(s, now, true).0;
      t.indexes == u.indexes && t.committed == u.committed && t.flushAfter == u.flushAfter && now + 600 <= t.flushAfter
  {
    hide EncodeIndex;
    hide Step;
    hide Legal;
    if ops != [] {
      var n := |ops| - 1;
      var before := Run(cfg, FlushIndexes(s, now, true).0, ops[..n]).value;
      assert ops[n] in ops && forall op :: op in ops[..n] ==> op in ops;
      NoIndexSoon(cfg, s, now, ops[..n], before);
      QuietStep(cfg, before, ops[n], now + 600);
    }
  }

  /** A block that fills a pack after that time gets everything into an index, unless flushes are
      disabled or storage refuses a file. */
  lemma DueIndexWritten(cfg: Config, s: State, data: Bytes, prefix: Bytes, now: int64, ch: PackChoice, later: int)
    requires cfg.suite.Lawful() && Inv(cfg.suite, s) && s.disabled <= 0 && ch.putOk && later > s.flushAfter
    requires LegalWrite(cfg, s, data, prefix, now, ch) && FillsPack(cfg, s, data, prefix, now)
    ensures PackOrder(cfg, s, data, prefix, now, ch)
    ensures var t := WriteBlock(cfg, s, data, prefix, now, ch, later, true).0; t.current == map[] && t.builder == map[]
  {
    hide Suite.Lawful;
    hide Inv;
    hide Tracked;
    hide NotBefore;
    hide WithinLimits;
    hide FinishPack;
    hide FlushIndexes;
    hide Added;
    hide Suite.BlockId;
    var id := cfg.suite.BlockId(prefix, data);
    var t := Added(s, id, data, now);
    AddedInv(cfg.suite, s, prefix, data, now);
    FinishPackKeeps(cfg, t, ch);
    AddedPace(s, id, data, now);
    FlushIndexesKeeps(cfg.suite, FinishPack(cfg, t, ch).0, later, true);
  }

  lemma AddedPace(s: State, id: Bytes, data: Bytes, now: int64)
    ensures Added(s, id, data, now).flushAfter == s.flushAfter && Added(s, id, data, now).disabled == s.disabled
  {
  }
}
