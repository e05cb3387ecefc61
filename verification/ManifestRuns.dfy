/** Whole runs of a manifest manager against a plain map from ID to manifest, over a block store
    that forgets, hides and re-creates blocks as the block manager does (manifest_manager.go). */
module ManifestRuns {
  import opened ByteStrings
  import opened BlockStores
  import opened Manifests

  /** One call on the manager, or progress of the block store's pending blocks. */
  datatype Op =
    | PutOp(e: Entry)
    | DeleteOp(id: Bytes, now: int)
    | FlushOp(order: seq<Bytes>, writeOk: bool, how: Settling)
    | ReloadOp(choice: ReloadChoice)
    | CompactOp(order: seq<Bytes>, writeOk: bool, how: Settling, olds: seq<Bytes>)
    | SettleOp(how: Settling)

  ghost predicate LegalCompact(name: seq<Entry> -> Bytes, s: State, order: seq<Bytes>, how: Settling, olds: seq<Bytes>) {
    && CompactOrder(name, s, order, olds) && NoCollision(name, s, Listed(s.pending + s.committed, order))
    && Settled(s) && !CompactRecreates(name, s, order, how)
  }

  /** A clock that moves on, block names without collisions, no compaction, asked for or
      automatic, while something is disputed, and no block written again that was deleted and
      that the index files still have as live. */
  ghost predicate Legal(name: seq<Entry> -> Bytes, s: State, op: Op) {
    match op
    case PutOp(e) => !e.deleted && NewerThanBlocks(s.blocks, e.id, e.modTime)
    case DeleteOp(id, now) => NewerThanBlocks(s.blocks, id, now)
    case FlushOp(order, _, how) =>
      && OrderOf(order, s.pending) && NoCollision(name, s, Listed(s.pending, order))
      && !FlushRecreates(name, s, order, how)
    case ReloadOp(ch) =>
      && ReloadOrder(name, s, ch)
      && (|s.blocks| >= AUTO_COMPACTION_BLOCK_COUNT ==> LegalCompact(name, Load(s, ch.order), ch.all, ch.how, ch.olds))
    case CompactOp(order, _, how, olds) => LegalCompact(name, s, order, how, olds)
    case SettleOp(_) => true
  }

  /** The order parameters fit, whether or not the call is legal. */
  ghost predicate Ordered(name: seq<Entry> -> Bytes, s: State, op: Op) {
    match op
    case PutOp(_) => true
    case DeleteOp(_, _) => true
    case FlushOp(order, _, _) => OrderOf(order, s.pending)
    case ReloadOp(ch) => ReloadOrder(name, s, ch)
    case CompactOp(order, _, _, olds) => CompactOrder(name, s, order, olds)
    case SettleOp(_) => true
  }

  ghost function Step(name: seq<Entry> -> Bytes, s: State, op: Op): State
    requires Ordered(name, s, op)
  {
    match op
    case PutOp(e) => Put(s, e)
    case DeleteOp(id, now) => Delete(s, id, now)
    case FlushOp(order, writeOk, how) => Flush(name, s, order, writeOk, how)
    case ReloadOp(ch) => Reload(name, s, ch)
    case CompactOp(order, writeOk, how, olds) => Compact(name, s, order, writeOk, how, olds).0
    case SettleOp(how) => WithStore(s, Settle(StoreOf(s), how))
  }

  /** The same operations on a plain map from ID to manifest. */
  function MapStep(m: Entries, op: Op): (r: Entries) {
    match op
    case PutOp(e) => m[e.id := e]
    case DeleteOp(id, _) => m - {id}
    case FlushOp(_, _, _) => m
    case ReloadOp(_) => m
    case CompactOp(_, _, _, _) => m
    case SettleOp(_) => m
  }

  ghost predicate AgreesWith(s: State, m: Entries) {
    forall id :: Get(s, id) == if id in m then Some(m[id]) else None
  }

  lemma LegalOrdered(name: seq<Entry> -> Bytes, s: State, op: Op)
    ensures Legal(name, s, op) ==> Ordered(name, s, op)
  {
    hide OrderOf;
    hide ReloadOrder;
    hide CompactOrder;
    hide NewerThanBlocks;
    hide Listed;
  }

  lemma SettleStep(s: State, how: Settling)
    requires Inv(s)
    ensures var t := WithStore(s, Settle(StoreOf(s), how));
      Inv(t) && SameAnswers(s, t)
  {
    hide Consistent;
    hide Plain;
    var t := WithStore(s, Settle(StoreOf(s), how));
    PlainSteps(StoreOf(s), [], [], how);
    assert StoreOf(t) == Settle(StoreOf(s), how);
    SameConsistent(s, t);
  }

  lemma FlushStep(name: seq<Entry> -> Bytes, s: State, order: seq<Bytes>, writeOk: bool, how: Settling)
    requires Inv(s) && Legal(name, s, FlushOp(order, writeOk, how))
    ensures OrderOf(order, s.pending)
    ensures Inv(Flush(name, s, order, writeOk, how)) && SameAnswers(s, Flush(name, s, order, writeOk, how))
  {
    hide Consistent;
    hide Plain;
    hide FlushRecreates;
    hide Listed;
    hide Flush;
    FlushKeeps(name, s, order, writeOk, how);
    FlushPlainIff(name, s, order, writeOk, how);
  }

  lemma LoadInv(s: State, order: seq<Bytes>)
    requires Inv(s) && forall b :: b in order <==> b in s.blocks
    ensures Inv(Load(s, order)) && Load(s, order).blockIDs == s.blocks.Keys
  {
    hide Consistent;
    hide Plain;
    hide MergedBlocks;
    hide DropDeleted;
    LoadKeeps(s, order);
    assert StoreOf(Load(s, order)) == StoreOf(s);
  }

  lemma ReloadStep(name: seq<Entry> -> Bytes, s: State, ch: ReloadChoice)
    requires Inv(s) && Legal(name, s, ReloadOp(ch))
    ensures ReloadOrder(name, s, ch)
    ensures Inv(Reload(name, s, ch)) && SameAnswers(s, Reload(name, s, ch))
  {
    hide Inv;
    hide Load;
    hide Compact;
    hide CompactOrder;
    hide Undisputed;
    hide Listed;
    hide SameAnswers;
    hide CompactRecreates;
    InvConsistent(s);
    LoadInv(s, ch.order);
    assert |s.blocks| == |s.blocks.Keys|;
    ReloadPreservesIff(name, s, ch);
    if |s.blocks| >= AUTO_COMPACTION_BLOCK_COUNT {
      CompactInv(name, Load(s, ch.order), ch.all, ch.writeOk, ch.how, ch.olds);
      SettleStep(Compact(name, Load(s, ch.order), ch.all, ch.writeOk, ch.how, ch.olds).0, ch.flushed);
    }
  }

  lemma InvConsistent(s: State)
    requires Inv(s)
    ensures Consistent(s)
  {
    hide Consistent;
  }

  lemma CompactStep(name: seq<Entry> -> Bytes, s: State, order: seq<Bytes>, writeOk: bool, how: Settling, olds: seq<Bytes>)
    requires Inv(s) && LegalCompact(name, s, order, how, olds)
    ensures Inv(Compact(name, s, order, writeOk, how, olds).0) && SameAnswers(s, Compact(name, s, order, writeOk, how, olds).0)
  {
    hide Inv;
    hide Compact;
    hide CompactOrder;
    hide Undisputed;
    hide Listed;
    hide SameAnswers;
    hide CompactRecreates;
    CompactPreservesIff(name, s, order, writeOk, how, olds);
    CompactInv(name, s, order, writeOk, how, olds);
  }

  lemma EntryStep(s: State, e: Entry)
    requires Inv(s) && NewerThanBlocks(s.blocks, e.id, e.modTime)
    ensures Inv(s.(pending := s.pending[e.id := e]))
  {
    hide Consistent;
    hide Plain;
    hide NewerThanBlocks;
    PendingInv(s, e);
    assert StoreOf(s.(pending := s.pending[e.id := e])) == StoreOf(s);
  }

  lemma PutStep(s: State, e: Entry, m: Entries)
    requires Inv(s) && !e.deleted && NewerThanBlocks(s.blocks, e.id, e.modTime) && AgreesWith(s, m)
    ensures Inv(Put(s, e)) && AgreesWith(Put(s, e), m[e.id := e])
  {
    hide Inv;
    hide NewerThanBlocks;
    EntryStep(s, e);
  }

  lemma DeleteStep(s: State, id: Bytes, now: int, m: Entries)
    requires Inv(s) && NewerThanBlocks(s.blocks, id, now) && AgreesWith(s, m)
    ensures Inv(Delete(s, id, now)) && AgreesWith(Delete(s, id, now), m - {id})
  {
    hide Inv;
    hide NewerThanBlocks;
    EntryStep(s, Entry(id, map[], now, true, []));
  }

  lemma SameAgrees(s: State, t: State, m: Entries)
    requires SameAnswers(s, t) && AgreesWith(s, m)
    ensures AgreesWith(t, m)
  {
    hide Get;
  }

  lemma StepRefines(name: seq<Entry> -> Bytes, s: State, op: Op, m: Entries)
    requires Inv(s) && Legal(name, s, op) && AgreesWith(s, m)
    ensures Ordered(name, s, op)
    ensures Inv(Step(name, s, op)) && AgreesWith(Step(name, s, op), MapStep(m, op))
  {
    hide *;
    LegalOrdered(name, s, op);
    if op.PutOp? || op.DeleteOp? {
      ChangeRefines(name, s, op, m);
    } else {
      QuietStep(name, s, op);
      SameAgrees(s, Step(name, s, op), m);
      QuietMap(m, op);
    }
  }

  lemma ChangeRefines(name: seq<Entry> -> Bytes, s: State, op: Op, m: Entries)
    requires Inv(s) && Legal(name, s, op) && AgreesWith(s, m) && (op.PutOp? || op.DeleteOp?)
    ensures Inv(Step(name, s, op)) && AgreesWith(Step(name, s, op), MapStep(m, op))
  {
    hide Inv;
    hide AgreesWith;
    hide Put;
    hide Delete;
    hide NewerThanBlocks;
    if op.PutOp? {
      PutStep(s, op.e, m);
    } else {
      DeleteStep(s, op.id, op.now, m);
    }
  }

  lemma QuietStep(name: seq<Entry> -> Bytes, s: State, op: Op)
    requires Inv(s) && Legal(name, s, op) && Ordered(name, s, op) && !op.PutOp? && !op.DeleteOp?
    ensures Inv(Step(name, s, op)) && SameAnswers(s, Step(name, s, op))
  {
    hide Inv;
    hide SameAnswers;
    hide Flush;
    hide Reload;
    hide ReloadOrder;
    hide Compact;
    hide LegalCompact;
    hide OrderOf;
    hide CompactOrder;
    hide Listed;
    match op
    case FlushOp(order, writeOk, how) => FlushStep(name, s, order, writeOk, how);
    case ReloadOp(ch) => ReloadStep(name, s, ch);
    case CompactOp(order, writeOk, how, olds) => CompactStep(name, s, order, writeOk, how, olds);
    case SettleOp(how) => SettleStep(s, how);
  }

  lemma QuietMap(m: Entries, op: Op)
    requires !op.PutOp? && !op.DeleteOp?
    ensures MapStep(m, op) == m
  {
  }

  /** A run of calls, each legal. */
  ghost function Run(name: seq<Entry> -> Bytes, s: State, ops: seq<Op>): (r: Option<State>) {
    if ops == [] then Some(s)
    else match Run(name, s, ops[..|ops| - 1])
      case None => None
      case Some(t) =>
        var op := ops[|ops| - 1];
        LegalOrdered(name, t, op);
        if Legal(name, t, op) then Some(Step(name, t, op)) else None
  }

  function MapRun(ops: seq<Op>): (r: Entries) {
    if ops == [] then map[] else MapStep(MapRun(ops[..|ops| - 1]), ops[|ops| - 1])
  }

  /** Every run of puts, deletes, flushes, reloads in any order and settled compactions, with
      failed writes along the way and the block store packing and indexing its blocks at any
      time, agrees with a plain map from ID to manifest. */
  lemma {:induction false} ManifestsAreAMap(name: seq<Entry> -> Bytes, ops: seq<Op>, s: State)
    requires Run(name, EMPTY, ops) == Some(s)
    ensures Inv(s) && AgreesWith(s, MapRun(ops))
  {
    hide Inv;
    hide Legal;
    hide Step;
    hide MapStep;
    if ops == [] {
      EmptyInv();
    } else {
      var n := |ops| - 1;
      var t := Run(name, EMPTY, ops[..n]).value;
      ManifestsAreAMap(name, ops[..n], t);
      StepRefines(name, t, ops[n], MapRun(ops[..n]));
    }
  }

  /** A run of calls, legal or not. */
  ghost function AnyRun(name: seq<Entry> -> Bytes, s: State, ops: seq<Op>): (r: Option<State>) {
    if ops == [] then Some(s)
    else match AnyRun(name, s, ops[..|ops| - 1])
      case None => None
      case Some(t) => if Ordered(name, t, ops[|ops| - 1]) then Some(Step(name, t, ops[|ops| - 1])) else None
  }

  lemma Continue(name: seq<Entry> -> Bytes, ops: seq<Op>, k: nat, s: State, t: State)
    requires k < |ops| && AnyRun(name, EMPTY, ops[..k]) == Some(s)
    requires Ordered(name, s, ops[k]) && Step(name, s, ops[k]) == t
    ensures AnyRun(name, EMPTY, ops[..k + 1]) == Some(t)
  {
    assert ops[..k + 1][..k] == ops[..k];
  }
}
