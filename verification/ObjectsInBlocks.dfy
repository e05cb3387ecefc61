/** The layers together: objects over the block manager over a storage of packs and indexes. */
module ObjectsInBlocks {
  import opened ByteStrings
  import opened Crypto
  import opened BlockState
  import opened BlockPacking
  import opened BlockRuns
  import opened Objects

  /** The calls write this content under the prefix, and none of them deletes its block or
      writes other content with the same ID. */
  ghost predicate Stores(c: Suite, prefix: Bytes, ops: seq<Op>, content: Bytes) {
    (exists op :: op in ops && Writes(op, prefix, content)) && Spares(c, ops, c.BlockId(prefix, content), content)
  }

  predicate Writes(op: Op, prefix: Bytes, content: Bytes) {
    op.WriteOp? && op.prefix == prefix && op.data == content
  }

  ghost predicate Spares(c: Suite, ops: seq<Op>, id: Bytes, content: Bytes) {
    forall op :: op in ops ==> SparesOp(c, op, id, content)
  }

  predicate SparesOp(c: Suite, op: Op, id: Bytes, content: Bytes) {
    match op
    case WriteOp(data, prefix, _, _, _, _) => c.BlockId(prefix, data) == id ==> data == content
    case DeleteOp(other, _) => other != id
    case FlushOp(_, _, _) => true
    case DisableOp => true
    case EnableOp => true
  }

  lemma {:induction false} MapKeeps(c: Suite, prefix: Bytes, ops: seq<Op>, content: Bytes)
    requires ValidPrefix(prefix) && Spares(c, ops, c.BlockId(prefix, content), content)
    ensures var id, m := c.BlockId(prefix, content), MapRun(c, map[], ops);
      && (id in m ==> m[id] == content)
      && ((exists op :: op in ops && Writes(op, prefix, content)) ==> id in m)
  {
    hide ValidPrefix;
    hide Suite.BlockId;
    if ops != [] {
      var n := |ops| - 1;
      assert ops == ops[..n] + [ops[n]];
      assert SparesOp(c, ops[n], c.BlockId(prefix, content), content);
      MapKeeps(c, prefix, ops[..n], content);
    }
  }

  /** An object whose blocks a manager was given, amid any other writes, deletes, flushes and
      storage failures, is read back byte for byte, by that manager and, once a flush
      succeeded, by any manager that opens the storage afresh. */
  lemma ObjectsSurvive(cfg: Config, r: Repo, prefix: Bytes, t: int, ops: seq<Op>, s: State, data: Bytes, levels: nat, depth: nat,
                       ch: PackChoice, now: int, indexOk: bool, other: State)
    requires cfg.suite.Lawful() && r.Lawful() && ValidPrefix(prefix)
    requires forall d :: r.blockId(d) == cfg.suite.BlockId(prefix, d)
    requires ObjectId(r, data, levels).Some? && InRange(r, data, levels) && depth > levels
    requires Run(cfg, Fresh(t), ops) == Some(s)
    requires forall c :: c in Written(r, data, levels) ==> Stores(cfg.suite, prefix, ops, c)
    requires LegalPack(cfg, s, ch) && s.disabled <= 0
    requires Flush(cfg, s, ch, now, indexOk).1 && OpenedOn(Flush(cfg, s, ch, now, indexOk).0, other)
    ensures var m := MapRun(cfg.suite, map[], ops);
      && AgreesWith(cfg.suite, s, m) && AgreesWith(cfg.suite, other, m)
      && ReadObject(r, m, ObjectId(r, data, levels).value, depth) == Ok(data)
  {
    hide *;
    var m := MapRun(cfg.suite, map[], ops);
    ManagerIsAMap(cfg, t, ops, s);
    GoodIsInv(cfg.suite, s);
    FreshManagerAgrees(cfg, s, ch, now, indexOk, other);
    AgreeTogether(cfg.suite, s, other, m);
    AllHeld(cfg.suite, r, prefix, ops, Written(r, data, levels));
    ReadBack(r, data, levels, m, depth);
  }

  lemma GoodIsInv(c: Suite, s: State)
    requires Good(c, s)
    ensures Inv(c, s)
  {
  }

  lemma AgreeTogether(c: Suite, s: State, t: State, m: map<Bytes, Bytes>)
    requires AgreesWith(c, s, m) && SameAnswers(c, s, t)
    ensures AgreesWith(c, t, m)
  {
    hide GetBlock;
    hide KeyOk;
  }

  lemma AllHeld(c: Suite, r: Repo, prefix: Bytes, ops: seq<Op>, contents: set<Bytes>)
    requires ValidPrefix(prefix) && (forall d :: r.blockId(d) == c.BlockId(prefix, d))
    requires forall d :: d in contents ==> Stores(c, prefix, ops, d)
    ensures HoldsAll(r, MapRun(c, map[], ops), contents)
  {
    hide MapRun;
    hide Suite.BlockId;
    forall d | d in contents
      ensures r.blockId(d) in MapRun(c, map[], ops) && MapRun(c, map[], ops)[r.blockId(d)] == d
    {
      assert Stores(c, prefix, ops, d);
      MapKeeps(c, prefix, ops, d);
    }
  }
}
