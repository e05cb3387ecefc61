/** Every pack file carries the repository's format block: opening a repository hands the
    checksummed bytes to the block manager, which starts every pack with them (open.go,
    block_manager.go). */
module FormatInPacks {
  import opened ByteStrings
  import opened BlockInfo
  import opened Crypto
  import opened PackFile
  import opened BlockState
  import opened BlockRuns
  import FormatBlock

  lemma {:induction false} ItemsAfterStart(c: Suite, start: Bytes, packFile: Bytes, items: seq<Info>)
    requires AddItems(c, start, packFile, items).Ok?
    ensures start <= AddItems(c, start, packFile, items).value.data
  {
    if items != [] {
      ItemsAfterStart(c, start, packFile, items[..|items| - 1]);
    }
  }

  /** Whatever the items, sizes and padding: a pack file begins with the given bytes. */
  lemma PackStarts(c: Suite, start: Bytes, packFile: Bytes, items: seq<Info>, unit: nat, random: nat -> Bytes)
    requires PackFileOf(c, start, packFile, items, unit, random).Ok?
    requires PackFileOf(c, start, packFile, items, unit, random).value.Some?
    ensures start <= PackFileOf(c, start, packFile, items, unit, random).value.value.data
  {
    hide AddItems;
    hide EncodeIndex;
    ItemsAfterStart(c, start, packFile, items);
  }

  ghost predicate AllStartWith(packs: map<Bytes, Bytes>, formatBytes: Bytes) {
    forall name :: name in packs ==> formatBytes <= packs[name]
  }

  lemma FinishStarts(cfg: Config, s: State, ch: PackChoice)
    requires OrderOf(ch.order, s.current) && AllStartWith(s.packs, cfg.formatBytes)
    ensures AllStartWith(FinishPack(cfg, s, ch).0.packs, cfg.formatBytes)
  {
    hide PackFileOf;
    var start := cfg.formatBytes + ch.preamble;
    var items := ItemsOf(s.current, ch.order);
    var r := PackFileOf(cfg.suite, start, ch.name, items, cfg.unit, ch.random);
    if r.Ok? && r.value.Some? {
      PackStarts(cfg.suite, start, ch.name, items, cfg.unit, ch.random);
      assert cfg.formatBytes <= start;
    }
  }

  lemma WriteStarts(cfg: Config, s: State, data: Bytes, prefix: Bytes, now: int64, ch: PackChoice, later: int, indexOk: bool)
    requires PackOrder(cfg, s, data, prefix, now, ch) && AllStartWith(s.packs, cfg.formatBytes)
    ensures AllStartWith(WriteBlock(cfg, s, data, prefix, now, ch, later, indexOk).0.packs, cfg.formatBytes)
  {
    hide FinishPack;
    hide AllStartWith;
    hide Tracked;
    hide ValidPrefix;
    hide Suite.BlockId;
    var id := cfg.suite.BlockId(prefix, data);
    var added := Added(s, id, data, now);
    if ValidPrefix(prefix) && !Tracked(s, id) && added.currentLength >= cfg.maxPackSize {
      FinishStarts(cfg, added, ch);
    }
  }

  lemma StepStarts(cfg: Config, s: State, op: Op)
    requires Legal(cfg, s, op) && AllStartWith(s.packs, cfg.formatBytes)
    ensures AllStartWith(Step(cfg, s, op).packs, cfg.formatBytes)
  {
    hide AllStartWith;
    hide FinishPack;
    hide WriteBlock;
    match op {
      case WriteOp(data, prefix, now, ch, later, indexOk) => WriteStarts(cfg, s, data, prefix, now, ch, later, indexOk);
      case FlushOp(ch, now, indexOk) => FinishStarts(cfg, s, ch);
      case DeleteOp(id, now) =>
      case DisableOp =>
      case EnableOp =>
    }
  }

  /** In every state a manager reaches, the format block comes back from each pack file. */
  lemma {:induction false} EveryPackRecoversFormat(cfg: Config, mac: Bytes -> Bytes, fb: Bytes, flushAfter: int, ops: seq<Op>,
                                                   name: Bytes)
    requires FormatBlock.IsChecksum(mac) && FormatBlock.AddChecksumAndLength(mac, fb) == Ok(cfg.formatBytes)
    requires Run(cfg, Fresh(flushAfter), ops).Some? && name in Run(cfg, Fresh(flushAfter), ops).value.packs
    ensures FormatBlock.Recover(mac, Run(cfg, Fresh(flushAfter), ops).value.packs[name]) == Ok(fb)
  {
    hide FormatBlock.Recover;
    RunStarts(cfg, flushAfter, ops);
    var file := Run(cfg, Fresh(flushAfter), ops).value.packs[name];
    var n := |cfg.formatBytes|;
    assert file == cfg.formatBytes + file[n..];
    FormatBlock.RecoverFromPrefix(mac, fb, file[n..]);
  }

  lemma {:induction false} RunStarts(cfg: Config, flushAfter: int, ops: seq<Op>)
    requires Run(cfg, Fresh(flushAfter), ops).Some?
    ensures AllStartWith(Run(cfg, Fresh(flushAfter), ops).value.packs, cfg.formatBytes)
  {
    hide Step;
    hide Legal;
    if ops != [] {
      var n := |ops| - 1;
      RunStarts(cfg, flushAfter, ops[..n]);
      StepStarts(cfg, Run(cfg, Fresh(flushAfter), ops[..n]).value, ops[n]);
    }
  }
}
