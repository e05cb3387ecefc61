/** Finishing a pack and writing the index keep every block readable
    (finishPackLocked and flushPackIndexesLocked in block_manager.go). */
module BlockPacking {
  import opened ByteStrings
  import opened ContentId
  import opened BlockInfo
  import opened Crypto
  import opened IndexFormat
  import opened MergedIndex
  import opened PackFile
  import opened BlockState

  /* ----- finishing a pack ----- */

  /** What the environment may choose for a pack: a new name, each pending block once, random
      bytes of the requested number, and sizes within the index format's limits. */
  ghost predicate LegalPack(cfg: Config, s: State, ch: PackChoice) {
    && OrderOf(ch.order, s.current)
    && ch.name !in s.packs
    && (forall n :: |ch.random(n)| == n)
    && WithinLimits(cfg.formatBytes + ch.preamble, ch.name, ItemsOf(s.current, ch.order), cfg.unit)
  }

  lemma PendingPackable(c: Suite, s: State, order: seq<Bytes>)
    requires CurrentOk(c, s) && OrderOf(order, s.current)
    ensures PackableItems(c, ItemsOf(s.current, order))
  {
    hide Identifies;
    var items := ItemsOf(s.current, order);
    forall i | 0 <= i < |items| ensures items[i].blockID == order[i] && PendingOk(c, items[i]) {
      assert order[i] in order;
    }
  }

  /** Every pending payload has a place in the pack, and nothing else has. */
  lemma PackHolds(cfg: Config, s: State, ch: PackChoice, p: Pack, id: Bytes)
    requires CurrentOk(cfg.suite, s) && OrderOf(ch.order, s.current)
    requires GoodPack(cfg.suite, cfg.formatBytes + ch.preamble, ch.name, ItemsOf(s.current, ch.order), p)
    ensures id in p.index <==> id in s.current && !s.current[id].deleted
    ensures id in p.index ==> Placed(cfg.suite, p, ch.name, s.current[id])
  {
    hide Placed;
    hide Identifies;
    hide Recoverable;
    hide DisjointRanges;
    var items := ItemsOf(s.current, ch.order);
    if id in s.current {
      assert id in ch.order;
      var i :| 0 <= i < |ch.order| && ch.order[i] == id;
      assert items[i] == s.current[id] && PendingOk(cfg.suite, items[i]);
      if !s.current[id].deleted {
        assert HasItem(items, id);
      }
    }
    if id in p.index {
      var i :| 0 <= i < |items| && items[i].blockID == id && items[i].payload.Some?;
      assert ch.order[i] in ch.order;
      assert items[i] == s.current[ch.order[i]];
    }
  }

  /** The builder's new entry for a packed block: same age, and its contents are the payload. */
  lemma PackedEntryReads(c: Suite, p: Pack, name: Bytes, it: Info, packs: map<Bytes, Bytes>)
    requires Placed(c, p, name, it) && PendingOk(c, it)
    requires Representable(p.index[it.blockID]) && p.index[it.blockID].packFile != []
    ensures var e := p.index[it.blockID];
      && e.blockID == it.blockID && e.timestamp == it.timestamp && e.deleted == it.deleted
      && PackedOk(c, packs[name := p.data], e)
      && Contents(c, packs[name := p.data], e) == Ok(it.payload.value)
  {
    hide ReadEntry;
    hide Identifies;
  }

  lemma PackedOkFrame(c: Suite, packs: map<Bytes, Bytes>, name: Bytes, data: Bytes, e: Info)
    requires PackedOk(c, packs, e) && name !in packs
    ensures PackedOk(c, packs[name := data], e)
    ensures !e.deleted ==> Contents(c, packs[name := data], e) == Contents(c, packs, e)
  {
    hide ReadEntry;
  }

  /** What the builder holds after the pack: the place of each packed block, and otherwise
      what it held before; ages and deletion marks do not change. */
  lemma PackedBuilder(cfg: Config, s: State, ch: PackChoice, p: Pack, id: Bytes)
    requires Inv(cfg.suite, s) && OrderOf(ch.order, s.current) && ch.name !in s.packs && AllTimed(s)
    requires GoodPack(cfg.suite, cfg.formatBytes + ch.preamble, ch.name, ItemsOf(s.current, ch.order), p)
    ensures id in AddAll(s.builder, p.index) <==> id in s.builder
    ensures id in s.builder ==>
      var e := AddAll(s.builder, p.index)[id];
      && e.blockID == id && e.timestamp == s.builder[id].timestamp && e.deleted == s.builder[id].deleted
      && PackedOk(cfg.suite, s.packs[ch.name := p.data], e)
      && (!e.deleted ==> Contents(cfg.suite, s.packs[ch.name := p.data], e) == Contents(cfg.suite, s.packs, s.builder[id]))
  {
    hide GoodPack;
    hide KeyOk;
    hide Placed;
    hide Contents;
    hide PendingOk;
    hide PackedOk;
    hide CommittedOk;
    hide StorageOk;
    PackHolds(cfg, s, ch, p, id);
    if id in s.builder {
      if id in p.index {
        PackRecoverable(cfg, s, ch, p);
        RecoverableFits(cfg.suite, p.data, p.index, id);
        PackedEntryReads(cfg.suite, p, ch.name, s.current[id], s.packs);
        PendingContents(cfg.suite, s.packs, s.current[id]);
      } else if id in s.current {
        TombstonePacked(cfg.suite, s.packs[ch.name := p.data], s.current[id]);
      } else {
        PackedOkFrame(cfg.suite, s.packs, ch.name, p.data, s.builder[id]);
      }
    }
  }

  lemma PackRecoverable(cfg: Config, s: State, ch: PackChoice, p: Pack)
    requires OrderOf(ch.order, s.current)
    requires GoodPack(cfg.suite, cfg.formatBytes + ch.preamble, ch.name, ItemsOf(s.current, ch.order), p)
    ensures Recoverable(cfg.suite, p.data, p.index)
  {
    hide Recoverable;
    hide Placed;
    hide DisjointRanges;
    hide HasItem;
  }

  lemma PendingContents(c: Suite, packs: map<Bytes, Bytes>, e: Info)
    requires PendingOk(c, e) && !e.deleted
    ensures Contents(c, packs, e) == Ok(e.payload.value)
  {
  }

  /** Timestamps the index format can hold. */
  predicate Timed(e: Info) {
    0 <= e.timestamp < 0x1_0000_0000_0000
  }

  ghost predicate AllTimed(s: State) {
    forall id :: id in s.current ==> Timed(s.current[id])
  }

  lemma LegalTimes(cfg: Config, s: State, ch: PackChoice)
    requires LegalPack(cfg, s, ch)
    ensures AllTimed(s)
  {
    hide RowOffset;
    hide PayloadBytes;
    forall id | id in s.current ensures Timed(s.current[id]) {
      assert id in ch.order;
      var i :| 0 <= i < |ch.order| && ch.order[i] == id;
      assert ItemsOf(s.current, ch.order)[i] == s.current[id];
    }
  }

  lemma TombstonePacked(c: Suite, packs: map<Bytes, Bytes>, e: Info)
    requires PendingOk(c, e) && e.deleted && Timed(e)
    ensures PackedOk(c, packs, e)
  {
  }

  ghost predicate SameAnswers(c: Suite, s: State, t: State) {
    forall id :: GetBlock(c, t, id) == GetBlock(c, s, id)
  }

  lemma CommittedFrame(c: Suite, s: State, name: Bytes, data: Bytes)
    requires CommittedOk(c, s) && name !in s.packs
    ensures CommittedOk(c, s.(packs := s.packs[name := data]))
  {
    hide PackedOk;
    hide KeyOk;
    forall k, id | 0 <= k < |s.committed| && id in s.committed[k] ensures PackedOk(c, s.packs[name := data], s.committed[k][id]) {
      assert IndexOk(c, s.packs, s.committed[k]);
      PackedOkFrame(c, s.packs, name, data, s.committed[k][id]);
    }
  }

  /** A committed answer reads the same after a new pack was stored. */
  lemma CommittedReadsFrame(c: Suite, s: State, name: Bytes, data: Bytes, id: Bytes)
    requires CommittedOk(c, s) && name !in s.packs
    requires MergedFind(s.committed, id).Some? && !MergedFind(s.committed, id).value.deleted
    ensures Contents(c, s.packs[name := data], MergedFind(s.committed, id).value)
         == Contents(c, s.packs, MergedFind(s.committed, id).value)
  {
    hide PackedOk;
    hide KeyOk;
    hide MergedFind;
    hide Contents;
    MergedFindIsNewest(s.committed, id);
    var e := MergedFind(s.committed, id).value;
    var k :| 0 <= k < |s.committed| && id in s.committed[k] && s.committed[k][id] == e;
    assert IndexOk(c, s.packs, s.committed[k]);
    PackedOkFrame(c, s.packs, name, data, e);
  }

  lemma PackWritten(cfg: Config, s: State, ch: PackChoice, p: Pack)
    requires Inv(cfg.suite, s) && OrderOf(ch.order, s.current) && ch.name !in s.packs && AllTimed(s)
    requires GoodPack(cfg.suite, cfg.formatBytes + ch.preamble, ch.name, ItemsOf(s.current, ch.order), p)
    ensures var t := s.(packs := s.packs[ch.name := p.data], builder := AddAll(s.builder, p.index),
                        current := map[], currentLength := 0);
      Inv(cfg.suite, t) && SameAnswers(cfg.suite, s, t)
  {
    hide GoodPack;
    hide KeyOk;
    hide PackedOk;
    hide CommittedOk;
    hide StorageOk;
    hide AddAll;
    hide MergedFind;
    hide Contents;
    hide PendingOk;
    var c := cfg.suite;
    var t := s.(packs := s.packs[ch.name := p.data], builder := AddAll(s.builder, p.index),
                current := map[], currentLength := 0);
    forall id ensures id in t.builder <==> id in s.builder {
      PackedBuilder(cfg, s, ch, p, id);
    }
    forall id | id in t.builder
      ensures t.builder[id].blockID == id && KeyOk(id) && PackedOk(c, t.packs, t.builder[id])
      ensures forall k :: 0 <= k < |t.committed| && id in t.committed[k] ==> Newer(t.builder[id], t.committed[k][id])
    {
      PackedBuilder(cfg, s, ch, p, id);
    }
    CommittedFrame(c, s, ch.name, p.data);
    CommittedOkSame(c, s.(packs := t.packs), t);
    StorageOkSame(s, t);
    forall id ensures GetBlock(c, t, id) == GetBlock(c, s, id) {
      PackedBuilder(cfg, s, ch, p, id);
      if id !in s.builder {
        if MergedFind(s.committed, id).Some? && !MergedFind(s.committed, id).value.deleted {
          CommittedReadsFrame(c, s, ch.name, p.data, id);
        }
      }
    }
  }

  lemma CommittedOkSame(c: Suite, s: State, t: State)
    requires CommittedOk(c, s) && t.committed == s.committed && t.packs == s.packs
    ensures CommittedOk(c, t)
  {
    hide IndexOk;
  }

  lemma StorageOkSame(s: State, t: State)
    requires StorageOk(s) && t.committed == s.committed && t.indexes == s.indexes
    ensures StorageOk(t)
  {
    hide TiesIdentical;
  }

  lemma OnlyTombstones(c: Suite, s: State)
    requires Inv(c, s) && AllTimed(s) && forall id :: id in s.current ==> s.current[id].deleted
    ensures var t := s.(current := map[], currentLength := 0); Inv(c, t) && SameAnswers(c, s, t)
  {
    hide KeyOk;
    hide PackedOk;
    hide CommittedOk;
    hide StorageOk;
    hide MergedFind;
    hide Contents;
    hide PendingOk;
    var t := s.(current := map[], currentLength := 0);
    forall id | id in t.builder ensures PackedOk(c, t.packs, t.builder[id]) {
      if id in s.current {
        TombstonePacked(c, t.packs, s.current[id]);
      }
    }
    CommittedOkSame(c, s, t);
    StorageOkSame(s, t);
  }

  /** Finishing a pack, whether it succeeds or fails, changes no answer; when it fails nothing
      changes at all, and it can only fail because storage refuses the file. */
  lemma FinishPackKeeps(cfg: Config, s: State, ch: PackChoice)
    requires cfg.suite.Lawful() && Inv(cfg.suite, s) && LegalPack(cfg, s, ch)
    ensures var (t, ok) := FinishPack(cfg, s, ch);
      && Inv(cfg.suite, t) && SameAnswers(cfg.suite, s, t)
      && (ok ==> t.current == map[]) && (!ok ==> t == s && !ch.putOk)
      && t.committed == s.committed && t.indexes == s.indexes
      && t.disabled == s.disabled && t.flushAfter == s.flushAfter
      && t.builder.Keys == s.builder.Keys && PacksGrow(s, t)
  {
    hide Inv;
    hide PackFileOf;
    hide GoodPack;
    hide WithinLimits;
    hide AddAll;
    hide SameAnswers;
    hide AllTimed;
    var c := cfg.suite;
    AnswersThemselves(c, s);
    if s.current != map[] {
      var items := ItemsOf(s.current, ch.order);
      var start := cfg.formatBytes + ch.preamble;
      assert CurrentOk(c, s) by { InvCurrent(c, s); }
      PendingPackable(c, s, ch.order);
      PackCorrect(c, start, ch.name, items, cfg.unit, ch.random);
      var r := PackFileOf(c, start, ch.name, items, cfg.unit, ch.random);
      LegalTimes(cfg, s, ch);
      if r.value.None? {
        AllTombstones(c, s, ch.order);
        OnlyTombstones(c, s);
      } else {
        PackWritten(cfg, s, ch, r.value.value);
        var b := AddAll(s.builder, r.value.value.index);
        forall id ensures id in b <==> id in s.builder {
          PackedBuilder(cfg, s, ch, r.value.value, id);
        }
        assert b.Keys == s.builder.Keys;
      }
    }
  }

  /** Pack files are added, never changed. */
  ghost predicate PacksGrow(s: State, t: State) {
    forall name :: name in s.packs ==> name in t.packs && t.packs[name] == s.packs[name]
  }

  lemma AnswersThemselves(c: Suite, s: State)
    ensures SameAnswers(c, s, s)
  {
    hide GetBlock;
  }

  lemma InvCurrent(c: Suite, s: State)
    requires Inv(c, s)
    ensures CurrentOk(c, s)
  {
  }

  lemma NameOk(start: Bytes, name: Bytes, items: seq<Info>, unit: nat)
    requires WithinLimits(start, name, items, unit)
    ensures name != []
  {
  }

  lemma AllTombstones(c: Suite, s: State, order: seq<Bytes>)
    requires CurrentOk(c, s) && OrderOf(order, s.current)
    requires forall i :: 0 <= i < |ItemsOf(s.current, order)| ==> ItemsOf(s.current, order)[i].payload.None?
    ensures forall id :: id in s.current ==> s.current[id].deleted
  {
    hide Identifies;
    forall id | id in s.current ensures s.current[id].deleted {
      assert id in order;
      var i :| 0 <= i < |order| && order[i] == id;
      assert ItemsOf(s.current, order)[i] == s.current[id];
    }
  }

  /* ----- flushing the index ----- */

  /** Once nothing is pending, the builder can always be written. */
  lemma BuilderEncodes(c: Suite, s: State)
    requires BuilderOk(c, s) && s.current == map[]
    ensures EncodeIndex(s.builder).Ok?
  {
    hide ToKey;
    hide Contents;
    hide Ascending;
    hide FirstError;
    hide Rows;
    hide NamesOf;
    hide ExtraOffset;
    hide HeaderBytes;
    var t := Sorted(s.builder);
    forall i | 0 <= i < |t| ensures |ToKey(t[i].blockID)| == IV_LENGTH + 1 && t[i].packFile != [] && t[i].payload == None {
      assert t[i].blockID in s.builder;
    }
    NoError(t, KeyLength(t));
  }

  /** The committed index answers with the flushed entry, since it is strictly newer. */
  lemma FlushedFound(s: State, id: Bytes)
    requires BuilderNewer(s)
    ensures MergedFind(s.committed + [s.builder], id) ==
      if id in s.builder then Some(s.builder[id]) else MergedFind(s.committed, id)
  {
    hide MergedFind;
    MergedFindAppend(s.committed, s.builder, id);
    MergedFindIsNewest(s.committed, id);
  }

  lemma FlushedTies(s: State)
    requires BuilderNewer(s) && TiesIdentical(s.committed)
    ensures TiesIdentical(s.committed + [s.builder])
    ensures s.builder != map[] ==> s.builder !in s.committed
  {
  }

  lemma FlushWritten(c: Suite, s: State, now: int)
    requires Inv(c, s) && s.current == map[] && s.builder != map[]
    ensures var t := s.(indexes := s.indexes + {s.builder}, committed := s.committed + [s.builder],
                        builder := map[], flushAfter := now + FLUSH_TIMEOUT);
      Inv(c, t) && SameAnswers(c, s, t)
  {
    hide KeyOk;
    hide PackedOk;
    hide TiesIdentical;
    hide MergedFind;
    hide Contents;
    hide Newer;
    var t := s.(indexes := s.indexes + {s.builder}, committed := s.committed + [s.builder],
                builder := map[], flushAfter := now + FLUSH_TIMEOUT);
    FlushedTies(s);
    forall f ensures f in t.indexes <==> f in t.committed {}
    forall k | 0 <= k < |t.committed| ensures IndexOk(c, t.packs, t.committed[k]) {
      if k < |s.committed| {
        assert IndexOk(c, s.packs, s.committed[k]);
      }
    }
    forall id ensures GetBlock(c, t, id) == GetBlock(c, s, id) {
      FlushedFound(s, id);
    }
  }

  /** Flushing the index, whether it succeeds or fails, changes no answer. It does nothing
      while flushes are disabled; otherwise success leaves nothing unwritten, and it can
      only fail because storage refuses the file. */
  lemma FlushIndexesKeeps(c: Suite, s: State, now: int, putOk: bool)
    requires Inv(c, s) && s.current == map[]
    ensures var (t, ok) := FlushIndexes(s, now, putOk);
      && Inv(c, t) && SameAnswers(c, s, t)
      && (!ok ==> t == s && !putOk)
      && (s.disabled > 0 ==> t == s && ok)
      && (s.disabled <= 0 && ok ==> t.builder == map[])
      && t.current == map[] && t.packs == s.packs && t.disabled == s.disabled
  {
    hide EncodeIndex;
    hide SameAnswers;
    AnswersThemselves(c, s);
    BuilderEncodes(c, s);
    if s.disabled <= 0 && s.builder == map[] {
      SameBlocks(c, s, s.(flushAfter := now + FLUSH_TIMEOUT));
    } else if s.disabled <= 0 && putOk {
      FlushedTies(s);
      FlushWritten(c, s, now);
    }
  }

  /** The counter and the flush time do not enter the invariant or the answers. */
  lemma SameBlocks(c: Suite, s: State, t: State)
    requires t == s.(disabled := t.disabled, flushAfter := t.flushAfter)
    requires Inv(c, s)
    ensures Inv(c, t) && SameAnswers(c, s, t) && (NothingHidden(s) ==> NothingHidden(t))
  {
    hide *;
    SameFields(s, t);
    assert CurrentOk(c, s) && BuilderOk(c, s) && CommittedOk(c, s) && BuilderNewer(s) && StorageOk(s) by { InvParts(c, s); }
    SamePending(c, s, t);
    CommittedOkSame(c, s, t);
    StorageOkSame(s, t);
    SameQueries(c, s, t);
    PartsInv(c, t);
  }

  lemma SameFields(s: State, t: State)
    requires t == s.(disabled := t.disabled, flushAfter := t.flushAfter)
    ensures t.current == s.current && t.builder == s.builder && t.committed == s.committed
    ensures t.packs == s.packs && t.indexes == s.indexes
  {
  }

  lemma InvParts(c: Suite, s: State)
    requires Inv(c, s)
    ensures CurrentOk(c, s) && BuilderOk(c, s) && CommittedOk(c, s) && BuilderNewer(s) && StorageOk(s)
  {
    hide CurrentOk;
    hide BuilderOk;
    hide CommittedOk;
    hide BuilderNewer;
    hide StorageOk;
  }

  lemma PartsInv(c: Suite, s: State)
    requires CurrentOk(c, s) && BuilderOk(c, s) && CommittedOk(c, s) && BuilderNewer(s) && StorageOk(s)
    ensures Inv(c, s)
  {
    hide CurrentOk;
    hide BuilderOk;
    hide CommittedOk;
    hide BuilderNewer;
    hide StorageOk;
  }

  lemma SamePending(c: Suite, s: State, t: State)
    requires t.current == s.current && t.builder == s.builder && t.committed == s.committed && t.packs == s.packs
    requires CurrentOk(c, s) && BuilderOk(c, s) && BuilderNewer(s)
    ensures CurrentOk(c, t) && BuilderOk(c, t) && BuilderNewer(t)
  {
    hide PendingOk;
    hide PackedOk;
    hide KeyOk;
    hide Newer;
  }

  lemma SameQueries(c: Suite, s: State, t: State)
    requires t.current == s.current && t.builder == s.builder && t.committed == s.committed && t.packs == s.packs
    ensures SameAnswers(c, s, t) && (NothingHidden(s) ==> NothingHidden(t))
  {
    hide MergedFind;
    hide Contents;
  }
}
