/** Writing, deleting and flushing blocks (WriteBlock, DeleteBlock and Flush in
    block_manager.go). */
module BlockWrites {
  import opened ByteStrings
  import opened ContentId
  import opened BlockInfo
  import opened Crypto
  import opened IndexFormat
  import opened MergedIndex
  import opened PackFile
  import opened BlockState
  import opened BlockPacking

  /* ----- writing ----- */

  /** The clock does not run backwards for this block. */
  ghost predicate NotBefore(s: State, id: Bytes, now: int) {
    && (id in s.builder ==> s.builder[id].timestamp <= now)
    && (forall k :: 0 <= k < |s.committed| && id in s.committed[k] ==> s.committed[k][id].timestamp <= now)
  }

  /** A pending tombstone for this block hides a live committed entry. Writing the block
      again in this state is the re-creation that `DeleteBlock` forbids. */
  predicate HidesLive(s: State, id: Bytes) {
    && id in s.builder && s.builder[id].deleted
    && MergedFind(s.committed, id).Some? && !MergedFind(s.committed, id).value.deleted
  }

  /** A block written when it is absent or deleted is newer than anything known of it. */
  lemma WrittenIsNewer(s: State, id: Bytes, data: Bytes, now: int64, k: nat)
    requires BuilderNewer(s) && NotBefore(s, id, now) && CurrentInBuilder(s) && !Tracked(s, id)
    requires k < |s.committed| && id in s.committed[k]
    ensures Newer(NewInfo(id, data, now), s.committed[k][id])
  {
    hide MergedFind;
    MergedFindIsNewest(s.committed, id);
    var y := s.committed[k][id];
    if !y.deleted {
      if id in s.builder {
        assert Newer(s.builder[id], y);
      } else {
        assert NotOlder(MergedFind(s.committed, id).value, y);
        assert MergedFind(s.committed, id).value.deleted;
        var j :| 0 <= j < |s.committed| && id in s.committed[j] && s.committed[j][id] == MergedFind(s.committed, id).value;
      }
    }
  }

  ghost predicate CurrentInBuilder(s: State) {
    forall id :: id in s.current ==> id in s.builder && s.builder[id] == s.current[id]
  }

  /** A new pending entry that is newer than all that is known of its block. */
  ghost predicate Supersedes(s: State, e: Info) {
    && (e.blockID in s.builder ==> s.builder[e.blockID].timestamp <= e.timestamp)
    && (forall k :: 0 <= k < |s.committed| && e.blockID in s.committed[k] ==> Newer(e, s.committed[k][e.blockID]))
  }

  lemma SetPendingInv(c: Suite, s: State, e: Info, length: nat)
    requires Inv(c, s) && PendingOk(c, e) && KeyOk(e.blockID) && Supersedes(s, e)
    ensures Inv(c, SetPending(s.(currentLength := length), e))
  {
    hide PackedOk;
    hide TiesIdentical;
    hide Newer;
    hide KeyOk;
    hide IndexOk;
    hide PendingOk;
    var t := SetPending(s.(currentLength := length), e);
    assert t.builder == s.builder[e.blockID := e];
    CommittedOkSame(c, s, t);
    StorageOkSame(s, t);
  }

  lemma SetPendingAnswers(c: Suite, s: State, e: Info, length: nat)
    requires e.blockID in s.builder ==> s.builder[e.blockID].timestamp <= e.timestamp
    ensures var t := SetPending(s.(currentLength := length), e);
      && GetBlockInfo(t, e.blockID) == Some(e)
      && (forall other :: other != e.blockID ==> GetBlockInfo(t, other) == GetBlockInfo(s, other))
      && t.packs == s.packs && t.committed == s.committed
  {
    hide MergedFind;
  }

  lemma SetPendingHides(s: State, e: Info, length: nat)
    requires NothingHidden(s)
    requires e.deleted || MergedFind(s.committed, e.blockID).None? || MergedFind(s.committed, e.blockID).value.deleted
    ensures NothingHidden(SetPending(s.(currentLength := length), e))
  {
    hide MergedFind;
  }

  lemma WriteSupersedes(c: Suite, s: State, id: Bytes, data: Bytes, now: int64)
    requires Inv(c, s) && !Tracked(s, id) && NotBefore(s, id, now)
    ensures Supersedes(s, NewInfo(id, data, now))
  {
    hide Inv;
    hide Tracked;
    hide Newer;
    InvBuilder(c, s);
    forall k | 0 <= k < |s.committed| && id in s.committed[k] ensures Newer(NewInfo(id, data, now), s.committed[k][id]) {
      WrittenIsNewer(s, id, data, now, k);
    }
  }

  lemma AddedInv(c: Suite, s: State, prefix: Bytes, data: Bytes, now: int64)
    requires c.Lawful() && Inv(c, s) && ValidPrefix(prefix)
    requires !Tracked(s, c.BlockId(prefix, data)) && NotBefore(s, c.BlockId(prefix, data), now)
    ensures Inv(c, Added(s, c.BlockId(prefix, data), data, now))
  {
    hide *;
    var id := c.BlockId(prefix, data);
    BlockIdIdentifies(c, prefix, data);
    IvOfId(c, id, data);
    WriteSupersedes(c, s, id, data, now);
    AddedIs(c, s, id, data, now);
    WriteInv(c, s, NewInfo(id, data, now), data);
  }

  lemma AddedIs(c: Suite, s: State, id: Bytes, data: Bytes, now: int64)
    requires Canonical(id) && |ToKey(id)| == IV_LENGTH + 1
    ensures Added(s, id, data, now) == SetPending(s.(currentLength := s.currentLength + |data|), NewInfo(id, data, now))
    ensures KeyOk(id)
    ensures var e := NewInfo(id, data, now);
      e.blockID == id && !e.deleted && e.payload == Some(data) && e.packFile == [] && e.length == |data| % TWO32
  {
    hide SetPending;
    hide ToKey;
    hide Canonical;
  }

  lemma AddedAnswers(c: Suite, s: State, id: Bytes, data: Bytes, now: int64)
    requires NotBefore(s, id, now) && CurrentInBuilder(s)
    ensures var t := Added(s, id, data, now);
      && GetBlock(c, t, id) == Ok(data)
      && (forall other :: other != id ==> GetBlock(c, t, other) == GetBlock(c, s, other))
      && (NothingHidden(s) && !HidesLive(s, id) && !Tracked(s, id) ==> NothingHidden(t))
  {
    hide SetPending;
    hide GetBlockInfo;
    hide MergedFind;
    hide NothingHidden;
    var e := NewInfo(id, data, now);
    SetPendingAnswers(c, s, e, s.currentLength + |data|);
    if NothingHidden(s) && !HidesLive(s, id) && !Tracked(s, id) {
      CommittedNotLive(s, id);
      SetPendingHides(s, e, s.currentLength + |data|);
    }
  }

  lemma CommittedNotLive(s: State, id: Bytes)
    requires CurrentInBuilder(s) && !HidesLive(s, id) && !Tracked(s, id)
    ensures MergedFind(s.committed, id).None? || MergedFind(s.committed, id).value.deleted
  {
    hide MergedFind;
  }

  /** Adding a block to the pending ones binds its ID to its bytes and changes nothing else. */
  lemma AddedKeeps(c: Suite, s: State, prefix: Bytes, data: Bytes, now: int64)
    requires c.Lawful() && Inv(c, s) && ValidPrefix(prefix)
    requires !Tracked(s, c.BlockId(prefix, data)) && NotBefore(s, c.BlockId(prefix, data), now)
    ensures var id := c.BlockId(prefix, data);
      var t := Added(s, id, data, now);
      && Inv(c, t) && GetBlock(c, t, id) == Ok(data)
      && (forall other :: other != id ==> GetBlock(c, t, other) == GetBlock(c, s, other))
      && (NothingHidden(s) && !HidesLive(s, id) ==> NothingHidden(t))
  {
    hide *;
    AddedInv(c, s, prefix, data, now);
    InvBuilder(c, s);
    AddedAnswers(c, s, c.BlockId(prefix, data), data, now);
  }

  lemma InvBuilder(c: Suite, s: State)
    requires Inv(c, s)
    ensures CurrentInBuilder(s) && BuilderNewer(s)
  {
    hide BuilderNewer;
    hide PendingOk;
    hide CommittedOk;
    hide StorageOk;
    hide BuilderOk;
  }

  lemma WriteInv(c: Suite, s: State, e: Info, data: Bytes)
    requires Inv(c, s) && KeyOk(e.blockID) && Supersedes(s, e)
    requires !e.deleted && e.payload == Some(data) && e.packFile == [] && Identifies(c, e.blockID, data)
    requires e.length == |data| % TWO32
    ensures Inv(c, SetPending(s.(currentLength := s.currentLength + |data|), e))
  {
    hide *;
    assert PendingOk(c, e) by { LivePending(c, e); }
    SetPendingInv(c, s, e, s.currentLength + |data|);
  }

  lemma LivePending(c: Suite, e: Info)
    requires !e.deleted && e.payload.Some? && e.packFile == [] && Identifies(c, e.blockID, e.payload.value)
    requires e.length == |e.payload.value| % TWO32
    ensures PendingOk(c, e)
  {
  }

  /** A clock that does not run backwards, and a legal pack if this write fills one. */
  ghost predicate LegalWrite(cfg: Config, s: State, data: Bytes, prefix: Bytes, now: int64, ch: PackChoice) {
    && NotBefore(s, cfg.suite.BlockId(prefix, data), now)
    && (FillsPack(cfg, s, data, prefix, now) ==>
          LegalPack(cfg, Added(s, cfg.suite.BlockId(prefix, data), data, now), ch))
  }

  lemma NothingPendingHidesNothing(s: State)
    requires s.current == map[]
    ensures NothingHidden(s)
  {
  }

  /** Finishing a pack and then perhaps flushing the index keeps everything. */
  lemma FinishAndFlushKeeps(cfg: Config, s: State, ch: PackChoice, later: int, indexOk: bool)
    requires cfg.suite.Lawful() && Inv(cfg.suite, s) && LegalPack(cfg, s, ch)
    ensures var (s2, ok) := FinishPack(cfg, s, ch);
      var t := if ok && later > s2.flushAfter then FlushIndexes(s2, later, indexOk).0 else s2;
      && Inv(cfg.suite, t) && SameAnswers(cfg.suite, s, t) && (NothingHidden(s) ==> NothingHidden(t))
  {
    hide *;
    LegalOrder(cfg, s, ch);
    FinishPackKeeps(cfg, s, ch);
    var (s2, ok) := FinishPack(cfg, s, ch);
    if ok {
      NothingPendingHidesNothing(s2);
      if later > s2.flushAfter {
        FlushIndexesKeeps(cfg.suite, s2, later, indexOk);
        var t := FlushIndexes(s2, later, indexOk).0;
        NothingPendingHidesNothing(t);
        SameAnswersTransitive(cfg.suite, s, s2, t);
      }
    }
  }

  lemma LegalOrder(cfg: Config, s: State, ch: PackChoice)
    requires LegalPack(cfg, s, ch)
    ensures OrderOf(ch.order, s.current)
  {
  }

  lemma SameAnswersTransitive(c: Suite, s: State, t: State, u: State)
    requires SameAnswers(c, s, t) && SameAnswers(c, t, u)
    ensures SameAnswers(c, s, u)
  {
    hide GetBlock;
  }

  /** After `WriteBlock` of a block that was not there, its ID reads as its bytes, even when
      storage refuses the pack or the index; no other answer changes. Writing a block that
      is there, or under an invalid prefix, changes nothing. */
  lemma WriteKeeps(cfg: Config, s: State, data: Bytes, prefix: Bytes, now: int64, ch: PackChoice, later: int, indexOk: bool)
    requires cfg.suite.Lawful() && Inv(cfg.suite, s)
    requires LegalWrite(cfg, s, data, prefix, now, ch) && PackOrder(cfg, s, data, prefix, now, ch)
    ensures var c := cfg.suite;
      var id := c.BlockId(prefix, data);
      var t := WriteBlock(cfg, s, data, prefix, now, ch, later, indexOk).0;
      && Inv(c, t)
      && GetBlock(c, t, id) == (if ValidPrefix(prefix) && !Tracked(s, id) then Ok(data) else GetBlock(c, s, id))
      && (forall other :: other != id ==> GetBlock(c, t, other) == GetBlock(c, s, other))
      && (NothingHidden(s) && !HidesLive(s, id) ==> NothingHidden(t))
  {
    hide Suite.Lawful;
    hide Inv;
    hide GetBlock;
    hide Tracked;
    hide ValidPrefix;
    hide NothingHidden;
    hide HidesLive;
    hide NotBefore;
    hide LegalPack;
    hide FinishPack;
    hide FlushIndexes;
    hide Added;
    hide Suite.BlockId;
    var c := cfg.suite;
    var id := c.BlockId(prefix, data);
    if ValidPrefix(prefix) && !Tracked(s, id) {
      AddedKeeps(c, s, prefix, data, now);
      var s1 := Added(s, id, data, now);
      if s1.currentLength >= cfg.maxPackSize {
        FinishAndFlushKeeps(cfg, s1, ch, later, indexOk);
      }
    }
  }

  /* ----- deleting ----- */

  /** A tombstone must be strictly newer than the entry it hides. */
  predicate After(s: State, id: Bytes, now: int) {
    Tracked(s, id) ==> GetBlockInfo(s, id).value.timestamp < now
  }

  /** The block is held inline, and beneath it lies a live committed entry. */
  predicate Uncovers(s: State, id: Bytes) {
    && id in s.builder && !s.builder[id].deleted && s.builder[id].packFile == []
    && MergedFind(s.committed, id).Some? && !MergedFind(s.committed, id).value.deleted
  }

  lemma ForgetKeeps(c: Suite, s: State, id: Bytes)
    requires Inv(c, s) && id in s.builder
    ensures var t := s.(builder := s.builder - {id}, current := s.current - {id});
      && Inv(c, t) && GetBlockInfo(t, id) == MergedFind(s.committed, id)
      && (forall other :: other != id ==> GetBlockInfo(t, other) == GetBlockInfo(s, other))
      && (NothingHidden(s) ==> NothingHidden(t))
  {
    hide PackedOk;
    hide TiesIdentical;
    hide Newer;
    hide KeyOk;
    hide IndexOk;
    hide PendingOk;
    hide MergedFind;
    var t := s.(builder := s.builder - {id}, current := s.current - {id});
    CommittedOkSame(c, s, t);
    StorageOkSame(s, t);
  }

  /** The entry a tombstone is made from. */
  lemma TombstoneOk(c: Suite, s: State, id: Bytes, now: int64)
    requires Inv(c, s) && Tracked(s, id) && After(s, id, now)
    requires id in s.builder ==> s.builder[id].packFile != []
    ensures var e := GetBlockInfo(s, id).value.(deleted := true, timestamp := now);
      e.blockID == id && PendingOk(c, e) && KeyOk(id) && Supersedes(s, e)
  {
    hide KeyOk;
    hide MergedFind;
    hide TiesIdentical;
    hide Contents;
    hide Identifies;
    MergedFindIsNewest(s.committed, id);
    var bi := GetBlockInfo(s, id).value;
    if id in s.builder {
      forall k | 0 <= k < |s.committed| && id in s.committed[k] ensures s.committed[k][id].timestamp < now {
        assert Newer(s.builder[id], s.committed[k][id]);
      }
    } else {
      var k :| 0 <= k < |s.committed| && id in s.committed[k] && s.committed[k][id] == bi;
      assert IndexOk(c, s.packs, s.committed[k]);
    }
  }

  /** `DeleteBlock` removes the block and nothing else, except when the block is held inline
      over a live committed entry: then that entry is what remains. */
  lemma DeleteKeeps(c: Suite, s: State, id: Bytes, now: int64)
    requires Inv(c, s) && After(s, id, now)
    ensures var t := DeleteBlock(s, id, now).0;
      && Inv(c, t)
      && GetBlock(c, t, id) == (if Uncovers(s, id) then Contents(c, s.packs, MergedFind(s.committed, id).value) else Err(NotFound))
      && (forall other :: other != id ==> GetBlock(c, t, other) == GetBlock(c, s, other))
      && (NothingHidden(s) ==> NothingHidden(t))
    ensures DeleteBlock(s, id, now).1 == if GetBlockInfo(s, id).None? then Err(NotFound) else Ok(())
  {
    hide Inv;
    hide MergedFind;
    hide Contents;
    hide NothingHidden;
    assert CurrentInBuilder(s) by { InvBuilder(c, s); }
    if Tracked(s, id) && (id in s.builder ==> s.builder[id].packFile != []) {
      hide *;
      TombstoneStep(c, s, id, now);
    } else if Tracked(s, id) {
      ForgetKeeps(c, s, id);
    }
  }

  lemma TombstoneStep(c: Suite, s: State, id: Bytes, now: int64)
    requires Inv(c, s) && Tracked(s, id) && After(s, id, now)
    requires id in s.builder ==> s.builder[id].packFile != []
    ensures var t := DeleteBlock(s, id, now).0;
      && Inv(c, t) && GetBlock(c, t, id) == Err(NotFound)
      && (forall other :: other != id ==> GetBlock(c, t, other) == GetBlock(c, s, other))
      && (NothingHidden(s) ==> NothingHidden(t))
    ensures DeleteBlock(s, id, now).1 == Ok(()) && GetBlockInfo(s, id).Some? && !Uncovers(s, id)
  {
    hide Inv;
    hide MergedFind;
    hide Contents;
    hide PendingOk;
    hide KeyOk;
    hide Supersedes;
    hide NothingHidden;
    assert CurrentInBuilder(s) by { InvBuilder(c, s); }
    var e := GetBlockInfo(s, id).value.(deleted := true, timestamp := now);
    TombstoneOk(c, s, id, now);
    SetPendingInv(c, s, e, s.currentLength);
    SetPendingAnswers(c, s, e, s.currentLength);
    if NothingHidden(s) {
      SetPendingHides(s, e, s.currentLength);
    }
    assert s.(currentLength := s.currentLength) == s;
  }

  /* ----- flushing ----- */

  /** A flush changes no answer, whether it succeeds, fails at the pack or fails at the index;
      a successful one while flushes are enabled leaves nothing pending and nothing unwritten. */
  lemma FlushKeeps(cfg: Config, s: State, ch: PackChoice, now: int, indexOk: bool)
    requires cfg.suite.Lawful() && Inv(cfg.suite, s) && LegalPack(cfg, s, ch)
    ensures var (t, ok) := Flush(cfg, s, ch, now, indexOk);
      && Inv(cfg.suite, t) && SameAnswers(cfg.suite, s, t) && (NothingHidden(s) ==> NothingHidden(t))
      && (ok && s.disabled <= 0 ==> t.current == map[] && t.builder == map[])
      && (ch.putOk && indexOk ==> ok)
  {
    hide Inv;
    hide SameAnswers;
    hide NothingHidden;
    hide FinishPack;
    hide FlushIndexes;
    LegalOrder(cfg, s, ch);
    FinishPackKeeps(cfg, s, ch);
    var (t, ok) := FinishPack(cfg, s, ch);
    if ok {
      NothingPendingHidesNothing(t);
      FlushIndexesKeeps(cfg.suite, t, now, indexOk);
      var u := FlushIndexes(t, now, indexOk).0;
      NothingPendingHidesNothing(u);
      SameAnswersTransitive(cfg.suite, s, t, u);
    }
  }

  /* ----- what a write answers ----- */

  /** The write fills the pack, and the pack is refused, or an index flush is due, is not disabled
      and is refused. */
  ghost predicate Refused(cfg: Config, s: State, data: Bytes, prefix: Bytes, ch: PackChoice, later: int, indexOk: bool) {
    && ValidPrefix(prefix) && !Tracked(s, prefix + HexEncode(cfg.suite.hash(data)))
    && s.currentLength + |data| >= cfg.maxPackSize
    && (!ch.putOk || (later > s.flushAfter && s.disabled <= 0 && !indexOk))
  }

  /** A write answers with the prefix and the hash of the contents, under which the contents can be
      read from then on, whether or not the block was there already. It fails exactly if the prefix
      is not valid or storage refuses a file. */
  lemma WriteAnswers(cfg: Config, s: State, data: Bytes, prefix: Bytes, now: int64, ch: PackChoice, later: int, indexOk: bool)
    requires cfg.suite.Lawful() && Inv(cfg.suite, s)
    requires LegalWrite(cfg, s, data, prefix, now, ch) && PackOrder(cfg, s, data, prefix, now, ch)
    ensures var (t, r) := WriteBlock(cfg, s, data, prefix, now, ch, later, indexOk);
      var id := prefix + HexEncode(cfg.suite.hash(data));
      && (r == Err(InvalidPrefix) <==> !ValidPrefix(prefix))
      && (r == Err(StorageFailure) <==> Refused(cfg, s, data, prefix, ch, later, indexOk))
      && (r.Err? ==> r.error == InvalidPrefix || r.error == StorageFailure)
      && (r.Ok? ==> r.value == id && GetBlock(cfg.suite, t, r.value).Ok?)
      && (ValidPrefix(prefix) && Tracked(s, id) ==> r.Ok? && t == s)
  {
    hide *;
    var id := cfg.suite.BlockId(prefix, data);
    WriteCases(cfg, s, data, prefix, now, ch, later, indexOk);
    WriteKeeps(cfg, s, data, prefix, now, ch, later, indexOk);
    TrackedReads(cfg.suite, s, id);
    IdIs(cfg.suite, prefix, data);
    if FillsPack(cfg, s, data, prefix, now) {
      FillsPackIs(cfg, s, data, prefix, now, ch);
      AddedInv(cfg.suite, s, prefix, data, now);
      AddAnswers(cfg, Added(s, id, data, now), ch, later, indexOk, id);
    }
    RefusedIff(cfg, s, data, prefix, now, ch, later, indexOk);
  }

  lemma IdIs(c: Suite, prefix: Bytes, data: Bytes)
    ensures c.BlockId(prefix, data) == prefix + HexEncode(c.hash(data))
  {
  }

  /** The four ways a write can go. */
  lemma WriteCases(cfg: Config, s: State, data: Bytes, prefix: Bytes, now: int64, ch: PackChoice, later: int, indexOk: bool)
    requires PackOrder(cfg, s, data, prefix, now, ch)
    ensures var (t, r) := WriteBlock(cfg, s, data, prefix, now, ch, later, indexOk);
      var id := cfg.suite.BlockId(prefix, data);
      && (!ValidPrefix(prefix) ==> r == Err(InvalidPrefix))
      && (ValidPrefix(prefix) && Tracked(s, id) ==> r == Ok(id) && t == s)
      && (ValidPrefix(prefix) && !Tracked(s, id) && !FillsPack(cfg, s, data, prefix, now) ==> r == Ok(id))
      && (FillsPack(cfg, s, data, prefix, now) ==>
            && OrderOf(ch.order, Added(s, id, data, now).current)
            && r == if Packs(cfg, Added(s, id, data, now), ch, later, indexOk) then Ok(id) else Err(StorageFailure))
  {
    hide FinishPack;
    hide FlushIndexes;
    hide Tracked;
    hide Suite.BlockId;
  }

  /** The pack is finished and the index is flushed if it is time. */
  ghost predicate Packs(cfg: Config, s: State, ch: PackChoice, later: int, indexOk: bool)
    requires OrderOf(ch.order, s.current)
  {
    && FinishPack(cfg, s, ch).1
    && (later > FinishPack(cfg, s, ch).0.flushAfter ==> FlushIndexes(FinishPack(cfg, s, ch).0, later, indexOk).1)
  }

  lemma FillsPackIs(cfg: Config, s: State, data: Bytes, prefix: Bytes, now: int64, ch: PackChoice)
    requires FillsPack(cfg, s, data, prefix, now) && LegalWrite(cfg, s, data, prefix, now, ch)
    ensures var id := cfg.suite.BlockId(prefix, data);
      var t := Added(s, id, data, now);
      && ValidPrefix(prefix) && !Tracked(s, id) && NotBefore(s, id, now) && LegalPack(cfg, t, ch)
      && id in t.current && !t.current[id].deleted && t.flushAfter == s.flushAfter && t.disabled == s.disabled
  {
    hide LegalPack;
    hide Tracked;
    hide NotBefore;
  }

  /** A pack with a live block is finished if and only if storage takes it. */
  lemma AddAnswers(cfg: Config, s: State, ch: PackChoice, later: int, indexOk: bool, id: Bytes)
    requires cfg.suite.Lawful() && Inv(cfg.suite, s) && LegalPack(cfg, s, ch)
    requires id in s.current && !s.current[id].deleted
    ensures OrderOf(ch.order, s.current)
    ensures Packs(cfg, s, ch, later, indexOk) <==> ch.putOk && !(later > s.flushAfter && s.disabled <= 0 && !indexOk)
  {
    hide *;
    LegalOrder(cfg, s, ch);
    FinishPackKeeps(cfg, s, ch);
    FinishesOnlyIfPut(cfg, s, ch, id);
    var t := FinishPack(cfg, s, ch).0;
    if FinishPack(cfg, s, ch).1 {
      FlushIndexesKeeps(cfg.suite, t, later, indexOk);
      FlushFails(t, later, indexOk);
      assert id in s.builder by { CurrentBuilt(cfg.suite, s, id); }
      assert id in t.builder.Keys;
    }
    PacksIs(cfg, s, ch, later, indexOk);
  }

  lemma PacksIs(cfg: Config, s: State, ch: PackChoice, later: int, indexOk: bool)
    requires OrderOf(ch.order, s.current)
    ensures Packs(cfg, s, ch, later, indexOk) <==>
      && FinishPack(cfg, s, ch).1
      && (later > FinishPack(cfg, s, ch).0.flushAfter ==> FlushIndexes(FinishPack(cfg, s, ch).0, later, indexOk).1)
  {
    hide FinishPack;
    hide FlushIndexes;
  }

  lemma CurrentBuilt(c: Suite, s: State, id: Bytes)
    requires Inv(c, s) && id in s.current
    ensures id in s.builder
  {
    InvBuilder(c, s);
    hide Inv;
  }

  lemma FlushFails(s: State, now: int, putOk: bool)
    ensures s.builder != map[] && s.disabled <= 0 && !putOk ==> !FlushIndexes(s, now, putOk).1
  {
    hide EncodeIndex;
  }

  lemma FinishesOnlyIfPut(cfg: Config, s: State, ch: PackChoice, id: Bytes)
    requires cfg.suite.Lawful() && Inv(cfg.suite, s) && LegalPack(cfg, s, ch)
    requires id in s.current && !s.current[id].deleted
    ensures OrderOf(ch.order, s.current) && (FinishPack(cfg, s, ch).1 ==> ch.putOk)
  {
    hide Inv;
    hide PackFileOf;
    hide GoodPack;
    hide WithinLimits;
    hide CurrentOk;
    hide PackableItems;
    hide Suite.Lawful;
    var c := cfg.suite;
    var items := ItemsOf(s.current, ch.order);
    InvCurrent(c, s);
    PendingPackable(c, s, ch.order);
    PackCorrect(c, cfg.formatBytes + ch.preamble, ch.name, items, cfg.unit, ch.random);
    if forall i :: 0 <= i < |items| ==> items[i].payload.None? {
      AllTombstones(c, s, ch.order);
    }
  }

  lemma RefusedIff(cfg: Config, s: State, data: Bytes, prefix: Bytes, now: int64, ch: PackChoice, later: int, indexOk: bool)
    ensures Refused(cfg, s, data, prefix, ch, later, indexOk) <==>
      FillsPack(cfg, s, data, prefix, now) && (!ch.putOk || (later > s.flushAfter && s.disabled <= 0 && !indexOk))
  {
    hide Tracked;
  }

  /** In a valid state a block is tracked exactly when it can be read. */
  lemma TrackedReads(c: Suite, s: State, id: Bytes)
    requires Inv(c, s)
    ensures Tracked(s, id) <==> GetBlock(c, s, id) != Err(NotFound)
    ensures Tracked(s, id) <==> GetBlock(c, s, id).Ok?
  {
    hide KeyOk;
    hide MergedFind;
    hide TiesIdentical;
    hide ReadEntry;
    hide Identifies;
    hide Newer;
    MergedFindIsNewest(s.committed, id);
    if id !in s.builder && MergedFind(s.committed, id).Some? {
      var k :| 0 <= k < |s.committed| && id in s.committed[k] && s.committed[k][id] == MergedFind(s.committed, id).value;
      assert IndexOk(c, s.packs, s.committed[k]);
    }
  }

  /** The length that `BlockInfo` reports is that of the contents, cut to 32 bits while they are
      pending; contents in packs are shorter than that. */
  lemma InfoLength(c: Suite, s: State, id: Bytes)
    requires Inv(c, s) && Tracked(s, id)
    ensures GetBlock(c, s, id).Ok?
    ensures var e := GetBlockInfo(s, id).value;
      e.length == |GetBlock(c, s, id).value| % TWO32 && (e.payload.None? ==> e.length == |GetBlock(c, s, id).value|)
  {
    hide KeyOk;
    hide MergedFind;
    hide CommittedOk;
    hide StorageOk;
    hide BuilderNewer;
    hide ReadEntry;
    hide Identifies;
    if id !in s.builder {
      CommittedPackedOk(c, s, id);
    }
  }

  lemma CommittedPackedOk(c: Suite, s: State, id: Bytes)
    requires Inv(c, s) && MergedFind(s.committed, id).Some?
    ensures PackedOk(c, s.packs, MergedFind(s.committed, id).value)
  {
    hide KeyOk;
    hide MergedFind;
    hide PackedOk;
    hide StorageOk;
    hide BuilderNewer;
    MergedFindIsNewest(s.committed, id);
    var k :| 0 <= k < |s.committed| && id in s.committed[k] && s.committed[k][id] == MergedFind(s.committed, id).value;
    assert IndexOk(c, s.packs, s.committed[k]);
  }
}
