/** Which pack files count as referenced (FindUnreferencedStorageFiles in block_manager.go). */
module UnreferencedPacks {
  import opened ByteStrings
  import opened BlockInfo
  import opened Crypto
  import opened MergedIndex
  import opened PackFile
  import opened BlockState
  import opened BlockPacking
  import opened BlockWrites
  import opened BlockListing
  import opened PackAssertion

  /** Packs that `findPackBlocksInUse` counts, over `ListBlockInfos("", true)`. */
  ghost predicate InUse(s: State, out: seq<Info>, pack: Bytes) {
    || (exists id :: id in s.builder && !s.builder[id].deleted && s.builder[id].packFile == pack)
    || (exists o :: o in out && NotTombstoned(s, o.blockID) && o.packFile == pack)
  }

  /** The pack from which `GetBlock` would read a block, if it reads from one. */
  function ReadsFrom(s: State, id: Bytes): (r: Option<Bytes>) {
    if Tracked(s, id) && GetBlockInfo(s, id).value.payload.None? then Some(GetBlockInfo(s, id).value.packFile) else None
  }

  /** The pack a readable block is read from is in use. */
  lemma ReadPacksAreInUse(c: Suite, s: State, out: seq<Info>, id: Bytes)
    requires Inv(c, s) && CommittedListing(s, [], out) && ReadsFrom(s, id).Some?
    ensures InUse(s, out, ReadsFrom(s, id).value)
  {
    hide CommittedListing;
    hide MergedFind;
    hide TiesIdentical;
    hide CommittedOk;
    hide BuilderNewer;
    hide PackedOk;
    hide PendingOk;
    hide Reported;
    if id !in s.builder {
      NoEmptyIds(c, s);
      ListingIsFind(s, [], out, id);
      var o := ReportedEntry(out, id);
      assert MergedFind(s.committed, id) == Some(o);
    } else {
      assert s.builder[id].packFile == GetBlockInfo(s, id).value.packFile;
    }
  }

  /** A block that the builder does not have as deleted: it has it in this pack, or the merged index
      files do, live or deleted. */
  ghost predicate Keeps(s: State, id: Bytes, pack: Bytes) {
    && (id in s.builder ==> !s.builder[id].deleted)
    && (|| (id in s.builder && s.builder[id].packFile == pack)
        || (MergedFind(s.committed, id).Some? && MergedFind(s.committed, id).value.packFile == pack))
  }

  ghost predicate Referenced(s: State, pack: Bytes) {
    exists id :: Keeps(s, id, pack)
  }

  /** The packs counted as in use are those that some block keeps. */
  lemma InUseIff(c: Suite, s: State, out: seq<Info>, pack: Bytes)
    requires Inv(c, s) && CommittedListing(s, [], out)
    ensures InUse(s, out, pack) <==> Referenced(s, pack)
  {
    hide CommittedListing;
    hide MergedFind;
    hide TiesIdentical;
    hide CommittedOk;
    hide BuilderNewer;
    hide PackedOk;
    hide PendingOk;
    hide Reported;
    NoEmptyIds(c, s);
    NoEmptyListed(s, [], out);
    if id :| id in s.builder && !s.builder[id].deleted && s.builder[id].packFile == pack {
      assert Keeps(s, id, pack);
    }
    if o :| o in out && NotTombstoned(s, o.blockID) && o.packFile == pack {
      ListingIsFind(s, [], out, o.blockID);
      assert Keeps(s, o.blockID, pack);
    }
    if id :| Keeps(s, id, pack) {
      if !(id in s.builder && s.builder[id].packFile == pack) {
        ListingIsFind(s, [], out, id);
        var o := ReportedEntry(out, id);
        assert NotTombstoned(s, o.blockID);
      }
    }
  }

  /** Deleting a committed block: while the tombstone is not in an index file, its pack is referenced
      only if another block keeps it. */
  lemma DeleteReleases(s: State, id: Bytes, now: int64, pack: Bytes)
    requires Tracked(s, id) && id !in s.builder && id !in s.current
    requires MergedFind(s.committed, id).value.blockID == id
    ensures Referenced(DeleteBlock(s, id, now).0, pack) <==> exists other :: other != id && Keeps(s, other, pack)
  {
    hide MergedFind;
    var t := DeleteBlock(s, id, now).0;
    assert t.committed == s.committed && id in t.builder && t.builder[id].deleted;
    forall other | other != id ensures Keeps(t, other, pack) <==> Keeps(s, other, pack) {}
    if other :| other != id && Keeps(s, other, pack) {
      assert Keeps(t, other, pack);
    }
    if other :| Keeps(t, other, pack) {
      assert other != id && Keeps(s, other, pack);
    }
  }

  /** Once the tombstone is in an index file, the pack is referenced again. */
  lemma FlushedTombstoneKeeps(c: Suite, s: State, id: Bytes, now: int)
    requires Inv(c, s) && s.current == map[] && s.disabled <= 0
    requires id in s.builder && s.builder[id].deleted && FlushIndexes(s, now, true).1
    ensures Referenced(FlushIndexes(s, now, true).0, s.builder[id].packFile)
  {
    hide MergedFind;
    hide EncodeIndex;
    hide Inv;
    assert BuilderNewer(s) && TiesIdentical(s.committed) by { InvNewer(c, s); }
    FlushedFound(s, id);
    FlushedTies(s);
    var t := FlushIndexes(s, now, true).0;
    assert Keeps(t, id, s.builder[id].packFile);
  }

  lemma InvNewer(c: Suite, s: State)
    requires Inv(c, s)
    ensures BuilderNewer(s) && TiesIdentical(s.committed)
  {
    hide BuilderNewer;
    hide TiesIdentical;
    hide CurrentOk;
    hide BuilderOk;
    hide CommittedOk;
  }

  /** A committed block is deleted, with nothing else pending. Its pack is then unreferenced unless
      another block keeps it, and referenced again after the next successful flush. */
  lemma DeletedThenFlushed(cfg: Config, s: State, id: Bytes, now: int64, ch: PackChoice, later: int)
    requires cfg.suite.Lawful() && Inv(cfg.suite, s) && s.current == map[] && s.builder == map[] && s.disabled <= 0
    requires Tracked(s, id) && After(s, id, now) && LegalPack(cfg, DeleteBlock(s, id, now).0, ch)
    ensures var d := DeleteBlock(s, id, now).0;
      var pack := MergedFind(s.committed, id).value.packFile;
      && (Referenced(d, pack) <==> exists other :: other != id && Keeps(s, other, pack))
      && OrderOf(ch.order, d.current) && Flush(cfg, d, ch, later, true).1
      && Referenced(Flush(cfg, d, ch, later, true).0, pack)
  {
    hide Suite.Lawful;
    hide Inv;
    hide MergedFind;
    hide PackFileOf;
    hide WithinLimits;
    hide Contents;
    hide EncodeIndex;
    hide Referenced;
    hide Keeps;
    var c := cfg.suite;
    var e := MergedFind(s.committed, id).value;
    CommittedEntry(c, s, id);
    DeleteReleases(s, id, now, e.packFile);
    DeleteKeeps(c, s, id, now);
    var d := DeleteBlock(s, id, now).0;
    var tomb := e.(deleted := true, timestamp := now);
    assert d.current == map[id := tomb] && d.builder == map[id := tomb];
    NothingToPack(cfg, d, ch);
    FinishPackKeeps(cfg, d, ch);
    var t := FinishPack(cfg, d, ch).0;
    FlushIndexesKeeps(c, t, later, true);
    FlushedTombstoneKeeps(c, t, id, later);
  }
}
