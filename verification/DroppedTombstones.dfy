/** What compaction does to readers when it drops old tombstones (block_manager_compaction.go). */
module DroppedTombstones {
  import opened ByteStrings
  import opened ContentId
  import opened BlockInfo
  import opened Crypto
  import opened MergedIndex
  import opened CommittedIndex
  import opened IndexCompaction

  /** The entry is in none of these files. */
  ghost predicate NotHeld(rest: seq<Index>, id: Bytes, e: Info) {
    forall k :: 0 <= k < |rest| ==> !(id in rest[k] && rest[k][id] == e)
  }

  /** The newest entry for `id` is a tombstone that is dropped and that no other file holds. */
  ghost predicate Lost(rest: seq<Index>, sources: seq<Index>, cutoff: Option<int>, id: Bytes) {
    var before := MergedFind(rest + sources, id);
    before.Some? && Dropped(before.value, cutoff) && NotHeld(rest, id, before.value)
  }

  /** Every entry of the sources is an old tombstone. */
  ghost predicate AllDropped(sources: seq<Index>, cutoff: Option<int>) {
    forall k, id :: 0 <= k < |sources| && id in sources[k] ==> Dropped(sources[k][id], cutoff)
  }

  /** What the merged file changes, as long as it has entries. */
  lemma DroppingMerges(rest: seq<Index>, sources: seq<Index>, cutoff: Option<int>, id: Bytes)
    requires TiesAt(rest + sources, id)
    ensures MergedFind(rest + [Compacted(KeptAll(sources, cutoff))], id) ==
      if Lost(rest, sources, cutoff, id) then MergedFind(rest + KeptAll(sources, cutoff), id)
      else MergedFind(rest + sources, id)
  {
    hide MergedFind;
    hide Compacted;
    hide Dropped;
    hide KeptAll;
    var kept := KeptAll(sources, cutoff);
    KeptTies(rest, sources, cutoff, id);
    CompactedReadsSame(rest, kept, id);
    MergedFindIsNewest(rest + sources, id);
    MergedFindIsNewest(rest + kept, id);
    var before := MergedFind(rest + sources, id);
    if before.None? {
      NothingKept(rest, sources, cutoff, id);
    } else if !Lost(rest, sources, cutoff, id) {
      StillThere(rest, sources, cutoff, id, before.value);
      FindIsNewest(rest + kept, id, before.value);
    }
  }

  /** What is left are entries that were there. */
  lemma KeptThere(rest: seq<Index>, sources: seq<Index>, cutoff: Option<int>, id: Bytes, k: nat)
    requires k < |rest| + |sources|
    ensures |rest + KeptAll(sources, cutoff)| == |rest + sources|
    ensures var was, now := (rest + sources)[k], (rest + KeptAll(sources, cutoff))[k];
      && (id in now ==> id in was && now[id] == was[id])
      && (id in was && (k < |rest| || !Dropped(was[id], cutoff)) ==> id in now)
  {
  }

  lemma KeptTies(rest: seq<Index>, sources: seq<Index>, cutoff: Option<int>, id: Bytes)
    requires TiesAt(rest + sources, id)
    ensures TiesAt(rest + KeptAll(sources, cutoff), id)
  {
    hide KeptAll;
    var was: seq<Index>, now: seq<Index> := rest + sources, rest + KeptAll(sources, cutoff);
    forall j, k | 0 <= j < |now| && 0 <= k < |now| && id in now[j] && id in now[k] && now[j][id].timestamp == now[k][id].timestamp
      ensures now[j][id] == now[k][id]
    {
      KeptLength(sources, cutoff);
      KeptThere(rest, sources, cutoff, id, j);
      KeptThere(rest, sources, cutoff, id, k);
    }
  }

  lemma KeptLength(sources: seq<Index>, cutoff: Option<int>)
    ensures |KeptAll(sources, cutoff)| == |sources|
  {
  }

  lemma NothingKept(rest: seq<Index>, sources: seq<Index>, cutoff: Option<int>, id: Bytes)
    requires forall k :: 0 <= k < |rest + sources| ==> id !in (rest + sources)[k]
    ensures forall k :: 0 <= k < |rest + KeptAll(sources, cutoff)| ==> id !in (rest + KeptAll(sources, cutoff))[k]
  {
    hide KeptAll;
    KeptLength(sources, cutoff);
    forall k | 0 <= k < |rest| + |sources| ensures id !in (rest + KeptAll(sources, cutoff))[k] {
      KeptThere(rest, sources, cutoff, id, k);
      assert id !in (rest + sources)[k];
    }
  }

  lemma StillThere(rest: seq<Index>, sources: seq<Index>, cutoff: Option<int>, id: Bytes, e: Info)
    requires IsNewest(rest + sources, id, e) && !(Dropped(e, cutoff) && NotHeld(rest, id, e))
    ensures NewestOf(rest + KeptAll(sources, cutoff), id, e)
  {
    hide KeptAll;
    hide Dropped;
    KeptLength(sources, cutoff);
    var was: seq<Index>, now: seq<Index> := rest + sources, rest + KeptAll(sources, cutoff);
    forall k | 0 <= k < |now| && id in now[k] ensures now[k][id].timestamp <= e.timestamp {
      KeptThere(rest, sources, cutoff, id, k);
      assert NotOlder(e, was[k][id]);
    }
    if Dropped(e, cutoff) {
      var k :| 0 <= k < |rest| && id in rest[k] && rest[k][id] == e;
      assert now[k] == rest[k];
    } else {
      var k :| 0 <= k < |was| && id in was[k] && was[k][id] == e;
      KeptThere(rest, sources, cutoff, id, k);
    }
  }

  lemma MergedEmptyIff(sources: seq<Index>, cutoff: Option<int>)
    ensures Compacted(KeptAll(sources, cutoff)) == map[] <==> AllDropped(sources, cutoff)
  {
    hide Compacted;
    hide Dropped;
    var kept := KeptAll(sources, cutoff);
    var c := Compacted(kept);
    forall id ensures id in c <==> exists k :: 0 <= k < |kept| && id in kept[k] {
      CompactedIsNewest(kept, id);
    }
    if c != map[] {
      var id :| id in c;
      var k :| 0 <= k < |kept| && id in kept[k];
      assert id in sources[k];
    } else {
      forall k, id | 0 <= k < |sources| && id in sources[k] ensures Dropped(sources[k][id], cutoff) {
        assert id !in c;
        assert id !in kept[k];
      }
    }
  }

  lemma MergedIsOfBlocks(sources: seq<Index>, cutoff: Option<int>)
    requires AllOfBlocks(sources)
    ensures OfBlocks(Compacted(KeptAll(sources, cutoff)))
  {
    hide Compacted;
    hide Dropped;
    hide KeyOk;
    var kept := KeptAll(sources, cutoff);
    var c := Compacted(kept);
    forall id | id in c ensures c[id].blockID == id && KeyOk(id) {
      CompactedFrom(kept, id);
      var k :| 0 <= k < |kept| && id in kept[k] && kept[k][id] == c[id];
      assert OfBlocks(sources[k]);
    }
  }

  /** What a compaction that drops old tombstones does to the lookups of block IDs, `rest` being
      the other files, with the sources that could not be deleted. If every entry of the sources
      is dropped, the merged file is empty and no lookup succeeds any more. Otherwise only an ID
      whose newest entry is lost can change; it then gets the newest entry that is left. So a
      deleted block becomes live again exactly when that entry is live. An empty file from an
      earlier compaction goes away when it is merged with files that have something to keep. */
  lemma DroppingUncovers(rest: seq<Index>, sources: seq<Index>, cutoff: Option<int>, id: Bytes)
    requires AllOfBlocks(rest) && AllOfBlocks(sources) && KeyOk(id) && TiesAt(rest + sources, id)
    ensures var merged := Compacted(KeptAll(sources, cutoff));
      && AllKeyed(rest + sources) && AllKeyed(rest + [merged])
      && (merged == map[] <==> AllDropped(sources, cutoff))
      && var before := CommittedLookup(rest + sources, id);
      var after := CommittedLookup(rest + [merged], id);
      var found := MergedFind(rest + sources, id);
      var left := MergedFind(rest + KeptAll(sources, cutoff), id);
      && before == (if HasEmpty(rest + sources) then Err(InvalidBlockId) else Ok(found))
      && after == (if HasEmpty(rest) || AllDropped(sources, cutoff) then Err(InvalidBlockId)
                   else Ok(if Lost(rest, sources, cutoff, id) then left else found))
      && (Deleted(before) && Live(after) <==>
            && !HasEmpty(rest + sources) && !AllDropped(sources, cutoff)
            && Lost(rest, sources, cutoff, id) && Live(Ok(left)))
  {
    hide *;
    var merged := Compacted(KeptAll(sources, cutoff));
    BothOfBlocks(rest, sources);
    ExactLookup(rest + sources, id);
    MergedEmptyIff(sources, cutoff);
    MergedIsOfBlocks(sources, cutoff);
    OneOfBlocks(merged);
    BothOfBlocks(rest, [merged]);
    ExactLookup(rest + [merged], id);
    EmptyWithMerged(rest, sources, merged);
    LostIsDeleted(rest, sources, cutoff, id);
    DroppingMerges(rest, sources, cutoff, id);
    Outcomes(CommittedLookup(rest + sources, id), CommittedLookup(rest + [merged], id));
  }

  ghost predicate Deleted(r: Result<Option<Info>>) {
    r.Ok? && r.value.Some? && r.value.value.deleted
  }

  ghost predicate Live(r: Result<Option<Info>>) {
    r.Ok? && r.value.Some? && !r.value.value.deleted
  }

  lemma Outcomes(before: Result<Option<Info>>, after: Result<Option<Info>>)
    ensures Deleted(before) && Live(after) ==> before != after && before.Ok? && after.Ok?
  {
  }

  lemma LostIsDeleted(rest: seq<Index>, sources: seq<Index>, cutoff: Option<int>, id: Bytes)
    ensures Lost(rest, sources, cutoff, id) ==> Deleted(Ok(MergedFind(rest + sources, id)))
  {
    hide MergedFind;
  }

  lemma BothOfBlocks(a: seq<Index>, b: seq<Index>)
    requires AllOfBlocks(a) && AllOfBlocks(b)
    ensures AllOfBlocks(a + b)
  {
    hide OfBlocks;
  }

  lemma OneOfBlocks(b: Index)
    requires OfBlocks(b)
    ensures AllOfBlocks([b])
  {
    hide OfBlocks;
  }

  lemma EmptyWithMerged(rest: seq<Index>, sources: seq<Index>, merged: Index)
    ensures HasEmpty(rest + [merged]) <==> HasEmpty(rest) || merged == map[]
    ensures HasEmpty(rest) ==> HasEmpty(rest + sources)
  {
    if k :| 0 <= k < |rest| && rest[k] == map[] {
      assert (rest + sources)[k] == rest[k] && (rest + [merged])[k] == rest[k];
    }
    assert (rest + [merged])[|rest|] == merged;
  }

  /** A block is deleted, and its tombstone is compacted away, with other entries kept, while the
      file with the live entry is too large to take part: the block is back. */
  lemma DroppedTombstoneBringsBack(id: Bytes, live: Info, tombstone: Info, other: Info)
    requires KeyOk(id) && live.blockID == id && !live.deleted && live.timestamp < tombstone.timestamp
    requires tombstone == live.(deleted := true, timestamp := tombstone.timestamp)
    requires KeyOk(other.blockID) && other.blockID != id && !other.deleted
    ensures var big, small, more := map[id := live], map[id := tombstone, other.blockID := other], map[other.blockID := other];
      var merged := Compacted(KeptAll([small, more], Some(tombstone.timestamp + 1)));
      && AllKeyed([big, small, more]) && AllKeyed([big, merged])
      && CommittedLookup([big, small, more], id) == Ok(Some(tombstone))
      && CommittedLookup([big, merged], id) == Ok(Some(live))
  {
    hide MergedFind;
    hide KeyOk;
    hide Compacted;
    hide CommittedLookup;
    var big, small, more := map[id := live], map[id := tombstone, other.blockID := other], map[other.blockID := other];
    var sources, cutoff := [small, more], Some(tombstone.timestamp + 1);
    assert id in big && id in small && other.blockID in more;
    assert BlockFile(big) && BlockFile(small) && BlockFile(more);
    assert [big, small, more] == [big] + sources;
    FindIsNewest([big, small, more], id, tombstone) by {
      assert [big, small, more][1][id] == tombstone;
    }
    DroppingUncovers([big], sources, cutoff, id);
    assert !HasEmpty([big] + sources);
    assert !AllDropped(sources, cutoff) by {
      assert other.blockID in sources[0] && !Dropped(sources[0][other.blockID], cutoff);
    }
    var left := [big] + KeptAll(sources, cutoff);
    assert left[0] == big && id !in left[1] && id !in left[2];
    FindIsNewest(left, id, live);
    assert [big] + [Compacted(KeptAll(sources, cutoff))] == [big, Compacted(KeptAll(sources, cutoff))];
  }

  /** Two files with one old tombstone each are compacted: whatever the other files hold, every
      block ID that was answered before now fails. */
  lemma EmptiedMergeStopsLookups(rest: seq<Index>, first: Info, second: Info, id: Bytes)
    requires BlockFiles(rest) && KeyOk(first.blockID) && KeyOk(second.blockID) && KeyOk(id)
    requires first.deleted && second.deleted && first.timestamp <= second.timestamp
    ensures var sources := [map[first.blockID := first], map[second.blockID := second]];
      var merged := Compacted(KeptAll(sources, Some(second.timestamp + 1)));
      && AllKeyed(rest + sources) && AllKeyed(rest + [merged])
      && CommittedLookup(rest + sources, id).Ok?
      && CommittedLookup(rest + [merged], id) == Err(InvalidBlockId)
  {
    hide *;
    var sources := [map[first.blockID := first], map[second.blockID := second]];
    var cutoff := Some(second.timestamp + 1);
    var merged := Compacted(KeptAll(sources, cutoff));
    TwoTombstones(rest, first, second);
    ExactLookup(rest + sources, id);
    MergedEmptyIff(sources, cutoff);
    MergedIsOfBlocks(sources, cutoff);
    OneOfBlocks(merged);
    BothOfBlocks(rest, [merged]);
    ExactLookup(rest + [merged], id);
    EmptyWithMerged(rest, sources, merged);
  }

  lemma TwoTombstones(rest: seq<Index>, first: Info, second: Info)
    requires BlockFiles(rest) && KeyOk(first.blockID) && KeyOk(second.blockID)
    requires first.deleted && second.deleted && first.timestamp <= second.timestamp
    ensures var sources := [map[first.blockID := first], map[second.blockID := second]];
      && AllOfBlocks(rest) && AllOfBlocks(sources) && AllOfBlocks(rest + sources)
      && !HasEmpty(rest + sources) && AllDropped(sources, Some(second.timestamp + 1))
  {
    hide KeyOk;
    assert first.blockID in map[first.blockID := first];
    assert second.blockID in map[second.blockID := second];
  }
}
