/** Listing blocks and finding unreferenced pack files (block_manager.go). */
module BlockListing {
  import opened ByteStrings
  import opened ContentId
  import opened BlockInfo
  import opened Crypto
  import opened MergedIndex
  import opened BlockState

  /* ----- listing ----- */

  function PrefixOnly(m: Index, prefix: Bytes): (r: Index) {
    map id | id in m && prefix <= id :: m[id]
  }

  lemma PrefixEnumerates(s: seq<Info>, m: Index, prefix: Bytes)
    requires Enumerates(s, m)
    ensures Enumerates(WithPrefix(s, prefix), PrefixOnly(m, prefix))
  {
    hide Less;
    hide Ascending;
    hide WithPrefix;
    WithPrefixContents(s, prefix);
    var t, p := WithPrefix(s, prefix), PrefixOnly(m, prefix);
    forall i | 0 <= i < |t| ensures t[i].blockID in p && p[t[i].blockID] == t[i] {
      assert t[i] in t;
      var j :| 0 <= j < |s| && s[j] == t[i];
    }
    forall id | id in p ensures exists i :: 0 <= i < |t| && t[i].blockID == id {
      var j :| 0 <= j < |s| && s[j].blockID == id;
      assert s[j] in s && s[j] in t;
    }
  }

  /** Restricting every index to a prefix does not change the answer for an ID that has it. */
  lemma PrefixFind(ms: seq<Index>, ps: seq<Index>, prefix: Bytes, id: Bytes)
    requires |ps| == |ms| && forall k :: 0 <= k < |ms| ==> ps[k] == PrefixOnly(ms[k], prefix)
    ensures prefix <= id ==> MergedFind(ps, id) == MergedFind(ms, id)
    ensures !(prefix <= id) ==> MergedFind(ps, id) == None
    ensures TiesIdentical(ms) ==> TiesIdentical(ps)
  {
    hide PickAll;
    if prefix <= id {
      assert Lookups(ps, id) == Lookups(ms, id);
    } else {
      hide MergedFind;
      MergedFindIsNewest(ps, id);
    }
  }

  /** What listing the committed indexes under a prefix delivers. */
  ghost predicate CommittedListing(s: State, prefix: Bytes, out: seq<Info>) {
    exists sources: seq<seq<Info>> ::
      && |sources| == |s.committed|
      && (forall k :: 0 <= k < |sources| ==> Enumerates(sources[k], PrefixOnly(s.committed[k], prefix)))
      && Merged(sources, out)
  }

  /** The listing delivers an ID exactly when it has the prefix and the merged lookup finds
      it, and then delivers what the lookup answers. */
  lemma ListingIsFind(s: State, prefix: Bytes, out: seq<Info>, id: Bytes)
    requires CommittedListing(s, prefix, out) && TiesIdentical(s.committed) && id != []
    ensures Reported(out, id) <==> prefix <= id && MergedFind(s.committed, id).Some?
    ensures forall o :: o in out && o.blockID == id ==> MergedFind(s.committed, id) == Some(o)
  {
    hide MergedFind;
    hide TiesIdentical;
    hide Enumerates;
    hide Merged;
    hide Reported;
    var sources: seq<seq<Info>> :|
      && |sources| == |s.committed|
      && (forall k :: 0 <= k < |sources| ==> Enumerates(sources[k], PrefixOnly(s.committed[k], prefix)))
      && Merged(sources, out);
    var ps := seq(|s.committed|, k requires 0 <= k < |s.committed| => PrefixOnly(s.committed[k], prefix));
    PrefixFind(s.committed, ps, prefix, id);
    IterateAgreesWithFind(ps, sources, out, id);
    forall o | o in out && o.blockID == id ensures MergedFind(s.committed, id) == Some(o) {
      ReportedBy(out, o);
    }
  }

  lemma ReportedBy(out: seq<Info>, o: Info)
    requires o in out
    ensures Reported(out, o.blockID)
  {
  }

  /** The ID does not come from the builder's tombstones (`appendToResult`). */
  predicate NotTombstoned(s: State, id: Bytes) {
    id in s.builder ==> !s.builder[id].deleted
  }

  /** IDs that `ListBlocks` appends from either level. */
  ghost predicate ListedId(s: State, prefix: Bytes, out: seq<Info>, id: Bytes) {
    || (id in s.builder && prefix <= id && !s.builder[id].deleted)
    || (exists o :: o in out && o.blockID == id && !o.deleted && prefix <= id && NotTombstoned(s, id))
  }

  /** `ListBlocks` yields exactly the blocks under the prefix that can be read. */
  lemma ListedIffTracked(c: Suite, s: State, prefix: Bytes, out: seq<Info>, id: Bytes)
    requires Inv(c, s) && CommittedListing(s, prefix, out)
    ensures ListedId(s, prefix, out, id) <==> prefix <= id && Tracked(s, id)
  {
    hide CommittedListing;
    hide MergedFind;
    hide TiesIdentical;
    hide CommittedOk;
    hide BuilderNewer;
    hide PackedOk;
    hide PendingOk;
    hide Reported;
    if id == [] {
      NoEmptyIds(c, s);
      NoEmptyListed(s, prefix, out);
    } else {
      ListingIsFind(s, prefix, out, id);
      if prefix <= id && id !in s.builder && Tracked(s, id) {
        assert Reported(out, id);
        var o := ReportedEntry(out, id);
      }
      if id !in s.builder && ListedId(s, prefix, out, id) {
        var o :| o in out && o.blockID == id && !o.deleted;
        assert MergedFind(s.committed, id) == Some(o);
      }
    }
  }

  lemma NoEmptyListed(s: State, prefix: Bytes, out: seq<Info>)
    requires CommittedListing(s, prefix, out)
    ensures forall o :: o in out ==> o.blockID != []
  {
    hide Enumerates;
    hide Reported;
    hide Ascending;
  }

  lemma NoEmptyIds(c: Suite, s: State)
    requires Inv(c, s)
    ensures [] !in s.builder && [] !in s.current && MergedFind(s.committed, []).None?
  {
    hide MergedFind;
    hide PackedOk;
    hide PendingOk;
    hide TiesIdentical;
    hide BuilderNewer;
    assert !KeyOk([]) by { assert ToKey([]) == [0]; }
    MergedFindIsNewest(s.committed, []);
    forall k | 0 <= k < |s.committed| ensures [] !in s.committed[k] {
      assert IndexOk(c, s.packs, s.committed[k]);
    }
  }
}
