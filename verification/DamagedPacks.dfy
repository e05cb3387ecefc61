/** Reading when pack files may hold anything at all (block_manager.go, block_index_recovery.go):
    the hash in the ID is the checksum of the contents. */
module DamagedPacks {
  import opened ByteStrings
  import opened BlockInfo
  import opened Crypto
  import opened IndexReader
  import opened MergedIndex
  import opened CommittedIndex
  import opened PackFile
  import opened BlockState
  import opened BlockLookup

  /** A packed block reads as `d` exactly if its pack is there, with a range that decrypts to `d`,
      and the ID has the hash of `d`; otherwise it is an error. */
  lemma ContentsIff(c: Suite, packs: map<Bytes, Bytes>, e: Info, d: Bytes)
    requires c.Lawful() && e.payload.None?
    ensures Contents(c, packs, e) == Ok(d) <==>
      && e.packFile in packs && PackedIV(e.blockID) == Some(c.hash(d)) && e.packOffset + e.length <= |packs[e.packFile]|
      && c.decrypt(packs[e.packFile][e.packOffset..e.packOffset + e.length], c.hash(d)) == d
  {
    hide ReadEntry;
    if e.packFile in packs {
      ReadEntryIff(c, packs[e.packFile], e, d);
    }
  }

  /** The entry a lookup finds, for any text, carries that text; it is packed or is a pending block
      that holds its own contents. */
  lemma FoundEntry(c: Suite, s: State, id: Bytes)
    requires Inv(c, s)
    ensures AllKeyed(s.committed)
    ensures LookUp(s, id).Ok? ==>
      var e := LookUp(s, id).value;
      e.blockID == id && (e.payload.None? || (!e.deleted && Identifies(c, id, e.payload.value)))
  {
    hide KeyOk;
    hide Contents;
    hide Identifies;
    hide CommittedOk;
    hide StorageOk;
    hide BuilderNewer;
    hide CommittedLookup;
    InvKeyed(c, s);
    if id !in s.current && id !in s.builder {
      CommittedEntry(c, s, id);
    }
  }

  lemma CommittedEntry(c: Suite, s: State, id: Bytes)
    requires Inv(c, s) && AllKeyed(s.committed)
    ensures CommittedLookup(s.committed, id).Ok? && CommittedLookup(s.committed, id).value.Some? ==>
      var e := CommittedLookup(s.committed, id).value.value; e.blockID == id && e.payload.None?
  {
    hide Inv;
    hide PickAll;
    hide FileLookup;
    var r := CommittedLookup(s.committed, id);
    if r.Ok? && r.value.Some? {
      var answers := Answers(s.committed, id);
      var values := seq(|answers|, k requires 0 <= k < |answers| && answers[k].Ok? => answers[k].value);
      assert r == Ok(PickAll(values));
      PickAllIsNewest(values);
      var k :| 0 <= k < |values| && values[k] == Some(r.value.value);
      assert answers[k] == FileLookup(Sorted(s.committed[k]), id);
      FileEntry(c, s, k, id);
    }
  }

  lemma FileEntry(c: Suite, s: State, k: nat, id: Bytes)
    requires Inv(c, s) && k < |s.committed| && Keyed(s.committed[k])
    ensures FileLookup(Sorted(s.committed[k]), id).Ok? && FileLookup(Sorted(s.committed[k]), id).value.Some? ==>
      var e := FileLookup(Sorted(s.committed[k]), id).value.value; e.blockID == id && e.payload.None?
  {
    hide KeyOk;
    hide Contents;
    hide StorageOk;
    hide BuilderNewer;
    hide CurrentOk;
    hide BuilderOk;
    hide Position;
    hide KeySize;
    var b := s.committed[k];
    assert IndexOk(c, s.packs, b);
    var t := Sorted(b);
    forall i | 0 <= i < |t| ensures t[i].payload.None? {
      assert t[i].blockID in b;
    }
  }

  /** Whatever the pack files hold, reading a text never returns bytes with another hash than the one
      in the text. */
  lemma ReadsMatchIds(c: Suite, s: State, packs: map<Bytes, Bytes>, id: Bytes)
    requires c.Lawful() && Inv(c, s)
    ensures AllKeyed(s.committed)
    ensures var r := ReadBlock(c, s.(packs := packs), id); r.Ok? ==> PackedIV(id) == Some(c.hash(r.value))
  {
    hide *;
    FoundEntry(c, s, id);
    ReadsFound(c, s, packs, id);
    var r := ReadBlock(c, s.(packs := packs), id);
    if r.Ok? {
      var e := LookUp(s, id).value;
      if e.payload.None? {
        ContentsIff(c, packs, e, r.value);
      } else {
        IvOfId(c, id, e.payload.value);
      }
    }
  }

  lemma ReadsFound(c: Suite, s: State, packs: map<Bytes, Bytes>, id: Bytes)
    requires AllKeyed(s.committed)
    ensures var r := ReadBlock(c, s.(packs := packs), id);
      r.Ok? ==>
        && LookUp(s, id).Ok? && !LookUp(s, id).value.deleted && r == Contents(c, packs, LookUp(s, id).value)
        && (LookUp(s, id).value.payload.Some? ==> r.value == LookUp(s, id).value.payload.value)
  {
    hide CommittedLookup;
    hide ReadEntry;
    assert LookUp(s.(packs := packs), id) == LookUp(s, id);
  }

  /** So whatever happens to the pack files, a block whose contents collide with no others reads as
      before or not at all. */
  lemma DamageIsNoticed(c: Suite, s: State, packs: map<Bytes, Bytes>, id: Bytes)
    requires c.Lawful() && Inv(c, s) && AllKeyed(s.committed) && ReadBlock(c, s, id).Ok?
    requires forall d :: c.hash(d) == c.hash(ReadBlock(c, s, id).value) ==> d == ReadBlock(c, s, id).value
    ensures var r := ReadBlock(c, s.(packs := packs), id); r == ReadBlock(c, s, id) || r.Err?
  {
    hide *;
    assert s.(packs := s.packs) == s;
    ReadsMatchIds(c, s, s.packs, id);
    ReadsMatchIds(c, s, packs, id);
  }
}
