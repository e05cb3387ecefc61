/** Lookups of texts that are not block IDs: the index files are searched by the binary key, which
    other texts can share (block_manager.go, committed_block_index.go, index.go). */
module OtherTexts {
  import opened ByteStrings
  import opened ContentId
  import opened BlockInfo
  import opened Crypto
  import opened IndexFormat
  import opened IndexReader
  import opened MergedIndex
  import opened CommittedIndex
  import opened BlockState
  import opened BlockLookup

  /* ----- which texts are looked up as in a map ----- */

  /** Reading and deleting the text through the index files are the steps of the state machine. */
  ghost predicate LooksUpAsMap(c: Suite, s: State, id: Bytes, now: int64) {
    && AllKeyed(s.committed) && ReadBlock(c, s, id) == GetBlock(c, s, id)
    && RemoveBlock(s, id, now) == DeleteBlock(s, id, now) && (Found(s, id) <==> Tracked(s, id))
  }

  /** The block ID with the same key, if there is any. */
  function Twin(id: Bytes): Bytes {
    FromKey(ToKey(id))
  }

  /** The key is as long as those of block IDs, and the text is itself the block ID with that key,
      or there is no such block ID that a search for the text would come upon. */
  predicate Unmistakable(id: Bytes) {
    |ToKey(id)| == IV_LENGTH + 1 && (id == Twin(id) || !KeyOk(Twin(id)) || Less(Twin(id), id))
  }

  /** Lookups are those of a map in all valid states exactly for the unmistakable texts. */
  lemma MapIffUnmistakable(c: Suite, id: Bytes)
    ensures (forall s, now :: Inv(c, s) ==> LooksUpAsMap(c, s, id, now)) <==> Unmistakable(id)
  {
    hide *;
    if Unmistakable(id) {
      forall s, now | Inv(c, s) ensures LooksUpAsMap(c, s, id, now) {
        UnmistakableIsMap(c, s, id, now);
      }
    } else {
      var t := MistakenFor(id);
      var s := OneTombstone(t);
      TombstoneInv(c, t);
      MistakenDelete(c, id, t);
      assert !LooksUpAsMap(c, s, id, 0);
    }
  }

  lemma UnmistakableIsMap(c: Suite, s: State, id: Bytes, now: int64)
    requires Inv(c, s) && Unmistakable(id)
    ensures LooksUpAsMap(c, s, id, now)
  {
    hide Inv;
    hide ToKey;
    hide FromKey;
    hide Canonical;
    hide Less;
    hide MergedFind;
    hide CommittedLookup;
    hide Contents;
    KeyRoundTrip(id);
    if id == Twin(id) {
      LookupsAreSteps(c, s, id, now);
    } else {
      NotThere(c, s, id);
      InvKeyed(c, s);
      UnmistakableFindsNothing(c, s, id);
    }
  }

  /** Texts that are not block IDs are in none of the maps. */
  lemma NotThere(c: Suite, s: State, id: Bytes)
    requires Inv(c, s) && !KeyOk(id)
    ensures id !in s.current && id !in s.builder && MergedFind(s.committed, id) == None
    ensures forall k :: 0 <= k < |s.committed| ==> id !in s.committed[k]
  {
    hide KeyOk;
    hide PackedOk;
    hide MergedFind;
    forall k | 0 <= k < |s.committed| ensures id !in s.committed[k] {
      assert IndexOk(c, s.packs, s.committed[k]);
    }
    MergedFindIsNewest(s.committed, id);
  }

  lemma UnmistakableFindsNothing(c: Suite, s: State, id: Bytes)
    requires Inv(c, s) && Unmistakable(id) && id != Twin(id) && AllKeyed(s.committed)
    ensures CommittedLookup(s.committed, id) == Ok(None)
  {
    hide Inv;
    hide Unmistakable;
    hide Twin;
    hide PickAll;
    hide BlockFile;
    hide FileLookup;
    InvFiles(c, s);
    var answers := Answers(s.committed, id);
    forall k | 0 <= k < |answers| ensures answers[k] == Ok(None) {
      UnmistakableInFile(s.committed[k], id);
    }
    NothingPicked(seq(|answers|, k requires 0 <= k < |answers| && answers[k].Ok? => answers[k].value));
  }

  lemma {:induction false} NothingPicked(answers: seq<Option<Info>>)
    requires forall k :: 0 <= k < |answers| ==> answers[k] == None
    ensures PickAll(answers) == None
  {
    if answers != [] {
      NothingPicked(answers[..|answers| - 1]);
    }
  }

  lemma UnmistakableInFile(b: Index, id: Bytes)
    requires BlockFile(b) && Unmistakable(id) && id != Twin(id)
    ensures FileLookup(Sorted(b), id) == Ok(None)
  {
    hide Canonical;
    hide ToKey;
    hide FromKey;
    hide Less;
    hide Position;
    var s := Sorted(b);
    forall i | 0 <= i < |s| ensures KeyOk(s[i].blockID) {
      assert s[i].blockID in b;
    }
    var any :| any in b;
    PositionBounds(s, id);
    var p := Position(s, id);
    if p < |s| {
      KeyRoundTrip(s[p].blockID);
      LessTrichotomy(id, s[p].blockID);
    }
  }

  /** There are such texts besides block IDs: 32 zeros behind the byte 0xff. */
  lemma UnmistakableOther()
    ensures var id := [RAW_KEY] + HexEncode(seq(IV_LENGTH, _ => 0)); Unmistakable(id) && !KeyOk(id)
  {
    hide HexDecode;
    hide HexEncode;
    hide IsLowerHex;
    var zeros: Bytes := seq(IV_LENGTH, _ => 0);
    var id := [RAW_KEY] + HexEncode(zeros);
    HexRoundTrip(zeros);
    assert id[1..] == HexEncode(zeros) && id[..1] == [RAW_KEY];
    assert ToKey(id) == [RAW_KEY] + zeros;
    assert Twin(id) == zeros;
  }

  /* ----- the others are not ----- */

  ghost function Tombstone(id: Bytes): Info {
    Info(id, 0, 0, [0], 0, true, None, 0)
  }

  /** A manager over one index file with one tombstone. */
  ghost function OneTombstone(id: Bytes): State {
    var b := map[id := Tombstone(id)];
    State(map[], 0, map[], [b], map[], {b}, 0, 0)
  }

  lemma TombstoneInv(c: Suite, id: Bytes)
    requires KeyOk(id)
    ensures Inv(c, OneTombstone(id))
  {
    hide KeyOk;
    var s := OneTombstone(id);
    assert id in s.committed[0];
    assert IndexOk(c, s.packs, s.committed[0]);
  }

  /** A block ID whose file answers the text with an error, or with its own entry. */
  lemma MistakenFor(id: Bytes) returns (t: Bytes)
    requires !Unmistakable(id)
    ensures KeyOk(t) && !KeyOk(id) && (|ToKey(id)| == IV_LENGTH + 1 ==> ToKey(t) == ToKey(id) && AtMost(id, t))
  {
    hide Canonical;
    hide ToKey;
    hide FromKey;
    hide Less;
    KeyRoundTrip(id);
    if |ToKey(id)| == IV_LENGTH + 1 {
      t := Twin(id);
      TwinSharesKey(id);
      LessTrichotomy(id, t);
    } else {
      var hash: Bytes := seq(IV_LENGTH, _ => 0);
      t := HexEncode(hash);
      HashIdCanonical([], hash);
      assert [] + t == t;
    }
  }

  lemma TwinSharesKey(id: Bytes)
    requires |ToKey(id)| == IV_LENGTH + 1 && KeyOk(Twin(id))
    ensures ToKey(Twin(id)) == ToKey(id)
  {
    hide HexDecode;
    hide HexEncode;
    hide IsLowerHex;
    var k, t := ToKey(id), Twin(id);
    hide ToKey;
    if k[0] == RAW_KEY {
      RawTwin(k, t);
    } else {
      HexRoundTrip(k[1..]);
      TextTwin(k, t);
    }
  }

  lemma RawTwin(k: Bytes, t: Bytes)
    requires |k| == IV_LENGTH + 1 && k[0] == RAW_KEY && t == k[1..] && KeyOk(t)
    ensures ToKey(t) == k
  {
    assert t[0..] == t;
    assert k == [RAW_KEY] + t;
  }

  lemma TextTwin(k: Bytes, t: Bytes)
    requires |k| == IV_LENGTH + 1 && k[0] != RAW_KEY && t == FromKey(k) && HexDecode(HexEncode(k[1..])) == Some(k[1..])
    ensures ToKey(t) == k
  {
    hide HexDecode;
    hide HexEncode;
    var h := HexEncode(k[1..]);
    assert k == [k[0]] + k[1..];
    if k[0] == 0 {
      assert [] + h == h && t == h && t[0..] == t;
    } else {
      assert t == k[..1] + h;
      assert t[1..] == h && t[..1] == k[..1] == [k[0]];
    }
  }

  /** Deleting the text then fails in a way a map has no word for, or succeeds without the block
      being there. */
  lemma MistakenDelete(c: Suite, id: Bytes, t: Bytes)
    requires KeyOk(t) && !KeyOk(id) && (|ToKey(id)| == IV_LENGTH + 1 ==> ToKey(t) == ToKey(id) && AtMost(id, t))
    ensures !LooksUpAsMap(c, OneTombstone(t), id, 0)
  {
    hide Canonical;
    hide ToKey;
    hide Less;
    hide MergedFind;
    hide CommittedLookup;
    hide FileLookup;
    var s := OneTombstone(t);
    TombstoneInv(c, t);
    InvKeyed(c, s);
    NotThere(c, s, id);
    OnlyEntry(t, Tombstone(t));
    if |ToKey(id)| == IV_LENGTH + 1 {
      OneRow(Tombstone(t), id);
      OneAnswer(t, Tombstone(t), id, Tombstone(t).(blockID := id));
    } else {
      assert CommittedLookup(s.committed, id) == Err(InvalidBlockId) by {
        OtherLengthIsAnError(c, s, id);
      }
    }
  }

  /** A text whose key is not as long as the keys of an index file is an error, not a block that
      is not there. */
  lemma OtherLengthIsAnError(c: Suite, s: State, id: Bytes)
    requires Inv(c, s) && s.committed != [] && id !in s.current && id !in s.builder && |ToKey(id)| != IV_LENGTH + 1
    ensures AllKeyed(s.committed) && CommittedLookup(s.committed, id) == Err(InvalidBlockId)
    ensures ReadBlock(c, s, id) == Err(InvalidBlockId)
  {
    hide ToKey;
    hide Canonical;
    hide PackedOk;
    hide PickAll;
    hide Position;
    hide Ascending;
    InvKeyed(c, s);
    var b := s.committed[0];
    assert IndexOk(c, s.packs, b);
    var any :| any in b;
    var t := Sorted(b);
    assert t[0].blockID in b;
    assert Answers(s.committed, id)[0] == Err(InvalidBlockId);
  }

  /** One committed block, whose ID has no prefix but a letter. */
  ghost predicate OneBlock(c: Suite, s: State, id: Bytes, e: Info) {
    && Inv(c, s) && s.current == map[] && s.builder == map[] && s.committed == [map[id := e]]
    && !e.deleted && IsLowerHex(id) && HasLetter(id) && |id| == 2 * IV_LENGTH
  }

  lemma OneBlockId(c: Suite, s: State, id: Bytes, e: Info)
    requires OneBlock(c, s, id, e)
    ensures e.blockID == id && KeyOk(id) && |id| % 2 == 0 && HexDecode(id).Some? && HexDecode(Upper(id)) == HexDecode(id)
    ensures Keyed(map[id := e]) && Sorted(map[id := e]) == [e]
  {
    hide HexDecode;
    hide PackedOk;
    assert IndexOk(c, s.packs, s.committed[0]);
    assert id[0..] == id;
    UpperDecodes(id);
    OnlyEntry(id, e);
    assert HexDecode(id).None? ==> |ToKey(id)| == 1 + |id|;
  }

  lemma OnlyEntry(id: Bytes, e: Info)
    requires e.blockID == id
    ensures Keyed(map[id := e]) && Sorted(map[id := e]) == [e]
  {
    var m := map[id := e];
    assert [e][0].blockID == id;
    assert Enumerates([e], m);
    EnumerationUnique(Sorted(m), [e], m);
  }

  lemma CapitalsFound(c: Suite, s: State, id: Bytes, e: Info)
    requires OneBlock(c, s, id, e)
    ensures AllKeyed(s.committed) && CommittedLookup(s.committed, Upper(id)) == Ok(Some(e.(blockID := Upper(id))))
  {
    hide ToKey;
    hide Canonical;
    hide Less;
    hide HexDecode;
    hide PackedOk;
    OneBlockId(c, s, id, e);
    UpperSharesKey(id);
    InvKeyed(c, s);
    LessTrichotomy(Upper(id), id);
    OneRow(e, Upper(id));
    OneAnswer(id, e, Upper(id), e.(blockID := Upper(id)));
  }

  lemma OneAnswer(id: Bytes, e: Info, text: Bytes, x: Info)
    requires Keyed(map[id := e]) && Sorted(map[id := e]) == [e] && FileLookup([e], text) == Ok(Some(x))
    ensures AllKeyed([map[id := e]]) && CommittedLookup([map[id := e]], text) == Ok(Some(x))
  {
    hide FileLookup;
    var answers := Answers([map[id := e]], text);
    assert answers[0] == Ok(Some(x));
    var values := seq(|answers|, k requires 0 <= k < |answers| && answers[k].Ok? => answers[k].value);
    assert values == [Some(x)];
    PickOne(x);
  }

  /** The ID in capitals is not a block ID, yet asking for it gives the bytes of the block. */
  lemma CapitalsReadTheBlock(c: Suite, s: State, id: Bytes, e: Info)
    requires OneBlock(c, s, id, e)
    ensures AllKeyed(s.committed) && !KeyOk(Upper(id))
    ensures ReadBlock(c, s, id).Ok? && ReadBlock(c, s, Upper(id)) == ReadBlock(c, s, id)
  {
    hide HexDecode;
    hide CommittedLookup;
    hide Suite.DecryptAndVerify;
    OneBlockId(c, s, id, e);
    UpperSharesKey(id);
    CapitalsFound(c, s, id, e);
    CommittedLookupIsFind(c, s, id);
    assert IndexOk(c, s.packs, s.committed[0]);
    OnlyFound(id, e);
    assert id[0..] == id && Upper(id)[0..] == Upper(id);
  }

  lemma OneRow(e: Info, id: Bytes)
    requires ToKey(id) == ToKey(e.blockID) && AtMost(id, e.blockID)
    ensures FileLookup([e], id) == Ok(Some(e.(blockID := id)))
  {
    hide ToKey;
    hide Less;
    assert [e][..0] == [];
    assert Position([e][..0], id) == 0;
  }

  lemma PickOne(x: Info)
    ensures PickAll([Some(x)]) == Some(x)
  {
    assert [Some(x)][..0] == [];
    assert PickAll([Some(x)][..0]) == None;
  }

  lemma OnlyFound(id: Bytes, e: Info)
    ensures MergedFind([map[id := e]], id) == Some(e)
  {
    assert Lookups([map[id := e]], id) == [Some(e)];
    PickOne(e);
  }

  /** Deleting the ID in capitals leaves a tombstone whose index file is, byte for byte, that of
      a tombstone of the block: whoever reads the files no longer finds the block. In the plain
      map nothing is deleted. */
  lemma CapitalsDeleteTheBlock(c: Suite, s: State, id: Bytes, e: Info, now: int64)
    requires OneBlock(c, s, id, e) && e.timestamp < now
    ensures AllKeyed(s.committed)
    ensures var up := Upper(id);
      var t := e.(blockID := up, deleted := true, timestamp := now);
      && RemoveBlock(s, up, now) == (SetPending(s, t), Ok(()))
      && Keyed(map[up := t]) && Keyed(map[id := t.(blockID := id)])
      && Encode(Sorted(map[up := t])) == Encode(Sorted(map[id := t.(blockID := id)]))
      && MergedFind([map[id := e], map[id := t.(blockID := id)]], id) == Some(t.(blockID := id))
  {
    hide HexDecode;
    hide CommittedLookup;
    hide ToKey;
    hide Encode;
    hide Less;
    OneBlockId(c, s, id, e);
    UpperSharesKey(id);
    CapitalsFound(c, s, id, e);
    var up := Upper(id);
    var t := e.(blockID := up, deleted := true, timestamp := now);
    OnlyEntry(up, t);
    OnlyEntry(id, t.(blockID := id));
    SameBytes(t, up, id);
    OnlyFound(id, e);
    var both := [map[id := e], map[id := t.(blockID := id)]];
    assert both == [map[id := e]] + [map[id := t.(blockID := id)]];
    MergedFindAppend([map[id := e]], map[id := t.(blockID := id)], id);
  }

  /** A row holds the key of the ID and not its text. */
  lemma SameBytes(t: Info, a: Bytes, b: Bytes)
    requires ToKey(a) == ToKey(b) && t.blockID == a
    ensures Encode([t]) == Encode([t.(blockID := b)])
  {
    hide ToKey;
    assert [t][..0] == [] && [t.(blockID := b)][..0] == [];
  }
}
