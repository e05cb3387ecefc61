/** The index builder (builder.go): collecting entries and writing the index file. */
module IndexBuilder {
  import opened ByteStrings
  import opened ContentId
  import opened BlockInfo
  import opened IndexFormat

  class PackIndexBuilder {
    var entries: Index

    ghost predicate Valid()
      reads this
    {
      Keyed(entries)
    }

    constructor ()
      ensures Valid() && entries == map[]
    {
      entries := map[];
    }

    /** Adds an entry, or replaces the one with the same ID unless that one is newer. */
    method Add(i: Info)
      requires Valid()
      modifies this
      ensures Valid() && entries == AddTo(old(entries), i)
    {
      if i.blockID !in entries || i.timestamp >= entries[i.blockID].timestamp {
        entries := entries[i.blockID := i];
      }
    }

    method SortedBlocks() returns (s: seq<Info>)
      requires Valid()
      ensures Enumerates(s, entries)
    {
      s := [];
      var todo := entries.Keys;
      ghost var seen: Index := map[];
      while todo != {}
        invariant todo <= entries.Keys
        invariant seen == map id | id in entries && id !in todo :: entries[id]
        invariant Enumerates(s, seen)
        decreases todo
      {
        var id :| id in todo;
        s := InsertSorted(s, entries[id], seen);
        todo := todo - {id};
        seen := seen[id := entries[id]];
      }
      assert seen == entries;
    }

    /** Writes the whole index; the outcome is `Encode` of the sorted entries. */
    method Build() returns (r: Result<Bytes>)
      requires Valid()
      ensures r == Encode(Sorted(entries))
    {
      hide ToKey;
      hide Enumerates;
      hide Rows;
      hide FirstError;
      hide NamesOf;
      hide BigEndian;
      var all := SortedBlocks();
      EnumerationUnique(all, Sorted(entries), entries);
      var names, keyLength, payload := PrepareExtraData(all);
      if payload {
        return Err(InlinePayload);
      }
      RowOffsetIsProduct(|all|, keyLength + ENTRY_LENGTH);
      var base: uint32 := (8 + |all| * (keyLength + ENTRY_LENGTH)) % TWO32;
      var rows := WriteEntries(all, names, base, keyLength);
      match rows {
        case Err(e) => r := Err(e);
        case Ok(b) =>
          var header: Bytes := [VERSION, keyLength % 0x100] + BigEndian(2, ENTRY_LENGTH) + BigEndian(4, |all|);
          r := Ok(header + b + names.extra);
      }
    }
  }

  /** Inserts a new entry at its place in a sorted list. */
  method InsertSorted(s: seq<Info>, it: Info, ghost b: Index) returns (r: seq<Info>)
    requires Enumerates(s, b) && it.blockID !in b
    ensures Enumerates(r, b[it.blockID := it])
  {
    hide Less;
    var k := 0;
    while k < |s| && Less(s[k].blockID, it.blockID)
      invariant 0 <= k <= |s|
      invariant forall i :: 0 <= i < k ==> Less(s[i].blockID, it.blockID)
    {
      k := k + 1;
    }
    forall i | k <= i < |s| ensures Less(it.blockID, s[i].blockID) {
      LessTrichotomy(s[k].blockID, it.blockID);
      LessTransitive(it.blockID, s[k].blockID, s[i].blockID);
    }
    r := s[..k] + [it] + s[k..];
    InsertedEnumerates(s, it, b, k, r);
  }

  /** Collects each distinct pack name once, in order of first use. */
  method PrepareExtraData(all: seq<Info>) returns (names: Names, keyLength: int, payload: bool)
    ensures names == NamesOf(all)
    ensures keyLength == KeyLength(all)
    ensures payload <==> exists i :: 0 <= i < |all| && HasPayload(all[i])
  {
    hide ToKey;
    names, keyLength, payload := Names(map[], []), -1, false;
    for i := 0 to |all|
      invariant names == NamesOf(all[..i])
      invariant keyLength == if i == 0 then -1 else KeyLength(all)
      invariant payload <==> exists j :: 0 <= j < i && HasPayload(all[j])
    {
      var it := all[i];
      if i == 0 {
        keyLength := |ToKey(it.blockID)|;
      }
      if it.packFile != [] && it.packFile !in names.offsets {
        names := Names(names.offsets[it.packFile := |names.extra| % TWO32], names.extra + it.packFile);
      }
      if HasPayload(it) {
        payload := true;
      }
      assert all[..i + 1][..i] == all[..i];
    }
    assert all[..|all|] == all;
  }

  method WriteEntries(all: seq<Info>, names: Names, base: uint32, keyLength: int) returns (r: Result<Bytes>)
    ensures r == match FirstError(all, keyLength)
                 case Some(e) => Err(e)
                 case None => Ok(Rows(all, names, base))
  {
    hide ToKey;
    hide EntryBytes;
    var rows: Bytes := [];
    for i := 0 to |all|
      invariant FirstError(all[..i], keyLength).None?
      invariant rows == Rows(all[..i], names, base)
    {
      var it := all[i];
      assert all[..i + 1][..i] == all[..i];
      var k := ToKey(it.blockID);
      if |k| != keyLength {
        FirstErrorSticks(all, keyLength, i + 1);
        return Err(InconsistentKeyLength);
      }
      if it.packFile == [] {
        FirstErrorSticks(all, keyLength, i + 1);
        return Err(EmptyPackName);
      }
      rows := rows + k + EntryBytes(it, NameOffset(it, names, base));
    }
    assert all[..|all|] == all;
    r := Ok(rows);
  }

  lemma {:induction false} FirstErrorSticks(s: seq<Info>, keyLength: int, n: nat)
    requires n <= |s| && FirstError(s[..n], keyLength).Some?
    ensures FirstError(s, keyLength) == FirstError(s[..n], keyLength)
  {
    hide ToKey;
    if n < |s| {
      assert s[..|s| - 1][..n] == s[..n];
      FirstErrorSticks(s[..|s| - 1], keyLength, n);
    } else {
      assert s[..n] == s;
    }
  }
}
