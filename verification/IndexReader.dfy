/** Reading an index file by binary search (index.go). */
module IndexReader {
  import opened ByteStrings
  import opened ContentId
  import opened BlockInfo
  import opened IndexFormat

  /** The file lists exactly the entries of the builder `b`. */
  ghost predicate Holds(f: File, b: Index) {
    exists s :: Enumerates(s, b) && f.Lists(s)
  }

  /** `p` separates the entries below `id` from the others. */
  ghost predicate LowerBound(s: seq<Info>, id: Bytes, p: nat) {
    && p <= |s|
    && (forall i :: 0 <= i < p ==> Less(s[i].blockID, id))
    && (forall i :: p <= i < |s| ==> AtMost(id, s[i].blockID))
  }

  /** `sort.Search` over the decoded keys. On a file that lists `s` it finds the first
      entry whose ID is not below `id`. */
  method FindEntryPosition(f: File, id: Bytes, ghost s: seq<Info>) returns (r: Result<nat>)
    ensures f.Lists(s) ==> r.Ok? && LowerBound(s, id, r.value)
    ensures r.Ok? ==> r.value <= f.hdr.entryCount
  {
    hide Less;
    hide ToKey;
    hide FromKey;
    hide File.EntryToInfo;
    hide File.RowAt;
    var i, j := 0, f.hdr.entryCount;
    while i < j
      invariant 0 <= i <= j <= f.hdr.entryCount
      invariant f.Lists(s) ==> forall k :: 0 <= k < i ==> Less(s[k].blockID, id)
      invariant f.Lists(s) ==> forall k :: j <= k < |s| ==> AtMost(id, s[k].blockID)
    {
      var h := (i + j) / 2;
      var row := f.RowAt(h);
      if row.None? {
        assert f.Lists(s) ==> f.RowHolds(h, s[h]);
        return Err(ShortRead);
      }
      assert f.Lists(s) ==> f.RowHolds(h, s[h]);
      if AtMost(id, FromKey(row.value[..f.hdr.keySize])) {
        if f.Lists(s) {
          forall k | h <= k < |s| ensures AtMost(id, s[k].blockID) {
            LessTransitive(id, s[h].blockID, s[k].blockID);
            LessTrichotomy(s[h].blockID, s[k].blockID);
          }
        }
        j := h;
      } else {
        if f.Lists(s) {
          forall k | 0 <= k <= h ensures Less(s[k].blockID, id) {
            LessTransitive(s[k].blockID, s[h].blockID, id);
          }
        }
        i := h + 1;
      }
    }
    r := Ok(i);
  }

  /** Where an ID is or would be. */
  function Position(s: seq<Info>, id: Bytes): (p: nat) {
    if s == [] then 0
    else if AtMost(id, s[|s| - 1].blockID) then Position(s[..|s| - 1], id)
    else |s|
  }

  lemma {:induction false} PositionIs(s: seq<Info>, id: Bytes, p: nat)
    requires Ascending(s) && LowerBound(s, id, p)
    ensures Position(s, id) == p
  {
    hide Less;
    if s != [] {
      var n := |s| - 1;
      if p <= n {
        assert LowerBound(s[..n], id, p);
        PositionIs(s[..n], id, p);
      } else {
        LessTrichotomy(s[n].blockID, id);
      }
    }
  }

  /** The key length in the header: without entries it is minus one cut to a byte. */
  function KeySize(s: seq<Info>): int {
    if s == [] then 255 else KeyLength(s)
  }

  /** What an index file with these entries answers for any text at all: the entry at the
      position of the text, if it has the same binary key. */
  function FileLookup(s: seq<Info>, id: Bytes): (r: Result<Option<Info>>) {
    if |ToKey(id)| != KeySize(s) then Err(InvalidBlockId)
    else
      var p := Position(s, id);
      if p < |s| && ToKey(s[p].blockID) == ToKey(id) then Ok(Some(s[p].(blockID := id))) else Ok(None)
  }

  /** The stored entry bytes found for a block ID, if there are any. */
  method FindEntry(f: File, id: Bytes, ghost s: seq<Info>) returns (r: Result<Option<Bytes>>)
    ensures |ToKey(id)| != f.hdr.keySize ==> r == Err(InvalidBlockId)
    ensures f.Lists(s) && |ToKey(id)| == f.hdr.keySize ==>
      var p := Position(s, id);
      if p < |s| && ToKey(s[p].blockID) == ToKey(id)
      then r.Ok? && r.value.Some? && f.EntryToInfo(id, r.value.value) == Ok(s[p].(blockID := id))
      else r == Ok(None)
  {
    hide Less;
    hide ToKey;
    hide FromKey;
    hide File.EntryToInfo;
    hide File.RowAt;
    var key := ToKey(id);
    if |key| != f.hdr.keySize {
      return Err(InvalidBlockId);
    }
    var position := FindEntryPosition(f, id, s);
    if position.Err? {
      return Err(position.error);
    }
    var p := position.value;
    if f.Lists(s) {
      PositionIs(s, id, p);
    }
    if p >= f.hdr.entryCount {
      return Ok(None);
    }
    var row := f.RowAt(p);
    assert f.Lists(s) ==> f.RowHolds(p, s[p]);
    if row.None? {
      return Err(ShortRead);
    }
    if row.value[..|key|] == key {
      if f.Lists(s) {
        OtherText(f, s[p], id, row.value[|key|..]);
      }
      return Ok(Some(row.value[|key|..]));
    }
    return Ok(None);
  }

  /** The entry bytes do not hold the ID; it is taken from the question. */
  lemma OtherText(f: File, it: Info, id: Bytes, value: Bytes)
    requires f.EntryToInfo(it.blockID, value) == Ok(it)
    ensures f.EntryToInfo(id, value) == Ok(it.(blockID := id))
  {
  }

  /** Looking up a block ID, whatever text it is. */
  method GetInfo(f: File, id: Bytes, ghost s: seq<Info>) returns (r: Result<Option<Info>>)
    ensures |ToKey(id)| != f.hdr.keySize ==> r == Err(InvalidBlockId)
    ensures f.Lists(s) && f.hdr.keySize == KeySize(s) ==> r == FileLookup(s, id)
  {
    hide ToKey;
    hide Less;
    hide Position;
    hide File.EntryToInfo;
    var e := FindEntry(f, id, s);
    match e {
      case Err(x) => return Err(x);
      case Ok(None) => return Ok(None);
      case Ok(Some(value)) =>
        var i := f.EntryToInfo(id, value);
        match i {
          case Err(x) => return Err(x);
          case Ok(info) => return Ok(Some(info));
        }
    }
  }

  /** An entry with this ID can only be at the lower bound. */
  lemma NotBelowPosition(s: seq<Info>, id: Bytes, p: nat)
    requires Ascending(s) && LowerBound(s, id, p)
    ensures forall i :: 0 <= i < |s| && s[i].blockID == id ==> i == p
  {
    hide Less;
    forall i | 0 <= i < |s| && s[i].blockID == id ensures i == p {
      LessTrichotomy(id, id);
      if i > p {
        LessTrichotomy(s[p].blockID, id);
      }
    }
  }

  lemma {:induction false} PositionBounds(s: seq<Info>, id: Bytes)
    requires Ascending(s)
    ensures LowerBound(s, id, Position(s, id))
  {
    hide Less;
    if s != [] {
      var n := |s| - 1;
      PositionBounds(s[..n], id);
      LessTrichotomy(s[n].blockID, id);
      if AtMost(id, s[n].blockID) {
        forall i | Position(s, id) <= i < |s| ensures AtMost(id, s[i].blockID) {
          assert i < n ==> s[..n][i] == s[i];
        }
      } else {
        forall i | 0 <= i < |s| ensures Less(s[i].blockID, id) {
          if i < n {
            LessTransitive(s[i].blockID, s[n].blockID, id);
          }
        }
      }
    }
  }

  /** For canonical IDs of the right length, looking up a file is looking up the builder. */
  lemma LookupIsFind(s: seq<Info>, b: Index, id: Bytes)
    requires Enumerates(s, b) && s != [] && Canonical(id) && |ToKey(id)| == KeyLength(s)
    requires forall i :: 0 <= i < |s| ==> Canonical(s[i].blockID)
    ensures FileLookup(s, id) == Ok(Find(b, id))
  {
    hide Less;
    hide ToKey;
    hide Canonical;
    hide Position;
    var p := Position(s, id);
    PositionBounds(s, id);
    NotBelowPosition(s, id, p);
    if p < |s| && ToKey(s[p].blockID) == ToKey(id) {
      KeyInjective(s[p].blockID, id);
      assert s[p].(blockID := id) == s[p];
    }
  }

  ghost function Listing(f: File, b: Index): (s: seq<Info>)
    requires Holds(f, b)
    ensures Enumerates(s, b) && f.Lists(s)
  {
    var s :| Enumerates(s, b) && f.Lists(s); s
  }

  /** Visits the entries whose ID starts with `prefix`: exactly those, in ascending order. */
  method Iterate(f: File, prefix: Bytes, ghost s: seq<Info>) returns (r: Result<seq<Info>>)
    ensures f.Lists(s) ==> r == Ok(WithPrefix(s, prefix))
  {
    hide Less;
    hide ToKey;
    hide FromKey;
    hide WithPrefix;
    hide File.EntryToInfo;
    hide File.RowAt;
    var start := FindEntryPosition(f, prefix, s);
    if start.Err? {
      return Err(start.error);
    }
    var out: seq<Info> := [];
    var i := start.value;
    while i < f.hdr.entryCount
      invariant start.value <= i <= f.hdr.entryCount
      invariant f.Lists(s) ==> out == s[start.value..i]
      invariant f.Lists(s) ==> forall k :: start.value <= k < i ==> prefix <= s[k].blockID
    {
      var row := f.RowAt(i);
      assert f.Lists(s) ==> f.RowHolds(i, s[i]);
      if row.None? {
        return Err(ShortRead);
      }
      var key := row.value[..f.hdr.keySize];
      var e := f.EntryToInfo(FromKey(key), row.value[f.hdr.keySize..]);
      if e.Err? {
        return Err(e.error);
      }
      if !(prefix <= e.value.blockID) {
        break;
      }
      out := out + [e.value];
      i := i + 1;
    }
    if f.Lists(s) {
      PrefixRange(s, prefix, start.value, i);
    }
    r := Ok(out);
  }

  lemma PrefixRange(s: seq<Info>, prefix: Bytes, lo: nat, hi: nat)
    requires Ascending(s) && LowerBound(s, prefix, lo) && lo <= hi <= |s|
    requires forall k :: lo <= k < hi ==> prefix <= s[k].blockID
    requires hi < |s| ==> !(prefix <= s[hi].blockID)
    ensures WithPrefix(s, prefix) == s[lo..hi]
  {
    hide Less;
    hide WithPrefix;
    forall i | 0 <= i < |s| ensures prefix <= s[i].blockID <==> lo <= i < hi {
      if i < lo && prefix <= s[i].blockID {
        PrefixAtMost(prefix, s[i].blockID);
      }
      if i >= hi {
        LessTrichotomy(s[hi].blockID, s[i].blockID);
        PrefixPassed(prefix, s[hi].blockID, s[i].blockID);
      }
    }
    WithPrefixIsSlice(s, prefix, lo, hi);
  }

  /** Writing an encodable builder and opening the bytes loses nothing: the opened file
      holds exactly that builder. */
  lemma BuildThenOpen(b: Index, s: seq<Info>) returns (f: File)
    requires Enumerates(s, b) && Encodable(s)
    ensures Encode(s).Ok? && Open(Encode(s).value) == Ok(f) && Holds(f, b) && f.Lists(s)
    ensures f.hdr.keySize == KeySize(s) && forall id :: id in b ==> |ToKey(id)| == f.hdr.keySize
  {
    hide Less;
    hide ToKey;
    hide Encode;
    hide Open;
    hide Canonical;
    hide Representable;
    f := EncodeOpens(s);
    forall id | id in b ensures |ToKey(id)| == f.hdr.keySize {
      var i :| 0 <= i < |s| && s[i].blockID == id;
    }
  }

  /** Two builders that hold different entries never give the same file. */
  lemma EncodeInjective(b: Index, s: seq<Info>, c: Index, t: seq<Info>)
    requires Enumerates(s, b) && Encodable(s)
    requires Enumerates(t, c) && Encodable(t)
    requires Encode(s) == Encode(t)
    ensures b == c
  {
    hide *;
    var f := BuildThenOpen(b, s);
    var g := BuildThenOpen(c, t);
    ListsOnce(f, s, t);
    EnumeratesOnce(s, b, c);
  }

  lemma ListsOnce(f: File, s: seq<Info>, t: seq<Info>)
    requires f.Lists(s) && f.Lists(t)
    ensures s == t
  {
    hide Ascending;
    hide File.EntryToInfo;
    hide File.RowAt;
    hide ToKey;
    hide FromKey;
    forall i | 0 <= i < |s| ensures s[i] == t[i] {
      assert f.RowHolds(i, s[i]) && f.RowHolds(i, t[i]);
    }
  }

  lemma EnumeratesOnce(s: seq<Info>, b: Index, c: Index)
    requires Enumerates(s, b) && Enumerates(s, c)
    ensures b == c
  {
    hide Ascending;
    forall id | id in b ensures id in c && b[id] == c[id] {
      var i :| 0 <= i < |s| && s[i].blockID == id;
    }
    forall id | id in c ensures id in b {
      var i :| 0 <= i < |s| && s[i].blockID == id;
    }
  }
}
