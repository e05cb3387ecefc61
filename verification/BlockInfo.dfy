/** Index entries and the builder map that collects them (info.go, builder.go). */
module BlockInfo {
  import opened ByteStrings

  /** What is known about one block. `payload` is set only for blocks still held inline. */
  datatype Info = Info(
    blockID: Bytes,
    length: uint32,
    timestamp: int64,
    packFile: Bytes,
    packOffset: uint32,
    deleted: bool,
    payload: Option<Bytes>,
    formatVersion: byte)

  /** The contents of a `packIndexBuilder`, and of the index file built from it. */
  type Index = map<Bytes, Info>

  predicate Keyed(b: Index) {
    forall id :: id in b ==> b[id].blockID == id
  }

  /** `packIndexBuilder.Add`: a new entry replaces one that is not newer. */
  function AddTo(b: Index, i: Info): (r: Index) {
    if i.blockID !in b || i.timestamp >= b[i.blockID].timestamp then b[i.blockID := i] else b
  }

  function Find(b: Index, id: Bytes): Option<Info> {
    if id in b then Some(b[id]) else None
  }

  /** `x` is preferred to, or as good as, `y`: newer, or equally new and not a tombstone
      where `y` is live. */
  predicate NotOlder(x: Info, y: Info) {
    y.timestamp < x.timestamp || (y.timestamp == x.timestamp && (x.deleted ==> y.deleted))
  }

  /* ----- sorted enumeration ----- */

  predicate Ascending(s: seq<Info>) {
    forall i, j :: 0 <= i < j < |s| ==> Less(s[i].blockID, s[j].blockID)
  }

  /** `s` lists the entries of `b` in ascending order of block ID. */
  ghost predicate Enumerates(s: seq<Info>, b: Index) {
    && Ascending(s)
    && (forall i :: 0 <= i < |s| ==> s[i].blockID in b && b[s[i].blockID] == s[i])
    && (forall id :: id in b ==> exists i :: 0 <= i < |s| && s[i].blockID == id)
  }

  /** The last entry of an enumeration is the one with the greatest ID. */
  lemma LastIsGreatest(s: seq<Info>, t: seq<Info>, b: Index)
    requires s != [] && Enumerates(s, b) && Enumerates(t, b)
    ensures t != [] && t[|t| - 1] == s[|s| - 1]
  {
    hide Less;
    var x := s[|s| - 1];
    var i :| 0 <= i < |t| && t[i].blockID == x.blockID;
    if i < |t| - 1 {
      var y := t[|t| - 1];
      var j :| 0 <= j < |s| && s[j].blockID == y.blockID;
      LessTrichotomy(x.blockID, y.blockID);
      LessTrichotomy(x.blockID, x.blockID);
    }
  }

  lemma DropLast(s: seq<Info>, b: Index)
    requires s != [] && Enumerates(s, b)
    ensures Enumerates(s[..|s| - 1], b - {s[|s| - 1].blockID})
  {
    hide Less;
    var n := |s| - 1;
    forall i | 0 <= i < n ensures s[i].blockID != s[n].blockID {
      LessTrichotomy(s[i].blockID, s[n].blockID);
    }
    var c := b - {s[n].blockID};
    forall id | id in c ensures exists i :: 0 <= i < n && s[..n][i].blockID == id {
      var i :| 0 <= i < |s| && s[i].blockID == id;
      assert s[..n][i] == s[i];
    }
  }

  /** A builder has exactly one sorted enumeration. */
  lemma {:induction false} EnumerationUnique(s: seq<Info>, t: seq<Info>, b: Index)
    requires Enumerates(s, b) && Enumerates(t, b)
    ensures s == t
  {
    hide Enumerates;
    if s == [] && t != [] {
      LastIsGreatest(t, s, b);
    } else if s != [] {
      LastIsGreatest(s, t, b);
      DropLast(s, b);
      DropLast(t, b);
      EnumerationUnique(s[..|s| - 1], t[..|t| - 1], b - {s[|s| - 1].blockID});
      assert s == s[..|s| - 1] + [s[|s| - 1]] && t == t[..|t| - 1] + [t[|t| - 1]];
    }
  }

  lemma {:induction false} EnumerationLength(s: seq<Info>, b: Index)
    requires Enumerates(s, b)
    ensures |s| == |b|
  {
    if s == [] {
      assert b == map[];
    } else {
      DropLast(s, b);
      EnumerationLength(s[..|s| - 1], b - {s[|s| - 1].blockID});
      assert b.Keys == (b - {s[|s| - 1].blockID}).Keys + {s[|s| - 1].blockID};
    }
  }

  lemma {:induction false} EnumerationExists(b: Index)
    requires Keyed(b)
    ensures exists s :: Enumerates(s, b)
    decreases |b|
  {
    hide Enumerates;
    if b == map[] {
      NothingEnumerated();
      assert Enumerates([], b);
    } else {
      var id :| id in b;
      var c := b - {id};
      assert b == c[id := b[id]];
      EnumerationExists(c);
      var t :| Enumerates(t, c);
      var s := InsertEnumerated(t, b[id], c);
      assert Enumerates(s, b);
    }
  }

  lemma NothingEnumerated()
    ensures Enumerates([], map[])
  {
  }

  /** A new entry has a place in a sorted enumeration. */
  lemma {:induction false} InsertEnumerated(t: seq<Info>, x: Info, c: Index) returns (s: seq<Info>)
    requires Enumerates(t, c) && x.blockID !in c
    ensures Enumerates(s, c[x.blockID := x])
  {
    hide Less;
    var k := InsertPosition(t, x.blockID);
    forall i | 0 <= i < |t| ensures t[i].blockID != x.blockID {}
    s := t[..k] + [x] + t[k..];
    InsertedEnumerates(t, x, c, k, s);
  }

  lemma {:induction false} InsertPosition(t: seq<Info>, id: Bytes) returns (k: nat)
    requires Ascending(t) && forall i :: 0 <= i < |t| ==> t[i].blockID != id
    ensures k <= |t|
    ensures forall i :: 0 <= i < k ==> Less(t[i].blockID, id)
    ensures forall i :: k <= i < |t| ==> Less(id, t[i].blockID)
  {
    hide Less;
    if t == [] {
      k := 0;
    } else {
      var n := |t| - 1;
      LessTrichotomy(t[n].blockID, id);
      if Less(t[n].blockID, id) {
        k := |t|;
        forall i | 0 <= i < k ensures Less(t[i].blockID, id) {
          LessTransitive(t[i].blockID, t[n].blockID, id);
        }
      } else {
        k := InsertPosition(t[..n], id);
      }
    }
  }

  lemma InsertedEnumerates(s: seq<Info>, it: Info, b: Index, k: nat, r: seq<Info>)
    requires Enumerates(s, b) && it.blockID !in b
    requires k <= |s| && r == s[..k] + [it] + s[k..]
    requires forall i :: 0 <= i < k ==> Less(s[i].blockID, it.blockID)
    requires forall i :: k <= i < |s| ==> Less(it.blockID, s[i].blockID)
    ensures Enumerates(r, b[it.blockID := it])
  {
    hide Less;
    var c := b[it.blockID := it];
    forall id | id in c ensures exists i :: 0 <= i < |r| && r[i].blockID == id {
      if id == it.blockID {
        assert r[k] == it;
      } else {
        var i :| 0 <= i < |s| && s[i].blockID == id;
        assert r[if i < k then i else i + 1] == s[i];
      }
    }
  }

  /** The entries of a builder in ascending order of ID. */
  ghost function Sorted(b: Index): (s: seq<Info>)
    requires Keyed(b)
    ensures Enumerates(s, b)
  {
    EnumerationExists(b);
    var s :| Enumerates(s, b); s
  }

  /** The entries of `s` whose block ID starts with `prefix`, in order. */
  function WithPrefix(s: seq<Info>, prefix: Bytes): (r: seq<Info>) {
    if s == [] then []
    else
      var r := WithPrefix(s[..|s| - 1], prefix);
      var last := s[|s| - 1];
      if prefix <= last.blockID then r + [last] else r
  }

  lemma {:induction false} WithPrefixIsSlice(s: seq<Info>, prefix: Bytes, lo: nat, hi: nat)
    requires lo <= hi <= |s|
    requires forall i :: 0 <= i < |s| ==> (prefix <= s[i].blockID <==> lo <= i < hi)
    ensures WithPrefix(s, prefix) == s[lo..hi]
  {
    if s != [] {
      var n := |s| - 1;
      var t := s[..n];
      if lo > n {
        WithPrefixIsSlice(t, prefix, n, n);
      } else if hi > n {
        WithPrefixIsSlice(t, prefix, lo, n);
        assert s[lo..hi] == t[lo..n] + [s[n]];
      } else {
        WithPrefixIsSlice(t, prefix, lo, hi);
        assert s[lo..hi] == t[lo..hi];
      }
    }
  }

  lemma {:induction false} EmptyPrefixKeepsAll(s: seq<Info>)
    ensures WithPrefix(s, []) == s
  {
    if s != [] {
      EmptyPrefixKeepsAll(s[..|s| - 1]);
    }
  }

  /** Exactly the entries with the prefix are kept, and they stay in ascending order. */
  lemma {:induction false} WithPrefixContents(s: seq<Info>, prefix: Bytes)
    requires Ascending(s)
    ensures Ascending(WithPrefix(s, prefix))
    ensures forall x :: x in WithPrefix(s, prefix) <==> x in s && prefix <= x.blockID
  {
    if s != [] {
      var n := |s| - 1;
      var t := s[..n];
      WithPrefixContents(t, prefix);
      assert s == t + [s[n]];
      var r := WithPrefix(t, prefix);
      forall i | 0 <= i < |r| ensures Less(r[i].blockID, s[n].blockID) {
        assert r[i] in t;
      }
    }
  }

  /* ----- adding whole indexes ----- */

  /** The builder after every entry of an index file was added to it. */
  function AddAll(bld: Index, idx: Index): (r: Index) {
    map id | id in bld.Keys + idx.Keys ::
      if id in idx && (id !in bld || idx[id].timestamp >= bld[id].timestamp) then idx[id] else bld[id]
  }

  function AddSeq(bld: Index, s: seq<Info>): (r: Index) {
    if s == [] then bld else AddTo(AddSeq(bld, s[..|s| - 1]), s[|s| - 1])
  }

  lemma {:induction false} AddSeqIsAddAll(bld: Index, s: seq<Info>, idx: Index)
    requires Enumerates(s, idx)
    ensures AddSeq(bld, s) == AddAll(bld, idx)
  {
    hide Enumerates;
    if s == [] {
      assert idx == map[] by { NoEntries(idx); }
    } else {
      var last := s[|s| - 1];
      DropLast(s, idx);
      LastInIndex(s, idx);
      AddSeqIsAddAll(bld, s[..|s| - 1], idx - {last.blockID});
    }
  }

  lemma NoEntries(idx: Index)
    requires Enumerates([], idx)
    ensures idx == map[]
  {
  }

  lemma LastInIndex(s: seq<Info>, idx: Index)
    requires Enumerates(s, idx) && s != []
    ensures s[|s| - 1].blockID in idx && idx[s[|s| - 1].blockID] == s[|s| - 1]
  {
  }
}
