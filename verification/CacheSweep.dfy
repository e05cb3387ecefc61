/** What a sweep of the cache directory leaves behind (block_cache.go). */
module CacheSweep {
  import opened ByteStrings

  datatype Metadata = Metadata(id: Bytes, length: nat, timestamp: int)

  predicate OlderOrSame(a: Metadata, b: Metadata) {
    a.timestamp <= b.timestamp
  }

  predicate Before(a: Metadata, b: Metadata) {
    a.timestamp < b.timestamp
  }

  function Total(s: seq<Metadata>): (r: nat) {
    if s == [] then 0 else Total(s[..|s| - 1]) + s[|s| - 1].length
  }

  /** The blocks taken off the heap whose deletion succeeded. */
  function Deleted(popped: seq<Metadata>, deleteOk: Bytes -> bool): (r: seq<Metadata>)
    ensures |r| <= |popped|
  {
    if popped == [] then []
    else
      var rest, m := Deleted(popped[..|popped| - 1], deleteOk), popped[|popped| - 1];
      if deleteOk(m.id) then rest + [m] else rest
  }

  /** Every block seen is still on the heap or was taken off it, and the running total counts
      those not deleted. */
  ghost predicate Accounted(seen: seq<Metadata>, kept: seq<Metadata>, popped: seq<Metadata>, deleteOk: Bytes -> bool,
                            total: int)
  {
    multiset(seen) == multiset(kept) + multiset(popped) && total == Total(seen) - Total(Deleted(popped, deleteOk))
  }

  predicate Uniform(listing: seq<Metadata>) {
    forall m :: m in listing ==> m.length == listing[0].length > 0
  }

  /** How many blocks of the one length fit. */
  function Capacity(listing: seq<Metadata>, maxSize: nat): (r: nat)
    requires Uniform(listing)
  {
    if listing == [] then 0 else assert listing[0] in listing; maxSize / listing[0].length
  }

  function Min(a: nat, b: nat): nat {
    if a <= b then a else b
  }

  /** As many as fit are kept, and none of them is older than one that was not kept. */
  ghost predicate NewestKept(seen: nat, kept: seq<Metadata>, popped: seq<Metadata>, capacity: nat) {
    && |kept| == Min(seen, capacity)
    && (forall p, k :: p in popped && k in kept ==> OlderOrSame(p, k))
  }

  lemma TotalAppend(s: seq<Metadata>, m: Metadata)
    ensures Total(s + [m]) == Total(s) + m.length
  {
    assert (s + [m])[..|s|] == s;
  }

  lemma DeletedAppend(popped: seq<Metadata>, m: Metadata, deleteOk: Bytes -> bool)
    ensures Deleted(popped + [m], deleteOk)
         == if deleteOk(m.id) then Deleted(popped, deleteOk) + [m] else Deleted(popped, deleteOk)
  {
    assert (popped + [m])[..|popped|] == popped;
  }

  lemma {:induction false} DeletedFrom(popped: seq<Metadata>, deleteOk: Bytes -> bool)
    ensures forall m :: m in Deleted(popped, deleteOk) <==> m in popped && deleteOk(m.id)
  {
    if popped != [] {
      DeletedFrom(popped[..|popped| - 1], deleteOk);
      assert popped == popped[..|popped| - 1] + [popped[|popped| - 1]];
    }
  }

  lemma Pushed(seen: seq<Metadata>, kept: seq<Metadata>, popped: seq<Metadata>, deleteOk: Bytes -> bool, total: int,
               m: Metadata, pushed: seq<Metadata>)
    requires Accounted(seen, kept, popped, deleteOk, total) && multiset(pushed) == multiset(kept) + multiset{m}
    ensures Accounted(seen + [m], pushed, popped, deleteOk, total + m.length)
  {
    TotalAppend(seen, m);
  }

  lemma Popped(seen: seq<Metadata>, kept: seq<Metadata>, popped: seq<Metadata>, deleteOk: Bytes -> bool, total: int,
               m: Metadata, left: seq<Metadata>)
    requires Accounted(seen, kept, popped, deleteOk, total) && multiset(left) + multiset{m} == multiset(kept)
    ensures Accounted(seen, left, popped + [m], deleteOk, if deleteOk(m.id) then total - m.length else total)
  {
    DeletedAppend(popped, m, deleteOk);
    TotalAppend(Deleted(popped, deleteOk), m);
  }

  /** The running total is the length of what is left: on the heap, or taken off but not deleted. */
  lemma {:induction false} TotalIsLeft(seen: seq<Metadata>, kept: seq<Metadata>, popped: seq<Metadata>,
                                       deleteOk: Bytes -> bool, total: int)
    requires Accounted(seen, kept, popped, deleteOk, total)
    ensures total == Total(kept) + Total(Deleted(popped, id => !deleteOk(id)))
  {
    assert multiset(kept + popped) == multiset(seen);
    TotalPermutation(seen, kept + popped);
    TotalConcat(kept, popped);
    TotalSplit(popped, deleteOk);
  }

  lemma {:induction false} TotalConcat(a: seq<Metadata>, b: seq<Metadata>)
    ensures Total(a + b) == Total(a) + Total(b)
  {
    if b == [] {
      assert a + b == a;
    } else {
      var n := |b| - 1;
      TotalConcat(a, b[..n]);
      assert b == b[..n] + [b[n]] && a + b == (a + b[..n]) + [b[n]];
      TotalAppend(a + b[..n], b[n]);
    }
  }

  lemma {:induction false} TotalSplit(popped: seq<Metadata>, deleteOk: Bytes -> bool)
    ensures Total(popped) == Total(Deleted(popped, deleteOk)) + Total(Deleted(popped, id => !deleteOk(id)))
  {
    if popped != [] {
      var n := |popped| - 1;
      var failed := id => !deleteOk(id);
      TotalSplit(popped[..n], deleteOk);
      TotalAppend(Deleted(popped[..n], deleteOk), popped[n]);
      TotalAppend(Deleted(popped[..n], failed), popped[n]);
    }
  }

  lemma {:induction false} TotalPermutation(a: seq<Metadata>, b: seq<Metadata>)
    requires multiset(a) == multiset(b)
    ensures Total(a) == Total(b)
    decreases |a|
  {
    if a == [] {
      assert |multiset(b)| == 0;
    } else {
      var i := LastIn(a, b);
      TotalWithout(b, i);
      TotalPermutation(a[..|a| - 1], Without(b, i));
    }
  }

  lemma LastIn(a: seq<Metadata>, b: seq<Metadata>) returns (i: nat)
    requires multiset(a) == multiset(b) && a != []
    ensures i < |b| && b[i] == a[|a| - 1] && multiset(a[..|a| - 1]) == multiset(Without(b, i))
  {
    var n := |a| - 1;
    assert a[n] in multiset(b);
    i :| 0 <= i < |b| && b[i] == a[n];
    hide Without;
    Removed(b, i);
    assert a == a[..n] + [a[n]];
    assert multiset(a) == multiset(a[..n]) + multiset{a[n]};
    SameRest(multiset(a[..n]), multiset(Without(b, i)), a[n]);
  }

  lemma SameRest(x: multiset<Metadata>, y: multiset<Metadata>, m: Metadata)
    requires x + multiset{m} == y + multiset{m}
    ensures x == y
  {
    assert x == x + multiset{m} - multiset{m} && y == y + multiset{m} - multiset{m};
  }

  lemma Removed(s: seq<Metadata>, i: nat)
    requires i < |s|
    ensures multiset(s) == multiset(Without(s, i)) + multiset{s[i]}
  {
    assert s == s[..i] + [s[i]] + s[i + 1..];
  }

  function Without(s: seq<Metadata>, i: nat): seq<Metadata>
    requires i < |s|
  {
    s[..i] + s[i + 1..]
  }

  lemma TotalWithout(s: seq<Metadata>, i: nat)
    requires i < |s|
    ensures multiset(s) == multiset(Without(s, i)) + multiset{s[i]}
    ensures Total(s) == Total(Without(s, i)) + s[i].length
  {
    hide Total;
    assert s == s[..i] + [s[i]] + s[i + 1..];
    TotalConcat(s[..i] + [s[i]], s[i + 1..]);
    TotalAppend(s[..i], s[i]);
    TotalConcat(s[..i], s[i + 1..]);
  }

  lemma {:induction false} UniformTotal(s: seq<Metadata>, length: nat)
    requires forall m :: m in s ==> m.length == length
    ensures Total(s) == |s| * length
  {
    if s != [] {
      var n := |s| - 1;
      UniformTotal(s[..n], length);
      assert s[n] in s;
      assert |s| * length == n * length + length;
    }
  }

  lemma OverCapacity(n: nat, length: nat, maxSize: nat)
    requires length > 0
    ensures n * length > maxSize <==> n > maxSize / length
  {
    var c := maxSize / length;
    assert c * length <= maxSize < (c + 1) * length;
    if n > c {
      assert n * length >= (c + 1) * length;
    } else {
      assert n * length <= c * length;
    }
  }

  lemma Counted(seen: seq<Metadata>, kept: seq<Metadata>, popped: seq<Metadata>, deleteOk: Bytes -> bool, total: int)
    requires Accounted(seen, kept, popped, deleteOk, total)
    ensures |seen| == |kept| + |popped|
    ensures forall m :: m in Deleted(popped, deleteOk) ==> m in seen
  {
    assert |multiset(seen)| == |multiset(kept)| + |multiset(popped)|;
    DeletedFrom(popped, deleteOk);
    forall m | m in popped ensures m in seen {
      assert m in multiset(seen);
    }
  }

  lemma Distribute(a: nat, b: nat, length: nat)
    ensures a * length - b * length == (a - b) * length
  {
  }

  /** With one length, the total exceeds the limit exactly when too many blocks are left. */
  lemma TotalIsOver(listing: seq<Metadata>, seen: seq<Metadata>, kept: seq<Metadata>, popped: seq<Metadata>,
                    deleteOk: Bytes -> bool, total: int, maxSize: nat)
    requires Uniform(listing) && seen <= listing && seen != []
    requires Accounted(seen, kept, popped, deleteOk, total)
    ensures total > maxSize <==> |kept| + |popped| - |Deleted(popped, deleteOk)| > Capacity(listing, maxSize)
  {
    hide Deleted;
    hide Total;
    var length := listing[0].length;
    assert listing[0] in listing;
    Counted(seen, kept, popped, deleteOk, total);
    forall m | m in seen ensures m.length == length {
      assert m in listing;
    }
    UniformTotal(seen, length);
    UniformTotal(Deleted(popped, deleteOk), length);
    var n := |seen| - |Deleted(popped, deleteOk)|;
    Distribute(|seen|, |Deleted(popped, deleteOk)|, length);
    OverCapacity(n, length, maxSize);
  }

  /** Pushing a block while there is room. */
  lemma KeptRoom(seen: nat, kept: seq<Metadata>, popped: seq<Metadata>, capacity: nat, pushed: seq<Metadata>)
    requires NewestKept(seen, kept, popped, capacity) && seen < capacity && popped == []
    requires |pushed| == |kept| + 1
    ensures NewestKept(seen + 1, pushed, popped, capacity)
  {
  }

  /** Pushing a block when full and taking the oldest off. */
  lemma KeptFull(seen: nat, kept: seq<Metadata>, popped: seq<Metadata>, capacity: nat, m: Metadata,
                 oldest: Metadata, left: seq<Metadata>)
    requires NewestKept(seen, kept, popped, capacity) && seen >= capacity
    requires multiset(left) + multiset{oldest} == multiset(kept) + multiset{m} && |left| == |kept|
    requires OlderOrSame(oldest, m) && (forall k :: k in kept ==> OlderOrSame(oldest, k))
    ensures NewestKept(seen + 1, left, popped + [oldest], capacity)
  {
    forall p, k | p in popped + [oldest] && k in left ensures OlderOrSame(p, k) {
      LeftFrom(kept, m, oldest, left, k);
      if p in popped && k !in kept {
        OldestKept(kept, m, oldest, left);
        assert OlderOrSame(p, oldest);
      }
    }
  }

  lemma LeftFrom(kept: seq<Metadata>, m: Metadata, oldest: Metadata, left: seq<Metadata>, k: Metadata)
    requires multiset(left) + multiset{oldest} == multiset(kept) + multiset{m} && k in left
    ensures k in kept || k == m
  {
    assert k in multiset(left) + multiset{oldest};
    assert k in multiset(kept) + multiset{m};
  }

  lemma OldestKept(kept: seq<Metadata>, m: Metadata, oldest: Metadata, left: seq<Metadata>)
    requires multiset(left) + multiset{oldest} == multiset(kept) + multiset{m} && m in left && m !in kept
    ensures oldest in kept
  {
    assert m in multiset(left) && m !in multiset(kept);
    assert (multiset(kept) + multiset{m})[m] == 1;
    assert oldest != m;
    assert oldest in multiset(kept) + multiset{m};
  }

  predicate DistinctIds(s: seq<Metadata>) {
    forall i, j :: 0 <= i < j < |s| ==> s[i].id != s[j].id
  }

  function Ids(s: seq<Metadata>): (r: set<Bytes>) {
    set m | m in s :: m.id
  }

  lemma {:induction false} DistinctCount(s: seq<Metadata>)
    requires DistinctIds(s)
    ensures |Ids(s)| == |s|
  {
    if s == [] {
      assert Ids(s) == {};
    } else {
      var n := |s| - 1;
      DistinctCount(s[..n]);
      assert s == s[..n] + [s[n]];
      assert Ids(s) == Ids(s[..n]) + {s[n].id};
      assert s[n].id !in Ids(s[..n]);
    }
  }

  lemma SameId(s: seq<Metadata>, a: Metadata, b: Metadata)
    requires DistinctIds(s) && a in s && b in s && a.id == b.id
    ensures a == b
  {
  }

  lemma {:induction false} OnceEach(s: seq<Metadata>, m: Metadata)
    requires DistinctIds(s)
    ensures multiset(s)[m] <= 1
  {
    if s != [] {
      var n := |s| - 1;
      OnceEach(s[..n], m);
      assert s == s[..n] + [s[n]];
      assert m == s[n] ==> m !in s[..n];
    }
  }

  lemma TwiceIn(s: seq<Metadata>, i: nat, j: nat)
    requires i < j < |s| && s[i] == s[j]
    ensures multiset(s)[s[i]] >= 2
  {
    assert s == s[..i] + [s[i]] + s[i + 1..];
    assert s[j] in s[i + 1..];
  }

  /** Blocks kept and blocks taken off have different IDs, as those listed have. */
  lemma PartsDistinct(listing: seq<Metadata>, kept: seq<Metadata>, popped: seq<Metadata>)
    requires DistinctIds(listing) && multiset(listing) == multiset(kept) + multiset(popped)
    ensures DistinctIds(kept + popped) && Ids(listing) == Ids(kept) + Ids(popped) && Ids(kept) !! Ids(popped)
  {
    var all := kept + popped;
    assert multiset(all) == multiset(listing);
    SameMembers(listing, all);
    forall i, j | 0 <= i < j < |all| ensures all[i].id != all[j].id {
      if all[i].id == all[j].id {
        SameId(listing, all[i], all[j]);
        TwiceIn(all, i, j);
        OnceEach(listing, all[i]);
      }
    }
    forall k, p | k in kept && p in popped ensures k.id != p.id {
      var i :| 0 <= i < |kept| && kept[i] == k;
      var j :| 0 <= j < |popped| && popped[j] == p;
      assert all[i] == k && all[|kept| + j] == p;
    }
    assert Ids(listing) == Ids(all);
  }

  lemma SameMembers(a: seq<Metadata>, b: seq<Metadata>)
    requires multiset(a) == multiset(b)
    ensures forall m :: m in a <==> m in b
  {
    forall m ensures m in a <==> m in b {
      assert m in multiset(a) <==> m in multiset(b);
    }
  }
}
