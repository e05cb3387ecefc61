/** The cache of block contents in front of the storage (block_cache.go, cache_hmac.go). */
module BlockCache {
  import opened ByteStrings
  import opened ContentId
  import opened CacheSweep
  import opened ContainerHeap
  import opened FormatBlock

  /** Block IDs of odd length have a one-character prefix, which moves to the end. */
  function AdjustCacheKey(k: Bytes): (r: Bytes) {
    if |k| % 2 == 1 then k[1..] + k[..1] else k
  }

  /** The files of blocks are kept under their hashes first, so that those with one prefix spread as
      evenly as the others. */
  lemma AdjustedBlockId(prefix: Bytes, hash: Bytes)
    requires |prefix| <= 1
    ensures AdjustCacheKey(prefix + HexEncode(hash)) == HexEncode(hash) + prefix
  {
    hide HexEncode;
    var h := HexEncode(hash);
    var k := prefix + h;
    assert |k| % 2 == |prefix|;
    assert k[|prefix|..] == h && k[..|prefix|] == prefix;
    assert prefix == [] ==> k == h + prefix;
  }

  /** Two blocks never share a cache key. */
  lemma AdjustInjective(a: Bytes, b: Bytes)
    requires AdjustCacheKey(a) == AdjustCacheKey(b)
    ensures a == b
  {
    var r := AdjustCacheKey(a);
    assert |a| == |r| == |b|;
    if |a| % 2 == 1 {
      var n := |r| - 1;
      assert a[1..] == r[..n] == b[1..] && a[..1] == r[n..] == b[..1];
      assert a == a[..1] + a[1..] && b == b[..1] + b[1..];
    }
  }

  datatype Item = Item(content: Bytes, timestamp: int)
  type Cache = map<Bytes, Item>

  /** What happens to the cache. A read of a block fetches it from the storage with the
      outcome `fetched`; reading and writing the cache file may fail. Sweeps remove files, and
      files may be damaged or appear from elsewhere. */
  datatype Action =
    | Read(id: Bytes, useCache: bool, readable: bool, fetched: Result<Bytes>, putOk: bool, now: int)
    | Evict(keys: set<Bytes>)
    | Damage(key: Bytes, content: Bytes, timestamp: int)

  /** The verified content of a cache file. */
  function Verified(mac: Bytes -> Bytes, cache: Cache, key: Bytes): (r: Option<Bytes>) {
    if key in cache then VerifyChecksum(mac, cache[key].content) else None
  }

  function CacheHit(mac: Bytes -> Bytes, cache: Cache, a: Action): (r: Option<Bytes>)
    requires a.Read?
  {
    if a.useCache && a.readable then Verified(mac, cache, AdjustCacheKey(a.id)) else None
  }

  /** What `getContentBlock` returns. */
  function Answer(mac: Bytes -> Bytes, cache: Cache, a: Action): (r: Result<Bytes>)
    requires a.Read?
  {
    var hit := CacheHit(mac, cache, a);
    if hit.Some? then Ok(hit.value) else a.fetched
  }

  /** A file that is used is marked as used now, unless that was done recently. */
  function Touch(item: Item, threshold: int, now: int): (r: Item) {
    if now - item.timestamp < threshold then item else item.(timestamp := now)
  }

  function Next(mac: Bytes -> Bytes, threshold: int, cache: Cache, a: Action): (r: Cache) {
    match a
    case Read(id, useCache, _, fetched, putOk, now) =>
      var key := AdjustCacheKey(id);
      if CacheHit(mac, cache, a).Some? then cache[key := Touch(cache[key], threshold, now)]
      else if fetched.Ok? && useCache && putOk then cache[key := Item(fetched.value + mac(fetched.value), now)]
      else cache
    case Evict(keys) => cache - keys
    case Damage(key, content, timestamp) => cache[key := Item(content, timestamp)]
  }

  function Run(mac: Bytes -> Bytes, threshold: int, cache: Cache, actions: seq<Action>): (r: Cache) {
    if actions == [] then cache
    else Next(mac, threshold, Run(mac, threshold, cache, actions[..|actions| - 1]), actions[|actions| - 1])
  }

  /** Every place a block's bytes are fetched from holds the same bytes, and damage does not
      produce a valid checksum. */
  predicate Legal(mac: Bytes -> Bytes, truth: Bytes -> Bytes, a: Action) {
    match a
    case Read(id, _, _, fetched, _, _) => fetched.Ok? ==> fetched.value == truth(id)
    case Evict(_) => true
    case Damage(_, content, _) => VerifyChecksum(mac, content).None?
  }

  /** Every cache file that verifies holds the bytes of the block it is filed under. */
  ghost predicate Sound(mac: Bytes -> Bytes, truth: Bytes -> Bytes, cache: Cache) {
    forall id :: Verified(mac, cache, AdjustCacheKey(id)).Some? ==>
      Verified(mac, cache, AdjustCacheKey(id)).value == truth(id)
  }

  lemma NextKeepsSound(mac: Bytes -> Bytes, truth: Bytes -> Bytes, threshold: int, cache: Cache, a: Action)
    requires IsChecksum(mac) && Sound(mac, truth, cache) && Legal(mac, truth, a)
    ensures Sound(mac, truth, Next(mac, threshold, cache, a))
  {
    hide AdjustCacheKey;
    hide VerifyChecksum;
    var next := Next(mac, threshold, cache, a);
    forall id | Verified(mac, next, AdjustCacheKey(id)).Some?
      ensures Verified(mac, next, AdjustCacheKey(id)).value == truth(id)
    {
      match a {
        case Read(other, _, _, fetched, _, _) =>
          if AdjustCacheKey(other) == AdjustCacheKey(id) {
            AdjustInjective(other, id);
            if fetched.Ok? {
              ChecksumVerifies(mac, fetched.value);
            }
          }
        case Evict(_) =>
        case Damage(_, _, _) =>
      }
    }
  }

  /** Over every run of reads, sweeps, failed cache reads and writes and damaged files: each read
      that succeeds returns the block's own bytes, and a read never fails when the storage
      has the block. */
  lemma {:induction false} ReadsAreRight(mac: Bytes -> Bytes, truth: Bytes -> Bytes, threshold: int, cache: Cache,
                                         actions: seq<Action>, a: Action)
    requires IsChecksum(mac) && Sound(mac, truth, cache)
    requires (forall b :: b in actions ==> Legal(mac, truth, b)) && Legal(mac, truth, a) && a.Read?
    ensures Sound(mac, truth, Run(mac, threshold, cache, actions))
    ensures var r := Answer(mac, Run(mac, threshold, cache, actions), a);
      (r.Ok? ==> r.value == truth(a.id)) && (a.fetched.Ok? ==> r.Ok?)
  {
    hide Next;
    hide Legal;
    if actions != [] {
      var n := |actions| - 1;
      ReadsAreRight(mac, truth, threshold, cache, actions[..n], a);
      assert actions[n] in actions;
      NextKeepsSound(mac, truth, threshold, Run(mac, threshold, cache, actions[..n]), actions[n]);
    }
    SoundAnswer(mac, truth, Run(mac, threshold, cache, actions), a);
  }

  lemma SoundAnswer(mac: Bytes -> Bytes, truth: Bytes -> Bytes, cache: Cache, a: Action)
    requires Sound(mac, truth, cache) && Legal(mac, truth, a) && a.Read?
    ensures Answer(mac, cache, a).Ok? ==> Answer(mac, cache, a).value == truth(a.id)
    ensures a.fetched.Ok? ==> Answer(mac, cache, a).Ok?
  {
    assert a.useCache && a.readable ==> CacheHit(mac, cache, a) == Verified(mac, cache, AdjustCacheKey(a.id));
  }

  /** Neither swept away nor damaged. */
  predicate Spares(a: Action, key: Bytes) {
    match a
    case Read(_, _, _, _, _, _) => true
    case Evict(keys) => key !in keys
    case Damage(k, _, _) => k != key
  }

  /** A block read through the cache once is then served from it, whatever the storage does,
      until its file is swept away or damaged. */
  lemma {:induction false} CachedBlockStays(mac: Bytes -> Bytes, truth: Bytes -> Bytes, threshold: int, cache: Cache,
                                            first: Action, actions: seq<Action>)
    requires IsChecksum(mac) && Sound(mac, truth, cache)
    requires Legal(mac, truth, first) && (forall b :: b in actions ==> Legal(mac, truth, b))
    requires first.Read? && first.useCache && first.putOk && Answer(mac, cache, first).Ok?
    requires forall b :: b in actions ==> Spares(b, AdjustCacheKey(first.id))
    ensures Verified(mac, Run(mac, threshold, Next(mac, threshold, cache, first), actions), AdjustCacheKey(first.id))
         == Some(truth(first.id))
  {
    hide AdjustCacheKey;
    hide VerifyChecksum;
    hide Legal;
    hide Next;
    if actions == [] {
      FirstRead(mac, truth, threshold, cache, first);
    } else {
      var n := |actions| - 1;
      CachedBlockStays(mac, truth, threshold, cache, first, actions[..n]);
      assert actions[n] in actions;
      NextKeepsHit(mac, truth, threshold,
                   Run(mac, threshold, Next(mac, threshold, cache, first), actions[..n]), actions[n], first.id);
    }
  }

  /** So it is read without the storage, which may then fail. */
  lemma ServedFromCache(mac: Bytes -> Bytes, truth: Bytes -> Bytes, threshold: int, cache: Cache,
                        first: Action, actions: seq<Action>, a: Action)
    requires IsChecksum(mac) && Sound(mac, truth, cache)
    requires Legal(mac, truth, first) && (forall b :: b in actions ==> Legal(mac, truth, b))
    requires first.Read? && first.useCache && first.putOk && Answer(mac, cache, first).Ok?
    requires forall b :: b in actions ==> Spares(b, AdjustCacheKey(first.id))
    requires a.Read? && a.id == first.id && a.useCache && a.readable
    ensures Answer(mac, Run(mac, threshold, Next(mac, threshold, cache, first), actions), a) == Ok(truth(first.id))
  {
    hide AdjustCacheKey;
    hide Verified;
    hide Sound;
    hide Legal;
    hide Spares;
    hide Next;
    hide Run;
    CachedBlockStays(mac, truth, threshold, cache, first, actions);
  }

  /** A read that bypasses the cache is answered by the storage and leaves no trace. */
  lemma BypassedCache(mac: Bytes -> Bytes, threshold: int, cache: Cache, a: Action)
    requires a.Read? && !a.useCache
    ensures Answer(mac, cache, a) == a.fetched && Next(mac, threshold, cache, a) == cache
  {
  }

  /** A block that was swept away is fetched again, and no other is. */
  lemma SweptAway(mac: Bytes -> Bytes, threshold: int, cache: Cache, keys: set<Bytes>, a: Action)
    requires a.Read?
    ensures Answer(mac, Next(mac, threshold, cache, Evict(keys)), a) ==
      if AdjustCacheKey(a.id) in keys then a.fetched else Answer(mac, cache, a)
  {
    hide AdjustCacheKey;
    hide VerifyChecksum;
  }

  lemma FirstRead(mac: Bytes -> Bytes, truth: Bytes -> Bytes, threshold: int, cache: Cache, a: Action)
    requires IsChecksum(mac) && Sound(mac, truth, cache) && Legal(mac, truth, a)
    requires a.Read? && a.useCache && a.putOk && Answer(mac, cache, a).Ok?
    ensures Verified(mac, Next(mac, threshold, cache, a), AdjustCacheKey(a.id)) == Some(truth(a.id))
  {
    hide AdjustCacheKey;
    hide VerifyChecksum;
    if a.fetched.Ok? {
      ChecksumVerifies(mac, a.fetched.value);
    }
  }

  lemma NextKeepsHit(mac: Bytes -> Bytes, truth: Bytes -> Bytes, threshold: int, cache: Cache, a: Action, id: Bytes)
    requires IsChecksum(mac) && Legal(mac, truth, a) && Spares(a, AdjustCacheKey(id))
    requires Verified(mac, cache, AdjustCacheKey(id)) == Some(truth(id))
    ensures Verified(mac, Next(mac, threshold, cache, a), AdjustCacheKey(id)) == Some(truth(id))
  {
    hide AdjustCacheKey;
    hide VerifyChecksum;
    if a.Read? && AdjustCacheKey(a.id) == AdjustCacheKey(id) {
      AdjustInjective(a.id, id);
      if a.fetched.Ok? {
        ChecksumVerifies(mac, a.fetched.value);
      }
    }
  }

  /** A listing of the cache directory, in some order. */
  ghost predicate Lists(listing: seq<Metadata>, cache: Cache) {
    && DistinctIds(listing) && Ids(listing) == cache.Keys
    && (forall m :: m in listing ==>
          m.id in cache && m.length == |cache[m.id].content| && m.timestamp == cache[m.id].timestamp)
  }

  /** After a sweep of files of one length with nothing in the way of deleting, exactly as many
      files are left as fit, none of them older than a file that went, and they fit. */
  lemma SurvivorsAreNewest(cache: Cache, listing: seq<Metadata>, kept: seq<Metadata>, popped: seq<Metadata>,
                           deleteOk: Bytes -> bool, total: int, maxSize: nat)
    requires Lists(listing, cache) && Uniform(listing) && (forall k :: k in cache ==> deleteOk(k))
    requires Accounted(listing, kept, popped, deleteOk, total)
    requires NewestKept(|listing|, kept, popped, Capacity(listing, maxSize))
    ensures var left := cache - Ids(Deleted(popped, deleteOk));
      && |left| == Min(|cache|, Capacity(listing, maxSize))
      && (forall gone, k :: gone in cache && gone !in left && k in left ==> cache[gone].timestamp <= cache[k].timestamp)
      && total <= maxSize
  {
    hide *;
    LeftKeys(cache, listing, kept, popped, deleteOk, total);
    LeftCount(cache, listing, kept, popped, deleteOk, total);
    LeftNewest(cache, listing, kept, popped, deleteOk, total, Capacity(listing, maxSize));
    LeftFits(listing, kept, popped, deleteOk, total, maxSize);
    KeptCount(|listing|, kept, popped, Capacity(listing, maxSize));
  }

  /** The mark of a block that was read is not older than the threshold before that. */
  ghost predicate Marked(cache: Cache, key: Bytes, used: int, threshold: int) {
    key in cache && cache[key].timestamp > used - threshold
  }

  /** A block read through the cache stays marked as used then, whatever happens to other files. */
  lemma {:induction false} ReadsAreMarked(mac: Bytes -> Bytes, threshold: int, cache: Cache, first: Action, actions: seq<Action>)
    requires threshold > 0 && first.Read? && first.useCache && first.putOk && Answer(mac, cache, first).Ok?
    requires forall b :: b in actions ==> Spares(b, AdjustCacheKey(first.id)) && (b.Read? ==> b.now >= first.now)
    ensures Marked(Run(mac, threshold, Next(mac, threshold, cache, first), actions), AdjustCacheKey(first.id), first.now, threshold)
  {
    hide AdjustCacheKey;
    hide VerifyChecksum;
    if actions != [] {
      var n := |actions| - 1;
      ReadsAreMarked(mac, threshold, cache, first, actions[..n]);
      assert actions[n] in actions;
    }
  }

  /** Hence a sweep does not drop it while it leaves a file that was last marked before that. */
  lemma RecentlyUsedStays(mac: Bytes -> Bytes, threshold: int, before: Cache, first: Action, actions: seq<Action>,
                          listing: seq<Metadata>, kept: seq<Metadata>, popped: seq<Metadata>,
                          deleteOk: Bytes -> bool, total: int, maxSize: nat, other: Bytes)
    requires threshold > 0 && first.Read? && first.useCache && first.putOk && Answer(mac, before, first).Ok?
    requires forall b :: b in actions ==> Spares(b, AdjustCacheKey(first.id)) && (b.Read? ==> b.now >= first.now)
    requires var cache := Run(mac, threshold, Next(mac, threshold, before, first), actions);
      && Lists(listing, cache) && Uniform(listing) && (forall k :: k in cache ==> deleteOk(k))
      && Accounted(listing, kept, popped, deleteOk, total)
      && NewestKept(|listing|, kept, popped, Capacity(listing, maxSize))
      && other in cache - Ids(Deleted(popped, deleteOk)) && cache[other].timestamp <= first.now - threshold
    ensures AdjustCacheKey(first.id) in Run(mac, threshold, Next(mac, threshold, before, first), actions) - Ids(Deleted(popped, deleteOk))
  {
    hide *;
    var cache := Run(mac, threshold, Next(mac, threshold, before, first), actions);
    ReadsAreMarked(mac, threshold, before, first, actions);
    SurvivorsAreNewest(cache, listing, kept, popped, deleteOk, total, maxSize);
    MarkedIs(cache, AdjustCacheKey(first.id), first.now, threshold);
  }

  lemma MarkedIs(cache: Cache, key: Bytes, used: int, threshold: int)
    requires Marked(cache, key, used, threshold)
    ensures key in cache && cache[key].timestamp > used - threshold
  {
  }

  lemma KeptCount(seen: nat, kept: seq<Metadata>, popped: seq<Metadata>, capacity: nat)
    requires NewestKept(seen, kept, popped, capacity)
    ensures |kept| == Min(seen, capacity)
  {
  }

  lemma LeftKeys(cache: Cache, listing: seq<Metadata>, kept: seq<Metadata>, popped: seq<Metadata>,
                 deleteOk: Bytes -> bool, total: int)
    requires Lists(listing, cache) && Accounted(listing, kept, popped, deleteOk, total)
    requires forall k :: k in cache ==> deleteOk(k)
    ensures (cache - Ids(Deleted(popped, deleteOk))).Keys == Ids(kept)
    ensures Deleted(popped, deleteOk) == popped && DistinctIds(kept + popped) && cache.Keys == Ids(kept) + Ids(popped)
  {
    PartsDistinct(listing, kept, popped);
    PoppedAllDeleted(listing, kept, popped, deleteOk);
  }

  lemma LeftCount(cache: Cache, listing: seq<Metadata>, kept: seq<Metadata>, popped: seq<Metadata>,
                  deleteOk: Bytes -> bool, total: int)
    requires Lists(listing, cache) && Accounted(listing, kept, popped, deleteOk, total)
    requires forall k :: k in cache ==> deleteOk(k)
    ensures |cache - Ids(Deleted(popped, deleteOk))| == |kept| && |cache| == |listing|
  {
    LeftKeys(cache, listing, kept, popped, deleteOk, total);
    hide Accounted;
    hide Ids;
    DistinctCount(listing);
    DistinctPart(kept, popped);
    DistinctCount(kept);
    CountKeys(cache);
    CountKeys(cache - Ids(Deleted(popped, deleteOk)));
  }

  lemma LeftNewest(cache: Cache, listing: seq<Metadata>, kept: seq<Metadata>, popped: seq<Metadata>,
                   deleteOk: Bytes -> bool, total: int, capacity: nat)
    requires Lists(listing, cache) && Accounted(listing, kept, popped, deleteOk, total)
    requires forall k :: k in cache ==> deleteOk(k)
    requires NewestKept(|listing|, kept, popped, capacity)
    ensures var left := cache - Ids(Deleted(popped, deleteOk));
      forall gone, k :: gone in cache && gone !in left && k in left ==> cache[gone].timestamp <= cache[k].timestamp
  {
    LeftKeys(cache, listing, kept, popped, deleteOk, total);
    hide Deleted;
    hide Total;
    var left := cache - Ids(Deleted(popped, deleteOk));
    forall gone, k | gone in cache && gone !in left && k in left
      ensures cache[gone].timestamp <= cache[k].timestamp
    {
      assert gone in Ids(popped) && k in Ids(kept);
      var p :| p in popped && p.id == gone;
      var m :| m in kept && m.id == k;
      assert p in multiset(listing) && m in multiset(listing);
      assert OlderOrSame(p, m);
    }
  }

  lemma LeftFits(listing: seq<Metadata>, kept: seq<Metadata>, popped: seq<Metadata>, deleteOk: Bytes -> bool,
                 total: int, maxSize: nat)
    requires Uniform(listing) && Accounted(listing, kept, popped, deleteOk, total) && Deleted(popped, deleteOk) == popped
    requires NewestKept(|listing|, kept, popped, Capacity(listing, maxSize))
    ensures total <= maxSize
  {
    if listing == [] {
      NothingLeft(kept, popped, deleteOk, total);
    } else {
      TotalIsOver(listing, listing, kept, popped, deleteOk, total, maxSize);
    }
  }

  lemma CountKeys(cache: Cache)
    ensures |cache| == |cache.Keys|
  {
  }

  lemma DistinctPart(a: seq<Metadata>, b: seq<Metadata>)
    requires DistinctIds(a + b)
    ensures DistinctIds(a)
  {
    forall i, j | 0 <= i < j < |a| ensures a[i].id != a[j].id {
      assert (a + b)[i] == a[i] && (a + b)[j] == a[j];
    }
  }

  lemma {:induction false} AllDeleted(popped: seq<Metadata>, deleteOk: Bytes -> bool)
    requires forall m :: m in popped ==> deleteOk(m.id)
    ensures Deleted(popped, deleteOk) == popped
  {
    if popped != [] {
      var n := |popped| - 1;
      assert popped == popped[..n] + [popped[n]];
      AllDeleted(popped[..n], deleteOk);
    }
  }

  lemma PoppedAllDeleted(listing: seq<Metadata>, kept: seq<Metadata>, popped: seq<Metadata>, deleteOk: Bytes -> bool)
    requires multiset(listing) == multiset(kept) + multiset(popped) && (forall id :: id in Ids(listing) ==> deleteOk(id))
    ensures Deleted(popped, deleteOk) == popped
  {
    forall m | m in popped ensures deleteOk(m.id) {
      assert m in multiset(listing);
      assert m.id in Ids(listing);
    }
    AllDeleted(popped, deleteOk);
  }

  lemma NothingLeft(kept: seq<Metadata>, popped: seq<Metadata>, deleteOk: Bytes -> bool, total: int)
    requires Accounted([], kept, popped, deleteOk, total)
    ensures total == 0
  {
    assert |multiset(kept) + multiset(popped)| == |kept| + |popped|;
  }

  /** A sweep after the first `i` files. */
  ghost predicate Sweeping(listing: seq<Metadata>, i: nat, kept: seq<Metadata>, popped: seq<Metadata>,
                           deleteOk: Bytes -> bool, total: int, maxSize: nat)
    requires i <= |listing|
  {
    && Accounted(listing[..i], kept, popped, deleteOk, total)
    && (Uniform(listing) ==> NewestKept(i, kept, popped, Capacity(listing, maxSize)))
  }

  lemma SweepStarts(listing: seq<Metadata>, deleteOk: Bytes -> bool, maxSize: nat)
    ensures Sweeping(listing, 0, [], [], deleteOk, 0, maxSize)
  {
    assert listing[..0] == [];
  }

  lemma SweepEnds(listing: seq<Metadata>, kept: seq<Metadata>, popped: seq<Metadata>, deleteOk: Bytes -> bool,
                  total: int, maxSize: nat)
    requires Sweeping(listing, |listing|, kept, popped, deleteOk, total, maxSize)
    ensures Accounted(listing, kept, popped, deleteOk, total)
    ensures Uniform(listing) ==> NewestKept(|listing|, kept, popped, Capacity(listing, maxSize))
  {
    assert listing[..|listing|] == listing;
  }

  lemma PushAccounted(listing: seq<Metadata>, i: nat, kept: seq<Metadata>, popped: seq<Metadata>,
                      deleteOk: Bytes -> bool, total: int, pushed: seq<Metadata>)
    requires i < |listing| && Accounted(listing[..i], kept, popped, deleteOk, total - listing[i].length)
    requires multiset(pushed) == multiset(kept) + multiset{listing[i]}
    ensures Accounted(listing[..i + 1], pushed, popped, deleteOk, total)
  {
    hide Accounted;
    assert listing[..i + 1] == listing[..i] + [listing[i]];
    Pushed(listing[..i], kept, popped, deleteOk, total - listing[i].length, listing[i], pushed);
  }

  /** A file that fits is kept: nothing was dropped before it. */
  lemma SweepKeeps(listing: seq<Metadata>, i: nat, kept: seq<Metadata>, popped: seq<Metadata>, deleteOk: Bytes -> bool,
                   total: int, maxSize: nat, pushed: seq<Metadata>)
    requires i < |listing| && Sweeping(listing, i, kept, popped, deleteOk, total - listing[i].length, maxSize)
    requires multiset(pushed) == multiset(kept) + multiset{listing[i]} && total <= maxSize
    ensures Sweeping(listing, i + 1, pushed, popped, deleteOk, total, maxSize)
  {
    hide Accounted;
    hide Capacity;
    PushAccounted(listing, i, kept, popped, deleteOk, total, pushed);
    if Uniform(listing) {
      TotalIsOver(listing, listing[..i + 1], pushed, popped, deleteOk, total, maxSize);
      Counted(listing[..i + 1], pushed, popped, deleteOk, total);
      PushedCount(kept, listing[i], pushed);
      KeptRoom(i, kept, popped, Capacity(listing, maxSize), pushed);
    }
  }

  /** A file that does not fit makes the oldest go: the heap was full. */
  lemma SweepDrops(listing: seq<Metadata>, i: nat, kept: seq<Metadata>, popped: seq<Metadata>, deleteOk: Bytes -> bool,
                   total: int, maxSize: nat, pushed: seq<Metadata>, oldest: Metadata, left: seq<Metadata>)
    requires i < |listing| && Sweeping(listing, i, kept, popped, deleteOk, total - listing[i].length, maxSize)
    requires multiset(pushed) == multiset(kept) + multiset{listing[i]} && total > maxSize
    requires multiset(left) + multiset{oldest} == multiset(pushed) && (forall y :: y in pushed ==> OlderOrSame(oldest, y))
    ensures Sweeping(listing, i + 1, left, popped + [oldest], deleteOk,
                     if deleteOk(oldest.id) then total - oldest.length else total, maxSize)
  {
    hide Accounted;
    hide Capacity;
    hide OlderOrSame;
    hide NewestKept;
    PushAccounted(listing, i, kept, popped, deleteOk, total, pushed);
    Popped(listing[..i + 1], pushed, popped, deleteOk, total, oldest, left);
    if Uniform(listing) {
      DropsOldest(listing, i, kept, popped, deleteOk, total, maxSize, pushed, oldest, left);
    }
  }

  lemma DropsOldest(listing: seq<Metadata>, i: nat, kept: seq<Metadata>, popped: seq<Metadata>, deleteOk: Bytes -> bool,
                    total: int, maxSize: nat, pushed: seq<Metadata>, oldest: Metadata, left: seq<Metadata>)
    requires Uniform(listing) && i < |listing| && NewestKept(i, kept, popped, Capacity(listing, maxSize))
    requires Accounted(listing[..i + 1], pushed, popped, deleteOk, total)
    requires multiset(pushed) == multiset(kept) + multiset{listing[i]} && total > maxSize
    requires multiset(left) + multiset{oldest} == multiset(pushed) && (forall y :: y in pushed ==> OlderOrSame(oldest, y))
    ensures NewestKept(i + 1, left, popped + [oldest], Capacity(listing, maxSize))
  {
    hide Accounted;
    hide Capacity;
    hide OlderOrSame;
    TotalIsOver(listing, listing[..i + 1], pushed, popped, deleteOk, total, maxSize);
    Counted(listing[..i + 1], pushed, popped, deleteOk, total);
    SizesAfter(kept, listing[i], pushed, oldest, left);
    forall y | y in kept + [listing[i]] ensures OlderOrSame(oldest, y) {
      assert y in multiset(pushed);
    }
    KeptFull(i, kept, popped, Capacity(listing, maxSize), listing[i], oldest, left);
  }

  lemma OlderIsOrder()
    ensures TotalPreorder(OlderOrSame) && Agrees(Before, OlderOrSame)
  {
  }

  lemma InSeq(kept: seq<Metadata>, m: Metadata, pushed: seq<Metadata>)
    requires multiset(pushed) == multiset(kept) + multiset{m}
    ensures pushed != []
  {
    assert m in multiset(pushed);
  }

  lemma NoneDeleted(deleteOk: Bytes -> bool)
    ensures Ids(Deleted([], deleteOk)) == {}
  {
  }

  lemma DeletedIds(popped: seq<Metadata>, m: Metadata, deleteOk: Bytes -> bool)
    ensures Ids(Deleted(popped + [m], deleteOk))
         == if deleteOk(m.id) then Ids(Deleted(popped, deleteOk)) + {m.id} else Ids(Deleted(popped, deleteOk))
  {
    DeletedAppend(popped, m, deleteOk);
  }

  lemma PushedCount(kept: seq<Metadata>, m: Metadata, pushed: seq<Metadata>)
    requires multiset(pushed) == multiset(kept) + multiset{m}
    ensures |pushed| == |kept| + 1
  {
    assert |multiset(pushed)| == |multiset(kept)| + 1;
  }

  lemma SizesAfter(kept: seq<Metadata>, m: Metadata, pushed: seq<Metadata>, oldest: Metadata, left: seq<Metadata>)
    requires multiset(pushed) == multiset(kept) + multiset{m} && multiset(left) + multiset{oldest} == multiset(pushed)
    ensures |pushed| == |kept| + 1 && |left| == |kept|
  {
    assert |multiset(pushed)| == |multiset(kept)| + 1 && |multiset(left)| + 1 == |multiset(pushed)|;
  }

  class BlockCache {
    const mac: Bytes -> Bytes
    const touchThreshold: int
    const maxSizeBytes: nat
    var cacheStorage: Cache
    var lastTotalSizeBytes: int

    constructor (mac: Bytes -> Bytes, touchThreshold: int, maxSizeBytes: nat, files: Cache)
      ensures this.mac == mac && this.touchThreshold == touchThreshold && this.maxSizeBytes == maxSizeBytes
      ensures cacheStorage == files
    {
      this.mac, this.touchThreshold, this.maxSizeBytes := mac, touchThreshold, maxSizeBytes;
      cacheStorage, lastTotalSizeBytes := files, 0;
    }

    method ReadAndVerifyCacheBlock(key: Bytes, readable: bool, now: int) returns (r: Option<Bytes>)
      modifies this`cacheStorage
      ensures r == if readable then Verified(mac, old(cacheStorage), key) else None
      ensures cacheStorage == if r.Some? then old(cacheStorage)[key := Touch(old(cacheStorage)[key], touchThreshold, now)]
                              else old(cacheStorage)
    {
      if !readable || key !in cacheStorage {
        return None;
      }
      r := VerifyChecksum(mac, cacheStorage[key].content);
      if r.Some? {
        cacheStorage := cacheStorage[key := Touch(cacheStorage[key], touchThreshold, now)];
      }
    }

    method GetContentBlock(id: Bytes, useCache: bool, readable: bool, fetched: Result<Bytes>, putOk: bool, now: int)
      returns (r: Result<Bytes>)
      modifies this`cacheStorage
      ensures var a := Read(id, useCache, readable, fetched, putOk, now);
        r == Answer(mac, old(cacheStorage), a) && cacheStorage == Next(mac, touchThreshold, old(cacheStorage), a)
    {
      var key := AdjustCacheKey(id);
      if useCache {
        var b := ReadAndVerifyCacheBlock(key, readable, now);
        if b.Some? {
          return Ok(b.value);
        }
      }
      if fetched.Ok? && useCache && putOk {
        cacheStorage := cacheStorage[key := Item(fetched.value + mac(fetched.value), now)];
      }
      return fetched;
    }

    /** Goes through the files in the order listed; whenever the total exceeds the limit, the
        oldest file so far is dropped. `kept` is the heap at the end, `popped` what was taken
        off it. A file that cannot be deleted stays and still counts. */
    method SweepDirectory(listing: seq<Metadata>, deleteOk: Bytes -> bool)
      returns (ghost kept: seq<Metadata>, ghost popped: seq<Metadata>)
      requires Lists(listing, cacheStorage)
      modifies this`cacheStorage, this`lastTotalSizeBytes
      ensures cacheStorage == old(cacheStorage) - Ids(Deleted(popped, deleteOk))
      ensures Accounted(listing, kept, popped, deleteOk, lastTotalSizeBytes)
      ensures Uniform(listing) ==> NewestKept(|listing|, kept, popped, Capacity(listing, maxSizeBytes))
    {
      hide *;
      OlderIsOrder();
      var h := new Heap<Metadata>(Before, OlderOrSame);
      var total := 0;
      popped := [];
      SweepStarts(listing, deleteOk, maxSizeBytes);
      NoneDeleted(deleteOk);
      assert listing[..0] == [];
      for i := 0 to |listing|
        invariant h.Valid() && h.le == OlderOrSame && fresh(h)
        invariant Sweeping(listing, i, h.items, popped, deleteOk, total, maxSizeBytes)
        invariant cacheStorage == old(cacheStorage) - Ids(Deleted(popped, deleteOk))
      {
        ghost var before := h.items;
        h.Push(listing[i]);
        total := total + listing[i].length;
        if total > maxSizeBytes {
          InSeq(before, listing[i], h.items);
          ghost var pushed := h.items;
          var oldest := h.Pop();
          SweepDrops(listing, i, before, popped, deleteOk, total, maxSizeBytes, pushed, oldest, h.items);
          DeletedIds(popped, oldest, deleteOk);
          popped := popped + [oldest];
          if deleteOk(oldest.id) {
            cacheStorage := cacheStorage - {oldest.id};
            total := total - oldest.length;
          }
        } else {
          SweepKeeps(listing, i, before, popped, deleteOk, total, maxSizeBytes, h.items);
        }
      }
      SweepEnds(listing, h.items, popped, deleteOk, total, maxSizeBytes);
      kept := h.items;
      lastTotalSizeBytes := total;
    }
  }
}
