/** The merged view of several index files (merged.go): newest entry wins, and a live entry
    wins over a tombstone with the same timestamp. */
module MergedIndex {
  import opened ByteStrings
  import opened BlockInfo
  import opened ContainerHeap

  /* ----- lookup ----- */

  /** One step of `mergedIndex.GetInfo`. */
  function Pick(best: Option<Info>, i: Option<Info>): (r: Option<Info>) {
    if i.None? then best
    else if best.None? || i.value.timestamp > best.value.timestamp
         || (i.value.timestamp == best.value.timestamp && !i.value.deleted)
    then i
    else best
  }

  function PickAll(answers: seq<Option<Info>>): (r: Option<Info>) {
    if answers == [] then None
    else Pick(PickAll(answers[..|answers| - 1]), answers[|answers| - 1])
  }

  function Lookups(ms: seq<Index>, id: Bytes): (r: seq<Option<Info>>) {
    seq(|ms|, k requires 0 <= k < |ms| => Find(ms[k], id))
  }

  /** What the merged index answers for a block ID. */
  function MergedFind(ms: seq<Index>, id: Bytes): (r: Option<Info>) {
    PickAll(Lookups(ms, id))
  }

  /** Combines the answers of the underlying indexes, stopping at the first error. */
  method GetInfo(answers: seq<Result<Option<Info>>>) returns (r: Result<Option<Info>>)
    ensures (forall k :: 0 <= k < |answers| ==> answers[k].Ok?) ==>
      r == Ok(PickAll(seq(|answers|, k requires 0 <= k < |answers| && answers[k].Ok? => answers[k].value)))
    ensures forall k :: 0 <= k < |answers| && answers[k].Err? && (forall j :: 0 <= j < k ==> answers[j].Ok?) ==>
      r == Err(answers[k].error)
  {
    hide PickAll;
    hide Pick;
    var best: Option<Info> := None;
    ghost var seen: seq<Option<Info>> := [];
    PickNone();
    for k := 0 to |answers|
      invariant forall j :: 0 <= j < k ==> answers[j].Ok?
      invariant |seen| == k && forall j :: 0 <= j < k ==> seen[j] == answers[j].value
      invariant best == PickAll(seen)
    {
      if answers[k].Err? {
        return Err(answers[k].error);
      }
      PickMore(seen, answers[k].value);
      best := Pick(best, answers[k].value);
      seen := seen + [answers[k].value];
    }
    AllSeen(answers, seen);
    r := Ok(best);
  }

  lemma PickNone()
    ensures PickAll([]) == None
  {
  }

  lemma PickMore(answers: seq<Option<Info>>, i: Option<Info>)
    ensures PickAll(answers + [i]) == Pick(PickAll(answers), i)
  {
    assert (answers + [i])[..|answers|] == answers;
  }

  lemma AllSeen(answers: seq<Result<Option<Info>>>, seen: seq<Option<Info>>)
    requires |seen| == |answers| && forall j :: 0 <= j < |answers| ==> answers[j].Ok? && seen[j] == answers[j].value
    ensures seen == seq(|answers|, k requires 0 <= k < |answers| && answers[k].Ok? => answers[k].value)
  {
  }

  /** The answer is one of those given, and none of them is preferred to it. */
  lemma {:induction false} PickAllIsNewest(answers: seq<Option<Info>>)
    ensures PickAll(answers).None? <==> forall k :: 0 <= k < |answers| ==> answers[k].None?
    ensures PickAll(answers).Some? ==> PickAll(answers) in answers
    ensures PickAll(answers).Some? ==>
      forall k :: 0 <= k < |answers| && answers[k].Some? ==> NotOlder(PickAll(answers).value, answers[k].value)
  {
    if answers != [] {
      var n := |answers| - 1;
      PickAllIsNewest(answers[..n]);
      assert answers == answers[..n] + [answers[n]];
    }
  }

  /** The answer at `k` is picked: those before it are not newer and, if it is deleted, older or
      absent; those after it are older or, at the same time, deleted. */
  ghost predicate PickedAt(answers: seq<Option<Info>>, k: nat) {
    && k < |answers| && answers[k].Some?
    && (forall j :: 0 <= j < k && answers[j].Some? ==>
          answers[j].value.timestamp < answers[k].value.timestamp
          || (answers[j].value.timestamp == answers[k].value.timestamp && !answers[k].value.deleted))
    && (forall j :: k < j < |answers| && answers[j].Some? ==>
          answers[j].value.timestamp < answers[k].value.timestamp
          || (answers[j].value.timestamp == answers[k].value.timestamp && answers[j].value.deleted))
  }

  /** Exactly which answer is picked, also when several are equally new. */
  lemma {:induction false} PickAllIs(answers: seq<Option<Info>>) returns (k: nat)
    requires PickAll(answers).Some?
    ensures k < |answers| && answers[k] == PickAll(answers) && PickedAt(answers, k)
    decreases |answers|
  {
    hide PickedAt;
    var n := |answers| - 1;
    var best, last := PickAll(answers[..n]), answers[n];
    if last.Some? && (best.None? || last.value.timestamp > best.value.timestamp
                      || (last.value.timestamp == best.value.timestamp && !last.value.deleted)) {
      k := n;
      LastPicked(answers, best);
    } else {
      k := PickAllIs(answers[..n]);
      StillPicked(answers, k);
    }
  }

  lemma LastPicked(answers: seq<Option<Info>>, best: Option<Info>)
    requires answers != [] && answers[|answers| - 1].Some? && best == PickAll(answers[..|answers| - 1])
    requires var last := answers[|answers| - 1].value;
      best.None? || last.timestamp > best.value.timestamp || (last.timestamp == best.value.timestamp && !last.deleted)
    ensures PickedAt(answers, |answers| - 1)
  {
    hide PickAll;
    var less := answers[..|answers| - 1];
    PickAllIsNewest(less);
    forall j | 0 <= j < |less| ensures less[j] == answers[j] {}
    forall j | 0 <= j < |less| && answers[j].Some? ensures best.Some? && NotOlder(best.value, answers[j].value) {
      assert less[j].Some?;
    }
  }

  lemma StillPicked(answers: seq<Option<Info>>, k: nat)
    requires answers != [] && PickedAt(answers[..|answers| - 1], k)
    requires var last := answers[|answers| - 1];
      last.None? || last.value.timestamp < answers[k].value.timestamp
      || (last.value.timestamp == answers[k].value.timestamp && last.value.deleted)
    ensures PickedAt(answers, k)
  {
    var less := answers[..|answers| - 1];
    forall j | 0 <= j < |less| ensures less[j] == answers[j] {}
  }

  /** `x` is an entry for `id` in one of the indexes, and none of theirs is preferred to it. */
  ghost predicate IsNewest(ms: seq<Index>, id: Bytes, x: Info) {
    && (exists k :: 0 <= k < |ms| && id in ms[k] && ms[k][id] == x)
    && (forall k :: 0 <= k < |ms| && id in ms[k] ==> NotOlder(x, ms[k][id]))
  }

  lemma MergedFindIsNewest(ms: seq<Index>, id: Bytes)
    ensures MergedFind(ms, id).None? <==> forall k :: 0 <= k < |ms| ==> id !in ms[k]
    ensures MergedFind(ms, id).Some? ==> IsNewest(ms, id, MergedFind(ms, id).value)
  {
    var a := Lookups(ms, id);
    hide PickAll;
    PickAllIsNewest(a);
    if PickAll(a).Some? {
      var k :| 0 <= k < |a| && a[k] == PickAll(a);
      assert id in ms[k];
    }
    forall k | 0 <= k < |ms| ensures id in ms[k] <==> a[k].Some? {}
  }

  lemma MergedFindAppend(ms: seq<Index>, b: Index, id: Bytes)
    ensures MergedFind(ms + [b], id) == Pick(MergedFind(ms, id), Find(b, id))
  {
    var a := Lookups(ms + [b], id);
    assert a[..|ms|] == Lookups(ms, id);
  }

  /** Entries for the same ID that are equally preferred are identical. */
  ghost predicate TiesIdentical(ms: seq<Index>) {
    forall i, j, id :: 0 <= i < |ms| && 0 <= j < |ms| && id in ms[i] && id in ms[j]
      && ms[i][id].timestamp == ms[j][id].timestamp && ms[i][id].deleted == ms[j][id].deleted
      ==> ms[i][id] == ms[j][id]
  }

  lemma NewestUnique(ms: seq<Index>, id: Bytes, x: Info, y: Info)
    requires TiesIdentical(ms) && IsNewest(ms, id, x) && IsNewest(ms, id, y)
    ensures x == y
  {
  }

  /* ----- iteration ----- */

  /** The head of one source's channel and what is still to come from it. */
  datatype NextInfo = NextInfo(it: Info, rest: seq<Info>)

  /** `nextInfoHeap.Less`; on two live entries with equal ID and timestamp it holds both ways. */
  predicate InfoLess(a: Info, b: Info) {
    if a.blockID != b.blockID then Less(a.blockID, b.blockID)
    else if a.timestamp != b.timestamp then a.timestamp < b.timestamp
    else !a.deleted
  }

  /** The total preorder that `InfoLess` follows. */
  predicate InfoLe(a: Info, b: Info) {
    || Less(a.blockID, b.blockID)
    || (a.blockID == b.blockID
        && (a.timestamp < b.timestamp || (a.timestamp == b.timestamp && (a.deleted ==> b.deleted))))
  }

  predicate NextLess(a: NextInfo, b: NextInfo) { InfoLess(a.it, b.it) }
  predicate NextLe(a: NextInfo, b: NextInfo) { InfoLe(a.it, b.it) }

  lemma InfoLeTransitive(a: Info, b: Info, c: Info)
    requires InfoLe(a, b) && InfoLe(b, c)
    ensures InfoLe(a, c)
  {
    hide Less;
    LessTransitive(a.blockID, b.blockID, c.blockID);
  }

  lemma NextOrder()
    ensures TotalPreorder(NextLe) && Agrees(NextLess, NextLe)
  {
    hide Less;
    forall a: NextInfo, b: NextInfo
      ensures NextLe(a, b) || NextLe(b, a)
      ensures if NextLess(a, b) then NextLe(a, b) else NextLe(b, a)
    {
      LessTrichotomy(a.it.blockID, b.it.blockID);
    }
    forall a: NextInfo, b: NextInfo, c: NextInfo | NextLe(a, b) && NextLe(b, c) ensures NextLe(a, c) {
      InfoLeTransitive(a.it, b.it, c.it);
    }
  }

  ghost predicate InSources(sources: seq<seq<Info>>, x: Info) {
    exists k :: 0 <= k < |sources| && x in sources[k]
  }

  /** `x` is still to be delivered through `n`. */
  predicate Delivers(n: NextInfo, x: Info) {
    x == n.it || x in n.rest
  }

  ghost predicate Remains(items: multiset<NextInfo>, x: Info) {
    exists n :: n in items && Delivers(n, x)
  }

  /** `o` is in `done`, which holds nothing under its ID that is preferred to it. */
  ghost predicate Preferred(o: Info, done: set<Info>) {
    o in done && forall x :: x in done && x.blockID == o.blockID ==> NotOlder(o, x)
  }

  ghost predicate Reported(out: seq<Info>, id: Bytes) {
    exists o :: o in out && o.blockID == id
  }

  /** `out` and `pending` summarise the entries `done`: each non-empty ID below the pending one
      was reported once, with the preferred entry, and `pending` is the preferred entry so far. */
  ghost predicate Summarises(out: seq<Info>, pending: Info, done: set<Info>) {
    && Ascending(out)
    && (forall o :: o in out ==> Preferred(o, done) && o.blockID != [] && Less(o.blockID, pending.blockID))
    && (forall x :: x in done ==> AtMost(x.blockID, pending.blockID))
    && (forall x :: x in done && x.blockID != [] && x.blockID != pending.blockID ==> Reported(out, x.blockID))
    && (pending.blockID != [] ==> Preferred(pending, done))
  }

  /** The body of the iteration loop on the popped entry. */
  function AfterPop(out: seq<Info>, pending: Info, min: Info): (r: (seq<Info>, Info)) {
    if pending.blockID != min.blockID then
      (Closed(out, pending), min)
    else if min.timestamp > pending.timestamp then (out, min)
    else (out, pending)
  }

  function Closed(out: seq<Info>, pending: Info): seq<Info> {
    if pending.blockID != [] then out + [pending] else out
  }

  lemma ReportedClosed(out: seq<Info>, pending: Info, id: Bytes)
    requires id != []
    requires id == pending.blockID || Reported(out, id)
    ensures Reported(Closed(out, pending), id)
  {
    var r := Closed(out, pending);
    if id == pending.blockID {
      assert pending in r;
    } else {
      var o :| o in out && o.blockID == id;
      assert o in r;
    }
  }

  lemma AscendingClosed(out: seq<Info>, pending: Info)
    requires Ascending(out) && forall o :: o in out ==> Less(o.blockID, pending.blockID)
    ensures Ascending(Closed(out, pending))
  {
    hide Less;
    forall i | 0 <= i < |out| ensures Less(out[i].blockID, pending.blockID) {
      assert out[i] in out;
    }
  }

  /** Reporting the pending entry closes its ID: everything done is now covered by `out`. */
  lemma ClosePending(out: seq<Info>, pending: Info, done: set<Info>, above: Bytes)
    requires Summarises(out, pending, done) && Less(pending.blockID, above)
    ensures Ascending(Closed(out, pending))
    ensures forall o :: o in Closed(out, pending) ==> Preferred(o, done) && o.blockID != [] && Less(o.blockID, above)
    ensures forall x :: x in done && x.blockID != [] ==> Reported(Closed(out, pending), x.blockID)
  {
    hide Less;
    hide Preferred;
    hide Reported;
    hide Ascending;
    AscendingClosed(out, pending);
    forall o | o in Closed(out, pending) ensures Less(o.blockID, above) {
      LessTransitive(o.blockID, pending.blockID, above);
    }
    forall x | x in done && x.blockID != [] ensures Reported(Closed(out, pending), x.blockID) {
      ReportedClosed(out, pending, x.blockID);
    }
  }

  lemma AfterPopSummarises(out: seq<Info>, pending: Info, done: set<Info>, min: Info)
    requires Summarises(out, pending, done)
    requires forall x :: x in done ==> InfoLe(x, min)
    requires AtMost(pending.blockID, min.blockID)
    ensures var (o, p) := AfterPop(out, pending, min); Summarises(o, p, done + {min})
  {
    hide Less;
    hide Ascending;
    hide Reported;
    LessTrichotomy(min.blockID, min.blockID);
    LessTrichotomy(pending.blockID, min.blockID);
    if pending.blockID != min.blockID {
      ClosePending(out, pending, done, min.blockID);
      forall x | x in done ensures Less(x.blockID, min.blockID) && AtMost(x.blockID, min.blockID) {
        LessTransitive(x.blockID, pending.blockID, min.blockID);
        LessTrichotomy(x.blockID, min.blockID);
      }
      assert Preferred(min, done + {min});
      forall o | o in Closed(out, pending) ensures Preferred(o, done + {min}) {
        assert Preferred(o, done);
      }
    } else {
      SamePending(out, pending, done, min);
    }
  }

  lemma SamePending(out: seq<Info>, pending: Info, done: set<Info>, min: Info)
    requires Summarises(out, pending, done)
    requires forall x :: x in done ==> InfoLe(x, min)
    requires pending.blockID == min.blockID
    ensures Summarises(out, if min.timestamp > pending.timestamp then min else pending, done + {min})
  {
    hide Less;
    hide Ascending;
    hide Reported;
    LessTrichotomy(min.blockID, min.blockID);
    forall o | o in out ensures Preferred(o, done + {min}) {
      assert Preferred(o, done);
    }
    forall x | x in done && x.blockID == min.blockID ensures x.timestamp <= min.timestamp {
      LessTrichotomy(x.blockID, min.blockID);
    }
  }

  lemma EmptyIsLeast(b: Bytes)
    requires b == []
    ensures forall a: Bytes :: !Less(a, b)
  {
  }

  const ZERO_INFO := Info([], 0, 0, [], 0, false, None, 0)

  /** What a source puts on the heap after its head was popped. */
  function Advance(n: NextInfo): (r: multiset<NextInfo>) {
    if n.rest == [] then multiset{} else multiset{NextInfo(n.rest[0], n.rest[1..])}
  }

  /** Sources on the heap are ascending, and what is done or still to come is exactly
      what the sources hold, in heap order. */
  ghost predicate MidMerge(sources: seq<seq<Info>>, items: multiset<NextInfo>, done: set<Info>, pending: Info) {
    && (forall n :: n in items ==> Ascending([n.it] + n.rest))
    && (forall x :: InSources(sources, x) <==> x in done || Remains(items, x))
    && (forall x, n :: x in done && n in items ==> InfoLe(x, n.it))
    && (forall n :: n in items ==> AtMost(pending.blockID, n.it.blockID))
  }

  /** The head of an ascending source is below whatever it delivers next. */
  lemma AdvanceAscends(n: NextInfo)
    requires n.rest != [] && Ascending([n.it] + n.rest)
    ensures Less(n.it.blockID, n.rest[0].blockID)
    ensures Ascending([n.rest[0]] + n.rest[1..])
  {
    hide Less;
    var s := [n.it] + n.rest;
    assert Less(s[0].blockID, s[1].blockID);
    assert [n.rest[0]] + n.rest[1..] == n.rest;
    forall i, j | 0 <= i < j < |n.rest| ensures Less(n.rest[i].blockID, n.rest[j].blockID) {
      assert s[i + 1] == n.rest[i] && s[j + 1] == n.rest[j];
    }
  }

  lemma AdvanceDelivers(left: multiset<NextInfo>, min: NextInfo, x: Info)
    ensures Remains(left + multiset{min}, x) <==> x == min.it || Remains(left + Advance(min), x)
  {
    var before, after := left + multiset{min}, left + Advance(min);
    if Remains(before, x) && x != min.it {
      var n :| n in before && Delivers(n, x);
      if n in left {
        assert n in after;
      } else {
        var m := NextInfo(min.rest[0], min.rest[1..]);
        assert min.rest == [m.it] + m.rest;
        assert m in after && Delivers(m, x);
      }
    }
    if x == min.it {
      assert min in before && Delivers(min, x);
    }
    if Remains(after, x) {
      var n :| n in after && Delivers(n, x);
      if n in left {
        assert n in before;
      } else {
        assert min.rest == [n.it] + n.rest;
        assert min in before && Delivers(min, x);
      }
    }
  }

  lemma MidMergeStep(sources: seq<seq<Info>>, left: multiset<NextInfo>, min: NextInfo,
                     done: set<Info>, pending: Info, p: Info)
    requires MidMerge(sources, left + multiset{min}, done, pending)
    requires forall n :: n in left ==> InfoLe(min.it, n.it)
    requires p.blockID == min.it.blockID
    ensures MidMerge(sources, left + Advance(min), done + {min.it}, p)
    ensures forall x :: x in done ==> InfoLe(x, min.it)
  {
    hide Less;
    hide Ascending;
    hide Remains;
    var before, after := left + multiset{min}, left + Advance(min);
    assert min in before;
    forall n | n in after ensures Ascending([n.it] + n.rest) && InfoLe(min.it, n.it) && AtMost(p.blockID, n.it.blockID) {
      LessTrichotomy(min.it.blockID, n.it.blockID);
      if n !in left {
        AdvanceAscends(min);
      } else {
        assert n in before;
      }
    }
    forall x, n | x in done && n in after ensures InfoLe(x, n.it) {
      InfoLeTransitive(x, min.it, n.it);
    }
    assert InfoLe(min.it, min.it);
    forall x ensures InSources(sources, x) <==> x in done + {min.it} || Remains(after, x) {
      AdvanceDelivers(left, min, x);
    }
  }

  /* Entries still to be delivered: what makes the loop end. */

  function Total(items: seq<NextInfo>): (r: nat) {
    if items == [] then 0 else 1 + |items[0].rest| + Total(items[1..])
  }

  lemma {:induction false} TotalSplit(a: seq<NextInfo>, b: seq<NextInfo>)
    ensures Total(a + b) == Total(a) + Total(b)
  {
    if a == [] {
      assert a + b == b;
    } else {
      TotalSplit(a[1..], b);
      assert (a + b)[1..] == a[1..] + b;
    }
  }

  lemma TotalOne(n: NextInfo)
    ensures Total([n]) == 1 + |n.rest|
  {
    assert Total([n][1..]) == 0;
  }

  lemma Cancel(a: multiset<NextInfo>, b: multiset<NextInfo>, x: NextInfo)
    requires a + multiset{x} == b + multiset{x}
    ensures a == b
  {
    assert a == (a + multiset{x}) - multiset{x};
    assert b == (b + multiset{x}) - multiset{x};
  }

  lemma Removed(b: seq<NextInfo>, i: nat)
    requires i < |b|
    ensures multiset(b) == multiset(b[..i] + b[i + 1..]) + multiset{b[i]}
    ensures Total(b) == Total(b[..i] + b[i + 1..]) + 1 + |b[i].rest|
  {
    hide Total;
    assert b == b[..i] + ([b[i]] + b[i + 1..]);
    TotalSplit(b[..i], [b[i]] + b[i + 1..]);
    TotalSplit([b[i]], b[i + 1..]);
    TotalSplit(b[..i], b[i + 1..]);
    TotalOne(b[i]);
  }

  lemma {:induction false} TotalPermuted(a: seq<NextInfo>, b: seq<NextInfo>)
    requires multiset(a) == multiset(b)
    ensures Total(a) == Total(b)
  {
    if a != [] {
      assert a[0] in multiset(b);
      var i :| 0 <= i < |b| && b[i] == a[0];
      var c := b[..i] + b[i + 1..];
      Removed(b, i);
      assert a == [a[0]] + a[1..];
      assert multiset(a) == multiset{a[0]} + multiset(a[1..]);
      Cancel(multiset(a[1..]), multiset(c), a[0]);
      TotalPermuted(a[1..], c);
    }
  }

  lemma TotalStep(before: seq<NextInfo>, min: NextInfo, left: multiset<NextInfo>, after: seq<NextInfo>)
    requires multiset(before) == left + multiset{min}
    requires multiset(after) == left + Advance(min)
    ensures Total(after) < Total(before)
  {
    hide Total;
    assert min in multiset(before);
    var i :| 0 <= i < |before| && before[i] == min;
    var l := before[..i] + before[i + 1..];
    Removed(before, i);
    Cancel(multiset(l), left, min);
    if min.rest == [] {
      assert multiset(after) == left;
      TotalPermuted(after, l);
    } else {
      var n := NextInfo(min.rest[0], min.rest[1..]);
      TotalPermuted(after, l + [n]);
      TotalSplit(l, [n]);
      TotalOne(n);
    }
  }

  /** Puts the head of every non-empty source on the heap. */
  method StartMerge(sources: seq<seq<Info>>) returns (heap: Heap<NextInfo>)
    requires forall k :: 0 <= k < |sources| ==> Ascending(sources[k])
    ensures fresh(heap) && heap.Valid() && heap.le == NextLe
    ensures MidMerge(sources, multiset(heap.items), {}, ZERO_INFO)
  {
    hide Less;
    hide Ascending;
    NextOrder();
    heap := new Heap<NextInfo>(NextLess, NextLe);
    for k := 0 to |sources|
      invariant heap.Valid() && heap.le == NextLe && fresh(heap)
      invariant forall n :: n in multiset(heap.items) ==> Ascending([n.it] + n.rest)
      invariant forall x :: InSources(sources[..k], x) <==> Remains(multiset(heap.items), x)
    {
      ghost var before := multiset(heap.items);
      if sources[k] != [] {
        var n := NextInfo(sources[k][0], sources[k][1..]);
        assert [n.it] + n.rest == sources[k];
        heap.Push(n);
      }
      assert multiset(heap.items) == before + HeadOf(sources[k]);
      forall x ensures InSources(sources[..k + 1], x) <==> Remains(multiset(heap.items), x) {
        StartMergeStep(sources, k, before, x);
      }
    }
    assert sources[..|sources|] == sources;
    assert forall a: Bytes :: AtMost([], a) by { EmptyIsLeast([]); }
  }

  function HeadOf(s: seq<Info>): multiset<NextInfo> {
    if s == [] then multiset{} else multiset{NextInfo(s[0], s[1..])}
  }

  lemma StartMergeStep(sources: seq<seq<Info>>, k: nat, before: multiset<NextInfo>, x: Info)
    requires k < |sources|
    requires InSources(sources[..k], x) <==> Remains(before, x)
    ensures InSources(sources[..k + 1], x) <==> Remains(before + HeadOf(sources[k]), x)
  {
    var after, s := before + HeadOf(sources[k]), sources[k];
    assert sources[..k + 1] == sources[..k] + [s];
    assert InSources(sources[..k + 1], x) <==> InSources(sources[..k], x) || x in s by {
      if InSources(sources[..k], x) {
        var i :| 0 <= i < k && x in sources[..k][i];
        assert x in sources[..k + 1][i];
      }
      if x in s {
        assert x in sources[..k + 1][k];
      }
    }
    if x in s {
      var n := NextInfo(s[0], s[1..]);
      assert s == [n.it] + n.rest;
      assert n in after && Delivers(n, x);
    }
    if Remains(before, x) {
      var n :| n in before && Delivers(n, x);
      assert n in after;
    }
    if Remains(after, x) && !Remains(before, x) {
      var n :| n in after && Delivers(n, x);
      assert s == [n.it] + n.rest;
    }
  }

  /** `out` has exactly one entry per distinct non-empty ID of the sources, in ascending
      order of ID, and it is an entry none of theirs is preferred to. */
  ghost predicate Merged(sources: seq<seq<Info>>, out: seq<Info>) {
    && Ascending(out)
    && (forall o :: o in out ==> InSources(sources, o) && o.blockID != [])
    && (forall o, x :: o in out && InSources(sources, x) && x.blockID == o.blockID ==> NotOlder(o, x))
    && (forall x :: InSources(sources, x) && x.blockID != [] ==> Reported(out, x.blockID))
  }

  /** `mergedIndex.Iterate` over the sequences its sources deliver: one callback per distinct
      non-empty ID, in ascending order, with the preferred entry for that ID. */
  method Iterate(sources: seq<seq<Info>>) returns (out: seq<Info>)
    requires forall k :: 0 <= k < |sources| ==> Ascending(sources[k])
    ensures Merged(sources, out)
  {
    hide Less;
    hide InfoLe;
    hide Ascending;
    hide Merged;
    hide InSources;
    hide Total;
    hide Summarises;
    hide MidMerge;
    var heap := StartMerge(sources);
    var pending := ZERO_INFO;
    out := [];
    ghost var done: set<Info> := {};
    NothingSummarised();
    while heap.items != []
      invariant heap.Valid() && heap.le == NextLe && fresh(heap)
      invariant MidMerge(sources, multiset(heap.items), done, pending)
      invariant Summarises(out, pending, done)
      decreases Total(heap.items)
    {
      ghost var before := heap.items;
      var min := heap.Pop();
      ghost var left := multiset(heap.items);
      assert multiset(before) == left + multiset{min};
      if min.rest != [] {
        heap.Push(NextInfo(min.rest[0], min.rest[1..]));
      }
      assert multiset(heap.items) == left + Advance(min);
      TotalStep(before, min, left, heap.items);
      var (o, p) := AfterPop(out, pending, min.it);
      StepBoth(sources, left, min, done, out, pending);
      out, pending := o, p;
      done := done + {min.it};
    }
    EndOfMerge(sources, out, pending, done);
    if pending.blockID != [] {
      out := out + [pending];
    }
  }

  lemma NothingSummarised()
    ensures Summarises([], ZERO_INFO, {})
  {
  }

  lemma StepBoth(sources: seq<seq<Info>>, left: multiset<NextInfo>, min: NextInfo,
                 done: set<Info>, out: seq<Info>, pending: Info)
    requires MidMerge(sources, left + multiset{min}, done, pending)
    requires forall n :: n in left + multiset{min} ==> NextLe(min, n)
    requires Summarises(out, pending, done)
    ensures var (o, p) := AfterPop(out, pending, min.it);
      Summarises(o, p, done + {min.it}) && MidMerge(sources, left + Advance(min), done + {min.it}, p)
  {
    hide Less;
    hide Summarises;
    var (o, p) := AfterPop(out, pending, min.it);
    assert min in left + multiset{min};
    forall n | n in left ensures InfoLe(min.it, n.it) {
      assert n in left + multiset{min} && NextLe(min, n);
    }
    MidMergeStep(sources, left, min, done, pending, p);
    AfterPopSummarises(out, pending, done, min.it);
  }

  lemma EndOfMerge(sources: seq<seq<Info>>, out: seq<Info>, pending: Info, done: set<Info>)
    requires MidMerge(sources, multiset{}, done, pending)
    requires Summarises(out, pending, done)
    ensures Merged(sources, Closed(out, pending))
  {
    hide Less;
    hide InSources;
    hide Ascending;
    hide NotOlder;
    hide Summarises;
    var above := pending.blockID + [0];
    LessExtended(pending.blockID, 0);
    ClosePending(out, pending, done, above);
    assert forall x :: InSources(sources, x) <==> x in done;
  }

  lemma {:induction false} LessExtended(a: Bytes, b: byte)
    ensures Less(a, a + [b])
  {
    if a != [] {
      LessExtended(a[1..], b);
      assert (a + [b])[1..] == a[1..] + [b];
    }
  }

  /** Iteration and lookup agree: an ID is delivered exactly when the lookup finds it, with
      the same timestamp and deletion mark, and with the same entry when ties are identical. */
  lemma IterateAgreesWithFind(ms: seq<Index>, sources: seq<seq<Info>>, out: seq<Info>, id: Bytes)
    requires |sources| == |ms| && forall k :: 0 <= k < |ms| ==> Enumerates(sources[k], ms[k])
    requires Merged(sources, out)
    requires id != []
    ensures MergedFind(ms, id).Some? <==> Reported(out, id)
    ensures forall o :: o in out && o.blockID == id ==>
      && MergedFind(ms, id).Some?
      && o.timestamp == MergedFind(ms, id).value.timestamp
      && o.deleted == MergedFind(ms, id).value.deleted
      && (TiesIdentical(ms) ==> MergedFind(ms, id) == Some(o))
  {
    hide *;
    MergedFindIsNewest(ms, id);
    if Reported(out, id) {
      var o := ReportedEntry(out, id);
      DeliveredIsNewest(ms, sources, out, o);
    }
    if MergedFind(ms, id).Some? {
      DeliveredIfFound(ms, sources, out, id);
    }
    forall o | o in out && o.blockID == id
      ensures MergedFind(ms, id).Some?
      ensures o.timestamp == MergedFind(ms, id).value.timestamp && o.deleted == MergedFind(ms, id).value.deleted
      ensures TiesIdentical(ms) ==> MergedFind(ms, id) == Some(o)
    {
      DeliveredIsNewest(ms, sources, out, o);
      NewestAlike(ms, id, o, MergedFind(ms, id).value);
      if TiesIdentical(ms) {
        NewestUnique(ms, id, o, MergedFind(ms, id).value);
      }
    }
  }

  lemma ReportedEntry(out: seq<Info>, id: Bytes) returns (o: Info)
    requires Reported(out, id)
    ensures o in out && o.blockID == id
  {
    o :| o in out && o.blockID == id;
  }

  lemma DeliveredIfFound(ms: seq<Index>, sources: seq<seq<Info>>, out: seq<Info>, id: Bytes)
    requires |sources| == |ms| && forall k :: 0 <= k < |ms| ==> Enumerates(sources[k], ms[k])
    requires Merged(sources, out) && id != []
    requires exists k :: 0 <= k < |ms| && id in ms[k]
    ensures Reported(out, id)
  {
    hide Ascending;
    var k :| 0 <= k < |ms| && id in ms[k];
    EntryInSources(ms, sources, k, id);
  }

  lemma EntryInSources(ms: seq<Index>, sources: seq<seq<Info>>, k: nat, id: Bytes)
    requires |sources| == |ms| && forall k :: 0 <= k < |ms| ==> Enumerates(sources[k], ms[k])
    requires k < |ms| && id in ms[k]
    ensures ms[k][id].blockID == id && InSources(sources, ms[k][id])
  {
    hide Ascending;
    var i :| 0 <= i < |sources[k]| && sources[k][i].blockID == id;
    assert sources[k][i] in sources[k];
  }

  lemma DeliveredIsNewest(ms: seq<Index>, sources: seq<seq<Info>>, out: seq<Info>, o: Info)
    requires |sources| == |ms| && forall k :: 0 <= k < |ms| ==> Enumerates(sources[k], ms[k])
    requires Merged(sources, out) && o in out
    ensures IsNewest(ms, o.blockID, o)
    ensures exists k :: 0 <= k < |ms| && o.blockID in ms[k]
  {
    hide Ascending;
    hide NotOlder;
    hide Reported;
    var k :| 0 <= k < |sources| && o in sources[k];
    var i :| 0 <= i < |sources[k]| && sources[k][i] == o;
    assert o.blockID in ms[k] && ms[k][o.blockID] == o;
    forall j | 0 <= j < |ms| && o.blockID in ms[j] ensures NotOlder(o, ms[j][o.blockID]) {
      EntryInSources(ms, sources, j, o.blockID);
    }
  }

  lemma NewestAlike(ms: seq<Index>, id: Bytes, x: Info, y: Info)
    requires IsNewest(ms, id, x) && IsNewest(ms, id, y)
    ensures x.timestamp == y.timestamp && x.deleted == y.deleted
  {
  }
}
