/** Compaction of index files by any number of uncoordinated managers over shared storage
    (block_manager_compaction.go). */
module IndexCompaction {
  import opened ByteStrings
  import opened BlockInfo
  import opened MergedIndex
  import opened IndexBuilder

  /* ----- folding index files into one ----- */

  function Compacted(sources: seq<Index>): (r: Index) {
    if sources == [] then map[] else AddAll(Compacted(sources[..|sources| - 1]), sources[|sources| - 1])
  }

  /** Entries that `SkipDeletedOlderThan` leaves out: tombstones from before the cutoff, if the
      option is set. */
  predicate Dropped(e: Info, cutoff: Option<int>) {
    cutoff.Some? && e.deleted && e.timestamp < cutoff.value
  }

  function Kept(idx: Index, cutoff: Option<int>): (r: Index) {
    map id | id in idx && !Dropped(idx[id], cutoff) :: idx[id]
  }

  function KeptSeq(s: seq<Info>, cutoff: Option<int>): (r: seq<Info>) {
    if s == [] then []
    else
      var n := |s| - 1;
      if Dropped(s[n], cutoff) then KeptSeq(s[..n], cutoff) else KeptSeq(s[..n], cutoff) + [s[n]]
  }

  lemma {:induction false} KeptEnumerates(s: seq<Info>, idx: Index, cutoff: Option<int>)
    requires Enumerates(s, idx)
    ensures Enumerates(KeptSeq(s, cutoff), Kept(idx, cutoff))
  {
    hide Dropped;
    hide Enumerates;
    hide Kept;
    if s == [] {
      NoneKept(idx, cutoff);
    } else {
      var n := |s| - 1;
      var less := idx - {s[n].blockID};
      DropLast(s, idx);
      KeptEnumerates(s[..n], less, cutoff);
      KeptLess(s, idx, cutoff);
      if !Dropped(s[n], cutoff) {
        KeptLast(s, idx, cutoff);
      }
    }
  }

  lemma NoneKept(idx: Index, cutoff: Option<int>)
    requires Enumerates([], idx)
    ensures Enumerates([], Kept(idx, cutoff))
  {
  }

  lemma KeptLess(s: seq<Info>, idx: Index, cutoff: Option<int>)
    requires s != [] && Enumerates(s, idx)
    ensures var last := s[|s| - 1];
      var less := Kept(idx - {last.blockID}, cutoff);
      Kept(idx, cutoff) == if Dropped(last, cutoff) then less else less[last.blockID := last]
  {
    hide Dropped;
    hide Ascending;
    assert idx[s[|s| - 1].blockID] == s[|s| - 1];
  }

  lemma KeptLast(s: seq<Info>, idx: Index, cutoff: Option<int>)
    requires s != [] && Enumerates(s, idx)
    requires Enumerates(KeptSeq(s[..|s| - 1], cutoff), Kept(idx - {s[|s| - 1].blockID}, cutoff))
    ensures var last := s[|s| - 1];
      Enumerates(KeptSeq(s[..|s| - 1], cutoff) + [last], Kept(idx - {last.blockID}, cutoff)[last.blockID := last])
  {
    hide KeptSeq;
    hide Dropped;
    hide Less;
    var n := |s| - 1;
    var less := idx - {s[n].blockID};
    DropLast(s, idx);
    var t := KeptSeq(s[..n], cutoff);
    forall i | 0 <= i < |t| ensures Less(t[i].blockID, s[n].blockID) {
      assert t[i].blockID in less;
      var j :| 0 <= j < |s[..n]| && s[..n][j].blockID == t[i].blockID;
      assert s[j].blockID == t[i].blockID;
    }
    var u, m := t + [s[n]], Kept(less, cutoff)[s[n].blockID := s[n]];
    forall i | 0 <= i < |u| ensures u[i].blockID in m && m[u[i].blockID] == u[i] {
      if i < |t| {
        LessIrreflexive(t[i].blockID, s[n].blockID);
      }
    }
    forall id | id in m ensures exists i :: 0 <= i < |u| && u[i].blockID == id {
      if id == s[n].blockID {
        assert u[|t|].blockID == id;
      } else {
        var i :| 0 <= i < |t| && t[i].blockID == id;
        assert u[i].blockID == id;
      }
    }
  }

  lemma LessIrreflexive(a: Bytes, b: Bytes)
    requires Less(a, b)
    ensures a != b
  {
    LessTrichotomy(a, b);
  }

  /** `addIndexBlocksToBuilder`, given the entries its iteration delivers: all of them but the
      tombstones to be left out. */
  method AddIndexBlockToBuilder(bld: PackIndexBuilder, s: seq<Info>, cutoff: Option<int>, ghost idx: Index)
    requires bld.Valid() && Enumerates(s, idx)
    modifies bld
    ensures bld.Valid() && bld.entries == AddAll(old(bld.entries), Kept(idx, cutoff))
  {
    hide Enumerates;
    hide AddAll;
    hide Kept;
    for i := 0 to |s|
      invariant bld.Valid() && bld.entries == AddSeq(old(bld.entries), KeptSeq(s[..i], cutoff))
    {
      assert s[..i + 1][..i] == s[..i];
      if !Dropped(s[i], cutoff) {
        ghost var t := KeptSeq(s[..i], cutoff);
        assert (t + [s[i]])[..|t|] == t;
        bld.Add(s[i]);
      }
    }
    assert s[..|s|] == s;
    KeptEnumerates(s, idx, cutoff);
    AddSeqIsAddAll(old(bld.entries), KeptSeq(s, cutoff), Kept(idx, cutoff));
  }

  function KeptAll(sources: seq<Index>, cutoff: Option<int>): (r: seq<Index>) {
    seq(|sources|, k requires 0 <= k < |sources| => Kept(sources[k], cutoff))
  }

  /** The folding loop of `compactAndDeleteIndexBlocks`. */
  method CompactedBuilder(listings: seq<seq<Info>>, cutoff: Option<int>, ghost sources: seq<Index>)
    returns (bld: PackIndexBuilder)
    requires |listings| == |sources|
    requires forall k :: 0 <= k < |sources| ==> Enumerates(listings[k], sources[k])
    ensures fresh(bld) && bld.Valid() && bld.entries == Compacted(KeptAll(sources, cutoff))
  {
    hide Enumerates;
    hide Kept;
    bld := new PackIndexBuilder();
    ghost var kept := KeptAll(sources, cutoff);
    for k := 0 to |listings|
      invariant fresh(bld) && bld.Valid() && bld.entries == Compacted(kept[..k])
    {
      AddIndexBlockToBuilder(bld, listings[k], cutoff, sources[k]);
      assert kept[..k + 1][..k] == kept[..k];
    }
    assert kept[..|kept|] == kept;
  }

  /** Everything in `f` is also in `g`, at least as new. */
  ghost predicate Dominated(f: Index, g: Index) {
    forall id :: id in f ==> id in g && f[id].timestamp <= g[id].timestamp
  }

  lemma {:induction false} CompactedDominates(sources: seq<Index>, k: nat)
    requires k < |sources|
    ensures Dominated(sources[k], Compacted(sources))
  {
    var n := |sources| - 1;
    if k < n {
      CompactedDominates(sources[..n], k);
    }
  }

  /** Every entry of the fold comes from one of the sources. */
  lemma {:induction false} CompactedFrom(sources: seq<Index>, id: Bytes)
    requires id in Compacted(sources)
    ensures exists k :: 0 <= k < |sources| && id in sources[k] && sources[k][id] == Compacted(sources)[id]
  {
    var n := |sources| - 1;
    var t := sources[..n];
    if id in Compacted(t) && Compacted(sources)[id] == Compacted(t)[id] {
      CompactedFrom(t, id);
      var k :| 0 <= k < |t| && id in t[k] && t[k][id] == Compacted(t)[id];
      assert sources[k] == t[k];
    } else {
      assert sources[n][id] == Compacted(sources)[id];
    }
  }

  /* ----- dropping old tombstones ----- */

  /** Without the option nothing is left out. */
  lemma KeptWithoutOption(sources: seq<Index>)
    ensures KeptAll(sources, None) == sources
  {
    forall k | 0 <= k < |sources| ensures Kept(sources[k], None) == sources[k] {}
  }

  /** No source has a newer entry for `id` than `e`, which one of them holds. */
  ghost predicate NewestOf(sources: seq<Index>, id: Bytes, e: Info) {
    && (exists k :: 0 <= k < |sources| && id in sources[k] && sources[k][id] == e)
    && (forall k :: 0 <= k < |sources| && id in sources[k] ==> sources[k][id].timestamp <= e.timestamp)
  }

  lemma CompactedIsNewest(sources: seq<Index>, id: Bytes)
    ensures id in Compacted(sources) <==> exists k :: 0 <= k < |sources| && id in sources[k]
    ensures id in Compacted(sources) ==> NewestOf(sources, id, Compacted(sources)[id])
  {
    hide Compacted;
    forall k | 0 <= k < |sources| && id in sources[k]
      ensures id in Compacted(sources) && sources[k][id].timestamp <= Compacted(sources)[id].timestamp
    {
      CompactedDominates(sources, k);
    }
    if id in Compacted(sources) {
      CompactedFrom(sources, id);
    }
  }

  /** Entries for `id` of the same time are identical. */
  ghost predicate TiesAt(ms: seq<Index>, id: Bytes) {
    forall j, k :: 0 <= j < |ms| && 0 <= k < |ms| && id in ms[j] && id in ms[k] ==>
      ms[j][id].timestamp == ms[k][id].timestamp ==> ms[j][id] == ms[k][id]
  }

  lemma FindIsNewest(ms: seq<Index>, id: Bytes, e: Info)
    requires TiesAt(ms, id) && NewestOf(ms, id, e)
    ensures MergedFind(ms, id) == Some(e)
  {
    hide MergedFind;
    MergedFindIsNewest(ms, id);
  }

  /** Readers cannot tell a file from the files it was folded from. */
  lemma CompactedReadsSame(rest: seq<Index>, files: seq<Index>, id: Bytes)
    requires TiesAt(rest + files, id)
    ensures MergedFind(rest + [Compacted(files)], id) == MergedFind(rest + files, id)
  {
    hide MergedFind;
    hide Compacted;
    var before: seq<Index>, after: seq<Index> := rest + files, rest + [Compacted(files)];
    CompactedIsNewest(files, id);
    MergedFindIsNewest(before, id);
    MergedFindIsNewest(after, id);
    forall k | 0 <= k < |files| ensures before[|rest| + k] == files[k] {}
    if MergedFind(before, id).None? {
      forall k | 0 <= k < |after| ensures id !in after[k] {
        if k < |rest| {
          assert after[k] == before[k];
        }
      }
    } else {
      FoldedNewest(rest, files, id, MergedFind(before, id).value);
      FoldedTies(rest, files, id);
      FindIsNewest(after, id, MergedFind(before, id).value);
    }
  }

  lemma FoldedTies(rest: seq<Index>, files: seq<Index>, id: Bytes)
    requires TiesAt(rest + files, id)
    ensures TiesAt(rest + [Compacted(files)], id)
  {
    hide Compacted;
    var before: seq<Index>, after: seq<Index> := rest + files, rest + [Compacted(files)];
    CompactedIsNewest(files, id);
    forall k | 0 <= k < |after| && id in after[k]
      ensures exists j :: 0 <= j < |before| && id in before[j] && before[j][id] == after[k][id]
    {
      EntryBefore(rest, files, id, k);
    }
  }

  /** Every entry after folding was there before. */
  lemma EntryBefore(rest: seq<Index>, files: seq<Index>, id: Bytes, k: nat)
    requires k <= |rest| && id in (rest + [Compacted(files)])[k]
    ensures exists j ::
      && 0 <= j < |rest + files| && id in (rest + files)[j]
      && (rest + files)[j][id] == (rest + [Compacted(files)])[k][id]
  {
    hide Compacted;
    if k < |rest| {
      assert (rest + files)[k] == rest[k];
    } else {
      CompactedFrom(files, id);
      var j :| 0 <= j < |files| && id in files[j] && files[j][id] == Compacted(files)[id];
      assert (rest + files)[|rest| + j] == files[j];
    }
  }

  lemma FoldedNewest(rest: seq<Index>, files: seq<Index>, id: Bytes, e: Info)
    requires TiesAt(rest + files, id) && IsNewest(rest + files, id, e)
    ensures NewestOf(rest + [Compacted(files)], id, e)
  {
    hide Compacted;
    var before: seq<Index>, after: seq<Index> := rest + files, rest + [Compacted(files)];
    CompactedIsNewest(files, id);
    forall k | 0 <= k < |after| && id in after[k] ensures after[k][id].timestamp <= e.timestamp {
      EntryBefore(rest, files, id, k);
    }
    var w :| 0 <= w < |before| && id in before[w] && before[w][id] == e;
    if w < |rest| {
      assert after[w][id] == e;
    } else {
      var c := Compacted(files);
      assert files[w - |rest|] == before[w];
      assert after[|rest|] == c && id in c;
      CompactedFrom(files, id);
      var j :| 0 <= j < |files| && id in files[j] && files[j][id] == c[id];
      assert before[|rest| + j] == files[j];
      assert c[id].timestamp == e.timestamp;
    }
  }

  /* ----- the protocol ----- */

  /** What one manager is doing: nothing, reading the files it will merge, or deleting them
      after it wrote the merged file. */
  datatype Phase =
    | Idle
    | Reading(read: seq<Index>)
    | Deleting(result: Index, todo: seq<Index>)

  /** `files` is the shared storage; `flushed` and `written` record what was ever flushed,
      and what was ever written by a flush or a compaction. */
  datatype State = State(
    files: map<Bytes, Index>,
    flushed: set<Index>,
    written: set<Index>,
    managers: map<nat, Phase>)
  {
    function PhaseOf(m: nat): Phase {
      if m in managers then managers[m] else Idle
    }

    function With(m: nat, p: Phase): State {
      this.(managers := managers[m := p])
    }

    ghost function Present(): set<Index> {
      files.Values
    }
  }

  const INIT := State(map[], {}, {}, map[])

  /** One atomic action of some manager. `Stop` is a crash, an error or the end of a compaction. */
  datatype Action =
    | Flush(index: Index)
    | Read(m: nat, index: Index)
    | WriteMerged(m: nat)
    | DeleteNext(m: nat, succeeds: bool)
    | Stop(m: nat)

  predicate Enabled(s: State, a: Action) {
    match a
    case Flush(_) => true
    case Read(m, idx) => !s.PhaseOf(m).Deleting? && idx in s.written
    case WriteMerged(m) => s.PhaseOf(m).Reading? && |s.PhaseOf(m).read| > 1
    case DeleteNext(m, _) => s.PhaseOf(m).Deleting? && s.PhaseOf(m).todo != []
    case Stop(_) => true
  }

  /** Files are named by the hash of their contents; `name` is that naming. */
  function Put(name: Index -> Bytes, s: State, c: Index): State {
    s.(files := s.files[name(c) := c], written := s.written + {c})
  }

  function Next(name: Index -> Bytes, s: State, a: Action): (r: State)
    requires Enabled(s, a)
  {
    match a
    case Flush(b) =>
      Put(name, s, b).(flushed := s.flushed + {b})
    case Read(m, idx) =>
      s.With(m, Reading(if s.PhaseOf(m).Idle? then [idx] else s.PhaseOf(m).read + [idx]))
    case WriteMerged(m) =>
      var read := s.PhaseOf(m).read;
      var c := Compacted(read);
      Put(name, s, c).With(m, Deleting(c, read))
    case DeleteNext(m, succeeds) =>
      var p := s.PhaseOf(m);
      var t := s.With(m, Deleting(p.result, p.todo[1..]));
      if name(p.todo[0]) != name(p.result) && succeeds then t.(files := t.files - {name(p.todo[0])}) else t
    case Stop(m) => s.With(m, Idle)
  }

  /** The state after a sequence of actions, each enabled when it happens. */
  function Run(name: Index -> Bytes, s: State, run: seq<Action>): (r: Option<State>) {
    if run == [] then Some(s)
    else match Run(name, s, run[..|run| - 1])
      case None => None
      case Some(t) => if Enabled(t, run[|run| - 1]) then Some(Next(name, t, run[|run| - 1])) else None
  }

  /* ----- safety ----- */

  /** No two different files that were written share a name. */
  ghost predicate CollisionFree(name: Index -> Bytes, files: set<Index>) {
    forall a, b :: a in files && b in files && name(a) == name(b) ==> a == b
  }

  /** Entries with the same ID and timestamp are identical. */
  ghost predicate TiesAgree(files: set<Index>) {
    forall a: Index, b: Index, id: Bytes :: a in files && b in files && id in a && id in b && a[id].timestamp == b[id].timestamp
      ==> a[id] == b[id]
  }

  /** `e` is the newest entry for `id` among `files`. */
  ghost predicate NewestIn(files: set<Index>, id: Bytes, e: Info) {
    && (exists f :: f in files && id in f && f[id] == e)
    && (forall f: Index :: f in files && id in f ==> f[id].timestamp <= e.timestamp)
  }

  /** A file that is gone was superseded by a different file that was written. */
  ghost predicate Superseded(f: Index, written: set<Index>) {
    exists g :: g in written && g != f && Dominated(f, g)
  }

  ghost predicate Flushed(e: Info, id: Bytes, flushed: set<Index>) {
    exists f :: f in flushed && id in f && f[id] == e
  }

  ghost predicate PhaseOk(p: Phase, written: set<Index>) {
    match p
    case Idle => true
    case Reading(read) => forall k :: 0 <= k < |read| ==> read[k] in written
    case Deleting(result, todo) =>
      result in written && forall k :: 0 <= k < |todo| ==> todo[k] in written && Dominated(todo[k], result)
  }

  ghost predicate Stored(name: Index -> Bytes, s: State, f: Index) {
    name(f) in s.files && s.files[name(f)] == f
  }

  ghost predicate FilesOk(name: Index -> Bytes, s: State) {
    forall n :: n in s.files ==> s.files[n] in s.written && name(s.files[n]) == n
  }

  ghost predicate StoredOrSuperseded(name: Index -> Bytes, s: State) {
    forall w :: w in s.written ==> Stored(name, s, w) || Superseded(w, s.written)
  }

  ghost predicate AllFlushed(s: State) {
    forall w, id :: w in s.written && id in w ==> Flushed(w[id], id, s.flushed)
  }

  ghost predicate PhasesOk(s: State) {
    forall m :: m in s.managers ==> PhaseOk(s.managers[m], s.written)
  }

  ghost predicate Inv(name: Index -> Bytes, s: State) {
    s.flushed <= s.written && FilesOk(name, s) && StoredOrSuperseded(name, s) && AllFlushed(s) && PhasesOk(s)
  }

  lemma SupersededGrows(f: Index, written: set<Index>, c: Index)
    requires Superseded(f, written)
    ensures Superseded(f, written + {c})
  {
    var g :| g in written && g != f && Dominated(f, g);
    assert g in written + {c};
  }

  /** Writing a file never hides another: it can only replace itself. */
  lemma PutStored(name: Index -> Bytes, s: State, c: Index)
    requires FilesOk(name, s) && StoredOrSuperseded(name, s) && CollisionFree(name, s.written + {c})
    ensures FilesOk(name, Put(name, s, c)) && StoredOrSuperseded(name, Put(name, s, c))
  {
    hide Superseded;
    var s' := Put(name, s, c);
    forall w | w in s'.written ensures Stored(name, s', w) || Superseded(w, s'.written) {
      if w != c && !Stored(name, s, w) {
        SupersededGrows(w, s.written, c);
      }
    }
  }

  lemma PutPhases(name: Index -> Bytes, s: State, c: Index)
    requires PhasesOk(s)
    ensures PhasesOk(Put(name, s, c))
  {
    hide Dominated;
  }

  lemma FlushKeepsInv(name: Index -> Bytes, s: State, c: Index)
    requires Inv(name, s) && CollisionFree(name, s.written + {c})
    ensures Inv(name, Put(name, s, c).(flushed := s.flushed + {c}))
  {
    hide StoredOrSuperseded;
    hide FilesOk;
    hide PhasesOk;
    hide CollisionFree;
    var s' := Put(name, s, c).(flushed := s.flushed + {c});
    PutStored(name, s, c);
    PutPhases(name, s, c);
    FlushedDoesNotMatter(name, Put(name, s, c), s'.flushed);
    forall w, id | w in s'.written && id in w ensures Flushed(w[id], id, s'.flushed) {
      if w in s.written {
        assert Flushed(w[id], id, s.flushed);
        var f :| f in s.flushed && id in f && f[id] == w[id];
        assert f in s'.flushed;
      } else {
        assert c in s'.flushed;
      }
    }
  }

  lemma FlushedDoesNotMatter(name: Index -> Bytes, s: State, flushed: set<Index>)
    requires FilesOk(name, s) && StoredOrSuperseded(name, s) && PhasesOk(s)
    ensures var t := s.(flushed := flushed); FilesOk(name, t) && StoredOrSuperseded(name, t) && PhasesOk(t)
  {
    hide Superseded;
    hide PhaseOk;
    assert forall w :: Stored(name, s.(flushed := flushed), w) <==> Stored(name, s, w);
  }

  lemma MergedPutKeepsInv(name: Index -> Bytes, s: State, c: Index)
    requires Inv(name, s) && CollisionFree(name, s.written + {c})
    requires forall id :: id in c ==> Flushed(c[id], id, s.flushed)
    ensures Inv(name, Put(name, s, c))
  {
    hide StoredOrSuperseded;
    hide FilesOk;
    hide PhasesOk;
    hide CollisionFree;
    hide Flushed;
    PutStored(name, s, c);
    PutPhases(name, s, c);
  }

  /** Deleting a merged source keeps the invariant: the merged file supersedes it. */
  lemma DeleteKeepsInv(name: Index -> Bytes, s: State, f: Index, result: Index)
    requires Inv(name, s)
    requires f in s.written && result in s.written && Dominated(f, result) && name(f) != name(result)
    requires CollisionFree(name, s.written)
    ensures Inv(name, s.(files := s.files - {name(f)}))
  {
    hide Dominated;
    hide Flushed;
    hide PhaseOk;
    var s' := s.(files := s.files - {name(f)});
    forall w | w in s'.written ensures Stored(name, s', w) || Superseded(w, s'.written) {
      if Stored(name, s, w) && name(w) == name(f) {
        assert w == f && result != f;
      }
    }
  }

  lemma PhaseKeepsInv(name: Index -> Bytes, s: State, m: nat, p: Phase)
    requires Inv(name, s) && PhaseOk(p, s.written)
    ensures Inv(name, s.With(m, p))
  {
    hide PhaseOk;
    hide Superseded;
    hide Flushed;
    assert forall w :: Stored(name, s.With(m, p), w) <==> Stored(name, s, w);
  }

  lemma NextKeepsInv(name: Index -> Bytes, s: State, a: Action)
    requires Inv(name, s) && Enabled(s, a) && CollisionFree(name, Next(name, s, a).written)
    ensures Inv(name, Next(name, s, a))
  {
    hide Inv;
    hide CollisionFree;
    hide Compacted;
    match a
    case Flush(b) =>
      FlushKeepsInv(name, s, b);
    case Read(m, idx) =>
      ManagerPhase(name, s, m);
      PhaseKeepsInv(name, s, m, Next(name, s, a).PhaseOf(m));
    case WriteMerged(m) =>
      ManagerPhase(name, s, m);
      var read := s.PhaseOf(m).read;
      var c := Compacted(read);
      MergedIsFlushed(name, s, read);
      MergedPutKeepsInv(name, s, c);
      forall k | 0 <= k < |read| ensures Dominated(read[k], c) {
        CompactedDominates(read, k);
      }
      PhaseKeepsInv(name, Put(name, s, c), m, Deleting(c, read));
    case DeleteNext(m, succeeds) =>
      ManagerPhase(name, s, m);
      var p := s.PhaseOf(m);
      PhaseKeepsInv(name, s, m, Deleting(p.result, p.todo[1..]));
      if name(p.todo[0]) != name(p.result) && succeeds {
        DeleteKeepsInv(name, s.With(m, Deleting(p.result, p.todo[1..])), p.todo[0], p.result);
      }
    case Stop(m) =>
      PhaseKeepsInv(name, s, m, Idle);
  }

  lemma ManagerPhase(name: Index -> Bytes, s: State, m: nat)
    requires Inv(name, s)
    ensures PhaseOk(s.PhaseOf(m), s.written)
  {
  }

  lemma MergedIsFlushed(name: Index -> Bytes, s: State, read: seq<Index>)
    requires Inv(name, s) && PhaseOk(Reading(read), s.written)
    ensures forall id :: id in Compacted(read) ==> Flushed(Compacted(read)[id], id, s.flushed)
  {
    hide Flushed;
    hide Compacted;
    hide Superseded;
    var c := Compacted(read);
    forall id | id in c ensures Flushed(c[id], id, s.flushed) {
      CompactedFrom(read, id);
      var k :| 0 <= k < |read| && id in read[k] && read[k][id] == c[id];
      assert read[k] in s.written;
    }
  }

  lemma {:induction false} RunKeepsInv(name: Index -> Bytes, run: seq<Action>, s: State)
    requires Run(name, INIT, run) == Some(s) && CollisionFree(name, s.written)
    ensures Inv(name, s)
  {
    if run != [] {
      var t := Run(name, INIT, run[..|run| - 1]).value;
      WrittenGrows(name, t, run[|run| - 1]);
      RunKeepsInv(name, run[..|run| - 1], t);
      NextKeepsInv(name, t, run[|run| - 1]);
    }
  }

  lemma WrittenGrows(name: Index -> Bytes, s: State, a: Action)
    requires Enabled(s, a)
    ensures s.written <= Next(name, s, a).written
  {
    hide Compacted;
  }

  /* A file that is gone is superseded, perhaps repeatedly, by one that is present. */

  ghost function Above(f: Index, written: set<Index>): set<Index> {
    set g | g in written && g != f && Dominated(f, g)
  }

  lemma DominatedAntisymmetric(f: Index, g: Index, written: set<Index>)
    requires f in written && g in written && TiesAgree(written)
    requires Dominated(f, g) && Dominated(g, f)
    ensures f == g
  {
    assert f.Keys == g.Keys;
    forall id | id in f ensures f[id] == g[id] {
      assert f[id].timestamp == g[id].timestamp;
    }
  }

  lemma AboveShrinks(f: Index, g: Index, written: set<Index>)
    requires f in written && TiesAgree(written) && g in Above(f, written)
    ensures Above(g, written) < Above(f, written)
  {
    hide TiesAgree;
    forall h | h in Above(g, written) ensures h in Above(f, written) {
      assert Dominated(f, h);
      if h == f {
        DominatedAntisymmetric(f, g, written);
      }
    }
    assert g !in Above(g, written);
  }

  lemma {:induction false} DominatedByStored(name: Index -> Bytes, s: State, f: Index) returns (g: Index)
    requires StoredOrSuperseded(name, s) && TiesAgree(s.written) && f in s.written
    ensures g in s.written && Stored(name, s, g) && Dominated(f, g)
    decreases Above(f, s.written)
  {
    hide TiesAgree;
    if Stored(name, s, f) {
      g := f;
    } else {
      assert Superseded(f, s.written);
      var h :| h in s.written && h != f && Dominated(f, h);
      AboveShrinks(f, h, s.written);
      g := DominatedByStored(name, s, h);
    }
  }

  lemma TiesAgreeWritten(name: Index -> Bytes, s: State)
    requires AllFlushed(s) && TiesAgree(s.flushed)
    ensures TiesAgree(s.written)
  {
    forall a: Index, b: Index, id: Bytes | a in s.written && b in s.written && id in a && id in b && a[id].timestamp == b[id].timestamp
      ensures a[id] == b[id]
    {
      assert Flushed(a[id], id, s.flushed) && Flushed(b[id], id, s.flushed);
    }
  }

  /** Some file in storage has an entry at least as new as any that was ever written. */
  lemma NewerStored(name: Index -> Bytes, s: State, w: Index, id: Bytes) returns (g: Index)
    requires Inv(name, s) && TiesAgree(s.written) && w in s.written && id in w
    ensures g in s.Present() && g in s.written && id in g && w[id].timestamp <= g[id].timestamp
  {
    hide TiesAgree;
    hide AllFlushed;
    hide PhasesOk;
    hide FilesOk;
    g := DominatedByStored(name, s, w);
    assert name(g) in s.files;
  }

  lemma FromFlushed(s: State, w: Index, id: Bytes)
    requires AllFlushed(s) && w in s.written && id in w
    ensures Flushed(w[id], id, s.flushed)
  {
  }

  lemma PresentWritten(name: Index -> Bytes, s: State, w: Index)
    requires Inv(name, s) && w in s.Present()
    ensures w in s.written
  {
  }

  lemma PresentIsNewest(name: Index -> Bytes, s: State, id: Bytes, e: Info)
    requires Inv(name, s) && TiesAgree(s.written) && NewestIn(s.Present(), id, e)
    ensures NewestIn(s.flushed, id, e)
  {
    hide PhasesOk;
    hide StoredOrSuperseded;
    hide TiesAgree;
    hide AllFlushed;
    hide FilesOk;
    var p: Index :| p in s.Present() && id in p && p[id] == e;
    PresentWritten(name, s, p);
    FromFlushed(s, p, id);
    forall f: Index | f in s.flushed && id in f ensures f[id].timestamp <= e.timestamp {
      var g := NewerStored(name, s, f, id);
    }
  }

  lemma WrittenAtMost(s: State, id: Bytes, e: Info, w: Index)
    requires AllFlushed(s) && NewestIn(s.flushed, id, e) && w in s.written && id in w
    ensures w[id].timestamp <= e.timestamp
  {
    hide AllFlushed;
    FromFlushed(s, w, id);
  }

  lemma FlushedIsNewest(name: Index -> Bytes, s: State, id: Bytes, e: Info)
    requires Inv(name, s) && TiesAgree(s.written) && NewestIn(s.flushed, id, e)
    ensures NewestIn(s.Present(), id, e)
  {
    hide PhasesOk;
    hide StoredOrSuperseded;
    hide AllFlushed;
    hide FilesOk;
    var f: Index :| f in s.flushed && id in f && f[id] == e;
    var g := NewerStored(name, s, f, id);
    WrittenAtMost(s, id, e, g);
    assert g[id] == e;
    forall w: Index | w in s.Present() && id in w ensures w[id].timestamp <= e.timestamp {
      PresentWritten(name, s, w);
      WrittenAtMost(s, id, e, w);
    }
  }

  lemma NewestPreserved(name: Index -> Bytes, s: State, id: Bytes, e: Info)
    requires Inv(name, s) && TiesAgree(s.written)
    ensures NewestIn(s.Present(), id, e) <==> NewestIn(s.flushed, id, e)
  {
    hide *;
    if NewestIn(s.Present(), id, e) {
      PresentIsNewest(name, s, id, e);
    }
    if NewestIn(s.flushed, id, e) {
      FlushedIsNewest(name, s, id, e);
    }
  }

  /** In every run of flushes, compactions, failed deletes and crashes by any number of
      managers, the newest entry for an ID among the files in storage is the newest entry
      for it among everything ever flushed. */
  lemma NothingIsLost(name: Index -> Bytes, run: seq<Action>, s: State, id: Bytes, e: Info)
    requires Run(name, INIT, run) == Some(s)
    requires CollisionFree(name, s.written) && TiesAgree(s.flushed)
    ensures NewestIn(s.Present(), id, e) <==> NewestIn(s.flushed, id, e)
  {
    hide *;
    RunKeepsInv(name, run, s);
    InvFlushed(name, s);
    TiesAgreeWritten(name, s);
    NewestPreserved(name, s, id, e);
  }

  lemma InvFlushed(name: Index -> Bytes, s: State)
    requires Inv(name, s)
    ensures AllFlushed(s)
  {
  }

  /** Consequently a manager that loads the files in storage, in any order, finds for every
      ID the newest entry ever flushed, and finds nothing that was never flushed. */
  lemma EveryReaderSeesNewest(name: Index -> Bytes, run: seq<Action>, s: State, ms: seq<Index>, id: Bytes)
    requires Run(name, INIT, run) == Some(s)
    requires CollisionFree(name, s.written) && TiesAgree(s.flushed)
    requires forall f :: f in ms <==> f in s.Present()
    ensures MergedFind(ms, id).Some? <==> exists f: Index :: f in s.flushed && id in f
    ensures MergedFind(ms, id).Some? ==> NewestIn(s.flushed, id, MergedFind(ms, id).value)
  {
    hide Run;
    hide CollisionFree;
    hide TiesAgree;
    hide MergedFind;
    MergedFindIsNewest(ms, id);
    RunKeepsInv(name, run, s);
    InvFlushed(name, s);
    TiesAgreeWritten(name, s);
    if MergedFind(ms, id).Some? {
      FoundIsNewestIn(ms, s.Present(), id, MergedFind(ms, id).value);
      NewestPreserved(name, s, id, MergedFind(ms, id).value);
    }
    if f: Index :| f in s.flushed && id in f {
      var g := NewerStored(name, s, f, id);
      var k :| 0 <= k < |ms| && ms[k] == g;
      assert id in ms[k];
    }
  }

  lemma FoundIsNewestIn(ms: seq<Index>, files: set<Index>, id: Bytes, e: Info)
    requires forall f :: f in ms <==> f in files
    requires IsNewest(ms, id, e)
    ensures NewestIn(files, id, e)
  {
    var k :| 0 <= k < |ms| && id in ms[k] && ms[k][id] == e;
    assert ms[k] in ms;
    forall f: Index | f in files && id in f ensures f[id].timestamp <= e.timestamp {
      assert f in ms;
    }
  }
}
