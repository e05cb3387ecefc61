/** Index files that disagree about an ID at the same time (block_manager_compaction.go): the
    compaction protocol keeps its promise exactly when there are none. */
module ConflictingTies {
  import opened ByteStrings
  import opened BlockInfo
  import opened IndexCompaction

  /** The newest entry for every ID in storage is the newest ever flushed. */
  ghost predicate NewestWins(s: State) {
    forall id, e :: NewestIn(s.Present(), id, e) <==> NewestIn(s.flushed, id, e)
  }

  /** A run that flushes some of `indexes`, and the state it ends in. */
  ghost predicate Reaches(name: Index -> Bytes, indexes: set<Index>, run: seq<Action>, s: State) {
    Run(name, INIT, run) == Some(s) && s.flushed <= indexes && CollisionFree(name, s.written)
  }

  /** Newest wins in all runs over some indexes if and only if their ties agree: two that differ
      on an ID at the same time lose one of the two entries as soon as they are compacted. */
  lemma NewestWinsIffTiesAgree(name: Index -> Bytes, indexes: set<Index>)
    requires forall a, b :: a in indexes && b in indexes ==> CollisionFree(name, {a, b, Compacted([a, b])})
    ensures TiesAgree(indexes) <==> forall run, s :: Reaches(name, indexes, run, s) ==> NewestWins(s)
  {
    hide Run;
    hide NewestIn;
    hide Compacted;
    hide CollisionFree;
    if TiesAgree(indexes) {
      forall run, s | Reaches(name, indexes, run, s) ensures NewestWins(s) {
        forall id, e ensures NewestIn(s.Present(), id, e) <==> NewestIn(s.flushed, id, e) {
          NothingIsLost(name, run, s, id, e);
        }
      }
    } else {
      var a: Index, b: Index, id: Bytes :| a in indexes && b in indexes && id in a && id in b && a[id].timestamp == b[id].timestamp
        && a[id] != b[id];
      CompactionForgetsTie(name, a, b, id);
      var s := OneDeleted(name, a, b);
      assert Reaches(name, indexes, OneCompaction(a, b), s);
    }
  }

  /** One compaction of two files, up to the first delete. */
  function OneCompaction(a: Index, b: Index): seq<Action> {
    [Flush(a), Flush(b), Read(0, a), Read(0, b), WriteMerged(0), DeleteNext(0, true)]
  }

  ghost function OneDeleted(name: Index -> Bytes, a: Index, b: Index): State {
    var c := Compacted([a, b]);
    State(map[name(a) := a, name(b) := b][name(c) := c] - {name(a)}, {a, b}, {a, b, c}, map[])
      .With(0, Reading([a])).With(0, Reading([a, b])).With(0, Deleting(c, [a, b])).With(0, Deleting(c, [b]))
  }

  lemma RunOneCompaction(name: Index -> Bytes, a: Index, b: Index)
    requires name(Compacted([a, b])) != name(a)
    ensures Run(name, INIT, OneCompaction(a, b)) == Some(OneDeleted(name, a, b))
  {
    hide Run;
    hide Compacted;
    var r, c := OneCompaction(a, b), Compacted([a, b]);
    var s2 := State(map[name(a) := a, name(b) := b], {a, b}, {a, b}, map[]);
    StartOfRun(name, a, b);
    assert r[..2] == [Flush(a), Flush(b)];
    assert [a] + [b] == [a, b] && {a, b} + {c} == {a, b, c};
    var s3 := s2.With(0, Reading([a]));
    Continue(name, r, 2, s2, s3);
    var s4 := s3.With(0, Reading([a, b]));
    Continue(name, r, 3, s3, s4);
    var s5 := s4.(files := s4.files[name(c) := c], written := {a, b, c}).With(0, Deleting(c, [a, b]));
    Continue(name, r, 4, s4, s5);
    assert [a, b][1..] == [b];
    Continue(name, r, 5, s5, OneDeleted(name, a, b));
    assert r[..6] == r;
  }

  /** The later of two tied files wins the fold. */
  lemma LaterWinsTie(a: Index, b: Index, id: Bytes)
    requires id in a && id in b && a[id].timestamp == b[id].timestamp
    ensures id in Compacted([a, b]) && Compacted([a, b])[id] == b[id]
  {
    assert [a, b][..1] == [a] && [a][..0] == [];
    assert Compacted([a]) == AddAll(map[], a) == a;
  }

  lemma CompactionForgetsTie(name: Index -> Bytes, a: Index, b: Index, id: Bytes)
    requires id in a && id in b && a[id].timestamp == b[id].timestamp && a[id] != b[id]
    requires CollisionFree(name, {a, b, Compacted([a, b])})
    ensures Run(name, INIT, OneCompaction(a, b)) == Some(OneDeleted(name, a, b))
    ensures NewestIn(OneDeleted(name, a, b).flushed, id, a[id])
    ensures !NewestIn(OneDeleted(name, a, b).Present(), id, a[id])
  {
    hide Run;
    hide Compacted;
    LaterWinsTie(a, b, id);
    RunOneCompaction(name, a, b);
    var s, c := OneDeleted(name, a, b), Compacted([a, b]);
    assert a in s.flushed;
    forall f | f in s.Present() ensures f == b || f == c {}
  }

  ghost predicate TiedEverywhere(a: Index, b: Index) {
    a.Keys == b.Keys && forall id :: id in a ==> a[id].timestamp == b[id].timestamp
  }

  lemma TiedFold(a: Index, b: Index)
    requires TiedEverywhere(a, b)
    ensures Compacted([a, b]) == b && Compacted([b, a]) == a
  {
    assert [a, b][..1] == [a] && [b, a][..1] == [b] && [a][..0] == [] && [b][..0] == [];
    assert Compacted([a]) == AddAll(map[], a) == a;
    assert Compacted([b]) == AddAll(map[], b) == b;
    assert AddAll(a, b) == b && AddAll(b, a) == a;
  }

  /** The run in which two managers compact the same two files in opposite orders. */
  function OppositeCompactions(a: Index, b: Index): seq<Action> {
    [Flush(a), Flush(b), Read(0, a), Read(0, b), Read(1, b), Read(1, a), WriteMerged(0), WriteMerged(1),
     DeleteNext(0, true), DeleteNext(1, true)]
  }

  function BothRead(name: Index -> Bytes, a: Index, b: Index): State {
    State(map[name(a) := a, name(b) := b], {a, b}, {a, b}, map[])
      .With(0, Reading([a])).With(0, Reading([a, b])).With(1, Reading([b])).With(1, Reading([b, a]))
  }

  lemma RunUntilRead(name: Index -> Bytes, a: Index, b: Index)
    ensures Run(name, INIT, OppositeCompactions(a, b)[..6]) == Some(BothRead(name, a, b))
  {
    hide Run;
    hide Compacted;
    var r := OppositeCompactions(a, b);
    var s2 := State(map[name(a) := a, name(b) := b], {a, b}, {a, b}, map[]);
    StartOfRun(name, a, b);
    assert r[..2] == [Flush(a), Flush(b)];
    assert [a] + [b] == [a, b] && [b] + [a] == [b, a];
    var s3 := s2.With(0, Reading([a]));
    Continue(name, r, 2, s2, s3);
    var s4 := s3.With(0, Reading([a, b]));
    Continue(name, r, 3, s3, s4);
    var s5 := s4.With(1, Reading([b]));
    Continue(name, r, 4, s4, s5);
    Continue(name, r, 5, s5, s5.With(1, Reading([b, a])));
  }

  /** Both managers have written their merged files, which are the two there already. */
  ghost function BothWritten(name: Index -> Bytes, a: Index, b: Index): State {
    BothRead(name, a, b).With(0, Deleting(b, [a, b])).With(1, Deleting(a, [b, a]))
  }

  lemma RunUntilWritten(name: Index -> Bytes, a: Index, b: Index)
    requires TiedEverywhere(a, b) && name(a) != name(b)
    ensures Run(name, INIT, OppositeCompactions(a, b)[..8]) == Some(BothWritten(name, a, b))
  {
    hide Run;
    hide Compacted;
    hide TiedEverywhere;
    TiedFold(a, b);
    RunUntilRead(name, a, b);
    var r, s6 := OppositeCompactions(a, b), BothRead(name, a, b);
    var files := s6.files;
    assert files[name(b) := b] == files && files[name(a) := a] == files;
    assert {a, b} + {a} == {a, b} && {a, b} + {b} == {a, b};
    var s7 := s6.With(0, Deleting(b, [a, b]));
    Continue(name, r, 6, s6, s7);
    Continue(name, r, 7, s7, s7.With(1, Deleting(a, [b, a])));
  }

  /** When two flushed files tie on every entry and yet differ, the newest-wins promise
      fails: two managers that compact them in opposite orders leave storage empty. */
  lemma ConflictingTiesLoseEverything(name: Index -> Bytes, a: Index, b: Index)
    requires TiedEverywhere(a, b) && name(a) != name(b)
    ensures Run(name, INIT, OppositeCompactions(a, b)).Some?
    ensures Run(name, INIT, OppositeCompactions(a, b)).value.files == map[]
    ensures Run(name, INIT, OppositeCompactions(a, b)).value.flushed == {a, b}
  {
    hide Run;
    hide Compacted;
    hide TiedEverywhere;
    RunUntilWritten(name, a, b);
    var r, s8 := OppositeCompactions(a, b), BothWritten(name, a, b);
    var files := s8.files;
    var s9 := s8.With(0, Deleting(b, [b])).(files := files - {name(a)});
    Continue(name, r, 8, s8, s9);
    var s10 := s9.With(1, Deleting(a, [a])).(files := map[]);
    assert files - {name(a)} - {name(b)} == map[];
    Continue(name, r, 9, s9, s10);
    assert r[..10] == r;
  }

  lemma Continue(name: Index -> Bytes, r: seq<Action>, k: nat, s: State, t: State)
    requires k < |r| && Run(name, INIT, r[..k]) == Some(s)
    requires Enabled(s, r[k]) && Next(name, s, r[k]) == t
    ensures Run(name, INIT, r[..k + 1]) == Some(t)
  {
    assert r[..k + 1][..k] == r[..k];
  }

  lemma StartOfRun(name: Index -> Bytes, a: Index, b: Index)
    ensures Run(name, INIT, [Flush(a), Flush(b)])
         == Some(State(map[name(a) := a, name(b) := b], {a, b}, {a, b}, map[]))
  {
    hide Run;
    var r := [Flush(a), Flush(b)];
    assert Run(name, INIT, r[..0]) == Some(INIT) by { NoActions(name); }
    var s1 := State(map[name(a) := a], {a}, {a}, map[]);
    assert INIT.files[name(a) := a] == s1.files && {} + {a} == {a};
    Continue(name, r, 0, INIT, s1);
    assert {a} + {b} == {a, b};
    Continue(name, r, 1, s1, State(map[name(a) := a, name(b) := b], {a, b}, {a, b}, map[]));
    assert r[..2] == r;
  }

  lemma NoActions(name: Index -> Bytes)
    ensures Run(name, INIT, []) == Some(INIT)
  {
  }
}
