/** A run of a manifest manager after which a deleted manifest is back, because a compaction wrote
    a block again that an earlier compaction had deleted (manifest_manager.go, block_manager.go). */
module DeletedManifest {
  import opened ByteStrings
  import opened BlockStores
  import opened Manifests
  import opened ManifestRuns

  function Tombstone(id: Bytes, now: int): Entry {
    Entry(id, map[], now, true, [])
  }

  /** Two manifests, when each is deleted, and the names of the blocks they get into. */
  datatype Story = Story(a: Entry, b: Entry, whenB: int, whenA: int, x: Bytes, y: Bytes, z: Bytes, w: Bytes, v: Bytes)
  {
    ghost predicate Told(name: seq<Entry> -> Bytes) {
      && !a.deleted && !b.deleted && a.id != b.id && b.modTime < whenB && a.modTime < whenA
      && x == name([a]) && y == name([b]) && z == name([a, b])
      && w == name([Tombstone(b.id, whenB)]) && v == name([Tombstone(a.id, whenA)])
      && x != y && x != z && x != w && x != v && y != z && z != w && v != z && v != w && y != w && y != v
    }

    /** Put the first manifest, flush, and let the block store write its index. Put the second,
        flush, compact. Delete the second, flush, refresh, compact: this writes the first block
        again. Delete the first, flush, refresh, compact, refresh. */
    function Ops(): seq<Op> {
      [PutOp(a), FlushOp([a.id], true, Kept), SettleOp(Flushed),
       PutOp(b), FlushOp([b.id], true, Kept), CompactOp([a.id, b.id], true, Kept, [x, y]),
       DeleteOp(b.id, whenB), FlushOp([b.id], true, Kept), ReloadOp(Refresh([z, w])), CompactOp([a.id], true, Kept, [z, w]),
       DeleteOp(a.id, whenA), FlushOp([a.id], true, Kept), ReloadOp(Refresh([x, v])), CompactOp([], true, Kept, [x, v]),
       ReloadOp(Refresh([x]))]
    }

    function Refresh(order: seq<Bytes>): ReloadChoice {
      ReloadChoice(order, [], [], true, Kept, Kept)
    }

    function GoneA(): Entry {
      Tombstone(a.id, whenA)
    }

    function GoneB(): Entry {
      Tombstone(b.id, whenB)
    }

    /** The states that the run goes through. */
    function At(k: nat): State
      requires k <= 15
    {
      var first := map[x := [a]];
      var both := map[a.id := a, b.id := b];
      if k == 0 then EMPTY
      else if k == 1 then State(map[a.id := a], map[], {}, map[], {}, map[])
      else if k == 2 then State(map[], map[a.id := a], {x}, first, {x}, map[])
      else if k == 3 then State(map[], map[a.id := a], {x}, first, {}, first)
      else if k == 4 then State(map[b.id := b], map[a.id := a], {x}, first, {}, first)
      else if k == 5 then State(map[], both, {x, y}, map[x := [a], y := [b]], {y}, first)
      else if k == 6 then State(map[], both, {z}, map[z := [a, b]], {z}, first)
      else if k == 7 then State(map[b.id := GoneB()], both, {z}, map[z := [a, b]], {z}, first)
      else if k == 8 then State(map[], map[a.id := a, b.id := GoneB()], {z, w}, map[z := [a, b], w := [GoneB()]], {z, w}, first)
      else if k == 9 then State(map[], map[a.id := a], {z, w}, map[z := [a, b], w := [GoneB()]], {z, w}, first)
      else if k == 10 then State(map[], map[a.id := a], {x}, first, {x}, first)
      else if k == 11 then State(map[a.id := GoneA()], map[a.id := a], {x}, first, {x}, first)
      else if k == 12 then State(map[], map[a.id := GoneA()], {x, v}, map[x := [a], v := [GoneA()]], {x, v}, first)
      else if k == 13 then State(map[], map[], {x, v}, map[x := [a], v := [GoneA()]], {x, v}, first)
      else if k == 14 then State(map[], map[], {}, first, {}, first)
      else State(map[], map[a.id := a], {x}, first, {}, first)
    }
  }

  /** Call number `k` leads from one state of the story to the next. */
  ghost predicate Leads(name: seq<Entry> -> Bytes, t: Story, k: nat)
    requires k < 15
  {
    |t.Ops()| == 15 && Ordered(name, t.At(k), t.Ops()[k]) && Step(name, t.At(k), t.Ops()[k]) == t.At(k + 1)
  }

  /** Flushing one pending entry into a new block. */
  lemma FlushOne(name: seq<Entry> -> Bytes, s: State, e: Entry)
    requires s.pending == map[e.id := e] && name([e]) !in s.blocks
    ensures OrderOf([e.id], s.pending)
    ensures Flush(name, s, [e.id], true, Kept)
         == State(map[], s.committed[e.id := e], s.blockIDs + {name([e])}, s.blocks[name([e]) := [e]],
                  s.inline + {name([e])}, s.indexed)
  {
    assert [e.id][0] == e.id && e.id in s.pending;
    assert Listed(s.pending, [e.id]) == [e];
    assert s.committed + s.pending == s.committed[e.id := e];
    assert Write(StoreOf(s), name([e]), [e], Kept) == Store(s.blocks[name([e]) := [e]], s.inline + {name([e])}, s.indexed);
  }

  /** A compaction of `committed` into a new block, up to the deletes. */
  lemma CompactNew(name: seq<Entry> -> Bytes, s: State, order: seq<Bytes>, list: seq<Entry>, olds: seq<Bytes>)
    requires s.pending == map[] && s.committed != map[] && |s.blockIDs| != 1 && OrderOf(order, s.committed)
    requires list == Listed(s.committed, order) && name(list) !in s.blocks && name(list) !in s.blockIDs
    requires Distinct(olds) && forall b :: b in olds <==> b in s.blockIDs
    ensures CompactOrder(name, s, order, olds)
    ensures Compact(name, s, order, true, Kept, olds)
         == DeleteBlocks(State(map[], s.committed, s.blockIDs + {name(list)}, s.blocks[name(list) := list],
                               s.inline + {name(list)}, s.indexed), olds)
  {
    hide Listed;
    hide DeleteBlocks;
    var all := s.pending + s.committed;
    assert all == s.committed && s.committed + all == all;
    assert Olds(name, s, order) == s.blockIDs;
    assert Write(StoreOf(s), name(list), list, Kept)
        == Store(s.blocks[name(list) := list], s.inline + {name(list)}, s.indexed);
  }

  lemma DeleteTwo(s: State, b: Bytes, c: Bytes)
    requires b in s.blocks && c in s.blocks && b != c
    ensures DeleteBlocks(s, [b, c]) == (Forget(Forget(s, b), c), true)
    ensures Distinct([b, c]) && forall o :: o in [b, c] <==> o in {b, c}
  {
    var t := Forget(s, b);
    assert [b, c][1..] == [c] && [c][1..] == [];
    assert DeleteBlocks(t, [c]) == DeleteBlocks(Forget(t, c), []);
    assert [b, c][0] == b && [b, c][1] == c;
  }

  /** Deleting two blocks that were not re-created. */
  lemma ForgetTwo(s: State, b: Bytes, c: Bytes)
    requires b in s.blocks && c in s.blocks && b != c && !Recreated(StoreOf(s), b) && !Recreated(StoreOf(s), c)
    ensures DeleteBlocks(s, [b, c])
         == (s.(blockIDs := s.blockIDs - {b, c}, blocks := s.blocks - {b, c}, inline := s.inline - {b, c}), true)
  {
    hide DeleteBlocks;
    DeleteTwo(s, b, c);
    var t := Forget(Forget(s, b), c);
    assert s.blockIDs - {b} - {c} == s.blockIDs - {b, c};
    assert s.blocks - {b} - {c} == s.blocks - {b, c};
    assert s.inline - {b} - {c} == s.inline - {b, c};
  }

  lemma TwoBlocks(b: Bytes, c: Bytes)
    requires b != c
    ensures |{b, c}| == 2
  {
    assert {b, c} - {b} == {c};
  }

  /** Loading fewer than 16 blocks. */
  lemma RefreshFew(name: seq<Entry> -> Bytes, s: State, ch: ReloadChoice, m: Entries)
    requires (forall b :: b in ch.order <==> b in s.blocks) && |s.blocks.Keys| < AUTO_COMPACTION_BLOCK_COUNT
    requires m == DropDeleted(MergedBlocks(s.blocks, ch.order))
    ensures ReloadOrder(name, s, ch) && Reload(name, s, ch) == s.(committed := m, blockIDs := s.blocks.Keys)
  {
    hide MergedBlocks;
    hide DropDeleted;
    hide CompactOrder;
    hide Compact;
  }

  lemma PutLeads(name: seq<Entry> -> Bytes, t: Story)
    requires t.Told(name)
    ensures Leads(name, t, 0) && Leads(name, t, 3)
  {
    assert EMPTY.pending[t.a.id := t.a] == map[t.a.id := t.a];
    assert t.At(3).pending[t.b.id := t.b] == map[t.b.id := t.b];
  }

  lemma DeleteLeads(name: seq<Entry> -> Bytes, t: Story)
    requires t.Told(name)
    ensures Leads(name, t, 6) && Leads(name, t, 10)
  {
    assert t.At(6).pending[t.b.id := t.GoneB()] == map[t.b.id := t.GoneB()];
    assert t.At(10).pending[t.a.id := t.GoneA()] == map[t.a.id := t.GoneA()];
  }

  lemma FlushLeads1(name: seq<Entry> -> Bytes, t: Story)
    requires t.Told(name)
    ensures Leads(name, t, 1) && Leads(name, t, 2)
  {
    hide Flush;
    FlushOne(name, t.At(1), t.a);
    assert {} + {t.x} == {t.x};
  }

  lemma FlushLeads2(name: seq<Entry> -> Bytes, t: Story)
    requires t.Told(name)
    ensures Leads(name, t, 4)
  {
    hide Flush;
    FlushOne(name, t.At(4), t.b);
    assert {t.x} + {t.y} == {t.x, t.y} && {} + {t.y} == {t.y};
  }

  lemma FlushLeads3(name: seq<Entry> -> Bytes, t: Story)
    requires t.Told(name)
    ensures Leads(name, t, 7)
  {
    hide Flush;
    FlushOne(name, t.At(7), t.GoneB());
    assert {t.z} + {t.w} == {t.z, t.w};
    assert t.At(7).committed[t.b.id := t.GoneB()] == map[t.a.id := t.a, t.b.id := t.GoneB()];
  }

  lemma FlushLeads4(name: seq<Entry> -> Bytes, t: Story)
    requires t.Told(name)
    ensures Leads(name, t, 11)
  {
    hide Flush;
    FlushOne(name, t.At(11), t.GoneA());
    assert {t.x} + {t.v} == {t.x, t.v};
    assert t.At(11).committed[t.a.id := t.GoneA()] == map[t.a.id := t.GoneA()];
  }

  /** Compacting two blocks that were not re-created into a new one. */
  lemma CompactTwo(name: seq<Entry> -> Bytes, s: State, order: seq<Bytes>, list: seq<Entry>, b: Bytes, c: Bytes)
    requires s.pending == map[] && s.committed != map[] && OrderOf(order, s.committed) && list == Listed(s.committed, order)
    requires s.blockIDs == {b, c} && b != c && b in s.blocks && c in s.blocks
    requires name(list) !in s.blocks && !Recreated(StoreOf(s), b) && !Recreated(StoreOf(s), c)
    ensures CompactOrder(name, s, order, [b, c])
    ensures Compact(name, s, order, true, Kept, [b, c])
         == (State(map[], s.committed, {name(list)}, (s.blocks - {b, c})[name(list) := list],
                   (s.inline - {b, c}) + {name(list)}, s.indexed), true)
  {
    hide Compact;
    hide DeleteBlocks;
    hide CompactOrder;
    hide Listed;
    hide OrderOf;
    var n := name(list);
    TwoBlocks(b, c);
    DeleteTwo(s, b, c);
    CompactNew(name, s, order, list, [b, c]);
    var u := State(map[], s.committed, s.blockIDs + {n}, s.blocks[n := list], s.inline + {n}, s.indexed);
    ForgetTwo(u, b, c);
    assert {b, c} + {n} - {b, c} == {n};
    assert s.blocks[n := list] - {b, c} == (s.blocks - {b, c})[n := list];
    assert s.inline + {n} - {b, c} == (s.inline - {b, c}) + {n};
  }

  lemma CompactLeads1(name: seq<Entry> -> Bytes, t: Story)
    requires t.Told(name)
    ensures Leads(name, t, 5)
  {
    hide Compact;
    hide CompactOrder;
    var s, order := t.At(5), [t.a.id, t.b.id];
    ListTwo(s.committed, t.a, t.b);
    CompactTwo(name, s, order, [t.a, t.b], t.x, t.y);
    assert s.blocks - {t.x, t.y} == map[];
    assert {t.y} - {t.x, t.y} + {t.z} == {t.z};
  }

  lemma ListTwo(m: Entries, a: Entry, b: Entry)
    requires m == map[a.id := a, b.id := b] && a.id != b.id
    ensures m != map[] && OrderOf([a.id, b.id], m) && Listed(m, [a.id, b.id]) == [a, b]
  {
    var order := [a.id, b.id];
    assert order[0] == a.id && order[1] == b.id && a.id in m;
  }

  lemma ListOne(m: Entries, a: Entry)
    requires m == map[a.id := a]
    ensures m != map[] && OrderOf([a.id], m) && Listed(m, [a.id]) == [a]
  {
    assert [a.id][0] == a.id && a.id in m;
  }

  lemma CompactLeads2(name: seq<Entry> -> Bytes, t: Story)
    requires t.Told(name)
    ensures Leads(name, t, 9)
  {
    hide Compact;
    hide CompactOrder;
    var s, order := t.At(9), [t.a.id];
    ListOne(s.committed, t.a);
    CompactTwo(name, s, order, [t.a], t.z, t.w);
    assert s.blocks - {t.z, t.w} == map[];
    assert {t.z, t.w} - {t.z, t.w} + {t.x} == {t.x};
  }

  /** The last compaction has nothing to write, and its delete of the re-created block uncovers it. */
  lemma CompactLeads3(name: seq<Entry> -> Bytes, t: Story)
    requires t.Told(name)
    ensures Leads(name, t, 13)
  {
    hide DeleteBlocks;
    var s := t.At(13);
    assert s.pending + s.committed == map[];
    TwoBlocks(t.x, t.v);
    DeleteTwo(s, t.x, t.v);
    var u := Forget(s, t.x);
    assert u.blocks == s.blocks && u.inline == {t.v} && u.blockIDs == {t.v};
    assert s.blocks - {t.v} == map[t.x := [t.a]];
    assert Forget(u, t.v) == t.At(14);
  }

  lemma RefreshTwo(name: seq<Entry> -> Bytes, s: State, ch: ReloadChoice, b: Bytes, c: Bytes, m: Entries)
    requires ch.order == [b, c] && b != c && s.blocks.Keys == {b, c} && m == DropDeleted(MergedBlocks(s.blocks, [b, c]))
    ensures ReloadOrder(name, s, ch) && Reload(name, s, ch) == s.(committed := m, blockIDs := {b, c})
  {
    hide Reload;
    hide ReloadOrder;
    hide MergedBlocks;
    hide DropDeleted;
    TwoBlocks(b, c);
    DeleteTwo(s, b, c);
    RefreshFew(name, s, ch, m);
  }

  lemma RefreshLeads1(name: seq<Entry> -> Bytes, t: Story)
    requires t.Told(name)
    ensures Leads(name, t, 8)
  {
    hide Reload;
    hide ReloadOrder;
    hide MergedBlocks;
    hide DropDeleted;
    var s := t.At(8);
    Merged1(s.blocks, t.z, t.w, t.a, t.b, t.GoneB());
    assert s.blocks.Keys == {t.z, t.w};
    RefreshTwo(name, s, t.Refresh([t.z, t.w]), t.z, t.w, map[t.a.id := t.a]);
  }

  lemma LoadTwo(blocks: map<Bytes, seq<Entry>>, b: Bytes, c: Bytes)
    requires b in blocks && c in blocks
    ensures Loaded(blocks, [b]) == blocks[b] && Loaded(blocks, [b, c]) == blocks[b] + blocks[c]
  {
    assert [b, c][..1] == [b] && [b][..0] == [];
    assert Loaded(blocks, [b][..0]) == [];
  }

  lemma MergeMore(es: seq<Entry>, e: Entry)
    ensures MergeAll([]) == map[] && MergeAll(es + [e]) == MergeEntry(MergeAll(es), e)
  {
    assert (es + [e])[..|es|] == es;
  }

  lemma Merged1(blocks: map<Bytes, seq<Entry>>, z: Bytes, w: Bytes, a: Entry, b: Entry, gone: Entry)
    requires z in blocks && w in blocks && blocks[z] == [a, b] && blocks[w] == [gone]
    requires a.id != b.id && gone.id == b.id && b.modTime < gone.modTime && gone.deleted && !a.deleted
    ensures DropDeleted(MergedBlocks(blocks, [z, w])) == map[a.id := a]
  {
    hide Loaded;
    hide MergeAll;
    LoadTwo(blocks, z, w);
    MergeMore([], a);
    MergeMore([a], b);
    MergeMore([a, b], gone);
    assert [] + [a] == [a] && [a] + [b] == [a, b];
    assert MergeAll([a, b] + [gone]) == map[a.id := a, b.id := gone];
  }

  lemma RefreshLeads2(name: seq<Entry> -> Bytes, t: Story)
    requires t.Told(name)
    ensures Leads(name, t, 12)
  {
    hide Reload;
    hide ReloadOrder;
    hide MergedBlocks;
    hide DropDeleted;
    var s := t.At(12);
    Merged2(s.blocks, t.x, t.v, t.a, t.GoneA());
    assert s.blocks.Keys == {t.x, t.v};
    RefreshTwo(name, s, t.Refresh([t.x, t.v]), t.x, t.v, map[]);
  }

  lemma Merged2(blocks: map<Bytes, seq<Entry>>, x: Bytes, v: Bytes, a: Entry, gone: Entry)
    requires x in blocks && v in blocks && blocks[x] == [a] && blocks[v] == [gone]
    requires gone.id == a.id && a.modTime < gone.modTime && gone.deleted && !a.deleted
    ensures DropDeleted(MergedBlocks(blocks, [x, v])) == map[]
  {
    hide Loaded;
    hide MergeAll;
    LoadTwo(blocks, x, v);
    MergeMore([], a);
    MergeMore([a], gone);
    assert [] + [a] == [a];
    assert MergeAll([a] + [gone]) == map[a.id := gone];
  }

  lemma RefreshLeads3(name: seq<Entry> -> Bytes, t: Story)
    requires t.Told(name)
    ensures Leads(name, t, 14)
  {
    hide Reload;
    hide ReloadOrder;
    hide MergedBlocks;
    hide DropDeleted;
    var s := t.At(14);
    Merged3(s.blocks, t.x, t.a);
    assert s.blocks.Keys == {t.x};
    assert [t.x][0] == t.x;
    RefreshFew(name, s, t.Refresh([t.x]), map[t.a.id := t.a]);
  }

  lemma Merged3(blocks: map<Bytes, seq<Entry>>, x: Bytes, a: Entry)
    requires x in blocks && blocks[x] == [a] && !a.deleted
    ensures DropDeleted(MergedBlocks(blocks, [x])) == map[a.id := a]
  {
    hide Loaded;
    hide MergeAll;
    LoadTwo(blocks, x, x);
    MergeMore([], a);
    assert [] + [a] == [a];
  }

  lemma {:induction false} Reaches(name: seq<Entry> -> Bytes, t: Story, k: nat)
    requires k <= 15 && forall j :: 0 <= j < 15 ==> Leads(name, t, j)
    ensures |t.Ops()| == 15 && AnyRun(name, EMPTY, t.Ops()[..k]) == Some(t.At(k))
  {
    hide Step;
    hide Ordered;
    if k > 0 {
      Reaches(name, t, k - 1);
      assert Leads(name, t, k - 1);
      Continue(name, t.Ops(), k - 1, t.At(k - 1), t.At(k));
    }
  }

  lemma AllLead(name: seq<Entry> -> Bytes, t: Story)
    requires t.Told(name)
    ensures forall j :: 0 <= j < 15 ==> Leads(name, t, j)
  {
    hide *;
    PutLeads(name, t);
    DeleteLeads(name, t);
    FlushLeads1(name, t);
    FlushLeads2(name, t);
    FlushLeads3(name, t);
    FlushLeads4(name, t);
    CompactLeads1(name, t);
    CompactLeads2(name, t);
    CompactLeads3(name, t);
    RefreshLeads1(name, t);
    RefreshLeads2(name, t);
    RefreshLeads3(name, t);
  }

  /** A manifest that was deleted and flushed is back after this run. The plain map does not have
      it: the second compaction, which writes the block of the first manifest again while its
      tombstone hides the indexed one, is not legal. */
  lemma DeletedManifestComesBack(name: seq<Entry> -> Bytes, t: Story)
    requires t.Told(name)
    ensures AnyRun(name, EMPTY, t.Ops()) == Some(t.At(15)) && Get(t.At(15), t.a.id) == Some(t.a)
    ensures t.a.id !in MapRun(t.Ops())
    ensures OrderOf([t.a.id], t.At(9).pending + t.At(9).committed) && CompactRecreates(name, t.At(9), [t.a.id], Kept)
  {
    hide AnyRun;
    AllLead(name, t);
    Reaches(name, t, 15);
    assert t.Ops()[..15] == t.Ops();
    NotInMap(t);
    SecondRecreates(name, t);
  }

  lemma SecondRecreates(name: seq<Entry> -> Bytes, t: Story)
    requires t.Told(name)
    ensures OrderOf([t.a.id], t.At(9).pending + t.At(9).committed) && CompactRecreates(name, t.At(9), [t.a.id], Kept)
  {
    var s, order := t.At(9), [t.a.id];
    var all := s.pending + s.committed;
    assert order[0] == t.a.id && all == s.committed && t.a.id in all;
    assert Listed(all, order) == [t.a];
  }

  lemma {:induction false} NotBack(t: Story, k: nat)
    requires 11 <= k <= 15 && |t.Ops()| == 15
    ensures t.a.id !in MapRun(t.Ops()[..k])
  {
    var ops := t.Ops();
    assert ops[..k][..k - 1] == ops[..k - 1];
    if k > 11 {
      NotBack(t, k - 1);
    }
  }

  lemma NotInMap(t: Story)
    ensures t.a.id !in MapRun(t.Ops())
  {
    NotBack(t, 15);
    assert t.Ops()[..15] == t.Ops();
  }
}
