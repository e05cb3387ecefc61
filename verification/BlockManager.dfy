/** The block manager object (block_manager.go). Each method is proved to make exactly the
    step of `BlockState` or `BlockLookup` that it stands for. */
module BlockManager {
  import opened ByteStrings
  import opened ContentId
  import opened BlockInfo
  import opened Crypto
  import opened IndexFormat
  import opened IndexBuilder
  import opened PackFile
  import IndexReader
  import MergedIndex
  import S = BlockState
  import Committed = CommittedIndex
  import Lookup = BlockLookup
  import Listing = BlockListing
  import Unreferenced = UnreferencedPacks

  class Manager {
    const cfg: S.Config
    var current: Index
    var currentLength: nat
    var builder: Index
    var files: seq<Bytes>
    var committed: seq<Index>
    var packs: map<Bytes, Bytes>
    var indexes: set<Index>
    var disabled: int
    var flushAfter: int

    /** `files` are the index files in use, and `committed` the builders they were written from. */
    ghost predicate Valid()
      reads this
    {
      && Keyed(current) && Keyed(builder) && |files| == |committed| && Committed.AllKeyed(committed)
      && (forall k :: 0 <= k < |committed| ==> EncodeIndex(committed[k]) == Ok(files[k]))
    }

    /** The index files in use hold what they were written from. */
    ghost predicate Readable()
      requires Valid()
      reads this
    {
      forall k :: 0 <= k < |committed| ==> Encodable(Sorted(committed[k]))
    }

    ghost function Abs(): S.State
      reads this
    {
      S.State(current, currentLength, builder, committed, packs, indexes, disabled, flushAfter)
    }

    constructor (cfg: S.Config, now: int)
      ensures Valid() && this.cfg == cfg && Abs() == S.Fresh(now + S.FLUSH_TIMEOUT)
    {
      this.cfg := cfg;
      current, currentLength, builder, files, committed := map[], 0, map[], [], [];
      packs, indexes, disabled, flushAfter := map[], {}, 0, now + S.FLUSH_TIMEOUT;
    }

    /* ----- reading ----- */

    method GetBlockInfo(id: Bytes) returns (r: Result<Info>)
      requires Valid()
      ensures Readable() ==> r == Lookup.LookUp(Abs(), id)
    {
      hide Committed.CommittedLookup;
      if id in current {
        return Ok(current[id]);
      }
      if id in builder {
        return Ok(builder[id]);
      }
      var found := CommittedInfo(id);
      match found {
        case Err(e) => return Err(e);
        case Ok(None) => return Err(NotFound);
        case Ok(Some(e)) => return Ok(e);
      }
    }

    /** `committedBlockIndex.getBlock`: every file in use is searched. */
    method CommittedInfo(id: Bytes) returns (r: Result<Option<Info>>)
      requires Valid()
      ensures Readable() ==> r == Committed.CommittedLookup(committed, id)
    {
      hide *;
      var answers := SearchFiles(id);
      r := MergedIndex.GetInfo(answers);
      assert Committed.AllKeyed(committed) by { FilesKeyed(); }
      if Readable() {
        AnswersAre(committed, id, answers);
        AnswersMerged(committed, id, r);
      }
    }

    lemma FilesKeyed()
      requires Valid()
      ensures |files| == |committed| && Committed.AllKeyed(committed)
    {
      hide Keyed;
      hide EncodeIndex;
    }

    /** The answer of each file in use. */
    method SearchFiles(id: Bytes) returns (answers: seq<Result<Option<Info>>>)
      requires Valid()
      ensures |answers| == |committed| && Committed.AllKeyed(committed)
      ensures Readable() ==>
        forall j :: 0 <= j < |committed| ==> answers[j] == IndexReader.FileLookup(Sorted(committed[j]), id)
    {
      hide IndexReader.FileLookup;
      hide EncodeIndex;
      hide Encodable;
      hide Sorted;
      hide Keyed;
      answers := [];
      for k := 0 to |files|
        invariant |answers| == k
        invariant Readable() ==> forall j :: 0 <= j < k ==> answers[j] == IndexReader.FileLookup(Sorted(committed[j]), id)
      {
        var a := SearchFile(files[k], id, committed[k]);
        answers := answers + [a];
      }
    }

    /** Opening an index file and searching it. */
    method SearchFile(data: Bytes, id: Bytes, ghost b: Index) returns (r: Result<Option<Info>>)
      requires Keyed(b) && EncodeIndex(b) == Ok(data)
      ensures Encodable(Sorted(b)) ==> r == IndexReader.FileLookup(Sorted(b), id)
    {
      hide Encode;
      hide Encodable;
      hide Open;
      hide IndexReader.FileLookup;
      hide File.Lists;
      hide Ascending;
      if Encodable(Sorted(b)) {
        var f := IndexReader.BuildThenOpen(b, Sorted(b));
      }
      var f := Open(data);
      if f.Err? {
        return Err(f.error);
      }
      r := IndexReader.GetInfo(f.value, id, Sorted(b));
    }

    method GetBlock(id: Bytes) returns (r: Result<Bytes>)
      requires Valid()
      ensures Readable() ==> r == Lookup.ReadBlock(cfg.suite, Abs(), id)
    {
      hide Lookup.LookUp;
      hide Readable;
      var bi := GetBlockInfo(id);
      match bi {
        case Err(e) => r := Err(e);
        case Ok(e) =>
          if e.deleted {
            r := Err(NotFound);
          } else {
            r := S.Contents(cfg.suite, packs, e);
          }
      }
    }

    /* ----- changing ----- */

    method SetPendingBlock(i: Info)
      requires Valid()
      modifies this`builder, this`current
      ensures Valid() && Abs() == S.SetPending(old(Abs()), i)
    {
      if i.blockID !in builder || i.timestamp >= builder[i.blockID].timestamp {
        builder := builder[i.blockID := i];
      }
      current := current[i.blockID := i];
    }

    method DeleteBlock(id: Bytes, now: int64) returns (r: Result<()>)
      requires Valid()
      modifies this
      ensures Valid() && (old(Readable()) ==> (Abs(), r) == Lookup.RemoveBlock(old(Abs()), id, now))
    {
      hide Committed.CommittedLookup;
      if id in builder {
        var bi := builder[id];
        if !bi.deleted {
          if bi.packFile == [] {
            builder := builder - {id};
            current := current - {id};
            return Ok(());
          }
          SetPendingBlock(bi.(deleted := true, timestamp := now));
        }
        return Ok(());
      }
      var bi := CommittedInfo(id);
      match bi {
        case Err(x) => return Err(x);
        case Ok(None) => return Err(NotFound);
        case Ok(Some(e)) =>
          if !e.deleted {
            SetPendingBlock(e.(deleted := true, timestamp := now));
          }
          return Ok(());
      }
    }

    /** Adds every entry of a finished pack to the builder. */
    method AddPackIndex(idx: Index)
      requires Valid() && Keyed(idx)
      modifies this`builder
      ensures Valid() && builder == AddAll(old(builder), idx)
    {
      var todo := idx.Keys;
      ghost var seen: Index := map[];
      while todo != {}
        invariant todo <= idx.Keys
        invariant seen == map id | id in idx && id !in todo :: idx[id]
        invariant Valid() && builder == AddAll(old(builder), seen)
        decreases todo
      {
        var id :| id in todo;
        AddAllOne(old(builder), seen, idx[id]);
        builder := AddTo(builder, idx[id]);
        todo := todo - {id};
        seen := seen[id := idx[id]];
      }
      assert seen == idx;
    }

    method FinishPack(ch: S.PackChoice) returns (ok: bool)
      requires Valid() && S.OrderOf(ch.order, current)
      modifies this
      ensures Valid() && (Abs(), ok) == S.FinishPack(cfg, old(Abs()), ch)
    {
      hide PackFileOf;
      hide AddAll;
      if current == map[] {
        return true;
      }
      var items := S.ItemsOf(current, ch.order);
      var pack := PreparePackDataBlock(cfg.suite, cfg.formatBytes + ch.preamble, ch.name, items, cfg.unit, ch.random);
      match pack {
        case Err(_) => return false;
        case Ok(None) =>
        case Ok(Some(p)) =>
          if !ch.putOk {
            return false;
          }
          PackIndexKeyed(cfg, ch, items, p);
          packs := packs[ch.name := p.data];
          AddPackIndex(p.index);
      }
      current := map[];
      currentLength := 0;
      return true;
    }

    /** Writes the index of what was packed since the last one and takes it into use; `addOk` says
        whether the latter succeeds. */
    method FlushPackIndexes(now: int, putOk: bool, addOk: bool) returns (ok: bool)
      requires Valid()
      modifies this
      ensures Valid()
      ensures var t := S.FlushIndexes(old(Abs()), now, putOk);
        (Abs(), ok) == if !addOk && t.1 && old(disabled) <= 0 && old(builder) != map[] then (S.StoredOnly(old(Abs())), false) else t
    {
      hide Encode;
      if disabled > 0 {
        return true;
      }
      if builder != map[] {
        var b := new PackIndexBuilder();
        b.entries := builder;
        var data := b.Build();
        if data.Err? || !putOk {
          return false;
        }
        indexes := indexes + {builder};
        if !addOk {
          return false;
        }
        if builder !in committed {
          files, committed := files + [data.value], committed + [builder];
        }
        builder := map[];
      }
      flushAfter := now + S.FLUSH_TIMEOUT;
      return true;
    }

    method AddToPack(id: Bytes, data: Bytes, now: int64, ch: S.PackChoice, later: int, indexOk: bool) returns (ok: bool)
      requires Valid()
      requires S.Added(Abs(), id, data, now).currentLength >= cfg.maxPackSize ==>
        S.OrderOf(ch.order, S.Added(Abs(), id, data, now).current)
      modifies this
      ensures Valid() && (Abs(), ok) == S.AddToPack(cfg, old(Abs()), id, data, now, ch, later, indexOk)
    {
      hide S.FinishPack;
      hide S.FlushIndexes;
      currentLength := currentLength + |data|;
      SetPendingBlock(S.NewInfo(id, data, now));
      if currentLength >= cfg.maxPackSize {
        ok := FinishPack(ch);
        if !ok {
          return false;
        }
        if later > flushAfter {
          ok := FlushPackIndexes(later, indexOk, true);
        }
        return ok;
      }
      return true;
    }

    /** Stores a block under the ID its contents determine, unless it is already there. */
    method WriteBlock(data: Bytes, prefix: Bytes, now: int64, ch: S.PackChoice, later: int, indexOk: bool)
      returns (r: Result<Bytes>)
      requires Valid() && Lookup.FullOrder(cfg, Abs(), data, prefix, now, ch)
      modifies this
      ensures Valid()
      ensures old(Readable()) ==> (Abs(), r) == Lookup.PutBlock(cfg, old(Abs()), data, prefix, now, ch, later, indexOk)
      ensures r == Err(InvalidPrefix) <==> !ValidPrefix(prefix)
      ensures r.Ok? ==> r.value == prefix + HexEncode(cfg.suite.hash(data))
    {
      hide S.AddToPack;
      hide Lookup.LookUp;
      hide Readable;
      if !ValidPrefix(prefix) {
        return Err(InvalidPrefix);
      }
      var id := cfg.suite.BlockId(prefix, data);
      var bi := GetBlockInfo(id);
      if bi.Ok? && !bi.value.deleted {
        return Ok(id);
      }
      var ok := AddToPack(id, data, now, ch, later, indexOk);
      return if ok then Ok(id) else Err(StorageFailure);
    }

    method Flush(ch: S.PackChoice, now: int, indexOk: bool) returns (ok: bool)
      requires Valid() && S.OrderOf(ch.order, current)
      modifies this
      ensures Valid() && (Abs(), ok) == S.Flush(cfg, old(Abs()), ch, now, indexOk)
    {
      hide S.FinishPack;
      hide S.FlushIndexes;
      ok := FinishPack(ch);
      if ok {
        ok := FlushPackIndexes(now, indexOk, true);
      }
    }

    method DisableIndexFlush()
      requires Valid()
      modifies this`disabled
      ensures Valid() && Abs() == old(Abs()).(disabled := old(disabled) + 1)
    {
      disabled := disabled + 1;
    }

    method EnableIndexFlush()
      requires Valid()
      modifies this`disabled
      ensures Valid() && Abs() == old(Abs()).(disabled := old(disabled) - 1)
    {
      disabled := disabled - 1;
    }

    /* ----- listing ----- */

    /** `committedBlockIndex.listBlocks`: the merged iteration under a prefix. */
    method ListCommitted(prefix: Bytes) returns (out: seq<Info>)
      requires Valid() && Readable()
      ensures Listing.CommittedListing(Abs(), prefix, out)
    {
      hide Enumerates;
      hide MergedIndex.Merged;
      hide Ascending;
      hide EncodeIndex;
      hide Encodable;
      hide Sorted;
      var sources: seq<seq<Info>> := [];
      for k := 0 to |files|
        invariant |sources| == k
        invariant forall j :: 0 <= j < k ==> Ascending(sources[j])
        invariant forall j :: 0 <= j < k ==> Enumerates(sources[j], Listing.PrefixOnly(committed[j], prefix))
      {
        var s := IterateFile(files[k], prefix, committed[k]);
        sources := sources + [s];
      }
      out := MergedIndex.Iterate(sources);
    }

    /** Opening an index file and iterating over it. */
    method IterateFile(data: Bytes, prefix: Bytes, ghost b: Index) returns (r: seq<Info>)
      requires Keyed(b) && EncodeIndex(b) == Ok(data) && Encodable(Sorted(b))
      ensures Enumerates(r, Listing.PrefixOnly(b, prefix))
      ensures Ascending(r)
    {
      hide Encode;
      hide Encodable;
      hide Open;
      hide File.Lists;
      hide Enumerates;
      ghost var stored := IndexReader.BuildThenOpen(b, Sorted(b));
      Listing.PrefixEnumerates(Sorted(b), b, prefix);
      EnumeratesAscends(WithPrefix(Sorted(b), prefix), Listing.PrefixOnly(b, prefix));
      var f := Open(data);
      var entries := IndexReader.Iterate(f.value, prefix, Sorted(b));
      r := entries.value;
    }

    /** The IDs under a prefix: in a valid state exactly those that can be read. */
    method ListBlocks(prefix: Bytes) returns (r: seq<Bytes>)
      requires Valid() && Readable()
      ensures S.Inv(cfg.suite, Abs()) ==> forall id :: id in r <==> prefix <= id && S.Tracked(Abs(), id)
    {
      hide Listing.CommittedListing;
      hide Readable;
      hide S.Inv;
      hide S.Tracked;
      r := [];
      var todo := builder.Keys;
      while todo != {}
        invariant todo <= builder.Keys
        invariant forall id :: id in r <==> id in builder && id !in todo && prefix <= id && !builder[id].deleted
        decreases todo
      {
        var id :| id in todo;
        if !builder[id].deleted && prefix <= id {
          r := r + [id];
        }
        todo := todo - {id};
      }
      ghost var fromBuilder := r;
      var out := ListCommitted(prefix);
      for i := 0 to |out|
        invariant forall id :: id in r <==>
          (id in fromBuilder || ListedUpTo(Abs(), prefix, out[..i], id))
      {
        var it := out[i];
        assert out[..i + 1] == out[..i] + [it];
        if !it.deleted && prefix <= it.blockID && (it.blockID in builder ==> !builder[it.blockID].deleted) {
          r := r + [it.blockID];
        }
      }
      assert out[..|out|] == out;
      if S.Inv(cfg.suite, Abs()) {
        forall id ensures id in r <==> prefix <= id && S.Tracked(Abs(), id) {
          Listing.ListedIffTracked(cfg.suite, Abs(), prefix, out, id);
        }
      }
    }

    /** `findPackBlocksInUse` over the builder and the committed entries. */
    method PacksInUse() returns (used: set<Bytes>, ghost out: seq<Info>)
      requires Valid() && Readable()
      ensures Listing.CommittedListing(Abs(), [], out)
      ensures forall pack :: pack in used <==> Unreferenced.InUse(Abs(), out, pack)
    {
      hide Listing.CommittedListing;
      hide Readable;
      used := {};
      var todo := builder.Keys;
      while todo != {}
        invariant todo <= builder.Keys
        invariant forall pack :: pack in used <==>
          exists id :: id in builder && id !in todo && !builder[id].deleted && builder[id].packFile == pack
        decreases todo
      {
        var id :| id in todo;
        if !builder[id].deleted {
          used := used + {builder[id].packFile};
        }
        todo := todo - {id};
      }
      ghost var fromBuilder := used;
      var infos := ListCommitted([]);
      out := infos;
      for i := 0 to |infos|
        invariant forall pack :: pack in used <==>
          (pack in fromBuilder || UsedUpTo(Abs(), infos[..i], pack))
      {
        var it := infos[i];
        assert infos[..i + 1] == infos[..i] + [it];
        if it.blockID in builder ==> !builder[it.blockID].deleted {
          used := used + {it.packFile};
        }
      }
      assert infos[..|infos|] == infos;
    }

    /** The pack files that no block keeps. In a valid state none of them is read by any block that
        can be read. */
    method FindUnreferencedStorageFiles() returns (unused: set<Bytes>)
      requires Valid() && Readable()
      ensures exists out ::
        && Listing.CommittedListing(Abs(), [], out)
        && forall pack :: pack in unused <==> pack in packs && [PACK_PREFIX] <= pack && !Unreferenced.InUse(Abs(), out, pack)
      ensures S.Inv(cfg.suite, Abs()) ==>
        && (forall pack :: pack in unused <==> pack in packs && [PACK_PREFIX] <= pack && !Unreferenced.Referenced(Abs(), pack))
        && (forall id :: Unreferenced.ReadsFrom(Abs(), id).Some? ==> Unreferenced.ReadsFrom(Abs(), id).value !in unused)
    {
      hide Listing.CommittedListing;
      hide Readable;
      hide S.Inv;
      hide Unreferenced.InUse;
      hide Unreferenced.Referenced;
      hide Unreferenced.ReadsFrom;
      var used;
      ghost var out;
      used, out := PacksInUse();
      unused := set pack | pack in packs && [PACK_PREFIX] <= pack && pack !in used;
      if S.Inv(cfg.suite, Abs()) {
        forall pack ensures Unreferenced.InUse(Abs(), out, pack) <==> Unreferenced.Referenced(Abs(), pack) {
          Unreferenced.InUseIff(cfg.suite, Abs(), out, pack);
        }
        forall id | Unreferenced.ReadsFrom(Abs(), id).Some? ensures Unreferenced.ReadsFrom(Abs(), id).value !in unused {
          Unreferenced.ReadPacksAreInUse(cfg.suite, Abs(), out, id);
        }
      }
    }
  }

  const PACK_PREFIX: byte := 112

  lemma AnswersAre(ms: seq<Index>, id: Bytes, answers: seq<Result<Option<Info>>>)
    requires Committed.AllKeyed(ms) && |answers| == |ms|
    requires forall j :: 0 <= j < |ms| ==> answers[j] == IndexReader.FileLookup(Sorted(ms[j]), id)
    ensures answers == Committed.Answers(ms, id)
  {
    hide IndexReader.FileLookup;
    hide Sorted;
    hide Keyed;
  }

  /** The merge of the answers is the committed lookup: files refuse a text for one reason only. */
  lemma AnswersMerged(ms: seq<Index>, id: Bytes, r: Result<Option<Info>>)
    requires Committed.AllKeyed(ms)
    requires var answers := Committed.Answers(ms, id);
      && ((forall k :: 0 <= k < |answers| ==> answers[k].Ok?) ==>
            r == Ok(MergedIndex.PickAll(seq(|answers|, k requires 0 <= k < |answers| && answers[k].Ok? => answers[k].value))))
      && (forall k :: 0 <= k < |answers| && answers[k].Err? && (forall j :: 0 <= j < k ==> answers[j].Ok?) ==>
            r == Err(answers[k].error))
    ensures r == Committed.CommittedLookup(ms, id)
  {
    hide MergedIndex.PickAll;
    hide IndexReader.FileLookup;
    var answers := Committed.Answers(ms, id);
    if k :| 0 <= k < |answers| && answers[k].Err? {
      var i := FirstErr(answers, k);
      OnlyError(Sorted(ms[i]), id);
    }
  }

  lemma OnlyError(s: seq<Info>, id: Bytes)
    ensures IndexReader.FileLookup(s, id).Err? ==> IndexReader.FileLookup(s, id).error == InvalidBlockId
  {
  }

  lemma {:induction false} FirstErr(answers: seq<Result<Option<Info>>>, k: nat) returns (i: nat)
    requires k < |answers| && answers[k].Err?
    ensures i <= k && answers[i].Err? && forall j :: 0 <= j < i ==> answers[j].Ok?
  {
    i := 0;
    while i < k && answers[i].Ok?
      invariant i <= k && forall j :: 0 <= j < i ==> answers[j].Ok?
    {
      i := i + 1;
    }
  }

  ghost predicate ListedUpTo(s: S.State, prefix: Bytes, out: seq<Info>, id: Bytes) {
    exists o :: o in out && o.blockID == id && !o.deleted && prefix <= id && Listing.NotTombstoned(s, id)
  }

  ghost predicate UsedUpTo(s: S.State, out: seq<Info>, pack: Bytes) {
    exists o :: o in out && Listing.NotTombstoned(s, o.blockID) && o.packFile == pack
  }

  lemma AddAllOne(b: Index, seen: Index, e: Info)
    requires e.blockID !in seen
    ensures AddAll(b, seen[e.blockID := e]) == AddTo(AddAll(b, seen), e)
  {
  }

  lemma PackIndexKeyed(cfg: S.Config, ch: S.PackChoice, items: seq<Info>, p: Pack)
    requires PackFileOf(cfg.suite, cfg.formatBytes + ch.preamble, ch.name, items, cfg.unit, ch.random) == Ok(Some(p))
    ensures Keyed(p.index)
  {
    hide AddItems;
    hide EncodeIndex;
    hide AppendRecovery;
    AddItemsKeyed(cfg.suite, cfg.formatBytes + ch.preamble, ch.name, items);
  }

  lemma EnumeratesAscends(s: seq<Info>, b: Index)
    requires Enumerates(s, b)
    ensures Ascending(s)
  {
  }
}
