/** Looking up blocks in the index files as they are stored: what the manager answers for any
    text, and that for block IDs this is what the state machine says (block_manager.go,
    committed_block_index.go, index.go). */
module BlockLookup {
  import opened ByteStrings
  import opened ContentId
  import opened BlockInfo
  import opened Crypto
  import opened IndexFormat
  import opened IndexReader
  import opened MergedIndex
  import opened CommittedIndex
  import opened PackFile
  import opened BlockState
  import opened BlockRuns

  /* ----- exact lookups ----- */

  /** `getBlockInfo`. */
  ghost function LookUp(s: State, id: Bytes): (r: Result<Info>)
    requires AllKeyed(s.committed)
  {
    if id in s.current then Ok(s.current[id])
    else if id in s.builder then Ok(s.builder[id])
    else match CommittedLookup(s.committed, id)
      case Err(e) => Err(e)
      case Ok(None) => Err(NotFound)
      case Ok(Some(e)) => Ok(e)
  }

  /** `GetBlock`. */
  ghost function ReadBlock(c: Suite, s: State, id: Bytes): (r: Result<Bytes>)
    requires AllKeyed(s.committed)
  {
    match LookUp(s, id)
    case Err(e) => Err(e)
    case Ok(e) => if e.deleted then Err(NotFound) else Contents(c, s.packs, e)
  }

  /** `DeleteBlock`. */
  ghost function RemoveBlock(s: State, id: Bytes, now: int64): (r: (State, Result<()>))
    requires AllKeyed(s.committed)
  {
    if id in s.builder then DeleteBlock(s, id, now)
    else match CommittedLookup(s.committed, id)
      case Err(e) => (s, Err(e))
      case Ok(None) => (s, Err(NotFound))
      case Ok(Some(bi)) =>
        if bi.deleted then (s, Ok(())) else (SetPending(s, bi.(deleted := true, timestamp := now)), Ok(()))
  }

  /** `WriteBlock`; an error of the lookup counts as not found. */
  ghost function PutBlock(cfg: Config, s: State, data: Bytes, prefix: Bytes, now: int64,
                          ch: PackChoice, later: int, indexOk: bool): (r: (State, Result<Bytes>))
    requires AllKeyed(s.committed) && FullOrder(cfg, s, data, prefix, now, ch)
  {
    var id := cfg.suite.BlockId(prefix, data);
    if !ValidPrefix(prefix) then (s, Err(InvalidPrefix))
    else if Found(s, id) then (s, Ok(id))
    else
      var (t, ok) := AddToPack(cfg, s, id, data, now, ch, later, indexOk);
      (t, if ok then Ok(id) else Err(StorageFailure))
  }

  /** If the block is added and fills the pack, `ch` orders what is then pending. */
  ghost predicate FullOrder(cfg: Config, s: State, data: Bytes, prefix: Bytes, now: int64, ch: PackChoice) {
    var t := Added(s, cfg.suite.BlockId(prefix, data), data, now);
    t.currentLength >= cfg.maxPackSize ==> OrderOf(ch.order, t.current)
  }

  ghost predicate Found(s: State, id: Bytes)
    requires AllKeyed(s.committed)
  {
    LookUp(s, id).Ok? && !LookUp(s, id).value.deleted
  }

  /* ----- block IDs ----- */

  lemma InvKeyed(c: Suite, s: State)
    requires Inv(c, s)
    ensures AllKeyed(s.committed)
  {
    hide KeyOk;
    hide PackedOk;
    forall k | 0 <= k < |s.committed| ensures Keyed(s.committed[k]) {
      assert IndexOk(c, s.packs, s.committed[k]);
    }
  }

  lemma InvFiles(c: Suite, s: State)
    requires Inv(c, s)
    ensures BlockFiles(s.committed)
  {
    hide KeyOk;
    hide PackedOk;
    forall k | 0 <= k < |s.committed| ensures BlockFile(s.committed[k]) {
      assert IndexOk(c, s.packs, s.committed[k]);
    }
  }

  /** In a valid state looking a block ID up in the index files is looking it up in the maps. */
  lemma CommittedLookupIsFind(c: Suite, s: State, id: Bytes)
    requires Inv(c, s) && KeyOk(id)
    ensures AllKeyed(s.committed) && CommittedLookup(s.committed, id) == Ok(MergedFind(s.committed, id))
  {
    hide *;
    InvFiles(c, s);
    LookupIsMerged(s.committed, id);
  }

  /** Hence reading, deleting and writing through the index files are the steps of the state
      machine, for block IDs. */
  lemma LookupsAreSteps(c: Suite, s: State, id: Bytes, now: int64)
    requires Inv(c, s) && KeyOk(id)
    ensures AllKeyed(s.committed)
    ensures ReadBlock(c, s, id) == GetBlock(c, s, id)
    ensures RemoveBlock(s, id, now) == DeleteBlock(s, id, now)
    ensures Found(s, id) <==> Tracked(s, id)
  {
    hide Inv;
    hide KeyOk;
    hide MergedFind;
    hide CommittedLookup;
    hide Contents;
    CommittedLookupIsFind(c, s, id);
  }

  lemma WritesAreSteps(cfg: Config, s: State, data: Bytes, prefix: Bytes, now: int64, ch: PackChoice, later: int, indexOk: bool)
    requires cfg.suite.Lawful() && Inv(cfg.suite, s) && FullOrder(cfg, s, data, prefix, now, ch)
    ensures AllKeyed(s.committed) && PackOrder(cfg, s, data, prefix, now, ch)
    ensures PutBlock(cfg, s, data, prefix, now, ch, later, indexOk) == WriteBlock(cfg, s, data, prefix, now, ch, later, indexOk)
  {
    hide *;
    InvKeyed(cfg.suite, s);
    if ValidPrefix(prefix) {
      WrittenKeyOk(cfg.suite, prefix, data);
      LookupsAreSteps(cfg.suite, s, cfg.suite.BlockId(prefix, data), now);
    }
    PutIsWrite(cfg, s, data, prefix, now, ch, later, indexOk);
  }

  lemma PutIsWrite(cfg: Config, s: State, data: Bytes, prefix: Bytes, now: int64, ch: PackChoice, later: int, indexOk: bool)
    requires AllKeyed(s.committed) && FullOrder(cfg, s, data, prefix, now, ch)
    requires ValidPrefix(prefix) ==> (Found(s, cfg.suite.BlockId(prefix, data)) <==> Tracked(s, cfg.suite.BlockId(prefix, data)))
    ensures PackOrder(cfg, s, data, prefix, now, ch)
    ensures PutBlock(cfg, s, data, prefix, now, ch, later, indexOk) == WriteBlock(cfg, s, data, prefix, now, ch, later, indexOk)
  {
    hide Found;
    hide Tracked;
    hide AddToPack;
    hide Suite.BlockId;
  }

  /** In every state a manager reaches, reading a block ID through the index files is lookup in
      a plain map. */
  lemma ReadsAreAMap(cfg: Config, t: int, ops: seq<Op>, s: State, id: Bytes)
    requires cfg.suite.Lawful() && Run(cfg, Fresh(t), ops) == Some(s) && KeyOk(id)
    ensures AllKeyed(s.committed)
    ensures var m := MapRun(cfg.suite, map[], ops);
      ReadBlock(cfg.suite, s, id) == if id in m then Ok(m[id]) else Err(NotFound)
  {
    hide *;
    ManagerIsAMap(cfg, t, ops, s);
    GoodInv(cfg.suite, s);
    LookupsAreSteps(cfg.suite, s, id, 0);
    Agrees(cfg.suite, s, MapRun(cfg.suite, map[], ops), id);
  }

  lemma GoodInv(c: Suite, s: State)
    requires Good(c, s)
    ensures Inv(c, s)
  {
  }

  lemma Agrees(c: Suite, s: State, m: map<Bytes, Bytes>, id: Bytes)
    requires AgreesWith(c, s, m) && KeyOk(id)
    ensures GetBlock(c, s, id) == if id in m then Ok(m[id]) else Err(NotFound)
  {
    hide GetBlock;
    hide KeyOk;
  }

  /* ----- the stored bytes ----- */

  /** The file of this index stays within the 32-bit offsets of the format. */
  ghost predicate FitsFormat(b: Index)
    requires Keyed(b)
  {
    8 + RowOffset(|b|, IV_LENGTH + 1 + ENTRY_LENGTH) + |NamesOf(Sorted(b)).extra| < TWO32
  }

  /** Every index a manager opens, and so every one it wrote, can be held by the format if it
      is not too large. */
  lemma IndexEncodable(c: Suite, packs: map<Bytes, Bytes>, b: Index)
    requires IndexOk(c, packs, b) && FitsFormat(b)
    ensures Encodable(Sorted(b))
  {
    hide Canonical;
    hide ToKey;
    hide Representable;
    hide NamesOf;
    hide Contents;
    hide Ascending;
    hide RowOffset;
    var s := Sorted(b);
    EnumerationLength(s, b);
    forall i | 0 <= i < |s| ensures KeyOk(s[i].blockID) && PackedOk(c, packs, s[i]) {
      assert s[i].blockID in b;
    }
    var any :| any in b;
  }

  /** The builder that a manager is about to write is such an index. */
  lemma FlushedIndexOk(c: Suite, s: State)
    requires Inv(c, s) && s.current == map[] && s.builder != map[]
    ensures IndexOk(c, s.packs, s.builder)
  {
    hide KeyOk;
    hide PackedOk;
    hide CommittedOk;
    hide StorageOk;
  }

  /** Opening the stored bytes gives a file that lists exactly the index, so that a search in it
      answers as `FileLookup` says. */
  lemma StoredFileLists(c: Suite, packs: map<Bytes, Bytes>, b: Index) returns (f: File)
    requires IndexOk(c, packs, b) && FitsFormat(b)
    ensures EncodeIndex(b).Ok? && Open(EncodeIndex(b).value) == Ok(f) && f.Lists(Sorted(b)) && Sorted(b) != []
  {
    hide Encode;
    hide Encodable;
    hide PackedOk;
    hide KeyOk;
    hide FitsFormat;
    hide Ascending;
    hide File.RowHolds;
    IndexEncodable(c, packs, b);
    var any :| any in b;
    f := BuildThenOpen(b, Sorted(b));
  }

  /** So all index files of a valid state can be searched, if none is too large. */
  lemma FilesReadable(c: Suite, s: State)
    requires Inv(c, s)
    requires forall k :: 0 <= k < |s.committed| ==> Keyed(s.committed[k]) && FitsFormat(s.committed[k])
    ensures forall k :: 0 <= k < |s.committed| ==> s.committed[k] != map[] && Encodable(Sorted(s.committed[k]))
  {
    hide IndexOk;
    hide FitsFormat;
    hide Encodable;
    forall k | 0 <= k < |s.committed| ensures s.committed[k] != map[] && Encodable(Sorted(s.committed[k])) {
      assert IndexOk(c, s.packs, s.committed[k]);
      IndexEncodable(c, s.packs, s.committed[k]);
      NotEmpty(c, s.packs, s.committed[k]);
    }
  }

  lemma NotEmpty(c: Suite, packs: map<Bytes, Bytes>, b: Index)
    requires IndexOk(c, packs, b)
    ensures b != map[]
  {
    hide KeyOk;
    hide PackedOk;
  }
}
