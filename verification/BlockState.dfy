/** The block manager as a state machine (block_manager.go): blocks pending in the current
    pack, blocks packed but not yet in a written index, and blocks in committed index files,
    over a storage of pack and index files. */
module BlockState {
  import opened ByteStrings
  import opened BlockInfo
  import opened Crypto
  import opened IndexFormat
  import opened MergedIndex
  import opened PackFile

  const FLUSH_TIMEOUT := 600

  /** What a repository fixes: algorithms, pack size limit, format bytes every pack starts
      with, and the padding unit. */
  datatype Config = Config(suite: Suite, maxPackSize: int, formatBytes: Bytes, unit: nat)

  /** `current` and `builder` are `currentPackItems` and `packIndexBuilder`; `committed` are
      the opened index files in load order; `packs` and `indexes` are the storage. */
  datatype State = State(
    current: Index,
    currentLength: nat,
    builder: Index,
    committed: seq<Index>,
    packs: map<Bytes, Bytes>,
    indexes: set<Index>,
    disabled: int,
    flushAfter: int)

  /** What the outside decides when a pack is written: random name, preamble and padding, the
      iteration order of the pending map, and whether storage accepts the file. */
  datatype PackChoice = PackChoice(
    name: Bytes, preamble: Bytes, order: seq<Bytes>, random: nat -> Bytes, putOk: bool)

  /* ----- queries ----- */

  /** `getBlockInfo`. */
  function GetBlockInfo(s: State, id: Bytes): (r: Option<Info>) {
    if id in s.current then Some(s.current[id])
    else if id in s.builder then Some(s.builder[id])
    else MergedFind(s.committed, id)
  }

  /** `getBlockContentsUnlocked`. */
  function Contents(c: Suite, packs: map<Bytes, Bytes>, e: Info): (r: Result<Bytes>) {
    if e.payload.Some? then Ok(e.payload.value)
    else if e.packFile !in packs then Err(NotFound)
    else ReadEntry(c, packs[e.packFile], e)
  }

  /** `GetBlock`. */
  function GetBlock(c: Suite, s: State, id: Bytes): (r: Result<Bytes>) {
    match GetBlockInfo(s, id)
    case None => Err(NotFound)
    case Some(e) => if e.deleted then Err(NotFound) else Contents(c, s.packs, e)
  }

  /* ----- updates ----- */

  /** `setPendingBlock`. */
  function SetPending(s: State, i: Info): State {
    s.(builder := AddTo(s.builder, i), current := s.current[i.blockID := i])
  }

  function ItemsOf(current: Index, order: seq<Bytes>): (r: seq<Info>)
    requires forall id :: id in order ==> id in current
  {
    seq(|order|, i requires 0 <= i < |order| => current[order[i]])
  }

  /** The order lists every pending block once. */
  ghost predicate OrderOf(order: seq<Bytes>, current: Index) {
    && (forall id :: id in order <==> id in current)
    && (forall i, j :: 0 <= i < j < |order| ==> order[i] != order[j])
  }

  /** `finishPackLocked`: on failure nothing changes; on success the pending blocks move to
      their places in the new pack and the builder learns those places. */
  ghost function FinishPack(cfg: Config, s: State, ch: PackChoice): (r: (State, bool))
    requires OrderOf(ch.order, s.current)
  {
    if s.current == map[] then (s, true)
    else match PackFileOf(cfg.suite, cfg.formatBytes + ch.preamble, ch.name, ItemsOf(s.current, ch.order), cfg.unit, ch.random)
      case Err(_) => (s, false)
      case Ok(None) => (s.(current := map[], currentLength := 0), true)
      case Ok(Some(p)) =>
        if !ch.putOk then (s, false)
        else (s.(packs := s.packs[ch.name := p.data], builder := AddAll(s.builder, p.index),
                 current := map[], currentLength := 0), true)
  }

  /** `flushPackIndexesLocked`. */
  ghost function FlushIndexes(s: State, now: int, putOk: bool): (r: (State, bool)) {
    if s.disabled > 0 then (s, true)
    else if s.builder == map[] then (s.(flushAfter := now + FLUSH_TIMEOUT), true)
    else if EncodeIndex(s.builder).Err? || !putOk then (s, false)
    else (s.(indexes := s.indexes + {s.builder},
             committed := if s.builder in s.committed then s.committed else s.committed + [s.builder],
             builder := map[], flushAfter := now + FLUSH_TIMEOUT), true)
  }

  /** `flushPackIndexesLocked` when the index file was stored but cannot be added to those in use:
      an error is returned and the builder stays. */
  ghost function StoredOnly(s: State): (r: State) {
    s.(indexes := s.indexes + {s.builder})
  }

  function NewInfo(id: Bytes, data: Bytes, now: int64): Info {
    Info(id, |data| % TWO32, now, [], 0, false, Some(data), 0)
  }

  function Added(s: State, id: Bytes, data: Bytes, now: int64): State {
    SetPending(s.(currentLength := s.currentLength + |data|), NewInfo(id, data, now))
  }

  /** `addToPackLocked` for a new live block. */
  ghost function AddToPack(cfg: Config, s: State, id: Bytes, data: Bytes, now: int64,
                           ch: PackChoice, later: int, indexOk: bool): (r: (State, bool))
    requires Added(s, id, data, now).currentLength >= cfg.maxPackSize ==> OrderOf(ch.order, Added(s, id, data, now).current)
  {
    var s1 := Added(s, id, data, now);
    if s1.currentLength < cfg.maxPackSize then (s1, true)
    else
      var (s2, ok) := FinishPack(cfg, s1, ch);
      if !ok then (s2, false)
      else if later > s2.flushAfter then FlushIndexes(s2, later, indexOk)
      else (s2, true)
  }

  /** Whether `WriteBlock` finds the block already there. */
  predicate Tracked(s: State, id: Bytes) {
    GetBlockInfo(s, id).Some? && !GetBlockInfo(s, id).value.deleted
  }

  /** `DeleteBlock`. */
  function DeleteBlock(s: State, id: Bytes, now: int64): (r: (State, Result<()>)) {
    if id in s.builder then
      var bi := s.builder[id];
      if bi.deleted then (s, Ok(()))
      else if bi.packFile == [] then (s.(builder := s.builder - {id}, current := s.current - {id}), Ok(()))
      else (SetPending(s, bi.(deleted := true, timestamp := now)), Ok(()))
    else match MergedFind(s.committed, id)
      case None => (s, Err(NotFound))
      case Some(bi) =>
        if bi.deleted then (s, Ok(())) else (SetPending(s, bi.(deleted := true, timestamp := now)), Ok(()))
  }

  ghost predicate FillsPack(cfg: Config, s: State, data: Bytes, prefix: Bytes, now: int64) {
    && ValidPrefix(prefix) && !Tracked(s, cfg.suite.BlockId(prefix, data))
    && Added(s, cfg.suite.BlockId(prefix, data), data, now).currentLength >= cfg.maxPackSize
  }

  ghost predicate PackOrder(cfg: Config, s: State, data: Bytes, prefix: Bytes, now: int64, ch: PackChoice) {
    FillsPack(cfg, s, data, prefix, now) ==>
      OrderOf(ch.order, Added(s, cfg.suite.BlockId(prefix, data), data, now).current)
  }

  /** `WriteBlock`: the new state, and the block's ID or an error. */
  ghost function WriteBlock(cfg: Config, s: State, data: Bytes, prefix: Bytes, now: int64,
                            ch: PackChoice, later: int, indexOk: bool): (r: (State, Result<Bytes>))
    requires PackOrder(cfg, s, data, prefix, now, ch)
  {
    var id := cfg.suite.BlockId(prefix, data);
    if !ValidPrefix(prefix) then (s, Err(InvalidPrefix))
    else if Tracked(s, id) then (s, Ok(id))
    else
      var (t, ok) := AddToPack(cfg, s, id, data, now, ch, later, indexOk);
      (t, if ok then Ok(id) else Err(StorageFailure))
  }

  /** `Flush`: finish the pack, then write the index. */
  ghost function Flush(cfg: Config, s: State, ch: PackChoice, now: int, indexOk: bool): (r: (State, bool))
    requires OrderOf(ch.order, s.current)
  {
    var (t, ok) := FinishPack(cfg, s, ch);
    if !ok then (t, false) else FlushIndexes(t, now, indexOk)
  }

  /* ----- invariant ----- */

  /** `x` is strictly preferred to `y`. */
  predicate Newer(x: Info, y: Info) {
    !NotOlder(y, x)
  }

  /** A place in a pack that an index entry can hold. */
  predicate Placeable(e: Info) {
    1 <= |e.packFile| < 0x100 && e.packOffset < DELETED_BIT
  }

  /** A pending entry: a live block held inline under its own hash, or a tombstone for a block
      that is in some pack. */
  ghost predicate PendingOk(c: Suite, e: Info) {
    if e.deleted then e.payload == None && Placeable(e)
    else
      && e.payload.Some? && e.packFile == [] && Identifies(c, e.blockID, e.payload.value)
      && e.length == |e.payload.value| % TWO32
  }

  /** An entry that is no longer pending: it names a pack and holds no payload, the index format
      can hold it, and if it is live its contents can be read and have the length and version it
      says. */
  ghost predicate PackedOk(c: Suite, packs: map<Bytes, Bytes>, e: Info) {
    && e.payload == None && Placeable(e) && Representable(e)
    && (!e.deleted ==>
          Contents(c, packs, e).Ok? && e.length == |Contents(c, packs, e).value| && e.formatVersion == FORMAT_VERSION)
  }

  ghost predicate CurrentOk(c: Suite, s: State) {
    && Keyed(s.current)
    && (forall id :: id in s.current ==> id in s.builder && s.builder[id] == s.current[id] && PendingOk(c, s.current[id]))
  }

  ghost predicate BuilderOk(c: Suite, s: State) {
    && Keyed(s.builder)
    && (forall id :: id in s.builder ==> KeyOk(id))
    && (forall id :: id in s.builder && id !in s.current ==> PackedOk(c, s.packs, s.builder[id]))
  }

  ghost predicate IndexOk(c: Suite, packs: map<Bytes, Bytes>, idx: Index) {
    Keyed(idx) && idx != map[] && forall id :: id in idx ==> KeyOk(id) && PackedOk(c, packs, idx[id])
  }

  ghost predicate CommittedOk(c: Suite, s: State) {
    forall k :: 0 <= k < |s.committed| ==> IndexOk(c, s.packs, s.committed[k])
  }

  /** What the builder holds is strictly newer than anything committed under the same ID. */
  ghost predicate BuilderNewer(s: State) {
    forall id, k :: id in s.builder && 0 <= k < |s.committed| && id in s.committed[k] ==>
      Newer(s.builder[id], s.committed[k][id])
  }

  ghost predicate StorageOk(s: State) {
    TiesIdentical(s.committed) && forall f :: f in s.indexes <==> f in s.committed
  }

  /** No live block held inline hides a live committed entry. */
  ghost predicate NothingHidden(s: State) {
    forall id :: id in s.current && !s.current[id].deleted ==>
      MergedFind(s.committed, id).None? || MergedFind(s.committed, id).value.deleted
  }

  ghost predicate Inv(c: Suite, s: State) {
    CurrentOk(c, s) && BuilderOk(c, s) && CommittedOk(c, s) && BuilderNewer(s) && StorageOk(s)
  }

  function Fresh(flushAfter: int): State {
    State(map[], 0, map[], [], map[], {}, 0, flushAfter)
  }

  lemma FreshInv(c: Suite, t: int)
    ensures Inv(c, Fresh(t)) && NothingHidden(Fresh(t))
  {
  }
}
