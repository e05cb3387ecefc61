/** The index files in use and what they answer together (committed_block_index.go). */
module CommittedIndex {
  import opened ByteStrings
  import opened ContentId
  import opened BlockInfo
  import opened Crypto
  import opened IndexReader
  import opened MergedIndex

  ghost predicate AllKeyed(ms: seq<Index>) {
    forall k :: 0 <= k < |ms| ==> Keyed(ms[k])
  }

  /** The answers of the index files, one by one. */
  ghost function Answers(ms: seq<Index>, id: Bytes): (r: seq<Result<Option<Info>>>)
    requires AllKeyed(ms)
  {
    seq(|ms|, k requires 0 <= k < |ms| => FileLookup(Sorted(ms[k]), id))
  }

  /** `committedBlockIndex.getBlock` before it turns nothing into an error. */
  ghost function CommittedLookup(ms: seq<Index>, id: Bytes): (r: Result<Option<Info>>)
    requires AllKeyed(ms)
  {
    var answers := Answers(ms, id);
    if k :| 0 <= k < |answers| && answers[k].Err? then Err(InvalidBlockId)
    else Ok(PickAll(seq(|answers|, k requires 0 <= k < |answers| && answers[k].Ok? => answers[k].value)))
  }

  /** The entries of an index file: those of blocks, and possibly none. */
  ghost predicate OfBlocks(b: Index) {
    Keyed(b) && forall id :: id in b ==> KeyOk(id)
  }

  ghost predicate AllOfBlocks(ms: seq<Index>) {
    forall k :: 0 <= k < |ms| ==> OfBlocks(ms[k])
  }

  /** An index file as flushes write them. */
  ghost predicate BlockFile(b: Index) {
    OfBlocks(b) && b != map[]
  }

  ghost predicate BlockFiles(ms: seq<Index>) {
    forall k :: 0 <= k < |ms| ==> BlockFile(ms[k])
  }

  predicate HasEmpty(ms: seq<Index>) {
    exists k :: 0 <= k < |ms| && ms[k] == map[]
  }

  /** One index file answers for a block ID as the map it was written from. */
  lemma FileAnswers(b: Index, id: Bytes)
    requires BlockFile(b) && KeyOk(id)
    ensures FileLookup(Sorted(b), id) == Ok(Find(b, id))
  {
    hide Canonical;
    hide ToKey;
    hide Ascending;
    hide FileLookup;
    var s := Sorted(b);
    forall i | 0 <= i < |s| ensures KeyOk(s[i].blockID) {
      assert s[i].blockID in b;
    }
    var any :| any in b;
    LookupIsFind(s, b, id);
  }

  /** Looking a block ID up in the index files is looking it up in the maps. */
  lemma LookupIsMerged(ms: seq<Index>, id: Bytes)
    requires BlockFiles(ms) && KeyOk(id)
    ensures AllKeyed(ms) && CommittedLookup(ms, id) == Ok(MergedFind(ms, id))
  {
    hide KeyOk;
    hide FileLookup;
    hide PickAll;
    var answers := Answers(ms, id);
    forall k | 0 <= k < |answers| ensures answers[k] == Ok(Find(ms[k], id)) {
      FileAnswers(ms[k], id);
    }
    assert seq(|answers|, k requires 0 <= k < |answers| && answers[k].Ok? => answers[k].value) == Lookups(ms, id);
  }

  /** A file without entries records a key length of 255 and so refuses every block ID; one such
      file makes all lookups fail. */
  lemma EmptyFileRefuses(ms: seq<Index>, k: nat, id: Bytes)
    requires AllKeyed(ms) && k < |ms| && ms[k] == map[] && KeyOk(id)
    ensures CommittedLookup(ms, id) == Err(InvalidBlockId)
  {
    hide Canonical;
    hide ToKey;
    hide Position;
    hide PickAll;
    EmptySorted();
    assert Answers(ms, id)[k] == FileLookup([], id);
  }

  /** So lookups over any index files of blocks fail exactly if one of the files is empty. */
  lemma ExactLookup(ms: seq<Index>, id: Bytes)
    requires AllOfBlocks(ms) && KeyOk(id)
    ensures AllKeyed(ms)
    ensures CommittedLookup(ms, id) == if HasEmpty(ms) then Err(InvalidBlockId) else Ok(MergedFind(ms, id))
  {
    hide KeyOk;
    hide CommittedLookup;
    hide MergedFind;
    if k :| 0 <= k < |ms| && ms[k] == map[] {
      EmptyFileRefuses(ms, k, id);
    } else {
      LookupIsMerged(ms, id);
    }
  }

  lemma EmptySorted()
    ensures Keyed(map[]) && Sorted(map[]) == []
  {
    EnumerationUnique(Sorted(map[]), [], map[]);
  }
}
