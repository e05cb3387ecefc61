/** What the users of a block manager can see of it, for some of its blocks: which can be read,
    which of those are still held inline, and which the written index files have as live
    (block_manager.go). */
module BlockStores {
  import opened ByteStrings

  datatype Store<V> = Store(readable: map<Bytes, V>, inline: set<Bytes>, indexed: map<Bytes, V>)

  /** How far the pending blocks got: nowhere, into a pack, or into a pack and an index. */
  datatype Settling = Kept | Packed | Flushed

  function Settle<V>(s: Store<V>, how: Settling): (r: Store<V>) {
    match how
    case Kept => s
    case Packed => s.(inline := {})
    case Flushed => s.(inline := {}, indexed := s.readable)
  }

  /** `WriteBlock`. */
  function Write<V>(s: Store<V>, b: Bytes, v: V, how: Settling): (r: Store<V>) {
    if b in s.readable then s
    else Settle(s.(readable := s.readable[b := v], inline := s.inline + {b}), how)
  }

  /** `DeleteBlock` of a block that can be read. One held inline is forgotten, and then an index
      file may still have it; otherwise it gets a tombstone. */
  function Remove<V>(s: Store<V>, b: Bytes): (r: Store<V>) {
    if b in s.inline && b in s.indexed
    then s.(inline := s.inline - {b}, readable := s.readable[b := s.indexed[b]])
    else s.(inline := s.inline - {b}, readable := s.readable - {b})
  }

  /** A tombstone hides the block, which the index files have as live. */
  predicate Hidden<V>(s: Store<V>, b: Bytes) {
    b in s.indexed && b !in s.readable
  }

  /** The block was written again under such a tombstone. */
  predicate Recreated<V>(s: Store<V>, b: Bytes) {
    b in s.inline && b in s.indexed
  }

  ghost predicate Plain<V>(s: Store<V>) {
    s.inline <= s.readable.Keys && forall b :: !Recreated(s, b)
  }

  /** Deleting a block removes it exactly when it was not re-created. */
  lemma RemoveRemovesIff<V>(s: Store<V>, b: Bytes)
    ensures b !in Remove(s, b).readable <==> !Recreated(s, b)
  {
  }

  /** Writing this block re-creates it. */
  predicate Recreates<V>(s: Store<V>, b: Bytes, how: Settling) {
    Hidden(s, b) && how.Kept?
  }

  /** In a plain store, writing, deleting and settling are operations on a map. Deleting and
      settling leave it plain, and so does writing exactly when it does not re-create. */
  lemma PlainSteps<V>(s: Store<V>, b: Bytes, v: V, how: Settling)
    requires Plain(s)
    ensures Write(s, b, v, how).readable == if b in s.readable then s.readable else s.readable[b := v]
    ensures Plain(Write(s, b, v, how)) <==> !Recreates(s, b, how)
    ensures Plain(Remove(s, b)) && Remove(s, b).readable == s.readable - {b} && Remove(s, b).inline == s.inline - {b}
    ensures Plain(Settle(s, how)) && Settle(s, how).readable == s.readable
  {
    var w := Write(s, b, v, how);
    if Recreates(s, b, how) {
      assert Recreated(w, b);
    } else {
      forall x ensures !Recreated(w, x) {
        assert !Recreated(s, x);
      }
    }
    assert !Recreated(s, b);
    forall x ensures !Recreated(Remove(s, b), x) && !Recreated(Settle(s, how), x) {
      assert !Recreated(s, x);
    }
  }
}
