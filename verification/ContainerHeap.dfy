/** Go's container/heap as the merge and the cache sweep use it, over any `less` that agrees
    with a total preorder. `less` itself need not be a strict order: on equivalent elements
    it may answer either way. */
module ContainerHeap {

  ghost predicate TotalPreorder<T(!new)>(le: (T, T) -> bool) {
    && (forall a, b :: le(a, b) || le(b, a))
    && (forall a, b, c :: le(a, b) && le(b, c) ==> le(a, c))
  }

  /** `less` never contradicts `le`. */
  ghost predicate Agrees<T(!new)>(less: (T, T) -> bool, le: (T, T) -> bool) {
    forall a, b :: if less(a, b) then le(a, b) else le(b, a)
  }

  predicate Child(p: int, c: int) {
    c == 2 * p + 1 || c == 2 * p + 2
  }

  ghost predicate HeapOrdered<T>(s: seq<T>, le: (T, T) -> bool) {
    forall p, c :: 0 <= p < c < |s| && Child(p, c) ==> le(s[p], s[c])
  }

  /** Ordered except that the element at `j` may be smaller than its parent; `j`'s parent
      is still below `j`'s children. */
  ghost predicate OrderedButUp<T>(s: seq<T>, le: (T, T) -> bool, j: int) {
    && (forall p, c :: 0 <= p < c < |s| && Child(p, c) && c != j ==> le(s[p], s[c]))
    && (forall p, c :: 0 <= p < j < c < |s| && Child(p, j) && Child(j, c) ==> le(s[p], s[c]))
  }

  /** Ordered except that the element at `j` may be bigger than its children; `j`'s parent
      is still below them. */
  ghost predicate OrderedButDown<T>(s: seq<T>, le: (T, T) -> bool, j: int) {
    && (forall p, c :: 0 <= p < c < |s| && Child(p, c) && p != j ==> le(s[p], s[c]))
    && (forall p, c :: 0 <= p < j < c < |s| && Child(p, j) && Child(j, c) ==> le(s[p], s[c]))
  }

  lemma {:induction false} RootIsLeast<T(!new)>(s: seq<T>, le: (T, T) -> bool, i: nat)
    requires TotalPreorder(le) && HeapOrdered(s, le) && i < |s|
    ensures le(s[0], s[i])
  {
    if i > 0 {
      var p := (i - 1) / 2;
      assert Child(p, i);
      RootIsLeast(s, le, p);
    } else {
      assert le(s[0], s[0]);
    }
  }

  function Swapped<T>(s: seq<T>, i: nat, j: nat): (r: seq<T>)
    requires i < |s| && j < |s|
    ensures |r| == |s|
    ensures multiset(r) == multiset(s)
    ensures forall k :: 0 <= k < |s| ==> r[k] == if k == i then s[j] else if k == j then s[i] else s[k]
  {
    s[i := s[j]][j := s[i]]
  }

  /** Swapping a too-small element with its parent moves the violation up. */
  lemma UpStep<T(!new)>(s: seq<T>, le: (T, T) -> bool, i: nat, j: nat)
    requires TotalPreorder(le) && j < |s| && Child(i, j)
    requires OrderedButUp(s, le, j) && le(s[j], s[i])
    ensures OrderedButUp(Swapped(s, i, j), le, i)
  {
    var r := Swapped(s, i, j);
    forall p, c | 0 <= p < c < |r| && Child(p, c) && c != i ensures le(r[p], r[c]) {
      if c != j && p == i {
        assert le(s[i], s[c]);
      }
    }
    forall p, c | 0 <= p < i < c < |r| && Child(p, i) && Child(i, c) ensures le(r[p], r[c]) {
      assert le(s[p], s[i]);
      if c != j {
        assert le(s[i], s[c]);
      }
    }
  }

  /** Swapping a too-big element with its smaller child moves the violation down. */
  lemma DownStep<T(!new)>(s: seq<T>, le: (T, T) -> bool, i: nat, j: nat)
    requires TotalPreorder(le) && j < |s| && Child(i, j)
    requires OrderedButDown(s, le, i) && le(s[j], s[i])
    requires forall c :: 0 <= c < |s| && Child(i, c) ==> le(s[j], s[c])
    ensures OrderedButDown(Swapped(s, i, j), le, j)
  {
    var r := Swapped(s, i, j);
    forall p, c | 0 <= p < j < c < |r| && Child(p, j) && Child(j, c) ensures le(r[p], r[c]) {
      assert p == i;
      assert le(s[j], s[c]);
    }
  }

  class Heap<T(!new)> {
    const less: (T, T) -> bool
    ghost const le: (T, T) -> bool
    var items: seq<T>

    ghost predicate Valid()
      reads this
    {
      TotalPreorder(le) && Agrees(less, le) && HeapOrdered(items, le)
    }

    constructor (less: (T, T) -> bool, ghost le: (T, T) -> bool)
      requires TotalPreorder(le) && Agrees(less, le)
      ensures Valid() && items == [] && this.le == le
    {
      this.less := less;
      this.le := le;
      items := [];
    }

    /** `heap.Push`: append, then sift up. */
    method Push(x: T)
      requires Valid()
      modifies this`items
      ensures Valid()
      ensures multiset(items) == multiset(old(items)) + multiset{x}
    {
      items := items + [x];
      var j := |items| - 1;
      while j > 0 && less(items[j], items[(j - 1) / 2])
        invariant 0 <= j < |items|
        invariant OrderedButUp(items, le, j)
        invariant multiset(items) == multiset(old(items)) + multiset{x}
        decreases j
      {
        var i := (j - 1) / 2;
        UpStep(items, le, i, j);
        items := Swapped(items, i, j);
        j := i;
      }
      FullyUp(items, j);
    }

    lemma FullyUp(s: seq<T>, j: nat)
      requires Agrees(less, le) && j < |s| && OrderedButUp(s, le, j)
      requires j == 0 || !less(s[j], s[(j - 1) / 2])
      ensures HeapOrdered(s, le)
    {
      forall p, c | 0 <= p < c < |s| && Child(p, c) ensures le(s[p], s[c]) {
        if c == j {
          assert p == (j - 1) / 2;
        }
      }
    }

    /** `heap.Pop`: swap the root to the end, sift down, cut the end off. */
    method Pop() returns (x: T)
      requires Valid() && items != []
      modifies this`items
      ensures Valid()
      ensures multiset(items) + multiset{x} == multiset(old(items))
      ensures |items| == |old(items)| - 1
      ensures forall y :: y in old(items) ==> le(x, y)
    {
      forall i | 0 <= i < |items| ensures le(items[0], items[i]) {
        RootIsLeast(items, le, i);
      }
      var n := |items| - 1;
      items := Swapped(items, 0, n);
      x := items[n];
      assert items == items[..n] + [x];
      items := items[..n];
      Down();
    }

    /** Sifts the root down to its place. */
    method Down()
      requires TotalPreorder(le) && Agrees(less, le) && OrderedButDown(items, le, 0)
      modifies this`items
      ensures Valid()
      ensures multiset(items) == multiset(old(items)) && |items| == |old(items)|
    {
      var n, i := |items|, 0;
      while 2 * i + 1 < n
        invariant 0 <= i && |items| == n
        invariant OrderedButDown(items, le, i)
        invariant multiset(items) == multiset(old(items))
        decreases n - i
      {
        var j := 2 * i + 1;
        if j + 1 < n && less(items[j + 1], items[j]) {
          j := j + 1;
        }
        assert forall c :: 0 <= c < n && Child(i, c) ==> le(items[j], items[c]) by {
          assert le(items[j], items[j]);
        }
        if !less(items[j], items[i]) {
          assert HeapOrdered(items, le);
          return;
        }
        DownStep(items, le, i, j);
        items := Swapped(items, i, j);
        i := j;
      }
    }
  }
}
