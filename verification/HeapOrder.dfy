/** Order facts about a binary min-heap laid out in a sequence, the layout of Go's container/heap. */
module HeapOrder {

  /** x and y are not both below each other. */
  ghost predicate Asymmetric<T>(less: (T, T) -> bool, x: T, y: T) {
    less(x, y) ==> !less(y, x)
  }

  /** "Not above" carries from x over y to z. */
  ghost predicate Transitive<T>(less: (T, T) -> bool, x: T, y: T, z: T) {
    !less(y, x) && !less(z, y) ==> !less(z, x)
  }

  /** `less` is a strict weak order on the values in `dom`: the contract of a PrioQueue's Less function. */
  ghost predicate StrictWeak<T>(less: (T, T) -> bool, dom: set<T>) {
    && (forall x, y {:trigger Asymmetric(less, x, y)} | x in dom && y in dom :: Asymmetric(less, x, y))
    && (forall x, y, z {:trigger Transitive(less, x, y, z)} | x in dom && y in dom && z in dom ::
          Transitive(less, x, y, z))
  }

  function Parent(i: nat): nat
    requires 0 < i
  {
    (i - 1) / 2
  }

  function Elements<T>(s: seq<T>): set<T> {
    set x | x in s
  }

  function Swapped<T>(s: seq<T>, i: nat, j: nat): (r: seq<T>)
    requires i < |s| && j < |s|
  {
    s[i := s[j]][j := s[i]]
  }

  lemma SwappedElements<T>(s: seq<T>, i: nat, j: nat)
    requires i < |s| && j < |s|
    ensures Elements(Swapped(s, i, j)) == Elements(s)
  {
    var r := Swapped(s, i, j);
    assert forall k | 0 <= k < |s| :: s[k] == r[if k == i then j else if k == j then i else k];
  }

  lemma AppendedElements<T>(s: seq<T>, x: T)
    ensures Elements(s + [x]) == Elements(s) + {x}
  {
    var r := s + [x];
    assert r[|s|] == x && forall k | 0 <= k < |s| :: r[k] == s[k];
  }

  /** The value at k is in order with its parent. */
  ghost predicate InOrder<T>(less: (T, T) -> bool, s: seq<T>, k: nat)
    requires 0 < k < |s|
  {
    !less(s[k], s[Parent(k)])
  }

  /** The first n values form a min-heap. */
  ghost predicate Heap<T>(less: (T, T) -> bool, s: seq<T>, n: nat)
    requires n <= |s|
  {
    forall k | 0 < k < n :: InOrder(less, s, k)
  }

  /** The children of i are not below the parent of i. */
  ghost predicate ChildrenAboveParent<T>(less: (T, T) -> bool, s: seq<T>, n: nat, i: nat)
    requires 0 < i && n <= |s|
  {
    && (2 * i + 1 < n ==> !less(s[2 * i + 1], s[Parent(i)]))
    && (2 * i + 2 < n ==> !less(s[2 * i + 2], s[Parent(i)]))
  }

  /** A heap but for the value at i, which may be too small or too large for its place. */
  ghost predicate HeapBut<T>(less: (T, T) -> bool, s: seq<T>, n: nat, i: nat)
    requires n <= |s|
  {
    && (forall k | 0 < k < n && k != i && k != 2 * i + 1 && k != 2 * i + 2 :: InOrder(less, s, k))
    && (0 < i ==> ChildrenAboveParent(less, s, n, i))
  }

  /** A heap but for the value at i, which may be too small for its place. */
  ghost predicate TooSmallAt<T>(less: (T, T) -> bool, s: seq<T>, n: nat, i: nat)
    requires n <= |s|
  {
    && (forall k | 0 < k < n && k != i :: InOrder(less, s, k))
    && (0 < i ==> ChildrenAboveParent(less, s, n, i))
  }

  /** A heap but for the value at i, which may be too large for its place. */
  ghost predicate TooLargeAt<T>(less: (T, T) -> bool, s: seq<T>, n: nat, i: nat)
    requires n <= |s|
  {
    && (forall k | 0 < k < n && k != 2 * i + 1 && k != 2 * i + 2 :: InOrder(less, s, k))
    && (0 < i ==> ChildrenAboveParent(less, s, n, i))
  }

  /** One round of `up`: a too small value trades places with its parent. */
  lemma SiftUpStep<T>(less: (T, T) -> bool, s: seq<T>, n: nat, j: nat)
    requires 0 < j < n <= |s|
    requires StrictWeak(less, Elements(s))
    requires TooSmallAt(less, s, n, j) && less(s[j], s[Parent(j)])
    ensures TooSmallAt(less, Swapped(s, Parent(j), j), n, Parent(j))
  {
    var i := Parent(j);
    var r := Swapped(s, i, j);
    assert Asymmetric(less, s[j], s[i]);
    forall k | 0 < k < n && k != i
      ensures InOrder(less, r, k)
    {
      if k != j {
        assert InOrder(less, s, k) && Transitive(less, s[j], s[i], s[k]);
      }
    }
    if 0 < i {
      assert InOrder(less, s, i);
      forall k | (k == 2 * i + 1 || k == 2 * i + 2) && k < n
        ensures !less(r[k], r[Parent(i)])
      {
        if k != j {
          assert InOrder(less, s, k) && Transitive(less, s[Parent(i)], s[i], s[k]);
        }
      }
    }
  }

  /** The child that `down` compares against is a smallest one. */
  ghost predicate SmallestChild<T>(less: (T, T) -> bool, s: seq<T>, n: nat, i: nat, j: nat)
    requires n <= |s|
  {
    && (j == 2 * i + 1 || j == 2 * i + 2) && j < n
    && !less(s[2 * i + 1], s[j])
    && (2 * i + 2 < n ==> !less(s[2 * i + 2], s[j]))
  }

  lemma ChildChosen<T>(less: (T, T) -> bool, s: seq<T>, n: nat, i: nat, j: nat)
    requires 2 * i + 1 < n <= |s| && StrictWeak(less, Elements(s))
    requires j == if 2 * i + 2 < n && less(s[2 * i + 2], s[2 * i + 1]) then 2 * i + 2 else 2 * i + 1
    ensures SmallestChild(less, s, n, i, j)
  {
    assert Asymmetric(less, s[j], s[2 * i + 1]) && Asymmetric(less, s[j], s[j]);
  }

  /** One round of `down`: a too large value trades places with its smallest child. */
  lemma SiftDownStep<T>(less: (T, T) -> bool, s: seq<T>, n: nat, i: nat, j: nat)
    requires n <= |s| && StrictWeak(less, Elements(s))
    requires SmallestChild(less, s, n, i, j) && HeapBut(less, s, n, i) && less(s[j], s[i])
    ensures TooLargeAt(less, Swapped(s, i, j), n, j)
  {
    var r := Swapped(s, i, j);
    assert Asymmetric(less, s[j], s[i]);
    forall k | 0 < k < n && k != 2 * j + 1 && k != 2 * j + 2
      ensures InOrder(less, r, k)
    {
      if k != i && k != 2 * i + 1 && k != 2 * i + 2 {
        assert InOrder(less, s, k);
      }
    }
    assert 2 * j + 1 < n ==> InOrder(less, s, 2 * j + 1);
    assert 2 * j + 2 < n ==> InOrder(less, s, 2 * j + 2);
  }

  /** `down` stops where no child is smaller: nothing is too large any more. */
  lemma Settled<T>(less: (T, T) -> bool, s: seq<T>, n: nat, i: nat, j: nat)
    requires n <= |s| && StrictWeak(less, Elements(s)) && HeapBut(less, s, n, i)
    requires n <= 2 * i + 1 || (SmallestChild(less, s, n, i, j) && !less(s[j], s[i]))
    ensures TooSmallAt(less, s, n, i)
    ensures TooLargeAt(less, s, n, i) ==> Heap(less, s, n)
  {
    forall k | (k == 2 * i + 1 || k == 2 * i + 2) && k < n
      ensures InOrder(less, s, k)
    {
      assert Transitive(less, s[i], s[j], s[k]);
    }
  }

  /** Changing one value of a heap leaves a heap but for that value. */
  lemma ChangedAt<T>(less: (T, T) -> bool, s: seq<T>, i: nat, v: T)
    requires i < |s| && StrictWeak(less, Elements(s)) && Heap(less, s, |s|)
    ensures HeapBut(less, s[i := v], |s|, i)
  {
    var r := s[i := v];
    forall k | 0 < k < |s| && k != i && k != 2 * i + 1 && k != 2 * i + 2
      ensures InOrder(less, r, k)
    {
      assert InOrder(less, s, k);
    }
    if 0 < i {
      assert InOrder(less, s, i);
      forall k | (k == 2 * i + 1 || k == 2 * i + 2) && k < |s|
        ensures !less(r[k], r[Parent(i)])
      {
        assert InOrder(less, s, k) && Transitive(less, s[Parent(i)], s[i], s[k]);
      }
    }
  }

  /** The heap predicates only look at the first n values. */
  lemma SamePrefix<T>(less: (T, T) -> bool, s: seq<T>, r: seq<T>, n: nat, i: nat)
    requires n <= |s| && n <= |r| && s[..n] == r[..n]
    ensures Heap(less, s, n) ==> Heap(less, r, n)
    ensures HeapBut(less, s, n, i) ==> HeapBut(less, r, n, i)
  {
    assert forall k | 0 <= k < n :: s[k] == s[..n][k] && r[k] == r[..n][k];
    assert forall k | 0 < k < n :: InOrder(less, s, k) == InOrder(less, r, k);
  }

  /** The root of a heap is a minimum. */
  lemma {:induction false} RootIsMinimal<T>(less: (T, T) -> bool, s: seq<T>, k: nat)
    requires k < |s| && StrictWeak(less, Elements(s)) && Heap(less, s, |s|)
    ensures !less(s[k], s[0])
    decreases k
  {
    if k == 0 {
      assert Asymmetric(less, s[0], s[0]);
    } else {
      RootIsMinimal(less, s, Parent(k));
      assert InOrder(less, s, k) && Transitive(less, s[0], s[Parent(k)], s[k]);
    }
  }
}
