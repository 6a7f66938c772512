/** The index-tracking priority queue of internal/prioqueue, with the loops of Go's container/heap written out. */
module PrioQueues {
  import opened HeapOrder
  import opened Options

  /** math.MinInt: the index of an item outside of any queue. */
  const UNDEFINED_INDEX: int := -0x8000_0000_0000_0000

  /** A handle on a queued value. `index` is the item's position in its queue. */
  class Item<T> {
    const value: T
    var index: int

    constructor (v: T)
      ensures value == v && index == UNDEFINED_INDEX
    {
      value, index := v, UNDEFINED_INDEX;
    }
  }

  ghost function ItemLess<T>(less: (T, T) -> bool): (Item<T>, Item<T>) -> bool {
    (a: Item<T>, b: Item<T>) => less(a.value, b.value)
  }

  ghost function ValuesOf<T>(items: seq<Item<T>>): (v: seq<T>)
    ensures |v| == |items| && forall i | 0 <= i < |items| :: v[i] == items[i].value
  {
    seq(|items|, i requires 0 <= i < |items| => items[i].value)
  }

  /** Nothing moved from position n on. */
  ghost predicate TailKept<T>(s: seq<Item<T>>, before: seq<Item<T>>, n: nat) {
    |s| == |before| && forall k | n <= k < |s| :: s[k] == before[k]
  }

  ghost predicate Distinct<X>(s: seq<X>) {
    forall i, j | 0 <= i < j < |s| :: s[i] != s[j]
  }

  /** The orders `a` and `b` agree wherever the item at i is not involved. */
  ghost predicate AgreeBut<T>(a: (T, T) -> bool, b: (T, T) -> bool, items: seq<Item<T>>, i: nat) {
    forall j, k {:trigger items[j], items[k]} | 0 <= j < |items| && 0 <= k < |items| && j != i && k != i ::
      a(items[j].value, items[k].value) == b(items[j].value, items[k].value)
  }

  lemma WithoutOne<T>(s: seq<Item<T>>, k: nat, r: seq<Item<T>>)
    requires Distinct(s) && k < |s| && r == s[..k] + s[k + 1..]
    ensures Distinct(r) && Elements(r) == Elements(s) - {s[k]}
    ensures multiset(ValuesOf(s)) == multiset(ValuesOf(r)) + multiset{s[k].value}
  {
    assert forall j | 0 <= j < |r| :: r[j] == if j < k then s[j] else s[j + 1];
    assert forall j | 0 <= j < |s| && j != k :: s[j] == r[if j < k then j else j - 1];
    var v := ValuesOf(s);
    assert v == v[..k] + [v[k]] + v[k + 1..];
    assert ValuesOf(r) == v[..k] + v[k + 1..];
  }

  /** Queues of the same items hold the same values. */
  lemma {:induction false} SameContents<T>(a: seq<Item<T>>, b: seq<Item<T>>)
    requires Distinct(a) && Distinct(b) && Elements(a) == Elements(b)
    ensures multiset(ValuesOf(a)) == multiset(ValuesOf(b))
    decreases |a|
  {
    if a == [] {
      assert forall k | 0 <= k < |b| :: b[k] in Elements(b);
    } else {
      var x := a[0];
      assert x in Elements(b);
      var k :| 0 <= k < |b| && b[k] == x;
      WithoutOne(a, 0, a[..0] + a[1..]);
      WithoutOne(b, k, b[..k] + b[k + 1..]);
      SameContents(a[..0] + a[1..], b[..k] + b[k + 1..]);
    }
  }

  lemma PushedContents<T>(items: seq<Item<T>>, item: Item<T>)
    ensures multiset(ValuesOf(items + [item])) == multiset(ValuesOf(items)) + multiset{item.value}
  {
    assert ValuesOf(items + [item]) == ValuesOf(items) + [item.value];
  }

  lemma TakenContents<T>(before: seq<Item<T>>, items: seq<Item<T>>, item: Item<T>)
    requires Distinct(before) && Distinct(items) && item in before && Elements(items) == Elements(before) - {item}
    ensures multiset(ValuesOf(items)) == multiset(ValuesOf(before)) - multiset{item.value}
  {
    assert item !in Elements(items);
    AppendedElements(items, item);
    PushedContents(items, item);
    SameContents(items + [item], before);
  }

  lemma PushedOrder<T>(less: (T, T) -> bool, items: seq<Item<T>>, item: Item<T>)
    requires StrictWeak(less, Elements(ValuesOf(items)) + {item.value}) && Heap(ItemLess(less), items, |items|)
    ensures Elements(items + [item]) == Elements(items) + {item}
    ensures StrictWeak(ItemLess(less), Elements(items + [item]))
    ensures TooSmallAt(ItemLess(less), items + [item], |items| + 1, |items|)
  {
    AppendedElements(items, item);
    var s := items + [item];
    var l := ItemLess(less);
    assert forall x | x in Elements(s) :: x.value in Elements(ValuesOf(items)) + {item.value} by {
      assert forall i | 0 <= i < |items| :: ValuesOf(items)[i] in Elements(ValuesOf(items));
    }
    forall x, y | x in Elements(s) && y in Elements(s)
      ensures Asymmetric(l, x, y)
    {
      assert Asymmetric(less, x.value, y.value);
    }
    forall x, y, z | x in Elements(s) && y in Elements(s) && z in Elements(s)
      ensures Transitive(l, x, y, z)
    {
      assert Transitive(less, x.value, y.value, z.value);
    }
    forall k | 0 < k < |s| && k != |items|
      ensures InOrder(l, s, k)
    {
      assert InOrder(l, items, k);
    }
  }

  /** Changing what one value refers to leaves a heap but for that value. */
  lemma ReorderedAt<T>(before: (T, T) -> bool, less: (T, T) -> bool, s: seq<Item<T>>, i: nat)
    requires i < |s| && StrictWeak(ItemLess(before), Elements(s)) && Heap(ItemLess(before), s, |s|)
    requires AgreeBut(before, less, s, i)
    ensures HeapBut(ItemLess(less), s, |s|, i)
  {
    ChangedAt(ItemLess(before), s, i, s[i]);
    assert s[i := s[i]] == s;
    forall k | 0 < k < |s| && k != i && k != 2 * i + 1 && k != 2 * i + 2
      ensures InOrder(ItemLess(less), s, k)
    {
      assert InOrder(ItemLess(before), s, k);
    }
  }

  /** The root item carries a minimum. */
  lemma MinimumFirst<T>(less: (T, T) -> bool, items: seq<Item<T>>)
    requires StrictWeak(ItemLess(less), Elements(items)) && Heap(ItemLess(less), items, |items|)
    ensures items == [] <==> multiset(ValuesOf(items)) == multiset{}
    ensures items != [] ==> items[0].value in multiset(ValuesOf(items))
    ensures items != [] ==> forall x | x in multiset(ValuesOf(items)) :: !less(x, items[0].value)
  {
    var v := ValuesOf(items);
    if items == [] {
      assert v == [];
    } else {
      assert v[0] in multiset(v);
      forall x | x in multiset(v)
        ensures !less(x, items[0].value)
      {
        var k :| 0 <= k < |v| && v[k] == x;
        RootIsMinimal(ItemLess(less), items, k);
      }
    }
  }

  class PrioQueue<T(==)> {
    /** Compares two values as they are now: callers may change what a queued value refers to. */
    var less: (T, T) -> bool
    var items: seq<Item<T>>
    /** Every item that was ever in the queue. */
    ghost var Repr: set<Item<T>>

    constructor (less: (T, T) -> bool)
      ensures Valid() && items == [] && this.less == less && Repr == {}
    {
      this.less := less;
      items := [];
      Repr := {};
    }

    ghost function Members(): set<Item<T>>
      reads this
    {
      Elements(items)
    }

    /** Every item knows its place; in particular no item is in the queue twice. */
    ghost predicate Indexed()
      reads this, items
    {
      forall i | 0 <= i < |items| :: items[i].index == i
    }

    ghost predicate Ordered()
      reads this
    {
      StrictWeak(ItemLess(less), Elements(items)) && Heap(ItemLess(less), items, |items|)
    }

    ghost predicate Valid()
      reads this, Repr
    {
      Members() <= Repr && Indexed() && Ordered()
    }

    /** The abstract value: the multiset of queued values. */
    ghost function Contents(): multiset<T>
      reads this
    {
      multiset(ValuesOf(items))
    }

    function Len(): (n: nat)
      reads this
      ensures n == |Contents()|
    {
      |items|
    }

    /** heapAdapter.Swap */
    method Swap(i: nat, j: nat)
      requires i < |items| && j < |items| && Indexed()
      modifies this`items, Members()`index
      ensures items == Swapped(old(items), i, j) && Indexed() && Members() == old(Members())
    {
      SwappedElements(items, i, j);
      items := items[i := items[j]][j := items[i]];
      items[i].index := i;
      items[j].index := j;
    }

    /** container/heap's up, within the first n items. */
    method Up(start: nat, ghost n: nat)
      requires start < n <= |items| && Indexed()
      requires StrictWeak(ItemLess(less), Members()) && TooSmallAt(ItemLess(less), items, n, start)
      modifies this`items, Members()`index
      ensures Indexed() && Members() == old(Members()) && TailKept(items, old(items), n)
      ensures Heap(ItemLess(less), items, n)
    {
      var j: nat := start;
      while true
        invariant j < n <= |items| && Indexed() && Members() == old(Members())
        invariant TailKept(items, old(items), n)
        invariant TooSmallAt(ItemLess(less), items, n, j)
        decreases j
      {
        var i: nat := if j == 0 then 0 else (j - 1) / 2;
        if i == j || !less(items[j].value, items[i].value) {
          break;
        }
        SiftUpStep(ItemLess(less), items, n, j);
        Swap(i, j);
        j := i;
      }
    }

    /** container/heap's down, within the first n items. Reports whether the item at `start` moved. */
    method Down(start: nat, n: nat) returns (moved: bool)
      requires start <= n <= |items| && Indexed()
      requires StrictWeak(ItemLess(less), Members()) && HeapBut(ItemLess(less), items, n, start)
      modifies this`items, Members()`index
      ensures Indexed() && Members() == old(Members()) && TailKept(items, old(items), n)
      ensures moved ==> Heap(ItemLess(less), items, n)
      ensures !moved ==> items == old(items) && TooSmallAt(ItemLess(less), items, n, start)
    {
      var i: nat := start;
      ghost var child: nat := 0;
      while true
        invariant start <= i <= n <= |items| && Indexed() && Members() == old(Members())
        invariant TailKept(items, old(items), n)
        invariant HeapBut(ItemLess(less), items, n, i)
        invariant if i == start then items == old(items) else TooLargeAt(ItemLess(less), items, n, i)
        decreases n - i
      {
        var left: nat := 2 * i + 1;
        if left >= n {
          break;
        }
        var j: nat := left;
        if left + 1 < n && less(items[left + 1].value, items[left].value) {
          j := left + 1;
        }
        child := j;
        ChildChosen(ItemLess(less), items, n, i, j);
        if !less(items[j].value, items[i].value) {
          break;
        }
        SiftDownStep(ItemLess(less), items, n, i, j);
        Swap(i, j);
        i := j;
      }
      Settled(ItemLess(less), items, n, i, child);
      moved := i > start;
    }

    /** What container/heap's Fix and Remove share: down and, if that did not move the item, up. */
    method DownOrUp(i: nat, n: nat)
      requires i < n <= |items| && Indexed()
      requires StrictWeak(ItemLess(less), Members()) && HeapBut(ItemLess(less), items, n, i)
      modifies this`items, Members()`index
      ensures Indexed() && Members() == old(Members()) && TailKept(items, old(items), n)
      ensures Heap(ItemLess(less), items, n)
    {
      var moved := Down(i, n);
      if !moved {
        Up(i, n);
      }
    }

    /** heapAdapter.Pop behind the sifting of container/heap's Pop and Remove: the last item leaves the queue. */
    method DropLast() returns (item: Item<T>)
      requires items != [] && Indexed()
      requires StrictWeak(ItemLess(less), Members()) && Heap(ItemLess(less), items, |items| - 1)
      modifies this`items, Members()`index
      ensures item == old(items[|items| - 1]) && item.index == UNDEFINED_INDEX
      ensures Indexed() && Ordered() && Members() == old(Members()) - {item} && |items| == old(|items|) - 1
    {
      var n := |items|;
      item := items[n - 1];
      SamePrefix(ItemLess(less), items, items[..n - 1], n - 1, 0);
      assert items == items[..n - 1] + [item];
      items := items[..n - 1];
      item.index := UNDEFINED_INDEX;
    }

    /** Inserts a value. */
    method Push(v: T) returns (item: Item<T>)
      requires Valid() && StrictWeak(less, Elements(ValuesOf(items)) + {v})
      modifies this`items, this`Repr, Members()`index
      ensures Valid() && fresh(item) && Repr == old(Repr) + {item} && item.value == v
        && Members() == old(Members()) + {item}
      ensures |items| == old(|items|) + 1 && Contents() == old(Contents()) + multiset{v}
    {
      item := new Item(v);
      PushedOrder(less, items, item);
      PushedContents(items, item);
      ghost var pushed := items + [item];
      items := items + [item];
      Repr := Repr + {item};
      item.index := |items| - 1;
      Up(|items| - 1, |items|);
      SameContents(pushed, items);
    }

    /** The minimum, or None for an empty queue. */
    function Peek(): (r: Option<T>)
      requires Valid()
      reads this, Repr
      ensures r.None? <==> Contents() == multiset{}
      ensures r.Some? ==> r.value in Contents() && forall x | x in Contents() :: !less(x, r.value)
    {
      MinimumFirst(less, items);
      if items == [] then None else Some(items[0].value)
    }

    /** Removes the minimum, the value Peek showed. */
    method Pop() returns (r: Option<T>)
      requires Valid()
      modifies this`items, Members()`index
      ensures Valid() && r == old(Peek())
      ensures r.None? ==> items == old(items)
      ensures r.Some? ==> |items| == old(|items|) - 1 && Members() == old(Members()) - {old(items[0])}
      ensures r.Some? ==> old(items[0]).index == UNDEFINED_INDEX
      ensures r.Some? ==> Contents() == old(Contents()) - multiset{r.value}
    {
      if items == [] {
        return None;
      }
      var n := |items| - 1;
      ghost var top := items[0];
      ChangedAt(ItemLess(less), items, 0, items[n]);
      Swap(0, n);
      SamePrefix(ItemLess(less), old(items)[0 := old(items[n])], items, n, 0);
      var _ := Down(0, n);
      var item := DropLast();
      r := Some(item.value);
      TakenContents(old(items), items, top);
    }

    /** Removes every item. */
    method Clear()
      requires Valid()
      modifies this`items, Members()`index
      ensures Valid() && items == []
      ensures forall it | it in old(items) :: it.index == UNDEFINED_INDEX
    {
      ghost var all := Members();
      var count := |items|;
      while count > 0
        invariant Valid() && count == |items| && Members() <= all
        invariant forall it | it in all - Members() :: it.index == UNDEFINED_INDEX
      {
        var _ := Pop();
        count := count - 1;
      }
    }

    /**
     * Puts an item back in place after what its value refers to has changed: `before` is the order
     * under which the queue was in order, and it still agrees with `less` on all the other items.
     */
    method Update(item: Item<T>, ghost before: (T, T) -> bool)
      requires Members() <= Repr && Indexed() && 0 <= item.index < |items| && items[item.index] == item
      requires StrictWeak(ItemLess(before), Members()) && Heap(ItemLess(before), items, |items|)
      requires StrictWeak(ItemLess(less), Members())
      requires AgreeBut(before, less, items, item.index)
      modifies this`items, Members()`index
      ensures Valid() && Members() == old(Members()) && |items| == old(|items|) && Contents() == old(Contents())
    {
      ReorderedAt(before, less, items, item.index);
      DownOrUp(item.index, |items|);
      SameContents(old(items), items);
    }

    /** Removes an item regardless of its position. */
    method Remove(item: Item<T>)
      requires Valid() && 0 <= item.index < |items| && items[item.index] == item
      modifies this`items, Members()`index
      ensures Valid() && item.index == UNDEFINED_INDEX
      ensures |items| == old(|items|) - 1 && Members() == old(Members()) - {item}
      ensures Contents() == old(Contents()) - multiset{item.value}
    {
      var i, n := item.index, |items| - 1;
      if n != i {
        ExchangeWithLast(i, n);
      }
      var _ := DropLast();
      TakenContents(old(items), items, item);
    }

    /** Moves the item at i to the end and puts the first n items back in order. */
    method ExchangeWithLast(i: nat, n: nat)
      requires Valid() && i < n == |items| - 1
      modifies this`items, Members()`index
      ensures Indexed() && Members() == old(Members()) && |items| == old(|items|)
      ensures items[n] == old(items[i]) && Heap(ItemLess(less), items, n)
    {
      ChangedAt(ItemLess(less), items, i, items[n]);
      Swap(i, n);
      SamePrefix(ItemLess(less), old(items)[i := old(items[n])], items, n, i);
      DownOrUp(i, n);
    }
  }

  ghost predicate Sorted<T>(less: (T, T) -> bool, s: seq<T>) {
    forall i, j | 0 <= i < j < |s| :: !less(s[j], s[i])
  }

  ghost predicate AllBelow<T>(less: (T, T) -> bool, s: seq<T>, bag: multiset<T>) {
    forall x, i | x in bag && 0 <= i < |s| :: !less(x, s[i])
  }

  lemma DrainStep<T>(less: (T, T) -> bool, s: seq<T>, bag: multiset<T>, v: T)
    requires Sorted(less, s) && AllBelow(less, s, bag)
    requires v in bag && forall x | x in bag :: !less(x, v)
    ensures Sorted(less, s + [v]) && AllBelow(less, s + [v], bag - multiset{v})
    ensures multiset(s + [v]) + (bag - multiset{v}) == multiset(s) + bag
  {
    assert forall x | x in bag - multiset{v} :: x in bag;
  }

  /** Popping until the queue is empty yields its contents in order. */
  method Drain<T(==)>(q: PrioQueue<T>) returns (out: seq<T>)
    requires q.Valid()
    modifies q`items, q.Repr`index
    ensures q.items == [] && multiset(out) == old(q.Contents()) && Sorted(q.less, out)
  {
    out := [];
    while |q.items| > 0
      invariant q.Valid()
      invariant Sorted(q.less, out) && AllBelow(q.less, out, q.Contents())
      invariant multiset(out) + q.Contents() == old(q.Contents())
    {
      ghost var bag := q.Contents();
      var v := q.Pop();
      DrainStep(q.less, out, bag, v.value);
      out := out + [v.value];
    }
    assert q.Contents() == multiset{};
  }
}
