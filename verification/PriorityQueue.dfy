/** The priority queue of the scheduler (lib/common/priority_queue.h), which is also the shape
    of std::priority_queue: a vector kept as a binary heap by push_heap and pop_heap under a
    comparator; the top is an element that none is greater than.

    The comparator is given as a function.  What it is worth is stated through a key: on the
    elements in the queue the comparator must order as the keys do. */
module PriorityQueue {
  function Up(i: nat): nat
    requires i > 0
  {
    (i - 1) / 2
  }

  ghost predicate Agrees<T(!new)>(less: (T, T) -> bool, key: T -> int, s: multiset<T>) {
    forall a, b :: a in s && b in s ==> (less(a, b) <==> key(a) < key(b))
  }

  /** No element is greater than its parent. */
  ghost predicate IsHeap<T(!new)>(key: T -> int, s: seq<T>) {
    forall i :: 0 < i < |s| ==> key(s[Up(i)]) >= key(s[i])
  }

  lemma {:induction false} TopIsGreatest<T(!new)>(key: T -> int, s: seq<T>, i: nat)
    requires IsHeap(key, s) && i < |s|
    ensures key(s[0]) >= key(s[i])
    decreases i
  {
    if i > 0 {
      TopIsGreatest(key, s, Up(i));
    }
  }

  function Swap<T>(s: seq<T>, i: nat, j: nat): (t: seq<T>)
    requires i < |s| && j < |s|
    ensures |t| == |s| && t[i] == s[j] && t[j] == s[i]
    ensures forall k :: 0 <= k < |s| && k != i && k != j ==> t[k] == s[k]
    ensures multiset(t) == multiset(s)
  {
    s[i := s[j]][j := s[i]]
  }

  /** A heap but for `i`, which may be greater than its parent. */
  ghost predicate HeapAbove<T(!new)>(key: T -> int, s: seq<T>, i: nat) {
    && (forall j :: 0 < j < |s| && j != i ==> key(s[Up(j)]) >= key(s[j]))
    && (forall j :: 0 < j < |s| && Up(j) == i && i > 0 ==> key(s[Up(i)]) >= key(s[j]))
  }

  lemma {:induction false} SwapAbove<T(!new)>(key: T -> int, s: seq<T>, i: nat)
    requires 0 < i < |s| && HeapAbove(key, s, i) && key(s[Up(i)]) < key(s[i])
    ensures HeapAbove(key, Swap(s, i, Up(i)), Up(i))
  {
    var t, p := Swap(s, i, Up(i)), Up(i);
    forall j | 0 < j < |t| && j != p
      ensures key(t[Up(j)]) >= key(t[j])
    {
      assert key(s[Up(j)]) >= key(s[j]) || j == i;
    }
    forall j | 0 < j < |t| && Up(j) == p && p > 0
      ensures key(t[Up(p)]) >= key(t[j])
    {
      assert key(s[Up(p)]) >= key(s[p]) && (j != i ==> key(s[p]) >= key(s[j]));
    }
  }

  /** A heap but for `i`, which may be less than its children. */
  ghost predicate HeapBelow<T(!new)>(key: T -> int, s: seq<T>, i: nat) {
    && (forall j :: 0 < j < |s| && Up(j) != i ==> key(s[Up(j)]) >= key(s[j]))
    && (forall j :: 0 < j < |s| && Up(j) == i && i > 0 ==> key(s[Up(i)]) >= key(s[j]))
  }

  lemma {:induction false} SwapBelow<T(!new)>(key: T -> int, s: seq<T>, i: nat, c: nat)
    requires i < c < |s| && Up(c) == i && HeapBelow(key, s, i) && key(s[i]) < key(s[c])
    requires forall j :: 0 < j < |s| && Up(j) == i ==> key(s[c]) >= key(s[j])
    ensures HeapBelow(key, Swap(s, i, c), c)
  {
    var t := Swap(s, i, c);
    forall j | 0 < j < |t| && Up(j) != c
      ensures key(t[Up(j)]) >= key(t[j])
    {
      if Up(j) != i {
        assert key(s[Up(j)]) >= key(s[j]);
      }
    }
    forall j | 0 < j < |t| && Up(j) == c
      ensures key(t[Up(c)]) >= key(t[j])
    {
      assert key(s[Up(j)]) >= key(s[j]);
    }
  }

  lemma {:induction false} TopIsMaximal<T(!new)>(key: T -> int, s: seq<T>)
    requires IsHeap(key, s) && s != []
    ensures forall x :: x in multiset(s) ==> key(x) <= key(s[0])
  {
    forall x | x in multiset(s)
      ensures key(x) <= key(s[0])
    {
      var i :| 0 <= i < |s| && s[i] == x;
      TopIsGreatest(key, s, i);
    }
  }

  /** What pop_heap and pop_back leave before the new root sinks. */
  lemma {:induction false} LastToTop<T(!new)>(key: T -> int, s: seq<T>)
    requires IsHeap(key, s) && s != []
    ensures var t := Swap(s, 0, |s| - 1)[..|s| - 1];
            HeapBelow(key, t, 0) && multiset(t) == multiset(s) - multiset{s[0]}
  {
    var moved := Swap(s, 0, |s| - 1);
    assert moved == moved[..|s| - 1] + [s[0]];
    assert multiset(moved) == multiset(moved[..|s| - 1]) + multiset{s[0]};
  }

  lemma {:induction false} TakeOut<T>(s: seq<T>, i: nat)
    requires i < |s|
    ensures s[i] in multiset(s) && multiset(s[..i] + s[i + 1..]) == multiset(s) - multiset{s[i]}
  {
    assert s == s[..i] + [s[i]] + s[i + 1..];
  }

  class PriorityQueue<T(!new, ==)> {
    const less: (T, T) -> bool
    ghost const key: T -> int
    /** m_c. */
    var items: seq<T>

    ghost predicate Valid()
      reads this
    {
      Agrees(less, key, multiset(items)) && IsHeap(key, items)
    }

    constructor (less: (T, T) -> bool, ghost key: T -> int)
      ensures this.less == less && this.key == key && Valid() && items == []
    {
      this.less, this.key := less, key;
      items := [];
    }

    method Push(value: T)
      requires Valid() && Agrees(less, key, multiset(items) + multiset{value})
      modifies this
      ensures Valid() && multiset(items) == multiset(old(items)) + multiset{value}
    {
      items := items + [value];
      ghost var all := multiset(items);
      var i := |items| - 1;
      while i > 0 && less(items[Up(i)], items[i])
        invariant 0 <= i < |items| && multiset(items) == all && HeapAbove(key, items, i)
      {
        assert items[i] in multiset(items) && items[Up(i)] in multiset(items);
        SwapAbove(key, items, i);
        items := Swap(items, i, Up(i));
        i := Up(i);
      }
      assert i > 0 ==> items[i] in multiset(items) && items[Up(i)] in multiset(items);
    }

    /** The child of `i` that is not less than the other; pop_heap moves it up. */
    method GreaterChild(i: nat) returns (c: nat)
      requires Agrees(less, key, multiset(items)) && 2 * i + 1 < |items|
      ensures i < c < |items| && Up(c) == i
      ensures forall j :: 0 < j < |items| && Up(j) == i ==> key(items[c]) >= key(items[j])
    {
      c := 2 * i + 1;
      assert items[c] in multiset(items);
      if c + 1 < |items| {
        assert items[c + 1] in multiset(items);
        if less(items[c], items[c + 1]) { c := c + 1; }
      }
      forall j | 0 < j < |items| && Up(j) == i
        ensures key(items[c]) >= key(items[j])
      {
        assert j == 2 * i + 1 || j == 2 * i + 2;
      }
    }

    /** Restores the heap below the root after its element was replaced. */
    method SiftDown()
      requires Agrees(less, key, multiset(items)) && HeapBelow(key, items, 0)
      modifies this
      ensures Valid() && multiset(items) == multiset(old(items))
    {
      var i := 0;
      while 2 * i + 1 < |items|
        invariant multiset(items) == multiset(old(items)) && HeapBelow(key, items, i)
        decreases |items| - i
      {
        var c := GreaterChild(i);
        assert items[i] in multiset(items) && items[c] in multiset(items);
        if !less(items[i], items[c]) { break; }
        SwapBelow(key, items, i, c);
        items := Swap(items, i, c);
        i := c;
      }
    }

    /** Takes out an element that none is greater than. */
    method Pop() returns (top: T)
      requires Valid() && items != []
      modifies this
      ensures Valid() && top in multiset(old(items))
      ensures multiset(items) == multiset(old(items)) - multiset{top}
      ensures forall x :: x in multiset(old(items)) ==> key(x) <= key(top)
      ensures top == old(items)[0] && |items| == |old(items)| - 1
    {
      top := items[0];
      TopIsMaximal(key, items);
      LastToTop(key, items);
      items := Swap(items, 0, |items| - 1)[..|items| - 1];
      SiftDown();
    }

    /** make_heap: rebuilds the heap from whatever the vector holds. */
    method MakeHeap()
      requires Agrees(less, key, multiset(items))
      modifies this
      ensures Valid() && multiset(items) == multiset(old(items))
    {
      var all := items;
      items := [];
      for i := 0 to |all|
        invariant Valid() && multiset(items) == multiset(all[..i])
      {
        assert all[..i + 1] == all[..i] + [all[i]];
        assert all == all[..i + 1] + all[i + 1..];
        Push(all[i]);
      }
      assert all[..|all|] == all;
    }

    /** Removes one element equal to `value`, the first in the vector. */
    method Remove(value: T) returns (found: bool)
      requires Valid()
      modifies this
      ensures Valid() && found == (value in multiset(old(items)))
      ensures multiset(items) == multiset(old(items)) - multiset{value}
    {
      var i := 0;
      while i < |items| && items[i] != value
        invariant 0 <= i <= |items| && value !in items[..i]
      {
        i := i + 1;
      }
      if i == |items| {
        assert items[..i] == items;
        return false;
      }
      TakeOut(items, i);
      items := items[..i] + items[i + 1..];
      MakeHeap();
      found := true;
    }
  }
}
