/** The growable array of the simulator library (srSimulator/LieGroup/_array.h): a buffer whose
    first `size` slots are the contents.  Every method is specified by what it does to the
    contents as a sequence; values are passed by value, so they never lie in the buffer. */
module GrowableArray {
  /** Where `value` first occurs in `s` from `from` on, or -1. */
  predicate IsFirst<T(==)>(s: seq<T>, value: T, from: nat, at: int) {
    if at < 0 then at == -1 && forall i :: from <= i < |s| ==> s[i] != value
    else from <= at < |s| && s[at] == value && forall i :: from <= i < at ==> s[i] != value
  }

  function Without<T>(s: seq<T>, at: nat): (t: seq<T>)
    requires at < |s|
    ensures |t| == |s| - 1
  {
    s[..at] + s[at + 1..]
  }

  /** The sequence without the first occurrence of `value`. */
  function RemoveFirst<T(==)>(s: seq<T>, value: T): seq<T> {
    if s == [] then [] else if s[0] == value then s[1..] else [s[0]] + RemoveFirst(s[1..], value)
  }

  lemma {:induction false} IsFirstInTail<T>(s: seq<T>, value: T, at: int)
    requires s != [] && s[0] != value && IsFirst(s, value, 0, at)
    ensures at != 0 && IsFirst(s[1..], value, 0, if at < 0 then -1 else at - 1)
  {
    var t := s[1..];
    assert forall i :: 0 <= i < |t| ==> t[i] == s[i + 1];
  }

  lemma {:induction false} WithoutInTail<T>(s: seq<T>, at: nat)
    requires 0 < at < |s|
    ensures [s[0]] + Without(s[1..], at - 1) == Without(s, at)
  {
    var t := s[1..];
    assert t[..at - 1] == s[1..at] && t[at..] == s[at + 1..];
    assert [s[0]] + s[1..at] == s[..at];
  }

  lemma {:induction false} RemoveFirstAt<T>(s: seq<T>, value: T, at: int)
    requires IsFirst(s, value, 0, at)
    ensures RemoveFirst(s, value) == if at < 0 then s else Without(s, at)
    decreases |s|
  {
    if s != [] {
      if s[0] == value {
        assert at == 0;
        assert Without(s, 0) == s[1..];
      } else {
        IsFirstInTail(s, value, at);
        RemoveFirstAt(s[1..], value, if at < 0 then -1 else at - 1);
        if at > 0 { WithoutInTail(s, at); }
      }
    }
  }

  /** One occurrence less, if there is any. */
  lemma {:induction false} RemoveFirstCount<T>(s: seq<T>, value: T)
    ensures multiset(RemoveFirst(s, value)) == multiset(s) - multiset{value}
    decreases |s|
  {
    if s != [] {
      assert s == [s[0]] + s[1..];
      if s[0] != value {
        RemoveFirstCount(s[1..], value);
      }
    }
  }

  /** Everything else keeps its order: what is left without `value` is the same. */
  function Others<T(==)>(s: seq<T>, value: T): seq<T> {
    if s == [] then [] else (if s[0] == value then [] else [s[0]]) + Others(s[1..], value)
  }

  lemma {:induction false} RemoveFirstKeepsOthers<T>(s: seq<T>, value: T)
    ensures Others(RemoveFirst(s, value), value) == Others(s, value)
    decreases |s|
  {
    if s != [] && s[0] != value {
      RemoveFirstKeepsOthers(s[1..], value);
      var t := RemoveFirst(s[1..], value);
      assert ([s[0]] + t)[1..] == t;
    }
  }

  /** Copies the first `n` slots of a buffer to another, or to a later place in the same one. */
  method CopySlots<T>(from: array<T>, to: array<T>, at: nat, n: nat)
    requires n <= from.Length && at + n <= to.Length && (from == to ==> n <= at)
    modifies to
    ensures to[..at] == old(to[..at]) && to[at..at + n] == old(from[..n])
  {
    for i := 0 to n
      invariant forall k :: 0 <= k < at ==> to[k] == old(to[k])
      invariant forall k :: 0 <= k < n ==> from[k] == old(from[k])
      invariant to[at..at + i] == old(from[..i])
    {
      to[at + i] := from[i];
    }
  }

  class Array<T(0, ==)> {
    var base: array<T>
    var size: nat

    ghost predicate Valid()
      reads this
    {
      size <= base.Length
    }

    ghost function Contents(): (s: seq<T>)
      reads this, base
      requires Valid()
      ensures |s| == size
    {
      base[..size]
    }

    constructor ()
      ensures Valid() && Contents() == [] && base.Length == 0 && fresh(base)
    {
      base, size := new T[0], 0;
    }

    /** A new buffer with the contents from slot `shift` on. */
    method Reallocated(capacity: nat, shift: nat) returns (tmp: array<T>)
      requires Valid() && shift + size <= capacity
      ensures fresh(tmp) && tmp.Length == capacity && tmp[shift..shift + size] == Contents()
    {
      tmp := new T[capacity];
      for i := 0 to size
        invariant tmp[shift..shift + i] == base[..i]
      {
        tmp[shift + i] := base[i];
      }
    }

    method AddTail(value: T)
      requires Valid()
      modifies this, base
      ensures Valid() && Contents() == old(Contents()) + [value]
      ensures base.Length == if old(size) + 1 > old(base.Length) then 4 * (old(size) + 1) else old(base.Length)
      ensures base == old(base) || fresh(base)
    {
      Reserve(size + 1);
      assert base[..size] == old(Contents());
      base[size] := value;
      size := size + 1;
    }

    /** Adds the value unless it is there. */
    method CheckAddTail(value: T)
      requires Valid()
      modifies this, base
      ensures Valid() && Contents() == if value in old(Contents()) then old(Contents()) else old(Contents()) + [value]
      ensures base == old(base) || fresh(base)
    {
      for i := 0 to size
        invariant value !in base[..i]
      {
        if base[i] == value {
          assert value == Contents()[i];
          return;
        }
      }
      AddTail(value);
    }

    /** Appends another array, or this one to itself. */
    method AddAll(other: Array<T>)
      requires Valid() && other.Valid() && (other == this || other.base != base)
      modifies this, base
      ensures Valid() && Contents() == old(Contents()) + old(other.Contents())
      ensures other != this ==> other.Contents() == old(other.Contents())
      ensures base == old(base) || fresh(base)
    {
      Reserve(size + other.size);
      var n, at := other.size, size;
      CopySlots(other.base, base, at, n);
      size := at + n;
      assert base[..size] == base[..at] + base[at..at + n];
    }

    /** Makes room for `n` items. */
    method Reserve(n: nat)
      requires Valid() && size <= n
      modifies this
      ensures Valid() && size == old(size) && n <= base.Length && Contents() == old(Contents())
      ensures base.Length == if n > old(base.Length) then 4 * n else old(base.Length)
      ensures base == old(base) || fresh(base)
    {
      if n > base.Length {
        base := Reallocated(4 * n, 0);
        assert base[..size] == old(Contents());
      }
    }

    method AddHead(value: T)
      requires Valid()
      modifies this, base
      ensures Valid() && Contents() == [value] + old(Contents())
      ensures base == old(base) || fresh(base)
    {
      ghost var was := Contents();
      if size + 1 > base.Length {
        base := Reallocated(4 * (size + 1), 1);
        assert base[1..size + 1] == was;
      } else {
        var i := size;
        while i > 0
          modifies base
          invariant 0 <= i <= size
          invariant base[..i] == was[..i] && base[i + 1..size + 1] == was[i..]
        {
          base[i] := base[i - 1];
          i := i - 1;
          assert base[i + 1..size + 1] == [was[i]] + was[i + 1..];
        }
      }
      size := size + 1;
      base[0] := value;
      assert base[1..size] == was;
    }

    /** Moves everything after `at` one slot down; `n` is the counter of the loop, as it is left. */
    method ShiftDown(at: nat) returns (n: nat)
      requires Valid() && at < size
      modifies base
      ensures base[..size - 1] == old(Without(Contents(), at)) && n == 0
    {
      ghost var was := Contents();
      var i := at;
      n := size - at - 1;
      while n != 0
        invariant at <= i && n == size - 1 - i
        invariant base[..i] == was[..at] + was[at + 1..i + 1]
        invariant base[i..size] == was[i..]
      {
        assert base[i + 1] == base[i..size][1] == was[i + 1];
        base[i] := base[i + 1];
        assert base[i + 1..size] == was[i + 1..];
        i, n := i + 1, n - 1;
      }
    }

    /** Takes out the item at `idx`; outside the array nothing happens. */
    method Pop(idx: int)
      requires Valid()
      modifies this, base
      ensures Valid() && base == old(base)
      ensures Contents() == if 0 <= idx < old(size) then Without(old(Contents()), idx) else old(Contents())
    {
      if idx < 0 || idx >= size { return; }
      var n := ShiftDown(idx);
      size := size - 1;
    }

    method Find(value: T) returns (at: int)
      requires Valid()
      ensures IsFirst(Contents(), value, 0, at)
    {
      at := FindNext(value, -1);
    }

    /** The first occurrence after `idx`; beyond the last item the loop of the program would not end. */
    method FindNext(value: T, idx: int) returns (at: int)
      requires Valid() && -1 <= idx && (idx < size || idx == -1)
      ensures IsFirst(Contents(), value, idx + 1, at)
    {
      for i := idx + 1 to size
        invariant forall k :: idx + 1 <= k < i ==> base[k] != value
      {
        if base[i] == value { return i; }
      }
      at := -1;
    }

    method Remove(value: T)
      requires Valid()
      modifies this, base
      ensures Valid() && base == old(base) && Contents() == RemoveFirst(old(Contents()), value)
    {
      var at := Find(value);
      RemoveFirstAt(Contents(), value, at);
      Pop(at);
    }

    /** `find_pop`: the counter left at zero by the inner loop ends the outer one, so that only
        the first match goes, as with `remove`. */
    method FindPop(value: T)
      requires Valid()
      modifies this, base
      ensures Valid() && base == old(base) && Contents() == RemoveFirst(old(Contents()), value)
    {
      ghost var was := Contents();
      ghost var found := false;
      var i, n := 0, size;
      while n > 0
        invariant Valid() && base == old(base)
        invariant if found then n == 0 && Contents() == RemoveFirst(was, value)
                  else n == size - i && i <= size && Contents() == was && forall k :: 0 <= k < i ==> was[k] != value
      {
        n := n - 1;
        if base[i] == value {
          assert was[i] == value;
          RemoveFirstAt(was, value, i);
          n := ShiftDown(i);
          size := size - 1;
          found := true;
        }
        i := i + 1;
      }
      if !found {
        RemoveFirstAt(was, value, -1);
      }
    }

    method Clear()
      modifies this
      ensures Valid() && Contents() == [] && fresh(base) && base.Length == 0
    {
      base, size := new T[0], 0;
    }

    /** The size becomes `n`.  What was there before `n` stays, if it is to be kept or the
        buffer is large enough. */
    method SetSize(n: nat, keep: bool)
      requires Valid()
      modifies this
      ensures Valid() && size == n && (base == old(base) || fresh(base))
      ensures keep || n <= old(base.Length) ==>
                forall i :: 0 <= i < n && i < old(size) ==> Contents()[i] == old(Contents())[i]
      ensures n <= old(base.Length) <==> base == old(base)
    {
      if n > base.Length {
        if keep {
          base := Reallocated(4 * n, 0);
          assert base[..size] == old(Contents());
          forall i | 0 <= i < old(size)
            ensures base[i] == old(Contents())[i]
          {
            assert base[i] == base[..size][i];
          }
        } else {
          base := new T[4 * n];
        }
      }
      size := n;
    }
  }
}
