/** Path halving on the union-find links of the simulator's systems
    (srSimulator/srDyn/srConstraint.cpp). */
module UnionFind {

  // ---------------------------------------------------------------------------------------
  // Parent forests as maps: a root is its own parent.

  /** The link of `x`. */
  ghost function Parent<T>(p: map<T, T>, x: T): T
    requires x in p
  {
    p[x]
  }

  ghost predicate Closed<T>(p: map<T, T>) { forall x {:trigger Parent(p, x)} :: x in p ==> Parent(p, x) in p }

  /** A root lies at most `n` links above `x`. */
  ghost predicate Reaches<T>(p: map<T, T>, x: T, n: nat)
    requires Closed(p) && x in p
  {
    Parent(p, x) == x || (n > 0 && Reaches(p, Parent(p, x), n - 1))
  }

  /** No cycles but the roots. */
  ghost predicate Acyclic<T>(p: map<T, T>) {
    Closed(p) && forall x {:trigger Parent(p, x)} :: x in p ==> exists n :: Reaches(p, x, n)
  }

  /** A measure that falls along every link, which is what the functions below recurse on. */
  ghost predicate Ranked<T>(p: map<T, T>, rank: map<T, nat>) {
    && p.Keys == rank.Keys
    && forall x {:trigger Parent(p, x)} :: x in p ==> Parent(p, x) in p && (Parent(p, x) != x ==> rank[Parent(p, x)] < rank[x])
  }

  ghost function Least<T>(p: map<T, T>, x: T, limit: nat): (n: nat)
    requires Closed(p) && x in p && Reaches(p, x, limit)
  {
    if Parent(p, x) == x then 0 else 1 + Least(p, Parent(p, x), limit - 1)
  }

  lemma {:induction false} LeastUnique<T>(p: map<T, T>, x: T, a: nat, b: nat)
    requires Closed(p) && x in p && Reaches(p, x, a) && Reaches(p, x, b)
    ensures Least(p, x, a) == Least(p, x, b)
    decreases a
  {
    if Parent(p, x) != x {
      LeastUnique(p, Parent(p, x), a - 1, b - 1);
    }
  }

  /** A forest is acyclic exactly when it has a rank. */
  lemma {:induction false} AcyclicHasRank<T>(p: map<T, T>) returns (rank: map<T, nat>)
    requires Acyclic(p)
    ensures Ranked(p, rank)
  {
    rank := map x | x in p :: LeastOf(p, x);
    forall x | x in p
      ensures Parent(p, x) in p && (Parent(p, x) != x ==> rank[Parent(p, x)] < rank[x])
    {
      if Parent(p, x) != x {
        LeastOfStep(p, x);
      }
    }
  }

  ghost function LeastOf<T>(p: map<T, T>, x: T): (r: nat)
    requires Acyclic(p) && x in p
    ensures exists n :: Reaches(p, x, n) && r == Least(p, x, n)
  {
    assert exists n :: Reaches(p, x, n) by { assert Parent(p, x) in p; }
    var n :| Reaches(p, x, n);
    Least(p, x, n)
  }

  lemma {:induction false} LeastOfStep<T>(p: map<T, T>, x: T)
    requires Acyclic(p) && x in p && Parent(p, x) != x
    ensures Parent(p, x) in p && LeastOf(p, x) == 1 + LeastOf(p, Parent(p, x))
  {
    assert Parent(p, Parent(p, x)) in p;
    var n: nat :| Reaches(p, x, n) && LeastOf(p, x) == Least(p, x, n);
    var m: nat :| Reaches(p, Parent(p, x), m) && LeastOf(p, Parent(p, x)) == Least(p, Parent(p, x), m);
    LeastUnique(p, Parent(p, x), n - 1, m);
    assert Least(p, x, n) == 1 + Least(p, Parent(p, x), n - 1);
  }

  lemma {:induction false} RankedIsAcyclic<T>(p: map<T, T>, rank: map<T, nat>)
    requires Ranked(p, rank)
    ensures Acyclic(p)
  {
    forall x | x in p
      ensures exists n :: Reaches(p, x, n)
    {
      RankedReaches(p, rank, x);
    }
  }

  lemma {:induction false} RankedReaches<T>(p: map<T, T>, rank: map<T, nat>, x: T)
    requires Ranked(p, rank) && x in p
    ensures Closed(p) && Reaches(p, x, rank[x])
    decreases rank[x]
  {
    if Parent(p, x) != x {
      RankedReaches(p, rank, Parent(p, x));
      ReachesMore(p, Parent(p, x), rank[Parent(p, x)], rank[x] - 1);
    }
  }

  lemma {:induction false} ReachesMore<T>(p: map<T, T>, x: T, m: nat, n: nat)
    requires Closed(p) && x in p && Reaches(p, x, m) && m <= n
    ensures Reaches(p, x, n)
    decreases m
  {
    if Parent(p, x) != x {
      ReachesMore(p, Parent(p, x), m - 1, n - 1);
    }
  }

  // ---------------------------------------------------------------------------------------
  // Roots and depths.

  ghost function Root<T>(p: map<T, T>, rank: map<T, nat>, x: T): (r: T)
    requires Ranked(p, rank) && x in p
    ensures r in p && Parent(p, r) == r
    decreases rank[x]
  {
    if Parent(p, x) == x then x else Root(p, rank, Parent(p, x))
  }

  /** The number of links from `x` to its root. */
  ghost function Depth<T>(p: map<T, T>, rank: map<T, nat>, x: T): nat
    requires Ranked(p, rank) && x in p
    decreases rank[x]
  {
    if Parent(p, x) == x then 0 else 1 + Depth(p, rank, Parent(p, x))
  }

  /** One step of path halving: a node is linked to its grandparent. */
  ghost function Halve<T>(p: map<T, T>, x: T): map<T, T>
    requires Closed(p) && x in p
  {
    p[x := Parent(p, Parent(p, x))]
  }

  lemma {:induction false} HalveRanked<T>(p: map<T, T>, rank: map<T, nat>, x: T)
    requires Ranked(p, rank) && x in p && Parent(p, x) != x
    ensures Closed(p) && Ranked(Halve(p, x), rank)
  {
    assert Parent(p, Parent(p, x)) in p;
    var q := Halve(p, x);
    forall y | y in q
      ensures Parent(q, y) in q && (Parent(q, y) != y ==> rank[Parent(q, y)] < rank[y])
    {
      assert Parent(p, y) in p;
    }
  }

  /** Roots stay, depths only shrink, and nothing ranked below the halved node changes. */
  lemma {:induction false} HalveEffect<T>(p: map<T, T>, rank: map<T, nat>, x: T, y: T)
    requires Ranked(p, rank) && x in p && Parent(p, x) != x && y in p
    ensures Closed(p) && Ranked(Halve(p, x), rank) && y in Halve(p, x)
    ensures Root(Halve(p, x), rank, y) == Root(p, rank, y)
    ensures Depth(Halve(p, x), rank, y) <= Depth(p, rank, y)
    ensures rank[y] < rank[x] ==> Depth(Halve(p, x), rank, y) == Depth(p, rank, y)
    decreases rank[y]
  {
    HalveRanked(p, rank, x);
    if y == x {
      assert Parent(p, Parent(p, x)) in p;
      HalveEffect(p, rank, x, Parent(p, Parent(p, x)));
    } else if Parent(p, y) != y {
      HalveEffect(p, rank, x, Parent(p, y));
    }
  }

  /** `x` reaches `y` in `k` links. */
  ghost predicate Hops<T>(p: map<T, T>, rank: map<T, nat>, x: T, k: nat, y: T)
    requires Ranked(p, rank) && x in p
    decreases k
  {
    if k == 0 then x == y else Parent(p, x) != x && Hops(p, rank, Parent(p, x), k - 1, y)
  }

  lemma {:induction false} HopsDepth<T>(p: map<T, T>, rank: map<T, nat>, x: T, k: nat, y: T)
    requires Ranked(p, rank) && x in p && Hops(p, rank, x, k, y)
    ensures y in p && Depth(p, rank, x) == k + Depth(p, rank, y) && Root(p, rank, x) == Root(p, rank, y)
    ensures k > 0 ==> rank[y] < rank[x]
    decreases k
  {
    if k > 0 {
      HopsDepth(p, rank, Parent(p, x), k - 1, y);
    }
  }

  /** Halving `y` keeps the links from `x` to it, and adds one to its new parent. */
  lemma {:induction false} HalveHops<T>(p: map<T, T>, rank: map<T, nat>, x: T, k: nat, y: T)
    requires Ranked(p, rank) && x in p && Hops(p, rank, x, k, y) && y in p && Parent(p, y) != y
    ensures Closed(p) && Ranked(Halve(p, y), rank) && x in Halve(p, y) && Parent(p, y) in p
    ensures Hops(Halve(p, y), rank, x, k + 1, Parent(p, Parent(p, y)))
    decreases k
  {
    HalveRanked(p, rank, y);
    assert Parent(p, Parent(p, y)) in p;
    if k == 0 {
      assert rank[Parent(p, Parent(p, y))] < rank[y];
      assert Hops(Halve(p, y), rank, Parent(p, Parent(p, y)), 0, Parent(p, Parent(p, y)));
    } else {
      HopsDepth(p, rank, x, k, y);
      HalveHops(p, rank, Parent(p, x), k - 1, y);
    }
  }

  /** Going from `p0` to `p`, node `x` keeps its root and does not sink. */
  ghost predicate Keeps<T>(p0: map<T, T>, p: map<T, T>, rank: map<T, nat>, x: T)
    requires Ranked(p0, rank) && Ranked(p, rank) && x in p0 && x in p
  {
    Root(p, rank, x) == Root(p0, rank, x) && Depth(p, rank, x) <= Depth(p0, rank, x)
  }

  /** `k` halvings on the way up from `s`, which has got to `cur`, turned `p0` into `p`. */
  ghost predicate Compressed<T>(p0: map<T, T>, p: map<T, T>, rank: map<T, nat>, s: T, k: nat, cur: T)
    requires Ranked(p0, rank) && s in p0
  {
    && p.Keys == p0.Keys && Ranked(p, rank) && cur in p
    && Hops(p, rank, s, k, cur)
    && k + (Depth(p, rank, cur) + 1) / 2 == (Depth(p0, rank, s) + 1) / 2
    && (forall x {:trigger Keeps(p0, p, rank, x)} :: x in p ==> Keeps(p0, p, rank, x))
  }

  lemma {:induction false} KeepsStep<T>(p0: map<T, T>, p: map<T, T>, rank: map<T, nat>, cur: T, x: T)
    requires Ranked(p0, rank) && Ranked(p, rank) && cur in p && Parent(p, cur) != cur
    requires x in p0 && x in p && Keeps(p0, p, rank, x)
    ensures Closed(p) && Ranked(Halve(p, cur), rank) && Keeps(p0, Halve(p, cur), rank, x)
  {
    HalveEffect(p, rank, cur, x);
  }

  /** From the halved node to its new parent the half-depth falls by one. */
  lemma {:induction false} HalfDepth<T>(p: map<T, T>, rank: map<T, nat>, cur: T)
    requires Ranked(p, rank) && cur in p && Parent(p, cur) != cur
    ensures Closed(p) && Parent(p, cur) in p && Parent(p, Parent(p, cur)) in p
    ensures rank[Parent(p, Parent(p, cur))] < rank[cur] && Ranked(Halve(p, cur), rank)
    ensures 1 + (Depth(Halve(p, cur), rank, Parent(p, Parent(p, cur))) + 1) / 2 == (Depth(p, rank, cur) + 1) / 2
  {
    var up := Parent(p, cur);
    var next := Parent(p, up);
    HalveEffect(p, rank, cur, next);
    assert Depth(p, rank, cur) == 1 + Depth(p, rank, up);
    assert next != up ==> Depth(p, rank, up) == 1 + Depth(p, rank, next);
  }

  lemma {:induction false} CompressStep<T>(p0: map<T, T>, p: map<T, T>, rank: map<T, nat>, s: T, k: nat, cur: T)
    requires Ranked(p0, rank) && s in p0 && Compressed(p0, p, rank, s, k, cur) && Parent(p, cur) != cur
    ensures Closed(p) && Parent(p, cur) in p
    ensures Parent(p, Parent(p, cur)) in p && rank[Parent(p, Parent(p, cur))] < rank[cur]
    ensures Compressed(p0, Halve(p, cur), rank, s, k + 1, Parent(p, Parent(p, cur)))
  {
    HalfDepth(p, rank, cur);
    HalveHops(p, rank, s, k, cur);
    var q := Halve(p, cur);
    forall x {:trigger Keeps(p0, q, rank, x)} | x in p
      ensures Keeps(p0, q, rank, x)
    {
      assert Keeps(p0, p, rank, x);
      KeepsStep(p0, p, rank, cur, x);
    }
    assert q.Keys == p.Keys;
  }

  // ---------------------------------------------------------------------------------------
  // The program.

  class SrSystem {
    /** m_UF_id. */
    var ufId: SrSystem

    constructor ()
      ensures ufId == this
    {
      ufId := this;
    }
  }

  ghost function Links(forest: set<SrSystem>): map<SrSystem, SrSystem>
    reads forest
  {
    map s | s in forest :: s.ufId
  }

  /** `UF_Find_System`. */
  method FindSystem(s: SrSystem, ghost forest: set<SrSystem>, ghost rank: map<SrSystem, nat>) returns (root: SrSystem)
    requires s in forest && Ranked(Links(forest), rank)
    ensures root == Root(Links(forest), rank, s)
  {
    root := s;
    while root.ufId != root
      invariant root in forest && Root(Links(forest), rank, root) == Root(Links(forest), rank, s)
      decreases rank[root]
    {
      root := root.ufId;
    }
  }

  /** `UF_Find_System_PathCompression`: on any acyclic forest it ends, returns what the plain
      find returns, keeps every node's root and the forest acyclic, lets no node sink deeper,
      and leaves the node it started from at half its depth, rounded up. */
  method FindSystemPathCompression(s: SrSystem, ghost forest: set<SrSystem>, ghost rank: map<SrSystem, nat>)
    returns (root: SrSystem)
    requires s in forest && Ranked(Links(forest), rank)
    modifies forest
    ensures Ranked(Links(forest), rank)
    ensures root == Root(old(Links(forest)), rank, s)
    ensures forall x {:trigger Keeps(old(Links(forest)), Links(forest), rank, x)} :: x in forest ==>
              Keeps(old(Links(forest)), Links(forest), rank, x)
    ensures Depth(Links(forest), rank, s) == (Depth(old(Links(forest)), rank, s) + 1) / 2
  {
    ghost var p0 := Links(forest);
    root := s;
    ghost var k := 0;
    while root.ufId != root
      invariant root in forest && Compressed(p0, Links(forest), rank, s, k, root)
      decreases rank[root]
    {
      ghost var p := Links(forest);
      assert Parent(p, root) == root.ufId && Parent(p, root.ufId) == root.ufId.ufId;
      CompressStep(p0, p, rank, s, k, root);
      root.ufId := root.ufId.ufId;
      assert Links(forest) == Halve(p, root);
      root := root.ufId;
      k := k + 1;
    }
    assert Parent(Links(forest), root) == root;
    assert Keeps(p0, Links(forest), rank, s);
    HopsDepth(Links(forest), rank, s, k, root);
  }
}
