/** The tree of computesum.c as its parent array, and the sums below its nodes. */
module Trees {
  import opened Counting

  /** parent is -1 at the root; depth is any numbering that grows from parent to child. */
  datatype Tree = Tree(n: nat, root: nat, parent: seq<int>, depth: seq<nat>, children: seq<nat>, input: seq<int>) {
    ghost predicate Valid() {
      && root < n && |parent| == |depth| == |children| == |input| == n
      && parent[root] == -1
      && (forall x :: 0 <= x < n && x != root ==> 0 <= parent[x] < n && depth[parent[x]] < depth[x])
      && (forall b :: 0 <= b < n ==> children[b] == |Kids(b)|)
    }

    predicate IsKid(c: nat, b: nat)
      requires |parent| == n
    {
      c < n && parent[c] == b
    }

    ghost function Kids(b: nat): set<nat>
      requires |parent| == n
    {
      set c: nat | c in Below(n) && IsKid(c, b)
    }

    /** x is i or lies below it. */
    predicate InSubtree(i: nat, x: nat)
      requires Valid() && i < n && x < n
      decreases depth[x]
    {
      x == i || (x != root && InSubtree(i, parent[x]))
    }

    /** What node x brings in: the number typed for a leaf, nothing for an inner node. */
    function Value(x: nat): int
      requires |children| == |input| == n && x < n
    {
      if children[x] == 0 then input[x] else 0
    }

    /** The values of the first m nodes, as far as they lie in i's subtree. */
    function SumBelow(i: nat, m: nat): int
      requires Valid() && i < n && m <= n
    {
      if m == 0 then 0 else SumBelow(i, m - 1) + if InSubtree(i, m - 1) then Value(m - 1) else 0
    }

    /** The total of the leaf values in i's subtree. */
    function Total(i: nat): int
      requires Valid() && i < n
    {
      SumBelow(i, n)
    }

    /** The totals of the children of i among the first k nodes. */
    function KidTotals(i: nat, k: nat): int
      requires Valid() && i < n && k <= n
    {
      KidSums(i, k, n)
    }

    function KidSums(i: nat, k: nat, m: nat): int
      requires Valid() && i < n && k <= n && m <= n
    {
      if k == 0 then 0 else KidSums(i, k - 1, m) + if IsKid(k - 1, i) then SumBelow(k - 1, m) else 0
    }

    /** All leaf values. */
    function LeafTotal(m: nat): int
      requires |children| == |input| == n && m <= n
    {
      if m == 0 then 0 else LeafTotal(m - 1) + Value(m - 1)
    }
  }

  /** Whether one of the first k nodes is a child of i with x in its subtree. */
  predicate Reached(t: Tree, i: nat, k: nat, x: nat)
    requires t.Valid() && i < t.n && k <= t.n && x < t.n
  {
    exists c :: 0 <= c < k && t.IsKid(c, i) && t.InSubtree(c, x)
  }

  lemma {:induction false} SubtreeDeeper(t: Tree, i: nat, x: nat)
    requires t.Valid() && i < t.n && x < t.n && t.InSubtree(i, x)
    ensures t.depth[i] <= t.depth[x]
    ensures x != i ==> t.depth[i] < t.depth[x]
    decreases t.depth[x]
  {
    if x != i {
      SubtreeDeeper(t, i, t.parent[x]);
    }
  }

  /** A node other than i lies in i's subtree through exactly one child of i. */
  lemma {:induction false} ThroughOneKid(t: Tree, i: nat, x: nat)
    requires t.Valid() && i < t.n && x < t.n
    ensures Reached(t, i, t.n, x) <==> x != i && t.InSubtree(i, x)
    ensures forall c: nat, d: nat | c < t.n && d < t.n && t.IsKid(c, i) && t.IsKid(d, i) ::
              t.InSubtree(c, x) && t.InSubtree(d, x) ==> c == d
    decreases t.depth[x]
  {
    if x != t.root {
      var p := t.parent[x];
      ThroughOneKid(t, i, p);
      if p == i {
        assert t.IsKid(x, i) && t.InSubtree(x, x);
        forall c: nat | c < t.n && t.IsKid(c, i) && t.InSubtree(c, x)
          ensures c == x
        {
          SubtreeDeeper(t, c, x);
          if c != x {
            SubtreeDeeper(t, c, i);
          }
        }
      } else {
        forall c: nat | c < t.n && t.IsKid(c, i)
          ensures t.InSubtree(c, x) <==> t.InSubtree(c, p)
        {
        }
      }
    }
    if Reached(t, i, t.n, x) {
      var c :| 0 <= c < t.n && t.IsKid(c, i) && t.InSubtree(c, x);
      SubtreeDeeper(t, c, x);
    }
  }

  /** Counting one more node adds its value to the children's sums if it lies below one of them. */
  lemma {:induction false} OneMoreNode(t: Tree, i: nat, k: nat, x: nat)
    requires t.Valid() && i < t.n && k <= t.n && x < t.n
    ensures t.KidSums(i, k, x + 1) == t.KidSums(i, k, x) + if Reached(t, i, k, x) then t.Value(x) else 0
  {
    if k > 0 {
      OneMoreNode(t, i, k - 1, x);
      ThroughOneKid(t, i, x);
      assert Reached(t, i, k, x) <==> Reached(t, i, k - 1, x) || (t.IsKid(k - 1, i) && t.InSubtree(k - 1, x));
    }
  }

  lemma {:induction false} SumSplits(t: Tree, i: nat, m: nat)
    requires t.Valid() && i < t.n && m <= t.n
    ensures t.SumBelow(i, m) == (if i < m then t.Value(i) else 0) + t.KidSums(i, t.n, m)
  {
    if m == 0 {
      NoNodes(t, i, t.n);
    } else {
      SumSplits(t, i, m - 1);
      OneMoreNode(t, i, t.n, m - 1);
      ThroughOneKid(t, i, m - 1);
    }
  }

  lemma {:induction false} NoNodes(t: Tree, i: nat, k: nat)
    requires t.Valid() && i < t.n && k <= t.n
    ensures t.KidSums(i, k, 0) == 0
  {
    if k > 0 {
      NoNodes(t, i, k - 1);
    }
  }

  /** What node_thread adds up: a node's own value and its children's totals make its total. */
  lemma TotalFromKids(t: Tree, i: nat)
    requires t.Valid() && i < t.n
    ensures t.Total(i) == t.Value(i) + t.KidTotals(i, t.n)
  {
    SumSplits(t, i, t.n);
  }

  lemma {:induction false} AllBelowRoot(t: Tree, x: nat)
    requires t.Valid() && x < t.n
    ensures t.InSubtree(t.root, x)
    decreases t.depth[x]
  {
    if x != t.root {
      AllBelowRoot(t, t.parent[x]);
    }
  }

  lemma {:induction false} RootSumsAll(t: Tree, m: nat)
    requires t.Valid() && m <= t.n
    ensures t.SumBelow(t.root, m) == t.LeafTotal(m)
  {
    if m > 0 {
      RootSumsAll(t, m - 1);
      AllBelowRoot(t, m - 1);
    }
  }

  /** A leaf's total is its value. */
  lemma LeafAlone(t: Tree, i: nat)
    requires t.Valid() && i < t.n && t.children[i] == 0
    ensures t.Total(i) == t.Value(i)
  {
    TotalFromKids(t, i);
    assert t.Kids(i) == {};
    forall c: nat | c < t.n
      ensures !t.IsKid(c, i)
    {
      assert c in Below(t.n) && c !in t.Kids(i);
    }
    NoKidSums(t, i, t.n);
  }

  lemma {:induction false} NoKidSums(t: Tree, i: nat, k: nat)
    requires t.Valid() && i < t.n && k <= t.n && forall c: nat :: c < t.n ==> !t.IsKid(c, i)
    ensures t.KidTotals(i, k) == 0
  {
    if k > 0 {
      NoKidSums(t, i, k - 1);
    }
  }

  // ---------------------------------------------------------------- in terms of the parent array

  /** A node without children is nobody's parent. */
  lemma NobodysParent(t: Tree, x: nat)
    requires t.Valid() && x < t.n
    ensures t.children[x] == 0 <==> forall c :: 0 <= c < t.n ==> t.parent[c] != x
  {
    assert forall c: nat :: c in t.Kids(x) <==> c < t.n && t.parent[c] == x;
    if t.children[x] == 0 {
      assert t.Kids(x) == {};
    } else {
      assert t.Kids(x) != {};
      var c :| c in t.Kids(x);
    }
  }

  /** The path from x up to i, as the parent array gives it. */
  ghost predicate Climbs(t: Tree, w: seq<nat>, x: nat, i: nat)
    requires |t.parent| == t.n
  {
    && |w| > 0 && w[0] == x && w[|w| - 1] == i
    && (forall k :: 0 <= k < |w| ==> w[k] < t.n)
    && forall k :: 0 <= k < |w| - 1 ==> t.parent[w[k]] == w[k + 1]
  }

  /** x lies in i's subtree exactly when following parents from x meets i. */
  lemma {:induction false} SubtreeClimbs(t: Tree, i: nat, x: nat)
    requires t.Valid() && i < t.n && x < t.n
    ensures t.InSubtree(i, x) <==> exists w :: Climbs(t, w, x, i)
    decreases t.depth[x]
  {
    if x == i {
      assert Climbs(t, [x], x, i);
    } else {
      if x != t.root {
        SubtreeClimbs(t, i, t.parent[x]);
        if t.InSubtree(i, x) {
          var w :| Climbs(t, w, t.parent[x], i);
          assert Climbs(t, [x] + w, x, i);
        }
      }
      if w :| Climbs(t, w, x, i) {
        assert t.parent[w[0]] == w[0 + 1];
        assert Climbs(t, w[1..], w[1], i);
      }
    }
  }

  /** The total of a node, of any numbers that are typed at the leaves of its subtree and 0 elsewhere. */
  lemma {:induction false} SumOfLeaves(t: Tree, i: nat, v: seq<int>)
    requires t.Valid() && i < t.n && |v| <= t.n
    requires forall x :: 0 <= x < |v| ==>
               v[x] == if t.children[x] == 0 && t.InSubtree(i, x) then t.input[x] else 0
    ensures Sum(v) == t.SumBelow(i, |v|)
  {
    if v != [] {
      SumOfLeaves(t, i, v[..|v| - 1]);
    }
  }

  /** A total is the sum of the numbers typed at those nodes that are nobody's parent and from which
      following parents leads to i. */
  lemma TotalOfLeaves(t: Tree, i: nat, v: seq<int>)
    requires t.Valid() && i < t.n && |v| == t.n
    requires forall x: nat :: x < t.n ==>
               v[x] == if (forall c :: 0 <= c < t.n ==> t.parent[c] != x) && (exists w :: Climbs(t, w, x, i))
                       then t.input[x] else 0
    ensures t.Total(i) == Sum(v)
  {
    forall x: nat | x < t.n
      ensures v[x] == if t.children[x] == 0 && t.InSubtree(i, x) then t.input[x] else 0
    {
      NobodysParent(t, x);
      SubtreeClimbs(t, i, x);
    }
    SumOfLeaves(t, i, v);
  }

  /** All leaves: the sum of the numbers typed at those nodes that are nobody's parent. */
  lemma TotalOfAllLeaves(t: Tree, v: seq<int>)
    requires t.Valid() && |v| == t.n
    requires forall x :: 0 <= x < t.n ==>
               v[x] == if forall c :: 0 <= c < t.n ==> t.parent[c] != x then t.input[x] else 0
    ensures t.LeafTotal(t.n) == Sum(v)
  {
    forall x: nat | x < t.n
      ensures v[x] == if t.children[x] == 0 && t.InSubtree(t.root, x) then t.input[x] else 0
    {
      NobodysParent(t, x);
      AllBelowRoot(t, x);
    }
    SumOfLeaves(t, t.root, v);
    RootSumsAll(t, t.n);
  }
}
