/** gentree.c and the reading of its file in computesum.c. */
module TreeGenerator {
  import opened Counting
  import opened Shuffle
  import opened Trees

  /** Node PERM[c] hangs below PERM[up[c]], which comes before it; PERM[0] is its own parent. */
  ghost predicate Hangs(P: seq<int>, perm: seq<int>, up: seq<nat>, n: nat)
    requires Permutation(perm, n) && |P| == n
  {
    |up| == n && forall c :: 0 <= c < n ==> up[c] < n && (up[c] < c || up[c] == c == 0) && P[perm[c]] == perm[up[c]]
  }

  /** Parents are used in order, each for at most five children. */
  ghost predicate BreadthFirst(up: seq<nat>) {
    && (forall c, d :: 1 <= c < d < |up| ==> up[c] <= up[d])
    && (forall c :: 1 <= c && c + 5 < |up| ==> up[c] < up[c + 5])
  }

  /** The nodes placed so far: PERM[0] and the first |up| - 1 children. */
  ghost predicate PlacedSoFar(P: seq<int>, perm: seq<int>, up: seq<nat>, n: nat)
    requires Permutation(perm, n) && |P| == n
  {
    && 1 <= |up| <= n && BreadthFirst(up)
    && forall c :: 0 <= c < |up| ==> up[c] < n && (up[c] < c || up[c] == c == 0) && P[perm[c]] == perm[up[c]]
  }

  lemma PlaceOne(P: seq<int>, Q: seq<int>, perm: seq<int>, up: seq<nat>, n: nat, p: nat)
    requires Permutation(perm, n) && |P| == n && PlacedSoFar(P, perm, up, n) && |up| < n && p < |up|
    requires Q == P[perm[|up|] := perm[p]]
    requires forall c :: 1 <= c < |up| ==> up[c] <= p
    requires |up| > 5 ==> up[|up| - 5] < p
    ensures PlacedSoFar(Q, perm, up + [p], n)
  {
    assert forall c :: 0 <= c < |up| ==> perm[c] != perm[|up|];
  }

  /** The inner loop: t children for PERM[nextparent]. */
  method AddKids(P: array<int>, perm: array<int>, nextparent: nat, nextchild: nat, t: nat, ghost was: seq<nat>)
    returns (ghost up: seq<nat>)
    requires P != perm && P.Length == perm.Length && Permutation(perm[..], P.Length)
    requires PlacedSoFar(P[..], perm[..], was, P.Length) && |was| == nextchild + 1
    requires nextparent <= nextchild && nextchild + t < P.Length && t <= 5
    requires forall c :: 1 <= c < |was| ==> was[c] < nextparent
    modifies P
    ensures PlacedSoFar(P[..], perm[..], up, P.Length) && |up| == nextchild + 1 + t
    ensures forall c :: 1 <= c < |up| ==> up[c] <= nextparent
    ensures up == was + seq(t, _ => nextparent)
  {
    up := was;
    var child := nextchild;
    ghost var order := perm[..];
    for i := 0 to t
      invariant perm[..] == order && child == nextchild + i && |up| == child + 1
      invariant PlacedSoFar(P[..], order, up, P.Length)
      invariant forall c :: 1 <= c <= nextchild ==> up[c] < nextparent
      invariant up == was + seq(i, _ => nextparent)
    {
      child := child + 1;
      ghost var p := P[..];
      P[perm[child]] := perm[nextparent];
      PlaceOne(p, P[..], order, up, P.Length, nextparent);
      up := up + [nextparent];
    }
  }

  /** The children that a parent gets, rem nodes being left; forced when it is the last node placed. */
  function Turn(draw: nat, rem: nat, forced: bool): nat
    requires rem > 0
  {
    draw % (if rem > 5 then 5 else rem) + if forced then 1 else 0
  }

  /** Whom the nodes hang below after the turns of the first p parents. */
  ghost function Filled(n: nat, rand: nat -> nat, p: nat): (up: seq<nat>)
    requires n >= 1
    ensures 1 <= |up| <= n && (|up| < n ==> p < |up|)
    ensures up[0] == 0 && forall c :: 1 <= c < |up| ==> up[c] < p && up[c] < c
    ensures forall c, d :: 1 <= c < d < |up| ==> up[c] <= up[d]
  {
    if p == 0 then [0]
    else
      var u := Filled(n, rand, p - 1);
      if |u| == n then u else u + seq(Turn(rand(p - 1), n - |u|, |u| == p), _ => p - 1)
  }

  lemma FilledStep(n: nat, rand: nat -> nat, p: nat)
    requires n >= 1 && |Filled(n, rand, p)| < n
    ensures var u := Filled(n, rand, p); var t := Turn(rand(p), n - |u|, |u| == p + 1);
            Filled(n, rand, p + 1) == u + seq(t, _ => p) && |u| + t <= n
  {
  }

  /** Later turns only add, and only for later parents. */
  lemma {:induction false} FilledGrows(n: nat, rand: nat -> nat, p: nat, q: nat)
    requires n >= 1 && p <= q
    ensures Filled(n, rand, p) <= Filled(n, rand, q)
    ensures forall c :: |Filled(n, rand, p)| <= c < |Filled(n, rand, q)| ==> p <= Filled(n, rand, q)[c] < q
  {
    if p < q {
      FilledGrows(n, rand, p, q - 1);
    }
  }

  lemma Started(order: seq<int>, n: nat, rand: nat -> nat)
    requires n >= 1 && Permutation(order, n)
    ensures Filled(n, rand, 0) == [0] && BreadthFirst([0]) && 0 <= order[0] < n
  {
  }

  /** The parent-assignment loop: for every outcome of rand() it ends with every node placed. rand(p) is
      what is drawn when PERM[p] is the next parent. */
  method Generate(n: nat, draws: seq<nat>, rand: nat -> nat)
    returns (P: array<int>, perm: array<int>, ghost up: seq<nat>)
    requires n >= 1 && |draws| == n
    ensures P.Length == n && perm[..] == Shuffled(n, draws, n)
    ensures Hangs(P[..], perm[..], up, n) && BreadthFirst(up)
    ensures up == Filled(n, rand, n)
  {
    hide Filled, BreadthFirst, Permutation;
    perm := Permute(n, draws);
    P := new int[n];
    ghost var order := perm[..];
    up := [0];
    Started(order, n, rand);
    P[perm[0]] := perm[0];
    var nextchild, nextparent, remaining := 0, 0, n - 1;
    while remaining > 0
      invariant perm[..] == order && 0 <= nextparent <= nextchild && nextchild + remaining == n - 1 && remaining >= 0
      invariant |up| == nextchild + 1 && PlacedSoFar(P[..], order, up, n)
      invariant forall c :: 1 <= c <= nextchild ==> up[c] < nextparent
      invariant up == Filled(n, rand, nextparent)
      decreases remaining, nextchild - nextparent
    {
      var most := if remaining > 5 then 5 else remaining;
      var draw := rand(nextparent) % most;
      var t := if nextchild == nextparent then 1 + draw else draw;
      FilledStep(n, rand, nextparent);
      assert t == Turn(rand(nextparent), n - |up|, |up| == nextparent + 1);
      remaining := remaining - t;
      up := AddKids(P, perm, nextparent, nextchild, t, up);
      nextchild := nextchild + t;
      nextparent := nextparent + 1;
    }
    FilledGrows(n, rand, nextparent, n);
  }

  /** The place of a node in PERM. */
  ghost function Place(perm: seq<int>, n: nat, v: nat): (k: nat)
    requires Permutation(perm, n) && v < n
    ensures k < n && perm[k] == v
  {
    assert exists k: nat :: k < n && perm[k] == v by {
      var k := PermutationHits(perm, n, v);
    }
    var k: nat :| k < n && perm[k] == v;
    k
  }

  /** The reading loop of initialize_tree: a line `v v` marks the root, any other line hangs a child
      below its parent. */
  method ReadLines(P: array<int>, ghost first: nat) returns (root: nat, parent: array<int>, children: array<nat>)
    requires first < P.Length
    requires forall v :: 0 <= v < P.Length ==> 0 <= P[v] < P.Length && (P[v] == v <==> v == first)
    ensures parent.Length == children.Length == P.Length && root == first
    ensures forall v :: 0 <= v < P.Length ==> parent[v] == if v != first then P[v] else -1
    ensures forall b: nat :: b < P.Length ==> children[b] == |KidsSoFar(P[..], b, P.Length)|
  {
    var n := P.Length;
    ghost var p := P[..];
    assert forall b: nat :: b < n ==> KidsSoFar(p, b, 0) == {};
    hide KidsSoFar;
    parent := new int[n](_ => -1);
    children := new nat[n](_ => 0);
    root := 0;
    for child := 0 to n
      invariant P[..] == p
      invariant forall v :: 0 <= v < n ==> parent[v] == if v < child && v != first then p[v] else -1
      invariant first < child ==> root == first
      invariant forall b: nat :: b < n ==> children[b] == |KidsSoFar(p, b, child)|
    {
      KidsGrow(p, child);
      assert P[child] == p[child];
      if child != P[child] {
        parent[child] := P[child];
        children[P[child]] := children[P[child]] + 1;
      } else {
        root := child;
      }
    }
  }

  /** initialize_tree on the generator's file: the tree rooted at PERM[0], with the place in PERM as depth. */
  method InitializeTree(n: nat, P: array<int>, ghost perm: seq<int>, ghost up: seq<nat>, ghost input: seq<int>)
    returns (root: nat, parent: array<int>, children: array<nat>, ghost t: Tree)
    requires n >= 1 && P.Length == n && Permutation(perm, n) && Hangs(P[..], perm, up, n) && |input| == n
    ensures parent.Length == children.Length == n && root == perm[0]
    ensures forall v :: 0 <= v < n ==> parent[v] == if v == root then -1 else P[v]
    ensures forall b: nat :: b < n ==> children[b] == |KidsSoFar(P[..], b, n)|
    ensures t.Valid() && t.n == n && t.root == root
    ensures t.parent == parent[..] && t.children == children[..] && t.input == input
    ensures forall v :: 0 <= v < n ==> t.depth[v] == Place(perm, n, v)
  {
    ghost var p := P[..];
    ParentsBefore(p, perm, up, n);
    assert forall v :: 0 <= v < n ==> P[v] == p[v];
    root, parent, children := ReadLines(P, perm[0]);
    t := Tree(n, root, parent[..], seq(n, v requires 0 <= v < n => Place(perm, n, v)), children[..], input);
    FileTree(p, perm, up, t);
  }

  lemma KidsGrow(P: seq<int>, child: nat)
    requires child < |P|
    ensures forall b: nat :: b < |P| ==>
              |KidsSoFar(P, b, child + 1)| == |KidsSoFar(P, b, child)| + if P[child] == b != child then 1 else 0
  {
    forall b: nat | b < |P|
      ensures |KidsSoFar(P, b, child + 1)| == |KidsSoFar(P, b, child)| + if P[child] == b != child then 1 else 0
    {
      assert KidsSoFar(P, b, child + 1) == KidsSoFar(P, b, child) + if P[child] == b != child then {child} else {};
    }
  }

  lemma FileTree(P: seq<int>, perm: seq<int>, up: seq<nat>, t: Tree)
    requires t.n >= 1 && |P| == |t.parent| == |t.depth| == |t.children| == |t.input| == t.n
    requires Permutation(perm, t.n) && Hangs(P, perm, up, t.n) && t.root == perm[0]
    requires forall v :: 0 <= v < t.n ==> t.parent[v] == if P[v] != v then P[v] else -1
    requires forall v :: 0 <= v < t.n ==> t.depth[v] == Place(perm, t.n, v)
    requires forall b: nat :: b < t.n ==> t.children[b] == |KidsSoFar(P, b, t.n)|
    ensures t.Valid()
  {
    ParentsBefore(P, perm, up, t.n);
    forall b: nat | b < t.n
      ensures t.children[b] == |t.Kids(b)|
    {
      assert t.Kids(b) == KidsSoFar(P, b, t.n);
    }
  }

  /** PERM[0] alone is its own parent; every other node's parent has a smaller place. */
  lemma ParentsBefore(P: seq<int>, perm: seq<int>, up: seq<nat>, n: nat)
    requires n >= 1 && |P| == n && Permutation(perm, n) && Hangs(P, perm, up, n)
    ensures forall v: nat :: v < n ==> 0 <= P[v] < n && (P[v] == v <==> v == perm[0])
    ensures forall v: nat :: v < n && v != perm[0] ==> Place(perm, n, P[v]) < Place(perm, n, v)
  {
    forall v: nat | v < n
      ensures 0 <= P[v] < n && (P[v] == v <==> v == perm[0])
      ensures v != perm[0] ==> Place(perm, n, P[v]) < Place(perm, n, v)
    {
      var c := Place(perm, n, v);
      var p := up[c];
      assert P[perm[c]] == perm[p];
      assert Place(perm, n, P[v]) == p;
    }
  }

  /** The nodes below m that the file hangs below b. */
  ghost function KidsSoFar(P: seq<int>, b: nat, m: nat): set<nat>
    requires m <= |P|
  {
    set c: nat | c in Below(m) && P[c] == b && c != b
  }

  /** Following parents from any node reaches PERM[0]. */
  lemma {:induction false} ReachesRoot(t: Tree, v: nat) returns (up: seq<nat>)
    requires t.Valid() && v < t.n
    ensures |up| > 0 && up[0] == v && up[|up| - 1] == t.root
    ensures forall k :: 0 <= k < |up| ==> up[k] < t.n
    ensures forall k :: 0 <= k < |up| - 1 ==> t.parent[up[k]] == up[k + 1]
    decreases t.depth[v]
  {
    if v == t.root {
      up := [v];
    } else {
      var rest := ReachesRoot(t, t.parent[v]);
      up := [v] + rest;
    }
  }

  // ---------------------------------------------------------------- what rand() decides

  /** The children hung below the parents before place p, and those hung below p. */
  ghost function Earlier(up: seq<nat>, p: nat): set<nat> {
    set c: nat | c in Below(|up|) && 1 <= c && up[c] < p
  }

  ghost function Own(up: seq<nat>, p: nat): set<nat> {
    set c: nat | c in Below(|up|) && 1 <= c && up[c] == p
  }

  ghost function Interval(lo: nat, hi: nat): set<nat> {
    set c: nat | c in Below(hi) && lo <= c
  }

  lemma {:induction false} IntervalCount(lo: nat, hi: nat)
    requires lo <= hi
    ensures |Interval(lo, hi)| == hi - lo
  {
    if lo == hi {
      assert Interval(lo, hi) == {};
    } else {
      IntervalCount(lo, hi - 1);
      assert Interval(lo, hi) == Interval(lo, hi - 1) + {hi - 1};
    }
  }

  lemma FilledCounts(n: nat, rand: nat -> nat, p: nat)
    requires n >= 1 && p <= n
    ensures |Earlier(Filled(n, rand, n), p)| == |Filled(n, rand, p)| - 1
    ensures p < n ==> |Own(Filled(n, rand, n), p)| == |Filled(n, rand, p + 1)| - |Filled(n, rand, p)|
  {
    hide Filled;
    var up := Filled(n, rand, n);
    FilledGrows(n, rand, p, n);
    IntervalCount(1, |Filled(n, rand, p)|);
    assert Earlier(up, p) == Interval(1, |Filled(n, rand, p)|);
    if p < n {
      OwnCount(n, rand, p);
    }
  }

  lemma OwnCount(n: nat, rand: nat -> nat, p: nat)
    requires n >= 1 && p < n
    ensures |Own(Filled(n, rand, n), p)| == |Filled(n, rand, p + 1)| - |Filled(n, rand, p)|
  {
    hide Filled;
    var up := Filled(n, rand, n);
    FilledGrows(n, rand, p, n);
    FilledGrows(n, rand, p, p + 1);
    FilledGrows(n, rand, p + 1, n);
    var lo, hi := |Filled(n, rand, p)|, |Filled(n, rand, p + 1)|;
    IntervalCount(lo, hi);
    assert Own(up, p) == Interval(lo, hi);
  }

  lemma AllPlaced(n: nat, rand: nat -> nat)
    requires n >= 1
    ensures |Filled(n, rand, n)| == n
  {
  }

  /** How many children the parent at place p gets: with m the nodes left after the children of the places
      before, capped at 5, it is rand(p) % m, and one more exactly when p is the last node placed. */
  lemma ChildrenPerParent(n: nat, rand: nat -> nat, p: nat)
    requires n >= 1 && p < n
    ensures var up := Filled(n, rand, n); var left := n - 1 - |Earlier(up, p)|;
            && left >= 0
            && |Own(up, p)| == if left == 0 then 0
                               else rand(p) % (if left > 5 then 5 else left)
                                    + if |Earlier(up, p)| == p then 1 else 0
  {
    FilledCounts(n, rand, p);
  }

  /** The shapes that rand() can give: a parent whose turn comes gets at most five children and at most what
      is left, one of these short unless it is the last node placed, when it gets at least one. */
  ghost predicate TreeShape(n: nat, up: seq<nat>) {
    && 1 <= |up| == n && up[0] == 0
    && (forall c, d :: 1 <= c < d < n ==> up[c] <= up[d])
    && (forall c :: 1 <= c < n ==> up[c] < c)
    && forall p: nat :: p < n && |Earlier(up, p)| < n - 1 ==> TurnOk(n, up, p)
  }

  ghost predicate TurnOk(n: nat, up: seq<nat>, p: nat) {
    var left, kids := n - 1 - |Earlier(up, p)|, |Own(up, p)|;
    if |Earlier(up, p)| == p then 1 <= kids <= 5 && kids <= left else kids < 5 && kids < left
  }

  /** What rand() has to return for a shape to come out. */
  ghost function Drawn(up: seq<nat>): nat -> nat {
    p => if |Earlier(up, p)| == p && |Own(up, p)| >= 1 then |Own(up, p)| - 1 else |Own(up, p)|
  }

  /** A set of numbers from 1 on without gaps. */
  lemma {:induction false} NoGaps(s: set<nat>, n: nat)
    requires n >= 1 && forall c :: c in s ==> 1 <= c < n && forall b: nat :: 1 <= b < c ==> b in s
    ensures s == Interval(1, |s| + 1) && |s| < n
  {
    if n - 1 in s {
      IntervalCount(1, n);
      assert s == Interval(1, n);
    } else if n > 1 {
      NoGaps(s, n - 1);
    } else {
      assert s == {};
    }
  }

  lemma EarlierFirst(n: nat, up: seq<nat>, p: nat)
    requires TreeShape(n, up)
    ensures Earlier(up, p) == Interval(1, |Earlier(up, p)| + 1) && |Earlier(up, p)| < n
  {
    hide TurnOk;
    NoGaps(Earlier(up, p), n);
  }

  lemma NextEarlier(up: seq<nat>, p: nat)
    ensures |Earlier(up, p + 1)| == |Earlier(up, p)| + |Own(up, p)|
    ensures Earlier(up, p + 1) == Earlier(up, p) + Own(up, p)
  {
    assert Earlier(up, p + 1) == Earlier(up, p) + Own(up, p);
    assert Earlier(up, p) !! Own(up, p);
  }

  /** The turn of parent p, drawn so, gives it the children that the shape wants. */
  lemma TurnAsWanted(n: nat, up: seq<nat>, p: nat)
    requires TreeShape(n, up) && p < n && |Earlier(up, p)| < n - 1
    ensures Turn(Drawn(up)(p), n - 1 - |Earlier(up, p)|, |Earlier(up, p)| == p) == |Own(up, p)|
  {
    assert TurnOk(n, up, p);
    var left := n - 1 - |Earlier(up, p)|;
    var most := if left > 5 then 5 else left;
    assert Drawn(up)(p) < most;
    RemainderBelow(Drawn(up)(p), most);
  }

  lemma OwnPlaces(n: nat, up: seq<nat>, p: nat, c: nat)
    requires TreeShape(n, up) && p < n && |Earlier(up, p)| < c <= |Earlier(up, p + 1)|
    ensures c < n && up[c] == p
  {
    EarlierFirst(n, up, p);
    EarlierFirst(n, up, p + 1);
    assert c in Interval(1, |Earlier(up, p + 1)| + 1) && c !in Interval(1, |Earlier(up, p)| + 1);
    hide TurnOk, Own;
  }

  /** The children of place p stand together, after those of the places before. */
  lemma OwnBlock(n: nat, up: seq<nat>, p: nat)
    requires TreeShape(n, up) && p < n
    ensures var e, k := |Earlier(up, p)|, |Own(up, p)|;
            && |Earlier(up, p + 1)| == e + k && e + k + 1 <= n == |up|
            && up[..e + k + 1] == up[..e + 1] + seq(k, _ => p)
  {
    hide Earlier, Own, TurnOk;
    EarlierFirst(n, up, p + 1);
    NextEarlier(up, p);
    var e, k := |Earlier(up, p)|, |Own(up, p)|;
    forall c | e < c <= e + k
      ensures up[c] == p
    {
      OwnPlaces(n, up, p, c);
    }
  }

  lemma RebuiltTurn(n: nat, up: seq<nat>, p: nat)
    requires TreeShape(n, up) && p < n && |Earlier(up, p)| < n
    requires Filled(n, Drawn(up), p) == up[..|Earlier(up, p)| + 1]
    ensures |Earlier(up, p + 1)| < n && Filled(n, Drawn(up), p + 1) == up[..|Earlier(up, p + 1)| + 1]
  {
    hide Earlier, Own, Drawn, TurnOk, Filled, Turn;
    var e, k, u := |Earlier(up, p)|, |Own(up, p)|, Filled(n, Drawn(up), p);
    OwnBlock(n, up, p);
    assert |u| == e + 1;
    if e < n - 1 {
      TurnAsWanted(n, up, p);
      FilledStep(n, Drawn(up), p);
      assert Turn(Drawn(up)(p), n - |u|, |u| == p + 1) == k;
    } else {
      FilledGrows(n, Drawn(up), p, p + 1);
    }
  }

  lemma RebuiltStart(n: nat, up: seq<nat>)
    requires TreeShape(n, up)
    ensures |Earlier(up, 0)| == 0 && Filled(n, Drawn(up), 0) == up[..1]
  {
    hide TurnOk;
    assert Earlier(up, 0) == {};
  }

  lemma {:induction false} Rebuilt(n: nat, up: seq<nat>, p: nat)
    requires TreeShape(n, up) && p <= n
    ensures |Earlier(up, p)| < n == |up| && Filled(n, Drawn(up), p) == up[..|Earlier(up, p)| + 1]
  {
    hide TurnOk, Filled, Earlier, Drawn;
    if p == 0 {
      RebuiltStart(n, up);
    } else {
      Rebuilt(n, up, p - 1);
      RebuiltTurn(n, up, p - 1);
    }
  }

  lemma OutcomesHaveShape(n: nat, rand: nat -> nat)
    requires n >= 1
    ensures TreeShape(n, Filled(n, rand, n))
  {
    var up := Filled(n, rand, n);
    AllPlaced(n, rand);
    forall p: nat | p < n && |Earlier(up, p)| < n - 1
      ensures TurnOk(n, up, p)
    {
      hide Filled, Earlier, Own;
      ChildrenPerParent(n, rand, p);
    }
  }

  /** The shapes that come out are exactly these. */
  lemma ShapesThatComeOut(n: nat, up: seq<nat>)
    requires n >= 1
    ensures (exists rand: nat -> nat :: Filled(n, rand, n) == up) <==> TreeShape(n, up)
  {
    if rand: nat -> nat :| Filled(n, rand, n) == up {
      OutcomesHaveShape(n, rand);
    }
    if TreeShape(n, up) {
      Rebuilt(n, up, n);
      IntervalCount(1, n);
      assert Earlier(up, n) == Interval(1, n);
      assert up[..n] == up;
    }
  }
}
