/** event.c: a binary heap of events in an array, ordered by time and then by class of visitor. */
module EventHeap {

  datatype Event = Event(kind: char, time: int, duration: int)

  /** The comparator, test by test. */
  function EventCmp(e1: Event, e2: Event): int {
    if e1.time < e2.time then -1
    else if e1.time > e2.time then 1
    else if e1.kind == 'R' then -1
    else if e2.kind == 'R' then 1
    else if e1.kind == 'P' then -1
    else if e2.kind == 'P' then 1
    else if e1.kind == 'S' then -1
    else if e2.kind == 'S' then 1
    else 0
  }

  function Rank(kind: char): nat {
    if kind == 'R' then 0 else if kind == 'P' then 1 else if kind == 'S' then 2 else 3
  }

  /** The order the queue keeps: a total preorder. */
  predicate Le(a: Event, b: Event) {
    a.time < b.time || (a.time == b.time && Rank(a.kind) <= Rank(b.kind))
  }

  /** The comparator decides the order, except that a tie of two visitors answers -1 both ways. */
  lemma CmpDecidesOrder(a: Event, b: Event)
    ensures EventCmp(a, b) < 0 <==> !Le(b, a) || (Le(a, b) && Rank(a.kind) < 3)
    ensures EventCmp(a, b) > 0 <==> !Le(a, b)
    ensures EventCmp(a, b) < 0 && EventCmp(b, a) < 0 <==> Le(a, b) && Le(b, a) && Rank(a.kind) < 3
  {
  }

  /** The order, letter by letter: at one time reporters before patients before sales representatives
      before the doctor. */
  lemma ClassOrder(a: Event, b: Event)
    requires a.kind in "RPSD" && b.kind in "RPSD"
    ensures Le(a, b) <==>
            || a.time < b.time
            || (a.time == b.time &&
                (|| a.kind == 'R'
                 || (a.kind == 'P' && b.kind != 'R')
                 || (a.kind == 'S' && (b.kind == 'S' || b.kind == 'D'))
                 || (a.kind == 'D' && b.kind == 'D')))
    ensures EventCmp(a, b) < 0 <==>
            || a.time < b.time
            || (a.time == b.time &&
                (|| a.kind == 'R'
                 || (a.kind == 'P' && b.kind != 'R')
                 || (a.kind == 'S' && (b.kind == 'S' || b.kind == 'D'))))
  {
  }

  ghost function Bag(s: seq<Event>): multiset<Event> {
    multiset(s)
  }

  lemma SwapKeepsContents(s: seq<Event>, i: nat, j: nat)
    requires i < |s| && j < |s|
    ensures Bag(s[i := s[j]][j := s[i]]) == Bag(s)
  {
    if i == j {
      assert s[i := s[j]][j := s[i]] == s;
    }
  }

  /** Node i is not after its children. */
  ghost predicate Ordered(q: seq<Event>, i: int)
    requires 0 <= i < |q|
  {
    (2 * i + 1 < |q| ==> Le(q[i], q[2 * i + 1])) && (2 * i + 2 < |q| ==> Le(q[i], q[2 * i + 2]))
  }

  ghost predicate HeapFrom(q: seq<Event>, lo: int)
    requires 0 <= lo
  {
    forall i :: lo <= i < |q| ==> Ordered(q, i)
  }

  /** Ordered everywhere from lo on but at the hole i, whose parent is not after i's children. */
  ghost predicate HoleBelow(q: seq<Event>, lo: int, i: int) {
    && 0 <= lo <= i < |q|
    && (forall k :: lo <= k < |q| && k != i ==> Ordered(q, k))
    && (i > 0 && (i - 1) / 2 >= lo ==>
          && (2 * i + 1 < |q| ==> Le(q[(i - 1) / 2], q[2 * i + 1]))
          && (2 * i + 2 < |q| ==> Le(q[(i - 1) / 2], q[2 * i + 2])))
  }

  /** Ordered everywhere but at the parent of i, which may be after i and is not after i's children. */
  ghost predicate HoleAbove(q: seq<Event>, i: int) {
    && 0 <= i < |q|
    && (forall k :: 0 <= k < |q| && (i == 0 || k != (i - 1) / 2) ==> Ordered(q, k))
    && (i > 0 ==>
          && var p := (i - 1) / 2;
          && (2 * p + 1 < |q| && 2 * p + 1 != i ==> Le(q[p], q[2 * p + 1]))
          && (2 * p + 2 < |q| && 2 * p + 2 != i ==> Le(q[p], q[2 * p + 2]))
          && (2 * i + 1 < |q| ==> Le(q[p], q[2 * i + 1]))
          && (2 * i + 2 < |q| ==> Le(q[p], q[2 * i + 2])))
  }

  lemma SwapDown(q: seq<Event>, lo: int, i: int, m: int)
    requires HoleBelow(q, lo, i) && m < |q| && (m == 2 * i + 1 || m == 2 * i + 2)
    requires 2 * i + 1 < |q| ==> Le(q[m], q[2 * i + 1])
    requires 2 * i + 2 < |q| ==> Le(q[m], q[2 * i + 2])
    requires Le(q[m], q[i])
    ensures HoleBelow(q[i := q[m]][m := q[i]], lo, m)
  {
    var r := q[i := q[m]][m := q[i]];
    assert Ordered(q, m);
    forall k | lo <= k < |q| && k != m
      ensures Ordered(r, k)
    {
      assert k != i ==> Ordered(q, k);
    }
  }

  lemma SwapUp(q: seq<Event>, i: int)
    requires HoleAbove(q, i) && i > 0 && Le(q[i], q[(i - 1) / 2])
    ensures HoleAbove(q[i := q[(i - 1) / 2]][(i - 1) / 2 := q[i]], (i - 1) / 2)
  {
    var p := (i - 1) / 2;
    var r := q[i := q[p]][p := q[i]];
    assert Ordered(q, i);
    forall k | 0 <= k < |q| && (p == 0 || k != (p - 1) / 2)
      ensures Ordered(r, k)
    {
      assert k != p ==> Ordered(q, k);
    }
    if p > 0 {
      assert Ordered(q, (p - 1) / 2);
    }
  }

  /** The hole closes when i is not after its smaller child. */
  lemma HoleCloses(q: seq<Event>, lo: int, i: int, m: int)
    requires HoleBelow(q, lo, i)
    requires 2 * i + 1 < |q| ==> 0 <= m < |q| && Le(q[i], q[m]) && Le(q[m], q[2 * i + 1])
    requires 2 * i + 2 < |q| ==> Le(q[m], q[2 * i + 2])
    ensures HeapFrom(q, lo)
  {
  }

  /** The child that both sift-down loops pick is not after the other, on ties too. */
  lemma SmallerChild(q: seq<Event>, l: nat, m: nat)
    requires l < |q| && m == if l + 1 == |q| || EventCmp(q[l], q[l + 1]) < 0 then l else l + 1
    ensures m < |q| && Le(q[m], q[l]) && (l + 1 < |q| ==> Le(q[m], q[l + 1]))
  {
  }

  lemma AppendHole(q: seq<Event>, e: Event)
    requires HeapFrom(q, 0)
    ensures HoleAbove(q + [e], |q|) && Bag(q + [e]) == Bag(q) + multiset{e}
  {
    var r := q + [e];
    forall k | 0 <= k < |r| && (|q| == 0 || k != (|q| - 1) / 2)
      ensures Ordered(r, k)
    {
      if k < |q| {
        assert Ordered(q, k);
      }
    }
    if |q| > 0 {
      assert Ordered(q, (|q| - 1) / 2);
    }
  }

  lemma HoleAboveCloses(q: seq<Event>, i: int)
    requires HoleAbove(q, i) && (i > 0 ==> Le(q[(i - 1) / 2], q[i]))
    ensures HeapFrom(q, 0)
  {
    forall k | 0 <= k < |q|
      ensures Ordered(q, k)
    {
    }
  }

  lemma {:induction false} RootIsMinimum(q: seq<Event>, k: nat)
    requires HeapFrom(q, 0) && k < |q|
    ensures Le(q[0], q[k])
  {
    if k > 0 {
      var p := (k - 1) / 2;
      RootIsMinimum(q, p);
      assert Ordered(q, p);
    }
  }

  ghost predicate Sorted(s: seq<Event>) {
    forall i, j :: 0 <= i < j < |s| ==> Le(s[i], s[j])
  }

  /** Nothing taken is after anything left. */
  ghost predicate NotAfter(taken: seq<Event>, left: multiset<Event>) {
    forall i, x :: 0 <= i < |taken| && x in left ==> Le(taken[i], x)
  }

  lemma NothingTaken(left: multiset<Event>)
    ensures Sorted([]) && NotAfter([], left)
  {
  }

  lemma TakeNext(taken: seq<Event>, left: multiset<Event>, e: Event)
    requires Sorted(taken) && NotAfter(taken, left) && e in left && forall x :: x in left ==> Le(e, x)
    ensures Sorted(taken + [e]) && NotAfter(taken + [e], left - multiset{e})
    ensures multiset(taken + [e]) + (left - multiset{e}) == multiset(taken) + left
  {
  }

  class EventQueue {
    var n: nat
    const Q: array<Event>

    ghost predicate Valid()
      reads this, Q
    {
      n <= Q.Length && HeapFrom(Q[..n], 0)
    }

    ghost function Contents(): multiset<Event>
      reads this, Q
      requires n <= Q.Length
    {
      Bag(Q[..n])
    }

    /** initEQ: the events as read from the file, heaped from the last inner node to the root. */
    constructor (events: seq<Event>)
      requires |events| <= 128
      ensures Valid() && fresh(Q) && Q.Length == 128
      ensures Contents() == multiset(events)
    {
      n := |events|;
      Q := new Event[128](i => if 0 <= i < |events| then events[i] else Event('E', 0, 0));
      new;
      assert Q[..n] == events;
      var j := n / 2 - 1;
      while j >= 0
        invariant -1 <= j && j < n && n == |events| <= Q.Length
        invariant HeapFrom(Q[..n], j + 1)
        invariant Bag(Q[..n]) == Bag(events)
      {
        SiftDown(j);
        j := j - 1;
      }
    }

    /** The sift-down loop of initEQ and delevent. */
    method SiftDown(lo: nat)
      requires lo < n <= Q.Length && HeapFrom(Q[..n], lo + 1)
      modifies Q
      ensures HeapFrom(Q[..n], lo) && Bag(Q[..n]) == old(Bag(Q[..n]))
    {
      var i := lo;
      assert HoleBelow(Q[..n], lo, lo);
      hide HeapFrom, HoleBelow, Ordered, Le, EventCmp, Bag;
      while true
        invariant lo <= i < n && HoleBelow(Q[..n], lo, i)
        invariant Bag(Q[..n]) == old(Bag(Q[..n]))
        decreases n - i
      {
        var l, r := 2 * i + 1, 2 * i + 2;
        ghost var q := Q[..n];
        if l >= n {
          HoleCloses(q, lo, i, i);
          break;
        }
        var m := if r == n || EventCmp(Q[l], Q[r]) < 0 then l else r;
        SmallerChild(q, l, m);
        CmpDecidesOrder(Q[i], Q[m]);
        if EventCmp(Q[i], Q[m]) < 0 {
          HoleCloses(q, lo, i, m);
          break;
        }
        SwapDown(q, lo, i, m);
        SwapKeepsContents(q, i, m);
        Q[i], Q[m] := Q[m], Q[i];
        assert Q[..n] == q[i := q[m]][m := q[i]];
        i := m;
      }
    }

    method AddEvent(e: Event)
      requires Valid() && n < Q.Length
      modifies this, Q
      ensures Valid() && n == old(n) + 1
      ensures Contents() == old(Contents()) + multiset{e}
    {
      hide HeapFrom, HoleAbove, Bag;
      ghost var q := Q[..n];
      AppendHole(q, e);
      Q[n] := e;
      assert Q[..n + 1] == q + [e];
      SiftUp(n, n + 1);
      n := n + 1;
    }

    /** The sift-up loop of addevent, over the first m cells. */
    method SiftUp(start: nat, ghost m: nat)
      requires start < m <= Q.Length && HoleAbove(Q[..m], start)
      modifies Q
      ensures HeapFrom(Q[..m], 0) && Bag(Q[..m]) == old(Bag(Q[..m]))
    {
      hide HeapFrom, HoleAbove, Ordered, Le, EventCmp, Bag;
      var i := start;
      while i != 0
        invariant 0 <= i < m && HoleAbove(Q[..m], i)
        invariant Bag(Q[..m]) == old(Bag(Q[..m]))
      {
        var p := (i - 1) / 2;
        ghost var q := Q[..m];
        CmpDecidesOrder(Q[p], Q[i]);
        if EventCmp(Q[p], Q[i]) < 0 {
          break;
        }
        SwapUp(q, i);
        SwapKeepsContents(q, i, p);
        Q[i], Q[p] := Q[p], Q[i];
        assert Q[..m] == q[i := q[p]][p := q[i]];
        i := p;
      }
      HoleAboveCloses(Q[..m], i);
    }

    method DelEvent()
      requires Valid()
      modifies this, Q
      ensures Valid()
      ensures old(n) == 0 ==> n == 0
      ensures old(n) > 0 ==> n == old(n) - 1 && Contents() == old(Contents()) - multiset{old(Q[0])}
    {
      if n > 0 {
        ghost var q := Q[..n];
        Q[0] := Q[n - 1];
        n := n - 1;
        assert Q[..n] == (if n > 0 then q[0 := q[n]][..n] else []);
        LastMoved(q);
        if n > 0 {
          forall k | 1 <= k < n
            ensures Ordered(Q[..n], k)
          {
            assert Ordered(q, k);
          }
          SiftDown(0);
        }
      }
    }

    /** nextevent: a minimum of the queue, or the marker (E, 0, 0) when it is empty. */
    method NextEvent() returns (e: Event)
      requires Valid()
      ensures n == 0 ==> e == Event('E', 0, 0)
      ensures n > 0 ==> e == Q[0] && e in Contents() && forall x :: x in Contents() ==> Le(e, x)
    {
      if n == 0 {
        return Event('E', 0, 0);
      }
      forall k | 0 <= k < n
        ensures Le(Q[0], Q[..n][k])
      {
        RootIsMinimum(Q[..n], k);
      }
      return Q[0];
    }

    /** Taking the next event until none is left gives the events in order, each once. */
    method Drain() returns (out: seq<Event>)
      requires Valid()
      modifies this, Q
      ensures n == 0 && multiset(out) == old(Contents())
      ensures Sorted(out)
    {
      hide HeapFrom, Le, Sorted, NotAfter;
      out := [];
      NothingTaken(Contents());
      while n != 0
        invariant Valid() && multiset(out) + Contents() == old(Contents())
        invariant Sorted(out) && NotAfter(out, Contents())
        decreases n
      {
        var e := NextEvent();
        TakeNext(out, Contents(), e);
        DelEvent();
        out := out + [e];
      }
    }

    lemma EmptyContents()
      requires n <= Q.Length
      ensures Contents() == multiset{} <==> n == 0
    {
      assert |Contents()| == n;
    }

    method EmptyQ() returns (empty: bool)
      requires Valid()
      ensures empty <==> Contents() == multiset{}
    {
      EmptyContents();
      empty := n == 0;
    }
  }

  lemma LastMoved(q: seq<Event>)
    requires |q| > 0
    ensures Bag(q) - multiset{q[0]} == Bag(if |q| == 1 then [] else q[0 := q[|q| - 1]][..|q| - 1])
  {
    var m := |q| - 1;
    if m > 0 {
      assert q == [q[0]] + q[1..m] + [q[m]];
      assert q[0 := q[m]][..m] == [q[m]] + q[1..m];
    } else {
      assert q == [q[0]];
    }
  }
}
