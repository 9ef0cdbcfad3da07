/** The synchroniser itself: a recursion over both trees that changes the destination step by step. */
module SyncTool {
  import opened Counting
  import opened SyncSpec

  // ---------------------------------------------------------------- one readdir loop, in pure terms

  /** Of the entries below p, those whose first name is in `seen` are synced, the others untouched. */
  ghost predicate Visited(src: Tree, was: Tree, now: Tree, p: Path, seen: set<string>) {
    forall q :: p < q ==> if q[|p|] in seen then SyncedAt(src, was, now, q) else SameAt(was, now, q)
  }

  ghost predicate Reported(src: Tree, was: Tree, p: Path, seen: set<string>, log: seq<Report>) {
    forall r :: multiset(log)[r] == if p < r.path && r.path[|p|] in seen && Due(src, was, r) then 1 else 0
  }

  ghost predicate Outside(was: Tree, now: Tree, p: Path) {
    forall q :: !(p <= q) ==> SameAt(was, now, q)
  }

  ghost predicate SyncedUnder(src: Tree, was: Tree, now: Tree, p: Path) {
    forall q :: p <= q ==> SyncedAt(src, was, now, q)
  }

  ghost predicate ClashesStay(src: Tree, was: Tree, now: Tree) {
    forall q :: ClashAt(src, was, q) ==> ClashAt(src, now, q)
  }

  lemma AtOrBelow(p: Path, q: Path)
    ensures p <= q <==> p == q || p < q
  {
    if p <= q && |p| == |q| {
      assert p == q;
    }
  }

  lemma ChildPrefix(p: Path, x: string, q: Path)
    ensures p + [x] <= q <==> p < q && q[|p|] == x
  {
    if p < q && q[|p|] == x {
      assert q[..|p|] == p;
    }
  }

  /** Every prefix of p that the source has is a directory there: no clash at p or above. */
  ghost predicate DirsTo(src: Tree, p: Path) {
    forall c :: c <= p && c in src ==> src[c].Dir?
  }

  lemma ParentDirs(src: Tree, p: Path)
    requires WellFormed(src) && p in src && src[p].Dir?
    ensures DirsTo(src, p)
  {
    forall c | c <= p && c in src
      ensures src[c].Dir?
    {
      AtOrBelow(c, p);
      if c < p {
        AncestorExists(src, c, p);
      }
    }
  }

  lemma NotKeptAt(src: Tree, was: Tree, p: Path)
    requires DirsTo(src, p)
    ensures !Kept(src, was, p)
  {
    assert forall i :: 0 <= i <= |p| ==> p[..i] <= p;
  }

  /** At and below a path whose parent is a source directory nothing is kept, if the source has no file
      at the path or the destination no directory. */
  lemma NothingKept(src: Tree, was: Tree, p: Path)
    requires WellFormed(src) && |p| > 0 && Placed(src, p)
    requires p !in src || (src[p].File? && !ClashAt(src, was, p))
    ensures forall q :: p <= q ==> !Kept(src, was, q)
  {
    var parent := p[..|p| - 1];
    ParentDirs(src, parent);
    LeafHasNothingBelow(src, p);
    forall q, i | p <= q && 0 <= i <= |q|
      ensures !ClashAt(src, was, q[..i])
    {
      if i < |p| {
        assert q[..i] == parent[..i] <= parent;
      } else {
        assert p <= q[..i];
        AtOrBelow(p, q[..i]);
      }
    }
  }

  /** Below p, visited or not, a path is at or below a clash afterwards exactly when it was before. */
  lemma KeptBelow(src: Tree, was: Tree, mid: Tree, p: Path, seen: set<string>, q: Path)
    requires DirsTo(src, p) && Visited(src, was, mid, p, seen) && p < q
    ensures Kept(src, was, q) <==> Kept(src, mid, q)
  {
    forall i | 0 <= i <= |q|
      ensures ClashAt(src, was, q[..i]) <==> ClashAt(src, mid, q[..i])
    {
      var c := q[..i];
      if i <= |p| {
        assert c <= p;
      } else {
        assert p < c && (SyncedAt(src, was, mid, c) || SameAt(was, mid, c));
        ClashesSame(src, was, mid, c);
      }
    }
    KeptSame(src, was, mid, q);
  }

  /** Syncing a synced path again changes nothing and owes nothing. */
  lemma SecondVisit(src: Tree, was: Tree, mid: Tree, now: Tree, q: Path)
    requires SyncedAt(src, was, mid, q) && SyncedAt(src, mid, now, q)
    requires Kept(src, was, q) <==> Kept(src, mid, q)
    ensures SyncedAt(src, was, now, q)
    ensures forall r: Report :: r.path == q ==> !Due(src, mid, r)
  {
    hide Kept;
  }

  lemma NothingVisited(src: Tree, was: Tree, p: Path)
    ensures Visited(src, was, was, p, {}) && Reported(src, was, p, {}, []) && InOrder([]) && Outside(was, was, p)
  {
  }

  /** A turn of a readdir loop, whether or not the name was visited before. */
  lemma VisitName(src: Tree, was: Tree, mid: Tree, now: Tree, p: Path, seen: set<string>, x: string)
    requires DirsTo(src, p) && Visited(src, was, mid, p, seen)
    requires SyncedUnder(src, mid, now, p + [x]) && Outside(mid, now, p + [x])
    ensures Visited(src, was, now, p, seen + {x})
  {
    hide Kept, DirsTo;
    forall q | p < q
      ensures if q[|p|] in seen + {x} then SyncedAt(src, was, now, q) else SameAt(was, now, q)
    {
      ChildPrefix(p, x, q);
      KeptBelow(src, was, mid, p, seen, q);
      if q[|p|] == x {
        assert SyncedAt(src, mid, now, q);
        if x in seen {
          SecondVisit(src, was, mid, now, q);
        }
      } else {
        assert SameAt(mid, now, q);
      }
    }
  }

  lemma VisitReports(src: Tree, was: Tree, mid: Tree, p: Path, seen: set<string>, x: string,
                     log: seq<Report>, more: seq<Report>)
    requires DirsTo(src, p) && Visited(src, was, mid, p, seen)
    requires Reported(src, was, p, seen, log) && Exact(src, mid, p + [x], more)
    ensures Reported(src, was, p, seen + {x}, log + more)
  {
    hide Kept, DirsTo;
    forall r: Report
      ensures multiset(log + more)[r]
           == if p < r.path && r.path[|p|] in seen + {x} && Due(src, was, r) then 1 else 0
    {
      ChildPrefix(p, x, r.path);
      assert multiset(log + more)[r] == multiset(log)[r] + multiset(more)[r];
      if p + [x] <= r.path {
        KeptBelow(src, was, mid, p, seen, r.path);
        if x in seen {
          assert SyncedAt(src, was, mid, r.path);
        } else {
          assert SameAt(was, mid, r.path);
        }
      }
    }
  }

  lemma VisitOrder(src: Tree, was: Tree, mid: Tree, p: Path, seen: set<string>, x: string,
                   log: seq<Report>, more: seq<Report>)
    requires DirsTo(src, p) && Visited(src, was, mid, p, seen)
    requires Reported(src, was, p, seen, log) && Exact(src, mid, p + [x], more)
    requires InOrder(log) && InOrder(more)
    ensures InOrder(log + more)
  {
    hide Kept, DirsTo;
    forall a, b | a in log && b in more
      ensures !Late(a, b)
    {
      assert multiset(log)[a] > 0 && multiset(more)[b] > 0;
      ChildPrefix(p, x, a.path);
      ChildPrefix(p, x, b.path);
      if x in seen {
        KeptBelow(src, was, mid, p, seen, b.path);
        assert SyncedAt(src, was, mid, b.path);
      }
    }
    InOrderConcat(log, more);
  }

  lemma VisitStep(src: Tree, was: Tree, mid: Tree, now: Tree, p: Path, seen: set<string>, x: string,
                  log: seq<Report>, more: seq<Report>)
    requires DirsTo(src, p)
    requires Visited(src, was, mid, p, seen) && Reported(src, was, p, seen, log) && InOrder(log)
    requires SyncedUnder(src, mid, now, p + [x]) && Outside(mid, now, p + [x])
    requires Exact(src, mid, p + [x], more) && InOrder(more)
    ensures Visited(src, was, now, p, seen + {x})
    ensures Reported(src, was, p, seen + {x}, log + more) && InOrder(log + more)
  {
    VisitName(src, was, mid, now, p, seen, x);
    VisitReports(src, was, mid, p, seen, x, log, more);
    VisitOrder(src, was, mid, p, seen, x, log, more);
  }

  /** A name still to be visited is as it was, with less below it than below p. */
  lemma NotYetVisited(src: Tree, was: Tree, now: Tree, p: Path, seen: set<string>, x: string)
    requires Visited(src, was, now, p, seen) && x in Names(was, p) && x !in seen && p in was
    ensures p + [x] in now && Under(now, p + [x]) < Under(was, p)
  {
    NameIsChild(was, p, x);
    var c := p + [x];
    forall q | c <= q
      ensures p < q && SameAt(was, now, q)
    {
      ChildPrefix(p, x, q);
    }
    assert SameAt(was, now, c);
    assert p in Under(was, p) && p !in Under(now, c);
    assert forall q :: q in Under(now, c) ==> q in Under(was, p);
  }

  lemma ChildSmaller(m: Tree, p: Path, x: string)
    requires p in m
    ensures Under(m, p + [x]) < Under(m, p)
  {
    forall q | q in Under(m, p + [x])
      ensures q in Under(m, p)
    {
      ChildPrefix(p, x, q);
    }
    assert p in Under(m, p) && p !in Under(m, p + [x]);
  }

  /** When every name of either tree has been visited, everything below p is synced. */
  lemma AllVisited(src: Tree, was: Tree, now: Tree, p: Path, seen: set<string>)
    requires WellFormed(src) && WellFormed(was)
    requires Visited(src, was, now, p, seen) && Names(src, p) + Names(was, p) <= seen
    ensures forall q :: p < q ==> SyncedAt(src, was, now, q)
    ensures forall q :: p < q && (q in src || q in was) ==> q[|p|] in seen
  {
    forall q | p < q
      ensures SyncedAt(src, was, now, q)
      ensures q in src || q in was ==> q[|p|] in seen
    {
      if q in src {
        NameOnPath(src, p, q);
      } else if q in was {
        NameOnPath(was, p, q);
      } else if q[|p|] !in seen {
        assert SameAt(was, now, q);
      }
    }
  }

  lemma OutsideChild(was: Tree, mid: Tree, now: Tree, p: Path, x: string)
    requires Outside(was, mid, p) && Outside(mid, now, p + [x]) && p in mid
    ensures Outside(was, now, p) && SameAt(mid, now, p)
  {
    forall q | !(p <= q)
      ensures SameAt(was, now, q)
    {
      ChildPrefix(p, x, q);
      assert SameAt(was, mid, q) && SameAt(mid, now, q);
    }
    ChildPrefix(p, x, p);
  }

  lemma OutsideTwice(was: Tree, mid: Tree, now: Tree, p: Path)
    requires Outside(was, mid, p) && Outside(mid, now, p)
    ensures Outside(was, now, p)
  {
    forall q | !(p <= q)
      ensures SameAt(was, now, q)
    {
      assert SameAt(was, mid, q) && SameAt(mid, now, q);
    }
  }

  lemma OutsideKeepsClashes(src: Tree, was: Tree, now: Tree, p: Path)
    requires WellFormed(src) && p !in src && Outside(was, now, p)
    ensures ClashesStay(src, was, now)
  {
    LeafHasNothingBelow(src, p);
    forall q | ClashAt(src, was, q)
      ensures ClashAt(src, now, q)
    {
      AtOrBelow(p, q);
      assert SameAt(was, now, q);
    }
  }

  /** Visiting names makes no clash. */
  lemma NoNewClash(src: Tree, was: Tree, mid: Tree, p: Path, seen: set<string>, x: string)
    requires Visited(src, was, mid, p, seen) && !Clash(src, was, p)
    ensures !Clash(src, mid, p + [x])
  {
    forall q | p + [x] <= q
      ensures !ClashAt(src, mid, q)
    {
      ChildPrefix(p, x, q);
      assert !ClashAt(src, was, q);
      assert SyncedAt(src, was, mid, q) || SameAt(was, mid, q);
    }
  }

  /** The reports for p itself, followed by those of the readdir loops. */
  lemma HeadAndBody(src: Tree, was: Tree, p: Path, seen: set<string>, head: seq<Report>, body: seq<Report>)
    requires p in src && src[p].Dir? && !(p in was && was[p].File?) && DirsTo(src, p)
    requires head == if p in was then [] else [Plus(p), Time(p)]
    requires Reported(src, was, p, seen, body) && InOrder(body)
    requires forall q :: p < q && (q in src || q in was) ==> q[|p|] in seen
    ensures Exact(src, was, p, head + body) && InOrder(head + body)
  {
    NotKeptAt(src, was, p);
    hide Kept, DirsTo;
    forall r: Report
      ensures multiset(head + body)[r] == if p <= r.path && Due(src, was, r) then 1 else 0
    {
      assert multiset(head + body)[r] == multiset(head)[r] + multiset(body)[r];
      assert multiset(head) == if p in was then multiset{} else multiset{Plus(p), Time(p)};
      AtOrBelow(p, r.path);
    }
    forall a, b | a in head && b in body
      ensures !Late(a, b)
    {
      assert multiset(body)[b] > 0;
    }
    InOrderConcat(head, body);
  }

  /** Both loops over: the region under p is synced and its reports are complete. */
  lemma ListingsDone(src: Tree, was: Tree, now: Tree, p: Path, seen: set<string>, body: seq<Report>)
    requires WellFormed(src) && WellFormed(was) && p in src && src[p].Dir? && (p in was ==> was[p].Dir?)
    requires p in now && now[p] == Dir && Names(src, p) + Names(was, p) <= seen
    requires Visited(src, was, now, p, seen) && Reported(src, was, p, seen, body) && InOrder(body)
    ensures SyncedUnder(src, was, now, p)
    ensures var log := (if p in was then [] else [Plus(p), Time(p)]) + body; Exact(src, was, p, log) && InOrder(log)
  {
    ParentDirs(src, p);
    NotKeptAt(src, was, p);
    hide Kept, DirsTo;
    AllVisited(src, was, now, p, seen);
    forall q | p <= q
      ensures SyncedAt(src, was, now, q)
    {
      AtOrBelow(p, q);
    }
    HeadAndBody(src, was, p, seen, if p in was then [] else [Plus(p), Time(p)], body);
  }

  /** Opening a directory where there is one, or making one where there is nothing. */
  lemma DirectoryMade(src: Tree, was: Tree, p: Path)
    ensures Outside(was, was, p) && ClashesStay(src, was, was)
    ensures p in was && was[p].Dir? ==> was[p := Dir] == was
    ensures p !in was ==> Outside(was, was[p := Dir], p) && ClashesStay(src, was, was[p := Dir])
  {
    AtOrBelow(p, p);
  }

  lemma LeafHasNothingBelow(m: Tree, p: Path)
    requires WellFormed(m) && (p in m ==> m[p].File?)
    ensures forall q :: p < q ==> q !in m
  {
    forall q | p < q && q in m
      ensures false
    {
      AncestorExists(m, p, q);
    }
  }

  /** rmdir after its loop: the directory goes last and is reported last. */
  lemma RemovalDone(was: Tree, now: Tree, p: Path, seen: set<string>, body: seq<Report>)
    requires WellFormed(was) && WellFormed(now) && p in was && was[p].Dir? && Outside(was, now, p)
    requires Visited(map[], was, now, p, seen) && Names(was, p) <= seen
    requires Reported(map[], was, p, seen, body) && InOrder(body)
    ensures WellFormed(now - {p}) && Names(now, p) == {}
    ensures SyncedUnder(map[], was, now - {p}, p) && Outside(was, now - {p}, p)
    ensures Exact(map[], was, p, body + [Minus(p)]) && InOrder(body + [Minus(p)])
  {
    AllVisited(map[], was, now, p, seen);
    assert Names(now, p) == {} by {
      forall q | p < q
        ensures q !in now
      {
        assert SyncedAt(map[], was, now, q);
      }
    }
    DropWellFormed(now, p);
    forall q | p <= q
      ensures SyncedAt(map[], was, now - {p}, q)
    {
      AtOrBelow(p, q);
      assert q == p || SyncedAt(map[], was, now, q);
    }
    forall q | !(p <= q)
      ensures SameAt(was, now - {p}, q)
    {
      assert SameAt(was, now, q);
    }
    forall r: Report
      ensures multiset(body + [Minus(p)])[r] == if p <= r.path && Due(map[], was, r) then 1 else 0
    {
      assert multiset(body + [Minus(p)])[r] == multiset(body)[r] + multiset([Minus(p)])[r];
      AtOrBelow(p, r.path);
    }
    forall a, b | a in body && b in [Minus(p)]
      ensures !Late(a, b)
    {
      assert multiset(body)[a] > 0;
    }
    InOrderConcat(body, [Minus(p)]);
  }

  /** Where the source has nothing, removing is syncing. */
  lemma NothingInSource(src: Tree, was: Tree, now: Tree, p: Path, log: seq<Report>)
    requires WellFormed(src) && p !in src && |p| > 0 && Placed(src, p)
    requires SyncedUnder(map[], was, now, p) && Exact(map[], was, p, log)
    ensures SyncedUnder(src, was, now, p) && Exact(src, was, p, log)
  {
    NothingKept(src, was, p);
    LeafHasNothingBelow(src, p);
    forall q | p <= q
      ensures q !in src && SyncedAt(src, was, now, q)
    {
      AtOrBelow(p, q);
      assert SyncedAt(map[], was, now, q);
    }
    forall r: Report
      ensures multiset(log)[r] == if p <= r.path && Due(src, was, r) then 1 else 0
    {
      assert p <= r.path ==> r.path !in src;
    }
  }

  /** Removing a single file, or finding nothing to remove. */
  lemma LeafRemoved(was: Tree, p: Path)
    requires WellFormed(was) && (p in was ==> was[p].File?)
    ensures WellFormed(was - {p}) && SyncedUnder(map[], was, was - {p}, p) && Outside(was, was - {p}, p)
    ensures Exact(map[], was, p, if p in was then [Minus(p)] else [])
  {
    LeafHasNothingBelow(was, p);
    DropWellFormed(was, p);
    forall q | p <= q
      ensures SyncedAt(map[], was, was - {p}, q)
    {
      AtOrBelow(p, q);
    }
    forall r: Report
      ensures multiset(if p in was then [Minus(p)] else [])[r] == if p <= r.path && Due(map[], was, r) then 1 else 0
    {
      AtOrBelow(p, r.path);
    }
  }

  /** Clearing a file away for a directory of the source is no change elsewhere and no new clash. */
  lemma FileCleared(src: Tree, was: Tree, p: Path)
    requires WellFormed(was) && p in src && src[p].Dir? && (p in was ==> was[p].File?)
    ensures WellFormed(was - {p}) && Outside(was, was - {p}, p)
    ensures ClashesStay(src, was, was - {p}) && (Clash(src, was - {p}, p) ==> Clash(src, was, p))
    ensures |p| > 0 && Placed(was, p) ==> Placed(was - {p}, p)
  {
    LeafRemoved(was, p);
    assert forall q :: ClashAt(src, was - {p}, q) ==> ClashAt(src, was, q);
  }

  /** A file cleared away and a directory synced in its place. */
  lemma ReplacedByDirectory(src: Tree, was: Tree, now: Tree, p: Path, log: seq<Report>)
    requires WellFormed(src) && WellFormed(was) && p in src && src[p].Dir? && p in was && was[p].File?
    requires SyncedUnder(src, was - {p}, now, p) && Exact(src, was - {p}, p, log) && InOrder(log)
    ensures SyncedUnder(src, was, now, p)
    ensures Exact(src, was, p, [Minus(p)] + log) && InOrder([Minus(p)] + log)
  {
    LeafHasNothingBelow(was, p);
    KeptWithout(src, was, p);
    hide Kept;
    forall q | p <= q
      ensures SyncedAt(src, was, now, q)
    {
      assert SyncedAt(src, was - {p}, now, q);
    }
    forall r: Report
      ensures multiset([Minus(p)] + log)[r] == if p <= r.path && Due(src, was, r) then 1 else 0
    {
      assert multiset([Minus(p)] + log)[r] == multiset([Minus(p)])[r] + multiset(log)[r];
    }
    forall a, b | a in [Minus(p)] && b in log
      ensures !Late(a, b)
    {
      AtOrBelow(p, b.path);
      assert multiset(log)[b] > 0;
    }
    InOrderConcat([Minus(p)], log);
  }

  /** A file of the destination keeps nothing; p itself is replaced, not kept. */
  lemma KeptWithout(src: Tree, was: Tree, p: Path)
    requires WellFormed(src) && p in was && was[p].File? && p in src && src[p].Dir?
    ensures forall q :: Kept(src, was - {p}, q) <==> Kept(src, was, q)
    ensures !Kept(src, was, p)
  {
    forall q
      ensures Kept(src, was - {p}, q) <==> Kept(src, was, q)
    {
      KeptSame(src, was, was - {p}, q);
    }
    ParentDirs(src, p);
    NotKeptAt(src, was, p);
  }

  /** A file of the source against a missing or plain destination. */
  lemma FileSynced(src: Tree, was: Tree, now: Tree, p: Path, log: seq<Report>)
    requires WellFormed(src) && WellFormed(was) && p in src && src[p].File? && (p in was ==> was[p].File?)
    requires |p| > 0 && Placed(src, p)
    requires now == was[p := Target(src, was, p)]
    requires log == if p !in was then [Plus(p), Time(p)] else if Stale(src, was, p) then [Over(p), Time(p)] else []
    ensures SyncedUnder(src, was, now, p) && Exact(src, was, p, log) && InOrder(log)
  {
    NothingKept(src, was, p);
    hide Kept;
    LeafHasNothingBelow(src, p);
    LeafHasNothingBelow(was, p);
    forall q | p <= q
      ensures SyncedAt(src, was, now, q)
    {
      AtOrBelow(p, q);
    }
    forall r: Report
      ensures multiset(log)[r] == if p <= r.path && Due(src, was, r) then 1 else 0
    {
      AtOrBelow(p, r.path);
      assert multiset(log) == if p !in was then multiset{Plus(p), Time(p)}
                              else if Stale(src, was, p) then multiset{Over(p), Time(p)} else multiset{};
    }
  }

  /** Writing a file of the source where there is no directory. */
  lemma FileWritten(src: Tree, was: Tree, p: Path)
    requires WellFormed(was) && Placed(was, p) && p in src && src[p].File?
    ensures p in was && was[p].File? ==> was[p := was[p]] == was
    ensures var now := was[p := src[p]];
            !ClashAt(src, was, p) ==> WellFormed(now) && Outside(was, now, p) && ClashesStay(src, was, now)
  {
    if !ClashAt(src, was, p) {
      PutWellFormed(was, p, src[p]);
    }
    AtOrBelow(p, p);
  }

  /** A file of the source against a directory that happens to agree with it in size and time. */
  lemma ClashLeft(src: Tree, was: Tree, p: Path)
    requires ClashAt(src, was, p)
    ensures SyncedUnder(src, was, was, p) && Exact(src, was, p, []) && InOrder([])
  {
    forall q | p <= q
      ensures Kept(src, was, q)
    {
      assert q[..|p|] == p;
    }
  }

  const BUFFER_SIZE := 4096

  class Syncer {
    const src: Tree
    var dst: Tree
    var log: seq<Report>

    constructor (src: Tree, dst: Tree)
      ensures this.src == src && this.dst == dst && log == []
    {
      this.src, this.dst, log := src, dst, [];
    }

    /** remove(): takes a file or an empty directory. */
    method Remove(p: Path) returns (ok: bool)
      modifies this`dst
      ensures ok == (p in old(dst) && (old(dst)[p].File? || Names(old(dst), p) == {}))
      ensures dst == if ok then old(dst) - {p} else old(dst)
    {
      ok := p in dst && (dst[p].File? || Names(dst, p) == {});
      if ok {
        dst := dst - {p};
      }
    }

    /** Post-order removal of a directory and all below it. */
    method RemoveDirectory(p: Path) returns (error: int)
      requires WellFormed(dst)
      modifies this
      ensures WellFormed(dst) && old(log) <= log
      ensures p in old(dst) && old(dst)[p].Dir? ==>
                && error == 0
                && SyncedUnder(map[], old(dst), dst, p) && Outside(old(dst), dst, p)
                && Exact(map[], old(dst), p, log[|old(log)|..]) && InOrder(log[|old(log)|..])
      ensures !(p in old(dst) && old(dst)[p].Dir?) ==> error == -1 && dst == old(dst) && log == old(log)
      decreases Under(dst, p), 0
    {
      hide Visited, Reported, InOrder, Exact, SyncedUnder, Outside, WellFormed, DirsTo, Names, Under;
      if p !in dst || dst[p].File? {
        return -1;
      }
      ghost var was, start := dst, log;
      NothingVisited(map[], was, p);
      var todo := Names(dst, p);
      ghost var seen: set<string>, body: seq<Report> := {}, [];
      while todo != {}
        invariant WellFormed(dst) && log == start + body
        invariant p in dst && dst[p] == Dir && Outside(was, dst, p)
        invariant seen + todo == Names(was, p) && seen !! todo
        invariant Visited(map[], was, dst, p, seen)
        invariant Reported(map[], was, p, seen, body) && InOrder(body)
        decreases todo
      {
        var x :| x in todo;
        todo := todo - {x};
        ghost var mid, sofar := dst, log;
        NotYetVisited(map[], was, dst, p, seen, x);
        RemoveEntry(p + [x]);
        OutsideChild(was, mid, dst, p, x);
        VisitStep(map[], was, mid, dst, p, seen, x, body, log[|sofar|..]);
        body := body + log[|sofar|..];
        seen := seen + {x};
      }
      RemovalDone(was, dst, p, seen, body);
      dst := dst - {p};
      log := log + [Minus(p)];
      assert log[|start|..] == body + [Minus(p)];
      return 0;
    }

    /** The body of remove_directory's loop: descend into a directory, unlink anything else. */
    method RemoveEntry(c: Path)
      requires WellFormed(dst) && c in dst
      modifies this
      ensures WellFormed(dst) && old(log) <= log
      ensures SyncedUnder(map[], old(dst), dst, c) && Outside(old(dst), dst, c)
      ensures Exact(map[], old(dst), c, log[|old(log)|..]) && InOrder(log[|old(log)|..])
      decreases Under(dst, c), 1
    {
      if dst[c].Dir? {
        var e := RemoveDirectory(c);
      } else {
        LeafRemoved(dst, c);
        dst := dst - {c};
        log := log + [Minus(c)];
      }
    }

    /** copy_file(): opening a directory for writing fails; else the file is rewritten in blocks. */
    method CopyFile(p: Path) returns (ok: bool)
      requires p in src && src[p].File?
      modifies this`dst
      ensures ok == !(p in old(dst) && old(dst)[p].Dir?)
      ensures !ok ==> dst == old(dst)
      ensures ok ==> p in dst && dst[p].File? && dst[p].bytes == src[p].bytes && dst == old(dst)[p := dst[p]]
    {
      if p in dst && dst[p].Dir? {
        return false;
      }
      var data := src[p].bytes;
      var now: int := *;
      dst := dst[p := File([], now)];
      var done := 0;
      while done < |data|
        invariant 0 <= done <= |data|
        invariant p in dst && dst[p].File? && dst[p].bytes == data[..done] && dst == old(dst)[p := dst[p]]
      {
        var block := if |data| - done < BUFFER_SIZE then data[done..] else data[done..done + BUFFER_SIZE];
        now := *;
        dst := dst[p := File(dst[p].bytes + block, now)];
        done := done + |block|;
      }
      return true;
    }

    /** utime() with the source's modification time. */
    method SetTime(p: Path)
      requires p in src && src[p].File? && p in dst && dst[p].File?
      modifies this`dst
      ensures dst == old(dst)[p := File(old(dst)[p].bytes, src[p].mtime)]
    {
      dst := dst[p := dst[p].(mtime := src[p].mtime)];
    }

    /** sync_directories(): ok is false when the program gives up with EXIT_FAILURE. */
    method SyncDirectories(p: Path) returns (ok: bool)
      requires WellFormed(src) && WellFormed(dst)
      requires Placed(dst, p)
      modifies this
      ensures WellFormed(dst) && old(log) <= log
      ensures Outside(old(dst), dst, p) && ClashesStay(src, old(dst), dst)
      ensures p !in src ==> ok
      ensures p !in src ==>
                dst == if p in old(dst) && (old(dst)[p].File? || Names(old(dst), p) == {}) then old(dst) - {p}
                       else old(dst)
      ensures p !in src ==> log == old(log) + if p in old(dst) && p !in dst then [Minus(p)] else []
      ensures p in src && src[p].File? ==> !ok
      ensures p in src && p in old(dst) && old(dst)[p].File? ==> !ok && dst == old(dst)
      ensures p in src && src[p].Dir? && !(p in old(dst) && old(dst)[p].File?) && !Clash(src, old(dst), p) ==> ok
      ensures p in src && ok ==>
                && src[p].Dir? && !(p in old(dst) && old(dst)[p].File?)
                && SyncedUnder(src, old(dst), dst, p)
                && Exact(src, old(dst), p, log[|old(log)|..]) && InOrder(log[|old(log)|..])
      decreases Under(src, p), 2
    {
      hide WellFormed, Outside, SyncedUnder, Exact, InOrder, Clash, ClashesStay;
      ghost var was := dst;
      DirectoryMade(src, was, p);
      if p !in src {
        RemoveLoose(p);
        return true;
      }
      if p !in dst {
        MakeDirectory(p);
      }
      if src[p].File? || dst[p].File? {
        return false;
      }
      ghost var sofar := log;
      ok := SyncListings(p, was);
      assert log[|old(log)|..] == (if p in was then [] else [Plus(p), Time(p)]) + log[|sofar|..];
    }

    /** The source is gone: remove() takes what it can, and is reported only if it succeeds. */
    method RemoveLoose(p: Path)
      requires WellFormed(src) && WellFormed(dst) && p !in src
      modifies this
      ensures WellFormed(dst) && old(log) <= log
      ensures Outside(old(dst), dst, p) && ClashesStay(src, old(dst), dst)
      ensures dst == if p in old(dst) && (old(dst)[p].File? || Names(old(dst), p) == {}) then old(dst) - {p}
                     else old(dst)
      ensures log == old(log) + if p in old(dst) && p !in dst then [Minus(p)] else []
    {
      ghost var was := dst;
      var removed := Remove(p);
      if removed {
        log := log + [Minus(p)];
        DropWellFormed(was, p);
      }
      OutsideKeepsClashes(src, was, dst, p);
    }

    /** mkdir, utime and the reports for a directory that the destination lacks. */
    method MakeDirectory(p: Path)
      requires WellFormed(dst) && p !in dst && Placed(dst, p)
      modifies this
      ensures WellFormed(dst) && dst == old(dst)[p := Dir] && log == old(log) + [Plus(p), Time(p)]
      ensures forall q :: p < q ==> q !in old(dst)
    {
      LeafHasNothingBelow(dst, p);
      PutWellFormed(dst, p, Dir);
      dst := dst[p := Dir];
      log := log + [Plus(p), Time(p)];
    }

    /** The two readdir loops of sync_directories, once both directories are open. */
    method SyncListings(p: Path, ghost was: Tree) returns (ok: bool)
      requires WellFormed(src) && WellFormed(was) && WellFormed(dst)
      requires p in src && src[p].Dir? && dst == was[p := Dir] && (p in was ==> was[p].Dir?)
      requires p !in was ==> forall q :: p < q ==> q !in was
      modifies this
      ensures WellFormed(dst) && old(log) <= log
      ensures Outside(was, dst, p) && ClashesStay(src, was, dst)
      ensures ok ==>
                && SyncedUnder(src, was, dst, p)
                && var head := if p in was then [] else [Plus(p), Time(p)];
                   Exact(src, was, p, head + log[|old(log)|..]) && InOrder(head + log[|old(log)|..])
      ensures !Clash(src, was, p) ==> ok
      decreases Under(src, p), 1
    {
      ghost var start := log;
      var atOpen := Names(dst, p);
      ghost var body: seq<Report> := [];
      var names := Readdir(Names(src, p), {});
      ok, body := SyncNames(p, names, was, {}, body);
      if !ok {
        return;
      }
      // The stream on dst was opened before these changes: it must still yield the names that the first
      // loop left alone, and may yield the others or not, and more than once.
      var listed := Readdir(atOpen - Names(src, p), atOpen + Names(src, p));
      ghost var seen := {} + Members(names);
      ok, body := SyncNames(p, listed, was, seen, body);
      assert body == log[|start|..];
      if ok {
        ListingsDone(src, was, dst, p, seen + Members(listed), body);
      }
    }

    /** What readdir yields up to the end of a stream: each name of `must`, names of `may` or not, in any
        order and any number of times. */
    method Readdir(must: set<string>, may: set<string>) returns (names: seq<string>)
      ensures must <= Members(names) <= must + may
    {
      var any: seq<string> := *;
      names := [];
      for i := 0 to |any|
        invariant Members(names) <= must + may
      {
        if any[i] in must + may {
          names := names + [any[i]];
        }
      }
      var todo := must;
      while todo != {}
        invariant todo <= must && must - todo <= Members(names) <= must + may
        decreases todo
      {
        var x :| x in todo;
        todo := todo - {x};
        assert Members(names + [x]) == Members(names) + {x};
        names := names + [x];
      }
    }

    /** Either readdir loop of sync_directories, over the names it yields. */
    method SyncNames(p: Path, names: seq<string>, ghost was: Tree, ghost before: set<string>, ghost done: seq<Report>)
      returns (ok: bool, ghost body: seq<Report>)
      requires WellFormed(src) && WellFormed(dst) && p in src && src[p].Dir? && p in dst && dst[p] == Dir
      requires Outside(was, dst, p) && ClashesStay(src, was, dst)
      requires Visited(src, was, dst, p, before) && Reported(src, was, p, before, done) && InOrder(done)
      modifies this
      ensures WellFormed(dst) && p in dst && dst[p] == Dir
      ensures Outside(was, dst, p) && ClashesStay(src, was, dst)
      ensures old(log) <= log && body == done + log[|old(log)|..]
      ensures ok ==>
                && Visited(src, was, dst, p, before + Members(names))
                && Reported(src, was, p, before + Members(names), body) && InOrder(body)
      ensures !Clash(src, was, p) ==> ok
      decreases Under(src, p), 0
    {
      hide Visited, Reported, InOrder, Exact, SyncedUnder, Outside, WellFormed, Clash, DirsTo;
      ghost var start := log;
      ParentDirs(src, p);
      ok := true;
      ghost var seen := before;
      body := done;
      for i := 0 to |names|
        invariant WellFormed(dst) && start <= log && body == done + log[|start|..]
        invariant p in dst && dst[p] == Dir && Outside(was, dst, p) && ClashesStay(src, was, dst)
        invariant seen == before + Members(names[..i])
        invariant ok && Visited(src, was, dst, p, seen) && Reported(src, was, p, seen, body) && InOrder(body)
      {
        var x := names[i];
        ghost var mid, sofar := dst, log;
        if !Clash(src, was, p) {
          NoNewClash(src, was, mid, p, seen, x);
        }
        ChildSmaller(src, p, x);
        assert (p + [x])[..|p|] == p;
        ok := SyncItems(p + [x]);
        OutsideChild(was, mid, dst, p, x);
        if ok {
          VisitStep(src, was, mid, dst, p, seen, x, body, log[|sofar|..]);
        }
        assert log[|start|..] == sofar[|start|..] + log[|sofar|..];
        body := body + log[|sofar|..];
        if !ok {
          return;
        }
        seen := seen + {x};
        assert names[..i + 1] == names[..i] + [x];
      }
      assert names[..|names|] == names;
    }

    /** sync_items() on a path the source does not have. */
    method DropItem(p: Path, dstIsDir: bool) returns (ok: bool)
      requires WellFormed(src) && WellFormed(dst) && p !in src && |p| > 0 && Placed(src, p)
      requires p in dst ==> dstIsDir == dst[p].Dir?
      modifies this
      ensures ok && WellFormed(dst) && old(log) <= log
      ensures Outside(old(dst), dst, p) && ClashesStay(src, old(dst), dst)
      ensures SyncedUnder(src, old(dst), dst, p)
      ensures Exact(src, old(dst), p, log[|old(log)|..]) && InOrder(log[|old(log)|..])
    {
      ghost var was, start := dst, log;
      if dstIsDir {
        var e := RemoveDirectory(p);
        if p !in was {
          LeafRemoved(was, p);
          assert was - {p} == was;
        }
      } else {
        LeafRemoved(was, p);
        var removed := Remove(p);
        if removed {
          log := log + [Minus(p)];
        } else {
          assert was - {p} == was;
        }
      }
      NothingInSource(src, was, dst, p, log[|start|..]);
      OutsideKeepsClashes(src, was, dst, p);
      return true;
    }

    /** sync_items() on a directory of the source: a file in its place goes first. */
    method SyncDirItem(p: Path, dstIsDir: bool) returns (ok: bool)
      requires WellFormed(src) && WellFormed(dst) && p in src && src[p].Dir?
      requires |p| > 0 && Placed(dst, p) && Placed(src, p)
      requires p in dst ==> dstIsDir == dst[p].Dir?
      modifies this
      ensures WellFormed(dst) && old(log) <= log
      ensures Outside(old(dst), dst, p) && ClashesStay(src, old(dst), dst)
      ensures ok ==>
                && SyncedUnder(src, old(dst), dst, p)
                && Exact(src, old(dst), p, log[|old(log)|..]) && InOrder(log[|old(log)|..])
      ensures !Clash(src, old(dst), p) ==> ok
      decreases Under(src, p), 3
    {
      hide WellFormed, Outside, SyncedUnder, Exact, InOrder, Clash, ClashAt;
      ghost var was, start := dst, log;
      NothingVisited(src, was, p);
      if !dstIsDir {
        FileCleared(src, was, p);
        var removed := Remove(p);
        if removed {
          log := log + [Minus(p)];
        }
        assert p !in was ==> was - {p} == was;
      }
      ghost var mid, sofar := dst, log;
      ok := SyncDirectories(p);
      OutsideTwice(was, mid, dst, p);
      if p in was && was[p].File? && ok {
        ReplacedByDirectory(src, was, dst, p, log[|sofar|..]);
        assert log[|start|..] == [Minus(p)] + log[|sofar|..];
      }
    }

    method SyncItems(p: Path) returns (ok: bool)
      requires WellFormed(src) && WellFormed(dst)
      requires |p| > 0 && Placed(dst, p) && Placed(src, p)
      modifies this
      ensures WellFormed(dst) && old(log) <= log
      ensures Outside(old(dst), dst, p) && ClashesStay(src, old(dst), dst)
      ensures ok ==>
                && SyncedUnder(src, old(dst), dst, p)
                && Exact(src, old(dst), p, log[|old(log)|..]) && InOrder(log[|old(log)|..])
      ensures !Clash(src, old(dst), p) ==> ok
      decreases Under(src, p), 4
    {
      // stat leaves dst_stat unset when p is missing: S_ISDIR then yields anything.
      var junk: bool := *;
      var dstIsDir := if p in dst then dst[p].Dir? else junk;
      if p !in src {
        ok := DropItem(p, dstIsDir);
        return;
      }
      if src[p].Dir? {
        ok := SyncDirItem(p, dstIsDir);
        return;
      }
      ok := SyncFileItem(p);
    }

    /** sync_items() on a file of the source. */
    method SyncFileItem(p: Path) returns (ok: bool)
      requires WellFormed(src) && WellFormed(dst) && p in src && src[p].File?
      requires |p| > 0 && Placed(dst, p) && Placed(src, p)
      modifies this
      ensures WellFormed(dst) && old(log) <= log
      ensures Outside(old(dst), dst, p) && ClashesStay(src, old(dst), dst)
      ensures ok ==>
                && SyncedUnder(src, old(dst), dst, p)
                && Exact(src, old(dst), p, log[|old(log)|..]) && InOrder(log[|old(log)|..])
      ensures !Clash(src, old(dst), p) ==> ok
    {
      assert ClashAt(src, dst, p) ==> Clash(src, dst, p);
      hide WellFormed, Outside, SyncedUnder, Exact, InOrder, Clash, ClashesStay;
      ghost var was, start := dst, log;
      DirectoryMade(src, was, p);
      FileWritten(src, was, p);
      ok := true;
      if p !in dst {
        ok := CopyFile(p);
        SetTime(p);
        log := log + [Plus(p), Time(p)];
      } else {
        // The size and time of a directory may or may not agree with the file's.
        var agree: bool := *;
        if dst[p].File? {
          agree := |src[p].bytes| == |dst[p].bytes| && src[p].mtime == dst[p].mtime;
        }
        if !agree {
          ok := CopyFile(p);
          if !ok {
            return;
          }
          SetTime(p);
          log := log + [Over(p), Time(p)];
          }
      }
      assert dst == if ClashAt(src, was, p) then was else was[p := Target(src, was, p)];
      if ClashAt(src, was, p) {
        ClashLeft(src, was, p);
      } else {
        FileSynced(src, was, dst, p, log[|start|..]);
      }
    }

    /** main: the destination mirrors the source at the end exactly when no file of the source stands
        against a directory of the destination, and the destination root is not a file. Whenever the run
        does not give up, all that is not at or below such a directory is synced, the directory is left
        alone, and the log is exact and in order. */
    method Synchronise() returns (ok: bool)
      requires WellFormed(src) && WellFormed(dst) && log == []
      requires [] in src && src[[]].Dir?
      modifies this
      ensures WellFormed(dst)
      ensures Mirrors(src, dst) <==> !Clash(src, old(dst), []) && !([] in old(dst) && old(dst)[[]].File?)
      ensures dst.Keys == src.Keys
              && (forall q | q in src ::
                    if src[q].Dir? then dst[q].Dir?
                    else dst[q].File? && |dst[q].bytes| == |src[q].bytes| && dst[q].mtime == src[q].mtime)
         <==> (forall q | q in src && q in old(dst) :: !(src[q].File? && old(dst)[q].Dir?))
              && !([] in old(dst) && old(dst)[[]].File?)
      ensures ok ==> Synced(src, old(dst), dst) && Exact(src, old(dst), [], log) && InOrder(log)
      ensures Mirrors(src, dst) ==> ok
    {
      ghost var was := dst;
      WhatClashes(src, was);
      ok := SyncDirectories([]);
      WhatMirrors(src, dst);
      assert log[0..] == log;
      if ok {
        forall q
          ensures SyncedAt(src, was, dst, q)
        {
          assert [] <= q;
        }
        SyncedMirrors(src, was, dst);
      } else if Clash(src, was, []) {
        var q :| [] <= q && ClashAt(src, was, q);
        assert ClashAt(src, dst, q);
      }
    }

    /** A run right after a run that did not give up: nothing changes and nothing is reported. */
    method SynchroniseAgain(ghost was: Tree) returns (ok: bool)
      requires WellFormed(src) && WellFormed(dst) && log == []
      requires [] in src && src[[]].Dir? && Synced(src, was, dst)
      modifies this
      ensures ok ==> dst == old(dst) && log == []
      ensures !Clash(src, was, []) ==> ok
    {
      ghost var now := dst;
      SyncedMirrors(src, was, now);
      ok := Synchronise();
      if ok {
        SyncedIsFixed(src, was, now, dst, log);
      }
    }
  }
}
