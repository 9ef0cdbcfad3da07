/** What one run of the directory synchroniser must do to the destination tree and report. */
module SyncSpec {

  type Path = seq<string>

  datatype Item = Dir | File(bytes: seq<bv8>, mtime: int)

  /** A directory tree, one entry a path below its root []. */
  type Tree = map<Path, Item>

  ghost predicate Placed(m: Tree, q: Path) {
    |q| > 0 ==> q[..|q| - 1] in m && m[q[..|q| - 1]].Dir?
  }

  /** Every entry but the root lies in a directory. */
  ghost predicate WellFormed(m: Tree) {
    forall q {:trigger Placed(m, q)} :: q in m ==> Placed(m, q)
  }

  lemma PutWellFormed(m: Tree, p: Path, item: Item)
    requires WellFormed(m) && Placed(m, p) && (p in m && m[p].Dir? ==> item.Dir?)
    ensures WellFormed(m[p := item])
  {
    var m' := m[p := item];
    forall q | q in m'
      ensures Placed(m', q)
    {
      assert Placed(m, q);
    }
  }

  lemma DropWellFormed(m: Tree, p: Path)
    requires WellFormed(m) && (p in m && m[p].Dir? ==> Names(m, p) == {})
    ensures WellFormed(m - {p})
  {
    forall q | q in m - {p}
      ensures Placed(m - {p}, q)
    {
      assert Placed(m, q);
      assert |q| > 0 && q[..|q| - 1] == p ==> q[|p|] in Names(m, p);
    }
  }

  /** The names that readdir yields for p. */
  function Names(m: Tree, p: Path): set<string> {
    set q | q in m && p < q && |q| == |p| + 1 :: q[|p|]
  }

  lemma NameIsChild(m: Tree, p: Path, x: string)
    ensures x in Names(m, p) <==> p + [x] in m
  {
    if p + [x] in m {
      assert (p + [x])[|p|] == x;
    }
    if x in Names(m, p) {
      var q :| q in m && p < q && |q| == |p| + 1 && q[|p|] == x;
      assert q == p + [x];
    }
  }

  ghost function Under(m: Tree, p: Path): set<Path> {
    set q | q in m && p <= q
  }

  lemma {:induction false} AncestorExists(m: Tree, p: Path, q: Path)
    requires WellFormed(m) && q in m && p < q
    ensures p in m && m[p].Dir?
    decreases |q|
  {
    var parent := q[..|q| - 1];
    assert Placed(m, q) && p <= parent;
    if p != parent {
      AncestorExists(m, p, parent);
    }
  }

  /** The name under p on the way to q. */
  lemma NameOnPath(m: Tree, p: Path, q: Path)
    requires WellFormed(m) && q in m && p < q
    ensures p + [q[|p|]] <= q && p + [q[|p|]] in m && q[|p|] in Names(m, p)
  {
    var c := p + [q[|p|]];
    assert c <= q;
    if c != q {
      AncestorExists(m, c, q);
    }
    assert c[|p|] == q[|p|];
  }

  /** The two files agree as far as stat can tell. */
  predicate SameStat(a: Item, b: Item)
    requires a.File? && b.File?
  {
    |a.bytes| == |b.bytes| && a.mtime == b.mtime
  }

  /** What the destination must hold at a path of the source. */
  ghost function Target(src: Tree, was: Tree, q: Path): Item
    requires q in src
  {
    if src[q].File? && q in was && was[q].File? && SameStat(src[q], was[q]) then was[q] else src[q]
  }

  ghost predicate SameAt(was: Tree, now: Tree, q: Path) {
    (q in now <==> q in was) && (q in was ==> now[q] == was[q])
  }

  /** A file of the source stands against a directory of the destination. */
  predicate ClashAt(src: Tree, dst: Tree, q: Path) {
    q in src && src[q].File? && q in dst && dst[q].Dir?
  }

  /** q is at or below a directory that stands in the place of a source file: a run that goes on keeps it. */
  predicate Kept(src: Tree, was: Tree, q: Path) {
    exists i :: 0 <= i <= |q| && ClashAt(src, was, q[..i])
  }

  /** What a run that does not give up makes of the destination at q. */
  ghost predicate SyncedAt(src: Tree, was: Tree, now: Tree, q: Path) {
    if Kept(src, was, q) then SameAt(was, now, q)
    else (q in now <==> q in src) && (q in src ==> now[q] == Target(src, was, q))
  }

  ghost predicate Clash(src: Tree, dst: Tree, p: Path) {
    exists q :: p <= q && ClashAt(src, dst, q)
  }

  // ---------------------------------------------------------------- reports

  datatype Report = Plus(path: Path) | Minus(path: Path) | Over(path: Path) | Time(path: Path)

  predicate Replaced(src: Tree, was: Tree, q: Path) {
    q in src && q in was && src[q].Dir? && was[q].File?
  }

  predicate Created(src: Tree, was: Tree, q: Path) {
    q in src && (q !in was || Replaced(src, was, q))
  }

  predicate Stale(src: Tree, was: Tree, q: Path) {
    q in src && q in was && src[q].File? && was[q].File? && !SameStat(src[q], was[q])
  }

  /** The reports a run owes: `+` created, `-` removed, `o` overwritten, `t` time stamp set; none for
      what it keeps. */
  predicate Due(src: Tree, was: Tree, r: Report) {
    && !Kept(src, was, r.path)
    && match r
    case Plus(q) => Created(src, was, q)
    case Minus(q) => q in was && (q !in src || Replaced(src, was, q))
    case Over(q) => Stale(src, was, q)
    case Time(q) => Created(src, was, q) || Stale(src, was, q)
  }

  /** a may not be reported before b: a directory is emptied before it goes, made before it is
      filled, and cleared away before its replacement is made. */
  predicate Late(a: Report, b: Report) {
    || (a.Minus? && b.Minus? && a.path <= b.path)
    || (a.Plus? && (b.Plus? || b.Minus?) && b.path <= a.path)
  }

  ghost predicate InOrder(log: seq<Report>) {
    forall i, j :: 0 <= i < j < |log| ==> !Late(log[i], log[j])
  }

  /** The log has each due report of the region under p once, and nothing else. */
  ghost predicate Exact(src: Tree, was: Tree, p: Path, log: seq<Report>) {
    forall r :: multiset(log)[r] == if p <= r.path && Due(src, was, r) then 1 else 0
  }

  lemma InOrderConcat(a: seq<Report>, b: seq<Report>)
    requires InOrder(a) && InOrder(b)
    requires forall x, y :: x in a && y in b ==> !Late(x, y)
    ensures InOrder(a + b)
  {
  }

  // ---------------------------------------------------------------- what the final tree is worth

  ghost predicate Synced(src: Tree, was: Tree, now: Tree) {
    forall q :: SyncedAt(src, was, now, q)
  }

  /** Same paths and kinds; every file has the source's size and time, and its bytes unless kept. */
  ghost predicate Mirrors(src: Tree, now: Tree) {
    && now.Keys == src.Keys
    && forall q :: q in src ==> (src[q].Dir? <==> now[q].Dir?) && (src[q].File? ==> SameStat(src[q], now[q]))
  }

  /** Mirroring, field by field. */
  lemma WhatMirrors(src: Tree, now: Tree)
    ensures Mirrors(src, now) <==>
            && now.Keys == src.Keys
            && forall q | q in src ::
                 if src[q].Dir? then now[q].Dir?
                 else now[q].File? && |now[q].bytes| == |src[q].bytes| && now[q].mtime == src[q].mtime
  {
  }

  /** No clash: nowhere a file of the source against a directory of the destination. */
  lemma WhatClashes(src: Tree, was: Tree)
    ensures !Clash(src, was, []) <==> forall q | q in src && q in was :: !(src[q].File? && was[q].Dir?)
  {
    if q :| q in src && q in was && src[q].File? && was[q].Dir? {
      assert [] <= q && ClashAt(src, was, q);
    }
  }

  /** The log at a path that is not kept, in terms of what was there: each report at most once. */
  lemma WhatIsReported(src: Tree, was: Tree, now: Tree, log: seq<Report>, q: Path)
    requires Synced(src, was, now) && Exact(src, was, [], log) && !Kept(src, was, q)
    ensures Plus(q) in log <==> q in src && (q !in was || (src[q].Dir? && was[q].File?))
    ensures Minus(q) in log <==> q in was && (q !in src || (src[q].Dir? && was[q].File?))
    ensures Over(q) in log <==>
            && q in src && q in was && src[q].File? && was[q].File?
            && (|was[q].bytes| != |src[q].bytes| || was[q].mtime != src[q].mtime)
    ensures Time(q) in log <==> Plus(q) in log || Over(q) in log
    ensures Over(q) in log || Plus(q) in log ==> q in src && q in now && now[q] == src[q]
    ensures forall r: Report :: multiset(log)[r] <= 1
  {
    hide Kept;
    assert [] <= q && SyncedAt(src, was, now, q);
    assert multiset(log)[Plus(q)] == if Due(src, was, Plus(q)) then 1 else 0;
    assert multiset(log)[Minus(q)] == if Due(src, was, Minus(q)) then 1 else 0;
    assert multiset(log)[Over(q)] == if Due(src, was, Over(q)) then 1 else 0;
    assert multiset(log)[Time(q)] == if Due(src, was, Time(q)) then 1 else 0;
  }

  /** Nothing at or below a clash is touched or reported. */
  lemma WhatIsKept(src: Tree, was: Tree, now: Tree, log: seq<Report>, c: Path, e: Path)
    requires Synced(src, was, now) && Exact(src, was, [], log)
    requires c in src && src[c].File? && c in was && was[c].Dir?
    ensures c + e in now <==> c + e in was
    ensures c + e in was ==> now[c + e] == was[c + e]
    ensures forall r: Report :: r.path == c + e ==> r !in log
  {
    var q := c + e;
    assert q[..|c|] == c && ClashAt(src, was, c);
    assert Kept(src, was, q) && SyncedAt(src, was, now, q);
    forall r: Report | r.path == q
      ensures r !in log
    {
      assert multiset(log)[r] == 0;
    }
  }

  /** By their places in the log: what lies below a directory is removed before it and made after it, and
      what stands in its place is removed before it is made. */
  lemma WhenReported(log: seq<Report>, d: Path, e: Path, i: nat, j: nat)
    requires InOrder(log) && i < |log| && j < |log| && i != j
    ensures log[i] == Minus(d) && log[j] == Minus(d + e) ==> j < i
    ensures log[i] == Plus(d) && log[j] == Plus(d + e) ==> i < j
    ensures log[i] == Minus(d) && log[j] == Plus(d + e) ==> i < j
  {
    assert d <= d + e;
    assert i < j ==> !Late(log[i], log[j]);
    assert j < i ==> !Late(log[j], log[i]);
  }

  lemma KeptMeansClash(src: Tree, was: Tree)
    ensures Clash(src, was, []) <==> exists q :: Kept(src, was, q)
    ensures forall q :: ClashAt(src, was, q) ==> Kept(src, was, q)
  {
    forall q | ClashAt(src, was, q)
      ensures Kept(src, was, q)
    {
      assert q[..|q|] == q;
    }
    if Clash(src, was, []) {
      var q :| [] <= q && ClashAt(src, was, q);
      assert Kept(src, was, q);
    }
    if q: Path :| Kept(src, was, q) {
      var i :| 0 <= i <= |q| && ClashAt(src, was, q[..i]);
      assert [] <= q[..i];
    }
  }

  /** A synced tree mirrors the source exactly when no clash was kept; then only files that stat could
      not tell apart keep their own bytes. */
  lemma SyncedMirrors(src: Tree, was: Tree, now: Tree)
    requires Synced(src, was, now)
    ensures Mirrors(src, now) <==> !Clash(src, was, [])
    ensures forall q :: q in src && q in now && now[q] != src[q] && !Kept(src, was, q) ==>
              q in was && now[q] == was[q] && src[q].File? && was[q].File? && SameStat(src[q], was[q])
    ensures Clash(src, now, []) <==> Clash(src, was, [])
  {
    KeptMeansClash(src, was);
    forall q
      ensures !Kept(src, was, q) ==> (q in now <==> q in src) && (q in src ==> now[q] == Target(src, was, q))
      ensures ClashAt(src, now, q) <==> ClashAt(src, was, q)
    {
      assert SyncedAt(src, was, now, q);
      ClashesSame(src, was, now, q);
    }
    if Clash(src, was, []) {
      var q :| [] <= q && ClashAt(src, was, q);
      assert ClashAt(src, now, q);
    }
  }

  /** Syncing or leaving a path alone neither makes nor removes a clash there. */
  lemma ClashesSame(src: Tree, was: Tree, now: Tree, q: Path)
    requires SyncedAt(src, was, now, q) || SameAt(was, now, q)
    ensures ClashAt(src, now, q) <==> ClashAt(src, was, q)
  {
    assert q[..|q|] == q;
  }

  lemma KeptSame(src: Tree, was: Tree, now: Tree, q: Path)
    requires forall i :: 0 <= i <= |q| ==> (ClashAt(src, was, q[..i]) <==> ClashAt(src, now, q[..i]))
    ensures Kept(src, was, q) <==> Kept(src, now, q)
  {
  }

  /** A second run right after the first finds nothing to change and owes no report. */
  lemma SyncedIsFixed(src: Tree, was: Tree, now: Tree, again: Tree, log: seq<Report>)
    requires Synced(src, was, now) && Synced(src, now, again) && Exact(src, now, [], log)
    ensures again == now && log == []
  {
    forall q
      ensures q in again <==> q in now
      ensures q in now ==> again[q] == now[q]
      ensures forall r: Report :: r.path == q ==> !Due(src, now, r)
    {
      SyncedTwice(src, was, now, q);
      assert SyncedAt(src, was, now, q) && SyncedAt(src, now, again, q);
    }
    assert log != [] ==> multiset(log)[log[0]] > 0;
  }

  lemma SyncedTwice(src: Tree, was: Tree, now: Tree, q: Path)
    requires Synced(src, was, now)
    ensures Kept(src, was, q) <==> Kept(src, now, q)
  {
    forall i | 0 <= i <= |q|
      ensures ClashAt(src, was, q[..i]) <==> ClashAt(src, now, q[..i])
    {
      assert SyncedAt(src, was, now, q[..i]);
      ClashesSame(src, was, now, q[..i]);
    }
    KeptSame(src, was, now, q);
  }

  /** Path accounting: what is there at the end is what was there, less `-`, plus `+`. */
  lemma ReportsAccountForPaths(src: Tree, was: Tree, now: Tree, log: seq<Report>)
    requires Synced(src, was, now) && Exact(src, was, [], log)
    ensures forall q :: q in now <==> Plus(q) in log || (q in was && Minus(q) !in log)
    ensures forall q :: Over(q) in log ==> q in was && q in now && q in src && now[q] == src[q] != was[q]
    ensures forall q :: q in was && q in now && now[q] != was[q] ==>
              Over(q) in log || (Minus(q) in log && Plus(q) in log)
  {
    forall q
      ensures q in now <==> Plus(q) in log || (q in was && Minus(q) !in log)
      ensures Over(q) in log ==> q in was && q in now && q in src && now[q] == src[q] != was[q]
      ensures q in was && q in now && now[q] != was[q] ==> Over(q) in log || (Minus(q) in log && Plus(q) in log)
    {
      assert SyncedAt(src, was, now, q);
      KeptMeansClash(src, was);
      assert multiset(log)[Plus(q)] == if Due(src, was, Plus(q)) then 1 else 0;
      assert multiset(log)[Minus(q)] == if Due(src, was, Minus(q)) then 1 else 0;
      assert multiset(log)[Over(q)] == if Due(src, was, Over(q)) then 1 else 0;
    }
  }
}
