/**
 The re-export closure of an image (`reexport_closure` of scripts/closure_analyze.py): a breadth-first
 walk, bounded in depth, over the images that re-export each other. It returns exactly what the images
 at distance 1 to the bound export, on every graph, cycles included.
 */
module ReexportClosure {
  import opened Prelude

  /** Images are told apart by their real path. */
  type Real = string

  /** `files`: the images that exist. */
  datatype Images = Images(
    files: set<Real>,
    realpath: string -> Real,
    reexports: Real -> seq<string>,
    resolve: string -> Option<string>,
    exports: Real -> set<string>)

  ghost predicate AreImages(w: Images) {
    forall name, b | Resolved(w, name) == Some(b) :: b in w.files
  }

  /** The image that an install name stands for, where it is deployed. */
  function Resolved(w: Images, name: string): Option<Real> {
    var path := w.resolve(name);
    if path.None? || path.value == "" then None else Some(w.realpath(path.value))
  }

  /** What the first `k` re-exports of an image stand for. */
  function Targets(w: Images, a: Real, k: nat): set<Real>
    requires k <= |w.reexports(a)|
  {
    if k == 0 then {}
    else
      var b := Resolved(w, w.reexports(a)[k - 1]);
      Targets(w, a, k - 1) + if b.None? then {} else {b.value}
  }

  predicate IsEdge(w: Images, a: Real, b: Real) {
    b in Targets(w, a, |w.reexports(a)|)
  }

  /** The image is at distance at most `d` from the root. */
  ghost predicate Reached(w: Images, root: Real, d: nat, r: Real) {
    if d == 0 then r == root
    else Reached(w, root, d - 1, r) || exists a :: Reached(w, root, d - 1, a) && IsEdge(w, a, r)
  }

  /** A walk along re-exports. */
  predicate IsWalk(w: Images, walk: seq<Real>) {
    |walk| > 0 && forall i | 0 < i < |walk| :: IsEdge(w, walk[i - 1], walk[i])
  }

  ghost predicate HasWalk(w: Images, root: Real, d: nat, r: Real) {
    exists walk :: IsWalk(w, walk) && walk[0] == root && Last(walk) == r && |walk| <= d + 1
  }

  /** Distance is the length of the shortest walk. */
  lemma ReachedIsWalk(w: Images, root: Real, d: nat, r: Real)
    ensures Reached(w, root, d, r) <==> HasWalk(w, root, d, r)
  {
    if Reached(w, root, d, r) {
      var walk := WalkTo(w, root, d, r);
    }
    if HasWalk(w, root, d, r) {
      var walk :| IsWalk(w, walk) && walk[0] == root && Last(walk) == r && |walk| <= d + 1;
      WalkStays(w, walk, d, |walk| - 1);
    }
  }

  lemma {:induction false} WalkTo(w: Images, root: Real, d: nat, r: Real) returns (walk: seq<Real>)
    requires Reached(w, root, d, r)
    ensures IsWalk(w, walk) && walk[0] == root && Last(walk) == r && |walk| <= d + 1
  {
    if d == 0 {
      walk := [root];
    } else if Reached(w, root, d - 1, r) {
      walk := WalkTo(w, root, d - 1, r);
    } else {
      var a :| Reached(w, root, d - 1, a) && IsEdge(w, a, r);
      var before := WalkTo(w, root, d - 1, a);
      walk := before + [r];
      WalkGrows(w, before, r);
    }
  }

  lemma WalkGrows(w: Images, walk: seq<Real>, r: Real)
    requires IsWalk(w, walk) && IsEdge(w, Last(walk), r)
    ensures IsWalk(w, walk + [r])
  {
  }

  lemma {:induction false} WalkStays(w: Images, walk: seq<Real>, d: nat, k: nat)
    requires IsWalk(w, walk) && k < |walk| && k <= d
    ensures Reached(w, walk[0], d, walk[k])
    decreases d
  {
    if k > 0 {
      WalkStays(w, walk, d - 1, k - 1);
      assert IsEdge(w, walk[k - 1], walk[k]);
    } else if d > 0 {
      WalkStays(w, walk, d - 1, 0);
    }
  }

  lemma {:induction false} ReachedGrows(w: Images, root: Real, d: nat, e: nat, r: Real)
    requires d <= e && Reached(w, root, d, r)
    ensures Reached(w, root, e, r)
    decreases e
  {
    if d < e {
      ReachedGrows(w, root, d, e - 1, r);
    }
  }

  lemma ReachedNext(w: Images, root: Real, d: nat, a: Real, b: Real)
    requires Reached(w, root, d, a) && IsEdge(w, a, b)
    ensures Reached(w, root, d + 1, b)
  {
  }

  // -------------------------------------------------------------- the front

  /** An image waiting to be expanded, and its distance from the root. */
  datatype Waiting = Waiting(path: string, depth: nat)

  predicate AtDepth(q: seq<Waiting>, d: nat) {
    forall i | 0 <= i < |q| :: q[i].depth == d
  }

  predicate Waits(w: Images, q: seq<Waiting>, a: Real) {
    exists i | 0 <= i < |q| :: w.realpath(q[i].path) == a
  }

  /**
   The queue holds images at distance `d` and, behind them, at distance `d + 1`. Everything up to
   distance `d` is seen, everything else that is seen waits at distance `d + 1`, and all that is
   within `d` and waits no longer has been expanded.
   */
  ghost predicate Front(w: Images, root: Real, d: nat, now: seq<Waiting>, later: seq<Waiting>, seen: set<Real>) {
    && AtDepth(now, d) && AtDepth(later, d + 1)
    && (forall a | Waits(w, now, a) :: Reached(w, root, d, a))
    && (forall a | Waits(w, later, a) :: Reached(w, root, d + 1, a))
    && (forall a :: a in seen <==> Reached(w, root, d, a) || Waits(w, later, a))
    && (forall a, b | Reached(w, root, d, a) && !Waits(w, now, a) && IsEdge(w, a, b) :: b in seen)
  }

  /** All images at distance `d` are expanded: the front moves on. */
  lemma NextFront(w: Images, root: Real, d: nat, later: seq<Waiting>, seen: set<Real>)
    requires Front(w, root, d, [], later, seen)
    ensures Front(w, root, d + 1, later, [], seen)
  {
    forall a ensures a in seen <==> Reached(w, root, d + 1, a) {
      if Reached(w, root, d + 1, a) && !Reached(w, root, d, a) {
        var x :| Reached(w, root, d, x) && IsEdge(w, x, a);
      }
    }
    forall a, b | Reached(w, root, d + 1, a) && !Waits(w, later, a) && IsEdge(w, a, b) ensures b in seen {
      assert a in seen;
    }
  }

  lemma WaitsSplit(w: Images, q: seq<Waiting>, r: seq<Waiting>, a: Real)
    ensures Waits(w, q + r, a) <==> Waits(w, q, a) || Waits(w, r, a)
  {
    if Waits(w, q, a) {
      var i :| 0 <= i < |q| && w.realpath(q[i].path) == a;
      assert (q + r)[i] == q[i];
    }
    if Waits(w, r, a) {
      var i :| 0 <= i < |r| && w.realpath(r[i].path) == a;
      assert (q + r)[|q| + i] == r[i];
    }
    if Waits(w, q + r, a) {
      var i :| 0 <= i < |q + r| && w.realpath((q + r)[i].path) == a;
      assert i < |q| ==> q[i] == (q + r)[i];
      assert i >= |q| ==> r[i - |q|] == (q + r)[i];
    }
  }

  /** What expanding one image found: all it re-exports is seen, what is new is queued. */
  ghost predicate Found(w: Images, a: Real, seen: set<Real>, seen': set<Real>, added: seq<Waiting>) {
    && (forall b :: b in seen' <==> b in seen || Waits(w, added, b))
    && (forall b | Waits(w, added, b) :: IsEdge(w, a, b))
    && (forall b | IsEdge(w, a, b) :: b in seen')
  }

  /** The first image of the queue is expanded. */
  lemma Expanded(w: Images, root: Real, d: nat, now: seq<Waiting>, later: seq<Waiting>, seen: set<Real>,
      added: seq<Waiting>, seen': set<Real>)
    requires now != [] && Front(w, root, d, now, later, seen) && AtDepth(added, d + 1)
    requires Found(w, w.realpath(now[0].path), seen, seen', added)
    ensures Front(w, root, d, now[1..], later + added, seen')
  {
    var x := w.realpath(now[0].path);
    assert Waits(w, now, x);
    forall a ensures Waits(w, now, a) <==> a == x || Waits(w, now[1..], a) {
      WaitsSplit(w, [now[0]], now[1..], a);
      assert now == [now[0]] + now[1..];
      OneWaits(w, now[0], a);
    }
    forall a ensures Waits(w, later + added, a) <==> Waits(w, later, a) || Waits(w, added, a) {
      WaitsSplit(w, later, added, a);
    }
    forall a | Waits(w, later + added, a) ensures Reached(w, root, d + 1, a) {
      if Waits(w, added, a) {
        ReachedNext(w, root, d, x, a);
      }
    }
  }

  lemma OneWaits(w: Images, q: Waiting, a: Real)
    ensures Waits(w, [q], a) <==> a == w.realpath(q.path)
  {
    if a == w.realpath(q.path) {
      assert w.realpath([q][0].path) == a;
    }
  }

  /** Where nothing new is reached, nothing is reached later. */
  lemma {:induction false} Stationary(w: Images, root: Real, d: nat, e: nat, r: Real)
    requires d <= e && forall a, b | Reached(w, root, d, a) && IsEdge(w, a, b) :: Reached(w, root, d, b)
    ensures Reached(w, root, e, r) ==> Reached(w, root, d, r)
    decreases e
  {
    if d < e && Reached(w, root, e, r) {
      if Reached(w, root, e - 1, r) {
        Stationary(w, root, d, e - 1, r);
      } else {
        var a :| Reached(w, root, e - 1, a) && IsEdge(w, a, r);
        Stationary(w, root, d, e - 1, a);
      }
    }
  }

  // ---------------------------------------------------------------- the walk

  /** What the images of a list export. */
  function Union(w: Images, rs: seq<Real>): set<string> {
    if rs == [] then {} else Union(w, rs[..|rs| - 1]) + w.exports(rs[|rs| - 1])
  }

  lemma {:induction false} UnionMember(w: Images, rs: seq<Real>, n: string)
    ensures n in Union(w, rs) <==> exists i | 0 <= i < |rs| :: n in w.exports(rs[i])
  {
    if rs != [] {
      var k := |rs| - 1;
      UnionMember(w, rs[..k], n);
      if i :| 0 <= i < |rs| && n in w.exports(rs[i]) {
        assert i < k ==> rs[..k][i] == rs[i];
      }
      if i :| 0 <= i < k && n in w.exports(rs[..k][i]) {
        assert rs[..k][i] == rs[i];
      }
    }
  }

  /** The images seen besides the root, in the order in which they were. */
  ghost predicate Listed(root: Real, seen: set<Real>, order: seq<Real>) {
    root !in order && forall r :: r in seen <==> r == root || r in order
  }

  /** What is gathered: the images seen and their names. */
  ghost predicate Gathered(w: Images, root: Real, seen: set<Real>, order: seq<Real>, names: set<string>) {
    Listed(root, seen, order) && names == Union(w, order) && seen <= w.files + {root}
  }

  lemma GatherOne(w: Images, root: Real, seen: set<Real>, order: seq<Real>, names: set<string>, r: Real)
    requires Gathered(w, root, seen, order, names) && r !in seen && r in w.files
    ensures Gathered(w, root, seen + {r}, order + [r], names + w.exports(r))
  {
    assert (order + [r])[..|order|] == order;
  }

  /** The first `k` re-exports of an image are looked at. */
  ghost predicate FoundSoFar(w: Images, a: Real, k: nat, seen: set<Real>, seen': set<Real>, added: seq<Waiting>)
    requires k <= |w.reexports(a)|
  {
    && (forall b :: b in seen' <==> b in seen || Waits(w, added, b))
    && (forall b | Waits(w, added, b) :: b in Targets(w, a, k))
    && (forall b | b in Targets(w, a, k) :: b in seen')
    && |seen'| == |seen| + |added|
  }

  lemma FoundOne(w: Images, a: Real, k: nat, seen: set<Real>, seen': set<Real>, added: seq<Waiting>, q: Waiting)
    requires k < |w.reexports(a)| && FoundSoFar(w, a, k, seen, seen', added)
    requires Resolved(w, w.reexports(a)[k]) == Some(w.realpath(q.path)) && w.realpath(q.path) !in seen'
    ensures FoundSoFar(w, a, k + 1, seen, seen' + {w.realpath(q.path)}, added + [q])
  {
    forall b ensures Waits(w, added + [q], b) <==> Waits(w, added, b) || b == w.realpath(q.path) {
      WaitsSplit(w, added, [q], b);
      OneWaits(w, q, b);
    }
  }

  lemma FoundNothing(w: Images, a: Real, k: nat, seen: set<Real>, seen': set<Real>, added: seq<Waiting>)
    requires k < |w.reexports(a)| && FoundSoFar(w, a, k, seen, seen', added)
    requires var b := Resolved(w, w.reexports(a)[k]); b.None? || b.value in seen'
    ensures FoundSoFar(w, a, k + 1, seen, seen', added)
  {
  }

  /** One re-export of an image: new ones are seen, read and queued. */
  method Look(w: Images, a: Real, k: nat, depth: nat, seen': set<Real>, names': set<string>, added: seq<Waiting>,
      ghost seen: set<Real>, ghost root: Real, ghost order: seq<Real>)
      returns (seen'': set<Real>, names'': set<string>, added': seq<Waiting>, ghost order': seq<Real>)
    requires AreImages(w) && k < |w.reexports(a)| && FoundSoFar(w, a, k, seen, seen', added)
    requires Gathered(w, root, seen', order, names') && AtDepth(added, depth)
    ensures Gathered(w, root, seen'', order', names'') && AtDepth(added', depth)
    ensures FoundSoFar(w, a, k + 1, seen, seen'', added')
  {
    seen'', names'', added', order' := seen', names', added, order;
    var path := w.resolve(w.reexports(a)[k]);
    if path.None? || path.value == "" || w.realpath(path.value) in seen' {
      FoundNothing(w, a, k, seen, seen', added);
      return;
    }
    var file := w.realpath(path.value);
    assert Resolved(w, w.reexports(a)[k]) == Some(file);
    FoundOne(w, a, k, seen, seen', added, Waiting(path.value, depth));
    GatherOne(w, root, seen', order, names', file);
    seen'', names'', order' := seen' + {file}, names' + w.exports(file), order + [file];
    added' := added + [Waiting(path.value, depth)];
  }

  method Expand(w: Images, current: Waiting, seen: set<Real>, names: set<string>, ghost root: Real, ghost order: seq<Real>)
      returns (seen': set<Real>, names': set<string>, added: seq<Waiting>, ghost order': seq<Real>)
    requires AreImages(w) && Gathered(w, root, seen, order, names)
    ensures Gathered(w, root, seen', order', names') && AtDepth(added, current.depth + 1)
    ensures Found(w, w.realpath(current.path), seen, seen', added) && |seen'| == |seen| + |added|
  {
    var a := w.realpath(current.path);
    seen', names', added, order' := seen, names, [], order;
    for k := 0 to |w.reexports(a)|
      invariant Gathered(w, root, seen', order', names') && AtDepth(added, current.depth + 1)
      invariant FoundSoFar(w, a, k, seen, seen', added)
    {
      seen', names', added, order' := Look(w, a, k, current.depth + 1, seen', names', added, seen, root, order');
    }
  }

  /** Where the walk stands: at the front, or at the bound with nothing left to expand. */
  ghost predicate Walking(w: Images, root: Real, bound: nat, d: nat, now: seq<Waiting>, later: seq<Waiting>, seen: set<Real>)
  {
    if d < bound then Front(w, root, d, now, later, seen)
    else d == bound && later == [] && AtDepth(now, bound) && forall a :: a in seen <==> Reached(w, root, bound, a)
  }

  lemma MoveOn(w: Images, root: Real, bound: nat, d: nat, later: seq<Waiting>, seen: set<Real>)
    requires d < bound && Front(w, root, d, [], later, seen)
    ensures Walking(w, root, bound, d + 1, later, [], seen)
  {
    NextFront(w, root, d, later, seen);
  }

  lemma WalkEnds(w: Images, root: Real, bound: nat, d: nat, seen: set<Real>)
    requires Walking(w, root, bound, d, [], [], seen)
    ensures forall a :: a in seen <==> Reached(w, root, bound, a)
  {
    if d < bound {
      forall a ensures a in seen <==> Reached(w, root, bound, a) {
        Stationary(w, root, d, bound, a);
        if Reached(w, root, d, a) {
          ReachedGrows(w, root, d, bound, a);
        }
      }
    }
  }

  /** One image taken from the front of the queue. */
  method Advance(w: Images, queue: seq<Waiting>, seen: set<Real>, names: set<string>, bound: nat, ghost root: Real,
      ghost d: nat, ghost now: seq<Waiting>, ghost later: seq<Waiting>, ghost order: seq<Real>)
      returns (queue': seq<Waiting>, seen': set<Real>, names': set<string>, ghost now': seq<Waiting>,
        ghost later': seq<Waiting>, ghost order': seq<Real>)
    requires AreImages(w) && now != [] && queue == now + later
    requires Walking(w, root, bound, d, now, later, seen) && Gathered(w, root, seen, order, names)
    ensures queue' == now' + later' && Walking(w, root, bound, d, now', later', seen')
    ensures Gathered(w, root, seen', order', names') && |queue'| - |seen'| == |queue| - |seen| - 1
  {
    var current := queue[0];
    assert current == now[0] && queue[1..] == now[1..] + later;
    queue', seen', names' := queue[1..], seen, names;
    now', later', order' := now[1..], later, order;
    if current.depth < bound {
      var added;
      seen', names', added, order' := Expand(w, current, seen, names, root, order);
      Expanded(w, root, d, now, later, seen, added, seen');
      queue' := queue' + added;
      later' := later + added;
      assert queue' == now' + later';
    }
  }

  /** The names that the images at distance 1 to `bound` export. */
  ghost predicate AreClosureNames(w: Images, root: Real, bound: nat, names: set<string>) {
    forall n :: n in names <==> exists r :: Reached(w, root, bound, r) && r != root && n in w.exports(r)
  }

  lemma GatheredNames(w: Images, root: Real, bound: nat, seen: set<Real>, order: seq<Real>, names: set<string>)
    requires Gathered(w, root, seen, order, names) && forall a :: a in seen <==> Reached(w, root, bound, a)
    ensures AreClosureNames(w, root, bound, names)
  {
    forall n ensures n in names <==> exists r :: Reached(w, root, bound, r) && r != root && n in w.exports(r) {
      UnionMember(w, order, n);
      if i :| 0 <= i < |order| && n in w.exports(order[i]) {
        assert order[i] in seen && order[i] != root;
      }
      if r :| Reached(w, root, bound, r) && r != root && n in w.exports(r) {
        assert r in seen && r in order;
        var i :| 0 <= i < |order| && order[i] == r;
      }
    }
  }

  /** The names that a client of the image can resolve through the images it re-exports. */
  method Closure(w: Images, root: string, bound: nat) returns (names: set<string>)
    requires AreImages(w)
    ensures AreClosureNames(w, w.realpath(root), bound, names)
  {
    ghost var start := w.realpath(root);
    names := {};
    var seen, queue := {w.realpath(root)}, [Waiting(root, 0)];
    ghost var d: nat, now: seq<Waiting>, later: seq<Waiting>, order: seq<Real> := 0, queue, [], [];
    WalkBegins(w, root, bound);
    while queue != []
      invariant queue == now + later && Walking(w, start, bound, d, now, later, seen)
      invariant Gathered(w, start, seen, order, names)
      decreases |w.files + {start}| - |seen| + |queue|
    {
      if now == [] {
        MoveOn(w, start, bound, d, later, seen);
        d, now, later := d + 1, later, [];
      }
      SubsetSize(seen, w.files + {start});
      queue, seen, names, now, later, order := Advance(w, queue, seen, names, bound, start, d, now, later, order);
    }
    WalkEnds(w, start, bound, d, seen);
    GatheredNames(w, start, bound, seen, order, names);
  }

  lemma WalkBegins(w: Images, root: string, bound: nat)
    ensures Walking(w, w.realpath(root), bound, 0, [Waiting(root, 0)], [], {w.realpath(root)})
  {
    forall a ensures Waits(w, [Waiting(root, 0)], a) <==> a == w.realpath(root) {
      OneWaits(w, Waiting(root, 0), a);
    }
  }

  lemma SubsetSize(a: set<Real>, b: set<Real>)
    requires a <= b
    ensures |a| <= |b|
  {
    assert b == a + (b - a);
  }
}
