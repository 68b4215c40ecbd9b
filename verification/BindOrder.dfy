/**
 The order in which dyld binds the images of a closure (`_cover_traversal` of
 scripts/closure_analyze.py): a depth-first post-order that leaves off below a fixed depth, there 200.
 */
module BindOrder {
  import opened Prelude

  /**
   The images in the order of the graph, the install names each one loads, and the column key by
   which an install name is matched with images.
   */
  datatype Graph = Graph(images: seq<string>, dylibs: string -> seq<string>, key: string -> string)

  predicate IsImage(g: Graph, name: string) {
    name in g.images
  }

  /** `b` is matched by one of the install names that `a` loads. */
  predicate IsEdge(g: Graph, a: string, b: string) {
    Matches(g, a, b, |g.dylibs(a)|)
  }

  /** The same for the first `n` of them. */
  predicate Matches(g: Graph, a: string, b: string, n: nat)
    requires n <= |g.dylibs(a)|
  {
    IsImage(g, b) && exists i | 0 <= i < n :: g.key(b) == g.key(g.dylibs(a)[i])
  }

  /** A chain of images, each loaded by the one before. */
  predicate IsWalk(g: Graph, walk: seq<string>) {
    && (forall i | 0 <= i < |walk| :: IsImage(g, walk[i]))
    && forall i | 0 < i < |walk| :: IsEdge(g, walk[i - 1], walk[i])
  }

  ghost predicate Reachable(g: Graph, entries: seq<string>, name: string) {
    exists walk :: IsWalk(g, walk) && |walk| > 0 && walk[0] in entries && Last(walk) == name
  }

  predicate Distinct(s: seq<string>) {
    forall i, j | 0 <= i < j < |s| :: s[i] != s[j]
  }

  function Elements(s: seq<string>): set<string> {
    set x | x in s
  }

  // ------------------------------------------------------------- the traversal

  /** The first `k` images as far as they are matched by the key. */
  function Matching(g: Graph, leaf: string, k: nat): seq<string>
    requires k <= |g.images|
  {
    if k == 0 then []
    else Matching(g, leaf, k - 1) + if g.key(g.images[k - 1]) == leaf then [g.images[k - 1]] else []
  }

  /** What the first `i` install names of an image lead to, in the order it is visited. */
  function Dependencies(g: Graph, name: string, i: nat): seq<string>
    requires i <= |g.dylibs(name)|
  {
    if i == 0 then []
    else Dependencies(g, name, i - 1) + Matching(g, g.key(g.dylibs(name)[i - 1]), |g.images|)
  }

  function AllDependencies(g: Graph, name: string): seq<string> {
    Dependencies(g, name, |g.dylibs(name)|)
  }

  /** Below the limit, if there is one. */
  predicate IsDeep(limit: Option<nat>, depth: nat) {
    limit.Some? && depth > limit.value
  }

  predicate IsFresh(g: Graph, name: string, inProgress: set<string>, done: seq<string>) {
    IsImage(g, name) && name !in inProgress && name !in done
  }

  /** What is listed after a visit: the image comes after all that its visit lists. */
  function VisitOne(g: Graph, limit: Option<nat>, name: string, depth: nat, inProgress: set<string>, done: seq<string>):
    seq<string>
    decreases Elements(g.images) - inProgress, 0
  {
    if !IsFresh(g, name, inProgress, done) || IsDeep(limit, depth) then done
    else VisitAll(g, limit, AllDependencies(g, name), depth + 1, inProgress + {name}, done) + [name]
  }

  function VisitAll(g: Graph, limit: Option<nat>, names: seq<string>, depth: nat, inProgress: set<string>,
      done: seq<string>): seq<string>
    decreases Elements(g.images) - inProgress, |names|
  {
    if names == [] then done
    else
      var before := VisitAll(g, limit, names[..|names| - 1], depth, inProgress, done);
      VisitOne(g, limit, names[|names| - 1], depth, inProgress, before)
  }

  /** The order that a depth-first traversal without a limit gives. */
  function FullOrder(g: Graph, entries: seq<string>): seq<string> {
    VisitAll(g, None, entries, 0, {}, [])
  }

  function BoundedOrder(g: Graph, limit: nat, entries: seq<string>): seq<string> {
    VisitAll(g, Some(limit), entries, 0, {}, [])
  }

  /** The traversal without a limit never enters a new image below the depth. */
  predicate StaysOne(g: Graph, limit: nat, name: string, depth: nat, inProgress: set<string>, done: seq<string>)
    decreases Elements(g.images) - inProgress, 0
  {
    IsFresh(g, name, inProgress, done) ==>
      depth <= limit && StaysAll(g, limit, AllDependencies(g, name), depth + 1, inProgress + {name}, done)
  }

  predicate StaysAll(g: Graph, limit: nat, names: seq<string>, depth: nat, inProgress: set<string>, done: seq<string>)
    decreases Elements(g.images) - inProgress, |names|
  {
    names != [] ==>
      && StaysAll(g, limit, names[..|names| - 1], depth, inProgress, done)
      && StaysOne(g, limit, names[|names| - 1], depth, inProgress,
                  VisitAll(g, None, names[..|names| - 1], depth, inProgress, done))
  }

  predicate Stays(g: Graph, limit: nat, entries: seq<string>) {
    StaysAll(g, limit, entries, 0, {}, [])
  }

  // ------------------------------------------------------------ dependencies

  lemma {:induction false} MatchingAre(g: Graph, leaf: string, k: nat, b: string)
    requires k <= |g.images|
    ensures b in Matching(g, leaf, k) <==> b in g.images[..k] && g.key(b) == leaf
  {
    if k > 0 {
      MatchingAre(g, leaf, k - 1, b);
      assert g.images[..k] == g.images[..k - 1] + [g.images[k - 1]];
    }
  }

  lemma {:induction false} DependenciesAre(g: Graph, a: string, i: nat, b: string)
    requires i <= |g.dylibs(a)|
    ensures b in Dependencies(g, a, i) <==> Matches(g, a, b, i)
  {
    if i > 0 {
      DependenciesAre(g, a, i - 1, b);
      MatchingAre(g, g.key(g.dylibs(a)[i - 1]), |g.images|, b);
      assert g.images[..|g.images|] == g.images;
      if Matches(g, a, b, i) && !Matches(g, a, b, i - 1) {
        assert g.key(b) == g.key(g.dylibs(a)[i - 1]);
      }
    }
  }

  lemma EdgeIff(g: Graph, a: string, b: string)
    ensures b in AllDependencies(g, a) <==> IsEdge(g, a, b)
  {
    DependenciesAre(g, a, |g.dylibs(a)|, b);
  }

  // --------------------------------------------------------------- the limit

  lemma {:induction false} OneGrows(g: Graph, limit: Option<nat>, name: string, depth: nat, inProgress: set<string>,
      done: seq<string>)
    ensures done <= VisitOne(g, limit, name, depth, inProgress, done)
    decreases Elements(g.images) - inProgress, 0
  {
    if IsFresh(g, name, inProgress, done) && !IsDeep(limit, depth) {
      AllGrows(g, limit, AllDependencies(g, name), depth + 1, inProgress + {name}, done);
    }
  }

  lemma {:induction false} AllGrows(g: Graph, limit: Option<nat>, names: seq<string>, depth: nat, inProgress: set<string>,
      done: seq<string>)
    ensures done <= VisitAll(g, limit, names, depth, inProgress, done)
    decreases Elements(g.images) - inProgress, |names|
  {
    if names != [] {
      AllGrows(g, limit, names[..|names| - 1], depth, inProgress, done);
      OneGrows(g, limit, names[|names| - 1], depth, inProgress,
               VisitAll(g, limit, names[..|names| - 1], depth, inProgress, done));
    }
  }

  /** An image in progress is not listed meanwhile. */
  lemma {:induction false} OneSkips(g: Graph, limit: Option<nat>, name: string, depth: nat, inProgress: set<string>,
      done: seq<string>, x: string)
    requires x in inProgress && x !in done
    ensures x !in VisitOne(g, limit, name, depth, inProgress, done)
    decreases Elements(g.images) - inProgress, 0
  {
    if IsFresh(g, name, inProgress, done) && !IsDeep(limit, depth) {
      AllSkips(g, limit, AllDependencies(g, name), depth + 1, inProgress + {name}, done, x);
    }
  }

  lemma {:induction false} AllSkips(g: Graph, limit: Option<nat>, names: seq<string>, depth: nat, inProgress: set<string>,
      done: seq<string>, x: string)
    requires x in inProgress && x !in done
    ensures x !in VisitAll(g, limit, names, depth, inProgress, done)
    decreases Elements(g.images) - inProgress, |names|
  {
    if names != [] {
      AllSkips(g, limit, names[..|names| - 1], depth, inProgress, done, x);
      OneSkips(g, limit, names[|names| - 1], depth, inProgress,
               VisitAll(g, limit, names[..|names| - 1], depth, inProgress, done), x);
    }
  }

  /** Where the traversal stays within the limit, the limit changes nothing. */
  lemma {:induction false} OneSame(g: Graph, limit: nat, name: string, depth: nat, inProgress: set<string>, done: seq<string>)
    requires StaysOne(g, limit, name, depth, inProgress, done)
    ensures VisitOne(g, Some(limit), name, depth, inProgress, done) == VisitOne(g, None, name, depth, inProgress, done)
    decreases Elements(g.images) - inProgress, 0
  {
    if IsFresh(g, name, inProgress, done) {
      AllSame(g, limit, AllDependencies(g, name), depth + 1, inProgress + {name}, done);
    }
  }

  lemma {:induction false} AllSame(g: Graph, limit: nat, names: seq<string>, depth: nat, inProgress: set<string>,
      done: seq<string>)
    requires StaysAll(g, limit, names, depth, inProgress, done)
    ensures VisitAll(g, Some(limit), names, depth, inProgress, done) == VisitAll(g, None, names, depth, inProgress, done)
    decreases Elements(g.images) - inProgress, |names|
  {
    if names != [] {
      AllSame(g, limit, names[..|names| - 1], depth, inProgress, done);
      OneSame(g, limit, names[|names| - 1], depth, inProgress,
              VisitAll(g, None, names[..|names| - 1], depth, inProgress, done));
    }
  }

  /** They differ at some place that both have, whatever is listed later. */
  predicate Differ(a: seq<string>, b: seq<string>) {
    exists k | 0 <= k < |a| && k < |b| :: a[k] != b[k]
  }

  lemma DifferLonger(a: seq<string>, b: seq<string>, a': seq<string>, b': seq<string>)
    requires Differ(a, b) && a <= a' && b <= b'
    ensures Differ(a', b')
  {
    var k :| 0 <= k < |a| && k < |b| && a[k] != b[k];
    assert a'[k] != b'[k];
  }

  /** Some listed image loads one that is not listed before it. */
  ghost predicate IsBroken(g: Graph, done: seq<string>) {
    exists i, b | 0 <= i < |done| && IsEdge(g, done[i], b) :: b !in done[..i]
  }

  lemma BrokenLonger(g: Graph, done: seq<string>, done': seq<string>)
    requires IsBroken(g, done) && done <= done'
    ensures IsBroken(g, done')
  {
    var i, b :| 0 <= i < |done| && IsEdge(g, done[i], b) && b !in done[..i];
    assert done'[i] == done[i] && done'[..i] == done[..i];
  }

  /** Below the limit nothing is listed. */
  lemma {:induction false} DeepAll(g: Graph, limit: nat, names: seq<string>, depth: nat, inProgress: set<string>,
      done: seq<string>)
    requires depth > limit
    ensures VisitAll(g, Some(limit), names, depth, inProgress, done) == done
    decreases |names|
  {
    if names != [] {
      DeepAll(g, limit, names[..|names| - 1], depth, inProgress, done);
    }
  }

  /** What is cut off below the limit is new. */
  lemma {:induction false} CutIsFresh(g: Graph, limit: nat, names: seq<string>, depth: nat, inProgress: set<string>,
      done: seq<string>) returns (y: string)
    requires depth > limit && !StaysAll(g, limit, names, depth, inProgress, done)
    ensures y in names && IsFresh(g, y, inProgress, done)
    ensures done < VisitAll(g, None, names, depth, inProgress, done)
    decreases |names|
  {
    var front, last := names[..|names| - 1], names[|names| - 1];
    var before := VisitAll(g, None, front, depth, inProgress, done);
    if StaysAll(g, limit, front, depth, inProgress, done) {
      AllSame(g, limit, front, depth, inProgress, done);
      DeepAll(g, limit, front, depth, inProgress, done);
      y := last;
      AllGrows(g, None, AllDependencies(g, last), depth + 1, inProgress + {last}, done);
    } else {
      y := CutIsFresh(g, limit, front, depth, inProgress, done);
      OneGrows(g, None, last, depth, inProgress, before);
    }
  }

  /** Where the limit cuts, the image above is listed too early, and the orders part. */
  lemma CutBreaks(g: Graph, limit: nat, name: string, depth: nat, inProgress: set<string>, done: seq<string>)
    requires depth == limit && IsFresh(g, name, inProgress, done)
    requires !StaysAll(g, limit, AllDependencies(g, name), depth + 1, inProgress + {name}, done)
    ensures IsBroken(g, VisitOne(g, Some(limit), name, depth, inProgress, done))
    ensures Differ(VisitOne(g, Some(limit), name, depth, inProgress, done), VisitOne(g, None, name, depth, inProgress, done))
  {
    var names, within := AllDependencies(g, name), inProgress + {name};
    var y := CutIsFresh(g, limit, names, depth + 1, within, done);
    DeepAll(g, limit, names, depth + 1, within, done);
    EdgeIff(g, name, y);
    var short := done + [name];
    assert short[|done|] == name && short[..|done|] == done;
    AllSkips(g, None, names, depth + 1, within, done, name);
    var full := VisitAll(g, None, names, depth + 1, within, done);
    assert full[|done|] in full && (full + [name])[|done|] == full[|done|];
    assert short[|done|] != (full + [name])[|done|];
  }

  lemma {:induction false} OneBreaks(g: Graph, limit: nat, name: string, depth: nat, inProgress: set<string>,
      done: seq<string>)
    requires depth <= limit && !StaysOne(g, limit, name, depth, inProgress, done)
    ensures IsBroken(g, VisitOne(g, Some(limit), name, depth, inProgress, done))
    ensures Differ(VisitOne(g, Some(limit), name, depth, inProgress, done), VisitOne(g, None, name, depth, inProgress, done))
    decreases Elements(g.images) - inProgress, 0
  {
    if depth == limit {
      CutBreaks(g, limit, name, depth, inProgress, done);
    } else {
      var names, within := AllDependencies(g, name), inProgress + {name};
      AllBreaks(g, limit, names, depth + 1, within, done);
      var short, full := VisitAll(g, Some(limit), names, depth + 1, within, done), VisitAll(g, None, names, depth + 1, within, done);
      BrokenLonger(g, short, short + [name]);
      DifferLonger(short, full, short + [name], full + [name]);
    }
  }

  lemma {:induction false} AllBreaks(g: Graph, limit: nat, names: seq<string>, depth: nat, inProgress: set<string>,
      done: seq<string>)
    requires depth <= limit && !StaysAll(g, limit, names, depth, inProgress, done)
    ensures IsBroken(g, VisitAll(g, Some(limit), names, depth, inProgress, done))
    ensures Differ(VisitAll(g, Some(limit), names, depth, inProgress, done), VisitAll(g, None, names, depth, inProgress, done))
    decreases Elements(g.images) - inProgress, |names|
  {
    var front, last := names[..|names| - 1], names[|names| - 1];
    if StaysAll(g, limit, front, depth, inProgress, done) {
      AllSame(g, limit, front, depth, inProgress, done);
      OneBreaks(g, limit, last, depth, inProgress, VisitAll(g, None, front, depth, inProgress, done));
    } else {
      AllBreaks(g, limit, front, depth, inProgress, done);
      var short, full := VisitAll(g, Some(limit), front, depth, inProgress, done), VisitAll(g, None, front, depth, inProgress, done);
      OneGrows(g, Some(limit), last, depth, inProgress, short);
      OneGrows(g, None, last, depth, inProgress, full);
      BrokenLonger(g, short, VisitOne(g, Some(limit), last, depth, inProgress, short));
      DifferLonger(short, full, VisitOne(g, Some(limit), last, depth, inProgress, short),
                   VisitOne(g, None, last, depth, inProgress, full));
    }
  }

  /** The limit changes the order exactly when the traversal would enter a new image below it. */
  lemma LimitIff(g: Graph, limit: nat, entries: seq<string>)
    ensures BoundedOrder(g, limit, entries) == FullOrder(g, entries) <==> Stays(g, limit, entries)
  {
    if Stays(g, limit, entries) {
      AllSame(g, limit, entries, 0, {}, []);
    } else {
      AllBreaks(g, limit, entries, 0, {}, []);
    }
  }

  // ------------------------------------------------- the order without a limit

  ghost predicate Acyclic(g: Graph) {
    forall walk | IsWalk(g, walk) && |walk| > 1 :: walk[0] != Last(walk)
  }

  /** Everything that a listed image loads is listed or in progress. */
  ghost predicate Closed(g: Graph, done: seq<string>, inProgress: set<string>) {
    forall a, b | a in done && IsEdge(g, a, b) :: b in done || b in inProgress
  }

  /** Every dependency of a listed image is listed before it. */
  ghost predicate Ordered(g: Graph, done: seq<string>) {
    forall i, b | 0 <= i < |done| && IsEdge(g, done[i], b) :: b in done[..i]
  }

  /** It is at the end of a chain from an entry, one that the limit allows if there is one. */
  ghost predicate IsNear(g: Graph, entries: seq<string>, limit: Option<nat>, name: string) {
    exists walk :: IsWalk(g, walk) && |walk| > 0 && !IsDeep(limit, |walk| - 1) && walk[0] in entries && Last(walk) == name
  }

  /** The call stack: a chain from an entry that holds the images in progress. */
  ghost predicate IsStack(g: Graph, entries: seq<string>, stack: seq<string>, inProgress: set<string>) {
    && IsWalk(g, stack) && Distinct(stack) && (|stack| > 0 ==> stack[0] in entries)
    && forall x :: x in stack <==> x in inProgress
  }

  /** The next image: an entry, or loaded by the image on top of the stack. */
  predicate Follows(g: Graph, entries: seq<string>, stack: seq<string>, name: string) {
    IsImage(g, name) && if stack == [] then name in entries else IsEdge(g, Last(stack), name)
  }

  lemma StackGrows(g: Graph, entries: seq<string>, stack: seq<string>, inProgress: set<string>, name: string)
    requires IsStack(g, entries, stack, inProgress) && Follows(g, entries, stack, name) && name !in inProgress
    ensures IsStack(g, entries, stack + [name], inProgress + {name})
  {
    forall i | 0 < i < |stack + [name]| ensures IsEdge(g, (stack + [name])[i - 1], (stack + [name])[i]) {
      if i < |stack| {
        assert IsEdge(g, stack[i - 1], stack[i]);
      }
    }
  }

  lemma StackReaches(g: Graph, entries: seq<string>, limit: Option<nat>, stack: seq<string>, inProgress: set<string>,
      name: string)
    requires IsStack(g, entries, stack, inProgress) && Follows(g, entries, stack, name) && name !in inProgress
    requires !IsDeep(limit, |stack|)
    ensures IsNear(g, entries, limit, name)
  {
    StackGrows(g, entries, stack, inProgress, name);
    assert Last(stack + [name]) == name && |stack + [name]| - 1 == |stack|;
  }

  /** A dependency on the stack closes a cycle. */
  lemma Cycle(g: Graph, stack: seq<string>, j: nat)
    requires IsWalk(g, stack) && j < |stack| && IsEdge(g, Last(stack), stack[j])
    ensures IsWalk(g, stack[j..] + [stack[j]])
  {
    var walk := stack[j..] + [stack[j]];
    forall i | 0 < i < |walk| ensures IsEdge(g, walk[i - 1], walk[i]) {
      if i < |stack| - j {
        assert IsEdge(g, stack[j + i - 1], stack[j + i]);
        assert walk[i - 1] == stack[j + i - 1] && walk[i] == stack[j + i];
      } else {
        assert walk[i - 1] == Last(stack);
      }
    }
  }

  /** In a graph without cycles nothing on the stack is loaded by the image on top of it. */
  lemma NoCycle(g: Graph, entries: seq<string>, stack: seq<string>, inProgress: set<string>, b: string)
    requires Acyclic(g) && stack != [] && IsStack(g, entries, stack, inProgress) && IsEdge(g, Last(stack), b)
    ensures b !in inProgress
  {
    forall j | 0 <= j < |stack| ensures stack[j] != b {
      if stack[j] == b {
        Cycle(g, stack, j);
      }
    }
  }

  /** Listed images are distinct, reachable and not in progress; without a limit dependencies are where they should be. */
  ghost predicate Listing(g: Graph, entries: seq<string>, limit: Option<nat>, done: seq<string>, inProgress: set<string>) {
    && Distinct(done) && (forall x | x in done :: x !in inProgress && IsNear(g, entries, limit, x))
    && (limit.None? ==> Closed(g, done, inProgress))
    && (limit.None? && Acyclic(g) ==> Ordered(g, done))
  }

  /** All the images are listed or in progress. */
  predicate Loaded(g: Graph, names: seq<string>, done: seq<string>, inProgress: set<string>) {
    forall k | 0 <= k < |names| && IsImage(g, names[k]) :: names[k] in done || names[k] in inProgress
  }

  lemma EnterKeeps(g: Graph, entries: seq<string>, limit: Option<nat>, done: seq<string>, inProgress: set<string>,
      name: string)
    requires Listing(g, entries, limit, done, inProgress) && name !in done
    ensures Listing(g, entries, limit, done, inProgress + {name})
  {
  }

  lemma LeaveKeeps(g: Graph, entries: seq<string>, limit: Option<nat>, done: seq<string>, inProgress: set<string>,
      name: string, stack: seq<string>)
    requires name !in inProgress && Listing(g, entries, limit, done, inProgress + {name})
    requires IsStack(g, entries, stack, inProgress) && Follows(g, entries, stack, name) && !IsDeep(limit, |stack|)
    requires limit.None? ==> Loaded(g, AllDependencies(g, name), done, inProgress + {name})
    ensures Listing(g, entries, limit, done + [name], inProgress)
  {
    StackReaches(g, entries, limit, stack, inProgress, name);
    if limit.None? {
      forall b | IsEdge(g, name, b) ensures b in done || b in inProgress + {name} {
        EdgeIff(g, name, b);
      }
      if Acyclic(g) {
        LeaveOrdered(g, entries, done, inProgress, name, stack);
      }
    }
  }

  lemma LeaveOrdered(g: Graph, entries: seq<string>, done: seq<string>, inProgress: set<string>, name: string,
      stack: seq<string>)
    requires Acyclic(g) && name !in inProgress && Ordered(g, done)
    requires forall b | IsEdge(g, name, b) :: b in done || b in inProgress + {name}
    requires IsStack(g, entries, stack, inProgress) && Follows(g, entries, stack, name)
    ensures Ordered(g, done + [name])
  {
    var next := done + [name];
    StackGrows(g, entries, stack, inProgress, name);
    forall i, b | 0 <= i < |next| && IsEdge(g, next[i], b) ensures b in next[..i] {
      if i < |done| {
        assert next[..i] == done[..i];
      } else {
        NoCycle(g, entries, stack + [name], inProgress + {name}, b);
        assert next[..i] == done;
      }
    }
  }

  lemma {:induction false} OneKeeps(g: Graph, entries: seq<string>, limit: Option<nat>, name: string, stack: seq<string>,
      inProgress: set<string>, done: seq<string>)
    requires Listing(g, entries, limit, done, inProgress) && IsStack(g, entries, stack, inProgress)
    requires IsImage(g, name) ==> Follows(g, entries, stack, name)
    ensures Listing(g, entries, limit, VisitOne(g, limit, name, |stack|, inProgress, done), inProgress)
    ensures limit.None? && IsImage(g, name) ==>
      name in inProgress || name in VisitOne(g, limit, name, |stack|, inProgress, done)
    decreases Elements(g.images) - inProgress, 0
  {
    if IsFresh(g, name, inProgress, done) && !IsDeep(limit, |stack|) {
      var names, within := AllDependencies(g, name), inProgress + {name};
      StackGrows(g, entries, stack, inProgress, name);
      EnterKeeps(g, entries, limit, done, inProgress, name);
      forall k | 0 <= k < |names| ensures Follows(g, entries, stack + [name], names[k]) {
        EdgeIff(g, name, names[k]);
      }
      AllKeeps(g, entries, limit, names, stack + [name], within, done);
      LeaveKeeps(g, entries, limit, VisitAll(g, limit, names, |stack| + 1, within, done), inProgress, name, stack);
    }
  }

  lemma {:induction false} AllKeeps(g: Graph, entries: seq<string>, limit: Option<nat>, names: seq<string>,
      stack: seq<string>, inProgress: set<string>, done: seq<string>)
    requires Listing(g, entries, limit, done, inProgress) && IsStack(g, entries, stack, inProgress)
    requires forall k | 0 <= k < |names| && IsImage(g, names[k]) :: Follows(g, entries, stack, names[k])
    ensures Listing(g, entries, limit, VisitAll(g, limit, names, |stack|, inProgress, done), inProgress)
    ensures limit.None? ==> Loaded(g, names, VisitAll(g, limit, names, |stack|, inProgress, done), inProgress)
    decreases Elements(g.images) - inProgress, |names|
  {
    if names != [] {
      var front, last := names[..|names| - 1], names[|names| - 1];
      AllKeeps(g, entries, limit, front, stack, inProgress, done);
      var before := VisitAll(g, limit, front, |stack|, inProgress, done);
      OneKeeps(g, entries, limit, last, stack, inProgress, before);
      OneGrows(g, limit, last, |stack|, inProgress, before);
      var after := VisitOne(g, limit, last, |stack|, inProgress, before);
      if limit.None? {
        forall k | 0 <= k < |names| && IsImage(g, names[k]) ensures names[k] in after || names[k] in inProgress {
          if k < |front| {
            assert names[k] == front[k];
          }
        }
      }
    }
  }

  lemma OrderKeeps(g: Graph, limit: Option<nat>, entries: seq<string>)
    ensures Listing(g, entries, limit, VisitAll(g, limit, entries, 0, {}, []), {})
    ensures limit.None? ==> Loaded(g, entries, VisitAll(g, limit, entries, 0, {}, []), {})
  {
    AllKeeps(g, entries, limit, entries, [], {}, []);
  }

  lemma {:induction false} WalkListed(g: Graph, done: seq<string>, walk: seq<string>, k: nat)
    requires Closed(g, done, {}) && IsWalk(g, walk) && k < |walk| && walk[0] in done
    ensures walk[k] in done
  {
    if k > 0 {
      WalkListed(g, done, walk, k - 1);
      assert IsEdge(g, walk[k - 1], walk[k]);
    }
  }

  /**
   Without a limit the order lists exactly the reachable images, each once, and where nothing is
   cyclic each after all it loads.
   */
  lemma FullOrderIs(g: Graph, entries: seq<string>)
    ensures Distinct(FullOrder(g, entries)) && (Acyclic(g) ==> Ordered(g, FullOrder(g, entries)))
    ensures forall x :: x in FullOrder(g, entries) <==> Reachable(g, entries, x)
  {
    OrderKeeps(g, None, entries);
    var order := FullOrder(g, entries);
    forall x ensures x in order <==> Reachable(g, entries, x) {
      if x in order {
        assert IsNear(g, entries, None, x);
      }
      if Reachable(g, entries, x) {
        var walk :| IsWalk(g, walk) && |walk| > 0 && walk[0] in entries && Last(walk) == x;
        WalkListed(g, order, walk, |walk| - 1);
      }
    }
  }

  /** In a graph without cycles the bounded order is a post-order exactly when it stays within its limit. */
  lemma PostOrderIff(g: Graph, limit: nat, entries: seq<string>)
    requires Acyclic(g)
    ensures Ordered(g, BoundedOrder(g, limit, entries)) <==> Stays(g, limit, entries)
  {
    if Stays(g, limit, entries) {
      LimitIff(g, limit, entries);
      FullOrderIs(g, entries);
    } else {
      AllBreaks(g, limit, entries, 0, {}, []);
    }
  }

  // -------------------------------------------------------------- the program

  class Traversal {
    const graph: Graph
    const limit: nat
    var done: seq<string>
    var inProgress: set<string>

    constructor (graph: Graph, limit: nat)
      ensures this.graph == graph && this.limit == limit && done == [] && inProgress == {}
    {
      this.graph, this.limit := graph, limit;
      done, inProgress := [], {};
    }

    /** Visits an image: unless it is listed, in progress or too deep, its dependencies come first. */
    method Visit(name: string, depth: nat)
      modifies this
      ensures inProgress == old(inProgress)
      ensures done == VisitOne(graph, Some(limit), name, depth, old(inProgress), old(done))
      decreases Elements(graph.images) - inProgress, 0
    {
      if name in inProgress || name in done || depth > limit || name !in graph.images {
        return;
      }
      ghost var before := inProgress;
      inProgress := inProgress + {name};
      VisitDependencies(name, depth);
      inProgress := inProgress - {name};
      done := done + [name];
      assert inProgress == before;
    }

    method VisitDependencies(name: string, depth: nat)
      modifies this
      ensures inProgress == old(inProgress)
      ensures done == VisitAll(graph, Some(limit), AllDependencies(graph, name), depth + 1, old(inProgress), old(done))
      decreases Elements(graph.images) - inProgress, 2
    {
      for i := 0 to |graph.dylibs(name)|
        invariant inProgress == old(inProgress)
        invariant done == VisitAll(graph, Some(limit), Dependencies(graph, name, i), depth + 1, inProgress, old(done))
      {
        VisitMatching(name, i, depth, old(done));
      }
    }

    /** Every image that one install name is matched with. */
    method VisitMatching(name: string, i: nat, depth: nat, ghost start: seq<string>)
      requires i < |graph.dylibs(name)|
      requires done == VisitAll(graph, Some(limit), Dependencies(graph, name, i), depth + 1, inProgress, start)
      modifies this
      ensures inProgress == old(inProgress)
      ensures done == VisitAll(graph, Some(limit), Dependencies(graph, name, i + 1), depth + 1, inProgress, start)
      decreases Elements(graph.images) - inProgress, 1
    {
      var leaf := graph.key(graph.dylibs(name)[i]);
      ghost var earlier := Dependencies(graph, name, i);
      assert earlier + Matching(graph, leaf, 0) == earlier;
      for k := 0 to |graph.images|
        invariant inProgress == old(inProgress)
        invariant done == VisitAll(graph, Some(limit), earlier + Matching(graph, leaf, k), depth + 1, inProgress, start)
      {
        var candidate := graph.images[k];
        ghost var names := earlier + Matching(graph, leaf, k);
        if graph.key(candidate) == leaf {
          Visit(candidate, depth + 1);
          assert earlier + Matching(graph, leaf, k + 1) == names + [candidate];
          assert (names + [candidate])[..|names|] == names;
        } else {
          assert earlier + Matching(graph, leaf, k + 1) == names;
        }
      }
    }
  }

  /**
   The bind order of the entries: no image twice, none that a chain within the limit does not reach;
   and where the traversal stays within its limit, exactly the reachable ones, each after all it loads
   unless something is cyclic.
   */
  method CoverTraversal(g: Graph, limit: nat, entries: seq<string>) returns (order: seq<string>)
    ensures order == BoundedOrder(g, limit, entries)
    ensures Distinct(order) && forall x | x in order :: IsNear(g, entries, Some(limit), x)
    ensures Stays(g, limit, entries) ==> forall x :: x in order <==> Reachable(g, entries, x)
    ensures Acyclic(g) ==> (Ordered(g, order) <==> Stays(g, limit, entries))
  {
    var t := new Traversal(g, limit);
    for i := 0 to |entries|
      invariant t.graph == g && t.limit == limit && t.inProgress == {}
      invariant t.done == VisitAll(g, Some(limit), entries[..i], 0, {}, [])
    {
      assert entries[..i + 1][..i] == entries[..i];
      t.Visit(entries[i], 0);
    }
    assert entries[..|entries|] == entries;
    order := t.done;
    OrderKeeps(g, Some(limit), entries);
    LimitIff(g, limit, entries);
    FullOrderIs(g, entries);
    if Acyclic(g) {
      PostOrderIff(g, limit, entries);
    }
  }

  // ----------------------------------------------------------- shallow graphs

  lemma {:induction false} SmallOne(g: Graph, limit: nat, name: string, depth: nat, inProgress: set<string>, done: seq<string>)
    requires |g.images| <= limit + 1 && depth == |inProgress| && inProgress <= Elements(g.images)
    ensures StaysOne(g, limit, name, depth, inProgress, done)
    decreases Elements(g.images) - inProgress, 0
  {
    if IsFresh(g, name, inProgress, done) {
      ListSize(g.images);
      SubsetSize(inProgress + {name}, Elements(g.images));
      SmallAll(g, limit, AllDependencies(g, name), depth + 1, inProgress + {name}, done);
    }
  }

  lemma {:induction false} SmallAll(g: Graph, limit: nat, names: seq<string>, depth: nat, inProgress: set<string>,
      done: seq<string>)
    requires |g.images| <= limit + 1 && depth == |inProgress| && inProgress <= Elements(g.images)
    ensures StaysAll(g, limit, names, depth, inProgress, done)
    decreases Elements(g.images) - inProgress, |names|
  {
    if names != [] {
      SmallAll(g, limit, names[..|names| - 1], depth, inProgress, done);
      SmallOne(g, limit, names[|names| - 1], depth, inProgress,
               VisitAll(g, None, names[..|names| - 1], depth, inProgress, done));
    }
  }

  /** With no more images than one chain within the limit can have, the limit never cuts. */
  lemma SmallStays(g: Graph, limit: nat, entries: seq<string>)
    requires |g.images| <= limit + 1
    ensures Stays(g, limit, entries)
  {
    SmallAll(g, limit, entries, 0, {}, []);
  }

  lemma {:induction false} ListSize(s: seq<string>)
    ensures |Elements(s)| <= |s|
  {
    if s != [] {
      var n := |s| - 1;
      ListSize(s[..n]);
      assert Elements(s) == Elements(s[..n]) + {s[n]};
    }
  }

  lemma SubsetSize(a: set<string>, b: set<string>)
    requires a <= b
    ensures |a| <= |b|
  {
    assert b == a + (b - a);
  }

  /** Image number `i` of a chain in which each image loads the next. */
  function Link(i: nat): string {
    seq(i, _ => 'x')
  }

  function ChainGraph(n: nat): Graph {
    Graph(seq(n, i requires 0 <= i => Link(i)), name => [name + "x"], name => name)
  }

  lemma LinkEdge(n: nat, a: string, b: string)
    ensures IsEdge(ChainGraph(n), a, b) <==> b == a + "x" && b in ChainGraph(n).images
  {
    var g := ChainGraph(n);
    assert g.dylibs(a) == [a + "x"];
    if b == a + "x" && b in g.images {
      assert g.key(b) == g.key(g.dylibs(a)[0]);
    }
  }

  lemma {:induction false} ChainWalk(n: nat, walk: seq<string>, k: nat)
    requires IsWalk(ChainGraph(n), walk) && k < |walk|
    ensures |walk[k]| == |walk[0]| + k
  {
    if k > 0 {
      ChainWalk(n, walk, k - 1);
      assert IsEdge(ChainGraph(n), walk[k - 1], walk[k]);
      LinkEdge(n, walk[k - 1], walk[k]);
    }
  }

  lemma {:induction false} ChainReaches(n: nat, k: nat) returns (walk: seq<string>)
    requires k < n
    ensures IsWalk(ChainGraph(n), walk) && |walk| == k + 1 && walk[0] == Link(0) && Last(walk) == Link(k)
  {
    var g := ChainGraph(n);
    assert g.images[k] == Link(k);
    if k == 0 {
      walk := [Link(0)];
    } else {
      var before := ChainReaches(n, k - 1);
      walk := before + [Link(k)];
      assert Link(k) == Link(k - 1) + "x";
      LinkEdge(n, Link(k - 1), Link(k));
      forall i | 0 < i < |walk| ensures IsEdge(g, walk[i - 1], walk[i]) {
        if i < |before| {
          assert IsEdge(g, before[i - 1], before[i]);
        }
      }
    }
  }

  /** One image more, in a chain, and the last of them is never listed. */
  lemma LimitLosesImages(limit: nat) returns (g: Graph, entries: seq<string>, lost: string)
    ensures |g.images| == limit + 2 && Reachable(g, entries, lost)
    ensures lost !in BoundedOrder(g, limit, entries) && !Stays(g, limit, entries)
  {
    var n := limit + 2;
    g, entries, lost := ChainGraph(n), [Link(0)], Link(limit + 1);
    var walk := ChainReaches(n, limit + 1);
    forall w | IsWalk(g, w) && |w| > 0 && w[0] in entries && Last(w) == lost ensures |w| > limit + 1 {
      ChainWalk(n, w, |w| - 1);
    }
    OrderKeeps(g, Some(limit), entries);
    assert !IsNear(g, entries, Some(limit), lost);
    LimitIff(g, limit, entries);
    FullOrderIs(g, entries);
  }
}
