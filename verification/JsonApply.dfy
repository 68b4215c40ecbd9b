/**
 Assigning derived values into a loaded document (`_apply` of
 scripts/generate_namespace_writer_registry.py) against splicing them into its text.
 */
module JsonApply {
  import opened Prelude
  import opened JsonSyntax
  import opened JsonValues
  import opened JsonRender
  import opened JsonSplice

  // ------------------------------------------------------------ assignments

  /** One assignment per derived value, in order; nothing when one of them raises. */
  function Apply(v: Value, ds: Derived): Option<Value> {
    if ds == [] then Some(v)
    else
      var n := |ds| - 1;
      var before := Apply(v, ds[..n]);
      if before.None? then None else SetAt(before.value, ds[n].0, ds[n].1)
  }

  method ApplyDerived(document: Value, ds: Derived) returns (r: Option<Value>)
    ensures r == Apply(document, ds)
  {
    r := Some(document);
    for j := 0 to |ds|
      invariant r == Apply(document, ds[..j])
    {
      assert ds[..j + 1][..j] == ds[..j];
      if r.Some? {
        r := SetAt(r.value, ds[j].0, ds[j].1);
      }
    }
    assert ds[..|ds|] == ds;
  }

  /** No derived path leads through another. */
  predicate Antichain(ds: Derived) {
    forall i, j | 0 <= i < j < |ds| :: Apart(ds[i].0, ds[j].0)
  }

  /** The path names a scalar of the document. */
  predicate ScalarAt(v: Value, p: Path)
    decreases |p|
  {
    if p == [] then !v.Tree?
    else v.Tree? && p[0] in Steps(v.fields) && ScalarAt(Find(v.fields, p[0]).value, p[1..])
  }

  // ------------------------------------------------- uniqueness, equalities

  lemma {:induction false} AssignUnique(fs: Fields, s: Step, x: Value)
    requires UniqueFields(fs) && Unique(x)
    ensures UniqueFields(Assign(fs, s, x))
  {
    if fs.Field? {
      AssignUnique(fs.rest, s, x);
    }
  }

  lemma {:induction false} FindUnique(fs: Fields, s: Step)
    requires UniqueFields(fs) && s in Steps(fs)
    ensures Unique(Find(fs, s).value)
  {
    if fs.step != s {
      FindUnique(fs.rest, s);
    }
  }

  lemma {:induction false} SetUnique(v: Value, p: Path, x: Value, v': Value)
    requires SetAt(v, p, x) == Some(v') && Unique(v) && Unique(x)
    ensures Unique(v')
    decreases |p|
  {
    if |p| > 1 {
      FindUnique(v.fields, p[0]);
      SetUnique(Find(v.fields, p[0]).value, p[1..], x, Find(v'.fields, p[0]).value);
    }
    AssignUnique(v.fields, p[0], Find(v'.fields, p[0]).value);
  }

  lemma {:induction false} WithoutUnique(fs: Fields, s: Step)
    requires UniqueFields(fs)
    ensures UniqueFields(Without(fs, s))
  {
    if fs.Field? {
      WithoutUnique(fs.rest, s);
    }
  }

  lemma {:induction false} LoadedUnique(c: Json)
    requires WellFormed(c)
    ensures Unique(ValueOf(c))
    decreases c, 0
  {
    if c.Node? {
      LoadedFieldsUnique(c.obj, c.kids, 0);
    }
  }

  lemma {:induction false} LoadedFieldsUnique(obj: bool, ks: Kids, k: nat)
    requires WellFormedKids(obj, ks)
    ensures UniqueFields(FieldsOf(obj, ks, k))
    decreases ks, 1
  {
    if ks.Cons? {
      LoadedUnique(ks.value);
      LoadedFieldsUnique(obj, ks.rest, k + 1);
      var s, rest := HeadStep(ks.head, k), FieldsOf(obj, ks.rest, k + 1);
      if s in Steps(rest) {
        FindUnique(rest, s);
        WithoutUnique(rest, s);
      }
    }
  }

  lemma {:induction false} ProperUnique(v: Value)
    requires Proper(v)
    ensures Unique(v)
    decreases v, 0
  {
    if v.Tree? {
      ProperFieldsUnique(v.obj, v.fields, 0);
    }
  }

  lemma {:induction false} ProperFieldsUnique(obj: bool, fs: Fields, k: nat)
    requires ProperFields(obj, fs, k)
    ensures UniqueFields(fs)
    decreases fs, 1
  {
    if fs.Field? {
      ProperUnique(fs.value);
      ProperFieldsUnique(obj, fs.rest, k + 1);
    }
  }

  lemma {:induction false} AssignLeft(fs: Fields, gs: Fields, s: Step, x: Value)
    requires UniqueFields(fs) && s in Steps(gs) && PyEq(x, Find(gs, s).value)
    requires forall t | t in Steps(fs) && t != s :: t in Steps(gs) && PyEq(Find(fs, t).value, Find(gs, t).value)
    ensures PyEqFields(Assign(fs, s, x), gs)
  {
    if fs.Field? {
      if fs.step == s {
        AssignRest(fs.rest, gs);
      } else {
        AssignLeft(fs.rest, gs, s, x);
      }
    }
  }

  lemma {:induction false} AssignRest(fs: Fields, gs: Fields)
    requires UniqueFields(fs)
    requires forall t | t in Steps(fs) :: t in Steps(gs) && PyEq(Find(fs, t).value, Find(gs, t).value)
    ensures PyEqFields(fs, gs)
  {
    if fs.Field? {
      forall t | t in Steps(fs.rest) ensures t in Steps(gs) && PyEq(Find(fs.rest, t).value, Find(gs, t).value) {
        assert t in Steps(fs) && t != fs.step;
      }
      assert fs.step in Steps(fs);
      AssignRest(fs.rest, gs);
    }
  }

  lemma AssignBoth(fs: Fields, gs: Fields, s: Step, x: Value, y: Value)
    requires UniqueFields(fs) && PyEqFields(fs, gs) && PyEq(x, y)
    ensures PyEqFields(Assign(fs, s, x), Assign(gs, s, y))
  {
    var hs := Assign(gs, s, y);
    forall t | t in Steps(fs) && t != s ensures t in Steps(hs) && PyEq(Find(fs, t).value, Find(hs, t).value) {
      PyEqFind(fs, gs, t);
      AssignFind(gs, s, y, t);
    }
    AssignLeft(fs, hs, s, x);
  }

  lemma AssignRight(fs: Fields, gs: Fields, s: Step, y: Value)
    requires UniqueFields(fs) && PyEqFields(fs, gs) && s in Steps(fs) && PyEq(Find(fs, s).value, y)
    ensures PyEqFields(fs, Assign(gs, s, y))
  {
    var hs := Assign(gs, s, y);
    forall t | t in Steps(fs) ensures t in Steps(hs) && PyEq(Find(fs, t).value, Find(hs, t).value) {
      if t != s {
        PyEqFind(fs, gs, t);
        AssignFind(gs, s, y, t);
      }
    }
    AssignRest(fs, hs);
  }

  /** The same assignment to equal documents leaves them equal. */
  lemma {:induction false} SetBoth(a: Value, b: Value, p: Path, x: Value, a': Value, b': Value)
    requires PyEq(a, b) && Unique(a) && Unique(x) && SetAt(a, p, x) == Some(a') && SetAt(b, p, x) == Some(b')
    ensures PyEq(a', b')
    decreases |p|
  {
    var s := p[0];
    if |p| == 1 {
      PyEqRefl(x);
      AssignBoth(a.fields, b.fields, s, x, x);
    } else {
      var u, v := Find(a.fields, s).value, Find(b.fields, s).value;
      PyEqFind(a.fields, b.fields, s);
      FindUnique(a.fields, s);
      SetBoth(u, v, p[1..], x, Find(a'.fields, s).value, Find(b'.fields, s).value);
      AssignBoth(a.fields, b.fields, s, Find(a'.fields, s).value, Find(b'.fields, s).value);
    }
  }

  /** Assigning to one of two equal documents what the other has leaves them equal. */
  lemma {:induction false} SetHeld(a: Value, b: Value, p: Path, x: Value, b': Value)
    requires PyEq(a, b) && Unique(a) && SetAt(b, p, x) == Some(b')
    requires Lookup(a, p).Some? && PyEq(Lookup(a, p).value, x)
    ensures PyEq(a, b')
    decreases |p|
  {
    var s := p[0];
    if |p| == 1 {
      assert Lookup(a, p) == Lookup(Find(a.fields, s).value, []);
      AssignRight(a.fields, b.fields, s, x);
    } else {
      var u, v := Find(a.fields, s).value, Find(b.fields, s).value;
      PyEqFind(a.fields, b.fields, s);
      FindUnique(a.fields, s);
      SetHeld(u, v, p[1..], x, Find(b'.fields, s).value);
      AssignRight(a.fields, b.fields, s, Find(b'.fields, s).value);
    }
  }

  // ----------------------------------------------- updates are assignments

  lemma {:induction false} UpdateAgree(v: Value, path: Path, d: map<Path, Value>, d': map<Path, Value>)
    requires forall q | path <= q :: (q in d <==> q in d') && (q in d ==> d[q] == d'[q])
    ensures Update(v, path, d) == Update(v, path, d')
    decreases v, 0
  {
    if v.Tree? && path !in d {
      UpdateFieldsAgree(v.fields, path, d, d');
    }
  }

  lemma {:induction false} UpdateFieldsAgree(fs: Fields, path: Path, d: map<Path, Value>, d': map<Path, Value>)
    requires forall q | path <= q :: (q in d <==> q in d') && (q in d ==> d[q] == d'[q])
    ensures UpdateFields(fs, path, d) == UpdateFields(fs, path, d')
    decreases fs, 1
  {
    if fs.Field? {
      UpdateAgree(fs.value, path + [fs.step], d, d');
      UpdateFieldsAgree(fs.rest, path, d, d');
    }
  }

  /** One more updated path below the step `s` is an assignment to that entry. */
  lemma {:induction false} UpdateAssign(fs: Fields, path: Path, d: map<Path, Value>, s: Step, q: Path, x: Value)
    requires UniqueFields(fs) && s in Steps(fs) && path + [s] <= q
    ensures UpdateFields(fs, path, d[q := x])
         == Assign(UpdateFields(fs, path, d), s, Update(Find(fs, s).value, path + [s], d[q := x]))
  {
    if fs.step == s {
      OtherEntries(fs.rest, path, d, s, q, x);
    } else {
      UpdateOther(fs.value, path, d, fs.step, s, q, x);
      UpdateAssign(fs.rest, path, d, s, q, x);
    }
  }

  lemma UpdateOther(v: Value, path: Path, d: map<Path, Value>, t: Step, s: Step, q: Path, x: Value)
    requires path + [s] <= q && t != s
    ensures Update(v, path + [t], d[q := x]) == Update(v, path + [t], d)
  {
    assert q[|path|] == s;
    UpdateAgree(v, path + [t], d[q := x], d);
  }

  lemma {:induction false} OtherEntries(fs: Fields, path: Path, d: map<Path, Value>, s: Step, q: Path, x: Value)
    requires s !in Steps(fs) && path + [s] <= q
    ensures UpdateFields(fs, path, d[q := x]) == UpdateFields(fs, path, d)
  {
    if fs.Field? {
      UpdateOther(fs.value, path, d, fs.step, s, q, x);
      OtherEntries(fs.rest, path, d, s, q, x);
    }
  }

  /** Every updated path below `path` names a scalar of the value there. */
  predicate ScalarsOnly(v: Value, path: Path, d: map<Path, Value>) {
    forall q | q in d && path <= q :: ScalarAt(v, q[|path|..])
  }

  lemma {:induction false} SetUpdate(v: Value, path: Path, d: map<Path, Value>, r: Path, x: Value)
    requires Unique(v) && ScalarAt(v, r) && r != [] && ScalarsOnly(v, path, d) && path + r !in d
    ensures SetAt(Update(v, path, d), r, x) == Some(Update(v, path, d[path + r := x]))
    decreases |r|
  {
    var s, q := r[0], path + r;
    var child := Find(v.fields, s).value;
    TreeKept(v, path, d);
    TreeKept(v, path, d[q := x]);
    UpdateFind(v.fields, path, d, s);
    UpdateAssign(v.fields, path, d, s, q, x);
    assert path + [s] + r[1..] == q;
    if |r| > 1 {
      FindUnique(v.fields, s);
      ChildScalars(v, path, d, s);
      SetUpdate(child, path + [s], d, r[1..], x);
    } else {
      assert q == path + [s];
    }
  }

  lemma TreeKept(v: Value, path: Path, d: map<Path, Value>)
    requires v.Tree? && (path in d ==> ScalarAt(v, path[|path|..]))
    ensures Update(v, path, d) == Tree(v.obj, UpdateFields(v.fields, path, d))
  {
  }

  lemma ChildScalars(v: Value, path: Path, d: map<Path, Value>, s: Step)
    requires v.Tree? && s in Steps(v.fields) && ScalarsOnly(v, path, d)
    ensures ScalarsOnly(Find(v.fields, s).value, path + [s], d)
  {
    forall q | q in d && path + [s] <= q ensures ScalarAt(Find(v.fields, s).value, q[|path| + 1..]) {
      assert q[|path|] == s && q[|path|..][1..] == q[|path| + 1..] && path <= q;
    }
  }

  // ------------------------------------------------ scalars of the document

  /** The derived values whose paths name scalars of the document. */
  function Scalars(doc: Value, ds: Derived): map<Path, Value> {
    map p | p in Values(ds) && ScalarAt(doc, p) :: Values(ds)[p]
  }

  /** The document with those values in their places. */
  function Updated(doc: Value, ds: Derived): Value {
    Update(doc, [], Scalars(doc, ds))
  }

  lemma UpdatedNone(doc: Value)
    ensures Updated(doc, []) == doc
  {
    assert Scalars(doc, []) == map[];
    UpdateNone(doc, []);
  }

  lemma {:induction false} UpdateNone(v: Value, path: Path)
    ensures Update(v, path, map[]) == v
    decreases v, 0
  {
    if v.Tree? {
      UpdateFieldsNone(v.fields, path);
    }
  }

  lemma {:induction false} UpdateFieldsNone(fs: Fields, path: Path)
    ensures UpdateFields(fs, path, map[]) == fs
    decreases fs, 1
  {
    if fs.Field? {
      UpdateNone(fs.value, path + [fs.step]);
      UpdateFieldsNone(fs.rest, path);
    }
  }

  lemma ScalarsNext(doc: Value, ds: Derived, p: Path, x: Value)
    requires IsDict(ds + [(p, x)])
    ensures p !in Values(ds)
    ensures Scalars(doc, ds + [(p, x)]) == if ScalarAt(doc, p) then Scalars(doc, ds)[p := x] else Scalars(doc, ds)
  {
    var ds' := ds + [(p, x)];
    assert ds'[..|ds|] == ds;
    assert Values(ds') == Values(ds)[p := x];
    NotYet(ds, p, x);
  }

  /** One more derived value is one more assignment, when its path names a scalar. */
  lemma UpdatedNext(doc: Value, ds: Derived, p: Path, x: Value)
    requires Unique(doc) && IsDict(ds + [(p, x)]) && p != []
    ensures if ScalarAt(doc, p) then SetAt(Updated(doc, ds), p, x) == Some(Updated(doc, ds + [(p, x)]))
            else Updated(doc, ds + [(p, x)]) == Updated(doc, ds)
  {
    ScalarsNext(doc, ds, p, x);
    if ScalarAt(doc, p) {
      SetScalar(doc, Scalars(doc, ds), p, x);
    }
  }

  lemma SetScalar(doc: Value, d: map<Path, Value>, p: Path, x: Value)
    requires Unique(doc) && p != [] && ScalarAt(doc, p) && p !in d && forall q | q in d :: ScalarAt(doc, q)
    ensures SetAt(Update(doc, [], d), p, x) == Some(Update(doc, [], d[p := x]))
  {
    assert [] + p == p;
    forall q | q in d && [] <= q ensures ScalarAt(doc, q[0..]) {
      assert q[0..] == q;
    }
    SetUpdate(doc, [], d, p, x);
  }

  lemma NotYet(ds: Derived, p: Path, x: Value)
    requires IsDict(ds + [(p, x)])
    ensures p !in Values(ds)
  {
    var ds' := ds + [(p, x)];
    assert forall j | 0 <= j < |ds| :: ds[j] == ds'[j] && ds'[j].0 != ds'[|ds|].0;
    if p in Values(ds) {
      var j := ValueFrom(ds, p);
    }
  }

  // ---------------------------------------------------------- both together

  /** What is derived is a scalar of the document or there already. */
  predicate InPlace(doc: Value, d: (Path, Value)) {
    ScalarAt(doc, d.0) || Holds(doc, d)
  }

  lemma Take(ds: Derived, n: nat)
    requires 0 < n <= |ds|
    ensures ds[..n] == ds[..n - 1] + [ds[n - 1]] && ds[..n][..n - 1] == ds[..n - 1]
  {
  }

  lemma {:induction false} ApplyPrefix(doc: Value, ds: Derived, n: nat)
    requires Apply(doc, ds).Some? && n <= |ds|
    ensures Apply(doc, ds[..n]).Some?
    decreases |ds| - n
  {
    if n == |ds| {
      assert ds[..n] == ds;
    } else {
      Take(ds, n + 1);
      ApplyPrefix(doc, ds, n + 1);
    }
  }

  predicate AllApart(ds: Derived, n: nat, q: Path)
    requires n <= |ds|
  {
    forall j | 0 <= j < n :: Apart(ds[j].0, q)
  }

  lemma {:induction false} UpdatedKeeps(doc: Value, ds: Derived, n: nat, q: Path)
    requires Unique(doc) && Antichain(ds) && n <= |ds| && AllApart(ds, n, q)
    requires forall j | 0 <= j < n :: ds[j].0 != []
    ensures Lookup(Updated(doc, ds[..n]), q) == Lookup(doc, q)
    decreases n
  {
    if n == 0 {
      assert ds[..0] == [];
      UpdatedNone(doc);
    } else {
      var p, x := ds[n - 1].0, ds[n - 1].1;
      Take(ds, n);
      UpdatedKeeps(doc, ds, n - 1, q);
      UpdatedNext(doc, ds[..n - 1], p, x);
      if ScalarAt(doc, p) {
        SetOther(Updated(doc, ds[..n - 1]), p, x, Updated(doc, ds[..n]), q);
      }
    }
  }

  lemma {:induction false} ApplyKeeps(doc: Value, ds: Derived, n: nat, q: Path)
    requires n <= |ds| && Apply(doc, ds[..n]).Some? && AllApart(ds, n, q)
    ensures Lookup(Apply(doc, ds[..n]).value, q) == Lookup(doc, q)
    decreases n
  {
    if n == 0 {
      assert ds[..0] == [];
    } else {
      Take(ds, n);
      ApplyKeeps(doc, ds, n - 1, q);
      SetOther(Apply(doc, ds[..n - 1]).value, ds[n - 1].0, ds[n - 1].1, Apply(doc, ds[..n]).value, q);
    }
  }

  /** After the assignments each derived path has its value. */
  lemma {:induction false} ApplyLookup(doc: Value, ds: Derived, n: nat, j: nat)
    requires Antichain(ds) && j < n <= |ds| && Apply(doc, ds[..n]).Some?
    ensures Lookup(Apply(doc, ds[..n]).value, ds[j].0) == Some(ds[j].1)
    decreases n
  {
    var p, x := ds[n - 1].0, ds[n - 1].1;
    Take(ds, n);
    var before := Apply(doc, ds[..n - 1]).value;
    if j == n - 1 {
      SetLookup(before, p, x, Apply(doc, ds[..n]).value);
    } else {
      ApplyLookup(doc, ds, n - 1, j);
      SetOther(before, p, x, Apply(doc, ds[..n]).value, ds[j].0);
    }
  }

  lemma {:induction false} UpdatedIsApplied(doc: Value, ds: Derived, n: nat)
    requires Unique(doc) && Antichain(ds) && AllProper(ds) && n <= |ds| && Apply(doc, ds[..n]).Some?
    requires forall j | 0 <= j < n :: InPlace(doc, ds[j]) && ds[j].0 != []
    ensures Unique(Updated(doc, ds[..n])) && PyEq(Updated(doc, ds[..n]), Apply(doc, ds[..n]).value)
    decreases n
  {
    if n == 0 {
      assert ds[..0] == [];
      UpdatedNone(doc);
      PyEqRefl(doc);
    } else {
      Take(ds, n);
      UpdatedIsApplied(doc, ds, n - 1);
      UpdatedStep(doc, ds, n - 1, Updated(doc, ds[..n - 1]), Apply(doc, ds[..n - 1]).value);
    }
  }

  lemma UpdatedStep(doc: Value, ds: Derived, n: nat, a: Value, b: Value)
    requires Unique(doc) && Antichain(ds) && n < |ds| && Proper(ds[n].1) && InPlace(doc, ds[n])
    requires a == Updated(doc, ds[..n]) && Unique(a) && PyEq(a, b) && SetAt(b, ds[n].0, ds[n].1).Some?
    requires forall j | 0 <= j <= n :: ds[j].0 != []
    ensures var a' := Updated(doc, ds[..n + 1]); Unique(a') && PyEq(a', SetAt(b, ds[n].0, ds[n].1).value)
  {
    var p, x := ds[n].0, ds[n].1;
    Take(ds, n + 1);
    UpdatedNext(doc, ds[..n], p, x);
    ProperUnique(x);
    if ScalarAt(doc, p) {
      SetUnique(a, p, x, Updated(doc, ds[..n + 1]));
      SetBoth(a, b, p, x, Updated(doc, ds[..n + 1]), SetAt(b, p, x).value);
    } else {
      UpdatedKeeps(doc, ds, n, p);
      SetHeld(a, b, p, x, SetAt(b, p, x).value);
    }
  }

  lemma AppliedIsUpdated(doc: Value, ds: Derived, j: nat)
    requires Unique(doc) && Antichain(ds) && j < |ds| && Apply(doc, ds).Some? && ds[j].0 != []
    requires forall i | 0 <= i < |ds| :: ds[i].0 != []
    requires PyEq(Updated(doc, ds), Apply(doc, ds).value) && !ScalarAt(doc, ds[j].0)
    ensures Holds(doc, ds[j])
  {
    var p := ds[j].0;
    assert ds[..|ds|] == ds;
    ApplyLookup(doc, ds, |ds|, j);
    PyEqLookup(Updated(doc, ds), Apply(doc, ds).value, p);
    OthersKeep(doc, ds, |ds|, j);
  }

  lemma {:induction false} OthersKeep(doc: Value, ds: Derived, n: nat, j: nat)
    requires Unique(doc) && Antichain(ds) && j < n <= |ds| && !ScalarAt(doc, ds[j].0)
    requires forall i | 0 <= i < |ds| :: ds[i].0 != []
    ensures Lookup(Updated(doc, ds[..n]), ds[j].0) == Lookup(doc, ds[j].0)
    decreases n
  {
    var p, x := ds[n - 1].0, ds[n - 1].1;
    Take(ds, n);
    UpdatedNext(doc, ds[..n - 1], p, x);
    if j == n - 1 {
      UpdatedKeeps(doc, ds, j, ds[j].0);
    } else {
      OthersKeep(doc, ds, n - 1, j);
      if ScalarAt(doc, p) {
        SetOther(Updated(doc, ds[..n - 1]), p, x, Updated(doc, ds[..n]), ds[j].0);
      }
    }
  }

  lemma {:induction false} PathsNonEmpty(doc: Value, ds: Derived, j: nat)
    requires Apply(doc, ds).Some? && j < |ds|
    ensures ds[j].0 != []
  {
    ApplyPrefix(doc, ds, j + 1);
    Take(ds, j + 1);
  }

  /** Updating the scalars gives what the assignments give exactly when the rest is there already. */
  lemma UpdatedIffApplied(doc: Value, ds: Derived)
    requires Unique(doc) && Antichain(ds) && AllProper(ds) && Apply(doc, ds).Some?
    ensures PyEq(Updated(doc, ds), Apply(doc, ds).value) <==> forall j | 0 <= j < |ds| :: InPlace(doc, ds[j])
  {
    assert ds[..|ds|] == ds;
    forall j | 0 <= j < |ds| ensures ds[j].0 != [] {
      PathsNonEmpty(doc, ds, j);
    }
    if forall j | 0 <= j < |ds| :: InPlace(doc, ds[j]) {
      UpdatedIsApplied(doc, ds, |ds|);
    }
    if PyEq(Updated(doc, ds), Apply(doc, ds).value) {
      forall j | 0 <= j < |ds| ensures InPlace(doc, ds[j]) {
        if !ScalarAt(doc, ds[j].0) {
          AppliedIsUpdated(doc, ds, j);
        }
      }
    }
  }
}
