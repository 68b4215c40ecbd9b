/**
 How assignments act on the shape of a document and on the order of its names: what decides whether
 the comparison of scripts/registry_derivation.py still finds anything once values are written.
 */
module RegistryOrder {
  import opened Prelude
  import opened JsonSyntax
  import opened JsonValues
  import opened JsonRender
  import opened JsonApply
  import opened RegistryDiff

  // ------------------------------------------------------------ paths found

  /** The path leads through dictionaries and lists only, and is there. */
  predicate Resolves(v: Value, p: Path)
    decreases |p|
  {
    p == [] || (v.Tree? && p[0] in Steps(v.fields) && Resolves(Find(v.fields, p[0]).value, p[1..]))
  }

  lemma {:induction false} ResolvesFound(v: Value, p: Path, x: Value)
    requires Resolves(v, p)
    ensures Lookup(v, p).Some? && (p != [] ==> SetAt(v, p, x).Some?)
    decreases |p|
  {
    if p != [] {
      ResolvesFound(Find(v.fields, p[0]).value, p[1..], x);
    }
  }

  lemma {:induction false} FoundResolves(v: Value, p: Path, x: Value)
    requires Lookup(v, p).Some? && SetAt(v, p, x).Some?
    ensures Resolves(v, p)
    decreases |p|
  {
    var child := Find(v.fields, p[0]).value;
    if |p| > 1 {
      FoundResolves(child, p[1..], x);
    }
  }

  lemma {:induction false} SetResolves(v: Value, p: Path, x: Value, v': Value)
    requires SetAt(v, p, x) == Some(v')
    ensures Resolves(v', p)
    decreases |p|
  {
    if |p| > 1 {
      SetResolves(Find(v.fields, p[0]).value, p[1..], x, Find(v'.fields, p[0]).value);
    }
  }

  lemma {:induction false} OtherResolves(v: Value, p: Path, x: Value, v': Value, q: Path)
    requires SetAt(v, p, x) == Some(v') && Apart(p, q)
    ensures Resolves(v', q) <==> Resolves(v, q)
    decreases |p|
  {
    if p[0] != q[0] {
      AssignFind(v.fields, p[0], Find(v'.fields, p[0]).value, q[0]);
    } else {
      ApartTail(p, q);
      OtherResolves(Find(v.fields, p[0]).value, p[1..], x, Find(v'.fields, p[0]).value, q[1..]);
    }
  }

  lemma {:induction false} ScalarResolves(v: Value, p: Path)
    requires ScalarAt(v, p)
    ensures Resolves(v, p)
    decreases |p|
  {
    if p != [] {
      ScalarResolves(Find(v.fields, p[0]).value, p[1..]);
    }
  }

  // ------------------------------------------------------------------ shape

  lemma {:induction false} LoadedShaped(c: Json)
    requires WellFormed(c)
    ensures Shaped(ValueOf(c))
    decreases c, 0
  {
    if c.Node? {
      LoadedFieldsShaped(c.obj, c.kids, 0);
    }
  }

  lemma {:induction false} LoadedFieldsShaped(obj: bool, ks: Kids, k: nat)
    requires WellFormedKids(obj, ks)
    ensures ShapedFields(obj, FieldsOf(obj, ks, k), k)
    decreases ks, 1
  {
    if ks.Cons? {
      LoadedShaped(ks.value);
      LoadedFieldsShaped(obj, ks.rest, k + 1);
      var s, rest := HeadStep(ks.head, k), FieldsOf(obj, ks.rest, k + 1);
      if obj {
        NamesShaped(rest, k + 1, 0);
        NamesShaped(rest, k + 1, k + 1);
        if s in Steps(rest) {
          FindShaped(rest, s, k + 1);
          WithoutShaped(rest, s, k + 1);
        }
      } else {
        LaterPositions(rest, k + 1, s);
      }
    }
  }

  /** For names the count does not matter. */
  lemma {:induction false} NamesShaped(fs: Fields, k: nat, n: nat)
    requires ShapedFields(true, fs, k)
    ensures ShapedFields(true, fs, n)
  {
    if fs.Field? {
      NamesShaped(fs.rest, k + 1, n + 1);
    }
  }

  lemma {:induction false} LaterPositions(fs: Fields, k: nat, s: Step)
    requires ShapedFields(false, fs, k) && s.Index? && s.position < k
    ensures s !in Steps(fs)
  {
    if fs.Field? {
      LaterPositions(fs.rest, k + 1, s);
    }
  }

  lemma {:induction false} FindShaped(fs: Fields, s: Step, k: nat)
    requires ShapedFields(true, fs, k) && s in Steps(fs)
    ensures Shaped(Find(fs, s).value) && s.Key?
  {
    if fs.step != s {
      FindShaped(fs.rest, s, k + 1);
    }
  }

  lemma {:induction false} WithoutShaped(fs: Fields, s: Step, k: nat)
    requires ShapedFields(true, fs, k)
    ensures ShapedFields(true, Without(fs, s), k)
  {
    if fs.Field? {
      WithoutShaped(fs.rest, s, k + 1);
      NamesShaped(Without(fs.rest, s), k + 1, k);
    }
  }

  lemma {:induction false} ProperShaped(v: Value)
    requires Proper(v)
    ensures Shaped(v)
    decreases v, 0
  {
    if v.Tree? {
      ProperFieldsShaped(v.obj, v.fields, 0);
    }
  }

  lemma {:induction false} ProperFieldsShaped(obj: bool, fs: Fields, k: nat)
    requires ProperFields(obj, fs, k)
    ensures ShapedFields(obj, fs, k)
    decreases fs, 1
  {
    if fs.Field? {
      ProperShaped(fs.value);
      ProperFieldsShaped(obj, fs.rest, k + 1);
    }
  }

  lemma {:induction false} AssignShaped(obj: bool, fs: Fields, s: Step, x: Value, k: nat)
    requires ShapedFields(obj, fs, k) && s in Steps(fs) && Shaped(x)
    ensures ShapedFields(obj, Assign(fs, s, x), k) && StepList(Assign(fs, s, x)) == StepList(fs)
  {
    if fs.step != s {
      AssignShaped(obj, fs.rest, s, x, k + 1);
    }
  }

  lemma {:induction false} EntryShaped(obj: bool, fs: Fields, s: Step, k: nat)
    requires ShapedFields(obj, fs, k) && s in Steps(fs)
    ensures Shaped(Find(fs, s).value)
  {
    if fs.step != s {
      EntryShaped(obj, fs.rest, s, k + 1);
    }
  }

  lemma {:induction false} SetShaped(v: Value, p: Path, x: Value, v': Value)
    requires SetAt(v, p, x) == Some(v') && Resolves(v, p) && Shaped(v) && Shaped(x)
    ensures Shaped(v')
    decreases |p|
  {
    if |p| > 1 {
      EntryShaped(v.obj, v.fields, p[0], 0);
      SetShaped(Find(v.fields, p[0]).value, p[1..], x, Find(v'.fields, p[0]).value);
    }
    AssignShaped(v.obj, v.fields, p[0], Find(v'.fields, p[0]).value, 0);
  }

  // ------------------------------------------------------------------ order

  /** Where the path runs through dictionaries only, the new value has its names in the old order. */
  predicate Ordered(v: Value, p: Path, x: Value)
    decreases |p|
  {
    if p == [] then SameOrder(x, v)
    else v.Tree? && v.obj && p[0] in Steps(v.fields) ==> Ordered(Find(v.fields, p[0]).value, p[1..], x)
  }

  lemma {:induction false} OtherOrdered(v: Value, p: Path, x: Value, v': Value, q: Path, y: Value)
    requires SetAt(v, p, x) == Some(v') && Apart(p, q) && Resolves(v, q)
    ensures Ordered(v', q, y) <==> Ordered(v, q, y)
    decreases |p|
  {
    if p[0] != q[0] {
      AssignFind(v.fields, p[0], Find(v'.fields, p[0]).value, q[0]);
    } else {
      ApartTail(p, q);
      OtherOrdered(Find(v.fields, p[0]).value, p[1..], x, Find(v'.fields, p[0]).value, q[1..], y);
    }
  }

  /** An entry replaced keeps the order of the names exactly when it keeps that of its own. */
  lemma {:induction false} AssignOrders(es: Fields, os: Fields, s: Step, x: Value, q: bool)
    requires StepList(es) == StepList(os) && s in Steps(es) && s in Steps(os)
    requires SameOrder(x, Find(os, s).value) <==> SameOrder(Find(es, s).value, Find(os, s).value) && q
    ensures SameOrders(Assign(es, s, x), os) <==> SameOrders(es, os) && q
  {
    StepListSteps(es, os);
    if es.step != s {
      StepListSteps(es.rest, os.rest);
      AssignOrders(es.rest, os.rest, s, x, q);
    }
  }

  lemma {:induction false} AssignSteps(fs: Fields, s: Step, x: Value)
    requires s in Steps(fs)
    ensures StepList(Assign(fs, s, x)) == StepList(fs)
  {
    if fs.step != s {
      AssignSteps(fs.rest, s, x);
    }
  }

  /** One assignment to `b`, which is equal to `w` and has the same value at the path. */
  lemma {:induction false} SetOrder(w: Value, b: Value, p: Path, x: Value, b': Value)
    requires PyEq(w, b) && Resolves(w, p) && Lookup(b, p) == Lookup(w, p) && SetAt(b, p, x) == Some(b')
    ensures SameOrder(b', w) <==> SameOrder(b, w) && Ordered(w, p, x)
    decreases |p|
  {
    var s := p[0];
    var u, v, v' := Find(w.fields, s).value, Find(b.fields, s).value, Find(b'.fields, s).value;
    PyEqFind(w.fields, b.fields, s);
    AssignSteps(b.fields, s, v');
    if |p| == 1 {
      assert Lookup(v, []) == Lookup(u, []);
      OrderSelf(u);
      assert Ordered(w, p, x) <==> (w.obj ==> Ordered(u, p[1..], x));
    } else {
      SetOrder(u, v, p[1..], x, v');
    }
    if w.obj && StepList(b.fields) == StepList(w.fields) {
      AssignOrders(b.fields, w.fields, s, v', Ordered(u, p[1..], x));
    }
  }

  // --------------------------------------------------------------- symmetry

  lemma {:induction false} EqSym(a: Value, b: Value)
    requires PyEq(a, b) && Unique(a) && Unique(b)
    ensures PyEq(b, a)
    decreases a, 0
  {
    if a.Tree? && b.Tree? {
      forall s | s in Steps(b.fields) ensures s in Steps(a.fields) && PyEq(Find(b.fields, s).value, Find(a.fields, s).value) {
        PyEqFind(a.fields, b.fields, s);
        FindUnique(a.fields, s);
        FindUnique(b.fields, s);
        EqSym(Find(a.fields, s).value, Find(b.fields, s).value);
      }
      AssignRest(b.fields, a.fields);
    }
  }
}
