/**
 What rewriting derived scalars leaves as it was: containers keep their entries, what is no container
 stays, and a part whose derived values are there already is untouched.
 */
module RegistryFrame {
  import opened Prelude
  import opened JsonSyntax
  import opened JsonValues
  import opened JsonRender
  import opened JsonSplice
  import opened JsonApply
  import opened JsonTheorems
  import opened RegistryDiff
  import opened RegistryOrder
  import opened RegistryTarget

  predicate IsScalar(v: Value) {
    Proper(v) && !v.Tree?
  }

  lemma Differ(p: Path, q: Path, k: nat)
    requires k < |p| && k < |q| && p[k] != q[k]
    ensures Apart(p, q)
  {
  }

  /** Assigning below a container keeps it one, with the same entries. */
  lemma {:induction false} SetAbove(v: Value, p: Path, x: Value, v': Value, q: Path)
    requires SetAt(v, p, x) == Some(v') && Resolves(v, p) && q < p
    ensures SameFrame(Lookup(v, q), Lookup(v', q))
    decreases |q|
  {
    AssignSteps(v.fields, p[0], Find(v'.fields, p[0]).value);
    if q != [] {
      assert p == [p[0]] + p[1..] && q == [q[0]] + q[1..];
      SetAbove(Find(v.fields, p[0]).value, p[1..], x, Find(v'.fields, p[0]).value, q[1..]);
    }
  }

  predicate SameFrame(a: Option<Value>, b: Option<Value>) {
    a.Some? && b.Some? && a.value.Tree? && b.value.Tree? && a.value.obj == b.value.obj
    && StepList(a.value.fields) == StepList(b.value.fields)
  }

  /** Every derived path below a container leaves its entries alone. */
  predicate AllBelow(ds: Derived, n: nat, q: Path)
    requires n <= |ds|
  {
    forall j | 0 <= j < n :: Apart(ds[j].0, q) || q < ds[j].0
  }

  predicate NonEmpty(ds: Derived) {
    forall j | 0 <= j < |ds| :: ds[j].0 != []
  }

  lemma {:induction false} FrameKept(doc: Value, ds: Derived, n: nat, q: Path)
    requires Unique(doc) && Antichain(ds) && NonEmpty(ds) && n <= |ds| && AllBelow(ds, n, q)
    requires Lookup(doc, q).Some? && Lookup(doc, q).value.Tree?
    ensures SameFrame(Lookup(doc, q), Lookup(Updated(doc, ds[..n]), q))
    decreases n
  {
    if n == 0 {
      assert ds[..0] == [];
      UpdatedNone(doc);
    } else {
      var p, x := ds[n - 1].0, ds[n - 1].1;
      var a, a' := Updated(doc, ds[..n - 1]), Updated(doc, ds[..n]);
      FrameKept(doc, ds, n - 1, q);
      Take(ds, n);
      UpdatedNext(doc, ds[..n - 1], p, x);
      if ScalarAt(doc, p) && q < p {
        ScalarResolves(doc, p);
        UpdatedFirst(doc, ds, n - 1, p);
        SetAbove(a, p, x, a', q);
      } else if ScalarAt(doc, p) {
        SetOther(a, p, x, a', q);
      }
    }
  }

  lemma {:induction false} ScalarAbove(v: Value, p: Path, q: Path)
    requires ScalarAt(v, p) && q < p
    ensures Lookup(v, q).Some? && Lookup(v, q).value.Tree?
    decreases |q|
  {
    if q != [] {
      assert p == [p[0]] + p[1..] && q == [q[0]] + q[1..];
      ScalarAbove(Find(v.fields, p[0]).value, p[1..], q[1..]);
    }
  }

  lemma {:induction false} AtomKept(doc: Value, ds: Derived, n: nat, q: Path)
    requires Unique(doc) && Antichain(ds) && NonEmpty(ds) && n <= |ds| && AllBelow(ds, n, q)
    requires Lookup(doc, q).Some? ==> !Lookup(doc, q).value.Tree?
    ensures Lookup(Updated(doc, ds[..n]), q) == Lookup(doc, q)
    decreases n
  {
    if n == 0 {
      assert ds[..0] == [];
      UpdatedNone(doc);
    } else {
      var p, x := ds[n - 1].0, ds[n - 1].1;
      AtomKept(doc, ds, n - 1, q);
      Take(ds, n);
      UpdatedNext(doc, ds[..n - 1], p, x);
      if ScalarAt(doc, p) {
        if q < p {
          ScalarAbove(doc, p, q);
        }
        SetOther(Updated(doc, ds[..n - 1]), p, x, Updated(doc, ds[..n]), q);
      }
    }
  }

  lemma {:induction false} SetSame(v: Value, p: Path, x: Value)
    requires Resolves(v, p) && p != [] && Lookup(v, p) == Some(x)
    ensures SetAt(v, p, x) == Some(v)
    decreases |p|
  {
    if |p| > 1 {
      SetSame(Find(v.fields, p[0]).value, p[1..], x);
    } else {
      assert Lookup(v, p) == Lookup(Find(v.fields, p[0]).value, []);
    }
    AssignSame(v.fields, p[0]);
  }

  lemma {:induction false} AssignSame(fs: Fields, s: Step)
    requires s in Steps(fs)
    ensures Assign(fs, s, Find(fs, s).value) == fs
  {
    if fs.step != s {
      AssignSame(fs.rest, s);
    }
  }

  /** Below `q` every derived value is there already. */
  predicate HeldBelow(doc: Value, ds: Derived, q: Path) {
    forall j | 0 <= j < |ds| :: Apart(ds[j].0, q) || Lookup(doc, ds[j].0) == Some(ds[j].1)
  }

  lemma {:induction false} HeldKept(doc: Value, ds: Derived, n: nat, q: Path)
    requires Unique(doc) && Antichain(ds) && NonEmpty(ds) && n <= |ds| && HeldBelow(doc, ds, q)
    ensures Lookup(Updated(doc, ds[..n]), q) == Lookup(doc, q)
    decreases n
  {
    if n == 0 {
      assert ds[..0] == [];
      UpdatedNone(doc);
    } else {
      var p, x := ds[n - 1].0, ds[n - 1].1;
      var a, a' := Updated(doc, ds[..n - 1]), Updated(doc, ds[..n]);
      HeldKept(doc, ds, n - 1, q);
      Take(ds, n);
      UpdatedNext(doc, ds[..n - 1], p, x);
      if ScalarAt(doc, p) && Apart(p, q) {
        SetOther(a, p, x, a', q);
      } else if ScalarAt(doc, p) {
        ScalarResolves(doc, p);
        UpdatedFirst(doc, ds, n - 1, p);
        UpdatedKeeps(doc, ds, n - 1, p);
        SetSame(a, p, x);
      }
    }
  }

  lemma {:induction false} FoundScalar(v: Value, p: Path, x: Value)
    requires Resolves(v, p) && !x.Tree? && (ScalarAt(v, p) || (Lookup(v, p).Some? && PyEq(Lookup(v, p).value, x)))
    ensures ScalarAt(v, p)
    decreases |p|
  {
    if p != [] {
      FoundScalar(Find(v.fields, p[0]).value, p[1..], x);
    }
  }

  /** A registry that evaluates, without repeated names, can be rewritten. */
  lemma EvaluatedRewritable(text: Text, derive: Derivation, ds: Derived)
    requires Evaluated(text, derive).Some? && NamesOnce(Parse(text).value)
    requires derive(Load(text).value) == Some(ds) && Antichain(ds) && AllProper(ds)
    ensures Rewritable(text, ds)
  {
  }
}
