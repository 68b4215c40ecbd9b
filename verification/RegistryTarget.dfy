/**
 A registry that is derived and spliced (`InventoryTarget.evaluate` of
 scripts/generate_namespace_writer_registry.py, `RegistryTarget.evaluate` of
 scripts/generate_weak_binding_registry.py), and when the check passes after a rewrite.
 */
module RegistryTarget {
  import opened Prelude
  import opened JsonSyntax
  import opened JsonValues
  import opened JsonRender
  import opened JsonSplice
  import opened JsonApply
  import opened JsonTheorems
  import opened RegistryDiff
  import opened RegistryOrder

  /** What is derived from a loaded document; nothing when the derivation raises. */
  type Derivation = Value -> Option<Derived>

  ghost predicate IsDerivation(derive: Derivation) {
    forall v :: derive(v).Some? ==> IsDict(derive(v).value)
  }

  /** What an evaluation finds, and the text it would write. */
  datatype Evaluation = Evaluation(moved: seq<Line>, rendered: Text)

  ghost function Evaluated(text: Text, derive: Derivation): Option<Evaluation> {
    var doc := Load(text);
    if doc.None? || derive(doc.value).None? then None
    else
      var ds := derive(doc.value).value;
      var applied := Apply(doc.value, ds);
      if applied.None? || !Splicable(SpansIn(text), ds, doc.value) then None
      else Some(Found(Diff(applied.value, doc.value, []), text, Spliced(text, ds)))
  }

  function Found(moved: seq<Line>, text: Text, rendered: Text): Evaluation {
    Evaluation(if moved == [] && rendered != text then [LayoutDiffers] else moved, rendered)
  }

  method Evaluate(text: Text, derive: Derivation) returns (r: Option<Evaluation>)
    requires IsDerivation(derive)
    ensures r == Evaluated(text, derive)
  {
    LoadIffParse(text);
    var doc := Load(text);
    if doc.None? {
      return None;
    }
    var ds := derive(doc.value);
    if ds.None? {
      return None;
    }
    var applied := ApplyDerived(doc.value, ds.value);
    if applied.None? {
      return None;
    }
    var moved := Diff(applied.value, doc.value, []);
    var rendered := Splice(text, ds.value, doc.value);
    if rendered.None? {
      return None;
    }
    r := Some(Found(moved, text, rendered.value));
  }

  // ------------------------------------------------------------ fixed point

  lemma {:induction false} UpdatedResolves(doc: Value, ds: Derived, n: nat, j: nat)
    requires Unique(doc) && Antichain(ds) && j < n <= |ds| && Resolves(doc, ds[j].0)
    requires forall i | 0 <= i < |ds| :: ds[i].0 != []
    ensures Resolves(Updated(doc, ds[..n]), ds[j].0)
    ensures ScalarAt(doc, ds[j].0) ==> Lookup(Updated(doc, ds[..n]), ds[j].0) == Some(ds[j].1)
    decreases n
  {
    var p, x, q := ds[n - 1].0, ds[n - 1].1, ds[j].0;
    var a, a' := Updated(doc, ds[..n - 1]), Updated(doc, ds[..n]);
    Take(ds, n);
    UpdatedNext(doc, ds[..n - 1], p, x);
    if j == n - 1 {
      UpdatedFirst(doc, ds, n - 1, q);
      if ScalarAt(doc, p) {
        SetResolves(a, p, x, a');
        SetLookup(a, p, x, a');
      }
    } else {
      UpdatedResolves(doc, ds, n - 1, j);
      if ScalarAt(doc, p) {
        OtherResolves(a, p, x, a', q);
        SetOther(a, p, x, a', q);
      }
    }
  }

  /** Values that are not derived yet are found as in the document. */
  lemma {:induction false} UpdatedFirst(doc: Value, ds: Derived, n: nat, q: Path)
    requires Unique(doc) && Antichain(ds) && n <= |ds| && AllApart(ds, n, q) && Resolves(doc, q)
    requires forall i | 0 <= i < |ds| :: ds[i].0 != []
    ensures Resolves(Updated(doc, ds[..n]), q)
    ensures forall y :: Ordered(Updated(doc, ds[..n]), q, y) <==> Ordered(doc, q, y)
    decreases n
  {
    if n == 0 {
      assert ds[..0] == [];
      UpdatedNone(doc);
    } else {
      var p, x := ds[n - 1].0, ds[n - 1].1;
      var a, a' := Updated(doc, ds[..n - 1]), Updated(doc, ds[..n]);
      Take(ds, n);
      UpdatedFirst(doc, ds, n - 1, q);
      UpdatedNext(doc, ds[..n - 1], p, x);
      if ScalarAt(doc, p) {
        OtherResolves(a, p, x, a', q);
        forall y ensures Ordered(a', q, y) <==> Ordered(a, q, y) {
          OtherOrdered(a, p, x, a', q, y);
        }
      }
    }
  }

  /** A derived value that is no scalar keeps its order under the other assignments. */
  lemma {:induction false} UpdatedOrdered(doc: Value, ds: Derived, n: nat, j: nat)
    requires Unique(doc) && Antichain(ds) && j < n <= |ds| && Resolves(doc, ds[j].0) && !ScalarAt(doc, ds[j].0)
    requires forall i | 0 <= i < |ds| :: ds[i].0 != []
    ensures Ordered(Updated(doc, ds[..n]), ds[j].0, ds[j].1) <==> Ordered(doc, ds[j].0, ds[j].1)
    decreases n
  {
    var p, x, q := ds[n - 1].0, ds[n - 1].1, ds[j].0;
    var a, a' := Updated(doc, ds[..n - 1]), Updated(doc, ds[..n]);
    Take(ds, n);
    UpdatedNext(doc, ds[..n - 1], p, x);
    if j == n - 1 {
      UpdatedFirst(doc, ds, n - 1, q);
    } else {
      UpdatedOrdered(doc, ds, n - 1, j);
      if ScalarAt(doc, p) {
        UpdatedResolves(doc, ds, n - 1, j);
        OtherOrdered(a, p, x, a', q, ds[j].1);
      }
    }
  }

  lemma {:induction false} ApplyResolves(doc: Value, ds: Derived, n: nat, q: Path)
    requires n <= |ds| && Apply(doc, ds[..n]).Some? && AllApart(ds, n, q)
    ensures Resolves(Apply(doc, ds[..n]).value, q) <==> Resolves(doc, q)
    decreases n
  {
    if n == 0 {
      assert ds[..0] == [];
    } else {
      Take(ds, n);
      ApplyResolves(doc, ds, n - 1, q);
      OtherResolves(Apply(doc, ds[..n - 1]).value, ds[n - 1].0, ds[n - 1].1, Apply(doc, ds[..n]).value, q);
    }
  }

  /** Where the assignments do not raise, what is in place is found. */
  lemma DerivedResolves(doc: Value, ds: Derived, j: nat)
    requires Antichain(ds) && Apply(doc, ds).Some? && j < |ds| && InPlace(doc, ds[j])
    ensures Resolves(doc, ds[j].0)
  {
    var p, x := ds[j].0, ds[j].1;
    if ScalarAt(doc, p) {
      ScalarResolves(doc, p);
    } else {
      ApplyPrefix(doc, ds, j);
      ApplyPrefix(doc, ds, j + 1);
      Take(ds, j + 1);
      ApplyKeeps(doc, ds, j, p);
      FoundResolves(Apply(doc, ds[..j]).value, p, x);
      ApplyResolves(doc, ds, j, p);
    }
  }

  /** Every derived value is there already, and its path is found. */
  predicate AllHeld(w: Value, ds: Derived) {
    forall j | 0 <= j < |ds| :: Resolves(w, ds[j].0) && ds[j].0 != [] && Holds(w, ds[j])
  }

  predicate AllOrdered(w: Value, ds: Derived, n: nat)
    requires n <= |ds|
  {
    forall j | 0 <= j < n :: Ordered(w, ds[j].0, ds[j].1)
  }

  /** Assigning what is there already keeps the document equal, and its order exactly when theirs is. */
  lemma {:induction false} HeldApply(w: Value, ds: Derived, n: nat)
    requires Shaped(w) && Antichain(ds) && AllProper(ds) && AllHeld(w, ds) && n <= |ds|
    ensures Apply(w, ds[..n]).Some?
    ensures var b := Apply(w, ds[..n]).value;
      Shaped(b) && PyEq(w, b) && (SameOrder(b, w) <==> AllOrdered(w, ds, n))
    decreases n
  {
    ShapedUnique(w);
    if n == 0 {
      assert ds[..0] == [];
      PyEqRefl(w);
      OrderSelf(w);
    } else {
      HeldApply(w, ds, n - 1);
      HeldStep(w, ds, n - 1, Apply(w, ds[..n - 1]).value);
      Take(ds, n);
    }
  }

  lemma HeldStep(w: Value, ds: Derived, n: nat, b: Value)
    requires Shaped(w) && Unique(w) && Antichain(ds) && AllHeld(w, ds) && n < |ds| && Proper(ds[n].1)
    requires Apply(w, ds[..n]) == Some(b) && Shaped(b) && PyEq(w, b)
    requires SameOrder(b, w) <==> AllOrdered(w, ds, n)
    ensures SetAt(b, ds[n].0, ds[n].1).Some?
    ensures var b' := SetAt(b, ds[n].0, ds[n].1).value;
      Shaped(b') && PyEq(w, b') && (SameOrder(b', w) <==> AllOrdered(w, ds, n + 1))
  {
    var p, x := ds[n].0, ds[n].1;
    ApplyResolves(w, ds, n, p);
    ApplyKeeps(w, ds, n, p);
    ResolvesFound(b, p, x);
    var b' := SetAt(b, p, x).value;
    ProperShaped(x);
    SetShaped(b, p, x, b');
    SetHeld(w, b, p, x, b');
    SetOrder(w, b, p, x, b');
  }

  lemma {:induction false} FoundOrdered(v: Value, p: Path, x: Value)
    requires Resolves(v, p) && Lookup(v, p) == Some(x)
    ensures Ordered(v, p, x)
    decreases |p|
  {
    if p == [] {
      OrderSelf(x);
    } else {
      FoundOrdered(Find(v.fields, p[0]).value, p[1..], x);
    }
  }

  /** The check finds nothing in a document that has every derived value, exactly when they are in order. */
  lemma HeldDiff(w: Value, ds: Derived)
    requires Shaped(w) && Antichain(ds) && AllProper(ds) && AllHeld(w, ds)
    ensures Apply(w, ds).Some? && (Diff(Apply(w, ds).value, w, []) == [] <==> AllOrdered(w, ds, |ds|))
  {
    assert ds[..|ds|] == ds;
    HeldApply(w, ds, |ds|);
    var b := Apply(w, ds).value;
    ShapedUnique(w);
    ShapedUnique(b);
    EqSym(w, b);
    DiffEmptyIff(b, w, []);
  }

  /** A registry that can be rewritten: what is derived of it is spliced and assigned without a refusal. */
  predicate Rewritable(text: Text, ds: Derived) {
    && Load(text).Some? && NamesOnce(Parse(text).value) && Antichain(ds) && AllProper(ds)
    && Apply(Load(text).value, ds).Some? && Splicable(SpansIn(text), ds, Load(text).value)
  }

  lemma RewritableInPlace(text: Text, ds: Derived, j: nat)
    requires Rewritable(text, ds) && j < |ds|
    ensures InPlace(Load(text).value, ds[j]) && Resolves(Load(text).value, ds[j].0) && ds[j].0 != []
  {
    var c, at := Parse(text).value, SpaceEnd(text, 0);
    AllLive(c, [], at);
    assert [] + ds[j].0 == ds[j].0;
    LiveScalar(c, [], at, ds[j].0);
    DerivedResolves(Load(text).value, ds, j);
    PathsNonEmpty(Load(text).value, ds, j);
  }

  /** After the rewrite every derived value is there, and in order exactly when it was before. */
  lemma RewrittenHeld(text: Text, ds: Derived)
    requires Rewritable(text, ds)
    ensures AllHeld(Updated(Load(text).value, ds), ds)
    ensures AllOrdered(Updated(Load(text).value, ds), ds, |ds|)
       <==> forall j | 0 <= j < |ds| :: ScalarAt(Load(text).value, ds[j].0) || Ordered(Load(text).value, ds[j].0, ds[j].1)
  {
    var doc := Load(text).value;
    LoadedUnique(Parse(text).value);
    assert ds[..|ds|] == ds;
    forall j | 0 <= j < |ds|
      ensures InPlace(doc, ds[j]) && Resolves(doc, ds[j].0) && ds[j].0 != []
    {
      RewritableInPlace(text, ds, j);
    }
    forall j | 0 <= j < |ds|
      ensures Resolves(Updated(doc, ds), ds[j].0) && Holds(Updated(doc, ds), ds[j])
      ensures Ordered(Updated(doc, ds), ds[j].0, ds[j].1) <==> ScalarAt(doc, ds[j].0) || Ordered(doc, ds[j].0, ds[j].1)
    {
      RewrittenOne(doc, ds, j);
    }
  }

  lemma RewrittenOne(doc: Value, ds: Derived, j: nat)
    requires Unique(doc) && Antichain(ds) && AllProper(ds) && j < |ds| && InPlace(doc, ds[j]) && Resolves(doc, ds[j].0)
    requires forall i | 0 <= i < |ds| :: ds[i].0 != []
    ensures var w := Updated(doc, ds); Resolves(w, ds[j].0) && Holds(w, ds[j])
    ensures Ordered(Updated(doc, ds), ds[j].0, ds[j].1) <==> ScalarAt(doc, ds[j].0) || Ordered(doc, ds[j].0, ds[j].1)
  {
    var p, x := ds[j].0, ds[j].1;
    assert ds[..|ds|] == ds;
    UpdatedResolves(doc, ds, |ds|, j);
    if ScalarAt(doc, p) {
      ProperUnique(x);
      PyEqRefl(x);
      FoundOrdered(Updated(doc, ds), p, x);
    } else {
      OthersKeep(doc, ds, |ds|, j);
      UpdatedOrdered(doc, ds, |ds|, j);
    }
  }

  /**
   Regenerate, then check. When the same values are derived from the rewritten registry, the check
   passes, and a second rewrite changes nothing, exactly when every derived value that is no scalar
   lists its names in the order of the one already there.
   */
  lemma CheckAfterWrite(text: Text, derive: Derivation, ds: Derived)
    requires IsDerivation(derive) && Rewritable(text, ds) && derive(Load(text).value) == Some(ds)
    requires derive(Updated(Load(text).value, ds)) == Some(ds)
    ensures IsDict(ds) && Evaluated(text, derive).Some? && Evaluated(text, derive).value.rendered == Spliced(text, ds)
    ensures Evaluated(Spliced(text, ds), derive).Some?
    ensures Evaluated(Spliced(text, ds), derive).value.rendered == Spliced(text, ds)
    ensures Evaluated(Spliced(text, ds), derive).value.moved == []
       <==> forall j | 0 <= j < |ds| :: ScalarAt(Load(text).value, ds[j].0) || Ordered(Load(text).value, ds[j].0, ds[j].1)
  {
    var text', doc' := Spliced(text, ds), Updated(Load(text).value, ds);
    SplicedLoads(text, ds);
    SpliceAgain(text, ds);
    RewrittenHeld(text, ds);
    LoadedShaped(Parse(text').value);
    HeldDiff(doc', ds);
    AgainSplicable(text', doc', ds);
  }

  lemma AgainSplicable(text: Text, w: Value, ds: Derived)
    requires Parse(text).Some? && AllHeld(w, ds)
    ensures Splicable(SpansIn(text), ds, w)
  {
  }
}
