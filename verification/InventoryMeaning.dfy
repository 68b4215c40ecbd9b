/**
 What the namespace-writer inventory says once it is rewritten (`inventory_derivation` and
 `InventoryTarget` of scripts/generate_namespace_writer_registry.py), list by list: beside every file
 that is named stands the digest of that file.
 */
module InventoryMeaning {
  import opened Prelude
  import opened JsonSyntax
  import opened JsonValues
  import opened JsonSplice
  import opened JsonApply
  import opened JsonTheorems
  import opened RegistryDiff
  import opened RegistryFrame
  import opened RegistryLists
  import opened RegistryNames
  import opened RegistryOrder
  import opened RegistryTarget
  import opened DigestTable
  import opened InventoryDerivation

  /** At `target` stands the digest of the file of that repository that `file` names. */
  predicate IsDigestOf(w: World, doc: Value, target: Path, repository: Option<Value>, file: Path) {
    && repository.Some? && Lookup(doc, file).Some? && w.sha(repository.value, Lookup(doc, file).value).Some?
    && Lookup(doc, target) == Some(Str(w.sha(repository.value, Lookup(doc, file).value).value))
  }

  /** The repository that the entry names. */
  predicate IsNamed(w: World, doc: Value, e: Path, digest: Step, file: Step) {
    IsDigestOf(w, doc, e + [digest], Lookup(doc, e + [REPOSITORY]), e + [file])
  }

  /** A file of the main repository. */
  predicate IsOurs(w: World, doc: Value, e: Path, digest: Step, file: Step) {
    IsDigestOf(w, doc, e + [digest], Some(Str(DARLING)), e + [file])
  }

  /** A closure, with the evidence that is listed in it; it names the repository of both. */
  ghost predicate IsClosure(w: World, doc: Value, e: Path) {
    && IsNamed(w, doc, e, CMAKE_SHA256, CMAKE)
    && forall k: nat | IsAt(doc, e + [RUNTIME_EVIDENCE, Index(k)]) ::
         IsDigestOf(w, doc, e + [RUNTIME_EVIDENCE, Index(k), SHA256], Lookup(doc, e + [REPOSITORY]),
           e + [RUNTIME_EVIDENCE, Index(k), PATH])
  }

  /** A binding: its build file, its generator and the inputs of that. */
  ghost predicate IsBinding(w: World, doc: Value, e: Path) {
    && IsOurs(w, doc, e, CMAKE_SHA256, CMAKE)
    && IsDigestOf(w, doc, e + [GENERATOR, SHA256], Some(Str(DARLING)), e + [GENERATOR, PATH])
    && forall k: nat | IsAt(doc, e + [INPUTS, Index(k)]) ::
         IsDigestOf(w, doc, e + [INPUTS, Index(k), SHA256], Some(Str(DARLING)), e + [INPUTS, Index(k), PATH])
  }

  /** All digests of the inventory are those of the files that are named beside them. */
  ghost predicate IsCurrentInventory(w: World, doc: Value) {
    && (forall i: nat | IsAt(doc, [EXCLUDED_MUTATIONS, Index(i)]) ::
          IsNamed(w, doc, [EXCLUDED_MUTATIONS, Index(i)], SHA256, PATH))
    && (forall i: nat | IsAt(doc, [SCAN, BUILD_CLOSURE, Index(i)]) :: IsClosure(w, doc, [SCAN, BUILD_CLOSURE, Index(i)]))
    && (forall i: nat | IsAt(doc, [SCAN, TARGET_POLICY, EXCLUDED_TEST_PLISTS, Index(i)]) ::
          IsNamed(w, doc, [SCAN, TARGET_POLICY, EXCLUDED_TEST_PLISTS, Index(i)], SHA256, PATH))
    && (forall i: nat | IsAt(doc, [SCAN, TARGET_POLICY, DECLARED_INPUTS, Index(i)]) ::
          IsOurs(w, doc, [SCAN, TARGET_POLICY, DECLARED_INPUTS, Index(i)], SHA256, PATH))
    && forall i: nat | IsAt(doc, [SCAN, TARGET_POLICY, SOURCE_BINDINGS, Index(i)]) ::
         IsBinding(w, doc, [SCAN, TARGET_POLICY, SOURCE_BINDINGS, Index(i)])
  }

  // ----------------------------------------------------------- slots and digests

  /** Scalars that are derived stand in their places. */
  predicate ScalarsHeld(doc: Value, ds: Derived) {
    forall d | d in ds && IsScalar(d.1) :: Lookup(doc, d.0) == Some(d.1)
  }

  /** The document derives these values and holds the scalars among them. */
  ghost predicate IsSettled(t: Table, w: World, doc: Value, ds: Derived) {
    Shaped(doc) && IsWorld(t, w) && Derive(t, w, doc) == Some(ds) && ScalarsHeld(doc, ds)
  }

  lemma ListedIn(t: Table, w: World, doc: Value, ds: Derived, m: nat, d: (Path, Value))
    requires Derive(t, w, doc) == Some(ds) && m < |t.sections|
    ensures ListDerived(w, doc, t.sections[m]).Some?
    ensures d in ListDerived(w, doc, t.sections[m]).value ==> d in ds
  {
    InSection(w, doc, t.sections, m, d);
  }

  /** What is derived for a listed entry is derived for the document. */
  lemma ItemIn(t: Table, w: World, doc: Value, ds: Derived, m: nat, i: nat, d: (Path, Value))
    requires Shaped(doc) && Derive(t, w, doc) == Some(ds) && m < |t.sections| && IsAt(doc, ItemPath(t.sections[m], i))
    ensures ItemDerived(w, doc, t.sections[m], i).Some?
    ensures d in ItemDerived(w, doc, t.sections[m], i).value ==> d in ds
  {
    var sec := t.sections[m];
    ListedIn(t, w, doc, ds, m, d);
    var n := ItemCount(Lookup(doc, sec.list)).value;
    IndexIff(doc, sec.list, n, i);
    InTurns(ItemTurns(w, doc, sec), n, i, d);
  }

  lemma SlotIn(w: World, doc: Value, ss: seq<Slot>, j: nat, d: (Path, Value))
    requires Concat(SlotTurns(w, doc, ss), |ss|).Some? && j < |ss|
    ensures Digest(w, doc, ss[j]).Some?
    ensures d == (ss[j].target, Str(Digest(w, doc, ss[j]).value)) ==> d in Concat(SlotTurns(w, doc, ss), |ss|).value
  {
    var g := SlotTurns(w, doc, ss);
    InTurns(g, |ss|, j, d);
    assert g(j) == SlotDerived(w, doc, ss[j]);
  }

  /** The digest of a slot of a listed entry is derived and held. */
  lemma SlotMeans(t: Table, w: World, doc: Value, ds: Derived, m: nat, i: nat, j: nat)
    requires IsSettled(t, w, doc, ds) && m < |t.sections| && IsAt(doc, ItemPath(t.sections[m], i))
    ensures ItemSlots(doc, t.sections[m], i).Some?
    ensures j < |ItemSlots(doc, t.sections[m], i).value| ==>
      var s := ItemSlots(doc, t.sections[m], i).value[j];
      IsDigestOf(w, doc, s.target, if s.repository.None? then Some(w.repository) else Lookup(doc, s.repository.value), s.file)
  {
    var any: (Path, Value) := ([], Null);
    ItemIn(t, w, doc, ds, m, i, any);
    var ss := ItemSlots(doc, t.sections[m], i).value;
    if j < |ss| {
      SlotIn(w, doc, ss, j, any);
      var d := (ss[j].target, Str(Digest(w, doc, ss[j]).value));
      SlotIn(w, doc, ss, j, d);
      ItemIn(t, w, doc, ds, m, i, d);
      HeldDigest(t, w, doc, ds, ss[j], d);
    }
  }

  lemma HeldDigest(t: Table, w: World, doc: Value, ds: Derived, s: Slot, d: (Path, Value))
    requires IsWorld(t, w) && ScalarsHeld(doc, ds) && d in ds
    requires Digest(w, doc, s).Some? && d == (s.target, Str(Digest(w, doc, s).value))
    ensures IsDigestOf(w, doc, s.target, if s.repository.None? then Some(w.repository) else Lookup(doc, s.repository.value), s.file)
  {
    assert IsScalar(d.1);
  }

  lemma OwnMeans(t: Table, w: World, doc: Value, ds: Derived, m: nat, i: nat, k: nat, e: Path)
    requires IsSettled(t, w, doc, ds) && m < |t.sections| && e == ItemPath(t.sections[m], i) && IsAt(doc, e)
    requires k < |t.sections[m].own|
    ensures var r := t.sections[m].own[k];
      IsDigestOf(w, doc, e + r.target,
        if r.repository.None? then Some(w.repository) else Lookup(doc, e + r.repository.value), e + r.file)
  {
    OwnAt(t.sections[m], i, |t.sections[m].own|, k);
    SlotMeans(t, w, doc, ds, m, i, k);
  }

  lemma InnerMeans(t: Table, w: World, doc: Value, ds: Derived, m: nat, i: nat, x: Inner, k: nat, e: Path)
    requires IsSettled(t, w, doc, ds) && m < |t.sections| && e == ItemPath(t.sections[m], i) && IsAt(doc, e)
    requires t.sections[m].inner == Some(x) && IsAt(doc, e + [x.field, Index(k)])
    ensures IsDigestOf(w, doc, e + [x.field, Index(k), x.target],
      if x.repository.None? then Some(w.repository) else Lookup(doc, e + x.repository.value), e + [x.field, Index(k), x.file])
  {
    var own := |t.sections[m].own|;
    SlotMeans(t, w, doc, ds, m, i, own + k);
    var n := InnerCount(doc, e, x).value;
    InnerIndex(doc, e, x, n, k);
    InnerAt(e, x, n, k);
  }

  lemma InnerIndex(doc: Value, e: Path, x: Inner, n: nat, k: nat)
    requires Shaped(doc) && InnerCount(doc, e, x) == Some(n) && IsAt(doc, e + [x.field, Index(k)])
    ensures k < n
  {
    OneMoreStep(doc, e + [x.field], Index(k));
    assert e + [x.field] + [Index(k)] == e + [x.field, Index(k)];
    IndexIff(doc, e + [x.field], n, k);
  }

  // ------------------------------------------------------------------ list by list

  lemma MutationsMean(w: World, doc: Value, ds: Derived, i: nat)
    requires IsSource(w) && IsSettled(INVENTORY, w, doc, ds) && IsAt(doc, [EXCLUDED_MUTATIONS, Index(i)])
    ensures IsNamed(w, doc, [EXCLUDED_MUTATIONS, Index(i)], SHA256, PATH)
  {
    OwnMeans(INVENTORY, w, doc, ds, 0, i, 0, [EXCLUDED_MUTATIONS, Index(i)]);
  }

  lemma ClosuresMean(w: World, doc: Value, ds: Derived, i: nat)
    requires IsSource(w) && IsSettled(INVENTORY, w, doc, ds) && IsAt(doc, [SCAN, BUILD_CLOSURE, Index(i)])
    ensures IsClosure(w, doc, [SCAN, BUILD_CLOSURE, Index(i)])
  {
    var e := [SCAN, BUILD_CLOSURE, Index(i)];
    OwnMeans(INVENTORY, w, doc, ds, 1, i, 0, e);
    forall k: nat | IsAt(doc, e + [RUNTIME_EVIDENCE, Index(k)])
      ensures IsDigestOf(w, doc, e + [RUNTIME_EVIDENCE, Index(k), SHA256], Lookup(doc, e + [REPOSITORY]),
        e + [RUNTIME_EVIDENCE, Index(k), PATH])
    {
      InnerMeans(INVENTORY, w, doc, ds, 1, i, CLOSURES.inner.value, k, e);
    }
  }

  lemma PlistsMean(w: World, doc: Value, ds: Derived, i: nat)
    requires IsSource(w) && IsSettled(INVENTORY, w, doc, ds) && IsAt(doc, [SCAN, TARGET_POLICY, EXCLUDED_TEST_PLISTS, Index(i)])
    ensures IsNamed(w, doc, [SCAN, TARGET_POLICY, EXCLUDED_TEST_PLISTS, Index(i)], SHA256, PATH)
  {
    OwnMeans(INVENTORY, w, doc, ds, 2, i, 0, [SCAN, TARGET_POLICY, EXCLUDED_TEST_PLISTS, Index(i)]);
  }

  lemma DeclaredMean(w: World, doc: Value, ds: Derived, i: nat)
    requires IsSource(w) && IsSettled(INVENTORY, w, doc, ds) && IsAt(doc, [SCAN, TARGET_POLICY, DECLARED_INPUTS, Index(i)])
    ensures IsOurs(w, doc, [SCAN, TARGET_POLICY, DECLARED_INPUTS, Index(i)], SHA256, PATH)
  {
    OwnMeans(INVENTORY, w, doc, ds, 3, i, 0, [SCAN, TARGET_POLICY, DECLARED_INPUTS, Index(i)]);
  }

  lemma BindingsMean(w: World, doc: Value, ds: Derived, i: nat)
    requires IsSource(w) && IsSettled(INVENTORY, w, doc, ds) && IsAt(doc, [SCAN, TARGET_POLICY, SOURCE_BINDINGS, Index(i)])
    ensures IsBinding(w, doc, [SCAN, TARGET_POLICY, SOURCE_BINDINGS, Index(i)])
  {
    var e := [SCAN, TARGET_POLICY, SOURCE_BINDINGS, Index(i)];
    OwnMeans(INVENTORY, w, doc, ds, 4, i, 0, e);
    OwnMeans(INVENTORY, w, doc, ds, 4, i, 1, e);
    forall k: nat | IsAt(doc, e + [INPUTS, Index(k)])
      ensures IsDigestOf(w, doc, e + [INPUTS, Index(k), SHA256], Some(Str(DARLING)), e + [INPUTS, Index(k), PATH])
    {
      InnerMeans(INVENTORY, w, doc, ds, 4, i, BINDINGS.inner.value, k, e);
    }
  }

  lemma SettledIsCurrent(w: World, doc: Value, ds: Derived)
    requires IsSource(w) && IsSettled(INVENTORY, w, doc, ds)
    ensures IsCurrentInventory(w, doc)
  {
    forall i: nat | IsAt(doc, [EXCLUDED_MUTATIONS, Index(i)])
      ensures IsNamed(w, doc, [EXCLUDED_MUTATIONS, Index(i)], SHA256, PATH)
    {
      MutationsMean(w, doc, ds, i);
    }
    forall i: nat | IsAt(doc, [SCAN, BUILD_CLOSURE, Index(i)]) ensures IsClosure(w, doc, [SCAN, BUILD_CLOSURE, Index(i)]) {
      ClosuresMean(w, doc, ds, i);
    }
    forall i: nat | IsAt(doc, [SCAN, TARGET_POLICY, EXCLUDED_TEST_PLISTS, Index(i)])
      ensures IsNamed(w, doc, [SCAN, TARGET_POLICY, EXCLUDED_TEST_PLISTS, Index(i)], SHA256, PATH)
    {
      PlistsMean(w, doc, ds, i);
    }
    forall i: nat | IsAt(doc, [SCAN, TARGET_POLICY, DECLARED_INPUTS, Index(i)])
      ensures IsOurs(w, doc, [SCAN, TARGET_POLICY, DECLARED_INPUTS, Index(i)], SHA256, PATH)
    {
      DeclaredMean(w, doc, ds, i);
    }
    forall i: nat | IsAt(doc, [SCAN, TARGET_POLICY, SOURCE_BINDINGS, Index(i)])
      ensures IsBinding(w, doc, [SCAN, TARGET_POLICY, SOURCE_BINDINGS, Index(i)])
    {
      BindingsMean(w, doc, ds, i);
    }
  }

  // ---------------------------------------------------------------- the replay

  /** Row `i` of the proof says this, as far as the values are scalars. */
  predicate IsRowAt(doc: Value, base: Path, fields: seq<Step>, row: seq<Value>) {
    |row| == |fields| && forall k | 0 <= k < |fields| :: IsScalar(row[k]) ==> Lookup(doc, base + [fields[k]]) == Some(row[k])
  }

  /** The proof records the tools and outputs that the replay finds for the lists of this inventory. */
  predicate IsProven(w: World, doc: Value) {
    var declared, bindings :=
      Lookup(doc, [SCAN, TARGET_POLICY, DECLARED_INPUTS]), Lookup(doc, [SCAN, TARGET_POLICY, SOURCE_BINDINGS]);
    && declared.Some? && bindings.Some? && w.replay(declared.value, bindings.value).Some?
    && var proof := w.replay(declared.value, bindings.value).value;
       && (forall i | 0 <= i < |proof.tools| ::
             IsRowAt(doc, [SCAN, TARGET_POLICY, OUTPUT_PROOF, TOOLS] + [Index(i)], [NAME, PATH, SHA256, VERSION], proof.tools[i]))
       && forall i | 0 <= i < |proof.outputs| ::
            IsRowAt(doc, [SCAN, TARGET_POLICY, OUTPUT_PROOF, OUTPUTS] + [Index(i)],
              [CMAKE, SOURCE, SHA256, SIZE, MUTATION_OPERATORS], proof.outputs[i])
  }

  lemma {:induction false} RowIn(base: Path, fields: seq<Step>, row: seq<Value>, n: nat, k: nat)
    requires k < n <= |fields| == |row|
    ensures (base + [fields[k]], row[k]) in RowDerived(base, fields, row, n)
  {
    if k < n - 1 {
      RowIn(base, fields, row, n - 1, k);
    }
  }

  lemma {:induction false} RowsIn(r: Rows, rows: seq<seq<Value>>, n: nat, i: nat, d: (Path, Value))
    requires AreRows(rows, r.fields) && i < n <= |rows|
    requires d in RowDerived(r.list + [Index(i)], r.fields, rows[i], |r.fields|)
    ensures d in RowsDerived(r, rows, n)
  {
    if i < n - 1 {
      RowsIn(r, rows, n - 1, i, d);
    }
  }

  lemma RowMeans(doc: Value, ds: Derived, r: Rows, rows: seq<seq<Value>>, i: nat)
    requires ScalarsHeld(doc, ds) && AreRows(rows, r.fields) && i < |rows|
    requires forall d | d in RowsDerived(r, rows, |rows|) :: d in ds
    ensures IsRowAt(doc, r.list + [Index(i)], r.fields, rows[i])
  {
    var base := r.list + [Index(i)];
    forall k | 0 <= k < |r.fields| && IsScalar(rows[i][k]) ensures Lookup(doc, base + [r.fields[k]]) == Some(rows[i][k]) {
      var d := (base + [r.fields[k]], rows[i][k]);
      RowIn(base, r.fields, rows[i], |r.fields|, k);
      RowsIn(r, rows, |rows|, i, d);
      assert d in ds;
    }
  }

  lemma AllRowsMean(doc: Value, ds: Derived, r: Rows, rows: seq<seq<Value>>, list: Path, fields: seq<Step>)
    requires ScalarsHeld(doc, ds) && AreRows(rows, r.fields) && r == Rows(list, fields)
    requires forall d | d in RowsDerived(r, rows, |rows|) :: d in ds
    ensures forall i | 0 <= i < |rows| :: IsRowAt(doc, list + [Index(i)], fields, rows[i])
  {
    forall i | 0 <= i < |rows| ensures IsRowAt(doc, list + [Index(i)], fields, rows[i]) {
      RowMeans(doc, ds, r, rows, i);
    }
  }

  lemma ProofMeans(w: World, doc: Value, ds: Derived)
    requires IsSource(w) && w.replays && IsSettled(INVENTORY, w, doc, ds)
    ensures IsProven(w, doc)
  {
    var proof := Replayed(INVENTORY, w, doc).value;
    AllRowsMean(doc, ds, TOOL_ROWS, proof.tools, [SCAN, TARGET_POLICY, OUTPUT_PROOF, TOOLS], [NAME, PATH, SHA256, VERSION]);
    AllRowsMean(doc, ds, OUTPUT_ROWS, proof.outputs, [SCAN, TARGET_POLICY, OUTPUT_PROOF, OUTPUTS],
      [CMAKE, SOURCE, SHA256, SIZE, MUTATION_OPERATORS]);
  }

  // ------------------------------------------------------------------ a rewrite

  lemma HeldAfterRewrite(text: Text, ds: Derived, d: (Path, Value))
    requires Rewritable(text, ds) && d in ds && IsScalar(d.1) && NonEmpty(ds)
    ensures Lookup(Updated(Load(text).value, ds), d.0) == Some(d.1)
  {
    var j :| 0 <= j < |ds| && ds[j] == d;
    LoadedUnique(Parse(text).value);
    RewritableInPlace(text, ds, j);
    FoundScalar(Load(text).value, d.0, d.1);
    ScalarWritten(Load(text).value, ds, d);
  }

  /** A rewritten inventory names the digests of its files, and with the replay also what that finds. */
  lemma RewrittenIsCurrent(text: Text, w: World)
    requires IsSource(w) && Evaluated(text, InventoryDerived(w)).Some? && NamesOnce(Parse(text).value)
    ensures var rendered := Evaluated(text, InventoryDerived(w)).value.rendered;
      && Load(rendered).Some? && IsCurrentInventory(w, Load(rendered).value)
      && (w.replays ==> IsProven(w, Load(rendered).value))
  {
    var doc := Load(text).value;
    var ds := InventoryDerived(w)(doc).value;
    InventoryIsTable();
    DerivePaths(ALPHABET, INVENTORY, w, doc);
    EvaluatedRewritable(text, InventoryDerived(w), ds);
    SplicedLoads(text, ds);
    WrittenIsSettled(text, w, ds);
    SettledIsCurrent(w, Updated(doc, ds), ds);
    if w.replays {
      ProofMeans(w, Updated(doc, ds), ds);
    }
  }

  lemma WrittenIsSettled(text: Text, w: World, ds: Derived)
    requires IsSource(w) && Rewritable(text, ds) && IsDict(ds) && InventoryDerived(w)(Load(text).value) == Some(ds)
    requires Load(Spliced(text, ds)) == Some(Updated(Load(text).value, ds)) && NonEmpty(ds)
    ensures IsSettled(INVENTORY, w, Updated(Load(text).value, ds), ds)
  {
    LoadedUnique(Parse(text).value);
    LoadedShaped(Parse(Spliced(text, ds)).value);
    InventoryAgain(w, Load(text).value, ds);
    forall d | d in ds && IsScalar(d.1) ensures Lookup(Updated(Load(text).value, ds), d.0) == Some(d.1) {
      HeldAfterRewrite(text, ds, d);
    }
  }
}
