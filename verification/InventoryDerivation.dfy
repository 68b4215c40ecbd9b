/**
 What is derived for the namespace-writer inventory (`inventory_derivation` of
 scripts/generate_namespace_writer_registry.py), as a table of the files it names: a digest beside
 each of them and, on demand, the record of a replayed generator. No field that is read is one that is
 written, so a rewrite always passes the check.
 */
module InventoryDerivation {
  import opened Prelude
  import opened JsonSyntax
  import opened JsonValues
  import opened JsonSplice
  import opened JsonApply
  import opened JsonTheorems
  import opened RegistryFrame
  import opened RegistryNames
  import opened RegistryTarget
  import opened DigestTable

  const DARLING: Text := [100, 97, 114, 108, 105, 110, 103]

  const ALPHABET := Alphabet({SHA256, CMAKE_SHA256}, {REPOSITORY, PATH, CMAKE}, OUTPUT_PROOF)

  const NAMED_FILE := Reading([SHA256], Some([REPOSITORY]), [PATH])

  const MUTATIONS := Section([EXCLUDED_MUTATIONS], [NAMED_FILE], None)

  const CLOSURES := Section([SCAN, BUILD_CLOSURE], [Reading([CMAKE_SHA256], Some([REPOSITORY]), [CMAKE])],
    Some(Inner(RUNTIME_EVIDENCE, true, Some([REPOSITORY]), SHA256, PATH)))

  const PLISTS := Section([SCAN, TARGET_POLICY, EXCLUDED_TEST_PLISTS], [NAMED_FILE], None)

  const DECLARED := Section([SCAN, TARGET_POLICY, DECLARED_INPUTS], [Reading([SHA256], None, [PATH])], None)

  const BINDINGS := Section([SCAN, TARGET_POLICY, SOURCE_BINDINGS],
    [Reading([CMAKE_SHA256], None, [CMAKE]), Reading([GENERATOR, SHA256], None, [GENERATOR, PATH])],
    Some(Inner(INPUTS, false, None, SHA256, PATH)))

  const TOOL_ROWS := Rows([SCAN, TARGET_POLICY, OUTPUT_PROOF, TOOLS], [NAME, PATH, SHA256, VERSION])

  const OUTPUT_ROWS := Rows([SCAN, TARGET_POLICY, OUTPUT_PROOF, OUTPUTS],
    [CMAKE, SOURCE, SHA256, SIZE, MUTATION_OPERATORS])

  const INVENTORY := Table([MUTATIONS, CLOSURES, PLISTS, DECLARED, BINDINGS], DECLARED, BINDINGS, TOOL_ROWS, OUTPUT_ROWS)

  /** Files without a repository of their own are in the main one. */
  ghost predicate IsSource(w: World) {
    w.repository == Str(DARLING) && IsWorld(INVENTORY, w)
  }

  function InventoryDerived(w: World): Derivation {
    v => Derive(INVENTORY, w, v)
  }

  method DeriveInventory(w: World, doc: Value) returns (r: Option<Derived>)
    ensures r == InventoryDerived(w)(doc)
  {
    r := DeriveAll(INVENTORY, w, doc);
  }

  // --------------------------------------------------------------- a proper table

  lemma PlainName(s: Step)
    requires s.Key? && |s.name| != 10 && |s.name| != 12 && (|s.name| == 4 ==> s.name[0] != 112)
    requires (|s.name| == 5 ==> s.name[0] != 99) && (|s.name| == 6 ==> s.name[0] != 115) && (|s.name| == 16 ==> s.name[0] != 109)
    ensures IsPlain(ALPHABET, s)
  {
    assert |SHA256.name| == 6 && SHA256.name[0] == 115 && |CMAKE_SHA256.name| == 12 && |REPOSITORY.name| == 10;
    assert |PATH.name| == 4 && PATH.name[0] == 112 && |CMAKE.name| == 5 && CMAKE.name[0] == 99;
    assert |OUTPUT_PROOF.name| == 16 && OUTPUT_PROOF.name[0] == 109;
  }

  lemma ProperAlphabet()
    ensures IsAlphabet(ALPHABET) && NoIndex(ALPHABET)
  {
    assert |SHA256.name| == 6 && |CMAKE_SHA256.name| == 12 && |REPOSITORY.name| == 10;
    assert |PATH.name| == 4 && |CMAKE.name| == 5 && |OUTPUT_PROOF.name| == 16;
  }

  lemma DigestField(s: Step)
    requires s in ALPHABET.digests
    ensures IsDigestPath(ALPHABET, [s])
  {
  }

  lemma ReadField(s: Step)
    requires s in ALPHABET.inputs
    ensures IsReadPath(ALPHABET, [s])
  {
  }

  lemma FieldReading(target: Step, repository: Option<Step>, file: Step)
    requires target in ALPHABET.digests && file in ALPHABET.inputs && (repository.Some? ==> repository.value in ALPHABET.inputs)
    ensures IsReading(ALPHABET, Reading([target], if repository.None? then None else Some([repository.value]), [file]))
  {
    DigestField(target);
    ReadField(file);
    if repository.Some? {
      ReadField(repository.value);
    }
  }

  lemma TwoPlain(a: Step, b: Step)
    requires IsPlain(ALPHABET, a) && IsPlain(ALPHABET, b)
    ensures ArePlain(ALPHABET, [a, b], 2)
  {
  }

  lemma ThreePlain(a: Step, b: Step, c: Step)
    requires IsPlain(ALPHABET, a) && IsPlain(ALPHABET, b) && IsPlain(ALPHABET, c)
    ensures ArePlain(ALPHABET, [a, b, c], 3)
  {
  }

  lemma MutationsSection()
    ensures IsSection(ALPHABET, MUTATIONS)
  {
    PlainName(EXCLUDED_MUTATIONS);
    FieldReading(SHA256, Some(REPOSITORY), PATH);
    assert ArePlain(ALPHABET, [EXCLUDED_MUTATIONS], 1);
  }

  lemma ClosuresSection()
    ensures IsSection(ALPHABET, CLOSURES)
  {
    PlainName(SCAN);
    PlainName(BUILD_CLOSURE);
    PlainName(RUNTIME_EVIDENCE);
    TwoPlain(SCAN, BUILD_CLOSURE);
    FieldReading(CMAKE_SHA256, Some(REPOSITORY), CMAKE);
    ReadField(REPOSITORY);
    assert |CMAKE_SHA256.name| == 12 && |RUNTIME_EVIDENCE.name| == 16;
  }

  lemma PlistsSection()
    ensures IsSection(ALPHABET, PLISTS)
  {
    PlainName(SCAN);
    PlainName(TARGET_POLICY);
    PlainName(EXCLUDED_TEST_PLISTS);
    ThreePlain(SCAN, TARGET_POLICY, EXCLUDED_TEST_PLISTS);
    FieldReading(SHA256, Some(REPOSITORY), PATH);
  }

  lemma DeclaredSection()
    ensures IsSection(ALPHABET, DECLARED)
  {
    PlainName(SCAN);
    PlainName(TARGET_POLICY);
    PlainName(DECLARED_INPUTS);
    ThreePlain(SCAN, TARGET_POLICY, DECLARED_INPUTS);
    FieldReading(SHA256, None, PATH);
  }

  lemma GeneratorReading()
    ensures IsReading(ALPHABET, Reading([GENERATOR, SHA256], None, [GENERATOR, PATH]))
  {
    PlainName(GENERATOR);
    DigestField(SHA256);
    ReadField(PATH);
    BelowPlain(ALPHABET, [GENERATOR], [SHA256]);
    BelowPlain(ALPHABET, [GENERATOR], [PATH]);
    assert [GENERATOR] + [SHA256] == [GENERATOR, SHA256] && [GENERATOR] + [PATH] == [GENERATOR, PATH];
  }

  lemma BindingsSection()
    ensures IsSection(ALPHABET, BINDINGS)
  {
    PlainName(SCAN);
    PlainName(TARGET_POLICY);
    PlainName(SOURCE_BINDINGS);
    PlainName(INPUTS);
    ThreePlain(SCAN, TARGET_POLICY, SOURCE_BINDINGS);
    FieldReading(CMAKE_SHA256, None, CMAKE);
    GeneratorReading();
    assert |CMAKE_SHA256.name| == 12 && |GENERATOR.name| == 9 && |INPUTS.name| == 6;
    assert |[CMAKE_SHA256]| != |[GENERATOR, SHA256]|;
  }

  lemma ListNames()
    ensures EXCLUDED_MUTATIONS != SCAN && BUILD_CLOSURE != TARGET_POLICY && TOOLS != OUTPUTS
    ensures EXCLUDED_TEST_PLISTS != DECLARED_INPUTS && EXCLUDED_TEST_PLISTS != SOURCE_BINDINGS
    ensures DECLARED_INPUTS != SOURCE_BINDINGS && OUTPUT_PROOF != EXCLUDED_TEST_PLISTS
    ensures OUTPUT_PROOF != DECLARED_INPUTS && OUTPUT_PROOF != SOURCE_BINDINGS
  {
    assert |EXCLUDED_MUTATIONS.name| == 18 && |SCAN.name| == 4 && |BUILD_CLOSURE.name| == 13 && |TARGET_POLICY.name| == 31;
    assert |EXCLUDED_TEST_PLISTS.name| == 20 && |DECLARED_INPUTS.name| == 26 && |SOURCE_BINDINGS.name| == 25;
    assert |OUTPUT_PROOF.name| == 16 && |TOOLS.name| == 5 && |OUTPUTS.name| == 7;
  }

  /** Paths into the document whose steps differ somewhere. */
  lemma ListsApart(i: nat, j: nat)
    requires i < j < 5
    ensures Apart(INVENTORY.sections[i].list, INVENTORY.sections[j].list)
  {
    ListNames();
    var p, q := INVENTORY.sections[i].list, INVENTORY.sections[j].list;
    if i == 0 {
      Differ(p, q, 0);
    } else if i == 1 {
      Differ(p, q, 1);
    } else {
      Differ(p, q, 2);
    }
  }

  lemma RowsApart(r: Rows, j: nat)
    requires (r == TOOL_ROWS || r == OUTPUT_ROWS) && j < 5
    ensures Apart(r.list, INVENTORY.sections[j].list)
  {
    ListNames();
    var q := INVENTORY.sections[j].list;
    Differ(r.list, q, if j == 0 then 0 else if j == 1 then 1 else 2);
  }

  lemma ToolFields()
    ensures NAME != PATH && NAME != SHA256 && NAME != VERSION && PATH != SHA256 && PATH != VERSION && SHA256 != VERSION
  {
    assert |NAME.name| == 4 && |PATH.name| == 4 && |SHA256.name| == 6 && |VERSION.name| == 7 && NAME.name[0] != PATH.name[0];
  }

  lemma OutputFields()
    ensures CMAKE != SOURCE && CMAKE != SHA256 && CMAKE != SIZE && CMAKE != MUTATION_OPERATORS
    ensures SOURCE != SHA256 && SOURCE != SIZE && SOURCE != MUTATION_OPERATORS
    ensures SHA256 != SIZE && SHA256 != MUTATION_OPERATORS && SIZE != MUTATION_OPERATORS
  {
    assert |CMAKE.name| == 5 && |SOURCE.name| == 6 && |SHA256.name| == 6 && |SIZE.name| == 4;
    assert |MUTATION_OPERATORS.name| == 18 && SOURCE.name[1] != SHA256.name[1];
  }

  lemma FourDiffer(a: Step, b: Step, c: Step, d: Step)
    requires a != b && a != c && a != d && b != c && b != d && c != d
    ensures forall i, j | 0 <= i < j < 4 :: [a, b, c, d][i] != [a, b, c, d][j]
  {
  }

  lemma FiveDiffer(a: Step, b: Step, c: Step, d: Step, e: Step)
    requires a != b && a != c && a != d && a != e && b != c && b != d && b != e && c != d && c != e && d != e
    ensures forall i, j | 0 <= i < j < 5 :: [a, b, c, d, e][i] != [a, b, c, d, e][j]
  {
  }

  lemma ProofList(s: Step)
    requires IsPlain(ALPHABET, s)
    ensures var list := [SCAN, TARGET_POLICY, OUTPUT_PROOF, s];
      && (exists k | 0 <= k < |list| :: list[k] == ALPHABET.proof)
      && forall k | 0 <= k < |list| :: list[k] !in ALPHABET.digests && list[k] !in ALPHABET.inputs
  {
    ProperAlphabet();
    PlainName(SCAN);
    PlainName(TARGET_POLICY);
    assert [SCAN, TARGET_POLICY, OUTPUT_PROOF, s][2] == ALPHABET.proof;
  }

  lemma ProofRows()
    ensures AreProofRows(ALPHABET, TOOL_ROWS) && AreProofRows(ALPHABET, OUTPUT_ROWS)
  {
    PlainName(TOOLS);
    PlainName(OUTPUTS);
    ProofList(TOOLS);
    ProofList(OUTPUTS);
    ToolFields();
    OutputFields();
    FourDiffer(NAME, PATH, SHA256, VERSION);
    FiveDiffer(CMAKE, SOURCE, SHA256, SIZE, MUTATION_OPERATORS);
  }

  lemma InventoryIsTable()
    ensures IsTable(ALPHABET, INVENTORY)
  {
    ProperAlphabet();
    MutationsSection();
    ClosuresSection();
    PlistsSection();
    DeclaredSection();
    BindingsSection();
    ProofRows();
    ListNames();
    forall i, j | 0 <= i < j < 5 ensures Apart(INVENTORY.sections[i].list, INVENTORY.sections[j].list) {
      ListsApart(i, j);
    }
    forall j | 0 <= j < 5
      ensures Apart(TOOL_ROWS.list, INVENTORY.sections[j].list) && Apart(OUTPUT_ROWS.list, INVENTORY.sections[j].list)
    {
      RowsApart(TOOL_ROWS, j);
      RowsApart(OUTPUT_ROWS, j);
    }
    assert TOOL_ROWS.list[3] != OUTPUT_ROWS.list[3];
    assert INVENTORY.sections[3] == DECLARED && INVENTORY.sections[4] == BINDINGS;
  }

  // ---------------------------------------------------------------- fixed point

  /** The same values are derived from the inventory they are written into. */
  lemma InventoryAgain(w: World, doc: Value, ds: Derived)
    requires IsSource(w) && Unique(doc) && InventoryDerived(w)(doc) == Some(ds)
    ensures InventoryDerived(w)(Updated(doc, ds)) == Some(ds)
  {
    InventoryIsTable();
    DeriveAgain(ALPHABET, INVENTORY, w, doc, ds);
  }

  /** Once the inventory is rewritten, the check passes and rewriting changes nothing. */
  lemma InventoryFixedPoint(text: Text, w: World)
    requires IsSource(w) && Evaluated(text, InventoryDerived(w)).Some? && NamesOnce(Parse(text).value)
    ensures var rendered := Evaluated(text, InventoryDerived(w)).value.rendered;
      Evaluated(rendered, InventoryDerived(w)) == Some(Evaluation([], rendered))
  {
    InventoryIsTable();
    TableFixedPoint(ALPHABET, INVENTORY, text, w);
  }

  /** Whoever reads no digest and nothing of the proof finds the rewritten inventory unchanged. */
  lemma InventoryReads(text: Text, w: World)
    requires IsSource(w) && Evaluated(text, InventoryDerived(w)).Some? && NamesOnce(Parse(text).value)
    ensures var rendered := Evaluated(text, InventoryDerived(w)).value.rendered;
      Load(rendered).Some? && SameReads(ALPHABET, Load(text).value, Load(rendered).value)
  {
    var doc := Load(text).value;
    var ds := InventoryDerived(w)(doc).value;
    InventoryIsTable();
    DerivePaths(ALPHABET, INVENTORY, w, doc);
    LoadedUnique(Parse(text).value);
    SplicedLoads(text, ds);
    ReadsKept(ALPHABET, INVENTORY, w, doc, ds);
  }
}
