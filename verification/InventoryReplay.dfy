/**
 The generator's replay inside the inventory derivation (`inventory_derivation` of
 scripts/generate_namespace_writer_registry.py with `_generated_source_bindings` of
 tests/west_test_contracts/namespace_writer_inventory_contract.py): it reads the inventory as it
 stands, so it raises at a digest that the same derivation would have put right. A rewrite without the
 replay clears the way.
 */
module InventoryReplay {
  import opened Prelude
  import opened JsonSyntax
  import opened JsonValues
  import opened JsonSplice
  import opened JsonApply
  import opened JsonTheorems
  import opened RegistryFrame
  import opened RegistryTarget
  import opened DigestTable
  import opened InventoryDerivation

  /** The same source tree, without the replay. */
  function Plain(w: World): World {
    w.(replays := false)
  }

  /** The replay's own verdict on the lists of a document. */
  function ReplayOf(w: World, doc: Value): Option<Proof> {
    var declared, bindings := Lookup(doc, DECLARED.list), Lookup(doc, BINDINGS.list);
    if declared.None? || bindings.None? then None else w.replay(declared.value, bindings.value)
  }

  lemma CountedIsThere(w: World, doc: Value, sec: Section)
    requires ListDerived(w, doc, sec).Some?
    ensures Lookup(doc, sec.list).Some?
  {
  }

  lemma BothThere(w: World, doc: Value)
    requires ListsDerived(w, doc, INVENTORY.sections).Some?
    ensures ListsDerived(w, doc, [DECLARED, BINDINGS]).Some?
    ensures ListDerived(w, doc, DECLARED).Some? && ListDerived(w, doc, BINDINGS).Some?
    ensures Lookup(doc, DECLARED.list).Some? && Lookup(doc, BINDINGS.list).Some?
  {
    InventoryIsTable();
    BothDerived(ALPHABET, INVENTORY, w, doc);
    RecordsBoth(w, doc, DECLARED, BINDINGS, doc);
    CountedIsThere(w, doc, DECLARED);
    CountedIsThere(w, doc, BINDINGS);
  }

  /**
   Where all digests can be had, the derivation with the replay succeeds exactly when those of the
   declared inputs and the bindings are recorded already and the replay itself succeeds.
   */
  lemma ReplayIff(w: World, doc: Value)
    requires w.replays && ListsDerived(w, doc, INVENTORY.sections).Some?
    ensures ListsDerived(w, doc, [DECLARED, BINDINGS]).Some?
    ensures InventoryDerived(w)(doc).Some? <==>
      Records(doc, ListsDerived(w, doc, [DECLARED, BINDINGS]).value) && ReplayOf(w, doc).Some?
  {
    BothThere(w, doc);
  }

  // ------------------------------------------------------------- other digests

  lemma {:induction false} ConcatMore(f: nat -> Option<Derived>, g: nat -> Option<Derived>, n: nat)
    requires Concat(f, n).Some? && forall i: nat | i < n && f(i).Some? :: g(i).Some?
    ensures Concat(g, n).Some?
  {
    if n > 0 {
      ConcatMore(f, g, n - 1);
    }
  }

  /** Every file has a digest. */
  ghost predicate IsTotal(w: World) {
    forall r, p :: w.sha(r, p).Some?
  }

  lemma ItemMore(w: World, w': World, doc: Value, sec: Section, i: nat)
    requires IsTotal(w') && ItemDerived(w, doc, sec, i).Some?
    ensures ItemDerived(w', doc, sec, i).Some?
  {
    var ss := ItemSlots(doc, sec, i).value;
    var f, g := SlotTurns(w, doc, ss), SlotTurns(w', doc, ss);
    forall k: nat | k < |ss| && f(k).Some? ensures g(k).Some? {
    }
    ConcatMore(f, g, |ss|);
  }

  lemma ListMore(w: World, w': World, doc: Value, sec: Section)
    requires IsTotal(w') && ListDerived(w, doc, sec).Some?
    ensures ListDerived(w', doc, sec).Some?
  {
    var n := ItemCount(Lookup(doc, sec.list)).value;
    var f, g := ItemTurns(w, doc, sec), ItemTurns(w', doc, sec);
    forall i: nat | i < n && f(i).Some? ensures g(i).Some? {
      ItemMore(w, w', doc, sec, i);
    }
    ConcatMore(f, g, n);
  }

  lemma ListsMore(w: World, w': World, doc: Value, secs: seq<Section>)
    requires IsTotal(w') && ListsDerived(w, doc, secs).Some?
    ensures ListsDerived(w', doc, secs).Some?
  {
    var f, g := ListTurns(w, doc, secs), ListTurns(w', doc, secs);
    forall i: nat | i < |secs| && f(i).Some? ensures g(i).Some? {
      ListMore(w, w', doc, secs[i]);
    }
    ConcatMore(f, g, |secs|);
  }

  /** The digest of the first declared input. */
  lemma FirstDeclared(w: World, doc: Value, text: Text)
    requires ListDerived(w, doc, DECLARED).Some? && ItemCount(Lookup(doc, DECLARED.list)).value > 0
    requires forall r, p :: w.sha(r, p) == Some(text)
    ensures (ItemPath(DECLARED, 0) + DECLARED.own[0].target, Str(text)) in ListDerived(w, doc, DECLARED).value
  {
    var d := (ItemPath(DECLARED, 0) + DECLARED.own[0].target, Str(text));
    var f, n := ItemTurns(w, doc, DECLARED), ItemCount(Lookup(doc, DECLARED.list)).value;
    InTurns(f, n, 0, d);
    var ss := OwnSlots(DECLARED, 0, 1);
    OwnAt(DECLARED, 0, 1, 0);
    assert ItemSlots(doc, DECLARED, 0) == Some(ss);
    var g := SlotTurns(w, doc, ss);
    InTurns(g, 1, 0, d);
    assert g(0) == Some([d]);
  }

  /** Some digest text that is not the recorded one. */
  function Other(recorded: Option<Value>): Text {
    if recorded == Some(Str([97])) then [98] else [97]
  }

  /**
   For every document with a declared input whose digests can be had there are file contents for which
   the derivation succeeds without the replay and raises with it.
   */
  lemma StaleIsRefused(w: World, doc: Value) returns (w': World)
    requires IsSource(w) && InventoryDerived(Plain(w))(doc).Some? && ItemCount(Lookup(doc, DECLARED.list)) != Some(0)
    ensures IsSource(w') && w'.replays && InventoryDerived(Plain(w'))(doc).Some? && InventoryDerived(w')(doc).None?
  {
    var target := ItemPath(DECLARED, 0) + DECLARED.own[0].target;
    var text := Other(Lookup(doc, target));
    w' := w.(sha := (r, p) => Some(text), replays := true);
    ListsMore(Plain(w), Plain(w'), doc, INVENTORY.sections);
    ListsMore(Plain(w), w', doc, INVENTORY.sections);
    BothThere(w', doc);
    FirstDeclared(w', doc, text);
    RecordsBoth(w', doc, DECLARED, BINDINGS, doc);
    ReplayIff(w', doc);
  }

  // -------------------------------------------------------------- the way round

  lemma ItemSame(w: World, w': World, doc: Value, sec: Section, i: nat)
    requires w.repository == w'.repository && w.sha == w'.sha
    ensures ItemDerived(w, doc, sec, i) == ItemDerived(w', doc, sec, i)
  {
    if ItemSlots(doc, sec, i).Some? {
      var ss := ItemSlots(doc, sec, i).value;
      var f, g := SlotTurns(w, doc, ss), SlotTurns(w', doc, ss);
      forall k: nat | k < |ss| ensures f(k) == g(k) {
      }
      ConcatSame(f, g, |ss|);
    }
  }

  lemma ListSame(w: World, w': World, doc: Value, sec: Section)
    requires w.repository == w'.repository && w.sha == w'.sha
    ensures ListDerived(w, doc, sec) == ListDerived(w', doc, sec)
  {
    var f, g := ItemTurns(w, doc, sec), ItemTurns(w', doc, sec);
    forall i: nat ensures f(i) == g(i) {
      ItemSame(w, w', doc, sec, i);
    }
    if ItemCount(Lookup(doc, sec.list)).Some? {
      ConcatSame(f, g, ItemCount(Lookup(doc, sec.list)).value);
    }
  }

  lemma ListsSame(w: World, w': World, doc: Value, secs: seq<Section>)
    requires w.repository == w'.repository && w.sha == w'.sha
    ensures ListsDerived(w, doc, secs) == ListsDerived(w', doc, secs)
  {
    var f, g := ListTurns(w, doc, secs), ListTurns(w', doc, secs);
    forall i: nat | i < |secs| ensures f(i) == g(i) {
      ListSame(w, w', doc, secs[i]);
    }
    ConcatSame(f, g, |secs|);
  }

  /** Without the replay only scalars are derived, so all of them are written. */
  lemma PlainScalars(text: Text, w: World, ds: Derived, j: nat)
    requires IsSource(w) && !w.replays && Rewritable(text, ds) && InventoryDerived(w)(Load(text).value) == Some(ds) && j < |ds|
    ensures ScalarAt(Load(text).value, ds[j].0)
  {
    InventoryIsTable();
    ListsDigests(ALPHABET, INVENTORY, w, Load(text).value, INVENTORY.sections);
    assert IsIn(INVENTORY.sections, |INVENTORY.sections|, ALPHABET, ds[j]);
    var k :| 0 <= k < |INVENTORY.sections| && IsUnder(INVENTORY.sections[k], ALPHABET, ds[j]);
    RewritableInPlace(text, ds, j);
    FoundScalar(Load(text).value, ds[j].0, ds[j].1);
  }

  /** A rewrite without the replay records every digest that the replay relies on. */
  lemma PlainRewriteRecords(text: Text, w: World)
    requires IsSource(w) && !w.replays && Evaluated(text, InventoryDerived(w)).Some? && NamesOnce(Parse(text).value)
    ensures var rendered := Evaluated(text, InventoryDerived(w)).value.rendered;
      && Load(rendered).Some? && ListsDerived(w, Load(rendered).value, INVENTORY.sections).Some?
      && ListsDerived(w, Load(rendered).value, [DECLARED, BINDINGS]).Some?
      && Records(Load(rendered).value, ListsDerived(w, Load(rendered).value, [DECLARED, BINDINGS]).value)
  {
    var doc := Load(text).value;
    var ds := InventoryDerived(w)(doc).value;
    InventoryIsTable();
    DerivePaths(ALPHABET, INVENTORY, w, doc);
    EvaluatedRewritable(text, InventoryDerived(w), ds);
    LoadedUnique(Parse(text).value);
    forall j | 0 <= j < |ds| ensures ScalarAt(doc, ds[j].0) {
      PlainScalars(text, w, ds, j);
    }
    SplicedLoads(text, ds);
    InventoryAgain(w, doc, ds);
    RecordedAfterRewrite(ALPHABET, INVENTORY, w, doc, ds);
  }

  /** Once the inventory is rewritten without the replay, the replay alone decides. */
  lemma ReplayAfterRewrite(text: Text, w: World)
    requires IsSource(w) && w.replays && Evaluated(text, InventoryDerived(Plain(w))).Some? && NamesOnce(Parse(text).value)
    ensures var rendered := Evaluated(text, InventoryDerived(Plain(w))).value.rendered;
      && Load(rendered).Some?
      && (InventoryDerived(w)(Load(rendered).value).Some? <==> ReplayOf(w, Load(rendered).value).Some?)
  {
    PlainRewriteRecords(text, Plain(w));
    var doc' := Load(Evaluated(text, InventoryDerived(Plain(w))).value.rendered).value;
    ListsSame(w, Plain(w), doc', INVENTORY.sections);
    ListsSame(w, Plain(w), doc', [DECLARED, BINDINGS]);
    ReplayIff(w, doc');
  }
}
