/**
 The driver that checks or rewrites registries (`run` of scripts/registry_derivation.py) over all
 kinds of targets. Whatever write mode has written, check mode passes.
 */
module RegistryRun {
  import opened Prelude
  import opened JsonSyntax
  import opened JsonDump
  import opened JsonTheorems
  import opened RegistryFrame
  import opened RegistryTarget
  import WeakBinding
  import DigestTable
  import InventoryDerivation
  import AuditDerivation

  /** Which registry a file is, with the source tree it is derived from. */
  datatype Source =
    | WeakBindings(weak: WeakBinding.World)
    | Inventory(inventory: DigestTable.World)
    | Audit(audit: AuditDerivation.World)

  function WeakDerived(w: WeakBinding.World): Derivation {
    v => WeakBinding.Derive(w, v)
  }

  ghost function EvaluatedBy(s: Source, text: Text): Option<Evaluation> {
    match s
    case WeakBindings(w) => Evaluated(text, WeakDerived(w))
    case Inventory(w) => Evaluated(text, InventoryDerivation.InventoryDerived(w))
    case Audit(w) => AuditDerivation.EvaluatedAudit(text, w)
  }

  ghost predicate IsSource(s: Source) {
    match s
    case WeakBindings(w) => WeakBinding.IsWorld(w)
    case Inventory(w) => InventoryDerivation.IsSource(w)
    case Audit(w) => AuditDerivation.IsWorld(w)
  }

  /** The file has been decoded, and no name of an object in it is repeated. */
  predicate IsRegistry(text: Text) {
    IsDecoded(text) && (Parse(text).Some? ==> NamesOnce(Parse(text).value))
  }

  method EvaluateTarget(s: Source, text: Text) returns (r: Option<Evaluation>)
    requires IsSource(s)
    ensures r == EvaluatedBy(s, text)
  {
    match s
    case WeakBindings(w) =>
      WeakBinding.DeriveIsDerivation(w);
      r := Evaluate(text, WeakDerived(w));
    case Inventory(w) =>
      InventoryDerivation.InventoryIsTable();
      DigestTable.DeriveIsDerivation(InventoryDerivation.ALPHABET, InventoryDerivation.INVENTORY, w);
      r := Evaluate(text, InventoryDerivation.InventoryDerived(w));
    case Audit(w) =>
      r := AuditDerivation.EvaluateAudit(text, w);
  }

  // ------------------------------------------------------------- check, write

  class Registry {
    var text: Text
    const source: Source

    constructor (text: Text, source: Source)
      ensures this.text == text && this.source == source
    {
      this.text := text;
      this.source := source;
    }
  }

  /** Different files, each with a source tree. */
  ghost predicate AreTargets(targets: seq<Registry>) {
    && (forall i, j | 0 <= i < j < |targets| :: targets[i] != targets[j])
    && forall i | 0 <= i < |targets| :: IsSource(targets[i].source)
  }

  /** Evaluates every target before any is written; nothing when one of them raises. */
  method EvaluateAll(targets: seq<Registry>) returns (r: Option<seq<Evaluation>>)
    requires AreTargets(targets)
    ensures r.Some? <==> forall i | 0 <= i < |targets| :: EvaluatedBy(targets[i].source, targets[i].text).Some?
    ensures r.Some? ==> |r.value| == |targets|
    ensures r.Some? ==> forall i | 0 <= i < |targets| :: EvaluatedBy(targets[i].source, targets[i].text) == Some(r.value[i])
  {
    var all := [];
    for i := 0 to |targets|
      invariant |all| == i
      invariant forall j | 0 <= j < i :: EvaluatedBy(targets[j].source, targets[j].text) == Some(all[j])
    {
      var e := EvaluateTarget(targets[i].source, targets[i].text);
      if e.None? {
        return None;
      }
      all := all + [e.value];
    }
    r := Some(all);
  }

  method Failing(all: seq<Evaluation>) returns (failing: bool)
    ensures failing <==> exists i | 0 <= i < |all| :: all[i].moved != []
  {
    failing := false;
    for i := 0 to |all|
      invariant failing <==> exists j | 0 <= j < i :: all[j].moved != []
    {
      failing := failing || all[i].moved != [];
    }
  }

  method WriteAll(targets: seq<Registry>, all: seq<Evaluation>)
    requires AreTargets(targets) && |all| == |targets|
    modifies targets
    ensures forall i | 0 <= i < |targets| :: targets[i].text == all[i].rendered
  {
    for i := 0 to |targets|
      invariant forall j | 0 <= j < i :: targets[j].text == all[j].rendered
    {
      if targets[i].text != all[i].rendered {
        targets[i].text := all[i].rendered;
      }
    }
  }

  /** Compares or rewrites every target and returns the exit status. */
  method Run(targets: seq<Registry>, check: bool) returns (status: nat)
    requires AreTargets(targets)
    modifies targets
    ensures status == 0 <==> forall i | 0 <= i < |targets| ::
      var e := old(EvaluatedBy(targets[i].source, targets[i].text)); e.Some? && (check ==> e.value.moved == [])
    ensures check || status != 0 ==> forall i | 0 <= i < |targets| :: targets[i].text == old(targets[i].text)
    ensures !check && status == 0 ==> forall i | 0 <= i < |targets| ::
      old(EvaluatedBy(targets[i].source, targets[i].text)).Some?
      && targets[i].text == old(EvaluatedBy(targets[i].source, targets[i].text)).value.rendered
  {
    var all := EvaluateAll(targets);
    if all.None? {
      return 1;
    }
    if check {
      var failing := Failing(all.value);
      return if failing then 1 else 0;
    }
    WriteAll(targets, all.value);
    status := 0;
  }

  // ------------------------------------------------------------- write, then check

  /** What a target would write is current: the check finds nothing and writing changes nothing. */
  lemma TargetFixedPoint(s: Source, text: Text)
    requires IsSource(s) && IsRegistry(text) && EvaluatedBy(s, text).Some?
    ensures var rendered := EvaluatedBy(s, text).value.rendered; EvaluatedBy(s, rendered) == Some(Evaluation([], rendered))
  {
    match s
    case WeakBindings(w) => WeakFixedPoint(text, w);
    case Inventory(w) => InventoryDerivation.InventoryFixedPoint(text, w);
    case Audit(w) => AuditDerivation.AuditFixedPoint(text, w);
  }

  lemma WeakFixedPoint(text: Text, w: WeakBinding.World)
    requires WeakBinding.IsWorld(w) && IsRegistry(text) && Evaluated(text, WeakDerived(w)).Some?
    ensures var rendered := Evaluated(text, WeakDerived(w)).value.rendered;
      Evaluated(rendered, WeakDerived(w)) == Some(Evaluation([], rendered))
  {
    var ds := WeakBinding.Derive(w, Load(text).value).value;
    WeakBinding.DerivePaths(w, Load(text).value);
    EvaluatedRewritable(text, WeakDerived(w), ds);
    WeakBinding.WeakBindingFixedPoint(text, w, ds);
  }

  /** Of a registry that is spliced, the check finds nothing exactly when writing would change nothing. */
  lemma CheckIff(s: Source, text: Text)
    requires IsSource(s) && IsRegistry(text) && EvaluatedBy(s, text).Some? && !s.Audit?
    ensures EvaluatedBy(s, text).value.moved == [] <==> EvaluatedBy(s, text).value.rendered == text
  {
    TargetFixedPoint(s, text);
  }

  /** Write mode, and then check mode on what it has written, with nothing else changed. */
  method WriteThenCheck(targets: seq<Registry>) returns (written: nat, checked: nat)
    requires AreTargets(targets) && forall i | 0 <= i < |targets| :: IsRegistry(targets[i].text)
    modifies targets
    ensures written == 0 ==> checked == 0
    ensures written == 0 <==> forall i | 0 <= i < |targets| :: old(EvaluatedBy(targets[i].source, targets[i].text)).Some?
  {
    written := Run(targets, false);
    if written == 0 {
      forall i | 0 <= i < |targets|
        ensures EvaluatedBy(targets[i].source, targets[i].text) == Some(Evaluation([], targets[i].text))
      {
        TargetFixedPoint(targets[i].source, old(targets[i].text));
      }
    }
    checked := Run(targets, true);
  }

  // ---------------------------------------------------- the inventory and its audit

  /**
   What the scan of the source tree gives for a loaded inventory, nothing when it raises. It follows the
   writers, the exclusions and the scan rules, and no digest and nothing of the proof.
   */
  type Scan = Value -> Option<AuditDerivation.World>

  ghost predicate IsScan(scan: Scan) {
    && (forall v :: scan(v).Some? ==> AuditDerivation.IsWorld(scan(v).value))
    && forall v, v' | DigestTable.SameReads(InventoryDerivation.ALPHABET, v, v') :: scan(v) == scan(v')
  }

  /** The tree that the audit of an inventory is derived from. */
  function Scanned(scan: Scan, inventory: Text): Option<AuditDerivation.World> {
    var doc := Load(inventory);
    if doc.None? then None else scan(doc.value)
  }

  /** A rewrite of the inventory does not change what its audit is derived from. */
  lemma ScannedAgain(inventory: Text, w: DigestTable.World, scan: Scan)
    requires InventoryDerivation.IsSource(w) && IsScan(scan) && IsRegistry(inventory)
    requires Evaluated(inventory, InventoryDerivation.InventoryDerived(w)).Some?
    ensures Scanned(scan, Evaluated(inventory, InventoryDerivation.InventoryDerived(w)).value.rendered) == Scanned(scan, inventory)
  {
    InventoryDerivation.InventoryReads(inventory, w);
  }

  class File {
    var text: Text
  }

  ghost predicate BothEvaluate(inventory: Text, audit: Text, w: DigestTable.World, scan: Scan) {
    && EvaluatedBy(Inventory(w), inventory).Some?
    && Scanned(scan, inventory).Some? && EvaluatedBy(Audit(Scanned(scan, inventory).value), audit).Some?
  }

  ghost function InventoryResult(inventory: Text, w: DigestTable.World): Evaluation
    requires EvaluatedBy(Inventory(w), inventory).Some?
  {
    EvaluatedBy(Inventory(w), inventory).value
  }

  ghost function AuditResult(inventory: Text, audit: Text, scan: Scan): Evaluation
    requires Scanned(scan, inventory).Some? && EvaluatedBy(Audit(Scanned(scan, inventory).value), audit).Some?
  {
    EvaluatedBy(Audit(Scanned(scan, inventory).value), audit).value
  }

  /** A run of the generator: the inventory is loaded, and it and the audit derived from it are the targets. */
  method Generate(inventory: File, audit: File, w: DigestTable.World, scan: Scan, check: bool) returns (status: nat)
    requires inventory != audit && InventoryDerivation.IsSource(w) && IsScan(scan)
    modifies inventory, audit
    ensures status == 0 <==> old(
      && BothEvaluate(inventory.text, audit.text, w, scan)
      && (check ==> InventoryResult(inventory.text, w).moved == [] && AuditResult(inventory.text, audit.text, scan).moved == []))
    ensures check || status != 0 ==> inventory.text == old(inventory.text) && audit.text == old(audit.text)
    ensures !check && status == 0 ==>
      && inventory.text == old(InventoryResult(inventory.text, w)).rendered
      && audit.text == old(AuditResult(inventory.text, audit.text, scan)).rendered
  {
    var world := Scanned(scan, inventory.text);
    if world.None? {
      return 1;
    }
    var a := new Registry(inventory.text, Inventory(w));
    var b := new Registry(audit.text, Audit(world.value));
    var targets := [a, b];
    assert targets[0] == a && targets[1] == b;
    status := Run(targets, check);
    inventory.text, audit.text := a.text, b.text;
  }

  /** What a run writes, the next one finds current, although it starts from the inventory that was rewritten. */
  lemma PairFixedPoint(inventory: Text, audit: Text, w: DigestTable.World, scan: Scan)
    requires InventoryDerivation.IsSource(w) && IsScan(scan) && IsRegistry(inventory) && IsDecoded(audit)
    requires BothEvaluate(inventory, audit, w, scan)
    ensures var a, b := InventoryResult(inventory, w).rendered, AuditResult(inventory, audit, scan).rendered;
      && BothEvaluate(a, b, w, scan)
      && InventoryResult(a, w) == Evaluation([], a) && AuditResult(a, b, scan) == Evaluation([], b)
  {
    ScannedAgain(inventory, w, scan);
    InventoryDerivation.InventoryFixedPoint(inventory, w);
    AuditDerivation.AuditFixedPoint(audit, Scanned(scan, inventory).value);
  }

  /** Write mode and then check mode of the generator. */
  method GenerateThenCheck(inventory: File, audit: File, w: DigestTable.World, scan: Scan) returns (written: nat, checked: nat)
    requires inventory != audit && InventoryDerivation.IsSource(w) && IsScan(scan)
    requires IsRegistry(inventory.text) && IsDecoded(audit.text)
    modifies inventory, audit
    ensures written == 0 ==> checked == 0
    ensures written == 0 <==> old(BothEvaluate(inventory.text, audit.text, w, scan))
  {
    written := Generate(inventory, audit, w, scan, false);
    if written == 0 {
      PairFixedPoint(old(inventory.text), old(audit.text), w, scan);
    }
    checked := Generate(inventory, audit, w, scan, true);
  }
}
