/**
 Digests beside the files that a registry names, told as a table: which lists there are, which fields
 of an entry name a file and which field takes its digest. Whatever the table, as long as fields that
 are read are never fields that are written, the same values are derived again from the registry they
 are written into.
 */
module DigestTable {
  import opened Prelude
  import opened JsonSyntax
  import opened JsonValues
  import opened JsonRender
  import opened JsonSplice
  import opened JsonApply
  import opened JsonTheorems
  import opened RegistryDiff
  import opened RegistryFrame
  import opened RegistryOrder
  import opened RegistryTarget

  // ----------------------------------------------------------------- the table

  /** A digest of an entry, by paths from the entry; without a repository the table's own is meant. */
  datatype Reading = Reading(target: Path, repository: Option<Path>, file: Path)

  /** A list inside an entry, which may be missing when it is optional. */
  datatype Inner = Inner(field: Step, optional: bool, repository: Option<Path>, target: Step, file: Step)

  datatype Section = Section(list: Path, own: seq<Reading>, inner: Option<Inner>)

  /** Rows of values below a path, with the same fields each. */
  datatype Rows = Rows(list: Path, fields: seq<Step>)

  /**
   `declared` and `bindings` are the sections that the replay reads; `tools` and `outputs` take what it
   finds.
   */
  datatype Table = Table(sections: seq<Section>, declared: Section, bindings: Section, tools: Rows, outputs: Rows)

  /** Which steps are written, which are read, and the one that leads to what the replay finds. */
  datatype Alphabet = Alphabet(digests: set<Step>, inputs: set<Step>, proof: Step)

  datatype Slot = Slot(target: Path, repository: Option<Path>, file: Path)

  function Below(base: Path, p: Option<Path>): Option<Path> {
    if p.None? then None else Some(base + p.value)
  }

  function ItemPath(sec: Section, i: nat): Path {
    sec.list + [Index(i)]
  }

  function OwnSlot(sec: Section, i: nat, r: Reading): Slot {
    Slot(ItemPath(sec, i) + r.target, Below(ItemPath(sec, i), r.repository), ItemPath(sec, i) + r.file)
  }

  function OwnSlots(sec: Section, i: nat, n: nat): (ss: seq<Slot>)
    requires n <= |sec.own|
    ensures |ss| == n
  {
    if n == 0 then [] else OwnSlots(sec, i, n - 1) + [OwnSlot(sec, i, sec.own[n - 1])]
  }

  function InnerSlot(base: Path, x: Inner, j: nat): Slot {
    Slot(base + [x.field, Index(j), x.target], Below(base, x.repository), base + [x.field, Index(j), x.file])
  }

  function InnerSlots(base: Path, x: Inner, n: nat): (ss: seq<Slot>)
    ensures |ss| == n
  {
    if n == 0 then [] else InnerSlots(base, x, n - 1) + [InnerSlot(base, x, n - 1)]
  }

  /** How many entries Python goes through; nothing where the entries of anything but a list raise. */
  function ItemCount(v: Option<Value>): Option<nat> {
    if v.None? then None
    else match v.value
      case Tree(obj, fields) => if obj && StepList(fields) != [] then None else Some(|StepList(fields)|)
      case Str(s) => if s == [] then Some(0) else None
      case _ => None
  }

  function InnerCount(doc: Value, base: Path, x: Inner): Option<nat> {
    var v := Lookup(doc, base + [x.field]);
    if x.optional && v.None? then Some(0) else ItemCount(v)
  }

  function ItemSlots(doc: Value, sec: Section, i: nat): Option<seq<Slot>> {
    var own := OwnSlots(sec, i, |sec.own|);
    if sec.inner.None? then Some(own)
    else
      var n := InnerCount(doc, ItemPath(sec, i), sec.inner.value);
      if n.None? then None else Some(own + InnerSlots(ItemPath(sec, i), sec.inner.value, n.value))
  }

  // ---------------------------------------------------------------- the values

  datatype Proof = Proof(tools: seq<seq<Value>>, outputs: seq<seq<Value>>)

  /**
   What the source tree gives: the digest of a file by repository and path, and what the replay finds
   for the declared inputs and the bindings. Nothing stands for what raises.
   */
  datatype World = World(
    repository: Value,
    sha: (Value, Value) -> Option<Text>,
    replay: (Value, Value) -> Option<Proof>,
    replays: bool)

  predicate AreRows(rows: seq<seq<Value>>, fields: seq<Step>) {
    forall i | 0 <= i < |rows| :: |rows[i]| == |fields| && forall j | 0 <= j < |fields| :: Proper(rows[i][j])
  }

  ghost predicate IsWorld(t: Table, w: World) {
    && (forall r, p :: w.sha(r, p).Some? ==> IsChars(w.sha(r, p).value))
    && (forall a, b :: w.replay(a, b).Some? ==>
          AreRows(w.replay(a, b).value.tools, t.tools.fields) && AreRows(w.replay(a, b).value.outputs, t.outputs.fields))
  }

  function Digest(w: World, doc: Value, s: Slot): Option<Text> {
    var repository := if s.repository.None? then Some(w.repository) else Lookup(doc, s.repository.value);
    var file := Lookup(doc, s.file);
    if repository.None? || file.None? then None else w.sha(repository.value, file.value)
  }

  /** What comes of a loop whose turn `i` derives `f(i)`; nothing once a turn raises. */
  function Concat(f: nat -> Option<Derived>, n: nat): Option<Derived> {
    if n == 0 then Some([])
    else
      var before, last := Concat(f, n - 1), f(n - 1);
      if before.None? || last.None? then None else Some(before.value + last.value)
  }

  function SlotDerived(w: World, doc: Value, s: Slot): Option<Derived> {
    var sha := Digest(w, doc, s);
    if sha.None? then None else Some([(s.target, Str(sha.value))])
  }

  function SlotTurns(w: World, doc: Value, ss: seq<Slot>): nat -> Option<Derived> {
    (i: nat) => if i < |ss| then SlotDerived(w, doc, ss[i]) else None
  }

  function ItemDerived(w: World, doc: Value, sec: Section, i: nat): Option<Derived> {
    var ss := ItemSlots(doc, sec, i);
    if ss.None? then None else Concat(SlotTurns(w, doc, ss.value), |ss.value|)
  }

  function ItemTurns(w: World, doc: Value, sec: Section): nat -> Option<Derived> {
    (i: nat) => ItemDerived(w, doc, sec, i)
  }

  function ListDerived(w: World, doc: Value, sec: Section): Option<Derived> {
    var n := ItemCount(Lookup(doc, sec.list));
    if n.None? then None else Concat(ItemTurns(w, doc, sec), n.value)
  }

  function ListTurns(w: World, doc: Value, secs: seq<Section>): nat -> Option<Derived> {
    (i: nat) => if i < |secs| then ListDerived(w, doc, secs[i]) else None
  }

  function ListsDerived(w: World, doc: Value, secs: seq<Section>): Option<Derived> {
    Concat(ListTurns(w, doc, secs), |secs|)
  }

  function RowDerived(base: Path, fields: seq<Step>, row: seq<Value>, n: nat): Derived
    requires n <= |fields| == |row|
  {
    if n == 0 then [] else RowDerived(base, fields, row, n - 1) + [(base + [fields[n - 1]], row[n - 1])]
  }

  function RowsDerived(r: Rows, rows: seq<seq<Value>>, n: nat): Derived
    requires AreRows(rows, r.fields) && n <= |rows|
  {
    if n == 0 then []
    else RowsDerived(r, rows, n - 1) + RowDerived(r.list + [Index(n - 1)], r.fields, rows[n - 1], |r.fields|)
  }

  function ProofDerived(t: Table, p: Proof): Derived {
    if AreRows(p.tools, t.tools.fields) && AreRows(p.outputs, t.outputs.fields)
    then RowsDerived(t.tools, p.tools, |p.tools|) + RowsDerived(t.outputs, p.outputs, |p.outputs|)
    else []
  }

  /** The registry records exactly these values. */
  predicate Records(doc: Value, ds: Derived) {
    forall j | 0 <= j < |ds| :: Lookup(doc, ds[j].0) == Some(ds[j].1)
  }

  /** The replay refuses lists whose recorded digests are not those of the files. */
  function Replayed(t: Table, w: World, doc: Value): Option<Proof> {
    var declared, bindings := Lookup(doc, t.declared.list), Lookup(doc, t.bindings.list);
    var read := ListsDerived(w, doc, [t.declared, t.bindings]);
    if read.None? || !Records(doc, read.value) || declared.None? || bindings.None? then None
    else w.replay(declared.value, bindings.value)
  }

  function Derive(t: Table, w: World, doc: Value): Option<Derived> {
    var digests := ListsDerived(w, doc, t.sections);
    if digests.None? || !w.replays then digests
    else
      var proof := Replayed(t, w, doc);
      if proof.None? then None else Some(digests.value + ProofDerived(t, proof.value))
  }

  // -------------------------------------------------------------- the program

  lemma {:induction false} Raised(f: nat -> Option<Derived>, i: nat, n: nat)
    requires i < n && f(i).None?
    ensures Concat(f, n).None?
    decreases n
  {
    if i < n - 1 {
      Raised(f, i, n - 1);
    }
  }

  method DigestSlots(w: World, doc: Value, ss: seq<Slot>) returns (r: Option<Derived>)
    ensures r == Concat(SlotTurns(w, doc, ss), |ss|)
  {
    var derived: Derived := [];
    ghost var f := SlotTurns(w, doc, ss);
    for i := 0 to |ss|
      invariant Concat(f, i) == Some(derived)
    {
      var sha := Digest(w, doc, ss[i]);
      if sha.None? {
        Raised(f, i, |ss|);
        return None;
      }
      derived := derived + [(ss[i].target, Str(sha.value))];
    }
    r := Some(derived);
  }

  /** The body of a loop over a list: the digests of one entry and of the list inside it. */
  method DeriveItem(w: World, doc: Value, sec: Section, i: nat) returns (r: Option<Derived>)
    ensures r == ItemTurns(w, doc, sec)(i)
  {
    var ss := ItemSlots(doc, sec, i);
    if ss.None? {
      return None;
    }
    r := DigestSlots(w, doc, ss.value);
  }

  method DeriveItems(w: World, doc: Value, sec: Section, n: nat, ghost f: nat -> Option<Derived>) returns (r: Option<Derived>)
    requires f == ItemTurns(w, doc, sec)
    ensures r == Concat(f, n)
  {
    var derived: Derived := [];
    for i := 0 to n
      invariant Concat(f, i) == Some(derived)
    {
      var item := DeriveItem(w, doc, sec, i);
      if item.None? {
        Raised(f, i, n);
        return None;
      }
      derived := derived + item.value;
    }
    r := Some(derived);
  }

  method DeriveList(w: World, doc: Value, sec: Section) returns (r: Option<Derived>)
    ensures r == ListDerived(w, doc, sec)
  {
    var n := ItemCount(Lookup(doc, sec.list));
    if n.None? {
      return None;
    }
    r := DeriveItems(w, doc, sec, n.value, ItemTurns(w, doc, sec));
  }

  /** One of the loops over a list, after those before it. */
  method DeriveNext(w: World, doc: Value, secs: seq<Section>, i: nat, before: Derived) returns (r: Option<Derived>)
    requires i < |secs| && Concat(ListTurns(w, doc, secs), i) == Some(before)
    ensures r == Concat(ListTurns(w, doc, secs), i + 1)
  {
    var list := DeriveList(w, doc, secs[i]);
    r := if list.None? then None else Some(before + list.value);
  }

  lemma {:induction false} RaisedBefore(f: nat -> Option<Derived>, i: nat, n: nat)
    requires i <= n && Concat(f, i).None?
    ensures Concat(f, n).None?
    decreases n
  {
    if i < n {
      RaisedBefore(f, i, n - 1);
    }
  }

  method DeriveLists(w: World, doc: Value, secs: seq<Section>) returns (r: Option<Derived>)
    ensures r == ListsDerived(w, doc, secs)
  {
    r := Some([]);
    for i := 0 to |secs|
      invariant r.Some? && Concat(ListTurns(w, doc, secs), i) == r
    {
      r := DeriveNext(w, doc, secs, i, r.value);
      if r.None? {
        RaisedBefore(ListTurns(w, doc, secs), i + 1, |secs|);
        return;
      }
    }
  }

  method DeriveAll(t: Table, w: World, doc: Value) returns (r: Option<Derived>)
    ensures r == Derive(t, w, doc)
  {
    r := DeriveLists(w, doc, t.sections);
    if r.None? || !w.replays {
      return;
    }
    var proof := Replayed(t, w, doc);
    r := if proof.None? then None else Some(r.value + ProofDerived(t, proof.value));
  }

  // --------------------------------------------------------- which paths are which

  predicate IsAlphabet(al: Alphabet) {
    al.digests !! al.inputs && al.proof !in al.digests && al.proof !in al.inputs
  }

  /** Neither written nor read, and not the way to what the replay finds. */
  predicate IsPlain(al: Alphabet, s: Step) {
    s !in al.digests && s !in al.inputs && s != al.proof
  }

  predicate ArePlain(al: Alphabet, p: Path, n: nat)
    requires n <= |p|
  {
    forall k | 0 <= k < n :: IsPlain(al, p[k])
  }

  predicate IsDigestPath(al: Alphabet, p: Path) {
    p != [] && p[|p| - 1] in al.digests && ArePlain(al, p, |p| - 1)
  }

  predicate IsReadPath(al: Alphabet, p: Path) {
    p != [] && p[|p| - 1] in al.inputs && ArePlain(al, p, |p| - 1)
  }

  predicate IsProofPath(al: Alphabet, p: Path) {
    && |p| > 1 && (exists k | 0 <= k < |p| - 1 :: p[k] == al.proof)
    && forall k | 0 <= k < |p| - 1 :: p[k] !in al.digests && p[k] !in al.inputs
  }

  predicate IsDerivedPath(al: Alphabet, p: Path) {
    IsDigestPath(al, p) || IsProofPath(al, p)
  }

  lemma StepAt(p: Path, q: Path, k: nat)
    requires k < |p|
    ensures p <= q ==> k < |q| && q[k] == p[k]
  {
  }

  /** Two digests never lead through each other. */
  lemma DigestsApart(al: Alphabet, p: Path, q: Path)
    requires IsAlphabet(al) && IsDigestPath(al, p) && IsDigestPath(al, q) && p != q
    ensures Apart(p, q)
  {
    StepAt(p, q, |p| - 1);
    StepAt(q, p, |q| - 1);
  }

  lemma DigestProofApart(al: Alphabet, p: Path, q: Path)
    requires IsAlphabet(al) && IsDigestPath(al, p) && IsProofPath(al, q)
    ensures Apart(p, q)
  {
    var k :| 0 <= k < |q| - 1 && q[k] == al.proof;
    StepAt(q, p, k);
    StepAt(p, q, |p| - 1);
  }

  lemma ReadApart(al: Alphabet, p: Path, r: Path)
    requires IsAlphabet(al) && IsDerivedPath(al, p) && IsReadPath(al, r)
    ensures Apart(p, r)
  {
    StepAt(p, r, |p| - 1);
    StepAt(r, p, |r| - 1);
    if IsProofPath(al, p) {
      var k :| 0 <= k < |p| - 1 && p[k] == al.proof;
      StepAt(p, r, k);
    }
  }

  lemma PlainBelow(al: Alphabet, p: Path, q: Path)
    requires IsAlphabet(al) && IsDerivedPath(al, p) && ArePlain(al, q, |q|)
    ensures Apart(p, q) || q < p
  {
    StepAt(p, q, |p| - 1);
    if IsProofPath(al, p) {
      var k :| 0 <= k < |p| - 1 && p[k] == al.proof;
      StepAt(p, q, k);
    }
  }

  lemma SameLength(p: Path, q: Path)
    requires |p| == |q| && p != q
    ensures Apart(p, q)
  {
  }

  // -------------------------------------------------------------- proper tables

  predicate IsReading(al: Alphabet, r: Reading) {
    IsDigestPath(al, r.target) && IsReadPath(al, r.file) && (r.repository.Some? ==> IsReadPath(al, r.repository.value))
  }

  predicate IsInner(al: Alphabet, x: Inner) {
    && IsPlain(al, x.field) && x.target in al.digests && x.file in al.inputs
    && (x.repository.Some? ==> IsReadPath(al, x.repository.value))
  }

  predicate IsSection(al: Alphabet, sec: Section) {
    && ArePlain(al, sec.list, |sec.list|)
    && (forall j | 0 <= j < |sec.own| :: IsReading(al, sec.own[j]))
    && (forall i, j | 0 <= i < j < |sec.own| :: sec.own[i].target != sec.own[j].target)
    && (sec.inner.Some? ==> IsInner(al, sec.inner.value))
    && (sec.inner.Some? ==> forall j | 0 <= j < |sec.own| :: sec.own[j].target[0] != sec.inner.value.field)
  }

  predicate AreSections(al: Alphabet, secs: seq<Section>) {
    && (forall j | 0 <= j < |secs| :: IsSection(al, secs[j]))
    && forall i, j | 0 <= i < j < |secs| :: Apart(secs[i].list, secs[j].list)
  }

  /** A path in front of rows: the proof step is on it, and nothing that is written or read. */
  predicate AreProofRows(al: Alphabet, r: Rows) {
    && (exists k | 0 <= k < |r.list| :: r.list[k] == al.proof)
    && (forall k | 0 <= k < |r.list| :: r.list[k] !in al.digests && r.list[k] !in al.inputs)
    && forall i, j | 0 <= i < j < |r.fields| :: r.fields[i] != r.fields[j]
  }

  predicate NoIndex(al: Alphabet) {
    && (forall s | s in al.digests :: s.Key?) && (forall s | s in al.inputs :: s.Key?) && al.proof.Key?
  }

  predicate IsTable(al: Alphabet, t: Table) {
    && IsAlphabet(al) && NoIndex(al) && AreSections(al, t.sections) && t.declared in t.sections && t.bindings in t.sections
    && AreProofRows(al, t.tools) && AreProofRows(al, t.outputs)
    && |t.tools.list| == |t.outputs.list| && t.tools.list != t.outputs.list
    && (forall j | 0 <= j < |t.sections| :: Apart(t.tools.list, t.sections[j].list) && Apart(t.outputs.list, t.sections[j].list))
  }

  // ------------------------------------------------------------- derived paths

  lemma IndexIsPlain(al: Alphabet, i: nat)
    requires NoIndex(al)
    ensures IsPlain(al, Index(i))
  {
  }

  lemma BelowPlain(al: Alphabet, base: Path, p: Path)
    requires ArePlain(al, base, |base|)
    ensures IsDigestPath(al, p) ==> IsDigestPath(al, base + p)
    ensures IsReadPath(al, p) ==> IsReadPath(al, base + p)
  {
  }

  lemma ItemIsPlain(al: Alphabet, sec: Section, i: nat)
    requires NoIndex(al) && IsSection(al, sec)
    ensures ArePlain(al, ItemPath(sec, i), |ItemPath(sec, i)|)
  {
    IndexIsPlain(al, i);
  }

  predicate IsSlot(al: Alphabet, base: Path, s: Slot) {
    && base < s.target && IsDigestPath(al, s.target) && IsReadPath(al, s.file)
    && (s.repository.Some? ==> IsReadPath(al, s.repository.value))
  }

  predicate AreSlots(al: Alphabet, base: Path, ss: seq<Slot>) {
    && (forall j | 0 <= j < |ss| :: IsSlot(al, base, ss[j]))
    && forall i, j | 0 <= i < j < |ss| :: ss[i].target != ss[j].target
  }

  lemma {:induction false} OwnAt(sec: Section, i: nat, n: nat, j: nat)
    requires j < n <= |sec.own|
    ensures OwnSlots(sec, i, n)[j] == OwnSlot(sec, i, sec.own[j])
  {
    if j < n - 1 {
      OwnAt(sec, i, n - 1, j);
    }
  }

  lemma {:induction false} InnerAt(base: Path, x: Inner, n: nat, j: nat)
    requires j < n
    ensures InnerSlots(base, x, n)[j] == InnerSlot(base, x, j)
  {
    if j < n - 1 {
      InnerAt(base, x, n - 1, j);
    }
  }

  lemma OwnAreSlots(al: Alphabet, sec: Section, i: nat)
    requires NoIndex(al) && IsSection(al, sec)
    ensures AreSlots(al, ItemPath(sec, i), OwnSlots(sec, i, |sec.own|))
  {
    var base, ss := ItemPath(sec, i), OwnSlots(sec, i, |sec.own|);
    ItemIsPlain(al, sec, i);
    forall j | 0 <= j < |ss| ensures IsSlot(al, base, ss[j]) && ss[j].target == base + sec.own[j].target {
      OwnAt(sec, i, |sec.own|, j);
      BelowPlain(al, base, sec.own[j].target);
      BelowPlain(al, base, sec.own[j].file);
      if sec.own[j].repository.Some? {
        BelowPlain(al, base, sec.own[j].repository.value);
      }
    }
    forall j, k | 0 <= j < k < |ss| ensures ss[j].target != ss[k].target {
      Tail(base, ss[j].target, sec.own[j].target);
      Tail(base, ss[k].target, sec.own[k].target);
    }
  }

  lemma Tail(base: Path, p: Path, q: Path)
    requires p == base + q
    ensures p[|base|..] == q
  {
  }

  lemma InnerAreSlots(al: Alphabet, base: Path, x: Inner, n: nat)
    requires NoIndex(al) && ArePlain(al, base, |base|) && IsInner(al, x)
    ensures AreSlots(al, base, InnerSlots(base, x, n))
  {
    var ss := InnerSlots(base, x, n);
    forall j | 0 <= j < n ensures IsSlot(al, base, ss[j]) && ss[j].target == base + [x.field, Index(j), x.target] {
      InnerAt(base, x, n, j);
      IndexIsPlain(al, j);
      BelowPlain(al, base, [x.field, Index(j), x.target]);
      BelowPlain(al, base, [x.field, Index(j), x.file]);
      if x.repository.Some? {
        BelowPlain(al, base, x.repository.value);
      }
    }
    forall j, k | 0 <= j < k < n ensures ss[j].target != ss[k].target {
      Tail(base, ss[j].target, [x.field, Index(j), x.target]);
      Tail(base, ss[k].target, [x.field, Index(k), x.target]);
      assert [x.field, Index(j), x.target][1] != [x.field, Index(k), x.target][1];
    }
  }

  lemma ItemAreSlots(al: Alphabet, doc: Value, sec: Section, i: nat)
    requires NoIndex(al) && IsSection(al, sec) && ItemSlots(doc, sec, i).Some?
    ensures AreSlots(al, ItemPath(sec, i), ItemSlots(doc, sec, i).value)
  {
    var base, own := ItemPath(sec, i), OwnSlots(sec, i, |sec.own|);
    OwnAreSlots(al, sec, i);
    if sec.inner.Some? {
      var x, n := sec.inner.value, InnerCount(doc, ItemPath(sec, i), sec.inner.value).value;
      ItemIsPlain(al, sec, i);
      InnerAreSlots(al, base, x, n);
      forall j, k | 0 <= j < |own| && 0 <= k < n ensures own[j].target != InnerSlots(base, x, n)[k].target {
        OwnAt(sec, i, |sec.own|, j);
        InnerAt(base, x, n, k);
        assert own[j].target[|base|] == sec.own[j].target[0];
        assert InnerSlots(base, x, n)[k].target[|base|] == x.field;
      }
    }
  }

  /** Digests below `base`, none of them twice. */
  predicate AreDigests(al: Alphabet, base: Path, ds: Derived) {
    IsDict(ds) && forall j | 0 <= j < |ds| :: base < ds[j].0 && IsDigestPath(al, ds[j].0) && IsScalar(ds[j].1)
  }

  /** One digest, for the slot. */
  predicate IsOne(s: Slot, ds: Derived) {
    |ds| == 1 && ds[0].0 == s.target && IsScalar(ds[0].1)
  }

  lemma {:induction false} SlotsDigests(al: Alphabet, base: Path, ss: seq<Slot>, f: nat -> Option<Derived>, n: nat)
    requires AreSlots(al, base, ss) && n <= |ss| && Concat(f, n).Some?
    requires forall i: nat | i < |ss| && f(i).Some? :: IsOne(ss[i], f(i).value)
    ensures var ds := Concat(f, n).value;
      AreDigests(al, base, ds) && |ds| == n && forall j | 0 <= j < n :: ds[j].0 == ss[j].target
  {
    if n > 0 {
      SlotsDigests(al, base, ss, f, n - 1);
      OneMore(al, base, Concat(f, n - 1).value, f(n - 1).value[0], ss, n - 1);
      assert f(n - 1).value == [f(n - 1).value[0]];
    }
  }

  lemma OneMore(al: Alphabet, base: Path, ds: Derived, d: (Path, Value), ss: seq<Slot>, n: nat)
    requires AreSlots(al, base, ss) && n < |ss| && AreDigests(al, base, ds) && |ds| == n
    requires (forall j | 0 <= j < n :: ds[j].0 == ss[j].target) && d.0 == ss[n].target && IsScalar(d.1)
    ensures AreDigests(al, base, ds + [d]) && forall j | 0 <= j <= n :: (ds + [d])[j].0 == ss[j].target
  {
  }

  lemma ItemDigests(al: Alphabet, t: Table, w: World, doc: Value, sec: Section, i: nat)
    requires IsWorld(t, w) && NoIndex(al) && IsSection(al, sec) && ItemDerived(w, doc, sec, i).Some?
    ensures AreDigests(al, ItemPath(sec, i), ItemDerived(w, doc, sec, i).value)
  {
    var ss := ItemSlots(doc, sec, i).value;
    ItemAreSlots(al, doc, sec, i);
    var f := SlotTurns(w, doc, ss);
    forall k: nat | k < |ss| && f(k).Some? ensures IsOne(ss[k], f(k).value) {
    }
    SlotsDigests(al, ItemPath(sec, i), ss, f, |ss|);
  }

  /** Digests of the first `n` entries. */
  predicate AreItems(al: Alphabet, sec: Section, ds: Derived, n: nat) {
    && IsDict(ds)
    && forall j | 0 <= j < |ds| :: IsUnder(sec, al, ds[j]) && ds[j].0[|sec.list|].position < n
  }

  predicate AreListed(al: Alphabet, sec: Section, ds: Derived) {
    IsDict(ds) && forall j | 0 <= j < |ds| :: IsUnder(sec, al, ds[j])
  }

  lemma UnderItem(sec: Section, n: nat, p: Path)
    requires ItemPath(sec, n) < p
    ensures sec.list < p && p[|sec.list|] == Index(n)
  {
    assert p[|sec.list|] == ItemPath(sec, n)[|sec.list|];
  }

  lemma JoinItems(al: Alphabet, sec: Section, ds: Derived, es: Derived, n: nat)
    requires AreItems(al, sec, ds, n) && AreDigests(al, ItemPath(sec, n), es)
    ensures AreItems(al, sec, ds + es, n + 1)
  {
    forall j | 0 <= j < |es| ensures IsUnder(sec, al, es[j]) && es[j].0[|sec.list|] == Index(n) {
      UnderItem(sec, n, es[j].0);
    }
  }

  lemma {:induction false} TurnsDigests(al: Alphabet, sec: Section, f: nat -> Option<Derived>, n: nat)
    requires Concat(f, n).Some? && forall i: nat | f(i).Some? :: AreDigests(al, ItemPath(sec, i), f(i).value)
    ensures AreItems(al, sec, Concat(f, n).value, n)
  {
    if n > 0 {
      TurnsDigests(al, sec, f, n - 1);
      JoinItems(al, sec, Concat(f, n - 1).value, f(n - 1).value, n - 1);
    }
  }

  lemma ListDigests(al: Alphabet, t: Table, w: World, doc: Value, sec: Section)
    requires IsWorld(t, w) && NoIndex(al) && IsSection(al, sec) && ListDerived(w, doc, sec).Some?
    ensures AreListed(al, sec, ListDerived(w, doc, sec).value)
  {
    var f := ItemTurns(w, doc, sec);
    forall i: nat | f(i).Some? ensures AreDigests(al, ItemPath(sec, i), f(i).value) {
      ItemDigests(al, t, w, doc, sec, i);
    }
    TurnsDigests(al, sec, f, ItemCount(Lookup(doc, sec.list)).value);
  }

  /** A derived value of one of the first `n` sections. */
  predicate IsIn(secs: seq<Section>, n: nat, al: Alphabet, d: (Path, Value))
    requires n <= |secs|
  {
    exists k | 0 <= k < n :: IsUnder(secs[k], al, d)
  }

  predicate IsUnder(sec: Section, al: Alphabet, d: (Path, Value)) {
    && sec.list < d.0 && IsDigestPath(al, d.0) && IsScalar(d.1) && d.0[|sec.list|].Index?
  }

  predicate AllIn(secs: seq<Section>, n: nat, al: Alphabet, ds: Derived)
    requires n <= |secs|
  {
    forall j | 0 <= j < |ds| :: IsIn(secs, n, al, ds[j])
  }

  lemma ListApart(secs: seq<Section>, n: nat, al: Alphabet, d: (Path, Value), e: (Path, Value))
    requires n < |secs| && AreSections(al, secs) && IsIn(secs, n, al, d) && IsUnder(secs[n], al, e)
    ensures d.0 != e.0
  {
    var k :| 0 <= k < n && IsUnder(secs[k], al, d);
    assert Apart(secs[k].list, secs[n].list);
    PrefixesMeet(secs[k].list, secs[n].list, d.0);
  }

  lemma PrefixesMeet(a: Path, b: Path, p: Path)
    ensures a <= p && b <= p ==> a <= b || b <= a
  {
  }

  lemma MoreSections(secs: seq<Section>, n: nat, al: Alphabet, d: (Path, Value))
    requires n < |secs| && (IsIn(secs, n, al, d) || IsUnder(secs[n], al, d))
    ensures IsIn(secs, n + 1, al, d)
  {
    if !IsUnder(secs[n], al, d) {
      var k :| 0 <= k < n && IsUnder(secs[k], al, d);
    }
  }

  lemma JoinLists(secs: seq<Section>, n: nat, al: Alphabet, ds: Derived, es: Derived)
    requires n < |secs| && AreSections(al, secs) && AllIn(secs, n, al, ds) && IsDict(ds) && AreListed(al, secs[n], es)
    ensures AllIn(secs, n + 1, al, ds + es) && IsDict(ds + es)
  {
    forall j | 0 <= j < |ds| ensures IsIn(secs, n + 1, al, ds[j]) {
      MoreSections(secs, n, al, ds[j]);
    }
    forall j | 0 <= j < |es| ensures IsIn(secs, n + 1, al, es[j]) {
      MoreSections(secs, n, al, es[j]);
    }
    forall i, j | 0 <= i < |ds| && 0 <= j < |es| ensures ds[i].0 != es[j].0 {
      ListApart(secs, n, al, ds[i], es[j]);
    }
  }

  lemma {:induction false} TurnsLists(al: Alphabet, secs: seq<Section>, f: nat -> Option<Derived>, n: nat)
    requires AreSections(al, secs) && n <= |secs| && Concat(f, n).Some?
    requires forall i: nat | i < |secs| && f(i).Some? :: AreListed(al, secs[i], f(i).value)
    ensures AllIn(secs, n, al, Concat(f, n).value) && IsDict(Concat(f, n).value)
  {
    if n > 0 {
      TurnsLists(al, secs, f, n - 1);
      assert AreListed(al, secs[n - 1], f(n - 1).value);
      JoinLists(secs, n - 1, al, Concat(f, n - 1).value, f(n - 1).value);
    }
  }

  lemma ListsDigests(al: Alphabet, t: Table, w: World, doc: Value, secs: seq<Section>)
    requires IsWorld(t, w) && NoIndex(al) && AreSections(al, secs) && ListsDerived(w, doc, secs).Some?
    ensures AllIn(secs, |secs|, al, ListsDerived(w, doc, secs).value) && IsDict(ListsDerived(w, doc, secs).value)
  {
    var f := ListTurns(w, doc, secs);
    forall i: nat | i < |secs| && f(i).Some? ensures AreListed(al, secs[i], f(i).value) {
      ListDigests(al, t, w, doc, secs[i]);
    }
    TurnsLists(al, secs, f, |secs|);
  }

  // ------------------------------------------------------------ what is found

  /** A value of one of the rows below the list. */
  predicate IsRowValue(al: Alphabet, r: Rows, d: (Path, Value)) {
    && r.list < d.0 && |d.0| == |r.list| + 2 && d.0[|r.list|].Index? && IsProofPath(al, d.0) && Proper(d.1)
  }

  lemma RowPath(al: Alphabet, r: Rows, i: nat, s: Step, p: Path)
    requires NoIndex(al) && AreProofRows(al, r) && p == r.list + [Index(i)] + [s]
    ensures r.list < p && |p| == |r.list| + 2 && p[|r.list|] == Index(i) && p[|r.list| + 1] == s && IsProofPath(al, p)
  {
    IndexIsPlain(al, i);
    var k :| 0 <= k < |r.list| && r.list[k] == al.proof;
    assert p[k] == al.proof;
  }

  lemma {:induction false} RowAre(base: Path, fields: seq<Step>, row: seq<Value>, n: nat)
    requires n <= |fields| == |row|
    ensures var ds := RowDerived(base, fields, row, n);
      |ds| == n && forall j | 0 <= j < n :: ds[j] == (base + [fields[j]], row[j])
  {
    if n > 0 {
      RowAre(base, fields, row, n - 1);
    }
  }

  lemma RowValues(al: Alphabet, r: Rows, row: seq<Value>, i: nat)
    requires NoIndex(al) && AreProofRows(al, r) && |row| == |r.fields| && forall j | 0 <= j < |row| :: Proper(row[j])
    ensures IsRow(al, r, RowDerived(r.list + [Index(i)], r.fields, row, |r.fields|), i)
  {
    var ds := RowDerived(r.list + [Index(i)], r.fields, row, |row|);
    RowAre(r.list + [Index(i)], r.fields, row, |row|);
    forall j | 0 <= j < |ds|
      ensures IsRowValue(al, r, ds[j]) && ds[j].0[|r.list|] == Index(i) && ds[j].0[|r.list| + 1] == r.fields[j]
    {
      RowPath(al, r, i, r.fields[j], ds[j].0);
    }
    forall j, k | 0 <= j < k < |ds| ensures ds[j].0 != ds[k].0 {
      assert ds[j].0[|r.list| + 1] != ds[k].0[|r.list| + 1];
    }
  }

  /** The values of the first `n` rows. */
  predicate AreRowsBelow(al: Alphabet, r: Rows, ds: Derived, n: nat) {
    IsDict(ds) && forall j | 0 <= j < |ds| :: IsRowValue(al, r, ds[j]) && ds[j].0[|r.list|].position < n
  }

  predicate IsRow(al: Alphabet, r: Rows, ds: Derived, i: nat) {
    IsDict(ds) && forall j | 0 <= j < |ds| :: IsRowValue(al, r, ds[j]) && ds[j].0[|r.list|] == Index(i)
  }

  lemma {:induction false} RowsValues(al: Alphabet, r: Rows, rows: seq<seq<Value>>, n: nat)
    requires NoIndex(al) && AreProofRows(al, r) && AreRows(rows, r.fields) && n <= |rows|
    ensures AreRowsBelow(al, r, RowsDerived(r, rows, n), n)
  {
    if n > 0 {
      RowsValues(al, r, rows, n - 1);
      RowValues(al, r, rows[n - 1], n - 1);
      JoinRows(al, r, RowsDerived(r, rows, n - 1),
               RowDerived(r.list + [Index(n - 1)], r.fields, rows[n - 1], |r.fields|), n - 1);
    }
  }

  lemma JoinRows(al: Alphabet, r: Rows, ds: Derived, es: Derived, n: nat)
    requires AreRowsBelow(al, r, ds, n) && IsRow(al, r, es, n)
    ensures AreRowsBelow(al, r, ds + es, n + 1)
  {
    forall i, j | 0 <= i < |ds| && 0 <= j < |es| ensures ds[i].0 != es[j].0 {
      assert ds[i].0[|r.list|] != es[j].0[|r.list|];
    }
  }

  predicate IsFound(t: Table, al: Alphabet, d: (Path, Value)) {
    IsRowValue(al, t.tools, d) || IsRowValue(al, t.outputs, d)
  }

  predicate AllFound(t: Table, al: Alphabet, ds: Derived) {
    forall j | 0 <= j < |ds| :: IsFound(t, al, ds[j])
  }

  lemma ProofValues(al: Alphabet, t: Table, p: Proof)
    requires IsTable(al, t)
    ensures AllFound(t, al, ProofDerived(t, p)) && IsDict(ProofDerived(t, p))
  {
    if AreRows(p.tools, t.tools.fields) && AreRows(p.outputs, t.outputs.fields) {
      var ds, es := RowsDerived(t.tools, p.tools, |p.tools|), RowsDerived(t.outputs, p.outputs, |p.outputs|);
      RowsValues(al, t.tools, p.tools, |p.tools|);
      RowsValues(al, t.outputs, p.outputs, |p.outputs|);
      forall i, j | 0 <= i < |ds| && 0 <= j < |es| ensures ds[i].0 != es[j].0 {
        OtherRows(t.tools.list, t.outputs.list, ds[i].0, es[j].0);
      }
    }
  }

  lemma OtherRows(a: Path, b: Path, p: Path, q: Path)
    requires |a| == |b| && a != b && a < p && b < q
    ensures p != q
  {
    assert p[..|a|] == a && q[..|b|] == b;
  }

  // --------------------------------------------------------- all derived values

  predicate IsDerived(t: Table, al: Alphabet, d: (Path, Value)) {
    IsIn(t.sections, |t.sections|, al, d) || IsFound(t, al, d)
  }

  predicate AllDerived(t: Table, al: Alphabet, ds: Derived) {
    forall j | 0 <= j < |ds| :: IsDerived(t, al, ds[j])
  }

  lemma DerivedIs(t: Table, al: Alphabet, d: (Path, Value))
    requires IsTable(al, t) && IsDerived(t, al, d)
    ensures IsDerivedPath(al, d.0) && Proper(d.1) && exists k | 0 <= k < |d.0| :: d.0[k].Index?
  {
    if IsIn(t.sections, |t.sections|, al, d) {
      var k :| 0 <= k < |t.sections| && IsUnder(t.sections[k], al, d);
      assert d.0[|t.sections[k].list|].Index?;
    } else if IsRowValue(al, t.tools, d) {
      assert d.0[|t.tools.list|].Index?;
    } else {
      assert d.0[|t.outputs.list|].Index?;
    }
  }

  lemma DerivedApart(t: Table, al: Alphabet, d: (Path, Value), e: (Path, Value))
    requires IsTable(al, t) && IsDerived(t, al, d) && IsDerived(t, al, e) && d.0 != e.0
    ensures Apart(d.0, e.0)
  {
    if IsIn(t.sections, |t.sections|, al, d) && IsIn(t.sections, |t.sections|, al, e) {
      DigestsApart(al, d.0, e.0);
    } else if IsIn(t.sections, |t.sections|, al, d) {
      DigestProofApart(al, d.0, e.0);
    } else if IsIn(t.sections, |t.sections|, al, e) {
      DigestProofApart(al, e.0, d.0);
    } else {
      SameLength(d.0, e.0);
    }
  }

  lemma DerivePaths(al: Alphabet, t: Table, w: World, doc: Value)
    requires IsTable(al, t) && IsWorld(t, w) && Derive(t, w, doc).Some?
    ensures var ds := Derive(t, w, doc).value;
      AllDerived(t, al, ds) && IsDict(ds) && Antichain(ds) && AllProper(ds) && NonEmpty(ds)
  {
    var digests, ds := ListsDerived(w, doc, t.sections).value, Derive(t, w, doc).value;
    ListsDigests(al, t, w, doc, t.sections);
    if w.replays {
      var found := ProofDerived(t, Replayed(t, w, doc).value);
      ProofValues(al, t, Replayed(t, w, doc).value);
      forall i, j | 0 <= i < |digests| && 0 <= j < |found| ensures digests[i].0 != found[j].0 {
        DigestProofApart(al, digests[i].0, found[j].0);
      }
    }
    DerivedAre(al, t, ds);
  }

  lemma DerivedAre(al: Alphabet, t: Table, ds: Derived)
    requires IsTable(al, t) && AllDerived(t, al, ds) && IsDict(ds)
    ensures Antichain(ds) && AllProper(ds) && NonEmpty(ds)
  {
    forall i, j | 0 <= i < j < |ds| ensures Apart(ds[i].0, ds[j].0) {
      DerivedApart(t, al, ds[i], ds[j]);
    }
    forall j | 0 <= j < |ds| ensures Proper(ds[j].1) && ds[j].0 != [] {
      DerivedIs(t, al, ds[j]);
    }
  }

  // -------------------------------------------------------------- derived again

  /** The document before, the values derived from it and the document after. */
  ghost predicate Written(al: Alphabet, doc: Value, ds: Derived, doc': Value) {
    && IsAlphabet(al) && NoIndex(al) && Unique(doc) && Antichain(ds) && NonEmpty(ds) && doc' == Updated(doc, ds)
    && forall j | 0 <= j < |ds| :: IsDerivedPath(al, ds[j].0)
  }

  lemma ReadKept(al: Alphabet, doc: Value, ds: Derived, doc': Value, r: Path)
    requires Written(al, doc, ds, doc') && IsReadPath(al, r)
    ensures Lookup(doc', r) == Lookup(doc, r)
  {
    assert ds[..|ds|] == ds;
    forall j | 0 <= j < |ds| ensures Apart(ds[j].0, r) {
      ReadApart(al, ds[j].0, r);
    }
    UpdatedKeeps(doc, ds, |ds|, r);
  }

  lemma CountKept(al: Alphabet, doc: Value, ds: Derived, doc': Value, q: Path)
    requires Written(al, doc, ds, doc') && ArePlain(al, q, |q|)
    ensures Lookup(doc', q).None? <==> Lookup(doc, q).None?
    ensures ItemCount(Lookup(doc', q)) == ItemCount(Lookup(doc, q))
  {
    assert ds[..|ds|] == ds;
    forall j | 0 <= j < |ds| ensures Apart(ds[j].0, q) || q < ds[j].0 {
      PlainBelow(al, ds[j].0, q);
    }
    if Lookup(doc, q).Some? && Lookup(doc, q).value.Tree? {
      FrameKept(doc, ds, |ds|, q);
    } else {
      AtomKept(doc, ds, |ds|, q);
    }
  }

  lemma SlotKept(al: Alphabet, w: World, doc: Value, ds: Derived, doc': Value, base: Path, s: Slot)
    requires Written(al, doc, ds, doc') && IsSlot(al, base, s)
    ensures SlotDerived(w, doc', s) == SlotDerived(w, doc, s)
  {
    ReadKept(al, doc, ds, doc', s.file);
    if s.repository.Some? {
      ReadKept(al, doc, ds, doc', s.repository.value);
    }
  }

  lemma {:induction false} ConcatSame(f: nat -> Option<Derived>, g: nat -> Option<Derived>, n: nat)
    requires forall i: nat | i < n :: f(i) == g(i)
    ensures Concat(f, n) == Concat(g, n)
  {
    if n > 0 {
      ConcatSame(f, g, n - 1);
    }
  }

  lemma ItemKept(al: Alphabet, w: World, doc: Value, ds: Derived, doc': Value, sec: Section, i: nat)
    requires Written(al, doc, ds, doc') && IsSection(al, sec)
    ensures ItemDerived(w, doc', sec, i) == ItemDerived(w, doc, sec, i)
  {
    SlotsKept(al, doc, ds, doc', sec, i);
    if ItemSlots(doc, sec, i).Some? {
      var ss := ItemSlots(doc, sec, i).value;
      ItemAreSlots(al, doc, sec, i);
      var f, g := SlotTurns(w, doc', ss), SlotTurns(w, doc, ss);
      forall k: nat | k < |ss| ensures f(k) == g(k) {
        SlotKept(al, w, doc, ds, doc', ItemPath(sec, i), ss[k]);
      }
      ConcatSame(f, g, |ss|);
    }
  }

  lemma SlotsKept(al: Alphabet, doc: Value, ds: Derived, doc': Value, sec: Section, i: nat)
    requires Written(al, doc, ds, doc') && IsSection(al, sec)
    ensures ItemSlots(doc', sec, i) == ItemSlots(doc, sec, i)
  {
    if sec.inner.Some? {
      ItemIsPlain(al, sec, i);
      CountKept(al, doc, ds, doc', ItemPath(sec, i) + [sec.inner.value.field]);
    }
  }

  lemma ListKept(al: Alphabet, w: World, doc: Value, ds: Derived, doc': Value, sec: Section)
    requires Written(al, doc, ds, doc') && IsSection(al, sec)
    ensures ListDerived(w, doc', sec) == ListDerived(w, doc, sec)
  {
    CountKept(al, doc, ds, doc', sec.list);
    var f, g := ItemTurns(w, doc', sec), ItemTurns(w, doc, sec);
    forall i: nat ensures f(i) == g(i) {
      ItemKept(al, w, doc, ds, doc', sec, i);
    }
    if ItemCount(Lookup(doc, sec.list)).Some? {
      ConcatSame(f, g, ItemCount(Lookup(doc, sec.list)).value);
    }
  }

  lemma ListsKept(al: Alphabet, w: World, doc: Value, ds: Derived, doc': Value, secs: seq<Section>)
    requires Written(al, doc, ds, doc') && forall k | 0 <= k < |secs| :: IsSection(al, secs[k])
    ensures ListsDerived(w, doc', secs) == ListsDerived(w, doc, secs)
  {
    var f, g := ListTurns(w, doc', secs), ListTurns(w, doc, secs);
    forall i: nat | i < |secs| ensures f(i) == g(i) {
      ListKept(al, w, doc, ds, doc', secs[i]);
    }
    ConcatSame(f, g, |secs|);
  }

  // ------------------------------------------------------------------ the replay

  lemma {:induction false} FromTurn(f: nat -> Option<Derived>, n: nat, d: (Path, Value)) returns (k: nat)
    requires Concat(f, n).Some? && d in Concat(f, n).value
    ensures k < n && f(k).Some? && d in f(k).value
  {
    if d in f(n - 1).value {
      k := n - 1;
    } else {
      k := FromTurn(f, n - 1, d);
    }
  }

  lemma {:induction false} InTurns(f: nat -> Option<Derived>, n: nat, k: nat, d: (Path, Value))
    requires Concat(f, n).Some? && k < n
    ensures f(k).Some? && (d in f(k).value ==> d in Concat(f, n).value)
  {
    if k < n - 1 {
      InTurns(f, n - 1, k, d);
    }
  }

  lemma FromSection(w: World, doc: Value, secs: seq<Section>, d: (Path, Value)) returns (k: nat)
    requires ListsDerived(w, doc, secs).Some? && d in ListsDerived(w, doc, secs).value
    ensures k < |secs| && ListDerived(w, doc, secs[k]).Some? && d in ListDerived(w, doc, secs[k]).value
  {
    k := FromTurn(ListTurns(w, doc, secs), |secs|, d);
  }

  lemma InSection(w: World, doc: Value, secs: seq<Section>, k: nat, d: (Path, Value))
    requires ListsDerived(w, doc, secs).Some? && k < |secs|
    ensures ListDerived(w, doc, secs[k]).Some?
    ensures d in ListDerived(w, doc, secs[k]).value ==> d in ListsDerived(w, doc, secs).value
  {
    InTurns(ListTurns(w, doc, secs), |secs|, k, d);
  }

  lemma ApartBelow(a: Path, b: Path, p: Path)
    requires Apart(a, b) && a <= p
    ensures Apart(p, b)
  {
    PrefixesMeet(a, b, p);
    assert p <= b ==> a <= b;
  }

  /** A derived value that does not stand below a section's list is not of that section. */
  lemma OutsideSection(al: Alphabet, t: Table, w: World, doc: Value, m: nat, d: (Path, Value))
    requires IsTable(al, t) && IsWorld(t, w) && ListsDerived(w, doc, t.sections).Some? && m < |t.sections|
    requires d in ListsDerived(w, doc, t.sections).value
    ensures Apart(d.0, t.sections[m].list)
         || (ListDerived(w, doc, t.sections[m]).Some? && d in ListDerived(w, doc, t.sections[m]).value)
  {
    var k := FromSection(w, doc, t.sections, d);
    if k != m {
      ListDigests(al, t, w, doc, t.sections[k]);
      assert IsUnder(t.sections[k], al, d);
      ApartBelow(t.sections[k].list, t.sections[m].list, d.0);
    }
  }

  lemma FoundOutside(al: Alphabet, t: Table, m: nat, d: (Path, Value))
    requires IsTable(al, t) && IsFound(t, al, d) && m < |t.sections|
    ensures Apart(d.0, t.sections[m].list)
  {
    if IsRowValue(al, t.tools, d) {
      ApartBelow(t.tools.list, t.sections[m].list, d.0);
    } else {
      ApartBelow(t.outputs.list, t.sections[m].list, d.0);
    }
  }

  /** What is derived, in its two parts. */
  lemma DerivedParts(al: Alphabet, t: Table, w: World, doc: Value, d: (Path, Value))
    requires IsTable(al, t) && IsWorld(t, w) && Derive(t, w, doc).Some? && d in Derive(t, w, doc).value
    ensures ListsDerived(w, doc, t.sections).Some?
    ensures d in ListsDerived(w, doc, t.sections).value || IsFound(t, al, d)
  {
    if w.replays && d !in ListsDerived(w, doc, t.sections).value {
      ProofValues(al, t, Replayed(t, w, doc).value);
    }
  }

  /** A section whose digests are all recorded is left as it was. */
  lemma SectionKept(al: Alphabet, t: Table, w: World, doc: Value, ds: Derived, m: nat)
    requires IsTable(al, t) && IsWorld(t, w) && Unique(doc) && Derive(t, w, doc) == Some(ds) && m < |t.sections|
    requires ListDerived(w, doc, t.sections[m]).Some? && Records(doc, ListDerived(w, doc, t.sections[m]).value)
    ensures Lookup(Updated(doc, ds), t.sections[m].list) == Lookup(doc, t.sections[m].list)
  {
    var q := t.sections[m].list;
    DerivePaths(al, t, w, doc);
    forall j | 0 <= j < |ds| ensures Apart(ds[j].0, q) || Lookup(doc, ds[j].0) == Some(ds[j].1) {
      DerivedParts(al, t, w, doc, ds[j]);
      if IsFound(t, al, ds[j]) {
        FoundOutside(al, t, m, ds[j]);
      } else {
        OutsideSection(al, t, w, doc, m, ds[j]);
      }
    }
    assert ds[..|ds|] == ds;
    HeldKept(doc, ds, |ds|, q);
  }

  /** A recorded value that is derived again is left as it was. */
  lemma RecordKept(al: Alphabet, t: Table, w: World, doc: Value, ds: Derived, d: (Path, Value))
    requires IsTable(al, t) && IsWorld(t, w) && Unique(doc) && Derive(t, w, doc) == Some(ds)
    requires d in ds && Lookup(doc, d.0) == Some(d.1)
    ensures Lookup(Updated(doc, ds), d.0) == Some(d.1)
  {
    DerivePaths(al, t, w, doc);
    var i :| 0 <= i < |ds| && ds[i] == d;
    forall j | 0 <= j < |ds| ensures Apart(ds[j].0, d.0) || Lookup(doc, ds[j].0) == Some(ds[j].1) {
      if j != i {
        DerivedApart(t, al, ds[j], ds[i]);
      }
    }
    assert ds[..|ds|] == ds;
    HeldKept(doc, ds, |ds|, d.0);
  }

  lemma RecordsKept(al: Alphabet, t: Table, w: World, doc: Value, ds: Derived, m: nat)
    requires IsTable(al, t) && IsWorld(t, w) && Unique(doc) && Derive(t, w, doc) == Some(ds) && m < |t.sections|
    requires ListDerived(w, doc, t.sections[m]).Some? && Records(doc, ListDerived(w, doc, t.sections[m]).value)
    ensures Records(Updated(doc, ds), ListDerived(w, doc, t.sections[m]).value)
  {
    var es := ListDerived(w, doc, t.sections[m]).value;
    forall j | 0 <= j < |es| ensures Lookup(Updated(doc, ds), es[j].0) == Some(es[j].1) {
      InSection(w, doc, t.sections, m, es[j]);
      assert es[j] in ds;
      RecordKept(al, t, w, doc, ds, es[j]);
    }
  }

  /** The recorded values of two lists are those of both. */
  lemma RecordsBoth(w: World, doc: Value, a: Section, b: Section, v: Value)
    requires ListsDerived(w, doc, [a, b]).Some?
    ensures ListDerived(w, doc, a).Some? && ListDerived(w, doc, b).Some?
    ensures Records(v, ListsDerived(w, doc, [a, b]).value) <==>
      Records(v, ListDerived(w, doc, a).value) && Records(v, ListDerived(w, doc, b).value)
  {
    var f := ListTurns(w, doc, [a, b]);
    assert f(0) == ListDerived(w, doc, a) && f(1) == ListDerived(w, doc, b);
    TwoTurns(f);
    SplitRecords(v, f(0).value, f(1).value);
  }

  lemma TwoTurns(f: nat -> Option<Derived>)
    requires Concat(f, 2).Some?
    ensures f(0).Some? && f(1).Some? && Concat(f, 2).value == f(0).value + f(1).value
  {
    assert Concat(f, 0) == Some([]);
    assert Concat(f, 1) == Some([] + f(0).value);
    assert [] + f(0).value == f(0).value;
  }

  lemma SplitRecords(v: Value, ds: Derived, es: Derived)
    ensures Records(v, ds + es) <==> Records(v, ds) && Records(v, es)
  {
    if Records(v, ds + es) {
      forall j | 0 <= j < |ds| ensures Lookup(v, ds[j].0) == Some(ds[j].1) {
        assert (ds + es)[j] == ds[j];
      }
      forall j | 0 <= j < |es| ensures Lookup(v, es[j].0) == Some(es[j].1) {
        assert (ds + es)[|ds| + j] == es[j];
      }
    }
  }

  lemma SectionOf(secs: seq<Section>, sec: Section) returns (m: nat)
    requires sec in secs
    ensures m < |secs| && secs[m] == sec
  {
    m :| m < |secs| && secs[m] == sec;
  }

  lemma ReplayKept(al: Alphabet, t: Table, w: World, doc: Value, ds: Derived, doc': Value)
    requires IsTable(al, t) && IsWorld(t, w) && Derive(t, w, doc) == Some(ds) && w.replays && Written(al, doc, ds, doc')
    ensures Replayed(t, w, doc') == Replayed(t, w, doc)
  {
    var both := [t.declared, t.bindings];
    var d := SectionOf(t.sections, t.declared);
    var b := SectionOf(t.sections, t.bindings);
    ListsKept(al, w, doc, ds, doc', both);
    RecordsBoth(w, doc, t.declared, t.bindings, doc);
    RecordsBoth(w, doc, t.declared, t.bindings, doc');
    SectionKept(al, t, w, doc, ds, d);
    SectionKept(al, t, w, doc, ds, b);
    RecordsKept(al, t, w, doc, ds, d);
    RecordsKept(al, t, w, doc, ds, b);
  }

  lemma DeriveWrites(al: Alphabet, t: Table, w: World, doc: Value, ds: Derived)
    requires IsTable(al, t) && IsWorld(t, w) && Unique(doc) && Derive(t, w, doc) == Some(ds)
    ensures Written(al, doc, ds, Updated(doc, ds))
  {
    DerivePaths(al, t, w, doc);
    forall j | 0 <= j < |ds| ensures IsDerivedPath(al, ds[j].0) {
      DerivedIs(t, al, ds[j]);
    }
  }

  /** The same values are derived from the registry they are written into. */
  lemma DeriveAgain(al: Alphabet, t: Table, w: World, doc: Value, ds: Derived)
    requires IsTable(al, t) && IsWorld(t, w) && Unique(doc) && Derive(t, w, doc) == Some(ds)
    ensures Derive(t, w, Updated(doc, ds)) == Some(ds)
  {
    var doc' := Updated(doc, ds);
    DeriveWrites(al, t, w, doc, ds);
    ListsKept(al, w, doc, ds, doc', t.sections);
    if w.replays {
      ReplayKept(al, t, w, doc, ds, doc');
    }
  }

  lemma MemberOf(al: Alphabet, t: Table, w: World, doc: Value, sec: Section, d: (Path, Value))
    requires IsTable(al, t) && sec in t.sections && ListsDerived(w, doc, t.sections).Some?
    ensures ListDerived(w, doc, sec).Some?
    ensures d in ListDerived(w, doc, sec).value ==> d in ListsDerived(w, doc, t.sections).value
  {
    var m := SectionOf(t.sections, sec);
    InSection(w, doc, t.sections, m, d);
  }

  /** Once the digests are written, the replay finds all those it relies on recorded. */
  lemma RecordedAfterRewrite(al: Alphabet, t: Table, w: World, doc: Value, ds: Derived)
    requires IsTable(al, t) && IsWorld(t, w) && Unique(doc) && Derive(t, w, doc) == Some(ds)
    requires forall j | 0 <= j < |ds| :: ScalarAt(doc, ds[j].0)
    ensures ListsDerived(w, Updated(doc, ds), [t.declared, t.bindings]).Some?
    ensures Records(Updated(doc, ds), ListsDerived(w, Updated(doc, ds), [t.declared, t.bindings]).value)
  {
    var doc', both := Updated(doc, ds), [t.declared, t.bindings];
    DeriveWrites(al, t, w, doc, ds);
    ListsKept(al, w, doc, ds, doc', both);
    BothDerived(al, t, w, doc);
    var read := ListsDerived(w, doc, both).value;
    forall i | 0 <= i < |read| ensures Lookup(doc', read[i].0) == Some(read[i].1) {
      var k := FromSection(w, doc, both, read[i]);
      MemberOf(al, t, w, doc, both[k], read[i]);
      assert read[i] in ds;
      ScalarWritten(doc, ds, read[i]);
    }
  }

  lemma BothDerived(al: Alphabet, t: Table, w: World, doc: Value)
    requires IsTable(al, t) && ListsDerived(w, doc, t.sections).Some?
    ensures ListsDerived(w, doc, [t.declared, t.bindings]).Some?
  {
    var f := ListTurns(w, doc, [t.declared, t.bindings]);
    var any: (Path, Value) := ([], Null);
    MemberOf(al, t, w, doc, t.declared, any);
    MemberOf(al, t, w, doc, t.bindings, any);
    assert f(0) == ListDerived(w, doc, t.declared) && f(1) == ListDerived(w, doc, t.bindings);
    assert Concat(f, 1).Some? && Concat(f, 2).Some?;
  }

  lemma ScalarWritten(doc: Value, ds: Derived, d: (Path, Value))
    requires Unique(doc) && Antichain(ds) && NonEmpty(ds) && d in ds && ScalarAt(doc, d.0)
    ensures Lookup(Updated(doc, ds), d.0) == Some(d.1)
  {
    var j :| 0 <= j < |ds| && ds[j] == d;
    assert ds[..|ds|] == ds;
    ScalarResolves(doc, d.0);
    UpdatedResolves(doc, ds, |ds|, j);
  }

  // -------------------------------------------------------------- after a rewrite

  /** Below a list the order of names is not compared. */
  lemma {:induction false} ListOrdered(v: Value, p: Path, k: nat, x: Value)
    requires Shaped(v) && k < |p| && p[k].Index?
    ensures Ordered(v, p, x)
    decreases |p|
  {
    if v.Tree? && v.obj && p[0] in Steps(v.fields) {
      FindShaped(v.fields, p[0], 0);
      ListOrdered(Find(v.fields, p[0]).value, p[1..], k - 1, x);
    }
  }

  lemma DeriveIsDerivation(al: Alphabet, t: Table, w: World)
    requires IsTable(al, t) && IsWorld(t, w)
    ensures IsDerivation(v => Derive(t, w, v))
  {
    forall v | Derive(t, w, v).Some? ensures IsDict(Derive(t, w, v).value) {
      DerivePaths(al, t, w, v);
    }
  }

  /** Once the registry is rewritten, the check passes and rewriting changes nothing. */
  lemma TableFixedPoint(al: Alphabet, t: Table, text: Text, w: World)
    requires IsTable(al, t) && IsWorld(t, w) && Evaluated(text, v => Derive(t, w, v)).Some?
    requires NamesOnce(Parse(text).value)
    ensures var rendered := Evaluated(text, v => Derive(t, w, v)).value.rendered;
      Evaluated(rendered, v => Derive(t, w, v)) == Some(Evaluation([], rendered))
  {
    var derive: Derivation := v => Derive(t, w, v);
    var doc := Load(text).value;
    var ds := Derive(t, w, doc).value;
    DeriveIsDerivation(al, t, w);
    DerivePaths(al, t, w, doc);
    LoadedUnique(Parse(text).value);
    LoadedShaped(Parse(text).value);
    EvaluatedRewritable(text, derive, ds);
    DeriveAgain(al, t, w, doc, ds);
    forall j | 0 <= j < |ds| ensures Ordered(doc, ds[j].0, ds[j].1) {
      DerivedIs(t, al, ds[j]);
      var k :| 0 <= k < |ds[j].0| && ds[j].0[k].Index?;
      ListOrdered(doc, ds[j].0, k, ds[j].1);
    }
    CheckAfterWrite(text, derive, ds);
  }

  // ------------------------------------------------------------ what others read

  /** A path that meets no field that is written. */
  predicate IsReadable(al: Alphabet, p: Path) {
    forall k | 0 <= k < |p| :: p[k] !in al.digests && p[k] != al.proof
  }

  /** The same scalar, or containers with the same entries. */
  predicate SameNode(a: Option<Value>, b: Option<Value>) {
    SameFrame(a, b) || (a == b && (a.Some? ==> !a.value.Tree?))
  }

  /** Whoever follows readable paths only finds the same in both documents. */
  ghost predicate SameReads(al: Alphabet, v: Value, v': Value) {
    forall p | IsReadable(al, p) :: SameNode(Lookup(v, p), Lookup(v', p))
  }

  lemma ReadableBelow(al: Alphabet, p: Path, q: Path)
    requires IsDerivedPath(al, p) && IsReadable(al, q)
    ensures Apart(p, q) || q < p
  {
    StepAt(p, q, |p| - 1);
    if IsProofPath(al, p) {
      var k :| 0 <= k < |p| - 1 && p[k] == al.proof;
      StepAt(p, q, k);
    }
  }

  lemma ReadableKept(al: Alphabet, doc: Value, ds: Derived, doc': Value, q: Path)
    requires Written(al, doc, ds, doc') && IsReadable(al, q)
    ensures SameNode(Lookup(doc, q), Lookup(doc', q))
  {
    assert ds[..|ds|] == ds;
    forall j | 0 <= j < |ds| ensures Apart(ds[j].0, q) || q < ds[j].0 {
      ReadableBelow(al, ds[j].0, q);
    }
    if Lookup(doc, q).Some? && Lookup(doc, q).value.Tree? {
      FrameKept(doc, ds, |ds|, q);
    } else {
      AtomKept(doc, ds, |ds|, q);
    }
  }

  lemma ReadsKept(al: Alphabet, t: Table, w: World, doc: Value, ds: Derived)
    requires IsTable(al, t) && IsWorld(t, w) && Unique(doc) && Derive(t, w, doc) == Some(ds)
    ensures SameReads(al, doc, Updated(doc, ds))
  {
    DeriveWrites(al, t, w, doc, ds);
    forall p | IsReadable(al, p) ensures SameNode(Lookup(doc, p), Lookup(Updated(doc, ds), p)) {
      ReadableKept(al, doc, ds, Updated(doc, ds), p);
    }
  }
}
