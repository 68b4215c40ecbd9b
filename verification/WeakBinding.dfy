/**
 What is derived for the weak-binding registry (`derivation` of
 scripts/generate_weak_binding_registry.py): digests and discovery results per entry, counts, and a
 digest over the entries as they will be written. The same values are derived again from the
 registry they are written into.
 */
module WeakBinding {
  import opened Prelude
  import opened JsonSyntax
  import opened JsonValues
  import opened JsonRender
  import opened JsonSplice
  import opened JsonApply
  import opened JsonTheorems
  import opened RegistryDiff
  import opened RegistryFrame
  import opened RegistryNames
  import opened RegistryOrder
  import opened RegistryTarget

  const CLASSIFIED: Text := [99, 108, 97, 115, 115, 105, 102, 105, 101, 100]
  const DEFINED: Text := [100, 101, 102, 105, 110, 101, 100]

  /** What discovery says of a candidate. */
  datatype Found = Found(discovery: Value, faultMode: Value)

  /** What the source tree gives: file digests, discovered candidates and the digest of a value. */
  datatype World = World(
    sha: (Value, Value) -> Option<Text>,
    found: (Value, Value) -> Option<Found>,
    candidates: nat,
    digest: Value -> Text)

  ghost predicate IsWorld(w: World) {
    && (forall r, p :: w.sha(r, p).Some? ==> IsChars(w.sha(r, p).value))
    && (forall p, n :: w.found(p, n).Some? ==> IsScalar(w.found(p, n).value.discovery) && IsScalar(w.found(p, n).value.faultMode))
    && (forall v :: IsChars(w.digest(v)))
  }

  function EntryPath(i: nat): Path {
    [ENTRIES, Index(i)]
  }

  /** The digest of the file that a repository and a path below `base` name. */
  function FileDigest(w: World, doc: Value, base: Path): Option<Text> {
    var repository, path := Lookup(doc, base + [REPOSITORY]), Lookup(doc, base + [PATH]);
    if repository.None? || path.None? then None else w.sha(repository.value, path.value)
  }

  function IsDictAt(doc: Value, p: Path): bool {
    var v := Lookup(doc, p);
    v.Some? && v.value.Tree? && v.value.obj
  }

  function IsClassified(doc: Value, i: nat): Option<bool> {
    var status := Lookup(doc, EntryPath(i) + [STATUS]);
    if status.None? then None else Some(PyEq(status.value, Str(CLASSIFIED)))
  }

  function StrongDerived(w: World, doc: Value, i: nat): Option<Derived> {
    var strong := EntryPath(i) + [STRONG_SIDE];
    if Lookup(doc, strong).None? then None
    else if !IsDictAt(doc, strong) then Some([])
    else
      var sha := FileDigest(w, doc, strong);
      if sha.None? then None else Some([(strong + [SHA256], Str(sha.value))])
  }

  function StatusDerived(w: World, doc: Value, i: nat): Option<Derived> {
    var e := EntryPath(i);
    if IsClassified(doc, i).None? then None
    else if !IsClassified(doc, i).value then Some([(e + [DISCOVERY], Null), (e + [FAULT_MODE], Null)])
    else
      var path, name := Lookup(doc, e + [PATH]), Lookup(doc, e + [NAME]);
      if path.None? || name.None? || w.found(path.value, name.value).None? then None
      else
        var found := w.found(path.value, name.value).value;
        Some([(e + [DISCOVERY], found.discovery), (e + [FAULT_MODE], found.faultMode), (e + [IMAGE_ROLE], Str(DEFINED))])
  }

  function EntryDerived(w: World, doc: Value, i: nat): Option<Derived> {
    var sha, strong, status := FileDigest(w, doc, EntryPath(i)), StrongDerived(w, doc, i), StatusDerived(w, doc, i);
    if sha.None? || strong.None? || status.None? then None
    else Some([(EntryPath(i) + [SHA256], Str(sha.value))] + strong.value + status.value)
  }

  function EntriesDerived(w: World, doc: Value, n: nat): Option<Derived> {
    if n == 0 then Some([])
    else
      var before, entry := EntriesDerived(w, doc, n - 1), EntryDerived(w, doc, n - 1);
      if before.None? || entry.None? then None else Some(before.value + entry.value)
  }

  function ClassifiedCount(doc: Value, n: nat): nat {
    if n == 0 then 0
    else ClassifiedCount(doc, n - 1) + if IsClassified(doc, n - 1) == Some(true) then 1 else 0
  }

  /** The number of entries; nothing when there is no list of them. */
  function EntryCount(doc: Value): Option<nat> {
    var entries := Lookup(doc, [ENTRIES]);
    if entries.Some? && entries.value.Tree? && !entries.value.obj then Some(|StepList(entries.value.fields)|) else None
  }

  function CountsDerived(w: World, doc: Value, n: nat): Derived {
    var classified := ClassifiedCount(doc, n);
    [([COUNTS, CANDIDATE_COUNT], Int(w.candidates)), ([COUNTS, CLASSIFIED_COUNT], Int(classified)),
     ([COUNTS, RETIRED_COUNT], Int(n - classified))]
  }

  /** All but the digest of the entries. */
  function FieldsDerived(w: World, doc: Value): Option<Derived> {
    var n := EntryCount(doc);
    if n.None? || EntriesDerived(w, doc, n.value).None? then None
    else Some(EntriesDerived(w, doc, n.value).value + CountsDerived(w, doc, n.value))
  }

  /** The digest covers the entries with the derived values already in their places. */
  function Derive(w: World, doc: Value): Option<Derived> {
    var fields := FieldsDerived(w, doc);
    if fields.None? || Apply(doc, fields.value).None? then None
    else
      var entries := Lookup(Apply(doc, fields.value).value, [ENTRIES]);
      if entries.None? then None
      else Some(fields.value + [([ENTRIES_DIGEST], Str(w.digest(entries.value)))])
  }

  // ------------------------------------------------------------- the program

  /** The loop over the entries, with the dictionary and the two counters it fills. */
  method DeriveFields(w: World, doc: Value) returns (r: Option<Derived>)
    ensures r == FieldsDerived(w, doc)
  {
    var n := EntryCount(doc);
    if n.None? {
      return None;
    }
    var derived: Derived, classified, retired := [], 0, 0;
    for i := 0 to n.value
      invariant EntriesDerived(w, doc, i) == Some(derived)
      invariant classified == ClassifiedCount(doc, i) && retired == i - classified
    {
      var entry := EntryDerived(w, doc, i);
      if entry.None? {
        RaisedBefore(w, doc, i + 1, n.value);
        return None;
      }
      derived := derived + entry.value;
      if IsClassified(doc, i).value {
        classified := classified + 1;
      } else {
        retired := retired + 1;
      }
    }
    var counts: Derived := [([COUNTS, CANDIDATE_COUNT], Int(w.candidates)), ([COUNTS, CLASSIFIED_COUNT], Int(classified)),
      ([COUNTS, RETIRED_COUNT], Int(retired))];
    r := Some(derived + counts);
  }

  lemma {:induction false} RaisedBefore(w: World, doc: Value, i: nat, n: nat)
    requires i <= n && EntriesDerived(w, doc, i).None?
    ensures EntriesDerived(w, doc, n).None?
    decreases n
  {
    if i < n {
      RaisedBefore(w, doc, i, n - 1);
    }
  }

  // ------------------------------------------------------------ derived paths

  /** The fields of an entry that are derived, and those that are reviewed and read. */
  predicate IsDerivedField(s: Step) {
    s == SHA256 || s == DISCOVERY || s == FAULT_MODE || s == IMAGE_ROLE
  }

  predicate IsEntryPath(doc: Value, p: Path) {
    && |p| >= 3 && p[0] == ENTRIES && p[1].Index?
    && (|p| == 3 ==> IsDerivedField(p[2]))
    && (|p| > 3 ==> |p| == 4 && p[2] == STRONG_SIDE && p[3] == SHA256 && IsDictAt(doc, p[..3]))
  }

  predicate IsDerivedPath(doc: Value, p: Path) {
    IsEntryPath(doc, p) || (|p| == 2 && p[0] == COUNTS) || p == [ENTRIES_DIGEST]
  }

  lemma DerivedApart(doc: Value, p: Path, q: Path)
    requires IsDerivedPath(doc, p) && IsDerivedPath(doc, q) && p != q
    ensures Apart(p, q)
  {
    if p[0] != q[0] {
      Differ(p, q, 0);
    } else if p[1] != q[1] {
      Differ(p, q, 1);
    } else if p[2] != q[2] {
      Differ(p, q, 2);
    }
  }

  predicate AllEntryPaths(doc: Value, ds: Derived, i: nat) {
    forall j | 0 <= j < |ds| :: IsEntryPath(doc, ds[j].0) && ds[j].0[1] == Index(i) && IsScalar(ds[j].1)
  }

  lemma EntryPaths(w: World, doc: Value, i: nat)
    requires IsWorld(w) && EntryDerived(w, doc, i).Some?
    ensures AllEntryPaths(doc, EntryDerived(w, doc, i).value, i) && IsDict(EntryDerived(w, doc, i).value)
  {
    StrongPaths(w, doc, i);
    StatusPaths(w, doc, i);
    var first: Derived := [(EntryPath(i) + [SHA256], Str(FileDigest(w, doc, EntryPath(i)).value))];
    var strong, status := StrongDerived(w, doc, i).value, StatusDerived(w, doc, i).value;
    assert AllEntryPaths(doc, first, i);
    assert forall j | 0 <= j < |strong| :: |strong[j].0| == 4;
    assert forall j | 0 <= j < |status| :: status[j].0[2] != SHA256 && |status[j].0| == 3;
  }

  lemma StrongPaths(w: World, doc: Value, i: nat)
    requires IsWorld(w) && StrongDerived(w, doc, i).Some?
    ensures var ds := StrongDerived(w, doc, i).value;
      AllEntryPaths(doc, ds, i) && |ds| <= 1 && forall j | 0 <= j < |ds| :: |ds[j].0| == 4
  {
    var strong := EntryPath(i) + [STRONG_SIDE];
    assert (strong + [SHA256])[..3] == strong;
  }

  lemma StatusPaths(w: World, doc: Value, i: nat)
    requires IsWorld(w) && StatusDerived(w, doc, i).Some?
    ensures var ds := StatusDerived(w, doc, i).value;
      AllEntryPaths(doc, ds, i) && IsDict(ds) && forall j | 0 <= j < |ds| :: |ds[j].0| == 3 && ds[j].0[2] != SHA256
  {
    var e := EntryPath(i);
    assert (e + [DISCOVERY])[2] == DISCOVERY && (e + [FAULT_MODE])[2] == FAULT_MODE && (e + [IMAGE_ROLE])[2] == IMAGE_ROLE;
  }

  predicate AllDerived(doc: Value, ds: Derived) {
    forall j | 0 <= j < |ds| :: IsDerivedPath(doc, ds[j].0) && IsScalar(ds[j].1)
  }

  predicate EntriesBelow(doc: Value, ds: Derived, n: nat) {
    forall j | 0 <= j < |ds| :: IsEntryPath(doc, ds[j].0) && ds[j].0[1].position < n && IsScalar(ds[j].1)
  }

  lemma {:induction false} EntriesPaths(w: World, doc: Value, n: nat)
    requires IsWorld(w) && EntriesDerived(w, doc, n).Some?
    ensures EntriesBelow(doc, EntriesDerived(w, doc, n).value, n) && IsDict(EntriesDerived(w, doc, n).value)
  {
    if n > 0 {
      EntriesPaths(w, doc, n - 1);
      EntryPaths(w, doc, n - 1);
      JoinEntries(doc, EntriesDerived(w, doc, n - 1).value, EntryDerived(w, doc, n - 1).value, n - 1);
    }
  }

  lemma JoinEntries(doc: Value, ds: Derived, es: Derived, n: nat)
    requires EntriesBelow(doc, ds, n) && IsDict(ds) && AllEntryPaths(doc, es, n) && IsDict(es)
    ensures EntriesBelow(doc, ds + es, n + 1) && IsDict(ds + es)
  {
    forall i, j | 0 <= i < |ds| && 0 <= j < |es| ensures ds[i].0 != es[j].0 {
      assert ds[i].0[1] != es[j].0[1];
    }
  }

  lemma DerivePaths(w: World, doc: Value)
    requires IsWorld(w) && Derive(w, doc).Some?
    ensures var ds := Derive(w, doc).value; AllDerived(doc, ds) && IsDict(ds) && Antichain(ds) && AllProper(ds)
    ensures forall j | 0 <= j < |Derive(w, doc).value| :: Derive(w, doc).value[j].0 != []
  {
    var fs, ds := FieldsDerived(w, doc).value, Derive(w, doc).value;
    FieldsPaths(w, doc);
    var last: Derived := [ds[|ds| - 1]];
    assert ds == fs + last;
    JoinPaths(doc, fs, last);
    DerivedAntichain(doc, ds);
  }

  lemma DerivedAntichain(doc: Value, ds: Derived)
    requires AllDerived(doc, ds) && IsDict(ds)
    ensures Antichain(ds) && AllProper(ds) && forall j | 0 <= j < |ds| :: ds[j].0 != []
  {
    forall i, j | 0 <= i < j < |ds| ensures Apart(ds[i].0, ds[j].0) {
      DerivedApart(doc, ds[i].0, ds[j].0);
    }
  }

  lemma FieldsPaths(w: World, doc: Value)
    requires IsWorld(w) && FieldsDerived(w, doc).Some?
    ensures var fs := FieldsDerived(w, doc).value;
      AllDerived(doc, fs) && IsDict(fs) && forall j | 0 <= j < |fs| :: fs[j].0[0] != ENTRIES_DIGEST
  {
    var n := EntryCount(doc).value;
    EntriesPaths(w, doc, n);
    CountsPaths(w, doc, n);
    JoinPaths(doc, EntriesDerived(w, doc, n).value, CountsDerived(w, doc, n));
  }

  lemma CountsPaths(w: World, doc: Value, n: nat)
    ensures var ds := CountsDerived(w, doc, n);
      AllDerived(doc, ds) && IsDict(ds) && forall j | 0 <= j < |ds| :: ds[j].0[0] == COUNTS
  {
    assert CANDIDATE_COUNT != CLASSIFIED_COUNT && CLASSIFIED_COUNT != RETIRED_COUNT && CANDIDATE_COUNT != RETIRED_COUNT;
  }

  lemma JoinPaths(doc: Value, ds: Derived, es: Derived)
    requires AllDerived(doc, ds) && IsDict(ds) && AllDerived(doc, es) && IsDict(es)
    requires forall i, j | 0 <= i < |ds| && 0 <= j < |es| :: ds[i].0[0] != es[j].0[0]
    ensures AllDerived(doc, ds + es) && IsDict(ds + es)
  {
  }

  // ------------------------------------------------------------ what is read

  predicate IsRead(p: Path) {
    && |p| >= 3 && p[0] == ENTRIES && p[1].Index?
    && (|p| == 3 ==> p[2] == REPOSITORY || p[2] == PATH || p[2] == STATUS || p[2] == NAME)
    && (|p| > 3 ==> p[2] == STRONG_SIDE && (p[3] == REPOSITORY || p[3] == PATH))
  }

  lemma ReadApart(doc: Value, p: Path, r: Path)
    requires IsDerivedPath(doc, p)
    requires IsRead(r) || (|r| == 3 && r[0] == ENTRIES && r[2] == STRONG_SIDE && !IsDictAt(doc, r))
    ensures Apart(p, r)
  {
    assert |p| > 3 ==> p[..3] == [p[0], p[1], p[2]];
    assert |r| == 3 ==> r == [r[0], r[1], r[2]];
    if p[0] != r[0] {
      Differ(p, r, 0);
    } else if p[1] != r[1] {
      Differ(p, r, 1);
    } else if p[2] != r[2] {
      Differ(p, r, 2);
    } else if |r| > 3 {
      Differ(p, r, 3);
    }
  }

  /** The document before, the values derived from it and the document after. */
  ghost predicate Written(doc: Value, ds: Derived, doc': Value) {
    && Unique(doc) && Antichain(ds) && AllDerived(doc, ds) && doc' == Updated(doc, ds)
    && forall j | 0 <= j < |ds| :: ds[j].0 != [] && ScalarAt(doc, ds[j].0)
  }

  lemma ReadKept(doc: Value, ds: Derived, doc': Value, r: Path)
    requires Written(doc, ds, doc')
    requires IsRead(r) || (|r| == 3 && r[0] == ENTRIES && r[2] == STRONG_SIDE && !IsDictAt(doc, r))
    ensures Lookup(doc', r) == Lookup(doc, r)
  {
    assert ds[..|ds|] == ds;
    forall j | 0 <= j < |ds| ensures Apart(ds[j].0, r) {
      ReadApart(doc, ds[j].0, r);
    }
    UpdatedKeeps(doc, ds, |ds|, r);
  }

  lemma StrongKept(doc: Value, ds: Derived, doc': Value, i: nat)
    requires Written(doc, ds, doc')
    ensures var strong := EntryPath(i) + [STRONG_SIDE];
      && (IsDictAt(doc', strong) <==> IsDictAt(doc, strong))
      && (Lookup(doc', strong).None? <==> Lookup(doc, strong).None?)
  {
    var strong := EntryPath(i) + [STRONG_SIDE];
    if IsDictAt(doc, strong) {
      assert ds[..|ds|] == ds;
      forall j | 0 <= j < |ds| ensures Apart(ds[j].0, strong) || strong < ds[j].0 {
        StrongBelow(doc, ds[j].0, strong);
      }
      FrameKept(doc, ds, |ds|, strong);
    } else {
      ReadKept(doc, ds, doc', strong);
    }
  }

  lemma StrongBelow(doc: Value, p: Path, q: Path)
    requires IsDerivedPath(doc, p) && |q| == 3 && q[0] == ENTRIES && q[2] == STRONG_SIDE
    ensures Apart(p, q) || q < p
  {
    if p[0] != q[0] {
      Differ(p, q, 0);
    } else if p[1] != q[1] {
      Differ(p, q, 1);
    } else if p[2] != q[2] {
      Differ(p, q, 2);
    } else {
      assert p[..3] == q;
    }
  }

  lemma CountKept(doc: Value, ds: Derived, doc': Value)
    requires Written(doc, ds, doc') && EntryCount(doc).Some?
    ensures EntryCount(doc') == EntryCount(doc)
  {
    assert ds[..|ds|] == ds;
    forall j | 0 <= j < |ds| ensures Apart(ds[j].0, [ENTRIES]) || [ENTRIES] < ds[j].0 {
      var p := ds[j].0;
      if p[0] != ENTRIES {
        Differ(p, [ENTRIES], 0);
      }
    }
    FrameKept(doc, ds, |ds|, [ENTRIES]);
  }

  lemma DigestKept(w: World, doc: Value, ds: Derived, doc': Value, base: Path)
    requires Written(doc, ds, doc') && |base| >= 2 && base[0] == ENTRIES && base[1].Index?
    requires |base| == 2 || (|base| == 3 && base[2] == STRONG_SIDE)
    ensures FileDigest(w, doc', base) == FileDigest(w, doc, base)
  {
    ReadKept(doc, ds, doc', base + [REPOSITORY]);
    ReadKept(doc, ds, doc', base + [PATH]);
  }

  lemma EntryKept(w: World, doc: Value, ds: Derived, doc': Value, i: nat)
    requires Written(doc, ds, doc')
    ensures EntryDerived(w, doc', i) == EntryDerived(w, doc, i) && IsClassified(doc', i) == IsClassified(doc, i)
  {
    var e := EntryPath(i);
    StrongKept(doc, ds, doc', i);
    DigestKept(w, doc, ds, doc', e);
    DigestKept(w, doc, ds, doc', e + [STRONG_SIDE]);
    ReadKept(doc, ds, doc', e + [STATUS]);
    ReadKept(doc, ds, doc', e + [PATH]);
    ReadKept(doc, ds, doc', e + [NAME]);
  }

  lemma {:induction false} EntriesKept(w: World, doc: Value, ds: Derived, doc': Value, n: nat)
    requires Written(doc, ds, doc')
    ensures EntriesDerived(w, doc', n) == EntriesDerived(w, doc, n) && ClassifiedCount(doc', n) == ClassifiedCount(doc, n)
  {
    if n > 0 {
      EntriesKept(w, doc, ds, doc', n - 1);
      EntryKept(w, doc, ds, doc', n - 1);
    }
  }

  // ------------------------------------------------------------- fixed point

  lemma {:induction false} ApplySame(v: Value, ds: Derived, n: nat)
    requires n <= |ds|
    requires forall j | 0 <= j < n :: ds[j].0 != [] && Resolves(v, ds[j].0) && Lookup(v, ds[j].0) == Some(ds[j].1)
    ensures Apply(v, ds[..n]) == Some(v)
    decreases n
  {
    if n == 0 {
      assert ds[..0] == [];
    } else {
      ApplySame(v, ds, n - 1);
      Take(ds, n);
      SetSame(v, ds[n - 1].0, ds[n - 1].1);
    }
  }

  /** Scalars only: the assignments give the updated document itself. */
  lemma {:induction false} UpdatedExact(doc: Value, ds: Derived, n: nat)
    requires Unique(doc) && Antichain(ds) && n <= |ds|
    requires forall j | 0 <= j < |ds| :: ds[j].0 != [] && ScalarAt(doc, ds[j].0)
    ensures Apply(doc, ds[..n]) == Some(Updated(doc, ds[..n]))
    decreases n
  {
    if n == 0 {
      assert ds[..0] == [];
      UpdatedNone(doc);
    } else {
      UpdatedExact(doc, ds, n - 1);
      Take(ds, n);
      UpdatedNext(doc, ds[..n - 1], ds[n - 1].0, ds[n - 1].1);
    }
  }

  lemma EntriesWritten(doc: Value, fs: Derived, digest: Value, ds: Derived, doc': Value)
    requires Written(doc, ds, doc') && ds == fs + [([ENTRIES_DIGEST], digest)]
    ensures Apply(doc, fs).Some? && Lookup(doc', [ENTRIES]) == Lookup(Apply(doc, fs).value, [ENTRIES])
  {
    assert ds[..|ds|] == ds && ds[..|fs|] == fs;
    UpdatedExact(doc, ds, |ds|);
    UpdatedExact(doc, ds, |fs|);
    Differ([ENTRIES_DIGEST], [ENTRIES], 0);
    SetOther(Apply(doc, fs).value, [ENTRIES_DIGEST], digest, doc', [ENTRIES]);
  }

  /** The same values are derived from the registry they are written into. */
  lemma DeriveAgain(w: World, doc: Value, ds: Derived)
    requires IsWorld(w) && Unique(doc) && Derive(w, doc) == Some(ds)
    requires forall j | 0 <= j < |ds| :: ScalarAt(doc, ds[j].0)
    ensures Derive(w, Updated(doc, ds)) == Some(ds)
  {
    var doc', fs := Updated(doc, ds), FieldsDerived(w, doc).value;
    DerivePaths(w, doc);
    FieldsAgain(w, doc, ds, doc');
    EntriesWritten(doc, fs, ds[|ds| - 1].1, ds, doc');
    AppliedAgain(doc, fs, ds, doc');
  }

  lemma FieldsAgain(w: World, doc: Value, ds: Derived, doc': Value)
    requires Written(doc, ds, doc') && FieldsDerived(w, doc).Some?
    ensures FieldsDerived(w, doc') == FieldsDerived(w, doc)
  {
    CountKept(doc, ds, doc');
    EntriesKept(w, doc, ds, doc', EntryCount(doc).value);
  }

  lemma AppliedAgain(doc: Value, fs: Derived, ds: Derived, doc': Value)
    requires Written(doc, ds, doc') && fs <= ds
    ensures Apply(doc', fs) == Some(doc')
  {
    assert ds[..|ds|] == ds && fs[..|fs|] == fs;
    forall j | 0 <= j < |fs| ensures Resolves(doc', fs[j].0) && Lookup(doc', fs[j].0) == Some(fs[j].1) {
      ScalarResolves(doc, ds[j].0);
      UpdatedResolves(doc, ds, |ds|, j);
    }
    ApplySame(doc', fs, |fs|);
  }

  lemma DeriveIsDerivation(w: World)
    requires IsWorld(w)
    ensures IsDerivation(v => Derive(w, v))
  {
    forall v | Derive(w, v).Some? ensures IsDict(Derive(w, v).value) {
      DerivePaths(w, v);
    }
  }

  /** A scalar that is not refused is a scalar of the document. */
  lemma DerivedScalars(text: Text, w: World, ds: Derived, j: nat)
    requires IsWorld(w) && Rewritable(text, ds) && Derive(w, Load(text).value) == Some(ds) && j < |ds|
    ensures ScalarAt(Load(text).value, ds[j].0)
  {
    DerivePaths(w, Load(text).value);
    RewritableInPlace(text, ds, j);
    FoundScalar(Load(text).value, ds[j].0, ds[j].1);
  }

  /** Once the weak-binding registry is rewritten, the check passes and rewriting changes nothing. */
  lemma WeakBindingFixedPoint(text: Text, w: World, ds: Derived)
    requires IsWorld(w) && Rewritable(text, ds) && Derive(w, Load(text).value) == Some(ds)
    ensures IsDict(ds)
    ensures Evaluated(Spliced(text, ds), v => Derive(w, v)) == Some(Evaluation([], Spliced(text, ds)))
  {
    var derive: Derivation := v => Derive(w, v);
    LoadedUnique(Parse(text).value);
    DeriveIsDerivation(w);
    forall j | 0 <= j < |ds| ensures ScalarAt(Load(text).value, ds[j].0) {
      DerivedScalars(text, w, ds, j);
    }
    DeriveAgain(w, Load(text).value, ds);
    CheckAfterWrite(text, derive, ds);
  }
}
