/**
 What the weak-binding registry says once it is rewritten (`derivation` and `RegistryTarget` of
 scripts/generate_weak_binding_registry.py), field by field: every entry has the digest of its own file
 and what discovery says of its own candidate, and the counts count the entries.
 */
module WeakBindingMeaning {
  import opened Prelude
  import opened JsonSyntax
  import opened JsonValues
  import opened JsonSplice
  import opened JsonApply
  import opened JsonTheorems
  import opened RegistryDiff
  import opened RegistryLists
  import opened RegistryNames
  import opened RegistryOrder
  import opened RegistryTarget
  import opened WeakBinding

  // ------------------------------------------------------------------ entries

  predicate IsEntry(doc: Value, i: nat) {
    IsAt(doc, [ENTRIES, Index(i)])
  }

  /** The digest below `base` is that of the file whose repository and path stand there too. */
  predicate IsDigested(w: World, doc: Value, base: Path) {
    var repository, path := Lookup(doc, base + [REPOSITORY]), Lookup(doc, base + [PATH]);
    && repository.Some? && path.Some? && w.sha(repository.value, path.value).Some?
    && Lookup(doc, base + [SHA256]) == Some(Str(w.sha(repository.value, path.value).value))
  }

  predicate IsStatus(doc: Value, i: nat, status: Text) {
    Lookup(doc, [ENTRIES, Index(i), STATUS]) == Some(Str(status))
  }

  /** The entry repeats what discovery says of the candidate with its path and name. */
  predicate IsDiscovered(w: World, doc: Value, e: Path) {
    var path, name := Lookup(doc, e + [PATH]), Lookup(doc, e + [NAME]);
    && path.Some? && name.Some? && w.found(path.value, name.value).Some?
    && Lookup(doc, e + [DISCOVERY]) == Some(w.found(path.value, name.value).value.discovery)
    && Lookup(doc, e + [FAULT_MODE]) == Some(w.found(path.value, name.value).value.faultMode)
    && Lookup(doc, e + [IMAGE_ROLE]) == Some(Str(DEFINED))
  }

  predicate IsCurrent(w: World, doc: Value, i: nat) {
    var e := [ENTRIES, Index(i)];
    var strong := Lookup(doc, e + [STRONG_SIDE]);
    && IsDigested(w, doc, e)
    && strong.Some? && (strong.value.Tree? && strong.value.obj ==> IsDigested(w, doc, e + [STRONG_SIDE]))
    && if IsStatus(doc, i, CLASSIFIED) then IsDiscovered(w, doc, e)
       else Lookup(doc, e + [DISCOVERY]) == Some(Null) && Lookup(doc, e + [FAULT_MODE]) == Some(Null)
  }

  /** Every derived value is in its place. */
  predicate AllHeld(doc: Value, ds: Derived) {
    forall j | 0 <= j < |ds| :: Lookup(doc, ds[j].0) == Some(ds[j].1)
  }

  lemma StatusMeans(w: World, doc: Value, i: nat)
    requires StatusDerived(w, doc, i).Some? && AllHeld(doc, StatusDerived(w, doc, i).value)
    ensures if IsStatus(doc, i, CLASSIFIED) then IsDiscovered(w, doc, [ENTRIES, Index(i)])
      else Lookup(doc, [ENTRIES, Index(i)] + [DISCOVERY]) == Some(Null) && Lookup(doc, [ENTRIES, Index(i)] + [FAULT_MODE]) == Some(Null)
  {
    var ds := StatusDerived(w, doc, i).value;
    assert EntryPath(i) + [STATUS] == [ENTRIES, Index(i), STATUS];
    assert ds[0].0 == [ENTRIES, Index(i)] + [DISCOVERY] && ds[1].0 == [ENTRIES, Index(i)] + [FAULT_MODE];
    assert IsStatus(doc, i, CLASSIFIED) ==> ds[2].0 == [ENTRIES, Index(i)] + [IMAGE_ROLE];
  }

  lemma StrongMeans(w: World, doc: Value, i: nat)
    requires StrongDerived(w, doc, i).Some? && AllHeld(doc, StrongDerived(w, doc, i).value)
    ensures var strong := Lookup(doc, [ENTRIES, Index(i)] + [STRONG_SIDE]);
      strong.Some? && (strong.value.Tree? && strong.value.obj ==> IsDigested(w, doc, [ENTRIES, Index(i)] + [STRONG_SIDE]))
  {
    var e := [ENTRIES, Index(i)];
    if IsDictAt(doc, e + [STRONG_SIDE]) {
      assert StrongDerived(w, doc, i).value[0].0 == e + [STRONG_SIDE] + [SHA256];
    }
  }

  lemma EntryMeans(w: World, doc: Value, i: nat)
    requires EntryDerived(w, doc, i).Some? && AllHeld(doc, EntryDerived(w, doc, i).value)
    ensures IsCurrent(w, doc, i)
  {
    var ds, strong, status := EntryDerived(w, doc, i).value, StrongDerived(w, doc, i).value, StatusDerived(w, doc, i).value;
    forall j | 0 <= j < |strong| ensures Lookup(doc, strong[j].0) == Some(strong[j].1) {
      assert ds[1 + j] == strong[j];
    }
    forall j | 0 <= j < |status| ensures Lookup(doc, status[j].0) == Some(status[j].1) {
      assert ds[1 + |strong| + j] == status[j];
    }
    StrongMeans(w, doc, i);
    StatusMeans(w, doc, i);
    assert ds[0].0 == [ENTRIES, Index(i)] + [SHA256];
  }

  lemma {:induction false} EntriesMean(w: World, doc: Value, n: nat, i: nat)
    requires EntriesDerived(w, doc, n).Some? && AllHeld(doc, EntriesDerived(w, doc, n).value) && i < n
    ensures IsCurrent(w, doc, i)
    decreases n
  {
    var ds, before, last := EntriesDerived(w, doc, n).value, EntriesDerived(w, doc, n - 1).value, EntryDerived(w, doc, n - 1).value;
    forall j | 0 <= j < |before| ensures Lookup(doc, before[j].0) == Some(before[j].1) {
      assert ds[j] == before[j];
    }
    forall j | 0 <= j < |last| ensures Lookup(doc, last[j].0) == Some(last[j].1) {
      assert ds[|before| + j] == last[j];
    }
    if i == n - 1 {
      EntryMeans(w, doc, i);
    } else {
      EntriesMean(w, doc, n - 1, i);
    }
  }

  // ------------------------------------------------------------------- counts

  /** The number of entries that have the status, or that have another one. */
  ghost predicate Counts(doc: Value, status: Text, having: bool, n: nat) {
    exists s: set<nat> :: |s| == n && forall i: nat :: i in s <==> IsEntry(doc, i) && IsStatus(doc, i, status) == having
  }

  /** The entries are those below their number. */
  lemma EntryIff(doc: Value, i: nat)
    requires Shaped(doc) && EntryCount(doc).Some?
    ensures IsEntry(doc, i) <==> i < EntryCount(doc).value
  {
    IndexIff(doc, [ENTRIES], EntryCount(doc).value, i);
    assert [ENTRIES] + [Index(i)] == [ENTRIES, Index(i)];
  }

  lemma {:induction false} CountIs(w: World, doc: Value, n: nat, having: bool) returns (s: set<nat>)
    requires EntriesDerived(w, doc, n).Some?
    ensures ClassifiedCount(doc, n) <= n && |s| == if having then ClassifiedCount(doc, n) else n - ClassifiedCount(doc, n)
    ensures forall i: nat :: i in s <==> i < n && IsStatus(doc, i, CLASSIFIED) == having
  {
    s := {};
    if n > 0 {
      s := CountIs(w, doc, n - 1, having);
      assert EntryPath(n - 1) + [STATUS] == [ENTRIES, Index(n - 1), STATUS];
      if IsStatus(doc, n - 1, CLASSIFIED) == having {
        s := s + {n - 1};
      }
    }
  }

  ghost predicate AreCounted(w: World, doc: Value) {
    && Lookup(doc, [COUNTS, CANDIDATE_COUNT]) == Some(Int(w.candidates))
    && exists classified: nat, retired: nat ::
         && Counts(doc, CLASSIFIED, true, classified) && Lookup(doc, [COUNTS, CLASSIFIED_COUNT]) == Some(Int(classified))
         && Counts(doc, CLASSIFIED, false, retired) && Lookup(doc, [COUNTS, RETIRED_COUNT]) == Some(Int(retired))
  }

  lemma CountsMean(w: World, doc: Value, n: nat)
    requires Shaped(doc) && EntryCount(doc) == Some(n) && EntriesDerived(w, doc, n).Some? && AllHeld(doc, CountsDerived(w, doc, n))
    ensures AreCounted(w, doc)
  {
    var ds := CountsDerived(w, doc, n);
    var s := CountIs(w, doc, n, true);
    var t := CountIs(w, doc, n, false);
    forall i: nat ensures IsEntry(doc, i) <==> i < n {
      EntryIff(doc, i);
    }
    assert Lookup(doc, ds[0].0) == Some(ds[0].1) && Lookup(doc, ds[1].0) == Some(ds[1].1)
      && Lookup(doc, ds[2].0) == Some(ds[2].1);
    assert Counts(doc, CLASSIFIED, true, |s|) && Counts(doc, CLASSIFIED, false, |t|);
  }

  // ------------------------------------------------------------ the whole registry

  /** Every entry is current, the counts count the entries, and the digest is that of the entries. */
  ghost predicate IsCurrentRegistry(w: World, doc: Value) {
    && (forall i: nat | IsEntry(doc, i) :: IsCurrent(w, doc, i)) && AreCounted(w, doc)
    && Lookup(doc, [ENTRIES]).Some? && Lookup(doc, [ENTRIES_DIGEST]) == Some(Str(w.digest(Lookup(doc, [ENTRIES]).value)))
  }

  lemma FieldsMean(w: World, doc: Value)
    requires Shaped(doc) && FieldsDerived(w, doc).Some? && AllHeld(doc, FieldsDerived(w, doc).value)
    ensures (forall i: nat | IsEntry(doc, i) :: IsCurrent(w, doc, i)) && AreCounted(w, doc)
  {
    var n := EntryCount(doc).value;
    var ds, es, cs := FieldsDerived(w, doc).value, EntriesDerived(w, doc, n).value, CountsDerived(w, doc, n);
    forall j | 0 <= j < |es| ensures Lookup(doc, es[j].0) == Some(es[j].1) {
      assert ds[j] == es[j];
    }
    forall j | 0 <= j < |cs| ensures Lookup(doc, cs[j].0) == Some(cs[j].1) {
      assert ds[|es| + j] == cs[j];
    }
    forall i: nat | IsEntry(doc, i) ensures IsCurrent(w, doc, i) {
      EntryIff(doc, i);
      EntriesMean(w, doc, n, i);
    }
    CountsMean(w, doc, n);
  }

  /** A registry that derives what it holds already is current. */
  lemma HeldIsCurrent(w: World, doc: Value, ds: Derived)
    requires Shaped(doc) && Derive(w, doc) == Some(ds) && AllHeld(doc, ds)
    requires Apply(doc, FieldsDerived(w, doc).value) == Some(doc)
    ensures IsCurrentRegistry(w, doc)
  {
    var fs := FieldsDerived(w, doc).value;
    forall j | 0 <= j < |fs| ensures Lookup(doc, fs[j].0) == Some(fs[j].1) {
      assert ds[j] == fs[j];
    }
    FieldsMean(w, doc);
    assert ds[|fs|] == ([ENTRIES_DIGEST], Str(w.digest(Lookup(doc, [ENTRIES]).value)));
  }

  /** What is reviewed in an entry. */
  predicate IsReviewed(s: Step) {
    s == REPOSITORY || s == PATH || s == NAME || s == STATUS
  }

  lemma StatusValues()
    ensures Spells(Key(CLASSIFIED), "classified") && Spells(Key(DEFINED), "defined")
  {
  }

  /** A rewritten registry is current, and says what it said of where each entry is and how it was reviewed. */
  lemma RewrittenIsCurrent(text: Text, w: World, ds: Derived)
    requires IsWorld(w) && Rewritable(text, ds) && Derive(w, Load(text).value) == Some(ds)
    ensures IsDict(ds) && Load(Spliced(text, ds)).Some? && IsCurrentRegistry(w, Load(Spliced(text, ds)).value)
    ensures forall i: nat, s | IsReviewed(s) ::
      Lookup(Load(Spliced(text, ds)).value, [ENTRIES, Index(i), s]) == Lookup(Load(text).value, [ENTRIES, Index(i), s])
  {
    var doc := Load(text).value;
    var doc' := Updated(doc, ds);
    DerivePaths(w, doc);
    LoadedUnique(Parse(text).value);
    forall j | 0 <= j < |ds| ensures ScalarAt(doc, ds[j].0) {
      DerivedScalars(text, w, ds, j);
    }
    SplicedLoads(text, ds);
    LoadedShaped(Parse(Spliced(text, ds)).value);
    DeriveAgain(w, doc, ds);
    WrittenIsCurrent(w, doc, ds, doc');
    ReviewKept(doc, ds, doc');
  }

  lemma ReviewKept(doc: Value, ds: Derived, doc': Value)
    requires Written(doc, ds, doc')
    ensures forall i: nat, s | IsReviewed(s) :: Lookup(doc', [ENTRIES, Index(i), s]) == Lookup(doc, [ENTRIES, Index(i), s])
  {
    forall i: nat, s | IsReviewed(s) ensures Lookup(doc', [ENTRIES, Index(i), s]) == Lookup(doc, [ENTRIES, Index(i), s]) {
      ReadKept(doc, ds, doc', [ENTRIES, Index(i), s]);
    }
  }

  lemma WrittenIsCurrent(w: World, doc: Value, ds: Derived, doc': Value)
    requires Written(doc, ds, doc') && Shaped(doc') && Derive(w, doc) == Some(ds) && Derive(w, doc') == Some(ds)
    ensures IsCurrentRegistry(w, doc')
  {
    assert ds[..|ds|] == ds;
    forall j | 0 <= j < |ds| ensures Lookup(doc', ds[j].0) == Some(ds[j].1) {
      ScalarResolves(doc, ds[j].0);
      UpdatedResolves(doc, ds, |ds|, j);
    }
    FieldsAgain(w, doc, ds, doc');
    AppliedAgain(doc, FieldsDerived(w, doc).value, ds, doc');
    HeldIsCurrent(w, doc', ds);
  }
}
