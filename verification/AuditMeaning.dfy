/**
 What the candidate audit says and when it can be derived (`audit_derivation` of
 scripts/generate_namespace_writer_registry.py): one entry for each candidate of the source tree, with
 what the tree says of it and with the one review that the audit had for it.
 */
module AuditMeaning {
  import opened Prelude
  import opened JsonSyntax
  import opened JsonValues
  import opened RegistryDiff
  import opened RegistryLists
  import opened RegistryNames
  import opened AuditDerivation

  // ------------------------------------------------------- the fields of a value

  function FieldList(fs: Fields): seq<(Step, Value)> {
    if fs.End? then [] else [(fs.step, fs.value)] + FieldList(fs.rest)
  }

  /** A dictionary with these names in this order. */
  predicate IsDictOf(v: Value, pairs: seq<(Step, Value)>) {
    v.Tree? && v.obj && FieldList(v.fields) == pairs
  }

  predicate IsListOf(v: Value, vs: seq<Value>) {
    v.Tree? && !v.obj && |FieldList(v.fields)| == |vs| && forall i | 0 <= i < |vs| :: FieldList(v.fields)[i] == (Index(i), vs[i])
  }

  // ------------------------------------------------------------------ the reviews

  /** An entry that can be read: a dictionary with the four reviewed fields, of which two make its key. */
  predicate IsReadable(audit: Value, k: nat) {
    && Lookup(audit, [ENTRIES, Index(k)]).Some?
    && var e := Lookup(audit, [ENTRIES, Index(k)]).value;
       && e.Tree? && e.obj && Find(e.fields, REPOSITORY).Some? && Find(e.fields, PATH).Some?
       && Find(e.fields, CLASSIFICATION).Some? && Find(e.fields, REASON).Some?
       && !Find(e.fields, REPOSITORY).value.Tree? && !Find(e.fields, PATH).value.Tree?
  }

  function FieldOf(audit: Value, k: nat, s: Step): Option<Value> {
    var e := Lookup(audit, [ENTRIES, Index(k)]);
    if e.None? || !e.value.Tree? then None else Find(e.value.fields, s)
  }

  /** Two entries are for the same file. */
  predicate SameFile(audit: Value, j: nat, k: nat) {
    && FieldOf(audit, j, REPOSITORY).Some? && FieldOf(audit, k, REPOSITORY).Some?
    && FieldOf(audit, j, PATH).Some? && FieldOf(audit, k, PATH).Some?
    && PyEq(FieldOf(audit, j, REPOSITORY).value, FieldOf(audit, k, REPOSITORY).value)
    && PyEq(FieldOf(audit, j, PATH).value, FieldOf(audit, k, PATH).value)
  }

  /** An audit whose entries can all be read, no two of them for the same file. */
  ghost predicate AreReviews(audit: Value) {
    && audit.Tree? && audit.obj && Find(audit.fields, ENTRIES).Some?
    && Find(audit.fields, ENTRIES).value.Tree? && !Find(audit.fields, ENTRIES).value.obj
    && (forall k: nat | IsAt(audit, [ENTRIES, Index(k)]) :: IsReadable(audit, k))
    && forall j: nat, k: nat | IsAt(audit, [ENTRIES, Index(j)]) && IsAt(audit, [ENTRIES, Index(k)]) && j < k ::
         !SameFile(audit, j, k)
  }

  /** The entry reviews the candidate. */
  predicate IsReviewOf(audit: Value, k: nat, c: Candidate) {
    FieldOf(audit, k, REPOSITORY) == Some(Str(c.repository)) && FieldOf(audit, k, PATH) == Some(Str(c.path))
  }

  /** The review names a known class and the path, and the tree has all that is said of the file. */
  predicate IsAccepted(w: World, audit: Value, k: nat, c: Candidate) {
    && IsReviewOf(audit, k, c) && FieldOf(audit, k, CLASSIFICATION).Some? && FieldOf(audit, k, REASON).Some?
    && w.scope(FieldOf(audit, k, CLASSIFICATION).value).Some? && Mentions(FieldOf(audit, k, REASON).value, c.path)
    && w.sha(c).Some? && w.operators(c).Some? && w.anchor(c).Some?
  }

  /** What an entry of the new audit says. */
  ghost predicate IsEntryFor(w: World, audit: Value, k: nat, c: Candidate, v: Value) {
    && IsAccepted(w, audit, k, c)
    && exists evidence ::
         && IsDictOf(v, [(REPOSITORY, Str(c.repository)), (PATH, Str(c.path)), (SHA256, Str(w.sha(c).value)),
              (CLASSIFICATION, FieldOf(audit, k, CLASSIFICATION).value), (REASON, FieldOf(audit, k, REASON).value),
              (EVIDENCE, evidence)])
         && IsDictOf(evidence, [(RUNTIME_SCOPE, w.scope(FieldOf(audit, k, CLASSIFICATION).value).value),
              (MUTATION_OPERATORS, w.operators(c).value), (BUILD_ANCHOR, w.anchor(c).value)])
  }

  /** The entry carries on one of the reviews. */
  ghost predicate CarriesOn(w: World, audit: Value, c: Candidate, v: Value) {
    exists k: nat :: IsEntryFor(w, audit, k, c, v)
  }

  /** Each candidate has its entry, in their order. */
  ghost predicate AreEntriesFor(w: World, audit: Value, vs: seq<Value>) {
    |vs| == |w.expected| && forall i | 0 <= i < |vs| :: CarriesOn(w, audit, w.expected[i], vs[i])
  }

  /** The head of the audit, the number of entries, their digest and their list. */
  predicate IsDocument(w: World, d: Value, count: nat, list: Value) {
    IsDictOf(d, [(SCHEMA_VERSION, Int(1)), (KIND, Str(AUDIT_KIND)), (COVERAGE_TIER, Str(AUDIT_TIER)), (COUNT, Int(count)),
      (ENTRIES_DIGEST, Str(w.digest(list))), (ENTRIES, list)])
  }

  /** What the new audit says, with its list of entries. */
  ghost predicate SaysAll(w: World, audit: Value, d: Value, list: Value, vs: seq<Value>) {
    IsListOf(list, vs) && AreEntriesFor(w, audit, vs) && IsDocument(w, d, |w.expected|, list)
  }

  // ------------------------------------------------------- what reading reviews gives

  /** The review is what the entry says. */
  predicate Says(audit: Value, k: nat, r: Review) {
    && IsReadable(audit, k) && FieldOf(audit, k, REPOSITORY) == Some(r.repository) && FieldOf(audit, k, PATH) == Some(r.path)
    && FieldOf(audit, k, CLASSIFICATION) == Some(r.classification) && FieldOf(audit, k, REASON) == Some(r.reason)
  }

  lemma ReviewIff(audit: Value, k: nat, r: Review)
    requires IsAt(audit, [ENTRIES, Index(k)])
    ensures ReviewOf(Lookup(audit, [ENTRIES, Index(k)]).value) == Some(r) <==> Says(audit, k, r)
    ensures ReviewOf(Lookup(audit, [ENTRIES, Index(k)]).value).Some? <==> IsReadable(audit, k)
  {
  }

  /** The entries from `k` on, as the loop goes through them. */
  ghost predicate IsRest(audit: Value, fs: Fields, k: nat) {
    forall i: nat | k <= i :: Find(fs, Index(i)) == Lookup(audit, [ENTRIES, Index(i)])
  }

  lemma RestNext(audit: Value, fs: Fields, k: nat)
    requires ShapedFields(false, fs, k) && IsRest(audit, fs, k) && fs.Field?
    ensures Lookup(audit, [ENTRIES, Index(k)]) == Some(fs.value) && IsRest(audit, fs.rest, k + 1)
  {
    assert Find(fs, Index(k)) == Some(fs.value);
    forall i: nat | k + 1 <= i ensures Find(fs.rest, Index(i)) == Lookup(audit, [ENTRIES, Index(i)]) {
      assert Find(fs, Index(i)) == Find(fs.rest, Index(i));
    }
  }

  /** The reviews of the first entries, all different. */
  ghost predicate AreRead(audit: Value, rs: seq<Review>) {
    && (forall k: nat | k < |rs| :: Says(audit, k, rs[k]))
    && forall j: nat, k: nat | j < k < |rs| :: !SameFile(audit, j, k)
  }

  lemma ReadOne(audit: Value, rs: seq<Review>, r: Review)
    requires AreRead(audit, rs) && Says(audit, |rs|, r)
    ensures AreRead(audit, rs + [r]) <==> !AuditDerivation.IsReviewed(rs, r)
  {
    var k := |rs|;
    forall j: nat | j < k ensures SameFile(audit, j, k) <==> SameKey(rs[j], r) {
      assert Says(audit, j, rs[j]);
    }
    if AreRead(audit, rs + [r]) {
      forall j: nat | j < k ensures !SameKey(rs[j], r) {
        assert !SameFile(audit, j, k);
      }
    }
    if !AuditDerivation.IsReviewed(rs, r) {
      var all := rs + [r];
      forall i: nat | i < |all| ensures Says(audit, i, all[i]) {
        assert i < k ==> all[i] == rs[i];
      }
      forall i: nat, j: nat | i < j < |all| ensures !SameFile(audit, i, j) {
        assert j == k ==> !SameKey(rs[i], r);
      }
    }
  }

  /** The entry at `k` cannot be read, or repeats the one at `j`. */
  predicate IsFault(audit: Value, j: nat, k: nat) {
    !IsReadable(audit, k) || (j < k && SameFile(audit, j, k))
  }

  /** Reading on from the reviews of the entries before `fs`. */
  lemma {:induction false} ReadOn(audit: Value, fs: Fields, rs: seq<Review>)
    requires ShapedFields(false, fs, |rs|) && IsRest(audit, fs, |rs|) && AreRead(audit, rs)
    ensures ReadReviews(fs, rs).Some? ==>
      AreRead(audit, ReadReviews(fs, rs).value) && |ReadReviews(fs, rs).value| == |rs| + |StepList(fs)|
    ensures ReadReviews(fs, rs).None? ==> exists j: nat, k: nat :: k < |rs| + |StepList(fs)| && IsFault(audit, j, k)
    decreases fs
  {
    if fs.Field? {
      var k := |rs|;
      RestNext(audit, fs, k);
      var r := ReviewOf(fs.value);
      if r.None? {
        ReviewIff(audit, k, Review(Null, Null, Null, Null));
        assert IsFault(audit, 0, k);
      } else {
        ReviewIff(audit, k, r.value);
        ReadOne(audit, rs, r.value);
        if AuditDerivation.IsReviewed(rs, r.value) {
          Repeated(audit, rs, r.value);
        } else {
          ReadOn(audit, fs.rest, rs + [r.value]);
        }
      }
    }
  }

  lemma Repeated(audit: Value, rs: seq<Review>, r: Review)
    requires AreRead(audit, rs) && Says(audit, |rs|, r) && AuditDerivation.IsReviewed(rs, r)
    ensures exists j: nat :: IsFault(audit, j, |rs|)
  {
    var j: nat :| j < |rs| && SameKey(rs[j], r);
    assert Says(audit, j, rs[j]) && IsFault(audit, j, |rs|);
  }

  lemma EntriesAre(audit: Value, fs: Fields)
    requires Shaped(audit) && EntriesOf(audit) == Some(fs)
    ensures ShapedFields(false, fs, 0) && IsRest(audit, fs, 0)
    ensures forall k: nat :: IsAt(audit, [ENTRIES, Index(k)]) <==> k < |StepList(fs)|
  {
    var entries := Find(audit.fields, ENTRIES).value;
    var p := [ENTRIES];
    assert p[1..] == [] && Lookup(audit, p) == Some(entries);
    ShapedBelow(audit, p);
    forall i: nat ensures Find(fs, Index(i)) == Lookup(audit, [ENTRIES, Index(i)]) {
      OneMoreStep(audit, p, Index(i));
      var q := [Index(i)];
      assert p + q == [ENTRIES, Index(i)] && q[1..] == [];
    }
    forall k: nat ensures IsAt(audit, [ENTRIES, Index(k)]) <==> k < |StepList(fs)| {
      ListAt(fs, 0, k);
    }
  }

  /** The reviews can be read exactly when every entry can and no file is reviewed twice. */
  lemma ReviewsIff(audit: Value)
    requires Shaped(audit)
    ensures AreReviews(audit) <==> EntriesOf(audit).Some? && ReadReviews(EntriesOf(audit).value, []).Some?
  {
    if EntriesOf(audit).Some? {
      var fs := EntriesOf(audit).value;
      EntriesAre(audit, fs);
      ReadOn(audit, fs, []);
      if ReadReviews(fs, []).Some? {
        var rs := ReadReviews(fs, []).value;
        forall k: nat | IsAt(audit, [ENTRIES, Index(k)]) ensures IsReadable(audit, k) {
          assert Says(audit, k, rs[k]);
        }
      }
    }
  }

  // ------------------------------------------------------------- one entry, all entries

  lemma {:induction false} FoundReview(rs: seq<Review>, c: Candidate)
    ensures FindReview(rs, c).Some? <==> exists k | 0 <= k < |rs| :: IsFor(rs[k], c)
    ensures FindReview(rs, c).Some? ==> exists k | 0 <= k < |rs| :: rs[k] == FindReview(rs, c).value && IsFor(rs[k], c)
  {
    if rs != [] && !IsFor(rs[0], c) {
      FoundReview(rs[1..], c);
      if k :| 0 <= k < |rs| && IsFor(rs[k], c) {
        assert rs[1..][k - 1] == rs[k];
      }
      if FindReview(rs[1..], c).Some? {
        var k :| 0 <= k < |rs[1..]| && rs[1..][k] == FindReview(rs[1..], c).value && IsFor(rs[1..][k], c);
        assert rs[k + 1] == rs[1..][k];
      }
    }
  }

  /** All reviews of the audit are read. */
  ghost predicate IsWhole(audit: Value, rs: seq<Review>) {
    AreRead(audit, rs) && forall k: nat :: IsAt(audit, [ENTRIES, Index(k)]) <==> k < |rs|
  }

  lemma EntryUnderSays(w: World, audit: Value, k: nat, r: Review, c: Candidate)
    requires Says(audit, k, r) && IsFor(r, c)
    ensures EntryUnder(w, r, c).Some? <==> IsAccepted(w, audit, k, c)
    ensures EntryUnder(w, r, c).Some? ==> IsEntryFor(w, audit, k, c, EntryUnder(w, r, c).value)
  {
    if EntryUnder(w, r, c).Some? {
      var evidence := Evidence(w.scope(r.classification).value, w.operators(c).value, w.anchor(c).value);
      EvidenceFields(w.scope(r.classification).value, w.operators(c).value, w.anchor(c).value);
      EntryFields(c, w.sha(c).value, r.classification, r.reason, evidence);
    }
  }

  lemma EvidenceFields(scope: Value, operators: Value, anchor: Value)
    ensures IsDictOf(Evidence(scope, operators, anchor),
      [(RUNTIME_SCOPE, scope), (MUTATION_OPERATORS, operators), (BUILD_ANCHOR, anchor)])
  {
    ThreePairs((RUNTIME_SCOPE, scope), (MUTATION_OPERATORS, operators), (BUILD_ANCHOR, anchor), End);
  }

  lemma ThreePairs(a: (Step, Value), b: (Step, Value), c: (Step, Value), rest: Fields)
    ensures FieldList(Field(a.0, a.1, Field(b.0, b.1, Field(c.0, c.1, rest)))) == [a, b, c] + FieldList(rest)
  {
    var z := FieldList(rest);
    assert FieldList(Field(c.0, c.1, rest)) == [c] + z;
    assert FieldList(Field(b.0, b.1, Field(c.0, c.1, rest))) == [b] + ([c] + z);
    assert [a] + ([b] + ([c] + z)) == [a, b, c] + z;
  }

  lemma EntryFields(c: Candidate, sha: Text, classification: Value, reason: Value, evidence: Value)
    ensures IsDictOf(Entry(c, sha, classification, reason, evidence),
      [(REPOSITORY, Str(c.repository)), (PATH, Str(c.path)), (SHA256, Str(sha)), (CLASSIFICATION, classification),
       (REASON, reason), (EVIDENCE, evidence)])
  {
    SixPairs((REPOSITORY, Str(c.repository)), (PATH, Str(c.path)), (SHA256, Str(sha)), (CLASSIFICATION, classification),
      (REASON, reason), (EVIDENCE, evidence));
  }

  /** A candidate has an entry exactly when some review of it is accepted. */
  lemma EntryIff(w: World, audit: Value, rs: seq<Review>, c: Candidate)
    requires IsWhole(audit, rs)
    ensures EntryFor(w, rs, c).Some? <==> exists k: nat :: IsAt(audit, [ENTRIES, Index(k)]) && IsAccepted(w, audit, k, c)
    ensures EntryFor(w, rs, c).Some? ==> CarriesOn(w, audit, c, EntryFor(w, rs, c).value)
  {
    FoundReview(rs, c);
    if FindReview(rs, c).Some? {
      var k: nat :| k < |rs| && rs[k] == FindReview(rs, c).value && IsFor(rs[k], c);
      EntryUnderSays(w, audit, k, rs[k], c);
      if j: nat :| IsAt(audit, [ENTRIES, Index(j)]) && IsAccepted(w, audit, j, c) {
        SameReview(audit, rs, c, j, k);
      }
    } else if j: nat :| IsAt(audit, [ENTRIES, Index(j)]) && IsAccepted(w, audit, j, c) {
      assert Says(audit, j, rs[j]) && IsFor(rs[j], c);
    }
  }

  lemma SameReview(audit: Value, rs: seq<Review>, c: Candidate, j: nat, k: nat)
    requires IsWhole(audit, rs) && j < |rs| && k < |rs| && IsReviewOf(audit, j, c) && IsReviewOf(audit, k, c)
    ensures j == k
  {
    assert PyEq(Str(c.repository), Str(c.repository)) && PyEq(Str(c.path), Str(c.path));
    assert SameFile(audit, j, k) && SameFile(audit, k, j);
  }

  lemma {:induction false} EntriesIff(w: World, rs: seq<Review>, n: nat)
    requires n <= |w.expected|
    ensures EntriesFor(w, rs, n).Some? <==> forall i | 0 <= i < n :: EntryFor(w, rs, w.expected[i]).Some?
  {
    if n > 0 {
      EntriesIff(w, rs, n - 1);
    }
  }

  // ------------------------------------------------------------------ the document

  lemma {:induction false} ItemsAre(vs: seq<Value>, k: nat)
    requires k <= |vs|
    ensures |FieldList(Items(vs, k))| == |vs| - k
    ensures forall i | k <= i < |vs| :: FieldList(Items(vs, k))[i - k] == (Index(i), vs[i])
    decreases |vs| - k
  {
    if k < |vs| {
      ItemsAre(vs, k + 1);
    }
  }

  lemma ItemsAreList(vs: seq<Value>)
    ensures IsListOf(Tree(false, Items(vs, 0)), vs)
  {
    ItemsAre(vs, 0);
  }

  lemma SixPairs(a: (Step, Value), b: (Step, Value), c: (Step, Value), d: (Step, Value), e: (Step, Value), f: (Step, Value))
    ensures FieldList(Field(a.0, a.1, Field(b.0, b.1, Field(c.0, c.1, Field(d.0, d.1, Field(e.0, e.1, Field(f.0, f.1, End)))))))
         == [a, b, c, d, e, f]
  {
    ThreePairs(d, e, f, End);
    ThreePairs(a, b, c, Field(d.0, d.1, Field(e.0, e.1, Field(f.0, f.1, End))));
  }

  lemma DocumentFields(w: World, vs: seq<Value>, list: Value)
    requires list == Tree(false, Items(vs, 0))
    ensures IsDocument(w, Document(w, vs), |vs|, list)
  {
    SixPairs((SCHEMA_VERSION, Int(1)), (KIND, Str(AUDIT_KIND)), (COVERAGE_TIER, Str(AUDIT_TIER)), (COUNT, Int(|vs|)),
      (ENTRIES_DIGEST, Str(w.digest(list))), (ENTRIES, list));
  }

  lemma WholeIs(audit: Value, fs: Fields)
    requires Shaped(audit) && EntriesOf(audit) == Some(fs) && ReadReviews(fs, []).Some?
    ensures IsWhole(audit, ReadReviews(fs, []).value)
  {
    EntriesAre(audit, fs);
    ReadOn(audit, fs, []);
  }

  /** Every candidate has an accepted review. */
  ghost predicate AllAccepted(w: World, audit: Value) {
    forall i | 0 <= i < |w.expected| ::
      exists k: nat :: IsAt(audit, [ENTRIES, Index(k)]) && IsAccepted(w, audit, k, w.expected[i])
  }

  /** The audit can be derived exactly when its reviews can be read and every candidate has one that is accepted. */
  lemma AuditIff(w: World, audit: Value)
    requires Shaped(audit)
    ensures AuditOf(w, audit).Some? <==> AreReviews(audit) && AllAccepted(w, audit)
  {
    ReviewsIff(audit);
    if AreReviews(audit) {
      var fs := EntriesOf(audit).value;
      var rs := ReadReviews(fs, []).value;
      WholeIs(audit, fs);
      EntriesIff(w, rs, |w.expected|);
      forall i | 0 <= i < |w.expected|
        ensures EntryFor(w, rs, w.expected[i]).Some? <==>
          exists k: nat :: IsAt(audit, [ENTRIES, Index(k)]) && IsAccepted(w, audit, k, w.expected[i])
      {
        EntryIff(w, audit, rs, w.expected[i]);
      }
    }
  }

  lemma EntriesSay(w: World, audit: Value, rs: seq<Review>, vs: seq<Value>)
    requires IsWhole(audit, rs) && EntriesFor(w, rs, |w.expected|) == Some(vs)
    ensures AreEntriesFor(w, audit, vs)
  {
    forall i | 0 <= i < |vs| ensures CarriesOn(w, audit, w.expected[i], vs[i]) {
      EntryAt(w, rs, |w.expected|, i);
      EntryIff(w, audit, rs, w.expected[i]);
    }
  }

  /** The derived audit says what the tree and the reviews say. */
  lemma AuditSays(w: World, audit: Value, d: Value) returns (list: Value, vs: seq<Value>)
    requires Shaped(audit) && AuditOf(w, audit) == Some(d)
    ensures SaysAll(w, audit, d, list, vs)
  {
    var fs := EntriesOf(audit).value;
    var rs := ReadReviews(fs, []).value;
    vs := EntriesFor(w, rs, |w.expected|).value;
    list := Tree(false, Items(vs, 0));
    WholeIs(audit, fs);
    EntriesSay(w, audit, rs, vs);
    ItemsAreList(vs);
    DocumentFields(w, vs, list);
  }

  lemma AuditValues()
    ensures Spells(Key(AUDIT_KIND), "rootless-namespace-writer-candidate-audit") && Spells(Key(AUDIT_TIER), "source")
  {
  }
}
