/**
 The candidate audit (`audit_derivation` and `AuditTarget` of
 scripts/generate_namespace_writer_registry.py): a document that is derived anew from the source tree
 and keeps of the old one only the reviewed classifications and reasons. Deriving it from what was
 written gives the same document.
 */
module AuditDerivation {
  import opened Prelude
  import opened JsonSyntax
  import opened JsonRoundTrip
  import opened JsonValues
  import opened JsonDump
  import opened JsonTheorems
  import opened RegistryDiff
  import opened RegistryNames
  import opened RegistryOrder
  import opened RegistryTarget

  const AUDIT_KIND: Text := [114, 111, 111, 116, 108, 101, 115, 115, 45, 110, 97, 109, 101, 115, 112, 97, 99, 101, 45, 119,
    114, 105, 116, 101, 114, 45, 99, 97, 110, 100, 105, 100, 97, 116, 101, 45, 97, 117, 100, 105, 116]
  const AUDIT_TIER: Text := [115, 111, 117, 114, 99, 101]

  datatype Candidate = Candidate(repository: Text, path: Text)

  /**
   What the source tree gives: the candidates to be listed, in order, the digest, the mutation
   operators and the build anchor of each, the scope of a reviewed class, and the digest of a value.
   Nothing stands for what raises.
   */
  datatype World = World(
    expected: seq<Candidate>,
    sha: Candidate -> Option<Text>,
    operators: Candidate -> Option<Value>,
    anchor: Candidate -> Option<Value>,
    scope: Value -> Option<Value>,
    digest: Value -> Text)

  predicate Writable(v: Value) {
    Shaped(v) && HasTokens(v)
  }

  /** No candidate is listed twice. */
  predicate Distinct(cs: seq<Candidate>) {
    forall i, j | 0 <= i < j < |cs| :: cs[i] != cs[j]
  }

  ghost predicate IsWorld(w: World) {
    && Distinct(w.expected)
    && (forall i | 0 <= i < |w.expected| :: IsDumpable(w.expected[i].repository) && IsDumpable(w.expected[i].path))
    && (forall c :: w.sha(c).Some? ==> IsDumpable(w.sha(c).value))
    && (forall c :: w.operators(c).Some? ==> Writable(w.operators(c).value))
    && (forall c :: w.anchor(c).Some? ==> Writable(w.anchor(c).value))
    && (forall v :: w.scope(v).Some? ==> Writable(w.scope(v).value))
    && (forall v :: IsDumpable(w.digest(v)))
  }

  // ----------------------------------------------------------------- reviews

  /** What is kept of an entry of the old audit, under its repository and path. */
  datatype Review = Review(repository: Value, path: Value, classification: Value, reason: Value)

  function ReviewOf(entry: Value): Option<Review> {
    if !entry.Tree? || !entry.obj then None
    else
      var r, p := Find(entry.fields, REPOSITORY), Find(entry.fields, PATH);
      var c, why := Find(entry.fields, CLASSIFICATION), Find(entry.fields, REASON);
      if r.None? || p.None? || c.None? || why.None? || r.value.Tree? || p.value.Tree? then None
      else Some(Review(r.value, p.value, c.value, why.value))
  }

  predicate SameKey(a: Review, b: Review) {
    PyEq(a.repository, b.repository) && PyEq(a.path, b.path)
  }

  predicate IsReviewed(rs: seq<Review>, r: Review) {
    exists i | 0 <= i < |rs| :: SameKey(rs[i], r)
  }

  /** Reads on from `rs`; nothing when an entry lacks a field or repeats a key. */
  function ReadReviews(fs: Fields, rs: seq<Review>): Option<seq<Review>> {
    if fs.End? then Some(rs)
    else
      var r := ReviewOf(fs.value);
      if r.None? || IsReviewed(rs, r.value) then None else ReadReviews(fs.rest, rs + [r.value])
  }

  predicate IsFor(r: Review, c: Candidate) {
    r.repository == Str(c.repository) && r.path == Str(c.path)
  }

  function FindReview(rs: seq<Review>, c: Candidate): (r: Option<Review>)
    ensures r.Some? ==> r.value in rs && IsFor(r.value, c)
  {
    if rs == [] then None else if IsFor(rs[0], c) then Some(rs[0]) else FindReview(rs[1..], c)
  }

  // ----------------------------------------------------------------- entries

  predicate HasItem(fs: Fields, v: Value) {
    fs.Field? && (PyEq(fs.value, v) || HasItem(fs.rest, v))
  }

  /** Python's `path in reason`. */
  predicate Mentions(reason: Value, path: Text) {
    match reason
    case Str(s) => exists i | 0 <= i <= |s| :: At(s, i, path)
    case Tree(obj, fields) => if obj then Key(path) in Steps(fields) else HasItem(fields, Str(path))
    case _ => false
  }

  function Evidence(scope: Value, operators: Value, anchor: Value): Value {
    Tree(true, Field(RUNTIME_SCOPE, scope, Field(MUTATION_OPERATORS, operators, Field(BUILD_ANCHOR, anchor, End))))
  }

  function Entry(c: Candidate, sha: Text, classification: Value, reason: Value, evidence: Value): Value {
    Tree(true, Field(REPOSITORY, Str(c.repository), Field(PATH, Str(c.path), Field(SHA256, Str(sha),
      Field(CLASSIFICATION, classification, Field(REASON, reason, Field(EVIDENCE, evidence, End)))))))
  }

  /** The entry of a candidate under its review; nothing when a check or a file fails. */
  function EntryUnder(w: World, r: Review, c: Candidate): Option<Value> {
    var sha, operators, anchor, scope := w.sha(c), w.operators(c), w.anchor(c), w.scope(r.classification);
    if scope.None? || !Mentions(r.reason, c.path) || sha.None? || operators.None? || anchor.None? then None
    else Some(Entry(c, sha.value, r.classification, r.reason, Evidence(scope.value, operators.value, anchor.value)))
  }

  function EntryFor(w: World, rs: seq<Review>, c: Candidate): Option<Value> {
    var r := FindReview(rs, c);
    if r.None? then None else EntryUnder(w, r.value, c)
  }

  /** The entries of the first `n` candidates. */
  function EntriesFor(w: World, rs: seq<Review>, n: nat): (vs: Option<seq<Value>>)
    requires n <= |w.expected|
    ensures vs.Some? ==> |vs.value| == n
  {
    if n == 0 then Some([])
    else
      var vs, v := EntriesFor(w, rs, n - 1), EntryFor(w, rs, w.expected[n - 1]);
      if vs.None? || v.None? then None else Some(vs.value + [v.value])
  }

  function Items(vs: seq<Value>, k: nat): Fields
    requires k <= |vs|
    decreases |vs| - k
  {
    if k == |vs| then End else Field(Index(k), vs[k], Items(vs, k + 1))
  }

  /** The count, the digest and the list of the entries. */
  function ListFields(w: World, vs: seq<Value>): Fields {
    var entries := Tree(false, Items(vs, 0));
    Field(COUNT, Int(|vs|), Field(ENTRIES_DIGEST, Str(w.digest(entries)), Field(ENTRIES, entries, End)))
  }

  function Document(w: World, vs: seq<Value>): Value {
    Tree(true, Field(SCHEMA_VERSION, Int(1), Field(KIND, Str(AUDIT_KIND), Field(COVERAGE_TIER, Str(AUDIT_TIER),
      ListFields(w, vs)))))
  }

  /** The list of entries of an audit document. */
  function EntriesOf(audit: Value): Option<Fields> {
    if !audit.Tree? || !audit.obj then None
    else
      var entries := Find(audit.fields, ENTRIES);
      if entries.None? || !entries.value.Tree? || entries.value.obj then None else Some(entries.value.fields)
  }

  function AuditOf(w: World, audit: Value): Option<Value> {
    var entries := EntriesOf(audit);
    if entries.None? then None
    else
      var rs := ReadReviews(entries.value, []);
      if rs.None? then None
      else
        var vs := EntriesFor(w, rs.value, |w.expected|);
        if vs.None? then None else Some(Document(w, vs.value))
  }

  // ------------------------------------------------------------- the program

  method CollectReviews(entries: Fields) returns (r: Option<seq<Review>>)
    ensures r == ReadReviews(entries, [])
  {
    var fs, reviewed := entries, [];
    while fs.Field?
      invariant ReadReviews(entries, []) == ReadReviews(fs, reviewed)
      decreases fs
    {
      var review := ReviewOf(fs.value);
      if review.None? || IsReviewed(reviewed, review.value) {
        return None;
      }
      fs, reviewed := fs.rest, reviewed + [review.value];
    }
    r := Some(reviewed);
  }

  method DeriveAudit(w: World, audit: Value) returns (r: Option<Value>)
    ensures r == AuditOf(w, audit)
  {
    var before := EntriesOf(audit);
    if before.None? {
      return None;
    }
    var reviewed := CollectReviews(before.value);
    if reviewed.None? {
      return None;
    }
    var entries: seq<Value> := [];
    for i := 0 to |w.expected|
      invariant EntriesFor(w, reviewed.value, i) == Some(entries)
    {
      var entry := EntryFor(w, reviewed.value, w.expected[i]);
      if entry.None? {
        NoneBefore(w, reviewed.value, i + 1, |w.expected|);
        return None;
      }
      entries := entries + [entry.value];
    }
    r := Some(Document(w, entries));
  }

  lemma {:induction false} NoneBefore(w: World, rs: seq<Review>, i: nat, n: nat)
    requires i <= n <= |w.expected| && EntriesFor(w, rs, i).None?
    ensures EntriesFor(w, rs, n).None?
    decreases n
  {
    if i < n {
      NoneBefore(w, rs, i, n - 1);
    }
  }

  // ------------------------------------------------------------ derived again

  lemma {:induction false} EntryAt(w: World, rs: seq<Review>, n: nat, i: nat)
    requires i < n <= |w.expected| && EntriesFor(w, rs, n).Some?
    ensures EntryFor(w, rs, w.expected[i]) == Some(EntriesFor(w, rs, n).value[i])
  {
    if i < n - 1 {
      EntryAt(w, rs, n - 1, i);
    }
  }

  /** The review that an entry of the new audit carries on. */
  function Kept(c: Candidate, r: Review): Review {
    Review(Str(c.repository), Str(c.path), r.classification, r.reason)
  }

  lemma FindLater(s: Step, v: Value, rest: Fields, q: Step)
    requires s != q
    ensures Find(Field(s, v, rest), q) == Find(rest, q)
  {
  }

  lemma EntryNamesApart()
    ensures REPOSITORY != PATH && REPOSITORY != SHA256 && REPOSITORY != CLASSIFICATION && REPOSITORY != REASON
    ensures REPOSITORY != EVIDENCE && PATH != SHA256 && PATH != CLASSIFICATION && PATH != REASON && PATH != EVIDENCE
    ensures SHA256 != CLASSIFICATION && SHA256 != REASON && SHA256 != EVIDENCE
    ensures CLASSIFICATION != REASON && CLASSIFICATION != EVIDENCE && REASON != EVIDENCE
  {
    assert |REPOSITORY.name| == 10 && |PATH.name| == 4 && |SHA256.name| == 6 && |CLASSIFICATION.name| == 14;
    assert |REASON.name| == 6 && |EVIDENCE.name| == 8 && REASON.name[0] != SHA256.name[0];
  }

  lemma DocumentNamesApart()
    ensures SCHEMA_VERSION != KIND && SCHEMA_VERSION != COVERAGE_TIER && SCHEMA_VERSION != COUNT
    ensures SCHEMA_VERSION != ENTRIES_DIGEST && SCHEMA_VERSION != ENTRIES && KIND != COVERAGE_TIER && KIND != COUNT
    ensures KIND != ENTRIES_DIGEST && KIND != ENTRIES && COVERAGE_TIER != COUNT && COVERAGE_TIER != ENTRIES_DIGEST
    ensures COVERAGE_TIER != ENTRIES && COUNT != ENTRIES_DIGEST && COUNT != ENTRIES && ENTRIES_DIGEST != ENTRIES
  {
    assert |SCHEMA_VERSION.name| == 14 && |KIND.name| == 4 && |COVERAGE_TIER.name| == 13 && |COUNT.name| == 5;
    assert |ENTRIES_DIGEST.name| == 14 && |ENTRIES.name| == 7 && SCHEMA_VERSION.name[0] != ENTRIES_DIGEST.name[0];
  }

  lemma EntryReview(c: Candidate, sha: Text, classification: Value, reason: Value, evidence: Value)
    ensures ReviewOf(Entry(c, sha, classification, reason, evidence))
         == Some(Review(Str(c.repository), Str(c.path), classification, reason))
  {
    EntryNamesApart();
    var f5 := Field(REASON, reason, Field(EVIDENCE, evidence, End));
    var f4 := Field(CLASSIFICATION, classification, f5);
    var f3 := Field(SHA256, Str(sha), f4);
    var f2 := Field(PATH, Str(c.path), f3);
    FindLater(REPOSITORY, Str(c.repository), f2, PATH);
    FindLater(REPOSITORY, Str(c.repository), f2, CLASSIFICATION);
    FindLater(PATH, Str(c.path), f3, CLASSIFICATION);
    FindLater(SHA256, Str(sha), f4, CLASSIFICATION);
    FindLater(REPOSITORY, Str(c.repository), f2, REASON);
    FindLater(PATH, Str(c.path), f3, REASON);
    FindLater(SHA256, Str(sha), f4, REASON);
    FindLater(CLASSIFICATION, classification, f5, REASON);
  }

  lemma ReviewKept(w: World, r: Review, c: Candidate)
    requires EntryUnder(w, r, c).Some?
    ensures ReviewOf(EntryUnder(w, r, c).value) == Some(Kept(c, r))
  {
    var evidence := Evidence(w.scope(r.classification).value, w.operators(c).value, w.anchor(c).value);
    EntryReview(c, w.sha(c).value, r.classification, r.reason, evidence);
  }

  lemma DocumentEntries(w: World, vs: seq<Value>)
    ensures EntriesOf(Document(w, vs)) == Some(Items(vs, 0))
  {
    DocumentNamesApart();
    var entries := Tree(false, Items(vs, 0));
    var f5 := Field(ENTRIES_DIGEST, Str(w.digest(entries)), Field(ENTRIES, entries, End));
    var f4 := Field(COUNT, Int(|vs|), f5);
    var f3 := Field(COVERAGE_TIER, Str(AUDIT_TIER), f4);
    var f2 := Field(KIND, Str(AUDIT_KIND), f3);
    FindLater(SCHEMA_VERSION, Int(1), f2, ENTRIES);
    FindLater(KIND, Str(AUDIT_KIND), f3, ENTRIES);
    FindLater(COVERAGE_TIER, Str(AUDIT_TIER), f4, ENTRIES);
    FindLater(COUNT, Int(|vs|), f5, ENTRIES);
    FindLater(ENTRIES_DIGEST, Str(w.digest(entries)), Field(ENTRIES, entries, End), ENTRIES);
  }

  /** The reviews that the new entries carry on, for the first `n` candidates. */
  function KeptReviews(w: World, rs: seq<Review>, n: nat): (ks: seq<Review>)
    requires n <= |w.expected| && EntriesFor(w, rs, n).Some?
    ensures |ks| == n
  {
    if n == 0 then []
    else KeptReviews(w, rs, n - 1) + [Kept(w.expected[n - 1], FindReview(rs, w.expected[n - 1]).value)]
  }

  lemma {:induction false} KeptAt(w: World, rs: seq<Review>, n: nat, i: nat)
    requires i < n <= |w.expected| && EntriesFor(w, rs, n).Some?
    ensures FindReview(rs, w.expected[i]).Some?
    ensures KeptReviews(w, rs, n)[i] == Kept(w.expected[i], FindReview(rs, w.expected[i]).value)
  {
    if i < n - 1 {
      KeptAt(w, rs, n - 1, i);
    }
  }

  lemma KeptApart(a: Candidate, b: Candidate, r: Review, s: Review)
    requires a != b
    ensures !SameKey(Kept(a, r), Kept(b, s))
  {
  }

  lemma ReadNext(fs: Fields, rs: seq<Review>, r: Review)
    requires fs.Field? && ReviewOf(fs.value) == Some(r) && !IsReviewed(rs, r)
    ensures ReadReviews(fs, rs) == ReadReviews(fs.rest, rs + [r])
  {
  }

  lemma NextKept(w: World, rs: seq<Review>, vs: seq<Value>, k: nat) returns (r: Review)
    requires Distinct(w.expected) && k < |w.expected| && EntriesFor(w, rs, |w.expected|) == Some(vs)
    requires EntriesFor(w, rs, k).Some?
    ensures EntriesFor(w, rs, k + 1).Some? && KeptReviews(w, rs, k + 1) == KeptReviews(w, rs, k) + [r]
    ensures ReviewOf(vs[k]) == Some(r) && !IsReviewed(KeptReviews(w, rs, k), r)
  {
    var c := w.expected[k];
    EntryAt(w, rs, |w.expected|, k);
    ReviewKept(w, FindReview(rs, c).value, c);
    NotYetKept(w, rs, k, FindReview(rs, c).value);
    r := Kept(c, FindReview(rs, c).value);
  }

  /** Reading the new entries gives the reviews that were kept, and finds no key twice. */
  lemma {:induction false} NewReviews(w: World, rs: seq<Review>, vs: seq<Value>, k: nat)
    requires Distinct(w.expected) && k <= |w.expected| && EntriesFor(w, rs, |w.expected|) == Some(vs)
    requires EntriesFor(w, rs, k).Some?
    ensures ReadReviews(Items(vs, k), KeptReviews(w, rs, k)) == Some(KeptReviews(w, rs, |w.expected|))
    decreases |w.expected| - k
  {
    if k < |w.expected| {
      var r := NextKept(w, rs, vs, k);
      NewReviews(w, rs, vs, k + 1);
      ReadNext(Items(vs, k), KeptReviews(w, rs, k), r);
    }
  }

  lemma NotYetKept(w: World, rs: seq<Review>, k: nat, r: Review)
    requires Distinct(w.expected) && k < |w.expected| && EntriesFor(w, rs, k).Some?
    ensures !IsReviewed(KeptReviews(w, rs, k), Kept(w.expected[k], r))
  {
    forall i | 0 <= i < k ensures !SameKey(KeptReviews(w, rs, k)[i], Kept(w.expected[k], r)) {
      KeptAt(w, rs, k, i);
      KeptApart(w.expected[i], w.expected[k], FindReview(rs, w.expected[i]).value, r);
    }
  }

  lemma {:induction false} FindKept(ks: seq<Review>, c: Candidate, i: nat)
    requires i < |ks| && IsFor(ks[i], c) && forall j | 0 <= j < i :: !IsFor(ks[j], c)
    ensures FindReview(ks, c) == Some(ks[i])
  {
    if i > 0 {
      assert !IsFor(ks[0], c);
      FindKept(ks[1..], c, i - 1);
    }
  }

  lemma FindAgain(w: World, rs: seq<Review>, i: nat)
    requires Distinct(w.expected) && i < |w.expected| && EntriesFor(w, rs, |w.expected|).Some?
    ensures FindReview(rs, w.expected[i]).Some?
    ensures FindReview(KeptReviews(w, rs, |w.expected|), w.expected[i])
         == Some(Kept(w.expected[i], FindReview(rs, w.expected[i]).value))
  {
    var ks, c := KeptReviews(w, rs, |w.expected|), w.expected[i];
    forall j | 0 <= j < i ensures !IsFor(ks[j], c) {
      KeptAt(w, rs, |w.expected|, j);
      assert w.expected[j] != w.expected[i];
    }
    KeptAt(w, rs, |w.expected|, i);
    FindKept(ks, c, i);
  }

  lemma EntryAgain(w: World, r: Review, c: Candidate)
    ensures EntryUnder(w, Kept(c, r), c) == EntryUnder(w, r, c)
  {
  }

  lemma {:induction false} EntriesAgain(w: World, rs: seq<Review>, n: nat)
    requires Distinct(w.expected) && n <= |w.expected| && EntriesFor(w, rs, |w.expected|).Some? && EntriesFor(w, rs, n).Some?
    ensures EntriesFor(w, KeptReviews(w, rs, |w.expected|), n) == EntriesFor(w, rs, n)
  {
    if n > 0 {
      EntriesAgain(w, rs, n - 1);
      EntryForAgain(w, rs, n - 1);
    }
  }

  lemma EntryForAgain(w: World, rs: seq<Review>, i: nat)
    requires Distinct(w.expected) && i < |w.expected| && EntriesFor(w, rs, |w.expected|).Some?
    ensures EntryFor(w, KeptReviews(w, rs, |w.expected|), w.expected[i]) == EntryFor(w, rs, w.expected[i])
  {
    FindAgain(w, rs, i);
    EntryAgain(w, FindReview(rs, w.expected[i]).value, w.expected[i]);
  }

  /** The audit derived from a derived audit is that audit. */
  lemma AuditAgain(w: World, audit: Value, d: Value)
    requires IsWorld(w) && AuditOf(w, audit) == Some(d)
    ensures AuditOf(w, d) == Some(d)
  {
    var rs := ReadReviews(EntriesOf(audit).value, []).value;
    var vs := EntriesFor(w, rs, |w.expected|).value;
    DocumentEntries(w, vs);
    NewReviews(w, rs, vs, 0);
    EntriesAgain(w, rs, |w.expected|);
  }

  // -------------------------------------------------------------- the target

  /** Unlike a spliced registry, the audit is compared as a value only and always written anew. */
  function EvaluatedAudit(text: Text, w: World): Option<Evaluation> {
    var current := Load(text);
    if current.None? || AuditOf(w, current.value).None? then None
    else
      var d := AuditOf(w, current.value).value;
      Some(Evaluation(Diff(d, current.value, []), DumpText(d)))
  }

  method EvaluateAudit(text: Text, w: World) returns (r: Option<Evaluation>)
    ensures r == EvaluatedAudit(text, w)
  {
    var current := Load(text);
    if current.None? {
      return None;
    }
    var d := DeriveAudit(w, current.value);
    r := if d.None? then None else Some(Evaluation(Diff(d.value, current.value, []), DumpText(d.value)));
  }

  lemma ReviewWritable(entry: Value)
    requires Writable(entry) && ReviewOf(entry).Some?
    ensures Writable(ReviewOf(entry).value.classification) && Writable(ReviewOf(entry).value.reason)
  {
    FindTokens(true, entry.fields, CLASSIFICATION);
    FindTokens(true, entry.fields, REASON);
    FindShaped(entry.fields, CLASSIFICATION, 0);
    FindShaped(entry.fields, REASON, 0);
  }

  predicate AllWritable(rs: seq<Review>) {
    forall i | 0 <= i < |rs| :: Writable(rs[i].classification) && Writable(rs[i].reason)
  }

  lemma {:induction false} ReviewsWritable(fs: Fields, rs: seq<Review>, k: nat)
    requires ShapedFields(false, fs, k) && HaveTokens(false, fs) && AllWritable(rs) && ReadReviews(fs, rs).Some?
    ensures AllWritable(ReadReviews(fs, rs).value)
    decreases fs
  {
    if fs.Field? {
      ReviewWritable(fs.value);
      ReviewsWritable(fs.rest, rs + [ReviewOf(fs.value).value], k + 1);
    }
  }

  lemma PlainText(s: Text)
    requires forall k | 0 <= k < |s| :: 0 <= s[k] < 128
    ensures IsDumpable(s)
  {
  }

  predicate WritableFields(fs: Fields) {
    ShapedFields(true, fs, 0) && HaveTokens(true, fs)
  }

  lemma AddField(s: Step, v: Value, rest: Fields)
    requires s.Key? && IsDumpable(s.name) && Writable(v) && s !in Steps(rest) && WritableFields(rest)
    ensures WritableFields(Field(s, v, rest)) && Steps(Field(s, v, rest)) == {s} + Steps(rest)
  {
    NamesShaped(rest, 0, 1);
  }

  lemma ThreeFields(a: Step, b: Step, c: Step, x: Value, y: Value, z: Value, rest: Fields)
    requires a.Key? && IsDumpable(a.name) && b.Key? && IsDumpable(b.name) && c.Key? && IsDumpable(c.name)
    requires a != b && a != c && b != c && a !in Steps(rest) && b !in Steps(rest) && c !in Steps(rest)
    requires Writable(x) && Writable(y) && Writable(z) && WritableFields(rest)
    ensures WritableFields(Field(a, x, Field(b, y, Field(c, z, rest))))
    ensures Steps(Field(a, x, Field(b, y, Field(c, z, rest)))) == {a, b, c} + Steps(rest)
  {
    AddField(c, z, rest);
    AddField(b, y, Field(c, z, rest));
    AddField(a, x, Field(b, y, Field(c, z, rest)));
  }

  lemma EvidenceNames()
    ensures IsDumpable(RUNTIME_SCOPE.name) && IsDumpable(MUTATION_OPERATORS.name) && IsDumpable(BUILD_ANCHOR.name)
    ensures RUNTIME_SCOPE != MUTATION_OPERATORS && RUNTIME_SCOPE != BUILD_ANCHOR && MUTATION_OPERATORS != BUILD_ANCHOR
  {
    PlainText(RUNTIME_SCOPE.name);
    PlainText(MUTATION_OPERATORS.name);
    PlainText(BUILD_ANCHOR.name);
    assert |RUNTIME_SCOPE.name| == 13 && |MUTATION_OPERATORS.name| == 18 && |BUILD_ANCHOR.name| == 12;
  }

  lemma EvidenceWritable(scope: Value, operators: Value, anchor: Value)
    requires Writable(scope) && Writable(operators) && Writable(anchor)
    ensures Writable(Evidence(scope, operators, anchor))
  {
    EvidenceNames();
    ThreeFields(RUNTIME_SCOPE, MUTATION_OPERATORS, BUILD_ANCHOR, scope, operators, anchor, End);
  }

  lemma ReviewFieldsWritable(classification: Value, reason: Value, evidence: Value)
    requires Writable(classification) && Writable(reason) && Writable(evidence)
    ensures var fs := Field(CLASSIFICATION, classification, Field(REASON, reason, Field(EVIDENCE, evidence, End)));
      WritableFields(fs) && Steps(fs) == {CLASSIFICATION, REASON, EVIDENCE}
  {
    PlainText(CLASSIFICATION.name);
    PlainText(REASON.name);
    PlainText(EVIDENCE.name);
    EntryNamesApart();
    ThreeFields(CLASSIFICATION, REASON, EVIDENCE, classification, reason, evidence, End);
  }

  lemma EntryWritable(c: Candidate, sha: Text, classification: Value, reason: Value, evidence: Value)
    requires IsDumpable(c.repository) && IsDumpable(c.path) && IsDumpable(sha)
    requires Writable(classification) && Writable(reason) && Writable(evidence)
    ensures Writable(Entry(c, sha, classification, reason, evidence))
  {
    PlainText(REPOSITORY.name);
    PlainText(PATH.name);
    PlainText(SHA256.name);
    EntryNamesApart();
    var fs := Field(CLASSIFICATION, classification, Field(REASON, reason, Field(EVIDENCE, evidence, End)));
    ReviewFieldsWritable(classification, reason, evidence);
    ThreeFields(REPOSITORY, PATH, SHA256, Str(c.repository), Str(c.path), Str(sha), fs);
  }

  lemma {:induction false} ItemsWritable(vs: seq<Value>, k: nat)
    requires k <= |vs| && forall i | 0 <= i < |vs| :: Writable(vs[i])
    ensures ShapedFields(false, Items(vs, k), k) && HaveTokens(false, Items(vs, k))
    decreases |vs| - k
  {
    if k < |vs| {
      ItemsWritable(vs, k + 1);
      LaterPositions(Items(vs, k + 1), k + 1, Index(k));
    }
  }

  lemma ListWritable(w: World, vs: seq<Value>)
    requires IsWorld(w) && forall i | 0 <= i < |vs| :: Writable(vs[i])
    ensures WritableFields(ListFields(w, vs)) && Steps(ListFields(w, vs)) == {COUNT, ENTRIES_DIGEST, ENTRIES}
  {
    PlainText(COUNT.name);
    PlainText(ENTRIES_DIGEST.name);
    PlainText(ENTRIES.name);
    DocumentNamesApart();
    ItemsWritable(vs, 0);
    var entries := Tree(false, Items(vs, 0));
    ThreeFields(COUNT, ENTRIES_DIGEST, ENTRIES, Int(|vs|), Str(w.digest(entries)), entries, End);
  }

  lemma HeadTexts()
    ensures IsDumpable(SCHEMA_VERSION.name) && IsDumpable(KIND.name) && IsDumpable(COVERAGE_TIER.name)
    ensures IsDumpable(AUDIT_KIND) && IsDumpable(AUDIT_TIER)
  {
    PlainText(SCHEMA_VERSION.name);
    PlainText(KIND.name);
    PlainText(COVERAGE_TIER.name);
    PlainText(AUDIT_KIND);
    PlainText(AUDIT_TIER);
  }

  lemma DocumentWritable(w: World, vs: seq<Value>)
    requires IsWorld(w) && forall i | 0 <= i < |vs| :: Writable(vs[i])
    ensures Writable(Document(w, vs))
  {
    HeadTexts();
    DocumentNamesApart();
    ListWritable(w, vs);
    ThreeFields(SCHEMA_VERSION, KIND, COVERAGE_TIER, Int(1), Str(AUDIT_KIND), Str(AUDIT_TIER), ListFields(w, vs));
  }

  lemma AuditWritable(w: World, audit: Value, d: Value)
    requires IsWorld(w) && Writable(audit) && AuditOf(w, audit) == Some(d)
    ensures Writable(d)
  {
    FindShaped(audit.fields, ENTRIES, 0);
    FindTokens(true, audit.fields, ENTRIES);
    ReviewsWritable(EntriesOf(audit).value, [], 0);
    var rs := ReadReviews(EntriesOf(audit).value, []).value;
    var vs := EntriesFor(w, rs, |w.expected|).value;
    forall i | 0 <= i < |vs| ensures Writable(vs[i]) {
      EntryAt(w, rs, |w.expected|, i);
      var c := w.expected[i];
      var r := FindReview(rs, c).value;
      EvidenceWritable(w.scope(r.classification).value, w.operators(c).value, w.anchor(c).value);
      EntryWritable(c, w.sha(c).value, r.classification, r.reason,
                    Evidence(w.scope(r.classification).value, w.operators(c).value, w.anchor(c).value));
    }
    DocumentWritable(w, vs);
  }

  /** After the audit is written, the check passes and writing it again changes nothing. */
  lemma AuditFixedPoint(text: Text, w: World)
    requires IsWorld(w) && IsDecoded(text) && EvaluatedAudit(text, w).Some?
    ensures var rendered := EvaluatedAudit(text, w).value.rendered;
      EvaluatedAudit(rendered, w) == Some(Evaluation([], rendered))
  {
    var audit := Load(text).value;
    var d := AuditOf(w, audit).value;
    LoadedShaped(Parse(text).value);
    LoadedTokens(text);
    AuditWritable(w, audit, d);
    DumpLoads(d);
    AuditAgain(w, audit, d);
    DiffSelf(d);
  }

  /**
   When the check passes, and when writing would leave the text alone: the second asks for the layout
   that writing gives, which the first does not.
   */
  lemma AuditCheckIff(text: Text, w: World)
    requires IsWorld(w) && IsDecoded(text) && EvaluatedAudit(text, w).Some?
    ensures var e, doc := EvaluatedAudit(text, w).value, Load(text).value;
      && (e.moved == [] <==> PyEq(AuditOf(w, doc).value, doc) && SameOrder(AuditOf(w, doc).value, doc))
      && (e.rendered == text <==> AuditOf(w, doc) == Some(doc) && text == DumpText(doc))
  {
    var doc := Load(text).value;
    var d := AuditOf(w, doc).value;
    LoadedShaped(Parse(text).value);
    LoadedTokens(text);
    AuditWritable(w, doc, d);
    DiffEmptyIff(d, doc, []);
    DumpLoads(d);
  }

  /** Exactly the texts that both checking and writing leave alone. */
  lemma AuditCurrentIff(text: Text, w: World)
    requires IsWorld(w) && IsDecoded(text) && Load(text).Some?
    ensures EvaluatedAudit(text, w) == Some(Evaluation([], text)) <==>
      AuditOf(w, Load(text).value) == Some(Load(text).value) && text == DumpText(Load(text).value)
  {
    if EvaluatedAudit(text, w).Some? {
      AuditCheckIff(text, w);
      LoadedShaped(Parse(text).value);
      DiffSelf(Load(text).value);
    }
  }

  /** The layout is not checked: the check also passes for a text that writing would change. */
  lemma LayoutIsNotChecked(text: Text, w: World)
    requires EvaluatedAudit(text, w) == Some(Evaluation([], text))
    ensures EvaluatedAudit([10] + text, w) == Some(Evaluation([], text)) && text != [10] + text
  {
    BreakFirst(text);
  }

  lemma BreakFirst(text: Text)
    requires Load(text).Some?
    ensures Load([10] + text) == Load(text)
  {
    var pre, post := ParseIsPrint(text);
    Regroup([10], pre, Print(Parse(text).value), post);
    MoreBlank(pre);
    ParsePrint([10] + pre, Parse(text).value, post);
  }

  lemma Regroup(a: Text, b: Text, c: Text, d: Text)
    ensures (a + b) + c + d == a + (b + c + d)
  {
  }

  lemma MoreBlank(t: Text)
    requires IsBlank(t)
    ensures IsBlank([10] + t)
  {
  }
}
