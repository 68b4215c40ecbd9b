/**
 What a splice means: loading the spliced text gives the document with the derived values assigned
 into it (`_apply` of scripts/generate_namespace_writer_registry.py), and exactly when it does.
 */
module JsonMeaning {
  import opened JsonSyntax
  import opened JsonValues
  import opened JsonScanner
  import opened JsonReplace

  // ------------------------------------------------------------ live leaves

  function KidSteps(ks: Kids, k: nat): set<Step> {
    if ks.Nil? then {} else {HeadStep(ks.head, k)} + KidSteps(ks.rest, k + 1)
  }

  /** The spans of the leaves that loading keeps: a repeated name loses all but its last entry. */
  function Live(c: Json, path: Path, at: nat): Spans
    decreases c
  {
    match c
    case Leaf(token) => map[path := Span(at, at + |token|)]
    case Node(_, inner, kids) => LiveKids(kids, path, at + 1 + |inner|, 0)
  }

  function LiveKids(ks: Kids, path: Path, at: nat, k: nat): Spans
    decreases ks
  {
    if ks.Nil? then map[]
    else
      var v := at + HeadSize(ks.head);
      LiveFirst(ks, path, v, k) + LiveKids(ks.rest, path, v + Size(ks.value) + |ks.post| + 1, k + 1)
  }

  function LiveFirst(ks: Kids, path: Path, v: nat, k: nat): Spans
    requires ks.Cons?
    decreases ks, 0
  {
    var s := HeadStep(ks.head, k);
    if s in KidSteps(ks.rest, k + 1) then map[] else Live(ks.value, path + [s], v)
  }

  /** The path goes on from `path` with one of these steps. */
  predicate Under(path: Path, q: Path, steps: set<Step>) {
    |q| > |path| && path <= q && q[|path|] in steps
  }

  lemma {:induction false} SpanUnder(c: Json, path: Path, at: nat, q: Path)
    requires q in SpansOf(c, path, at)
    ensures path <= q && (c.Node? ==> Under(path, q, KidSteps(c.kids, 0)))
    decreases c, 0
  {
    if c.Node? {
      KidSpanUnder(c.kids, path, at + 1 + |c.inner|, 0, q);
    }
  }

  lemma {:induction false} KidSpanUnder(ks: Kids, path: Path, at: nat, k: nat, q: Path)
    requires q in KidSpans(ks, path, at, k)
    ensures Under(path, q, KidSteps(ks, k))
    decreases ks, 1
  {
    var v := at + HeadSize(ks.head);
    var e := v + Size(ks.value) + |ks.post| + 1;
    if q in KidSpans(ks.rest, path, e, k + 1) {
      KidSpanUnder(ks.rest, path, e, k + 1, q);
    } else {
      SpanUnder(ks.value, path + [HeadStep(ks.head, k)], v, q);
    }
  }

  /** A live leaf's span is the one that the scanner keeps for its path. */
  lemma {:induction false} LiveIsSpan(c: Json, path: Path, at: nat, q: Path)
    requires q in Live(c, path, at)
    ensures q in SpansOf(c, path, at) && SpansOf(c, path, at)[q] == Live(c, path, at)[q]
    decreases c, 0
  {
    if c.Node? {
      LiveKidIsSpan(c.kids, path, at + 1 + |c.inner|, 0, q);
    }
  }

  lemma {:induction false} LiveKidIsSpan(ks: Kids, path: Path, at: nat, k: nat, q: Path)
    requires q in LiveKids(ks, path, at, k)
    ensures q in KidSpans(ks, path, at, k) && KidSpans(ks, path, at, k)[q] == LiveKids(ks, path, at, k)[q]
    decreases ks, 1
  {
    var v := at + HeadSize(ks.head);
    var e := v + Size(ks.value) + |ks.post| + 1;
    if q in LiveKids(ks.rest, path, e, k + 1) {
      LiveKidIsSpan(ks.rest, path, e, k + 1, q);
    } else {
      LiveIsSpan(ks.value, path + [HeadStep(ks.head, k)], v, q);
      SpanUnder(ks.value, path + [HeadStep(ks.head, k)], v, q);
      if q in KidSpans(ks.rest, path, e, k + 1) {
        KidSpanUnder(ks.rest, path, e, k + 1, q);
      }
    }
  }

  lemma LiveUnder(c: Json, path: Path, at: nat, q: Path)
    requires q in Live(c, path, at)
    ensures path <= q && (c.Node? ==> Under(path, q, KidSteps(c.kids, 0)))
  {
    LiveIsSpan(c, path, at, q);
    SpanUnder(c, path, at, q);
  }

  lemma LiveKidUnder(ks: Kids, path: Path, at: nat, k: nat, q: Path)
    requires q in LiveKids(ks, path, at, k)
    ensures Under(path, q, KidSteps(ks, k))
  {
    LiveKidIsSpan(ks, path, at, k, q);
    KidSpanUnder(ks, path, at, k, q);
  }

  // --------------------------------------------- replaced text, updated value

  lemma {:induction false} FieldSteps(obj: bool, ks: Kids, k: nat)
    requires WellFormedKids(obj, ks)
    ensures Steps(FieldsOf(obj, ks, k)) == KidSteps(ks, k)
  {
    if ks.Cons? {
      FieldSteps(obj, ks.rest, k + 1);
    }
  }

  lemma {:induction false} UpdateWithout(fs: Fields, path: Path, d: map<Path, Value>, s: Step)
    ensures Without(UpdateFields(fs, path, d), s) == UpdateFields(Without(fs, s), path, d)
  {
    if fs.Field? {
      UpdateWithout(fs.rest, path, d, s);
    }
  }

  /** The new leaf at a live span is the new value at its path, and there are no other new values. */
  predicate Matches(spans: Spans, m: map<nat, Json>, d: map<Path, Value>, q: Path) {
    q in spans ==>
      var a := spans[q].start;
      (a in m <==> q in d) && (a in m && q in d ==> WellFormed(m[a]) && ValueOf(m[a]) == d[q])
  }

  ghost predicate Matching(spans: Spans, m: map<nat, Json>, d: map<Path, Value>) {
    forall q: Path :: Matches(spans, m, d, q)
  }

  predicate AllWellFormed(m: map<nat, Json>) {
    forall a | a in m :: WellFormed(m[a])
  }

  lemma {:induction false} ReplaceMeans(c: Json, path: Path, at: nat, m: map<nat, Json>, d: map<Path, Value>)
    requires WellFormed(c) && AllWellFormed(m) && Matching(Live(c, path, at), m, d)
    requires forall q | q in d && path <= q :: q in Live(c, path, at)
    ensures WellFormed(Replace(c, at, m)) && ValueOf(Replace(c, at, m)) == Update(ValueOf(c), path, d)
    decreases c, 0
  {
    ReplaceWellFormed(c, at, m);
    if c.Leaf? {
      assert Matches(Live(c, path, at), m, d, path);
    } else {
      if path in d {
        LiveUnder(c, path, at, path);
      }
      forall q | q in d && Under(path, q, KidSteps(c.kids, 0)) ensures q in LiveKids(c.kids, path, at + 1 + |c.inner|, 0) {
      }
      ReplaceKidsMean(c.obj, c.kids, path, at + 1 + |c.inner|, 0, m, d);
    }
  }

  lemma {:induction false} ReplaceKidsMean(obj: bool, ks: Kids, path: Path, at: nat, k: nat, m: map<nat, Json>,
      d: map<Path, Value>)
    requires WellFormedKids(obj, ks) && AllWellFormed(m) && Matching(LiveKids(ks, path, at, k), m, d)
    requires forall q | q in d && Under(path, q, KidSteps(ks, k)) :: q in LiveKids(ks, path, at, k)
    ensures WellFormedKids(obj, ReplaceKids(ks, at, m))
    ensures FieldsOf(obj, ReplaceKids(ks, at, m), k) == UpdateFields(FieldsOf(obj, ks, k), path, d)
    decreases ks, 1
  {
    ReplaceKidsWellFormed(obj, ks, at, m);
    if ks.Cons? {
      var v := at + HeadSize(ks.head);
      var e := v + Size(ks.value) + |ks.post| + 1;
      RestMatches(ks, path, at, k, m, d);
      ReplaceKidsMean(obj, ks.rest, path, e, k + 1, m, d);
      FirstMeans(obj, ks, path, at, k, m, d);
    }
  }

  lemma RestMatches(ks: Kids, path: Path, at: nat, k: nat, m: map<nat, Json>, d: map<Path, Value>)
    requires ks.Cons? && Matching(LiveKids(ks, path, at, k), m, d)
    requires forall q | q in d && Under(path, q, KidSteps(ks, k)) :: q in LiveKids(ks, path, at, k)
    ensures var e := at + HeadSize(ks.head) + Size(ks.value) + |ks.post| + 1;
      && Matching(LiveKids(ks.rest, path, e, k + 1), m, d)
      && forall q | q in d && Under(path, q, KidSteps(ks.rest, k + 1)) :: q in LiveKids(ks.rest, path, e, k + 1)
  {
    var v := at + HeadSize(ks.head);
    var e := v + Size(ks.value) + |ks.post| + 1;
    var rest := LiveKids(ks.rest, path, e, k + 1);
    forall q: Path ensures Matches(rest, m, d, q) {
      assert Matches(LiveKids(ks, path, at, k), m, d, q);
    }
    forall q | q in d && Under(path, q, KidSteps(ks.rest, k + 1)) ensures q in rest {
      if q in LiveFirst(ks, path, v, k) {
        LiveUnder(ks.value, path + [HeadStep(ks.head, k)], v, q);
      }
    }
  }

  lemma FirstMatches(ks: Kids, path: Path, at: nat, k: nat, m: map<nat, Json>, d: map<Path, Value>)
    requires ks.Cons? && Matching(LiveKids(ks, path, at, k), m, d) && HeadStep(ks.head, k) !in KidSteps(ks.rest, k + 1)
    requires forall q | q in d && Under(path, q, KidSteps(ks, k)) :: q in LiveKids(ks, path, at, k)
    ensures var v := at + HeadSize(ks.head); var p := path + [HeadStep(ks.head, k)];
      && Matching(Live(ks.value, p, v), m, d)
      && forall q | q in d && p <= q :: q in Live(ks.value, p, v)
  {
    var v := at + HeadSize(ks.head);
    var e := v + Size(ks.value) + |ks.post| + 1;
    var p := path + [HeadStep(ks.head, k)];
    assert LiveFirst(ks, path, v, k) == Live(ks.value, p, v);
    forall q: Path ensures Matches(Live(ks.value, p, v), m, d, q) {
      assert Matches(LiveKids(ks, path, at, k), m, d, q);
      if q in Live(ks.value, p, v) {
        LiveUnder(ks.value, p, v, q);
        if q in LiveKids(ks.rest, path, e, k + 1) {
          LiveKidUnder(ks.rest, path, e, k + 1, q);
        }
      }
    }
    forall q | q in d && p <= q ensures q in Live(ks.value, p, v) {
      assert q[|path|] == HeadStep(ks.head, k) && Under(path, q, KidSteps(ks, k));
      if q in LiveKids(ks.rest, path, e, k + 1) {
        LiveKidUnder(ks.rest, path, e, k + 1, q);
      }
    }
  }

  lemma {:induction false} FirstMeans(obj: bool, ks: Kids, path: Path, at: nat, k: nat, m: map<nat, Json>,
      d: map<Path, Value>)
    requires ks.Cons? && WellFormedKids(obj, ks) && AllWellFormed(m) && Matching(LiveKids(ks, path, at, k), m, d)
    requires forall q | q in d && Under(path, q, KidSteps(ks, k)) :: q in LiveKids(ks, path, at, k)
    requires WellFormedKids(obj, ReplaceKids(ks, at, m))
    requires FieldsOf(obj, ReplaceKids(ks, at, m).rest, k + 1) == UpdateFields(FieldsOf(obj, ks.rest, k + 1), path, d)
    ensures FieldsOf(obj, ReplaceKids(ks, at, m), k) == UpdateFields(FieldsOf(obj, ks, k), path, d)
    decreases ks, 0
  {
    var s := HeadStep(ks.head, k);
    var rest := FieldsOf(obj, ks.rest, k + 1);
    FieldSteps(obj, ks.rest, k + 1);
    if s in Steps(rest) {
      UpdateFind(rest, path, d, s);
      UpdateWithout(rest, path, d, s);
    } else {
      FirstMatches(ks, path, at, k, m, d);
      ReplaceMeans(ks.value, path + [s], at + HeadSize(ks.head), m, d);
    }
  }
}
