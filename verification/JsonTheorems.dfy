/**
 The law of the registry generator: splicing the derived values into the text of a registry means
 assigning them into the document it holds.
 */
module JsonTheorems {
  import opened Prelude
  import opened JsonSyntax
  import opened JsonRoundTrip
  import opened JsonValues
  import opened JsonRender
  import opened JsonScanner
  import opened JsonReplace
  import opened JsonSplice
  import opened JsonMeaning
  import opened JsonApply

  // --------------------------------------------------- live leaves, scalars

  /** The leaves that loading keeps are the scalars of the document. */
  lemma {:induction false} LiveScalar(c: Json, path: Path, at: nat, r: Path)
    requires WellFormed(c)
    ensures path + r in Live(c, path, at) <==> ScalarAt(ValueOf(c), r)
    decreases c, 0
  {
    if c.Leaf? {
      assert path + r == path <==> r == [];
    } else {
      LiveKidScalar(c.obj, c.kids, path, at + 1 + |c.inner|, 0, r);
    }
  }

  predicate FieldScalar(fs: Fields, r: Path) {
    r != [] && r[0] in Steps(fs) && ScalarAt(Find(fs, r[0]).value, r[1..])
  }

  lemma {:induction false} LiveKidScalar(obj: bool, ks: Kids, path: Path, at: nat, k: nat, r: Path)
    requires WellFormedKids(obj, ks)
    ensures path + r in LiveKids(ks, path, at, k) <==> FieldScalar(FieldsOf(obj, ks, k), r)
    decreases ks, 1
  {
    if path + r in LiveKids(ks, path, at, k) {
      LiveKidUnder(ks, path, at, k, path + r);
    }
    if ks.Cons? && r != [] {
      var v := at + HeadSize(ks.head);
      LiveKidScalar(obj, ks.rest, path, v + Size(ks.value) + |ks.post| + 1, k + 1, r);
      LiveFirstScalar(obj, ks, path, v, k, r);
      FindFirst(obj, ks, k, r[0]);
      RestUnder(ks, path, v + Size(ks.value) + |ks.post| + 1, k, r);
    }
  }

  lemma {:induction false} LiveFirstScalar(obj: bool, ks: Kids, path: Path, v: nat, k: nat, r: Path)
    requires ks.Cons? && WellFormedKids(obj, ks) && r != []
    ensures path + r in LiveFirst(ks, path, v, k) <==>
      && r[0] == HeadStep(ks.head, k) && r[0] !in KidSteps(ks.rest, k + 1)
      && ScalarAt(ValueOf(ks.value), r[1..])
    decreases ks, 0
  {
    var s := HeadStep(ks.head, k);
    assert (path + r)[|path|] == r[0];
    if s !in KidSteps(ks.rest, k + 1) {
      if r[0] == s {
        assert path + [s] + r[1..] == path + r;
        LiveScalar(ks.value, path + [s], v, r[1..]);
      } else if path + r in Live(ks.value, path + [s], v) {
        LiveUnder(ks.value, path + [s], v, path + r);
      }
    }
  }

  lemma RestUnder(ks: Kids, path: Path, e: nat, k: nat, r: Path)
    requires ks.Cons? && r != []
    ensures path + r in LiveKids(ks.rest, path, e, k + 1) ==> r[0] in KidSteps(ks.rest, k + 1)
  {
    if path + r in LiveKids(ks.rest, path, e, k + 1) {
      LiveKidUnder(ks.rest, path, e, k + 1, path + r);
    }
  }

  lemma FindFirst(obj: bool, ks: Kids, k: nat, s: Step)
    requires ks.Cons? && WellFormedKids(obj, ks)
    ensures var rest := FieldsOf(obj, ks.rest, k + 1);
      Find(FieldsOf(obj, ks, k), s) ==
        if s == HeadStep(ks.head, k) && s !in KidSteps(ks.rest, k + 1) then Some(ValueOf(ks.value)) else Find(rest, s)
  {
    var rest := FieldsOf(obj, ks.rest, k + 1);
    FieldSteps(obj, ks.rest, k + 1);
    if s != HeadStep(ks.head, k) {
      WithoutFind(rest, HeadStep(ks.head, k), s);
    }
  }

  // ------------------------------------------------------ the spliced text

  /** `json.loads` of a text. */
  function Load(t: Text): Option<Value> {
    if Parse(t).Some? && WellFormed(Parse(t).value) then Some(ValueOf(Parse(t).value)) else None
  }

  lemma LoadIffParse(t: Text)
    ensures Load(t).Some? <==> Parse(t).Some?
  {
    if Parse(t).Some? {
      Layout(t);
    }
  }

  lemma NewLeavesMatch(c: Json, at: nat, ds: Derived)
    requires WellFormed(c) && IsDict(ds) && AllProper(ds)
    ensures AllWellFormed(NewLeaves(c, at, Values(ds)))
    ensures Matching(Live(c, [], at), NewLeaves(c, at, Values(ds)), Scalars(ValueOf(c), ds))
  {
    var d := Values(ds);
    var m := NewLeaves(c, at, d);
    forall a | a in m ensures WellFormed(m[a]) {
      NewLeafMeans(ds, PathAt(c, [], at, a).value);
    }
    var live, scalars := Live(c, [], at), Scalars(ValueOf(c), ds);
    forall q: Path ensures Matches(live, m, scalars, q) {
      if q in live {
        LiveIsSpan(c, [], at, q);
        var token := SpanLeaf(c, [], at, q);
        LeafInside(c, at, live[q].start);
        LeafNonEmpty(c, at, live[q].start);
        assert [] + q == q;
        LiveScalar(c, [], at, q);
        if q in d {
          NewLeafMeans(ds, q);
        }
      }
    }
  }

  lemma NewLeafMeans(ds: Derived, p: Path)
    requires AllProper(ds) && p in Values(ds)
    ensures WellFormed(Render(Values(ds)[p])) && ValueOf(Render(Values(ds)[p])) == Values(ds)[p]
  {
    var j := ValueFrom(ds, p);
    RenderMeans(ds[j].1);
  }

  /** Loading the spliced text gives the document with the derived scalars in their places. */
  lemma SplicedLoads(text: Text, ds: Derived)
    requires Load(text).Some? && IsDict(ds) && AllProper(ds)
    ensures Load(Spliced(text, ds)) == Some(Updated(Load(text).value, ds))
  {
    var c, at := Parse(text).value, |Leading(text)|;
    var doc := ValueOf(c);
    Layout(text);
    NewLeavesMatch(c, at, ds);
    forall q | q in Scalars(doc, ds) && [] <= q ensures q in Live(c, [], at) {
      assert [] + q == q;
      LiveScalar(c, [], at, q);
    }
    ReplaceMeans(c, [], at, NewLeaves(c, at, Values(ds)), Scalars(doc, ds));
    var c' := NewTree(c, at, ds);
    ConcatRest(Leading(text), Print(c'), Trailing(text));
    ParsePrint(Leading(text), c', Trailing(text));
  }

  /**
   The splice, where it is not refused, means the assignments exactly when every derived value is a
   scalar of the document or is there already.
   */
  lemma SpliceIsApply(text: Text, ds: Derived)
    requires Load(text).Some? && Antichain(ds) && AllProper(ds) && Apply(Load(text).value, ds).Some?
    ensures IsDict(ds) && Load(Spliced(text, ds)).Some?
    ensures PyEq(Load(Spliced(text, ds)).value, Apply(Load(text).value, ds).value)
       <==> forall j | 0 <= j < |ds| :: InPlace(Load(text).value, ds[j])
  {
    SplicedLoads(text, ds);
    LoadedUnique(Parse(text).value);
    UpdatedIffApplied(Load(text).value, ds);
  }

  // ------------------------------------------------------- without repeats

  /** No object repeats a name. */
  predicate NamesOnce(c: Json)
    decreases c
  {
    c.Node? ==> KidNamesOnce(c.kids, 0)
  }

  predicate KidNamesOnce(ks: Kids, k: nat)
    decreases ks
  {
    ks.Cons? ==>
      NamesOnce(ks.value) && HeadStep(ks.head, k) !in KidSteps(ks.rest, k + 1) && KidNamesOnce(ks.rest, k + 1)
  }

  lemma {:induction false} AllLive(c: Json, path: Path, at: nat)
    requires NamesOnce(c)
    ensures Live(c, path, at) == SpansOf(c, path, at)
    decreases c, 0
  {
    if c.Node? {
      AllKidsLive(c.kids, path, at + 1 + |c.inner|, 0);
    }
  }

  lemma {:induction false} AllKidsLive(ks: Kids, path: Path, at: nat, k: nat)
    requires KidNamesOnce(ks, k)
    ensures LiveKids(ks, path, at, k) == KidSpans(ks, path, at, k)
    decreases ks, 1
  {
    if ks.Cons? {
      var v := at + HeadSize(ks.head);
      AllLive(ks.value, path + [HeadStep(ks.head, k)], v);
      AllKidsLive(ks.rest, path, v + Size(ks.value) + |ks.post| + 1, k + 1);
    }
  }

  /** In a registry whose objects repeat no name every splice that is not refused means the assignments. */
  lemma SpliceMeansApply(text: Text, ds: Derived)
    requires Load(text).Some? && NamesOnce(Parse(text).value) && Antichain(ds) && AllProper(ds)
    requires Splicable(SpansIn(text), ds, Load(text).value) && Apply(Load(text).value, ds).Some?
    ensures IsDict(ds) && Load(Spliced(text, ds)).Some?
    ensures PyEq(Load(Spliced(text, ds)).value, Apply(Load(text).value, ds).value)
  {
    var c, at := Parse(text).value, SpaceEnd(text, 0);
    AllLive(c, [], at);
    forall j | 0 <= j < |ds| ensures InPlace(Load(text).value, ds[j]) {
      assert [] + ds[j].0 == ds[j].0;
      LiveScalar(c, [], at, ds[j].0);
    }
    SpliceIsApply(text, ds);
  }

  // ------------------------------------------------------------ spans apart

  /** The tokens of two scalars do not overlap. */
  lemma SpansApart(c: Json, path: Path, at: nat, p: Path, q: Path)
    requires WellFormed(c) && p in SpansOf(c, path, at) && q in SpansOf(c, path, at) && p != q
    ensures var s, t := SpansOf(c, path, at)[p], SpansOf(c, path, at)[q];
      s.start < s.end && t.start < t.end && (s.end <= t.start || t.end <= s.start)
  {
    var x := SpanLeaf(c, path, at, p);
    var y := SpanLeaf(c, path, at, q);
    var a, b := SpansOf(c, path, at)[p].start, SpansOf(c, path, at)[q].start;
    LeafNonEmpty(c, at, a);
    LeafNonEmpty(c, at, b);
    if a < b {
      LeavesApart(c, at, a, b);
    } else {
      LeavesApart(c, at, b, a);
    }
  }

  lemma {:induction false} LeavesApart(c: Json, at: nat, a: nat, b: nat)
    requires WellFormed(c) && LeafAt(c, at, a).Some? && LeafAt(c, at, b).Some? && a < b
    ensures a + |LeafAt(c, at, a).value| <= b
    decreases c, 0
  {
    if c.Node? {
      KidLeavesApart(c.obj, c.kids, at + 1 + |c.inner|, a, b);
    }
  }

  lemma {:induction false} KidLeavesApart(obj: bool, ks: Kids, at: nat, a: nat, b: nat)
    requires WellFormedKids(obj, ks) && KidLeafAt(ks, at, a).Some? && KidLeafAt(ks, at, b).Some? && a < b
    ensures a + |KidLeafAt(ks, at, a).value| <= b
    decreases ks, 1
  {
    var v := at + HeadSize(ks.head);
    var e := v + Size(ks.value);
    if b < e {
      LeavesApart(ks.value, v, a, b);
    } else if a < e {
      LeafInside(ks.value, v, a);
    } else {
      KidLeavesApart(obj, ks.rest, e + |ks.post| + 1, a, b);
    }
  }

  // ---------------------------------------------------------- splicing again

  /** Without repeated names every leaf is the one that its path's span names. */
  lemma {:induction false} PathSpan(c: Json, path: Path, at: nat, a: nat)
    requires WellFormed(c) && NamesOnce(c) && LeafAt(c, at, a).Some?
    ensures var p := PathAt(c, path, at, a);
      p.Some? && p.value in SpansOf(c, path, at) && SpansOf(c, path, at)[p.value].start == a
    decreases c, 0
  {
    if c.Node? {
      KidPathSpan(c.obj, c.kids, path, at + 1 + |c.inner|, 0, a);
    }
  }

  lemma {:induction false} KidPathSpan(obj: bool, ks: Kids, path: Path, at: nat, k: nat, a: nat)
    requires WellFormedKids(obj, ks) && KidNamesOnce(ks, k) && KidLeafAt(ks, at, a).Some?
    ensures var p := KidPathAt(ks, path, at, k, a);
      p.Some? && p.value in KidSpans(ks, path, at, k) && KidSpans(ks, path, at, k)[p.value].start == a
    decreases ks, 1
  {
    var v := at + HeadSize(ks.head);
    var e := v + Size(ks.value);
    if a < e {
      PathSpan(ks.value, path + [HeadStep(ks.head, k)], v, a);
      var p := PathAt(ks.value, path + [HeadStep(ks.head, k)], v, a).value;
      SpanUnder(ks.value, path + [HeadStep(ks.head, k)], v, p);
      if p in KidSpans(ks.rest, path, e + |ks.post| + 1, k + 1) {
        KidSpanUnder(ks.rest, path, e + |ks.post| + 1, k + 1, p);
      }
    } else {
      KidPathSpan(obj, ks.rest, path, e + |ks.post| + 1, k + 1, a);
    }
  }

  lemma {:induction false} PathUnder(c: Json, path: Path, at: nat, a: nat)
    requires PathAt(c, path, at, a).Some?
    ensures var p := PathAt(c, path, at, a).value; path <= p && (c.Node? ==> |p| > |path|)
    decreases c, 0
  {
    if c.Node? {
      KidPathUnder(c.kids, path, at + 1 + |c.inner|, 0, a);
    }
  }

  lemma {:induction false} KidPathUnder(ks: Kids, path: Path, at: nat, k: nat, a: nat)
    requires KidPathAt(ks, path, at, k, a).Some?
    ensures var p := KidPathAt(ks, path, at, k, a).value; path <= p && |p| > |path|
    decreases ks, 1
  {
    var v := at + HeadSize(ks.head);
    var e := v + Size(ks.value);
    if a < e {
      PathUnder(ks.value, path + [HeadStep(ks.head, k)], v, a);
    } else {
      KidPathUnder(ks.rest, path, e + |ks.post| + 1, k + 1, a);
    }
  }

  /** The leaf at `a` is replaced exactly when its path has a derived value, and by its rendering. */
  predicate Renders(token: Option<Text>, p: Option<Path>, m: map<nat, Json>, d: map<Path, Value>, a: nat) {
    token.Some? ==> p.Some? && (a in m <==> p.value in d) && (a in m && p.value in d ==> m[a] == Render(d[p.value]))
  }

  predicate Rendered(c: Json, path: Path, at: nat, m: map<nat, Json>, d: map<Path, Value>, a: nat) {
    Renders(LeafAt(c, at, a), PathAt(c, path, at, a), m, d, a)
  }

  predicate KidRendered(ks: Kids, path: Path, at: nat, k: nat, m: map<nat, Json>, d: map<Path, Value>, a: nat) {
    Renders(KidLeafAt(ks, at, a), KidPathAt(ks, path, at, k, a), m, d, a)
  }

  /** A leaf whose path has a derived value reads as that value is rendered. */
  predicate Settled(c: Json, path: Path, at: nat, d: map<Path, Value>, a: nat) {
    var token, p := LeafAt(c, at, a), PathAt(c, path, at, a);
    token.Some? && p.Some? && p.value in d ==> Render(d[p.value]) == Leaf(token.value)
  }

  predicate KidSettled(ks: Kids, path: Path, at: nat, k: nat, d: map<Path, Value>, a: nat) {
    var token, p := KidLeafAt(ks, at, a), KidPathAt(ks, path, at, k, a);
    token.Some? && p.Some? && p.value in d ==> Render(d[p.value]) == Leaf(token.value)
  }

  predicate Flat(d: map<Path, Value>) {
    forall p, q | p in d && q in d && p <= q :: p == q
  }

  lemma {:induction false} ReplacedSettles(c: Json, path: Path, at: nat, at': nat, m: map<nat, Json>,
      d: map<Path, Value>, a: nat)
    requires WellFormed(c) && Flat(d) && forall x :: Rendered(c, path, at, m, d, x)
    ensures Settled(Replace(c, at, m), path, at', d, a)
    decreases c, 0
  {
    var c' := Replace(c, at, m);
    match c
    case Leaf(_) =>
      assert Rendered(c, path, at, m, d, at);
      if PathAt(c', path, at', a).Some? {
        PathUnder(c', path, at', a);
      }
    case Node(obj, inner, kids) =>
      var v := at + 1 + |inner|;
      forall x ensures KidRendered(kids, path, v, 0, m, d, x) {
        assert Rendered(c, path, at, m, d, x);
      }
      ReplacedKidsSettle(obj, kids, path, v, at' + 1 + |inner|, 0, m, d, a);
  }

  lemma {:induction false} ReplacedKidsSettle(obj: bool, ks: Kids, path: Path, at: nat, at': nat, k: nat,
      m: map<nat, Json>, d: map<Path, Value>, a: nat)
    requires WellFormedKids(obj, ks) && Flat(d) && forall x :: KidRendered(ks, path, at, k, m, d, x)
    ensures KidSettled(ReplaceKids(ks, at, m), path, at', k, d, a)
    decreases ks, 1
  {
    if ks.Cons? {
      var v := at + HeadSize(ks.head);
      var e := v + Size(ks.value) + |ks.post| + 1;
      var p := path + [HeadStep(ks.head, k)];
      forall x ensures Rendered(ks.value, p, v, m, d, x) {
        assert KidRendered(ks, path, at, k, m, d, x);
        if LeafAt(ks.value, v, x).Some? {
          LeafInside(ks.value, v, x);
          LeafNonEmpty(ks.value, v, x);
        }
      }
      var v' := at' + HeadSize(ks.head);
      ReplacedSettles(ks.value, p, v, v', m, d, a);
      var k' := k + 1;
      forall x ensures KidRendered(ks.rest, path, e, k', m, d, x) {
        assert KidRendered(ks, path, at, k, m, d, x);
        if KidLeafAt(ks.rest, e, x).Some? {
          KidLeafInside(ks.rest, e, x);
        }
      }
      ReplacedKidsSettle(obj, ks.rest, path, e, v' + Size(Replace(ks.value, v, m)) + |ks.post| + 1, k + 1, m, d, a);
    }
  }

  /** A second splice into the tree of the first changes nothing. */
  lemma NewTreeAgain(c: Json, at: nat, ds: Derived)
    requires WellFormed(c) && NamesOnce(c) && Flat(Values(ds)) && WellFormed(NewTree(c, at, ds))
    ensures NewTree(NewTree(c, at, ds), at, ds) == NewTree(c, at, ds)
  {
    var d := Values(ds);
    var m, c' := NewLeaves(c, at, d), NewTree(c, at, ds);
    forall x ensures Rendered(c, [], at, m, d, x) {
      if LeafAt(c, at, x).Some? {
        PathSpan(c, [], at, x);
        LeafInside(c, at, x);
        LeafNonEmpty(c, at, x);
      }
    }
    var m' := NewLeaves(c', at, d);
    forall a ensures SameAt(c', at, m', map[], a) {
      ReplacedSettles(c, [], at, at, m, d, a);
    }
    ReplaceSame(c', at, m', map[]);
    ReplaceNothing(c', at);
  }

  lemma FlatValues(ds: Derived)
    requires Antichain(ds)
    ensures Flat(Values(ds))
  {
    var d := Values(ds);
    forall p, q | p in d && q in d && p <= q ensures p == q {
      var i := ValueFrom(ds, p);
      var j := ValueFrom(ds, q);
    }
  }

  /** Splicing twice is splicing once. */
  lemma SpliceAgain(text: Text, ds: Derived)
    requires Load(text).Some? && NamesOnce(Parse(text).value) && Antichain(ds) && AllProper(ds)
    ensures IsDict(ds) && Load(Spliced(text, ds)).Some?
    ensures Spliced(Spliced(text, ds), ds) == Spliced(text, ds)
  {
    var c, at := Parse(text).value, |Leading(text)|;
    var c' := NewTree(c, at, ds);
    var text' := Spliced(text, ds);
    Layout(text);
    FlatValues(ds);
    SplicedTree(text, ds);
    NewTreeAgain(c, at, ds);
    Layout(text');
    SameLayout(text', Leading(text), c', Trailing(text));
  }

  lemma SplicedTree(text: Text, ds: Derived)
    requires Load(text).Some? && IsDict(ds) && AllProper(ds)
    ensures var c' := NewTree(Parse(text).value, |Leading(text)|, ds);
      WellFormed(c') && Parse(Spliced(text, ds)) == Some(c')
  {
    var c, at := Parse(text).value, |Leading(text)|;
    Layout(text);
    NewLeavesMatch(c, at, ds);
    ReplaceWellFormed(c, at, NewLeaves(c, at, Values(ds)));
    var c' := NewTree(c, at, ds);
    ConcatRest(Leading(text), Print(c'), Trailing(text));
    ParsePrint(Leading(text), c', Trailing(text));
  }

  /** The white space around a document is what the parser finds around it. */
  lemma SameLayout(t: Text, pre: Text, c: Json, post: Text)
    requires IsBlank(pre) && WellFormed(c) && IsBlank(post) && t == pre + (Print(c) + post)
    requires Parse(t) == Some(c)
    ensures Leading(t) == pre && Trailing(t) == post
  {
    ConcatRest(pre, Print(c), post);
    LaidPrint(t, pre, c, post);
    Start(t, |pre|, c);
    SpaceEndIs(t, 0, pre);
    CutAt(t, 0, pre);
    Layout(t);
    assert Print(c) + post == t[|pre|..] == Print(c) + Trailing(t);
    assert post == (Print(c) + post)[|Print(c)|..] == (Print(c) + Trailing(t))[|Print(c)|..] == Trailing(t);
  }

  // --------------------------------------------------------- where it fails

  /** A name as it stands in the text, and the name. */
  predicate Names(token: Text, name: Text) {
    IsString(token) && StringValue(token) == name
  }

  function Member(token: Text, v: Json, rest: Kids): Kids {
    Cons(Named([], token, [], []), v, [], rest)
  }

  lemma MemberMeans(token: Text, name: Text, v: Json, rest: Kids, k: nat)
    requires Names(token, name) && WellFormed(v) && WellFormedKids(true, rest)
    ensures WellFormedKids(true, Member(token, v, rest)) && HeadStep(Member(token, v, rest).head, k) == Key(name)
  {
  }

  lemma MemberOnly(token: Text, name: Text, v: Json, path: Path, at: nat, k: nat)
    requires Names(token, name) && WellFormed(v)
    ensures var ks := Member(token, v, Nil);
      && WellFormedKids(true, ks) && FieldsOf(true, ks, k) == Field(Key(name), ValueOf(v), End)
      && KidSpans(ks, path, at, k) == SpansOf(v, path + [Key(name)], at + |token| + 1)
      && KidSteps(ks, k) == {Key(name)}
  {
    MemberMeans(token, name, v, Nil, k);
  }

  lemma MemberTwice(token: Text, name: Text, v: Json, last: Json, at: nat)
    requires Names(token, name) && WellFormed(v) && WellFormed(last)
    ensures var ks := Member(token, v, Member(token, last, Nil));
      && WellFormedKids(true, ks) && FieldsOf(true, ks, 0) == Field(Key(name), ValueOf(last), End)
      && SpansOf(v, [Key(name)], at + |token| + 1).Keys <= KidSpans(ks, [], at, 0).Keys
  {
    var rest := Member(token, last, Nil);
    MemberOnly(token, name, last, [], 0, 1);
    MemberMeans(token, name, v, rest, 0);
    assert [] + [Key(name)] == [Key(name)];
  }

  /** An object that repeats the name `a`, first with a member `b` of its own and then empty. */
  function Repeating(a: Text, b: Text, token: Text): Json {
    Node(true, [], Member(a, Node(true, [], Member(b, Leaf(token), Nil)), Member(a, Node(true, [], Nil), Nil)))
  }

  lemma RepeatingMeans(a: Text, b: Text, name: Text, inner: Text, token: Text, at: nat)
    requires Names(a, name) && Names(b, inner) && IsToken(token)
    ensures var c := Repeating(a, b, token);
      && WellFormed(c) && ValueOf(c) == Tree(true, Field(Key(name), Tree(true, End), End))
      && [Key(name), Key(inner)] in SpansOf(c, [], at)
  {
    var hidden := Node(true, [], Member(b, Leaf(token), Nil));
    var v := at + 1 + |a| + 1;
    MemberOnly(b, inner, Leaf(token), [Key(name)], v + 1, 0);
    MemberTwice(a, name, hidden, Node(true, [], Nil), at + 1);
    assert [Key(name)] + [Key(inner)] == [Key(name), Key(inner)];
    assert [Key(name), Key(inner)] in SpansOf(hidden, [Key(name)], v);
  }

  lemma MissingMember(a: Text, b: Text, x: Value)
    ensures var doc, p := Tree(true, Field(Key(a), Tree(true, End), End)), [Key(a), Key(b)];
      SetAt(doc, p, x).Some? && !InPlace(doc, (p, x))
  {
    var doc, p := Tree(true, Field(Key(a), Tree(true, End), End)), [Key(a), Key(b)];
    assert p[1..] == [Key(b)];
    assert Find(doc.fields, p[0]) == Some(Tree(true, End));
    assert SetAt(Tree(true, End), p[1..], x).Some?;
    assert Lookup(doc, p) == Lookup(Tree(true, End), p[1..]) == None;
    assert !ScalarAt(Tree(true, End), p[1..]);
  }

  /**
   A repeated name can hide the token that is spliced: the value is replaced in an entry that loading
   drops, so the splice is accepted and the loaded document never gets it.
   */
  lemma RepeatedNameBreaks(a: Text, b: Text, token: Text, x: Value) returns (text: Text, ds: Derived)
    requires IsString(a) && IsString(b) && IsToken(token) && Proper(x)
    ensures Load(text).Some? && Antichain(ds) && AllProper(ds) && IsDict(ds)
    ensures Splicable(SpansIn(text), ds, Load(text).value) && Apply(Load(text).value, ds).Some?
    ensures Load(Spliced(text, ds)).Some?
    ensures !PyEq(Load(Spliced(text, ds)).value, Apply(Load(text).value, ds).value)
  {
    var c := Repeating(a, b, token);
    var name, inner := StringValue(a), StringValue(b);
    text, ds := Print(c), [([Key(name), Key(inner)], x)];
    assert [] + Print(c) + [] == text;
    RepeatingMeans(a, b, name, inner, token, 0);
    ParsePrint([], c, []);
    RepeatingMeans(a, b, name, inner, token, SpaceEnd(text, 0));
    MissingMember(name, inner, x);
    ApplyOne(ValueOf(c), ds);
    SpliceIsApply(text, ds);
  }

  lemma ApplyOne(doc: Value, ds: Derived)
    requires |ds| == 1
    ensures Apply(doc, ds) == SetAt(doc, ds[0].0, ds[0].1)
  {
    assert ds[..0] == [];
  }

  /**
   When one derived path leads through another the order of the assignments counts, and the splice
   does not follow it.
   */
  lemma NestedPathsBreak(a: Text, b: Text, x: Value, y: Value) returns (doc: Value, ds: Derived)
    requires IsChars(a) && IsChars(b) && Proper(x) && Proper(y) && !x.Tree? && !PyEq(y, x)
    ensures IsDict(ds) && AllProper(ds) && Unique(doc) && Apply(doc, ds).Some?
    ensures forall j | 0 <= j < |ds| :: InPlace(doc, ds[j])
    ensures !PyEq(Updated(doc, ds), Apply(doc, ds).value)
  {
    var p, q := [Key(a), Key(b)], [Key(a)];
    var inner, changed := Tree(true, Field(Key(b), x, End)), Tree(true, Field(Key(b), y, End));
    doc := Tree(true, Field(Key(a), inner, End));
    ds := [(p, y), (q, inner)];
    assert p[1..] == [Key(b)] && p[1..][1..] == [] && q[1..] == [];
    assert ProperFields(true, inner.fields, 0);
    ProperUnique(inner);
    PyEqRefl(inner);
    OneMember(doc, inner, changed, a, b, x, y);
    assert ds[..1] == [(p, y)] && ds[..1][..0] == [];
    assert Lookup(doc, q) == Lookup(inner, []);
    assert InPlace(doc, ds[0]) && InPlace(doc, ds[1]);
    ApplyOne(doc, ds[..1]);
    assert Apply(doc, ds) == Some(doc);
    assert ds[..1][..|ds[..1]| - 1] == [] && ds[..|ds| - 1] == ds[..1];
    assert Values(ds[..1]) == map[p := y];
    assert Values(ds) == map[p := y, q := inner];
    assert !ScalarAt(inner, []) && !ScalarAt(doc, q);
    assert Scalars(doc, ds) == map[p := y];
  }

  lemma OneMember(doc: Value, inner: Value, changed: Value, a: Text, b: Text, x: Value, y: Value)
    requires inner == Tree(true, Field(Key(b), x, End)) && changed == Tree(true, Field(Key(b), y, End))
    requires doc == Tree(true, Field(Key(a), inner, End)) && !x.Tree? && !PyEq(y, x)
    ensures var p := [Key(a), Key(b)]; var doc' := Tree(true, Field(Key(a), changed, End));
      && ScalarAt(doc, p) && SetAt(doc, p, y) == Some(doc') && Update(doc, [], map[p := y]) == doc'
      && !PyEq(doc', doc)
  {
    var p := [Key(a), Key(b)];
    assert p[1..] == [Key(b)] && p[1..][1..] == [];
    assert ScalarAt(x, p[1..][1..]);
    assert ScalarAt(inner, p[1..]);
    assert SetAt(inner, p[1..], y) == Some(changed);
    assert [] + [Key(a)] == [Key(a)] && [Key(a)] + [Key(b)] == p;
    assert Update(x, p, map[p := y]) == y;
    assert Update(inner, [Key(a)], map[p := y]) == changed;
    assert !PyEqFields(changed.fields, inner.fields);
    assert !PyEq(changed, inner);
  }
}
