/**
 Splicing derived values into the reviewed layout of a registry (`_splice` of
 scripts/generate_namespace_writer_registry.py): the token of every derived scalar is replaced by the
 rendering of its value, and nothing else in the text changes.
 */
module JsonSplice {
  import opened Prelude
  import opened JsonSyntax
  import opened JsonRoundTrip
  import opened JsonValues
  import opened JsonRender
  import opened JsonScanner
  import opened JsonReplace

  /** The derived values by path, in the order of their derivation. */
  type Derived = seq<(Path, Value)>

  predicate IsDict(ds: Derived) {
    forall i, j | 0 <= i < j < |ds| :: ds[i].0 != ds[j].0
  }

  predicate AllProper(ds: Derived) {
    forall j | 0 <= j < |ds| :: Proper(ds[j].1)
  }

  function Values(ds: Derived): (d: map<Path, Value>) {
    if ds == [] then map[] else Values(ds[..|ds| - 1])[ds[|ds| - 1].0 := ds[|ds| - 1].1]
  }

  lemma {:induction false} ValueFrom(ds: Derived, p: Path) returns (j: nat)
    requires p in Values(ds)
    ensures j < |ds| && ds[j] == (p, Values(ds)[p])
  {
    var n := |ds| - 1;
    if p == ds[n].0 {
      j := n;
    } else {
      j := ValueFrom(ds[..n], p);
    }
  }

  lemma {:induction false} ValuesAt(ds: Derived, j: nat)
    requires IsDict(ds) && j < |ds|
    ensures ds[j].0 in Values(ds) && Values(ds)[ds[j].0] == ds[j].1
  {
    var n := |ds| - 1;
    if j < n {
      ValuesAt(ds[..n], j);
    }
  }

  /** The document already has the derived value. */
  predicate Holds(document: Value, d: (Path, Value)) {
    var v := Lookup(document, d.0);
    v.Some? && PyEq(v.value, d.1)
  }

  /** Every derived value has a token to splice into, or is there already. */
  predicate Splicable(spans: Spans, ds: Derived, document: Value) {
    forall j | 0 <= j < |ds| :: ds[j].0 in spans || Holds(document, ds[j])
  }

  /** The leaf at `a` has a derived value and is the one its path's span names. */
  predicate Chosen(c: Json, at: nat, d: map<Path, Value>, a: nat) {
    var p := PathAt(c, [], at, a);
    var spans := SpansOf(c, [], at);
    p.Some? && p.value in d && p.value in spans && spans[p.value].start == a
  }

  function NewLeaf(c: Json, at: nat, d: map<Path, Value>, a: nat): Json
    requires Chosen(c, at, d, a)
  {
    Render(d[PathAt(c, [], at, a).value])
  }

  function NewLeaves(c: Json, at: nat, d: map<Path, Value>): map<nat, Json> {
    map a | at <= a < at + Size(c) && Chosen(c, at, d, a) :: NewLeaf(c, at, d, a)
  }

  /** The tree after the splice. */
  function NewTree(c: Json, at: nat, ds: Derived): Json {
    Replace(c, at, NewLeaves(c, at, Values(ds)))
  }

  // ------------------------------------------------------------------ edits

  datatype Edit = Edit(start: nat, end: nat, replacement: Text)

  predicate IsEdit(c: Json, at: nat, d: map<Path, Value>, e: Edit) {
    && Chosen(c, at, d, e.start) && LeafAt(c, at, e.start).Some?
    && e.end == e.start + |LeafAt(c, at, e.start).value|
    && e.replacement == Print(NewLeaf(c, at, d, e.start))
  }

  predicate AllEdits(c: Json, at: nat, d: map<Path, Value>, es: seq<Edit>) {
    forall e | e in es :: IsEdit(c, at, d, e)
  }

  predicate Descending(es: seq<Edit>) {
    forall i, j | 0 <= i < j < |es| :: es[i].start > es[j].start
  }

  function Starts(es: seq<Edit>): set<nat> {
    set e | e in es :: e.start
  }

  /** Puts an edit into its place among edits that are in descending order. */
  function Insert(e: Edit, es: seq<Edit>): (r: seq<Edit>)
  {
    if es == [] || e.start > es[0].start then [e] + es else [es[0]] + Insert(e, es[1..])
  }

  /** `sorted(edits, reverse=True)`, for edits that start at different places. */
  function Sorted(es: seq<Edit>): (r: seq<Edit>) {
    if es == [] then [] else Insert(es[0], Sorted(es[1..]))
  }

  lemma {:induction false} InsertMember(e: Edit, es: seq<Edit>, x: Edit)
    ensures x in Insert(e, es) <==> x == e || x in es
  {
    if es != [] && e.start <= es[0].start {
      InsertMember(e, es[1..], x);
    }
  }

  lemma {:induction false} InsertDescending(e: Edit, es: seq<Edit>)
    requires Descending(es) && forall x | x in es :: x.start != e.start
    ensures Descending(Insert(e, es))
  {
    if es != [] && e.start <= es[0].start {
      assert es[0].start != e.start;
      InsertDescending(e, es[1..]);
      forall x | x in Insert(e, es[1..]) ensures x.start < es[0].start {
        InsertMember(e, es[1..], x);
      }
    }
  }

  lemma {:induction false} SortedMeans(es: seq<Edit>)
    requires Distinct(es)
    ensures Descending(Sorted(es)) && forall x :: x in Sorted(es) <==> x in es
  {
    if es != [] {
      SortedMeans(es[1..]);
      InsertDescending(es[0], Sorted(es[1..]));
      forall x ensures x in Sorted(es) <==> x in es {
        InsertMember(es[0], Sorted(es[1..]), x);
      }
    }
  }

  /** The leaves replaced once the edits are made. */
  function Made(c: Json, at: nat, d: map<Path, Value>, es: seq<Edit>): (m: map<nat, Json>)
    requires AllEdits(c, at, d, es)
    ensures m.Keys == Starts(es)
    ensures forall a | a in m :: Chosen(c, at, d, a) && m[a] == NewLeaf(c, at, d, a)
  {
    map a | a in Starts(es) :: NewLeaf(c, at, d, a)
  }

  lemma CutIn(pre: Text, x: Text, token: Text, z: Text, post: Text, s: Text, t: Text, a: nat, b: nat)
    requires t == pre + ((x + (token + z)) + post) && a == |pre| + |x| && b == a + |token|
    ensures a <= b <= |t| && t[..a] + s + t[b..] == pre + ((x + (s + z)) + post)
  {
    assert t[..a] == pre + x;
    assert t[b..] == z + post;
  }

  /** Cuts the replacements into the text, from the last to the first. */
  method MakeEdits(text: Text, es: seq<Edit>, ghost pre: Text, ghost c: Json, ghost post: Text, ghost d: map<Path, Value>)
      returns (r: Text)
    requires WellFormed(c) && text == pre + (Print(c) + post) && AllEdits(c, |pre|, d, es) && Descending(es)
    ensures r == pre + (Print(Replace(c, |pre|, Made(c, |pre|, d, es))) + post)
  {
    r := text;
    ReplaceNothing(c, |pre|);
    assert Made(c, |pre|, d, []) == map[];
    for i := 0 to |es|
      invariant AllEdits(c, |pre|, d, es[..i])
      invariant r == pre + (Print(Replace(c, |pre|, Made(c, |pre|, d, es[..i]))) + post)
    {
      var e := es[i];
      ghost var m := Made(c, |pre|, d, es[..i]);
      NextMade(c, |pre|, d, es, i);
      ghost var token := LeafAt(c, |pre|, e.start).value;
      ghost var x, z := EditPrints(c, |pre|, m, e.start, token, NewLeaf(c, |pre|, d, e.start));
      CutIn(pre, x, token, z, post, e.replacement, r, e.start, e.end);
      r := r[..e.start] + e.replacement + r[e.end..];
    }
    assert es[..|es|] == es;
  }

  lemma NextMade(c: Json, at: nat, d: map<Path, Value>, es: seq<Edit>, i: nat)
    requires AllEdits(c, at, d, es) && Descending(es) && i < |es| && AllEdits(c, at, d, es[..i])
    ensures IsEdit(c, at, d, es[i]) && AllEdits(c, at, d, es[..i + 1])
    ensures Before(es[i].start, Made(c, at, d, es[..i]))
    ensures Made(c, at, d, es[..i + 1]) == Made(c, at, d, es[..i])[es[i].start := NewLeaf(c, at, d, es[i].start)]
  {
    assert es[i] in es;
    assert es[..i + 1] == es[..i] + [es[i]];
  }

  // -------------------------------------------------------- collecting them

  predicate Distinct(es: seq<Edit>) {
    forall i, j | 0 <= i < j < |es| :: es[i].start != es[j].start
  }

  /** The token at a span reads as the value is rendered. */
  predicate Reads(text: Text, s: Span, v: Value) {
    s.start <= s.end <= |text| && Cut(text, s.start, s.end) == Print(Render(v))
  }

  /** Of the first `n` derived values, those whose token reads differently have an edit. */
  predicate Covered(text: Text, spans: Spans, ds: Derived, es: seq<Edit>, n: nat)
    requires n <= |ds|
  {
    forall j | 0 <= j < n && ds[j].0 in spans ::
      spans[ds[j].0].start in Starts(es) || Reads(text, spans[ds[j].0], ds[j].1)
  }

  function Paths(ds: Derived, n: nat): set<Path>
    requires n <= |ds|
  {
    set j | 0 <= j < n :: ds[j].0
  }

  /** Every edit belongs to one of these paths. */
  predicate Owned(c: Json, at: nat, es: seq<Edit>, paths: set<Path>) {
    forall e | e in es :: PathAt(c, [], at, e.start).Some? && PathAt(c, [], at, e.start).value in paths
  }

  lemma EditFor(text: Text, c: Json, at: nat, ds: Derived, j: nat) returns (e: Edit)
    requires WellFormed(c) && Has(text, at, c) && IsDict(ds) && j < |ds| && ds[j].0 in SpansOf(c, [], at)
    ensures var s := SpansOf(c, [], at)[ds[j].0];
      && s.start <= s.end <= |text| && e == Edit(s.start, s.end, Print(Render(ds[j].1)))
      && PathAt(c, [], at, e.start) == Some(ds[j].0)
    ensures IsEdit(c, at, Values(ds), e)
  {
    var s := SpansOf(c, [], at)[ds[j].0];
    var token := SpanLeaf(c, [], at, ds[j].0);
    ValuesAt(ds, j);
    LeafText(text, c, at, s.start);
    e := Edit(s.start, s.end, Print(Render(ds[j].1)));
  }

  lemma Added(c: Json, at: nat, d: map<Path, Value>, es: seq<Edit>, e: Edit, paths: set<Path>, p: Path)
    requires AllEdits(c, at, d, es) && Distinct(es) && Owned(c, at, es, paths)
    requires IsEdit(c, at, d, e) && PathAt(c, [], at, e.start) == Some(p) && p !in paths
    ensures AllEdits(c, at, d, es + [e]) && Distinct(es + [e]) && Owned(c, at, es + [e], paths + {p})
    ensures Starts(es + [e]) == Starts(es) + {e.start}
  {
    forall i | 0 <= i < |es| ensures es[i].start != e.start {
      assert es[i] in es;
    }
  }

  lemma NextPaths(ds: Derived, n: nat)
    requires n < |ds| && IsDict(ds)
    ensures Paths(ds, n + 1) == Paths(ds, n) + {ds[n].0} && ds[n].0 !in Paths(ds, n)
  {
  }

  /** What the edits collected for the first `j` derived values have to do with them. */
  ghost predicate Collected(text: Text, c: Json, at: nat, ds: Derived, j: nat, es: seq<Edit>)
    requires j <= |ds|
  {
    && AllEdits(c, at, Values(ds), es) && Distinct(es) && Owned(c, at, es, Paths(ds, j))
    && Covered(text, SpansOf(c, [], at), ds, es, j)
  }

  /** The edit for one derived value, when its token reads differently. */
  method Consider(text: Text, spans: Spans, ds: Derived, j: nat, es: seq<Edit>, ghost c: Json, ghost at: nat)
      returns (r: seq<Edit>)
    requires WellFormed(c) && Has(text, at, c) && spans == SpansOf(c, [], at) && IsDict(ds)
    requires j < |ds| && ds[j].0 in spans && Collected(text, c, at, ds, j, es)
    ensures Collected(text, c, at, ds, j + 1, r)
  {
    var span, rendered := spans[ds[j].0], Print(Render(ds[j].1));
    ghost var e := EditFor(text, c, at, ds, j);
    NextPaths(ds, j);
    r := es;
    if Cut(text, span.start, span.end) != rendered {
      Added(c, at, Values(ds), es, e, Paths(ds, j), ds[j].0);
      r := es + [Edit(span.start, span.end, rendered)];
    }
  }

  lemma Passed(text: Text, c: Json, at: nat, ds: Derived, j: nat, es: seq<Edit>)
    requires IsDict(ds) && j < |ds| && ds[j].0 !in SpansOf(c, [], at) && Collected(text, c, at, ds, j, es)
    ensures Collected(text, c, at, ds, j + 1, es)
  {
    NextPaths(ds, j);
  }

  method CollectEdits(text: Text, spans: Spans, ds: Derived, document: Value, ghost c: Json, ghost at: nat)
      returns (r: Option<seq<Edit>>)
    requires WellFormed(c) && Has(text, at, c) && spans == SpansOf(c, [], at) && IsDict(ds)
    ensures r.Some? <==> Splicable(spans, ds, document)
    ensures r.Some? ==> Collected(text, c, at, ds, |ds|, r.value)
  {
    var es := [];
    for j := 0 to |ds|
      invariant forall i | 0 <= i < j :: ds[i].0 in spans || Holds(document, ds[i])
      invariant Collected(text, c, at, ds, j, es)
    {
      if ds[j].0 in spans {
        es := Consider(text, spans, ds, j, es, c, at);
      } else if !Holds(document, ds[j]) {
        return None;
      } else {
        Passed(text, c, at, ds, j, es);
      }
    }
    r := Some(es);
  }

  // ------------------------------------------------------------- the splice

  /** The white space before and after the document. */
  function Leading(text: Text): Text {
    Cut(text, 0, SpaceEnd(text, 0))
  }

  function Trailing(text: Text): Text
    requires Parse(text).Some?
  {
    Cut(text, ParseValue(text, SpaceEnd(text, 0)).end, |text|)
  }

  /** The text that the splice gives: the layout of the old text around the new tokens. */
  function Spliced(text: Text, ds: Derived): Text
    requires Parse(text).Some?
  {
    Leading(text) + (Print(NewTree(Parse(text).value, |Leading(text)|, ds)) + Trailing(text))
  }

  function SpansIn(text: Text): Spans
    requires Parse(text).Some?
  {
    SpansOf(Parse(text).value, [], SpaceEnd(text, 0))
  }

  /** The edits made are all that there is to replace: every other leaf reads as it should already. */
  lemma AllMade(text: Text, c: Json, at: nat, ds: Derived, es: seq<Edit>)
    requires WellFormed(c) && Has(text, at, c) && IsDict(ds)
    requires AllEdits(c, at, Values(ds), es) && Covered(text, SpansOf(c, [], at), ds, es, |ds|)
    ensures Replace(c, at, Made(c, at, Values(ds), es)) == NewTree(c, at, ds)
  {
    var d := Values(ds);
    var m, m' := Made(c, at, d, es), NewLeaves(c, at, d);
    forall a ensures SameAt(c, at, m, m', a) {
      if LeafAt(c, at, a).Some? {
        LeafInside(c, at, a);
        LeafNonEmpty(c, at, a);
        if a in m' && a !in m {
          ReadsAlready(text, c, at, ds, es, a);
        }
      }
    }
    ReplaceSame(c, at, m, m');
  }

  lemma ReadsAlready(text: Text, c: Json, at: nat, ds: Derived, es: seq<Edit>, a: nat)
    requires WellFormed(c) && Has(text, at, c) && IsDict(ds) && LeafAt(c, at, a).Some?
    requires Covered(text, SpansOf(c, [], at), ds, es, |ds|)
    requires Chosen(c, at, Values(ds), a) && a !in Starts(es)
    ensures NewLeaf(c, at, Values(ds), a) == Leaf(LeafAt(c, at, a).value)
  {
    var p := PathAt(c, [], at, a).value;
    var v := Values(ds)[p];
    var j := ValueFrom(ds, p);
    assert Reads(text, SpansOf(c, [], at)[p], v);
    SpanReads(text, c, at, p, v);
  }

  lemma SpanReads(text: Text, c: Json, at: nat, p: Path, v: Value)
    requires WellFormed(c) && Has(text, at, c) && p in SpansOf(c, [], at) && Reads(text, SpansOf(c, [], at)[p], v)
    ensures LeafAt(c, at, SpansOf(c, [], at)[p].start).Some?
    ensures Render(v) == Leaf(LeafAt(c, at, SpansOf(c, [], at)[p].start).value)
  {
    var token := SpanText(text, c, at, p);
    TokenIsLeaf(Render(v), token);
  }

  lemma SpanText(text: Text, c: Json, at: nat, p: Path) returns (token: Text)
    requires WellFormed(c) && Has(text, at, c) && p in SpansOf(c, [], at)
    ensures var s := SpansOf(c, [], at)[p];
      && LeafAt(c, at, s.start) == Some(token) && IsToken(token)
      && s.start <= s.end <= |text| && Cut(text, s.start, s.end) == token
  {
    var a := SpansOf(c, [], at)[p].start;
    token := SpanLeaf(c, [], at, p);
    LeafText(text, c, at, a);
    CutAt(text, a, token);
    LeafNonEmpty(c, at, a);
  }

  /** No array or object prints as a token. */
  lemma TokenIsLeaf(c: Json, token: Text)
    requires Print(c) == token && IsToken(token)
    ensures c == Leaf(token)
  {
    if c.Node? {
      assert false;
    }
  }

  method Splice(text: Text, ds: Derived, document: Value) returns (r: Option<Text>)
    requires Parse(text).Some? && IsDict(ds)
    ensures r.Some? <==> Splicable(SpansIn(text), ds, document)
    ensures r.Some? ==> r.value == Spliced(text, ds)
  {
    ghost var c, at := Parse(text).value, |Leading(text)|;
    Layout(text);
    var scanner := new Scanner(text);
    var ok := scanner.Scan();
    var edits := CollectEdits(text, scanner.spans, ds, document, c, at);
    if edits.None? {
      return None;
    }
    var es := Sorted(edits.value);
    SortedMeans(edits.value);
    var t := MakeEdits(text, es, Leading(text), c, Trailing(text), Values(ds));
    assert Starts(es) == Starts(edits.value);
    AllMade(text, c, at, ds, es);
    r := Some(t);
  }

  lemma Layout(text: Text)
    requires Parse(text).Some?
    ensures var c := Parse(text).value;
      && WellFormed(c) && |Leading(text)| == SpaceEnd(text, 0) && Has(text, |Leading(text)|, c)
      && text == Leading(text) + (Print(c) + Trailing(text))
      && IsBlank(Leading(text)) && IsBlank(Trailing(text))
  {
    var pre, post := ParseSound(text);
    LaidPrint(text, pre, Parse(text).value, post);
  }
}
