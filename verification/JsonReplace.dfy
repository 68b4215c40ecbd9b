/**
 Replacing tokens of a laid-out text. A leaf of a syntax tree is known by the position of its token,
 and cutting a replacement into the text at that place prints the tree with that leaf replaced.
 */
module JsonReplace {
  import opened Prelude
  import opened JsonSyntax
  import opened JsonRoundTrip
  import opened JsonScanner

  /** The tree that stands at `at`, with every leaf whose position is in `m` replaced. */
  function Replace(c: Json, at: nat, m: map<nat, Json>): Json
    decreases c
  {
    match c
    case Leaf(_) => if at in m then m[at] else c
    case Node(obj, inner, kids) => Node(obj, inner, ReplaceKids(kids, at + 1 + |inner|, m))
  }

  function ReplaceKids(ks: Kids, at: nat, m: map<nat, Json>): (r: Kids)
    ensures r.Nil? <==> ks.Nil?
    decreases ks
  {
    if ks.Nil? then Nil
    else
      var v := at + HeadSize(ks.head);
      Cons(ks.head, Replace(ks.value, v, m), ks.post, ReplaceKids(ks.rest, v + Size(ks.value) + |ks.post| + 1, m))
  }

  /** The token of the leaf at position `a` of the tree that stands at `at`. */
  function LeafAt(c: Json, at: nat, a: nat): Option<Text>
    decreases c
  {
    match c
    case Leaf(token) => if a == at then Some(token) else None
    case Node(_, inner, kids) => KidLeafAt(kids, at + 1 + |inner|, a)
  }

  function KidLeafAt(ks: Kids, at: nat, a: nat): Option<Text>
    decreases ks
  {
    if ks.Nil? then None
    else
      var v := at + HeadSize(ks.head);
      var e := v + Size(ks.value);
      if a < e then LeafAt(ks.value, v, a) else KidLeafAt(ks.rest, e + |ks.post| + 1, a)
  }

  /** Its path, when the tree's own path is `path`. */
  function PathAt(c: Json, path: Path, at: nat, a: nat): Option<Path>
    decreases c
  {
    match c
    case Leaf(_) => if a == at then Some(path) else None
    case Node(_, inner, kids) => KidPathAt(kids, path, at + 1 + |inner|, 0, a)
  }

  function KidPathAt(ks: Kids, path: Path, at: nat, k: nat, a: nat): Option<Path>
    decreases ks
  {
    if ks.Nil? then None
    else
      var v := at + HeadSize(ks.head);
      var e := v + Size(ks.value);
      if a < e then PathAt(ks.value, path + [HeadStep(ks.head, k)], v, a)
      else KidPathAt(ks.rest, path, e + |ks.post| + 1, k + 1, a)
  }

  lemma {:induction false} LeafInside(c: Json, at: nat, a: nat)
    requires LeafAt(c, at, a).Some?
    ensures at <= a && a + |LeafAt(c, at, a).value| <= at + Size(c)
    decreases c, 0
  {
    if c.Node? {
      KidLeafInside(c.kids, at + 1 + |c.inner|, a);
    }
  }

  lemma {:induction false} KidLeafInside(ks: Kids, at: nat, a: nat)
    requires KidLeafAt(ks, at, a).Some?
    ensures at <= a && a + |KidLeafAt(ks, at, a).value| <= at + KidsSize(ks)
    decreases ks, 1
  {
    var v := at + HeadSize(ks.head);
    var e := v + Size(ks.value);
    if a < e {
      LeafInside(ks.value, v, a);
    } else {
      KidLeafInside(ks.rest, e + |ks.post| + 1, a);
    }
  }

  // ------------------------------------------------------- what is replaced

  /** Two replacements are the same where they differ only by leaves replaced with themselves. */
  predicate SameAt(c: Json, at: nat, m: map<nat, Json>, m': map<nat, Json>, a: nat) {
    var token := LeafAt(c, at, a);
    token.Some? ==>
      (if a in m then m[a] else Leaf(token.value)) == (if a in m' then m'[a] else Leaf(token.value))
  }

  predicate KidSameAt(ks: Kids, at: nat, m: map<nat, Json>, m': map<nat, Json>, a: nat) {
    var token := KidLeafAt(ks, at, a);
    token.Some? ==>
      (if a in m then m[a] else Leaf(token.value)) == (if a in m' then m'[a] else Leaf(token.value))
  }

  lemma {:induction false} ReplaceSame(c: Json, at: nat, m: map<nat, Json>, m': map<nat, Json>)
    requires WellFormed(c) && forall a :: SameAt(c, at, m, m', a)
    ensures Replace(c, at, m) == Replace(c, at, m')
    decreases c, 0
  {
    match c
    case Leaf(_) => assert SameAt(c, at, m, m', at);
    case Node(obj, inner, kids) =>
      if kids.Cons? {
        var v := at + 1 + |inner|;
        forall a ensures KidSameAt(kids, v, m, m', a) {
          assert SameAt(c, at, m, m', a);
        }
        ReplaceKidsSame(obj, kids, v, m, m');
      }
  }

  lemma {:induction false} ReplaceKidsSame(obj: bool, ks: Kids, at: nat, m: map<nat, Json>, m': map<nat, Json>)
    requires WellFormedKids(obj, ks) && forall a :: KidSameAt(ks, at, m, m', a)
    ensures ReplaceKids(ks, at, m) == ReplaceKids(ks, at, m')
    decreases ks, 1
  {
    if ks.Cons? {
      var v := at + HeadSize(ks.head);
      var e := v + Size(ks.value) + |ks.post| + 1;
      forall a ensures SameAt(ks.value, v, m, m', a) {
        assert KidSameAt(ks, at, m, m', a);
        if LeafAt(ks.value, v, a).Some? {
          LeafInside(ks.value, v, a);
          LeafNonEmpty(ks.value, v, a);
        }
      }
      ReplaceSame(ks.value, v, m, m');
      forall a ensures KidSameAt(ks.rest, e, m, m', a) {
        assert KidSameAt(ks, at, m, m', a);
        if KidLeafAt(ks.rest, e, a).Some? {
          KidLeafInside(ks.rest, e, a);
        }
      }
      ReplaceKidsSame(obj, ks.rest, e, m, m');
    }
  }

  lemma {:induction false} LeafNonEmpty(c: Json, at: nat, a: nat)
    requires WellFormed(c) && LeafAt(c, at, a).Some?
    ensures IsToken(LeafAt(c, at, a).value) && |LeafAt(c, at, a).value| > 0
    decreases c, 0
  {
    if c.Node? {
      KidLeafNonEmpty(c.obj, c.kids, at + 1 + |c.inner|, a);
    }
  }

  lemma {:induction false} KidLeafNonEmpty(obj: bool, ks: Kids, at: nat, a: nat)
    requires WellFormedKids(obj, ks) && KidLeafAt(ks, at, a).Some?
    ensures IsToken(KidLeafAt(ks, at, a).value) && |KidLeafAt(ks, at, a).value| > 0
    decreases ks, 1
  {
    var v := at + HeadSize(ks.head);
    var e := v + Size(ks.value);
    if a < e {
      LeafNonEmpty(ks.value, v, a);
    } else {
      KidLeafNonEmpty(obj, ks.rest, e + |ks.post| + 1, a);
    }
  }

  lemma ReplaceNone(c: Json, at: nat, m: map<nat, Json>)
    requires WellFormed(c) && forall a | a in m :: a >= at + Size(c)
    ensures Replace(c, at, m) == c
  {
    forall a ensures SameAt(c, at, m, map[], a) {
      if LeafAt(c, at, a).Some? {
        LeafInside(c, at, a);
        LeafNonEmpty(c, at, a);
      }
    }
    ReplaceSame(c, at, m, map[]);
    ReplaceNothing(c, at);
  }

  lemma {:induction false} ReplaceNothing(c: Json, at: nat)
    ensures Replace(c, at, map[]) == c
    decreases c, 0
  {
    if c.Node? {
      ReplaceKidsNothing(c.kids, at + 1 + |c.inner|);
    }
  }

  lemma {:induction false} ReplaceKidsNothing(ks: Kids, at: nat)
    ensures ReplaceKids(ks, at, map[]) == ks
    decreases ks, 1
  {
    if ks.Cons? {
      var v := at + HeadSize(ks.head);
      ReplaceNothing(ks.value, v);
      ReplaceKidsNothing(ks.rest, v + Size(ks.value) + |ks.post| + 1);
    }
  }

  lemma {:induction false} ReplaceWellFormed(c: Json, at: nat, m: map<nat, Json>)
    requires WellFormed(c) && forall a | a in m :: WellFormed(m[a])
    ensures WellFormed(Replace(c, at, m))
    decreases c, 0
  {
    if c.Node? {
      ReplaceKidsWellFormed(c.obj, c.kids, at + 1 + |c.inner|, m);
    }
  }

  lemma {:induction false} ReplaceKidsWellFormed(obj: bool, ks: Kids, at: nat, m: map<nat, Json>)
    requires WellFormedKids(obj, ks) && forall a | a in m :: WellFormed(m[a])
    ensures WellFormedKids(obj, ReplaceKids(ks, at, m))
    decreases ks, 1
  {
    if ks.Cons? {
      var v := at + HeadSize(ks.head);
      ReplaceWellFormed(ks.value, v, m);
      ReplaceKidsWellFormed(obj, ks.rest, v + Size(ks.value) + |ks.post| + 1, m);
    }
  }

  // -------------------------------------------------------- one replacement

  /** Leaves from the last to the first: the one at `a` comes before all that are replaced already. */
  predicate Before(a: nat, m: map<nat, Json>) {
    forall b | b in m :: a < b
  }

  lemma ConcatFirst(h: Text, x: Text, token: Text, z: Text, r: Text)
    ensures h + ((x + (token + z)) + r) == (h + x) + (token + (z + r))
  {
  }

  lemma ConcatRest(h: Text, x: Text, y: Text)
    ensures h + (x + y) == (h + x) + y
  {
  }

  /**
   One more leaf replaced, left of the others: the print keeps all that stands around its token, and
   the token stands at its position in the original tree.
   */
  lemma {:induction false} EditPrints(c: Json, at: nat, m: map<nat, Json>, a: nat, token: Text, n: Json)
      returns (x: Text, z: Text)
    requires WellFormed(c) && LeafAt(c, at, a) == Some(token) && Before(a, m)
    ensures at + |x| == a
    ensures Print(Replace(c, at, m)) == x + (token + z)
    ensures Print(Replace(c, at, m[a := n])) == x + (Print(n) + z)
    decreases c, 0
  {
    match c
    case Leaf(_) =>
      x, z := [], [];
    case Node(obj, inner, kids) =>
      var x', z' := EditPrintsKids(obj, kids, at + 1 + |inner|, m, a, token, n);
      x, z := [Open(obj)] + (inner + x'), z';
      ConcatNode(obj, inner, x', token + z');
      ConcatNode(obj, inner, x', Print(n) + z');
  }

  lemma ConcatNode(obj: bool, inner: Text, x: Text, y: Text)
    ensures [Open(obj)] + (inner + (x + y)) == ([Open(obj)] + (inner + x)) + y
  {
  }

  lemma {:induction false} EditPrintsKids(obj: bool, ks: Kids, at: nat, m: map<nat, Json>, a: nat, token: Text, n: Json)
      returns (x: Text, z: Text)
    requires WellFormedKids(obj, ks) && KidLeafAt(ks, at, a) == Some(token) && Before(a, m)
    ensures at + |x| == a && ks.Cons?
    ensures PrintKids(obj, ReplaceKids(ks, at, m)) == x + (token + z)
    ensures PrintKids(obj, ReplaceKids(ks, at, m[a := n])) == x + (Print(n) + z)
    decreases ks, 1
  {
    if a < at + HeadSize(ks.head) + Size(ks.value) {
      x, z := EditPrintsFirst(obj, ks, at, m, a, token, n);
    } else {
      x, z := EditPrintsRest(obj, ks, at, m, a, token, n);
    }
  }

  lemma {:induction false} EditPrintsFirst(obj: bool, ks: Kids, at: nat, m: map<nat, Json>, a: nat, token: Text, n: Json)
      returns (x: Text, z: Text)
    requires WellFormedKids(obj, ks) && ks.Cons? && a < at + HeadSize(ks.head) + Size(ks.value)
    requires KidLeafAt(ks, at, a) == Some(token) && Before(a, m)
    ensures at + |x| == a
    ensures PrintKids(obj, ReplaceKids(ks, at, m)) == x + (token + z)
    ensures PrintKids(obj, ReplaceKids(ks, at, m[a := n])) == x + (Print(n) + z)
    decreases ks, 0
  {
    var v := at + HeadSize(ks.head);
    var e := v + Size(ks.value) + |ks.post| + 1;
    var x', z' := EditPrints(ks.value, v, m, a, token, n);
    LaterSame(obj, ks.rest, e, m, a, n);
    HeadPrint([], 0, ks.head);
    var tail := ks.post + PrintTail(obj, ReplaceKids(ks.rest, e, m));
    x, z := PrintHead(ks.head) + x', z' + tail;
    ConcatFirst(PrintHead(ks.head), x', token, z', tail);
    ConcatFirst(PrintHead(ks.head), x', Print(n), z', tail);
  }

  lemma LaterSame(obj: bool, ks: Kids, e: nat, m: map<nat, Json>, a: nat, n: Json)
    requires WellFormedKids(obj, ks) && a < e
    ensures ReplaceKids(ks, e, m) == ReplaceKids(ks, e, m[a := n])
  {
    var m' := m[a := n];
    forall x ensures KidSameAt(ks, e, m, m', x) {
      if KidLeafAt(ks, e, x).Some? {
        KidLeafInside(ks, e, x);
      }
    }
    ReplaceKidsSame(obj, ks, e, m, m');
  }

  lemma {:induction false} EditPrintsRest(obj: bool, ks: Kids, at: nat, m: map<nat, Json>, a: nat, token: Text, n: Json)
      returns (x: Text, z: Text)
    requires WellFormedKids(obj, ks) && ks.Cons? && a >= at + HeadSize(ks.head) + Size(ks.value)
    requires KidLeafAt(ks, at, a) == Some(token) && Before(a, m)
    ensures at + |x| == a
    ensures PrintKids(obj, ReplaceKids(ks, at, m)) == x + (token + z)
    ensures PrintKids(obj, ReplaceKids(ks, at, m[a := n])) == x + (Print(n) + z)
    decreases ks, 0
  {
    var v := at + HeadSize(ks.head);
    var e := v + Size(ks.value) + |ks.post| + 1;
    ReplaceNone(ks.value, v, m);
    ReplaceNone(ks.value, v, m[a := n]);
    var x', z' := EditPrintsKids(obj, ks.rest, e, m, a, token, n);
    HeadPrint([], 0, ks.head);
    PrintSize(ks.value);
    x, z := PrintHead(ks.head) + (Print(ks.value) + (ks.post + ([COMMA] + x'))), z';
    ConcatEntry(PrintHead(ks.head), Print(ks.value), ks.post, x', token + z');
    ConcatEntry(PrintHead(ks.head), Print(ks.value), ks.post, x', Print(n) + z');
  }

  lemma ConcatEntry(h: Text, v: Text, post: Text, x: Text, y: Text)
    ensures h + (v + (post + ([COMMA] + (x + y)))) == (h + (v + (post + ([COMMA] + x)))) + y
  {
  }

  // ---------------------------------------------------- spans, leaves, text

  /** A span is the place of the leaf with its path. */
  lemma {:induction false} SpanLeaf(c: Json, path: Path, at: nat, p: Path) returns (token: Text)
    requires WellFormed(c) && p in SpansOf(c, path, at)
    ensures var s := SpansOf(c, path, at)[p];
      PathAt(c, path, at, s.start) == Some(p) && LeafAt(c, at, s.start) == Some(token) && s.end == s.start + |token|
    decreases c, 0
  {
    match c
    case Leaf(t) => token := t;
    case Node(obj, inner, kids) => token := KidSpanLeaf(obj, kids, path, at + 1 + |inner|, 0, p);
  }

  lemma {:induction false} KidSpanLeaf(obj: bool, ks: Kids, path: Path, at: nat, k: nat, p: Path) returns (token: Text)
    requires WellFormedKids(obj, ks) && p in KidSpans(ks, path, at, k)
    ensures var s := KidSpans(ks, path, at, k)[p];
      && KidPathAt(ks, path, at, k, s.start) == Some(p)
      && KidLeafAt(ks, at, s.start) == Some(token) && s.end == s.start + |token|
    decreases ks, 1
  {
    var v := at + HeadSize(ks.head);
    var e := v + Size(ks.value) + |ks.post| + 1;
    if p in KidSpans(ks.rest, path, e, k + 1) {
      token := KidSpanLeaf(obj, ks.rest, path, e, k + 1, p);
      KidLeafInside(ks.rest, e, KidSpans(ks.rest, path, e, k + 1)[p].start);
    } else {
      var a := SpansOf(ks.value, path + [HeadStep(ks.head, k)], v)[p].start;
      token := SpanLeaf(ks.value, path + [HeadStep(ks.head, k)], v, p);
      LeafInside(ks.value, v, a);
      LeafNonEmpty(ks.value, v, a);
    }
  }

  lemma {:induction false} LeafText(t: Text, c: Json, at: nat, a: nat)
    requires Has(t, at, c) && LeafAt(c, at, a).Some?
    ensures At(t, a, LeafAt(c, at, a).value)
    decreases c, 0
  {
    if c.Node? {
      KidLeafText(t, c.obj, c.kids, at + 1 + |c.inner|, a);
    }
  }

  lemma {:induction false} KidLeafText(t: Text, obj: bool, ks: Kids, at: nat, a: nat)
    requires ks.Cons? && HasKids(t, at, obj, ks) && KidLeafAt(ks, at, a).Some?
    ensures At(t, a, KidLeafAt(ks, at, a).value)
    decreases ks, 1
  {
    var v := at + HeadSize(ks.head);
    var e := v + Size(ks.value);
    if a < e {
      LeafText(t, ks.value, v, a);
    } else {
      assert HasTail(t, e + |ks.post|, obj, ks.rest);
      KidLeafText(t, obj, ks.rest, e + |ks.post| + 1, a);
    }
  }
}
