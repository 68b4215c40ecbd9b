/** Parsing and printing are inverse: every text that parses is the print of exactly one tree. */
module JsonRoundTrip {
  import opened Prelude
  import opened JsonSyntax

  // ------------------------------------------------- printing and positions

  lemma {:induction false} AgreeAt(t: Text, i: nat, s: Text, n: nat, k: nat)
    requires k < n <= |s| && i + n <= |t| && Agree(t, i, s, n)
    ensures t[i + k] == s[k]
  {
    if k < n - 1 {
      AgreeAt(t, i, s, n - 1, k);
    }
  }

  lemma AtChar(t: Text, i: nat, s: Text, k: nat)
    requires At(t, i, s) && k < |s|
    ensures i + k < |t| && t[i + k] == s[k]
  {
    AgreeAt(t, i, s, |s|, k);
  }

  lemma {:induction false} AgreeIf(t: Text, i: nat, s: Text, n: nat)
    requires n <= |s| && i + |s| <= |t| && forall k | 0 <= k < n :: s[k] == t[i + k]
    ensures Agree(t, i, s, n)
  {
    if n > 0 {
      AgreeIf(t, i, s, n - 1);
    }
  }

  lemma {:induction false} CutChar(t: Text, i: nat, e: nat, k: nat)
    requires i <= e <= |t| && k < e - i
    ensures Cut(t, i, e)[k] == t[i + k]
    decreases e - i
  {
    if k > 0 {
      CutChar(t, i + 1, e, k - 1);
    }
  }

  /** The text holds each part where it was cut. */
  lemma AtCut(t: Text, i: nat, e: nat)
    requires i <= e <= |t|
    ensures At(t, i, Cut(t, i, e))
  {
    var s := Cut(t, i, e);
    forall k | 0 <= k < |s| ensures s[k] == t[i + k] {
      CutChar(t, i, e, k);
    }
    AgreeIf(t, i, s, |s|);
  }

  lemma CutAt(t: Text, i: nat, s: Text)
    requires At(t, i, s)
    ensures Cut(t, i, i + |s|) == s
  {
    forall k | 0 <= k < |s| ensures Cut(t, i, i + |s|)[k] == s[k] {
      CutChar(t, i, i + |s|, k);
      AtChar(t, i, s, k);
    }
  }

  lemma AtIf(t: Text, i: nat, s: Text)
    requires i + |s| <= |t| && forall k | 0 <= k < |s| :: s[k] == t[i + k]
    ensures At(t, i, s)
  {
    AgreeIf(t, i, s, |s|);
  }

  lemma AtConcat(t: Text, i: nat, a: Text, b: Text)
    ensures At(t, i, a + b) <==> At(t, i, a) && At(t, i + |a|, b)
  {
    if At(t, i, a + b) {
      AtPrefix(t, i, a, b);
    }
    if At(t, i, a) && At(t, i + |a|, b) {
      forall k | 0 <= k < |a + b| ensures (a + b)[k] == t[i + k] {
        if k < |a| {
          AtChar(t, i, a, k);
        } else {
          AtChar(t, i + |a|, b, k - |a|);
        }
      }
      AtIf(t, i, a + b);
    }
  }

  lemma AtPrefix(t: Text, i: nat, a: Text, b: Text)
    requires At(t, i, a + b)
    ensures At(t, i, a) && At(t, i + |a|, b)
  {
    forall k | 0 <= k < |a| ensures a[k] == t[i + k] {
      AtChar(t, i, a + b, k);
    }
    AtIf(t, i, a);
    forall k | 0 <= k < |b| ensures b[k] == t[i + |a| + k] {
      AtChar(t, i, a + b, |a| + k);
    }
    AtIf(t, i + |a|, b);
  }

  lemma AtOne(t: Text, i: nat, c: int)
    ensures At(t, i, [c]) <==> CharAt(t, i, c)
  {
    if i < |t| {
      assert Agree(t, i, [c], 0);
    }
  }

  lemma HeadPrint(t: Text, i: nat, h: Head)
    ensures |PrintHead(h)| == HeadSize(h)
    ensures At(t, i, PrintHead(h)) <==> HasHead(t, i, h)
  {
    if h.Named? {
      var c := i + |h.pre| + |h.name| + |h.mid|;
      AtFour(t, i, h.pre, h.name, h.mid, [COLON] + h.gap);
      AtConcat(t, c, [COLON], h.gap);
      AtOne(t, c, COLON);
    }
  }

  lemma {:induction false} PrintSize(c: Json)
    ensures |Print(c)| == Size(c)
    decreases c, 0
  {
    if c.Node? && c.kids.Cons? {
      PrintKidsSize(c.obj, c.kids);
    }
  }

  lemma {:induction false} PrintKidsSize(obj: bool, ks: Kids)
    requires ks.Cons?
    ensures |PrintKids(obj, ks)| == KidsSize(ks)
    decreases ks, 1
  {
    PrintSize(ks.value);
    if ks.rest.Cons? {
      PrintKidsSize(obj, ks.rest);
    }
  }

  /** The text holds a tree at a position exactly when the tree's print stands there. */
  lemma {:induction false} HasPrint(t: Text, i: nat, c: Json)
    ensures At(t, i, Print(c)) <==> Has(t, i, c)
    decreases c, 0
  {
    if c.Node? {
      var last := if c.kids.Nil? then [Close(c.obj)] else PrintKids(c.obj, c.kids);
      var e := i + 1 + |c.inner|;
      AtConcat(t, i, [Open(c.obj)], c.inner + last);
      AtConcat(t, i + 1, c.inner, last);
      AtOne(t, i, Open(c.obj));
      if c.kids.Cons? {
        HasPrintKids(t, e, c.obj, c.kids);
      } else {
        AtOne(t, e, Close(c.obj));
      }
    }
  }

  lemma {:induction false} HasPrintKids(t: Text, i: nat, obj: bool, ks: Kids)
    requires ks.Cons?
    ensures At(t, i, PrintKids(obj, ks)) <==> HasKids(t, i, obj, ks)
    decreases ks, 1
  {
    var e := i + HeadSize(ks.head) + Size(ks.value) + |ks.post|;
    PrintSize(ks.value);
    HeadPrint(t, i, ks.head);
    HasPrint(t, i + HeadSize(ks.head), ks.value);
    AtFour(t, i, PrintHead(ks.head), Print(ks.value), ks.post, PrintTail(obj, ks.rest));
    HasPrintTail(t, e, obj, ks.rest);
  }

  lemma {:induction false} HasPrintTail(t: Text, e: nat, obj: bool, ks: Kids)
    ensures At(t, e, PrintTail(obj, ks)) <==> HasTail(t, e, obj, ks)
    decreases ks, 2
  {
    if ks.Cons? {
      AtOne(t, e, COMMA);
      AtConcat(t, e, [COMMA], PrintKids(obj, ks));
      HasPrintKids(t, e + 1, obj, ks);
    } else {
      AtOne(t, e, Close(obj));
    }
  }

  lemma AtFour(t: Text, i: nat, a: Text, b: Text, c: Text, d: Text)
    ensures At(t, i, a + (b + (c + d))) <==>
            At(t, i, a) && At(t, i + |a|, b) && At(t, i + |a| + |b|, c) && At(t, i + |a| + |b| + |c|, d)
  {
    AtConcat(t, i, a, b + (c + d));
    AtConcat(t, i + |a|, b, c + d);
    AtConcat(t, i + |a| + |b|, c, d);
  }

  /** What a well-formed tree prints starts with a bracket, a quote or a word. */
  lemma Start(t: Text, i: nat, c: Json)
    requires WellFormed(c) && Has(t, i, c)
    ensures Size(c) > 0 && i + Size(c) <= |t| && !IsDelimiter(t[i])
    ensures c.Node? ==> t[i] == Open(c.obj)
    ensures c.Leaf? ==> t[i] != Open(true) && t[i] != Open(false) && t[i] == c.token[0]
  {
    HasPrint(t, i, c);
    PrintSize(c);
    if c.Leaf? {
      AtChar(t, i, c.token, 0);
    }
  }

  // -------------------------------------------------------------- soundness

  lemma {:induction false} SpaceEndBlank(t: Text, i: nat)
    requires i <= |t|
    ensures IsBlank(Cut(t, i, SpaceEnd(t, i)))
    decreases |t| - i
  {
    if i < |t| && IsSpace(t[i]) {
      SpaceEndBlank(t, i + 1);
    }
  }

  lemma {:induction false} WordEndWord(t: Text, i: nat)
    requires i <= |t|
    ensures NoDelimiter(Cut(t, i, WordEnd(t, i)))
    decreases |t| - i
  {
    if i < |t| && !IsDelimiter(t[i]) {
      WordEndWord(t, i + 1);
    }
  }

  lemma ParseHeadSound(t: Text, i: nat, obj: bool, h: Head, e: nat)
    requires i <= |t| && ParseHead(t, i, obj) == Ok(h, e)
    ensures HasHead(t, i, h) && e == i + HeadSize(h) && WellFormedHead(obj, h)
  {
    var n := SpaceEnd(t, i);
    AtCut(t, i, n);
    SpaceEndBlank(t, i);
    if obj {
      var s := ParseString(t, n);
      var m := SpaceEnd(t, s.end);
      AtCut(t, n, s.end);
      AtCut(t, s.end, m);
      AtCut(t, m + 1, e);
      SpaceEndBlank(t, s.end);
      SpaceEndBlank(t, m + 1);
    }
  }

  lemma ParseLeafSound(t: Text, i: nat, token: Text, e: nat)
    requires ParseValue(t, i) == Ok(Leaf(token), e)
    ensures At(t, i, token) && e == i + |token| && IsToken(token)
  {
    assert token == Cut(t, i, e);
    AtCut(t, i, e);
    CutChar(t, i, e, 0);
    WordEndWord(t, i);
  }

  lemma ParseEmptySound(t: Text, i: nat, obj: bool, inner: Text, e: nat)
    requires ParseValue(t, i) == Ok(Node(obj, inner, Nil), e)
    ensures CharAt(t, i, Open(obj)) && At(t, i + 1, inner) && IsBlank(inner)
    ensures CharAt(t, i + 1 + |inner|, Close(obj)) && e == i + 2 + |inner|
  {
    var n := SpaceEnd(t, i + 1);
    assert inner == Cut(t, i + 1, n);
    AtCut(t, i + 1, n);
    SpaceEndBlank(t, i + 1);
  }

  lemma ParseNodeParts(t: Text, i: nat, obj: bool, inner: Text, ks: Kids, e: nat)
    requires ParseValue(t, i) == Ok(Node(obj, inner, ks), e) && ks.Cons?
    ensures CharAt(t, i, Open(obj)) && inner == [] && ParseKids(t, i + 1, obj) == Ok(ks, e)
  {
  }

  lemma {:induction false} ParseValueSound(t: Text, i: nat, c: Json, e: nat)
    requires ParseValue(t, i) == Ok(c, e)
    ensures Has(t, i, c) && e == i + Size(c) && WellFormed(c)
    decreases |t| - i, 0
  {
    match c
    case Leaf(token) => ParseLeafSound(t, i, token, e);
    case Node(obj, inner, kids) =>
      if kids.Nil? {
        ParseEmptySound(t, i, obj, inner, e);
      } else {
        ParseNodeParts(t, i, obj, inner, kids, e);
        ParseKidsSound(t, i + 1, obj, kids, e);
      }
  }

  /** One entry parsed, with the positions of its value, of what follows it and of its end. */
  predicate ParsedEntry(t: Text, i: nat, obj: bool, ks: Kids, v: nat, p: nat, e: nat) {
    && i <= |t| && ks.Cons?
    && ParseHead(t, i, obj) == Ok(ks.head, v)
    && ParseValue(t, v) == Ok(ks.value, p)
    && SpaceEnd(t, p) == e && p <= e <= |t| && ks.post == Cut(t, p, e)
    && CharAt(t, e, if ks.rest.Nil? then Close(obj) else COMMA)
  }

  lemma ParseKidsParts(t: Text, i: nat, obj: bool, ks: Kids, end: nat) returns (v: nat, p: nat, e: nat)
    requires i <= |t| && ParseKids(t, i, obj) == Ok(ks, end)
    ensures ParsedEntry(t, i, obj, ks, v, p, e)
    ensures if ks.rest.Nil? then end == e + 1 else ParseKids(t, e + 1, obj) == Ok(ks.rest, end)
  {
    v := ParseHead(t, i, obj).end;
    p := ParseValue(t, v).end;
    e := SpaceEnd(t, p);
  }

  lemma ParseKidsBuild(t: Text, i: nat, obj: bool, ks: Kids, v: nat, p: nat, e: nat, end: nat)
    requires ParsedEntry(t, i, obj, ks, v, p, e)
    requires if ks.rest.Nil? then end == e + 1 else ParseKids(t, e + 1, obj) == Ok(ks.rest, end)
    ensures ParseKids(t, i, obj) == Ok(ks, end)
  {
  }

  lemma EntrySound(t: Text, i: nat, obj: bool, ks: Kids, v: nat, p: nat, e: nat)
    requires ParsedEntry(t, i, obj, ks, v, p, e)
    ensures HasHead(t, i, ks.head) && v == i + HeadSize(ks.head) && WellFormedHead(obj, ks.head)
    ensures At(t, p, ks.post) && e == p + |ks.post| && IsBlank(ks.post)
  {
    ParseHeadSound(t, i, obj, ks.head, v);
    AtCut(t, p, e);
    SpaceEndBlank(t, p);
  }

  lemma KidsOf(t: Text, i: nat, obj: bool, ks: Kids, v: nat, p: nat, e: nat)
    requires ks.Cons? && v == i + HeadSize(ks.head) && p == v + Size(ks.value) && e == p + |ks.post|
    requires HasHead(t, i, ks.head) && Has(t, v, ks.value) && At(t, p, ks.post) && HasTail(t, e, obj, ks.rest)
    ensures HasKids(t, i, obj, ks) && i + KidsSize(ks) == e + 1 + KidsSize(ks.rest)
  {
  }

  lemma {:induction false} ParseKidsSound(t: Text, i: nat, obj: bool, ks: Kids, end: nat)
    requires i <= |t| && ParseKids(t, i, obj) == Ok(ks, end)
    ensures ks.Cons? && HasKids(t, i, obj, ks) && end == i + KidsSize(ks) && WellFormedKids(obj, ks)
    decreases |t| - i, 1
  {
    var v, p, e := ParseKidsParts(t, i, obj, ks, end);
    EntrySound(t, i, obj, ks, v, p, e);
    ParseValueSound(t, v, ks.value, p);
    ParseTailSound(t, e, obj, ks.rest, end);
    KidsOf(t, i, obj, ks, v, p, e);
  }

  lemma {:induction false} ParseTailSound(t: Text, e: nat, obj: bool, ks: Kids, end: nat)
    requires e < |t| && t[e] == if ks.Nil? then Close(obj) else COMMA
    requires if ks.Nil? then end == e + 1 else ParseKids(t, e + 1, obj) == Ok(ks, end)
    ensures HasTail(t, e, obj, ks) && end == e + 1 + KidsSize(ks) && WellFormedKids(obj, ks)
    decreases |t| - e, 0
  {
    if ks.Cons? {
      ParseKidsSound(t, e + 1, obj, ks, end);
    }
  }

  /** Every text that parses is white space, a tree and white space. */
  lemma ParseSound(t: Text) returns (pre: Text, post: Text)
    requires Parse(t).Some?
    ensures pre == Cut(t, 0, SpaceEnd(t, 0)) && post == Cut(t, ParseValue(t, SpaceEnd(t, 0)).end, |t|)
    ensures IsBlank(pre) && IsBlank(post) && WellFormed(Parse(t).value) && Laid(t, pre, Parse(t).value, post)
  {
    var i := SpaceEnd(t, 0);
    var j := ParseValue(t, i).end;
    pre, post := Cut(t, 0, i), Cut(t, j, |t|);
    AtCut(t, 0, i);
    AtCut(t, j, |t|);
    SpaceEndBlank(t, 0);
    SpaceEndBlank(t, j);
    ParseValueSound(t, i, Parse(t).value, j);
  }

  /** Every text that parses is white space, a tree's print and white space. */
  lemma ParseIsPrint(t: Text) returns (pre: Text, post: Text)
    requires Parse(t).Some?
    ensures IsBlank(pre) && IsBlank(post) && WellFormed(Parse(t).value) && t == pre + Print(Parse(t).value) + post
  {
    pre, post := ParseSound(t);
    LaidPrint(t, pre, Parse(t).value, post);
  }

  /** The text is the tree with this white space around it. */
  predicate Laid(t: Text, pre: Text, c: Json, post: Text) {
    At(t, 0, pre) && Has(t, |pre|, c) && At(t, |pre| + Size(c), post) && |t| == |pre| + Size(c) + |post|
  }

  lemma AtWhole(t: Text, s: Text)
    ensures At(t, 0, s) && |t| == |s| <==> t == s
  {
    if At(t, 0, s) && |t| == |s| {
      forall k | 0 <= k < |t| ensures t[k] == s[k] {
        AtChar(t, 0, s, k);
      }
    }
    if t == s {
      AtIf(t, 0, s);
    }
  }

  lemma LaidPrint(t: Text, pre: Text, c: Json, post: Text)
    ensures Laid(t, pre, c, post) <==> t == pre + Print(c) + post
  {
    HasPrint(t, |pre|, c);
    PrintSize(c);
    AtConcat(t, 0, pre, Print(c));
    AtConcat(t, 0, pre + Print(c), post);
    AtWhole(t, pre + Print(c) + post);
  }

  // ----------------------------------------------------------- completeness

  lemma SpaceEndIs(t: Text, i: nat, s: Text)
    requires At(t, i, s) && IsBlank(s)
    requires i + |s| < |t| ==> !IsSpace(t[i + |s|])
    ensures SpaceEnd(t, i) == i + |s|
  {
    SpaceEndFrom(t, i, s, 0);
  }

  lemma {:induction false} SpaceEndFrom(t: Text, i: nat, s: Text, k: nat)
    requires At(t, i, s) && IsBlank(s) && k <= |s|
    requires i + |s| < |t| ==> !IsSpace(t[i + |s|])
    ensures SpaceEnd(t, i + k) == i + |s|
    decreases |s| - k
  {
    if k < |s| {
      AtChar(t, i, s, k);
      assert IsSpace(s[k]);
      SpaceEndFrom(t, i, s, k + 1);
    }
  }

  lemma {:induction false} WordEndIs(t: Text, i: nat, s: Text, k: nat)
    requires At(t, i, s) && k <= |s| && NoDelimiter(s)
    requires Ends(t, i + |s|)
    ensures WordEnd(t, i + k) == i + |s|
    decreases |s| - k
  {
    if k < |s| {
      AtChar(t, i, s, k);
      assert !IsDelimiter(s[k]);
      WordEndIs(t, i, s, k + 1);
    }
  }

  lemma {:induction false} StringEndIs(t: Text, i: nat, s: Text, k: nat)
    requires At(t, i, s) && StringEnd(s, k).Some?
    ensures StringEnd(t, i + k) == Some(i + StringEnd(s, k).value)
    decreases |s| - k
  {
    AtChar(t, i, s, k);
    if s[k] != QUOTE {
      StringEndIs(t, i, s, if s[k] == BACKSLASH then k + 2 else k + 1);
    }
  }

  lemma ParseStringIs(t: Text, i: nat, s: Text)
    requires At(t, i, s) && IsString(s)
    ensures ParseString(t, i) == Ok(s, i + |s|)
  {
    AtChar(t, i, s, 0);
    CutAt(t, i, s);
    StringEndIs(t, i, s, 1);
  }

  lemma ParseHeadIs(t: Text, i: nat, obj: bool, h: Head)
    requires WellFormedHead(obj, h) && HasHead(t, i, h)
    requires i + HeadSize(h) < |t| && !IsSpace(t[i + HeadSize(h)])
    ensures ParseHead(t, i, obj) == Ok(h, i + HeadSize(h))
  {
    CutAt(t, i, h.pre);
    if obj {
      ParseNamedHeadIs(t, i, h.pre, h.name, h.mid, h.gap);
    } else {
      SpaceEndIs(t, i, h.pre);
    }
  }

  lemma ParseNamedHeadIs(t: Text, i: nat, pre: Text, name: Text, mid: Text, gap: Text)
    requires IsBlank(pre) && IsString(name) && IsBlank(mid) && IsBlank(gap)
    requires HasHead(t, i, Named(pre, name, mid, gap))
    requires var e := i + |pre| + |name| + |mid| + 1 + |gap|; e < |t| && !IsSpace(t[e])
    ensures ParseHead(t, i, true) == Ok(Named(pre, name, mid, gap), i + |pre| + |name| + |mid| + 1 + |gap|)
  {
    var n := i + |pre|;
    var m := n + |name|;
    var c := m + |mid|;
    CutAt(t, i, pre);
    CutAt(t, m, mid);
    CutAt(t, c + 1, gap);
    AtChar(t, n, name, 0);
    SpaceEndIs(t, i, pre);
    ParseStringIs(t, n, name);
    SpaceEndIs(t, m, mid);
    SpaceEndIs(t, c + 1, gap);
  }

  /** Where a value may end: at the end of the text or before a delimiter. */
  predicate Ends(t: Text, i: nat) {
    i >= |t| || IsDelimiter(t[i])
  }

  lemma ParseLeafIs(t: Text, i: nat, token: Text)
    requires IsToken(token) && At(t, i, token) && Ends(t, i + |token|)
    ensures ParseValue(t, i) == Ok(Leaf(token), i + |token|)
  {
    AtChar(t, i, token, 0);
    if IsString(token) {
      ParseStringIs(t, i, token);
    } else {
      ParseWordIs(t, i, token);
    }
  }

  lemma ParseWordIs(t: Text, i: nat, token: Text)
    requires Scalar(token).Some? && IsWord(token) && At(t, i, token) && Ends(t, i + |token|)
    ensures ParseValue(t, i) == Ok(Leaf(token), i + |token|)
  {
    AtChar(t, i, token, 0);
    CutAt(t, i, token);
    WordEndIs(t, i, token, 0);
    ParseWordAt(t, i, i + |token|, token);
  }

  lemma ParseWordAt(t: Text, i: nat, e: nat, token: Text)
    requires i < e <= |t| && t[i] != QUOTE && t[i] != Open(true) && t[i] != Open(false)
    requires WordEnd(t, i) == e && Cut(t, i, e) == token && Scalar(token).Some?
    ensures ParseValue(t, i) == Ok(Leaf(token), e)
  {
  }

  lemma ParseEmptyIs(t: Text, i: nat, obj: bool, inner: Text)
    requires IsBlank(inner) && CharAt(t, i, Open(obj)) && At(t, i + 1, inner) && CharAt(t, i + 1 + |inner|, Close(obj))
    ensures ParseValue(t, i) == Ok(Node(obj, inner, Nil), i + 2 + |inner|)
  {
    SpaceEndIs(t, i + 1, inner);
    CutAt(t, i + 1, inner);
  }

  lemma ParseNodeIs(t: Text, i: nat, obj: bool, ks: Kids, e: nat)
    requires CharAt(t, i, Open(obj)) && ks.Cons? && ParseKids(t, i + 1, obj) == Ok(ks, e)
    requires SpaceEnd(t, i + 1) < |t| && t[SpaceEnd(t, i + 1)] != Close(obj)
    ensures ParseValue(t, i) == Ok(Node(obj, [], ks), e)
  {
  }

  lemma {:induction false} ParseValueIs(t: Text, i: nat, c: Json)
    requires WellFormed(c) && Has(t, i, c) && Ends(t, i + Size(c))
    ensures ParseValue(t, i) == Ok(c, i + Size(c))
    decreases c, 0
  {
    match c
    case Leaf(token) => ParseLeafIs(t, i, token);
    case Node(obj, inner, kids) =>
      if kids.Nil? {
        ParseEmptyIs(t, i, obj, inner);
      } else {
        ParseKidsIs(t, i + 1, obj, kids);
        KidsDoNotClose(t, i + 1, obj, kids);
        ParseNodeIs(t, i, obj, kids, i + Size(c));
      }
  }

  /** The entries of a non-empty array or object are not mistaken for its closing bracket. */
  lemma KidsDoNotClose(t: Text, i: nat, obj: bool, ks: Kids)
    requires ks.Cons? && WellFormedKids(obj, ks) && HasKids(t, i, obj, ks)
    ensures i <= |t| && SpaceEnd(t, i) < |t| && t[SpaceEnd(t, i)] != Close(obj)
  {
    Start(t, i + HeadSize(ks.head), ks.value);
    if obj {
      AtChar(t, i + |ks.head.pre|, ks.head.name, 0);
    }
    SpaceEndIs(t, i, ks.head.pre);
  }

  lemma ParseStarts(t: Text, i: nat)
    requires ParseValue(t, i).Ok?
    ensures !IsDelimiter(t[i])
  {
  }

  lemma EntryParses(t: Text, i: nat, obj: bool, ks: Kids, v: nat, p: nat, e: nat)
    requires ks.Cons? && WellFormedHead(obj, ks.head) && IsBlank(ks.post)
    requires v == i + HeadSize(ks.head) && e == p + |ks.post|
    requires HasHead(t, i, ks.head) && At(t, p, ks.post) && CharAt(t, e, if ks.rest.Nil? then Close(obj) else COMMA)
    requires ParseValue(t, v) == Ok(ks.value, p)
    ensures ParsedEntry(t, i, obj, ks, v, p, e)
  {
    ParseStarts(t, v);
    ParseHeadIs(t, i, obj, ks.head);
    SpaceEndIs(t, p, ks.post);
    CutAt(t, p, ks.post);
  }

  lemma {:induction false} ParseKidsIs(t: Text, i: nat, obj: bool, ks: Kids)
    requires ks.Cons? && WellFormedKids(obj, ks) && HasKids(t, i, obj, ks)
    ensures ParseKids(t, i, obj) == Ok(ks, i + KidsSize(ks))
    decreases ks, 1
  {
    var v, p, e := KidsParts(t, i, obj, ks);
    ParseTailIs(t, e, obj, ks.rest);
    EntryEnds(t, p, ks.post, e, t[e]);
    ParseValueIs(t, v, ks.value);
    EntryParses(t, i, obj, ks, v, p, e);
    ParseKidsBuild(t, i, obj, ks, v, p, e, i + KidsSize(ks));
  }

  lemma KidsParts(t: Text, i: nat, obj: bool, ks: Kids) returns (v: nat, p: nat, e: nat)
    requires ks.Cons? && WellFormedKids(obj, ks) && HasKids(t, i, obj, ks)
    ensures v == i + HeadSize(ks.head) && p == v + Size(ks.value) && e == p + |ks.post|
    ensures i + KidsSize(ks) == e + 1 + KidsSize(ks.rest)
    ensures HasHead(t, i, ks.head) && WellFormedHead(obj, ks.head) && Has(t, v, ks.value) && WellFormed(ks.value)
    ensures At(t, p, ks.post) && IsBlank(ks.post) && HasTail(t, e, obj, ks.rest) && WellFormedKids(obj, ks.rest)
  {
    v := i + HeadSize(ks.head);
    p := v + Size(ks.value);
    e := p + |ks.post|;
  }

  lemma {:induction false} ParseTailIs(t: Text, e: nat, obj: bool, ks: Kids)
    requires WellFormedKids(obj, ks) && HasTail(t, e, obj, ks)
    ensures CharAt(t, e, if ks.Nil? then Close(obj) else COMMA)
    ensures ks.Cons? ==> ParseKids(t, e + 1, obj) == Ok(ks, e + 1 + KidsSize(ks))
    decreases ks, 2
  {
    if ks.Cons? {
      ParseKidsIs(t, e + 1, obj, ks);
    }
  }

  lemma EntryEnds(t: Text, p: nat, post: Text, e: nat, c: int)
    requires At(t, p, post) && IsBlank(post) && e == p + |post| && CharAt(t, e, c) && IsDelimiter(c)
    ensures Ends(t, p)
  {
    if post != [] {
      AtChar(t, p, post, 0);
    }
  }

  /** A tree printed between white space parses back to itself. */
  lemma ParsePrint(pre: Text, c: Json, post: Text)
    requires IsBlank(pre) && WellFormed(c) && IsBlank(post)
    ensures Parse(pre + Print(c) + post) == Some(c)
  {
    var t := pre + Print(c) + post;
    LaidPrint(t, pre, c, post);
    ParseIs(t, pre, c, post);
  }

  lemma ParseIs(t: Text, pre: Text, c: Json, post: Text)
    requires IsBlank(pre) && WellFormed(c) && IsBlank(post) && Laid(t, pre, c, post)
    ensures Parse(t) == Some(c)
  {
    Start(t, |pre|, c);
    SpaceEndIs(t, 0, pre);
    if post != [] {
      AtChar(t, |pre| + Size(c), post, 0);
    }
    ParseValueIs(t, |pre|, c);
    SpaceEndIs(t, |pre| + Size(c), post);
  }
}
