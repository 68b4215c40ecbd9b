/**
 What `json.dumps(value, ensure_ascii=False)` writes, as a syntax tree, and that loading it gives the
 value back.
 */
module JsonRender {
  import opened Prelude
  import opened JsonSyntax
  import opened JsonRoundTrip

  const SPACE := 32

  function HexChar(d: nat): int
    requires d < 16
  {
    if d < 10 then '0' as int + d else 'a' as int + (d - 10)
  }

  /** One character of a string: quote, backslash and control characters are escaped. */
  function RenderChar(c: int): Text {
    if c == QUOTE || c == BACKSLASH then [BACKSLASH, c]
    else if c == 10 then [BACKSLASH, 'n' as int]
    else if c == 13 then [BACKSLASH, 'r' as int]
    else if c == 9 then [BACKSLASH, 't' as int]
    else if c == 12 then [BACKSLASH, 'f' as int]
    else if c == 8 then [BACKSLASH, 'b' as int]
    else if 0 <= c < 32 then [BACKSLASH, 'u' as int, '0' as int, '0' as int, HexChar(c / 16), HexChar(c % 16)]
    else [c]
  }

  function RenderChars(s: Text, k: nat): Text
    requires k <= |s|
    decreases |s| - k
  {
    if k == |s| then [] else RenderChar(s[k]) + RenderChars(s, k + 1)
  }

  function RenderString(s: Text): Text {
    [QUOTE] + (RenderChars(s, 0) + [QUOTE])
  }

  function RenderNat(n: nat): (t: Text)
    ensures |t| > 0
  {
    if n < 10 then ['0' as int + n] else RenderNat(n / 10) + ['0' as int + n % 10]
  }

  function RenderInt(n: int): Text {
    if n < 0 then [MINUS] + RenderNat(-n) else RenderNat(n)
  }

  function RenderHead(obj: bool, s: Step, first: bool): Head {
    var pre: Text := if first then [] else [SPACE];
    if !obj then Plain(pre)
    else Named(pre, RenderString(if s.Key? then s.name else RenderNat(s.position)), [], [SPACE])
  }

  function Render(v: Value): (c: Json)
    ensures c.Node? <==> v.Tree?
    decreases v
  {
    match v
    case Null => Leaf(NULL)
    case Bool(b) => Leaf(if b then TRUE else FALSE)
    case Int(n) => Leaf(RenderInt(n))
    case Real(literal) => Leaf(literal)
    case Str(s) => Leaf(RenderString(s))
    case Tree(obj, fields) => Node(obj, [], RenderFields(obj, fields, true))
  }

  function RenderFields(obj: bool, fs: Fields, first: bool): (ks: Kids)
    decreases fs
  {
    match fs
    case End => Nil
    case Field(s, v, rest) => Cons(RenderHead(obj, s, first), Render(v), [], RenderFields(obj, rest, false))
  }

  predicate IsChars(s: Text) {
    forall k | 0 <= k < |s| :: s[k] >= 0
  }

  /**
   A value Python can hold: code points are not negative, an array's positions count from zero, an
   object's names are distinct, and a number known by its literal has one that reads as such.
   */
  predicate Proper(v: Value)
    decreases v
  {
    match v
    case Real(literal) => IsToken(literal) && Scalar(literal) == Some(v)
    case Str(s) => IsChars(s)
    case Tree(obj, fields) => ProperFields(obj, fields, 0)
    case _ => true
  }

  predicate ProperFields(obj: bool, fs: Fields, k: nat)
    decreases fs
  {
    fs.Field? ==>
      && (if obj then fs.step.Key? && IsChars(fs.step.name) else fs.step == Index(k))
      && Proper(fs.value) && fs.step !in Steps(fs.rest) && ProperFields(obj, fs.rest, k + 1)
  }

  // ---------------------------------------------------------------- strings

  lemma {:induction false} RenderedChars(t: Text, i: nat, s: Text, k: nat, e: nat)
    requires IsChars(s) && k <= |s| && At(t, i, RenderChars(s, k))
    requires e == i + |RenderChars(s, k)| && CharAt(t, e, QUOTE)
    ensures StringEnd(t, i) == Some(e + 1) && Unescape(t, i, e) == Some(Cut(s, k, |s|))
    decreases |s| - k
  {
    if k < |s| {
      var n := RenderedFirst(t, i, s, k, e);
      RenderedChars(t, n, s, k + 1, e);
    }
  }

  lemma RenderedFirst(t: Text, i: nat, s: Text, k: nat, e: nat) returns (n: nat)
    requires IsChars(s) && k < |s| && At(t, i, RenderChars(s, k)) && e == i + |RenderChars(s, k)|
    ensures At(t, n, RenderChars(s, k + 1)) && e == n + |RenderChars(s, k + 1)|
    ensures StringEnd(t, i) == StringEnd(t, n)
    ensures Unescape(t, i, e) == Prepend(s[k], Unescape(t, n, e))
  {
    n := i + |RenderChar(s[k])|;
    AtConcat(t, i, RenderChar(s[k]), RenderChars(s, k + 1));
    RenderedChar(t, i, e, s[k]);
  }

  lemma RenderedChar(t: Text, i: nat, e: nat, c: int)
    requires c >= 0 && At(t, i, RenderChar(c)) && i + |RenderChar(c)| <= e <= |t|
    ensures StringEnd(t, i) == StringEnd(t, i + |RenderChar(c)|)
    ensures Unescape(t, i, e) == Prepend(c, Unescape(t, i + |RenderChar(c)|, e))
  {
    AtChar(t, i, RenderChar(c), 0);
    if |RenderChar(c)| > 1 {
      AtChar(t, i, RenderChar(c), 1);
    }
    if |RenderChar(c)| > 2 {
      RenderedUnit(t, i, e, c);
    }
  }

  lemma RenderedUnit(t: Text, i: nat, e: nat, c: int)
    requires 0 <= c < 32 && i + 6 <= e <= |t|
    requires At(t, i, [BACKSLASH, 'u' as int, '0' as int, '0' as int, HexChar(c / 16), HexChar(c % 16)])
    ensures StringEnd(t, i) == StringEnd(t, i + 6)
    ensures Unescape(t, i, e) == Prepend(c, Unescape(t, i + 6, e))
  {
    var s := [BACKSLASH, 'u' as int, '0' as int, '0' as int, HexChar(c / 16), HexChar(c % 16)];
    AtChar(t, i, s, 0);
    AtChar(t, i, s, 1);
    AtChar(t, i, s, 2);
    AtChar(t, i, s, 3);
    AtChar(t, i, s, 4);
    AtChar(t, i, s, 5);
    assert HexUnit(t, i + 2, e) == Some(c);
    PlainStringEnd(t, i + 2, 4);
  }

  lemma {:induction false} PlainStringEnd(t: Text, i: nat, n: nat)
    requires i + n <= |t| && forall k | i <= k < i + n :: t[k] != QUOTE && t[k] != BACKSLASH
    ensures StringEnd(t, i) == StringEnd(t, i + n)
    decreases n
  {
    if n > 0 {
      PlainStringEnd(t, i + 1, n - 1);
    }
  }

  lemma RenderedString(s: Text)
    requires IsChars(s)
    ensures IsString(RenderString(s)) && StringValue(RenderString(s)) == s
  {
    var t := RenderString(s);
    AtWhole(t, t);
    AtConcat(t, 0, [QUOTE], RenderChars(s, 0) + [QUOTE]);
    AtConcat(t, 1, RenderChars(s, 0), [QUOTE]);
    AtOne(t, 1 + |RenderChars(s, 0)|, QUOTE);
    RenderedChars(t, 1, s, 0, |t| - 1);
    AtWhole(s, s);
    CutAt(s, 0, s);
  }

  // ---------------------------------------------------------------- numbers

  lemma {:induction false} RenderedNat(n: nat)
    ensures IsNatural(RenderNat(n), 0) && DigitsValue(RenderNat(n), 0, |RenderNat(n)|) == n
    ensures n > 0 ==> RenderNat(n)[0] != '0' as int
  {
    var t := RenderNat(n);
    if n < 10 {
      assert DigitsValue(t, 0, 0) == 0;
    } else {
      RenderedNat(n / 10);
      DigitsFrom(RenderNat(n / 10), 0, t, 0, |t| - 1);
    }
  }

  lemma {:induction false} DigitsFrom(t: Text, i: nat, t': Text, i': nat, n: nat)
    requires i + n <= |t| && i' + n <= |t'|
    requires forall k | i <= k < i + n :: IsDigit(t[k])
    requires forall k | i' <= k < i' + n :: IsDigit(t'[k]) && t'[k] == t[k - i' + i]
    ensures DigitsValue(t, i, i + n) == DigitsValue(t', i', i' + n)
    decreases n
  {
    if n > 0 {
      DigitsFrom(t, i, t', i', n - 1);
      assert t'[i' + n - 1] == t[i + n - 1];
    }
  }

  lemma RenderedInt(n: int)
    ensures IsToken(RenderInt(n)) && Scalar(RenderInt(n)) == Some(Int(n))
  {
    var t := RenderInt(n);
    var u := RenderNat(if n < 0 then -n else n);
    RenderedNat(if n < 0 then -n else n);
    if n < 0 {
      DigitsFrom(u, 0, t, 1, |u|);
    }
    NumberToken(t);
  }

  lemma NumberToken(t: Text)
    requires IsInteger(t)
    ensures IsWord(t) && Scalar(t) == Some(Int(IntegerValue(t)))
  {
    assert IsDigit(t[0]) || t[0] == MINUS;
  }

  // ------------------------------------------------------------------ trees

  lemma NameToken(v: Value)
    requires v.Null? || v.Bool?
    ensures IsToken(Render(v).token) && Scalar(Render(v).token) == Some(v)
  {
  }

  /** Loading what is dumped gives the value back. */
  lemma {:induction false} RenderMeans(v: Value)
    requires Proper(v)
    ensures WellFormed(Render(v)) && ValueOf(Render(v)) == v
    decreases v, 0
  {
    match v
    case Int(n) => RenderedInt(n);
    case Str(s) => RenderedString(s);
    case Real(_) =>
    case Tree(obj, fields) => RenderFieldsMean(obj, fields, 0, true);
    case _ => NameToken(v);
  }

  lemma {:induction false} RenderFieldsMean(obj: bool, fs: Fields, k: nat, first: bool)
    requires ProperFields(obj, fs, k)
    ensures WellFormedKids(obj, RenderFields(obj, fs, first))
    ensures FieldsOf(obj, RenderFields(obj, fs, first), k) == fs
    decreases fs, 1
  {
    if fs.Field? {
      RenderMeans(fs.value);
      RenderFieldsMean(obj, fs.rest, k + 1, false);
      RenderHeadMeans(obj, fs.step, k, first);
    }
  }

  lemma RenderHeadMeans(obj: bool, s: Step, k: nat, first: bool)
    requires if obj then s.Key? && IsChars(s.name) else s == Index(k)
    ensures WellFormedHead(obj, RenderHead(obj, s, first)) && HeadStep(RenderHead(obj, s, first), k) == s
  {
    if obj {
      RenderedString(s.name);
    }
  }

  /** Hexadecimal digits are read in both cases. */
  lemma HexCases(d: nat)
    requires d < 16
    ensures HexDigit(HexChar(d)) == Some(d)
    ensures d >= 10 ==> HexDigit('A' as int + (d - 10)) == Some(d)
  {
  }
}
