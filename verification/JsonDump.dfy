/**
 What `json.dumps(value, indent=2)` writes (`render_audit` of
 scripts/generate_namespace_writer_registry.py): one entry per line, and every character outside
 printable ASCII as one `\u` escape or as the two of a surrogate pair. Loading it gives the value back.
 */
module JsonDump {
  import opened Prelude
  import opened JsonSyntax
  import opened JsonRoundTrip
  import opened JsonRender
  import opened JsonTheorems
  import opened JsonSplice
  import opened RegistryDiff

  const LETTER_U := 'u' as int

  predicate IsHigh(c: int) {
    0xD800 <= c <= 0xDBFF
  }

  predicate IsLow(c: int) {
    0xDC00 <= c <= 0xDFFF
  }

  predicate IsUnicode(s: Text) {
    forall k | 0 <= k < |s| :: 0 <= s[k] < 0x110000
  }

  /** No two surrogates that would read as one character. */
  predicate IsDumpable(s: Text) {
    && IsUnicode(s)
    && forall k | 0 < k < |s| :: IsHigh(s[k - 1]) ==> !IsLow(s[k])
  }

  function Hex(n: nat): Text
    requires n < 0x10000
  {
    [HexChar(n / 4096), HexChar(n / 256 % 16), HexChar(n / 16 % 16), HexChar(n % 16)]
  }

  function UnitEscape(n: nat): Text
    requires n < 0x10000
  {
    [BACKSLASH, LETTER_U] + Hex(n)
  }

  function HighUnit(c: int): nat
    requires 0x10000 <= c < 0x110000
  {
    0xD800 + (c - 0x10000) / 0x400
  }

  function LowUnit(c: int): nat
    requires 0x10000 <= c < 0x110000
  {
    0xDC00 + (c - 0x10000) % 0x400
  }

  predicate IsShort(c: int) {
    c == QUOTE || c == BACKSLASH || c == 10 || c == 13 || c == 9 || c == 12 || c == 8
  }

  predicate IsPlain(c: int) {
    32 <= c < 127 && c != QUOTE && c != BACKSLASH
  }

  function DumpChar(c: int): Text
    requires 0 <= c < 0x110000
  {
    if IsShort(c) || IsPlain(c) then RenderChar(c)
    else if c < 0x10000 then UnitEscape(c)
    else UnitEscape(HighUnit(c)) + UnitEscape(LowUnit(c))
  }

  function DumpChars(s: Text, k: nat): Text
    requires IsUnicode(s) && k <= |s|
    decreases |s| - k
  {
    if k == |s| then [] else DumpChar(s[k]) + DumpChars(s, k + 1)
  }

  function DumpString(s: Text): Text
    requires IsUnicode(s)
  {
    [QUOTE] + (DumpChars(s, 0) + [QUOTE])
  }

  // ------------------------------------------------------------ one character

  lemma HexReads(t: Text, i: nat, e: nat, n: nat)
    requires n < 0x10000 && At(t, i, UnitEscape(n)) && i + 6 <= e <= |t|
    ensures t[i] == BACKSLASH && t[i + 1] == LETTER_U && HexUnit(t, i + 2, e) == Some(n)
    ensures StringEnd(t, i) == StringEnd(t, i + 6)
  {
    var a, b, c, d := n / 4096, n / 256 % 16, n / 16 % 16, n % 16;
    EscapeChars(t, i, n, a, b, c, d);
    DigitReads(a);
    DigitReads(b);
    DigitReads(c);
    DigitReads(d);
    FourDigits(t, i + 2, e, a, b, c, d);
    PlainStringEnd(t, i + 2, 4);
  }

  lemma EscapeChars(t: Text, i: nat, n: nat, a: nat, b: nat, c: nat, d: nat)
    requires n < 0x10000 && At(t, i, UnitEscape(n))
    requires a == n / 4096 && b == n / 256 % 16 && c == n / 16 % 16 && d == n % 16
    ensures i + 6 <= |t| && t[i] == BACKSLASH && t[i + 1] == LETTER_U
    ensures t[i + 2] == HexChar(a) && t[i + 3] == HexChar(b) && t[i + 4] == HexChar(c) && t[i + 5] == HexChar(d)
    ensures n == ((a * 16 + b) * 16 + c) * 16 + d
  {
    var s := UnitEscape(n);
    AtChar(t, i, s, 0);
    AtChar(t, i, s, 1);
    AtChar(t, i, s, 2);
    AtChar(t, i, s, 3);
    AtChar(t, i, s, 4);
    AtChar(t, i, s, 5);
  }

  lemma FourDigits(t: Text, i: nat, e: nat, a: nat, b: nat, c: nat, d: nat)
    requires i + 4 <= e <= |t|
    requires HexDigit(t[i]) == Some(a) && HexDigit(t[i + 1]) == Some(b)
    requires HexDigit(t[i + 2]) == Some(c) && HexDigit(t[i + 3]) == Some(d)
    ensures HexUnit(t, i, e) == Some(((a * 16 + b) * 16 + c) * 16 + d)
  {
  }

  lemma DigitReads(d: nat)
    requires d < 16
    ensures HexDigit(HexChar(d)) == Some(d) && HexChar(d) != QUOTE && HexChar(d) != BACKSLASH
  {
  }

  /** The second unit of what would be a pair, if one starts at `i`. */
  function LowAt(t: Text, i: nat, e: nat): Option<nat>
    requires e <= |t|
  {
    if i + 2 <= e && t[i] == BACKSLASH && t[i + 1] == LETTER_U then HexUnit(t, i + 2, e) else None
  }

  lemma UnitReads(t: Text, i: nat, e: nat, c: int)
    requires 0 <= c < 0x10000 && At(t, i, UnitEscape(c)) && i + 6 <= e <= |t|
    requires IsHigh(c) && LowAt(t, i + 6, e).Some? ==> !IsLow(LowAt(t, i + 6, e).value)
    ensures Unescape(t, i, e) == Prepend(c, Unescape(t, i + 6, e))
  {
    HexReads(t, i, e, c);
  }

  lemma PairReads(t: Text, i: nat, e: nat, c: int)
    requires 0x10000 <= c < 0x110000 && i + 12 <= e <= |t| && At(t, i, DumpChar(c))
    ensures Unescape(t, i, e) == Prepend(c, Unescape(t, i + 12, e)) && StringEnd(t, i) == StringEnd(t, i + 12)
  {
    AtConcat(t, i, UnitEscape(HighUnit(c)), UnitEscape(LowUnit(c)));
    HexReads(t, i, e, HighUnit(c));
    HexReads(t, i + 6, e, LowUnit(c));
  }

  /** What a dumped character looks like to an escape that ends right before it. */
  lemma NextUnit(t: Text, i: nat, s: Text, k: nat, e: nat)
    requires IsDumpable(s) && k < |s| && At(t, i, DumpChars(s, k)) && e == i + |DumpChars(s, k)| <= |t|
    ensures LowAt(t, i, e).Some? && IsLow(LowAt(t, i, e).value) ==> IsLow(s[k])
  {
    var c := s[k];
    AtConcat(t, i, DumpChar(c), DumpChars(s, k + 1));
    AtChar(t, i, DumpChar(c), 0);
    if IsShort(c) {
      AtChar(t, i, DumpChar(c), 1);
    } else if !IsPlain(c) && c < 0x10000 {
      HexReads(t, i, e, c);
    } else if !IsPlain(c) {
      AtConcat(t, i, UnitEscape(HighUnit(c)), UnitEscape(LowUnit(c)));
      HexReads(t, i, e, HighUnit(c));
    }
  }

  lemma DumpedUnit(t: Text, i: nat, s: Text, k: nat, e: nat)
    requires IsDumpable(s) && k < |s| && s[k] < 0x10000 && At(t, i, UnitEscape(s[k]))
    requires At(t, i + 6, DumpChars(s, k + 1)) && e == i + 6 + |DumpChars(s, k + 1)| && CharAt(t, e, QUOTE)
    ensures StringEnd(t, i) == StringEnd(t, i + 6)
    ensures Unescape(t, i, e) == Prepend(s[k], Unescape(t, i + 6, e))
  {
    HexReads(t, i, e, s[k]);
    if k + 1 < |s| {
      NextUnit(t, i + 6, s, k + 1, e);
    }
    UnitReads(t, i, e, s[k]);
  }

  lemma DumpedFirst(t: Text, i: nat, s: Text, k: nat, e: nat) returns (n: nat)
    requires IsDumpable(s) && k < |s| && At(t, i, DumpChars(s, k)) && e == i + |DumpChars(s, k)| && CharAt(t, e, QUOTE)
    ensures At(t, n, DumpChars(s, k + 1)) && e == n + |DumpChars(s, k + 1)|
    ensures StringEnd(t, i) == StringEnd(t, n)
    ensures Unescape(t, i, e) == Prepend(s[k], Unescape(t, n, e))
  {
    n := i + |DumpChar(s[k])|;
    AtConcat(t, i, DumpChar(s[k]), DumpChars(s, k + 1));
    CharReads(t, i, s, k, e, n);
  }

  lemma CharReads(t: Text, i: nat, s: Text, k: nat, e: nat, n: nat)
    requires IsDumpable(s) && k < |s| && At(t, i, DumpChar(s[k])) && n == i + |DumpChar(s[k])|
    requires At(t, n, DumpChars(s, k + 1)) && e == n + |DumpChars(s, k + 1)| && CharAt(t, e, QUOTE)
    ensures StringEnd(t, i) == StringEnd(t, n)
    ensures Unescape(t, i, e) == Prepend(s[k], Unescape(t, n, e))
  {
    if IsUnit(s[k]) {
      DumpedUnit(t, i, s, k, e);
    } else {
      OtherReads(t, i, e, s[k], n);
    }
  }

  predicate IsUnit(c: int) {
    !IsShort(c) && !IsPlain(c) && c < 0x10000
  }

  lemma OtherReads(t: Text, i: nat, e: nat, c: int, n: nat)
    requires 0 <= c < 0x110000 && !IsUnit(c) && At(t, i, DumpChar(c)) && n == i + |DumpChar(c)| <= e <= |t|
    ensures StringEnd(t, i) == StringEnd(t, n)
    ensures Unescape(t, i, e) == Prepend(c, Unescape(t, n, e))
  {
    if c < 0x10000 {
      SimpleReads(t, i, e, c, n);
    } else {
      PairReads(t, i, e, c);
    }
  }

  lemma SimpleReads(t: Text, i: nat, e: nat, c: int, n: nat)
    requires c >= 0 && At(t, i, RenderChar(c)) && n == i + |RenderChar(c)| <= e <= |t|
    ensures StringEnd(t, i) == StringEnd(t, n)
    ensures Unescape(t, i, e) == Prepend(c, Unescape(t, n, e))
  {
    RenderedChar(t, i, e, c);
  }

  lemma {:induction false} DumpedChars(t: Text, i: nat, s: Text, k: nat, e: nat)
    requires IsDumpable(s) && k <= |s| && At(t, i, DumpChars(s, k))
    requires e == i + |DumpChars(s, k)| && CharAt(t, e, QUOTE)
    ensures StringEnd(t, i) == Some(e + 1) && Unescape(t, i, e) == Some(Cut(s, k, |s|))
    decreases |s| - k
  {
    if k < |s| {
      var n := DumpedFirst(t, i, s, k, e);
      DumpedChars(t, n, s, k + 1, e);
      Joined(t, i, n, e, s, k);
    }
  }

  lemma Joined(t: Text, i: nat, n: nat, e: nat, s: Text, k: nat)
    requires k < |s| && e < |t| && StringEnd(t, i) == StringEnd(t, n) == Some(e + 1)
    requires Unescape(t, i, e) == Prepend(s[k], Unescape(t, n, e)) && Unescape(t, n, e) == Some(Cut(s, k + 1, |s|))
    ensures StringEnd(t, i) == Some(e + 1) && Unescape(t, i, e) == Some(Cut(s, k, |s|))
  {
  }

  lemma DumpedString(s: Text)
    requires IsDumpable(s)
    ensures IsString(DumpString(s)) && StringValue(DumpString(s)) == s
  {
    var t := DumpString(s);
    AtWhole(t, t);
    AtConcat(t, 0, [QUOTE], DumpChars(s, 0) + [QUOTE]);
    AtConcat(t, 1, DumpChars(s, 0), [QUOTE]);
    AtOne(t, 1 + |DumpChars(s, 0)|, QUOTE);
    DumpedChars(t, 1, s, 0, |t| - 1);
    AtWhole(s, s);
    CutAt(s, 0, s);
    StringIs(t, s);
  }

  lemma StringIs(t: Text, s: Text)
    requires |t| >= 2 && t[0] == QUOTE && StringEnd(t, 1) == Some(|t|) && Unescape(t, 1, |t| - 1) == Some(s)
    ensures IsString(t) && StringValue(t) == s
  {
  }

  // ------------------------------------------------------------------ values

  /** Every string and number can be written and read back. */
  predicate HasTokens(v: Value)
    decreases v
  {
    match v
    case Real(literal) => IsToken(literal) && Scalar(literal) == Some(v)
    case Str(s) => IsDumpable(s)
    case Tree(obj, fields) => HaveTokens(obj, fields)
    case _ => true
  }

  predicate HaveTokens(obj: bool, fs: Fields)
    decreases fs
  {
    fs.Field? ==>
      (obj ==> fs.step.Key? && IsDumpable(fs.step.name)) && HasTokens(fs.value) && HaveTokens(obj, fs.rest)
  }

  /** The start of a line, indented by two blanks a level. */
  function Break(level: nat): Text {
    [10] + seq(2 * level, i => SPACE)
  }

  function DumpHead(obj: bool, s: Step, level: nat): Head {
    if !obj then Plain(Break(level))
    else Named(Break(level), if s.Key? && IsUnicode(s.name) then DumpString(s.name) else [], [], [SPACE])
  }

  function Dump(v: Value, level: nat): (c: Json)
    ensures c.Node? <==> v.Tree?
    decreases v
  {
    match v
    case Str(s) => Leaf(if IsUnicode(s) then DumpString(s) else [])
    case Tree(obj, fields) => Node(obj, [], DumpFields(obj, fields, level))
    case _ => Leaf(Render(v).token)
  }

  function DumpFields(obj: bool, fs: Fields, level: nat): (ks: Kids)
    decreases fs
  {
    match fs
    case End => Nil
    case Field(s, v, rest) =>
      Cons(DumpHead(obj, s, level + 1), Dump(v, level + 1), if rest.End? then Break(level) else [],
           DumpFields(obj, rest, level))
  }

  lemma BreakIsBlank(level: nat)
    ensures IsBlank(Break(level))
  {
  }

  lemma {:induction false} DumpMeans(v: Value, level: nat)
    requires Shaped(v) && HasTokens(v)
    ensures WellFormed(Dump(v, level)) && ValueOf(Dump(v, level)) == v
    decreases v, 0
  {
    match v
    case Int(n) => RenderedInt(n);
    case Str(s) => DumpedString(s);
    case Real(_) =>
    case Tree(obj, fields) => DumpFieldsMean(obj, fields, 0, level);
    case _ => NameToken(v);
  }

  lemma {:induction false} DumpFieldsMean(obj: bool, fs: Fields, k: nat, level: nat)
    requires ShapedFields(obj, fs, k) && HaveTokens(obj, fs)
    ensures WellFormedKids(obj, DumpFields(obj, fs, level))
    ensures FieldsOf(obj, DumpFields(obj, fs, level), k) == fs
    decreases fs, 1
  {
    if fs.Field? {
      DumpMeans(fs.value, level + 1);
      DumpFieldsMean(obj, fs.rest, k + 1, level);
      DumpHeadMeans(obj, fs.step, k, level + 1);
      BreakIsBlank(level);
    }
  }

  lemma DumpHeadMeans(obj: bool, s: Step, k: nat, level: nat)
    requires if obj then s.Key? && IsDumpable(s.name) else s == Index(k)
    ensures WellFormedHead(obj, DumpHead(obj, s, level)) && HeadStep(DumpHead(obj, s, level), k) == s
  {
    BreakIsBlank(level);
    if obj {
      DumpedString(s.name);
    }
  }

  /** The text of the whole document, with a line feed at the end. */
  function DumpText(v: Value): Text {
    Print(Dump(v, 0)) + [10]
  }

  /** Loading what was dumped gives the value back. */
  lemma DumpLoads(v: Value)
    requires Shaped(v) && HasTokens(v)
    ensures Load(DumpText(v)) == Some(v)
  {
    DumpMeans(v, 0);
    ParsePrint([], Dump(v, 0), [10]);
    assert [] + Print(Dump(v, 0)) + [10] == DumpText(v);
    LoadIffParse(DumpText(v));
  }

  // ------------------------------------------------------------ loaded values

  /** What decoding a file as UTF-8 gives: no surrogates. */
  predicate IsDecoded(t: Text) {
    forall k | 0 <= k < |t| :: 0 <= t[k] < 0x110000 && !IsHigh(t[k]) && !IsLow(t[k])
  }

  lemma UnitBound(t: Text, i: nat, e: nat)
    requires e <= |t| && HexUnit(t, i, e).Some?
    ensures HexUnit(t, i, e).value < 0x10000
  {
    assert HexDigit(t[i]).value < 16 && HexDigit(t[i + 1]).value < 16;
    assert HexDigit(t[i + 2]).value < 16 && HexDigit(t[i + 3]).value < 16;
  }

  predicate StartsLow(s: Text) {
    s != [] && IsLow(s[0])
  }

  lemma Prepended(c: int, s: Text)
    requires 0 <= c < 0x110000 && IsDumpable(s) && (IsHigh(c) ==> !StartsLow(s))
    ensures IsDumpable([c] + s) && StartsLow([c] + s) == IsLow(c)
  {
    var r := [c] + s;
    forall k | 0 < k < |r| && IsHigh(r[k - 1]) ensures !IsLow(r[k]) {
      if k > 1 {
        assert r[k - 1] == s[k - 2] && r[k] == s[k - 1];
      }
    }
  }

  /** A loaded string has no pair left apart, for loading joins the two escapes of one. */
  lemma {:induction false} UnescapedDumpable(t: Text, i: nat, e: nat)
    requires IsDecoded(t) && e <= |t| && Unescape(t, i, e).Some?
    ensures IsDumpable(Unescape(t, i, e).value)
    ensures StartsLow(Unescape(t, i, e).value) ==> LowAt(t, i, e).Some? && IsLow(LowAt(t, i, e).value)
    decreases e - i
  {
    if i < e {
      if t[i] == BACKSLASH && t[i + 1] == LETTER_U {
        UnescapedUnit(t, i, e);
      } else if t[i] == BACKSLASH {
        UnescapedDumpable(t, i + 2, e);
        Prepended(SimpleEscape(t[i + 1]).value, Unescape(t, i + 2, e).value);
      } else {
        UnescapedDumpable(t, i + 1, e);
        Prepended(t[i], Unescape(t, i + 1, e).value);
      }
    }
  }

  lemma {:induction false} UnescapedUnit(t: Text, i: nat, e: nat)
    requires IsDecoded(t) && i + 1 < e <= |t| && Unescape(t, i, e).Some? && t[i] == BACKSLASH && t[i + 1] == LETTER_U
    ensures IsDumpable(Unescape(t, i, e).value)
    ensures StartsLow(Unescape(t, i, e).value) ==> LowAt(t, i, e).Some? && IsLow(LowAt(t, i, e).value)
    decreases e - i, 0
  {
    var unit, low := HexUnit(t, i + 2, e).value, LowAt(t, i + 6, e);
    UnitBound(t, i + 2, e);
    if IsHigh(unit) && low.Some? && IsLow(low.value) {
      UnescapedDumpable(t, i + 12, e);
      Prepended(0x10000 + (unit - 0xD800) * 0x400 + (low.value - 0xDC00), Unescape(t, i + 12, e).value);
    } else {
      UnescapedDumpable(t, i + 6, e);
      Prepended(unit, Unescape(t, i + 6, e).value);
    }
  }

  lemma StringTokens(token: Text)
    requires IsDecoded(token) && IsString(token)
    ensures IsDumpable(StringValue(token))
  {
    UnescapedDumpable(token, 1, |token| - 1);
  }

  predicate DecodedTree(c: Json)
    decreases c
  {
    match c
    case Leaf(token) => IsDecoded(token)
    case Node(_, _, kids) => DecodedKids(kids)
  }

  predicate DecodedKids(ks: Kids)
    decreases ks
  {
    ks.Cons? ==> (ks.head.Named? ==> IsDecoded(ks.head.name)) && DecodedTree(ks.value) && DecodedKids(ks.rest)
  }

  lemma AtDecoded(t: Text, i: nat, s: Text)
    requires IsDecoded(t) && At(t, i, s)
    ensures IsDecoded(s)
  {
    forall k | 0 <= k < |s| ensures 0 <= s[k] < 0x110000 && !IsHigh(s[k]) && !IsLow(s[k]) {
      AtChar(t, i, s, k);
    }
  }

  lemma {:induction false} HasDecoded(t: Text, i: nat, c: Json)
    requires IsDecoded(t) && Has(t, i, c)
    ensures DecodedTree(c)
    decreases c, 0
  {
    match c
    case Leaf(token) => AtDecoded(t, i, token);
    case Node(obj, inner, kids) =>
      if kids.Cons? {
        HaveDecoded(t, i + 1 + |inner|, obj, kids);
      }
  }

  lemma {:induction false} HaveDecoded(t: Text, i: nat, obj: bool, ks: Kids)
    requires IsDecoded(t) && ks.Cons? && HasKids(t, i, obj, ks)
    ensures DecodedKids(ks)
    decreases ks, 1
  {
    var v := i + HeadSize(ks.head);
    var e := v + Size(ks.value) + |ks.post|;
    if ks.head.Named? {
      AtDecoded(t, i + |ks.head.pre|, ks.head.name);
    }
    HasDecoded(t, v, ks.value);
    if ks.rest.Cons? {
      HaveDecoded(t, e + 1, obj, ks.rest);
    }
  }

  lemma {:induction false} FindTokens(obj: bool, fs: Fields, s: Step)
    requires HaveTokens(obj, fs) && s in Steps(fs)
    ensures HasTokens(Find(fs, s).value)
  {
    if fs.step != s {
      FindTokens(obj, fs.rest, s);
    }
  }

  lemma {:induction false} WithoutTokens(obj: bool, fs: Fields, s: Step)
    requires HaveTokens(obj, fs)
    ensures HaveTokens(obj, Without(fs, s))
  {
    if fs.Field? {
      WithoutTokens(obj, fs.rest, s);
    }
  }

  lemma LeafTokens(token: Text)
    requires IsToken(token) && IsDecoded(token)
    ensures HasTokens(Scalar(token).value)
  {
    if IsString(token) {
      StringTokens(token);
    }
  }

  lemma {:induction false} TreeTokens(c: Json)
    requires WellFormed(c) && DecodedTree(c)
    ensures HasTokens(ValueOf(c))
    decreases c, 0
  {
    match c
    case Leaf(token) => LeafTokens(token);
    case Node(obj, _, kids) => KidsTokens(obj, kids, 0);
  }

  lemma {:induction false} KidsTokens(obj: bool, ks: Kids, k: nat)
    requires WellFormedKids(obj, ks) && DecodedKids(ks)
    ensures HaveTokens(obj, FieldsOf(obj, ks, k))
    decreases ks, 1
  {
    if ks.Cons? {
      TreeTokens(ks.value);
      KidsTokens(obj, ks.rest, k + 1);
      var s, rest := HeadStep(ks.head, k), FieldsOf(obj, ks.rest, k + 1);
      if obj {
        StringTokens(ks.head.name);
      }
      if s in Steps(rest) {
        FindTokens(obj, rest, s);
        WithoutTokens(obj, rest, s);
      }
    }
  }

  /** Whatever is loaded from a decoded file can be dumped. */
  lemma LoadedTokens(t: Text)
    requires IsDecoded(t) && Load(t).Some?
    ensures HasTokens(Load(t).value)
  {
    Layout(t);
    HasDecoded(t, |JsonSplice.Leading(t)|, Parse(t).value);
    TreeTokens(Parse(t).value);
  }

  // ---------------------------------------------------------------- the layout

  /** The text of a value at a nesting level, as `json.dumps` with an indent of two writes it. */
  function Pretty(v: Value, level: nat): Text
    requires HasTokens(v)
    decreases v, 0
  {
    match v
    case Null => NULL
    case Bool(b) => if b then TRUE else FALSE
    case Int(n) => RenderInt(n)
    case Real(literal) => literal
    case Str(s) => DumpString(s)
    case Tree(obj, fields) =>
      var open, close := if obj then '{' as int else '[' as int, if obj then '}' as int else ']' as int;
      if fields.End? then [open, close]
      else [open] + PrettyFields(obj, fields, level) + NewLine(level) + [close]
  }

  /** A line break and two blanks for each level. */
  function NewLine(level: nat): Text {
    if level == 0 then ['\n' as int] else NewLine(level - 1) + [' ' as int, ' ' as int]
  }

  /** Each entry on a line of its own, one level deeper, with a comma between them. */
  function PrettyFields(obj: bool, fs: Fields, level: nat): Text
    requires fs.Field? && HaveTokens(obj, fs)
    decreases fs, 1
  {
    NewLine(level + 1) + (if obj then DumpString(fs.step.name) + [':' as int, ' ' as int] else [])
    + Pretty(fs.value, level + 1) + (if fs.rest.End? then [] else [',' as int] + PrettyFields(obj, fs.rest, level))
  }

  lemma {:induction false} NewLineIs(level: nat)
    ensures Break(level) == NewLine(level)
  {
    if level > 0 {
      NewLineIs(level - 1);
      assert Break(level) == Break(level - 1) + [SPACE, SPACE];
    }
  }

  /** The dumped tree is printed in that layout. */
  lemma {:induction false} DumpIsPretty(v: Value, level: nat)
    requires HasTokens(v)
    ensures Print(Dump(v, level)) == Pretty(v, level)
    decreases v, 0
  {
    if v.Tree? && v.fields.Field? {
      FieldsPretty(v.obj, v.fields, level);
      var ks := DumpFields(v.obj, v.fields, level);
      assert [] + PrintKids(v.obj, ks) == PrintKids(v.obj, ks);
      Front(Open(v.obj), PrettyFields(v.obj, v.fields, level), NewLine(level), Close(v.obj));
    }
  }

  lemma Front(open: int, middle: Text, gap: Text, close: int)
    ensures [open] + ([] + (middle + (gap + [close]))) == [open] + middle + gap + [close]
  {
  }

  lemma {:induction false} FieldsPretty(obj: bool, fs: Fields, level: nat)
    requires fs.Field? && HaveTokens(obj, fs)
    ensures PrintKids(obj, DumpFields(obj, fs, level)) == PrettyFields(obj, fs, level) + (NewLine(level) + [Close(obj)])
    decreases fs, 1
  {
    DumpIsPretty(fs.value, level + 1);
    NewLineIs(level + 1);
    NewLineIs(level);
    HeadPretty(obj, fs.step, level);
    var head := NewLine(level + 1) + if obj then DumpString(fs.step.name) + [':' as int, ' ' as int] else [];
    var value, end := Pretty(fs.value, level + 1), NewLine(level) + [Close(obj)];
    if fs.rest.End? {
      LastPretty(head, value, NewLine(level), Close(obj));
    } else {
      FieldsPretty(obj, fs.rest, level);
      NextPretty(head, value, PrettyFields(obj, fs.rest, level), end);
    }
  }

  lemma HeadPretty(obj: bool, s: Step, level: nat)
    requires obj ==> s.Key? && IsDumpable(s.name)
    ensures PrintHead(DumpHead(obj, s, level + 1)) ==
      NewLine(level + 1) + if obj then DumpString(s.name) + [':' as int, ' ' as int] else []
  {
    NewLineIs(level + 1);
    assert NewLine(level + 1) + [] == NewLine(level + 1);
    if obj {
      assert [] + ([COLON] + [SPACE]) == [':' as int, ' ' as int];
    }
  }

  lemma LastPretty(head: Text, value: Text, gap: Text, close: int)
    ensures head + (value + (gap + [close])) == head + value + [] + (gap + [close])
  {
  }

  lemma NextPretty(head: Text, value: Text, rest: Text, end: Text)
    ensures head + (value + ([] + ([COMMA] + (rest + end)))) == head + value + ([',' as int] + rest) + end
  {
  }

  /** The text that is written: the value in that layout, and a line break. */
  lemma DumpTextIs(v: Value)
    requires HasTokens(v)
    ensures DumpText(v) == Pretty(v, 0) + ['\n' as int]
  {
    DumpIsPretty(v, 0);
  }
}
