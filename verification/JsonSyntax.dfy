/**
 JSON texts (RFC 8259, sections 2 to 7, as Python's `json.loads` reads them) with their layout.

 A text is a sequence of code points. A syntax tree keeps every token and all white space, so
 printing it gives the text back. Arrays and objects share one form: a bracket, then entries that
 each have a head (white space, and for an object the quoted name and its colon), a value and the
 white space after it.
 */
module JsonSyntax {
  import opened Prelude

  type Text = seq<int>

  const QUOTE := '"' as int
  const BACKSLASH := '\\' as int
  const COMMA := ',' as int
  const COLON := ':' as int
  const MINUS := '-' as int

  // The names json.loads knows: null, true, false, NaN, Infinity and -Infinity.
  const NULL: Text := [110, 117, 108, 108]
  const TRUE: Text := [116, 114, 117, 101]
  const FALSE: Text := [102, 97, 108, 115, 101]
  const NAN: Text := [78, 97, 78]
  const INFINITY: Text := [73, 110, 102, 105, 110, 105, 116, 121]
  const NEG_INFINITY: Text := [MINUS] + INFINITY

  // ----------------------------------------------------------------- values

  /** One step of a JSON path: an object name or an array position. */
  datatype Step = Key(name: Text) | Index(position: nat)

  type Path = seq<Step>

  datatype Value =
    | Null
    | Bool(b: bool)
    | Int(n: int)
    | Real(literal: Text)  // a number with a fraction or an exponent, known by its literal
    | Str(s: Text)
    | Tree(obj: bool, fields: Fields)

  /** The entries of an array or object, in order. */
  datatype Fields = End | Field(step: Step, value: Value, rest: Fields)

  function Steps(fs: Fields): set<Step> {
    match fs
    case End => {}
    case Field(s, _, rest) => {s} + Steps(rest)
  }

  function Find(fs: Fields, s: Step): (v: Option<Value>)
    ensures v.Some? <==> s in Steps(fs)
    ensures v.Some? ==> v.value < fs
  {
    match fs
    case End => None
    case Field(s', v, rest) => if s' == s then Some(v) else Find(rest, s)
  }

  function Without(fs: Fields, s: Step): (r: Fields)
    ensures Steps(r) == Steps(fs) - {s}
  {
    match fs
    case End => End
    case Field(s', v, rest) => if s' == s then Without(rest, s) else Field(s', v, Without(rest, s))
  }

  // ----------------------------------------------------------------- tokens

  predicate IsSpace(c: int) {
    c == 32 || c == 10 || c == 13 || c == 9
  }

  predicate IsBlank(t: Text) {
    forall i | 0 <= i < |t| :: IsSpace(t[i])
  }

  function Open(obj: bool): int {
    if obj then '{' as int else '[' as int
  }

  function Close(obj: bool): int {
    if obj then '}' as int else ']' as int
  }

  /** What ends a number or a name: white space, a comma or a closing bracket. */
  predicate IsDelimiter(c: int) {
    IsSpace(c) || c == COMMA || c == Close(true) || c == Close(false)
  }

  predicate IsDigit(c: int) {
    '0' as int <= c <= '9' as int
  }

  /** The number that the characters from `i` up to `e` spell in decimal. */
  function DigitsValue(t: Text, i: nat, e: nat): (n: nat)
    requires i <= e <= |t| && forall k | i <= k < e :: IsDigit(t[k])
    decreases e - i
  {
    if i == e then 0
    else
      assert IsDigit(t[e - 1]);
      DigitsValue(t, i, e - 1) * 10 + (t[e - 1] - '0' as int)
  }

  /** From `i` to the end the token is a natural number without a leading zero. */
  predicate IsNatural(t: Text, i: nat) {
    && i < |t| && (forall k | i <= k < |t| :: IsDigit(t[k]))
    && (|t| == i + 1 || t[i] != '0' as int)
  }

  predicate IsInteger(t: Text) {
    IsNatural(t, 0) || (|t| > 0 && t[0] == MINUS && IsNatural(t, 1))
  }

  function IntegerValue(t: Text): (n: int)
    requires IsInteger(t)
  {
    if t[0] == MINUS then -(DigitsValue(t, 1, |t|) as int) else DigitsValue(t, 0, |t|)
  }

  function DigitsEnd(t: Text, i: nat): (e: nat)
    ensures i <= e && (i <= |t| ==> e <= |t|)
    decreases |t| - i
  {
    if i < |t| && IsDigit(t[i]) then DigitsEnd(t, i + 1) else i
  }

  /** A number as RFC 8259, section 6, has it, with a fraction or an exponent. */
  predicate IsReal(t: Text) {
    var i := if |t| > 0 && t[0] == MINUS then 1 else 0;
    var d := DigitsEnd(t, i);
    var f := if d < |t| && t[d] == '.' as int then DigitsEnd(t, d + 1) else d;
    var x := if f < |t| && (t[f] == 'e' as int || t[f] == 'E' as int) then f + 1 else f;
    var y := if f < x < |t| && (t[x] == MINUS || t[x] == '+' as int) then x + 1 else x;
    var e := if f < x then DigitsEnd(t, y) else f;
    && i < d < |t| == e
    && (d == i + 1 || t[i] != '0' as int)
    && (f == d || f > d + 1)
    && (e == f || e > y)
  }

  function HexDigit(c: int): Option<nat> {
    if IsDigit(c) then Some(c - '0' as int)
    else if 'a' as int <= c <= 'f' as int then Some(c - 'a' as int + 10)
    else if 'A' as int <= c <= 'F' as int then Some(c - 'A' as int + 10)
    else None
  }

  /** The code unit of the four hexadecimal digits from `i` up to at most `e`. */
  function HexUnit(t: Text, i: nat, e: nat): Option<nat>
    requires e <= |t|
  {
    if e < i + 4 then None
    else
      var a, b, c, d := HexDigit(t[i]), HexDigit(t[i + 1]), HexDigit(t[i + 2]), HexDigit(t[i + 3]);
      if a.None? || b.None? || c.None? || d.None? then None
      else Some(((a.value * 16 + b.value) * 16 + c.value) * 16 + d.value)
  }

  function SimpleEscape(c: int): Option<int> {
    if c == QUOTE || c == BACKSLASH || c == '/' as int then Some(c)
    else if c == 'b' as int then Some(8)
    else if c == 'f' as int then Some(12)
    else if c == 'n' as int then Some(10)
    else if c == 'r' as int then Some(13)
    else if c == 't' as int then Some(9)
    else None
  }

  function Prepend(c: int, rest: Option<Text>): Option<Text> {
    if rest.None? then None else Some([c] + rest.value)
  }

  /**
   What the inside of a string token, from `i` up to `e`, denotes. The two escapes of a surrogate
   pair join to one code point and lone surrogates stay.
   */
  function Unescape(t: Text, i: nat, e: nat): Option<Text>
    requires e <= |t|
    decreases e - i
  {
    if i >= e then Some([])
    else if t[i] == BACKSLASH then
      if i + 1 == e then None
      else if t[i + 1] == 'u' as int then
        var unit := HexUnit(t, i + 2, e);
        if unit.None? then None
        else
          var low := if i + 8 <= e && t[i + 6] == BACKSLASH && t[i + 7] == 'u' as int then HexUnit(t, i + 8, e) else None;
          if 0xD800 <= unit.value <= 0xDBFF && low.Some? && 0xDC00 <= low.value <= 0xDFFF
          then Prepend(0x10000 + (unit.value - 0xD800) * 0x400 + (low.value - 0xDC00), Unescape(t, i + 12, e))
          else Prepend(unit.value, Unescape(t, i + 6, e))
      else
        var c := SimpleEscape(t[i + 1]);
        if c.None? then None else Prepend(c.value, Unescape(t, i + 2, e))
    else if t[i] < 32 || t[i] == QUOTE then None
    else Prepend(t[i], Unescape(t, i + 1, e))
  }

  /** The position after the closing quote, from a position inside a string token. */
  function StringEnd(t: Text, i: nat): (e: Option<nat>)
    ensures e.Some? ==> i < e.value <= |t|
    decreases |t| - i
  {
    if i >= |t| then None
    else if t[i] == QUOTE then Some(i + 1)
    else StringEnd(t, if t[i] == BACKSLASH then i + 2 else i + 1)
  }

  predicate IsString(t: Text) {
    && |t| >= 2 && t[0] == QUOTE && StringEnd(t, 1) == Some(|t|)
    && Unescape(t, 1, |t| - 1).Some?
  }

  function StringValue(t: Text): (s: Text)
    requires IsString(t)
  {
    Unescape(t, 1, |t| - 1).value
  }

  /** The value of a token that is neither bracket, comma nor colon. */
  function Scalar(t: Text): (v: Option<Value>)
    ensures v.Some? ==> !v.value.Tree?
  {
    if IsString(t) then Some(Str(StringValue(t)))
    else if t == NULL then Some(Null)
    else if t == TRUE then Some(Bool(true))
    else if t == FALSE then Some(Bool(false))
    else if IsInteger(t) then Some(Int(IntegerValue(t)))
    else if IsReal(t) || t == NAN || t == INFINITY || t == NEG_INFINITY then Some(Real(t))
    else None
  }

  // ----------------------------------------------------------- syntax trees

  datatype Head = Plain(pre: Text) | Named(pre: Text, name: Text, mid: Text, gap: Text)

  datatype Json = Leaf(token: Text) | Node(obj: bool, inner: Text, kids: Kids)

  datatype Kids = Nil | Cons(head: Head, value: Json, post: Text, rest: Kids)

  function PrintHead(h: Head): Text {
    match h
    case Plain(pre) => pre
    case Named(pre, name, mid, gap) => pre + (name + (mid + ([COLON] + gap)))
  }

  function Print(c: Json): Text
    decreases c, 0
  {
    match c
    case Leaf(token) => token
    case Node(obj, inner, kids) =>
      [Open(obj)] + (inner + if kids.Nil? then [Close(obj)] else PrintKids(obj, kids))
  }

  function PrintKids(obj: bool, ks: Kids): Text
    requires ks.Cons?
    decreases ks, 0
  {
    PrintHead(ks.head) + (Print(ks.value) + (ks.post + PrintTail(obj, ks.rest)))
  }

  function PrintTail(obj: bool, ks: Kids): Text
    decreases ks, 1
  {
    if ks.Nil? then [Close(obj)] else [COMMA] + PrintKids(obj, ks)
  }

  predicate WellFormedHead(obj: bool, h: Head) {
    match h
    case Plain(pre) => !obj && IsBlank(pre)
    case Named(pre, name, mid, gap) => obj && IsBlank(pre) && IsString(name) && IsBlank(mid) && IsBlank(gap)
  }

  predicate IsWord(t: Text) {
    |t| > 0 && t[0] != QUOTE && t[0] != Open(true) && t[0] != Open(false) && NoDelimiter(t)
  }

  predicate NoDelimiter(t: Text) {
    forall i | 0 <= i < |t| :: !IsDelimiter(t[i])
  }

  predicate IsToken(t: Text) {
    Scalar(t).Some? && (IsString(t) || IsWord(t))
  }

  predicate WellFormed(c: Json)
    decreases c
  {
    match c
    case Leaf(token) => IsToken(token)
    case Node(obj, inner, kids) => if kids.Nil? then IsBlank(inner) else inner == [] && WellFormedKids(obj, kids)
  }

  predicate WellFormedKids(obj: bool, ks: Kids)
    decreases ks
  {
    ks.Cons? ==>
      WellFormedHead(obj, ks.head) && WellFormed(ks.value) && IsBlank(ks.post) && WellFormedKids(obj, ks.rest)
  }

  function HeadStep(h: Head, k: nat): Step {
    match h
    case Plain(_) => Index(k)
    case Named(_, name, _, _) => if IsString(name) then Key(StringValue(name)) else Key(name)
  }

  function ValueOf(c: Json): (v: Value)
    requires WellFormed(c)
    ensures v.Tree? <==> c.Node?
    decreases c
  {
    match c
    case Leaf(token) => Scalar(token).value
    case Node(obj, _, kids) => Tree(obj, FieldsOf(obj, kids, 0))
  }

  /**
   A dictionary built from its entries: a repeated name keeps its first place and takes its last
   value.
   */
  function FieldsOf(obj: bool, ks: Kids, k: nat): Fields
    requires WellFormedKids(obj, ks)
    decreases ks
  {
    if ks.Nil? then End
    else
      var s := HeadStep(ks.head, k);
      var rest := FieldsOf(obj, ks.rest, k + 1);
      var later := Find(rest, s);
      if later.Some? then Field(s, later.value, Without(rest, s)) else Field(s, ValueOf(ks.value), rest)
  }

  // -------------------------------------------------------------- positions

  /** `s` stands in the text at position `i`. */
  predicate At(t: Text, i: nat, s: Text) {
    i + |s| <= |t| && Agree(t, i, s, |s|)
  }

  /** The first `n` characters of `s` stand in the text at position `i`. */
  predicate Agree(t: Text, i: nat, s: Text, n: nat)
    requires n <= |s| && i + n <= |t|
  {
    n == 0 || (t[i + n - 1] == s[n - 1] && Agree(t, i, s, n - 1))
  }

  predicate CharAt(t: Text, i: nat, c: int) {
    i < |t| && t[i] == c
  }

  function HeadSize(h: Head): nat {
    match h
    case Plain(pre) => |pre|
    case Named(pre, name, mid, gap) => |pre| + |name| + |mid| + 1 + |gap|
  }

  function Size(c: Json): nat
    decreases c
  {
    match c
    case Leaf(token) => |token|
    case Node(_, inner, kids) => 1 + |inner| + if kids.Nil? then 1 else KidsSize(kids)
  }

  /** The size of the entries with their commas and the closing bracket. */
  function KidsSize(ks: Kids): nat
    decreases ks
  {
    if ks.Nil? then 0 else HeadSize(ks.head) + Size(ks.value) + |ks.post| + 1 + KidsSize(ks.rest)
  }

  /** The text holds the head, tree or entries from position `i` on. */
  predicate HasHead(t: Text, i: nat, h: Head) {
    match h
    case Plain(pre) => At(t, i, pre)
    case Named(pre, name, mid, gap) =>
      && At(t, i, pre)
      && At(t, i + |pre|, name)
      && At(t, i + |pre| + |name|, mid)
      && CharAt(t, i + |pre| + |name| + |mid|, COLON)
      && At(t, i + |pre| + |name| + |mid| + 1, gap)
  }

  predicate Has(t: Text, i: nat, c: Json)
    decreases c, 0
  {
    match c
    case Leaf(token) => At(t, i, token)
    case Node(obj, inner, kids) =>
      && CharAt(t, i, Open(obj))
      && At(t, i + 1, inner)
      && (if kids.Nil? then CharAt(t, i + 1 + |inner|, Close(obj)) else HasKids(t, i + 1 + |inner|, obj, kids))
  }

  predicate HasKids(t: Text, i: nat, obj: bool, ks: Kids)
    requires ks.Cons?
    decreases ks, 0
  {
    var v := i + HeadSize(ks.head);
    var p := v + Size(ks.value);
    var e := p + |ks.post|;
    && HasHead(t, i, ks.head)
    && Has(t, v, ks.value)
    && At(t, p, ks.post)
    && HasTail(t, e, obj, ks.rest)
  }

  predicate HasTail(t: Text, i: nat, obj: bool, ks: Kids)
    decreases ks, 1
  {
    if ks.Nil? then CharAt(t, i, Close(obj)) else CharAt(t, i, COMMA) && HasKids(t, i + 1, obj, ks)
  }

  // ----------------------------------------------------------------- parser

  datatype Parsed<T> = Fail | Ok(value: T, end: nat)

  /** The characters from `i` up to `e`. */
  function Cut(t: Text, i: nat, e: nat): (s: Text)
    requires i <= e <= |t|
    ensures |s| == e - i
    decreases e - i
  {
    if i == e then [] else [t[i]] + Cut(t, i + 1, e)
  }

  function SpaceEnd(t: Text, i: nat): (e: nat)
    requires i <= |t|
    ensures i <= e <= |t|
    decreases |t| - i
  {
    if i == |t| || !IsSpace(t[i]) then i else SpaceEnd(t, i + 1)
  }

  function WordEnd(t: Text, i: nat): (e: nat)
    requires i <= |t|
    ensures i <= e <= |t|
    decreases |t| - i
  {
    if i == |t| || IsDelimiter(t[i]) then i else WordEnd(t, i + 1)
  }

  function ParseString(t: Text, i: nat): (r: Parsed<Text>)
    ensures r.Ok? ==> i < r.end <= |t|
  {
    if i >= |t| || t[i] != QUOTE then Fail
    else
      var e := StringEnd(t, i + 1);
      if e.None? || !IsString(Cut(t, i, e.value)) then Fail else Ok(Cut(t, i, e.value), e.value)
  }

  function ParseValue(t: Text, i: nat): (r: Parsed<Json>)
    ensures r.Ok? ==> i < r.end <= |t|
    decreases |t| - i, 0
  {
    if i >= |t| then Fail
    else if t[i] == Open(true) || t[i] == Open(false) then
      var obj := t[i] == Open(true);
      var e := SpaceEnd(t, i + 1);
      if e < |t| && t[e] == Close(obj) then Ok(Node(obj, Cut(t, i + 1, e), Nil), e + 1)
      else
        var ks := ParseKids(t, i + 1, obj);
        if ks.Fail? then Fail else Ok(Node(obj, [], ks.value), ks.end)
    else if t[i] == QUOTE then
      var s := ParseString(t, i);
      if s.Fail? then Fail else Ok(Leaf(s.value), s.end)
    else
      var e := WordEnd(t, i);
      if i == e || Scalar(Cut(t, i, e)).None? then Fail else Ok(Leaf(Cut(t, i, e)), e)
  }

  function ParseHead(t: Text, i: nat, obj: bool): (r: Parsed<Head>)
    requires i <= |t|
    ensures r.Ok? ==> i <= r.end <= |t|
  {
    var e := SpaceEnd(t, i);
    if !obj then Ok(Plain(Cut(t, i, e)), e)
    else
      var s := ParseString(t, e);
      if s.Fail? then Fail
      else
        var m := SpaceEnd(t, s.end);
        if m == |t| || t[m] != COLON then Fail
        else
          var g := SpaceEnd(t, m + 1);
          Ok(Named(Cut(t, i, e), s.value, Cut(t, s.end, m), Cut(t, m + 1, g)), g)
  }

  function ParseKids(t: Text, i: nat, obj: bool): (r: Parsed<Kids>)
    requires i <= |t|
    ensures r.Ok? ==> i < r.end <= |t| && r.value.Cons?
    decreases |t| - i, 1
  {
    var h := ParseHead(t, i, obj);
    if h.Fail? then Fail
    else
      var v := ParseValue(t, h.end);
      if v.Fail? then Fail
      else
        var e := SpaceEnd(t, v.end);
        if e == |t| then Fail
        else if t[e] == Close(obj) then Ok(Cons(h.value, v.value, Cut(t, v.end, e), Nil), e + 1)
        else if t[e] != COMMA then Fail
        else
          var ks := ParseKids(t, e + 1, obj);
          if ks.Fail? then Fail else Ok(Cons(h.value, v.value, Cut(t, v.end, e), ks.value), ks.end)
  }

  /** A whole document: white space, one value, white space. */
  function Parse(t: Text): (r: Option<Json>)
  {
    var v := ParseValue(t, SpaceEnd(t, 0));
    if v.Ok? && SpaceEnd(t, v.end) == |t| then Some(v.value) else None
  }
}
