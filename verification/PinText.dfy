/**
 Manifest text as scripts/west-pin-sync.py reads it: lines as `str.splitlines` cuts them, and the four
 line forms of its regular expressions. The text is read with universal newlines, so it has no
 carriage return.
 */
module PinText {
  import opened Prelude

  /** The characters at which `splitlines` cuts, the carriage return apart. */
  predicate IsBreak(c: char) {
    c == '\n' || '\U{0B}' <= c <= '\U{0C}' || '\U{1C}' <= c <= '\U{1E}' || c == '\U{85}' || '\U{2028}' <= c <= '\U{2029}'
  }

  /** What `\s` matches and `strip` removes. */
  predicate IsSpace(c: char) {
    || IsBreak(c) || c == ' ' || c == '\t' || c == '\r' || c == '\U{1F}' || c == '\U{A0}' || c == '\U{1680}'
    || '\U{2000}' <= c <= '\U{200A}' || c == '\U{202F}' || c == '\U{205F}' || c == '\U{3000}'
  }

  // ------------------------------------------------------------------- lines

  /** A line without and with the break that ends it; only the last line may have none. */
  datatype Line = Line(body: string, ending: string)

  predicate Unbroken(s: string) {
    forall i | 0 <= i < |s| :: !IsBreak(s[i])
  }

  predicate IsLine(l: Line, last: bool) {
    && Unbroken(l.body)
    && if l.ending == "" then last && l.body != "" else |l.ending| == 1 && IsBreak(l.ending[0])
  }

  predicate AreLines(ls: seq<Line>) {
    forall i | 0 <= i < |ls| :: IsLine(ls[i], i == |ls| - 1)
  }

  function Join(ls: seq<Line>): string {
    if ls == [] then "" else ls[0].body + ls[0].ending + Join(ls[1..])
  }

  function BreakAt(t: string): (n: nat)
    ensures n <= |t| && Unbroken(t[..n]) && (n < |t| ==> IsBreak(t[n]))
  {
    if t == "" || IsBreak(t[0]) then 0
    else
      var n := BreakAt(t[1..]);
      assert t[..n + 1] == [t[0]] + t[1..][..n];
      n + 1
  }

  /** `splitlines(keepends=True)`. */
  function SplitLines(t: string): (ls: seq<Line>)
    ensures AreLines(ls)
    decreases |t|
  {
    if t == "" then []
    else
      var n := BreakAt(t);
      if n == |t| then [Line(t, "")]
      else
        var rest := SplitLines(t[n + 1..]);
        [Line(t[..n], [t[n]])] + rest
  }

  lemma {:induction false} JoinSplit(t: string)
    ensures Join(SplitLines(t)) == t
    decreases |t|
  {
    if t != "" {
      var n := BreakAt(t);
      if n == |t| {
        JoinFirst(Line(t, ""), []);
      } else {
        JoinSplit(t[n + 1..]);
        JoinFirst(Line(t[..n], [t[n]]), SplitLines(t[n + 1..]));
        CutAround(t, n);
      }
    }
  }

  lemma JoinFirst(l: Line, ls: seq<Line>)
    ensures Join([l] + ls) == l.body + l.ending + Join(ls)
    ensures ls == [] ==> Join([l]) == l.body + l.ending
  {
    assert ([l] + ls)[1..] == ls;
    assert ls == [] ==> [l] + ls == [l] && l.body + l.ending + "" == l.body + l.ending;
  }

  lemma CutAround(t: string, n: nat)
    requires n < |t|
    ensures t[..n] + [t[n]] + t[n + 1..] == t
  {
  }

  lemma {:induction false} BreakFound(body: string, rest: string)
    requires Unbroken(body) && (rest == "" || IsBreak(rest[0]))
    ensures BreakAt(body + rest) == |body|
  {
    var t := body + rest;
    if body != "" {
      assert t[1..] == body[1..] + rest;
      BreakFound(body[1..], rest);
    } else {
      assert t == rest;
    }
  }

  /** Lines put together are cut where they were. */
  lemma {:induction false} SplitJoin(ls: seq<Line>)
    requires AreLines(ls)
    ensures SplitLines(Join(ls)) == ls
  {
    if ls != [] {
      var l := ls[0];
      var rest := l.ending + Join(ls[1..]);
      var t := Join(ls);
      assert IsLine(l, 0 == |ls| - 1);
      assert AreLines(ls[1..]) by {
        forall i | 0 <= i < |ls[1..]| ensures IsLine(ls[1..][i], i == |ls[1..]| - 1) {
          assert IsLine(ls[i + 1], i + 1 == |ls| - 1);
        }
      }
      assert t == l.body + rest;
      if l.ending == "" {
        assert ls == [l] && Join(ls[1..]) == "";
        assert rest == "";
        BreakFound(l.body, rest);
        assert t == l.body;
      } else {
        assert rest[0] == l.ending[0];
        BreakFound(l.body, rest);
        assert t[..|l.body|] == l.body && t[|l.body|] == l.ending[0];
        assert t[|l.body| + 1..] == Join(ls[1..]);
        assert l.ending == [t[|l.body|]];
        SplitJoin(ls[1..]);
      }
    }
  }

  // ------------------------------------------------------------- line forms

  /** The number of leading white space characters. */
  function Margin(s: string): (n: nat)
    ensures n <= |s| && (n < |s| ==> !IsSpace(s[n])) && forall i | 0 <= i < n :: IsSpace(s[i])
  {
    if s == "" || !IsSpace(s[0]) then 0
    else
      var n := Margin(s[1..]);
      assert forall i | 0 < i < n + 1 :: s[i] == s[1..][i - 1];
      n + 1
  }

  /** The length of the word that the text starts with. */
  function WordLength(s: string): (n: nat)
    ensures n <= |s| && (n < |s| ==> IsSpace(s[n])) && forall i | 0 <= i < n :: !IsSpace(s[i])
  {
    if s == "" || IsSpace(s[0]) then 0
    else
      var n := WordLength(s[1..]);
      assert forall i | 0 < i < n + 1 :: s[i] == s[1..][i - 1];
      n + 1
  }

  predicate IsBlank(s: string) {
    forall i | 0 <= i < |s| :: IsSpace(s[i])
  }

  predicate IsWord(s: string) {
    s != "" && forall i | 0 <= i < |s| :: !IsSpace(s[i])
  }

  /** A key, white space, a word and the rest of the line. */
  datatype Field = Field(indent: nat, word: string, rest: string)

  /** `^(\s*)KEY\s*(\S+)(.*)$`. */
  function FieldOf(s: string, key: string): Option<Field> {
    var n := Margin(s);
    if !(key <= s[n..]) then None
    else
      var t := s[n..][|key|..];
      var u := t[Margin(t)..];
      var k := WordLength(u);
      if k == 0 then None else Some(Field(n, u[..k], u[k..]))
  }

  /** The same, with nothing but white space behind the word. */
  function WholeField(s: string, key: string): Option<Field> {
    var f := FieldOf(s, key);
    if f.Some? && IsBlank(f.value.rest) then f else None
  }

  const REVISION := "revision:"
  const PATH := "path:"
  const NAME := "name:"

  /** `^(\s*)-\s*name:\s*(\S+)\s*$`: the indent is that of the dash. */
  function NameOf(s: string): Option<Field> {
    var n := Margin(s);
    if n == |s| || s[n] != '-' then None
    else
      var f := WholeField(s[n + 1..], NAME);
      if f.None? then None else Some(f.value.(indent := n))
  }

  predicate IsLower(c: char) {
    'a' <= c <= 'z'
  }

  predicate IsKeyChar(c: char) {
    IsLower(c) || '0' <= c <= '9' || c == '-'
  }

  function KeyLength(s: string): (n: nat)
    ensures n <= |s|
  {
    if s == "" || !IsKeyChar(s[0]) then 0 else 1 + KeyLength(s[1..])
  }

  datatype Section = Section(indent: nat, key: string)

  /** `^(\s*)([a-z][a-z0-9-]*):\s*$`. */
  function SectionOf(s: string): Option<Section> {
    var n := Margin(s);
    var t := s[n..];
    var k := KeyLength(t);
    if k == 0 || !IsLower(t[0]) || k == |t| || t[k] != ':' || !IsBlank(t[k + 1..]) then None
    else Some(Section(n, t[..k]))
  }

  // --------------------------------------------------------- a new revision

  /** The line with another revision: indent and what follows the value stay. */
  function Repinned(s: string, revision: string): string
    requires FieldOf(s, REVISION).Some?
  {
    s[..Margin(s)] + ("revision: " + (revision + FieldOf(s, REVISION).value.rest))
  }

  lemma {:induction false} MarginOf(pre: string, t: string)
    requires IsBlank(pre) && (t == "" || !IsSpace(t[0]))
    ensures Margin(pre + t) == |pre|
  {
    if pre == "" {
      assert pre + t == t;
    } else {
      assert (pre + t)[1..] == pre[1..] + t;
      MarginOf(pre[1..], t);
    }
  }

  lemma {:induction false} WordOf(w: string, t: string)
    requires (forall i | 0 <= i < |w| :: !IsSpace(w[i])) && (t == "" || IsSpace(t[0]))
    ensures WordLength(w + t) == |w|
  {
    if w == "" {
      assert w + t == t;
    } else {
      assert (w + t)[1..] == w[1..] + t;
      WordOf(w[1..], t);
    }
  }

  lemma RestBegins(s: string)
    requires FieldOf(s, REVISION).Some?
    ensures var rest := FieldOf(s, REVISION).value.rest; rest == "" || IsSpace(rest[0])
  {
    var t := s[Margin(s)..][|REVISION|..];
    var u := t[Margin(t)..];
    var k := WordLength(u);
    assert k < |u| ==> u[k..][0] == u[k];
  }

  /** A repinned line is a revision line with the new value, the same indent and the same rest. */
  lemma RepinnedField(s: string, revision: string)
    requires FieldOf(s, REVISION).Some? && IsWord(revision)
    ensures FieldOf(Repinned(s, revision), REVISION)
         == Some(FieldOf(s, REVISION).value.(word := revision))
  {
    RestBegins(s);
    RepinnedParts(s[..Margin(s)], revision, FieldOf(s, REVISION).value.rest);
  }

  lemma KeyAndGap(tail: string)
    ensures "revision: " + tail == REVISION + (" " + tail) && !IsSpace(REVISION[0])
  {
    assert "revision: " == REVISION + " ";
  }

  lemma RepinnedParts(pre: string, revision: string, rest: string)
    requires IsBlank(pre) && IsWord(revision) && (rest == "" || IsSpace(rest[0]))
    ensures FieldOf(pre + ("revision: " + (revision + rest)), REVISION) == Some(Field(|pre|, revision, rest))
  {
    KeyAndGap(revision + rest);
    FieldIs(pre, REVISION, " ", revision, rest);
  }

  /** A line made of the parts of a field is that field. */
  lemma FieldIs(pre: string, key: string, gap: string, word: string, rest: string)
    requires IsBlank(pre) && key != "" && !IsSpace(key[0]) && IsBlank(gap) && IsWord(word)
    requires rest == "" || IsSpace(rest[0])
    ensures FieldOf(pre + (key + (gap + (word + rest))), key) == Some(Field(|pre|, word, rest))
  {
    var u := word + rest;
    var t := gap + u;
    var line := pre + (key + t);
    MarginOf(pre, key + t);
    MarginOf(gap, u);
    WordOf(word, rest);
    assert line[|pre|..] == key + t && (key + t)[|key|..] == t;
    assert t[|gap|..] == u && u[..|word|] == word && u[|word|..] == rest;
  }

  // ---------------------------------------------------------------- formatting

  /** The white space between the key and the revision. */
  function GapOf(s: string): string
    requires FieldOf(s, REVISION).Some?
  {
    var t := s[Margin(s)..][|REVISION|..];
    t[..Margin(t)]
  }

  /** The line with the revision replaced where it stands. */
  function Exchanged(s: string, revision: string): string
    requires FieldOf(s, REVISION).Some?
  {
    s[..Margin(s)] + (REVISION + (GapOf(s) + (revision + FieldOf(s, REVISION).value.rest)))
  }

  /** A line is its parts. */
  lemma FieldParts(s: string)
    requires FieldOf(s, REVISION).Some?
    ensures Exchanged(s, FieldOf(s, REVISION).value.word) == s
  {
    var n := Margin(s);
    var t := s[n..][|REVISION|..];
    var u := t[Margin(t)..];
    var k := WordLength(u);
    Parts(s, n, REVISION, t, Margin(t), u, k);
  }

  lemma Parts(s: string, n: nat, key: string, t: string, m: nat, u: string, k: nat)
    requires n <= |s| && key <= s[n..] && t == s[n..][|key|..] && m <= |t| && u == t[m..] && k <= |u|
    ensures s[..n] + (key + (t[..m] + (u[..k] + u[k..]))) == s
  {
    assert u[..k] + u[k..] == u;
    assert t[..m] + u == t;
    assert key + t == s[n..];
  }

  /** The new line differs from the old one in the revision only, exactly when the gap was one blank. */
  lemma GapIff(s: string, revision: string)
    requires FieldOf(s, REVISION).Some?
    ensures Repinned(s, revision) == Exchanged(s, revision) <==> GapOf(s) == " "
  {
    var pre, tail := s[..Margin(s)], revision + FieldOf(s, REVISION).value.rest;
    KeyAndGap(tail);
    SameGap(pre, REVISION, " ", GapOf(s), tail);
  }

  lemma SameGap(pre: string, key: string, a: string, b: string, tail: string)
    ensures pre + (key + (a + tail)) == pre + (key + (b + tail)) <==> a == b
  {
    var x, y := pre + (key + (a + tail)), pre + (key + (b + tail));
    if x == y {
      assert |a| == |b|;
      forall i | 0 <= i < |a| ensures a[i] == b[i] {
        assert x[|pre| + |key| + i] == a[i] && y[|pre| + |key| + i] == b[i];
      }
    }
  }
}
