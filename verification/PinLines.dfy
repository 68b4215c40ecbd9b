/**
 The lines that the regular expressions of scripts/west-pin-sync.py match, spelt out part by part: a
 line has a form exactly when it is put together like that.
 */
module PinLines {
  import opened Prelude
  import opened PinText

  /** A key, white space, a word, and a rest that is empty or starts with white space. */
  predicate IsFieldLine(s: string, pre: string, key: string, gap: string, word: string, rest: string) {
    && IsBlank(pre) && IsBlank(gap) && IsWord(word) && (rest == "" || IsSpace(rest[0]))
    && s == pre + (key + (gap + (word + rest)))
  }

  ghost predicate IsField(s: string, key: string, f: Field) {
    exists pre, gap :: |pre| == f.indent && IsFieldLine(s, pre, key, gap, f.word, f.rest)
  }

  lemma BlankMargin(s: string)
    ensures IsBlank(s[..Margin(s)])
  {
  }

  lemma FirstWord(s: string)
    requires WordLength(s) > 0
    ensures var k := WordLength(s); IsWord(s[..k]) && (s[k..] == "" || IsSpace(s[k..][0]))
  {
    var k := WordLength(s);
    assert k < |s| ==> s[k..][0] == s[k];
  }

  lemma FieldSplit(s: string, n: nat, key: string, t: string, m: nat, u: string, k: nat)
    requires n <= |s| && key <= s[n..] && t == s[n..][|key|..] && m <= |t| && u == t[m..] && k <= |u|
    requires IsBlank(s[..n]) && IsBlank(t[..m]) && IsWord(u[..k]) && (u[k..] == "" || IsSpace(u[k..][0]))
    ensures IsFieldLine(s, s[..n], key, t[..m], u[..k], u[k..])
  {
    Parts(s, n, key, t, m, u, k);
  }

  lemma FieldFound(s: string, key: string, f: Field)
    requires FieldOf(s, key) == Some(f)
    ensures IsField(s, key, f)
  {
    var n := Margin(s);
    var t := s[n..][|key|..];
    var u := t[Margin(t)..];
    BlankMargin(s);
    BlankMargin(t);
    FirstWord(u);
    FieldSplit(s, n, key, t, Margin(t), u, WordLength(u));
    assert |s[..n]| == f.indent;
  }

  lemma FieldIff(s: string, key: string, f: Field)
    requires key != "" && !IsSpace(key[0])
    ensures FieldOf(s, key) == Some(f) <==> IsField(s, key, f)
  {
    if IsField(s, key, f) {
      var pre, gap :| |pre| == f.indent && IsFieldLine(s, pre, key, gap, f.word, f.rest);
      FieldIs(pre, key, gap, f.word, f.rest);
    }
    if FieldOf(s, key) == Some(f) {
      FieldFound(s, key, f);
    }
  }

  // ---------------------------------------------------------------- the forms

  ghost predicate IsRevisionLine(s: string, word: string) {
    exists f: Field :: f.word == word && IsField(s, "revision:", f)
  }

  ghost predicate IsPathLine(s: string, word: string) {
    exists f: Field :: f.word == word && IsBlank(f.rest) && IsField(s, "path:", f)
  }

  lemma RevisionIff(s: string, word: string)
    ensures IsRevisionLine(s, word) <==> FieldOf(s, REVISION).Some? && FieldOf(s, REVISION).value.word == word
  {
    if f: Field :| f.word == word && IsField(s, "revision:", f) {
      FieldIff(s, REVISION, f);
    }
    if FieldOf(s, REVISION).Some? {
      FieldIff(s, REVISION, FieldOf(s, REVISION).value);
    }
  }

  lemma PathIff(s: string, word: string)
    ensures IsPathLine(s, word) <==> WholeField(s, PATH).Some? && WholeField(s, PATH).value.word == word
  {
    if f: Field :| f.word == word && IsBlank(f.rest) && IsField(s, "path:", f) {
      FieldIff(s, PATH, f);
    }
    if FieldOf(s, PATH).Some? {
      FieldIff(s, PATH, FieldOf(s, PATH).value);
    }
  }

  /** A dash behind the indent, and then a name with nothing behind it. */
  ghost predicate IsNameLine(s: string, indent: nat, word: string) {
    exists pre, f: Field ::
      |pre| == indent && IsBlank(pre) && f.word == word && IsBlank(f.rest) && IsDashed(s, pre, f)
  }

  ghost predicate IsDashed(s: string, pre: string, f: Field) {
    exists t :: s == pre + ("-" + t) && IsField(t, "name:", f)
  }

  lemma DashAt(s: string, pre: string, t: string)
    requires IsBlank(pre) && s == pre + ("-" + t)
    ensures Margin(s) == |pre| && |pre| < |s| && s[|pre|] == '-' && s[|pre| + 1..] == t
  {
    MarginOf(pre, "-" + t);
  }

  lemma CutAt(s: string, n: nat, c: char)
    requires n < |s| && s[n] == c
    ensures s == s[..n] + ([c] + s[n + 1..])
  {
  }

  lemma NameParts(s: string, pre: string, t: string, f: Field)
    requires IsBlank(pre) && IsBlank(f.rest) && s == pre + ("-" + t) && IsField(t, "name:", f)
    ensures IsNameLine(s, |pre|, f.word)
  {
    assert IsDashed(s, pre, f);
  }

  lemma NameFound(s: string, f: Field)
    requires Margin(s) < |s| && s[Margin(s)] == '-' && FieldOf(s[Margin(s) + 1..], NAME) == Some(f) && IsBlank(f.rest)
    ensures IsNameLine(s, Margin(s), f.word)
  {
    var n := Margin(s);
    BlankMargin(s);
    FieldFound(s[n + 1..], NAME, f);
    CutAt(s, n, '-');
    NameParts(s, s[..n], s[n + 1..], f);
  }

  lemma NameSaid(s: string, pre: string, f: Field)
    requires IsBlank(pre) && IsBlank(f.rest) && IsDashed(s, pre, f)
    ensures NameOf(s).Some? && NameOf(s).value.indent == |pre| && NameOf(s).value.word == f.word
  {
    var t :| s == pre + ("-" + t) && IsField(t, "name:", f);
    DashAt(s, pre, t);
    FieldIff(t, NAME, f);
  }

  /** The line is a name with this indent and this word. */
  predicate HasName(s: string, indent: nat, word: string) {
    NameOf(s).Some? && NameOf(s).value.indent == indent && NameOf(s).value.word == word
  }

  lemma NameRead(s: string, indent: nat, word: string)
    requires IsNameLine(s, indent, word)
    ensures HasName(s, indent, word)
  {
    var pre, f: Field :| |pre| == indent && IsBlank(pre) && f.word == word && IsBlank(f.rest) && IsDashed(s, pre, f);
    NameSaid(s, pre, f);
  }

  lemma NameSpelt(s: string, indent: nat, word: string)
    requires HasName(s, indent, word)
    ensures IsNameLine(s, indent, word)
  {
    NameFound(s, FieldOf(s[Margin(s) + 1..], NAME).value);
  }

  lemma NameIff(s: string, indent: nat, word: string)
    ensures IsNameLine(s, indent, word) <==> HasName(s, indent, word)
  {
    if IsNameLine(s, indent, word) {
      NameRead(s, indent, word);
    }
    if HasName(s, indent, word) {
      NameSpelt(s, indent, word);
    }
  }

  // ----------------------------------------------------------------- sections

  /** A lower-case letter, then letters, digits and dashes. */
  predicate IsKey(key: string) {
    key != "" && IsLower(key[0]) && forall i | 0 <= i < |key| :: IsKeyChar(key[i])
  }

  predicate IsHeading(s: string, pre: string, key: string, post: string) {
    IsBlank(pre) && IsKey(key) && IsBlank(post) && s == pre + (key + (":" + post))
  }

  ghost predicate IsSectionLine(s: string, indent: nat, key: string) {
    exists pre, post :: |pre| == indent && IsHeading(s, pre, key, post)
  }

  lemma {:induction false} KeyEnds(key: string, t: string)
    requires (forall i | 0 <= i < |key| :: IsKeyChar(key[i])) && t != "" && !IsKeyChar(t[0])
    ensures KeyLength(key + t) == |key|
  {
    if key == "" {
      assert key + t == t;
    } else {
      assert (key + t)[1..] == key[1..] + t;
      KeyEnds(key[1..], t);
    }
  }

  lemma {:induction false} KeyChars(s: string)
    ensures forall i | 0 <= i < KeyLength(s) :: IsKeyChar(s[i])
  {
    if s != "" && IsKeyChar(s[0]) {
      KeyChars(s[1..]);
      assert forall i | 0 < i < KeyLength(s) :: s[i] == s[1..][i - 1];
    }
  }

  lemma HeadingFound(s: string, pre: string, key: string, post: string)
    requires IsHeading(s, pre, key, post)
    ensures SectionOf(s) == Some(Section(|pre|, key))
  {
    var t := key + (":" + post);
    assert t[0] == key[0];
    MarginOf(pre, t);
    KeyEnds(key, ":" + post);
    assert s[|pre|..] == t && t[..|key|] == key && t[|key|] == ':' && t[|key| + 1..] == post;
  }

  lemma SectionFound(s: string, n: nat, t: string, k: nat)
    requires n == Margin(s) && t == s[n..] && 0 < k == KeyLength(t) < |t| && IsLower(t[0]) && t[k] == ':' && IsBlank(t[k + 1..])
    ensures IsHeading(s, s[..n], t[..k], t[k + 1..])
  {
    KeyChars(t);
    CutAt(t, k, ':');
  }

  lemma SectionIff(s: string, indent: nat, key: string)
    ensures IsSectionLine(s, indent, key) <==> SectionOf(s) == Some(Section(indent, key))
  {
    if IsSectionLine(s, indent, key) {
      var pre, post :| |pre| == indent && IsHeading(s, pre, key, post);
      HeadingFound(s, pre, key, post);
    }
    if SectionOf(s) == Some(Section(indent, key)) {
      var t := s[indent..];
      SectionFound(s, indent, t, KeyLength(t));
      assert |s[..indent]| == indent;
    }
  }

  // -------------------------------------------------------------- quiet lines

  /** A blank line or a comment. */
  ghost predicate IsQuiet(s: string) {
    IsBlank(s) || exists pre, rest :: IsComment(s, pre, rest)
  }

  predicate IsComment(s: string, pre: string, rest: string) {
    IsBlank(pre) && s == pre + ("#" + rest)
  }

  lemma CommentIs(s: string, pre: string, rest: string)
    requires IsComment(s, pre, rest)
    ensures Margin(s) < |s| && s[Margin(s)] == '#'
  {
    MarginOf(pre, "#" + rest);
  }

  lemma CommentFound(s: string)
    requires Margin(s) < |s| && s[Margin(s)] == '#'
    ensures IsComment(s, s[..Margin(s)], s[Margin(s) + 1..])
  {
    BlankMargin(s);
    CutAt(s, Margin(s), '#');
  }

  lemma QuietIff(s: string)
    ensures IsQuiet(s) <==> IsBlank(s) || (Margin(s) < |s| && s[Margin(s)] == '#')
  {
    if pre, rest :| IsComment(s, pre, rest) {
      CommentIs(s, pre, rest);
    }
    if Margin(s) < |s| && s[Margin(s)] == '#' {
      CommentFound(s);
    }
  }
}
