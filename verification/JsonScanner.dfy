/**
 The scanner that maps the path of every scalar in a registry text to the place of its token
 (`_scalar_spans` of scripts/generate_namespace_writer_registry.py). It keeps no tree; what it finds
 is stated by the tree that the text parses to.
 */
module JsonScanner {
  import opened Prelude
  import opened JsonSyntax
  import opened JsonRoundTrip

  /** From where to where a token stands in the text. */
  datatype Span = Span(start: nat, end: nat)

  type Spans = map<Path, Span>

  /** The paths and places of the scalars of a tree that stands at `at`. */
  function SpansOf(c: Json, path: Path, at: nat): Spans
    decreases c
  {
    match c
    case Leaf(token) => map[path := Span(at, at + |token|)]
    case Node(_, inner, kids) => KidSpans(kids, path, at + 1 + |inner|, 0)
  }

  /** The same for entries, the first of which is entry number `k`; of a repeated path the last stays. */
  function KidSpans(ks: Kids, path: Path, at: nat, k: nat): Spans
    decreases ks
  {
    if ks.Nil? then map[]
    else
      var v := at + HeadSize(ks.head);
      SpansOf(ks.value, path + [HeadStep(ks.head, k)], v)
      + KidSpans(ks.rest, path, v + Size(ks.value) + |ks.post| + 1, k + 1)
  }

  /** After the value that ends at `e` comes, past white space, what may follow a value. */
  predicate Follows(t: Text, e: nat)
    requires e <= |t|
  {
    var n := SpaceEnd(t, e);
    n == |t| || t[n] == COMMA || t[n] == Close(true) || t[n] == Close(false)
  }

  lemma {:induction false} SpaceEndStops(t: Text, i: nat)
    requires i <= |t|
    ensures SpaceEnd(t, i) < |t| ==> !IsSpace(t[SpaceEnd(t, i)])
    ensures SpaceEnd(t, SpaceEnd(t, i)) == SpaceEnd(t, i)
    decreases |t| - i
  {
    if i < |t| && IsSpace(t[i]) {
      SpaceEndStops(t, i + 1);
    }
  }

  /** The end of a token that is not a string: up to a comma or closing bracket, less white space. */
  function TokenEnd(t: Text, i: nat): (e: nat)
    requires i <= |t|
    ensures i <= e <= |t|
    decreases |t| - i
  {
    if i == |t| || t[i] == COMMA || t[i] == Close(true) || t[i] == Close(false) then i else TokenEnd(t, i + 1)
  }

  function TrimEnd(t: Text, start: nat, e: nat): (r: nat)
    requires start <= e <= |t|
    ensures start <= r <= e
  {
    if e > start && IsSpace(t[e - 1]) then TrimEnd(t, start, e - 1) else e
  }

  lemma {:induction false} TokenEndSpace(t: Text, i: nat)
    requires i <= |t|
    ensures TokenEnd(t, SpaceEnd(t, i)) == TokenEnd(t, i)
    decreases |t| - i
  {
    if i < |t| && IsSpace(t[i]) {
      TokenEndSpace(t, i + 1);
    }
  }

  lemma {:induction false} TokenEndWord(t: Text, i: nat)
    requires i <= |t|
    ensures TokenEnd(t, WordEnd(t, i)) == TokenEnd(t, i)
    decreases |t| - i
  {
    if i < |t| && !IsDelimiter(t[i]) {
      TokenEndWord(t, i + 1);
    }
  }

  lemma {:induction false} TrimSpace(t: Text, start: nat, i: nat)
    requires start <= i <= |t|
    ensures TrimEnd(t, start, SpaceEnd(t, i)) == TrimEnd(t, start, i)
    decreases |t| - i
  {
    if i < |t| && IsSpace(t[i]) {
      TrimSpace(t, start, i + 1);
    }
  }

  lemma {:induction false} WordEndLast(t: Text, i: nat)
    requires i <= |t| && i < WordEnd(t, i)
    ensures !IsSpace(t[WordEnd(t, i) - 1])
    decreases |t| - i
  {
    if i + 1 < WordEnd(t, i) {
      WordEndLast(t, i + 1);
    }
  }

  /** Before what may follow a value, the scanner's end of a word is the parser's. */
  lemma WordToken(t: Text, i: nat)
    requires i < |t| && i < WordEnd(t, i) && Follows(t, WordEnd(t, i))
    ensures TrimEnd(t, i, TokenEnd(t, i)) == WordEnd(t, i)
  {
    var e := WordEnd(t, i);
    TokenEndWord(t, i);
    TokenEndSpace(t, e);
    TrimSpace(t, i, e);
    WordEndLast(t, i);
  }

  lemma MergeStep(here: Spans, all: Spans, a: Spans, b: Spans, now: Spans, goal: Spans)
    requires here + all == goal && all == a + b && now == here + a
    ensures now + b == goal
    ensures b == map[] ==> now == goal
  {
    assert (here + a) + b == here + (a + b);
    assert now + map[] == now;
  }

  lemma NodeParse(t: Text, i: nat, obj: bool, n: nat)
    requires CharAt(t, i, Open(obj)) && SpaceEnd(t, i + 1) == n < |t| && t[n] != Close(obj)
    ensures SpaceEnd(t, i) == i
    ensures ParseValue(t, i).Ok? <==> ParseKids(t, i + 1, obj).Ok?
    ensures ParseValue(t, i).Ok? ==>
      ParseValue(t, i) == Ok(Node(obj, [], ParseKids(t, i + 1, obj).value), ParseKids(t, i + 1, obj).end)
  {
  }

  lemma EntrySpans(t: Text, at: nat, obj: bool, path: Path, k: nat, ks: Kids, v: nat, p: nat, e: nat)
    requires ParsedEntry(t, at, obj, ks, v, p, e)
    ensures Follows(t, p)
    ensures KidSpans(ks, path, at, k)
         == SpansOf(ks.value, path + [HeadStep(ks.head, k)], v) + KidSpans(ks.rest, path, e + 1, k + 1)
  {
    EntrySound(t, at, obj, ks, v, p, e);
    ParseValueSound(t, v, ks.value, p);
  }

  /** What the first of some parsed entries adds to their spans, and what comes after it. */
  lemma KidsTaken(t: Text, at: nat, obj: bool, path: Path, k: nat, ks: Kids, end: nat)
      returns (v: nat, p: nat, e: nat)
    requires at <= |t| && ParseKids(t, at, obj) == Ok(ks, end)
    ensures ParsedEntry(t, at, obj, ks, v, p, e) && Follows(t, p)
    ensures if ks.rest.Nil? then end == e + 1 else ParseKids(t, e + 1, obj) == Ok(ks.rest, end)
    ensures KidSpans(ks, path, at, k)
         == SpansOf(ks.value, path + [HeadStep(ks.head, k)], v) + KidSpans(ks.rest, path, e + 1, k + 1)
  {
    v, p, e := ParseKidsParts(t, at, obj, ks, end);
    EntrySpans(t, at, obj, path, k, ks, v, p, e);
  }

  // ---------------------------------------------------------------- program

  class Scanner {
    const text: Text
    var spans: Spans

    constructor (text: Text)
      ensures this.text == text && spans == map[]
    {
      this.text := text;
      spans := map[];
    }

    method Skip(index: nat) returns (e: nat)
      requires index <= |text|
      ensures e == SpaceEnd(text, index)
    {
      e := index;
      while e < |text| && IsSpace(text[e])
        invariant index <= e <= |text| && SpaceEnd(text, e) == SpaceEnd(text, index)
      {
        e := e + 1;
      }
    }

    /** The place after the string that opens at `index`; nothing when it is unterminated. */
    method EndOfString(index: nat) returns (e: Option<nat>)
      ensures e == StringEnd(text, index + 1)
    {
      var i := index + 1;
      while i < |text|
        invariant StringEnd(text, i) == StringEnd(text, index + 1)
        decreases |text| - i
      {
        if text[i] == BACKSLASH {
          i := i + 2;
        } else if text[i] == QUOTE {
          return Some(i + 1);
        } else {
          i := i + 1;
        }
      }
      e := None;
    }

    method EndOfToken(start: nat) returns (e: nat)
      requires start <= |text|
      ensures e == TrimEnd(text, start, TokenEnd(text, start))
    {
      e := start;
      while e < |text| && text[e] != COMMA && text[e] != Close(true) && text[e] != Close(false)
        invariant start <= e <= |text| && TokenEnd(text, e) == TokenEnd(text, start)
      {
        e := e + 1;
      }
      ghost var last := e;
      while e > start && IsSpace(text[e - 1])
        invariant start <= e <= last && TrimEnd(text, start, e) == TrimEnd(text, start, last)
      {
        e := e - 1;
      }
    }

    /** The value past the white space at `index` is scanned as the parser reads it. */
    ghost predicate Scanned(index: nat, path: Path, before: Spans, end: Option<nat>)
      requires index <= |text|
      reads this
    {
      var i := SpaceEnd(text, index);
      var r := ParseValue(text, i);
      r.Ok? && Follows(text, r.end) ==> end == Some(r.end) && spans == before + SpansOf(r.value, path, i)
    }

    method Scalar(start: nat, path: Path) returns (end: Option<nat>)
      requires start < |text| && text[start] != Open(true) && text[start] != Open(false) && !IsSpace(text[start])
      modifies this
      ensures end.Some? ==> start <= end.value <= |text|
      ensures Scanned(start, path, old(spans), end)
    {
      if text[start] == QUOTE {
        end := EndOfString(start);
        if end.None? {
          return;
        }
      } else {
        var e := EndOfToken(start);
        end := Some(e);
        if start < WordEnd(text, start) && Follows(text, WordEnd(text, start)) {
          WordToken(text, start);
        }
      }
      spans := spans[path := Span(start, end.value)];
    }

    /** The entry from `from` on is scanned up to the comma or bracket after it. */
    ghost predicate EntryScanned(from: nat, obj: bool, path: Path, k: nat, before: Spans, next: Option<nat>)
      requires from <= |text|
      reads this
    {
      var h := ParseHead(text, from, obj);
      h.Ok? ==>
        var r := ParseValue(text, h.end);
        r.Ok? && Follows(text, r.end) && SpaceEnd(text, r.end) < |text| ==>
          && next == Some(SpaceEnd(text, r.end))
          && spans == before + SpansOf(r.value, path + [HeadStep(h.value, k)], h.end)
    }

    method Value(index: nat, path: Path) returns (end: Option<nat>)
      requires index <= |text|
      modifies this
      ensures end.Some? ==> index <= end.value <= |text|
      ensures Scanned(index, path, old(spans), end)
      decreases |text| - index, 2
    {
      SpaceEndStops(text, index);
      var i := Skip(index);
      if i == |text| {
        return None;
      }
      if text[i] == Open(true) || text[i] == Open(false) {
        end := Container(i, path, text[i] == Open(true));
      } else {
        end := Scalar(i, path);
      }
    }

    method Container(i: nat, path: Path, obj: bool) returns (end: Option<nat>)
      requires CharAt(text, i, Open(obj))
      modifies this
      ensures end.Some? ==> i < end.value <= |text|
      ensures Scanned(i, path, old(spans), end)
      decreases |text| - i, 1
    {
      SpaceEndStops(text, i + 1);
      var n := Skip(i + 1);
      if n == |text| {
        UnclosedScanned(i, obj, path);
        return None;
      }
      if text[n] == Close(obj) {
        EmptyScanned(i, obj, path, n);
        return Some(n + 1);
      }
      end := Entries(n, path, obj, i + 1);
      NodeScanned(i, obj, path, n, old(spans), end);
    }

    lemma UnclosedScanned(i: nat, obj: bool, path: Path)
      requires CharAt(text, i, Open(obj)) && SpaceEnd(text, i + 1) == |text|
      ensures Scanned(i, path, spans, None)
    {
      assert ParseKids(text, i + 1, obj).Fail?;
    }

    lemma EmptyScanned(i: nat, obj: bool, path: Path, n: nat)
      requires CharAt(text, i, Open(obj)) && SpaceEnd(text, i + 1) == n && CharAt(text, n, Close(obj))
      ensures Scanned(i, path, spans, Some(n + 1))
    {
      assert ParseValue(text, i) == Ok(Node(obj, Cut(text, i + 1, n), Nil), n + 1);
      assert spans + map[] == spans;
    }

    lemma NodeScanned(i: nat, obj: bool, path: Path, n: nat, before: Spans, end: Option<nat>)
      requires CharAt(text, i, Open(obj)) && SpaceEnd(text, i + 1) == n < |text| && text[n] != Close(obj)
      requires KidsScanned(i + 1, obj, path, before, end)
      ensures Scanned(i, path, before, end)
    {
      NodeParse(text, i, obj, n);
    }

    /** One member of an object, up to the comma or bracket after it. */
    method Member(index: nat, path: Path, ghost from: nat, ghost k: nat) returns (next: Option<nat>)
      requires index <= |text| && from <= |text| && SpaceEnd(text, index) == SpaceEnd(text, from)
      modifies this
      ensures next.Some? ==> index <= next.value < |text|
      ensures EntryScanned(from, true, path, k, old(spans), next)
      decreases |text| - index, 0
    {
      var start := Skip(index);
      var e := EndOfString(start);
      if e.None? || !IsString(Cut(text, start, e.value)) {
        return None;
      }
      var key := StringValue(Cut(text, start, e.value));
      var i := Skip(e.value);
      if i == |text| || text[i] != COLON {
        return None;
      }
      var end := Value(i + 1, path + [Key(key)]);
      if end.None? {
        return None;
      }
      var n := Skip(end.value);
      next := if n == |text| then None else Some(n);
    }

    method Element(index: nat, path: Path, position: nat, ghost from: nat) returns (next: Option<nat>)
      requires index <= |text| && from <= |text| && SpaceEnd(text, index) == SpaceEnd(text, from)
      modifies this
      ensures next.Some? ==> index <= next.value < |text|
      ensures EntryScanned(from, false, path, position, old(spans), next)
      decreases |text| - index, 3
    {
      var end := Value(index, path + [Index(position)]);
      if end.None? {
        return None;
      }
      var n := Skip(end.value);
      next := if n == |text| then None else Some(n);
    }

    /** The entries from `at` on parse to `ks`, and their spans complete what is found so far. */
    ghost predicate Pending(at: nat, obj: bool, path: Path, k: nat, ks: Kids, end: nat, goal: Spans)
      reads this
    {
      && at <= |text| && ParseKids(text, at, obj) == Ok(ks, end)
      && spans + KidSpans(ks, path, at, k) == goal
    }

    /** An entry is done, and the entries after it or the end of them all are left. */
    ghost predicate Passed(next: nat, more: bool, obj: bool, path: Path, k: nat, ks: Kids, end: nat, goal: Spans)
      requires ks.Cons?
      reads this
    {
      if more then ks.rest.Cons? && Pending(next, obj, path, k + 1, ks.rest, end, goal)
      else next == end && spans == goal
    }

    lemma EntryFound(at: nat, obj: bool, path: Path, k: nat, ks: Kids, v: nat, p: nat, e: nat, here: Spans,
        next: Option<nat>)
      requires ParsedEntry(text, at, obj, ks, v, p, e) && Follows(text, p)
      requires EntryScanned(at, obj, path, k, here, next)
      ensures next == Some(e) && spans == here + SpansOf(ks.value, path + [HeadStep(ks.head, k)], v)
    {
    }

    lemma EntryTaken(at: nat, obj: bool, path: Path, k: nat, ks: Kids, end: nat, here: Spans, next: Option<nat>)
        returns (e: nat, first: Spans)
      requires at <= |text| && ks.Cons? && ParseKids(text, at, obj) == Ok(ks, end)
      requires EntryScanned(at, obj, path, k, here, next)
      ensures next == Some(e) && spans == here + first
      ensures CharAt(text, e, if ks.rest.Nil? then Close(obj) else COMMA)
      ensures if ks.rest.Nil? then end == e + 1 else ParseKids(text, e + 1, obj) == Ok(ks.rest, end)
      ensures KidSpans(ks, path, at, k) == first + KidSpans(ks.rest, path, e + 1, k + 1)
    {
      var v, p;
      v, p, e := KidsTaken(text, at, obj, path, k, ks, end);
      EntryFound(at, obj, path, k, ks, v, p, e, here, next);
      first := SpansOf(ks.value, path + [HeadStep(ks.head, k)], v);
    }

    lemma PassedOf(obj: bool, path: Path, k: nat, ks: Kids, end: nat, e: nat, here: Spans, all: Spans, first: Spans,
        goal: Spans)
      requires ks.Cons? && e < |text| && spans == here + first
      requires if ks.rest.Nil? then end == e + 1 else ParseKids(text, e + 1, obj) == Ok(ks.rest, end)
      requires here + all == goal && all == first + KidSpans(ks.rest, path, e + 1, k + 1)
      ensures Passed(e + 1, ks.rest.Cons?, obj, path, k, ks, end, goal)
    {
      MergeStep(here, all, first, KidSpans(ks.rest, path, e + 1, k + 1), spans, goal);
    }

    ghost predicate KidsScanned(from: nat, obj: bool, path: Path, before: Spans, end: Option<nat>)
      requires from <= |text|
      reads this
    {
      var ks := ParseKids(text, from, obj);
      ks.Ok? ==> end == Some(ks.end) && spans == before + KidSpans(ks.value, path, from, 0)
    }

    method NextMember(index: nat, path: Path, ghost at: nat, ghost k: nat, ghost ok: bool, ghost ks: Kids,
        ghost end: nat, ghost goal: Spans) returns (next: Option<nat>, more: bool)
      requires index <= |text| && at <= |text| && SpaceEnd(text, index) == SpaceEnd(text, at)
      requires ok ==> ks.Cons? && Pending(at, true, path, k, ks, end, goal)
      modifies this
      ensures next.Some? ==> index < next.value <= |text|
      ensures ok ==> next.Some? && Passed(next.value, more, true, path, k, ks, end, goal)
      decreases |text| - index, 1
    {
      var e := Member(index, path, at, k);
      if ok {
        ghost var n, first := EntryTaken(at, true, path, k, ks, end, old(spans), e);
        PassedOf(true, path, k, ks, end, n, old(spans), KidSpans(ks, path, at, k), first, goal);
      }
      next, more := After(e, true);
    }

    method NextElement(index: nat, path: Path, position: nat, ghost at: nat, ghost ok: bool, ghost ks: Kids,
        ghost end: nat, ghost goal: Spans) returns (next: Option<nat>, more: bool)
      requires index <= |text| && at <= |text| && SpaceEnd(text, index) == SpaceEnd(text, at)
      requires ok ==> ks.Cons? && Pending(at, false, path, position, ks, end, goal)
      modifies this
      ensures next.Some? ==> index < next.value <= |text|
      ensures ok ==> next.Some? && Passed(next.value, more, false, path, position, ks, end, goal)
      decreases |text| - index, 4
    {
      var e := Element(index, path, position, at);
      if ok {
        ghost var n, first := EntryTaken(at, false, path, position, ks, end, old(spans), e);
        PassedOf(false, path, position, ks, end, n, old(spans), KidSpans(ks, path, at, position), first, goal);
      }
      next, more := After(e, false);
    }

    /** Past the comma or the closing bracket at `e`; nothing when neither is there. */
    method After(e: Option<nat>, obj: bool) returns (next: Option<nat>, more: bool)
      requires e.Some? ==> e.value < |text|
      ensures next.Some? <==> e.Some? && (text[e.value] == COMMA || text[e.value] == Close(obj))
      ensures next.Some? ==> next.value == e.value + 1 && (more <==> text[e.value] == COMMA)
    {
      if e.Some? && text[e.value] == COMMA {
        return Some(e.value + 1), true;
      }
      next, more := if e.Some? && text[e.value] == Close(obj) then Some(e.value + 1) else None, false;
    }

    method Members(index: nat, path: Path, ghost from: nat, ghost ok: bool, ghost all: Kids, ghost last: nat,
        ghost goal: Spans) returns (end: Option<nat>)
      requires index <= |text| && from <= |text| && SpaceEnd(text, index) == SpaceEnd(text, from)
      requires ok ==> all.Cons? && Pending(from, true, path, 0, all, last, goal)
      modifies this
      ensures end.Some? ==> index <= end.value <= |text|
      ensures ok ==> end == Some(last) && spans == goal
      decreases |text| - index, 2
    {
      var i := index;
      ghost var at: nat, k: nat, ks := from, 0, all;
      while true
        invariant index <= i <= |text| && at <= |text| && SpaceEnd(text, i) == SpaceEnd(text, at)
        invariant ok ==> ks.Cons? && Pending(at, true, path, k, ks, last, goal)
        decreases |text| - i
      {
        var next, more := NextMember(i, path, at, k, ok, ks, last, goal);
        if next.None? || !more {
          return next;
        }
        i := next.value;
        at, k, ks := i, k + 1, if ok then ks.rest else ks;
      }
    }

    method Elements(index: nat, path: Path, ghost from: nat, ghost ok: bool, ghost all: Kids, ghost last: nat,
        ghost goal: Spans) returns (end: Option<nat>)
      requires index <= |text| && from <= |text| && SpaceEnd(text, index) == SpaceEnd(text, from)
      requires ok ==> all.Cons? && Pending(from, false, path, 0, all, last, goal)
      modifies this
      ensures end.Some? ==> index <= end.value <= |text|
      ensures ok ==> end == Some(last) && spans == goal
      decreases |text| - index, 5
    {
      var i, position: nat := index, 0;
      ghost var at: nat, ks := from, all;
      while true
        invariant index <= i <= |text| && at <= |text| && SpaceEnd(text, i) == SpaceEnd(text, at)
        invariant ok ==> ks.Cons? && Pending(at, false, path, position, ks, last, goal)
        decreases |text| - i
      {
        var next, more := NextElement(i, path, position, at, ok, ks, last, goal);
        if next.None? || !more {
          return next;
        }
        SpaceEndStops(text, next.value);
        i := Skip(next.value);
        at, position, ks := next.value, position + 1, if ok then ks.rest else ks;
      }
    }

    method Entries(index: nat, path: Path, obj: bool, ghost from: nat) returns (end: Option<nat>)
      requires index <= |text| && from <= |text| && SpaceEnd(text, index) == SpaceEnd(text, from)
      modifies this
      ensures end.Some? ==> index <= end.value <= |text|
      ensures KidsScanned(from, obj, path, old(spans), end)
      decreases |text| - index, 6
    {
      ghost var all := ParseKids(text, from, obj);
      ghost var ks, last := if all.Ok? then all.value else Nil, if all.Ok? then all.end else 0;
      ghost var goal := spans + KidSpans(ks, path, from, 0);
      if obj {
        end := Members(index, path, from, all.Ok?, ks, last, goal);
      } else {
        end := Elements(index, path, from, all.Ok?, ks, last, goal);
      }
    }

    /** The whole text: the spans are those of the tree that it parses to. */
    method Scan() returns (ok: bool)
      requires spans == map[]
      modifies this
      ensures Parse(text).Some? ==> ok && spans == SpansOf(Parse(text).value, [], SpaceEnd(text, 0))
    {
      SpaceEndStops(text, 0);
      var i := Skip(0);
      var end := Value(i, []);
      ok := end.Some?;
    }
  }
}
