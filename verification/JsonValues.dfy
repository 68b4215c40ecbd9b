/**
 Values as Python holds them once a text is loaded: looking one up by its path, assigning one,
 replacing several at once, and Python's `==` between documents.
 */
module JsonValues {
  import opened Prelude
  import opened JsonSyntax

  // ------------------------------------------------------------ dictionaries

  /** Sets an entry: in place when the step is there, at the end when it is not. */
  function Assign(fs: Fields, s: Step, x: Value): (r: Fields)
    ensures Steps(r) == Steps(fs) + {s}
    ensures Find(r, s) == Some(x)
  {
    match fs
    case End => Field(s, x, End)
    case Field(s', v, rest) => if s' == s then Field(s, x, rest) else Field(s', v, Assign(rest, s, x))
  }

  lemma {:induction false} AssignFind(fs: Fields, s: Step, x: Value, q: Step)
    requires q != s
    ensures Find(Assign(fs, s, x), q) == Find(fs, q)
  {
    if fs.Field? {
      AssignFind(fs.rest, s, x, q);
    }
  }

  lemma {:induction false} WithoutFind(fs: Fields, s: Step, q: Step)
    requires q != s
    ensures Find(Without(fs, s), q) == Find(fs, q)
  {
    if fs.Field? {
      WithoutFind(fs.rest, s, q);
    }
  }

  /** No step occurs twice, at any depth. */
  predicate Unique(v: Value)
    decreases v
  {
    v.Tree? ==> UniqueFields(v.fields)
  }

  predicate UniqueFields(fs: Fields)
    decreases fs
  {
    fs.Field? ==> Unique(fs.value) && fs.step !in Steps(fs.rest) && UniqueFields(fs.rest)
  }

  // ------------------------------------------------------------------ paths

  /** What subscripting by each step in turn gives; a string has its characters for elements. */
  function Lookup(v: Value, p: Path): Option<Value>
    decreases |p|
  {
    if p == [] then Some(v)
    else if v.Tree? then
      var next := Find(v.fields, p[0]);
      if next.None? then None else Lookup(next.value, p[1..])
    else if v.Str? && p[0].Index? && p[0].position < |v.s| then Lookup(Str([v.s[p[0].position]]), p[1..])
    else None
  }

  /** The assignment at a path, or nothing where the source raises. */
  function SetAt(v: Value, p: Path, x: Value): (r: Option<Value>)
    ensures r.Some? ==> r.value.Tree? && v.Tree? && p != []
    decreases |p|
  {
    if p == [] || !v.Tree? then None
    else if |p| == 1 then
      if v.obj || p[0] in Steps(v.fields) then Some(Tree(v.obj, Assign(v.fields, p[0], x))) else None
    else
      var child := Find(v.fields, p[0]);
      if child.None? then None
      else
        var changed := SetAt(child.value, p[1..], x);
        if changed.None? then None else Some(Tree(v.obj, Assign(v.fields, p[0], changed.value)))
  }

  /** An assignment works on an entry of a dictionary, new or old, and on an entry that a list has; else it raises. */
  lemma {:induction false} SetIff(v: Value, p: Path, x: Value)
    ensures SetAt(v, p, x).Some? <==>
      && p != [] && Lookup(v, p[..|p| - 1]).Some? && Lookup(v, p[..|p| - 1]).value.Tree?
      && (Lookup(v, p[..|p| - 1]).value.obj || Lookup(v, p).Some?)
    decreases |p|
  {
    if |p| == 1 {
      assert p[..0] == [] && p[1..] == [];
    } else if |p| > 1 {
      var q := p[..|p| - 1];
      assert q[0] == p[0] && q[1..] == p[1..][..|p| - 2];
      if v.Tree? && Find(v.fields, p[0]).Some? {
        SetIff(Find(v.fields, p[0]).value, p[1..], x);
      } else if v.Str? && p[0].Index? && p[0].position < |v.s| {
        InString([v.s[p[0].position]], q[1..]);
      }
    }
  }

  /** Nothing in a string is a container. */
  lemma {:induction false} InString(s: Text, p: Path)
    ensures Lookup(Str(s), p).Some? ==> !Lookup(Str(s), p).value.Tree?
    decreases |p|
  {
    if p != [] && p[0].Index? && p[0].position < |s| {
      InString([s[p[0].position]], p[1..]);
    }
  }

  lemma {:induction false} SetLookup(v: Value, p: Path, x: Value, v': Value)
    requires SetAt(v, p, x) == Some(v')
    ensures Lookup(v', p) == Some(x)
    decreases |p|
  {
    if |p| > 1 {
      SetLookup(Find(v.fields, p[0]).value, p[1..], x, Find(v'.fields, p[0]).value);
    }
  }

  /** Neither path leads through the other. */
  predicate Apart(p: Path, q: Path) {
    !(p <= q) && !(q <= p)
  }

  lemma {:induction false} SetOther(v: Value, p: Path, x: Value, v': Value, q: Path)
    requires SetAt(v, p, x) == Some(v') && Apart(p, q)
    ensures Lookup(v', q) == Lookup(v, q)
    decreases |p|
  {
    if p[0] != q[0] {
      AssignFind(v.fields, p[0], Find(v'.fields, p[0]).value, q[0]);
    } else {
      ApartTail(p, q);
      SetOther(Find(v.fields, p[0]).value, p[1..], x, Find(v'.fields, p[0]).value, q[1..]);
    }
  }

  lemma ApartTail(p: Path, q: Path)
    requires Apart(p, q) && p[0] == q[0]
    ensures Apart(p[1..], q[1..])
  {
    assert p == [p[0]] + p[1..] && q == [q[0]] + q[1..];
    assert p[1..] <= q[1..] ==> p <= q;
    assert q[1..] <= p[1..] ==> q <= p;
  }

  // ------------------------------------------------------ replacing at once

  /** Replaces, in the value found at `path`, every value whose path is in `d`. */
  function Update(v: Value, path: Path, d: map<Path, Value>): (r: Value)
    decreases v
  {
    if path in d then d[path]
    else if v.Tree? then Tree(v.obj, UpdateFields(v.fields, path, d))
    else v
  }

  function UpdateFields(fs: Fields, path: Path, d: map<Path, Value>): (r: Fields)
    ensures Steps(r) == Steps(fs)
    decreases fs
  {
    match fs
    case End => End
    case Field(s, v, rest) => Field(s, Update(v, path + [s], d), UpdateFields(rest, path, d))
  }

  lemma {:induction false} UpdateFind(fs: Fields, path: Path, d: map<Path, Value>, s: Step)
    requires s in Steps(fs)
    ensures Find(UpdateFields(fs, path, d), s) == Some(Update(Find(fs, s).value, path + [s], d))
  {
    if fs.step != s {
      UpdateFind(fs.rest, path, d, s);
    }
  }

  // --------------------------------------------------------------- equality

  function Number(v: Value): Option<int> {
    match v
    case Bool(b) => Some(if b then 1 else 0)
    case Int(n) => Some(n)
    case _ => None
  }

  /**
   Python's `==`: true and false are the numbers 1 and 0, and the order of a dictionary's entries
   does not matter.
   */
  predicate PyEq(a: Value, b: Value)
    decreases a
  {
    if a.Tree? && b.Tree? then a.obj == b.obj && Steps(a.fields) == Steps(b.fields) && PyEqFields(a.fields, b.fields)
    else a == b || (Number(a).Some? && Number(a) == Number(b))
  }

  predicate PyEqFields(fs: Fields, gs: Fields)
    decreases fs
  {
    fs.Field? ==> fs.step in Steps(gs) && PyEq(fs.value, Find(gs, fs.step).value) && PyEqFields(fs.rest, gs)
  }

  lemma {:induction false} PyEqRefl(v: Value)
    requires Unique(v)
    ensures PyEq(v, v)
    decreases v, 0
  {
    if v.Tree? {
      PyEqFieldsRefl(v.fields, v.fields);
    }
  }

  lemma {:induction false} PyEqFieldsRefl(fs: Fields, gs: Fields)
    requires UniqueFields(fs)
    requires forall s | s in Steps(fs) :: Find(gs, s) == Find(fs, s)
    ensures PyEqFields(fs, gs)
    decreases fs, 1
  {
    if fs.Field? {
      assert fs.step in Steps(fs);
      PyEqRefl(fs.value);
      forall s | s in Steps(fs.rest) ensures Find(gs, s) == Find(fs.rest, s) {
        assert s in Steps(fs) && s != fs.step;
      }
      PyEqFieldsRefl(fs.rest, gs);
    }
  }

  lemma {:induction false} PyEqFind(fs: Fields, gs: Fields, s: Step)
    requires PyEqFields(fs, gs) && s in Steps(fs)
    ensures s in Steps(gs) && PyEq(Find(fs, s).value, Find(gs, s).value)
  {
    if fs.step != s {
      PyEqFind(fs.rest, gs, s);
    }
  }

  /** Equal documents have equal values at every path, and the same paths. */
  lemma {:induction false} PyEqLookup(a: Value, b: Value, p: Path)
    requires PyEq(a, b)
    ensures Lookup(a, p).Some? <==> Lookup(b, p).Some?
    ensures Lookup(a, p).Some? ==> PyEq(Lookup(a, p).value, Lookup(b, p).value)
    decreases |p|
  {
    if p != [] && a.Tree? && p[0] in Steps(a.fields) {
      PyEqFind(a.fields, b.fields, p[0]);
      PyEqLookup(Find(a.fields, p[0]).value, Find(b.fields, p[0]).value, p[1..]);
    } else if a.Str? {
      StrLookup(a, p);
    }
  }

  lemma {:induction false} StrLookup(v: Value, p: Path)
    requires v.Str?
    ensures Lookup(v, p).Some? ==> PyEq(Lookup(v, p).value, Lookup(v, p).value)
    decreases |p|
  {
    if p != [] && p[0].Index? && p[0].position < |v.s| {
      StrLookup(Str([v.s[p[0].position]]), p[1..]);
    }
  }
}
