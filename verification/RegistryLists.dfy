/** The entries of lists in loaded documents: there is one at each index below their number, and no other. */
module RegistryLists {
  import opened Prelude
  import opened JsonSyntax
  import opened JsonValues
  import opened RegistryDiff

  /** Something stands at the path. */
  predicate IsAt(doc: Value, p: Path) {
    Lookup(doc, p).Some?
  }

  lemma {:induction false} ListAt(fs: Fields, k: nat, i: nat)
    requires ShapedFields(false, fs, k)
    ensures Find(fs, Index(i)).Some? <==> k <= i < k + |StepList(fs)|
  {
    if fs.Field? {
      ListAt(fs.rest, k + 1, i);
    }
  }

  lemma {:induction false} FoundIsShaped(obj: bool, fs: Fields, k: nat, s: Step)
    requires ShapedFields(obj, fs, k) && Find(fs, s).Some?
    ensures Shaped(Find(fs, s).value)
  {
    if fs.step != s {
      FoundIsShaped(obj, fs.rest, k + 1, s);
    }
  }

  lemma {:induction false} ShapedBelow(v: Value, p: Path)
    requires Shaped(v) && Lookup(v, p).Some?
    ensures Shaped(Lookup(v, p).value)
    decreases |p|
  {
    if p != [] {
      if v.Tree? {
        FoundIsShaped(v.obj, v.fields, 0, p[0]);
        ShapedBelow(Find(v.fields, p[0]).value, p[1..]);
      } else {
        ShapedBelow(Str([v.s[p[0].position]]), p[1..]);
      }
    }
  }

  lemma {:induction false} OneMoreStep(v: Value, p: Path, s: Step)
    ensures Lookup(v, p + [s]) == if Lookup(v, p).None? then None else Lookup(Lookup(v, p).value, [s])
    decreases |p|
  {
    var q := p + [s];
    if p == [] {
      assert q == [s];
    } else {
      assert q[0] == p[0] && q[1..] == p[1..] + [s];
      if v.Tree? && Find(v.fields, p[0]).Some? {
        OneMoreStep(Find(v.fields, p[0]).value, p[1..], s);
      } else if v.Str? && p[0].Index? && p[0].position < |v.s| {
        OneMoreStep(Str([v.s[p[0].position]]), p[1..], s);
      }
    }
  }

  /** The number of entries of a list, or of anything that is empty. */
  predicate IsLength(v: Value, n: nat) {
    match v
    case Tree(obj, fields) => n == |StepList(fields)| && (obj ==> n == 0)
    case Str(s) => n == 0 && s == []
    case _ => false
  }

  /** There are entries exactly at the indices below their number. */
  lemma IndexIff(doc: Value, p: Path, n: nat, i: nat)
    requires Shaped(doc) && Lookup(doc, p).Some? && IsLength(Lookup(doc, p).value, n)
    ensures IsAt(doc, p + [Index(i)]) <==> i < n
  {
    var v, q := Lookup(doc, p).value, [Index(i)];
    OneMoreStep(doc, p, Index(i));
    ShapedBelow(doc, p);
    assert q[1..] == [];
    if v.Tree? {
      if v.obj {
        assert v.fields.End?;
      } else {
        ListAt(v.fields, 0, i);
      }
    }
  }
}
