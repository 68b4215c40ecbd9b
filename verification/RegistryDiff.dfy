/**
 The field-addressed comparison of two documents (`diff` of scripts/registry_derivation.py), and
 exactly when it finds nothing.
 */
module RegistryDiff {
  import opened Prelude
  import opened JsonSyntax
  import opened JsonValues
  import opened JsonApply

  datatype Line =
    | FieldsDiffer(path: Path)
    | LengthDiffers(path: Path)
    | OnlyOneSide(path: Path)
    | ValueDiffers(path: Path)
    | LayoutDiffers

  function StepList(fs: Fields): seq<Step> {
    if fs.End? then [] else [fs.step] + StepList(fs.rest)
  }

  /** One line per entry past the first `n`. */
  function Past(fs: Fields, n: nat, path: Path): seq<Line> {
    if fs.End? then []
    else if n > 0 then Past(fs.rest, n - 1, path)
    else [OnlyOneSide(path + [fs.step])] + Past(fs.rest, 0, path)
  }

  /** The lines for a longer and a shorter list. */
  function DiffLengths(es: Fields, os: Fields, path: Path): seq<Line> {
    var m, n := |StepList(es)|, |StepList(os)|;
    if m == n then [] else [LengthDiffers(path)] + Past(es, n, path) + Past(os, m, path)
  }

  function Diff(e: Value, o: Value, path: Path): seq<Line>
    decreases e
  {
    if e.Tree? && o.Tree? && e.obj && o.obj then
      if StepList(e.fields) != StepList(o.fields) then [FieldsDiffer(path)] else DiffMembers(e.fields, o.fields, path)
    else if e.Tree? && o.Tree? && !e.obj && !o.obj then
      DiffLengths(e.fields, o.fields, path) + DiffItems(e.fields, o.fields, path)
    else if !PyEq(e, o) then [ValueDiffers(path)]
    else []
  }

  function DiffMembers(es: Fields, os: Fields, path: Path): seq<Line>
    decreases es
  {
    if es.End? || os.End? then []
    else Diff(es.value, os.value, path + [es.step]) + DiffMembers(es.rest, os.rest, path)
  }

  /** Items are compared pair by pair, equal pairs are passed over, and the rest has no partner. */
  function DiffItems(es: Fields, os: Fields, path: Path): seq<Line>
    decreases es
  {
    if es.End? || os.End? then []
    else
      (if PyEq(es.value, os.value) then [] else Diff(es.value, os.value, path + [es.step]))
      + DiffItems(es.rest, os.rest, path)
  }

  /** Lists count their items from zero and no dictionary repeats a name. */
  predicate Shaped(v: Value)
    decreases v
  {
    v.Tree? ==> ShapedFields(v.obj, v.fields, 0)
  }

  predicate ShapedFields(obj: bool, fs: Fields, k: nat)
    decreases fs
  {
    fs.Field? ==>
      && Shaped(fs.value) && (if obj then fs.step.Key? else fs.step == Index(k))
      && fs.step !in Steps(fs.rest) && ShapedFields(obj, fs.rest, k + 1)
  }

  /** Dictionaries that are reached through dictionaries only have their names in the same order. */
  predicate SameOrder(e: Value, o: Value)
    decreases e
  {
    e.Tree? && o.Tree? && e.obj && o.obj ==>
      StepList(e.fields) == StepList(o.fields) && SameOrders(e.fields, o.fields)
  }

  predicate SameOrders(es: Fields, os: Fields)
    decreases es
  {
    es.Field? && os.Field? ==> SameOrder(es.value, os.value) && SameOrders(es.rest, os.rest)
  }

  // --------------------------------------------------- pairs and dictionaries

  lemma {:induction false} StepListSteps(fs: Fields, gs: Fields)
    requires StepList(fs) == StepList(gs)
    ensures Steps(fs) == Steps(gs) && (fs.End? <==> gs.End?)
    ensures fs.Field? ==> fs.step == gs.step && StepList(fs.rest) == StepList(gs.rest)
  {
    if fs.Field? {
      assert StepList(fs)[0] == fs.step && StepList(gs) != [];
      assert StepList(gs)[0] == gs.step;
      assert StepList(fs)[1..] == StepList(fs.rest) && StepList(gs)[1..] == StepList(gs.rest);
      StepListSteps(fs.rest, gs.rest);
    } else {
      assert gs.Field? ==> StepList(gs) != [];
    }
  }

  /** Entry by entry equality. */
  predicate Pairwise(es: Fields, os: Fields) {
    if es.End? || os.End? then es.End? && os.End?
    else es.step == os.step && PyEq(es.value, os.value) && Pairwise(es.rest, os.rest)
  }

  lemma {:induction false} PairwiseSteps(es: Fields, os: Fields)
    requires Pairwise(es, os)
    ensures Steps(es) == Steps(os)
  {
    if es.Field? {
      PairwiseSteps(es.rest, os.rest);
    }
  }

  lemma {:induction false} PairwiseFind(es: Fields, os: Fields, s: Step)
    requires Pairwise(es, os) && s in Steps(es)
    ensures s in Steps(os) && PyEq(Find(es, s).value, Find(os, s).value)
  {
    if es.step != s {
      PairwiseFind(es.rest, os.rest, s);
    }
  }

  lemma PairwiseEq(es: Fields, os: Fields)
    requires Pairwise(es, os) && UniqueFields(es)
    ensures Steps(es) == Steps(os) && PyEqFields(es, os)
  {
    PairwiseSteps(es, os);
    forall s | s in Steps(es) ensures s in Steps(os) && PyEq(Find(es, s).value, Find(os, s).value) {
      PairwiseFind(es, os, s);
    }
    AssignRest(es, os);
  }

  /** Equal entries in the same order are equal entry by entry. */
  lemma {:induction false} EqPairwise(es: Fields, os: Fields, all: Fields)
    requires StepList(es) == StepList(os) && UniqueFields(os) && PyEqFields(es, all)
    requires forall s | s in Steps(os) :: Find(all, s) == Find(os, s)
    ensures Pairwise(es, os)
  {
    StepListSteps(es, os);
    if es.Field? {
      assert os.step in Steps(os);
      forall s | s in Steps(os.rest) ensures Find(all, s) == Find(os.rest, s) {
        assert s in Steps(os) && s != os.step;
      }
      EqPairwise(es.rest, os.rest, all);
    }
  }

  lemma {:induction false} ShapedUnique(v: Value)
    requires Shaped(v)
    ensures Unique(v)
    decreases v, 0
  {
    if v.Tree? {
      ShapedFieldsUnique(v.obj, v.fields, 0);
    }
  }

  lemma {:induction false} ShapedFieldsUnique(obj: bool, fs: Fields, k: nat)
    requires ShapedFields(obj, fs, k)
    ensures UniqueFields(fs)
    decreases fs, 1
  {
    if fs.Field? {
      ShapedUnique(fs.value);
      ShapedFieldsUnique(obj, fs.rest, k + 1);
    }
  }

  /** Two lists have the same positions exactly when they have the same length. */
  lemma {:induction false} SameLength(fs: Fields, gs: Fields, k: nat)
    requires ShapedFields(false, fs, k) && ShapedFields(false, gs, k)
    ensures |StepList(fs)| == |StepList(gs)| <==> StepList(fs) == StepList(gs)
    ensures Steps(fs) == Steps(gs) ==> StepList(fs) == StepList(gs)
  {
    if fs.Field? && gs.Field? {
      SameLength(fs.rest, gs.rest, k + 1);
      FirstStep(fs, k);
      FirstStep(gs, k);
    }
  }

  lemma FirstStep(fs: Fields, k: nat)
    requires fs.Field? && ShapedFields(false, fs, k)
    ensures Steps(fs.rest) == Steps(fs) - {Index(k)}
  {
  }

  lemma ListEq(es: Fields, os: Fields)
    requires ShapedFields(false, es, 0) && ShapedFields(false, os, 0)
    ensures Steps(es) == Steps(os) && PyEqFields(es, os) <==> Pairwise(es, os)
  {
    ShapedFieldsUnique(false, es, 0);
    ShapedFieldsUnique(false, os, 0);
    SameLength(es, os, 0);
    if Pairwise(es, os) {
      PairwiseEq(es, os);
    }
    if Steps(es) == Steps(os) && PyEqFields(es, os) {
      EqPairwise(es, os, os);
    }
  }

  // -------------------------------------------------------------- the theorem

  /** The comparison finds nothing exactly between equal documents whose names are in the same order. */
  lemma {:induction false} DiffEmptyIff(e: Value, o: Value, path: Path)
    requires Shaped(e) && Shaped(o)
    ensures Diff(e, o, path) == [] <==> PyEq(e, o) && SameOrder(e, o)
    decreases e, 0
  {
    if e.Tree? && o.Tree? && e.obj && o.obj {
      if StepList(e.fields) == StepList(o.fields) {
        StepListSteps(e.fields, o.fields);
        DiffMembersEmptyIff(e.fields, o.fields, path, 0);
        MembersEq(e.fields, o.fields);
      }
    } else if e.Tree? && o.Tree? && !e.obj && !o.obj {
      DiffItemsEmptyIff(e.fields, o.fields, path, 0);
      ListEq(e.fields, o.fields);
    }
  }

  lemma MembersEq(es: Fields, os: Fields)
    requires StepList(es) == StepList(os) && ShapedFields(true, es, 0) && ShapedFields(true, os, 0)
    ensures PyEqFields(es, os) <==> Pairwise(es, os)
  {
    ShapedFieldsUnique(true, es, 0);
    ShapedFieldsUnique(true, os, 0);
    if Pairwise(es, os) {
      PairwiseEq(es, os);
    }
    if PyEqFields(es, os) {
      EqPairwise(es, os, os);
    }
  }

  lemma {:induction false} DiffMembersEmptyIff(es: Fields, os: Fields, path: Path, k: nat)
    requires StepList(es) == StepList(os) && ShapedFields(true, es, k) && ShapedFields(true, os, k)
    ensures DiffMembers(es, os, path) == [] <==> Pairwise(es, os) && SameOrders(es, os)
    decreases es, 1
  {
    StepListSteps(es, os);
    if es.Field? {
      DiffEmptyIff(es.value, os.value, path + [es.step]);
      DiffMembersEmptyIff(es.rest, os.rest, path, k + 1);
    }
  }

  lemma {:induction false} DiffItemsEmptyIff(es: Fields, os: Fields, path: Path, k: nat)
    requires ShapedFields(false, es, k) && ShapedFields(false, os, k)
    ensures |StepList(es)| == |StepList(os)| ==> (DiffItems(es, os, path) == [] <==> Pairwise(es, os))
    ensures Pairwise(es, os) ==> |StepList(es)| == |StepList(os)|
    decreases es, 1
  {
    if es.Field? && os.Field? {
      DiffEmptyIff(es.value, os.value, path + [es.step]);
      DiffItemsEmptyIff(es.rest, os.rest, path, k + 1);
    }
  }

  // ------------------------------------------------------- what the lines say

  /** The line names a place below `path` where the documents differ in just that way. */
  ghost predicate IsDifference(line: Line, e: Value, o: Value, path: Path) {
    exists q :: DiffersAt(line, e, o, path, q)
  }

  predicate DiffersAt(line: Line, e: Value, o: Value, path: Path, q: Path) {
    var x, y := Lookup(e, q), Lookup(o, q);
    match line
    case FieldsDiffer(p) =>
      && p == path + q && x.Some? && y.Some? && x.value.Tree? && y.value.Tree? && x.value.obj && y.value.obj
      && StepList(x.value.fields) != StepList(y.value.fields)
    case LengthDiffers(p) =>
      && p == path + q && x.Some? && y.Some? && x.value.Tree? && y.value.Tree? && !x.value.obj && !y.value.obj
      && |StepList(x.value.fields)| != |StepList(y.value.fields)|
    case OnlyOneSide(p) => p == path + q && q != [] && q[|q| - 1].Index? && x.Some? != y.Some?
    case ValueDiffers(p) =>
      && p == path + q && x.Some? && y.Some? && !PyEq(x.value, y.value)
      && !(x.value.Tree? && y.value.Tree? && x.value.obj == y.value.obj)
    case LayoutDiffers => false
  }

  lemma Deeper(line: Line, e: Value, o: Value, s: Step, x: Value, y: Value, path: Path)
    requires e.Tree? && o.Tree? && Find(e.fields, s) == Some(x) && Find(o.fields, s) == Some(y)
    requires IsDifference(line, x, y, path + [s])
    ensures IsDifference(line, e, o, path)
  {
    var q :| DiffersAt(line, x, y, path + [s], q);
    var p := [s] + q;
    assert p[1..] == q && path + [s] + q == path + p;
    assert q != [] ==> p[|p| - 1] == q[|q| - 1];
    assert DiffersAt(line, e, o, path, p);
  }

  /** Every line of a comparison says what is so. */
  lemma {:induction false} DiffSays(e: Value, o: Value, path: Path, line: Line)
    requires Shaped(e) && Shaped(o) && line in Diff(e, o, path)
    ensures IsDifference(line, e, o, path)
    decreases e, 0
  {
    assert path + [] == path;
    if e.Tree? && o.Tree? && e.obj && o.obj {
      if StepList(e.fields) == StepList(o.fields) {
        MembersSay(e, o, e.fields, o.fields, path, line, 0);
      } else {
        assert DiffersAt(line, e, o, path, []);
      }
    } else if e.Tree? && o.Tree? && !e.obj && !o.obj {
      if line in DiffItems(e.fields, o.fields, path) {
        ItemsSay(e, o, e.fields, o.fields, path, line, 0);
      } else {
        LengthsSay(e, o, path, line);
      }
    } else {
      assert DiffersAt(line, e, o, path, []);
    }
  }

  /** The entries from here on are those of the whole. */
  predicate IsSuffix(all: Fields, fs: Fields) {
    forall s | s in Steps(fs) :: Find(all, s) == Find(fs, s)
  }

  lemma SuffixNext(all: Fields, fs: Fields)
    requires fs.Field? && IsSuffix(all, fs) && fs.step !in Steps(fs.rest)
    ensures Find(all, fs.step) == Some(fs.value) && IsSuffix(all, fs.rest)
  {
    forall s | s in Steps(fs.rest) ensures Find(all, s) == Find(fs.rest, s) {
      assert s in Steps(fs) && s != fs.step;
    }
  }

  lemma {:induction false} MembersSay(e: Value, o: Value, es: Fields, os: Fields, path: Path, line: Line, k: nat)
    requires e.Tree? && o.Tree? && IsSuffix(e.fields, es) && IsSuffix(o.fields, os)
    requires StepList(es) == StepList(os) && ShapedFields(true, es, k) && ShapedFields(true, os, k)
    requires line in DiffMembers(es, os, path)
    ensures IsDifference(line, e, o, path)
    decreases es, 1
  {
    StepListSteps(es, os);
    SuffixNext(e.fields, es);
    SuffixNext(o.fields, os);
    if line in Diff(es.value, os.value, path + [es.step]) {
      DiffSays(es.value, os.value, path + [es.step], line);
      Deeper(line, e, o, es.step, es.value, os.value, path);
    } else {
      MembersSay(e, o, es.rest, os.rest, path, line, k + 1);
    }
  }

  lemma {:induction false} ItemsSay(e: Value, o: Value, es: Fields, os: Fields, path: Path, line: Line, k: nat)
    requires e.Tree? && o.Tree? && IsSuffix(e.fields, es) && IsSuffix(o.fields, os)
    requires ShapedFields(false, es, k) && ShapedFields(false, os, k) && line in DiffItems(es, os, path)
    ensures IsDifference(line, e, o, path)
    decreases es, 1
  {
    SuffixNext(e.fields, es);
    SuffixNext(o.fields, os);
    if !PyEq(es.value, os.value) && line in Diff(es.value, os.value, path + [es.step]) {
      DiffSays(es.value, os.value, path + [es.step], line);
      Deeper(line, e, o, es.step, es.value, os.value, path);
    } else {
      ItemsSay(e, o, es.rest, os.rest, path, line, k + 1);
    }
  }

  lemma {:induction false} PastIs(fs: Fields, n: nat, path: Path, line: Line, k: nat) returns (i: nat)
    requires ShapedFields(false, fs, k) && line in Past(fs, n, path)
    ensures k + n <= i && Index(i) in Steps(fs) && line == OnlyOneSide(path + [Index(i)])
    decreases fs
  {
    if n > 0 {
      i := PastIs(fs.rest, n - 1, path, line, k + 1);
    } else if line == OnlyOneSide(path + [fs.step]) {
      i := k;
    } else {
      i := PastIs(fs.rest, 0, path, line, k + 1);
    }
  }

  lemma {:induction false} NotPast(fs: Fields, k: nat, i: nat)
    requires ShapedFields(false, fs, k) && k + |StepList(fs)| <= i
    ensures Index(i) !in Steps(fs)
  {
    if fs.Field? {
      NotPast(fs.rest, k + 1, i);
    }
  }

  lemma LengthsSay(e: Value, o: Value, path: Path, line: Line)
    requires Shaped(e) && Shaped(o) && e.Tree? && o.Tree? && !e.obj && !o.obj && line in DiffLengths(e.fields, o.fields, path)
    ensures IsDifference(line, e, o, path)
  {
    var m, n := |StepList(e.fields)|, |StepList(o.fields)|;
    if line == LengthDiffers(path) {
      assert path + [] == path;
      assert DiffersAt(line, e, o, path, []);
    } else if line in Past(e.fields, n, path) {
      var i := PastIs(e.fields, n, path, line, 0);
      NotPast(o.fields, 0, i);
      OneSide(e, o, path, i, line);
    } else {
      var i := PastIs(o.fields, m, path, line, 0);
      NotPast(e.fields, 0, i);
      OneSide(e, o, path, i, line);
    }
  }

  lemma OneSide(e: Value, o: Value, path: Path, i: nat, line: Line)
    requires e.Tree? && o.Tree? && line == OnlyOneSide(path + [Index(i)])
    requires (Index(i) in Steps(e.fields)) != (Index(i) in Steps(o.fields))
    ensures IsDifference(line, e, o, path)
  {
    var q := [Index(i)];
    assert q[1..] == [];
    assert DiffersAt(line, e, o, path, q);
  }

  /** A truth value is not told from the number that Python takes it for, and from no other. */
  lemma TruthIsNumber(b: bool, n: int, path: Path)
    ensures Diff(Int(n), Bool(b), path) == [] <==> n == if b then 1 else 0
  {
  }

  // ---------------------------------------------------------- the order of names

  lemma DiffSelf(v: Value)
    requires Shaped(v)
    ensures Diff(v, v, []) == []
  {
    ShapedUnique(v);
    PyEqRefl(v);
    OrderSelf(v);
    DiffEmptyIff(v, v, []);
  }

  lemma {:induction false} OrderSelf(v: Value)
    ensures SameOrder(v, v)
    decreases v, 0
  {
    if v.Tree? {
      OrdersSelf(v.fields);
    }
  }

  lemma {:induction false} OrdersSelf(fs: Fields)
    ensures SameOrders(fs, fs)
    decreases fs, 1
  {
    if fs.Field? {
      OrderSelf(fs.value);
      OrdersSelf(fs.rest);
    }
  }

  /** Equal documents can be told apart: two names exchanged in a dictionary. */
  lemma OrderMatters(a: Step, b: Step, x: Value, y: Value) returns (e: Value, o: Value)
    requires a.Key? && b.Key? && a != b && Shaped(x) && Shaped(y)
    ensures Shaped(e) && Shaped(o) && PyEq(e, o) && Diff(e, o, []) != []
  {
    var es, os := Field(a, x, Field(b, y, End)), Field(b, y, Field(a, x, End));
    e, o := Tree(true, es), Tree(true, os);
    ShapedUnique(x);
    ShapedUnique(y);
    PyEqRefl(x);
    PyEqRefl(y);
    var ys, xs := Field(b, y, End), Field(a, x, End);
    assert Steps(ys) == {b} && Steps(xs) == {a};
    assert ShapedFields(true, ys, 1) && ShapedFields(true, xs, 1);
    assert Find(xs, a) == Some(x);
    assert Find(os, a) == Some(x) && Find(os, b) == Some(y);
    assert PyEqFields(End, os);
    assert PyEqFields(ys, os);
    assert StepList(es)[0] == a && StepList(os)[0] == b;
  }

  /** The same exchange inside a list is not seen. */
  lemma OrderInListsIsLost(a: Step, b: Step, x: Value, y: Value) returns (e: Value, o: Value)
    requires a.Key? && b.Key? && a != b && Shaped(x) && Shaped(y)
    ensures Shaped(e) && Shaped(o) && e != o && Diff(e, o, []) == []
  {
    var e', o' := OrderMatters(a, b, x, y);
    var es, os := Field(Index(0), e', End), Field(Index(0), o', End);
    e, o := Tree(false, es), Tree(false, os);
    DiffSelf(e');
    assert ShapedFields(false, End, 1);
    assert StepList(es) == [Index(0)] && StepList(os) == [Index(0)];
    assert DiffItems(End, End, []) == [];
    assert DiffItems(es, os, []) == [];
  }
}
