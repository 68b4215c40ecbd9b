/**
 Carrying reviews from key to key (`parse_moves` and `apply_review` of
 scripts/audit-test-registration.py): renames that happen all at once, with explicit drops.
 */
module ReviewCarry {
  import opened Prelude

  datatype Review = Review(identity: string, name: Option<string>, policy: string, reason: string)

  datatype Binding = Binding(identity: string, name: string)

  /** A dictionary in the order of its keys. */
  type Records = seq<(string, Review)>

  type Moves = map<string, string>

  predicate IsDict(rs: Records) {
    forall i, j | 0 <= i < j < |rs| :: rs[i].0 != rs[j].0
  }

  predicate HasKey(rs: Records, key: string) {
    exists i | 0 <= i < |rs| :: rs[i].0 == key
  }

  function Find(rs: Records, key: string): (r: Option<Review>)
    ensures r.Some? <==> HasKey(rs, key)
  {
    if rs == [] then None
    else
      assert forall i | 0 < i < |rs| :: rs[1..][i - 1] == rs[i];
      if rs[0].0 == key then Some(rs[0].1) else
        assert HasKey(rs[1..], key) ==> HasKey(rs, key);
        Find(rs[1..], key)
  }

  // ----------------------------------------------------------------- the moves

  predicate IsInjective(moves: Moves) {
    forall a, b | a in moves && b in moves && moves[a] == moves[b] :: a == b
  }

  /** One source per target, and no key moved onto itself. */
  predicate AreMoves(moves: Moves) {
    IsInjective(moves) && forall a | a in moves :: a != "" && moves[a] != "" && moves[a] != a
  }

  /** Where the first equals sign stands. */
  function SignAt(s: string): (n: Option<nat>)
    ensures n.Some? ==> n.value < |s| && s[n.value] == '=' && forall i | 0 <= i < n.value :: s[i] != '='
    ensures n.None? ==> forall i | 0 <= i < |s| :: s[i] != '='
  {
    if s == "" then None
    else if s[0] == '=' then Some(0)
    else
      var n := SignAt(s[1..]);
      assert forall i | 0 < i < |s| :: s[1..][i - 1] == s[i];
      if n.None? then None else Some(n.value + 1)
  }

  /** OLD=NEW, cut at the first sign; a side that is missing is empty. */
  datatype Move = Move(source: string, target: string)

  function MoveOf(s: string): Move {
    var n := SignAt(s);
    if n.None? then Move("", "") else Move(s[..n.value], s[n.value + 1..])
  }

  function ArgumentsOf(args: seq<string>): (ms: seq<Move>)
    ensures |ms| == |args|
  {
    if args == [] then [] else ArgumentsOf(args[..|args| - 1]) + [MoveOf(args[|args| - 1])]
  }

  lemma {:induction false} ArgumentAt(args: seq<string>, i: nat)
    requires i < |args|
    ensures ArgumentsOf(args)[i] == MoveOf(args[i])
  {
    if i < |args| - 1 {
      ArgumentAt(args[..|args| - 1], i);
    }
  }

  /** Both sides are there and nothing is moved onto itself. */
  predicate IsMove(m: Move) {
    m.source != "" && m.target != "" && m.source != m.target
  }

  predicate Differ(m: Move, n: Move) {
    m.source != n.source && m.target != n.target
  }

  /** No source and no target is named twice. */
  predicate AreProper(ms: seq<Move>) {
    (forall i | 0 <= i < |ms| :: IsMove(ms[i])) && forall i, j | 0 <= i < j < |ms| :: Differ(ms[i], ms[j])
  }

  function MovesOf(ms: seq<Move>): Moves {
    if ms == [] then map[] else MovesOf(ms[..|ms| - 1])[ms[|ms| - 1].source := ms[|ms| - 1].target]
  }

  lemma {:induction false} MoveFrom(ms: seq<Move>, key: string) returns (i: nat)
    requires key in MovesOf(ms)
    ensures i < |ms| && ms[i].source == key && ms[i].target == MovesOf(ms)[key]
  {
    var n := |ms| - 1;
    if ms[n].source == key {
      i := n;
    } else {
      i := MoveFrom(ms[..n], key);
    }
  }

  lemma {:induction false} MoveKept(ms: seq<Move>, i: nat)
    requires AreProper(ms) && i < |ms|
    ensures ms[i].source in MovesOf(ms) && MovesOf(ms)[ms[i].source] == ms[i].target
  {
    var n := |ms| - 1;
    if i < n {
      assert Differ(ms[i], ms[n]);
      MoveKept(ms[..n], i);
    }
  }

  /** The moves of proper arguments have one source per target. */
  lemma MovesAreMoves(ms: seq<Move>)
    requires AreProper(ms)
    ensures AreMoves(MovesOf(ms))
  {
    var moves := MovesOf(ms);
    forall a | a in moves ensures a != "" && moves[a] != "" && moves[a] != a {
      var i := MoveFrom(ms, a);
      assert IsMove(ms[i]);
    }
    forall a, b | a in moves && b in moves && moves[a] == moves[b] ensures a == b {
      var i := MoveFrom(ms, a);
      var j := MoveFrom(ms, b);
      assert i != j ==> Differ(ms[if i < j then i else j], ms[if i < j then j else i]);
    }
  }

  /** One argument more is proper exactly when neither of its keys is taken. */
  lemma OneArgument(ms: seq<Move>, m: Move)
    requires AreProper(ms) && IsMove(m)
    ensures AreProper(ms + [m]) <==> m.source !in MovesOf(ms) && m.target !in MovesOf(ms).Values
  {
    var moves, all := MovesOf(ms), ms + [m];
    assert forall i | 0 <= i < |ms| :: all[i] == ms[i];
    if m.source in moves {
      var i := MoveFrom(ms, m.source);
      assert !Differ(all[i], all[|ms|]);
    } else if m.target in moves.Values {
      var a :| a in moves && moves[a] == m.target;
      var i := MoveFrom(ms, a);
      assert !Differ(all[i], all[|ms|]);
    } else {
      forall i | 0 <= i < |ms| ensures Differ(ms[i], m) {
        MoveKept(ms, i);
        assert ms[i].target in moves.Values;
      }
    }
  }

  lemma PrefixProper(ms: seq<Move>, n: nat)
    requires AreProper(ms) && n <= |ms|
    ensures AreProper(ms[..n])
  {
  }

  /** The mapping that a reviewer names, exactly when its arguments are proper. */
  method ParseMoves(args: seq<string>, drops: seq<string>) returns (r: Option<Moves>)
    ensures r.Some? <==> (args != [] || drops != []) && AreProper(ArgumentsOf(args))
    ensures r.Some? ==> r.value == MovesOf(ArgumentsOf(args)) && AreMoves(r.value)
  {
    if args == [] && drops == [] {
      return None;
    }
    ghost var ms := ArgumentsOf(args);
    var moves: Moves := map[];
    for i := 0 to |args|
      invariant AreProper(ms[..i]) && moves == MovesOf(ms[..i])
    {
      var m := MoveOf(args[i]);
      ArgumentAt(args, i);
      assert ms[..i + 1] == ms[..i] + [m] && ms[..i + 1][..i] == ms[..i];
      if !IsMove(m) {
        return None;
      }
      OneArgument(ms[..i], m);
      if m.source in moves || m.target in moves.Values {
        if AreProper(ms) {
          PrefixProper(ms, i + 1);
        }
        return None;
      }
      moves := moves[m.source := m.target];
    }
    assert ms[..|args|] == ms;
    MovesAreMoves(ms);
    r := Some(moves);
  }

  // ------------------------------------------------------------------ applying

  datatype Input = Input(records: Records, bindings: map<string, Binding>, moves: Moves, drops: set<string>)

  predicate IsInput(x: Input) {
    IsDict(x.records) && AreMoves(x.moves)
  }

  /** The key reviews its current declaration. */
  predicate Reviews(rs: Records, bindings: map<string, Binding>, key: string) {
    key in bindings && Find(rs, key).Some? && Find(rs, key).value.identity == bindings[key].identity
  }

  /** The keys themselves are in order: targets exist, nothing is both moved and dropped. */
  predicate WellFormed(x: Input) {
    && (forall a | a in x.moves :: x.moves[a] in x.bindings)
    && forall k | k in x.drops :: k !in x.moves
  }

  predicate AlreadyApplied(x: Input) {
    x.moves != map[] && forall a | a in x.moves :: Reviews(x.records, x.bindings, x.moves[a])
  }

  /** A review may be carried: it is there, it is of the declaration at its target, and the target is free. */
  predicate MayCarry(x: Input, a: string)
    requires a in x.moves && WellFormed(x)
  {
    var b := x.moves[a];
    var review := Find(x.records, a);
    && review.Some? && review.value.identity == x.bindings[b].identity && review.value.name == Some(x.bindings[b].name)
    && (HasKey(x.records, b) ==> b in x.moves || b in x.drops)
  }

  function Target(x: Input, key: string): string {
    if key in x.moves then x.moves[key] else key
  }

  /** The records that are kept, under their new keys and in their order. */
  function Carried(x: Input, rs: Records): Records {
    if rs == [] then []
    else
      var n := |rs| - 1;
      Carried(x, rs[..n]) + if rs[n].0 in x.drops then [] else [(Target(x, rs[n].0), rs[n].1)]
  }

  predicate Accepted(x: Input) {
    WellFormed(x) && forall a | a in x.moves :: MayCarry(x, a)
  }

  /** `result[key] = entry` on a dictionary in order. */
  function Put(rs: Records, key: string, entry: Review): Records {
    if rs == [] then [(key, entry)]
    else if rs[0].0 == key then [(key, entry)] + rs[1..]
    else [rs[0]] + Put(rs[1..], key, entry)
  }

  lemma {:induction false} PutNew(rs: Records, key: string, entry: Review)
    requires !HasKey(rs, key)
    ensures Put(rs, key, entry) == rs + [(key, entry)]
  {
    if rs != [] {
      assert forall i | 0 < i < |rs| :: rs[1..][i - 1] == rs[i];
      PutNew(rs[1..], key, entry);
    }
  }

  /** Each carried record comes from one that was kept. */
  lemma {:induction false} CarriedFrom(x: Input, rs: Records, j: nat) returns (i: nat)
    requires j < |Carried(x, rs)|
    ensures i < |rs| && rs[i].0 !in x.drops && Carried(x, rs)[j] == (Target(x, rs[i].0), rs[i].1)
  {
    var n := |rs| - 1;
    if j < |Carried(x, rs[..n])| {
      i := CarriedFrom(x, rs[..n], j);
    } else {
      i := n;
    }
  }

  /** Each kept record is carried. */
  lemma {:induction false} CarriedTo(x: Input, rs: Records, i: nat) returns (j: nat)
    requires i < |rs| && rs[i].0 !in x.drops
    ensures j < |Carried(x, rs)| && Carried(x, rs)[j] == (Target(x, rs[i].0), rs[i].1)
  {
    var n := |rs| - 1;
    if i == n {
      j := |Carried(x, rs)| - 1;
    } else {
      j := CarriedTo(x, rs[..n], i);
    }
  }

  /** Two kept records never get the same key. */
  lemma TargetsApart(x: Input, i: nat, j: nat)
    requires IsInput(x) && Accepted(x) && i < |x.records| && j < |x.records| && i != j
    requires x.records[i].0 !in x.drops && x.records[j].0 !in x.drops
    ensures Target(x, x.records[i].0) != Target(x, x.records[j].0)
  {
    var a, b := x.records[i].0, x.records[j].0;
    assert a != b;
    if a in x.moves {
      assert MayCarry(x, a);
    }
    if b in x.moves {
      assert MayCarry(x, b);
    }
    assert HasKey(x.records, a) && HasKey(x.records, b);
  }

  /** What is carried of the first `n` records has room for the next one. */
  lemma NextIsNew(x: Input, n: nat)
    requires IsInput(x) && Accepted(x) && n < |x.records| && x.records[n].0 !in x.drops
    ensures !HasKey(Carried(x, x.records[..n]), Target(x, x.records[n].0))
  {
    var rs := x.records[..n];
    forall j | 0 <= j < |Carried(x, rs)| ensures Carried(x, rs)[j].0 != Target(x, x.records[n].0) {
      var i := CarriedFrom(x, rs, j);
      TargetsApart(x, i, n);
    }
  }

  datatype Outcome = Refused | Unchanged | Wrote(records: Records)

  /** The same keys with the same reviews, in any order. */
  predicate SameDict(a: Records, b: Records) {
    && (forall i | 0 <= i < |a| :: Find(b, a[i].0) == Some(a[i].1))
    && (forall i | 0 <= i < |b| :: Find(a, b[i].0) == Some(b[i].1))
  }

  /** What becomes of the record file. */
  function OutcomeOf(x: Input): Outcome {
    if !WellFormed(x) then Refused
    else if AlreadyApplied(x) then Unchanged
    else if !Accepted(x) then Refused
    else if SameDict(Carried(x, x.records), x.records) then Unchanged
    else Wrote(Carried(x, x.records))
  }

  /** Applies a mapping; `sources`: the moved keys in the order of the arguments. */
  method ApplyReview(x: Input, sources: seq<string>) returns (r: Outcome)
    requires IsInput(x) && forall a :: a in sources <==> a in x.moves
    ensures r == OutcomeOf(x)
  {
    if !WellFormed(x) {
      return Refused;
    }
    if AlreadyApplied(x) {
      return Unchanged;
    }
    for k := 0 to |sources|
      invariant forall i | 0 <= i < k :: MayCarry(x, sources[i])
    {
      if !MayCarry(x, sources[k]) {
        return Refused;
      }
    }
    assert Accepted(x);
    var result: Records := [];
    assert x.records[..0] == [];
    for n := 0 to |x.records|
      invariant result == Carried(x, x.records[..n])
    {
      assert x.records[..n + 1][..n] == x.records[..n];
      var key, entry := x.records[n].0, x.records[n].1;
      if key !in x.drops {
        NextIsNew(x, n);
        PutNew(result, Target(x, key), entry);
        result := Put(result, Target(x, key), entry);
      }
    }
    assert x.records[..|x.records|] == x.records;
    r := if SameDict(result, x.records) then Unchanged else Wrote(result);
  }

  // ------------------------------------------------------------- conservation

  lemma {:induction false} FindAt(rs: Records, i: nat)
    requires IsDict(rs) && i < |rs|
    ensures Find(rs, rs[i].0) == Some(rs[i].1)
  {
    if i > 0 {
      assert rs[1..][i - 1] == rs[i];
      FindAt(rs[1..], i - 1);
    }
  }

  lemma {:induction false} FoundAt(rs: Records, key: string) returns (i: nat)
    requires HasKey(rs, key)
    ensures i < |rs| && rs[i].0 == key && Find(rs, key) == Some(rs[i].1)
  {
    if rs[0].0 == key {
      i := 0;
    } else {
      var k :| 0 <= k < |rs| && rs[k].0 == key;
      assert rs[1..][k - 1] == rs[k];
      i := FoundAt(rs[1..], key);
      i := i + 1;
    }
  }

  /** How many of the records are dropped. */
  function DropCount(x: Input, rs: Records): nat {
    if rs == [] then 0 else DropCount(x, rs[..|rs| - 1]) + if rs[|rs| - 1].0 in x.drops then 1 else 0
  }

  /** Nothing is lost but what is dropped by name. */
  lemma {:induction false} CarriedCount(x: Input, rs: Records)
    ensures |Carried(x, rs)| + DropCount(x, rs) == |rs|
  {
    if rs != [] {
      CarriedCount(x, rs[..|rs| - 1]);
    }
  }

  /** The carried records are a dictionary: no two of them collide. */
  lemma {:induction false} CarriedIsDict(x: Input, n: nat)
    requires IsInput(x) && Accepted(x) && n <= |x.records|
    ensures IsDict(Carried(x, x.records[..n]))
  {
    if n > 0 {
      assert x.records[..n][..n - 1] == x.records[..n - 1];
      CarriedIsDict(x, n - 1);
      if x.records[n - 1].0 !in x.drops {
        NextIsNew(x, n - 1);
        NewKeyIsDict(Carried(x, x.records[..n - 1]), (Target(x, x.records[n - 1].0), x.records[n - 1].1));
      }
    } else {
      assert x.records[..0] == [];
    }
  }

  lemma NewKeyIsDict(rs: Records, r: (string, Review))
    requires IsDict(rs) && !HasKey(rs, r.0)
    ensures IsDict(rs + [r])
  {
  }

  /** Every record that is kept is found under its new key, as it was. */
  lemma KeptIsFound(x: Input, i: nat)
    requires IsInput(x) && Accepted(x) && i < |x.records| && x.records[i].0 !in x.drops
    ensures Find(Carried(x, x.records), Target(x, x.records[i].0)) == Some(x.records[i].1)
  {
    assert x.records[..|x.records|] == x.records;
    CarriedIsDict(x, |x.records|);
    var j := CarriedTo(x, x.records, i);
    FindAt(Carried(x, x.records), j);
  }

  /** A key is found after the carry only if a kept record was carried there. */
  lemma FoundIsKept(x: Input, key: string) returns (i: nat)
    requires HasKey(Carried(x, x.records), key)
    ensures i < |x.records| && x.records[i].0 !in x.drops && Target(x, x.records[i].0) == key
  {
    var j :| 0 <= j < |Carried(x, x.records)| && Carried(x, x.records)[j].0 == key;
    i := CarriedFrom(x, x.records, j);
  }

  predicate IsTarget(x: Input, key: string) {
    exists a | a in x.moves :: x.moves[a] == key
  }

  /**
   For every accepted mapping, chains and swaps included: no two records collide, all but the dropped
   ones survive as they were, every target reviews its current declaration with the review of its
   source, and keys that are not named keep theirs.
   */
  lemma CarryConserves(x: Input)
    requires IsInput(x) && Accepted(x)
    ensures var rs := Carried(x, x.records);
      && IsDict(rs) && |rs| + DropCount(x, x.records) == |x.records|
      && (forall a | a in x.moves ::
            Find(rs, x.moves[a]) == Find(x.records, a) && Reviews(rs, x.bindings, x.moves[a]))
      && (forall key | key !in x.moves && key !in x.drops && !IsTarget(x, key) :: Find(rs, key) == Find(x.records, key))
      && (forall key | !IsTarget(x, key) && (key in x.moves || key in x.drops) :: Find(rs, key).None?)
  {
    var rs := Carried(x, x.records);
    assert x.records[..|x.records|] == x.records;
    CarriedIsDict(x, |x.records|);
    CarriedCount(x, x.records);
    forall a | a in x.moves ensures Find(rs, x.moves[a]) == Find(x.records, a) && Reviews(rs, x.bindings, x.moves[a]) {
      assert MayCarry(x, a);
      var i := FoundAt(x.records, a);
      KeptIsFound(x, i);
    }
    forall key | key !in x.moves && key !in x.drops && !IsTarget(x, key) ensures Find(rs, key) == Find(x.records, key) {
      UnnamedKept(x, key);
    }
    forall key | !IsTarget(x, key) && (key in x.moves || key in x.drops) ensures Find(rs, key).None? {
      if HasKey(rs, key) {
        var i := FoundIsKept(x, key);
      }
    }
  }

  lemma UnnamedKept(x: Input, key: string)
    requires IsInput(x) && Accepted(x) && key !in x.moves && key !in x.drops && !IsTarget(x, key)
    ensures Find(Carried(x, x.records), key) == Find(x.records, key)
  {
    if HasKey(x.records, key) {
      var i := FoundAt(x.records, key);
      KeptIsFound(x, i);
    } else if HasKey(Carried(x, x.records), key) {
      var i := FoundIsKept(x, key);
    }
  }

  /** Applying the same arguments once more changes nothing. */
  lemma ApplyAgain(x: Input)
    requires IsInput(x) && OutcomeOf(x).Wrote?
    ensures OutcomeOf(x.(records := OutcomeOf(x).records)) == Unchanged
  {
    var y := x.(records := Carried(x, x.records));
    assert WellFormed(y) by { assert WellFormed(x); }
    if x.moves == map[] {
      DropAgain(x, y);
    } else {
      MoveAgain(x, y);
    }
  }

  lemma MoveAgain(x: Input, y: Input)
    requires IsInput(x) && Accepted(x) && x.moves != map[] && y == x.(records := Carried(x, x.records))
    ensures AlreadyApplied(y)
  {
    CarryConserves(x);
  }

  lemma DropAgain(x: Input, y: Input)
    requires IsInput(x) && Accepted(x) && x.moves == map[] && y == x.(records := Carried(x, x.records))
    ensures !AlreadyApplied(y) && Accepted(y) && SameDict(Carried(y, y.records), y.records)
  {
    forall j | 0 <= j < |y.records| ensures y.records[j].0 !in y.drops {
      var i := CarriedFrom(x, x.records, j);
    }
    NothingDropped(y, y.records);
    assert x.records[..|x.records|] == x.records;
    CarriedIsDict(x, |x.records|);
    SameSelf(y.records);
  }

  lemma SameSelf(rs: Records)
    requires IsDict(rs)
    ensures SameDict(rs, rs)
  {
    forall i | 0 <= i < |rs| ensures Find(rs, rs[i].0) == Some(rs[i].1) {
      FindAt(rs, i);
    }
  }

  lemma {:induction false} NothingDropped(x: Input, rs: Records)
    requires x.moves == map[] && forall j | 0 <= j < |rs| :: rs[j].0 !in x.drops
    ensures Carried(x, rs) == rs
  {
    if rs != [] {
      NothingDropped(x, rs[..|rs| - 1]);
      assert rs == rs[..|rs| - 1] + [rs[|rs| - 1]];
    }
  }

  // -------------------------------------------------------- drops, and when not

  /** The record after the command. */
  function After(x: Input): Records {
    if OutcomeOf(x).Wrote? then OutcomeOf(x).records else x.records
  }

  /** No dropped key has a record left, targets apart. */
  predicate DropsDone(x: Input, rs: Records) {
    forall key | key in x.drops && !IsTarget(x, key) :: !HasKey(rs, key)
  }

  /** No moved key has a record left, targets apart. */
  predicate SourcesGone(x: Input, rs: Records) {
    forall key | key in x.moves && !IsTarget(x, key) :: !HasKey(rs, key)
  }

  /** What is not a target and is dropped or moved is gone from the carried records. */
  lemma CarryLeaves(x: Input)
    requires IsInput(x) && !OutcomeOf(x).Refused? && !AlreadyApplied(x)
    ensures DropsDone(x, After(x)) && SourcesGone(x, After(x))
  {
    CarryConserves(x);
    if OutcomeOf(x).Unchanged? {
      forall key | (key in x.drops || key in x.moves) && !IsTarget(x, key) ensures !HasKey(x.records, key) {
        if HasKey(x.records, key) {
          var i := FoundAt(x.records, key);
        }
      }
    }
  }

  /**
   A mapping that is taken to be applied already is not gone through again, its drops neither: the
   drops are done exactly when that is not so, or when there was nothing to drop.
   */
  lemma DropsDoneIff(x: Input)
    requires IsInput(x) && !OutcomeOf(x).Refused?
    ensures DropsDone(x, After(x)) <==> !AlreadyApplied(x) || DropsDone(x, x.records)
  {
    if !AlreadyApplied(x) {
      CarryLeaves(x);
    }
  }

  /** In the same way the moved keys are gone exactly when that is not so, or when they were gone before. */
  lemma SourcesGoneIff(x: Input)
    requires IsInput(x) && !OutcomeOf(x).Refused?
    ensures SourcesGone(x, After(x)) <==> !AlreadyApplied(x) || SourcesGone(x, x.records)
  {
    if !AlreadyApplied(x) {
      CarryLeaves(x);
    }
  }

  // ------------------------------------------------------------- when it is refused

  /** Every target has a record of the declaration it names, and there is a target. */
  predicate IsInPlace(x: Input) {
    && x.moves != map[]
    && forall a | a in x.moves ::
         var b := x.moves[a];
         b in x.bindings && HasKey(x.records, b) && Find(x.records, b).value.identity == x.bindings[b].identity
  }

  /** The move has nothing to carry, would carry it to another test, or onto a record that stays. */
  predicate IsWrong(x: Input, a: string)
    requires a in x.moves && x.moves[a] in x.bindings
  {
    var b := x.moves[a];
    || !HasKey(x.records, a)
    || Find(x.records, a).value.identity != x.bindings[b].identity
    || Find(x.records, a).value.name != Some(x.bindings[b].name)
    || (HasKey(x.records, b) && b !in x.moves && b !in x.drops)
  }

  /**
   Refused: a target that is not declared, a key that is both moved and dropped, or, unless all is in
   place already, a move that is wrong.
   */
  lemma RefusedIff(x: Input)
    ensures OutcomeOf(x) == Refused <==>
      || (exists a | a in x.moves :: x.moves[a] !in x.bindings)
      || (exists k | k in x.drops :: k in x.moves)
      || (!IsInPlace(x) && exists a | a in x.moves && x.moves[a] in x.bindings :: IsWrong(x, a))
  {
    if WellFormed(x) {
      assert IsInPlace(x) <==> AlreadyApplied(x);
      assert forall a | a in x.moves :: MayCarry(x, a) <==> !IsWrong(x, a);
    }
  }

  /** What is found under a key is recorded under it. */
  lemma {:induction false} FindIff(rs: Records, key: string, review: Review)
    requires IsDict(rs)
    ensures Find(rs, key) == Some(review) <==> (key, review) in rs
  {
    if rs != [] {
      var rest := rs[1..];
      assert rs == [rs[0]] + rest;
      assert forall i, j | 0 <= i < j < |rest| :: rest[i] == rs[i + 1] && rest[j] == rs[j + 1];
      FindIff(rest, key, review);
      forall i | 0 <= i < |rest| ensures rest[i].0 != rs[0].0 {
        assert rest[i] == rs[i + 1];
      }
    }
  }

  // -------------------------------------------------------------- the arguments

  predicate NoSign(s: string) {
    forall i | 0 <= i < |s| :: s[i] != '='
  }

  /** An argument is read as the two keys on both sides of its first sign. */
  lemma MoveSpelt(m: Move)
    requires NoSign(m.source)
    ensures MoveOf(m.source + ("=" + m.target)) == m
  {
    var s := m.source + ("=" + m.target);
    var n := SignAt(s);
    assert s[|m.source|] == '=';
    assert forall i | 0 <= i < |m.source| :: s[i] == m.source[i];
    assert n == Some(|m.source|);
  }

  lemma NoMove(s: string)
    requires NoSign(s)
    ensures !IsMove(MoveOf(s))
  {
  }

  /** A drop beside a move that is already applied is left undone. */
  lemma DropIsSkipped(a: string, b: string, c: string, review: Review, other: Review) returns (x: Input)
    requires a != "" && b != "" && a != b && c != a && c != b && review.name.Some?
    ensures IsInput(x) && c in x.drops && OutcomeOf(x) == Unchanged && HasKey(After(x), c) && !IsTarget(x, c)
  {
    var rs: Records := [(b, review), (c, other)];
    x := Input(rs, map[b := Binding(review.identity, review.name.value)], map[a := b], {c});
    FindAt(rs, 0);
    assert rs[1].0 == c && HasKey(rs, c);
    assert x.moves[a] == b;
    assert Reviews(rs, x.bindings, b);
    assert AlreadyApplied(x);
  }

  /** A target that has its review already keeps its source in place, although the move would be refused. */
  lemma SourceIsKept(a: string, b: string, review: Review) returns (x: Input)
    requires a != "" && b != "" && a != b && review.name.Some?
    ensures IsInput(x) && a in x.moves && OutcomeOf(x) == Unchanged && HasKey(After(x), a) && !IsTarget(x, a) && !Accepted(x)
  {
    var rs: Records := [(a, review), (b, review)];
    x := Input(rs, map[b := Binding(review.identity, review.name.value)], map[a := b], {});
    FindAt(rs, 0);
    FindAt(rs, 1);
    assert rs[0].0 == a && HasKey(rs, a) && rs[1].0 == b && HasKey(rs, b);
    assert x.moves[a] == b;
    assert Reviews(rs, x.bindings, b);
    assert AlreadyApplied(x);
    assert !MayCarry(x, a);
  }
}
