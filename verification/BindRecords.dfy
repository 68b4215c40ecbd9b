/**
 What a program of bind operations says, told without an interpreter: each bind takes its name and
 weakness from the last symbol before it and its ordinal from the last ordinal before it, whatever
 stands between them. Any program that says a list of records in this sense, in whatever forms and
 encodings, is interpreted to exactly that list.
 */
module BindRecords {
  import opened Prelude
  import opened Leb128
  import opened BindOpcodes

  predicate AreOps(ops: seq<Op>) {
    forall op | op in ops :: IsOp(op)
  }

  // ------------------------------------------------------- what a program says

  predicate IsOrdinal(op: Op) {
    op.OrdinalImm? || op.OrdinalUleb? || op.SpecialImm?
  }

  /** The ordinal that an operation sets; a special one is the low half of its byte with its sign. */
  predicate Denotes(op: Op, ordinal: int) {
    match op
    case OrdinalImm(imm) => ordinal == imm
    case OrdinalUleb(_, operand) => ordinal == GroupValue(operand)
    case SpecialImm(imm) => -16 < ordinal <= 0 && (imm - ordinal) % 16 == 0
    case _ => false
  }

  predicate IsBind(op: Op) {
    op.DoBind? || op.DoBindAdd? || op.DoBindScaled? || op.DoBindTimes?
  }

  function Count(op: Op): nat {
    if op.DoBindTimes? then GroupValue(op.operand) else 1
  }

  /** Operation `s` is the last symbol before `k`. */
  predicate IsLastSymbol(ops: seq<Op>, s: nat, k: nat) {
    s < k <= |ops| && ops[s].Symbol? && forall j | s < j < k :: !ops[j].Symbol?
  }

  predicate IsLastOrdinal(ops: seq<Op>, o: nat, k: nat) {
    o < k <= |ops| && IsOrdinal(ops[o]) && forall j | o < j < k :: !IsOrdinal(ops[j])
  }

  predicate IsBindable(name: Bytes) {
    name != [] && name[0] == UNDERSCORE
  }

  /** A bind at `k` binds something. */
  ghost predicate IsNamed(ops: seq<Op>, k: nat) {
    exists s: nat :: IsLastSymbol(ops, s, k) && IsBindable(ops[s].name)
  }

  /** What a bind at `k` binds. */
  ghost predicate IsBoundAt(ops: seq<Op>, k: nat, kind: Kind, x: Import)
    requires k <= |ops|
  {
    && (exists s: nat :: IsLastSymbol(ops, s, k) && x.name == ops[s].name && (x.weak <==> kind.WeakBind? || ops[s].imm % 2 == 1))
    && ((exists o: nat :: IsLastOrdinal(ops, o, k) && Denotes(ops[o], x.ordinal))
        || ((forall o | 0 <= o < k :: !IsOrdinal(ops[o])) && x.ordinal == 0))
    && x.eager == kind.Bind?
  }

  /** What operation `k` adds to the records. */
  ghost predicate IsAdded(ops: seq<Op>, k: nat, kind: Kind, added: seq<Import>)
    requires k < |ops|
  {
    if IsBind(ops[k]) && IsNamed(ops, k) then
      |added| == Count(ops[k]) && forall i | 0 <= i < |added| :: IsBoundAt(ops, k, kind, added[i])
    else added == []
  }

  /** The first `n` operations say the records, one after the other. */
  ghost predicate Say(ops: seq<Op>, n: nat, kind: Kind, records: seq<Import>)
    requires n <= |ops|
  {
    if n == 0 then records == []
    else exists before, added :: records == before + added && Say(ops, n - 1, kind, before) && IsAdded(ops, n - 1, kind, added)
  }

  /** How many operations count: those before the first Done, or all of a lazy stream. */
  function Length(ops: seq<Op>, kind: Kind): nat
    ensures Length(ops, kind) <= |ops|
  {
    if ops == [] || (ops[0].Done? && !kind.LazyBind?) then 0 else 1 + Length(ops[1..], kind)
  }

  ghost predicate Writes(ops: seq<Op>, kind: Kind, records: seq<Import>) {
    Say(ops, Length(ops, kind), kind, records)
  }

  // ---------------------------------------------------------- what is remembered

  function RegistersAt(ops: seq<Op>, n: nat, kind: Kind): Registers
    requires n <= |ops|
  {
    if n == 0 then Start(kind) else After(ops[n - 1], RegistersAt(ops, n - 1, kind), kind)
  }

  lemma {:induction false} SymbolAt(ops: seq<Op>, k: nat, kind: Kind, s: nat)
    requires IsLastSymbol(ops, s, k)
    ensures RegistersAt(ops, k, kind).symbol == Some(ops[s].name)
    ensures RegistersAt(ops, k, kind).weak <==> kind.WeakBind? || ops[s].imm % 2 == 1
  {
    if s < k - 1 {
      assert !ops[k - 1].Symbol?;
      SymbolAt(ops, k - 1, kind, s);
    }
  }

  lemma {:induction false} LastSymbol(ops: seq<Op>, k: nat, kind: Kind) returns (s: nat)
    requires k <= |ops| && RegistersAt(ops, k, kind).symbol.Some?
    ensures IsLastSymbol(ops, s, k)
  {
    if ops[k - 1].Symbol? {
      s := k - 1;
    } else {
      s := LastSymbol(ops, k - 1, kind);
    }
  }

  lemma {:induction false} OrdinalAt(ops: seq<Op>, k: nat, kind: Kind, o: nat)
    requires AreOps(ops) && IsLastOrdinal(ops, o, k)
    ensures Denotes(ops[o], RegistersAt(ops, k, kind).ordinal)
  {
    if o < k - 1 {
      assert !IsOrdinal(ops[k - 1]);
      OrdinalAt(ops, k - 1, kind, o);
    } else {
      assert ops[o] in ops;
    }
  }

  lemma {:induction false} NoOrdinalAt(ops: seq<Op>, k: nat, kind: Kind)
    requires k <= |ops| && forall o | 0 <= o < k :: !IsOrdinal(ops[o])
    ensures RegistersAt(ops, k, kind).ordinal == 0
  {
    if k > 0 {
      assert !IsOrdinal(ops[k - 1]);
      NoOrdinalAt(ops, k - 1, kind);
    }
  }

  lemma {:induction false} LastOrdinal(ops: seq<Op>, k: nat) returns (o: nat)
    requires k <= |ops| && exists j | 0 <= j < k :: IsOrdinal(ops[j])
    ensures IsLastOrdinal(ops, o, k)
  {
    if IsOrdinal(ops[k - 1]) {
      o := k - 1;
    } else {
      o := LastOrdinal(ops, k - 1);
    }
  }

  lemma OneOrdinal(op: Op, a: int, b: int)
    requires Denotes(op, a) && Denotes(op, b)
    ensures a == b
  {
  }

  /** The ordinal of a bind is the one remembered. */
  lemma OrdinalIff(ops: seq<Op>, k: nat, kind: Kind, ordinal: int)
    requires AreOps(ops) && k <= |ops|
    ensures ordinal == RegistersAt(ops, k, kind).ordinal <==>
      || (exists o: nat :: IsLastOrdinal(ops, o, k) && Denotes(ops[o], ordinal))
      || ((forall o | 0 <= o < k :: !IsOrdinal(ops[o])) && ordinal == 0)
  {
    if exists j | 0 <= j < k :: IsOrdinal(ops[j]) {
      var o := LastOrdinal(ops, k);
      OrdinalAt(ops, k, kind, o);
      if p: nat :| IsLastOrdinal(ops, p, k) && Denotes(ops[p], ordinal) {
        assert p == o;
        OneOrdinal(ops[o], ordinal, RegistersAt(ops, k, kind).ordinal);
      }
    } else {
      NoOrdinalAt(ops, k, kind);
    }
  }

  lemma BoundIff(ops: seq<Op>, k: nat, kind: Kind, x: Import)
    requires AreOps(ops) && k <= |ops| && RegistersAt(ops, k, kind).symbol.Some?
    ensures var m := RegistersAt(ops, k, kind);
      IsBoundAt(ops, k, kind, x) <==> x == Import(m.symbol.value, m.ordinal, m.weak, kind.Bind?)
  {
    var s := LastSymbol(ops, k, kind);
    SymbolAt(ops, k, kind, s);
    OrdinalIff(ops, k, kind, x.ordinal);
    if IsBoundAt(ops, k, kind, x) {
      var t: nat :| IsLastSymbol(ops, t, k) && x.name == ops[t].name && (x.weak <==> kind.WeakBind? || ops[t].imm % 2 == 1);
      SymbolAt(ops, k, kind, t);
    }
  }

  lemma NamedIff(ops: seq<Op>, k: nat, kind: Kind)
    requires k <= |ops|
    ensures var m := RegistersAt(ops, k, kind); IsNamed(ops, k) <==> m.symbol.Some? && IsBindable(m.symbol.value)
  {
    if IsNamed(ops, k) {
      var s: nat :| IsLastSymbol(ops, s, k) && IsBindable(ops[s].name);
      SymbolAt(ops, k, kind, s);
    }
    if RegistersAt(ops, k, kind).symbol.Some? {
      var s := LastSymbol(ops, k, kind);
      SymbolAt(ops, k, kind, s);
    }
  }

  lemma {:induction false} RepeatIs(x: Import, n: nat)
    ensures |Repeat([x], n)| == n && forall i | 0 <= i < n :: Repeat([x], n)[i] == x
  {
    if n > 0 {
      RepeatIs(x, n - 1);
    }
  }

  lemma {:induction false} RepeatNothing(n: nat)
    ensures Repeat([], n) == []
  {
    if n > 0 {
      RepeatNothing(n - 1);
    }
  }

  lemma AddedIff(ops: seq<Op>, k: nat, kind: Kind, added: seq<Import>)
    requires AreOps(ops) && k < |ops|
    ensures IsAdded(ops, k, kind, added) <==> added == Adds(ops[k], RegistersAt(ops, k, kind), kind)
  {
    var m := RegistersAt(ops, k, kind);
    NamedIff(ops, k, kind);
    if IsBind(ops[k]) && IsNamed(ops, k) {
      NamedAdded(ops, k, kind, added, Import(m.symbol.value, m.ordinal, m.weak, kind.Bind?));
    } else if IsBind(ops[k]) {
      RepeatNothing(Count(ops[k]));
    }
  }

  lemma NamedAdded(ops: seq<Op>, k: nat, kind: Kind, added: seq<Import>, x: Import)
    requires AreOps(ops) && k < |ops| && IsBind(ops[k]) && IsNamed(ops, k)
    requires Bound(RegistersAt(ops, k, kind), kind) == [x]
    ensures IsAdded(ops, k, kind, added) <==> added == Adds(ops[k], RegistersAt(ops, k, kind), kind)
  {
    var n := Count(ops[k]);
    RepeatIs(x, n);
    assert Adds(ops[k], RegistersAt(ops, k, kind), kind) == Repeat([x], n) by {
      assert Repeat([x], 1) == Repeat([x], 0) + [x] == [x];
    }
    forall i | 0 <= i < |added| ensures IsBoundAt(ops, k, kind, added[i]) <==> added[i] == x {
      BoundIff(ops, k, kind, added[i]);
    }
  }

  // ------------------------------------------------------------ the whole program

  /** All that the first `n` operations add. */
  function Sum(ops: seq<Op>, n: nat, kind: Kind): seq<Import>
    requires n <= |ops|
  {
    if n == 0 then [] else Sum(ops, n - 1, kind) + Adds(ops[n - 1], RegistersAt(ops, n - 1, kind), kind)
  }

  lemma {:induction false} SumIsSaid(ops: seq<Op>, n: nat, kind: Kind)
    requires AreOps(ops) && n <= |ops|
    ensures Say(ops, n, kind, Sum(ops, n, kind))
  {
    if n > 0 {
      SumIsSaid(ops, n - 1, kind);
      AddedIff(ops, n - 1, kind, Adds(ops[n - 1], RegistersAt(ops, n - 1, kind), kind));
    }
  }

  lemma {:induction false} SaidIsSum(ops: seq<Op>, n: nat, kind: Kind, records: seq<Import>)
    requires AreOps(ops) && n <= |ops| && Say(ops, n, kind, records)
    ensures records == Sum(ops, n, kind)
  {
    if n > 0 {
      var before, added :| records == before + added && Say(ops, n - 1, kind, before) && IsAdded(ops, n - 1, kind, added);
      SaidIsSum(ops, n - 1, kind, before);
      AddedIff(ops, n - 1, kind, added);
    }
  }

  lemma {:induction false} LengthStops(ops: seq<Op>, n: nat, kind: Kind)
    requires n <= Length(ops, kind)
    ensures n < Length(ops, kind) ==> n < |ops| && (!ops[n].Done? || kind.LazyBind?)
    ensures n == Length(ops, kind) ==> n == |ops| || (ops[n].Done? && !kind.LazyBind?)
  {
    if n > 0 {
      LengthStops(ops[1..], n - 1, kind);
    }
  }

  lemma {:induction false} MeaningFrom(ops: seq<Op>, n: nat, kind: Kind)
    requires n <= Length(ops, kind)
    ensures Meaning(ops, Start(kind), kind) == Sum(ops, n, kind) + Meaning(ops[n..], RegistersAt(ops, n, kind), kind)
  {
    if n == 0 {
      assert ops[0..] == ops;
    } else {
      MeaningFrom(ops, n - 1, kind);
      LengthStops(ops, n - 1, kind);
      MeaningNext(ops, n - 1, kind);
      Regroup(Sum(ops, n - 1, kind), Adds(ops[n - 1], RegistersAt(ops, n - 1, kind), kind),
              Meaning(ops[n..], RegistersAt(ops, n, kind), kind));
    }
  }

  lemma Regroup(a: seq<Import>, b: seq<Import>, c: seq<Import>)
    ensures (a + b) + c == a + (b + c)
  {
  }

  lemma MeaningNext(ops: seq<Op>, n: nat, kind: Kind)
    requires n < |ops| && (!ops[n].Done? || kind.LazyBind?)
    ensures var m := RegistersAt(ops, n, kind);
      Meaning(ops[n..], m, kind) == Adds(ops[n], m, kind) + Meaning(ops[n + 1..], RegistersAt(ops, n + 1, kind), kind)
  {
    assert ops[n..][0] == ops[n] && ops[n..][1..] == ops[n + 1..];
  }

  /**
   Every encoding of every program is interpreted to exactly the records that the program says, and
   what follows its Done is not read.
   */
  lemma RecordsRoundTrip(ops: seq<Op>, junk: Bytes, kind: Kind, records: seq<Import>)
    requires AreOps(ops) && (junk == [] || Ends(ops, kind))
    ensures Imports(EncodeAll(ops) + junk, Start(kind), kind) == records <==> Writes(ops, kind, records)
  {
    var n := Length(ops, kind);
    EncodedMeans(ops, junk, Start(kind), kind);
    MeaningFrom(ops, n, kind);
    LengthStops(ops, n, kind);
    SumIsSaid(ops, n, kind);
    if Say(ops, n, kind, records) {
      SaidIsSum(ops, n, kind, records);
    }
  }

  // -------------------------------------------------- records and their runs

  /** A record that can be bound: the flags that a stream of this kind gives it and a proper name. */
  predicate IsRecord(x: Import, kind: Kind) {
    && x.name != [] && x.name[0] == UNDERSCORE && NoZero(x.name) && -16 < x.ordinal
    && x.eager == kind.Bind? && (kind.WeakBind? ==> x.weak)
  }

  /** The same record a number of times. */
  datatype Run = Run(record: Import, times: nat)

  function Expand(runs: seq<Run>): seq<Import> {
    if runs == [] then [] else Repeat([runs[0].record], runs[0].times) + Expand(runs[1..])
  }

  function OrdinalOp(ordinal: int): Op
    requires -16 < ordinal
  {
    if ordinal < 0 then SpecialImm(ordinal + 16)
    else if ordinal < 16 then OrdinalImm(ordinal)
    else OrdinalUleb(0, UlebBytes(ordinal))
  }

  function BindOp(times: nat): Op {
    if times == 1 then DoBind(0) else DoBindTimes(0, UlebBytes(times), UlebBytes(0))
  }

  /** One way to write a run: a single bind, or the opcode that repeats one. */
  function RunOps(x: Run): seq<Op>
    requires -16 < x.record.ordinal
  {
    [OrdinalOp(x.record.ordinal), Symbol(if x.record.weak then 1 else 0, x.record.name), BindOp(x.times)]
  }

  predicate AreRuns(runs: seq<Run>, kind: Kind) {
    forall x | x in runs :: IsRecord(x.record, kind)
  }

  function Program(runs: seq<Run>): seq<Op>
    requires forall x | x in runs :: -16 < x.record.ordinal
  {
    if runs == [] then [Done(0)] else RunOps(runs[0]) + Program(runs[1..])
  }

  lemma {:induction false} UlebBytesValue(n: nat)
    ensures GroupValue(UlebBytes(n)) == n
  {
    var g := UlebBytes(n);
    if n < 128 {
      assert g[1..] == [] && GroupValue(g[1..]) == 0;
    } else {
      UlebBytesValue(n / 128);
      assert g[1..] == UlebBytes(n / 128);
    }
  }

  lemma MeaningStep(op: Op, ops: seq<Op>, m: Registers, kind: Kind)
    requires !op.Done? || kind.LazyBind?
    ensures Meaning([op] + ops, m, kind) == Adds(op, m, kind) + Meaning(ops, After(op, m, kind), kind)
  {
    assert ([op] + ops)[1..] == ops;
  }

  lemma OrdinalOpSets(ordinal: int, m: Registers, kind: Kind)
    requires -16 < ordinal
    ensures After(OrdinalOp(ordinal), m, kind) == m.(ordinal := ordinal)
  {
    if ordinal >= 16 {
      UlebBytesValue(ordinal);
    }
  }

  lemma BindOpAdds(times: nat, m: Registers, kind: Kind, x: Import)
    requires Bound(m, kind) == [x]
    ensures Adds(BindOp(times), m, kind) == Repeat([x], times) && After(BindOp(times), m, kind) == m
  {
    UlebBytesValue(times);
    assert Repeat([x], 1) == Repeat([x], 0) + [x] == [x];
  }

  lemma RunMeans(x: Run, ops: seq<Op>, m: Registers, kind: Kind) returns (m': Registers)
    requires IsRecord(x.record, kind)
    ensures Meaning(RunOps(x) + ops, m, kind) == Repeat([x.record], x.times) + Meaning(ops, m', kind)
  {
    var r := x.record;
    var a, b, c := OrdinalOp(r.ordinal), Symbol(if r.weak then 1 else 0, r.name), BindOp(x.times);
    assert RunOps(x) + ops == [a] + ([b] + ([c] + ops));
    OrdinalOpSets(r.ordinal, m, kind);
    m' := Registers(r.ordinal, Some(r.name), r.weak);
    MeaningStep(a, [b] + ([c] + ops), m, kind);
    MeaningStep(b, [c] + ops, m.(ordinal := r.ordinal), kind);
    MeaningStep(c, ops, m', kind);
    BindOpAdds(x.times, m', kind, r);
  }

  lemma {:induction false} ProgramMeans(runs: seq<Run>, m: Registers, kind: Kind)
    requires AreRuns(runs, kind)
    ensures Meaning(Program(runs), m, kind) == Expand(runs)
  {
    if runs == [] {
      assert Program(runs)[1..] == [];
    } else {
      var m' := RunMeans(runs[0], Program(runs[1..]), m, kind);
      ProgramMeans(runs[1..], m', kind);
    }
  }

  lemma {:induction false} ProgramIsOps(runs: seq<Run>, kind: Kind)
    requires AreRuns(runs, kind)
    ensures forall op | op in Program(runs) :: IsOp(op)
  {
    if runs != [] {
      ProgramIsOps(runs[1..], kind);
      assert IsRecord(runs[0].record, kind);
      assert forall op | op in RunOps(runs[0]) :: IsOp(op);
    }
  }

  /** Every list of records has a program, for instance one that folds their repeats. */
  lemma RunsWritten(runs: seq<Run>, kind: Kind)
    requires AreRuns(runs, kind)
    ensures AreOps(Program(runs)) && Writes(Program(runs), kind, Expand(runs))
  {
    ProgramIsOps(runs, kind);
    EncodedMeans(Program(runs), [], Start(kind), kind);
    ProgramMeans(runs, Start(kind), kind);
    RecordsRoundTrip(Program(runs), [], kind, Expand(runs));
  }
}
