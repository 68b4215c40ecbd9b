/**
 The bind opcode streams of <mach-o/loader.h> as `dyld_info_bind_imports` of
 scripts/closure_analyze.py interprets them. Every encoding of a program of bind operations is
 interpreted as the program means, and every byte string is interpreted to some list of imports.
 */
module BindOpcodes {
  import opened Prelude
  import opened Leb128

  datatype Kind = Bind | WeakBind | LazyBind

  /** The bytes of the name are kept as they are. */
  datatype Import = Import(name: Bytes, ordinal: int, weak: bool, eager: bool)

  /** What the interpreter remembers between opcodes. */
  datatype Registers = Registers(ordinal: int, symbol: Option<Bytes>, weak: bool)

  const UNDERSCORE: Byte := 0x5F

  function Start(kind: Kind): Registers {
    Registers(0, None, kind.WeakBind?)
  }

  /** What one bind adds: nothing without a symbol that starts with an underscore. */
  function Bound(m: Registers, kind: Kind): seq<Import> {
    if m.symbol.None? || m.symbol.value == [] || m.symbol.value[0] != UNDERSCORE then []
    else [Import(m.symbol.value, m.ordinal, m.weak, kind.Bind?)]
  }

  function Repeat(items: seq<Import>, n: nat): seq<Import> {
    if n == 0 then [] else Repeat(items, n - 1) + items
  }

  // -------------------------------------------------------------- operations

  /** An operation; `imm` is the low half of its byte, operands are LEB128 groups. */
  datatype Op =
    | Done(imm: nat)
    | OrdinalImm(imm: nat)
    | OrdinalUleb(imm: nat, operand: Bytes)
    | SpecialImm(imm: nat)
    | Symbol(imm: nat, name: Bytes)
    | TypeImm(imm: nat)
    | Addend(imm: nat, operand: Bytes)
    | Segment(imm: nat, operand: Bytes)
    | AddAddress(imm: nat, operand: Bytes)
    | DoBind(imm: nat)
    | DoBindAdd(imm: nat, operand: Bytes)
    | DoBindScaled(imm: nat)
    | DoBindTimes(imm: nat, operand: Bytes, skip: Bytes)

  predicate NoZero(bs: Bytes) {
    forall i | 0 <= i < |bs| :: bs[i] != 0
  }

  predicate IsOp(op: Op) {
    && op.imm < 16
    && (op.Symbol? ==> NoZero(op.name))
    && (op.OrdinalUleb? || op.Addend? || op.Segment? || op.AddAddress? || op.DoBindAdd? || op.DoBindTimes? ==>
          IsGroup(op.operand))
    && (op.DoBindTimes? ==> IsGroup(op.skip))
  }

  function Code(op: Op): nat
    ensures Code(op) % 16 == 0 && Code(op) <= 0xC0
  {
    match op
    case Done(_) => 0x00
    case OrdinalImm(_) => 0x10
    case OrdinalUleb(_, _) => 0x20
    case SpecialImm(_) => 0x30
    case Symbol(_, _) => 0x40
    case TypeImm(_) => 0x50
    case Addend(_, _) => 0x60
    case Segment(_, _) => 0x70
    case AddAddress(_, _) => 0x80
    case DoBind(_) => 0x90
    case DoBindAdd(_, _) => 0xA0
    case DoBindScaled(_) => 0xB0
    case DoBindTimes(_, _, _) => 0xC0
  }

  function Operands(op: Op): Bytes {
    match op
    case OrdinalUleb(_, operand) => operand
    case Symbol(_, name) => name + [0]
    case Addend(_, operand) => operand
    case Segment(_, operand) => operand
    case AddAddress(_, operand) => operand
    case DoBindAdd(_, operand) => operand
    case DoBindTimes(_, operand, skip) => operand + skip
    case _ => []
  }

  function Encode(op: Op): Bytes
    requires IsOp(op)
  {
    [Code(op) + op.imm] + Operands(op)
  }

  function EncodeAll(ops: seq<Op>): Bytes
    requires forall op | op in ops :: IsOp(op)
  {
    if ops == [] then [] else Encode(ops[0]) + EncodeAll(ops[1..])
  }

  // ----------------------------------------------------------- what they mean

  function SpecialOrdinal(imm: nat): int {
    if imm == 0 then 0 else imm - 16
  }

  function After(op: Op, m: Registers, kind: Kind): Registers {
    match op
    case OrdinalImm(imm) => m.(ordinal := imm)
    case OrdinalUleb(_, operand) => m.(ordinal := GroupValue(operand))
    case SpecialImm(imm) => m.(ordinal := SpecialOrdinal(imm))
    case Symbol(imm, name) => m.(symbol := Some(name), weak := kind.WeakBind? || imm % 2 == 1)
    case _ => m
  }

  function Adds(op: Op, m: Registers, kind: Kind): seq<Import> {
    match op
    case DoBind(_) => Bound(m, kind)
    case DoBindAdd(_, _) => Bound(m, kind)
    case DoBindScaled(_) => Bound(m, kind)
    case DoBindTimes(_, operand, _) => Repeat(Bound(m, kind), GroupValue(operand))
    case _ => []
  }

  /** A program's imports, in order; a Done ends it, except in a lazy stream. */
  function Meaning(ops: seq<Op>, m: Registers, kind: Kind): seq<Import> {
    if ops == [] || (ops[0].Done? && !kind.LazyBind?) then []
    else Adds(ops[0], m, kind) + Meaning(ops[1..], After(ops[0], m, kind), kind)
  }

  // ---------------------------------------------------------- the interpreter

  /** The bytes up to the next zero, and those after it. */
  function ZeroAt(bs: Bytes): (z: Option<nat>)
    ensures z.Some? ==> z.value < |bs|
  {
    if bs == [] then None
    else if bs[0] == 0 then Some(0)
    else
      var z := ZeroAt(bs[1..]);
      if z.None? then None else Some(z.value + 1)
  }

  datatype Step = Stop | Go(registers: Registers, added: seq<Import>, rest: Bytes)

  /** One opcode, of the byte `code + imm`, with `bs` after it. */
  function Execute(code: int, imm: nat, bs: Bytes, m: Registers, kind: Kind): (s: Step)
    ensures s.Go? ==> |s.rest| <= |bs|
  {
    if code == 0x00 then if kind.LazyBind? then Go(m, [], bs) else Stop
    else if code == 0x10 then Go(m.(ordinal := imm), [], bs)
    else if code == 0x20 then Go(m.(ordinal := Uleb(bs).value), [], Uleb(bs).rest)
    else if code == 0x30 then Go(m.(ordinal := SpecialOrdinal(imm)), [], bs)
    else if code == 0x40 then
      var z := ZeroAt(bs);
      if z.None? then Stop
      else Go(m.(symbol := Some(bs[..z.value]), weak := kind.WeakBind? || imm % 2 == 1), [], bs[z.value + 1..])
    else if code == 0x50 then Go(m, [], bs)
    else if code == 0x60 then Go(m, [], Sleb(bs).rest)
    else if code == 0x70 || code == 0x80 then Go(m, [], Uleb(bs).rest)
    else if code == 0x90 || code == 0xB0 then Go(m, Bound(m, kind), bs)
    else if code == 0xA0 then Go(m, Bound(m, kind), Uleb(bs).rest)
    else if code == 0xC0 then Go(m, Repeat(Bound(m, kind), Uleb(bs).value), Uleb(Uleb(bs).rest).rest)
    else Stop
  }

  /** The imports of any byte string. */
  function Imports(bs: Bytes, m: Registers, kind: Kind): seq<Import>
    decreases |bs|
  {
    if bs == [] then []
    else
      var s := Execute(bs[0] - bs[0] % 16, bs[0] % 16, bs[1..], m, kind);
      if s.Stop? then [] else s.added + Imports(s.rest, s.registers, kind)
  }

  // ------------------------------------------------------------- round trip

  lemma {:induction false} ZeroFound(name: Bytes, rest: Bytes)
    requires NoZero(name)
    ensures ZeroAt(name + ([0] + rest)) == Some(|name|)
  {
    var bs := name + ([0] + rest);
    if name == [] {
      assert bs == [0] + rest;
    } else {
      assert bs[1..] == name[1..] + ([0] + rest);
      ZeroFound(name[1..], rest);
    }
  }

  lemma ExecuteSymbol(imm: nat, name: Bytes, rest: Bytes, m: Registers, kind: Kind)
    requires NoZero(name)
    ensures Execute(0x40, imm, (name + [0]) + rest, m, kind)
         == Go(m.(symbol := Some(name), weak := kind.WeakBind? || imm % 2 == 1), [], rest)
  {
    var bs := name + ([0] + rest);
    assert (name + [0]) + rest == bs;
    ZeroFound(name, rest);
    assert bs[..|name|] == name && bs[|name| + 1..] == rest;
  }

  lemma ExecuteTimes(imm: nat, count: Bytes, skip: Bytes, rest: Bytes, m: Registers, kind: Kind)
    requires IsGroup(count) && IsGroup(skip)
    ensures Execute(0xC0, imm, (count + skip) + rest, m, kind) == Go(m, Repeat(Bound(m, kind), GroupValue(count)), rest)
  {
    assert (count + skip) + rest == count + (skip + rest);
    UlebGroup(count, skip + rest);
    UlebGroup(skip, rest);
  }

  lemma ExecuteLeb(op: Op, rest: Bytes, m: Registers, kind: Kind)
    requires IsOp(op) && (op.OrdinalUleb? || op.Addend? || op.Segment? || op.AddAddress? || op.DoBindAdd?)
    ensures Execute(Code(op), op.imm, Operands(op) + rest, m, kind) == Go(After(op, m, kind), Adds(op, m, kind), rest)
  {
    UlebGroup(op.operand, rest);
    SlebGroup(op.operand, rest);
  }

  lemma ExecutePlain(op: Op, rest: Bytes, m: Registers, kind: Kind)
    requires op.Done? || op.OrdinalImm? || op.SpecialImm? || op.TypeImm? || op.DoBind? || op.DoBindScaled?
    ensures Execute(Code(op), op.imm, Operands(op) + rest, m, kind) ==
      if op.Done? && !kind.LazyBind? then Stop else Go(After(op, m, kind), Adds(op, m, kind), rest)
  {
    assert Operands(op) + rest == rest;
  }

  /** An encoded operation does what it means, whatever comes after it. */
  lemma ExecuteEncoded(op: Op, rest: Bytes, m: Registers, kind: Kind)
    requires IsOp(op)
    ensures Execute(Code(op), op.imm, Operands(op) + rest, m, kind) ==
      if op.Done? && !kind.LazyBind? then Stop else Go(After(op, m, kind), Adds(op, m, kind), rest)
  {
    match op
    case Symbol(imm, name) => ExecuteSymbol(imm, name, rest, m, kind);
    case DoBindTimes(imm, count, skip) => ExecuteTimes(imm, count, skip, rest, m, kind);
    case Done(_) => ExecutePlain(op, rest, m, kind);
    case OrdinalImm(_) => ExecutePlain(op, rest, m, kind);
    case SpecialImm(_) => ExecutePlain(op, rest, m, kind);
    case TypeImm(_) => ExecutePlain(op, rest, m, kind);
    case DoBind(_) => ExecutePlain(op, rest, m, kind);
    case DoBindScaled(_) => ExecutePlain(op, rest, m, kind);
    case _ => ExecuteLeb(op, rest, m, kind);
  }

  lemma SplitByte(code: nat, imm: nat)
    requires code % 16 == 0 && imm < 16
    ensures (code + imm) % 16 == imm
  {
  }

  lemma ImportsOf(b: Byte, code: int, imm: nat, tail: Bytes, m: Registers, kind: Kind, s: Step)
    requires b == code + imm && b % 16 == imm && Execute(code, imm, tail, m, kind) == s
    ensures Imports([b] + tail, m, kind) == if s.Stop? then [] else s.added + Imports(s.rest, s.registers, kind)
  {
    assert ([b] + tail)[1..] == tail;
  }

  lemma ImportsStep(op: Op, rest: Bytes, m: Registers, kind: Kind)
    requires IsOp(op)
    ensures Imports(Encode(op) + rest, m, kind) ==
      if op.Done? && !kind.LazyBind? then [] else Adds(op, m, kind) + Imports(rest, After(op, m, kind), kind)
  {
    var b, tail := Code(op) + op.imm, Operands(op) + rest;
    assert Encode(op) + rest == [b] + tail;
    SplitByte(Code(op), op.imm);
    ExecuteEncoded(op, rest, m, kind);
    ImportsOf(b, Code(op), op.imm, tail, m, kind,
      if op.Done? && !kind.LazyBind? then Stop else Go(After(op, m, kind), Adds(op, m, kind), rest));
  }

  predicate Ends(ops: seq<Op>, kind: Kind) {
    !kind.LazyBind? && exists i | 0 <= i < |ops| :: ops[i].Done?
  }

  /**
   Every encoding of every program is interpreted as the program means; what follows the Done that
   ends a program is not read.
   */
  lemma {:induction false} EncodedMeans(ops: seq<Op>, junk: Bytes, m: Registers, kind: Kind)
    requires (forall op | op in ops :: IsOp(op)) && (junk == [] || Ends(ops, kind))
    ensures Imports(EncodeAll(ops) + junk, m, kind) == Meaning(ops, m, kind)
    decreases |ops|
  {
    if ops == [] {
      assert EncodeAll(ops) + junk == [];
    } else {
      var op, rest := ops[0], EncodeAll(ops[1..]) + junk;
      assert EncodeAll(ops) + junk == Encode(op) + rest;
      ImportsStep(op, rest, m, kind);
      if !op.Done? || kind.LazyBind? {
        RestEnds(ops, kind);
        EncodedMeans(ops[1..], junk, After(op, m, kind), kind);
      }
    }
  }

  lemma RestEnds(ops: seq<Op>, kind: Kind)
    requires ops != [] && (!ops[0].Done? || kind.LazyBind?)
    ensures Ends(ops, kind) ==> Ends(ops[1..], kind)
  {
    if Ends(ops, kind) {
      var i :| 0 <= i < |ops| && ops[i].Done?;
      assert ops[1..][i - 1] == ops[i];
    }
  }

  // -------------------------------------------------------------- the program

  method FindZero(stream: Bytes, start: nat) returns (z: Option<nat>)
    requires start <= |stream|
    ensures z.Some? <==> ZeroAt(stream[start..]).Some?
    ensures z.Some? ==> start <= z.value < |stream| && z.value == start + ZeroAt(stream[start..]).value
  {
    var i := start;
    while i < |stream|
      invariant start <= i <= |stream|
      invariant ZeroAt(stream[start..]).Some? <==> ZeroAt(stream[i..]).Some?
      invariant ZeroAt(stream[i..]).Some? ==> start + ZeroAt(stream[start..]).value == i + ZeroAt(stream[i..]).value
    {
      assert stream[i..][1..] == stream[i + 1..];
      if stream[i] == 0 {
        return Some(i);
      }
      i := i + 1;
    }
    z := None;
  }

  method Times(items: seq<Import>, count: nat) returns (r: seq<Import>)
    ensures r == Repeat(items, count)
  {
    r := [];
    for i := 0 to count
      invariant r == Repeat(items, i)
    {
      r := r + items;
    }
  }

  /** One turn of the loop: the opcode before `pos` has been split already. */
  method ExecuteAt(stream: Bytes, pos: nat, code: int, imm: nat, m: Registers, kind: Kind)
      returns (go: bool, m': Registers, added: seq<Import>, pos': nat)
    requires pos <= |stream|
    ensures pos <= pos' <= |stream| && (!go ==> added == [])
    ensures Execute(code, imm, stream[pos..], m, kind) == if go then Go(m', added, stream[pos'..]) else Stop
  {
    go, m', added, pos' := true, m, [], pos;
    var value, count;
    if code == 0x00 {
      go := kind.LazyBind?;
    } else if code == 0x10 {
      m' := m.(ordinal := imm);
    } else if code == 0x20 {
      value, pos' := ReadUleb(stream, pos);
      m' := m.(ordinal := value);
    } else if code == 0x30 {
      m' := m.(ordinal := SpecialOrdinal(imm));
    } else if code == 0x40 {
      var end := FindZero(stream, pos);
      if end.None? {
        go := false;
      } else {
        assert stream[pos..][..end.value - pos] == stream[pos..end.value];
        assert stream[pos..][end.value - pos + 1..] == stream[end.value + 1..];
        m' := m.(symbol := Some(stream[pos..end.value]), weak := kind.WeakBind? || imm % 2 == 1);
        pos' := end.value + 1;
      }
    } else if code == 0x60 {
      value, pos' := ReadSleb(stream, pos);
    } else if code == 0x70 || code == 0x80 {
      value, pos' := ReadUleb(stream, pos);
    } else if code == 0x90 || code == 0xB0 {
      added := Bound(m, kind);
    } else if code == 0xA0 {
      added := Bound(m, kind);
      value, pos' := ReadUleb(stream, pos);
    } else if code == 0xC0 {
      count, pos' := ReadUleb(stream, pos);
      value, pos' := ReadUleb(stream, pos');
      added := Times(Bound(m, kind), count);
    } else if code != 0x50 {
      go := false;
    }
  }

  lemma ImportsAt(stream: Bytes, pos: nat, m: Registers, kind: Kind, s: Step)
    requires pos < |stream| && s == Execute(stream[pos] - stream[pos] % 16, stream[pos] % 16, stream[pos + 1..], m, kind)
    ensures Imports(stream[pos..], m, kind) == if s.Stop? then [] else s.added + Imports(s.rest, s.registers, kind)
  {
    assert stream[pos..][0] == stream[pos] && stream[pos..][1..] == stream[pos + 1..];
  }

  method Turn(stream: Bytes, pos: nat, m: Registers, kind: Kind, ghost whole: seq<Import>)
      returns (go: bool, m': Registers, added: seq<Import>, pos': nat, ghost later: seq<Import>)
    requires pos < |stream| && whole == Imports(stream[pos..], m, kind)
    ensures pos < pos' <= |stream| && whole == added + later
    ensures later == if go then Imports(stream[pos'..], m', kind) else []
  {
    var byte := stream[pos];
    go, m', added, pos' := ExecuteAt(stream, pos + 1, byte - byte % 16, byte % 16, m, kind);
    ImportsAt(stream, pos, m, kind, if go then Go(m', added, stream[pos'..]) else Stop);
    later := if go then Imports(stream[pos'..], m', kind) else [];
  }

  /** Every byte string is interpreted, to its end, to a stop or to an opcode that is not known. */
  method DyldInfoBindImports(stream: Bytes, kind: Kind) returns (imports: seq<Import>)
    ensures imports == Imports(stream, Start(kind), kind)
  {
    imports := [];
    var m, pos := Start(kind), 0;
    assert stream[0..] == stream;
    ghost var left := Imports(stream, m, kind);
    ghost var whole := left;
    while pos < |stream|
      invariant 0 <= pos <= |stream| && whole == imports + left && left == Imports(stream[pos..], m, kind)
      decreases |stream| - pos
    {
      var go, added;
      ghost var later;
      go, m, added, pos, later := Turn(stream, pos, m, kind, left);
      assert imports + (added + later) == (imports + added) + later;
      imports, left := imports + added, later;
      if !go {
        return;
      }
    }
  }
}
