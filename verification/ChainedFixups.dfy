/**
 Chained fixups (<mach-o/fixup-chains.h>) as `chained_pointer_format` and `resolve_pointer` of
 scripts/closure_analyze.py read them: the walk over the chains of one page, the fields of a rebase
 and the bytes that resolving a pointer reads.
 */
module ChainedFixups {
  import opened Prelude
  import opened Leb128
  import opened ByteOrder
  import opened Macho
  import opened ChainedStarts

  // -------------------------------------------------------------- the fields

  const TWO_36: nat := 0x10_0000_0000
  const TWO_44: nat := 0x1000_0000_0000
  const TWO_51: nat := 0x8_0000_0000_0000
  const TWO_56: nat := 0x100_0000_0000_0000
  const TWO_63: nat := 0x8000_0000_0000_0000
  const TWO_64: nat := 0x1_0000_0000_0000_0000

  type Word = n: nat | n < TWO_64

  /** What reading the pointer slot at an address gives; nothing when it is not backed by the file. */
  type Reader = int -> Option<Word>

  /** The parts of a 64-bit fixup: target, high byte, reserved bits, distance to the next, bind bit. */
  datatype Fixup = Fixup(target: nat, high8: nat, reserved: nat, next: nat, bind: nat)

  predicate IsFixup(f: Fixup) {
    f.target < TWO_36 && f.high8 < 256 && f.reserved < 128 && f.next < 4096 && f.bind < 2
  }

  function Pack(f: Fixup): nat {
    f.target + TWO_36 * f.high8 + TWO_44 * f.reserved + TWO_51 * f.next + TWO_63 * f.bind
  }

  function Unpack(raw: nat): Fixup {
    Fixup(raw % TWO_36, raw / TWO_36 % 256, raw / TWO_44 % 128, raw / TWO_51 % 4096, raw / TWO_63)
  }

  lemma Shift(low: nat, high: nat, weight: nat)
    requires low < weight
    ensures (low + weight * high) / weight == high && (low + weight * high) % weight == low
  {
    var n := low + weight * high;
    var d := n / weight - high;
    assert n == weight * (n / weight) + n % weight;
    assert weight * d == weight * (n / weight) - weight * high;
    assert d >= 1 ==> weight * d >= weight;
    assert d <= -1 ==> weight * d + weight <= 0;
  }

  /** Packing a fixup and reading its fields gives them back. */
  lemma PackedFields(f: Fixup)
    requires IsFixup(f)
    ensures Pack(f) < TWO_64 && Unpack(Pack(f)) == f
  {
    var raw := Pack(f);
    var above63 := f.bind;
    var above51 := f.next + 4096 * above63;
    var above44 := f.reserved + 128 * above51;
    var above36 := f.high8 + 256 * above44;
    assert raw == f.target + TWO_36 * above36;
    Shift(f.target, above36, TWO_36);
    Shift(f.high8, above44, 256);
    assert raw == (f.target + TWO_36 * f.high8) + TWO_44 * above44;
    Shift(f.target + TWO_36 * f.high8, above44, TWO_44);
    Shift(f.reserved, above51, 128);
    assert raw == (f.target + TWO_36 * f.high8 + TWO_44 * f.reserved) + TWO_51 * above51;
    Shift(f.target + TWO_36 * f.high8 + TWO_44 * f.reserved, above51, TWO_51);
    Shift(f.next, above63, 4096);
    assert raw == (f.target + TWO_36 * f.high8 + TWO_44 * f.reserved + TWO_51 * f.next) + TWO_63 * above63;
    Shift(f.target + TWO_36 * f.high8 + TWO_44 * f.reserved + TWO_51 * f.next, above63, TWO_63);
  }

  /** Every 64-bit word is the packing of its fields. */
  lemma FieldsPacked(raw: nat)
    requires raw < TWO_64
    ensures IsFixup(Unpack(raw)) && Pack(Unpack(raw)) == raw
  {
    assert raw / TWO_44 == raw / TWO_36 / 256;
    assert raw / TWO_51 == raw / TWO_44 / 128;
    assert raw / TWO_63 == raw / TWO_51 / 4096;
  }

  /** The address that a rebase stands for: the low bits and the high byte in its place. */
  function Target(raw: nat): nat {
    raw % TWO_36 + TWO_56 * (raw / TWO_36 % 256)
  }

  /** Every address without bits between the target field and the high byte has a rebase, and only those. */
  lemma TargetInverse(address: nat)
    requires address < TWO_64
    ensures (exists raw: nat :: raw < TWO_64 && Target(raw) == address) <==> address % TWO_56 < TWO_36
  {
    if raw: nat :| raw < TWO_64 && Target(raw) == address {
      Shift(raw % TWO_36, raw / TWO_36 % 256, TWO_56);
    }
    if address % TWO_56 < TWO_36 {
      var f := Fixup(address % TWO_56, address / TWO_56, 0, 0, 0);
      PackedFields(f);
      assert Target(Pack(f)) == f.target + TWO_56 * f.high8;
    }
  }

  // ------------------------------------------------------------------ chains

  function Next(raw: nat): nat {
    raw / TWO_51 % 4096
  }

  /** The distance field of a packed fixup is read back. */
  lemma NextOfPack(f: Fixup)
    requires IsFixup(f)
    ensures Next(Pack(f)) == f.next
  {
    PackedFields(f);
  }

  // ------------------------------------------------------------------- walks

  /** How many words of four bytes the next slot is behind the one at an address; nothing when that cannot be read. */
  type Steps = int -> Option<nat>

  function StepsOf(read: Reader): Steps {
    at => if read(at).None? then None else Some(Next(read(at).value))
  }

  /** The slots from `first` on, each as far behind the one before as its step says. */
  predicate IsWalk(limit: int, steps: Steps, c: seq<int>, first: int) {
    && c != [] && c[0] == first && first + 8 <= limit && steps(first).Some?
    && var next := steps(first).value;
       if next == 0 then |c| == 1 else IsWalk(limit, steps, c[1..], first + 4 * next)
  }

  /** The walk from an address, when there is one. */
  function WalkFrom(limit: int, steps: Steps, first: int): Option<seq<int>>
    decreases limit - first
  {
    if first + 8 > limit || steps(first).None? then None
    else if steps(first).value == 0 then Some([first])
    else
      var rest := WalkFrom(limit, steps, first + 4 * steps(first).value);
      if rest.None? then None else Some([first] + rest.value)
  }

  lemma {:induction false} WalkFromIs(limit: int, steps: Steps, first: int)
    requires WalkFrom(limit, steps, first).Some?
    ensures IsWalk(limit, steps, WalkFrom(limit, steps, first).value, first)
    decreases limit - first
  {
    if steps(first).value != 0 {
      WalkFromIs(limit, steps, first + 4 * steps(first).value);
      var rest := WalkFrom(limit, steps, first + 4 * steps(first).value).value;
      assert ([first] + rest)[1..] == rest;
    }
  }

  /** There is no other walk from an address. */
  lemma {:induction false} WalkIsUnique(limit: int, steps: Steps, c: seq<int>, first: int)
    requires IsWalk(limit, steps, c, first)
    ensures WalkFrom(limit, steps, first) == Some(c)
  {
    if steps(first).value == 0 {
      assert c == [first];
    } else {
      WalkIsUnique(limit, steps, c[1..], first + 4 * steps(first).value);
      assert c == [first] + c[1..];
    }
  }

  /** The slots of a walk rise by multiples of four and stay in the page. */
  lemma {:induction false} WalkRises(limit: int, steps: Steps, c: seq<int>, first: int, k: nat)
    requires IsWalk(limit, steps, c, first) && k < |c|
    ensures first <= c[k] && c[k] + 8 <= limit && (c[k] - first) % 4 == 0 && (k > 0 ==> first < c[k])
  {
    if k > 0 {
      WalkRises(limit, steps, c[1..], first + 4 * steps(first).value, k - 1);
    }
  }

  function Slots(c: seq<int>): set<int> {
    set x | x in c
  }

  /** Where a walk stands: the slots passed, and the walk that goes on from here. */
  ghost predicate OnWalk(limit: int, steps: Steps, first: int, passed: seq<int>, current: int) {
    && first <= current && (forall x | x in passed :: x < current)
    && (WalkFrom(limit, steps, first).Some? <==> WalkFrom(limit, steps, current).Some?)
    && (WalkFrom(limit, steps, current).Some? ==>
          WalkFrom(limit, steps, first).value == passed + WalkFrom(limit, steps, current).value)
  }

  lemma PassOne(passed: seq<int>, current: int, here: Option<seq<int>>, rest: Option<seq<int>>, whole: Option<seq<int>>)
    requires here == if rest.None? then None else Some([current] + rest.value)
    requires whole.Some? <==> here.Some?
    requires here.Some? ==> whole.value == passed + here.value
    ensures whole.Some? <==> rest.Some?
    ensures rest.Some? ==> whole.value == (passed + [current]) + rest.value
  {
    if rest.Some? {
      assert passed + ([current] + rest.value) == (passed + [current]) + rest.value;
    }
  }

  lemma WalkGoesOn(limit: int, steps: Steps, first: int, passed: seq<int>, current: int)
    requires OnWalk(limit, steps, first, passed, current) && current + 8 <= limit && steps(current).Some?
    ensures steps(current).value == 0 ==> WalkFrom(limit, steps, first) == Some(passed + [current])
    ensures steps(current).value != 0 ==> OnWalk(limit, steps, first, passed + [current], current + 4 * steps(current).value)
  {
    if steps(current).value != 0 {
      PassOne(passed, current, WalkFrom(limit, steps, current), WalkFrom(limit, steps, current + 4 * steps(current).value),
        WalkFrom(limit, steps, first));
    }
  }

  /** The walk of one chain; it fails where the chain leaves the page, cannot be read or meets another. */
  method WalkChain(page: Page, read: Reader, first: int, visited: set<int>, address: int)
      returns (ok: bool, visited': set<int>, found: bool)
    ensures var c := WalkFrom(Limit(page), StepsOf(read), first);
      && (ok <==> c.Some? && Slots(c.value) !! visited)
      && (ok ==> visited' == visited + Slots(c.value) && (found <==> address in c.value))
  {
    ghost var limit, steps := Limit(page), StepsOf(read);
    var current := first;
    ghost var passed: seq<int> := [];
    visited', found := visited, false;
    assert WalkFrom(limit, steps, first).Some? ==> [] + WalkFrom(limit, steps, first).value == WalkFrom(limit, steps, first).value;
    while true
      invariant OnWalk(limit, steps, first, passed, current)
      invariant visited' == visited + Slots(passed) && Slots(passed) !! visited && (found <==> address in passed)
      decreases limit - current
    {
      if current in visited' || current + 8 > Limit(page) {
        FailsHere(limit, steps, first, passed, current, visited);
        return false, visited', found;
      }
      visited' := visited' + {current};
      var raw := read(current);
      if raw.None? {
        return false, visited', found;
      }
      found := found || current == address;
      var next := Next(raw.value);
      WalkGoesOn(limit, steps, first, passed, current);
      passed := passed + [current];
      if next == 0 {
        return true, visited', found;
      }
      current := current + 4 * next;
    }
  }

  lemma FailsHere(limit: int, steps: Steps, first: int, passed: seq<int>, current: int, visited: set<int>)
    requires OnWalk(limit, steps, first, passed, current)
    requires current in visited + Slots(passed) || current + 8 > limit
    ensures WalkFrom(limit, steps, first).None? || !(Slots(WalkFrom(limit, steps, first).value) !! visited)
  {
    if WalkFrom(limit, steps, first).Some? {
      var c := WalkFrom(limit, steps, first).value;
      assert c[|passed|] == current;
      assert current in c && current in visited;
    }
  }

  // ------------------------------------------------------------------- pages

  predicate Disjoint(c: seq<int>, d: seq<int>) {
    forall x | x in c :: x !in d
  }

  predicate AllDisjoint(cs: seq<seq<int>>) {
    forall i, j | 0 <= i < j < |cs| :: Disjoint(cs[i], cs[j])
  }

  predicate HasSlot(cs: seq<seq<int>>, address: int) {
    exists i | 0 <= i < |cs| :: address in cs[i]
  }

  /** A slot can start here. */
  predicate IsStart(page: Page, start: nat) {
    start % 4 == 0 && start + 8 <= page.size
  }

  /** The walks from the first `n` starts; no slot is in two of them. */
  ghost predicate Walked(page: Page, read: Reader, cs: seq<seq<int>>, n: nat)
    requires n <= |page.starts|
  {
    && |cs| == n && AllDisjoint(cs)
    && forall i | 0 <= i < n ::
         IsStart(page, page.starts[i]) && WalkFrom(Limit(page), StepsOf(read), page.vm + page.starts[i]) == Some(cs[i])
  }

  /** What is visited are the slots of the walked chains. */
  ghost predicate Visits(cs: seq<seq<int>>, visited: set<int>) {
    forall x :: x in visited <==> HasSlot(cs, x)
  }

  /** One start that is out of place, or whose walk breaks or meets another, spoils the page. */
  lemma Spoilt(page: Page, read: Reader, cs: seq<seq<int>>, n: nat, visited: set<int>)
    requires n < |page.starts| && Walked(page, read, cs, n) && Visits(cs, visited)
    requires var c := WalkFrom(Limit(page), StepsOf(read), page.vm + page.starts[n]);
      !IsStart(page, page.starts[n]) || c.None? || !(Slots(c.value) !! visited)
    ensures forall all :: !Walked(page, read, all, |page.starts|)
  {
    forall all | Walked(page, read, all, |page.starts|) ensures false {
      assert forall j | 0 <= j < n :: all[j] == cs[j];
      Apart(cs, visited, all, n);
    }
  }

  lemma Apart(cs: seq<seq<int>>, visited: set<int>, all: seq<seq<int>>, n: nat)
    requires |cs| == n < |all| && (forall j | 0 <= j < n :: all[j] == cs[j]) && Visits(cs, visited) && AllDisjoint(all)
    ensures Slots(all[n]) !! visited
  {
    forall x | x in visited ensures x !in all[n] {
      var i :| 0 <= i < |cs| && x in cs[i];
      assert Disjoint(all[i], all[n]);
    }
  }

  lemma WalkedOne(page: Page, read: Reader, cs: seq<seq<int>>, n: nat, c: seq<int>, visited: set<int>)
    requires n < |page.starts| && Walked(page, read, cs, n) && Visits(cs, visited) && IsStart(page, page.starts[n])
    requires WalkFrom(Limit(page), StepsOf(read), page.vm + page.starts[n]) == Some(c) && Slots(c) !! visited
    ensures Walked(page, read, cs + [c], n + 1)
  {
    forall i | 0 <= i < n ensures Disjoint(cs[i], c) {
      forall x | x in cs[i] ensures x !in c {
        assert HasSlot(cs, x) && x in visited;
        assert x in c ==> x in Slots(c);
      }
    }
  }

  lemma VisitedOne(cs: seq<seq<int>>, c: seq<int>, visited: set<int>)
    requires Visits(cs, visited)
    ensures Visits(cs + [c], visited + Slots(c))
  {
    forall x ensures x in visited + Slots(c) <==> HasSlot(cs + [c], x) {
      if HasSlot(cs, x) {
        var i :| 0 <= i < |cs| && x in cs[i];
        assert x in (cs + [c])[i];
      }
      if x in c {
        assert x in (cs + [c])[|cs|];
      }
      if HasSlot(cs + [c], x) {
        var i :| 0 <= i < |cs + [c]| && x in (cs + [c])[i];
        assert i < |cs| ==> x in cs[i];
      }
    }
  }

  /** The walks from all starts, and whether the address is met. */
  method WalkStarts(page: Page, read: Reader, address: int) returns (accepted: bool)
    ensures accepted <==> exists cs :: Walked(page, read, cs, |page.starts|) && HasSlot(cs, address)
  {
    var found, visited: set<int> := false, {};
    ghost var cs: seq<seq<int>> := [];
    for i := 0 to |page.starts|
      invariant Walked(page, read, cs, i) && Visits(cs, visited) && (found <==> address in visited)
    {
      var start := page.starts[i];
      if start % 4 != 0 || start + 8 > page.size {
        Spoilt(page, read, cs, i, visited);
        return false;
      }
      var ok, visited', here := WalkChain(page, read, page.vm + start, visited, address);
      if !ok {
        Spoilt(page, read, cs, i, visited);
        return false;
      }
      ghost var c := WalkFrom(Limit(page), StepsOf(read), page.vm + start).value;
      WalkedOne(page, read, cs, i, c, visited);
      VisitedOne(cs, c, visited);
      found, visited, cs := found || here, visited', cs + [c];
    }
    WalkedAll(page, read, cs);
    accepted := found;
  }

  lemma WalkedAll(page: Page, read: Reader, cs: seq<seq<int>>)
    requires Walked(page, read, cs, |page.starts|)
    ensures forall all :: Walked(page, read, all, |page.starts|) ==> all == cs
  {
  }

  // --------------------------------------------------------- chains of fixups

  /** A fixup stands at an address of the page. */
  predicate Holds(page: Page, read: Reader, at: int, f: Fixup) {
    at + 8 <= Limit(page) && IsFixup(f) && read(at) == Some(Pack(f))
  }

  /** The slots from `first` on hold these fixups: each names its distance to the next slot, the last none. */
  predicate IsChain(page: Page, read: Reader, c: seq<int>, fs: seq<Fixup>, first: int) {
    && |c| == |fs| > 0 && c[0] == first
    && (forall k | 0 <= k < |c| :: Holds(page, read, c[k], fs[k]))
    && (forall k | 0 <= k < |c| - 1 :: fs[k].next > 0 && c[k + 1] == c[k] + 4 * fs[k].next)
    && fs[|c| - 1].next == 0
  }

  lemma HeldStep(page: Page, read: Reader, at: int, f: Fixup)
    requires Holds(page, read, at, f)
    ensures StepsOf(read)(at) == Some(f.next)
  {
    NextOfPack(f);
  }

  lemma {:induction false} ChainIsWalk(page: Page, read: Reader, c: seq<int>, fs: seq<Fixup>, first: int)
    requires IsChain(page, read, c, fs, first)
    ensures IsWalk(Limit(page), StepsOf(read), c, first)
    decreases |c|
  {
    HeldStep(page, read, c[0], fs[0]);
    if |c| > 1 {
      assert forall k | 0 <= k < |c[1..]| :: c[1..][k] == c[k + 1] && fs[1..][k] == fs[k + 1];
      ChainIsWalk(page, read, c[1..], fs[1..], c[1]);
    }
  }

  lemma StepHeld(page: Page, read: Reader, at: int)
    requires at + 8 <= Limit(page) && read(at).Some?
    ensures var f := Unpack(read(at).value); Holds(page, read, at, f) && StepsOf(read)(at) == Some(f.next)
  {
    FieldsPacked(read(at).value);
  }

  /** The fixups that stand in the slots. */
  function FixupsAt(read: Reader, c: seq<int>): (fs: seq<Fixup>)
    ensures |fs| == |c|
  {
    if c == [] then []
    else [Unpack(if read(c[0]).Some? then read(c[0]).value else 0)] + FixupsAt(read, c[1..])
  }

  lemma {:induction false} WalkIsChain(page: Page, read: Reader, c: seq<int>, first: int)
    requires IsWalk(Limit(page), StepsOf(read), c, first)
    ensures IsChain(page, read, c, FixupsAt(read, c), first)
    decreases |c|
  {
    StepHeld(page, read, first);
    var f := Unpack(read(first).value);
    if f.next == 0 {
      assert c == [first] && FixupsAt(read, c) == [f];
    } else {
      WalkIsChain(page, read, c[1..], first + 4 * f.next);
      ChainGrows(page, read, c, f, FixupsAt(read, c[1..]), first);
    }
  }

  lemma ChainGrows(page: Page, read: Reader, c: seq<int>, f: Fixup, fs: seq<Fixup>, first: int)
    requires c != [] && c[0] == first && Holds(page, read, first, f) && f.next > 0
    requires IsChain(page, read, c[1..], fs, first + 4 * f.next)
    ensures IsChain(page, read, c, [f] + fs, first)
  {
    var all := [f] + fs;
    forall k | 0 <= k < |c| ensures Holds(page, read, c[k], all[k]) {
      if k > 0 {
        assert c[k] == c[1..][k - 1] && all[k] == fs[k - 1];
      }
    }
    forall k | 0 <= k < |c| - 1 ensures all[k].next > 0 && c[k + 1] == c[k] + 4 * all[k].next {
      if k > 0 {
        assert c[1..][k] == c[1..][k - 1] + 4 * fs[k - 1].next;
      }
    }
  }

  /** The fixups of one chain are spelt by their slots: the walk finds exactly such a chain. */
  lemma ChainIff(page: Page, read: Reader, c: seq<int>, first: int)
    ensures WalkFrom(Limit(page), StepsOf(read), first) == Some(c) <==> exists fs :: IsChain(page, read, c, fs, first)
  {
    if fs :| IsChain(page, read, c, fs, first) {
      ChainIsWalk(page, read, c, fs, first);
      WalkIsUnique(Limit(page), StepsOf(read), c, first);
    }
    if WalkFrom(Limit(page), StepsOf(read), first) == Some(c) {
      WalkFromIs(Limit(page), StepsOf(read), first);
      WalkIsChain(page, read, c, first);
    }
  }

  /** A start has at most one chain. */
  lemma ChainIsUnique(page: Page, read: Reader, c: seq<int>, fs: seq<Fixup>, d: seq<int>, gs: seq<Fixup>, first: int)
    requires IsChain(page, read, c, fs, first) && IsChain(page, read, d, gs, first)
    ensures c == d && fs == gs
  {
    ChainIff(page, read, c, first);
    ChainIff(page, read, d, first);
    forall k | 0 <= k < |c| ensures fs[k] == gs[k] {
      assert Holds(page, read, c[k], fs[k]) && Holds(page, read, d[k], gs[k]);
      PackedFields(fs[k]);
      PackedFields(gs[k]);
    }
  }

  /** The slots of a chain rise by multiples of four and stay in the page. */
  lemma ChainRises(page: Page, read: Reader, c: seq<int>, fs: seq<Fixup>, first: int, k: nat)
    requires IsChain(page, read, c, fs, first) && k < |c|
    ensures first <= c[k] && c[k] + 8 <= Limit(page) && (c[k] - first) % 4 == 0 && (k > 0 ==> first < c[k])
  {
    ChainIsWalk(page, read, c, fs, first);
    WalkRises(Limit(page), StepsOf(read), c, first, k);
  }

  /** One chain of fixups for every start of the page, and no slot in two of them. */
  predicate AreChains(page: Page, read: Reader, cs: seq<seq<int>>, fss: seq<seq<Fixup>>) {
    && |cs| == |fss| == |page.starts| && AllDisjoint(cs)
    && forall i | 0 <= i < |cs| ::
         IsStart(page, page.starts[i]) && IsChain(page, read, cs[i], fss[i], page.vm + page.starts[i])
  }

  /** The address is a slot of its page's chains. */
  ghost predicate IsMember(page: Page, read: Reader, address: int) {
    exists cs, fss :: AreChains(page, read, cs, fss) && HasSlot(cs, address)
  }

  lemma ChainsWalked(page: Page, read: Reader, cs: seq<seq<int>>, fss: seq<seq<Fixup>>)
    requires AreChains(page, read, cs, fss)
    ensures Walked(page, read, cs, |page.starts|)
  {
    forall i | 0 <= i < |cs| ensures WalkFrom(Limit(page), StepsOf(read), page.vm + page.starts[i]) == Some(cs[i]) {
      ChainIff(page, read, cs[i], page.vm + page.starts[i]);
    }
  }

  lemma WalkedChains(page: Page, read: Reader, cs: seq<seq<int>>)
    requires Walked(page, read, cs, |page.starts|)
    ensures AreChains(page, read, cs, seq(|cs|, i requires 0 <= i < |cs| => FixupsAt(read, cs[i])))
  {
    forall i | 0 <= i < |cs| ensures IsChain(page, read, cs[i], FixupsAt(read, cs[i]), page.vm + page.starts[i]) {
      WalkFromIs(Limit(page), StepsOf(read), page.vm + page.starts[i]);
      WalkIsChain(page, read, cs[i], page.vm + page.starts[i]);
    }
  }

  lemma MemberIff(page: Page, read: Reader, address: int)
    ensures IsMember(page, read, address) <==>
      exists cs :: Walked(page, read, cs, |page.starts|) && HasSlot(cs, address)
  {
    if cs, fss :| AreChains(page, read, cs, fss) && HasSlot(cs, address) {
      ChainsWalked(page, read, cs, fss);
    }
    if cs :| Walked(page, read, cs, |page.starts|) && HasSlot(cs, address) {
      WalkedChains(page, read, cs);
    }
  }

  /** An address is accepted exactly when the page has disjoint chains of fixups and it is one of their slots. */
  method WalkPage(page: Page, read: Reader, address: int) returns (accepted: bool)
    ensures accepted <==> IsMember(page, read, address)
  {
    accepted := WalkStarts(page, read, address);
    MemberIff(page, read, address);
  }

  // -------------------------------------------------------- resolving pointers

  /** `read_pointer`: the 64-bit word at an address that the file backs. */
  function ReadPointer(data: Bytes, slice: Slice, segments: seq<Segment>, vm: int): Option<Word> {
    var loc := LocationOf(segments, vm, 8);
    if loc.None? || slice.offset + loc.value.offset + 8 > |data| then None
    else
      assert Power256(8) == TWO_64;
      Some(LittleEndian(data, slice.offset + loc.value.offset, 8))
  }

  /** The word stands in the file where its one segment has the address. */
  ghost predicate IsWordAt(data: Bytes, slice: Slice, segments: seq<Segment>, vm: int, raw: Word) {
    exists i: nat, offset: nat :: IsLocation(segments, vm, 8, i, offset) && Has(data, slice.offset + offset, Little(raw, 8))
  }

  lemma PointerIff(data: Bytes, slice: Slice, segments: seq<Segment>, vm: int, raw: Word)
    ensures ReadPointer(data, slice, segments, vm) == Some(raw) <==> IsWordAt(data, slice, segments, vm, raw)
  {
    assert Power256(8) == TWO_64;
    var loc := LocationOf(segments, vm, 8);
    if loc.Some? && slice.offset + loc.value.offset + 8 <= |data| {
      LittleIff(data, slice.offset + loc.value.offset, 8, raw);
      LocationIff(segments, vm, 8, loc.value.segment, loc.value.offset);
    }
    if i: nat, offset: nat :| IsLocation(segments, vm, 8, i, offset) && Has(data, slice.offset + offset, Little(raw, 8)) {
      LocationIff(segments, vm, 8, i, offset);
    }
  }

  /** The segment that starts the image: the one with the header in it, if there is just one. */
  function ImageBase(segments: seq<Segment>): Option<nat> {
    var headers := Headers(segments, |segments|);
    if |headers| != 1 then None else Some(segments[headers[0]].vmaddr)
  }

  function Headers(segments: seq<Segment>, n: nat): (m: seq<nat>)
    requires n <= |segments|
    ensures forall k | 0 <= k < |m| :: m[k] < n
  {
    if n == 0 then []
    else Headers(segments, n - 1) + if segments[n - 1].fileoff == 0 && segments[n - 1].filesize >= 32 then [n - 1] else []
  }

  /** The segment has the header of the image. */
  predicate HasHeader(seg: Segment) {
    seg.fileoff == 0 && 32 <= seg.filesize
  }

  ghost predicate IsBase(segments: seq<Segment>, base: nat) {
    exists i: nat :: IsOnly(segments, i) && segments[i].vmaddr == base
  }

  lemma {:induction false} HeadersAre(segments: seq<Segment>, n: nat)
    requires n <= |segments|
    ensures forall i: nat :: i in Headers(segments, n) <==> i < n && HasHeader(segments[i])
    ensures forall k, l | 0 <= k < l < |Headers(segments, n)| :: Headers(segments, n)[k] != Headers(segments, n)[l]
  {
    if n > 0 {
      HeadersAre(segments, n - 1);
    }
  }

  /** Only this segment has a header. */
  predicate IsOnly(segments: seq<Segment>, i: nat) {
    i < |segments| && HasHeader(segments[i]) && forall j | 0 <= j < |segments| :: HasHeader(segments[j]) ==> j == i
  }

  lemma OnlyIff(segments: seq<Segment>, i: nat)
    ensures Headers(segments, |segments|) == [i] <==> IsOnly(segments, i)
  {
    var m := Headers(segments, |segments|);
    HeadersAre(segments, |segments|);
    assert |m| < 2 || m[0] != m[1];
    if IsOnly(segments, i) {
      assert i in m;
      forall k | 0 <= k < |m| ensures m[k] == i {
        assert m[k] in m;
      }
    }
    if m == [i] {
      assert i in m;
      forall j: nat | j < |segments| && HasHeader(segments[j]) ensures j == i {
        assert j in m;
      }
    }
  }

  lemma BaseIff(segments: seq<Segment>, base: nat)
    ensures ImageBase(segments) == Some(base) <==> IsBase(segments, base)
  {
    if i: nat :| IsOnly(segments, i) && segments[i].vmaddr == base {
      OnlyIff(segments, i);
    }
    if ImageBase(segments) == Some(base) {
      OnlyIff(segments, Headers(segments, |segments|)[0]);
    }
  }

  datatype Resolved = Resolved(raw: nat, target: nat, at: nat, bytes: Bytes)

  /** What the slot holds: a plain address, or a rebase of the format. */
  function TargetOf(raw: nat, format: Option<nat>, base: nat): Option<nat> {
    if format.None? then Some(raw)
    else if Unpack(raw).bind != 0 || Unpack(raw).reserved != 0 then None
    else Some(Target(raw) + if format.value == 6 then base else 0)
  }

  /** The format of the slot at an address, exactly when it is a member of the chains of its page. */
  method ChainedPointerFormat(blob: Bytes, segments: seq<Segment>, base: int, address: int, read: Reader)
      returns (format: Option<nat>)
    ensures format.Some? <==>
      PageOf(blob, segments, base, address).Some? && IsMember(PageOf(blob, segments, base, address).value, read, address)
    ensures format.Some? ==> format.value == PageOf(blob, segments, base, address).value.format
  {
    var page := PageOf(blob, segments, base, address);
    if page.None? {
      return None;
    }
    var accepted := WalkPage(page.value, read, address);
    format := if accepted then Some(page.value.format) else None;
  }

  function ReaderOf(data: Bytes, slice: Slice, segments: seq<Segment>): Reader {
    vm => ReadPointer(data, slice, segments, vm)
  }

  predicate Fits(data: Bytes, slice: Slice, cs: Commands) {
    slice.offset + slice.size <= |data| && AllInside(cs, slice.size)
  }

  function FixupsIn(data: Bytes, slice: Slice, cs: Commands): Bytes
    requires Fits(data, slice, cs) && cs.fixups.Some?
  {
    data[slice.offset..slice.offset + slice.size][cs.fixups.value.at..cs.fixups.value.at + cs.fixups.value.size]
  }

  /** What kind of pointer the slot holds: of its page's format if there are fixups, else a plain one. */
  ghost predicate HasFormat(data: Bytes, slice: Slice, cs: Commands, plain: bool, base: nat, address: int, format: Option<nat>)
    requires Fits(data, slice, cs)
  {
    if cs.fixups.None? then plain && format.None?
    else
      var page := PageOf(FixupsIn(data, slice, cs), cs.segments, base, address);
      page.Some? && format == Some(page.value.format) && IsMember(page.value, ReaderOf(data, slice, cs.segments), address)
  }

  /** The address a word stands for: itself, or that of the local rebase it is the packing of. */
  ghost predicate IsTarget(raw: nat, format: Option<nat>, base: nat, target: nat) {
    if format.None? then target == raw
    else exists f :: IsFixup(f) && f.bind == 0 && f.reserved == 0 && raw == Pack(f)
                  && target == f.target + TWO_56 * f.high8 + if format.value == 6 then base else 0
  }

  lemma TargetIff(raw: nat, format: Option<nat>, base: nat, target: nat)
    requires raw < TWO_64
    ensures TargetOf(raw, format, base) == Some(target) <==> IsTarget(raw, format, base, target)
  {
    FieldsPacked(raw);
    if IsTarget(raw, format, base, target) && format.Some? {
      var f :| IsFixup(f) && f.bind == 0 && f.reserved == 0 && raw == Pack(f)
                && target == f.target + TWO_56 * f.high8 + if format.value == 6 then base else 0;
      PackedFields(f);
    }
  }

  /** What resolving reads: the bytes at the target, up to the limit and the end of its segment. */
  ghost predicate ReadsAt(data: Bytes, slice: Slice, segments: seq<Segment>, limit: nat, x: Resolved) {
    exists i: nat, offset: nat :: IsLocation(segments, x.target, 1, i, offset) && ReadsIn(data, slice, segments[i], offset, limit, x)
  }

  predicate ReadsIn(data: Bytes, slice: Slice, seg: Segment, offset: nat, limit: nat, x: Resolved) {
    && x.at == slice.offset + offset && Covers(seg, x.target, 1)
    && |x.bytes| <= limit && Covers(seg, x.target, |x.bytes|) && (|x.bytes| == limit || !Covers(seg, x.target, |x.bytes| + 1))
    && x.at + |x.bytes| <= slice.offset + slice.size && x.at + |x.bytes| <= |data|
    && x.bytes == data[x.at..x.at + |x.bytes|]
  }

  /** What resolving finds, by the parts of the program. */
  ghost predicate IsFound(data: Bytes, slice: Slice, cs: Commands, plain: bool, address: int, limit: nat, x: Resolved)
    requires Fits(data, slice, cs)
  {
    && 1 <= limit <= 4096 && ImageBase(cs.segments).Some? && x.target < TWO_64
    && ReadPointer(data, slice, cs.segments, address).Some? && ReadPointer(data, slice, cs.segments, address).value == x.raw
    && (exists format :: HasFormat(data, slice, cs, plain, ImageBase(cs.segments).value, address, format)
                      && IsTarget(x.raw, format, ImageBase(cs.segments).value, x.target))
    && ReadsAt(data, slice, cs.segments, limit, x)
  }

  /** The slot's word stands for the target, and the bytes are those at the target. */
  ghost predicate IsResolved(data: Bytes, slice: Slice, cs: Commands, plain: bool, address: int, limit: nat, x: Resolved)
    requires Fits(data, slice, cs)
  {
    && 1 <= limit <= 4096 && x.target < TWO_64 && x.raw < TWO_64 && IsWordAt(data, slice, cs.segments, address, x.raw)
    && (exists base: nat, format :: IsBase(cs.segments, base) && HasFormat(data, slice, cs, plain, base, address, format)
                            && IsTarget(x.raw, format, base, x.target))
    && ReadsAt(data, slice, cs.segments, limit, x)
  }

  method FormatOf(data: Bytes, slice: Slice, cs: Commands, plain: bool, base: nat, address: int)
      returns (ok: bool, format: Option<nat>)
    requires Fits(data, slice, cs)
    ensures ok ==> HasFormat(data, slice, cs, plain, base, address, format)
    ensures forall f :: HasFormat(data, slice, cs, plain, base, address, f) ==> ok && f == format
  {
    if cs.fixups.None? {
      return plain, None;
    }
    format := ChainedPointerFormat(FixupsIn(data, slice, cs), cs.segments, base, address, ReaderOf(data, slice, cs.segments));
    ok := format.Some?;
  }

  method ReadTarget(data: Bytes, slice: Slice, cs: Commands, limit: nat, raw: nat, target: nat) returns (r: Option<Resolved>)
    requires Fits(data, slice, cs)
    ensures r.Some? ==> r.value.raw == raw && r.value.target == target && ReadsAt(data, slice, cs.segments, limit, r.value)
    ensures r.None? ==> forall x: Resolved :: x.target == target ==> !ReadsAt(data, slice, cs.segments, limit, x)
  {
    var loc := VmFileLocation(cs.segments, target, 1);
    if loc.None? {
      forall i: nat, offset: nat ensures !IsLocation(cs.segments, target, 1, i, offset) {
        LocationIff(cs.segments, target, 1, i, offset);
      }
      return None;
    }
    LocationIff(cs.segments, target, 1, loc.value.segment, loc.value.offset);
    var seg := cs.segments[loc.value.segment];
    var remaining := Macho.Min(seg.vmsize, seg.filesize) - (target - seg.vmaddr);
    var at, n := slice.offset + loc.value.offset, Macho.Min(limit, remaining);
    var x := Resolved(raw, target, at, data[at..at + n]);
    assert ReadsIn(data, slice, seg, loc.value.offset, limit, x);
    r := Some(x);
  }

  lemma ResolvedIff(data: Bytes, slice: Slice, cs: Commands, plain: bool, address: int, limit: nat, x: Resolved)
    requires Fits(data, slice, cs)
    ensures IsFound(data, slice, cs, plain, address, limit, x) <==> IsResolved(data, slice, cs, plain, address, limit, x)
  {
    if x.raw < TWO_64 {
      PointerIff(data, slice, cs.segments, address, x.raw);
    }
    forall base: nat ensures ImageBase(cs.segments) == Some(base) <==> IsBase(cs.segments, base) {
      BaseIff(cs.segments, base);
    }
  }

  /** `resolve_pointer` of a slice. */
  method Resolve(data: Bytes, slice: Slice, cs: Commands, plain: bool, address: int, limit: nat) returns (r: Option<Resolved>)
    requires Fits(data, slice, cs)
    ensures r.Some? ==> IsFound(data, slice, cs, plain, address, limit, r.value)
    ensures r.None? ==> forall x :: !IsFound(data, slice, cs, plain, address, limit, x)
  {
    var base := ImageBase(cs.segments);
    var raw := ReadPointer(data, slice, cs.segments, address);
    if limit < 1 || limit > 4096 || base.None? || raw.None? {
      return None;
    }
    var ok, format := FormatOf(data, slice, cs, plain, base.value, address);
    if !ok {
      return None;
    }
    var target := TargetOf(raw.value, format, base.value);
    forall t: nat ensures target == Some(t) <==> IsTarget(raw.value, format, base.value, t) {
      TargetIff(raw.value, format, base.value, t);
    }
    if target.None? || target.value >= TWO_64 {
      return None;
    }
    r := ReadTarget(data, slice, cs, limit, raw.value, target.value);
  }

  /**
   Resolves the pointer at an address, exactly when it can be resolved; every byte read lies in the
   slice, and a slot under chained fixups is resolved only as a local rebase that is a member of its
   page's chains.
   */
  method ResolvePointer(data: Bytes, slice: Slice, cs: Commands, plain: bool, address: int, limit: nat)
      returns (r: Option<Resolved>)
    requires Fits(data, slice, cs)
    ensures r.Some? ==> IsResolved(data, slice, cs, plain, address, limit, r.value)
    ensures r.None? ==> forall x :: !IsResolved(data, slice, cs, plain, address, limit, x)
  {
    r := Resolve(data, slice, cs, plain, address, limit);
    forall x ensures IsFound(data, slice, cs, plain, address, limit, x) <==>
      IsResolved(data, slice, cs, plain, address, limit, x)
    {
      ResolvedIff(data, slice, cs, plain, address, limit, x);
    }
  }

  /** Every pointer that is read lies inside the slice. */
  lemma PointerInside(data: Bytes, slice: Slice, cs: Commands, vm: int)
    requires slice.offset + slice.size <= |data| && AllInside(cs, slice.size)
    ensures ReadPointer(data, slice, cs.segments, vm).Some? <==> LocationOf(cs.segments, vm, 8).Some?
    ensures LocationOf(cs.segments, vm, 8).Some? ==> LocationOf(cs.segments, vm, 8).value.offset + 8 <= slice.size
  {
    var loc := LocationOf(cs.segments, vm, 8);
    if loc.Some? {
      LocationIff(cs.segments, vm, 8, loc.value.segment, loc.value.offset);
    }
  }
}
