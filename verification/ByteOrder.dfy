/**
 Numbers of a fixed width in byte strings, low byte first or high byte first (`struct.unpack` with "<"
 and ">" in scripts/closure_analyze.py), read and written.
 */
module ByteOrder {
  import opened Leb128

  function Power256(n: nat): (r: nat)
    ensures r >= 1
  {
    if n == 0 then 1 else 256 * Power256(n - 1)
  }

  /** The unsigned number in `n` bytes from `at` on, high byte first. */
  function BigEndian(data: Bytes, at: nat, n: nat): (v: nat)
    requires at + n <= |data|
    ensures v < Power256(n)
  {
    if n == 0 then 0 else 256 * BigEndian(data, at, n - 1) + data[at + n - 1]
  }

  /** The same, low byte first. */
  function LittleEndian(data: Bytes, at: nat, n: nat): (v: nat)
    requires at + n <= |data|
    ensures v < Power256(n)
    decreases n
  {
    if n == 0 then 0 else data[at] + 256 * LittleEndian(data, at + 1, n - 1)
  }

  // ----------------------------------------------------------------- written

  /** The last `n` digits of a number in base 256, low digit first. */
  function Little(v: nat, n: nat): (bs: Bytes)
    ensures |bs| == n
  {
    if n == 0 then [] else [v % 256] + Little(v / 256, n - 1)
  }

  /** The same, high digit first. */
  function Big(v: nat, n: nat): (bs: Bytes)
    ensures |bs| == n
  {
    if n == 0 then [] else Big(v / 256, n - 1) + [v % 256]
  }

  /** The part stands in the data at this place. */
  predicate Has(data: Bytes, at: nat, part: Bytes) {
    at + |part| <= |data| && data[at..at + |part|] == part
  }

  lemma HasJoin(data: Bytes, at: nat, a: Bytes, b: Bytes)
    ensures Has(data, at, a + b) <==> Has(data, at, a) && Has(data, at + |a|, b)
  {
    if at + |a| + |b| <= |data| {
      var whole := data[at..at + |a| + |b|];
      assert whole[..|a|] == data[at..at + |a|] && whole[|a|..] == data[at + |a|..at + |a| + |b|];
      assert whole == whole[..|a|] + whole[|a|..];
      assert (a + b)[..|a|] == a && (a + b)[|a|..] == b;
    }
  }

  lemma HasOne(data: Bytes, at: nat, b: Byte)
    ensures Has(data, at, [b]) <==> at < |data| && data[at] == b
  {
    if at < |data| {
      assert data[at..at + 1] == [data[at]];
    }
  }

  /** A number is read exactly where its digits stand. */
  lemma {:induction false} LittleIff(data: Bytes, at: nat, n: nat, v: nat)
    requires at + n <= |data|
    ensures LittleEndian(data, at, n) == v <==> v < Power256(n) && Has(data, at, Little(v, n))
    decreases n
  {
    if n > 0 {
      LittleIff(data, at + 1, n - 1, v / 256);
      HasJoin(data, at, [v % 256], Little(v / 256, n - 1));
      HasOne(data, at, v % 256);
    }
  }

  lemma {:induction false} BigIff(data: Bytes, at: nat, n: nat, v: nat)
    requires at + n <= |data|
    ensures BigEndian(data, at, n) == v <==> v < Power256(n) && Has(data, at, Big(v, n))
  {
    if n > 0 {
      BigIff(data, at, n - 1, v / 256);
      HasJoin(data, at, Big(v / 256, n - 1), [v % 256]);
      HasOne(data, at + n - 1, v % 256);
    }
  }

  // ------------------------------------------------------------------ tables

  /** Numbers one after the other, each in `width` bytes. */
  function Numbers(vs: seq<nat>, width: nat): (bs: Bytes)
    ensures |bs| == width * |vs|
  {
    if vs == [] then [] else Little(vs[0], width) + Numbers(vs[1..], width)
  }

  function NumbersAt(data: Bytes, at: nat, width: nat, n: nat): (vs: seq<nat>)
    requires at + width * n <= |data|
    ensures |vs| == n
    decreases n
  {
    if n == 0 then []
    else
      assert width * n == width + width * (n - 1);
      [LittleEndian(data, at, width)] + NumbersAt(data, at + width, width, n - 1)
  }

  predicate AllBelow(vs: seq<nat>, bound: nat) {
    forall i | 0 <= i < |vs| :: vs[i] < bound
  }

  /** A table is read exactly where it stands. */
  lemma {:induction false} NumbersIff(data: Bytes, at: nat, width: nat, vs: seq<nat>)
    requires at + width * |vs| <= |data|
    ensures NumbersAt(data, at, width, |vs|) == vs <==> AllBelow(vs, Power256(width)) && Has(data, at, Numbers(vs, width))
    decreases |vs|
  {
    if vs != [] {
      assert width * |vs| == width + width * (|vs| - 1);
      LittleIff(data, at, width, vs[0]);
      NumbersIff(data, at + width, width, vs[1..]);
      HasJoin(data, at, Little(vs[0], width), Numbers(vs[1..], width));
      AllBelowFirst(vs, Power256(width));
      assert vs == [vs[0]] + vs[1..];
    }
  }

  lemma AllBelowFirst(vs: seq<nat>, bound: nat)
    requires vs != []
    ensures AllBelow(vs, bound) <==> vs[0] < bound && AllBelow(vs[1..], bound)
  {
    if vs[0] < bound && AllBelow(vs[1..], bound) {
      forall i | 0 <= i < |vs| ensures vs[i] < bound {
        assert i > 0 ==> vs[i] == vs[1..][i - 1];
      }
    }
  }
}
