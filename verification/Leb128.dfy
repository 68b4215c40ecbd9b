/**
 LEB128 numbers (DWARF 5, section 7.6) as `_read_uleb` and `_read_sleb` of scripts/closure_analyze.py
 read them: seven bits per byte, low bits first, the high bit set on every byte but the last. A number
 that the end of the data cuts off is what was read of it.
 */
module Leb128 {
  type Byte = b: int | 0 <= b < 256

  type Bytes = seq<Byte>

  /** What a reader returns: the number and the bytes after it. */
  datatype Read = Read(value: int, rest: Bytes)

  function Uleb(bs: Bytes): (r: Read)
    ensures |r.rest| <= |bs| && (bs != [] ==> |r.rest| < |bs|) && r.value >= 0
  {
    if bs == [] then Read(0, [])
    else if bs[0] < 128 then Read(bs[0], bs[1..])
    else
      var r := Uleb(bs[1..]);
      Read(bs[0] - 128 + 128 * r.value, r.rest)
  }

  function Sleb(bs: Bytes): (r: Read)
    ensures |r.rest| <= |bs| && (bs != [] ==> |r.rest| < |bs|)
  {
    if bs == [] then Read(0, [])
    else if bs[0] < 128 then Read((bs[0] as int) - if bs[0] >= 64 then 128 else 0, bs[1..])
    else
      var r := Sleb(bs[1..]);
      Read(bs[0] - 128 + 128 * r.value, r.rest)
  }

  // --------------------------------------------------------------- encodings

  /** One whole number: continuation bytes, then a last byte without the high bit. */
  predicate IsGroup(g: Bytes) {
    |g| > 0 && (if |g| == 1 then g[0] < 128 else g[0] >= 128 && IsGroup(g[1..]))
  }

  /** The number that a group encodes: the sum of its digits in base 128. */
  function GroupValue(g: Bytes): nat {
    if g == [] then 0 else Digit(g[0]) + 128 * GroupValue(g[1..])
  }

  function Pow128(k: nat): nat {
    if k == 0 then 1 else 128 * Pow128(k - 1)
  }

  /** The same with the sign bit of the last byte: two's complement in 7 bits per byte. */
  function SignedValue(g: Bytes): int
    requires IsGroup(g)
  {
    if g[|g| - 1] >= 64 then GroupValue(g) - Pow128(|g|) else GroupValue(g)
  }

  /** Every group, however many leading zeros pad it, reads as its number, and the rest is left. */
  lemma {:induction false} UlebGroup(g: Bytes, rest: Bytes)
    requires IsGroup(g)
    ensures Uleb(g + rest) == Read(GroupValue(g), rest)
  {
    if |g| == 1 {
      assert (g + rest)[1..] == rest && GroupValue(g[1..]) == 0;
    } else {
      assert (g + rest)[1..] == g[1..] + rest;
      UlebGroup(g[1..], rest);
    }
  }

  lemma {:induction false} SlebGroup(g: Bytes, rest: Bytes)
    requires IsGroup(g)
    ensures Sleb(g + rest) == Read(SignedValue(g), rest)
  {
    if |g| == 1 {
      assert (g + rest)[1..] == rest && GroupValue(g[1..]) == 0;
      assert Pow128(1) == 128 * Pow128(0);
    } else {
      assert (g + rest)[1..] == g[1..] + rest;
      SlebGroup(g[1..], rest);
    }
  }

  /** The shortest encoding of a natural number. */
  function UlebBytes(n: nat): (g: Bytes)
    ensures IsGroup(g)
  {
    if n < 128 then [n] else [128 + n % 128] + UlebBytes(n / 128)
  }

  /** The shortest encoding of an integer. */
  function SlebBytes(n: int): (g: Bytes)
    ensures IsGroup(g)
    decreases if n < 0 then -n else n
  {
    if -64 <= n < 64 then [n % 128] else [128 + n % 128] + SlebBytes(n / 128)
  }

  /** Writing a natural number and reading it gives it back, before any other bytes. */
  lemma {:induction false} UlebRoundTrip(n: nat, rest: Bytes)
    ensures Uleb(UlebBytes(n) + rest) == Read(n, rest)
  {
    if n < 128 {
      assert ([n] + rest)[1..] == rest;
    } else {
      assert (UlebBytes(n) + rest)[1..] == UlebBytes(n / 128) + rest;
      UlebRoundTrip(n / 128, rest);
    }
  }

  lemma {:induction false} SlebRoundTrip(n: int, rest: Bytes)
    ensures Sleb(SlebBytes(n) + rest) == Read(n, rest)
    decreases if n < 0 then -n else n
  {
    if -64 <= n < 64 {
      assert (SlebBytes(n) + rest)[1..] == rest;
    } else {
      assert (SlebBytes(n) + rest)[1..] == SlebBytes(n / 128) + rest;
      SlebRoundTrip(n / 128, rest);
    }
  }

  // ------------------------------------------------------------- the readers

  /** `byte & 0x7F`. */
  function Digit(byte: Byte): nat {
    if byte < 128 then byte else byte - 128
  }

  /** One more digit in front of the number that follows. */
  lemma Carry(value: int, weight: int, digit: int, later: int)
    ensures value + weight * (digit + 128 * later) == (value + digit * weight) + (128 * weight) * later
  {
    assert weight * (digit + 128 * later) == weight * digit + weight * (128 * later);
    assert weight * (128 * later) == (128 * weight) * later;
  }

  lemma DigitBound(value: int, weight: int, digit: int)
    requires 0 <= value < weight && 0 <= digit < 128
    ensures 0 <= value + digit * weight < 128 * weight
  {
    assert digit * weight <= 127 * weight;
  }

  lemma UlebStep(blob: Bytes, pos: nat)
    requires pos < |blob|
    ensures Uleb(blob[pos..]) ==
      if blob[pos] < 128 then Read(blob[pos], blob[pos + 1..])
      else Read(blob[pos] - 128 + 128 * Uleb(blob[pos + 1..]).value, Uleb(blob[pos + 1..]).rest)
  {
    assert blob[pos..][1..] == blob[pos + 1..];
  }

  lemma SlebStep(blob: Bytes, pos: nat)
    requires pos < |blob|
    ensures Sleb(blob[pos..]) ==
      if blob[pos] < 128 then Read((blob[pos] as int) - if blob[pos] >= 64 then 128 else 0, blob[pos + 1..])
      else Read(blob[pos] - 128 + 128 * Sleb(blob[pos + 1..]).value, Sleb(blob[pos + 1..]).rest)
  {
    assert blob[pos..][1..] == blob[pos + 1..];
  }

  /**
   `value |= (byte & 0x7F) << shift`: the value stays below the weight of the next byte, so the bits
   or-ed in are the ones added.
   */
  method ReadUleb(blob: Bytes, start: nat) returns (value: nat, pos: nat)
    requires start <= |blob|
    ensures start <= pos <= |blob| && Read(value, blob[pos..]) == Uleb(blob[start..])
  {
    ghost var whole := Uleb(blob[start..]);
    value, pos := 0, start;
    var weight: nat := 1;
    while pos < |blob|
      invariant start <= pos <= |blob| && value < weight
      invariant whole.rest == Uleb(blob[pos..]).rest
      invariant whole.value == value + weight * Uleb(blob[pos..]).value
      decreases |blob| - pos
    {
      var byte := blob[pos];
      var digit: nat := Digit(byte);
      UlebStep(blob, pos);
      DigitBound(value, weight, digit);
      if byte < 128 {
        value := value + digit * weight;
        pos := pos + 1;
        return;
      }
      Carry(value, weight, digit, Uleb(blob[pos + 1..]).value);
      value := value + digit * weight;
      pos := pos + 1;
      weight := 128 * weight;
    }
  }

  method ReadSleb(blob: Bytes, start: nat) returns (value: int, pos: nat)
    requires start <= |blob|
    ensures start <= pos <= |blob| && Read(value, blob[pos..]) == Sleb(blob[start..])
  {
    ghost var whole := Sleb(blob[start..]);
    value, pos := 0, start;
    var weight: nat := 1;
    while pos < |blob|
      invariant start <= pos <= |blob| && 0 <= value < weight
      invariant whole.rest == Sleb(blob[pos..]).rest
      invariant whole.value == value + weight * Sleb(blob[pos..]).value
      decreases |blob| - pos
    {
      var byte := blob[pos];
      var digit: nat := Digit(byte);
      SlebStep(blob, pos);
      DigitBound(value, weight, digit);
      if byte < 128 {
        if byte >= 64 {
          Carry(value, weight, digit, -1);
          value := value + digit * weight - 128 * weight;
        } else {
          value := value + digit * weight;
        }
        pos := pos + 1;
        return;
      }
      Carry(value, weight, digit, Sleb(blob[pos + 1..]).value);
      value := value + digit * weight;
      pos := pos + 1;
      weight := 128 * weight;
    }
  }
}
