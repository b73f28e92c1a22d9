/** Little-endian integers of byte strings, as arkworks and the envelope store
    every number. */
module Bytes {
  type byte = b: int | 0 <= b < 256

  function Pow256(n: nat): (r: nat)
    ensures r >= 1
  {
    if n == 0 then 1 else 256 * Pow256(n - 1)
  }

  /** Bytes packed into one field element. */
  const CHUNK: nat := 31

  /** 2^64. */
  const U64: nat := 0x1_0000_0000_0000_0000

  lemma U64Is()
    ensures U64 == Pow256(8)
  {
  }

  lemma Pow256Step(n: nat)
    ensures Pow256(n + 1) == 256 * Pow256(n)
  {
  }

  lemma SmallPowers()
    ensures Pow256(0) == 1 && Pow256(1) == 0x100 && Pow256(2) == 0x1_0000 && Pow256(4) == 0x1_0000_0000
  {
    Pow256Step(0);
    Pow256Step(1);
    Pow256Step(2);
    Pow256Step(3);
  }

  function Le(b: seq<byte>): nat {
    if b == [] then 0 else b[0] + 256 * Le(b[1..])
  }

  function ToLe(v: nat, n: nat): (b: seq<byte>)
    ensures |b| == n
  {
    if n == 0 then [] else [v % 256] + ToLe(v / 256, n - 1)
  }

  lemma {:induction false} LeBound(b: seq<byte>)
    ensures Le(b) < Pow256(|b|)
  {
    if b != [] {
      LeBound(b[1..]);
    }
  }

  /** Writing n bytes and reading them back is the identity on 0 .. 256^n - 1. */
  lemma {:induction false} LeToLe(v: nat, n: nat)
    requires v < Pow256(n)
    ensures Le(ToLe(v, n)) == v
    decreases n
  {
    if n > 0 {
      DropDigit(v, Pow256(n - 1));
      LeToLe(v / 256, n - 1);
      assert ToLe(v, n)[1..] == ToLe(v / 256, n - 1);
    }
  }

  lemma DropDigit(v: nat, w: nat)
    requires v < 256 * w
    ensures v / 256 < w && v == v % 256 + 256 * (v / 256)
  {
  }

  lemma LowDigit(b: byte, rest: nat)
    ensures (b + 256 * rest) % 256 == b && (b + 256 * rest) / 256 == rest
  {
  }

  lemma ToLeStep(v: nat, n: nat)
    requires n > 0
    ensures ToLe(v, n) == [v % 256] + ToLe(v / 256, n - 1)
  {
  }

  /** Reading a byte string and writing it back is the identity. */
  lemma {:induction false} ToLeLe(b: seq<byte>)
    ensures ToLe(Le(b), |b|) == b
    decreases |b|
  {
    if b != [] {
      hide ToLe;
      ToLeLe(b[1..]);
      LowDigit(b[0], Le(b[1..]));
      ToLeStep(Le(b), |b|);
      assert b == [b[0]] + b[1..];
    }
  }

  lemma LeInjective(a: seq<byte>, b: seq<byte>)
    requires |a| == |b| && Le(a) == Le(b)
    ensures a == b
  {
    ToLeLe(a);
    ToLeLe(b);
  }

  lemma {:induction false} LeConcat(a: seq<byte>, b: seq<byte>)
    ensures Le(a + b) == Le(a) + Pow256(|a|) * Le(b)
  {
    if a == [] {
      assert a + b == b;
    } else {
      LeConcat(a[1..], b);
      assert (a + b)[1..] == a[1..] + b;
      assert 256 * (Pow256(|a| - 1) * Le(b)) == Pow256(|a|) * Le(b);
    }
  }

  lemma {:induction false} Pow256Monotone(m: nat, n: nat)
    requires m <= n
    ensures Pow256(m) <= Pow256(n)
  {
    if m < n {
      Pow256Monotone(m, n - 1);
    }
  }
}
