/** Powers of two, binary digits and shifts of naturals. */
module Binary {
  import opened Field

  function Pow2(k: nat): (r: nat)
    ensures r >= 1
  {
    if k == 0 then 1 else 2 * Pow2(k - 1)
  }

  lemma {:induction false} Pow2Add(j: nat, k: nat)
    ensures Pow2(j) * Pow2(k) == Pow2(j + k)
  {
    if j > 0 {
      Pow2Add(j - 1, k);
    }
  }

  /** The number of binary digits of k, as k.toString(2).length. */
  function BitLength(k: nat): (n: nat)
    ensures n >= 1 && k < Pow2(n)
  {
    if k < 2 then 1 else 1 + BitLength(k / 2)
  }

  lemma NextBit(k: nat, i: nat)
    ensures k / Pow2(i) == 2 * (k / Pow2(i + 1)) + (k / Pow2(i)) % 2
  {
    HalveQuotient(k, Pow2(i));
  }

  lemma HalveQuotient(k: nat, w: nat)
    requires w > 0
    ensures k / w == 2 * (k / (2 * w)) + (k / w) % 2
  {
    var h := k / w;
    var r := k % w;
    assert k == h * w + r;
    assert h == 2 * (h / 2) + h % 2;
    var b := h % 2;
    assert b * w + r < 2 * w;
    assert k == (h / 2) * (2 * w) + (b * w + r);
    DivIs(k, 2 * w, h / 2, b * w + r);
  }

  lemma DivIs(k: nat, w: nat, q: nat, r: nat)
    requires w > 0 && k == q * w + r && r < w
    ensures k / w == q
  {
    var q' := k / w;
    assert k == q' * w + k % w;
    assert (q' - q) * w == r - k % w;
    assert (q - q') * w == k % w - r;
    if q' > q {
      MulAtLeast(q' - q, w);
    } else if q' < q {
      MulAtLeast(q - q', w);
    }
  }
}
