/** The 128-bit arithmetic of decimal128 values, in 32-bit limbs. */
module DecimalArith {
  const B: int := 0x1_0000_0000
  const B2: int := 0x1_0000_0000_0000_0000
  const B4: int := 0x1_0000_0000_0000_0000_0000_0000_0000_0000

  // Shifts, masks and sums of Go's uint64 are written as division, remainder and sums; no
  // intermediate value leaves the range, but for the shifts that drop a carry on purpose.
  type U32 = x: int | 0 <= x < B
  type U64 = x: int | 0 <= x < B2

  // Divides the 128-bit number h:l by div.
  method DivMod(h: U64, l: U64, div: U32) returns (qh: U64, ql: U64, rem: U32)
    requires div != 0
    ensures h * B2 + l == (qh * B2 + ql) * div + rem && rem < div
  {
    var a := h / B;
    var aq, ar := a / div, a % div;
    var b: U64 := ar * B + h % B;
    var bq, br := b / div, b % div;
    var c: U64 := br * B + l / B;
    var cq, cr := c / div, c % div;
    var d: U64 := cr * B + l % B;
    var dq, dr := d / div, d % div;
    QuotientLimb(ar, h % B, div);
    QuotientLimb(br, l / B, div);
    QuotientLimb(cr, l % B, div);
    QuotientLimb(0, a, div);
    qh, ql, rem := aq * B + bq, cq * B + dq, dr;
    LongDivision(h, l, div, aq, ar, bq, br, cq, cr, dq, dr);
  }

  // A remainder followed by a limb divides into a single limb.
  lemma QuotientLimb(r: int, limb: int, div: int)
    requires 0 <= r < div && 0 <= limb < B
    ensures 0 <= (r * B + limb) / div < B && 0 <= (r * B + limb) % div < div
    ensures r * B + limb == (r * B + limb) / div * div + (r * B + limb) % div
  {
    var x := r * B + limb;
    var q := x / div;
    assert x == q * div + x % div;
    assert x < div * B;
    MulGrows(B, q, div);
  }

  lemma MulGrows(a: int, b: int, m: int)
    requires m >= 0
    ensures a <= b ==> a * m <= b * m
  {
    if a <= b {
      assert (b - a) * m >= 0;
    }
  }

  lemma LongDivision(h: int, l: int, div: int, aq: int, ar: int, bq: int, br: int, cq: int, cr: int, dq: int, dr: int)
    requires h / B == aq * div + ar && ar * B + h % B == bq * div + br
    requires br * B + l / B == cq * div + cr && cr * B + l % B == dq * div + dr
    ensures h * B2 + l == ((aq * B + bq) * B2 + (cq * B + dq)) * div + dr
  {
    var x, y, z, w := aq * div, bq * div, cq * div, dq * div;
    assert h == (x + ar) * B + h % B;
    assert l == l / B * B + l % B;
    assert h * B2 + l == x * (B * B2) + y * B2 + z * B + w + dr;
    calc {
      ((aq * B + bq) * B2 + (cq * B + dq)) * div;
      aq * (B * B2) * div + bq * B2 * div + cq * B * div + dq * div;
      x * (B * B2) + y * B2 + z * B + w;
    }
  }

  // Multiplies h:l by mul and adds add, modulo 2^128. Only the carry out of the addition is
  // reported as overflow; the high part of the product is dropped without notice.
  method MulAdd(h: U64, l: U64, mul: U32, add: U32) returns (resh: U64, resl: U64, overflow: U32)
    ensures (h * B2 + l) * mul + add < B4 ==> resh * B2 + resl == (h * B2 + l) * mul + add && overflow == 0
    ensures resh * B2 + resl == ((h * B2 + l) * mul + add) % B4 && (add == 0 ==> overflow == 0)
  {
    LimbProduct(mul, l % B, 0);
    var a: U64 := mul * (l % B);
    LimbProduct(mul, l / B, a / B);
    var b: U64 := a / B + mul * (l / B);
    LimbProduct(mul, h % B, b / B);
    var c: U64 := b / B + mul * (h % B);
    LimbProduct(mul, h / B, c / B);
    var d: U64 := c / B + mul * (h / B);
    ghost var lost := d / B;

    var a' := a % B + add;
    var b' := b % B + a' / B;
    var c' := c % B + b' / B;
    var d' := d % B + c' / B;
    // Shifting b' and d' left by 32 drops the bits above the low limb.
    resh, resl, overflow := d' % B * B + c' % B, b' % B * B + a' % B, d' / B;

    ghost var x, y, z, w := mul * (l % B), mul * (l / B), mul * (h % B), mul * (h / B);
    ghost var product := (h * B2 + l) * mul;
    assert product == w * (B * B2) + z * B2 + y * B + x by { Distribute(h, l, mul); }
    Carries(x, y, z, w, add);
    DropMultiple(product + add, resh * B2 + resl, overflow, lost);
  }

  // The limbs of the product with their carries, and once more with the addend.
  lemma Carries(x: int, y: int, z: int, w: int, add: int)
    requires x >= 0 && y >= 0 && z >= 0 && w >= 0 && 0 <= add < B
    ensures var b := x / B + y;
      var c := b / B + z;
      var d := c / B + w;
      var a' := x % B + add;
      var b' := b % B + a' / B;
      var c' := c % B + b' / B;
      var d' := d % B + c' / B;
      && w * (B * B2) + z * B2 + y * B + x + add ==
        (d' % B * B + c' % B) * B2 + (b' % B * B + a' % B) + (d' / B + d / B) * B4
      && (add == 0 ==> d' / B == 0)
  {
  }

  lemma DropMultiple(x: int, r: int, overflow: int, lost: int)
    requires x == r + (overflow + lost) * B4 && 0 <= r < B4 && overflow >= 0 && lost >= 0
    ensures x % B4 == r && (x < B4 ==> r == x && overflow == 0)
  {
  }

  lemma LimbProduct(mul: int, limb: int, carry: int)
    requires 0 <= mul < B && 0 <= limb < B && 0 <= carry < B
    ensures 0 <= mul * limb <= carry + mul * limb < B2
  {
    MulGrows(0, limb, mul);
    MulGrows(limb, B - 1, mul);
    assert limb * mul <= (B - 1) * mul <= (B - 1) * (B - 1);
  }

  lemma Distribute(h: int, l: int, mul: int)
    ensures (h * B2 + l) * mul == mul * (h / B) * (B * B2) + mul * (h % B) * B2 + mul * (l / B) * B + mul * (l % B)
  {
    var h1, h0, l1, l0 := h / B, h % B, l / B, l % B;
    assert h == h1 * B + h0 && l == l1 * B + l0;
    calc {
      (h * B2 + l) * mul;
      h1 * (B * B2) * mul + h0 * B2 * mul + l1 * B * mul + l0 * mul;
    }
  }
}
