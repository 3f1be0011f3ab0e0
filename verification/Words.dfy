/** Big-endian numbers as the hex helpers of the program read and write them. */
module Words {
  import opened Common
  import opened Sequences

  const TWO_48: nat := 0x1_0000_0000_0000
  const TWO_128: nat := 0x1_0000_0000_0000_0000_0000_0000_0000_0000
  const TWO_160: nat := 0x1_0000_0000_0000_0000_0000_0000_0000_0000_0000_0000
  const TWO_208: nat := 0x1_0000_0000_0000_0000_0000_0000_0000_0000_0000_0000_0000_0000_0000
  const TWO_256: nat := 0x1_0000_0000_0000_0000_0000_0000_0000_0000_0000_0000_0000_0000_0000_0000_0000_0000

  lemma {:induction false} PowersOf256()
    ensures Pow(256, 6) == TWO_48
    ensures Pow(256, 16) == TWO_128
    ensures Pow(256, 20) == TWO_160
    ensures Pow(256, 26) == TWO_208
    ensures Pow(256, 32) == TWO_256
  {
  }

  /** The number some bytes denote, most significant first. */
  function ToNat(b: Bytes): (n: nat)
    ensures n < Pow(256, |b|)
  {
    if b == [] then 0
    else
      var n: nat := ToNat(Init(b)) * 256 + Last(b);
      n
  }

  /** The low bytes of a number, most significant first. */
  function FromNat(n: nat, length: nat): (b: Bytes)
    ensures |b| == length
  {
    if length == 0 then [] else FromNat(n / 256, length - 1) + [n % 256]
  }

  lemma {:induction false} ToNatOfFromNat(n: nat, length: nat)
    requires n < Pow(256, length)
    ensures ToNat(FromNat(n, length)) == n
  {
    if length == 0 {
    } else {
      ToNatOfFromNat(n / 256, length - 1);
      assert Init(FromNat(n, length)) == FromNat(n / 256, length - 1);
    }
  }

  lemma {:induction false} FromNatOfToNat(b: Bytes)
    ensures FromNat(ToNat(b), |b|) == b
  {
    if b == [] {
    } else {
      FromNatOfToNat(Init(b));
      assert ToNat(b) / 256 == ToNat(Init(b)) && ToNat(b) % 256 == Last(b);
      assert b == Init(b) + [Last(b)];
    }
  }

  lemma {:induction false} ToNatInjective(a: Bytes, b: Bytes)
    requires |a| == |b| && ToNat(a) == ToNat(b)
    ensures a == b
  {
    FromNatOfToNat(a);
    FromNatOfToNat(b);
  }

  lemma {:induction false} ToNatConcat(a: Bytes, b: Bytes)
    ensures ToNat(a + b) == ToNat(a) * Pow(256, |b|) + ToNat(b)
  {
    if b == [] {
      assert a + b == a;
    } else {
      ToNatConcat(a, Init(b));
      assert Init(a + b) == a + Init(b);
      Regroup(ToNat(a), Pow(256, |b| - 1), ToNat(Init(b)), Last(b));
    }
  }

  lemma {:induction false} Regroup(x: nat, p: nat, y: nat, z: nat)
    ensures (x * p + y) * 256 + z == x * (256 * p) + (y * 256 + z)
  {
  }

  /** Splitting bytes is dividing the number they denote. */
  lemma {:induction false} ToNatSplit(b: Bytes, k: nat)
    requires k <= |b|
    ensures ToNat(b[..k]) == ToNat(b) / Pow(256, |b| - k)
    ensures ToNat(b[k..]) == ToNat(b) % Pow(256, |b| - k)
  {
    assert b == b[..k] + b[k..];
    ToNatConcat(b[..k], b[k..]);
    QuotientRemainder(ToNat(b[..k]), Pow(256, |b| - k), ToNat(b[k..]));
  }

  lemma {:induction false} QuotientRemainder(q: nat, d: nat, r: nat)
    requires r < d
    ensures (q * d + r) / d == q && (q * d + r) % d == r
  {
    var n := q * d + r;
    assert n == d * (n / d) + n % d;
    if n / d < q {
      MulGap(d, n / d, q);
    } else if n / d > q {
      MulGap(d, q, n / d);
    }
  }

  lemma {:induction false} MulGap(d: nat, x: int, y: int)
    requires x + 1 <= y
    ensures d * x + d <= d * y
  {
    assert d * (y - x) >= d * 1 by {
      MulMonotone(d, 1, y - x);
    }
    assert d * y == d * x + d * (y - x);
  }

  lemma {:induction false} MulMonotone(d: nat, x: int, y: int)
    requires x <= y
    ensures d * x <= d * y
  {
  }

  lemma {:induction false} ZerosAreZero(n: nat)
    ensures ToNat(Zeros(n)) == 0
  {
    if n == 0 {
    } else {
      ZerosAreZero(n - 1);
    }
  }
}
