/** Bit strings and the numbers they spell, most significant bit first. */
module Bits {
  import opened Headers

  function Pow2(n: nat): (p: nat)
    ensures p > 0
  {
    if n == 0 then 1 else 2 * Pow2(n - 1)
  }

  /** `v` shifted right by `n`. */
  function Shr(v: nat, n: nat): nat {
    if n == 0 then v else Shr(v / 2, n - 1)
  }

  /** The value of the low `n` bits of `v`. */
  function Low(v: nat, n: nat): nat {
    if n == 0 then 0 else 2 * Low(v / 2, n - 1) + v % 2
  }

  /** The low `n` bits of `v`; whatever is above them does not matter. */
  function ToBits(v: nat, n: nat): (bs: seq<bool>)
    ensures |bs| == n
  {
    if n == 0 then [] else ToBits(v / 2, n - 1) + [v % 2 == 1]
  }

  function FromBits(bs: seq<bool>): nat {
    if bs == [] then 0 else 2 * FromBits(bs[..|bs| - 1]) + (if bs[|bs| - 1] then 1 else 0)
  }

  function OctetBits(s: seq<Octet>): seq<bool> {
    if s == [] then [] else OctetBits(s[..|s| - 1]) + ToBits(s[|s| - 1], 8)
  }

  lemma {:induction false} PowAdd(m: nat, n: nat)
    ensures Pow2(m + n) == Pow2(m) * Pow2(n)
  {
    if m > 0 {
      PowAdd(m - 1, n);
    }
  }

  lemma {:induction false} PowMonotone(m: nat, n: nat)
    requires m <= n
    ensures Pow2(m) <= Pow2(n)
  {
    if m < n {
      PowMonotone(m, n - 1);
    }
  }

  /** Shifting and masking take a number apart. */
  lemma {:induction false} ShrLow(v: nat, n: nat)
    ensures v == Shr(v, n) * Pow2(n) + Low(v, n)
    ensures Low(v, n) < Pow2(n)
  {
    if n > 0 {
      ShrLow(v / 2, n - 1);
      Doubled(v, Shr(v, n), Pow2(n - 1), Low(v / 2, n - 1));
    }
  }

  lemma Doubled(v: nat, a: nat, p: nat, r: nat)
    requires v / 2 == a * p + r && r < p
    ensures v == a * (2 * p) + (2 * r + v % 2) && 2 * r + v % 2 < 2 * p
  {
    assert a * (2 * p) == 2 * (a * p);
  }

  /** ... and the parts are determined by their sum. */
  lemma {:induction false} ShrLowUnique(v: nat, n: nat, a: nat, r: nat)
    requires v == a * Pow2(n) + r && r < Pow2(n)
    ensures Shr(v, n) == a && Low(v, n) == r
  {
    if n > 0 {
      var p := Pow2(n - 1);
      assert a * (2 * p) == 2 * (a * p);
      ShrLowUnique(v / 2, n - 1, a, r / 2);
    }
  }

  lemma {:induction false} FromToBits(v: nat, n: nat)
    ensures FromBits(ToBits(v, n)) == Low(v, n)
  {
    if n > 0 {
      FromToBits(v / 2, n - 1);
      assert ToBits(v, n)[..n - 1] == ToBits(v / 2, n - 1);
    }
  }

  lemma {:induction false} ToFromBits(bs: seq<bool>)
    ensures ToBits(FromBits(bs), |bs|) == bs
    ensures FromBits(bs) < Pow2(|bs|)
  {
    if bs != [] {
      ToFromBits(bs[..|bs| - 1]);
    }
  }

  lemma LowSmall(v: nat, n: nat)
    requires v < Pow2(n)
    ensures Low(v, n) == v && Shr(v, n) == 0
  {
    ShrLowUnique(v, n, 0, v);
  }

  /** Numbers of `n` bits and bit strings of length `n` are the same thing. */
  lemma ToBitsInjective(v: nat, w: nat, n: nat)
    requires v < Pow2(n) && w < Pow2(n) && ToBits(v, n) == ToBits(w, n)
    ensures v == w
  {
    FromToBits(v, n);
    FromToBits(w, n);
    LowSmall(v, n);
    LowSmall(w, n);
  }

  /** The low `n + m` bits are the low `n` bits of the shifted value, then the low `m`. */
  lemma {:induction false} ToBitsSplit(v: nat, n: nat, m: nat)
    ensures ToBits(v, n + m) == ToBits(Shr(v, m), n) + ToBits(v, m)
  {
    if m > 0 {
      ToBitsSplit(v / 2, n, m - 1);
      assert ToBits(v, n + m) == (ToBits(Shr(v, m), n) + ToBits(v / 2, m - 1)) + [v % 2 == 1];
    }
  }

  /** Only the low bits count. */
  lemma {:induction false} ToBitsLow(v: nat, n: nat, k: nat)
    requires n <= k
    ensures ToBits(Low(v, k), n) == ToBits(v, n)
  {
    if n > 0 {
      ToBitsLow(v / 2, n - 1, k - 1);
      assert Low(v, k) / 2 == Low(v / 2, k - 1) && Low(v, k) % 2 == v % 2;
    }
  }

  /** Shifting left and filling in appends bits. */
  lemma ToBitsJoin(hi: nat, lo: nat, n: nat, m: nat)
    requires lo < Pow2(m)
    ensures ToBits(hi * Pow2(m) + lo, n + m) == ToBits(hi, n) + ToBits(lo, m)
  {
    var v := hi * Pow2(m) + lo;
    ShrLowUnique(v, m, hi, lo);
    ToBitsSplit(v, n, m);
    ToBitsLow(v, m, m);
  }

  /** The first `k` of `n` bits are those of the number shifted right. */
  lemma ToBitsPrefix(v: nat, n: nat, k: nat)
    requires k <= n
    ensures ToBits(v, n)[..k] == ToBits(Shr(v, n - k), k)
    ensures ToBits(v, n)[k..] == ToBits(v, n - k)
  {
    ToBitsSplit(v, k, n - k);
  }

  lemma OctetBitsLast(s: seq<Octet>, b: Octet)
    ensures OctetBits(s + [b]) == OctetBits(s) + ToBits(b, 8)
  {
    assert (s + [b])[..|s|] == s;
  }

  lemma {:induction false} OctetBitsAppend(s: seq<Octet>, t: seq<Octet>)
    ensures OctetBits(s + t) == OctetBits(s) + OctetBits(t)
  {
    if t == [] {
      assert s + t == s;
    } else {
      assert (s + t)[..|s + t| - 1] == s + t[..|t| - 1];
      OctetBitsAppend(s, t[..|t| - 1]);
    }
  }

  lemma {:induction false} OctetBitsLength(s: seq<Octet>)
    ensures |OctetBits(s)| == 8 * |s|
  {
    if s != [] {
      OctetBitsLength(s[..|s| - 1]);
    }
  }

  lemma OctetBitsFirst(s: seq<Octet>)
    requires s != []
    ensures OctetBits(s) == ToBits(s[0], 8) + OctetBits(s[1..])
  {
    assert s == [s[0]] + s[1..];
    OctetBitsAppend([s[0]], s[1..]);
    OctetBitsLast([], s[0]);
    assert [] + [s[0]] == [s[0]] && OctetBits([]) == [];
  }

  lemma Powers()
    ensures Pow2(1) == 2 && Pow2(2) == 4 && Pow2(3) == 8 && Pow2(4) == 16 && Pow2(5) == 32 && Pow2(6) == 64
    ensures Pow2(7) == 128 && Pow2(8) == 256 && Pow2(14) == 0x4000 && Pow2(30) == 0x4000_0000
    ensures Pow2(62) == 0x4000_0000_0000_0000 && Pow2(63) == 0x8000_0000_0000_0000
    ensures Pow2(64) == 0x1_0000_0000_0000_0000
  {
    assert Pow2(4) == 16;
    assert Pow2(8) == 256 by { PowAdd(4, 4); }
    assert Pow2(14) == 0x4000 by { PowAdd(8, 6); }
    assert Pow2(16) == 0x1_0000 by { PowAdd(8, 8); }
    assert Pow2(30) == 0x4000_0000 by { PowAdd(16, 14); }
    assert Pow2(32) == 0x1_0000_0000 by { PowAdd(16, 16); }
    assert Pow2(62) == 0x4000_0000_0000_0000 by { PowAdd(32, 30); }
    assert Pow2(64) == 0x1_0000_0000_0000_0000 by { PowAdd(32, 32); }
  }

  /** The octets that a whole number of octets' bits spell. */
  function ToOctets(bits: seq<bool>): (s: seq<Octet>)
    requires |bits| % 8 == 0
    ensures OctetBits(s) == bits && 8 * |s| == |bits|
    decreases |bits|
  {
    if bits == [] then []
    else
      var n := |bits| - 8;
      var s, b := ToOctets(bits[..n]), ToOctet(bits[n..]);
      assert OctetBits(s + [b]) == bits by { OctetBitsLast(s, b); assert bits[..n] + bits[n..] == bits; }
      s + [b]
  }

  function ToOctet(bits: seq<bool>): (b: Octet)
    requires |bits| == 8
    ensures ToBits(b, 8) == bits
  {
    ToFromBits(bits);
    Powers();
    FromBits(bits)
  }

  lemma {:induction false} OctetsInjective(s: seq<Octet>, t: seq<Octet>)
    requires OctetBits(s) == OctetBits(t)
    ensures s == t
  {
    OctetBitsLength(s);
    OctetBitsLength(t);
    if s != [] {
      var n := |s| - 1;
      OctetBitsLength(s[..n]);
      OctetBitsLength(t[..n]);
      assert OctetBits(s)[..8 * n] == OctetBits(s[..n]) && OctetBits(t)[..8 * n] == OctetBits(t[..n]);
      assert OctetBits(s)[8 * n..] == ToBits(s[n], 8) && OctetBits(t)[8 * n..] == ToBits(t[n], 8);
      Powers();
      ToBitsInjective(s[n], t[n], 8);
      OctetsInjective(s[..n], t[..n]);
      assert s == s[..n] + [s[n]] && t == t[..n] + [t[n]];
    }
  }
}
