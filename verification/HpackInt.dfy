/** Prefix integers: WriteInt, ReadInt and ReadIndex of hc/io.go (section 5.1 of RFC 7541). */
module HpackInt {
  import opened Arith
  import opened Headers
  import opened Bits
  import opened BitIO
  import opened Seqs

  /** The continuation octets of `p`: seven bits each, least significant first. */
  function TailOctets(p: nat): seq<Octet> {
    if p < 128 then [p] else [p % 128 + 128] + TailOctets(p / 128)
  }

  function Ones(prefix: nat): nat {
    Pow2(prefix) - 1
  }

  /** The encoding of `p` after a prefix of `prefix` bits. */
  function EncodeInt(p: nat, prefix: nat): seq<bool> {
    if p < Ones(prefix) then ToBits(p, prefix)
    else ToBits(Ones(prefix), prefix) + OctetBits(TailOctets(p - Ones(prefix)))
  }

  /** Seven bits of the octet `b`, at scale `2^s`. */
  function Digit(b: nat, s: nat): nat {
    MulMonotone(0, b % 128, Pow2(s));
    b % 128 * Pow2(s)
  }

  /** Continuation octets added to `v` at scale `2^s`, in unbounded arithmetic: an
      error as soon as the value leaves 64 bits, or if the tenth octet exceeds 1. */
  function DecodeTail(bits: seq<bool>, v: nat, s: nat): (r: Parsed<nat>)
    requires s <= 63
    ensures r.Ok? ==> r.value.0 < Pow2(64) && |r.value.1| < |bits|
    decreases 63 - s
  {
    if |bits| < 8 then Err(EndOfInput)
    else
      var b := FromBits(bits[..8]);
      var v' := v + Digit(b, s);
      if (s == 63 && b > 1) || v' >= Pow2(64) then Err(Overflow)
      else if b < 128 then Ok((v', bits[8..]))
      else if s + 7 > 63 then Err(Overflow)
      else DecodeTail(bits[8..], v', s + 7)
  }

  function DecodeInt(bits: seq<bool>, prefix: nat): (r: Parsed<nat>)
    requires 1 <= prefix <= 8
    ensures r.Ok? ==> r.value.0 < Pow2(64) && |r.value.1| < |bits|
  {
    if |bits| < prefix then Err(EndOfInput)
    else
      var v := FromBits(bits[..prefix]);
      if v < Ones(prefix) then
        (ToFromBits(bits[..prefix]); PowMonotone(prefix, 64); Ok((v, bits[prefix..])))
      else DecodeTail(bits[prefix..], v, 0)
  }

  /** An index must also fit a signed integer. */
  function DecodeIndex(bits: seq<bool>, prefix: nat): (r: Parsed<nat>)
    requires 1 <= prefix <= 8
    ensures r.Ok? ==> r.value.0 < Pow2(63) && |r.value.1| < |bits|
  {
    var r := DecodeInt(bits, prefix);
    if r.Ok? && r.value.0 >= Pow2(63) then Err(Overflow) else r
  }

  /** What the continuation octets come to. */
  function TailValue(ts: seq<Octet>): nat {
    if ts == [] then 0 else ts[0] % 128 + 128 * TailValue(ts[1..])
  }

  /** The octets of a tail are the digits of its value to the base 128, least significant
      first, and all but the last have their top bit set. */
  lemma {:induction false} TailExactly(p: nat)
    ensures var ts := TailOctets(p); ts != [] && TailValue(ts) == p && forall i :: 0 <= i < |ts| ==> (ts[i] < 128 <==> i == |ts| - 1)
  {
    if p >= 128 {
      TailExactly(p / 128);
    }
  }

  lemma {:induction false} TailLonger(p: nat, q: nat)
    requires p <= q
    ensures |TailOctets(p)| <= |TailOctets(q)|
  {
    if p >= 128 {
      TailLonger(p / 128, q / 128);
    }
  }

  /** A larger value is not written in fewer bits. */
  lemma IntLonger(p: nat, q: nat, prefix: nat)
    requires p <= q
    ensures |EncodeInt(p, prefix)| <= |EncodeInt(q, prefix)|
  {
    hide OctetBits, TailOctets;
    if p >= Ones(prefix) {
      TailLonger(p - Ones(prefix), q - Ones(prefix));
      OctetBitsLength(TailOctets(p - Ones(prefix)));
      OctetBitsLength(TailOctets(q - Ones(prefix)));
    }
  }

  // ---- round trip ----

  lemma FirstOctet(b: Octet, rest: seq<bool>)
    ensures |ToBits(b, 8) + rest| >= 8
    ensures FromBits((ToBits(b, 8) + rest)[..8]) == b && (ToBits(b, 8) + rest)[8..] == rest
  {
    assert (ToBits(b, 8) + rest)[..8] == ToBits(b, 8);
    FromToBits(b, 8);
    Powers();
    LowSmall(b, 8);
  }

  lemma OctetsFirst(b: Octet, t: seq<Octet>, rest: seq<bool>)
    ensures OctetBits([b] + t) + rest == ToBits(b, 8) + (OctetBits(t) + rest)
  {
    OctetBitsFirst([b] + t);
    assert ([b] + t)[1..] == t;
  }

  lemma ScaleSplit(q: nat, s: nat)
    ensures q * Pow2(s) == Digit(q, s) + q / 128 * Pow2(s + 7)
  {
    hide Pow2;
    PowAdd(s, 7);
    Powers();
    var p, a := Pow2(s), q / 128;
    assert q == q % 128 + a * 128;
    assert (q % 128 + a * 128) * p == q % 128 * p + a * (p * 128);
  }

  /** A digit left after the last position would not fit in 64 bits. */
  lemma DigitsFit(q: nat, s: nat)
    requires s <= 63 && q * Pow2(s) < Pow2(64)
    ensures s == 63 ==> q <= 1
    ensures q >= 128 ==> s + 7 <= 63
  {
    if q >= 2 && s == 63 {
      PowAdd(63, 1);
      Powers();
      MulMonotone(2, q, Pow2(63));
    }
    if q >= 128 && s + 7 > 63 {
      PowAdd(s, 7);
      Powers();
      PowMonotone(64, s + 7);
      MulMonotone(128, q, Pow2(s));
    }
  }

  lemma {:induction false} TailRoundTrip(q: nat, v: nat, s: nat, rest: seq<bool>)
    requires s <= 63 && v + q * Pow2(s) < Pow2(64)
    ensures DecodeTail(OctetBits(TailOctets(q)) + rest, v, s) == Ok((v + q * Pow2(s), rest))
    decreases q
  {
    hide Pow2, ToBits, FromBits, OctetBits;
    DigitsFit(q, s);
    MulMonotone(0, q, Pow2(s));
    if q < 128 {
      assert [q] == [q] + [];
      OctetsFirst(q, [], rest);
      NoOctets();
      FirstOctet(q, rest);
    } else {
      ScaleSplit(q, s);
      MulMonotone(0, q / 128, Pow2(s + 7));
      var v' := v + Digit(q, s);
      assert Digit(q % 128 + 128, s) == Digit(q, s);
      var more := OctetBits(TailOctets(q / 128)) + rest;
      OctetsFirst(q % 128 + 128, TailOctets(q / 128), rest);
      FirstOctet(q % 128 + 128, more);
      TailRoundTrip(q / 128, v', s + 7, rest);
    }
  }

  lemma PrefixBits(v: nat, n: nat, rest: seq<bool>)
    requires v < Pow2(n)
    ensures FromBits((ToBits(v, n) + rest)[..n]) == v && (ToBits(v, n) + rest)[n..] == rest
  {
    assert (ToBits(v, n) + rest)[..n] == ToBits(v, n);
    FromToBits(v, n);
    LowSmall(v, n);
  }

  /** ReadInt inverts WriteInt for every 64-bit value and every prefix, and consumes
      exactly what was written. */
  lemma IntRoundTrip(p: nat, prefix: nat, rest: seq<bool>)
    requires 1 <= prefix <= 8 && p < Pow2(64)
    ensures DecodeInt(EncodeInt(p, prefix) + rest, prefix) == Ok((p, rest))
  {
    hide ToBits, FromBits, OctetBits, TailOctets, DecodeTail;
    var ones := Ones(prefix);
    if p < ones {
      PrefixBits(p, prefix, rest);
    } else {
      var tail := OctetBits(TailOctets(p - ones));
      assert ToBits(ones, prefix) + tail + rest == ToBits(ones, prefix) + (tail + rest);
      PrefixBits(ones, prefix, tail + rest);
      assert Pow2(0) == 1;
      TailRoundTrip(p - ones, ones, 0, rest);
    }
  }

  /** Distinct values have distinct encodings, none the start of another. */
  lemma IntPrefixFree(p: nat, q: nat, prefix: nat, a: seq<bool>, b: seq<bool>)
    requires 1 <= prefix <= 8 && p < Pow2(64) && q < Pow2(64)
    requires EncodeInt(p, prefix) + a == EncodeInt(q, prefix) + b
    ensures p == q && a == b
  {
    IntRoundTrip(p, prefix, a);
    IntRoundTrip(q, prefix, b);
  }

  // ---- the code ----

  method WriteInt(w: BitWriter, value: nat, prefix: nat)
    requires w.Valid() && value < Pow2(64) && 1 <= prefix <= 8
    modifies w
    ensures w.Valid() && w.Bits() == old(w.Bits()) + EncodeInt(value, prefix)
    ensures w.savedBits == (old(w.savedBits) + prefix) % 8
  {
    hide ToBits, OctetBits, Pow2, TailOctets;
    PowMonotone(prefix, 64);
    var ones := Pow2(prefix) - 1;
    if value < ones {
      var _ := w.WriteBits(value, prefix);
      return;
    }
    var _ := w.WriteBits(ones, prefix);
    var p: nat := value - ones;
    ghost var head := w.Bits();
    ghost var octets: seq<Octet> := [];
    NoOctets();
    var done := false;
    while !done
      invariant w.Valid() && w.savedBits == (old(w.savedBits) + prefix) % 8
      invariant w.Bits() == head + OctetBits(octets)
      invariant octets + (if done then [] else TailOctets(p)) == TailOctets(value - ones)
      decreases !done, p
    {
      TailStep(p);
      var b: Octet := p % 128;
      ghost var rest := if p < 128 then [] else TailOctets(p / 128);
      p := p / 128;
      if p > 0 {
        b := b + 128;
      } else {
        done := true;
      }
      Assoc(octets, [b], rest);
      OctetBitsLast(octets, b);
      Assoc(head, OctetBits(octets), ToBits(b, 8));
      octets := octets + [b];
      var _ := w.WriteByte(b);
    }
    assert octets + [] == octets;
    Assoc(old(w.Bits()), ToBits(ones, prefix), OctetBits(octets));
  }

  lemma TailStep(p: nat)
    ensures TailOctets(p) == if p < 128 then [p] else [p % 128 + 128] + TailOctets(p / 128)
  {
  }

  /** What ReadInt computes with 64-bit arithmetic and its single overflow test is
      the exact value, or an error where there is none. */
  method ReadInt(r: BitReader, prefix: nat) returns (res: Result<nat>)
    requires r.Valid() && 1 <= prefix <= 8
    modifies r
    ensures r.Valid()
    ensures match DecodeInt(old(r.Bits()), prefix)
            case Ok((v, rest)) => res == Ok(v) && r.Bits() == rest
            case Err(e) => res == Err(e)
  {
    hide ToBits, OctetBits, FromBits, Pow2;
    var x := r.ReadBits(prefix);
    if x.Err? {
      return x;
    }
    ghost var all := old(r.Bits());
    assert FromBits(all[..prefix]) == x.value by {
      BitsValue(x.value, all[..prefix]);
    }
    var v: nat := x.value;
    if v < Pow2(prefix) - 1 {
      return Ok(v);
    }
    Powers();
    PowMonotone(prefix, 8);
    res := ReadTail(r, v);
  }

  /** The loop of ReadInt. */
  method ReadTail(r: BitReader, start: nat) returns (res: Result<nat>)
    requires r.Valid() && start < Bound(0)
    modifies r
    ensures r.Valid()
    ensures match DecodeTail(old(r.Bits()), start, 0)
            case Ok((v, rest)) => res == Ok(v) && r.Bits() == rest
            case Err(e) => res == Err(e)
  {
    hide ToBits, OctetBits, FromBits, Pow2, Low, Shr;
    var v: nat := start;
    var s: nat := 0;
    while s < 64
      invariant r.Valid() && s <= 63 && s % 7 == 0
      invariant v < Bound(s)
      invariant DecodeTail(old(r.Bits()), start, 0) == DecodeTail(r.Bits(), v, s)
      decreases 64 - s
    {
      ghost var bits := r.Bits();
      var y := r.ReadBits(8);
      if y.Err? {
        return y;
      }
      var b := y.value;
      Octet8(b, bits);
      if s == 63 && (b > 1 || (b == 1 && Shr(v, 63) == 1)) {
        Overflows(bits, v, b);
        return Err(Overflow);
      }
      DigitFits(v, b, s);
      v := Low(v + Low(Digit(b, s), 64), 64);
      if b < 128 {
        break;
      }
      s := s + 7;
    }
    return Ok(v);
  }

  lemma Octet8(b: nat, bits: seq<bool>)
    requires |bits| >= 8 && b < Pow2(8) && ToBits(b, 8) == bits[..8]
    ensures b < 256 && FromBits(bits[..8]) == b
  {
    BitsValue(b, bits[..8]);
    Powers();
  }

  /** Reaching the tenth octet with too large a digit. */
  lemma Overflows(bits: seq<bool>, v: nat, b: nat)
    requires |bits| >= 8 && FromBits(bits[..8]) == b && v < Bound(63)
    requires b > 1 || (b == 1 && Shr(v, 63) == 1)
    ensures DecodeTail(bits, v, 63) == Err(Overflow)
  {
    hide FromBits;
    PowAdd(63, 1);
    Powers();
    TopBit(v);
  }

  /** The sum of a digit that passes the test does not wrap, and stays in bounds. */
  lemma DigitFits(v: nat, b: nat, s: nat)
    requires v < Bound(s) && s <= 63 && s % 7 == 0 && b < 256
    requires s == 63 ==> b == 0 || (b == 1 && Shr(v, 63) != 1)
    ensures v + Digit(b, s) < Pow2(64)
    ensures Low(v + Low(Digit(b, s), 64), 64) == v + Digit(b, s)
    ensures s < 63 ==> s + 7 <= 63 && v + Digit(b, s) < Bound(s + 7)
  {
    hide Low, Shr, Pow2;
    var d := Digit(b, s);
    if s < 63 {
      BoundStep(v, b, s);
    } else {
      PowAdd(63, 1);
      Powers();
      TopBit(v);
    }
    assert v + d < Pow2(64);
    LowSmall(d, 64);
    LowSmall(v + d, 64);
  }

  /** What the value can have grown to before the octet at scale `2^s` is added. */
  ghost function Bound(s: nat): nat {
    Pow2(s) + 255
  }

  lemma BitsValue(v: nat, bs: seq<bool>)
    requires v < Pow2(|bs|) && ToBits(v, |bs|) == bs
    ensures FromBits(bs) == v
  {
    FromToBits(v, |bs|);
    LowSmall(v, |bs|);
  }

  lemma BoundStep(v: nat, b: nat, s: nat)
    requires v < Bound(s) && s < 63 && s % 7 == 0 && b < 256
    ensures v + Digit(b, s) < Bound(s + 7) && v + Digit(b, s) < Pow2(64)
  {
    hide Pow2;
    PowAdd(s, 7);
    Powers();
    MulMonotone(b % 128, 127, Pow2(s));
    PowMonotone(s + 7, 63);
  }

  lemma TopBit(v: nat)
    requires v < Pow2(64)
    ensures Shr(v, 63) == 1 <==> v >= Pow2(63)
  {
    ShrLow(v, 63);
    PowAdd(63, 1);
    Powers();
  }

  method ReadIndex(r: BitReader, prefix: nat) returns (res: Result<nat>)
    requires r.Valid() && 1 <= prefix <= 8
    modifies r
    ensures r.Valid()
    ensures match DecodeIndex(old(r.Bits()), prefix)
            case Ok((v, rest)) => res == Ok(v) && r.Bits() == rest
            case Err(e) => res == Err(e)
  {
    res := ReadInt(r, prefix);
    if res.Ok? && res.value >= Pow2(63) {
      return Err(Overflow);
    }
  }
}
