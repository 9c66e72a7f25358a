/** The bit writer and reader of io/bitio.go over a stream that never fails.

    Words are unsigned 64-bit: a left shift drops what leaves the word.  Both
    classes leave junk above `savedBits` in `saved`; what they hold is the low
    `savedBits` bits. */
module BitIO {
  import opened Arith
  import opened Headers
  import opened Bits

  const WORD_BITS: nat := 64

  datatype Result<+T> = Ok(value: T) | Err(error: Error)
  datatype Error = TooLarge | EndOfInput | Overflow | Invalid

  /** A decoded value and the bits after it. */
  type Parsed<+T> = Result<(T, seq<bool>)>

  /** `v << n` in a 64-bit word. */
  function Shl(v: nat, n: nat): nat {
    Low(v * Pow2(n), WORD_BITS)
  }

  /** `hi | lo`, for operands that share no bit: `lo` is below the low `m` bits,
      which are clear in `hi`. */
  function Or(hi: nat, lo: nat, ghost m: nat): nat
    requires Low(hi, m) == 0 && lo < Pow2(m)
  {
    hi + lo
  }

  lemma ShlClear(v: nat, m: nat)
    requires m <= WORD_BITS
    ensures Low(Shl(v, m), m) == 0 && Shl(v, m) < Pow2(WORD_BITS)
  {
    hide ToBits, Low, Shr, Pow2;
    var x := v * Pow2(m);
    ShrLow(x, WORD_BITS);
    ShrLowUnique(x, m, v, 0);
    ToBitsLow(x, m, WORD_BITS);
    FromToBits(x, m);
    FromToBits(Low(x, WORD_BITS), m);
  }

  /** Filling the bits that a shift has cleared stays within the word. */
  lemma OrFits(hi: nat, lo: nat, m: nat)
    requires m <= WORD_BITS && hi < Pow2(WORD_BITS) && Low(hi, m) == 0 && lo < Pow2(m)
    ensures hi + lo < Pow2(WORD_BITS)
  {
    hide Low, Shr, Pow2;
    ShrLow(hi, m);
    PowAdd(WORD_BITS - m, m);
    MulCancel(Shr(hi, m), Pow2(WORD_BITS - m), Pow2(m));
  }

  /** The saved bits, then the new ones: what shifting in `lo` leaves in a word. */
  lemma ShlOr(v: nat, lo: nat, n: nat, m: nat)
    requires n + m <= WORD_BITS && lo < Pow2(m)
    ensures Low(Shl(v, m), m) == 0
    ensures ToBits(Or(Shl(v, m), lo, m), n + m) == ToBits(v, n) + ToBits(lo, m)
    ensures Or(Shl(v, m), lo, m) < Pow2(WORD_BITS)
  {
    hide ToBits, Low, Shr, Pow2;
    ShlClear(v, m);
    var x, y := v * Pow2(m), Shl(v, m);
    OrFits(y, lo, m);
    ShrLow(y, m);
    ToBitsJoin(Shr(y, m), lo, n, m);
    ToBitsJoin(Shr(y, m), 0, n, m);
    ToBitsJoin(v, 0, n, m);
    ToBitsLow(x, n + m, WORD_BITS);
    assert ToBits(Shr(y, m), n) == ToBits(y, n + m)[..n];
    assert ToBits(v, n) == ToBits(x, n + m)[..n];
  }

  lemma ShrFits(v: nat, n: nat, m: nat)
    requires v < Pow2(n + m)
    ensures Shr(v, m) < Pow2(n)
  {
    hide Low, Shr, Pow2;
    ShrLow(v, m);
    PowAdd(n, m);
    MulCancel(Shr(v, m), Pow2(n), Pow2(m));
  }

  lemma NoOctets()
    ensures OctetBits([]) == [] && forall r: seq<bool> :: [] + r == r
  {
  }

  lemma NoBits(v: nat)
    ensures ToBits(v, 0) == []
  {
  }

  lemma LowOctet(v: nat)
    ensures Low(v, 8) < 256 && ToBits(Low(v, 8), 8) == ToBits(v, 8)
  {
    ShrLow(v, 8);
    Powers();
    ToBitsLow(v, 8, 8);
  }

  lemma ShiftedFits(hi: nat, lo: nat, n: nat, m: nat)
    requires n + m <= WORD_BITS && hi < Pow2(n) && lo < Pow2(m)
    ensures Low(Shl(hi, m), m) == 0 && Or(Shl(hi, m), lo, m) < Pow2(n + m)
  {
    hide ToBits, Low, Shr, Pow2;
    ShlClear(hi, m);
    PowAdd(n, m);
    PowMonotone(n + m, WORD_BITS);
    MulStep(hi, Pow2(n), Pow2(m));
    LowSmall(hi * Pow2(m), WORD_BITS);
  }

  /** The octet at the top of `n` saved bits. */
  function TopOctet(saved: nat, n: nat): Octet
    requires n >= 8
  {
    LowOctet(Shr(saved, n - 8));
    Low(Shr(saved, n - 8), 8)
  }

  lemma TopOctetMoves(out: seq<Octet>, saved: nat, n: nat)
    requires n >= 8
    ensures OctetBits(out + [TopOctet(saved, n)]) + ToBits(saved, n - 8) == OctetBits(out) + ToBits(saved, n)
  {
    hide ToBits, OctetBits, Low, Shr, Pow2;
    var x := TopOctet(saved, n);
    LowOctet(Shr(saved, n - 8));
    ToBitsSplit(saved, 8, n - 8);
    OctetBitsLast(out, x);
    assert (OctetBits(out) + ToBits(x, 8)) + ToBits(saved, n - 8) == OctetBits(out) + (ToBits(x, 8) + ToBits(saved, n - 8));
  }

  /** The octet that `n` saved bits make with the first bits of `v`, when all but
      the last `rest` bits of `v` are needed for it. */
  function JoinedOctet(saved: nat, n: nat, v: nat, rest: nat): Octet
    requires n < 8 && v < Pow2(8 - n + rest)
  {
    ShlClear(saved, 8 - n);
    ShrFits(v, 8 - n, rest);
    var word := Or(Shl(saved, 8 - n), Shr(v, rest), 8 - n);
    LowOctet(word);
    Low(word, 8)
  }

  lemma JoinedOctetMoves(out: seq<Octet>, saved: nat, n: nat, v: nat, rest: nat)
    requires n < 8 && v < Pow2(8 - n + rest)
    ensures OctetBits(out + [JoinedOctet(saved, n, v, rest)]) + ToBits(v, rest)
         == OctetBits(out) + ToBits(saved, n) + ToBits(v, 8 - n + rest)
  {
    hide ToBits, OctetBits, Low, Shr, Pow2, Shl;
    var x := JoinedOctet(saved, n, v, rest);
    ShrFits(v, 8 - n, rest);
    ShlOr(saved, Shr(v, rest), n, 8 - n);
    LowOctet(Or(Shl(saved, 8 - n), Shr(v, rest), 8 - n));
    OctetBitsLast(out, x);
    ToBitsSplit(v, 8 - n, rest);
    assert ToBits(x, 8) == ToBits(saved, n) + ToBits(Shr(v, rest), 8 - n);
    Regroup(OctetBits(out), ToBits(saved, n), ToBits(Shr(v, rest), 8 - n), ToBits(v, rest));
  }

  lemma ShiftIn(out: seq<Octet>, saved: nat, n: nat, v: nat, m: nat)
    requires n + m <= WORD_BITS && v < Pow2(m)
    ensures Low(Shl(saved, m), m) == 0 && Or(Shl(saved, m), v, m) < Pow2(WORD_BITS)
    ensures OctetBits(out) + ToBits(Or(Shl(saved, m), v, m), n + m) == OctetBits(out) + ToBits(saved, n) + ToBits(v, m)
  {
    ShlOr(saved, v, n, m);
    assert OctetBits(out) + (ToBits(saved, n) + ToBits(v, m)) == OctetBits(out) + ToBits(saved, n) + ToBits(v, m);
  }

  lemma Regroup<T>(a: seq<T>, b: seq<T>, c: seq<T>, d: seq<T>)
    ensures (a + (b + c)) + d == (a + b) + (c + d)
  {
  }

  class BitWriter {
    var out: seq<Octet>
    var saved: nat
    var savedBits: nat
    var written: nat

    ghost predicate Holding()
      reads this
    {
      savedBits <= WORD_BITS && saved < Pow2(WORD_BITS) && written == |out|
    }

    /** Between calls less than an octet is waiting. */
    ghost predicate Valid()
      reads this
    {
      Holding() && savedBits < 8
    }

    /** Every bit written so far. */
    ghost function Bits(): seq<bool>
      reads this
    {
      OctetBits(out) + ToBits(saved, savedBits)
    }

    constructor ()
      ensures Valid() && Bits() == [] && savedBits == 0
    {
      out, saved, savedBits, written := [], 0, 0, 0;
    }

    method WriteOctet(c: Octet)
      requires Holding()
      modifies `out, `written
      ensures Holding() && out == old(out) + [c]
    {
      written := written + 1;
      out := out + [c];
    }

    /** Write out whole octets from the saved bits. */
    method WriteSaved()
      requires Holding()
      modifies this
      ensures Valid() && Bits() == old(Bits()) && savedBits == old(savedBits) % 8
    {
      hide ToBits, OctetBits, Low, Shr, Pow2;
      while savedBits >= 8
        invariant Holding() && Bits() == old(Bits())
        invariant savedBits % 8 == old(savedBits) % 8
      {
        TopOctetMoves(out, saved, savedBits);
        WriteOctet(TopOctet(saved, savedBits));
        savedBits := savedBits - 8;
      }
    }

    method WriteBits(v: nat, count: nat) returns (r: Result<()>)
      requires Valid() && v < Pow2(WORD_BITS) && count < 256
      modifies this
      ensures Valid()
      ensures r == if count > 64 || (count < 64 && v >= Pow2(count)) then Err(TooLarge) else Ok(())
      ensures r.Ok? ==> Bits() == old(Bits()) + ToBits(v, count) && savedBits == (old(savedBits) + count) % 8
      ensures r.Err? ==> unchanged(this)
    {
      hide ToBits, OctetBits, Low, Shr, Shl, Pow2;
      if count > 64 || (count < 64 && v >= Pow2(count)) {
        return Err(TooLarge);
      }
      if savedBits + count < 8 {
        ShiftIn(out, saved, savedBits, v, count);
        savedBits := savedBits + count;
        saved := Or(Shl(saved, count), v, count);
        return Ok(());
      }
      WriteThrough(v, count);
      return Ok(());
    }

    /** Complete an octet with the first bits of `v`; save the rest of them. */
    method WriteThrough(v: nat, count: nat)
      requires Valid() && count <= 64 && v < Pow2(count) && savedBits + count >= 8
      modifies this
      ensures Valid() && Bits() == old(Bits()) + ToBits(v, count) && savedBits == (old(savedBits) + count) % 8
    {
      hide ToBits, OctetBits, Pow2, JoinedOctet;
      WriteSaved();
      var remainder := count + savedBits - 8;
      assert 8 - savedBits + remainder == count;
      JoinedOctetMoves(out, saved, savedBits, v, remainder);
      WriteOctet(JoinedOctet(saved, savedBits, v, remainder));
      PowMonotone(count, WORD_BITS);
      saved := v;
      savedBits := remainder;
      WriteSaved();
    }

    method WriteBit(bit: nat) returns (r: Result<()>)
      requires Valid() && bit < 2
      modifies this
      ensures Valid() && r.Ok? && Bits() == old(Bits()) + [bit == 1] && savedBits == (old(savedBits) + 1) % 8
    {
      Powers();
      PowMonotone(1, WORD_BITS);
      r := WriteBits(bit, 1);
      assert ToBits(bit, 1) == ToBits(bit / 2, 0) + [bit % 2 == 1];
    }

    method WriteByte(c: Octet) returns (r: Result<()>)
      requires Valid()
      modifies this
      ensures Valid() && r.Ok? && Bits() == old(Bits()) + ToBits(c, 8) && savedBits == old(savedBits)
    {
      Powers();
      PowMonotone(8, WORD_BITS);
      r := WriteBits(c, 8);
    }

    /** Octets may start anywhere in an octet of the output. */
    method Write(p: seq<Octet>)
      requires Valid()
      modifies this
      ensures Valid() && Bits() == old(Bits()) + OctetBits(p) && savedBits == old(savedBits)
    {
      hide ToBits, Low, Shr, Pow2;
      if savedBits == 0 {
        OctetBitsAppend(out, p);
        out := out + p;
        written := written + |p|;
        return;
      }
      assert p[..0] == [];
      for i := 0 to |p|
        invariant Valid() && Bits() == old(Bits()) + OctetBits(p[..i]) && savedBits == old(savedBits)
      {
        assert p[..i + 1] == p[..i] + [p[i]];
        OctetBitsLast(p[..i], p[i]);
        var _ := WriteByte(p[i]);
      }
      assert p[..|p|] == p;
    }

    /** Fill up a partial octet with the high bits of `pad`. */
    method Pad(pad: Octet)
      requires Valid()
      modifies this
      ensures Valid() && savedBits == 0
      ensures Bits() == old(Bits()) + ToBits(pad, 8)[..(8 - old(savedBits)) % 8]
    {
      hide ToBits, OctetBits, Low, Shr, Pow2;
      if savedBits > 0 {
        WriteSaved();
        Powers();
        ShrFits(pad, 8 - savedBits, savedBits);
        PowMonotone(8 - savedBits, WORD_BITS);
        ToBitsPrefix(pad, 8, 8 - savedBits);
        var _ := WriteBits(Shr(pad, savedBits), 8 - savedBits);
        assert savedBits == 0;
        NoBits(saved);
        NoBits(0);
        saved := 0;
        savedBits := 0;
      }
    }
  }

  class BitReader {
    /** What the underlying reader has not delivered yet. */
    var input: seq<Octet>
    var saved: nat
    var savedBits: nat

    ghost predicate Valid()
      reads this
    {
      savedBits <= WORD_BITS && saved < Pow2(WORD_BITS)
    }

    /** Every bit still to be read. */
    ghost function Bits(): seq<bool>
      reads this
    {
      ToBits(saved, savedBits) + OctetBits(input)
    }

    constructor (source: seq<Octet>)
      ensures Valid() && Bits() == OctetBits(source) && savedBits == 0
    {
      input, saved, savedBits := source, 0, 0;
    }

    /** Add the next octet to the saved bits. */
    method ReadNext() returns (r: Result<()>)
      requires Valid() && savedBits + 8 <= WORD_BITS
      modifies this
      ensures Valid() && Bits() == old(Bits())
      ensures r == if old(input) == [] then Err(EndOfInput) else Ok(())
      ensures r.Ok? ==> savedBits == old(savedBits) + 8 && |input| == |old(input)| - 1
      ensures r.Err? ==> unchanged(this)
    {
      hide ToBits, OctetBits, Low, Shr, Pow2;
      if input == [] {
        return Err(EndOfInput);
      }
      var b := input[0];
      Powers();
      ShlOr(saved, b, savedBits, 8);
      OctetBitsFirst(input);
      saved := Or(Shl(saved, 8), b, 8);
      savedBits := savedBits + 8;
      input := input[1..];
      assert Bits() == old(Bits());
      return Ok(());
    }

    method ReadBit() returns (r: Result<nat>)
      requires Valid()
      modifies this
      ensures Valid()
      ensures r.Ok? <==> old(Bits()) != []
      ensures r.Ok? ==> r.value < 2 && (r.value == 1) == old(Bits())[0] && Bits() == old(Bits())[1..]
      ensures r.Ok? ==> savedBits == (old(savedBits) + 7) % 8 || savedBits == old(savedBits) - 1
      ensures r.Err? ==> r.error == EndOfInput && unchanged(this)
    {
      OctetBitsLength(input);
      if savedBits == 0 {
        var n := ReadNext();
        if n.Err? {
          return Err(EndOfInput);
        }
      }
      ToBitsSplit(saved, 1, savedBits - 1);
      savedBits := savedBits - 1;
      var bit := Shr(saved, savedBits) % 2;
      assert ToBits(Shr(saved, savedBits), 1) == ToBits(Shr(saved, savedBits) / 2, 0) + [bit == 1];
      return Ok(bit);
    }

    /** Read up to 64 bits.  If there are not enough, none are lost. */
    method ReadBits(count: nat) returns (r: Result<nat>)
      requires Valid() && count < 256
      modifies this
      ensures Valid()
      ensures r == if count > 64 then Err(TooLarge) else if |old(Bits())| < count then Err(EndOfInput) else r
      ensures count <= 64 && count <= |old(Bits())| ==>
        && r.Ok? && r.value < Pow2(count)
        && ToBits(r.value, count) == old(Bits())[..count] && Bits() == old(Bits())[count..]
      ensures r.Err? ==> Bits() == old(Bits())
      ensures r.Ok? && old(savedBits) < 8 ==> savedBits < 8
    {
      hide ToBits, OctetBits, Low, Shr, Pow2;
      if count > 64 {
        return Err(TooLarge);
      }
      OctetBitsLength(input);
      while savedBits + 8 <= count
        invariant Valid() && Bits() == old(Bits())
        invariant old(savedBits) < 8 && savedBits >= 8 ==> savedBits <= count
        decreases |input|
      {
        OctetBitsLength(input);
        var n := ReadNext();
        if n.Err? {
          return Err(EndOfInput);
        }
      }
      OctetBitsLength(input);
      if savedBits >= count {
        ToBitsSplit(saved, count, savedBits - count);
        savedBits := savedBits - count;
        var v := Low(Shr(saved, savedBits), count);
        ShrLow(Shr(saved, savedBits), count);
        ToBitsLow(Shr(saved, savedBits), count, count);
        return Ok(v);
      }
      var result := Low(saved, savedBits);
      var remainder := count - savedBits;
      if input == [] {
        return Err(EndOfInput);
      }
      var b := input[0];
      var v := LastOctet(result, b, remainder);
      OctetBitsFirst(input);
      ToBitsSplit(b, remainder, 8 - remainder);
      Powers();
      assert Bits()[count..] == ToBits(b, 8 - remainder) + OctetBits(input[1..]);
      saved := b;
      savedBits := 8 - remainder;
      input := input[1..];
      return Ok(v);
    }

    /** `result << remainder | b >> (8 - remainder)`: the first bits of a fresh octet
        complete a result that might not leave room for all of it. */
    method LastOctet(result: nat, b: Octet, remainder: nat) returns (v: nat)
      requires Valid() && input != [] && b == input[0] && savedBits + remainder <= 64 && 0 < remainder < 8
      requires result == Low(saved, savedBits)
      ensures v < Pow2(savedBits + remainder)
      ensures ToBits(v, savedBits + remainder) == Bits()[..savedBits + remainder]
    {
      hide ToBits, OctetBits, Low, Shr, Pow2;
      Powers();
      var tail := Shr(b, 8 - remainder);
      ShrFits(b, remainder, 8 - remainder);
      ShlOr(result, tail, savedBits, remainder);
      v := Or(Shl(result, remainder), tail, remainder);
      ToBitsLow(saved, savedBits, savedBits);
      OctetBitsFirst(input);
      ToBitsSplit(b, remainder, 8 - remainder);
      ShrLow(saved, savedBits);
      ShiftedFits(result, tail, savedBits, remainder);
    }

    method ReadByte() returns (r: Result<nat>)
      requires Valid()
      modifies this
      ensures Valid()
      ensures r.Ok? <==> |old(Bits())| >= 8
      ensures r.Ok? ==> r.value < 256 && ToBits(r.value, 8) == old(Bits())[..8] && Bits() == old(Bits())[8..]
      ensures r.Ok? && old(savedBits) < 8 ==> savedBits < 8
      ensures r.Err? ==> r.error == EndOfInput && Bits() == old(Bits())
    {
      hide ToBits, OctetBits, Low, Shr, Pow2;
      OctetBitsLength(input);
      Powers();
      if savedBits == 0 {
        if input == [] {
          return Err(EndOfInput);
        }
        OctetBitsFirst(input);
        r := Ok(input[0]);
        input := input[1..];
        return;
      }
      r := ReadBits(8);
    }

    /** Read up to `n` octets, starting anywhere in an octet of the input. */
    method Read(n: nat) returns (p: seq<Octet>)
      requires Valid()
      modifies this
      ensures Valid() && |p| == Min(n, |old(Bits())| / 8)
      ensures OctetBits(p) == old(Bits())[..8 * |p|] && Bits() == old(Bits())[8 * |p|..]
      ensures old(savedBits) < 8 ==> savedBits < 8
    {
      hide ToBits, OctetBits;
      OctetBitsLength(input);
      if savedBits == 0 {
        var k := Min(n, |input|);
        p := input[..k];
        OctetBitsAppend(input[..k], input[k..]);
        OctetBitsLength(p);
        assert input == input[..k] + input[k..];
        NoBits(saved);
        input := input[k..];
        return;
      }
      p := [];
      NoOctets();
      while |p| < n
        invariant Valid() && |p| <= n && (old(savedBits) < 8 ==> savedBits < 8)
        invariant 8 * |p| <= |old(Bits())|
        invariant OctetBits(p) == old(Bits())[..8 * |p|] && Bits() == old(Bits())[8 * |p|..]
        decreases n - |p|
      {
        var b := ReadByte();
        if b.Err? {
          return;
        }
        OctetBitsLast(p, b.value);
        p := p + [b.value];
      }
    }
  }
}
