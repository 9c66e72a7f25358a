/** Variable-length integers and frames (frame.go; section 16 of RFC 9000). */
module Frame {
  import opened Headers
  import opened Bits
  import opened BitIO
  import opened Seqs

  datatype Frame = Frame(kind: Octet, payload: seq<Octet>)

  /** The number of value bits in the encoding with length code `size`. */
  function ValueBits(size: nat): nat
    requires size < 4
  {
    match size
    case 0 => 6
    case 1 => 14
    case 2 => 30
    case _ => 62
  }

  function SizeFor(v: nat): (size: nat)
    requires v < Pow2(62)
    ensures size < 4
  {
    if v >= Pow2(30) then 3 else if v >= Pow2(14) then 2 else if v >= Pow2(6) then 1 else 0
  }

  /** `v` with an explicit length code. */
  function EncodeSized(v: nat, size: nat): seq<bool>
    requires size < 4
  {
    ToBits(size, 2) + ToBits(v, ValueBits(size))
  }

  function EncodeVarint(v: nat): seq<bool>
    requires v < Pow2(62)
  {
    EncodeSized(v, SizeFor(v))
  }

  function DecodeVarint(bits: seq<bool>): (r: Parsed<nat>)
    ensures r.Ok? ==> |r.value.1| < |bits| && r.value.0 < Pow2(62)
  {
    if |bits| < 2 then Err(EndOfInput)
    else
      var size := FromBits(bits[..2]);
      ToFromBits(bits[..2]);
      assert size < 4 by { Powers(); }
      var n := ValueBits(size);
      if |bits| < 2 + n then Err(EndOfInput)
      else
        ToFromBits(bits[2..2 + n]);
        PowMonotone(n, 62);
        Ok((FromBits(bits[2..2 + n]), bits[2 + n..]))
  }

  function EncodeFrame(f: Frame): seq<bool>
    requires |f.payload| < Pow2(62)
  {
    EncodeVarint(|f.payload|) + ToBits(f.kind, 8) + OctetBits(f.payload)
  }

  predicate Sizes(fs: seq<Frame>) {
    forall f :: f in fs ==> |f.payload| < Pow2(62)
  }

  function EncodeFrames(fs: seq<Frame>): seq<bool>
    requires Sizes(fs)
  {
    if fs == [] then [] else EncodeFrame(fs[0]) + EncodeFrames(fs[1..])
  }

  /** One frame, its payload read to the end. */
  function DecodeFrame(bits: seq<bool>): (r: Parsed<Frame>)
    ensures r.Ok? ==> |r.value.1| < |bits|
  {
    var len := DecodeVarint(bits);
    if len.Err? then Err(len.error)
    else
      var (n, rest) := len.value;
      if |rest| < 8 then Err(EndOfInput)
      else if |rest| < 8 + 8 * n then Err(EndOfInput)
      else
        assert FromBits(rest[..8]) < 256 by { ToFromBits(rest[..8]); Powers(); }
        Ok((Frame(FromBits(rest[..8]), ToOctets(rest[8..8 + 8 * n])), rest[8 + 8 * n..]))
  }

  /** Frames up to the end of the stream. */
  function DecodeFrames(bits: seq<bool>): Result<seq<Frame>>
    decreases |bits|
  {
    if bits == [] then Ok([])
    else
      var f := DecodeFrame(bits);
      if f.Err? then Err(f.error)
      else
        var fs := DecodeFrames(f.value.1);
        if fs.Err? then fs else Ok([f.value.0] + fs.value)
  }

  // ---- properties ----

  /** The reader accepts every length that can hold the value. */
  lemma AnySizeReads(v: nat, size: nat, rest: seq<bool>)
    requires size < 4 && v < Pow2(ValueBits(size))
    ensures DecodeVarint(EncodeSized(v, size) + rest) == Ok((v, rest))
  {
    hide ToBits, FromBits, Pow2;
    var n := ValueBits(size);
    var bits := EncodeSized(v, size) + rest;
    assert bits[..2] == ToBits(size, 2) && bits[2..2 + n] == ToBits(v, n) && bits[2 + n..] == rest;
    Powers();
    FromToBits(size, 2);
    LowSmall(size, 2);
    FromToBits(v, n);
    LowSmall(v, n);
  }

  /** The writer uses the shortest length, and what it writes reads back. */
  lemma VarintRoundTrip(v: nat, rest: seq<bool>)
    requires v < Pow2(62)
    ensures v < Pow2(ValueBits(SizeFor(v)))
    ensures DecodeVarint(EncodeVarint(v) + rest) == Ok((v, rest))
    ensures forall size :: 0 <= size < 4 && v < Pow2(ValueBits(size)) ==> |EncodeVarint(v)| <= |EncodeSized(v, size)|
  {
    hide ToBits, FromBits, Pow2;
    Powers();
    AnySizeReads(v, SizeFor(v), rest);
  }

  lemma FrameRoundTrip(f: Frame, rest: seq<bool>)
    requires |f.payload| < Pow2(62)
    ensures DecodeFrame(EncodeFrame(f) + rest) == Ok((f, rest))
  {
    hide ToBits, FromBits, Pow2, OctetBits, DecodeVarint, EncodeVarint, ToOctets;
    var n := |f.payload|;
    var head, kind, body := EncodeVarint(n), ToBits(f.kind, 8), OctetBits(f.payload);
    var tail := (kind + body) + rest;
    assert (head + kind + body) + rest == head + tail;
    VarintRoundTrip(n, tail);
    OctetBitsLength(f.payload);
    assert tail[..8] == kind && tail[8..8 + 8 * n] == body && tail[8 + 8 * n..] == rest;
    FromToBits(f.kind, 8);
    Powers();
    LowSmall(f.kind, 8);
    OctetsInjective(ToOctets(body), f.payload);
  }

  lemma FrameNotEmpty(f: Frame)
    requires |f.payload| < Pow2(62)
    ensures EncodeFrame(f) != []
  {
    hide Pow2, EncodeVarint, OctetBits;
  }

  /** Any list of frames, written one after the other, reads back as the same list. */
  lemma {:induction false} FramesRoundTrip(fs: seq<Frame>)
    requires Sizes(fs)
    ensures DecodeFrames(EncodeFrames(fs)) == Ok(fs)
  {
    hide EncodeFrame, DecodeFrame, Pow2;
    if fs != [] {
      FrameNotEmpty(fs[0]);
      FrameRoundTrip(fs[0], EncodeFrames(fs[1..]));
      FramesRoundTrip(fs[1..]);
      assert fs == [fs[0]] + fs[1..];
    }
  }

  // ---- the code ----

  method WriteVarint(w: BitWriter, v: nat) returns (r: Result<nat>)
    requires w.Valid() && v < Pow2(64)
    modifies w
    ensures w.Valid() && (r.Ok? <==> v < Pow2(62))
    ensures r.Ok? ==> w.Bits() == old(w.Bits()) + EncodeVarint(v) && 8 * r.value == |EncodeVarint(v)|
    ensures r.Ok? ==> w.savedBits == old(w.savedBits)
    ensures r.Err? ==> r.error == TooLarge && w.Bits() == old(w.Bits())
  {
    hide ToBits, Pow2, DecodeVarint;
    if v >= Pow2(62) {
      return Err(TooLarge);
    }
    Powers();
    VarintRoundTrip(v, []);
    var size: nat := if v >= Pow2(30) then 3 else if v >= Pow2(14) then 2 else if v >= Pow2(6) then 1 else 0;
    var _ := w.WriteBits(size, 2);
    var n: nat := if size == 0 then 1 else if size == 1 then 2 else if size == 2 then 4 else 8;
    var _ := w.WriteBits(v, n * 8 - 2);
    Assoc(old(w.Bits()), ToBits(size, 2), ToBits(v, n * 8 - 2));
    return Ok(n);
  }

  /** The count returned is one more than the octets written: the type is counted twice. */
  method WriteFrame(w: BitWriter, f: Frame) returns (n: nat, r: Result<()>)
    requires w.Valid() && |f.payload| < Pow2(63)
    modifies w
    ensures w.Valid() && (r.Ok? <==> |f.payload| < Pow2(62))
    ensures r.Ok? ==> w.Bits() == old(w.Bits()) + EncodeFrame(f) && 8 * n == |EncodeFrame(f)| + 8
    ensures r.Err? ==> w.Bits() == old(w.Bits())
  {
    hide ToBits, OctetBits, Pow2, EncodeVarint;
    PowMonotone(63, 64);
    var len := WriteVarint(w, |f.payload|);
    if len.Err? {
      return 0, Err(len.error);
    }
    var _ := w.WriteByte(f.kind);
    w.Write(f.payload);
    OctetBitsLength(f.payload);
    ghost var start := old(w.Bits());
    Assoc(start, EncodeVarint(|f.payload|), ToBits(f.kind, 8));
    Assoc(start, EncodeVarint(|f.payload|) + ToBits(f.kind, 8), OctetBits(f.payload));
    return len.value + |f.payload| + 2, Ok(());
  }

  method ReadVarint(r: BitReader) returns (res: Result<nat>)
    requires r.Valid() && r.savedBits < 8
    modifies r
    ensures r.Valid() && (res.Ok? ==> r.savedBits < 8)
    ensures match DecodeVarint(old(r.Bits()))
            case Ok((v, rest)) => res == Ok(v) && r.Bits() == rest
            case Err(e) => res == Err(e)
  {
    hide ToBits, FromBits, OctetBits, Pow2;
    ghost var bits := r.Bits();
    var size := r.ReadBits(2);
    if size.Err? {
      return size;
    }
    Powers();
    FromToBits(size.value, 2);
    LowSmall(size.value, 2);
    var n := if size.value == 0 then 6 else if size.value == 1 then 14 else if size.value == 2 then 30 else 62;
    assert |bits| >= 2 + n ==> bits[2..][..n] == bits[2..2 + n] && bits[2..][n..] == bits[2 + n..];
    res := r.ReadBits(n);
    if res.Ok? {
      FromToBits(res.value, n);
      LowSmall(res.value, n);
    }
  }

  /** ReadFrame, and the payload read to its end through the limited reader. */
  method ReadFrame(r: BitReader) returns (res: Result<Frame>)
    requires r.Valid() && r.savedBits < 8
    modifies r
    ensures r.Valid()
    ensures match DecodeFrame(old(r.Bits()))
            case Ok((f, rest)) => res == Ok(f) && r.Bits() == rest
            case Err(e) => res == Err(e)
  {
    hide ToBits, FromBits, OctetBits, Pow2, DecodeVarint, ToOctets;
    var len := ReadVarint(r);
    if len.Err? {
      return Err(len.error);
    }
    ghost var rest := r.Bits();
    var kind := r.ReadByte();
    if kind.Err? {
      return Err(kind.error);
    }
    Powers();
    FromToBits(kind.value, 8);
    LowSmall(kind.value, 8);
    var body := r.Read(len.value);
    var n := len.value;
    if |body| < n {
      return Err(EndOfInput);
    }
    assert rest[8..][..8 * n] == rest[8..8 + 8 * n] && rest[8..][8 * n..] == rest[8 + 8 * n..];
    OctetsInjective(body, ToOctets(rest[8..8 + 8 * n]));
    return Ok(Frame(kind.value, body));
  }
}
