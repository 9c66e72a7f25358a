/** String literals: WriteStringRaw and ReadString of hc/io.go (section 5.2 of RFC 7541). */
module HpackString {
  import opened Headers
  import opened Bits
  import opened BitIO
  import opened Seqs
  import opened HpackInt
  import opened Huffman

  datatype Coding = Auto | Always | Never

  /** Compressed, and filled up with one-bits to a whole number of octets. */
  function Packed(t: Table, s: Str): (bs: seq<bool>)
    ensures |bs| % 8 == 0
  {
    var c := Compress(t, s);
    c + OneBits((8 - |c| % 8) % 8)
  }

  /** Huffman coding is used if it is forced, or if it is allowed and shortens the string. */
  predicate UseHuffman(t: Table, s: Str, c: Coding)
  {
    c.Always? || (c.Auto? && |Packed(t, s)| / 8 < |s|)
  }

  function Body(t: Table, s: Str, c: Coding): (bs: seq<bool>)
    ensures |bs| % 8 == 0
  {
    OctetBitsLength(s);
    if UseHuffman(t, s, c) then Packed(t, s) else OctetBits(s)
  }

  function EncodeString(t: Table, s: Str, prefix: nat, c: Coding): seq<bool>
  {
    [UseHuffman(t, s, c)] + EncodeInt(|Body(t, s, c)| / 8, prefix) + Body(t, s, c)
  }

  /** What reading a string comes to.  Hidden is an error that the source reports as
      an empty string. */
  datatype Reading = Got(s: Str, rest: seq<bool>) | Failed(error: Error) | Hidden

  /** A string cut short by the end of the input is returned as far as it goes, and
      a Huffman string without a single symbol is an end of input. */
  function DecodeString(root: Node, bits: seq<bool>, prefix: nat): (r: Reading)
    requires 1 <= prefix <= 8
    ensures r.Got? ==> |r.rest| < |bits|
  {
    if bits == [] then Hidden
    else
      var len := DecodeInt(bits[1..], prefix);
      if len.Err? then Hidden
      else
        var (n, rest) := len.value;
        var k := Min(n, |rest| / 8);
        var body, after := rest[..8 * k], rest[8 * k..];
        if bits[0] then
          match Inflate(root, root, body)
          case Err(e) => Failed(e)
          case Ok(s) => if s == [] then Failed(EndOfInput) else Got(s, after)
        else if n > 0 && k == 0 then Failed(EndOfInput)
        else Got(ToOctets(body), after)
  }

  /** Exactly the strings that survive: all but the empty one with Huffman forced. */
  predicate Survives(s: Str, c: Coding) {
    !(s == [] && c.Always?)
  }

  /** The length of the string can be written. */
  predicate Writable(t: Table, s: Str, c: Coding)
  {
    |Body(t, s, c)| / 8 < Pow2(64)
  }

  lemma BodyReads(t: Table, root: Node, s: Str, c: Coding)
    requires TableOk(t) && Tree(t, [], root)
    ensures UseHuffman(t, s, c) ==> Inflate(root, root, Body(t, s, c)) == Ok(s)
    ensures !UseHuffman(t, s, c) ==> ToOctets(Body(t, s, c)) == s
  {
    hide TableOk, Tree, Inflate, Compress, ToOctets, OctetBits, OneBits;
    if UseHuffman(t, s, c) {
      InflateCompress(t, root, s, (8 - |Compress(t, s)| % 8) % 8);
    } else {
      OctetBitsLength(s);
      OctetsInjective(ToOctets(OctetBits(s)), s);
    }
  }

  /** ReadString inverts WriteStringRaw, and consumes exactly what was written, for
      every string and coding but the empty string with Huffman forced, which reads
      as an end of input. */
  lemma StringRoundTrip(t: Table, root: Node, s: Str, prefix: nat, c: Coding, rest: seq<bool>)
    requires TableOk(t) && Tree(t, [], root) && 1 <= prefix <= 8 && Writable(t, s, c)
    ensures DecodeString(root, EncodeString(t, s, prefix, c) + rest, prefix)
         == if Survives(s, c) then Got(s, rest) else Failed(EndOfInput)
  {
    hide Compress, EncodeInt, DecodeInt, OctetBits, Inflate, PrefixFree, Extends, Tree, Pow2, ToOctets;
    var h, body := UseHuffman(t, s, c), Body(t, s, c);
    var n := |body| / 8;
    var length := EncodeInt(n, prefix);
    var bits := EncodeString(t, s, prefix, c) + rest;
    assert bits == [h] + (length + (body + rest));
    assert bits[1..] == length + (body + rest);
    IntRoundTrip(n, prefix, body + rest);
    assert 8 * n == |body|;
    assert (body + rest)[..8 * n] == body && (body + rest)[8 * n..] == rest;
    BodyReads(t, root, s, c);
    EmptyNotShortened(t, c);
    if !h {
      OctetBitsLength(s);
    }
  }

  /** Left to itself, the writer does not compress the empty string. */
  lemma EmptyNotShortened(t: Table, c: Coding)
    ensures UseHuffman(t, [], c) <==> c.Always?
  {
  }

  /** Left to itself, the writer takes the shorter form, and that of the octets if they are
      equally long. */
  lemma AutoShortest(t: Table, s: Str, prefix: nat, c: Coding)
    ensures |EncodeString(t, s, prefix, Auto)| <= |EncodeString(t, s, prefix, c)|
    ensures UseHuffman(t, s, Auto) <==> |Packed(t, s)| < |OctetBits(s)|
  {
    hide EncodeInt, Packed, OctetBits;
    OctetBitsLength(s);
    assert |Packed(t, s)| % 8 == 0;
    IntLonger(|Body(t, s, Auto)| / 8, |Body(t, s, c)| / 8, prefix);
  }

  lemma AllOnes(k: nat)
    requires k <= 8
    ensures ToBits(255, 8)[..k] == OneBits(k)
  {
    assert ToBits(255, 8) == OneBits(8);
  }

  // ---- the code ----

  method WriteStringRaw(w: BitWriter, t: Table, s: Str, prefix: nat, c: Coding)
    requires w.Valid() && TableOk(t) && 1 <= prefix <= 8 && Writable(t, s, c) && |s| < Pow2(64)
    modifies w
    ensures w.Valid() && w.Bits() == old(w.Bits()) + EncodeString(t, s, prefix, c)
    ensures w.savedBits == (old(w.savedBits) + 1 + prefix) % 8
  {
    hide PrefixFree, Extends, EncodeInt, Compress, OctetBits, ToBits, Pow2;
    var body, hbit := s, 0;
    if c != Never {
      var packed := Pack(t, s);
      if c == Always || |packed| < |s| {
        body, hbit := packed, 1;
      }
    }
    OctetBitsLength(body);
    assert OctetBits(body) == Body(t, s, c) && (hbit == 1) == UseHuffman(t, s, c);
    ghost var start := w.Bits();
    var _ := w.WriteBit(hbit);
    WriteInt(w, |body|, prefix);
    w.Write(body);
    Assoc(start, [hbit == 1], EncodeInt(|body|, prefix));
    Assoc(start, [hbit == 1] + EncodeInt(|body|, prefix), OctetBits(body));
  }

  /** Compress into a buffer and pad it. */
  method Pack(t: Table, s: Str) returns (packed: seq<Octet>)
    requires TableOk(t)
    ensures OctetBits(packed) == Packed(t, s) && 8 * |packed| == |Packed(t, s)|
  {
    hide PrefixFree, Extends, Compress, OctetBits, ToBits;
    var buf := new BitWriter();
    WriteCompressed(t, buf, s);
    ghost var c := Compress(t, s);
    assert [] + c == c;
    OctetBitsLength(buf.out);
    assert |c| == 8 * |buf.out| + buf.savedBits;
    assert buf.savedBits == |c| % 8;
    AllOnes((8 - buf.savedBits) % 8);
    buf.Pad(0xff);
    packed := buf.out;
    OctetBitsLength(packed);
    NoBits(buf.saved);
    assert OctetBits(packed) + [] == OctetBits(packed);
  }

  /** The buffer for a Huffman string is always larger than what is decoded into it. */
  method ReadString(r: BitReader, t: Table, root: Node, prefix: nat) returns (res: Result<Str>)
    requires r.Valid() && TableOk(t) && Tree(t, [], root) && root.Inner? && 1 <= prefix <= 8
    modifies r
    ensures r.Valid()
    ensures match DecodeString(root, old(r.Bits()), prefix)
            case Got(s, rest) => res == Ok(s) && r.Bits() == rest
            case Failed(e) => res == Err(e)
            case Hidden => res == Ok([])
  {
    hide PrefixFree, Extends, Tree, OctetBits, DecodeInt, Inflate, ToOctets;
    var huffman := r.ReadBit();
    if huffman.Err? {
      return Ok([]);
    }
    var len := ReadInt(r, prefix);
    if len.Err? {
      return Ok([]);
    }
    var body := r.Read(len.value);
    OctetBitsLength(body);
    if huffman.value != 0 {
      var limited := new BitReader(body);
      var d := new Decompressor(t, root);
      var s, outcome := d.Read(limited, len.value * 8 / 5 + 1);
      assert 5 * |s| <= 8 * |body| && |body| <= len.value;
      if outcome == BadCode {
        return Err(Invalid);
      }
      return if s == [] then Err(EndOfInput) else Ok(s);
    }
    if |body| == 0 && len.value > 0 {
      return Err(EndOfInput);
    }
    OctetsInjective(body, ToOctets(OctetBits(body)));
    return Ok(body);
  }
}
