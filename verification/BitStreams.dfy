/** Sequences of calls on the bit writer and the bit reader (io/bitio.go): what they
    write is the concatenation of what each call stands for, and a reader gets the same
    bits back however it splits them. */
module BitStreams {
  import opened Headers
  import opened Bits
  import opened BitIO
  import opened Seqs

  datatype Call =
    | PutBits(v: nat, count: nat)
    | PutByte(c: Octet)
    | PutOctets(p: seq<Octet>)
    | PutPad(pad: Octet)

  /** Values are 64-bit words and counts are octets. */
  predicate CallOk(c: Call) {
    c.PutBits? ==> c.v < Pow2(64) && c.count < 256
  }

  /** The bits a call adds `pos` bits into an octet; a refused call adds none. */
  function BitsOf(c: Call, pos: nat): seq<bool>
    requires pos < 8
  {
    match c
    case PutBits(v, count) => if count > 64 || (count < 64 && v >= Pow2(count)) then [] else ToBits(v, count)
    case PutByte(o) => ToBits(o, 8)
    case PutOctets(p) => OctetBits(p)
    case PutPad(pad) => ToBits(pad, 8)[..(8 - pos) % 8]
  }

  function BitsOfAll(cs: seq<Call>, pos: nat): seq<bool>
    requires pos < 8
    decreases |cs|
  {
    if cs == [] then []
    else
      var first := BitsOf(cs[0], pos);
      first + BitsOfAll(cs[1..], (pos + |first|) % 8)
  }

  /** One call. */
  method WriteOne(w: BitWriter, c: Call)
    requires w.Valid() && CallOk(c)
    modifies w
    ensures w.Valid() && w.Bits() == old(w.Bits()) + BitsOf(c, old(w.savedBits))
    ensures w.savedBits == (old(w.savedBits) + |BitsOf(c, old(w.savedBits))|) % 8
  {
    hide ToBits, OctetBits, Pow2;
    match c
    case PutBits(v, count) =>
      var _ := w.WriteBits(v, count);
    case PutByte(o) =>
      var _ := w.WriteByte(o);
    case PutOctets(p) =>
      OctetBitsLength(p);
      w.Write(p);
    case PutPad(pad) =>
      w.Pad(pad);
  }

  lemma BitsOfNext(cs: seq<Call>, i: nat, pos: nat)
    requires i < |cs| && pos < 8
    ensures
      var first := BitsOf(cs[i], pos);
      BitsOfAll(cs[i..], pos) == first + BitsOfAll(cs[i + 1..], (pos + |first|) % 8)
  {
    assert cs[i..][0] == cs[i] && cs[i..][1..] == cs[i + 1..];
  }

  lemma NoCalls(pos: nat)
    requires pos < 8
    ensures BitsOfAll([], pos) == []
  {
  }

  lemma Advance(pos: nat, a: nat, b: nat)
    ensures ((pos + a) % 8 + b) % 8 == (pos + (a + b)) % 8
  {
  }

  /** Any sequence of calls writes exactly the bits of the calls, one after the other. */
  method WriteAll(w: BitWriter, cs: seq<Call>)
    requires w.Valid() && forall i :: 0 <= i < |cs| ==> CallOk(cs[i])
    modifies w
    ensures w.Valid() && w.Bits() == old(w.Bits()) + BitsOfAll(cs, old(w.savedBits))
    ensures w.savedBits == (old(w.savedBits) + |BitsOfAll(cs, old(w.savedBits))|) % 8
  {
    hide BitsOf, CallOk, ToBits, OctetBits, BitsOfAll;
    ghost var start, pos := w.Bits(), w.savedBits;
    ghost var done: seq<bool> := [];
    assert cs[0..] == cs;
    for i := 0 to |cs|
      invariant w.Valid() && w.Bits() == start + done && w.savedBits == (pos + |done|) % 8
      invariant BitsOfAll(cs, pos) == done + BitsOfAll(cs[i..], w.savedBits)
    {
      ghost var first, before := BitsOf(cs[i], w.savedBits), w.savedBits;
      BitsOfNext(cs, i, before);
      WriteOne(w, cs[i]);
      Advance(pos, |done|, |first|);
      Assoc(start, done, first);
      Assoc(done, first, BitsOfAll(cs[i + 1..], w.savedBits));
      done := done + first;
    }
    NoCalls(w.savedBits);
    assert cs[|cs|..] == [] && done + [] == done;
  }

  function Sum(counts: seq<nat>): nat {
    if counts == [] then 0 else Sum(counts[..|counts| - 1]) + counts[|counts| - 1]
  }

  lemma {:induction false} SumPrefix(counts: seq<nat>, i: nat)
    requires i <= |counts|
    ensures Sum(counts[..i]) <= Sum(counts)
    decreases |counts|
  {
    if i < |counts| {
      SumPrefix(counts[..|counts| - 1], i);
      assert counts[..|counts| - 1][..i] == counts[..i];
    } else {
      assert counts[..i] == counts;
    }
  }

  /** The bits of the values read. */
  function Joined(vs: seq<nat>, counts: seq<nat>): (bs: seq<bool>)
    requires |vs| == |counts|
    ensures |bs| == Sum(counts)
  {
    if vs == [] then [] else Joined(vs[..|vs| - 1], counts[..|vs| - 1]) + ToBits(vs[|vs| - 1], counts[|vs| - 1])
  }

  /** Reading with any split gives the next bits, and none is lost. */
  method ReadAll(r: BitReader, counts: seq<nat>) returns (vs: seq<nat>)
    requires r.Valid() && (forall i :: 0 <= i < |counts| ==> counts[i] <= 64) && Sum(counts) <= |r.Bits()|
    modifies r
    ensures r.Valid() && |vs| == |counts|
    ensures Joined(vs, counts) == old(r.Bits())[..Sum(counts)] && r.Bits() == old(r.Bits())[Sum(counts)..]
  {
    hide ToBits, OctetBits, Pow2, Joined, Sum;
    vs := [];
    ghost var all := r.Bits();
    NoneRead(all);
    for i := 0 to |counts|
      invariant r.Valid() && |vs| == i && Sum(counts[..i]) <= |all|
      invariant Joined(vs, counts[..i]) == all[..Sum(counts[..i])] && r.Bits() == all[Sum(counts[..i])..]
    {
      SumNext(counts, i);
      SumPrefix(counts, i + 1);
      var x := r.ReadBits(counts[i]);
      JoinedNext(vs, x.value, counts, i, all);
      vs := vs + [x.value];
    }
    assert counts[..|counts|] == counts;
  }

  lemma NoneRead(all: seq<bool>)
    ensures Sum([]) == 0 && Joined([], []) == [] && all[..0] == [] && all[0..] == all
  {
  }

  lemma SumNext(counts: seq<nat>, i: nat)
    requires i < |counts|
    ensures Sum(counts[..i + 1]) == Sum(counts[..i]) + counts[i]
  {
    assert counts[..i + 1][..i] == counts[..i];
  }

  lemma JoinedNext(vs: seq<nat>, v: nat, counts: seq<nat>, i: nat, all: seq<bool>)
    requires |vs| == i < |counts| && Sum(counts[..i]) + counts[i] <= |all|
    requires Joined(vs, counts[..i]) == all[..Sum(counts[..i])] && ToBits(v, counts[i]) == all[Sum(counts[..i])..][..counts[i]]
    ensures
      var n := Sum(counts[..i]) + counts[i];
      Joined(vs + [v], counts[..i + 1]) == all[..n] && all[Sum(counts[..i])..][counts[i]..] == all[n..]
  {
    hide ToBits;
    assert counts[..i + 1][..i] == counts[..i] && (vs + [v])[..i] == vs;
  }

  /** What is written by any calls and padded is read back with any other split. */
  method Transfer(cs: seq<Call>, counts: seq<nat>) returns (octets: seq<Octet>, vs: seq<nat>)
    requires forall i :: 0 <= i < |cs| ==> CallOk(cs[i])
    requires (forall i :: 0 <= i < |counts| ==> counts[i] <= 64) && Sum(counts) <= |BitsOfAll(cs, 0)|
    ensures |vs| == |counts| && Joined(vs, counts) == BitsOfAll(cs, 0)[..Sum(counts)]
    ensures BitsOfAll(cs, 0) <= OctetBits(octets) && |OctetBits(octets)| < |BitsOfAll(cs, 0)| + 8
  {
    hide BitsOf, CallOk, BitsOfAll, Joined, Sum, ToBits, OctetBits;
    var w := new BitWriter();
    WriteAll(w, cs);
    ghost var bits := BitsOfAll(cs, 0);
    assert w.Bits() == bits;
    w.Pad(0);
    octets := w.out;
    assert OctetBits(octets) == w.Bits() by { NoBits(w.saved); }
    var r := new BitReader(octets);
    vs := ReadAll(r, counts);
    assert OctetBits(octets)[..Sum(counts)] == bits[..Sum(counts)];
  }
}
