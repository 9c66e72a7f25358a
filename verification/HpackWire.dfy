/** The octets of HPACK (hc/hpack.go:81-176, 252-328), and a header block from its
    fields to its octets and back. */
module HpackWire {
  import opened Headers
  import opened History
  import opened TableSpec
  import opened Bits
  import opened BitIO
  import opened HpackInt
  import opened HpackString
  import opened Huffman
  import opened Hpack
  import opened Seqs
  import opened Wire

  /** writeNameValue: a name index, the name if that is zero, and the value. */
  function PutNameValue(st: Style, i: nat, name: Str, value: Str, prefix: nat): seq<bool> {
    EncodeInt(i, prefix) + ((if i == 0 then st.Put(name, 7) else []) + st.Put(value, 7))
  }

  function EncodeRep(st: Style, r: Rep): seq<bool> {
    match r
    case Indexed(i) => [true] + EncodeInt(i, 7)
    case Incremental(i, n, v) => [false, true] + PutNameValue(st, i, n, v, 6)
    case Literal(never, i, n, v) => [false, false, false, never] + PutNameValue(st, i, n, v, 4)
    case Capacity(c) => [false, false, true] + EncodeInt(c, 5)
  }

  predicate NameValueOk(st: Style, i: nat, name: Str, value: Str) {
    i < Pow2(63) && st.CanSend(value) && if i == 0 then st.CanSend(name) else name == []
  }

  predicate RepOk(st: Style, r: Rep) {
    match r
    case Indexed(i) => i < Pow2(63)
    case Incremental(i, n, v) => NameValueOk(st, i, n, v)
    case Literal(_, i, n, v) => NameValueOk(st, i, n, v)
    case Capacity(c) => c < Pow2(64)
  }

  /** readNameValue, short of looking the name up. */
  function TakeNameValue(root: Node, bits: seq<bool>, prefix: nat): Parsed<(nat, Str, Str)>
    requires 1 <= prefix <= 8
  {
    match DecodeIndex(bits, prefix)
    case Err(e) => Err(e)
    case Ok((i, rest)) =>
      if i == 0 then
        match TakePair(root, rest, 7)
        case Err(e) => Err(e)
        case Ok(((n, v), after)) => Ok(((i, n, v), after))
      else
        match TakeString(root, rest, 7)
        case Err(e) => Err(e)
        case Ok((v, after)) => Ok(((i, [], v), after))
  }

  function NumberRep(r: Parsed<nat>, capacity: bool): Parsed<Rep> {
    match r
    case Err(e) => Err(e)
    case Ok((i, rest)) => Ok((if capacity then Capacity(i) else Indexed(i), rest))
  }

  function NameValueRep(r: Parsed<(nat, Str, Str)>, insert: bool, never: bool): Parsed<Rep> {
    match r
    case Err(e) => Err(e)
    case Ok(((i, n, v), rest)) => Ok((if insert then Incremental(i, n, v) else Literal(never, i, n, v), rest))
  }

  /** Bit by bit, as ReadHeaderBlock tells the representations apart. */
  function ParseRep(root: Node, bits: seq<bool>): Parsed<Rep> {
    if bits == [] then Err(EndOfInput)
    else if bits[0] then NumberRep(DecodeIndex(bits[1..], 7), false)
    else if |bits| < 2 then Err(EndOfInput)
    else if bits[1] then NameValueRep(TakeNameValue(root, bits[2..], 6), true, false)
    else if |bits| < 3 then Err(EndOfInput)
    else if bits[2] then NumberRep(DecodeInt(bits[3..], 5), true)
    else if |bits| < 4 then Err(EndOfInput)
    else NameValueRep(TakeNameValue(root, bits[4..], 4), false, bits[3])
  }

  lemma NameValueRoundTrip(st: Style, root: Node, i: nat, n: Str, v: Str, prefix: nat, rest: seq<bool>)
    requires TableOk(st.t) && Tree(st.t, [], root) && 1 <= prefix <= 8 && NameValueOk(st, i, n, v)
    ensures TakeNameValue(root, PutNameValue(st, i, n, v, prefix) + rest, prefix) == Ok(((i, n, v), rest))
  {
    hide TableOk, Tree, EncodeInt, DecodeIndex, TakeString, TakePair, EncodeString;
    var tail := (if i == 0 then st.Put(n, 7) else []) + st.Put(v, 7);
    Assoc(EncodeInt(i, prefix), tail, rest);
    TakeIndex(i, prefix, tail + rest);
    if i == 0 {
      PairRoundTrip(st, root, n, v, 7, rest);
    } else {
      assert tail == st.Put(v, 7);
      TakePut(st, root, v, 7, rest);
    }
  }

  /** The leading bits decide the representation. */
  lemma Heads(root: Node, body: seq<bool>, never: bool)
    ensures ParseRep(root, [true] + body) == NumberRep(DecodeIndex(body, 7), false)
    ensures ParseRep(root, [false, true] + body) == NameValueRep(TakeNameValue(root, body, 6), true, false)
    ensures ParseRep(root, [false, false, true] + body) == NumberRep(DecodeInt(body, 5), true)
    ensures ParseRep(root, [false, false, false, never] + body) == NameValueRep(TakeNameValue(root, body, 4), false, never)
  {
    hide DecodeInt, DecodeIndex, TakeNameValue, NumberRep, NameValueRep;
    assert ([true] + body)[1..] == body;
    assert ([false, true] + body)[2..] == body;
    assert ([false, false, true] + body)[3..] == body;
    assert ([false, false, false, never] + body)[4..] == body;
  }

  /** A representation reads back, whatever follows it. */
  lemma RepBitsRoundTrip(st: Style, root: Node, r: Rep, rest: seq<bool>)
    requires TableOk(st.t) && Tree(st.t, [], root) && RepOk(st, r)
    ensures ParseRep(root, EncodeRep(st, r) + rest) == Ok((r, rest))
  {
    hide TableOk, Tree, EncodeInt, DecodeInt, DecodeIndex, TakeNameValue, PutNameValue, ParseRep, NameValueOk, Pow2;
    match r
    case Indexed(i) =>
      Assoc([true], EncodeInt(i, 7), rest);
      Heads(root, EncodeInt(i, 7) + rest, false);
      TakeIndex(i, 7, rest);
    case Incremental(i, n, v) =>
      Assoc([false, true], PutNameValue(st, i, n, v, 6), rest);
      Heads(root, PutNameValue(st, i, n, v, 6) + rest, false);
      NameValueRoundTrip(st, root, i, n, v, 6, rest);
    case Literal(never, i, n, v) =>
      Assoc([false, false, false, never], PutNameValue(st, i, n, v, 4), rest);
      Heads(root, PutNameValue(st, i, n, v, 4) + rest, never);
      NameValueRoundTrip(st, root, i, n, v, 4, rest);
    case Capacity(c) =>
      Assoc([false, false, true], EncodeInt(c, 5), rest);
      Heads(root, EncodeInt(c, 5) + rest, false);
      IntRoundTrip(c, 5, rest);
  }

  lemma NameValueAligned(st: Style, i: nat, n: Str, v: Str, prefix: nat)
    ensures |PutNameValue(st, i, n, v, prefix)| % 8 == prefix % 8
  {
    hide EncodeInt, EncodeString;
    IntAligned(i, prefix);
    StringAligned(st, n, 7);
    StringAligned(st, v, 7);
  }

  /** Every representation ends on an octet boundary. */
  lemma RepAligned(st: Style, r: Rep)
    ensures |EncodeRep(st, r)| % 8 == 0 && EncodeRep(st, r) != []
  {
    hide EncodeInt, PutNameValue;
    match r
    case Indexed(i) =>
      IntAligned(i, 7);
      Whole([true], EncodeInt(i, 7), 7);
    case Incremental(i, n, v) =>
      NameValueAligned(st, i, n, v, 6);
      Whole([false, true], PutNameValue(st, i, n, v, 6), 6);
    case Literal(never, i, n, v) =>
      NameValueAligned(st, i, n, v, 4);
      Whole([false, false, false, never], PutNameValue(st, i, n, v, 4), 4);
    case Capacity(c) =>
      IntAligned(c, 5);
      Whole([false, false, true], EncodeInt(c, 5), 5);
  }

  function EncodeReps(st: Style, rs: seq<Rep>): seq<bool> {
    EncodeAll((r: Rep) => EncodeRep(st, r), rs)
  }

  function ParseReps(root: Node, bits: seq<bool>): Result<seq<Rep>> {
    DecodeAll((bs: seq<bool>) => ParseRep(root, bs), bits)
  }

  lemma RepsBitsRoundTrip(st: Style, root: Node, rs: seq<Rep>)
    requires TableOk(st.t) && Tree(st.t, [], root) && (forall i :: 0 <= i < |rs| ==> RepOk(st, rs[i]))
    ensures ParseReps(root, EncodeReps(st, rs)) == Ok(rs)
    ensures |EncodeReps(st, rs)| % 8 == 0
  {
    hide TableOk, Tree, EncodeRep, ParseRep, RepOk;
    var enc, dec := (r: Rep) => EncodeRep(st, r), (bs: seq<bool>) => ParseRep(root, bs);
    forall i, rest: seq<bool> | 0 <= i < |rs| ensures dec(enc(rs[i]) + rest) == Ok((rs[i], rest)) {
      RepBitsRoundTrip(st, root, rs[i], rest);
    }
    forall i | 0 <= i < |rs| ensures enc(rs[i]) != [] && |enc(rs[i])| % 8 == 0 {
      RepAligned(st, rs[i]);
    }
    AllRoundTrip(enc, dec, rs);
    AllAligned(enc, rs);
  }

  // ---- a header block, from fields to octets and back ----

  /** What the decoder makes of the octets of a block. */
  function ReadOctets(statics: seq<Pair>, t: Tab, root: Node, bits: seq<bool>): Option<Decoded>
    requires t.Ok()
  {
    match ParseReps(root, bits)
    case Err(_) => None
    case Ok(rs) => DecodeReps(statics, t, rs)
  }

  /** The indices of a table of this capacity fit in the integers of the source. */
  ghost predicate IndicesFit(statics: seq<Pair>, cap: nat) {
    |statics| + cap / ENTRY_OVERHEAD < Pow2(63)
  }

  /** An index that denotes an entry is bounded by the static table and the capacity. */
  lemma IndexBound(statics: seq<Pair>, t: Tab, i: nat)
    requires t.Ok() && Get(statics, t, i).Some?
    ensures i <= |statics| + t.cap / ENTRY_OVERHEAD
  {
    NewestMonotone(t.hist, 0, t.live);
  }

  lemma PlanRepOk(st: Style, statics: seq<Pair>, t: Tab, f: Field, p: Plan)
    requires t.Ok() && PlanOk(statics, t, f, p) && st.CanSend(f.name) && st.CanSend(f.value)
    requires IndicesFit(statics, t.cap)
    ensures RepOk(st, RepFor(f, p))
  {
    hide Get, Pow2, EncodeString;
    match p
    case UseIndex(i) => IndexBound(statics, t, i);
    case UseInsert(n) => if n != 0 { IndexBound(statics, t, n); }
    case UseLiteral(n) => if n != 0 { IndexBound(statics, t, n); }
  }

  lemma {:induction false} PlansRepsOk(st: Style, statics: seq<Pair>, t: Tab, fs: seq<Field>, ps: seq<Plan>, i: nat)
    requires t.Ok() && |ps| == |fs| && i < |fs| && PlansOk(statics, t, fs, ps)
    requires st.CanSend(fs[i].name) && st.CanSend(fs[i].value)
    requires IndicesFit(statics, t.cap)
    ensures RepOk(st, RepFor(fs[i], ps[i]))
    decreases i
  {
    hide RepOk, PlanOk, RepFor, TableAfter, IndicesFit, Get, EncodeString, Survives, Writable;
    if i == 0 {
      PlanRepOk(st, statics, t, fs[0], ps[0]);
    } else {
      AfterCapacity(t, fs[0], ps[0]);
      PlansRepsOk(st, statics, TableAfter(t, fs[0], ps[0]), fs[1..], ps[1..], i - 1);
    }
  }

  lemma AfterCapacity(t: Tab, f: Field, p: Plan)
    requires t.Ok()
    ensures TableAfter(t, f, p).cap == t.cap
  {
  }

  /** The octets of a block, read by a decoder whose table is the encoder's, give the
      fields with their sensitive flags and leave both tables equal. */
  lemma OctetsRoundTrip(st: Style, root: Node, statics: seq<Pair>, e: Enc, fs: seq<Field>, ps: seq<Plan>)
    requires TableOk(st.t) && Tree(st.t, [], root)
    requires e.Ok() && Sendable(statics, e, fs, ps) && FieldsSendable(st, fs)
    requires e.min < Pow2(64) && e.next < Pow2(64) && IndicesFit(statics, e.next)
    ensures ReadOctets(statics, e.t, root, EncodeReps(st, BlockReps(e, fs, ps)))
         == Some(Decoded(AfterBlock(e, fs, ps).t, fs))
  {
    hide TableOk, Tree, RepOk, EncodeReps, ParseReps, DecodeReps, PlansOk, BlockReps, AfterBlock, Pow2;
    BlockRepsOk(st, statics, e, fs, ps);
    RepsBitsRoundTrip(st, root, BlockReps(e, fs, ps));
    BlockRoundTrip(statics, e, fs, ps);
  }

  lemma BlockRepsOk(st: Style, statics: seq<Pair>, e: Enc, fs: seq<Field>, ps: seq<Plan>)
    requires e.Ok() && Sendable(statics, e, fs, ps) && FieldsSendable(st, fs)
    requires e.min < Pow2(64) && e.next < Pow2(64) && IndicesFit(statics, e.next)
    ensures forall i :: 0 <= i < |BlockReps(e, fs, ps)| ==> RepOk(st, BlockReps(e, fs, ps)[i])
  {
    hide RepOk, PlansOk, RepFor, Pow2;
    var first, more := CapacityReps(e), RepsFor(fs, ps);
    forall i | 0 <= i < |more| ensures RepOk(st, more[i]) {
      PlansRepsOk(st, statics, Resized(e).t, fs, ps, i);
    }
    forall i | 0 <= i < |first| ensures RepOk(st, first[i]) {
      CapacityRepOk(st, e, i);
    }
    assert forall i :: |first| <= i < |first + more| ==> (first + more)[i] == more[i - |first|];
  }

  lemma CapacityRepOk(st: Style, e: Enc, i: nat)
    requires i < |CapacityReps(e)| && e.min < Pow2(64) && e.next < Pow2(64)
    ensures RepOk(st, CapacityReps(e)[i])
  {
    hide Pow2;
  }
}
