/** Sequences of self-delimiting encodings on a bit stream. */
module Wire {
  import opened Headers
  import opened Bits
  import opened BitIO
  import opened Seqs
  import opened HpackInt
  import opened HpackString
  import opened Huffman

  function EncodeAll<T>(enc: T -> seq<bool>, xs: seq<T>): seq<bool> {
    if xs == [] then [] else enc(xs[0]) + EncodeAll(enc, xs[1..])
  }

  /** Decode until the stream ends. */
  function DecodeAll<T>(dec: seq<bool> -> Parsed<T>, bits: seq<bool>): Result<seq<T>>
    decreases |bits|
  {
    if bits == [] then Ok([])
    else
      match dec(bits)
      case Err(e) => Err(e)
      case Ok((x, rest)) =>
        if |rest| >= |bits| then Err(Invalid)
        else
          match DecodeAll(dec, rest)
          case Err(e) => Err(e)
          case Ok(xs) => Ok([x] + xs)
  }

  /** If the decoder takes back each encoding and leaves what follows, it takes back
      a sequence of them. */
  lemma {:induction false} AllRoundTrip<T>(enc: T -> seq<bool>, dec: seq<bool> -> Parsed<T>, xs: seq<T>)
    requires forall i, rest :: 0 <= i < |xs| ==> dec(enc(xs[i]) + rest) == Ok((xs[i], rest))
    requires forall i :: 0 <= i < |xs| ==> enc(xs[i]) != []
    ensures DecodeAll(dec, EncodeAll(enc, xs)) == Ok(xs)
  {
    if xs != [] {
      var rest := EncodeAll(enc, xs[1..]);
      assert dec(enc(xs[0]) + rest) == Ok((xs[0], rest));
      forall i, r: seq<bool> | 0 <= i < |xs[1..]| ensures dec(enc(xs[1..][i]) + r) == Ok((xs[1..][i], r)) {
        assert dec(enc(xs[i + 1]) + r) == Ok((xs[i + 1], r));
      }
      AllRoundTrip(enc, dec, xs[1..]);
      assert xs == [xs[0]] + xs[1..];
    }
  }

  /** Whole octets stay whole octets. */
  lemma {:induction false} AllAligned<T>(enc: T -> seq<bool>, xs: seq<T>)
    requires forall i :: 0 <= i < |xs| ==> |enc(xs[i])| % 8 == 0
    ensures |EncodeAll(enc, xs)| % 8 == 0
  {
    if xs != [] {
      AllAligned(enc, xs[1..]);
    }
  }

  /** How strings are written: the code table and the coding preference. */
  datatype Style = Style(t: Table, c: Coding) {
    predicate CanSend(s: Str) { Survives(s, c) && Writable(t, s, c) }
    function Put(s: Str, prefix: nat): seq<bool> { EncodeString(t, s, prefix, c) }
  }

  ghost predicate FieldsSendable(st: Style, fs: seq<Field>) {
    forall i :: 0 <= i < |fs| ==> st.CanSend(fs[i].name) && st.CanSend(fs[i].value)
  }

  function TakeString(root: Node, bits: seq<bool>, prefix: nat): (r: Parsed<Str>)
    requires 1 <= prefix <= 8
    ensures r.Ok? ==> |r.value.1| < |bits|
  {
    match DecodeString(root, bits, prefix)
    case Got(s, rest) => Ok((s, rest))
    case Failed(e) => Err(e)
    case Hidden => Err(Invalid)
  }

  lemma TakePut(st: Style, root: Node, s: Str, prefix: nat, rest: seq<bool>)
    requires TableOk(st.t) && Tree(st.t, [], root) && 1 <= prefix <= 8 && st.CanSend(s)
    ensures TakeString(root, st.Put(s, prefix) + rest, prefix) == Ok((s, rest))
  {
    StringRoundTrip(st.t, root, s, prefix, st.c, rest);
  }

  lemma TakeIndex(i: nat, prefix: nat, rest: seq<bool>)
    requires 1 <= prefix <= 8 && i < Pow2(63)
    ensures DecodeIndex(EncodeInt(i, prefix) + rest, prefix) == Ok((i, rest))
  {
    PowMonotone(63, 64);
    IntRoundTrip(i, prefix, rest);
  }

  lemma IntAligned(p: nat, prefix: nat)
    ensures |EncodeInt(p, prefix)| % 8 == prefix % 8
  {
    hide ToBits, OctetBits, TailOctets, Pow2;
    if p >= Ones(prefix) {
      OctetBitsLength(TailOctets(p - Ones(prefix)));
    }
  }

  lemma StringAligned(st: Style, s: Str, prefix: nat)
    ensures |st.Put(s, prefix)| % 8 == (1 + prefix) % 8
  {
    hide EncodeInt, Body, UseHuffman;
    var len, body := EncodeInt(|Body(st.t, s, st.c)| / 8, prefix), Body(st.t, s, st.c);
    IntAligned(|body| / 8, prefix);
    assert |st.Put(s, prefix)| == 1 + |len| + |body|;
    WholeTail(|len|, prefix, |body|);
  }

  lemma WholeTail(len: nat, prefix: nat, body: nat)
    requires len % 8 == prefix % 8 && body % 8 == 0
    ensures (1 + len + body) % 8 == (1 + prefix) % 8
  {
  }

  /** An index, then a string. */
  function TakeNamed(root: Node, bits: seq<bool>, prefix: nat): Parsed<(nat, Str)>
    requires 1 <= prefix <= 8
  {
    match DecodeIndex(bits, prefix)
    case Err(e) => Err(e)
    case Ok((i, rest)) =>
      match TakeString(root, rest, 7)
      case Err(e) => Err(e)
      case Ok((v, after)) => Ok(((i, v), after))
  }

  /** Two strings. */
  function TakePair(root: Node, bits: seq<bool>, prefix: nat): Parsed<(Str, Str)>
    requires 1 <= prefix <= 8
  {
    match TakeString(root, bits, prefix)
    case Err(e) => Err(e)
    case Ok((m, rest)) =>
      match TakeString(root, rest, 7)
      case Err(e) => Err(e)
      case Ok((v, after)) => Ok(((m, v), after))
  }

  lemma NamedRoundTrip(st: Style, root: Node, i: nat, v: Str, prefix: nat, rest: seq<bool>)
    requires TableOk(st.t) && Tree(st.t, [], root) && 1 <= prefix <= 8 && i < Pow2(63) && st.CanSend(v)
    ensures TakeNamed(root, (EncodeInt(i, prefix) + st.Put(v, 7)) + rest, prefix) == Ok(((i, v), rest))
  {
    hide TableOk, Tree, EncodeInt, DecodeIndex, TakeString;
    Assoc(EncodeInt(i, prefix), st.Put(v, 7), rest);
    TakeIndex(i, prefix, st.Put(v, 7) + rest);
    TakePut(st, root, v, 7, rest);
  }

  lemma PairRoundTrip(st: Style, root: Node, m: Str, v: Str, prefix: nat, rest: seq<bool>)
    requires TableOk(st.t) && Tree(st.t, [], root) && 1 <= prefix <= 8 && st.CanSend(m) && st.CanSend(v)
    ensures TakePair(root, (st.Put(m, prefix) + st.Put(v, 7)) + rest, prefix) == Ok(((m, v), rest))
  {
    hide TableOk, Tree, TakeString;
    Assoc(st.Put(m, prefix), st.Put(v, 7), rest);
    TakePut(st, root, m, prefix, st.Put(v, 7) + rest);
    TakePut(st, root, v, 7, rest);
  }

  /** Octets are whole when the head makes up what the body lacks. */
  lemma Whole(head: seq<bool>, body: seq<bool>, k: nat)
    requires |body| % 8 == k && |head| + k == 8
    ensures |head + body| % 8 == 0
  {
  }

  lemma Joined(a: seq<bool>, b: seq<bool>)
    requires |a| % 8 == 0 && |b| % 8 == 0
    ensures |a + b| % 8 == 0
  {
  }

  lemma Skip(head: seq<bool>, body: seq<bool>, rest: seq<bool>)
    ensures ((head + body) + rest)[|head|..] == body + rest
    ensures forall i :: 0 <= i < |head| ==> ((head + body) + rest)[i] == head[i]
    ensures |(head + body) + rest| >= |head|
  {
  }
}
