/** The first octet of everything that is sent, as a number: what tells a receiver the
    representation (sections 5 and 6 of RFC 7541 for HPACK). */
module LeadingOctets {
  import opened Headers
  import opened Bits
  import opened HpackInt
  import opened HpackString
  import opened Hpack
  import opened HpackWire
  import opened QpackSyntax
  import opened QpackWire
  import opened Wire

  /** The number that the first eight bits spell. */
  function Lead(bits: seq<bool>): nat {
    if |bits| < 8 then 0 else FromBits(bits[..8])
  }

  function Flag(b: bool, v: nat): nat {
    if b then v else 0
  }

  /** How many octets a string is sent in. */
  function Sent(st: Style, s: Str): nat {
    |Body(st.t, s, st.c)| / 8
  }

  /** The mark of a string that is compressed. */
  function Packs(st: Style, s: Str): bool {
    UseHuffman(st.t, s, st.c)
  }

  /** A number after some bits fills up the first octet, as far as it fits. */
  lemma HeadOctet(head: seq<bool>, p: nat, prefix: nat, rest: seq<bool>)
    requires |head| + prefix == 8
    ensures Lead(head + (EncodeInt(p, prefix) + rest)) == FromBits(head) * Pow2(prefix) + Min(p, Ones(prefix))
    ensures Lead(head + EncodeInt(p, prefix)) == FromBits(head) * Pow2(prefix) + Min(p, Ones(prefix))
  {
    hide FromBits, Pow2, ToBits, OctetBits, TailOctets;
    var v := Min(p, Ones(prefix));
    assert (head + (EncodeInt(p, prefix) + rest))[..8] == head + ToBits(v, prefix) == (head + EncodeInt(p, prefix))[..8];
    JoinedBits(head, v, prefix);
  }

  lemma JoinedBits(head: seq<bool>, v: nat, prefix: nat)
    requires v < Pow2(prefix)
    ensures FromBits(head + ToBits(v, prefix)) == FromBits(head) * Pow2(prefix) + v
  {
    hide FromBits, Pow2, ToBits, Low;
    var n, m := FromBits(head), |head| + prefix;
    ToFromBits(head);
    ToBitsJoin(n, v, |head|, prefix);
    FromToBits(n * Pow2(prefix) + v, m);
    Joined(n, v, |head|, prefix);
    LowSmall(n * Pow2(prefix) + v, m);
  }

  lemma Joined(n: nat, v: nat, a: nat, b: nat)
    requires n < Pow2(a) && v < Pow2(b)
    ensures n * Pow2(b) + v < Pow2(a + b)
  {
    hide Pow2;
    PowAdd(a, b);
    var p, q := Pow2(a), Pow2(b);
    assert (n + 1) * q <= p * q;
  }

  lemma FewBits(a: bool, b: bool, c: bool, d: bool, e: bool)
    ensures FromBits([a]) == Flag(a, 1) && FromBits([a, b]) == Flag(a, 2) + Flag(b, 1)
    ensures FromBits([a, b, c]) == Flag(a, 4) + Flag(b, 2) + Flag(c, 1)
    ensures FromBits([a, b, c, d]) == Flag(a, 8) + Flag(b, 4) + Flag(c, 2) + Flag(d, 1)
    ensures FromBits([a, b, c, d, e]) == Flag(a, 16) + Flag(b, 8) + Flag(c, 4) + Flag(d, 2) + Flag(e, 1)
  {
    assert FromBits([]) == 0;
    assert [a][..0] == [] && [a, b][..1] == [a] && [a, b, c][..2] == [a, b];
    assert [a, b, c, d][..3] == [a, b, c] && [a, b, c, d, e][..4] == [a, b, c, d];
  }

  /** The first octet of what begins with a string after `head`. */
  lemma StringOctet(st: Style, head: seq<bool>, s: Str, prefix: nat, rest: seq<bool>)
    requires |head| + 1 + prefix == 8
    ensures Lead(head + (st.Put(s, prefix) + rest)) == FromBits(head + [Packs(st, s)]) * Pow2(prefix) + Min(Sent(st, s), Ones(prefix))
  {
    hide FromBits, EncodeInt, Pow2;
    var more := Body(st.t, s, st.c) + rest;
    assert head + (st.Put(s, prefix) + rest) == (head + [Packs(st, s)]) + (EncodeInt(Sent(st, s), prefix) + more);
    HeadOctet(head + [Packs(st, s)], Sent(st, s), prefix, more);
  }

  /** The representations of a QPACK header block. */
  function LineOctet(st: Style, l: Line): nat {
    match l
    case IndexedStatic(i) => 0xc0 + Min(i, 0x3f)
    case IndexedDynamic(i) => 0x80 + Min(i, 0x3f)
    case IndexedPostBase(i) => 0x10 + Min(i, 0x0f)
    case NameStatic(i, _, n) => 0x50 + Flag(n, 0x20) + Min(i, 0x0f)
    case NameDynamic(i, _, n) => 0x40 + Flag(n, 0x20) + Min(i, 0x0f)
    case NamePostBase(i, _, n) => Flag(n, 0x08) + Min(i, 0x07)
    case NameLiteral(m, _, n) => 0x20 + Flag(n, 0x10) + Flag(Packs(st, m), 0x08) + Min(Sent(st, m), 0x07)
  }

  lemma LineLead(st: Style, l: Line)
    ensures Lead(EncodeLine(st, l)) == LineOctet(st, l)
  {
    hide FromBits, EncodeInt, EncodeString, Pow2, Lead, LineOctet;
    match l
    case NameStatic(_, _, _) => NameLead(st, l);
    case NameDynamic(_, _, _) => NameLead(st, l);
    case NamePostBase(_, _, _) => NameLead(st, l);
    case NameLiteral(m, v, n) => LiteralLead(st, m, v, n);
    case _ => IndexedLead(st, l);
  }

  lemma IndexedLead(st: Style, l: Line)
    requires l.IndexedStatic? || l.IndexedDynamic? || l.IndexedPostBase?
    ensures Lead(EncodeLine(st, l)) == LineOctet(st, l)
  {
    hide FromBits, EncodeInt, EncodeString, Pow2, Lead;
    Powers();
    match l
    case IndexedStatic(i) => FewBits(true, true, false, false, false); HeadOctet([true, true], i, 6, []);
    case IndexedDynamic(i) => FewBits(true, false, false, false, false); HeadOctet([true, false], i, 6, []);
    case IndexedPostBase(i) => FewBits(false, false, false, true, false); HeadOctet([false, false, false, true], i, 4, []);
  }

  lemma NameLead(st: Style, l: Line)
    requires l.NameStatic? || l.NameDynamic? || l.NamePostBase?
    ensures Lead(EncodeLine(st, l)) == LineOctet(st, l)
  {
    hide FromBits, EncodeInt, EncodeString, Pow2, Lead;
    Powers();
    match l
    case NameStatic(i, v, n) => FewBits(false, true, n, true, false); HeadOctet([false, true, n, true], i, 4, st.Put(v, 7));
    case NameDynamic(i, v, n) => FewBits(false, true, n, false, false); HeadOctet([false, true, n, false], i, 4, st.Put(v, 7));
    case NamePostBase(i, v, n) =>
      FewBits(false, false, false, false, n);
      HeadOctet([false, false, false, false, n], i, 3, st.Put(v, 7));
  }

  lemma LiteralLead(st: Style, m: Str, v: Str, n: bool)
    ensures Lead(EncodeLine(st, NameLiteral(m, v, n))) == LineOctet(st, NameLiteral(m, v, n))
  {
    hide FromBits, EncodeInt, EncodeString, Pow2, Lead, Body, UseHuffman;
    Powers();
    FewBits(false, false, true, n, Packs(st, m));
    assert [false, false, true, n] + [Packs(st, m)] == [false, false, true, n, Packs(st, m)];
    StringOctet(st, [false, false, true, n], m, 3, st.Put(v, 7));
  }

  /** The updates of the QPACK encoder. */
  lemma InstrLead(st: Style, u: Instr)
    ensures Lead(EncodeInstr(st, u)) ==
      match u
      case InsertNameStatic(i, _) => 0xc0 + Min(i, 0x3f)
      case InsertNameDynamic(i, _) => 0x80 + Min(i, 0x3f)
      case InsertLiteral(n, _) => 0x40 + Flag(Packs(st, n), 0x20) + Min(Sent(st, n), 0x1f)
      case Duplicate(i) => Min(i, 0x1f)
      case SetCapacity(c) => 0x20 + Min(c, 0x1f)
  {
    hide FromBits, EncodeInt, EncodeString, Pow2, Lead, Body, UseHuffman;
    Powers();
    match u
    case InsertNameStatic(i, v) => FewBits(true, true, false, false, false); HeadOctet([true, true], i, 6, st.Put(v, 7));
    case InsertNameDynamic(i, v) => FewBits(true, false, false, false, false); HeadOctet([true, false], i, 6, st.Put(v, 7));
    case InsertLiteral(n, v) =>
      FewBits(false, true, Packs(st, n), false, false);
      assert [false, true] + [Packs(st, n)] == [false, true, Packs(st, n)];
      StringOctet(st, [false, true], n, 5, st.Put(v, 7));
    case Duplicate(i) => FewBits(false, false, false, false, false); HeadOctet([false, false, false], i, 5, []);
    case SetCapacity(c) => FewBits(false, false, true, false, false); HeadOctet([false, false, true], c, 5, []);
  }

  /** The acknowledgments of the QPACK decoder. */
  lemma AckLead(a: Ack)
    ensures Lead(EncodeAck(a)) ==
      match a
      case AckBlock(s) => 0x80 + Min(s, 0x7f)
      case AckCancel(s) => 0x40 + Min(s, 0x3f)
      case AckInserts(v) => Min(v, 0x3f)
  {
    hide FromBits, EncodeInt, Pow2, Lead;
    Powers();
    match a
    case AckBlock(s) => FewBits(true, false, false, false, false); HeadOctet([true], s, 7, []);
    case AckCancel(s) => FewBits(false, true, false, false, false); HeadOctet([false, true], s, 6, []);
    case AckInserts(v) => FewBits(false, false, false, false, false); HeadOctet([false, false], v, 6, []);
  }

  /** The representations of HPACK. */
  lemma RepLead(st: Style, r: Rep)
    ensures Lead(EncodeRep(st, r)) ==
      match r
      case Indexed(i) => 0x80 + Min(i, 0x7f)
      case Incremental(i, _, _) => 0x40 + Min(i, 0x3f)
      case Literal(never, i, _, _) => Flag(never, 0x10) + Min(i, 0x0f)
      case Capacity(c) => 0x20 + Min(c, 0x1f)
  {
    hide FromBits, EncodeInt, EncodeString, Pow2, Lead;
    Powers();
    match r
    case Indexed(i) => FewBits(true, false, false, false, false); HeadOctet([true], i, 7, []);
    case Incremental(i, n, v) =>
      FewBits(false, true, false, false, false);
      HeadOctet([false, true], i, 6, (if i == 0 then st.Put(n, 7) else []) + st.Put(v, 7));
    case Literal(never, i, n, v) =>
      FewBits(false, false, false, never, false);
      HeadOctet([false, false, false, never], i, 4, (if i == 0 then st.Put(n, 7) else []) + st.Put(v, 7));
    case Capacity(c) => FewBits(false, false, true, false, false); HeadOctet([false, false, true], c, 5, []);
  }
}
