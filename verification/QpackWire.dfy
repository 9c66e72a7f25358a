/** The octets of QPACK: field lines, table updates and acknowledgments. */
module QpackWire {
  import opened Headers
  import opened Bits
  import opened BitIO
  import opened HpackInt
  import opened HpackString
  import opened Huffman
  import opened QpackSyntax
  import opened AckWriter
  import opened Seqs
  import opened Wire

  // ---- field lines (hc/qpackencoder.go:390-483, hc/qpackdecoder.go:244-349) ----

  function EncodeLine(st: Style, l: Line): seq<bool> {
    match l
    case IndexedStatic(i) => [true, true] + EncodeInt(i, 6)
    case IndexedDynamic(i) => [true, false] + EncodeInt(i, 6)
    case IndexedPostBase(i) => [false, false, false, true] + EncodeInt(i, 4)
    case NameStatic(i, v, n) => [false, true, n, true] + (EncodeInt(i, 4) + st.Put(v, 7))
    case NameDynamic(i, v, n) => [false, true, n, false] + (EncodeInt(i, 4) + st.Put(v, 7))
    case NamePostBase(i, v, n) => [false, false, false, false, n] + (EncodeInt(i, 3) + st.Put(v, 7))
    case NameLiteral(m, v, n) => [false, false, true, n] + (st.Put(m, 3) + st.Put(v, 7))
  }

  /** What can be sent: indices that fit, and strings that survive. */
  predicate LineOk(st: Style, l: Line) {
    match l
    case IndexedStatic(i) => i < Pow2(63)
    case IndexedDynamic(i) => i < Pow2(63)
    case IndexedPostBase(i) => i < Pow2(63)
    case NameStatic(i, v, _) => i < Pow2(63) && st.CanSend(v)
    case NameDynamic(i, v, _) => i < Pow2(63) && st.CanSend(v)
    case NamePostBase(i, v, _) => i < Pow2(63) && st.CanSend(v)
    case NameLiteral(m, v, _) => st.CanSend(m) && st.CanSend(v)
  }

  function IndexedLine(r: Parsed<nat>, statics: bool, post: bool): Parsed<Line> {
    match r
    case Err(e) => Err(e)
    case Ok((i, rest)) =>
      Ok((if post then IndexedPostBase(i) else if statics then IndexedStatic(i) else IndexedDynamic(i), rest))
  }

  function NamedLine(r: Parsed<(nat, Str)>, statics: bool, post: bool, n: bool): Parsed<Line> {
    match r
    case Err(e) => Err(e)
    case Ok(((i, v), rest)) =>
      Ok((if post then NamePostBase(i, v, n) else if statics then NameStatic(i, v, n) else NameDynamic(i, v, n), rest))
  }

  function LiteralLine(r: Parsed<(Str, Str)>, n: bool): Parsed<Line> {
    match r
    case Err(e) => Err(e)
    case Ok(((m, v), rest)) => Ok((NameLiteral(m, v, n), rest))
  }

  /** Bit by bit, as ReadHeaderBlock tells the representations apart. */
  function DecodeLine(root: Node, bits: seq<bool>): Parsed<Line> {
    if |bits| < 2 then Err(EndOfInput)
    else if bits[0] then IndexedLine(DecodeIndex(bits[2..], 6), bits[1], false)
    else if |bits| < 4 then Err(EndOfInput)
    else if bits[1] then NamedLine(TakeNamed(root, bits[4..], 4), bits[3], false, bits[2])
    else if bits[2] then LiteralLine(TakePair(root, bits[4..], 3), bits[3])
    else if bits[3] then IndexedLine(DecodeIndex(bits[4..], 4), false, true)
    else if |bits| < 5 then Err(EndOfInput)
    else NamedLine(TakeNamed(root, bits[5..], 3), false, true, bits[4])
  }

  /** The leading bits decide the representation. */
  lemma IndexedHeads(root: Node, body: seq<bool>, a: bool)
    ensures DecodeLine(root, [true, a] + body) == IndexedLine(DecodeIndex(body, 6), a, false)
    ensures DecodeLine(root, [false, false, false, true] + body) == IndexedLine(DecodeIndex(body, 4), false, true)
  {
    hide DecodeIndex, TakeNamed, TakePair, IndexedLine, NamedLine, LiteralLine;
    assert ([true, a] + body)[2..] == body;
    assert ([false, false, false, true] + body)[4..] == body;
  }

  lemma NameHeads(root: Node, body: seq<bool>, n: bool, a: bool)
    ensures DecodeLine(root, [false, true, n, a] + body) == NamedLine(TakeNamed(root, body, 4), a, false, n)
    ensures DecodeLine(root, [false, false, false, false, n] + body) == NamedLine(TakeNamed(root, body, 3), false, true, n)
    ensures DecodeLine(root, [false, false, true, n] + body) == LiteralLine(TakePair(root, body, 3), n)
  {
    hide DecodeIndex, TakeNamed, TakePair, IndexedLine, NamedLine, LiteralLine;
    assert ([false, true, n, a] + body)[4..] == body;
    assert ([false, false, false, false, n] + body)[5..] == body;
    assert ([false, false, true, n] + body)[4..] == body;
  }

  lemma IndexedRoundTrip(st: Style, root: Node, l: Line, rest: seq<bool>)
    requires LineOk(st, l) && (l.IndexedStatic? || l.IndexedDynamic? || l.IndexedPostBase?)
    ensures DecodeLine(root, EncodeLine(st, l) + rest) == Ok((l, rest))
  {
    hide EncodeInt, DecodeIndex, DecodeLine, Pow2;
    var n := if l.IndexedPostBase? then 4 else 6;
    var head := if l.IndexedPostBase? then [false, false, false, true] else [true, l.IndexedStatic?];
    Assoc(head, EncodeInt(l.index, n), rest);
    IndexedHeads(root, EncodeInt(l.index, n) + rest, l.IndexedStatic?);
    TakeIndex(l.index, n, rest);
  }

  lemma NameLineRoundTrip(st: Style, root: Node, l: Line, rest: seq<bool>)
    requires TableOk(st.t) && Tree(st.t, [], root)
    requires LineOk(st, l) && (l.NameStatic? || l.NameDynamic? || l.NamePostBase?)
    ensures DecodeLine(root, EncodeLine(st, l) + rest) == Ok((l, rest))
  {
    hide TableOk, Tree, EncodeInt, TakeNamed, EncodeString, DecodeLine, Pow2;
    var n := if l.NamePostBase? then 3 else 4;
    var head := if l.NamePostBase? then [false, false, false, false, l.sensitive] else [false, true, l.sensitive, l.NameStatic?];
    var body := EncodeInt(l.index, n) + st.Put(l.value, 7);
    assert EncodeLine(st, l) == head + body;
    Assoc(head, body, rest);
    NameHeads(root, body + rest, l.sensitive, l.NameStatic?);
    NamedRoundTrip(st, root, l.index, l.value, n, rest);
  }

  /** A field line reads back, whatever follows it. */
  lemma LineRoundTrip(st: Style, root: Node, l: Line, rest: seq<bool>)
    requires TableOk(st.t) && Tree(st.t, [], root) && LineOk(st, l)
    ensures DecodeLine(root, EncodeLine(st, l) + rest) == Ok((l, rest))
  {
    hide TableOk, Tree, EncodeInt, TakePair, EncodeString, DecodeLine, Pow2;
    if l.NameLiteral? {
      var body := st.Put(l.name, 3) + st.Put(l.value, 7);
      Assoc([false, false, true, l.sensitive], body, rest);
      NameHeads(root, body + rest, l.sensitive, false);
      PairRoundTrip(st, root, l.name, l.value, 3, rest);
    } else if l.NameStatic? || l.NameDynamic? || l.NamePostBase? {
      NameLineRoundTrip(st, root, l, rest);
    } else {
      IndexedRoundTrip(st, root, l, rest);
    }
  }

  lemma NamedAligned(st: Style, i: nat, v: Str, prefix: nat)
    ensures |EncodeInt(i, prefix) + st.Put(v, 7)| % 8 == prefix % 8
  {
    hide EncodeInt, EncodeString;
    IntAligned(i, prefix);
    StringAligned(st, v, 7);
  }

  /** Every line ends on an octet boundary, so a block needs no padding. */
  lemma LineAligned(st: Style, l: Line)
    ensures |EncodeLine(st, l)| % 8 == 0 && EncodeLine(st, l) != []
  {
    hide EncodeInt, EncodeString;
    match l
    case IndexedStatic(i) => IntAligned(i, 6); Whole([true, true], EncodeInt(i, 6), 6);
    case IndexedDynamic(i) => IntAligned(i, 6); Whole([true, false], EncodeInt(i, 6), 6);
    case IndexedPostBase(i) => IntAligned(i, 4); Whole([false, false, false, true], EncodeInt(i, 4), 4);
    case NameStatic(i, v, n) => NamedAligned(st, i, v, 4); Whole([false, true, n, true], EncodeInt(i, 4) + st.Put(v, 7), 4);
    case NameDynamic(i, v, n) => NamedAligned(st, i, v, 4); Whole([false, true, n, false], EncodeInt(i, 4) + st.Put(v, 7), 4);
    case NamePostBase(i, v, n) => NamedAligned(st, i, v, 3); Whole([false, false, false, false, n], EncodeInt(i, 3) + st.Put(v, 7), 3);
    case NameLiteral(m, v, n) =>
      StringAligned(st, m, 3);
      StringAligned(st, v, 7);
      Whole([false, false, true, n], st.Put(m, 3) + st.Put(v, 7), 4);
  }

  // ---- a header block ----

  function EncodeBlock(st: Style, b: Block): seq<bool> {
    EncodeInt(b.prefix.wrapped, 8) + (([b.prefix.negative] + EncodeInt(b.prefix.delta, 7)) + EncodeAll((l: Line) => EncodeLine(st, l), b.lines))
  }

  /** The encoder writes a zero with a prefix of eight bits where the decoder reads a
      sign and seven bits. */
  lemma PrefixAsWritten(st: Style, b: Block)
    requires !b.prefix.negative && b.prefix.delta == 0
    ensures EncodeBlock(st, b)
         == EncodeInt(b.prefix.wrapped, 8) + (EncodeInt(0, 8) + EncodeAll((l: Line) => EncodeLine(st, l), b.lines))
  {
    hide EncodeAll, EncodeLine;
    Powers();
    assert [false] + EncodeInt(0, 7) == EncodeInt(0, 8) by {
      ToBitsSplit(0, 1, 7);
      assert Shr(0, 7) == 0;
    }
  }

  function DecodeBlock(root: Node, bits: seq<bool>): Result<Block> {
    match DecodeInt(bits, 8)
    case Err(e) => Err(e)
    case Ok((w, rest)) =>
      if rest == [] then Err(EndOfInput)
      else
        match DecodeIndex(rest[1..], 7)
        case Err(e) => Err(e)
        case Ok((d, after)) =>
          match DecodeAll((bs: seq<bool>) => DecodeLine(root, bs), after)
          case Err(e) => Err(e)
          case Ok(ls) => Ok(Block(Prefix(w, rest[0], d), ls))
  }

  ghost predicate BlockOk(st: Style, b: Block) {
    && b.prefix.wrapped < Pow2(64) && b.prefix.delta < Pow2(63)
    && forall i :: 0 <= i < |b.lines| ==> LineOk(st, b.lines[i])
  }

  lemma LinesRoundTrip(st: Style, root: Node, ls: seq<Line>)
    requires TableOk(st.t) && Tree(st.t, [], root) && (forall i :: 0 <= i < |ls| ==> LineOk(st, ls[i]))
    ensures DecodeAll((bs: seq<bool>) => DecodeLine(root, bs), EncodeAll((l: Line) => EncodeLine(st, l), ls)) == Ok(ls)
  {
    hide TableOk, Tree, EncodeLine, DecodeLine, LineOk;
    var enc, dec := (l: Line) => EncodeLine(st, l), (bs: seq<bool>) => DecodeLine(root, bs);
    forall i, rest: seq<bool> | 0 <= i < |ls| ensures dec(enc(ls[i]) + rest) == Ok((ls[i], rest)) {
      LineRoundTrip(st, root, ls[i], rest);
    }
    forall i | 0 <= i < |ls| ensures enc(ls[i]) != [] {
      LineAligned(st, ls[i]);
    }
    AllRoundTrip(enc, dec, ls);
  }

  /** The octets of a header block give the block back, and are whole octets. */
  lemma BlockRoundTrip(st: Style, root: Node, b: Block)
    requires TableOk(st.t) && Tree(st.t, [], root) && BlockOk(st, b)
    ensures DecodeBlock(root, EncodeBlock(st, b)) == Ok(b)
    ensures |EncodeBlock(st, b)| % 8 == 0
  {
    hide TableOk, Tree, EncodeInt, DecodeInt, DecodeIndex, LineOk, EncodeAll, DecodeAll, Pow2;
    BlockAligned(st, b);
    var lines := EncodeAll((l: Line) => EncodeLine(st, l), b.lines);
    var sign := [b.prefix.negative];
    var delta := EncodeInt(b.prefix.delta, 7);
    IntRoundTrip(b.prefix.wrapped, 8, (sign + delta) + lines);
    Skip(sign, delta, lines);
    TakeIndex(b.prefix.delta, 7, lines);
    LinesRoundTrip(st, root, b.lines);
  }

  lemma BlockAligned(st: Style, b: Block)
    ensures |EncodeBlock(st, b)| % 8 == 0
  {
    hide EncodeInt, EncodeAll, EncodeLine;
    var enc := (l: Line) => EncodeLine(st, l);
    forall i | 0 <= i < |b.lines| ensures |enc(b.lines[i])| % 8 == 0 {
      LineAligned(st, b.lines[i]);
    }
    AllAligned(enc, b.lines);
    IntAligned(b.prefix.wrapped, 8);
    IntAligned(b.prefix.delta, 7);
    var base, lines := [b.prefix.negative] + EncodeInt(b.prefix.delta, 7), EncodeAll(enc, b.lines);
    Whole([b.prefix.negative], EncodeInt(b.prefix.delta, 7), 7);
    Joined(base, lines);
    Joined(EncodeInt(b.prefix.wrapped, 8), base + lines);
  }

  // ---- table updates (hc/qpackencoder.go:229-298, hc/qpackdecoder.go:126-242) ----

  function EncodeInstr(st: Style, u: Instr): seq<bool> {
    match u
    case InsertNameStatic(i, v) => [true, true] + (EncodeInt(i, 6) + st.Put(v, 7))
    case InsertNameDynamic(i, v) => [true, false] + (EncodeInt(i, 6) + st.Put(v, 7))
    case InsertLiteral(n, v) => [false, true] + (st.Put(n, 5) + st.Put(v, 7))
    case Duplicate(i) => [false, false, false] + EncodeInt(i, 5)
    case SetCapacity(c) => [false, false, true] + EncodeInt(c, 5)
  }

  predicate InstrOk(st: Style, u: Instr) {
    match u
    case InsertNameStatic(i, v) => i < Pow2(63) && st.CanSend(v)
    case InsertNameDynamic(i, v) => i < Pow2(63) && st.CanSend(v)
    case InsertLiteral(n, v) => st.CanSend(n) && st.CanSend(v)
    case Duplicate(i) => i < Pow2(63)
    case SetCapacity(c) => c < Pow2(64)
  }

  function NamedInstr(r: Parsed<(nat, Str)>, statics: bool): Parsed<Instr> {
    match r
    case Err(e) => Err(e)
    case Ok(((i, v), rest)) => Ok((if statics then InsertNameStatic(i, v) else InsertNameDynamic(i, v), rest))
  }

  function LiteralInstr(r: Parsed<(Str, Str)>): Parsed<Instr> {
    match r
    case Err(e) => Err(e)
    case Ok(((n, v), rest)) => Ok((InsertLiteral(n, v), rest))
  }

  function NumberInstr(r: Parsed<nat>, capacity: bool): Parsed<Instr> {
    match r
    case Err(e) => Err(e)
    case Ok((i, rest)) => Ok((if capacity then SetCapacity(i) else Duplicate(i), rest))
  }

  function DecodeInstr(root: Node, bits: seq<bool>): Parsed<Instr> {
    if |bits| < 2 then Err(EndOfInput)
    else if bits[0] then NamedInstr(TakeNamed(root, bits[2..], 6), bits[1])
    else if bits[1] then LiteralInstr(TakePair(root, bits[2..], 5))
    else if |bits| < 3 then Err(EndOfInput)
    else if bits[2] then NumberInstr(DecodeInt(bits[3..], 5), true)
    else NumberInstr(DecodeIndex(bits[3..], 5), false)
  }

  lemma InstrHeads(root: Node, body: seq<bool>, a: bool)
    ensures DecodeInstr(root, [true, a] + body) == NamedInstr(TakeNamed(root, body, 6), a)
    ensures DecodeInstr(root, [false, true] + body) == LiteralInstr(TakePair(root, body, 5))
    ensures DecodeInstr(root, [false, false, true] + body) == NumberInstr(DecodeInt(body, 5), true)
    ensures DecodeInstr(root, [false, false, false] + body) == NumberInstr(DecodeIndex(body, 5), false)
  {
    hide DecodeInt, DecodeIndex, TakeNamed, TakePair, NamedInstr, LiteralInstr, NumberInstr;
    assert ([true, a] + body)[2..] == body;
    assert ([false, true] + body)[2..] == body;
    assert ([false, false, true] + body)[3..] == body;
    assert ([false, false, false] + body)[3..] == body;
  }

  /** A table update reads back, whatever follows it. */
  lemma InstrRoundTrip(st: Style, root: Node, u: Instr, rest: seq<bool>)
    requires TableOk(st.t) && Tree(st.t, [], root) && InstrOk(st, u)
    ensures DecodeInstr(root, EncodeInstr(st, u) + rest) == Ok((u, rest))
  {
    hide TableOk, Tree, EncodeInt, DecodeInt, DecodeIndex, TakeNamed, TakePair, EncodeString, DecodeInstr, Pow2;
    match u
    case InsertNameStatic(i, v) =>
      Assoc([true, true], EncodeInt(i, 6) + st.Put(v, 7), rest);
      InstrHeads(root, (EncodeInt(i, 6) + st.Put(v, 7)) + rest, true);
      NamedRoundTrip(st, root, i, v, 6, rest);
    case InsertNameDynamic(i, v) =>
      Assoc([true, false], EncodeInt(i, 6) + st.Put(v, 7), rest);
      InstrHeads(root, (EncodeInt(i, 6) + st.Put(v, 7)) + rest, false);
      NamedRoundTrip(st, root, i, v, 6, rest);
    case InsertLiteral(n, v) =>
      Assoc([false, true], st.Put(n, 5) + st.Put(v, 7), rest);
      InstrHeads(root, (st.Put(n, 5) + st.Put(v, 7)) + rest, false);
      PairRoundTrip(st, root, n, v, 5, rest);
    case Duplicate(i) =>
      Assoc([false, false, false], EncodeInt(i, 5), rest);
      InstrHeads(root, EncodeInt(i, 5) + rest, false);
      TakeIndex(i, 5, rest);
    case SetCapacity(c) =>
      Assoc([false, false, true], EncodeInt(c, 5), rest);
      InstrHeads(root, EncodeInt(c, 5) + rest, false);
      IntRoundTrip(c, 5, rest);
  }

  /** A stream of table updates reads back as the same updates. */
  lemma InstrsRoundTrip(st: Style, root: Node, us: seq<Instr>)
    requires TableOk(st.t) && Tree(st.t, [], root) && (forall i :: 0 <= i < |us| ==> InstrOk(st, us[i]))
    ensures DecodeAll((bs: seq<bool>) => DecodeInstr(root, bs), EncodeAll((u: Instr) => EncodeInstr(st, u), us)) == Ok(us)
  {
    hide TableOk, Tree, EncodeInstr, DecodeInstr, InstrOk;
    var enc, dec := (u: Instr) => EncodeInstr(st, u), (bs: seq<bool>) => DecodeInstr(root, bs);
    forall i, rest: seq<bool> | 0 <= i < |us| ensures dec(enc(us[i]) + rest) == Ok((us[i], rest)) {
      InstrRoundTrip(st, root, us[i], rest);
    }
    forall i | 0 <= i < |us| ensures enc(us[i]) != [] {
      InstrNotEmpty(st, us[i]);
    }
    AllRoundTrip(enc, dec, us);
  }

  lemma InstrNotEmpty(st: Style, u: Instr)
    ensures EncodeInstr(st, u) != []
  {
  }

  // ---- acknowledgments (hc/qpackdecoder.go:57-117, hc/qpackencoder.go:166-200) ----

  datatype Ack = AckBlock(s: nat) | AckCancel(s: nat) | AckInserts(v: nat)

  /** What of a message goes on the wire. */
  function OnWire(m: Msg): Ack {
    match m
    case HeaderAck(s, _) => AckBlock(s)
    case StreamCancel(s) => AckCancel(s)
    case Increment(v) => AckInserts(v)
  }

  function EncodeAck(a: Ack): seq<bool> {
    match a
    case AckBlock(s) => [true] + EncodeInt(s, 7)
    case AckCancel(s) => [false, true] + EncodeInt(s, 6)
    case AckInserts(v) => [false, false] + EncodeInt(v, 6)
  }

  function AckOf(r: Parsed<nat>, block: bool, cancel: bool): Parsed<Ack> {
    match r
    case Err(e) => Err(e)
    case Ok((v, rest)) => Ok((if block then AckBlock(v) else if cancel then AckCancel(v) else AckInserts(v), rest))
  }

  function DecodeAck(bits: seq<bool>): Parsed<Ack> {
    if bits == [] then Err(EndOfInput)
    else if bits[0] then AckOf(DecodeInt(bits[1..], 7), true, false)
    else if |bits| < 2 then Err(EndOfInput)
    else AckOf(DecodeInt(bits[2..], 6), false, bits[1])
  }

  function AckValue(a: Ack): nat {
    match a
    case AckBlock(s) => s
    case AckCancel(s) => s
    case AckInserts(v) => v
  }

  lemma AckRoundTrip(a: Ack, rest: seq<bool>)
    requires AckValue(a) < Pow2(64)
    ensures DecodeAck(EncodeAck(a) + rest) == Ok((a, rest)) && EncodeAck(a) != []
  {
    hide EncodeInt, DecodeInt;
    match a
    case AckBlock(s) => Skip([true], EncodeInt(s, 7), rest); IntRoundTrip(s, 7, rest);
    case AckCancel(s) => Skip([false, true], EncodeInt(s, 6), rest); IntRoundTrip(s, 6, rest);
    case AckInserts(v) => Skip([false, false], EncodeInt(v, 6), rest); IntRoundTrip(v, 6, rest);
  }

  /** The acknowledgment stream reads back as what was sent. */
  lemma AcksRoundTrip(acks: seq<Ack>)
    requires forall i :: 0 <= i < |acks| ==> AckValue(acks[i]) < Pow2(64)
    ensures DecodeAll((bs: seq<bool>) => DecodeAck(bs), EncodeAll((a: Ack) => EncodeAck(a), acks)) == Ok(acks)
  {
    hide EncodeAck, DecodeAck;
    var enc, dec := (a: Ack) => EncodeAck(a), (bs: seq<bool>) => DecodeAck(bs);
    forall i, rest: seq<bool> | 0 <= i < |acks| ensures dec(enc(acks[i]) + rest) == Ok((acks[i], rest)) && enc(acks[i]) != [] {
      AckRoundTrip(acks[i], rest);
    }
    forall i | 0 <= i < |acks| ensures enc(acks[i]) != [] {
      AckRoundTrip(acks[i], []);
    }
    AllRoundTrip(enc, dec, acks);
  }
}
