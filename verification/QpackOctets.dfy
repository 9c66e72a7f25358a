/** QPACK from header fields to octets and back, in every reachable state. */
module QpackOctets {
  import opened Headers
  import opened History
  import opened TableSpec
  import opened Bits
  import opened Huffman
  import opened QpackSyntax
  import opened QpackReader
  import QpackWriter
  import opened QpackBlock
  import opened QpackUsage
  import opened QpackProtocol
  import opened AckWriter
  import opened QpackRuns
  import opened QpackAcks
  import opened QpackWire
  import opened QpackDecoder
  import opened Seqs
  import opened Wire

  ghost predicate PairsSendable(st: Style, h: Hist) {
    forall i :: 0 <= i < |h| ==> st.CanSend(h[i].name) && st.CanSend(h[i].value)
  }

  /** Indices fit in the integers of the source. */
  ghost predicate Fits(k: Config) {
    |k.statics| < Pow2(63) && k.cap < Pow2(63)
  }

  lemma LiveIndexFits(k: Config, h: Hist, largest: nat, b: nat)
    requires Fits(k) && Live(h, k.cap, b) && b <= largest <= |h|
    ensures largest - b < Pow2(63)
  {
    hide Pow2;
    LiveIsNewest(h, k.cap, b);
    LiveCountBound(h, k.cap);
  }

  lemma {:induction false} LineForOk(k: Config, h: Hist, st: Style, largest: nat, f: Field, ch: QpackWriter.Choice)
    requires Fits(k) && QpackWriter.ChoiceOk(k.statics, h, f, ch) && largest <= |h|
    requires forall b :: b in QpackWriter.ChoiceRefs(ch) ==> b <= largest && Live(h, k.cap, b)
    requires st.CanSend(f.name) && st.CanSend(f.value)
    ensures LineOk(st, LineFor(largest, f, ch))
  {
    hide Pow2, Live;
    if !ch.Plain? && ch.r.Dynamic? {
      assert ch.r.base in QpackWriter.ChoiceRefs(ch);
      LiveIndexFits(k, h, largest, ch.r.base);
    }
  }

  lemma {:induction false} SafeLineOk(k: Config, h: Hist, st: Style, x: Sent, j: nat)
    requires Fits(k) && SentOk(k.statics, k.cap, h, x) && AllLive(h, k.cap, QpackWriter.Refs(x.choices)) && j < |x.fields|
    requires st.CanSend(x.fields[j].name) && st.CanSend(x.fields[j].value)
    ensures LineOk(st, x.block.lines[j])
  {
    hide Fits, Live, LineOk, QpackWriter.ChoiceOk;
    NoPostBase(k.statics, k.cap, h, x, j);
    forall b | b in QpackWriter.ChoiceRefs(x.choices[j]) ensures Live(h, k.cap, b) {
      QpackWriter.RefsIn(x.choices, j, b);
    }
    LineForOk(k, h, st, x.largest, x.fields[j], x.choices[j]);
  }

  lemma LargestFits(k: Config, largest: nat)
    requires Fits(k) && (largest > 0 ==> k.cap >= ENTRY_OVERHEAD)
    ensures EncodeLargest(k.cap, largest) < Pow2(64)
  {
    hide Pow2;
    PowMonotone(63, 64);
    if largest > 0 {
      assert largest % (2 * (k.cap / ENTRY_OVERHEAD)) < 2 * (k.cap / ENTRY_OVERHEAD);
    }
  }

  lemma SafeBlockOk(k: Config, h: Hist, st: Style, x: Sent)
    requires Fits(k) && SentOk(k.statics, k.cap, h, x) && AllLive(h, k.cap, QpackWriter.Refs(x.choices))
    requires FieldsSendable(st, x.fields)
    ensures QpackWire.BlockOk(st, x.block)
  {
    hide Pow2, LineOk, LineFor, AllLive, EncodeLargest, QpackWriter.ChoiceOk;
    LargestFits(k, x.largest);
    forall j | 0 <= j < |x.block.lines| ensures LineOk(st, x.block.lines[j]) {
      SafeLineOk(k, h, st, x, j);
    }
  }

  /** What the decoder's ReadHeaderBlock makes of the octets of a block. */
  function ReadOctets(statics: seq<Pair>, t: Tab, root: Node, bits: seq<bool>): QpackDecoder.Outcome
    requires t.Ok()
  {
    match DecodeBlock(root, bits)
    case Err(_) => Malformed
    case Ok(b) => BlockRead(statics, t, b)
  }

  /** In every reachable state, the octets of every safe block in flight are read as
      the header list it was written for, with names in lower case and the sensitive
      flags kept, or make the decoder wait for exactly the largest reference; that is so
      exactly if it is not too far ahead. */
  lemma {:induction false} OctetsAreExact(k: Config, maxBlocked: nat, xs: seq<Sys>, acts: seq<Action>, i: nat, s: Stream, j: nat, st: Style, root: Node)
    requires Run(k, maxBlocked, xs, acts) && i < |xs|
    requires s in xs[i].flight && j < |xs[i].flight[s]| && xs[i].flight[s][j].safe
    requires TableOk(st.t) && Tree(st.t, [], root) && Fits(k)
    requires FieldsSendable(st, LowerAll(xs[i].flight[s][j].raw))
    ensures
      var x, f := xs[i], xs[i].flight[s][j];
      && x.dec.Ok()
      && (ReadOctets(k.statics, x.dec, root, EncodeBlock(st, f.sent.block))
          == (if f.sent.largest <= |x.dec.hist| then Fields(LowerAll(f.raw), f.sent.largest) else Wait(f.sent.largest))
          <==> Reaches(k.cap, |x.dec.hist|, f.sent.largest))
  {
    hide TableOk, Tree, EncodeBlock, DecodeBlock, Step, ReadLine, LinesRead, DecodeLargest, ReadBase, SentOk, AllLive, StreamOk, Pow2, Reaches;
    hide QpackWriter.InstrsOk;
    RunOk(k, maxBlocked, xs, acts, i, false);
    var x, f := xs[i], xs[i].flight[s][j];
    assert FlyingOk(k, x, f, false);
    SafeBlocksStayReadable(k, maxBlocked, xs, acts, i, s, j);
    SafeBlockOk(k, x.enc.hist, st, f.sent);
    BlockRoundTrip(st, root, f.sent.block);
    if f.sent.largest <= |x.dec.hist| {
      LinesReadAll(k.statics, x.dec, f.sent.largest, f.sent.block.lines, f.sent.fields);
    }
  }

  // ---- the update stream ----

  lemma HeldIndexFits(k: Config, t: Tab, i: nat)
    requires Fits(k) && t.Ok() && t.cap == k.cap && t.GetDynamic(i, t.Base()).Some?
    ensures i < Pow2(63)
  {
    hide Pow2;
    NewestMonotone(t.hist, 0, t.live);
  }

  lemma UpdateFits(k: Config, h: Hist, st: Style, n: nat, u: Instr)
    requires Fits(k) && PairsSendable(st, h) && QpackWriter.InstrOk(k.statics, k.cap, h, n, u)
    ensures QpackWire.InstrOk(st, u)
  {
    hide Pow2, LiveCount;
    var t := Canon(h[..n], k.cap);
    assert Update(k.statics, t, u).value.hist == h[..n + 1];
    assert h[..n + 1][n] == h[n];
    if u.InsertNameDynamic? || u.Duplicate? {
      HeldIndexFits(k, t, u.index);
    }
  }

  lemma {:induction false} AllAtIndex<T>(p: (nat, T) -> bool, k: nat, us: seq<T>, j: nat)
    requires AllAt(p, k, us) && j < |us|
    ensures p(k + j, us[j])
    decreases j
  {
    if j > 0 {
      AllAtIndex(p, k + 1, us[1..], j - 1);
    }
  }

  lemma {:induction false} UpdatesFit(k: Config, x: Sys, st: Style)
    requires Fits(k) && PairsSendable(st, x.enc.hist) && TablesOk(k, x)
    ensures forall j :: 0 <= j < |x.updates| ==> QpackWire.InstrOk(st, x.updates[j])
  {
    hide QpackWire.InstrOk, QpackWriter.InstrOk, Fits, PairsSendable;
    forall j | 0 <= j < |x.updates| ensures QpackWire.InstrOk(st, x.updates[j]) {
      AllAtIndex(QpackWriter.Follows(k.statics, k.cap, x.enc.hist), |x.dec.hist|, x.updates, j);
      UpdateFits(k, x.enc.hist, st, |x.dec.hist| + j, x.updates[j]);
    }
  }

  /** In every reachable state, the octets of the updates in flight take the decoder's
      table to the encoder's. */
  lemma {:induction false} UpdateOctetsFollow(k: Config, maxBlocked: nat, xs: seq<Sys>, acts: seq<Action>, i: nat, st: Style, root: Node)
    requires Run(k, maxBlocked, xs, acts) && i < |xs|
    requires TableOk(st.t) && Tree(st.t, [], root) && Fits(k) && PairsSendable(st, xs[i].enc.hist)
    ensures
      var x := xs[i];
      match DecodeAll((bs: seq<bool>) => DecodeInstr(root, bs), EncodeAll((u: Instr) => EncodeInstr(st, u), x.updates))
      case Err(_) => false
      case Ok(us) => Updates(k.statics, x.dec, us) == Some(Canon(x.enc.hist, k.cap))
  {
    hide TableOk, Tree, Run, DecodeAll, EncodeAll, QpackWire.InstrOk, QpackWriter.InstrsOk, EncOk, Updates, Fits, StreamOk, FlightOk, ReadingOk, DoneOk;
    var x := xs[i];
    RunOk(k, maxBlocked, xs, acts, i, false);
    UpdatesFit(k, x, st);
    InstrsRoundTrip(st, root, x.updates);
    DecoderFollows(k, maxBlocked, xs, acts, i);
  }

  // ---- the acknowledgment stream ----

  /** ServiceAcknowledgments: what a message read from the stream does. */
  function Serve(e: Enc, a: Ack): Enc {
    match a
    case AckBlock(s) => AckHeader(e, s)
    case AckCancel(s) => AckReset(e, s)
    case AckInserts(v) => AckInsert(e, v)
  }

  function ServeAll(e: Enc, acks: seq<Ack>): Enc
    decreases |acks|
  {
    if acks == [] then e else ServeAll(Serve(e, acks[0]), acks[1..])
  }

  /** What delivering the messages in flight does to the encoder. */
  function Delivered(x: Sys): Enc
    decreases |x.acks|
  {
    if x.acks == [] then x.enc else Delivered(DoDeliverAck(x))
  }

  function OnWireAll(ms: seq<Msg>): seq<Ack> {
    seq(|ms|, i requires 0 <= i < |ms| => OnWire(ms[i]))
  }

  lemma {:induction false} ServedAsDelivered(x: Sys)
    ensures ServeAll(x.enc, OnWireAll(x.acks)) == Delivered(x)
    decreases |x.acks|
  {
    hide AckHeader, AckReset, AckInsert;
    if x.acks != [] {
      assert OnWireAll(x.acks)[1..] == OnWireAll(x.acks[1..]);
      ServedAsDelivered(DoDeliverAck(x));
    }
  }

  lemma IncrementsFit(k: Config, x: Sys)
    requires SyncOk(x) && |x.dec.hist| < Pow2(64) && (forall m :: m in x.acks && !m.Increment? ==> m.s < Pow2(64))
    ensures forall i :: 0 <= i < |x.acks| ==> AckValue(OnWire(x.acks[i])) < Pow2(64)
  {
    hide Pow2;
    forall i | 0 <= i < |x.acks| ensures AckValue(OnWire(x.acks[i])) < Pow2(64) {
      assert x.acks[i] in x.acks;
    }
  }

  /** In every reachable state, the octets of the acknowledgments in flight read as
      messages that take the encoder where their delivery takes it. */
  lemma {:induction false} AckOctetsDeliver(k: Config, maxBlocked: nat, xs: seq<Sys>, acts: seq<Action>, i: nat)
    requires Run(k, maxBlocked, xs, acts) && i < |xs|
    requires |xs[i].dec.hist| < Pow2(64) && (forall m :: m in xs[i].acks && !m.Increment? ==> m.s < Pow2(64))
    ensures
      var x := xs[i];
      match DecodeAll((bs: seq<bool>) => DecodeAck(bs), EncodeAll((a: Ack) => EncodeAck(a), OnWireAll(x.acks)))
      case Err(_) => false
      case Ok(acks) => ServeAll(x.enc, acks) == Delivered(x)
  {
    hide Step, DecodeAll, EncodeAll, SyncOk, Pow2;
    var x := xs[i];
    IncrementsBounded(k, maxBlocked, xs, acts, i);
    IncrementsFit(k, x);
    AcksRoundTrip(OnWireAll(x.acks));
    ServedAsDelivered(x);
  }
}
