/** HPACK in lockstep: an encoder and a decoder that reads the octets of each block and
    checks them, for any sequence of header lists and capacity changes, whatever the
    encoder decides for each field and however it writes strings. */
module HpackRuns {
  import opened Headers
  import opened TableSpec
  import opened Bits
  import opened Huffman
  import opened HpackString
  import opened Hpack
  import opened HpackCodec
  import opened HpackWire
  import opened Wire
  import HuffmanTable

  /** What does not change: the static table, the code table, and the tree that strings
      are read with. */
  datatype Config = Config(statics: seq<Pair>, codes: Table, root: Node) {
    ghost predicate Ok() {
      TableOk(codes) && Tree(codes, [], root) && |statics| < Pow2(62)
    }
  }

  /** So it is with the code table in use and the tree built from it. */
  lemma StandardConfig(statics: seq<Pair>, root: Node)
    requires Tree(HuffmanTable.CODES, [], root) && |statics| < Pow2(62)
    ensures Config(statics, HuffmanTable.CODES, root).Ok()
  {
    hide TableOk, Tree;
    HuffmanTable.CodesMeetRequirements();
  }

  /** A list is sent with a decision for each field and a preference for Huffman coding;
      both may change from one list to the next. */
  datatype Op = Resize(c: nat) | Send(fs: seq<Field>, ps: seq<Plan>, coding: Coding)

  /** The encoder, the decoder's table, and what came of each block. */
  datatype Link = Link(enc: Enc, dec: Tab, read: seq<HpackCodec.Outcome>)

  function DoSend(k: Config, x: Link, fs: seq<Field>, ps: seq<Plan>, coding: Coding): Link
    requires x.enc.t.Ok() && x.dec.Ok() && |ps| == |fs|
  {
    var e := AfterBlock(x.enc, fs, ps);
    match ReadOctets(k.statics, x.dec, k.root, EncodeReps(Style(k.codes, coding), BlockReps(x.enc, fs, ps)))
    case None => Link(e, x.dec, x.read + [IndexError])
    case Some(d) => Link(e, d.t, x.read + [Checked(d.fields, d.fields, true)])
  }

  /** The encoder refuses lists that are out of order and has no answer to an empty
      name; strings must be such that they can be sent, and its decisions in order. */
  ghost predicate Enabled(k: Config, x: Link, op: Op) {
    match op
    case Resize(c) => c < Pow2(64)
    case Send(fs, ps, coding) =>
      && NamesNonEmpty(fs) && PseudoOrdered(fs) && FieldsSendable(Style(k.codes, coding), fs)
      && x.enc.t.Ok() && Sendable(k.statics, x.enc, fs, ps)
  }

  ghost predicate Step(k: Config, x: Link, op: Op, y: Link) {
    && Enabled(k, x, op)
    && match op
       case Resize(c) => y == x.(enc := SetCapacity(x.enc, c))
       case Send(fs, ps, coding) => x.dec.Ok() && y == DoSend(k, x, fs, ps, coding)
  }

  ghost predicate Run(k: Config, xs: seq<Link>, ops: seq<Op>) {
    && |xs| == |ops| + 1
    && xs[0] == Link(Enc(Tab([], 0, 0), 0, 0), Tab([], 0, 0), [])
    && forall i :: 0 <= i < |ops| ==> Step(k, xs[i], ops[i], xs[i + 1])
  }

  /** What should have come of the blocks: the lists that were sent. */
  function Sent(ops: seq<Op>): seq<HpackCodec.Outcome> {
    if ops == [] then []
    else Sent(ops[..|ops| - 1]) + (if ops[|ops| - 1].Send? then [Fields(ops[|ops| - 1].fs)] else [])
  }

  ghost predicate InStep(x: Link) {
    && x.enc.Ok() && x.dec == x.enc.t
    && x.enc.min < Pow2(64) && x.enc.next < Pow2(64)
  }

  lemma CapacityFits(statics: seq<Pair>, cap: nat)
    requires |statics| < Pow2(62) && cap < Pow2(64)
    ensures IndicesFit(statics, cap)
  {
    Powers();
  }

  /** A list that may be sent is read as itself, and the tables stay equal. */
  lemma SendKeeps(k: Config, x: Link, fs: seq<Field>, ps: seq<Plan>, coding: Coding)
    requires k.Ok() && InStep(x) && Enabled(k, x, Send(fs, ps, coding))
    ensures DoSend(k, x, fs, ps, coding).read == x.read + [Fields(fs)] && InStep(DoSend(k, x, fs, ps, coding))
  {
    hide TableOk, Tree, PlansOk, EncodeReps, ReadOctets, BlockReps, Checked, Pow2, FieldsSendable;
    CapacityFits(k.statics, x.enc.next);
    OctetsRoundTrip(Style(k.codes, coding), k.root, k.statics, x.enc, fs, ps);
    BlockRoundTrip(k.statics, x.enc, fs, ps);
    CheckedOrdered(fs, fs, true);
  }

  /** For any sequence of header lists and capacity changes, the decoder has read
      exactly what was sent, and both tables and capacities are equal. */
  lemma {:induction false} Lockstep(k: Config, xs: seq<Link>, ops: seq<Op>, i: nat)
    requires k.Ok() && Run(k, xs, ops) && i < |xs|
    ensures InStep(xs[i]) && xs[i].read == Sent(ops[..i])
  {
    hide DoSend, TableOk, Tree, Pow2, Sendable, FieldsSendable;
    if i > 0 {
      Lockstep(k, xs, ops, i - 1);
      assert ops[..i][..i - 1] == ops[..i - 1] && ops[..i][i - 1] == ops[i - 1];
      var x, op := xs[i - 1], ops[i - 1];
      assert Step(k, x, op, xs[i]);
      if op.Send? {
        SendKeeps(k, x, op.fs, op.ps, op.coding);
      }
    } else {
      Small();
    }
  }

  lemma Small()
    ensures 0 < Pow2(64)
  {
  }

  /** ... and there is always a next step: no list that may be sent gets stuck. */
  lemma NeverStuck(k: Config, xs: seq<Link>, ops: seq<Op>, i: nat, fs: seq<Field>, ps: seq<Plan>, coding: Coding)
    requires k.Ok() && Run(k, xs, ops) && i < |xs| && Enabled(k, xs[i], Send(fs, ps, coding))
    ensures xs[i].dec.Ok() && Step(k, xs[i], Send(fs, ps, coding), DoSend(k, xs[i], fs, ps, coding))
    ensures DoSend(k, xs[i], fs, ps, coding).read == xs[i].read + [Fields(fs)]
  {
    hide DoSend, TableOk, Tree, Pow2, FieldsSendable;
    Lockstep(k, xs, ops, i);
    SendKeeps(k, xs[i], fs, ps, coding);
  }

  /** Whatever names are not indexed at the time, the encoder's own decisions are such
      that the list may be sent. */
  lemma OwnDecisions(k: Config, xs: seq<Link>, ops: seq<Op>, i: nat, fs: seq<Field>, noIndex: set<Str>, coding: Coding)
    requires k.Ok() && Run(k, xs, ops) && i < |xs|
    requires NamesNonEmpty(fs) && PseudoOrdered(fs) && FieldsSendable(Style(k.codes, coding), fs)
    ensures xs[i].enc.t.Ok() && Enabled(k, xs[i], Send(fs, Decisions(k.statics, noIndex, Resized(xs[i].enc).t, fs), coding))
  {
    hide TableOk, Tree, Pow2, FieldsSendable, Decisions, PlansOk, Resized;
    Lockstep(k, xs, ops, i);
    DecisionsOk(k.statics, noIndex, Resized(xs[i].enc).t, fs);
  }
}
