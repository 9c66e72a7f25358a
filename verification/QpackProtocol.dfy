/** The QPACK encoder and decoder as one distributed system.

    The encoder sends table updates on one ordered stream and each header block on
    the stream it belongs to; the decoder sends acknowledgments on one ordered
    stream.  Nothing relates the timing of these streams.  A run is any sequence of
    the actions below, each taken when it is enabled.  Reading a header block is
    spread over several actions, so table updates may arrive between its lines. */
module QpackProtocol {
  import opened Headers
  import opened History
  import opened TableSpec
  import opened QpackSyntax
  import opened QpackReader
  import opened QpackWriter
  import opened QpackBlock
  import opened QpackUsage
  import opened AckWriter

  /** What both ends agree on. */
  datatype Config = Config(statics: seq<Pair>, cap: nat)

  /** A block on its way.  `safe` records whether everything it refers to was still
      in the encoder's table when the encoder had finished the table changes. */
  datatype Flying = Flying(raw: seq<Field>, sent: Sent, safe: bool)

  /** A header block being read: the insert count when the decoder began, the largest
      reference it recovered then, the base, and the fields read so far. */
  datatype Reading = Reading(start: nat, largest: nat, base: int, out: seq<Field>)

  /** A block that has been read to its end, with the insert count when the decoder
      began and the largest reference it took the block to have. */
  datatype Done = Done(block: Flying, start: nat, largest: nat, out: seq<Field>)

  /** `aw` is the ack writer; `claimed` is the largest insert count its messages have
      implied so far. */
  datatype Sys = Sys(
    enc: Enc,
    updates: seq<Instr>,
    flight: map<Stream, seq<Flying>>,
    dec: Tab,
    reading: map<Stream, Reading>,
    pending: map<Stream, seq<nat>>,
    aw: Writer, claimed: nat,
    acks: seq<Msg>,
    cancelled: set<Stream>,
    dead: set<Stream>,
    done: seq<Done>)

  datatype Action =
    | Write(s: Stream, raw: seq<Field>, plans: seq<Plan>)
    | DeliverUpdate
    | NoteInsert
    | BeginRead(s: Stream)
    | ReadField(s: Stream)
    | FinishRead(s: Stream)
    | EmitAck(s: Stream)
    | TimerFires
    | CancelStream(s: Stream)
    | DeliverAck
    | SetMaxBlocked(m: nat)

  function Queue<T>(m: map<Stream, seq<T>>, s: Stream): seq<T> {
    if s in m then m[s] else []
  }

  function Init(k: Config, maxBlocked: nat): Sys {
    Sys(Enc([], map[], 0, 0, maxBlocked), [], map[], Canon([], k.cap), map[], map[], IDLE, 0, [], {}, {}, [])
  }

  // ---- the encoder writes a block ----

  ghost predicate CanWrite(k: Config, x: Sys, s: Stream, raw: seq<Field>, plans: seq<Plan>) {
    && |plans| == |raw|
    && Planned(ContextFor(k.statics, k.cap, x.enc, s), x.enc.hist, LowerAll(raw), plans, |raw|)
  }

  ghost function Written(k: Config, x: Sys, s: Stream, raw: seq<Field>, plans: seq<Plan>): Work
    requires CanWrite(k, x, s, raw, plans)
  {
    After(ContextFor(k.statics, k.cap, x.enc, s), x.enc.hist, LowerAll(raw), plans, |raw|)
  }

  /** The wrapped largest reference needs room for at least one entry, and the
      writer state one choice for each field; both follow from the invariant. */
  predicate Sendable(k: Config, raw: seq<Field>, w: Work) {
    |w.choices| == |raw| && (w.largest > 0 ==> ENTRY_OVERHEAD <= k.cap)
  }

  ghost function Launch(k: Config, raw: seq<Field>, w: Work): Flying
    requires Sendable(k, raw, w)
  {
    Flying(raw, MakeSent(k.cap, LowerAll(raw), w), AllLive(w.hist, k.cap, Refs(w.choices)))
  }

  ghost function DoWrite(k: Config, x: Sys, s: Stream, raw: seq<Field>, plans: seq<Plan>): Sys
    requires CanWrite(k, x, s, raw, plans) && Sendable(k, raw, Written(k, x, s, raw, plans))
  {
    var w := Written(k, x, s, raw, plans);
    x.(enc := Record(x.enc, s, w),
       updates := x.updates + w.instrs,
       flight := if s in x.cancelled then x.flight
                 else x.flight[s := Queue(x.flight, s) + [Launch(k, raw, w)]])
  }

  // ---- the decoder ----

  function DoDeliverUpdate(k: Config, x: Sys): Sys
    requires x.dec.Ok() && x.updates != []
  {
    match Update(k.statics, x.dec, x.updates[0])
    case None => x
    case Some(t) => x.(dec := t, updates := x.updates[1..])
  }

  /** The decoder starts on the next block of a stream with whatever insert count it
      has then; the largest reference must be recovered from its wrapped form. */
  predicate CanBegin(x: Sys, s: Stream) {
    Queue(x.flight, s) != [] && s !in x.reading
  }

  function DoBegin(k: Config, x: Sys, s: Stream): Sys
    requires Queue(x.flight, s) != []
  {
    var p := x.flight[s][0].sent.block.prefix;
    match DecodeLargest(|x.dec.hist|, k.cap, p.wrapped)
    case None => x
    case Some(l) =>
      match ReadBase(l, p)
      case None => x
      case Some(b) => x.(reading := x.reading[s := Reading(|x.dec.hist|, l, b, [])])
  }

  /** The next line may be read once the table has reached the largest reference.  A
      line that is an error leaves the block unread for good. */
  predicate CanRead(x: Sys, s: Stream) {
    && s in x.reading && Queue(x.flight, s) != []
    && x.reading[s].largest <= |x.dec.hist|
    && |x.reading[s].out| < |x.flight[s][0].sent.block.lines|
  }

  function DoRead(k: Config, x: Sys, s: Stream): Sys
    requires x.dec.Ok() && CanRead(x, s)
  {
    var r := x.reading[s];
    match ReadLine(k.statics, x.dec, r.base, x.flight[s][0].sent.block.lines[|r.out|])
    case None => x
    case Some(f) => x.(reading := x.reading[s := r.(out := r.out + [f])])
  }

  predicate CanFinish(x: Sys, s: Stream) {
    && s in x.reading && Queue(x.flight, s) != []
    && x.reading[s].largest <= |x.dec.hist|
    && |x.reading[s].out| == |x.flight[s][0].sent.block.lines|
  }

  /** A block that used the dynamic table is handed to the ack writer. */
  function DoFinish(x: Sys, s: Stream): Sys
    requires CanFinish(x, s)
  {
    var r := x.reading[s];
    x.(flight := x.flight[s := x.flight[s][1..]],
       reading := x.reading - {s},
       pending := if r.largest > 0 then x.pending[s := Queue(x.pending, s) + [r.largest]] else x.pending,
       done := x.done + [Done(x.flight[s][0], r.start, r.largest, r.out)])
  }

  // ---- the ack writer ----

  function Selects(x: Sys, e: Event): Sys {
    x.(aw := Handle(x.aw, e), claimed := Future(x.claimed, Output(x.aw, e)), acks := x.acks + Output(x.aw, e))
  }

  function DoEmitAck(x: Sys, s: Stream): Sys
    requires Queue(x.pending, s) != []
  {
    Selects(x, Read(s, x.pending[s][0])).(pending := x.pending[s := x.pending[s][1..]])
  }

  function DoCancel(x: Sys, s: Stream): Sys {
    Selects(x, Cancelled(s)).(
      cancelled := x.cancelled + {s},
      flight := x.flight - {s},
      reading := x.reading - {s})
  }

  /** ServiceAcknowledgments: a rejected acknowledgment changes nothing and is not reported. */
  function DoDeliverAck(x: Sys): Sys
    requires x.acks != []
  {
    var y := x.(acks := x.acks[1..]);
    match x.acks[0]
    case HeaderAck(s, _) => y.(enc := AckHeader(x.enc, s))
    case Increment(v) => y.(enc := AckInsert(x.enc, v))
    case StreamCancel(s) => y.(enc := AckReset(x.enc, s), dead := x.dead + {s})
  }

  // ---- runs ----

  /** An insert is announced to the ack writer before the next one is made. */
  ghost predicate Enabled(k: Config, x: Sys, a: Action) {
    match a
    case Write(s, raw, plans) => CanWrite(k, x, s, raw, plans)
    case DeliverUpdate => x.updates != [] && x.aw.sync == |x.dec.hist|
    case NoteInsert => x.aw.sync < |x.dec.hist|
    case BeginRead(s) => CanBegin(x, s)
    case ReadField(s) => CanRead(x, s)
    case FinishRead(s) => CanFinish(x, s)
    case EmitAck(s) => Queue(x.pending, s) != []
    case TimerFires => x.aw.armed
    case CancelStream(s) => true
    case DeliverAck => x.acks != []
    case SetMaxBlocked(m) => x.enc.blocked <= m
  }

  ghost predicate Step(k: Config, x: Sys, a: Action, y: Sys) {
    && Enabled(k, x, a)
    && match a
       case Write(s, raw, plans) =>
         Sendable(k, raw, Written(k, x, s, raw, plans)) && y == DoWrite(k, x, s, raw, plans)
       case DeliverUpdate => x.dec.Ok() && y == DoDeliverUpdate(k, x)
       case NoteInsert => y == Selects(x, Available(|x.dec.hist|))
       case BeginRead(s) => y == DoBegin(k, x, s)
       case ReadField(s) => x.dec.Ok() && y == DoRead(k, x, s)
       case FinishRead(s) => y == DoFinish(x, s)
       case EmitAck(s) => y == DoEmitAck(x, s)
       case TimerFires => y == Selects(x, Timer)
       case CancelStream(s) => y == DoCancel(x, s)
       case DeliverAck => y == DoDeliverAck(x)
       case SetMaxBlocked(m) => y == x.(enc := x.enc.(maxBlocked := m))
  }

  /** `xs` are the states of a run that takes the actions `acts`. */
  ghost predicate Run(k: Config, maxBlocked: nat, xs: seq<Sys>, acts: seq<Action>) {
    && |xs| == |acts| + 1
    && xs[0] == Init(k, maxBlocked)
    && forall i :: 0 <= i < |acts| ==> Step(k, xs[i], acts[i], xs[i + 1])
  }

  /** Whenever the ack writer sends an increment, the value it assigned last is the
      largest it has claimed: what AckWriter.TruthfulExactly asks for. */
  predicate Truthful(xs: seq<Sys>, acts: seq<Action>)
    requires |xs| == |acts| + 1
  {
    forall i :: 0 <= i < |acts| ==> TruthfulStep(xs[i], acts[i])
  }

  predicate TruthfulStep(x: Sys, a: Action) {
    a.TimerFires? && x.aw.sync > x.aw.last ==> x.aw.last == x.claimed
  }

  /** A header acknowledgment that was under way, or not yet sent, when the encoder heard
      of the cancellation of its stream finds a block written on that stream since. */
  predicate Misdirected(x: Sys) {
    x.acks != [] && x.acks[0].HeaderAck? && x.acks[0].s in x.dead && BlocksOf(x.enc.usage, x.acks[0].s) != []
  }

  /** No header acknowledgment is taken for that of another block. */
  predicate Directed(xs: seq<Sys>, acts: seq<Action>)
    requires |xs| == |acts| + 1
  {
    forall i :: 0 <= i < |acts| ==> DirectedStep(xs[i], acts[i])
  }

  predicate DirectedStep(x: Sys, a: Action) {
    a.DeliverAck? ==> !Misdirected(x)
  }

  /** Both conditions on acknowledgments. */
  predicate Honest(xs: seq<Sys>, acts: seq<Action>)
    requires |xs| == |acts| + 1
  {
    Truthful(xs, acts) && Directed(xs, acts)
  }

  // ---- the invariant ----

  /** The largest references of the header acknowledgments for `s` that arrive
      before a cancellation of `s`. */
  function AckTops(acks: seq<Msg>, s: Stream): seq<nat> {
    if acks == [] then []
    else match acks[0]
      case HeaderAck(t, l) => (if t == s then [l] else []) + AckTops(acks[1..], s)
      case StreamCancel(t) => if t == s then [] else AckTops(acks[1..], s)
      case Increment(_) => AckTops(acks[1..], s)
  }

  /** The references of the blocks in flight that use the dynamic table. */
  function FlightRefs(fl: seq<Flying>): seq<seq<nat>> {
    if fl == [] then []
    else (if fl[0].sent.largest > 0 then [Refs(fl[0].sent.choices)] else []) + FlightRefs(fl[1..])
  }

  ghost predicate TablesOk(k: Config, x: Sys) {
    && |x.dec.hist| + |x.updates| == |x.enc.hist|
    && x.dec == Canon(x.enc.hist[..|x.dec.hist|], k.cap)
    && InstrsOk(k.statics, k.cap, x.enc.hist, |x.dec.hist|, x.updates)
  }

  ghost predicate ClaimsOk(x: Sys) {
    && Future(x.enc.acked, x.acks) <= x.claimed <= |x.dec.hist|
    && x.aw.last <= x.claimed && x.aw.sync <= |x.dec.hist|
    && (forall m :: m in x.acks && m.Increment? ==> 0 < m.v <= |x.dec.hist|)
    && (forall s :: PendingOk(Queue(x.pending, s), |x.dec.hist|))
  }

  /** What has been read has been inserted. */
  predicate PendingOk(q: seq<nat>, inserts: nat) {
    forall j :: 0 <= j < |q| ==> 0 < q[j] <= inserts
  }

  /** The oldest blocks of `u` are acknowledged with the largest references `tops`; one
      that the decoder took for another had a reference acknowledged before. */
  predicate Leads(tops: seq<nat>, u: seq<seq<nat>>, acked: nat) {
    |tops| <= |u| && forall j :: 0 <= j < |tops| ==> tops[j] == MaxOf(u[j]) || MaxOf(u[j]) <= acked
  }

  /** The blocks in flight are the newest that are outstanding, and at least `n` others
      are; in an honest run no more. */
  predicate Outstanding(u: seq<seq<nat>>, n: nat, inFlight: seq<seq<nat>>, honest: bool) {
    && n + |inFlight| <= |u| && u[|u| - |inFlight|..] == inFlight
    && (honest ==> n + |inFlight| == |u|)
  }

  /** The encoder's outstanding blocks for a stream are, oldest first, those whose
      acknowledgment is on its way, those read but not yet acknowledged, and those
      not yet read.  `honest` is set where acknowledgments have been so far. */
  ghost predicate StreamOk(x: Sys, s: Stream, honest: bool) {
    var a := AckTops(x.acks, s);
    var q := Queue(x.pending, s);
    var u := BlocksOf(x.enc.usage, s);
    && (s in x.dead ==> s in x.cancelled)
    && (s in x.cancelled ==> Queue(x.flight, s) == [] && s !in x.reading)
    && (s in x.cancelled && s !in x.dead ==>
          StreamCancel(s) in x.acks && |a| <= |u| && (honest ==> Leads(a, u, x.enc.acked)))
    && (s !in x.cancelled ==>
          && StreamCancel(s) !in x.acks
          && Outstanding(u, |a + q|, FlightRefs(Queue(x.flight, s)), honest)
          && (honest ==> Leads(a + q, u, x.enc.acked)))
  }

  /** What is known of a block in flight: while it is safe, everything it refers to
      is still in the encoder's table; with honest acknowledgments its largest
      reference is in any case, or has been acknowledged. */
  ghost predicate FlyingOk(k: Config, x: Sys, f: Flying, honest: bool) {
    && f.sent.fields == LowerAll(f.raw)
    && SentOk(k.statics, k.cap, x.enc.hist, f.sent)
    && (f.safe ==> AllLive(x.enc.hist, k.cap, Refs(f.sent.choices)))
    && (honest ==> LargestHeld(k, x, f))
  }

  ghost predicate LargestHeld(k: Config, x: Sys, f: Flying) {
    0 < f.sent.largest ==> Live(x.enc.hist, k.cap, f.sent.largest) || f.sent.largest <= x.enc.acked
  }

  ghost predicate FlightOk(k: Config, x: Sys, honest: bool) {
    forall s, j :: s in x.flight && 0 <= j < |x.flight[s]| ==> FlyingOk(k, x, x.flight[s][j], honest)
  }

  /** The largest reference has not fallen behind the insert count by as many entries
      as fit. */
  predicate NotPassed(cap: nat, inserts: nat, largest: nat) {
    largest == 0 || inserts < largest + cap / ENTRY_OVERHEAD
  }

  /** The largest reference is not ahead of the insert count by more entries than fit,
      or has not wrapped yet. */
  predicate Reaches(cap: nat, inserts: nat, largest: nat) {
    largest <= inserts + cap / ENTRY_OVERHEAD || largest < 2 * (cap / ENTRY_OVERHEAD)
  }

  /** The window in which a largest reference is recovered. */
  predicate Recovers(cap: nat, inserts: nat, largest: nat) {
    NotPassed(cap, inserts, largest) && Reaches(cap, inserts, largest)
  }

  /** The decoder has recovered the largest reference exactly if it began within the
      window; then what it has read is right. */
  ghost predicate ReadingOk(k: Config, x: Sys, s: Stream, honest: bool) {
    s in x.reading ==>
      && Queue(x.flight, s) != []
      && var f, r := x.flight[s][0], x.reading[s];
      && r.start <= |x.dec.hist| && r.base == r.largest
      && (f.sent.largest == 0 ==> r.largest == 0)
      && (r.largest == f.sent.largest <==> Recovers(k.cap, r.start, f.sent.largest))
      && (f.safe ==> NotPassed(k.cap, r.start, f.sent.largest))
      && |r.out| <= |f.sent.fields|
      && (r.largest == f.sent.largest ==> r.out == f.sent.fields[..|r.out|])
      && (honest ==>
            && Reaches(k.cap, r.start, f.sent.largest) && (f.sent.largest > 0 ==> r.largest > 0)
            && (r.largest == f.sent.largest || f.sent.largest <= x.enc.acked))
  }

  ghost predicate DoneOk(k: Config, x: Sys, honest: bool) {
    forall j :: 0 <= j < |x.done| ==> ReadRight(k.cap, x.done[j], honest)
  }

  /** The largest reference was recovered exactly if the decoder began within the
      window, and then the block is read as it was written. */
  predicate ReadRight(cap: nat, d: Done, honest: bool) {
    && (d.largest == d.block.sent.largest <==> Recovers(cap, d.start, d.block.sent.largest))
    && (d.block.safe ==> NotPassed(cap, d.start, d.block.sent.largest))
    && (d.largest == d.block.sent.largest ==> d.out == LowerAll(d.block.raw))
    && (honest ==> Reaches(cap, d.start, d.block.sent.largest))
  }

  /** What holds in every run, and what holds beside it while acknowledgments are
      honest. */
  ghost predicate Inv(k: Config, x: Sys, honest: bool) {
    && EncOk(k.cap, x.enc)
    && TablesOk(k, x)
    && (honest ==> ClaimsOk(x))
    && (forall s :: StreamOk(x, s, honest))
    && FlightOk(k, x, honest)
    && (forall s :: ReadingOk(k, x, s, honest))
    && DoneOk(k, x, honest)
  }

  lemma WrittenSendable(k: Config, x: Sys, s: Stream, raw: seq<Field>, plans: seq<Plan>)
    requires EncOk(k.cap, x.enc) && CanWrite(k, x, s, raw, plans)
    ensures Sendable(k, raw, Written(k, x, s, raw, plans))
  {
    var c := ContextFor(k.statics, k.cap, x.enc, s);
    BlockWritten(c, x.enc.hist, LowerAll(raw), plans, |raw|);
    PlannedSentOk(c, x.enc.hist, LowerAll(raw), Written(k, x, s, raw, plans));
  }
}
