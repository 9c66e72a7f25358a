/** Acknowledgments in a run: the events of its ack writer, when they are honest, and
    what the encoder makes of them. */
module QpackAcks {
  import opened QpackReader
  import opened QpackWriter
  import opened QpackUsage
  import opened AckWriter
  import opened QpackProtocol
  import opened QpackSteps
  import opened QpackRuns

  // ---- the ack writer of a run ----

  /** The event the ack writer handles in a step, if any. */
  function EventOf(x: Sys, a: Action): seq<Event> {
    match a
    case NoteInsert => [Available(|x.dec.hist|)]
    case EmitAck(s) => if Queue(x.pending, s) == [] then [] else [Read(s, x.pending[s][0])]
    case TimerFires => [Timer]
    case CancelStream(s) => [Cancelled(s)]
    case _ => []
  }

  /** The events of the first `i` steps. */
  function Events(xs: seq<Sys>, acts: seq<Action>, i: nat): seq<Event>
    requires i <= |acts| && i <= |xs|
  {
    if i == 0 then [] else Events(xs, acts, i - 1) + EventOf(xs[i - 1], acts[i - 1])
  }

  /** How many messages have been delivered in the first `i` steps. */
  function Delivered(acts: seq<Action>, i: nat): nat
    requires i <= |acts|
  {
    if i == 0 then 0 else Delivered(acts, i - 1) + if acts[i - 1].DeliverAck? then 1 else 0
  }

  lemma StepEvents(k: Config, x: Sys, a: Action, y: Sys)
    requires Step(k, x, a, y)
    ensures
      var e := EventOf(x, a);
      if e == [] then
        y.aw == x.aw && y.claimed == x.claimed && (if a.DeliverAck? then x.acks != [] && y.acks == x.acks[1..] else y.acks == x.acks)
      else
        && y.aw == Handle(x.aw, e[0]) && y.claimed == Future(x.claimed, Output(x.aw, e[0]))
        && y.acks == x.acks + Output(x.aw, e[0]) && !a.DeliverAck?
  {
    hide Planned, After, DecodeLargest, ReadLine, Update, AckHeader, AckInsert, AckReset;
  }

  /** The ack writer of a run is the one that handles its events, and the messages under
      way are those of its log that have not been delivered. */
  lemma {:induction false} EventsMatch(k: Config, maxBlocked: nat, xs: seq<Sys>, acts: seq<Action>, i: nat)
    requires Run(k, maxBlocked, xs, acts) && i < |xs|
    ensures WrittenBy(xs[i], Events(xs, acts, i), Delivered(acts, i))
  {
    hide Step, EventOf;
    if i > 0 {
      EventsMatch(k, maxBlocked, xs, acts, i - 1);
      WrittenNext(k, xs[i - 1], acts[i - 1], xs[i], Events(xs, acts, i - 1), Delivered(acts, i - 1));
    }
  }

  predicate WrittenBy(x: Sys, es: seq<Event>, n: nat) {
    && WriterAfter(es) == x.aw && Claimed(es) == x.claimed
    && n <= |Log(es)| && x.acks == Log(es)[n..]
  }

  lemma WrittenNext(k: Config, x: Sys, a: Action, y: Sys, es: seq<Event>, n: nat)
    requires Step(k, x, a, y) && WrittenBy(x, es, n)
    ensures WrittenBy(y, es + EventOf(x, a), n + if a.DeliverAck? then 1 else 0)
  {
    hide Step, EventOf, Claimed;
    StepEvents(k, x, a, y);
    var e := EventOf(x, a);
    if e == [] {
      assert es + [] == es;
    } else {
      OneEvent(x, a);
      assert es + e == es + [e[0]];
      ClaimedNext(es, e[0]);
      LogNext(es, e[0]);
    }
  }

  lemma OneEvent(x: Sys, a: Action)
    ensures |EventOf(x, a)| <= 1 && (a.DeliverAck? ==> EventOf(x, a) == [])
  {
  }

  lemma {:induction false} EventsPrefix(xs: seq<Sys>, acts: seq<Action>, i: nat, m: nat)
    requires i <= m <= |acts| && m <= |xs|
    ensures Events(xs, acts, i) <= Events(xs, acts, m)
  {
    if i < m {
      EventsPrefix(xs, acts, i, m - 1);
    }
  }

  /** Every event belongs to a step. */
  lemma {:induction false} EventAt(xs: seq<Sys>, acts: seq<Action>, m: nat, n: nat) returns (i: nat)
    requires m <= |acts| && m <= |xs| && n < |Events(xs, acts, m)|
    ensures i < m && Events(xs, acts, i) == Events(xs, acts, m)[..n] && EventOf(xs[i], acts[i]) == [Events(xs, acts, m)[n]]
  {
    hide EventOf;
    var before, e := Events(xs, acts, m - 1), EventOf(xs[m - 1], acts[m - 1]);
    OneEvent(xs[m - 1], acts[m - 1]);
    assert Events(xs, acts, m) == before + e;
    if n < |before| {
      i := EventAt(xs, acts, m - 1, n);
      assert (before + e)[..n] == before[..n];
    } else {
      i := m - 1;
      assert (before + e)[..n] == before && e == [e[0]];
    }
  }

  /** The step at which an increment may be sent is truthful exactly if its event is. */
  lemma StepIsEvent(k: Config, maxBlocked: nat, xs: seq<Sys>, acts: seq<Action>, i: nat, n: nat)
    requires Run(k, maxBlocked, xs, acts) && i < |acts|
    requires
      var es := Events(xs, acts, |acts|);
      n < |es| && Events(xs, acts, i) == es[..n] && EventOf(xs[i], acts[i]) == [es[n]]
    ensures TruthfulStep(xs[i], acts[i]) <==> LastIsLargest(Events(xs, acts, |acts|), n)
    ensures InOrderStep(xs[i], acts[i]) <==>
      (Events(xs, acts, |acts|)[n].Read? ==> Events(xs, acts, |acts|)[n].largest >= WriterAfter(Events(xs, acts, |acts|)[..n]).last)
  {
    hide Step;
    EventsMatch(k, maxBlocked, xs, acts, i);
    assert WrittenBy(xs[i], Events(xs, acts, i), Delivered(acts, i));
  }

  /** A run is truthful exactly if no increment makes the messages claim more inserts
      than the ack writer was told of. */
  lemma TruthfulRuns(k: Config, maxBlocked: nat, xs: seq<Sys>, acts: seq<Action>)
    requires Run(k, maxBlocked, xs, acts)
    ensures
      var es := Events(xs, acts, |acts|);
      Truthful(xs, acts) <==> forall n :: 0 <= n < |es| ==> TruthfulAt(es, n)
  {
    hide Step, TruthfulStep, LastIsLargest, TruthfulAt, Events, EventOf, InOrderStep;
    var es := Events(xs, acts, |acts|);
    TruthfulExactly(es);
    if Truthful(xs, acts) {
      forall n | 0 <= n < |es| ensures LastIsLargest(es, n) {
        var i := EventAt(xs, acts, |acts|, n);
        StepIsEvent(k, maxBlocked, xs, acts, i, n);
      }
    }
    if forall n :: 0 <= n < |es| ==> LastIsLargest(es, n) {
      forall i | 0 <= i < |acts| ensures TruthfulStep(xs[i], acts[i]) {
        TimerIsEvent(k, maxBlocked, xs, acts, i);
      }
    }
  }

  lemma TimerIsEvent(k: Config, maxBlocked: nat, xs: seq<Sys>, acts: seq<Action>, i: nat)
    requires Run(k, maxBlocked, xs, acts) && i < |acts|
    requires forall n :: 0 <= n < |Events(xs, acts, |acts|)| ==> LastIsLargest(Events(xs, acts, |acts|), n)
    ensures TruthfulStep(xs[i], acts[i])
  {
    hide Step, LastIsLargest;
    if acts[i].TimerFires? {
      var n := |Events(xs, acts, i)|;
      EventsPrefix(xs, acts, i + 1, |acts|);
      StepIsEvent(k, maxBlocked, xs, acts, i, n);
    }
  }

  /** No block is acknowledged after something larger. */
  predicate InOrderStep(x: Sys, a: Action) {
    a.EmitAck? && Queue(x.pending, a.s) != [] ==> x.pending[a.s][0] >= x.aw.last
  }

  ghost predicate InOrderRun(xs: seq<Sys>, acts: seq<Action>)
    requires |xs| == |acts| + 1
  {
    forall i :: 0 <= i < |acts| ==> InOrderStep(xs[i], acts[i])
  }

  lemma InOrderEvents(k: Config, maxBlocked: nat, xs: seq<Sys>, acts: seq<Action>, i: nat)
    requires Run(k, maxBlocked, xs, acts) && InOrderRun(xs, acts) && i < |xs|
    ensures InOrder(Events(xs, acts, i))
  {
    hide Step, Events, EventOf, InOrderStep, TruthfulStep, LastIsLargest;
    var all, es := Events(xs, acts, |acts|), Events(xs, acts, i);
    EventsPrefix(xs, acts, i, |acts|);
    forall n | 0 <= n < |es| && es[n].Read? ensures es[n].largest >= WriterAfter(es[..n]).last {
      var m := EventAt(xs, acts, |acts|, n);
      StepIsEvent(k, maxBlocked, xs, acts, m, n);
      assert es[n] == all[n] && es[..n] == all[..n];
    }
  }

  /** If no block is acknowledged after something larger, the value assigned last is
      always the largest claimed, and the run is truthful. */
  lemma InOrderRuns(k: Config, maxBlocked: nat, xs: seq<Sys>, acts: seq<Action>, i: nat)
    requires Run(k, maxBlocked, xs, acts) && InOrderRun(xs, acts) && i < |xs|
    ensures xs[i].aw.last == xs[i].claimed && Truthful(xs, acts)
  {
    hide Step, InOrderStep;
    forall n | 0 <= n < |xs| ensures xs[n].aw.last == xs[n].claimed {
      EventsMatch(k, maxBlocked, xs, acts, n);
      InOrderEvents(k, maxBlocked, xs, acts, n);
      InOrderTruthful(Events(xs, acts, n));
    }
  }

  // ---- streams that are written on again ----

  /** No header acknowledgment for the stream is still to come. */
  predicate NoneLate(x: Sys, s: Stream) {
    Queue(x.pending, s) == [] && forall m :: m in x.acks && m.HeaderAck? ==> m.s != s
  }

  /** A block is written on a stream whose cancellation the encoder has processed only
      when no header acknowledgment for it is still to come. */
  predicate WriteInOrder(x: Sys, a: Action) {
    a.Write? && a.s in x.dead ==> NoneLate(x, a.s)
  }

  ghost predicate LateOk(x: Sys, s: Stream) {
    s in x.dead && BlocksOf(x.enc.usage, s) != [] ==> NoneLate(x, s)
  }

  lemma LateStep(k: Config, x: Sys, a: Action, y: Sys, s: Stream)
    requires Step(k, x, a, y) && WriteInOrder(x, a) && LateOk(x, s)
    requires s in x.reading ==> s !in x.dead
    ensures LateOk(y, s)
  {
    hide Planned, After, DecodeLargest, ReadLine, Update, AckHeader, AckInsert, AckReset;
    if a.DeliverAck? {
      LateDelivered(x, s);
    } else if a.Write? {
      LateWritten(k, x, a, y, s);
    }
  }

  lemma LateWritten(k: Config, x: Sys, a: Action, y: Sys, s: Stream)
    requires Step(k, x, a, y) && a.Write? && WriteInOrder(x, a) && LateOk(x, s)
    ensures LateOk(y, s)
  {
    hide Planned, After, Launch;
  }

  lemma LateDelivered(x: Sys, s: Stream)
    requires x.acks != [] && LateOk(x, s)
    ensures LateOk(DoDeliverAck(x), s)
  {
    hide AckInsert;
    var y := DoDeliverAck(x);
    assert forall m :: m in y.acks ==> m in x.acks;
    match x.acks[0]
    case Increment(v) => UsageAfterInsert(x.enc, v);
    case _ =>
  }

  lemma UsageAfterInsert(e: Enc, v: nat)
    ensures AckInsert(e, v).usage == e.usage
  {
  }

  lemma ReadingNotDead(k: Config, x: Sys, s: Stream)
    requires Inv(k, x, false)
    ensures s in x.reading ==> s !in x.dead
  {
    hide EncOk, TablesOk, FlightOk, ReadingOk, DoneOk;
    assert StreamOk(x, s, false);
  }

  lemma {:induction false} LateInRuns(k: Config, maxBlocked: nat, xs: seq<Sys>, acts: seq<Action>, i: nat, s: Stream)
    requires Run(k, maxBlocked, xs, acts) && i < |xs| && (forall n :: 0 <= n < |acts| ==> WriteInOrder(xs[n], acts[n]))
    ensures LateOk(xs[i], s)
  {
    hide Step, WriteInOrder, NoneLate, Inv;
    if i > 0 {
      LateInRuns(k, maxBlocked, xs, acts, i - 1, s);
      RunOk(k, maxBlocked, xs, acts, i - 1, false);
      ReadingNotDead(k, xs[i - 1], s);
      LateStep(k, xs[i - 1], acts[i - 1], xs[i], s);
    }
  }

  /** A header acknowledgment can only be taken for that of another block if such a block
      was written while it was still to come. */
  lemma WritesInOrderDirected(k: Config, maxBlocked: nat, xs: seq<Sys>, acts: seq<Action>)
    requires Run(k, maxBlocked, xs, acts) && (forall n :: 0 <= n < |acts| ==> WriteInOrder(xs[n], acts[n]))
    ensures Directed(xs, acts)
  {
    hide Step, WriteInOrder;
    forall i | 0 <= i < |acts| ensures DirectedStep(xs[i], acts[i]) {
      if xs[i].acks != [] && xs[i].acks[0].HeaderAck? {
        assert xs[i].acks[0] in xs[i].acks;
        LateInRuns(k, maxBlocked, xs, acts, i, xs[i].acks[0].s);
      }
    }
  }

  // ---- increments ----

  /** In every run an increment is at most what the decoder has inserted. */
  lemma {:induction false} IncrementsBounded(k: Config, maxBlocked: nat, xs: seq<Sys>, acts: seq<Action>, i: nat)
    requires Run(k, maxBlocked, xs, acts) && i < |xs|
    ensures SyncOk(xs[i])
  {
    hide Step, SyncOk;
    if i == 0 {
      NoneSent(k, maxBlocked);
    } else {
      IncrementsBounded(k, maxBlocked, xs, acts, i - 1);
      SyncNext(k, xs[i - 1], acts[i - 1], xs[i]);
    }
  }

  predicate SyncOk(x: Sys) {
    && x.aw.sync <= |x.dec.hist|
    && forall m :: m in x.acks && m.Increment? ==> 0 < m.v <= |x.dec.hist|
  }

  lemma NoneSent(k: Config, maxBlocked: nat)
    ensures SyncOk(Init(k, maxBlocked))
  {
  }

  lemma SyncNext(k: Config, x: Sys, a: Action, y: Sys)
    requires SyncOk(x) && Step(k, x, a, y)
    ensures SyncOk(y)
  {
    hide Step;
    StepEvents(k, x, a, y);
    InsertsGrow(k, x, a, y);
    OneEvent(x, a);
    assert forall m :: m in y.acks ==> m in x.acks || (EventOf(x, a) != [] && m in Output(x.aw, EventOf(x, a)[0]));
  }

  lemma InsertsGrow(k: Config, x: Sys, a: Action, y: Sys)
    requires Step(k, x, a, y)
    ensures |x.dec.hist| <= |y.dec.hist|
  {
    hide Planned, After, DecodeLargest, ReadLine, AckHeader, AckInsert, AckReset;
  }

  // ---- when acknowledgments are honest ----

  /** No entry is acknowledged before the decoder has it. */
  lemma AcknowledgedIsReceived(k: Config, maxBlocked: nat, xs: seq<Sys>, acts: seq<Action>, i: nat)
    requires Run(k, maxBlocked, xs, acts) && Honest(xs, acts) && i < |xs|
    ensures xs[i].enc.acked <= xs[i].claimed <= |xs[i].dec.hist| <= |xs[i].enc.hist|
  {
    hide Step, StreamOk, FlightOk, ReadingOk, EncOk, InstrsOk, DoneOk;
    RunOk(k, maxBlocked, xs, acts, i, true);
    FutureMonotone(xs[i].enc.acked, xs[i].enc.acked, xs[i].acks);
  }

  /** After any number of messages have been delivered, the mark is at most what those
      messages claim. */
  lemma {:induction false} MarkBehindMessages(k: Config, maxBlocked: nat, xs: seq<Sys>, acts: seq<Action>, i: nat)
    requires Run(k, maxBlocked, xs, acts) && Honest(xs, acts) && i < |xs|
    ensures MarkBehind(xs[i].enc.acked, Log(Events(xs, acts, i)), Delivered(acts, i))
  {
    hide Step, Inv, Log, Events, WriterAfter, Claimed, MarkBehind;
    if i == 0 {
      NothingDelivered(xs, acts);
    } else {
      MarkBehindMessages(k, maxBlocked, xs, acts, i - 1);
      EventsMatch(k, maxBlocked, xs, acts, i - 1);
      RunOk(k, maxBlocked, xs, acts, i - 1, true);
      LogGrows(xs, acts, i);
      MarkNext(k, xs[i - 1], acts[i - 1], xs[i], Log(Events(xs, acts, i - 1)), Log(Events(xs, acts, i)), Delivered(acts, i - 1));
    }
  }

  ghost predicate MarkBehind(acked: nat, log: seq<Msg>, n: nat) {
    n <= |log| && acked <= Future(0, log[..n])
  }

  lemma NothingDelivered(xs: seq<Sys>, acts: seq<Action>)
    ensures MarkBehind(0, Log(Events(xs, acts, 0)), Delivered(acts, 0))
  {
  }

  lemma MarkNext(k: Config, x: Sys, a: Action, y: Sys, before: seq<Msg>, log: seq<Msg>, n: nat)
    requires Inv(k, x, true) && Step(k, x, a, y) && DirectedStep(x, a) && before <= log && (a.DeliverAck? ==> log == before)
    requires MarkBehind(x.enc.acked, before, n) && x.acks == before[n..]
    ensures MarkBehind(y.enc.acked, log, n + if a.DeliverAck? then 1 else 0)
  {
    hide Step, Inv;
    if a.DeliverAck? {
      StepEvents(k, x, a, y);
      assert log[n] == log[n..][0] == x.acks[0];
      MarkDelivered(k, x, y);
      assert log[..n + 1] == log[..n] + [log[n]];
      FutureAppend(0, log[..n], [log[n]]);
      assert [log[n]][1..] == [];
    } else {
      MarkStays(k, x, a, y);
      assert log[..n] == before[..n];
    }
  }

  lemma LogGrows(xs: seq<Sys>, acts: seq<Action>, i: nat)
    requires 0 < i <= |acts| && i <= |xs|
    ensures Log(Events(xs, acts, i - 1)) <= Log(Events(xs, acts, i))
    ensures acts[i - 1].DeliverAck? ==> Events(xs, acts, i) == Events(xs, acts, i - 1)
  {
    var es, e := Events(xs, acts, i - 1), EventOf(xs[i - 1], acts[i - 1]);
    if e == [] {
      assert es + [] == es;
    } else {
      assert (es + e)[..|es + e| - 1] == es;
    }
  }

  lemma MarkDelivered(k: Config, x: Sys, y: Sys)
    requires Inv(k, x, true) && Step(k, x, DeliverAck, y) && !Misdirected(x)
    ensures x.acks != [] && y.enc.acked <= Claim(x.enc.acked, x.acks[0])
  {
    hide StreamOk, ClaimsOk, FlightOk, ReadingOk, DoneOk, EncOk, TablesOk;
    DeliverClaims(x);
  }

  lemma MarkStays(k: Config, x: Sys, a: Action, y: Sys)
    requires Step(k, x, a, y) && !a.DeliverAck?
    ensures y.enc.acked == x.enc.acked
  {
    hide Planned, After, DecodeLargest, ReadLine, Update;
  }

  /** If acknowledgments come in order, the mark after any number of messages is at most
      the value the ack writer held when it had sent those. */
  lemma MarkBehindWriter(k: Config, maxBlocked: nat, xs: seq<Sys>, acts: seq<Action>, i: nat) returns (es: seq<Event>)
    requires Run(k, maxBlocked, xs, acts) && InOrderRun(xs, acts) && Directed(xs, acts) && i < |xs|
    ensures es <= Events(xs, acts, i) && |Log(es)| == Delivered(acts, i)
    ensures xs[i].enc.acked <= WriterAfter(es).last
  {
    hide Step, InOrderStep, TruthfulStep, Events, WriterAfter, Log;
    InOrderRuns(k, maxBlocked, xs, acts, i);
    MarkBehindMessages(k, maxBlocked, xs, acts, i);
    InOrderEvents(k, maxBlocked, xs, acts, i);
    var all := Events(xs, acts, i);
    var n := LogAt(all, Delivered(acts, i));
    es := all[..n];
    InOrderPrefix(all, n);
    InOrderTruthful(es);
  }

  /** No acknowledgment is rejected: increments stay within what was sent, and a
      header acknowledgment always finds the block it is for, unless its stream was
      cancelled and the encoder knows, when there is none to find.  The largest reference it stands for is that of
      the block, or all the block refers to had been acknowledged before.  A
      cancellation is rejected exactly if nothing is recorded for its stream, and then
      there is nothing to release. */
  lemma NoAckRejected(k: Config, maxBlocked: nat, xs: seq<Sys>, acts: seq<Action>, i: nat)
    requires Run(k, maxBlocked, xs, acts) && Honest(xs, acts) && i < |xs| && xs[i].acks != []
    ensures
      var x := xs[i];
      match x.acks[0]
      case Increment(v) => v > 0 && x.enc.acked + v <= |x.enc.hist|
      case HeaderAck(s, l) =>
        && (s !in x.dead ==>
              && s in x.enc.usage && x.enc.usage[s] != []
              && (MaxOf(x.enc.usage[s][0]) == l || MaxOf(x.enc.usage[s][0]) <= x.enc.acked))
        && (s in x.dead && i < |acts| && acts[i].DeliverAck? ==> BlocksOf(x.enc.usage, s) == [])
      case StreamCancel(s) => s in x.cancelled && (s !in x.enc.usage ==> AckReset(x.enc, s) == x.enc)
  {
    hide Step, FlightOk, ReadingOk, EncOk, InstrsOk, DoneOk;
    RunOk(k, maxBlocked, xs, acts, i, true);
    var x := xs[i];
    assert x.acks[0] in x.acks;
    if x.acks[0].Increment? {
      DeliverClaims(x);
    } else {
      assert StreamOk(x, x.acks[0].s, true);
    }
    if x.acks[0].HeaderAck? && x.acks[0].s !in x.dead {
      HeaderAckFinds(x, x.acks[0].s, x.acks[0].largest, true);
    }
  }
}
