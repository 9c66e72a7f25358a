/** The decoder's ack writer (hc/qpackdecoder.go:47-118) as a machine over the events
    it selects from, and when its increments are truthful. */
module AckWriter {
  import opened Headers
  import opened QpackUsage

  /** Acknowledgments.  A header acknowledgment only carries the stream on the wire;
      `largest` is what the ack writer was told beside it. */
  datatype Msg = HeaderAck(s: Stream, largest: nat) | StreamCancel(s: Stream) | Increment(v: nat)

  /** A block has been read; a stream was cancelled; an insert was announced; the
      delay has passed. */
  datatype Event = Read(s: Stream, largest: nat) | Cancelled(s: Stream) | Available(base: nat) | Timer

  /** largestAcknowledged, syncLargest, and whether a timer is running. */
  datatype Writer = Writer(last: nat, sync: nat, armed: bool)

  const IDLE := Writer(0, 0, false)

  function Handle(w: Writer, e: Event): Writer {
    match e
    case Read(s, l) => w.(last := l)
    case Cancelled(s) => w
    case Available(b) => if w.sync < b then w.(sync := b, armed := true) else w
    case Timer => w.(last := Max(w.last, w.sync), armed := false)
  }

  /** What is written for an event. */
  function Output(w: Writer, e: Event): seq<Msg> {
    match e
    case Read(s, l) => [HeaderAck(s, l)]
    case Cancelled(s) => [StreamCancel(s)]
    case Available(_) => []
    case Timer => if w.sync > w.last then [Increment(w.sync - w.last)] else []
  }

  // ---- what the messages claim ----

  function Claim(acked: nat, m: Msg): nat {
    match m
    case HeaderAck(_, l) => Max(acked, l)
    case Increment(v) => acked + v
    case StreamCancel(_) => acked
  }

  /** The insert count acknowledged after `acks`, each taken at face value. */
  function Future(acked: nat, acks: seq<Msg>): nat
    decreases |acks|
  {
    if acks == [] then acked else Future(Claim(acked, acks[0]), acks[1..])
  }

  lemma {:induction false} FutureMonotone(a: nat, b: nat, acks: seq<Msg>)
    requires a <= b
    ensures a <= Future(a, acks) <= Future(b, acks)
    decreases |acks|
  {
    if acks != [] {
      FutureMonotone(Claim(a, acks[0]), Claim(b, acks[0]), acks[1..]);
    }
  }

  lemma {:induction false} FutureAppend(a: nat, acks: seq<Msg>, more: seq<Msg>)
    ensures Future(a, acks + more) == Future(Future(a, acks), more)
    decreases |acks|
  {
    if acks == [] {
      assert [] + more == more;
    } else {
      assert (acks + more)[1..] == acks[1..] + more;
      FutureAppend(Claim(a, acks[0]), acks[1..], more);
    }
  }

  predicate Emits(w: Writer, e: Event) {
    e.Timer? && w.sync > w.last
  }

  /** What one event adds to the insert count `c` claimed before it. */
  lemma HandleClaims(w: Writer, c: nat, e: Event)
    requires w.last <= c
    ensures
      var d := Future(c, Output(w, e));
      && Handle(w, e).last <= d
      && d == if Emits(w, e) then c + w.sync - w.last else if e.Read? then Max(c, e.largest) else c
  {
    if Output(w, e) != [] {
      assert Output(w, e)[1..] == [];
    }
  }

  // ---- sequences of events ----

  function WriterAfter(es: seq<Event>): Writer {
    if es == [] then IDLE else Handle(WriterAfter(es[..|es| - 1]), es[|es| - 1])
  }

  /** The messages written so far. */
  function Log(es: seq<Event>): seq<Msg> {
    if es == [] then [] else Log(es[..|es| - 1]) + Output(WriterAfter(es[..|es| - 1]), es[|es| - 1])
  }

  /** The insert count that they acknowledge. */
  function Claimed(es: seq<Event>): nat {
    Future(0, Log(es))
  }

  /** Event `i` does not make the writer acknowledge more than it was told of. */
  ghost predicate TruthfulAt(es: seq<Event>, i: nat)
    requires i < |es|
  {
    Emits(WriterAfter(es[..i]), es[i]) ==> Claimed(es[..i + 1]) <= WriterAfter(es[..i]).sync
  }

  /** ... because the last value it assigned is the largest it has claimed. */
  ghost predicate LastIsLargest(es: seq<Event>, i: nat)
    requires i < |es|
  {
    Emits(WriterAfter(es[..i]), es[i]) ==> WriterAfter(es[..i]).last == Claimed(es[..i])
  }

  lemma ClaimedNext(es: seq<Event>, e: Event)
    ensures Claimed(es + [e]) == Future(Claimed(es), Output(WriterAfter(es), e)) && WriterAfter(es + [e]) == Handle(WriterAfter(es), e)
  {
    assert (es + [e])[..|es|] == es;
    FutureAppend(0, Log(es), Output(WriterAfter(es), e));
  }

  lemma LogNext(es: seq<Event>, e: Event)
    ensures Log(es + [e]) == Log(es) + Output(WriterAfter(es), e)
  {
    assert (es + [e])[..|es|] == es;
  }

  lemma {:induction false} LastIsClaimed(es: seq<Event>)
    ensures WriterAfter(es).last <= Claimed(es)
  {
    if es != [] {
      var before := es[..|es| - 1];
      LastIsClaimed(before);
      assert es == before + [es[|es| - 1]];
      ClaimedNext(before, es[|es| - 1]);
      HandleClaims(WriterAfter(before), Claimed(before), es[|es| - 1]);
    }
  }

  /** The increments are truthful exactly if, whenever one is sent, the last value
      assigned is the largest claimed.  A block acknowledged after a larger reference
      or a later increment breaks this. */
  lemma TruthfulExactly(es: seq<Event>)
    ensures (forall i :: 0 <= i < |es| ==> TruthfulAt(es, i)) <==> (forall i :: 0 <= i < |es| ==> LastIsLargest(es, i))
  {
    forall i | 0 <= i < |es| ensures TruthfulAt(es, i) <==> LastIsLargest(es, i) {
      assert es[..i + 1] == es[..i] + [es[i]];
      LastIsClaimed(es[..i]);
      ClaimedNext(es[..i], es[i]);
      HandleClaims(WriterAfter(es[..i]), Claimed(es[..i]), es[i]);
    }
  }

  /** No block is acknowledged after something larger. */
  ghost predicate InOrder(es: seq<Event>) {
    forall i :: 0 <= i < |es| && es[i].Read? ==> es[i].largest >= WriterAfter(es[..i]).last
  }

  /** If acknowledgments come in order, increments are truthful, and whatever there is
      to announce has a timer running. */
  lemma {:induction false} InOrderTruthful(es: seq<Event>)
    requires InOrder(es)
    ensures WriterAfter(es).last == Claimed(es)
    ensures WriterAfter(es).sync > WriterAfter(es).last ==> WriterAfter(es).armed
  {
    if es != [] {
      var n := |es| - 1;
      InOrderPrefix(es, n);
      InOrderTruthful(es[..n]);
      assert es == es[..n] + [es[n]];
      ClaimedNext(es[..n], es[n]);
      HandleClaims(WriterAfter(es[..n]), Claimed(es[..n]), es[n]);
    }
  }

  lemma InOrderPrefix(es: seq<Event>, n: nat)
    requires InOrder(es) && n <= |es|
    ensures InOrder(es[..n])
  {
    forall i | 0 <= i < n && es[..n][i].Read? ensures es[..n][i].largest >= WriterAfter(es[..n][..i]).last {
      assert es[..n][..i] == es[..i];
    }
  }

  /** Nothing is forgotten: whatever the order of the acknowledgments, every insert
      announced is claimed already or a timer is running, and once it fires it is. */
  lemma {:induction false} NothingForgotten(es: seq<Event>)
    ensures forall i :: 0 <= i < |es| && es[i].Available? ==> es[i].base <= WriterAfter(es).sync
    ensures WriterAfter(es).armed || WriterAfter(es).sync <= Claimed(es)
    ensures WriterAfter(es).sync <= Claimed(es + [Timer])
  {
    hide Claimed, Future, Log, Output;
    TimerCatchesUp(es);
    if es != [] {
      var n := |es| - 1;
      NothingForgotten(es[..n]);
      LastIsClaimed(es[..n]);
      TimerCatchesUp(es[..n]);
      assert es == es[..n] + [es[n]];
      ClaimedNext(es[..n], es[n]);
      HandleClaims(WriterAfter(es[..n]), Claimed(es[..n]), es[n]);
    }
  }

  lemma TimerCatchesUp(es: seq<Event>)
    ensures WriterAfter(es).sync <= Claimed(es + [Timer])
  {
    hide Claimed, Future, Log, Output;
    LastIsClaimed(es);
    ClaimedNext(es, Timer);
    HandleClaims(WriterAfter(es), Claimed(es), Timer);
  }

  /** Each event writes at most one message, so every prefix of the log is the log of a
      prefix of the events. */
  lemma {:induction false} LogAt(es: seq<Event>, k: nat) returns (n: nat)
    requires k <= |Log(es)|
    ensures n <= |es| && Log(es[..n]) == Log(es)[..k]
  {
    if k == |Log(es)| {
      n := |es|;
      assert es[..n] == es && Log(es)[..k] == Log(es);
    } else {
      var m := |es| - 1;
      n := LogAt(es[..m], k);
      assert es[..m][..n] == es[..n];
    }
  }

  class Acknowledger {
    var largestAcknowledged: nat
    var syncLargest: nat
    var delayTss: bool
    var out: seq<Msg>

    ghost function Value(): Writer
      reads this
    {
      Writer(largestAcknowledged, syncLargest, !delayTss)
    }

    constructor ()
      ensures Value() == IDLE && out == []
    {
      largestAcknowledged, syncLargest, delayTss, out := 0, 0, true, [];
    }

    method Select(e: Event)
      modifies this
      ensures Value() == Handle(old(Value()), e)
      ensures out == old(out) + Output(old(Value()), e)
    {
      var m;
      match e {
        case Read(s, l) =>
          largestAcknowledged := l;
          m := HeaderAck(s, l);
        case Cancelled(s) =>
          m := StreamCancel(s);
        case Available(base) =>
          if syncLargest < base {
            syncLargest := base;
            if delayTss {
              delayTss := false;
            }
          }
          return;
        case Timer =>
          delayTss := true;
          if syncLargest <= largestAcknowledged {
            return;
          }
          m := Increment(syncLargest - largestAcknowledged);
          largestAcknowledged := syncLargest;
      }
      out := out + [m];
    }
  }
}
