/** What holds in every run of the QPACK protocol. */
module QpackRuns {
  import opened Headers
  import opened History
  import opened TableSpec
  import opened QpackReader
  import opened QpackWriter
  import opened QpackBlock
  import opened QpackUsage
  import opened QpackProtocol
  import opened QpackSteps

  /** Every state of every run satisfies the invariant, and while acknowledgments are
      honest the rest of it too. */
  lemma {:induction false} RunOk(k: Config, maxBlocked: nat, xs: seq<Sys>, acts: seq<Action>, i: nat, honest: bool)
    requires Run(k, maxBlocked, xs, acts) && (honest ==> Honest(xs, acts)) && i < |xs|
    ensures Inv(k, xs[i], honest)
  {
    hide Inv, Step;
    if i == 0 {
      InitOk(k, maxBlocked, honest);
    } else {
      RunOk(k, maxBlocked, xs, acts, i - 1, honest);
      StepKeeps(k, xs[i - 1], acts[i - 1], xs[i], honest);
    }
  }

  // ---- blocks ----

  /** In every interleaving of block writes, update delivery, line by line reading,
      acknowledgments and cancellations, every block that has been read yields exactly
      the header list that was written, names lower-cased and sensitive flags kept, if
      the decoder recovered its largest reference; it did so for a safe block exactly if
      that was not too far ahead of its insert count when it began. */
  lemma EveryBlockReadIsExact(k: Config, maxBlocked: nat, xs: seq<Sys>, acts: seq<Action>, i: nat, j: nat)
    requires Run(k, maxBlocked, xs, acts) && i < |xs| && j < |xs[i].done|
    ensures
      var d := xs[i].done[j];
      && (d.largest == d.block.sent.largest ==> d.out == LowerAll(d.block.raw))
      && (d.largest == d.block.sent.largest <==> Recovers(k.cap, d.start, d.block.sent.largest))
      && (d.block.safe ==> (d.largest == d.block.sent.largest <==> Reaches(k.cap, d.start, d.block.sent.largest)))
  {
    hide Step, TablesOk, EncOk, ClaimsOk, StreamOk, FlightOk, ReadingOk, NotPassed, Reaches;
    RunOk(k, maxBlocked, xs, acts, i, false);
    assert ReadRight(k.cap, xs[i].done[j], false);
  }

  /** A block whose names have no upper-case octet is then read as exactly the list that
      was given to be written. */
  lemma LowerCaseReadBack(k: Config, maxBlocked: nat, xs: seq<Sys>, acts: seq<Action>, i: nat, j: nat)
    requires Run(k, maxBlocked, xs, acts) && i < |xs| && j < |xs[i].done|
    requires NamesLower(xs[i].done[j].block.raw) && Recovers(k.cap, xs[i].done[j].start, xs[i].done[j].block.sent.largest)
    ensures xs[i].done[j].out == xs[i].done[j].block.raw
  {
    hide Run, Recovers, LowerAll, NamesLower;
    EveryBlockReadIsExact(k, maxBlocked, xs, acts, i, j);
    LowerAllExactly(xs[i].done[j].block.raw);
  }

  /** With honest acknowledgments it never is, so every safe block that has been read
      is read right. */
  lemma SafeBlocksReadRight(k: Config, maxBlocked: nat, xs: seq<Sys>, acts: seq<Action>, i: nat, j: nat)
    requires Run(k, maxBlocked, xs, acts) && Honest(xs, acts) && i < |xs| && j < |xs[i].done| && xs[i].done[j].block.safe
    ensures xs[i].done[j].out == LowerAll(xs[i].done[j].block.raw)
  {
    hide Step, TablesOk, EncOk, ClaimsOk, StreamOk, FlightOk, ReadingOk, NotPassed, Reaches;
    RunOk(k, maxBlocked, xs, acts, i, true);
    assert ReadRight(k.cap, xs[i].done[j], true);
  }

  /** In every reachable state the largest reference of a safe block in flight is
      recovered exactly if it is not too far ahead, and once it has been reached every
      line reads as its field. */
  lemma SafeBlocksStayReadable(k: Config, maxBlocked: nat, xs: seq<Sys>, acts: seq<Action>, i: nat, s: Stream, j: nat)
    requires Run(k, maxBlocked, xs, acts) && i < |xs|
    requires s in xs[i].flight && j < |xs[i].flight[s]| && xs[i].flight[s][j].safe
    ensures
      var x, f := xs[i], xs[i].flight[s][j].sent;
      && x.dec.Ok()
      && (DecodeLargest(|x.dec.hist|, k.cap, f.block.prefix.wrapped) == Some(f.largest) <==> Reaches(k.cap, |x.dec.hist|, f.largest))
      && ReadBase(f.largest, f.block.prefix) == Some(f.largest)
      && |f.block.lines| == |f.fields|
      && (f.largest <= |x.dec.hist| ==> forall n :: 0 <= n < |f.fields| ==>
            ReadLine(k.statics, x.dec, f.largest, f.block.lines[n]) == Some(f.fields[n]))
  {
    hide InstrsOk, Step, StreamOk, ReadingOk, ReadLine, DecodeLargest, LinesFor, AllLive, EncOk, ClaimsOk, EncodeLargest, NotPassed, Reaches;
    RunOk(k, maxBlocked, xs, acts, i, false);
    var x, f := xs[i], xs[i].flight[s][j].sent;
    assert FlyingOk(k, x, x.flight[s][j], false);
    BlockRecovered(k, x, x.flight[s][j], false);
    BlockShape(k, x, x.flight[s][j], false);
    if f.largest <= |x.dec.hist| {
      SafeBlockReads(k, x.enc.hist, x.dec.hist, f);
    }
  }

  /** With honest acknowledgments no block in flight is too far ahead. */
  lemma NeverTooFarAhead(k: Config, maxBlocked: nat, xs: seq<Sys>, acts: seq<Action>, i: nat, s: Stream, j: nat)
    requires Run(k, maxBlocked, xs, acts) && Honest(xs, acts) && i < |xs|
    requires s in xs[i].flight && j < |xs[i].flight[s]|
    ensures Reaches(k.cap, |xs[i].dec.hist|, xs[i].flight[s][j].sent.largest)
  {
    hide InstrsOk, Step, StreamOk, ReadingOk, EncOk, ClaimsOk, SentOk, AllLive, Reaches, DecodeLargest;
    RunOk(k, maxBlocked, xs, acts, i, true);
    assert FlyingOk(k, xs[i], xs[i].flight[s][j], true);
    BlockRecovered(k, xs[i], xs[i].flight[s][j], true);
  }

  // ---- tables ----

  /** The decoder's table is always the encoder's as it was at the decoder's insert
      count, and the updates in flight make up the difference. */
  lemma DecoderFollows(k: Config, maxBlocked: nat, xs: seq<Sys>, acts: seq<Action>, i: nat)
    requires Run(k, maxBlocked, xs, acts) && i < |xs|
    ensures
      var x := xs[i];
      && x.dec.Ok() && |x.dec.hist| <= |x.enc.hist|
      && x.dec == Canon(x.enc.hist[..|x.dec.hist|], k.cap)
      && Updates(k.statics, x.dec, x.updates) == Some(Canon(x.enc.hist, k.cap))
  {
    hide Step, InstrsOk, Updates, EncOk, StreamOk, FlightOk, ReadingOk, DoneOk;
    RunOk(k, maxBlocked, xs, acts, i, false);
    AllUpdates(k, xs[i]);
  }

  lemma AllUpdates(k: Config, x: Sys)
    requires x.dec.Ok() && TablesOk(k, x)
    ensures Updates(k.statics, x.dec, x.updates) == Some(Canon(x.enc.hist, k.cap))
  {
    hide InstrOk;
    ReplayPrefix(k.statics, k.cap, x.enc.hist, |x.dec.hist|, x.updates, |x.updates|);
    assert x.updates[..|x.updates|] == x.updates && x.enc.hist[..|x.enc.hist|] == x.enc.hist;
  }

  /** Whatever it is told, the encoder has every entry above its mark in the table, and
      counts at least the streams that may be blocked, within the limit. */
  lemma EncoderInOrder(k: Config, maxBlocked: nat, xs: seq<Sys>, acts: seq<Action>, i: nat)
    requires Run(k, maxBlocked, xs, acts) && i < |xs|
    ensures
      var e := xs[i].enc;
      && (forall b :: e.acked < b <= |e.hist| ==> Live(e.hist, k.cap, b))
      && |BlockedStreams(e.usage, e.acked)| <= e.blocked <= e.maxBlocked
  {
    hide Step, TablesOk, StreamOk, FlightOk, ReadingOk, DoneOk;
    RunOk(k, maxBlocked, xs, acts, i, false);
    var e := xs[i].enc;
    forall b | e.acked < b <= |e.hist| ensures Live(e.hist, k.cap, b) {
      AckedEntriesLive(k.cap, e, b);
    }
  }

  /** An entry that an outstanding block refers to is not evicted by any step of a run. */
  lemma InUseNeverEvicted(k: Config, maxBlocked: nat, xs: seq<Sys>, acts: seq<Action>, i: nat, b: nat)
    requires Run(k, maxBlocked, xs, acts) && i < |acts|
    requires b in InUse(xs[i].enc.usage) && Live(xs[i].enc.hist, k.cap, b)
    ensures Live(xs[i + 1].enc.hist, k.cap, b)
  {
    hide Step, EncOk, TablesOk, StreamOk, FlightOk, ReadingOk, DoneOk;
    RunOk(k, maxBlocked, xs, acts, i, false);
    StepHolds(k, xs[i], acts[i], xs[i + 1], b);
  }

  lemma StepHolds(k: Config, x: Sys, a: Action, y: Sys, b: nat)
    requires EncOk(k.cap, x.enc) && Step(k, x, a, y)
    requires b in InUse(x.enc.usage) && Live(x.enc.hist, k.cap, b)
    ensures Live(y.enc.hist, k.cap, b)
  {
    hide Live, WorkOk, Followed, AckHeader, AckInsert, AckReset, Planned, After, DecodeLargest, ReadLine, Update;
    match a
    case Write(s, raw, plans) =>
      BlockWritten(ContextFor(k.statics, k.cap, x.enc, s), x.enc.hist, LowerAll(raw), plans, |raw|);
    case DeliverAck =>
      DeliverEncoder(k.cap, x);
    case _ =>
  }
}
