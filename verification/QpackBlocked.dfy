/** The streams on which the decoder waits, in every run. */
module QpackBlocked {
  import opened Headers
  import opened History
  import opened QpackReader
  import opened QpackWriter
  import opened QpackBlock
  import opened QpackUsage
  import opened QpackProtocol
  import opened QpackSteps
  import opened QpackRuns

  /** The insert count at which the decoder began on block `j` of `s`, or would. */
  function StartOf(x: Sys, s: Stream, j: nat): nat {
    if j == 0 && s in x.reading then x.reading[s].start else |x.dec.hist|
  }

  /** What the decoder waits for before it reads block `j` of `s`. */
  function Wanted(k: Config, x: Sys, s: Stream, j: nat): Option<nat>
    requires s in x.flight && j < |x.flight[s]|
  {
    if j == 0 && s in x.reading then Some(x.reading[s].largest)
    else DecodeLargest(|x.dec.hist|, k.cap, x.flight[s][j].sent.block.prefix.wrapped)
  }

  predicate Waits(k: Config, x: Sys, s: Stream, j: nat)
    requires s in x.flight && j < |x.flight[s]|
  {
    Wanted(k, x, s, j).Some? && Wanted(k, x, s, j).value > |x.dec.hist|
  }

  /** The decoder began on the block, or would, within the window. */
  predicate InTime(k: Config, x: Sys, s: Stream, j: nat)
    requires s in x.flight && j < |x.flight[s]|
  {
    Recovers(k.cap, StartOf(x, s, j), x.flight[s][j].sent.largest)
  }

  /** In every run the decoder waits for the largest reference of a block, and nothing
      else, exactly if it is in time. */
  lemma WaitsExactly(k: Config, maxBlocked: nat, xs: seq<Sys>, acts: seq<Action>, i: nat, s: Stream, j: nat)
    requires Run(k, maxBlocked, xs, acts) && i < |xs|
    requires s in xs[i].flight && j < |xs[i].flight[s]|
    ensures Wanted(k, xs[i], s, j) == Some(xs[i].flight[s][j].sent.largest) <==> InTime(k, xs[i], s, j)
  {
    hide Step, InstrsOk, DecodeLargest, SentOk, EncOk, AllLive, Live, Recovers, NotPassed, Reaches;
    RunOk(k, maxBlocked, xs, acts, i, false);
    var x, f := xs[i], xs[i].flight[s][j];
    assert FlyingOk(k, x, f, false) && ReadingOk(k, x, s, false);
    BlockRecovered(k, x, f, false);
  }

  /** With honest acknowledgments it is in time for every safe block, and the encoder
      has counted on a block that waits exactly if it is in time for it. */
  lemma WaitsCounted(k: Config, maxBlocked: nat, xs: seq<Sys>, acts: seq<Action>, i: nat, s: Stream, j: nat)
    requires Run(k, maxBlocked, xs, acts) && Honest(xs, acts) && i < |xs|
    requires s in xs[i].flight && j < |xs[i].flight[s]|
    ensures
      var x, f := xs[i], xs[i].flight[s][j];
      && (f.safe ==> InTime(k, x, s, j))
      && (Waits(k, x, s, j) ==> (f.sent.largest > x.enc.acked <==> InTime(k, x, s, j)))
  {
    hide Step, InstrsOk, DecodeLargest, SentOk, EncOk, AllLive, Live, NotPassed, Reaches;
    RunOk(k, maxBlocked, xs, acts, i, true);
    var x, f := xs[i], xs[i].flight[s][j];
    AckedAtMostInserts(x);
    assert FlyingOk(k, x, f, true) && ReadingOk(k, x, s, true);
    BlockRecovered(k, x, f, true);
  }

  lemma FlightIsOutstanding(k: Config, x: Sys, s: Stream, j: nat)
    requires StreamOk(x, s, false) && s in x.flight && j < |x.flight[s]|
    requires SentOk(k.statics, k.cap, x.enc.hist, x.flight[s][j].sent) && x.flight[s][j].sent.largest > 0
    ensures s in x.enc.usage && x.flight[s][j].sent.largest <= LargestOf(x.enc.usage[s])
  {
    FlightRefsIn(x.flight[s], j);
    var refs, fr := Refs(x.flight[s][j].sent.choices), FlightRefs(x.flight[s]);
    var u := BlocksOf(x.enc.usage, s);
    var i :| 0 <= i < |fr| && fr[i] == refs;
    var n := |u| - |fr| + i;
    assert u[n] == u[|u| - |fr|..][i] == refs && Tops(u)[n] == MaxOf(refs);
    assert MaxOf(refs) in Tops(u);
  }

  /** The streams on which the decoder waits, for blocks it is in time for. */
  ghost function BlockedInTime(k: Config, x: Sys): set<Stream> {
    set s | s in x.flight && exists j :: 0 <= j < |x.flight[s]| && Waits(k, x, s, j) && InTime(k, x, s, j)
  }

  /** All streams on which the decoder waits. */
  ghost function Blocked(k: Config, x: Sys): set<Stream> {
    set s | s in x.flight && exists j :: 0 <= j < |x.flight[s]| && Waits(k, x, s, j)
  }

  ghost predicate AllInTime(k: Config, x: Sys) {
    forall s, j :: s in x.flight && 0 <= j < |x.flight[s]| && Waits(k, x, s, j) ==> InTime(k, x, s, j)
  }

  /** In every state of every run in which the mark has not passed the decoder's inserts,
      the decoder waits on no more streams than the limit allows, if it is in time for
      all of them; those it is in time for do not exceed the limit. */
  lemma BlockedStreamsBounded(k: Config, maxBlocked: nat, xs: seq<Sys>, acts: seq<Action>, i: nat)
    requires Run(k, maxBlocked, xs, acts) && i < |xs| && xs[i].enc.acked <= |xs[i].dec.hist|
    ensures |BlockedInTime(k, xs[i])| <= xs[i].enc.blocked <= xs[i].enc.maxBlocked
    ensures AllInTime(k, xs[i]) ==> |Blocked(k, xs[i])| <= xs[i].enc.blocked
  {
    hide Run, ReadingOk, InstrsOk, Wanted, InTime;
    RunOk(k, maxBlocked, xs, acts, i, false);
    var x := xs[i];
    forall s | s in BlockedInTime(k, x)
      ensures s in BlockedStreams(x.enc.usage, x.enc.acked)
    {
      var j :| 0 <= j < |x.flight[s]| && Waits(k, x, s, j) && InTime(k, x, s, j);
      WaitsExactly(k, maxBlocked, xs, acts, i, s, j);
      assert FlyingOk(k, x, x.flight[s][j], false) && StreamOk(x, s, false);
      FlightIsOutstanding(k, x, s, j);
    }
    SubsetSize(BlockedInTime(k, x), BlockedStreams(x.enc.usage, x.enc.acked));
    if AllInTime(k, x) {
      assert Blocked(k, x) == BlockedInTime(k, x);
    }
  }

  /** So it is in every state of an honest run. */
  lemma BlockedInHonestRuns(k: Config, maxBlocked: nat, xs: seq<Sys>, acts: seq<Action>, i: nat)
    requires Run(k, maxBlocked, xs, acts) && Honest(xs, acts) && i < |xs|
    ensures |BlockedInTime(k, xs[i])| <= xs[i].enc.blocked <= xs[i].enc.maxBlocked
    ensures AllInTime(k, xs[i]) ==> |Blocked(k, xs[i])| <= xs[i].enc.blocked
  {
    hide Run, Honest, ReadingOk, StreamOk, FlightOk, EncOk, TablesOk, DoneOk, AllInTime, BlockedInTime, Blocked;
    RunOk(k, maxBlocked, xs, acts, i, true);
    AckedAtMostInserts(xs[i]);
    BlockedStreamsBounded(k, maxBlocked, xs, acts, i);
  }
}
