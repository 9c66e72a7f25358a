/** Every step of the QPACK protocol keeps its invariant. */
module QpackSteps {
  import opened Headers
  import opened History
  import opened TableSpec
  import opened QpackSyntax
  import opened QpackReader
  import opened QpackWriter
  import opened QpackBlock
  import opened QpackUsage
  import opened AckWriter
  import opened QpackProtocol
  import opened Seqs

  // ---- message queues ----

  lemma {:induction false} AckTopsAppend(acks: seq<Msg>, m: Msg, s: Stream)
    ensures AckTops(acks + [m], s)
         == AckTops(acks, s) + if m.HeaderAck? && m.s == s && StreamCancel(s) !in acks then [m.largest] else []
  {
    if acks == [] {
      assert [] + [m] == [m];
      assert AckTops([m][1..], s) == [];
    } else {
      assert (acks + [m])[1..] == acks[1..] + [m];
      assert acks == [acks[0]] + acks[1..];
      AckTopsAppend(acks[1..], m, s);
    }
  }

  lemma {:induction false} FlightRefsAppend(fl: seq<Flying>, f: Flying)
    ensures FlightRefs(fl + [f]) == FlightRefs(fl) + if f.sent.largest > 0 then [Refs(f.sent.choices)] else []
  {
    if fl == [] {
      assert [] + [f] == [f];
      assert FlightRefs([f][1..]) == [];
    } else {
      assert (fl + [f])[1..] == fl[1..] + [f];
      FlightRefsAppend(fl[1..], f);
    }
  }

  lemma {:induction false} FlightRefsIn(fl: seq<Flying>, j: nat)
    requires j < |fl| && fl[j].sent.largest > 0
    ensures Refs(fl[j].sent.choices) in FlightRefs(fl)
  {
    if j > 0 {
      FlightRefsIn(fl[1..], j - 1);
    }
  }

  // ---- safe blocks stay decodable ----

  /** What a block in flight refers to is in use at the encoder. */
  lemma FlightInUse(k: Config, x: Sys, s: Stream, j: nat, b: nat, honest: bool)
    requires StreamOk(x, s, honest) && s in x.flight && j < |x.flight[s]|
    requires SentOk(k.statics, k.cap, x.enc.hist, x.flight[s][j].sent)
    requires b in Refs(x.flight[s][j].sent.choices)
    ensures b in InUse(x.enc.usage)
  {
    FlightRefsIn(x.flight[s], j);
    var refs, fr := Refs(x.flight[s][j].sent.choices), FlightRefs(x.flight[s]);
    var u := BlocksOf(x.enc.usage, s);
    var i :| 0 <= i < |fr| && fr[i] == refs;
    assert u[|u| - |fr| + i] == u[|u| - |fr|..][i] == refs && s in x.enc.usage;
  }

  /** Everything that has not been acknowledged is within M inserts of the newest. */
  lemma UnackedWindow(cap: nat, h: Hist, acked: nat)
    requires acked <= |h| && Unacked(h, acked) <= cap
    ensures |h| <= acked + cap / ENTRY_OVERHEAD
  {
    NewestMonotone(h, 0, |h| - acked);
  }

  lemma AckedAtMostInserts(x: Sys)
    requires ClaimsOk(x)
    ensures x.enc.acked <= |x.dec.hist|
  {
    FutureMonotone(x.enc.acked, x.enc.acked, x.acks);
  }

  // ---- each action preserves the invariant ----

  lemma WriteUpdates(k: Config, h: Hist, g: Hist, n: nat, us: seq<Instr>, vs: seq<Instr>)
    requires h <= g && n + |us| == |h|
    requires InstrsOk(k.statics, k.cap, h, n, us) && InstrsOk(k.statics, k.cap, g, |h|, vs)
    ensures InstrsOk(k.statics, k.cap, g, n, us + vs)
  {
    hide InstrOk;
    InstrsGrow(k.statics, k.cap, h, g, n, us);
    AllAtAppend(Follows(k.statics, k.cap, g), n, us, vs);
  }

  lemma WriteTables(k: Config, x: Sys, c: Context, w: Work)
    requires TablesOk(k, x) && Followed(c, x.enc.hist, w) && c.statics == k.statics && c.cap == k.cap
    ensures |x.dec.hist| + |x.updates + w.instrs| == |w.hist|
    ensures x.dec == Canon(w.hist[..|x.dec.hist|], k.cap)
    ensures InstrsOk(k.statics, k.cap, w.hist, |x.dec.hist|, x.updates + w.instrs)
  {
    hide InstrOk;
    assert x.enc.hist[..|x.dec.hist|] == w.hist[..|x.dec.hist|];
    WriteUpdates(k, x.enc.hist, w.hist, |x.dec.hist|, x.updates, w.instrs);
  }

  lemma SentGrows(k: Config, h: Hist, g: Hist, x: Sent)
    requires h <= g && SentOk(k.statics, k.cap, h, x)
    ensures SentOk(k.statics, k.cap, g, x)
  {
    forall j | 0 <= j < |x.fields|
      ensures ChoiceOk(k.statics, g, x.fields[j], x.choices[j])
    {
      ChoiceGrows(k.statics, h, g, x.fields[j], x.choices[j]);
    }
  }

  /** Recording a block that is now in flight, or was dropped with its stream. */
  lemma WriteStream(x: Sys, y: Sys, s: Stream, f: Flying, honest: bool)
    requires StreamOk(x, s, honest)
    requires y.acks == x.acks && y.pending == x.pending && y.reading == x.reading
    requires y.cancelled == x.cancelled && y.dead == x.dead && x.enc.acked == y.enc.acked
    requires BlocksOf(y.enc.usage, s)
          == BlocksOf(x.enc.usage, s) + if f.sent.largest > 0 then [Refs(f.sent.choices)] else []
    requires Queue(y.flight, s) == if s in x.cancelled then Queue(x.flight, s) else Queue(x.flight, s) + [f]
    ensures StreamOk(y, s, honest)
  {
    var u := BlocksOf(x.enc.usage, s);
    var more := if f.sent.largest > 0 then [Refs(f.sent.choices)] else [];
    if s !in x.cancelled {
      OutstandingMore(u, |AckTops(x.acks, s) + Queue(x.pending, s)|, FlightRefs(Queue(x.flight, s)), more, honest);
      FlightRefsAppend(Queue(x.flight, s), f);
    }
  }

  lemma OutstandingMore(u: seq<seq<nat>>, n: nat, fr: seq<seq<nat>>, more: seq<seq<nat>>, honest: bool)
    requires Outstanding(u, n, fr, honest)
    ensures Outstanding(u + more, n, fr + more, honest)
  {
    assert (u + more)[|u| - |fr|..] == u[|u| - |fr|..] + more;
  }

  /** A stream that an action does not touch. */
  lemma OtherStream(x: Sys, y: Sys, s: Stream, honest: bool)
    requires StreamOk(x, s, honest)
    requires (s in x.enc.usage <==> s in y.enc.usage) && BlocksOf(y.enc.usage, s) == BlocksOf(x.enc.usage, s)
    requires x.enc.acked <= y.enc.acked
    requires Queue(y.flight, s) == Queue(x.flight, s) && Queue(y.pending, s) == Queue(x.pending, s)
    requires s in y.reading ==> s in x.reading
    requires (s in y.cancelled <==> s in x.cancelled) && (s in y.dead <==> s in x.dead)
    requires AckTops(y.acks, s) == AckTops(x.acks, s) && (StreamCancel(s) in y.acks <==> StreamCancel(s) in x.acks)
    ensures StreamOk(y, s, honest)
  {
  }

  /** A largest reference that the table has lost has been acknowledged. */
  lemma WrittenLargest(c: Context, h: Hist, fs: seq<Field>, w: Work)
    requires WorkOk(c, h, fs, w)
    ensures 0 < w.largest ==> w.largest <= c.acked || Live(w.hist, c.cap, w.largest)
  {
    if c.acked < w.largest {
      assert w.largest in Refs(w.choices);
      NewestMonotone(w.hist, |w.hist| - w.largest + 1, |w.hist| - c.acked);
    }
  }

  lemma WriteFlying(k: Config, x: Sys, t: Stream, j: nat, c: Context, w: Work, y: Sys, honest: bool)
    requires StreamOk(x, t, honest) && t in x.flight && j < |x.flight[t]| && FlyingOk(k, x, x.flight[t][j], honest)
    requires c.cap == k.cap && c.inUse == InUse(x.enc.usage) && x.enc.hist <= w.hist && InUseHeld(c, x.enc.hist, w)
    requires y.enc.hist == w.hist && y.enc.acked == x.enc.acked
    ensures FlyingOk(k, y, x.flight[t][j], honest)
  {
    hide Live, StreamOk, Refs, LowerAll;
    var f := x.flight[t][j];
    SentGrows(k, x.enc.hist, w.hist, f.sent);
    forall b | b in Refs(f.sent.choices) && Live(x.enc.hist, k.cap, b)
      ensures Live(w.hist, k.cap, b)
    {
      FlightInUse(k, x, t, j, b, honest);
    }
  }

  lemma WriteFlight(k: Config, x: Sys, s: Stream, raw: seq<Field>, c: Context, w: Work, y: Sys, honest: bool)
    requires FlightOk(k, x, honest) && (forall t :: StreamOk(x, t, honest)) && Sendable(k, raw, w)
    requires c == ContextFor(k.statics, k.cap, x.enc, s)
    requires WorkOk(c, x.enc.hist, LowerAll(raw), w) && InUseHeld(c, x.enc.hist, w)
    requires y.enc.hist == w.hist && y.enc.acked == x.enc.acked
    requires y.flight == if s in x.cancelled then x.flight
                         else x.flight[s := Queue(x.flight, s) + [Launch(k, raw, w)]]
    ensures FlightOk(k, y, honest)
  {
    hide StreamOk, Live, InUseHeld;
    PlannedSentOk(c, x.enc.hist, LowerAll(raw), w);
    WrittenLargest(c, x.enc.hist, LowerAll(raw), w);
    assert FlyingOk(k, y, Launch(k, raw, w), honest);
    hide FlyingOk, Launch, WorkOk;
    assert x.enc.hist <= w.hist by { WorkHistory(c, x.enc.hist, LowerAll(raw), w); }
    forall t, j | t in y.flight && 0 <= j < |y.flight[t]|
      ensures FlyingOk(k, y, y.flight[t][j], honest)
    {
      if t == s && s !in x.cancelled && j == |Queue(x.flight, s)| {
        assert y.flight[t][j] == Launch(k, raw, w);
      } else {
        assert y.flight[t][j] == x.flight[t][j] && FlyingOk(k, x, x.flight[t][j], honest);
        WriteFlying(k, x, t, j, c, w, y, honest);
      }
    }
  }

  lemma WorkHistory(c: Context, h: Hist, fs: seq<Field>, w: Work)
    requires WorkOk(c, h, fs, w)
    ensures h <= w.hist
  {
  }

  predicate RecordedFor(x: Sys, y: Sys, s: Stream, w: Work, f: Flying) {
    && f.sent.largest == w.largest && f.sent.choices == w.choices
    && y == x.(enc := Record(x.enc, s, w), updates := x.updates + w.instrs,
               flight := if s in x.cancelled then x.flight else x.flight[s := Queue(x.flight, s) + [f]])
  }

  lemma WriteOther(x: Sys, y: Sys, s: Stream, w: Work, f: Flying, t: Stream, honest: bool)
    requires StreamOk(x, t, honest) && t != s && RecordedFor(x, y, s, w, f)
    ensures StreamOk(y, t, honest)
  {
    OtherStream(x, y, t, honest);
  }

  lemma WriteOwn(x: Sys, y: Sys, s: Stream, w: Work, f: Flying, honest: bool)
    requires StreamOk(x, s, honest) && RecordedFor(x, y, s, w, f)
    ensures StreamOk(y, s, honest)
  {
    WriteStream(x, y, s, f, honest);
  }

  lemma WriteStreams(x: Sys, y: Sys, s: Stream, w: Work, f: Flying, honest: bool)
    requires (forall t :: StreamOk(x, t, honest)) && RecordedFor(x, y, s, w, f)
    ensures forall t :: StreamOk(y, t, honest)
  {
    forall t ensures StreamOk(y, t, honest) {
      if t == s { WriteOwn(x, y, s, w, f, honest); } else { WriteOther(x, y, s, w, f, t, honest); }
    }
  }

  lemma WriteReading(k: Config, x: Sys, y: Sys, s: Stream, w: Work, f: Flying, honest: bool)
    requires (forall t :: ReadingOk(k, x, t, honest)) && RecordedFor(x, y, s, w, f)
    ensures forall t :: ReadingOk(k, y, t, honest)
  {
    forall t ensures ReadingOk(k, y, t, honest) {
      assert ReadingOk(k, x, t, honest);
    }
  }

  lemma WriteKeeps(k: Config, x: Sys, s: Stream, raw: seq<Field>, plans: seq<Plan>, honest: bool)
    requires Inv(k, x, honest) && CanWrite(k, x, s, raw, plans)
    ensures Sendable(k, raw, Written(k, x, s, raw, plans)) && Inv(k, DoWrite(k, x, s, raw, plans), honest)
  {
    WrittenSendable(k, x, s, raw, plans);
    var c := ContextFor(k.statics, k.cap, x.enc, s);
    var w := Written(k, x, s, raw, plans);
    var y := DoWrite(k, x, s, raw, plans);
    BlockWritten(c, x.enc.hist, LowerAll(raw), plans, |raw|);
    RecordKeeps(k.statics, k.cap, x.enc, s, LowerAll(raw), w);
    WriteTables(k, x, c, w);
    WriteStreams(x, y, s, w, Launch(k, raw, w), honest);
    WriteFlight(k, x, s, raw, c, w, y, honest);
    WriteReading(k, x, y, s, w, Launch(k, raw, w), honest);
  }

  /** Updates always apply: the decoder follows the encoder insert by insert. */
  lemma DeliverTables(k: Config, x: Sys)
    requires x.dec.Ok() && TablesOk(k, x) && x.updates != []
    ensures Update(k.statics, x.dec, x.updates[0]).Some?
    ensures TablesOk(k, DoDeliverUpdate(k, x)) && |x.dec.hist| < |DoDeliverUpdate(k, x).dec.hist|
  {
    assert InstrOk(k.statics, k.cap, x.enc.hist, |x.dec.hist|, x.updates[0]);
  }

  /** An action that leaves the encoder's record, the blocks and the queues alone. */
  lemma Untouched(k: Config, x: Sys, y: Sys, honest: bool)
    requires forall s :: StreamOk(x, s, honest) && ReadingOk(k, x, s, honest)
    requires y == x.(dec := y.dec, updates := y.updates, aw := y.aw, claimed := y.claimed, enc := x.enc.(maxBlocked := y.enc.maxBlocked))
    requires |x.dec.hist| <= |y.dec.hist|
    ensures forall s :: StreamOk(y, s, honest) && ReadingOk(k, y, s, honest)
  {
    forall s ensures StreamOk(y, s, honest) && ReadingOk(k, y, s, honest) {
      assert StreamOk(x, s, honest) && ReadingOk(k, x, s, honest);
      OtherStream(x, y, s, honest);
    }
  }

  lemma DeliverUpdateKeeps(k: Config, x: Sys, honest: bool)
    requires Inv(k, x, honest) && x.updates != []
    ensures Update(k.statics, x.dec, x.updates[0]).Some?
    ensures Inv(k, DoDeliverUpdate(k, x), honest)
  {
    hide InstrsOk, StreamOk, ReadingOk, FlyingOk, ClaimsOk, EncOk, ReadRight, Update;
    DeliverTables(k, x);
    var t := Update(k.statics, x.dec, x.updates[0]).value;
    var y := x.(dec := t, updates := x.updates[1..]);
    assert y == DoDeliverUpdate(k, x);
    Untouched(k, x, y, honest);
    SameFlight(k, x, y, honest);
    if honest {
      MoreInserts(x, y);
    }
  }

  /** The blocks in flight depend on the encoder alone. */
  lemma SameFlight(k: Config, x: Sys, y: Sys, honest: bool)
    requires FlightOk(k, x, honest) && y.flight == x.flight && y.enc.hist == x.enc.hist && x.enc.acked <= y.enc.acked
    ensures FlightOk(k, y, honest)
  {
    hide SentOk, AllLive;
    forall s, j | s in y.flight && 0 <= j < |y.flight[s]| ensures FlyingOk(k, y, y.flight[s][j], honest) {
      assert FlyingOk(k, x, x.flight[s][j], honest);
    }
  }

  /** Claims stay true as more is inserted. */
  lemma MoreInserts(x: Sys, y: Sys)
    requires ClaimsOk(x) && |x.dec.hist| <= |y.dec.hist|
    requires y == x.(dec := y.dec, updates := y.updates)
    ensures ClaimsOk(y)
  {
    forall s ensures PendingOk(Queue(y.pending, s), |y.dec.hist|) { assert PendingOk(Queue(x.pending, s), |x.dec.hist|); }
  }

  lemma NoteInsertKeeps(k: Config, x: Sys, honest: bool)
    requires Inv(k, x, honest) && x.aw.sync < |x.dec.hist|
    ensures Inv(k, Selects(x, Available(|x.dec.hist|)), honest)
  {
    hide InstrsOk, StreamOk, ReadingOk, FlyingOk, ClaimsOk, EncOk, ReadRight;
    var y := Selects(x, Available(|x.dec.hist|));
    assert x.acks + [] == x.acks;
    Untouched(k, x, y, honest);
    SameFlight(k, x, y, honest);
    if honest {
      SelectsClaims(x, Available(|x.dec.hist|));
    }
  }

  /** What the decoder takes the largest reference of a block for: itself, exactly in
      the window. */
  lemma Recovered(cap: nat, t: nat, r: nat)
    requires r > 0 ==> cap >= ENTRY_OVERHEAD
    ensures var d := DecodeLargest(t, cap, EncodeLargest(cap, r));
      && d.Some? && (d.value == r <==> Recovers(cap, t, r)) && (r == 0 ==> d.value == 0)
      && (r > 0 && Reaches(cap, t, r) ==> d.value > 0)
  {
    if r > 0 {
      LargestRecovered(cap, t, r);
      if r + cap / ENTRY_OVERHEAD <= t {
        DecodedPositive(cap, t, r);
      }
    }
  }

  lemma DecodedPositive(cap: nat, t: nat, r: nat)
    requires cap >= ENTRY_OVERHEAD && 0 < r && r + cap / ENTRY_OVERHEAD <= t
    ensures var d := DecodeLargest(t, cap, EncodeLargest(cap, r)); d.Some? && d.value > 0
  {
    var m := cap / ENTRY_OVERHEAD;
    var k, y := Multiple(t + m, m * 2);
  }

  /** A safe block never falls behind; where acknowledgments are honest no block is
      too far ahead, and one that has fallen behind has been acknowledged. */
  lemma BlockRecovered(k: Config, x: Sys, f: Flying, honest: bool)
    requires EncOk(k.cap, x.enc) && |x.dec.hist| <= |x.enc.hist| && FlyingOk(k, x, f, honest) && (honest ==> ClaimsOk(x))
    ensures
      var r, d := f.sent.largest, DecodeLargest(|x.dec.hist|, k.cap, f.sent.block.prefix.wrapped);
      && d.Some? && (r == 0 ==> d.value == 0) && (d.value == r <==> Recovers(k.cap, |x.dec.hist|, r))
      && (f.safe ==> NotPassed(k.cap, |x.dec.hist|, r))
      && (honest ==> Reaches(k.cap, |x.dec.hist|, r) && (r > 0 ==> d.value > 0) && (d.value == r || r <= x.enc.acked))
  {
    hide LinesFor;
    var r := f.sent.largest;
    if r > 0 {
      assert r in Refs(f.sent.choices);
      if Live(x.enc.hist, k.cap, r) {
        LiveWindow(k.cap, x.enc.hist, r);
      }
      if honest {
        AckedAtMostInserts(x);
        UnackedWindow(k.cap, x.enc.hist, x.enc.acked);
      }
    }
    Recovered(k.cap, |x.dec.hist|, r);
  }

  /** An action that only changes how far the block of `s` has been read. */
  lemma OnlyReading(k: Config, x: Sys, y: Sys, s: Stream, honest: bool)
    requires Inv(k, x, honest) && y == x.(reading := y.reading) && ReadingOk(k, y, s, honest)
    requires y.reading.Keys <= x.reading.Keys + {s} && Queue(x.flight, s) != []
    requires forall t :: t != s && t in y.reading ==> y.reading[t] == x.reading[t]
    ensures Inv(k, y, honest)
  {
    hide InstrsOk, PendingOk, SentOk, AllLive, EncOk, Canon, LowerAll, Recovers;
    forall t ensures StreamOk(y, t, honest) { assert StreamOk(x, t, honest); BeginStream(x, y, s, t, honest); }
    forall t ensures ReadingOk(k, y, t, honest) { assert ReadingOk(k, x, t, honest); }
  }

  lemma BeginStream(x: Sys, y: Sys, s: Stream, t: Stream, honest: bool)
    requires StreamOk(x, t, honest) && Queue(x.flight, s) != []
    requires y == x.(reading := y.reading) && y.reading.Keys <= x.reading.Keys + {s}
    ensures StreamOk(y, t, honest)
  {
  }

  lemma BeginKeeps(k: Config, x: Sys, s: Stream, honest: bool)
    requires Inv(k, x, honest) && CanBegin(x, s)
    ensures Inv(k, DoBegin(k, x, s), honest) && s in DoBegin(k, x, s).reading
  {
    hide InstrsOk, StreamOk, EncOk, ClaimsOk, DecodeLargest, LinesFor, AllLive, Recovers;
    var f := x.flight[s][0];
    assert FlyingOk(k, x, f, honest);
    BlockRecovered(k, x, f, honest);
    var l := DecodeLargest(|x.dec.hist|, k.cap, f.sent.block.prefix.wrapped).value;
    var y := DoBegin(k, x, s);
    assert y == x.(reading := x.reading[s := Reading(|x.dec.hist|, l, l, [])]);
    OnlyReading(k, x, y, s, honest);
  }

  /** Every line of a block whose largest reference was recovered reads as its field,
      or is an error. */
  lemma RecoveredLineReads(k: Config, x: Sys, s: Stream, i: nat, honest: bool)
    requires Inv(k, x, honest) && s in x.flight && x.flight[s] != []
    requires i < |x.flight[s][0].sent.fields| && x.flight[s][0].sent.largest <= |x.dec.hist|
    ensures var f := x.flight[s][0].sent;
      && i < |f.block.lines|
      && var d := ReadLine(k.statics, x.dec, f.largest, f.block.lines[i]); d == Some(f.fields[i]) || d == None
  {
    hide ReadLine, LineFor, StreamOk, InstrsOk, ClaimsOk;
    var f := x.flight[s][0].sent;
    assert FlyingOk(k, x, x.flight[s][0], honest);
    NoPostBase(k.statics, k.cap, x.enc.hist, f, i);
    LineReads(k.statics, k.cap, x.enc.hist, x.dec.hist, f.largest, f.fields[i], f.choices[i]);
  }

  lemma SafeBlockReads(k: Config, h: Hist, g: Hist, f: Sent)
    requires g <= h && f.largest <= |g|
    requires SentOk(k.statics, k.cap, h, f) && AllLive(h, k.cap, Refs(f.choices))
    ensures forall i :: 0 <= i < |f.fields| ==>
      ReadLine(k.statics, Canon(g, k.cap), f.largest, f.block.lines[i]) == Some(f.fields[i])
  {
    forall b | b in Refs(f.choices) ensures Live(g, k.cap, b) {
      LiveEarlier(g, h, k.cap, b);
    }
    BlockReads(k.statics, k.cap, h, g, f);
  }

  lemma ReadKeeps(k: Config, x: Sys, s: Stream, honest: bool)
    requires Inv(k, x, honest) && CanRead(x, s)
    ensures Inv(k, DoRead(k, x, s), honest)
  {
    hide InstrsOk, StreamOk, EncOk, ClaimsOk, ReadLine, AllLive, Recovers, FlyingOk;
    var f, r := x.flight[s][0].sent, x.reading[s];
    var n := |r.out|;
    assert ReadingOk(k, x, s, honest);
    BlockShape(k, x, x.flight[s][0], honest);
    var d := ReadLine(k.statics, x.dec, r.base, f.block.lines[n]);
    if d.Some? {
      if r.largest == f.largest {
        RecoveredLineReads(k, x, s, n, honest);
        assert f.fields[..n] + [f.fields[n]] == f.fields[..n + 1];
      }
      var y := DoRead(k, x, s);
      assert y == x.(reading := x.reading[s := r.(out := r.out + [d.value])]);
      OnlyReading(k, x, y, s, honest);
    }
  }

  lemma BlockShape(k: Config, x: Sys, f: Flying, honest: bool)
    requires FlyingOk(k, x, f, honest)
    ensures |f.sent.block.lines| == |f.sent.fields| && f.sent.largest == MaxOf(Refs(f.sent.choices))
    ensures f.sent.fields == LowerAll(f.raw)
  {
  }

  lemma FinishStream(k: Config, x: Sys, s: Stream, honest: bool)
    requires StreamOk(x, s, honest) && ReadingOk(k, x, s, honest) && CanFinish(x, s)
    requires x.flight[s][0].sent.largest == MaxOf(Refs(x.flight[s][0].sent.choices))
    ensures StreamOk(DoFinish(x, s), s, honest)
  {
    hide Recovers, NotPassed, Reaches, DoFinish, FlightRefs, Outstanding, Leads, Refs, MaxOf;
    FinishFrame(x, s);
    var f, l := x.flight[s][0].sent, x.reading[s].largest;
    var u, rest := BlocksOf(x.enc.usage, s), FlightRefs(x.flight[s][1..]);
    var a, q := AckTops(x.acks, s), Queue(x.pending, s);
    if f.largest > 0 {
      var refs := Refs(f.choices);
      if l > 0 {
        OutstandingRead(u, |a + q|, refs, rest, 1, honest);
        Assoc(a, q, [l]);
        if honest {
          LeadsPush(a + q, l, refs, rest, u, x.enc.acked);
        }
      } else {
        OutstandingRead(u, |a + q|, refs, rest, 0, honest);
      }
    }
  }

  /** What finishing a block changes. */
  lemma FinishFrame(x: Sys, s: Stream)
    requires CanFinish(x, s)
    ensures
      var y, l, f := DoFinish(x, s), x.reading[s].largest, x.flight[s][0].sent;
      && Queue(y.flight, s) == x.flight[s][1..] && s !in y.reading
      && Queue(y.pending, s) == (if l > 0 then Queue(x.pending, s) + [l] else Queue(x.pending, s))
      && y.enc == x.enc && y.acks == x.acks && y.cancelled == x.cancelled && y.dead == x.dead
      && FlightRefs(x.flight[s]) == (if f.largest > 0 then [Refs(f.choices)] + FlightRefs(x.flight[s][1..]) else FlightRefs(x.flight[s][1..]))
  {
    hide Refs;
    assert [] + FlightRefs(x.flight[s][1..]) == FlightRefs(x.flight[s][1..]);
  }

  /** The oldest block in flight is read; it may or may not be acknowledged. */
  lemma OutstandingRead(u: seq<seq<nat>>, n: nat, refs: seq<nat>, rest: seq<seq<nat>>, d: nat, honest: bool)
    requires Outstanding(u, n, [refs] + rest, honest) && d <= 1 && (honest ==> d == 1)
    ensures Outstanding(u, n + d, rest, honest)
  {
    assert u[|u| - |rest|..] == u[|u| - |[refs] + rest|..][1..];
  }

  lemma LeadsPush(tops: seq<nat>, l: nat, refs: seq<nat>, rest: seq<seq<nat>>, u: seq<seq<nat>>, acked: nat)
    requires Leads(tops, u, acked) && Outstanding(u, |tops|, [refs] + rest, true) && (l == MaxOf(refs) || MaxOf(refs) <= acked)
    ensures Leads(tops + [l], u, acked)
  {
    assert u[|tops|] == u[|tops|..][0] == refs;
  }

  lemma FinishFlight(k: Config, x: Sys, s: Stream, honest: bool)
    requires FlightOk(k, x, honest) && CanFinish(x, s)
    ensures FlightOk(k, DoFinish(x, s), honest)
  {
    var y := DoFinish(x, s);
    forall t, j | t in y.flight && 0 <= j < |y.flight[t]|
      ensures FlyingOk(k, y, y.flight[t][j], honest)
    {
      if t == s {
        assert y.flight[s][j] == x.flight[s][j + 1];
        assert FlyingOk(k, x, x.flight[s][j + 1], honest);
      } else {
        assert FlyingOk(k, x, x.flight[t][j], honest);
      }
    }
  }

  lemma FinishStreams(k: Config, x: Sys, s: Stream, honest: bool)
    requires (forall t :: StreamOk(x, t, honest) && ReadingOk(k, x, t, honest)) && FlightOk(k, x, honest) && CanFinish(x, s)
    ensures forall t :: StreamOk(DoFinish(x, s), t, honest) && ReadingOk(k, DoFinish(x, s), t, honest)
  {
    var y := DoFinish(x, s);
    assert FlyingOk(k, x, x.flight[s][0], honest);
    BlockShape(k, x, x.flight[s][0], honest);
    hide FlyingOk;
    forall t ensures StreamOk(y, t, honest) && ReadingOk(k, y, t, honest) {
      assert StreamOk(x, t, honest) && ReadingOk(k, x, t, honest);
      if t == s { FinishStream(k, x, s, honest); } else { OtherStream(x, y, t, honest); }
    }
  }

  /** A block that has been read to its end yields the header list it was written for,
      if it was safe or its largest reference was recovered. */
  lemma FinishOutput(k: Config, x: Sys, s: Stream, honest: bool)
    requires Inv(k, x, honest) && CanFinish(x, s)
    ensures ReadRight(k.cap, Done(x.flight[s][0], x.reading[s].start, x.reading[s].largest, x.reading[s].out), honest)
  {
    hide StreamOk, InstrsOk, SentOk, Recovers, NotPassed, Reaches;
    assert ReadingOk(k, x, s, honest) && FlyingOk(k, x, x.flight[s][0], honest);
    BlockShape(k, x, x.flight[s][0], honest);
    var f := x.flight[s][0].sent;
    assert f.fields[..|f.fields|] == f.fields;
  }

  lemma FinishKeeps(k: Config, x: Sys, s: Stream, honest: bool)
    requires Inv(k, x, honest) && CanFinish(x, s)
    ensures Inv(k, DoFinish(x, s), honest)
  {
    hide InstrsOk, StreamOk, ReadingOk, FlyingOk, EncOk, Canon, ReadRight;
    FinishOutput(k, x, s, honest);
    FinishFlight(k, x, s, honest);
    FinishStreams(k, x, s, honest);
    if honest {
      FinishPending(x, s);
    }
  }

  lemma FinishPending(x: Sys, s: Stream)
    requires CanFinish(x, s) && forall t :: PendingOk(Queue(x.pending, t), |x.dec.hist|)
    ensures forall t :: PendingOk(Queue(DoFinish(x, s).pending, t), |x.dec.hist|)
  {
    forall t ensures PendingOk(Queue(DoFinish(x, s).pending, t), |x.dec.hist|) {
      assert PendingOk(Queue(x.pending, t), |x.dec.hist|);
    }
  }

  lemma EmitAckStream(x: Sys, s: Stream, honest: bool)
    requires StreamOk(x, s, honest) && Queue(x.pending, s) != []
    ensures StreamOk(DoEmitAck(x, s), s, honest)
  {
    var y := DoEmitAck(x, s);
    var l := x.pending[s][0];
    AckTopsAppend(x.acks, HeaderAck(s, l), s);
    if s !in x.cancelled {
      assert AckTops(y.acks, s) + Queue(y.pending, s) == AckTops(x.acks, s) + Queue(x.pending, s);
    }
  }

  /** A truthful event keeps the claims within what the decoder has. */
  lemma SelectsClaims(x: Sys, e: Event)
    requires ClaimsOk(x) && (Emits(x.aw, e) ==> x.aw.last == x.claimed)
    requires e.Read? ==> e.largest <= |x.dec.hist|
    requires e.Available? ==> e.base <= |x.dec.hist|
    ensures ClaimsOk(Selects(x, e))
  {
    hide PendingOk;
    var out := Output(x.aw, e);
    HandleClaims(x.aw, x.claimed, e);
    FutureAppend(x.enc.acked, x.acks, out);
    FutureMonotone(Future(x.enc.acked, x.acks), x.claimed, out);
    assert forall m :: m in x.acks + out ==> m in x.acks || m in out;
  }

  lemma EmitOther(x: Sys, y: Sys, m: Msg, t: Stream, honest: bool)
    requires StreamOk(x, t, honest) && y == x.(acks := x.acks + [m], pending := y.pending, aw := y.aw, claimed := y.claimed)
    requires Queue(y.pending, t) == Queue(x.pending, t)
    requires m.Increment? || m.s != t
    ensures StreamOk(y, t, honest)
  {
    AckTopsAppend(x.acks, m, t);
    OtherStream(x, y, t, honest);
  }

  /** Nothing about the blocks depends on the ack writer. */
  lemma ReadingKept(k: Config, x: Sys, y: Sys, honest: bool)
    requires forall t :: ReadingOk(k, x, t, honest)
    requires y == x.(aw := y.aw, claimed := y.claimed, acks := y.acks, pending := y.pending)
    ensures forall t :: ReadingOk(k, y, t, honest)
  {
    forall t ensures ReadingOk(k, y, t, honest) { assert ReadingOk(k, x, t, honest); }
  }

  lemma EmitAckKeeps(k: Config, x: Sys, s: Stream, honest: bool)
    requires Inv(k, x, honest) && Queue(x.pending, s) != []
    ensures Inv(k, DoEmitAck(x, s), honest)
  {
    hide InstrsOk, EncOk, FlyingOk, ReadingOk, StreamOk, ClaimsOk, ReadRight;
    var y := DoEmitAck(x, s);
    var l := x.pending[s][0];
    forall t ensures StreamOk(y, t, honest) {
      assert StreamOk(x, t, honest);
      if t == s { EmitAckStream(x, s, honest); } else { EmitOther(x, y, HeaderAck(s, l), t, honest); }
    }
    ReadingKept(k, x, y, honest);
    SameFlight(k, x, y, honest);
    if honest {
      EmitAckClaims(x, s);
    }
  }

  lemma EmitAckClaims(x: Sys, s: Stream)
    requires ClaimsOk(x) && Queue(x.pending, s) != []
    ensures ClaimsOk(DoEmitAck(x, s))
  {
    var y, l := DoEmitAck(x, s), x.pending[s][0];
    assert PendingOk(Queue(x.pending, s), |x.dec.hist|) && l == Queue(x.pending, s)[0];
    forall t ensures PendingOk(Queue(y.pending, t), |y.dec.hist|) { assert PendingOk(Queue(x.pending, t), |x.dec.hist|); }
    SelectsClaims(x, Read(s, l));
  }

  lemma TimerKeeps(k: Config, x: Sys, honest: bool)
    requires Inv(k, x, honest) && (honest ==> TruthfulStep(x, TimerFires))
    ensures Inv(k, Selects(x, Timer), honest)
  {
    hide InstrsOk, EncOk, FlyingOk, ReadingOk, StreamOk, ClaimsOk, ReadRight;
    var y := Selects(x, Timer);
    forall t ensures StreamOk(y, t, honest) {
      assert StreamOk(x, t, honest);
      if x.aw.sync > x.aw.last {
        EmitOther(x, y, Increment(x.aw.sync - x.aw.last), t, honest);
      } else {
        assert x.acks + [] == x.acks;
        OtherStream(x, y, t, honest);
      }
    }
    ReadingKept(k, x, y, honest);
    SameFlight(k, x, y, honest);
    if honest {
      SelectsClaims(x, Timer);
    }
  }

  lemma CancelOwn(x: Sys, s: Stream, honest: bool)
    requires StreamOk(x, s, honest)
    ensures StreamOk(DoCancel(x, s), s, honest)
  {
    hide MaxOf;
    AckTopsAppend(x.acks, StreamCancel(s), s);
    var a, q := AckTops(x.acks, s), Queue(x.pending, s);
    assert forall j :: 0 <= j < |a| ==> (a + q)[j] == a[j];
  }

  lemma CancelOther(x: Sys, s: Stream, t: Stream, honest: bool)
    requires StreamOk(x, t, honest) && t != s
    ensures StreamOk(DoCancel(x, s), t, honest)
  {
    AckTopsAppend(x.acks, StreamCancel(s), t);
    OtherStream(x, DoCancel(x, s), t, honest);
  }

  lemma CancelKeeps(k: Config, x: Sys, s: Stream, honest: bool)
    requires Inv(k, x, honest)
    ensures Inv(k, DoCancel(x, s), honest)
  {
    hide InstrsOk, EncOk, FlyingOk, StreamOk, ClaimsOk, ReadRight, Recovers, NotPassed, Reaches;
    var y := DoCancel(x, s);
    forall t ensures StreamOk(y, t, honest) {
      assert StreamOk(x, t, honest);
      if t == s { CancelOwn(x, s, honest); } else { CancelOther(x, s, t, honest); }
    }
    forall t ensures ReadingOk(k, y, t, honest) { assert ReadingOk(k, x, t, honest); }
    forall t, j | t in y.flight && 0 <= j < |y.flight[t]| ensures FlyingOk(k, y, y.flight[t][j], honest) {
      assert FlyingOk(k, x, x.flight[t][j], honest);
      SameFlying(k, x, y, x.flight[t][j], honest);
    }
    if honest {
      SelectsClaims(x, Cancelled(s));
      PendingSame(Selects(x, Cancelled(s)), y);
    }
  }

  lemma SameFlying(k: Config, x: Sys, y: Sys, f: Flying, honest: bool)
    requires FlyingOk(k, x, f, honest) && y.enc == x.enc
    ensures FlyingOk(k, y, f, honest)
  {
    hide SentOk, AllLive;
  }

  lemma PendingSame(x: Sys, y: Sys)
    requires ClaimsOk(x) && y == x.(cancelled := y.cancelled, flight := y.flight, reading := y.reading)
    ensures ClaimsOk(y)
  {
    hide PendingOk, Future;
  }

  // ---- acknowledgments reach the encoder ----

  lemma UsageOfOthers(e: Enc, s: Stream, t: Stream)
    requires s != t
    ensures (t in AckHeader(e, s).usage <==> t in e.usage) && BlocksOf(AckHeader(e, s).usage, t) == BlocksOf(e.usage, t)
    ensures (t in AckReset(e, s).usage <==> t in e.usage) && BlocksOf(AckReset(e, s).usage, t) == BlocksOf(e.usage, t)
  {
  }

  lemma AckTopsRest(acks: seq<Msg>, t: Stream)
    requires acks != [] && (acks[0].Increment? || acks[0].s != t)
    ensures AckTops(acks[1..], t) == AckTops(acks, t)
    ensures StreamCancel(t) in acks[1..] <==> StreamCancel(t) in acks
  {
    assert acks == [acks[0]] + acks[1..];
  }

  lemma DeliverFrame(x: Sys, y: Sys, t: Stream)
    requires x.acks != [] && (x.acks[0].Increment? || x.acks[0].s != t) && y == DoDeliverAck(x)
    ensures y == x.(acks := x.acks[1..], enc := y.enc, dead := y.dead)
    ensures (t in y.enc.usage <==> t in x.enc.usage) && BlocksOf(y.enc.usage, t) == BlocksOf(x.enc.usage, t)
    ensures t in y.dead <==> t in x.dead
  {
    if !x.acks[0].Increment? {
      UsageOfOthers(x.enc, x.acks[0].s, t);
    }
  }

  lemma AckOther(x: Sys, y: Sys, t: Stream, honest: bool)
    requires StreamOk(x, t, honest) && x.acks != [] && (x.acks[0].Increment? || x.acks[0].s != t)
    requires y == x.(acks := x.acks[1..], enc := y.enc, dead := y.dead)
    requires (t in y.enc.usage <==> t in x.enc.usage) && BlocksOf(y.enc.usage, t) == BlocksOf(x.enc.usage, t)
    requires (t in y.dead <==> t in x.dead) && x.enc.acked <= y.enc.acked
    ensures StreamOk(y, t, honest)
  {
    AckTopsRest(x.acks, t);
    OtherStream(x, y, t, honest);
  }

  lemma LeadsPop(l: nat, tops: seq<nat>, u: seq<seq<nat>>, acked: nat)
    requires Leads([l] + tops, u, acked)
    ensures u != [] && (MaxOf(u[0]) == l || MaxOf(u[0]) <= acked) && Leads(tops, u[1..], acked)
  {
    assert ([l] + tops)[0] == l;
    assert forall j :: 0 <= j < |tops| ==> ([l] + tops)[j + 1] == tops[j];
  }

  lemma OutstandingPop(u: seq<seq<nat>>, n: nat, fr: seq<seq<nat>>, honest: bool)
    requires n > 0 && Outstanding(u, n, fr, honest)
    ensures u != [] && Outstanding(u[1..], n - 1, fr, honest)
  {
    assert u[1..][|u| - 1 - |fr|..] == u[|u| - |fr|..];
  }

  lemma UsageAfterAck(e: Enc, s: Stream)
    ensures BlocksOf(e.usage, s) != [] ==> BlocksOf(AckHeader(e, s).usage, s) == BlocksOf(e.usage, s)[1..]
    ensures s !in e.usage ==> AckHeader(e, s) == e
    ensures e.acked <= AckHeader(e, s).acked
  {
  }

  lemma HeaderAckFinds(x: Sys, s: Stream, l: nat, honest: bool)
    requires StreamOk(x, s, honest) && x.acks != [] && x.acks[0] == HeaderAck(s, l) && s !in x.dead
    ensures s in x.enc.usage && x.enc.usage[s] != []
    ensures honest ==> MaxOf(x.enc.usage[s][0]) == l || MaxOf(x.enc.usage[s][0]) <= x.enc.acked
    ensures
      var rest, q, u := AckTops(x.acks[1..], s), Queue(x.pending, s), x.enc.usage[s];
      if s in x.cancelled then |rest| <= |u[1..]| && (honest ==> Leads(rest, u[1..], x.enc.acked))
      else Outstanding(u[1..], |rest + q|, FlightRefs(Queue(x.flight, s)), honest) && (honest ==> Leads(rest + q, u[1..], x.enc.acked))
  {
    hide MaxOf;
    var rest, q, u := AckTops(x.acks[1..], s), Queue(x.pending, s), BlocksOf(x.enc.usage, s);
    assert AckTops(x.acks, s) == [l] + rest;
    if s in x.cancelled {
      if honest {
        LeadsPop(l, rest, u, x.enc.acked);
      }
    } else {
      assert ([l] + rest) + q == [l] + (rest + q);
      OutstandingPop(u, |[l] + (rest + q)|, FlightRefs(Queue(x.flight, s)), honest);
      if honest {
        LeadsPop(l, rest + q, u, x.enc.acked);
      }
    }
  }

  lemma HeaderAckOwn(x: Sys, y: Sys, s: Stream, l: nat, honest: bool)
    requires StreamOk(x, s, honest) && x.acks != [] && x.acks[0] == HeaderAck(s, l)
    requires y == x.(acks := x.acks[1..], enc := AckHeader(x.enc, s))
    ensures StreamOk(y, s, honest)
  {
    hide AckHeader;
    assert x.acks == [x.acks[0]] + x.acks[1..];
    UsageAfterAck(x.enc, s);
    if s !in x.dead {
      HeaderAckFinds(x, s, l, honest);
    }
  }

  lemma CancelAckOwn(x: Sys, s: Stream, honest: bool)
    requires StreamOk(x, s, honest) && x.acks != [] && x.acks[0] == StreamCancel(s)
    ensures StreamOk(DoDeliverAck(x), s, honest)
  {
    assert StreamCancel(s) in x.acks;
  }

  /** Taken at face value, the acknowledgments still to come never exceed what has
      been claimed, and the encoder never goes further than that. */
  lemma DeliverClaims(x: Sys)
    requires ClaimsOk(x) && x.acks != [] && (forall s :: StreamOk(x, s, true)) && !Misdirected(x)
    ensures ClaimsOk(DoDeliverAck(x))
    ensures x.acks[0].Increment? ==> x.acks[0].v > 0 && x.enc.acked + x.acks[0].v <= |x.dec.hist|
    ensures DoDeliverAck(x).enc.acked <= Claim(x.enc.acked, x.acks[0])
  {
    hide StreamOk, PendingOk;
    var m := x.acks[0];
    var y := DoDeliverAck(x);
    assert m in x.acks;
    assert forall n :: n in y.acks ==> n in x.acks;
    if m.HeaderAck? {
      assert StreamOk(x, m.s, true);
      MarkClaimed(x, m.s, m.largest);
    }
    FutureMonotone(y.enc.acked, Claim(x.enc.acked, m), y.acks);
    FutureMonotone(Claim(x.enc.acked, m), Claim(x.enc.acked, m), y.acks);
  }

  /** A header acknowledgment raises the mark no further than what it stands for. */
  lemma MarkClaimed(x: Sys, s: Stream, l: nat)
    requires x.acks != [] && x.acks[0] == HeaderAck(s, l) && StreamOk(x, s, true) && !Misdirected(x)
    ensures AckHeader(x.enc, s).acked <= Max(x.enc.acked, l)
  {
    hide MaxOf, LargestOf;
    if s !in x.dead {
      HeaderAckFinds(x, s, l, true);
    }
  }

  lemma DeliverStreams(k: Config, x: Sys, honest: bool)
    requires x.acks != [] && (forall s :: StreamOk(x, s, honest) && ReadingOk(k, x, s, honest))
    ensures forall s :: StreamOk(DoDeliverAck(x), s, honest) && ReadingOk(k, DoDeliverAck(x), s, honest)
  {
    hide AckHeader, AckInsert, AckReset;
    var m := x.acks[0];
    var y := DoDeliverAck(x);
    MarkRises(x);
    forall s ensures StreamOk(y, s, honest) && ReadingOk(k, y, s, honest) {
      assert StreamOk(x, s, honest) && ReadingOk(k, x, s, honest);
      if m.Increment? || m.s != s {
        DeliverFrame(x, y, s);
        AckOther(x, y, s, honest);
      } else if m.HeaderAck? {
        HeaderAckOwn(x, y, s, m.largest, honest);
      } else {
        CancelAckOwn(x, s, honest);
      }
    }
  }

  lemma MarkRises(x: Sys)
    requires x.acks != []
    ensures x.enc.acked <= DoDeliverAck(x).enc.acked
  {
  }

  lemma DeliverEncoder(cap: nat, x: Sys)
    requires EncOk(cap, x.enc) && x.acks != []
    ensures EncOk(cap, DoDeliverAck(x).enc) && DoDeliverAck(x).enc.hist == x.enc.hist
  {
    match x.acks[0]
    case HeaderAck(s, _) => AckHeaderKeeps(cap, x.enc, s);
    case Increment(v) => AckInsertKeeps(cap, x.enc, v);
    case StreamCancel(s) => AckResetKeeps(cap, x.enc, s);
  }

  lemma DeliverAckKeeps(k: Config, x: Sys, honest: bool)
    requires Inv(k, x, honest) && x.acks != [] && (honest ==> !Misdirected(x))
    ensures Inv(k, DoDeliverAck(x), honest)
  {
    hide InstrsOk, StreamOk, ReadingOk, FlyingOk, EncOk, ClaimsOk, ReadRight, AckHeader, AckInsert, AckReset;
    DeliverEncoder(k.cap, x);
    DeliverStreams(k, x, honest);
    MarkRises(x);
    var y := DoDeliverAck(x);
    assert y == x.(acks := y.acks, enc := y.enc, dead := y.dead);
    SameFlight(k, x, y, honest);
    if honest {
      DeliverClaims(x);
    }
  }

  lemma SetMaxBlockedKeeps(k: Config, x: Sys, m: nat, honest: bool)
    requires Inv(k, x, honest) && x.enc.blocked <= m
    ensures Inv(k, x.(enc := x.enc.(maxBlocked := m)), honest)
  {
    Untouched(k, x, x.(enc := x.enc.(maxBlocked := m)), honest);
  }

  // ---- every action ----

  lemma InitOk(k: Config, maxBlocked: nat, honest: bool)
    ensures Inv(k, Init(k, maxBlocked), honest)
  {
    var x := Init(k, maxBlocked);
    assert x.enc.hist[..0] == [];
    assert BlockedStreams(x.enc.usage, 0) == {};
    forall s ensures StreamOk(x, s, honest) && ReadingOk(k, x, s, honest) {
    }
  }

  lemma StepKeeps(k: Config, x: Sys, a: Action, y: Sys, honest: bool)
    requires Inv(k, x, honest) && Step(k, x, a, y) && (honest ==> TruthfulStep(x, a) && DirectedStep(x, a))
    ensures Inv(k, y, honest)
  {
    hide Inv, Update, Planned, After, DoWrite;
    match a
    case Write(s, raw, plans) => WriteKeeps(k, x, s, raw, plans, honest);
    case DeliverUpdate => DeliverUpdateKeeps(k, x, honest);
    case NoteInsert => NoteInsertKeeps(k, x, honest);
    case BeginRead(s) => BeginKeeps(k, x, s, honest);
    case ReadField(s) => ReadKeeps(k, x, s, honest);
    case FinishRead(s) => FinishKeeps(k, x, s, honest);
    case EmitAck(s) => EmitAckKeeps(k, x, s, honest);
    case TimerFires => TimerKeeps(k, x, honest);
    case CancelStream(s) => CancelKeeps(k, x, s, honest);
    case DeliverAck => DeliverAckKeeps(k, x, honest);
    case SetMaxBlocked(m) => SetMaxBlockedKeeps(k, x, m, honest);
  }
}
