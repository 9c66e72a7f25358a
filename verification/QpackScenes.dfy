/** Steps of the QPACK protocol that the example runs share. */
module QpackScenes {
  import opened Headers
  import opened History
  import opened TableSpec
  import opened QpackSyntax
  import opened QpackWriter
  import opened Lookups
  import opened QpackPolicy
  import opened QpackBlock
  import opened QpackUsage
  import opened AckWriter
  import opened QpackProtocol

  const INSERT: seq<Plan> := [DoInsert(NoRef)]

  /** A field of one octet's name and no value, as an entry and as a block without
      references. */
  function Entry1(c: Octet): Pair { Pair([c], []) }

  function Field1(c: Octet): Field { Field([c], [], false) }

  function Plain1(c: Octet): Flying {
    Flying([Field1(c)], Sent([Field1(c)], [Plain], 0, Block(Prefix(0, false, 0), [NameLiteral([c], [], false)])), true)
  }

  lemma Lower1(c: Octet)
    requires 97 <= c <= 122
    ensures LowerAll([Field1(c)]) == [Field1(c)]
  {
    assert Lower([c]) == [c];
    assert LowerAll([Field1(c)])[0] == Field1(c);
  }

  function InsertWork(h: Hist, c: Octet): Work {
    Work(h + [Entry1(c)], 0, None, [Plain], [InsertLiteral([c], [])])
  }

  lemma {:induction false} InsertPlanned(c: Context, h: Hist, o: Octet)
    requires CanInsert(c, Start(h), Entry1(o)) && !Allowed(c, |h| + 1)
    ensures Planned(c, h, [Field1(o)], INSERT, 1) && After(c, h, [Field1(o)], INSERT, 1) == InsertWork(h, o)
    ensures Refs([Plain]) == []
  {
    hide CanInsert;
    var fs := [Field1(o)];
    assert Planned(c, h, fs, INSERT, 0) && After(c, h, fs, INSERT, 0) == Start(h);
    assert PlanOk(c, Start(h), fs[0], DoInsert(NoRef));
    assert [Plain][..0] == [];
  }

  /** The encoder after it has inserted an entry that it may not refer to. */
  function Inserted(x: Sys, s: Stream, o: Octet): Sys {
    x.(enc := x.enc.(hist := x.enc.hist + [Entry1(o)], usage := x.enc.usage[s := BlocksOf(x.enc.usage, s)]),
       updates := x.updates + [InsertLiteral([o], [])],
       flight := if s in x.cancelled then x.flight else x.flight[s := Queue(x.flight, s) + [Plain1(o)]])
  }

  lemma {:induction false} InsertWritten(k: Config, x: Sys, s: Stream, o: Octet)
    requires 97 <= o <= 122
    requires
      var c := ContextFor(k.statics, k.cap, x.enc, s);
      CanInsert(c, Start(x.enc.hist), Entry1(o)) && !Allowed(c, |x.enc.hist| + 1)
    ensures Step(k, x, Write(s, [Field1(o)], INSERT), Inserted(x, s, o))
  {
    hide Planned, After, CanInsert, Live, Refs, LowerAll, InUse, WasBlocked;
    var c := ContextFor(k.statics, k.cap, x.enc, s);
    var w := InsertWork(x.enc.hist, o);
    Lower1(o);
    InsertPlanned(c, x.enc.hist, o);
    assert Written(k, x, s, [Field1(o)], INSERT) == w;
    assert AllLive(w.hist, k.cap, []);
    assert Launch(k, [Field1(o)], w) == Plain1(o);
    assert BlocksOf(x.enc.usage, s) + [] == BlocksOf(x.enc.usage, s);
  }

  /** The block for an entry that is inserted and referred to. */
  function Referred1(cap: nat, o: Octet, n: nat): Flying
    requires cap >= ENTRY_OVERHEAD
  {
    Flying([Field1(o)],
           Sent([Field1(o)], [Indexed(Dynamic(n))], n, Block(Prefix(EncodeLargest(cap, n), false, 0), [IndexedDynamic(0)])),
           true)
  }

  function ReferredWork(h: Hist, o: Octet): Work {
    Work(h + [Entry1(o)], |h| + 1, Some(|h| + 1), [Indexed(Dynamic(|h| + 1))], [InsertLiteral([o], [])])
  }

  lemma {:induction false} ReferredPlanned(c: Context, h: Hist, o: Octet)
    requires CanInsert(c, Start(h), Entry1(o)) && Allowed(c, |h| + 1)
    ensures Planned(c, h, [Field1(o)], INSERT, 1) && After(c, h, [Field1(o)], INSERT, 1) == ReferredWork(h, o)
    ensures Refs(ReferredWork(h, o).choices) == [|h| + 1]
  {
    hide CanInsert;
    var fs := [Field1(o)];
    assert Planned(c, h, fs, INSERT, 0) && After(c, h, fs, INSERT, 0) == Start(h);
    assert PlanOk(c, Start(h), fs[0], DoInsert(NoRef));
    assert ReferredWork(h, o).choices[..0] == [];
  }

  /** The encoder after it has inserted an entry and referred to it, on a stream that
      was not blocked. */
  function InsertedReferred(k: Config, x: Sys, s: Stream, o: Octet): Sys
    requires k.cap >= ENTRY_OVERHEAD
  {
    var n := |x.enc.hist| + 1;
    x.(enc := x.enc.(hist := x.enc.hist + [Entry1(o)], usage := x.enc.usage[s := BlocksOf(x.enc.usage, s) + [[n]]], blocked := x.enc.blocked + 1),
       updates := x.updates + [InsertLiteral([o], [])],
       flight := if s in x.cancelled then x.flight else x.flight[s := Queue(x.flight, s) + [Referred1(k.cap, o, n)]])
  }

  lemma {:induction false} ReferredWritten(k: Config, x: Sys, s: Stream, o: Octet)
    requires 97 <= o <= 122 && k.cap >= 33 && x.enc.acked <= |x.enc.hist| && !WasBlocked(x.enc, s)
    requires
      var c := ContextFor(k.statics, k.cap, x.enc, s);
      CanInsert(c, Start(x.enc.hist), Entry1(o)) && Allowed(c, |x.enc.hist| + 1)
    ensures Step(k, x, Write(s, [Field1(o)], INSERT), InsertedReferred(k, x, s, o))
  {
    hide Planned, After, CanInsert, Live, Refs, LowerAll, InUse, WasBlocked, EncodeLargest;
    var c := ContextFor(k.statics, k.cap, x.enc, s);
    var w := ReferredWork(x.enc.hist, o);
    Lower1(o);
    ReferredPlanned(c, x.enc.hist, o);
    NewEntryLive(x.enc.hist, k.cap, Entry1(o));
    assert Written(k, x, s, [Field1(o)], INSERT) == w;
    assert Launch(k, [Field1(o)], w) == Referred1(k.cap, o, |x.enc.hist| + 1);
  }

  /** The decoder takes in an insert. */
  lemma InsertDelivered(k: Config, x: Sys, h: Hist, o: Octet)
    requires k.cap >= 33 && x.dec == Canon(h, k.cap) && x.aw.sync == |h| && x.updates != [] && x.updates[0] == InsertLiteral([o], [])
    ensures Step(k, x, DeliverUpdate, x.(dec := Canon(h + [Entry1(o)], k.cap), updates := x.updates[1..]))
  {
    hide LiveCount;
    CanonInsert(h, k.cap, Entry1(o));
  }

  /** An insert is announced to the ack writer. */
  lemma {:induction false} Announced(k: Config, x: Sys, y: Sys)
    requires x.aw.sync < |x.dec.hist| && y == x.(aw := Writer(x.aw.last, |x.dec.hist|, true))
    ensures Step(k, x, NoteInsert, y)
  {
    assert x.acks + [] == x.acks;
  }

  /** The timer fires and there is something to announce. */
  lemma {:induction false} TimerFired(k: Config, x: Sys, v: nat, y: Sys)
    requires x.aw.armed && x.aw.sync == x.aw.last + v && v > 0
    requires y == x.(aw := Writer(x.aw.sync, x.aw.sync, false), claimed := x.claimed + v, acks := x.acks + [Increment(v)])
    ensures Step(k, x, TimerFires, y)
  {
    assert Future(x.claimed, [Increment(v)]) == Future(x.claimed + v, [Increment(v)][1..]);
  }

  /** An increment that leaves no stream blocked reaches the encoder. */
  lemma {:induction false} IncrementDelivered(k: Config, x: Sys, v: nat, y: Sys)
    requires x.acks != [] && x.acks[0] == Increment(v) && v > 0 && x.enc.acked + v <= |x.enc.hist|
    requires BlockedStreams(x.enc.usage, x.enc.acked + v) == {}
    requires y == x.(acks := x.acks[1..], enc := x.enc.(acked := x.enc.acked + v, blocked := 0))
    ensures Step(k, x, DeliverAck, y)
  {
  }

  /** The largest references of a stream with no block, or one. */
  lemma Tops1()
    ensures LargestOf([]) == 0 && LargestOf([[1]]) == 1 && LargestOf([[4]]) == 4 && MaxOf([1]) == 1
  {
    LargestOfOne([1]);
    LargestOfOne([4]);
    assert [1][..0] == [] && [4][..0] == [];
  }

  /** Inserting a field whose name is new is what the encoder decides, whatever is
      referenceable, if nothing is kept out of the table. */
  lemma FreshDecision(c: Context, h: Hist, refs: nat, o: Octet)
    requires c.statics == [] && refs <= LiveCount(h, c.cap) && CanInsert(c, Start(h), Entry1(o))
    requires forall i :: 0 <= i < |h| ==> h[i].name != [o]
    ensures Decide(c, Policy({}, c.cap), Start(h), refs, Field1(o)) == DoInsert(NoRef)
  {
    hide Live, LiveCount, Find;
    var p, n := Entry1(o), LiveCount(h, c.cap);
    var usable, barred, atRisk := Usable(h, refs, c.maxBase), Barred(h, refs, c.maxBase), AtRisk(h, n, refs);
    NoMatch(usable, p);
    NoMatch(atRisk, p);
    assert p !in Pairs(barred);
    assert Accepts(c, Policy({}, c.cap), Start(h), p);
  }

  lemma NoMatch(es: seq<Entry>, p: Pair)
    requires forall i :: 0 <= i < |es| ==> es[i].name != p.name
    ensures Find([], es, p, true) == Nowhere && Find([], es, p, false) == Nowhere
  {
    hide First, Find;
  }

  /** Entries of one size. */
  ghost predicate Uniform(h: Hist) {
    forall i :: 0 <= i < |h| ==> Size(h[i]) == 33
  }

  lemma {:induction false} UniformNewest(h: Hist, n: nat)
    requires Uniform(h) && n <= |h|
    ensures Newest(h, n) == 33 * n
  {
    if n > 0 {
      UniformNewest(h, n - 1);
      NewestStep(h, n - 1);
    } else {
      assert Total(h, |h|) - Total(h, |h|) == 0;
    }
  }

  /** How many of them a table holds. */
  lemma UniformLive(h: Hist, cap: nat)
    requires Uniform(h)
    ensures forall b :: 1 <= b <= |h| ==> (Live(h, cap, b) <==> 33 * (|h| - b + 1) <= cap)
    ensures LiveCount(h, cap) == Min(|h|, cap / 33)
  {
    forall b | 1 <= b <= |h| ensures Live(h, cap, b) <==> 33 * (|h| - b + 1) <= cap {
      UniformNewest(h, |h| - b + 1);
    }
    var n := Min(|h|, cap / 33);
    UniformNewest(h, n);
    if n < |h| {
      UniformNewest(h, n + 1);
    }
    FitUnique(h, |h|, cap, n);
  }
}
