/** A run of the QPACK protocol in which a block is read as a header list that was
    never sent, and in which the decoder waits on a stream though the limit is zero.
    The writer makes every choice in it as hc/qpackencoder.go:302-388 does. */
module QpackMisread {
  import opened Headers
  import opened History
  import opened TableSpec
  import opened QpackSyntax
  import opened QpackReader
  import opened QpackWriter
  import opened Lookups
  import opened QpackPolicy
  import opened QpackBlock
  import opened QpackUsage
  import opened AckWriter
  import opened QpackProtocol
  import opened QpackBlocked
  import opened QpackScenes

  const CONFIG := Config([], 40)
  const SECOND := Pair([97], [120])
  const WRONG := Field([99], [120], false)

  /** The first `n` inserts. */
  function Hist3(n: nat): Hist
    requires n <= 3
  {
    [Entry1(97), SECOND, Entry1(99)][..n]
  }

  /** The table has room for one entry: the newest. */
  lemma Sizes(n: nat)
    requires 1 <= n <= 3
    ensures |Hist3(n)| == n && Newest(Hist3(n), 0) == 0
    ensures 33 <= Newest(Hist3(n), 1) <= 34 && (n > 1 ==> Newest(Hist3(n), 2) == 67)
    ensures LiveCount(Hist3(n), 40) == 1
    ensures forall b: nat :: Live(Hist3(n), 40, b) <==> b == n
  {
    hide Live;
    var h := Hist3(n);
    NewestStep(h, 0);
    if n > 1 {
      NewestStep(h, 1);
    }
    FitUnique(h, n, 40, 1);
    forall b | 1 <= b <= n ensures Live(h, 40, b) <==> b == n {
      LiveIsNewest(h, 40, b);
    }
    forall b: nat | b < 1 || b > n ensures !Live(h, 40, b) {
      NotLive(h, 40, b);
    }
  }

  lemma Inserts()
    ensures Hist3(0) == [] && Hist3(0) + [Entry1(97)] == Hist3(1)
    ensures Hist3(1) + [SECOND] == Hist3(2) && Hist3(2) + [Entry1(99)] == Hist3(3)
  {
  }

  function Second(): Flying {
    var f := Field([97], [120], false);
    Flying([f], Sent([f], [Named(Dynamic(1))], 1, Block(Prefix(2, false, 0), [NameDynamic(0, [120], false)])), false)
  }

  const ENC1 := Enc(Hist3(1), map[0 := []], 0, 0, 0)
  const ENC2 := Enc(Hist3(2), map[0 := [], 1 := [[1]]], 1, 0, 0)
  const ENC3 := Enc(Hist3(3), map[0 := [], 1 := [[1]], 2 := []], 2, 0, 0)
  const FLIGHT1: map<Stream, seq<Flying>> := map[0 := [Plain1(97)]]
  const FLIGHT2: map<Stream, seq<Flying>> := map[0 := [Plain1(97)], 1 := [Second()]]
  const FLIGHT3: map<Stream, seq<Flying>> := map[0 := [Plain1(97)], 1 := [Second()], 2 := [Plain1(99)]]
  const READ3: map<Stream, seq<Flying>> := map[0 := [Plain1(97)], 1 := [], 2 := [Plain1(99)]]

  function State(e: Enc, us: seq<Instr>, fl: map<Stream, seq<Flying>>, n: nat, rd: map<Stream, Reading>, w: Writer, claimed: nat, acks: seq<Msg>): Sys
    requires n <= 3
  {
    Sys(e, us, fl, Canon(Hist3(n), 40), rd, map[], w, claimed, acks, {}, {}, [])
  }

  function Begun(out: seq<Field>): map<Stream, Reading> { map[1 := Reading(2, 3, 3, out)] }

  // An insert is made and acknowledged.

  function At1(): Sys { State(ENC1, [InsertLiteral([97], [])], FLIGHT1, 0, map[], IDLE, 0, []) }

  function At2(): Sys { State(ENC1, [], FLIGHT1, 1, map[], IDLE, 0, []) }

  function At3(): Sys { State(ENC1, [], FLIGHT1, 1, map[], Writer(0, 1, true), 0, []) }

  function At4(): Sys { State(ENC1, [], FLIGHT1, 1, map[], Writer(1, 1, false), 1, [Increment(1)]) }

  function At5(): Sys { State(ENC1.(acked := 1), [], FLIGHT1, 1, map[], Writer(1, 1, false), 1, []) }

  // The block of the second insert refers to the entry that this insert evicts.

  function At6(): Sys { State(ENC2, [InsertNameDynamic(0, [120])], FLIGHT2, 1, map[], Writer(1, 1, false), 1, []) }

  function At7(): Sys { State(ENC2, [], FLIGHT2, 2, map[], Writer(1, 1, false), 1, []) }

  // The decoder begins on it, the second insert is acknowledged, and a third follows.

  function At8(): Sys { State(ENC2, [], FLIGHT2, 2, Begun([]), Writer(1, 1, false), 1, []) }

  function At9(): Sys { State(ENC2, [], FLIGHT2, 2, Begun([]), Writer(1, 2, true), 1, []) }

  function At10(): Sys { State(ENC2, [], FLIGHT2, 2, Begun([]), Writer(2, 2, false), 2, [Increment(1)]) }

  function At11(): Sys { State(ENC2.(acked := 2), [], FLIGHT2, 2, Begun([]), Writer(2, 2, false), 2, []) }

  function At12(): Sys { State(ENC3, [InsertLiteral([99], [])], FLIGHT3, 2, Begun([]), Writer(2, 2, false), 2, []) }

  function At13(): Sys { State(ENC3, [], FLIGHT3, 3, Begun([]), Writer(2, 2, false), 2, []) }

  function At14(): Sys { State(ENC3, [], FLIGHT3, 3, Begun([WRONG]), Writer(2, 2, false), 2, []) }

  function At15(): Sys {
    State(ENC3, [], READ3, 3, map[], Writer(2, 2, false), 2, []).(pending := map[1 := [3]], done := [Done(Second(), 2, 3, [WRONG])])
  }

  lemma {:induction false} Step1()
    ensures Step(CONFIG, Init(CONFIG, 0), Write(0, [Field1(97)], INSERT), At1())
  {
    hide Step, Canon, Hist3, LargestOf;
    var x := Init(CONFIG, 0);
    Inserts();
    Tops1();
    assert CanInsert(ContextFor([], 40, x.enc, 0), Start([]), Entry1(97));
    InsertWritten(CONFIG, x, 0, 97);
    assert x.enc.usage[0 := []] == ENC1.usage;
    assert Queue(x.flight, 0) + [Plain1(97)] == [Plain1(97)] && x.flight[0 := [Plain1(97)]] == FLIGHT1;
    assert x.updates + [InsertLiteral([97], [])] == At1().updates;
  }

  lemma {:induction false} Step2()
    ensures Step(CONFIG, At1(), DeliverUpdate, At2())
  {
    hide Step, Canon, Hist3;
    Inserts();
    InsertDelivered(CONFIG, At1(), Hist3(0), 97);
    assert At1().updates[1..] == [];
  }

  lemma {:induction false} Announcements()
    ensures Step(CONFIG, At2(), NoteInsert, At3()) && Step(CONFIG, At8(), NoteInsert, At9())
  {
    hide Step, LiveCount, Hist3;
    Sizes(1);
    Sizes(2);
    Announced(CONFIG, At2(), At3());
    Announced(CONFIG, At8(), At9());
  }

  lemma {:induction false} Timers()
    ensures Step(CONFIG, At3(), TimerFires, At4()) && Step(CONFIG, At9(), TimerFires, At10())
  {
    hide Step, Canon, Hist3;
    assert [] + [Increment(1)] == [Increment(1)];
    TimerFired(CONFIG, At3(), 1, At4());
    TimerFired(CONFIG, At9(), 1, At10());
  }

  lemma {:induction false} Increments()
    ensures Step(CONFIG, At4(), DeliverAck, At5()) && Step(CONFIG, At10(), DeliverAck, At11())
  {
    hide Step, Canon, Hist3, LargestOf;
    Sizes(1);
    Sizes(2);
    Tops1();
    assert [Increment(1)][1..] == [];
    assert BlockedStreams(ENC1.usage, 1) == {} && BlockedStreams(ENC2.usage, 2) == {};
    IncrementDelivered(CONFIG, At4(), 1, At5());
    IncrementDelivered(CONFIG, At10(), 1, At11());
  }

  const INSERT_BY_NAME: seq<Plan> := [DoInsert(Dynamic(1))]
  const WORK2 := Work(Hist3(2), 1, None, [Named(Dynamic(1))], [InsertNameDynamic(0, [120])])

  lemma SecondFits(c: Context)
    requires c == Context([], 40, 1, Some(1), {})
    ensures CanInsert(c, Start(Hist3(1)), SECOND) && Live(Hist3(1), 40, 1)
  {
    hide Live, Hist3;
    Sizes(1);
  }

  /** The insert evicts the entry whose name it uses, and as the new entry may not be
      referred to yet, the block refers to the evicted one. */
  lemma {:induction false} SecondPlanned(c: Context)
    requires c == Context([], 40, 1, Some(1), {})
    ensures Planned(c, Hist3(1), Second().raw, INSERT_BY_NAME, 1)
    ensures After(c, Hist3(1), Second().raw, INSERT_BY_NAME, 1) == WORK2
  {
    hide CanInsert, Live;
    var fs, h := Second().raw, Hist3(1);
    Inserts();
    SecondFits(c);
    assert Planned(c, h, fs, INSERT_BY_NAME, 0) && After(c, h, fs, INSERT_BY_NAME, 0) == Start(h);
    assert PlanOk(c, Start(h), fs[0], DoInsert(Dynamic(1)));
  }

  /** That is what the encoder decides, with one entry referenceable and nothing kept
      out of the table. */
  lemma OwnDecision(c: Context)
    requires c == Context([], 40, 1, Some(1), {})
    ensures LiveCount(Hist3(1), 40) == 1 && |Hist3(1)| == 1
    ensures Decide(c, Policy({}, 40), Start(Hist3(1)), 1, Second().raw[0]) == DoInsert(Dynamic(1))
  {
    hide Live, LiveCount, CanInsert;
    Sizes(1);
    FirstEntry();
    var h, p := Hist3(1), SECOND;
    var e := Entry([97], [], 1);
    assert Held(h, 1) == [e];
    assert Usable(h, 1, Some(1)) == [e] && AtRisk(h, 1, 1) == [] && Barred(h, 1, Some(1)) == [];
    assert Find([], [e], p, true) == Nowhere && Find([], [], p, true) == Nowhere;
    assert Find([], [e], p, false) == InDynamic(e);
    assert Accepts(c, Policy({}, 40), Start(h), p);
  }

  /** The first insert is the encoder's own decision too, and leaves one entry
      referenceable; so is the third, whatever is referenceable then. */
  lemma OwnInserts(c: Context, d: Context, refs: nat)
    requires c == Context([], 40, 0, Some(0), {}) && d == Context([], 40, 2, Some(2), {1}) && refs <= LiveCount(Hist3(2), 40)
    ensures Taken(c, Policy({}, 40), Start([]), 0, 1, Field1(97), DoInsert(NoRef))
    ensures |Hist3(2)| == 2 && Decide(d, Policy({}, 40), Start(Hist3(2)), refs, Field1(99)) == DoInsert(NoRef)
  {
    hide LiveCount, Hist3, CanInsert, Live, Find;
    FirstFits(c);
    FreshDecision(c, [], 0, 97);
    FirstReferenceable(c);
    Sizes(2);
    SecondNames();
    ThirdFits(d);
    FreshDecision(d, Hist3(2), refs, 99);
  }

  lemma FirstFits(c: Context)
    requires c == Context([], 40, 0, Some(0), {})
    ensures CanInsert(c, Start([]), Entry1(97)) && LiveCount([], 40) == 0
  {
  }

  lemma SecondNames()
    ensures |Hist3(2)| == 2 && forall i :: 0 <= i < 2 ==> Hist3(2)[i].name == [97]
  {
  }

  lemma FirstReferenceable(c: Context)
    requires c == Context([], 40, 0, Some(0), {}) && LiveCount([], 40) == 0
    requires Decide(c, Policy({}, 40), Start([]), 0, Field1(97)) == DoInsert(NoRef)
    ensures RefsAfter(c, Policy({}, 40), Start([]), 0, Field1(97)) == 1
  {
    hide Find, Live;
    var p := Entry1(97);
    assert Accepts(c, Policy({}, 40), Start([]), p);
    assert [] + [p] == [p];
    NewestStep([p], 0);
    assert Fit([p], 1, 40) == 1;
  }

  lemma SecondRefs()
    ensures Refs(WORK2.choices) == [1] && !AllLive(Hist3(2), 40, [1])
    ensures LowerAll(Second().raw) == Second().raw
  {
    hide Live, Hist3;
    Sizes(2);
    assert WORK2.choices[..0] == [];
    assert 1 in [1];
    assert Lower([97]) == [97];
    assert LowerAll(Second().raw)[0] == Second().raw[0];
  }

  lemma {:induction false} Step6()
    ensures Step(CONFIG, At5(), Write(1, Second().raw, INSERT_BY_NAME), At6())
  {
    hide Planned, After, Live, LowerAll, Refs, MaxOf, AllLive, Hist3, LargestOf, LiveCount;
    var x := At5();
    Tops1();
    Sizes(1);
    assert InUse(x.enc.usage) == {};
    SecondPlanned(ContextFor([], 40, x.enc, 1));
    SecondRefs();
    assert CanWrite(CONFIG, x, 1, Second().raw, INSERT_BY_NAME) && Written(CONFIG, x, 1, Second().raw, INSERT_BY_NAME) == WORK2;
    assert Launch(CONFIG, Second().raw, WORK2) == Second();
    assert BlocksOf(x.enc.usage, 1) + [Refs(WORK2.choices)] == [[1]];
    assert x.enc.usage[1 := [[1]]] == ENC2.usage;
    assert Queue(x.flight, 1) + [Second()] == [Second()] && x.flight[1 := [Second()]] == FLIGHT2;
    assert x.updates + WORK2.instrs == At6().updates;
  }

  lemma {:induction false} Step7()
    ensures Step(CONFIG, At6(), DeliverUpdate, At7())
  {
    hide LiveCount, Hist3, Live;
    Inserts();
    Sizes(1);
    CanonGet(Hist3(1), 40, 1, 1);
    assert Hist3(1)[0].name == [97] by { FirstEntry(); }
    CanonInsert(Hist3(1), 40, SECOND);
    assert At6().updates[1..] == [];
  }

  lemma FirstEntry()
    ensures |Hist3(1)| == 1 && Hist3(1)[0] == Entry1(97) && |Hist3(3)| == 3 && Hist3(3)[2] == Entry1(99)
  {
  }

  lemma {:induction false} Step8()
    ensures Step(CONFIG, At7(), BeginRead(1), At8())
  {
    hide LiveCount, Hist3;
    Sizes(2);
    assert At7().reading[1 := Reading(2, 3, 3, [])] == Begun([]);
  }

  lemma OnlyFirstInUse()
    ensures InUse(ENC2.usage) == {1}
  {
    var u := ENC2.usage;
    assert 1 in u && u[1][0] == [1] && 1 in u[1][0];
    forall b | b in InUse(u) ensures b == 1 {
      var s, j :| s in u && 0 <= j < |u[s]| && b in u[s][j];
    }
  }

  lemma ThirdFits(c: Context)
    requires c.cap == 40 && c.acked == 2 && c.inUse == {1}
    ensures CanInsert(c, Start(Hist3(2)), Entry1(99))
  {
    hide Live, Hist3;
    Sizes(2);
  }

  lemma {:induction false} Step12()
    ensures Step(CONFIG, At11(), Write(2, [Field1(99)], INSERT), At12())
  {
    hide Step, Canon, Hist3, LargestOf, CanInsert, InUse;
    var x := At11();
    Inserts();
    Tops1();
    Sizes(2);
    OnlyFirstInUse();
    ThirdFits(ContextFor([], 40, x.enc, 2));
    InsertWritten(CONFIG, x, 2, 99);
    assert x.enc.usage[2 := []] == ENC3.usage;
    assert Queue(x.flight, 2) + [Plain1(99)] == [Plain1(99)] && x.flight[2 := [Plain1(99)]] == FLIGHT3;
    assert x.updates + [InsertLiteral([99], [])] == At12().updates;
  }

  lemma {:induction false} Step13()
    ensures Step(CONFIG, At12(), DeliverUpdate, At13())
  {
    hide Step, Canon, Hist3;
    Inserts();
    Sizes(2);
    InsertDelivered(CONFIG, At12(), Hist3(2), 99);
    assert At12().updates[1..] == [];
  }

  lemma {:induction false} Step14()
    ensures Step(CONFIG, At13(), ReadField(1), At14())
  {
    hide LiveCount, Hist3, Live;
    Sizes(3);
    FirstEntry();
    CanonGet(Hist3(3), 40, 3, 3);
    assert [] + [WRONG] == [WRONG];
    assert Begun([])[1 := Reading(2, 3, 3, [WRONG])] == Begun([WRONG]);
  }

  lemma {:induction false} Step15()
    ensures Step(CONFIG, At14(), FinishRead(1), At15())
  {
    hide LiveCount, Hist3;
    Sizes(3);
    var x := At14();
    assert x.reading - {1} == map[];
    assert [Second()][1..] == [] && x.flight[1 := []] == READ3;
    assert Queue(x.pending, 1) + [3] == [3] && x.pending[1 := [3]] == map[1 := [3]];
  }

  function StateAt(i: nat): Sys {
    match i
    case 0 => Init(CONFIG, 0)
    case 1 => At1()
    case 2 => At2()
    case 3 => At3()
    case 4 => At4()
    case 5 => At5()
    case 6 => At6()
    case 7 => At7()
    case 8 => At8()
    case 9 => At9()
    case 10 => At10()
    case 11 => At11()
    case 12 => At12()
    case 13 => At13()
    case 14 => At14()
    case _ => At15()
  }

  function ActAt(i: nat): Action {
    match i
    case 0 => Write(0, [Field1(97)], INSERT)
    case 1 => DeliverUpdate
    case 2 => NoteInsert
    case 3 => TimerFires
    case 4 => DeliverAck
    case 5 => Write(1, Second().raw, INSERT_BY_NAME)
    case 6 => DeliverUpdate
    case 7 => BeginRead(1)
    case 8 => NoteInsert
    case 9 => TimerFires
    case 10 => DeliverAck
    case 11 => Write(2, [Field1(99)], INSERT)
    case 12 => DeliverUpdate
    case 13 => ReadField(1)
    case _ => FinishRead(1)
  }

  lemma StepAt(i: nat)
    requires i < 15
    ensures Step(CONFIG, StateAt(i), ActAt(i), StateAt(i + 1))
  {
    hide Step, At1, At2, At3, At4, At5, At6, At7, At8, At9, At10, At11, At12, At13, At14, At15;
    Step1();
    Step2();
    Announcements();
    Timers();
    Increments();
    Step6();
    Step7();
    Step8();
    Step12();
    Step13();
    Step14();
    Step15();
  }

  lemma HonestAt(i: nat)
    requires i < 15
    ensures TruthfulStep(StateAt(i), ActAt(i)) && DirectedStep(StateAt(i), ActAt(i))
  {
    hide At1, At2, At5, At6, At7, At8, At11, At12, At13, At14, At15, Canon, Hist3, Init;
  }

  /** In some honest run a block is sent that could be read then.  When the update
      sent with it has arrived, a decoder that has begun fails on it, and one that
      begins then takes another largest reference for its own and waits; with the next
      insert that one yields a header list that was never sent. */
  lemma UnsafeReachable() returns (xs: seq<Sys>, acts: seq<Action>)
    ensures Run(CONFIG, 0, xs, acts) && Honest(xs, acts) && |xs| == 16
    ensures xs[6] == At6() && xs[7] == At7() && xs[8] == At8() && xs[15] == At15()
  {
    hide Step, TruthfulStep, DirectedStep, StateAt, ActAt, At6, At7, At8, At15;
    xs, acts := seq(16, i requires 0 <= i < 16 => StateAt(i)), seq(15, i requires 0 <= i < 15 => ActAt(i));
    Milestones();
    forall i | 0 <= i < 15
      ensures Step(CONFIG, xs[i], acts[i], xs[i + 1]) && TruthfulStep(xs[i], acts[i]) && DirectedStep(xs[i], acts[i])
    {
      StepAt(i);
      HonestAt(i);
    }
  }

  lemma Milestones()
    ensures StateAt(0) == Init(CONFIG, 0)
    ensures StateAt(6) == At6() && StateAt(7) == At7() && StateAt(8) == At8() && StateAt(15) == At15()
  {
    hide At1, At2, At3, At4, At5, At6, At7, At8, At9, At10, At11, At12, At13, At14, At15;
  }

  /** The second block can be read when it is sent. */
  lemma ReadableWhenSent()
    ensures
      var x, b := At6(), Second().sent.block;
      && Queue(x.flight, 1) == [Second()] && x.dec.Ok()
      && DecodeLargest(|x.dec.hist|, 40, b.prefix.wrapped) == Some(1)
      && ReadLine([], x.dec, 1, b.lines[0]) == Some(Second().raw[0])
  {
    hide LiveCount, Hist3, Live;
    Sizes(1);
    FirstEntry();
    CanonGet(Hist3(1), 40, 1, 1);
  }

  /** Its line is an error once its update has arrived, and in the end it is misread. */
  lemma ErrorThenMisread()
    ensures At7().dec.Ok() && ReadLine([], At7().dec, 1, Second().sent.block.lines[0]) == None
    ensures At15().done == [Done(Second(), 2, 3, [WRONG])] && [WRONG] != LowerAll(Second().raw)
  {
    hide LiveCount, Hist3, Live;
    Sizes(2);
    CanonGet(Hist3(2), 40, 1, 1);
    SecondRefs();
  }

  /** In that run the decoder waits on a stream, for an insert the block does not refer
      to, though no stream may be blocked. */
  lemma LimitExceeded()
    ensures At8().enc.maxBlocked == 0 && Blocked(CONFIG, At8()) == {1}
    ensures var x := At8(); 1 in x.flight && |x.flight[1]| == 1 && Waits(CONFIG, x, 1, 0) && !InTime(CONFIG, x, 1, 0)
  {
    hide LiveCount, Hist3;
    Sizes(2);
    var x := At8();
    assert Waits(CONFIG, x, 1, 0);
    assert !Waits(CONFIG, x, 0, 0);
    assert Blocked(CONFIG, x) == {1};
  }
}
