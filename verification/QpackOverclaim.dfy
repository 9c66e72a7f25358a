/** A run of the QPACK protocol in which the encoder holds acknowledged what the
    decoder has not received.  The ack writer assigns the largest reference of the last
    block acknowledged (hc/qpackdecoder.go:64), also when it has announced more. */
module QpackOverclaim {
  import opened Headers
  import opened History
  import opened TableSpec
  import opened QpackSyntax
  import opened QpackWriter
  import opened QpackPolicy
  import opened QpackUsage
  import opened AckWriter
  import opened QpackProtocol
  import opened QpackScenes

  const CONFIG := Config([], 100)

  /** The first `n` inserts. */
  function First7(n: nat): Hist
    requires n <= 7
  {
    [Entry1(97), Entry1(98), Entry1(99), Entry1(100), Entry1(101), Entry1(102), Entry1(103)][..n]
  }

  lemma Inserts(n: nat)
    requires n <= 7
    ensures Uniform(First7(n)) && |First7(n)| == n
    ensures forall i :: 0 <= i < n ==> First7(n)[i] == Entry1(97 + i)
    ensures n < 7 ==> First7(n) + [Entry1(97 + n)] == First7(n + 1)
  {
  }

  /** The table has room for three entries. */
  lemma Room(c: Context, n: nat)
    requires n < 7 && c.cap == 100 && c.acked <= n && 33 * (n - c.acked) <= 67 && (n >= 3 ==> n - 2 !in c.inUse)
    ensures CanInsert(c, Start(First7(n)), Entry1(97 + n))
  {
    hide Live, Newest, LiveCount, First7;
    Inserts(n);
    Inserts(n + 1);
    UniformLive(First7(n), 100);
    UniformLive(First7(n + 1), 100);
    UniformNewest(First7(n), n - c.acked);
    forall b | Live(First7(n), 100, b) && !Live(First7(n + 1), 100, b) ensures Evictable(c, Start(First7(n)), b) {
      LiveInRange(First7(n), 100, b);
    }
  }

  /** The inserts of this run, and of those that go on from it, are the encoder's own
      decisions, whatever is referenceable. */
  lemma OwnDecisions(c: Context, n: nat, refs: nat)
    requires n < 7 && c.statics == [] && c.cap == 100 && c.acked <= n && 33 * (n - c.acked) <= 67 && (n >= 3 ==> n - 2 !in c.inUse)
    requires |First7(n)| == n && refs <= LiveCount(First7(n), 100)
    ensures Decide(c, Policy({}, 100), Start(First7(n)), refs, Field1(97 + n)) == DoInsert(NoRef)
  {
    hide First7, CanInsert, LiveCount;
    Inserts(n);
    Room(c, n);
    FreshDecision(c, First7(n), refs, 97 + n);
  }

  lemma LiveInRange(h: Hist, cap: nat, b: nat)
    requires Live(h, cap, b)
    ensures 1 <= b <= |h|
  {
  }

  function First(): Flying { Referred1(100, 97, 1) }

  function Fourth(): Flying { Referred1(100, 100, 4) }

  // The encoder and the blocks in flight, after one to four inserts.

  const ENC1 := Enc(First7(1), map[0 := [[1]]], 0, 1, 1)
  const ENC2 := Enc(First7(2), map[0 := [[1]], 1 := []], 0, 1, 1)
  const ENC3 := Enc(First7(3), map[0 := [[1]], 1 := [], 2 := []], 0, 1, 1)
  const ENC4 := Enc(First7(4), map[1 := [], 2 := [], 3 := [[4]]], 2, 1, 1)
  const FLIGHT1: map<Stream, seq<Flying>> := map[0 := [First()]]
  const FLIGHT2: map<Stream, seq<Flying>> := map[0 := [First()], 1 := [Plain1(98)]]
  const READ2: map<Stream, seq<Flying>> := map[0 := [], 1 := [Plain1(98)]]
  const FLIGHT3: map<Stream, seq<Flying>> := map[0 := [], 1 := [Plain1(98)], 2 := [Plain1(99)]]
  const FLIGHT4: map<Stream, seq<Flying>> := map[0 := [], 1 := [Plain1(98)], 2 := [Plain1(99)], 3 := [Fourth()]]
  const DONE := [Done(First(), 2, 1, [Field1(97)])]

  function Update1(o: Octet): Instr { InsertLiteral([o], []) }

  /** A state in which nothing is being read. */
  function Idle(e: Enc, us: seq<Instr>, fl: map<Stream, seq<Flying>>, n: nat, w: Writer, claimed: nat, acks: seq<Msg>): Sys
    requires n <= 7
  {
    Sys(e, us, fl, Canon(First7(n), 100), map[], map[], w, claimed, acks, {}, {}, [])
  }

  // Two inserts, of which the first is referred to.

  function At1(): Sys { Idle(ENC1, [Update1(97)], FLIGHT1, 0, IDLE, 0, []) }

  function At2(): Sys { Idle(ENC2, [Update1(97), Update1(98)], FLIGHT2, 0, IDLE, 0, []) }

  function At3(): Sys { Idle(ENC2, [Update1(98)], FLIGHT2, 1, IDLE, 0, []) }

  function At4(): Sys { Idle(ENC2, [Update1(98)], FLIGHT2, 1, Writer(0, 1, true), 0, []) }

  function At5(): Sys { Idle(ENC2, [], FLIGHT2, 2, Writer(0, 1, true), 0, []) }

  function At6(): Sys { Idle(ENC2, [], FLIGHT2, 2, Writer(0, 2, true), 0, []) }

  function At7(): Sys { Idle(ENC2, [], FLIGHT2, 2, Writer(2, 2, false), 2, [Increment(2)]) }

  // The block that refers to the first insert is read and acknowledged.

  function At8(): Sys { At7().(reading := map[0 := Reading(2, 1, 1, [])]) }

  function At9(): Sys { At7().(reading := map[0 := Reading(2, 1, 1, [Field1(97)])]) }

  function At10(): Sys { Idle(ENC2, [], READ2, 2, Writer(2, 2, false), 2, [Increment(2)]).(pending := map[0 := [1]], done := DONE) }

  /** A state in which that has happened. */
  function Later(e: Enc, us: seq<Instr>, fl: map<Stream, seq<Flying>>, n: nat, w: Writer, claimed: nat, acks: seq<Msg>): Sys
    requires n <= 7
  {
    Sys(e, us, fl, Canon(First7(n), 100), map[], map[0 := []], w, claimed, acks, {}, {}, DONE)
  }

  function At11(): Sys { Later(ENC2, [], READ2, 2, Writer(1, 2, false), 2, [Increment(2), HeaderAck(0, 1)]) }

  // A third insert is announced.

  function At12(): Sys { Later(ENC3, [Update1(99)], FLIGHT3, 2, Writer(1, 2, false), 2, [Increment(2), HeaderAck(0, 1)]) }

  function At13(): Sys { Later(ENC3, [], FLIGHT3, 3, Writer(1, 2, false), 2, [Increment(2), HeaderAck(0, 1)]) }

  function At14(): Sys { Later(ENC3, [], FLIGHT3, 3, Writer(1, 3, true), 2, [Increment(2), HeaderAck(0, 1)]) }

  function At15(): Sys { Later(ENC3, [], FLIGHT3, 3, Writer(3, 3, false), 4, [Increment(2), HeaderAck(0, 1), Increment(2)]) }

  // The encoder hears of it, with a fourth insert under way.

  function At16(): Sys { Later(ENC3.(acked := 2, blocked := 0), [], FLIGHT3, 3, Writer(3, 3, false), 4, [HeaderAck(0, 1), Increment(2)]) }

  function At17(): Sys {
    Later(Enc(First7(3), map[1 := [], 2 := []], 2, 0, 1), [], FLIGHT3, 3, Writer(3, 3, false), 4, [Increment(2)])
  }

  function At18(): Sys { Later(ENC4, [Update1(100)], FLIGHT4, 3, Writer(3, 3, false), 4, [Increment(2)]) }

  function At19(): Sys { Later(ENC4.(acked := 4, blocked := 0), [Update1(100)], FLIGHT4, 3, Writer(3, 3, false), 4, []) }

  lemma {:induction false} Step1()
    ensures Step(CONFIG, Init(CONFIG, 1), Write(0, [Field1(97)], INSERT), At1())
  {
    hide CanInsert, Step, Canon;
    var x := Init(CONFIG, 1);
    Inserts(0);
    assert First7(0) == [];
    Room(ContextFor([], 100, x.enc, 0), 0);
    ReferredWritten(CONFIG, x, 0, 97);
    assert BlocksOf(x.enc.usage, 0) + [[1]] == [[1]] && x.enc.usage[0 := [[1]]] == map[0 := [[1]]];
    assert Queue(x.flight, 0) + [First()] == [First()] && x.flight[0 := [First()]] == FLIGHT1;
    assert x.updates + [Update1(97)] == [Update1(97)];
  }

  lemma {:induction false} Step2()
    ensures Step(CONFIG, At1(), Write(1, [Field1(98)], INSERT), At2())
  {
    hide CanInsert, Step, Canon, First7, LargestOf;
    var x := At1();
    Tops1();
    Inserts(1);
    Room(ContextFor([], 100, x.enc, 1), 1);
    InsertWritten(CONFIG, x, 1, 98);
    assert x.enc.usage[1 := []] == ENC2.usage;
    assert Queue(x.flight, 1) + [Plain1(98)] == [Plain1(98)] && x.flight[1 := [Plain1(98)]] == FLIGHT2;
    assert x.updates + [Update1(98)] == At2().updates;
  }

  lemma {:induction false} Step3()
    ensures Step(CONFIG, At2(), DeliverUpdate, At3())
  {
    hide Step, Canon, First7;
    Inserts(0);
    InsertDelivered(CONFIG, At2(), First7(0), 97);
    assert At2().updates[1..] == [Update1(98)];
  }

  lemma {:induction false} Step5()
    ensures Step(CONFIG, At4(), DeliverUpdate, At5())
  {
    hide Step, Canon, First7;
    Inserts(1);
    InsertDelivered(CONFIG, At4(), First7(1), 98);
    assert At4().updates[1..] == [];
  }

  lemma {:induction false} Step13()
    ensures Step(CONFIG, At12(), DeliverUpdate, At13())
  {
    hide Step, Canon, First7;
    Inserts(2);
    InsertDelivered(CONFIG, At12(), First7(2), 99);
    assert At12().updates[1..] == [];
  }

  lemma {:induction false} Announcements()
    ensures Step(CONFIG, At3(), NoteInsert, At4()) && Step(CONFIG, At5(), NoteInsert, At6()) && Step(CONFIG, At13(), NoteInsert, At14())
  {
    hide Step, LiveCount, First7;
    Inserts(1);
    Inserts(2);
    Inserts(3);
    Announced(CONFIG, At3(), At4());
    Announced(CONFIG, At5(), At6());
    Announced(CONFIG, At13(), At14());
  }

  lemma {:induction false} Timers()
    ensures Step(CONFIG, At6(), TimerFires, At7()) && Step(CONFIG, At14(), TimerFires, At15())
  {
    hide Step, Canon, First7;
    TimerFired(CONFIG, At6(), 2, At7());
    assert At14().acks + [Increment(2)] == At15().acks;
    TimerFired(CONFIG, At14(), 2, At15());
  }

  lemma {:induction false} Step8()
    ensures Step(CONFIG, At7(), BeginRead(0), At8())
  {
    hide LiveCount, First7;
    Inserts(2);
    assert At7().reading[0 := Reading(2, 1, 1, [])] == At8().reading;
  }

  lemma {:induction false} Step9()
    ensures Step(CONFIG, At8(), ReadField(0), At9())
  {
    hide LiveCount, Live;
    Inserts(2);
    UniformLive(First7(2), 100);
    CanonGet(First7(2), 100, 1, 1);
    assert [] + [Field1(97)] == [Field1(97)];
    assert At8().reading[0 := Reading(2, 1, 1, [Field1(97)])] == At9().reading;
  }

  lemma {:induction false} Step10()
    ensures Step(CONFIG, At9(), FinishRead(0), At10())
  {
    hide LiveCount, First7;
    Inserts(2);
    var x := At9();
    assert [First()][1..] == [] && x.flight[0 := []] == READ2;
    assert x.reading - {0} == map[];
    assert Queue(x.pending, 0) + [1] == [1] && x.pending[0 := [1]] == map[0 := [1]];
    assert x.done + DONE == DONE;
  }

  lemma {:induction false} Step11()
    ensures Step(CONFIG, At10(), EmitAck(0), At11())
  {
    hide Canon, First7;
    var x := At10();
    assert x.pending[0][1..] == [] && x.pending[0 := []] == map[0 := []];
    assert Future(2, [HeaderAck(0, 1)]) == Future(2, [HeaderAck(0, 1)][1..]);
  }

  lemma {:induction false} Step12()
    ensures Step(CONFIG, At11(), Write(2, [Field1(99)], INSERT), At12())
  {
    hide CanInsert, Step, Canon, First7, LargestOf;
    var x := At11();
    Tops1();
    Inserts(2);
    Room(ContextFor([], 100, x.enc, 2), 2);
    InsertWritten(CONFIG, x, 2, 99);
    assert x.enc.usage[2 := []] == ENC3.usage;
    assert Queue(x.flight, 2) + [Plain1(99)] == [Plain1(99)] && x.flight[2 := [Plain1(99)]] == FLIGHT3;
    assert x.updates + [Update1(99)] == [Update1(99)];
  }

  lemma {:induction false} Step16()
    ensures Step(CONFIG, At15(), DeliverAck, At16())
  {
    hide Step, Canon, LargestOf, First7;
    Tops1();
    Inserts(3);
    assert At15().acks[1..] == At16().acks;
    assert BlockedStreams(ENC3.usage, 2) == {};
    IncrementDelivered(CONFIG, At15(), 2, At16());
  }

  lemma {:induction false} Step17()
    ensures Step(CONFIG, At16(), DeliverAck, At17())
  {
    hide Canon, LargestOf, First7, MaxOf;
    Tops1();
    assert [[1]][1..] == [];
    assert ENC3.usage - {0} == map[1 := [], 2 := []];
    assert At16().acks[1..] == [Increment(2)];
  }

  lemma {:induction false} Step18()
    ensures Step(CONFIG, At17(), Write(3, [Field1(100)], INSERT), At18())
  {
    hide CanInsert, Step, Canon, First7, LargestOf;
    var x := At17();
    Tops1();
    Inserts(3);
    Room(ContextFor([], 100, x.enc, 3), 3);
    ReferredWritten(CONFIG, x, 3, 100);
    assert BlocksOf(x.enc.usage, 3) + [[4]] == [[4]] && x.enc.usage[3 := [[4]]] == ENC4.usage;
    assert Queue(x.flight, 3) + [Fourth()] == [Fourth()] && x.flight[3 := [Fourth()]] == FLIGHT4;
    assert x.updates + [Update1(100)] == [Update1(100)];
  }

  lemma {:induction false} Step19()
    ensures Step(CONFIG, At18(), DeliverAck, At19())
  {
    hide Step, Canon, LargestOf, First7;
    Tops1();
    Inserts(4);
    assert [Increment(2)][1..] == [];
    assert BlockedStreams(ENC4.usage, 4) == {};
    IncrementDelivered(CONFIG, At18(), 2, At19());
  }

  function StateAt(i: nat): Sys {
    match i
    case 0 => Init(CONFIG, 1)
    case 1 => At1()
    case 2 => At2()
    case 3 => At3()
    case 4 => At4()
    case 5 => At5()
    case 6 => At6()
    case 7 => At7()
    case 8 => At8()
    case 9 => At9()
    case 10 => At10()
    case 11 => At11()
    case 12 => At12()
    case 13 => At13()
    case 14 => At14()
    case 15 => At15()
    case 16 => At16()
    case 17 => At17()
    case 18 => At18()
    case _ => At19()
  }

  function ActAt(i: nat): Action {
    match i
    case 0 => Write(0, [Field1(97)], INSERT)
    case 1 => Write(1, [Field1(98)], INSERT)
    case 2 => DeliverUpdate
    case 3 => NoteInsert
    case 4 => DeliverUpdate
    case 5 => NoteInsert
    case 6 => TimerFires
    case 7 => BeginRead(0)
    case 8 => ReadField(0)
    case 9 => FinishRead(0)
    case 10 => EmitAck(0)
    case 11 => Write(2, [Field1(99)], INSERT)
    case 12 => DeliverUpdate
    case 13 => NoteInsert
    case 14 => TimerFires
    case 15 => DeliverAck
    case 16 => DeliverAck
    case 17 => Write(3, [Field1(100)], INSERT)
    case _ => DeliverAck
  }

  lemma {:induction false} StepAt(i: nat)
    requires i < 19
    ensures Step(CONFIG, StateAt(i), ActAt(i), StateAt(i + 1))
  {
    hide Step, At1, At2, At3, At4, At5, At6, At7, At8, At9, At10, At11, At12, At13, At14, At15, At16, At17, At18, At19;
    Step1();
    Step2();
    Step3();
    Announcements();
    Step5();
    Timers();
    Step8();
    Step9();
    Step10();
    Step11();
    Step12();
    Step13();
    Step16();
    Step17();
    Step18();
    Step19();
  }

  lemma Ends()
    ensures StateAt(0) == Init(CONFIG, 1) && !TruthfulStep(StateAt(14), ActAt(14))
    ensures var x := StateAt(19); x.enc.acked == 4 && |x.dec.hist| == 3 && x.claimed == 4
  {
    hide LiveCount, First7;
    Inserts(3);
  }

  lemma OneAck(i: nat)
    ensures ActAt(i).EmitAck? ==> i == 10
  {
  }

  /** In some run a single block is acknowledged, and the encoder ends up with a mark of
      four where the decoder has three inserts. */
  lemma OverclaimReachable() returns (xs: seq<Sys>, acts: seq<Action>)
    ensures Run(CONFIG, 1, xs, acts) && |xs| == 20
    ensures forall i :: 0 <= i < |acts| && acts[i].EmitAck? ==> i == 10
    ensures xs[19].enc.acked == 4 && |xs[19].dec.hist| == 3 && xs[19].claimed == 4
    ensures !Truthful(xs, acts)
  {
    hide Step, TruthfulStep, StateAt, ActAt;
    xs, acts := seq(20, i requires 0 <= i < 20 => StateAt(i)), seq(19, i requires 0 <= i < 19 => ActAt(i));
    Ends();
    assert !TruthfulStep(xs[14], acts[14]);
    forall i | 0 <= i < 19 ensures Step(CONFIG, xs[i], acts[i], xs[i + 1]) {
      StepAt(i);
    }
    forall i | 0 <= i < |acts| && acts[i].EmitAck? ensures i == 10 {
      OneAck(i);
    }
  }
}
