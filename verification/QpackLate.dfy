/** A run of the QPACK protocol in which a stream is cancelled and written on again while
    a header acknowledgment for it is still to come.  The encoder keeps no memory of the
    cancellation (hc/qpacktable.go:222-256), so the acknowledgment releases a block that
    was never read. */
module QpackLate {
  import opened History
  import opened TableSpec
  import opened QpackSyntax
  import opened QpackWriter
  import opened QpackUsage
  import opened AckWriter
  import opened QpackProtocol
  import opened QpackBlocked
  import opened QpackScenes
  import opened QpackOverclaim

  const READ := [Done(First(), 1, 1, [Field1(97)])]

  // A block is read, and its stream cancelled before the acknowledgment is sent.

  function Late2(): Sys { Idle(ENC1, [], FLIGHT1, 1, IDLE, 0, []) }

  function Late3(): Sys { Late2().(reading := map[0 := Reading(1, 1, 1, [])]) }

  function Late4(): Sys { Late2().(reading := map[0 := Reading(1, 1, 1, [Field1(97)])]) }

  function Late5(): Sys { Idle(ENC1, [], map[0 := []], 1, IDLE, 0, []).(pending := map[0 := [1]], done := READ) }

  /** A state after the cancellation. */
  function Gone(e: Enc, us: seq<Instr>, pe: seq<nat>, w: Writer, claimed: nat, acks: seq<Msg>, dead: set<Stream>): Sys {
    Sys(e, us, map[], Canon(First7(1), 100), map[], map[0 := pe], w, claimed, acks, {0}, dead, READ)
  }

  function Late6(): Sys { Gone(ENC1, [], [1], IDLE, 0, [StreamCancel(0)], {}) }

  function Late7(): Sys { Gone(Enc(First7(1), map[], 0, 0, 1), [], [1], IDLE, 0, [], {0}) }

  function Late8(): Sys { Gone(Enc(First7(1), map[], 0, 0, 1), [], [], Writer(1, 0, false), 1, [HeaderAck(0, 1)], {0}) }

  // The stream is written on again.

  function Late9(): Sys {
    Gone(Enc(First7(2), map[0 := [[2]]], 0, 1, 1), [Update1(98)], [], Writer(1, 0, false), 1, [HeaderAck(0, 1)], {0})
  }

  function Late10(): Sys { Gone(Enc(First7(2), map[], 2, 0, 1), [Update1(98)], [], Writer(1, 0, false), 1, [], {0}) }

  lemma {:induction false} LateStep2()
    ensures Step(CONFIG, At1(), DeliverUpdate, Late2())
  {
    hide Step, Canon, First7;
    Inserts(0);
    InsertDelivered(CONFIG, At1(), First7(0), 97);
    assert At1().updates[1..] == [];
  }

  lemma {:induction false} LateStep3()
    ensures Step(CONFIG, Late2(), BeginRead(0), Late3())
  {
    hide LiveCount, First7;
    Inserts(1);
    assert Late2().reading[0 := Reading(1, 1, 1, [])] == Late3().reading;
  }

  lemma {:induction false} LateStep4()
    ensures Step(CONFIG, Late3(), ReadField(0), Late4())
  {
    hide LiveCount, Live, First7;
    Inserts(1);
    UniformLive(First7(1), 100);
    CanonGet(First7(1), 100, 1, 1);
    assert [] + [Field1(97)] == [Field1(97)];
    assert Late3().reading[0 := Reading(1, 1, 1, [Field1(97)])] == Late4().reading;
  }

  lemma {:induction false} LateStep5()
    ensures Step(CONFIG, Late4(), FinishRead(0), Late5())
  {
    hide LiveCount, First7;
    Inserts(1);
    var x := Late4();
    assert [First()][1..] == [] && x.flight[0 := []] == map[0 := []];
    assert x.reading - {0} == map[];
    assert Queue(x.pending, 0) + [1] == [1] && x.pending[0 := [1]] == map[0 := [1]];
    assert x.done + READ == READ;
  }

  lemma {:induction false} LateStep6()
    ensures Step(CONFIG, Late5(), CancelStream(0), Late6())
  {
    hide Canon, First7;
    var x := Late5();
    assert x.flight - {0} == map[] && x.reading - {0} == map[];
    assert Future(0, [StreamCancel(0)]) == Future(0, [StreamCancel(0)][1..]);
  }

  lemma {:induction false} LateStep7()
    ensures Step(CONFIG, Late6(), DeliverAck, Late7())
  {
    hide Canon, First7, LargestOf;
    Tops1();
    assert ENC1.usage - {0} == map[];
    assert [StreamCancel(0)][1..] == [];
  }

  lemma {:induction false} LateStep8()
    ensures Step(CONFIG, Late7(), EmitAck(0), Late8())
  {
    hide Canon, First7;
    var x := Late7();
    assert x.pending[0][1..] == [] && x.pending[0 := []] == map[0 := []];
    assert Future(0, [HeaderAck(0, 1)]) == Future(1, [HeaderAck(0, 1)][1..]);
  }

  lemma {:induction false} LateStep9()
    ensures Step(CONFIG, Late8(), Write(0, [Field1(98)], INSERT), Late9())
  {
    hide CanInsert, Step, Canon, First7, LargestOf;
    var x := Late8();
    Tops1();
    Inserts(1);
    Room(ContextFor([], 100, x.enc, 0), 1);
    ReferredWritten(CONFIG, x, 0, 98);
    assert BlocksOf(x.enc.usage, 0) + [[2]] == [[2]] && x.enc.usage[0 := [[2]]] == map[0 := [[2]]];
    assert x.updates + [Update1(98)] == [Update1(98)];
  }

  lemma {:induction false} LateStep10()
    ensures Step(CONFIG, Late9(), DeliverAck, Late10())
  {
    hide Canon, First7, LargestOf, MaxOf;
    Tops1();
    assert MaxOf([2]) == 2 by { OnlyTwo(); }
    assert [[2]][1..] == [];
    assert Late9().enc.usage - {0} == map[];
    assert [HeaderAck(0, 1)][1..] == [];
  }

  lemma OnlyTwo()
    ensures MaxOf([2]) == 2
  {
    assert [2][..0] == [];
  }

  function LateAt(i: nat): Sys {
    match i
    case 0 => Init(CONFIG, 1)
    case 1 => At1()
    case 2 => Late2()
    case 3 => Late3()
    case 4 => Late4()
    case 5 => Late5()
    case 6 => Late6()
    case 7 => Late7()
    case 8 => Late8()
    case 9 => Late9()
    case _ => Late10()
  }

  function LateAct(i: nat): Action {
    match i
    case 0 => Write(0, [Field1(97)], INSERT)
    case 1 => DeliverUpdate
    case 2 => BeginRead(0)
    case 3 => ReadField(0)
    case 4 => FinishRead(0)
    case 5 => CancelStream(0)
    case 6 => DeliverAck
    case 7 => EmitAck(0)
    case 8 => Write(0, [Field1(98)], INSERT)
    case _ => DeliverAck
  }

  lemma LateStepAt(i: nat)
    requires i < 10
    ensures Step(CONFIG, LateAt(i), LateAct(i), LateAt(i + 1)) && TruthfulStep(LateAt(i), LateAct(i))
  {
    hide Step, At1, Late2, Late3, Late4, Late5, Late6, Late7, Late8, Late9, Late10;
    Step1();
    LateStep2();
    LateStep3();
    LateStep4();
    LateStep5();
    LateStep6();
    LateStep7();
    LateStep8();
    LateStep9();
    LateStep10();
  }

  lemma LateEnds()
    ensures LateAt(0) == Init(CONFIG, 1)
    ensures var x := LateAt(10); x.enc.acked == 2 && x.claimed == 1 && |x.dec.hist| == 1
    ensures LateAct(9) == DeliverAck && Misdirected(LateAt(9))
  {
    hide LiveCount, First7;
    Inserts(1);
  }

  /** In some truthful run the encoder's mark passes what the decoder has received,
      because a late acknowledgment is taken for that of another block. */
  lemma LateAckReachable() returns (xs: seq<Sys>, acts: seq<Action>)
    ensures Run(CONFIG, 1, xs, acts) && Truthful(xs, acts) && |xs| == 11
    ensures xs[10].enc.acked == 2 && xs[10].claimed == 1 && |xs[10].dec.hist| == 1
    ensures !Directed(xs, acts)
  {
    hide Step, TruthfulStep, Misdirected, LateAt, LateAct;
    xs, acts := seq(11, i requires 0 <= i < 11 => LateAt(i)), seq(10, i requires 0 <= i < 10 => LateAct(i));
    LateEnds();
    assert !DirectedStep(xs[9], acts[9]);
    forall i | 0 <= i < 10 ensures Step(CONFIG, xs[i], acts[i], xs[i + 1]) && TruthfulStep(xs[i], acts[i]) {
      LateStepAt(i);
    }
  }

  // ---- two streams in time under a limit of one ----

  function Both(): Sys { InsertedReferred(CONFIG, At19(), 4, 101) }

  /** From the last state of QpackOverclaim one more block leaves two streams waiting, and
      the decoder in time for both, though only one may be blocked. */
  lemma InTimeExceeds()
    ensures Step(CONFIG, At19(), Write(4, [Field1(101)], INSERT), Both())
    ensures Both().enc.maxBlocked == 1 && {3, 4} <= BlockedInTime(CONFIG, Both()) && Both().enc.acked > |Both().dec.hist|
  {
    BothWritten();
    BothWait();
  }

  lemma {:induction false} BothWritten()
    ensures Step(CONFIG, At19(), Write(4, [Field1(101)], INSERT), Both())
  {
    hide CanInsert, Step, Canon, First7, LargestOf;
    var x := At19();
    Tops1();
    Inserts(4);
    OnlyFourth();
    Room(ContextFor([], 100, x.enc, 4), 4);
    ReferredWritten(CONFIG, x, 4, 101);
  }

  lemma OnlyFourth()
    ensures InUse(ENC4.usage) == {4}
  {
    var u := ENC4.usage;
    assert 3 in u && u[3][0] == [4] && 4 in u[3][0];
    forall b | b in InUse(u) ensures b == 4 {
      var s, j :| s in u && 0 <= j < |u[s]| && b in u[s][j];
    }
  }

  lemma BothWait()
    ensures Both().enc.maxBlocked == 1 && {3, 4} <= BlockedInTime(CONFIG, Both()) && Both().enc.acked > |Both().dec.hist|
  {
    hide LiveCount, First7;
    Inserts(3);
    Inserts(4);
    var x := Both();
    assert Queue(FLIGHT4, 4) + [Referred1(100, 101, 5)] == [Referred1(100, 101, 5)];
    assert x.flight[3] == [Fourth()] && x.flight[4] == [Referred1(100, 101, 5)];
    assert Waits(CONFIG, x, 3, 0) && InTime(CONFIG, x, 3, 0);
    assert Waits(CONFIG, x, 4, 0) && InTime(CONFIG, x, 4, 0);
  }
}
