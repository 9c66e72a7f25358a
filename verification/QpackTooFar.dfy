/** The run of QpackOverclaim taken further, to a block that refers only to what is in
    the encoder's table and is still read as a header list that was never sent: its
    largest reference is too far ahead of a decoder that has received less than the
    encoder holds acknowledged. */
module QpackTooFar {
  import opened Headers
  import opened History
  import opened TableSpec
  import opened QpackSyntax
  import opened QpackReader
  import opened QpackWriter
  import opened QpackUsage
  import opened AckWriter
  import opened QpackProtocol
  import opened QpackScenes
  import opened QpackOverclaim

  function Seventh(): Flying { Referred1(100, 103, 7) }

  /** The last block, as it is read. */
  function Misread(): Done { Done(Seventh(), 3, 1, [Field1(97)]) }

  // What is recorded, and what is in flight, after three to seven inserts.

  const USE3: Usage := map[1 := [], 2 := []]
  const USE4: Usage := map[1 := [], 2 := [], 3 := []]
  const USE5: Usage := map[1 := [], 2 := [], 3 := [], 4 := []]
  const USE6: Usage := map[1 := [], 2 := [], 3 := [], 4 := [], 5 := []]
  const USE7: Usage := map[1 := [], 2 := [], 3 := [], 4 := [], 5 := [], 6 := [[7]]]

  function Fly4(): map<Stream, seq<Flying>> { FLIGHT3[3 := [Plain1(100)]] }

  function Fly5(): map<Stream, seq<Flying>> { Fly4()[4 := [Plain1(101)]] }

  function Fly6(): map<Stream, seq<Flying>> { Fly5()[5 := [Plain1(102)]] }

  function Fly7(): map<Stream, seq<Flying>> { Fly6()[6 := [Seventh()]] }

  function Updates4(n: nat): seq<Instr>
    requires 3 <= n <= 7
  {
    [Update1(100), Update1(101), Update1(102), Update1(103)][..n - 3]
  }

  /** A state in which the decoder has three inserts and has announced them. */
  function Ahead(e: Enc, fl: map<Stream, seq<Flying>>, n: nat, acks: seq<Msg>): Sys
    requires 3 <= n <= 7
  {
    Later(e, Updates4(n), fl, 3, Writer(3, 3, false), 4, acks)
  }

  // The encoder may refer to nothing new and is told of an insert that was not received.

  function To18(): Sys { Ahead(Enc(First7(3), USE3, 2, 0, 0), FLIGHT3, 3, [Increment(2)]) }

  function To19(): Sys { Ahead(Enc(First7(4), USE4, 2, 0, 0), Fly4(), 4, [Increment(2)]) }

  function To20(): Sys { Ahead(Enc(First7(4), USE4, 4, 0, 0), Fly4(), 4, []) }

  // Two more inserts, and one that is referred to.

  function To21(): Sys { Ahead(Enc(First7(5), USE5, 4, 0, 0), Fly5(), 5, []) }

  function To22(): Sys { Ahead(Enc(First7(6), USE6, 4, 0, 0), Fly6(), 6, []) }

  function To23(): Sys { Ahead(Enc(First7(6), USE6, 4, 0, 1), Fly6(), 6, []) }

  function To24(): Sys { Ahead(Enc(First7(7), USE7, 4, 1, 1), Fly7(), 7, []) }

  // The decoder reads the last block.

  function To25(): Sys { To24().(reading := map[6 := Reading(3, 1, 1, [])]) }

  function To26(): Sys { To24().(reading := map[6 := Reading(3, 1, 1, [Field1(97)])]) }

  function To27(): Sys {
    To24().(flight := Fly7()[6 := []], pending := map[0 := [], 6 := [1]], done := DONE + [Misread()])
  }

  lemma NothingInUse()
    ensures InUse(USE3) == {} && InUse(USE4) == {} && InUse(USE5) == {} && InUse(USE6) == {}
  {
  }

  lemma {:induction false} Limits()
    ensures Step(CONFIG, At17(), SetMaxBlocked(0), To18()) && Step(CONFIG, To22(), SetMaxBlocked(1), To23())
  {
    hide Canon, First7;
  }

  lemma {:induction false} Step19()
    ensures Step(CONFIG, To18(), Write(3, [Field1(100)], INSERT), To19())
  {
    hide CanInsert, Step, Canon, First7, LargestOf, InUse;
    var x := To18();
    Tops1();
    Inserts(3);
    NothingInUse();
    Room(ContextFor([], 100, x.enc, 3), 3);
    InsertWritten(CONFIG, x, 3, 100);
    assert x.enc.usage[3 := []] == USE4;
    assert Queue(x.flight, 3) + [Plain1(100)] == [Plain1(100)];
    assert x.updates + [Update1(100)] == Updates4(4);
  }

  lemma {:induction false} Step20()
    ensures Step(CONFIG, To19(), DeliverAck, To20())
  {
    hide Step, Canon, LargestOf, First7;
    Tops1();
    Inserts(4);
    assert [Increment(2)][1..] == [];
    assert BlockedStreams(USE4, 4) == {};
    IncrementDelivered(CONFIG, To19(), 2, To20());
  }

  lemma {:induction false} Step21()
    ensures Step(CONFIG, To20(), Write(4, [Field1(101)], INSERT), To21())
  {
    hide CanInsert, Step, Canon, First7, LargestOf, InUse, Fly4;
    var x := To20();
    Tops1();
    Inserts(4);
    NothingInUse();
    NotFlying();
    Room(ContextFor([], 100, x.enc, 4), 4);
    InsertWritten(CONFIG, x, 4, 101);
    assert x.enc.usage[4 := []] == USE5;
    assert Queue(x.flight, 4) + [Plain1(101)] == [Plain1(101)];
    assert x.updates + [Update1(101)] == Updates4(5);
  }

  lemma NotFlying()
    ensures 4 !in Fly4() && 5 !in Fly5() && 6 !in Fly6()
  {
  }

  lemma {:induction false} Step22()
    ensures Step(CONFIG, To21(), Write(5, [Field1(102)], INSERT), To22())
  {
    hide CanInsert, Step, Canon, First7, LargestOf, InUse, Fly5;
    var x := To21();
    Tops1();
    Inserts(5);
    NothingInUse();
    NotFlying();
    Room(ContextFor([], 100, x.enc, 5), 5);
    InsertWritten(CONFIG, x, 5, 102);
    assert x.enc.usage[5 := []] == USE6;
    assert Queue(x.flight, 5) + [Plain1(102)] == [Plain1(102)];
    assert x.updates + [Update1(102)] == Updates4(6);
  }

  lemma {:induction false} Step24()
    ensures Step(CONFIG, To23(), Write(6, [Field1(103)], INSERT), To24())
  {
    hide CanInsert, Step, Canon, First7, LargestOf, InUse, Fly6;
    var x := To23();
    Tops1();
    Inserts(6);
    NothingInUse();
    NotFlying();
    Room(ContextFor([], 100, x.enc, 6), 6);
    ReferredWritten(CONFIG, x, 6, 103);
    assert BlocksOf(x.enc.usage, 6) + [[7]] == [[7]] && x.enc.usage[6 := [[7]]] == USE7;
    assert Queue(x.flight, 6) + [Seventh()] == [Seventh()];
    assert x.updates + [Update1(103)] == Updates4(7);
  }

  /** Seven, seen from three inserts with room for three entries, is one. */
  lemma TakenForOne()
    ensures Seventh().sent.block.prefix.wrapped == 2 && DecodeLargest(3, 100, 2) == Some(1)
  {
  }

  lemma {:induction false} Step25()
    ensures Step(CONFIG, To24(), BeginRead(6), To25())
  {
    hide LiveCount, First7, DecodeLargest, Fly6;
    Inserts(3);
    TakenForOne();
    assert To24().reading[6 := Reading(3, 1, 1, [])] == To25().reading;
  }

  lemma {:induction false} Step26()
    ensures Step(CONFIG, To25(), ReadField(6), To26())
  {
    hide LiveCount, Live, First7, Fly6;
    Inserts(3);
    UniformLive(First7(3), 100);
    CanonGet(First7(3), 100, 1, 1);
    assert [] + [Field1(97)] == [Field1(97)];
    assert To25().reading[6 := Reading(3, 1, 1, [Field1(97)])] == To26().reading;
  }

  lemma {:induction false} Step27()
    ensures Step(CONFIG, To26(), FinishRead(6), To27())
  {
    hide LiveCount, First7, Fly6;
    Inserts(3);
    var x := To26();
    assert x.reading - {6} == map[];
    assert [Seventh()][1..] == [];
    assert Queue(x.pending, 6) + [1] == [1] && x.pending[6 := [1]] == map[0 := [], 6 := [1]];
  }

  function Then(i: nat): Sys {
    match i
    case 18 => To18()
    case 19 => To19()
    case 20 => To20()
    case 21 => To21()
    case 22 => To22()
    case 23 => To23()
    case 24 => To24()
    case 25 => To25()
    case 26 => To26()
    case _ => To27()
  }

  function ThenAct(i: nat): Action {
    match i
    case 17 => SetMaxBlocked(0)
    case 18 => Write(3, [Field1(100)], INSERT)
    case 19 => DeliverAck
    case 20 => Write(4, [Field1(101)], INSERT)
    case 21 => Write(5, [Field1(102)], INSERT)
    case 22 => SetMaxBlocked(1)
    case 23 => Write(6, [Field1(103)], INSERT)
    case 24 => BeginRead(6)
    case 25 => ReadField(6)
    case _ => FinishRead(6)
  }

  lemma ThenStep(i: nat)
    requires 17 <= i < 27
    ensures Step(CONFIG, if i == 17 then At17() else Then(i), ThenAct(i), Then(i + 1))
  {
    hide Step, At17, To18, To19, To20, To21, To22, To23, To24, To25, To26, To27;
    Limits();
    Step19();
    Step20();
    Step21();
    Step22();
    Step24();
    Step25();
    Step26();
    Step27();
  }

  lemma Seventeenth()
    ensures StateAt(17) == At17() && StateAt(0) == Init(CONFIG, 1)
    ensures Then(27).done[1] == Misread() && |Then(27).done| == 2
  {
  }

  /** In some run a block that refers to nothing but an entry in the table is read,
      without an error, as a header list that was never sent. */
  lemma SafeMisreadReachable() returns (xs: seq<Sys>, acts: seq<Action>)
    ensures Run(CONFIG, 1, xs, acts) && |xs| == 28
    ensures |xs[27].done| == 2 && xs[27].done[1] == Misread()
    ensures Misread().block.safe && Misread().out != LowerAll(Misread().block.raw)
    ensures !Reaches(CONFIG.cap, Misread().start, Misread().block.sent.largest)
  {
    hide Step, StateAt, ActAt, Then, ThenAct;
    xs := seq(28, i requires 0 <= i < 28 => if i <= 17 then StateAt(i) else Then(i));
    acts := seq(27, i requires 0 <= i < 27 => if i < 17 then ActAt(i) else ThenAct(i));
    Seventeenth();
    Lower1(103);
    forall i | 0 <= i < 27 ensures Step(CONFIG, xs[i], acts[i], xs[i + 1]) {
      if i < 17 {
        StepAt(i);
      } else {
        ThenStep(i);
      }
    }
  }
}
