/** HPACK as functions (hc/hpack.go): what an encoder sends for its decisions, and
    that a decoder in lockstep recovers every block, whatever capacities are set in
    between. */
module Hpack {
  import opened Headers
  import opened History
  import opened TableSpec
  import opened Lookups

  /** The representations of a header block.  A name index of zero stands for a
      name that is sent as a string. */
  datatype Rep =
    | Indexed(index: nat)
    | Incremental(nameIndex: nat, name: Str, value: Str)
    | Literal(never: bool, nameIndex: nat, name: Str, value: Str)
    | Capacity(capacity: nat)

  /** HpackTable.Get: one index space, static entries first, from 1. */
  function Get(statics: seq<Pair>, t: Tab, i: nat): Option<Pair>
    requires t.Ok()
  {
    if i == 0 then None
    else if i <= |statics| then Some(statics[i - 1])
    else t.GetDynamic(i - |statics| - 1, t.Base())
  }

  // ---- decoder ----

  function NameFrom(statics: seq<Pair>, t: Tab, i: nat, name: Str): Option<Str>
    requires t.Ok()
  {
    if i == 0 then Some(name)
    else match Get(statics, t, i)
      case None => None
      case Some(e) => Some(e.name)
  }

  /** The table after a representation, and the field it adds, if any. */
  datatype Decoded = Decoded(t: Tab, fields: seq<Field>)

  function DecodeRep(statics: seq<Pair>, t: Tab, r: Rep): (d: Option<Decoded>)
    requires t.Ok()
    ensures d.Some? ==> d.value.t.Ok()
  {
    match r
    case Indexed(i) =>
      (match Get(statics, t, i)
       case None => None
       case Some(e) => Some(Decoded(t, [Field(e.name, e.value, false)])))
    case Incremental(i, n, v) =>
      (match NameFrom(statics, t, i, n)
       case None => None
       case Some(name) => Some(Decoded(t.Insert(Pair(name, v)), [Field(name, v, false)])))
    case Literal(never, i, n, v) =>
      (match NameFrom(statics, t, i, n)
       case None => None
       case Some(name) => Some(Decoded(t, [Field(name, v, never)])))
    case Capacity(c) => Some(Decoded(t.SetCapacity(c), []))
  }

  function DecodeReps(statics: seq<Pair>, t: Tab, rs: seq<Rep>): (d: Option<Decoded>)
    requires t.Ok()
    ensures d.Some? ==> d.value.t.Ok()
    decreases |rs|
  {
    if rs == [] then Some(Decoded(t, []))
    else match DecodeRep(statics, t, rs[0])
      case None => None
      case Some(first) =>
        match DecodeReps(statics, first.t, rs[1..])
        case None => None
        case Some(more) => Some(Decoded(more.t, first.fields + more.fields))
  }

  /** Pseudo-header fields come before all others. */
  predicate PseudoOrdered(fs: seq<Field>)
    requires NamesNonEmpty(fs)
  {
    forall i, j :: 0 <= i < j < |fs| && fs[j].name[0] == 58 ==> fs[i].name[0] == 58
  }

  predicate NamesNonEmpty(fs: seq<Field>) {
    forall i :: 0 <= i < |fs| ==> fs[i].name != []
  }

  // ---- encoder ----

  /** What the encoder decides for a field: a table index, an insert or a literal,
      the last two with a name index or zero. */
  datatype Plan = UseIndex(i: nat) | UseInsert(n: nat) | UseLiteral(n: nat)

  predicate NameOk(statics: seq<Pair>, t: Tab, f: Field, n: nat)
    requires t.Ok()
  {
    n == 0 || (Get(statics, t, n).Some? && Get(statics, t, n).value.name == f.name)
  }

  /** What the encoder establishes: an index denotes the field, a name index its
      name, inserts fit, and a sensitive field is sent whole. */
  predicate PlanOk(statics: seq<Pair>, t: Tab, f: Field, p: Plan)
    requires t.Ok()
  {
    match p
    case UseIndex(i) => !f.sensitive && Get(statics, t, i) == Some(f.AsPair())
    case UseInsert(n) => !f.sensitive && NameOk(statics, t, f, n) && Size(f.AsPair()) <= t.cap
    case UseLiteral(n) => NameOk(statics, t, f, n) && (f.sensitive ==> n == 0)
  }

  function RepFor(f: Field, p: Plan): Rep {
    match p
    case UseIndex(i) => Indexed(i)
    case UseInsert(n) => Incremental(n, if n == 0 then f.name else [], f.value)
    case UseLiteral(n) => Literal(f.sensitive, n, if n == 0 then f.name else [], f.value)
  }

  function TableAfter(t: Tab, f: Field, p: Plan): (r: Tab)
    requires t.Ok()
    ensures r.Ok()
  {
    if p.UseInsert? then t.Insert(f.AsPair()) else t
  }

  /** The decisions for the fields in order are in order. */
  predicate PlansOk(statics: seq<Pair>, t: Tab, fs: seq<Field>, ps: seq<Plan>)
    requires t.Ok() && |ps| == |fs|
    decreases |fs|
  {
    fs == [] || (PlanOk(statics, t, fs[0], ps[0]) && PlansOk(statics, TableAfter(t, fs[0], ps[0]), fs[1..], ps[1..]))
  }

  function TableAfterAll(t: Tab, fs: seq<Field>, ps: seq<Plan>): (r: Tab)
    requires t.Ok() && |ps| == |fs|
    ensures r.Ok() && r.cap == t.cap
    decreases |fs|
  {
    if fs == [] then t else TableAfterAll(TableAfter(t, fs[0], ps[0]), fs[1..], ps[1..])
  }

  function RepsFor(fs: seq<Field>, ps: seq<Plan>): seq<Rep>
    requires |ps| == |fs|
  {
    seq(|fs|, i requires 0 <= i < |fs| => RepFor(fs[i], ps[i]))
  }

  /** The encoder: its table, the least capacity set since the last block, and the
      capacity wanted. */
  datatype Enc = Enc(t: Tab, min: nat, next: nat) {
    /** Between calls: nothing below `min` has been asked for. */
    predicate Ok() { t.Ok() && min <= t.cap && min <= next }
  }

  function SetCapacity(e: Enc, c: nat): Enc {
    Enc(e.t, Min(e.min, c), c)
  }

  /** writeCapacityChange: shrink to the least capacity first, then grow. */
  function CapacityReps(e: Enc): seq<Rep> {
    (if e.min < e.t.cap then [Capacity(e.min)] else []) +
    (if e.next > Min(e.min, e.t.cap) then [Capacity(e.next)] else [])
  }

  function Resized(e: Enc): (r: Enc)
    requires e.t.Ok()
    ensures r.t.Ok()
  {
    var t := if e.min < e.t.cap then e.t.SetCapacity(e.min) else e.t;
    if e.next > t.cap then Enc(t.SetCapacity(e.next), e.next, e.next) else Enc(t, e.min, e.next)
  }

  predicate Sendable(statics: seq<Pair>, e: Enc, fs: seq<Field>, ps: seq<Plan>)
    requires e.t.Ok()
  {
    |ps| == |fs| && PlansOk(statics, Resized(e).t, fs, ps)
  }

  function BlockReps(e: Enc, fs: seq<Field>, ps: seq<Plan>): seq<Rep>
    requires |ps| == |fs|
  {
    CapacityReps(e) + RepsFor(fs, ps)
  }

  function AfterBlock(e: Enc, fs: seq<Field>, ps: seq<Plan>): (r: Enc)
    requires e.t.Ok() && |ps| == |fs|
    ensures r.t.Ok()
  {
    Resized(e).(t := TableAfterAll(Resized(e).t, fs, ps))
  }

  // ---- lockstep ----

  /** A representation gives the decoder the field and the encoder's next table. */
  lemma RepRoundTrip(statics: seq<Pair>, t: Tab, f: Field, p: Plan)
    requires t.Ok() && PlanOk(statics, t, f, p)
    ensures DecodeRep(statics, t, RepFor(f, p)) == Some(Decoded(TableAfter(t, f, p), [f]))
  {
  }

  lemma {:induction false} RepsRoundTrip(statics: seq<Pair>, t: Tab, fs: seq<Field>, ps: seq<Plan>)
    requires t.Ok() && |ps| == |fs| && PlansOk(statics, t, fs, ps)
    ensures DecodeReps(statics, t, RepsFor(fs, ps)) == Some(Decoded(TableAfterAll(t, fs, ps), fs))
    decreases |fs|
  {
    hide DecodeRep, PlanOk, RepFor, TableAfter;
    if fs != [] {
      RepRoundTrip(statics, t, fs[0], ps[0]);
      assert RepsFor(fs, ps)[1..] == RepsFor(fs[1..], ps[1..]);
      RepsRoundTrip(statics, TableAfter(t, fs[0], ps[0]), fs[1..], ps[1..]);
      assert fs == [fs[0]] + fs[1..];
    }
  }

  /** Capacity instructions before a block change only the table. */
  lemma CapacityFirst(statics: seq<Pair>, t: Tab, c: nat, rs: seq<Rep>)
    requires t.Ok()
    ensures DecodeReps(statics, t, [Capacity(c)] + rs) == DecodeReps(statics, t.SetCapacity(c), rs)
  {
    assert ([Capacity(c)] + rs)[1..] == rs;
    var d := DecodeReps(statics, t.SetCapacity(c), rs);
    if d.Some? {
      assert [] + d.value.fields == d.value.fields;
    }
  }

  lemma CapacityFollowed(statics: seq<Pair>, e: Enc, rs: seq<Rep>)
    requires e.t.Ok()
    ensures DecodeReps(statics, e.t, CapacityReps(e) + rs) == DecodeReps(statics, Resized(e).t, rs)
  {
    hide DecodeReps;
    var t := if e.min < e.t.cap then e.t.SetCapacity(e.min) else e.t;
    var grow := if e.next > t.cap then [Capacity(e.next)] else [];
    if e.min < e.t.cap {
      assert CapacityReps(e) + rs == [Capacity(e.min)] + (grow + rs);
      CapacityFirst(statics, e.t, e.min, grow + rs);
    } else {
      assert CapacityReps(e) + rs == grow + rs;
    }
    if e.next > t.cap {
      CapacityFirst(statics, t, e.next, rs);
    } else {
      assert grow + rs == rs;
    }
  }

  /** A block decodes to its fields and leaves the decoder with the encoder's table,
      at the capacity that was last asked for. */
  lemma BlockRoundTrip(statics: seq<Pair>, e: Enc, fs: seq<Field>, ps: seq<Plan>)
    requires e.Ok() && Sendable(statics, e, fs, ps)
    ensures DecodeReps(statics, e.t, BlockReps(e, fs, ps)) == Some(Decoded(AfterBlock(e, fs, ps).t, fs))
    ensures AfterBlock(e, fs, ps).Ok() && AfterBlock(e, fs, ps).t.cap == e.next == AfterBlock(e, fs, ps).min
  {
    CapacityFollowed(statics, e, RepsFor(fs, ps));
    RepsRoundTrip(statics, Resized(e).t, fs, ps);
  }

  // ---- the decisions the encoder takes ----

  /** HpackTable.Index of a match; zero for none. */
  function IndexOf(statics: seq<Pair>, t: Tab, m: Found): nat
    requires m.InDynamic? ==> m.entry.base <= t.Base()
  {
    match m
    case Nowhere => 0
    case InStatic(i) => i + 1
    case InDynamic(e) => |statics| + 1 + t.Base() - e.base
  }

  /** The match in the whole table. */
  function FindIn(statics: seq<Pair>, t: Tab, p: Pair, whole: bool): (m: Found)
    requires t.Ok()
    ensures m.InDynamic? ==> 1 <= m.entry.base <= t.Base()
  {
    Find(statics, Held(t.hist, t.live), p, whole)
  }

  /** A sensitive field is sent whole; a full match by its index; others are inserted
      if they fit and their name is not excluded. */
  function Decide(statics: seq<Pair>, noIndex: set<Str>, t: Tab, f: Field): Plan
    requires t.Ok()
  {
    if f.sensitive then UseLiteral(0)
    else
      var full, name := FindIn(statics, t, f.AsPair(), true), FindIn(statics, t, f.AsPair(), false);
      if full != Nowhere then UseIndex(IndexOf(statics, t, full))
      else if Size(f.AsPair()) <= t.cap && f.name !in noIndex then UseInsert(IndexOf(statics, t, name))
      else UseLiteral(IndexOf(statics, t, name))
  }

  function Decisions(statics: seq<Pair>, noIndex: set<Str>, t: Tab, fs: seq<Field>): (ps: seq<Plan>)
    requires t.Ok()
    ensures |ps| == |fs|
    decreases |fs|
  {
    if fs == [] then []
    else
      var p := Decide(statics, noIndex, t, fs[0]);
      [p] + Decisions(statics, noIndex, TableAfter(t, fs[0], p), fs[1..])
  }

  /** An index stands for the match it was made from. */
  lemma FoundIndex(statics: seq<Pair>, t: Tab, p: Pair, whole: bool)
    requires t.Ok()
    ensures
      var m := FindIn(statics, t, p, whole);
      m != Nowhere ==>
        var e := Get(statics, t, IndexOf(statics, t, m));
        e.Some? && Matches(e.value, p, whole) && IndexOf(statics, t, m) > 0
  {
    hide Find, Newest;
    var m := FindIn(statics, t, p, whole);
    if m.InDynamic? {
      var k :| 0 <= k < t.live && Held(t.hist, t.live)[k] == m.entry;
    }
  }

  lemma DecideOk(statics: seq<Pair>, noIndex: set<Str>, t: Tab, f: Field)
    requires t.Ok()
    ensures PlanOk(statics, t, f, Decide(statics, noIndex, t, f))
  {
    hide Get, FindIn;
    FoundIndex(statics, t, f.AsPair(), true);
    FoundIndex(statics, t, f.AsPair(), false);
  }

  // ---- which decision that is, in terms of indices ----

  /** An index denotes an entry exactly if it is in the table. */
  lemma GetExactly(statics: seq<Pair>, t: Tab, i: nat)
    requires t.Ok()
    ensures Get(statics, t, i).Some? <==> 1 <= i <= |statics| + t.live
    ensures 1 <= i <= |statics| ==> Get(statics, t, i).value == statics[i - 1]
    ensures |statics| < i <= |statics| + t.live ==> Get(statics, t, i).value == t.hist[|t.hist| - (i - |statics|)]
  {
  }

  /** Some entry has the name, and if `whole` also the value, of `p`. */
  ghost predicate Present(statics: seq<Pair>, t: Tab, p: Pair, whole: bool)
    requires t.Ok()
  {
    exists i: nat :: MatchAt(statics, t, p, whole, i)
  }

  predicate MatchAt(statics: seq<Pair>, t: Tab, p: Pair, whole: bool, i: nat)
    requires t.Ok()
  {
    var e := Get(statics, t, i);
    e.Some? && e.value.name == p.name && (whole ==> e.value == p)
  }

  /** ... and `i` is the least index of such an entry. */
  ghost predicate Least1(statics: seq<Pair>, t: Tab, p: Pair, whole: bool, i: nat)
    requires t.Ok()
  {
    MatchAt(statics, t, p, whole, i) && forall j: nat :: j < i ==> !MatchAt(statics, t, p, whole, j)
  }

  lemma FoundLeast(statics: seq<Pair>, t: Tab, p: Pair, whole: bool)
    requires t.Ok()
    ensures
      var m := FindIn(statics, t, p, whole);
      if m == Nowhere then !Present(statics, t, p, whole) else Least1(statics, t, p, whole, IndexOf(statics, t, m))
  {
    hide First, Newest;
    var m := FindIn(statics, t, p, whole);
    var es := Held(t.hist, t.live);
    var a, k := First(statics, p, whole), First(Pairs(es), p, whole);
    var bound := if a < |statics| then a + 1 else |statics| + 1 + k;
    forall j: nat | j < bound ensures !MatchAt(statics, t, p, whole, j) {
      GetExactly(statics, t, j);
      if |statics| < j <= |statics| + t.live {
        assert Pairs(es)[j - |statics| - 1] == t.hist[|t.hist| - (j - |statics|)];
      }
    }
    if m == Nowhere {
      forall j: nat ensures !MatchAt(statics, t, p, whole, j) {
        GetExactly(statics, t, j);
      }
    } else {
      GetExactly(statics, t, bound);
    }
  }

  /** A sensitive field is sent whole.  Any other is sent by the least index of an entry
      that equals it if there is one; if there is none it is inserted exactly if it fits
      and its name is not excluded; and what is inserted or literal has the least index
      of an entry with its name, or zero. */
  lemma DecideExactly(statics: seq<Pair>, noIndex: set<Str>, t: Tab, f: Field)
    requires t.Ok()
    ensures
      var d, p := Decide(statics, noIndex, t, f), f.AsPair();
      && (f.sensitive ==> d == UseLiteral(0))
      && (d.UseIndex? <==> !f.sensitive && Present(statics, t, p, true))
      && (d.UseIndex? ==> Least1(statics, t, p, true, d.i))
      && (d.UseInsert? <==> !f.sensitive && !Present(statics, t, p, true) && 32 + |f.name| + |f.value| <= t.cap && f.name !in noIndex)
      && (!f.sensitive && !d.UseIndex? ==>
            if Present(statics, t, p, false) then Least1(statics, t, p, false, d.n) else d.n == 0)
  {
    hide Get, FindIn, IndexOf, MatchAt;
    var p := f.AsPair();
    FoundLeast(statics, t, p, true);
    FoundLeast(statics, t, p, false);
    NowhereIsZero(statics, t);
  }

  lemma NowhereIsZero(statics: seq<Pair>, t: Tab)
    ensures IndexOf(statics, t, Nowhere) == 0
  {
  }

  /** What the encoder decides for a list of fields is in order. */
  lemma {:induction false} DecisionsOk(statics: seq<Pair>, noIndex: set<Str>, t: Tab, fs: seq<Field>)
    requires t.Ok()
    ensures PlansOk(statics, t, fs, Decisions(statics, noIndex, t, fs))
    decreases |fs|
  {
    hide Decide, PlanOk, TableAfter;
    if fs != [] {
      var p := Decide(statics, noIndex, t, fs[0]);
      DecideOk(statics, noIndex, t, fs[0]);
      DecisionsOk(statics, noIndex, TableAfter(t, fs[0], p), fs[1..]);
    }
  }

  // ---- a list that is refused ----

  lemma {:induction false} InsertsCount(statics: seq<Pair>, t: Tab, fs: seq<Field>, ps: seq<Plan>)
    requires t.Ok() && |ps| == |fs| && PlansOk(statics, t, fs, ps)
    ensures |TableAfterAll(t, fs, ps).hist| >= |t.hist|
    ensures (exists p :: p in ps && p.UseInsert?) <==> |TableAfterAll(t, fs, ps).hist| > |t.hist|
    ensures (forall p :: p in ps ==> !p.UseInsert?) ==> TableAfterAll(t, fs, ps) == t
    decreases |fs|
  {
    if fs != [] {
      InsertsCount(statics, TableAfter(t, fs[0], ps[0]), fs[1..], ps[1..]);
      assert ps == [ps[0]] + ps[1..];
      assert forall p :: p in ps <==> p == ps[0] || p in ps[1..];
    }
  }

  /** The encoder refuses a list at a misplaced pseudo-header field, when it has done the
      fields `fs` before it.  If the octets are then dropped, its table is still the
      decoder's exactly if no capacity change was due and none of these was inserted. */
  lemma RefusedKeepsTable(statics: seq<Pair>, e: Enc, fs: seq<Field>, ps: seq<Plan>)
    requires e.Ok() && Sendable(statics, e, fs, ps)
    ensures AfterBlock(e, fs, ps).t == e.t <==> Resized(e).t == e.t && forall p :: p in ps ==> !p.UseInsert?
  {
    hide PlansOk, TableAfterAll;
    InsertsCount(statics, Resized(e).t, fs, ps);
  }

  /** One field of a new name in an empty table of 40 is enough to change it. */
  lemma RefusedChangesTable()
    ensures
      var e, fs, ps := Enc(Tab([], 0, 40), 40, 40), [Field([97], [], false)], [UseInsert(0)];
      e.Ok() && Sendable([], e, fs, ps) && AfterBlock(e, fs, ps).t != e.t
  {
    var e, fs, ps := Enc(Tab([], 0, 40), 40, 40), [Field([97], [], false)], [UseInsert(0)];
    assert Newest([], 0) == 0;
    assert PlanOk([], e.t, fs[0], ps[0]);
    assert fs[1..] == [] && ps[1..] == [];
    assert UseInsert(0) in ps;
    RefusedKeepsTable([], e, fs, ps);
  }

  /** The least capacity asked for between two blocks. */
  function Least(e: Enc, cs: seq<nat>): Enc {
    if cs == [] then e else SetCapacity(Least(e, cs[..|cs| - 1]), cs[|cs| - 1])
  }

  /** However often the capacity changes between two blocks, the decoder is told the
      least of them, so that both ends evict what did not fit in it. */
  lemma {:induction false} LeastIsSignalled(e: Enc, cs: seq<nat>, c: nat)
    requires e.Ok() && c in cs && c < e.t.cap
    ensures
      var l := Least(e, cs);
      && l.t == e.t && l.next == cs[|cs| - 1] && l.min <= c && l.min < e.t.cap
      && CapacityReps(l)[0] == Capacity(l.min) && (l.min in cs || l.min == e.min)
  {
    if c in cs[..|cs| - 1] {
      LeastIsSignalled(e, cs[..|cs| - 1], c);
    } else {
      LeastTable(e, cs[..|cs| - 1]);
    }
  }

  lemma {:induction false} LeastTable(e: Enc, cs: seq<nat>)
    ensures Least(e, cs).t == e.t && (Least(e, cs).min in cs || Least(e, cs).min == e.min)
  {
    if cs != [] {
      LeastTable(e, cs[..|cs| - 1]);
    }
  }
}
