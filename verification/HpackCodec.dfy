/** The HPACK encoder and decoder as objects that update their table (hc/hpack.go). */
module HpackCodec {
  import opened Headers
  import opened History
  import opened TableSpec
  import opened DynamicTable
  import opened Lookups
  import opened Hpack

  const COLON: Octet := 58

  // ---- building up the plans of a block ----

  /** One field more. */
  lemma {:induction false} DecisionsSnoc(statics: seq<Pair>, noIndex: set<Str>, t: Tab, fs: seq<Field>, f: Field)
    requires t.Ok()
    ensures
      var ps := Decisions(statics, noIndex, t, fs);
      Decisions(statics, noIndex, t, fs + [f]) == ps + [Decide(statics, noIndex, TableAfterAll(t, fs, ps), f)]
    decreases |fs|
  {
    hide Decide, TableAfter;
    if fs == [] {
      assert [] + [f] == [f] && [f][1..] == [];
    } else {
      assert (fs + [f])[1..] == fs[1..] + [f];
      DecisionsSnoc(statics, noIndex, TableAfter(t, fs[0], Decide(statics, noIndex, t, fs[0])), fs[1..], f);
    }
  }

  lemma {:induction false} TablesSnoc(t: Tab, fs: seq<Field>, ps: seq<Plan>, f: Field, p: Plan)
    requires t.Ok() && |ps| == |fs|
    ensures TableAfterAll(t, fs + [f], ps + [p]) == TableAfter(TableAfterAll(t, fs, ps), f, p)
    decreases |fs|
  {
    hide TableAfter;
    if fs == [] {
      assert [] + [f] == [f] && [f][1..] == [] && [] + [p] == [p];
    } else {
      assert (fs + [f])[1..] == fs[1..] + [f] && (ps + [p])[1..] == ps[1..] + [p];
      TablesSnoc(TableAfter(t, fs[0], ps[0]), fs[1..], ps[1..], f, p);
    }
  }

  lemma NothingDecided(statics: seq<Pair>, noIndex: set<Str>, t: Tab)
    requires t.Ok()
    ensures Decisions(statics, noIndex, t, []) == [] && TableAfterAll(t, [], []) == t && RepsFor([], []) == []
  {
  }

  lemma RepsSnoc(fs: seq<Field>, ps: seq<Plan>, f: Field, p: Plan)
    requires |ps| == |fs|
    ensures RepsFor(fs + [f], ps + [p]) == RepsFor(fs, ps) + [RepFor(f, p)]
  {
  }

  class Encoder {
    const statics: seq<Pair>
    /** The names that preferences and defaults keep out of the table. */
    const noIndex: set<Str>
    const table: Table
    var minCapacity: nat
    var nextCapacity: nat

    ghost predicate Valid()
      reads this, table
    {
      table.Valid() && Value().Ok()
    }

    ghost function Value(): Enc
      requires table.Valid()
      reads this, table
    {
      Enc(table.Value(), minCapacity, nextCapacity)
    }

    constructor (statics: seq<Pair>, noIndex: set<Str>, capacity: nat)
      ensures Valid() && fresh(table) && this.statics == statics && this.noIndex == noIndex
      ensures Value() == Hpack.SetCapacity(Enc(Tab([], 0, 0), 0, 0), capacity)
    {
      this.statics, this.noIndex := statics, noIndex;
      table := new Table(0);
      minCapacity, nextCapacity := 0, capacity;
    }

    method SetCapacity(c: nat)
      requires Valid()
      modifies `minCapacity, `nextCapacity
      ensures Valid() && Value() == Hpack.SetCapacity(old(Value()), c)
    {
      if c < minCapacity {
        minCapacity := c;
      }
      nextCapacity := c;
    }

    method WriteCapacityChange() returns (reps: seq<Rep>)
      requires Valid()
      modifies this, table
      ensures Valid() && Value() == Resized(old(Value())) && reps == CapacityReps(old(Value()))
    {
      reps := [];
      if minCapacity < table.capacity {
        reps := reps + [Capacity(minCapacity)];
        table.SetCapacity(minCapacity);
      }
      if nextCapacity > table.capacity {
        reps := reps + [Capacity(nextCapacity)];
        table.SetCapacity(nextCapacity);
        minCapacity := nextCapacity;
      }
    }

    /** How one field is represented, and the decision that stands for. */
    method WriteField(f: Field) returns (rep: Rep, ghost plan: Plan)
      requires Valid()
      modifies table
      ensures Valid() && minCapacity == old(minCapacity) && nextCapacity == old(nextCapacity)
      ensures plan == Decide(statics, noIndex, old(table.Value()), f) && rep == RepFor(f, plan)
      ensures table.Value() == TableAfter(old(table.Value()), f, plan)
    {
      hide Fit, Newest, Find;
      if f.sensitive {
        return Literal(true, 0, f.name, f.value), UseLiteral(0);
      }
      ghost var t := table.Value();
      assert table.dynamic[0..|table.dynamic|] == Held(t.hist, t.live);
      var m, nm := table.Lookup(statics, f.AsPair(), 0, |table.dynamic|);
      assert m == FindIn(statics, t, f.AsPair(), true);
      if m != Nowhere {
        var i := Index(m);
        return Indexed(i), UseIndex(i);
      }
      assert nm == FindIn(statics, t, f.AsPair(), false);
      var n := Index(nm);
      var name := if nm == Nowhere then f.name else [];
      if Size(f.AsPair()) <= table.capacity && f.name !in noIndex {
        var _, _ := table.Insert(f.AsPair(), NoGuard);
        return Incremental(n, name, f.value), UseInsert(n);
      }
      return Literal(false, n, name, f.value), UseLiteral(n);
    }

    /** HpackTable.Index; zero for no match. */
    method Index(m: Found) returns (i: nat)
      requires table.Valid() && (m.InDynamic? ==> m.entry.base <= table.base)
      ensures i == IndexOf(statics, table.Value(), m) && (i == 0 <==> m == Nowhere)
    {
      match m
      case Nowhere => return 0;
      case InStatic(k) => return k + 1;
      case InDynamic(e) => return |statics| + 1 + table.base - e.base;
    }

    /** Stops with an error at a misplaced pseudo-header field, when what precedes it
        has already been written. */
    method WriteHeaderBlock(fs: seq<Field>) returns (reps: seq<Rep>, ok: bool, ghost plans: seq<Plan>)
      requires Valid() && NamesNonEmpty(fs)
      modifies this, table
      ensures Valid() && (ok <==> PseudoOrdered(fs))
      ensures |plans| <= |fs| && (ok ==> |plans| == |fs|)
      ensures var e, done := old(Value()), fs[..|plans|];
        && plans == Decisions(statics, noIndex, Resized(e).t, done)
        && reps == BlockReps(e, done, plans)
        && Value() == AfterBlock(e, done, plans)
    {
      hide Decide, RepFor, TableAfter, CapacityReps, Decisions, TableAfterAll, RepsFor;
      NothingDecided(statics, noIndex, Resized(Value()).t);
      reps := WriteCapacityChange();
      ghost var start, capacityReps := Value(), reps;
      var pseudo := true;
      plans := [];
      for i := 0 to |fs|
        invariant Valid() && minCapacity == start.min && nextCapacity == start.next && |plans| == i
        invariant plans == Decisions(statics, noIndex, start.t, fs[..i])
        invariant table.Value() == TableAfterAll(start.t, fs[..i], plans)
        invariant reps == capacityReps + RepsFor(fs[..i], plans)
        invariant PseudoOrdered(fs[..i])
        invariant pseudo <==> forall j :: 0 <= j < i ==> fs[j].name[0] == COLON
      {
        if fs[i].name[0] == COLON {
          if !pseudo {
            ok := false;
            assert fs[..|plans|] == fs[..i];
            return;
          }
        } else {
          pseudo := false;
        }
        ghost var plan;
        var rep;
        rep, plan := WriteField(fs[i]);
        assert fs[..i + 1] == fs[..i] + [fs[i]];
        DecisionsSnoc(statics, noIndex, start.t, fs[..i], fs[i]);
        TablesSnoc(start.t, fs[..i], plans, fs[i], plan);
        RepsSnoc(fs[..i], plans, fs[i], plan);
        reps := reps + [rep];
        plans := plans + [plan];
      }
      ok := true;
      assert fs[..|plans|] == fs;
    }
  }

  /** What reading a block comes to.  BadName is the panic on an empty name. */
  datatype Outcome = Fields(fs: seq<Field>) | IndexError | OrderError | BadName

  /** The check on the order of the decoded fields. */
  function Checked(fs: seq<Field>, all: seq<Field>, pseudo: bool): Outcome
    decreases |fs|
  {
    if fs == [] then Fields(all)
    else if fs[0].name == [] then BadName
    else if fs[0].name[0] == COLON then
      if pseudo then Checked(fs[1..], all, true) else OrderError
    else Checked(fs[1..], all, false)
  }

  /** Fields with names pass the check exactly if the pseudo-header fields come first. */
  lemma {:induction false} CheckedOrdered(fs: seq<Field>, all: seq<Field>, pseudo: bool)
    requires NamesNonEmpty(fs)
    ensures Checked(fs, all, pseudo)
         == if PseudoOrdered(fs) && (pseudo || forall j :: 0 <= j < |fs| ==> fs[j].name[0] != COLON) then Fields(all) else OrderError
    decreases |fs|
  {
    if fs != [] {
      var here := fs[0].name[0] == COLON;
      CheckedOrdered(fs[1..], all, pseudo && here);
      if here && !pseudo {
      } else {
        OrderedRest(fs, pseudo && here);
      }
    }
  }

  lemma OrderedRest(fs: seq<Field>, first: bool)
    requires fs != [] && NamesNonEmpty(fs) && (first ==> fs[0].name[0] == COLON)
    ensures NamesNonEmpty(fs[1..])
    ensures PseudoOrdered(fs) <==> PseudoOrdered(fs[1..]) && (fs[0].name[0] == COLON || forall j :: 0 <= j < |fs[1..]| ==> fs[1..][j].name[0] != COLON)
  {
    var rest := fs[1..];
    assert forall j :: 0 <= j < |rest| ==> rest[j] == fs[j + 1];
    if PseudoOrdered(rest) && (fs[0].name[0] == COLON || forall j :: 0 <= j < |rest| ==> rest[j].name[0] != COLON) {
      forall i, j | 0 <= i < j < |fs| && fs[j].name[0] == COLON ensures fs[i].name[0] == COLON {
        assert rest[j - 1] == fs[j];
        if i > 0 {
          assert rest[i - 1] == fs[i];
        }
      }
    }
    if PseudoOrdered(fs) {
      forall j | 0 <= j < |rest| && rest[j].name[0] == COLON ensures fs[0].name[0] == COLON {
        assert fs[j + 1] == rest[j];
      }
    }
  }

  class Decoder {
    const statics: seq<Pair>
    const table: Table

    constructor (statics: seq<Pair>)
      ensures table.Valid() && fresh(table) && table.Value() == Tab([], 0, 0) && this.statics == statics
    {
      this.statics := statics;
      table := new Table(0);
    }

    /** HpackTable.Get. */
    method Lookup(i: nat) returns (e: Option<Pair>)
      requires table.Valid()
      ensures e == Get(statics, table.Value(), i)
    {
      if i == 0 {
        return None;
      }
      if i <= |statics| {
        return Some(statics[i - 1]);
      }
      var d := table.GetDynamic(i - |statics| - 1, table.base);
      return if d.None? then None else Some(d.value.AsPair());
    }

    method ReadName(i: nat, name: Str) returns (n: Option<Str>)
      requires table.Valid()
      ensures n == NameFrom(statics, table.Value(), i, name)
    {
      if i == 0 {
        return Some(name);
      }
      var e := Lookup(i);
      return if e.None? then None else Some(e.value.name);
    }

    /** One representation: the fields it adds, or None for an index error. */
    method ReadRep(r: Rep) returns (out: Option<seq<Field>>)
      requires table.Valid()
      modifies table
      ensures table.Valid()
      ensures match DecodeRep(statics, old(table.Value()), r)
              case None => out.None?
              case Some(d) => out == Some(d.fields) && table.Value() == d.t
    {
      match r
      case Indexed(i) =>
        var e := Lookup(i);
        return if e.None? then None else Some([Field(e.value.name, e.value.value, false)]);
      case Incremental(i, n, v) =>
        var name := ReadName(i, n);
        if name.None? {
          return None;
        }
        var _, _ := table.Insert(Pair(name.value, v), NoGuard);
        return Some([Field(name.value, v, false)]);
      case Literal(never, i, n, v) =>
        var name := ReadName(i, n);
        return if name.None? then None else Some([Field(name.value, v, never)]);
      case Capacity(c) =>
        table.SetCapacity(c);
        return Some([]);
    }

    method ReadHeaderBlock(rs: seq<Rep>) returns (res: Outcome)
      requires table.Valid()
      modifies table
      ensures table.Valid()
      ensures match DecodeReps(statics, old(table.Value()), rs)
              case None => res == IndexError
              case Some(d) => table.Value() == d.t && res == Checked(d.fields, d.fields, true)
    {
      hide DecodeRep;
      var headers := [];
      ghost var whole := DecodeReps(statics, table.Value(), rs);
      assert rs[0..] == rs;
      if whole.Some? {
        assert [] + whole.value.fields == whole.value.fields;
      }
      for i := 0 to |rs|
        invariant table.Valid()
        invariant whole == After(headers, DecodeReps(statics, table.Value(), rs[i..]))
      {
        assert rs[i..][1..] == rs[i + 1..];
        var out := ReadRep(rs[i]);
        if out.None? {
          return IndexError;
        }
        AfterMore(headers, out.value, DecodeReps(statics, table.Value(), rs[i + 1..]));
        headers := headers + out.value;
      }
      assert headers + [] == headers;
      var pseudo := true;
      assert headers[0..] == headers;
      for i := 0 to |headers|
        invariant Checked(headers, headers, true) == Checked(headers[i..], headers, pseudo)
      {
        assert headers[i..][1..] == headers[i + 1..];
        if headers[i].name == [] {
          return BadName;
        }
        if headers[i].name[0] == COLON {
          if !pseudo {
            return OrderError;
          }
        } else {
          pseudo := false;
        }
      }
      return Fields(headers);
    }
  }

  ghost function After(done: seq<Field>, d: Option<Decoded>): Option<Decoded> {
    match d
    case None => None
    case Some(x) => Some(Decoded(x.t, done + x.fields))
  }

  lemma AfterMore(done: seq<Field>, more: seq<Field>, d: Option<Decoded>)
    ensures After(done, After(more, d)) == After(done + more, d)
  {
    if d.Some? {
      assert done + (more + d.value.fields) == (done + more) + d.value.fields;
    }
  }
}
