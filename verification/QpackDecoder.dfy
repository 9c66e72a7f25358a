/** The QPACK decoder as an object that updates its table (hc/qpackdecoder.go). */
module QpackDecoder {
  import opened Headers
  import History
  import opened TableSpec
  import opened DynamicTable
  import opened QpackSyntax
  import opened QpackReader
  import opened Seqs

  /** What reading a header block comes to: it has to wait for the table to reach an
      insert count, it is malformed, or it yields fields and the largest reference to
      acknowledge. */
  datatype Outcome = Wait(largest: nat) | Malformed | Fields(fs: seq<Field>, largest: nat)

  function LinesRead(statics: seq<Pair>, t: Tab, base: int, ls: seq<Line>): Option<seq<Field>>
    requires t.Ok()
  {
    if ls == [] then Some([])
    else
      match (LinesRead(statics, t, base, ls[..|ls| - 1]), ReadLine(statics, t, base, ls[|ls| - 1]))
      case (Some(fs), Some(f)) => Some(fs + [f])
      case _ => None
  }

  function BlockRead(statics: seq<Pair>, t: Tab, b: Block): Outcome
    requires t.Ok()
  {
    match DecodeLargest(t.Base(), t.cap, b.prefix.wrapped)
    case None => Malformed
    case Some(l) =>
      if t.Base() < l then Wait(l)
      else match ReadBase(l, b.prefix)
        case None => Malformed
        case Some(base) =>
          match LinesRead(statics, t, base, b.lines)
          case None => Malformed
          case Some(fs) => Fields(fs, l)
  }

  /** One unreadable line makes the whole block unreadable. */
  lemma {:induction false} LinesStuck(statics: seq<Pair>, t: Tab, base: int, ls: seq<Line>, n: nat)
    requires t.Ok() && n < |ls| && ReadLine(statics, t, base, ls[n]).None?
    ensures LinesRead(statics, t, base, ls).None?
  {
    if n < |ls| - 1 {
      LinesStuck(statics, t, base, ls[..|ls| - 1], n);
    }
  }

  lemma {:induction false} LinesReadAll(statics: seq<Pair>, t: Tab, base: int, ls: seq<Line>, fs: seq<Field>)
    requires t.Ok() && |ls| == |fs| && forall n :: 0 <= n < |fs| ==> ReadLine(statics, t, base, ls[n]) == Some(fs[n])
    ensures LinesRead(statics, t, base, ls) == Some(fs)
  {
    hide ReadLine;
    if fs != [] {
      var n := |fs| - 1;
      LinesReadAll(statics, t, base, ls[..n], fs[..n]);
      assert fs == fs[..n] + [fs[n]];
    }
  }

  lemma {:induction false} LinesReadEach(statics: seq<Pair>, t: Tab, base: int, ls: seq<Line>, fs: seq<Field>, n: nat)
    requires t.Ok() && n < |ls| && LinesRead(statics, t, base, ls) == Some(fs)
    ensures |fs| == |ls| && ReadLine(statics, t, base, ls[n]) == Some(fs[n])
  {
    hide ReadLine;
    var m := |ls| - 1;
    if m > 0 {
      LinesReadEach(statics, t, base, ls[..m], fs[..|fs| - 1], if n < m then n else 0);
    }
  }

  class Decoder {
    const statics: seq<Pair>
    const table: Table
    /** The bases announced to the ack writer, in order. */
    var available: seq<nat>

    constructor (statics: seq<Pair>, capacity: nat)
      ensures table.Valid() && fresh(table) && table.Value() == Tab([], 0, capacity) && this.statics == statics && available == []
    {
      this.statics := statics;
      table := new Table(capacity);
      available := [];
    }

    method Lookup(i: int, base: int) returns (p: Option<Pair>)
      requires table.Valid()
      ensures p == table.Value().GetDynamic(i, base)
    {
      var e := table.GetDynamic(i, base);
      return if e.None? then None else Some(e.value.AsPair());
    }

    /** readValueAndInsert. */
    method InsertPair(p: Pair) returns (ok: bool)
      requires table.Valid()
      modifies this, table
      ensures table.Valid()
      ensures match InsertChecked(old(table.Value()), p)
              case None => !ok && unchanged(this) && unchanged(table)
              case Some(t) => ok && table.Value() == t && available == old(available) + [t.Base()]
    {
      if Size(p) > table.capacity {
        return false;
      }
      var _, _ := table.Insert(p, NoGuard);
      available := available + [table.base];
      return true;
    }

    /** One instruction of ReadTableUpdates; an error leaves the table alone. */
    method ReadUpdate(u: Instr) returns (ok: bool)
      requires table.Valid()
      modifies this, table
      ensures table.Valid()
      ensures match Update(statics, old(table.Value()), u)
              case None => !ok && unchanged(table)
              case Some(t) => ok && table.Value() == t
      ensures ok ==> available == old(available) + if u.SetCapacity? then [] else [table.base]
    {
      var base := table.base;
      match u
      case InsertNameStatic(i, v) =>
        if i >= |statics| {
          return false;
        }
        ok := InsertPair(Pair(statics[i].name, v));
      case InsertNameDynamic(i, v) =>
        var e := Lookup(i, base);
        if e.None? {
          return false;
        }
        ok := InsertPair(Pair(e.value.name, v));
      case InsertLiteral(n, v) =>
        ok := InsertPair(Pair(n, v));
      case Duplicate(i) =>
        var e := Lookup(i, base);
        if e.None? {
          return false;
        }
        HeldFits(table.Value(), i, base);
        ok := InsertPair(e.value);
      case SetCapacity(c) =>
        table.SetCapacity(c);
        return true;
    }

    method ReadTableUpdates(us: seq<Instr>) returns (ok: bool)
      requires table.Valid()
      modifies this, table
      ensures table.Valid()
      ensures match Updates(statics, old(table.Value()), us)
              case None => !ok
              case Some(t) => ok && table.Value() == t
      ensures !ok ==> exists n ::
        && 0 <= n < |us|
        && Updates(statics, old(table.Value()), us[..n]) == Some(table.Value())
        && Update(statics, table.Value(), us[n]).None?
    {
      hide Update;
      ghost var start := table.Value();
      for i := 0 to |us|
        invariant table.Valid() && Updates(statics, start, us[..i]) == Some(table.Value())
      {
        assert us[..i + 1] == us[..i] + [us[i]];
        FoldAppend(UpdateStep(statics), start, us[..i], us[i]);
        var done := ReadUpdate(us[i]);
        if !done {
          UpdatesStuck(statics, start, us, i + 1);
          return false;
        }
      }
      assert us[..|us|] == us;
      return true;
    }

    /** One representation. */
    method ReadField(base: int, l: Line) returns (f: Option<Field>)
      requires table.Valid()
      ensures f == ReadLine(statics, table.Value(), base, l)
    {
      var e: Option<Pair>;
      match l
      case IndexedStatic(i) =>
        return AsField(GetStatic(statics, i));
      case IndexedDynamic(i) =>
        e := Lookup(i, base);
        return AsField(e);
      case IndexedPostBase(i) =>
        e := Lookup(-1 - i, base);
        return AsField(e);
      case NameStatic(i, v, n) =>
        return WithName(GetStatic(statics, i), v, n);
      case NameDynamic(i, v, n) =>
        e := Lookup(i, base);
        return WithName(e, v, n);
      case NamePostBase(i, v, n) =>
        e := Lookup(-1 * i, base);
        return WithName(e, v, n);
      case NameLiteral(n, v, s) =>
        return Some(Field(n, v, s));
    }

    /** ReadHeaderBlock, once the table is as far as it needs to be. */
    method ReadHeaderBlock(b: Block) returns (res: Outcome)
      requires table.Valid()
      ensures res == BlockRead(statics, table.Value(), b)
    {
      hide ReadLine;
      var largest := DecodeLargest(table.base, table.capacity, b.prefix.wrapped);
      if largest.None? {
        return Malformed;
      }
      if table.base < largest.value {
        return Wait(largest.value);
      }
      var base := ReadBase(largest.value, b.prefix);
      if base.None? {
        return Malformed;
      }
      var headers := [];
      for i := 0 to |b.lines|
        invariant LinesRead(statics, table.Value(), base.value, b.lines[..i]) == Some(headers)
      {
        assert b.lines[..i + 1][..i] == b.lines[..i] && b.lines[..i + 1][i] == b.lines[i];
        var f := ReadField(base.value, b.lines[i]);
        if f.None? {
          LinesStuck(statics, table.Value(), base.value, b.lines, i);
          return Malformed;
        }
        headers := headers + [f.value];
      }
      assert b.lines[..|b.lines|] == b.lines;
      return Fields(headers, largest.value);
    }
  }

  /** An entry that is held is no larger than the table. */
  lemma HeldFits(t: Tab, i: int, base: int)
    requires t.Ok() && t.GetDynamic(i, base).Some?
    ensures Size(t.GetDynamic(i, base).value) <= t.cap
  {
    var k := i + t.Base() - base;
    History.NewestMonotone(t.hist, k + 1, t.live);
    History.NewestMonotone(t.hist, 0, k);
  }

  lemma {:induction false} UpdatesStuck(statics: seq<Pair>, t: Tab, us: seq<Instr>, n: nat)
    requires n <= |us| && Updates(statics, t, us[..n]).None?
    ensures Updates(statics, t, us).None?
    decreases |us| - n
  {
    if n < |us| {
      assert us[..n + 1] == us[..n] + [us[n]];
      FoldAppend(UpdateStep(statics), t, us[..n], us[n]);
      UpdatesStuck(statics, t, us, n + 1);
    } else {
      assert us[..n] == us;
    }
  }
}
