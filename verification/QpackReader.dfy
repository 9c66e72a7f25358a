/** The QPACK decoder as functions of its table (hc/qpackdecoder.go). */
module QpackReader {
  import opened Headers
  import opened History
  import opened TableSpec
  import opened QpackSyntax
  import opened Seqs

  function GetStatic(statics: seq<Pair>, i: int): Option<Pair> {
    if i < 0 || i >= |statics| then None else Some(statics[i])
  }

  /** readValueAndInsert: an entry larger than the table is an error. */
  function InsertChecked(t: Tab, p: Pair): (r: Option<Tab>)
    requires t.Ok()
    ensures r.Some? ==> r.value.Ok()
  {
    if Size(p) > t.cap then None else Some(t.Insert(p))
  }

  /** One table update, or None for an error. */
  function Update(statics: seq<Pair>, t: Tab, u: Instr): (r: Option<Tab>)
    requires t.Ok()
    ensures r.Some? ==> r.value.Ok()
  {
    match u
    case InsertNameStatic(i, v) =>
      (match GetStatic(statics, i)
       case None => None
       case Some(e) => InsertChecked(t, Pair(e.name, v)))
    case InsertNameDynamic(i, v) =>
      (match t.GetDynamic(i, t.Base())
       case None => None
       case Some(e) => InsertChecked(t, Pair(e.name, v)))
    case InsertLiteral(n, v) => InsertChecked(t, Pair(n, v))
    case Duplicate(i) =>
      (match t.GetDynamic(i, t.Base())
       case None => None
       case Some(e) => Some(t.Insert(e)))
    case SetCapacity(c) => Some(t.SetCapacity(c))
  }

  /** The pair that an update adds, by the base of the entry it refers to; None if it adds
      nothing or refers to an entry that is not there. */
  function Adds(statics: seq<Pair>, t: Tab, u: Instr): Option<Pair> {
    match u
    case InsertNameStatic(i, v) => if i < |statics| then Some(Pair(statics[i].name, v)) else None
    case InsertNameDynamic(i, v) =>
      if i < |t.hist| && Holds(t, |t.hist| - i) then Some(Pair(t.hist[|t.hist| - i - 1].name, v)) else None
    case InsertLiteral(n, v) => Some(Pair(n, v))
    case Duplicate(i) => if i < |t.hist| && Holds(t, |t.hist| - i) then Some(t.hist[|t.hist| - i - 1]) else None
    case SetCapacity(_) => None
  }

  /** An update other than of the capacity is an error exactly if it adds nothing or what
      does not fit; otherwise it appends one pair, after which an older entry is there
      exactly if it was and there is room for it. */
  lemma UpdateExactly(statics: seq<Pair>, t: Tab, u: Instr)
    requires t.Ok() && !u.SetCapacity?
    ensures
      var r, p := Update(statics, t, u), Adds(statics, t, u);
      && (r.Some? <==> p.Some? && 32 + |p.value.name| + |p.value.value| <= t.cap)
      && (r.Some? ==>
            && r.value.hist == t.hist + [p.value] && r.value.cap == t.cap
            && forall b :: 1 <= b <= |t.hist| ==>
                 (Holds(r.value, b) <==> Holds(t, b) && From(t.hist, b) + Size(p.value) <= t.cap))
  {
    hide Newest, Fit;
    var p := Adds(statics, t, u);
    if p.Some? {
      forall b | 1 <= b <= |t.hist| ensures Size(p.value) <= t.cap ==>
        (Holds(t.Insert(p.value), b) <==> Holds(t, b) && From(t.hist, b) + Size(p.value) <= t.cap)
      {
        InsertHolds(t, p.value, b);
      }
      if u.Duplicate? {
        HeldHasRoom(t, |t.hist| - u.index);
      }
    }
  }

  lemma HeldHasRoom(t: Tab, b: nat)
    requires t.Ok() && Holds(t, b)
    ensures Size(t.hist[b - 1]) <= t.cap
  {
    FromIsNewest(t.hist, b);
    NewestMonotone(t.hist, |t.hist| - b + 1, t.live);
  }

  function UpdateStep(statics: seq<Pair>): (Tab, Instr) -> Option<Tab> {
    (t: Tab, u: Instr) => if t.Ok() then Update(statics, t, u) else None
  }

  /** Updates in order. */
  function Updates(statics: seq<Pair>, t: Tab, us: seq<Instr>): Option<Tab> {
    Fold(UpdateStep(statics), t, us)
  }

  /** decodeLargestBase.  None stands for the division by zero that a wrapped
      value causes in a table too small to hold an entry. */
  function DecodeLargest(inserts: nat, cap: nat, wrapped: nat): Option<nat> {
    if wrapped == 0 then Some(0)
    else
      var maxEntries := cap / ENTRY_OVERHEAD;
      var fullRange := maxEntries * 2;
      if fullRange == 0 then None
      else
        var maxValue := inserts + maxEntries;
        var rounded := maxValue / fullRange * fullRange;
        var largest := rounded + wrapped - 1;
        Some(if largest > maxValue && largest >= fullRange then largest - fullRange else largest)
  }

  function AsField(e: Option<Pair>): Option<Field> {
    match e
    case None => None
    case Some(p) => Some(Field(p.name, p.value, false))
  }

  function WithName(e: Option<Pair>, value: Str, sensitive: bool): Option<Field> {
    match e
    case None => None
    case Some(p) => Some(Field(p.name, value, sensitive))
  }

  /** One representation, or None for an index error.  The post-base name form
      negates its index where the indexed form also subtracts one. */
  function ReadLine(statics: seq<Pair>, t: Tab, base: int, l: Line): Option<Field>
    requires t.Ok()
  {
    match l
    case IndexedStatic(i) => AsField(GetStatic(statics, i))
    case IndexedDynamic(i) => AsField(t.GetDynamic(i, base))
    case IndexedPostBase(i) => AsField(t.GetDynamic(-1 - i, base))
    case NameStatic(i, v, n) => WithName(GetStatic(statics, i), v, n)
    case NameDynamic(i, v, n) => WithName(t.GetDynamic(i, base), v, n)
    case NamePostBase(i, v, n) => WithName(t.GetDynamic(-1 * i, base), v, n)
    case NameLiteral(n, v, s) => Some(Field(n, v, s))
  }

  /** readBase, once the table has reached `largest`: the base that indices are
      relative to, or None for a negative zero. */
  function ReadBase(largest: nat, p: Prefix): Option<int> {
    if p.negative && p.delta == 0 then None
    else Some(if p.negative then largest - p.delta else largest + p.delta)
  }
}
