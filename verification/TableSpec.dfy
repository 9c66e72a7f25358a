/** The value of a dynamic table, as hc/table.go defines it: what has been
    inserted, how many of the newest inserts are still held, and the capacity. */
module TableSpec {
  import opened Headers
  import opened History

  datatype Tab = Tab(hist: Hist, live: nat, cap: nat) {
    predicate Ok() {
      live <= |hist| && Newest(hist, live) <= cap
    }

    /** The insert count, which numbers the newest entry. */
    function Base(): nat { |hist| }

    /** The entry `i` places before `base`, or None when it is not held. */
    function GetDynamic(i: int, base: int): Option<Pair>
      requires Ok()
    {
      var delta := Base() - base;
      if delta < 0 then None
      else if i + delta >= live || i + delta < 0 then None
      else Some(hist[Base() - 1 - (i + delta)])
    }

    function EvictTo(room: nat): (t: Tab)
      requires Ok()
      ensures t.Ok() && t.hist == hist && t.cap == cap && t.live <= live
    {
      NewestMonotone(hist, Fit(hist, live, room), live);
      Tab(hist, Fit(hist, live, room), cap)
    }

    function SetCapacity(c: nat): (t: Tab)
      requires Ok()
      ensures t.Ok() && t.cap == c && t.hist == hist
    {
      Tab(hist, Fit(hist, live, c), c)
    }

    /** Insert with nothing to veto eviction.  An entry larger than the table
        empties it and is not added. */
    function Insert(p: Pair): (t: Tab)
      requires Ok()
      ensures t.Ok() && t.cap == cap
      ensures Size(p) <= cap ==> t.hist == hist + [p] && t.live > 0
      ensures Size(p) > cap ==> t.hist == hist && t.live == 0
    {
      if Size(p) > cap then
        Tab(hist, 0, cap)
      else
        NewestOfAppend(hist, p, Fit(hist, live, cap - Size(p)));
        Tab(hist + [p], Fit(hist, live, cap - Size(p)) + 1, cap)
    }
  }

  /** The entry with base `b` is in the table. */
  predicate Holds(t: Tab, b: nat) {
    1 <= b <= |t.hist| && |t.hist| - b < t.live
  }

  /** The space that the entry with base `b` and all newer ones take together. */
  function From(h: Hist, b: nat): nat
    requires 1 <= b <= |h|
    decreases |h| - b
  {
    Size(h[b - 1]) + if b == |h| then 0 else From(h, b + 1)
  }

  lemma {:induction false} FromIsNewest(h: Hist, b: nat)
    requires 1 <= b <= |h|
    ensures From(h, b) == Newest(h, |h| - b + 1)
    decreases |h| - b
  {
    NewestStep(h, |h| - b);
    if b < |h| {
      FromIsNewest(h, b + 1);
    }
  }

  lemma FitHolds(h: Hist, n: nat, room: nat, b: nat)
    requires n <= |h| && 1 <= b <= |h|
    ensures |h| - b < Fit(h, n, room) <==> |h| - b < n && From(h, b) <= room
  {
    FromIsNewest(h, b);
    var k, m := |h| - b + 1, Fit(h, n, room);
    if k <= m {
      NewestMonotone(h, k, m);
    } else if k <= n {
      NewestMonotone(h, m + 1, k);
    }
  }

  /** A change of capacity leaves an entry in the table exactly if it was there and it
      and everything newer take no more than the new capacity; so growing keeps all. */
  lemma SetCapacityHolds(t: Tab, c: nat, b: nat)
    requires t.Ok()
    ensures Holds(t.SetCapacity(c), b) <==> Holds(t, b) && From(t.hist, b) <= c
    ensures c >= t.cap ==> t.SetCapacity(c) == t.(cap := c)
  {
    hide Newest;
    if 1 <= b <= |t.hist| {
      FitHolds(t.hist, t.live, c, b);
    }
    if c >= t.cap {
      GrowingKeeps(t, c);
    }
  }

  lemma GrowingKeeps(t: Tab, c: nat)
    requires t.Ok() && c >= t.cap
    ensures Fit(t.hist, t.live, c) == t.live
  {
  }

  /** An insert that fits leaves an older entry exactly if it was there and there is room
      for it, for everything newer and for the new one; one that does not empties the
      table. */
  lemma InsertHolds(t: Tab, p: Pair, b: nat)
    requires t.Ok()
    ensures
      var u := t.Insert(p);
      if Size(p) > t.cap then !Holds(u, b) && u.hist == t.hist
      else
        && u.hist == t.hist + [p]
        && (Holds(u, b) <==> b == |t.hist| + 1 || (Holds(t, b) && From(t.hist, b) + Size(p) <= t.cap))
  {
    hide Newest, Fit;
    if Size(p) <= t.cap && 1 <= b <= |t.hist| {
      FitHolds(t.hist, t.live, t.cap - Size(p), b);
    }
  }

  /** The table that `h` leads to when the capacity has always been `cap`. */
  function Canon(h: Hist, cap: nat): (t: Tab)
    ensures t.Ok()
  {
    Tab(h, LiveCount(h, cap), cap)
  }

  /** A lookup by base finds the entry with that base exactly while it is live. */
  lemma CanonGet(h: Hist, cap: nat, base: nat, b: nat)
    requires 1 <= b <= base <= |h|
    ensures Canon(h, cap).GetDynamic(base - b, base) == if Live(h, cap, b) then Some(h[b - 1]) else None
  {
    LiveIsNewest(h, cap, b);
  }

  lemma CanonInsert(h: Hist, cap: nat, p: Pair)
    requires Size(p) <= cap
    ensures Canon(h, cap).Insert(p) == Canon(h + [p], cap)
  {
    LiveCountAppend(h, cap, p);
  }

  /** Inserts in order. */
  function InsertAll(t: Tab, ps: seq<Pair>): (u: Tab)
    requires t.Ok()
    ensures u.Ok() && u.Base() >= t.Base()
  {
    if ps == [] then t else InsertAll(t, ps[..|ps| - 1]).Insert(ps[|ps| - 1])
  }

  /** Base-relative lookup is stable: whatever the table held under a base, it keeps
      returning after any number of inserts, until that entry is evicted; then it never
      returns anything under that base again. */
  lemma {:induction false} GetDynamicStable(t: Tab, ps: seq<Pair>, i: int, base: nat)
    requires t.Ok() && base <= t.Base() && t.GetDynamic(i, base).Some?
    ensures
      var u := InsertAll(t, ps);
      u.GetDynamic(i, base) == if i + u.Base() - base < u.live then t.GetDynamic(i, base) else None
    ensures forall n :: 0 <= n <= |ps| && InsertAll(t, ps[..n]).GetDynamic(i, base).None? ==> InsertAll(t, ps).GetDynamic(i, base).None?
  {
    if ps != [] {
      var before := ps[..|ps| - 1];
      GetDynamicStable(t, before, i, base);
      var u := InsertAll(t, before);
      InsertShifts(u, ps[|ps| - 1]);
      forall n | 0 <= n <= |ps| && InsertAll(t, ps[..n]).GetDynamic(i, base).None?
        ensures InsertAll(t, ps).GetDynamic(i, base).None?
      {
        if n == |ps| {
          assert ps[..n] == ps;
        } else {
          assert ps[..n] == before[..n];
        }
      }
    } else {
      assert forall n :: 0 <= n <= |ps| ==> ps[..n] == ps;
    }
  }

  /** An insert moves every entry by one place, or empties the table. */
  lemma InsertShifts(t: Tab, p: Pair)
    requires t.Ok()
    ensures var u := t.Insert(p);
      if Size(p) <= t.cap then u.hist == t.hist + [p] && u.live <= t.live + 1 else u.hist == t.hist && u.live == 0
  {
  }
}
