/** The dynamic table shared by HPACK and QPACK (hc/table.go). */
module DynamicTable {
  import opened Headers
  import opened History
  import opened TableSpec
  import opened Lookups

  /** The eviction check.  QPACK's check also keeps account of the entries it has
      approved; `EvictTo` reports how many those are. */
  datatype Guard = NoGuard | Guard(smallest: Option<nat>, inUse: set<nat>) {
    predicate CanEvict(b: nat) {
      NoGuard? || ((smallest.None? || b < smallest.value) && b !in inUse)
    }
  }

  /** Everything that must go for the newest `n` entries to fit in `room` may go. */
  ghost predicate MayEvict(h: Hist, n: nat, room: nat, guard: Guard)
    requires n <= |h|
  {
    forall b: nat :: |h| - n < b <= |h| - Fit(h, n, room) ==> guard.CanEvict(b)
  }

  /** How many of the oldest entries are approved for eviction before one is not, when
      the newest `n` are to be reduced to `m`. */
  function Approved(h: Hist, n: nat, m: nat, guard: Guard): (k: nat)
    requires m <= n <= |h|
    ensures k <= n - m
  {
    if n == m || !guard.CanEvict(|h| - n + 1) then 0 else 1 + Approved(h, n - 1, m, guard)
  }

  lemma ApprovedStep(h: Hist, n: nat, m: nat, guard: Guard)
    requires m < n <= |h|
    ensures Approved(h, n, m, guard) == if guard.CanEvict(|h| - n + 1) then 1 + Approved(h, n - 1, m, guard) else 0
  {
  }

  /** The entries approved are the oldest up to the first that may not go. */
  lemma {:induction false} ApprovedExactly(h: Hist, n: nat, m: nat, guard: Guard)
    requires m <= n <= |h|
    ensures
      var k := Approved(h, n, m, guard);
      && (forall b: nat :: |h| - n < b <= |h| - n + k ==> guard.CanEvict(b))
      && (k < n - m ==> !guard.CanEvict(|h| - n + k + 1))
  {
    if m < n {
      ApprovedExactly(h, n - 1, m, guard);
    }
  }

  lemma ApprovedNone(h: Hist, m: nat, guard: Guard)
    requires m <= |h|
    ensures Approved(h, m, m, guard) == 0
  {
  }

  lemma FitStep(h: Hist, n: nat, room: nat)
    requires 0 < n <= |h| && room < Newest(h, n)
    ensures Fit(h, n, room) == Fit(h, n - 1, room)
  {
  }

  lemma FitDone(h: Hist, n: nat, room: nat)
    requires n <= |h| && (n == 0 || Newest(h, n) <= room)
    ensures Fit(h, n, room) == n
  {
  }

  /** Entries have a size, so emptying a table to nothing removes them all. */
  lemma NothingFits(h: Hist, n: nat)
    requires n <= |h|
    ensures Newest(h, 0) == 0 && (Newest(h, n) <= 0 ==> n == 0)
  {
    NewestMonotone(h, 0, n);
  }

  class Table {
    /** Newest first. */
    var dynamic: seq<Entry>
    var capacity: nat
    var used: nat
    var base: nat
    /** Everything ever inserted. */
    ghost var hist: Hist

    ghost predicate Valid()
      reads this
    {
      && base == |hist| && |dynamic| <= base
      && dynamic == Held(hist, |dynamic|)
      && used == Newest(hist, |dynamic|) && used <= capacity
    }

    ghost function Value(): (t: Tab)
      requires Valid()
      reads this
      ensures t.Ok()
    {
      Tab(hist, |dynamic|, capacity)
    }

    constructor (c: nat)
      ensures Valid() && Value() == Tab([], 0, c)
    {
      dynamic, capacity, used, base := [], c, 0, 0;
      hist := [];
    }

    method GetDynamic(i: int, relative: int) returns (e: Option<Entry>)
      requires Valid()
      ensures e.Some? <==> Value().GetDynamic(i, relative).Some?
      ensures e.Some? ==> Value().GetDynamic(i, relative) == Some(e.value.AsPair()) && e.value.base == relative - i
    {
      var delta := base - relative;
      if delta < 0 {
        return None;
      }
      var dynIndex := i + delta;
      if dynIndex >= |dynamic| || dynIndex < 0 {
        return None;
      }
      return Some(dynamic[dynIndex]);
    }

    /** Evict the oldest entries until the rest fit in `reduced`, or give up at the
        first one that may not go, leaving everything as it was. */
    method EvictTo(reduced: nat, guard: Guard) returns (ok: bool, tried: nat)
      requires Valid()
      modifies `dynamic, `used
      ensures Valid()
      ensures ok <==> MayEvict(hist, |old(dynamic)|, reduced, guard)
      ensures ok ==> Value() == old(Value()).EvictTo(reduced) && tried == |old(dynamic)| - |dynamic|
      ensures tried == Approved(hist, |old(dynamic)|, Fit(hist, |old(dynamic)|, reduced), guard)
      ensures !ok ==> unchanged(this) && tried < |dynamic| && !guard.CanEvict(base - |dynamic| + tried + 1)
      ensures forall b :: base - |old(dynamic)| < b <= base - |old(dynamic)| + tried ==> guard.CanEvict(b)
    {
      hide Newest, Fit;
      var left;
      ok, tried, left := ScanOldest(reduced, guard);
      if ok {
        dynamic := dynamic[..|dynamic| - tried];
        used := left;
        assert dynamic == Held(hist, |dynamic|);
      }
    }

    /** The loop of evictTo: how many of the oldest entries may go, and the space
        that the others take. */
    method ScanOldest(reduced: nat, guard: Guard) returns (ok: bool, tried: nat, left: nat)
      requires Valid()
      ensures tried == Approved(hist, |dynamic|, Fit(hist, |dynamic|, reduced), guard) && left <= used
      ensures forall b :: base - |dynamic| < b <= base - |dynamic| + tried ==> guard.CanEvict(b)
      ensures ok ==> tried == |dynamic| - Fit(hist, |dynamic|, reduced) && left == Newest(hist, |dynamic| - tried)
      ensures !ok ==> tried < |dynamic| - Fit(hist, |dynamic|, reduced) && !guard.CanEvict(base - |dynamic| + tried + 1)
    {
      hide Newest, Approved, Held, Fit;
      ApprovedNone(hist, Fit(hist, |dynamic|, reduced), guard);
      var l := |dynamic|;
      left, tried := used, 0;
      while l > 0 && left > reduced
        invariant 0 <= l <= |dynamic| && left == Newest(hist, l) <= used && tried == |dynamic| - l
        invariant Fit(hist, |dynamic|, reduced) == Fit(hist, l, reduced)
        invariant tried + Approved(hist, l, Fit(hist, l, reduced), guard) == Approved(hist, |dynamic|, Fit(hist, l, reduced), guard)
        invariant forall b :: base - |dynamic| < b <= base - l ==> guard.CanEvict(b)
      {
        FitStep(hist, l, reduced);
        l := l - 1;
        NewestStep(hist, l);
        ApprovedStep(hist, l + 1, Fit(hist, l, reduced), guard);
        assert dynamic[l].AsPair() == hist[base - 1 - l] && dynamic[l].base == base - l;
        if !guard.CanEvict(dynamic[l].base) {
          return false, tried, left;
        }
        tried := tried + 1;
        left := left - dynamic[l].Size();
      }
      FitDone(hist, l, reduced);
      return true, tried, left;
    }

    method SetCapacity(c: nat)
      requires Valid()
      modifies `dynamic, `used, `capacity
      ensures Valid() && Value() == old(Value()).SetCapacity(c)
    {
      var _, _ := EvictTo(c, NoGuard);
      capacity := c;
    }

    /** Insert an entry, making room for it first.  An entry larger than the table
        is not inserted and, if nothing vetoes that, empties the table. */
    method Insert(p: Pair, guard: Guard) returns (inserted: bool, tried: nat)
      requires Valid()
      modifies this
      ensures Valid() && capacity == old(capacity)
      ensures inserted <==> Size(p) <= capacity && MayEvict(old(hist), |old(dynamic)|, capacity - Size(p), guard)
      ensures inserted || guard.NoGuard? ==> Value() == old(Value()).Insert(p)
      ensures inserted ==> tried == |old(dynamic)| + 1 - |dynamic|
      ensures tried <= |old(dynamic)|
      ensures Size(p) <= capacity ==>
        tried == Approved(old(hist), |old(dynamic)|, Fit(old(hist), |old(dynamic)|, capacity - Size(p)), guard)
      ensures Size(p) > capacity ==>
        if MayEvict(old(hist), |old(dynamic)|, 0, guard)
        then Value() == old(Value()).Insert(p) && tried == |old(dynamic)|
        else unchanged(this)
      ensures !inserted && Size(p) <= capacity ==>
        && unchanged(this)
        && tried < |dynamic| && !guard.CanEvict(base - |dynamic| + tried + 1)
      ensures forall b :: old(base) - |old(dynamic)| < b <= old(base) - |old(dynamic)| + tried ==> guard.CanEvict(b)
    {
      hide Newest, Fit;
      if Size(p) > capacity {
        var ok, n := EvictTo(0, guard);
        if ok {
          NothingFits(hist, |dynamic|);
          dynamic := [];
          used := 0;
        }
        return false, n;
      }
      var ok, n := EvictTo(capacity - Size(p), guard);
      if !ok {
        return false, n;
      }
      Add(p);
      return true, n;
    }

    /** Add an entry for which there is room. */
    method Add(p: Pair)
      requires Valid() && used + Size(p) <= capacity
      modifies this
      ensures Valid() && Value() == Tab(old(hist) + [p], |old(dynamic)| + 1, old(capacity))
    {
      NewestOfAppend(hist, p, |dynamic|);
      base := base + 1;
      dynamic := [Entry(p.name, p.value, base)] + dynamic;
      used := used + Size(p);
      hist := hist + [p];
      assert dynamic == Held(hist, |dynamic|);
    }

    /** The first entry with this name and value, and the first with this name; the
        static table comes before the entries `lo` up to `hi` of the dynamic one. */
    method Lookup(statics: seq<Pair>, p: Pair, lo: nat, hi: nat) returns (full: Found, name: Found)
      requires Valid() && lo <= hi <= |dynamic|
      ensures full == Find(statics, dynamic[lo..hi], p, true)
      ensures name == if full != Nowhere then full else Find(statics, dynamic[lo..hi], p, false)
    {
      hide First, Held, Newest;
      var i, k := LookupStatic(statics, p);
      if i < |statics| {
        return InStatic(i), InStatic(i);
      }
      full, name := LookupDynamic(p, lo, hi);
      if full == Nowhere && k < |statics| {
        name := InStatic(k);
      }
    }

    /** The loop over the static table. */
    static method LookupStatic(statics: seq<Pair>, p: Pair) returns (full: nat, name: nat)
      ensures full == First(statics, p, true)
      ensures full == |statics| ==> name == First(statics, p, false)
    {
      name := |statics|;
      for i := 0 to |statics|
        invariant i <= First(statics, p, true)
        invariant name == if First(statics, p, false) < i then First(statics, p, false) else |statics|
      {
        if statics[i].name == p.name {
          if statics[i].value == p.value {
            return i, i;
          }
          if name == |statics| {
            name := i;
          }
        }
      }
      return |statics|, name;
    }

    /** The loop over the dynamic table. */
    method LookupDynamic(p: Pair, lo: nat, hi: nat) returns (full: Found, name: Found)
      requires lo <= hi <= |dynamic|
      ensures full == Find([], dynamic[lo..hi], p, true)
      ensures name == if full != Nowhere then full else Find([], dynamic[lo..hi], p, false)
    {
      hide First;
      ghost var es := dynamic[lo..hi];
      ghost var firstName := First(Pairs(es), p, false);
      name := Nowhere;
      for k := lo to hi
        invariant k - lo <= First(Pairs(es), p, true)
        invariant name == if firstName < k - lo then InDynamic(es[firstName]) else Nowhere
      {
        assert es[k - lo] == dynamic[k] && Pairs(es)[k - lo] == dynamic[k].AsPair();
        if dynamic[k].name == p.name {
          if dynamic[k].value == p.value {
            return InDynamic(dynamic[k]), InDynamic(dynamic[k]);
          }
          if name == Nowhere {
            name := InDynamic(dynamic[k]);
          }
        }
      }
      return Nowhere, name;
    }
  }
}
