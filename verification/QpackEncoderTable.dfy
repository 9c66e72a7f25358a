/** The encoder's table: the shared table and the part of it that the encoder is
    willing to refer to (hc/qpacktable.go:268-428). */
module QpackEncoderTable {
  import opened Headers
  import opened History
  import opened TableSpec
  import opened DynamicTable
  import opened Lookups

  /** The newest entries before the first that is not smaller than `limit`.  The
      space they share is not reduced as they are counted. */
  function Leading(h: Hist, n: nat, limit: nat): (k: nat)
    requires n <= |h|
    ensures k <= n
    ensures k < n ==> Size(h[|h| - 1 - k]) >= limit
  {
    if n == 0 then 0
    else
      var k := Leading(h, n - 1, limit);
      if k == n - 1 && Size(h[|h| - n]) < limit then n else k
  }

  /** All of them are smaller. */
  lemma {:induction false} LeadingSmall(h: Hist, n: nat, limit: nat)
    requires n <= |h|
    ensures forall i :: |h| - Leading(h, n, limit) <= i < |h| ==> Size(h[i]) < limit
  {
    if n > 0 {
      LeadingSmall(h, n - 1, limit);
    }
  }

  /** Setting the limit on a table that holds entries can leave more referenceable
      than the limit: two entries of 33 under a limit of 34. */
  lemma LimitNotKept()
    ensures var h := [Pair([0], []), Pair([0], [])]; Newest(h, Leading(h, 2, 34)) > 34
  {
    var h := [Pair([0], []), Pair([0], [])];
    assert Leading(h, 0, 34) == 0;
    assert Leading(h, 1, 34) == 1;
    assert Total(h, 0) == 0 && Total(h, 1) == 33 && Total(h, 2) == 66;
  }

  /** The newest `k` of `n` entries fit in the limit exactly if they are among those that
      do; this can be told before the limit is set. */
  lemma LimitKept(h: Hist, n: nat, k: nat, limit: nat)
    requires k <= n <= |h|
    ensures Newest(h, k) <= limit <==> k <= Fit(h, n, limit)
  {
    var m := Fit(h, n, limit);
    if k <= m {
      NewestMonotone(h, k, m);
    } else {
      NewestMonotone(h, m + 1, k);
    }
  }

  class EncoderTable {
    const table: Table
    var referenceableLimit: nat
    var referenceable: nat
    var referenceableSize: nat

    /** What is referenceable is accounted for exactly. */
    ghost predicate Valid()
      reads this, table
    {
      && table.Valid()
      && referenceable <= |table.dynamic| && referenceableSize == Newest(table.hist, referenceable)
      && referenceableLimit <= table.capacity
    }

    constructor (capacity: nat, limit: nat)
      ensures Valid() && fresh(table) && table.Value() == Tab([], 0, capacity)
      ensures referenceableLimit == Min(limit, capacity) && referenceable == 0
    {
      table := new Table(capacity);
      referenceableLimit, referenceable, referenceableSize := Min(limit, capacity), 0, 0;
    }

    /** Only while nothing has been inserted; the source panics otherwise. */
    method SetCapacity(c: nat)
      requires Valid() && table.base == 0
      modifies this, table
      ensures Valid() && table.Value() == Tab([], 0, c)
      ensures referenceableLimit == Min(old(referenceableLimit), c) && referenceable == 0
    {
      table.capacity := c;
      if referenceableLimit > c {
        SetReferenceableLimit(referenceableLimit);
      }
    }

    method SetReferenceableLimit(limit: nat)
      requires table.Valid()
      modifies this
      ensures Valid() && referenceableLimit == Min(limit, table.capacity)
      ensures referenceable == Leading(table.hist, |table.dynamic|, referenceableLimit)
      ensures referenceableSize <= referenceableLimit <==>
        Leading(table.hist, |table.dynamic|, referenceableLimit) <= Fit(table.hist, |table.dynamic|, referenceableLimit)
    {
      hide Newest, Fit, Held;
      NothingFits(table.hist, 0);
      referenceableLimit := Min(limit, table.capacity);
      referenceableSize := 0;
      referenceable := 0;
      for i := 0 to |table.dynamic|
        modifies `referenceable, `referenceableSize
        invariant referenceable == i == Leading(table.hist, i, referenceableLimit)
        invariant referenceableSize == Newest(table.hist, i)
      {
        NewestStep(table.hist, i);
        var sz := table.dynamic[i].Size();
        if sz < referenceableLimit {
          referenceable := referenceable + 1;
          referenceableSize := referenceableSize + sz;
        } else {
          LeadingStops(table.hist, i + 1, |table.dynamic|, referenceableLimit);
          break;
        }
      }
      LimitKept(table.hist, |table.dynamic|, referenceable, referenceableLimit);
    }

    /** An entry has been approved for eviction: `index` is its place in the table. */
    method Removed(index: nat, size: nat)
      requires referenceable <= index + 1
      requires referenceable > index ==> size <= referenceableSize
      modifies `referenceable, `referenceableSize
      ensures referenceable == Min(old(referenceable), index)
      ensures referenceableSize == if old(referenceable) > index then old(referenceableSize) - size else old(referenceableSize)
    {
      if referenceable > index {
        referenceable := referenceable - 1;
        referenceableSize := referenceableSize - size;
      }
    }

    /** An entry has been added: older ones give way until the limit is kept. */
    method Added()
      requires table.Valid() && table.dynamic != [] && referenceable < |table.dynamic|
      requires referenceableSize + Size(table.hist[table.base - 1]) == Newest(table.hist, referenceable + 1)
      modifies `referenceable, `referenceableSize
      ensures referenceable == Fit(table.hist, old(referenceable) + 1, referenceableLimit)
      ensures referenceableSize == Newest(table.hist, referenceable) <= referenceableLimit
    {
      var updatedSize := referenceableSize + table.dynamic[0].Size();
      var i := referenceable + 1;
      while updatedSize > referenceableLimit
        invariant 0 <= i <= |table.dynamic| && updatedSize == Newest(table.hist, i)
        invariant Fit(table.hist, referenceable + 1, referenceableLimit) == Fit(table.hist, i, referenceableLimit)
        decreases i
      {
        i := i - 1;
        updatedSize := updatedSize - table.dynamic[i].Size();
      }
      referenceable := i;
      referenceableSize := updatedSize;
    }

    /** Insert with QPACK's eviction check.  What the check counted off as removed
        stays counted off even when a later entry vetoes the insert. */
    method Insert(p: Pair, smallest: Option<nat>, inUse: set<nat>) returns (inserted: bool)
      requires Valid()
      modifies this, table
      ensures Valid() && table.capacity == old(table.capacity) && referenceableLimit == old(referenceableLimit)
      ensures inserted <==>
        && Size(p) <= table.capacity
        && MayEvict(old(table.hist), |old(table.dynamic)|, table.capacity - Size(p), Guard(smallest, inUse))
      ensures inserted ==> table.Value() == old(table.Value()).Insert(p) && referenceableSize <= referenceableLimit
      ensures !inserted && Size(p) <= table.capacity ==>
        && unchanged(table) && referenceableSize <= old(referenceableSize)
        && var n, m := |table.dynamic|, Fit(table.hist, |table.dynamic|, table.capacity - Size(p));
           referenceable == Min(old(referenceable), n - Approved(table.hist, n, m, Guard(smallest, inUse)))
      ensures old(referenceableSize) <= referenceableLimit ==> referenceableSize <= referenceableLimit
      ensures inserted ==> referenceable == Fit(table.hist, Min(old(referenceable), |table.dynamic| - 1) + 1, referenceableLimit)
    {
      hide Fit, Newest, MayEvict, Approved, Held;
      var before, count, held := table.base, |table.dynamic|, table.dynamic;
      ghost var h := table.hist;
      var tried;
      inserted, tried := table.Insert(p, Guard(smallest, inUse));
      for i := 0 to tried
        modifies `referenceable, `referenceableSize
        invariant referenceable == Min(old(referenceable), count - i)
        invariant referenceableSize == Newest(h, referenceable) <= old(referenceableSize)
      {
        NewestStep(h, count - i - 1);
        Removed(count - i - 1, held[count - i - 1].Size());
      }
      if inserted {
        NewestOfAppend(h, p, referenceable);
        assert table.hist == h + [p];
        Added();
      }
    }
  }

  lemma {:induction false} LeadingStops(h: Hist, m: nat, n: nat, limit: nat)
    requires m <= n <= |h| && Leading(h, m, limit) < m
    ensures Leading(h, n, limit) == Leading(h, m, limit)
  {
    if m < n {
      LeadingStops(h, m, n - 1, limit);
    }
  }
}
