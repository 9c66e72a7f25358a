/** The insert history of a dynamic table.

    A table's insert count (`base` in hc/table.go) is the length of its history,
    and the entry whose base is `b` is `h[b - 1]`.  Eviction always removes the
    oldest entry, so the contents of a table are the newest few entries of its
    history: how many is what `Fit` computes. */
module History {
  import opened Headers

  type Hist = seq<Pair>

  /** Total size of the first `k` inserts. */
  function Total(h: Hist, k: nat): nat
    requires k <= |h|
  {
    if k == 0 then 0 else Total(h, k - 1) + Size(h[k - 1])
  }

  /** Total size of the newest `n` inserts. */
  function Newest(h: Hist, n: nat): nat
    requires n <= |h|
  {
    TotalMonotone(h, |h| - n, |h|);
    Total(h, |h|) - Total(h, |h| - n)
  }

  /** How many of the newest `n` entries are left once the oldest have been
      evicted until the remainder fits in `room`: the loop of evictTo. */
  function Fit(h: Hist, n: nat, room: nat): (m: nat)
    requires n <= |h|
    ensures m <= n
    ensures Newest(h, m) <= room
    ensures m < n ==> room < Newest(h, m + 1)
  {
    if n == 0 || Newest(h, n) <= room then n else Fit(h, n - 1, room)
  }

  /** The entry with base `b` is in a table of capacity `cap` whose inserts were `h`. */
  predicate Live(h: Hist, cap: nat, b: nat) {
    1 <= b <= |h| && Newest(h, |h| - b + 1) <= cap
  }

  /** Number of entries in a table that has always had capacity `cap`. */
  function LiveCount(h: Hist, cap: nat): (n: nat)
    ensures n <= |h|
  {
    Fit(h, |h|, cap)
  }

  lemma {:induction false} TotalMonotone(h: Hist, j: nat, k: nat)
    requires j <= k <= |h|
    ensures Total(h, j) + ENTRY_OVERHEAD * (k - j) <= Total(h, k)
  {
    if j < k {
      TotalMonotone(h, j, k - 1);
    }
  }

  /** Later inserts do not change the totals of earlier ones. */
  lemma {:induction false} TotalPrefix(h: Hist, g: Hist, k: nat)
    requires k <= |h| && k <= |g| && h[..k] == g[..k]
    ensures Total(h, k) == Total(g, k)
  {
    if k > 0 {
      assert h[..k - 1] == h[..k][..k - 1] && g[..k - 1] == g[..k][..k - 1];
      assert h[..k][k - 1] == g[..k][k - 1];
      TotalPrefix(h, g, k - 1);
    }
  }

  lemma NewestMonotone(h: Hist, m: nat, n: nat)
    requires m <= n <= |h|
    ensures Newest(h, m) + ENTRY_OVERHEAD * (n - m) <= Newest(h, n)
  {
    TotalMonotone(h, |h| - n, |h| - m);
  }

  /** One entry more. */
  lemma NewestStep(h: Hist, n: nat)
    requires n < |h|
    ensures Newest(h, 0) == 0 && Newest(h, n + 1) == Newest(h, n) + Size(h[|h| - 1 - n])
  {
  }

  lemma NewestOfAppend(h: Hist, p: Pair, n: nat)
    requires n <= |h|
    ensures Newest(h + [p], n + 1) == Newest(h, n) + Size(p)
  {
    TotalPrefix(h, h + [p], |h|);
    TotalPrefix(h, h + [p], |h| - n);
  }

  /** `Fit` is the only count with the two properties its contract states. */
  lemma FitUnique(h: Hist, n: nat, room: nat, m: nat)
    requires m <= n <= |h|
    requires Newest(h, m) <= room
    requires m < n ==> room < Newest(h, m + 1)
    ensures Fit(h, n, room) == m
  {
    var f := Fit(h, n, room);
    if f < m {
      NewestMonotone(h, f + 1, m);
    } else if m < f {
      NewestMonotone(h, m + 1, f);
    }
  }

  /** An entry is live exactly when its distance from the newest entry is below
      the number of entries the table holds. */
  lemma LiveIsNewest(h: Hist, cap: nat, b: nat)
    requires 1 <= b <= |h|
    ensures Live(h, cap, b) <==> |h| - b < LiveCount(h, cap)
  {
    var n := |h| - b + 1;
    var m := LiveCount(h, cap);
    if n <= m {
      NewestMonotone(h, n, m);
    } else {
      NewestMonotone(h, m + 1, n);
    }
  }

  /** Every entry costs at least 32, so a table never holds more than cap / 32. */
  lemma LiveCountBound(h: Hist, cap: nat)
    ensures LiveCount(h, cap) <= cap / ENTRY_OVERHEAD
  {
    NewestMonotone(h, 0, LiveCount(h, cap));
  }

  lemma NotLive(h: Hist, cap: nat, b: nat)
    requires b < 1 || b > |h|
    ensures !Live(h, cap, b)
  {
  }

  /** A live entry is within cap / 32 inserts of the newest. */
  lemma LiveWindow(cap: nat, h: Hist, r: nat)
    requires Live(h, cap, r)
    ensures |h| < r + cap / ENTRY_OVERHEAD
  {
    NewestMonotone(h, 0, |h| - r + 1);
  }

  /** A table that held an entry after `g` inserts already held it after every
      shorter history that includes the entry: the decoder, which is behind the
      encoder, has everything the encoder still has. */
  lemma LiveEarlier(h: Hist, g: Hist, cap: nat, b: nat)
    requires h <= g && b <= |h|
    requires Live(g, cap, b)
    ensures Live(h, cap, b)
  {
    TotalPrefix(h, g, |h|);
    TotalPrefix(h, g, b - 1);
    TotalMonotone(g, |h|, |g|);
  }

  /** Inserting after evicting to make room leaves exactly the entries that fit. */
  lemma LiveCountAppend(h: Hist, cap: nat, p: Pair)
    requires Size(p) <= cap
    ensures LiveCount(h + [p], cap) == Fit(h, LiveCount(h, cap), cap - Size(p)) + 1
  {
    var n := LiveCount(h, cap);
    var m := Fit(h, n, cap - Size(p));
    NewestOfAppend(h, p, m);
    if m < n {
      NewestOfAppend(h, p, m + 1);
    } else if m < |h| {
      NewestOfAppend(h, p, m + 1);
    }
    FitUnique(h + [p], |h| + 1, cap, m + 1);
  }

  /** The bases evicted by an insert, by position. */
  lemma EvictedRange(h: Hist, cap: nat, p: Pair, b: nat)
    requires Size(p) <= cap
    ensures Live(h, cap, b) && !Live(h + [p], cap, b)
       <==> |h| - LiveCount(h, cap) < b <= |h| - Fit(h, LiveCount(h, cap), cap - Size(p))
  {
    hide Live, Fit;
    LiveCountAppend(h, cap, p);
    if 1 <= b <= |h| {
      LiveIsNewest(h, cap, b);
      LiveIsNewest(h + [p], cap, b);
    } else {
      NotLive(h, cap, b);
    }
  }
}
