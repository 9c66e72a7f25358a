/** Which decision the QPACK encoder takes for each field (hc/qpackencoder.go:311-379),
    as a function of its table, of the entries it is willing to refer to, and of what
    the block has used so far. */
module QpackPolicy {
  import opened Headers
  import opened History
  import opened Lookups
  import opened DynamicTable
  import opened QpackWriter

  /** The names that are not indexed, and the limit on what is referenceable. */
  datatype Policy = Policy(noIndex: set<Str>, limit: nat)

  function RefOf(f: Found): Ref {
    match f
    case Nowhere => NoRef
    case InStatic(i) => Static(i)
    case InDynamic(e) => Dynamic(e.base)
  }

  /** How many of the newest entries the block may not refer to. */
  function Ahead(base: nat, maxBase: Option<nat>): nat {
    if maxBase.Some? && maxBase.value < base then base - maxBase.value else 0
  }

  /** Of the `refs` referenceable entries, those the block may refer to. */
  function Usable(h: Hist, refs: nat, maxBase: Option<nat>): seq<Entry>
    requires refs <= |h|
  {
    Held(h, refs)[Min(Ahead(|h|, maxBase), refs)..]
  }

  /** ... and those it may not. */
  function Barred(h: Hist, refs: nat, maxBase: Option<nat>): seq<Entry>
    requires refs <= |h|
  {
    Held(h, refs)[..Min(Ahead(|h|, maxBase), refs)]
  }

  /** The entries near eviction. */
  function AtRisk(h: Hist, live: nat, refs: nat): seq<Entry>
    requires refs <= live <= |h|
  {
    Held(h, live)[refs..]
  }

  /** Nothing that inserting `p` evicts is protected. */
  ghost predicate OnlyEvicts(h: Hist, cap: nat, p: Pair, smallest: Option<nat>, inUse: set<nat>) {
    forall b: nat :: Live(h, cap, b) && !Live(h + [p], cap, b) ==> (smallest.None? || b < smallest.value) && b !in inUse
  }

  /** An insert is tried if it fits beside everything unacknowledged. */
  predicate Fits(c: Context, pol: Policy, w: Work, p: Pair)
    requires c.acked <= |w.hist|
  {
    Size(p) + Unacked(w.hist, c.acked) <= pol.limit
  }

  ghost predicate Accepts(c: Context, pol: Policy, w: Work, p: Pair)
    requires c.acked <= |w.hist|
  {
    Fits(c, pol, w, p) && OnlyEvicts(w.hist, c.cap, p, w.smallest, c.inUse)
  }

  /** What the encoder makes of a field before it knows whether it can insert. */
  datatype Wish = Settled(p: Plan) | Copy(of: nat) | Add(name: Ref)

  function Wanted(c: Context, pol: Policy, w: Work, refs: nat, f: Field): Wish
    requires refs <= LiveCount(w.hist, c.cap)
  {
    var p := f.AsPair();
    var usable := Usable(w.hist, refs, c.maxBase);
    var atRisk := AtRisk(w.hist, LiveCount(w.hist, c.cap), refs);
    var full, copy := Find(c.statics, usable, p, true), Find([], atRisk, p, true);
    if f.sensitive then Settled(UseLiteral)
    else if full != Nowhere then Settled(UseFull(RefOf(full)))
    else if p in Pairs(Barred(w.hist, refs, c.maxBase)) then Settled(UseLiteral)
    else if copy.InDynamic? then
      if copy.entry.base <= c.acked then Copy(copy.entry.base) else Settled(UseLiteral)
    else
      var name := RefOf(Find(c.statics, usable, p, false));
      if Size(p) <= c.cap && f.name !in pol.noIndex then Add(name) else Settled(UseName(name))
  }

  /** The decision: a full match, a literal while a match is barred, a duplicate of an
      entry at risk, an insert with the name of an entry, or that name. */
  ghost function Decide(c: Context, pol: Policy, w: Work, refs: nat, f: Field): Plan
    requires c.acked <= |w.hist| && refs <= LiveCount(w.hist, c.cap)
  {
    match Wanted(c, pol, w, refs, f)
    case Settled(p) => p
    case Copy(d) => if Accepts(c, pol, w, f.AsPair()) then DoDuplicate(d) else UseLiteral
    case Add(name) => if Accepts(c, pol, w, f.AsPair()) then DoInsert(name) else UseName(name)
  }

  /** The number of referenceable entries after `p` was tried: as many as fit in the
      limit, or fewer by what had been approved for eviction when one was not. */
  ghost function RefsTried(h: Hist, cap: nat, limit: nat, refs: nat, p: Pair, smallest: Option<nat>, inUse: set<nat>): nat
    requires refs <= LiveCount(h, cap) && Size(p) <= cap
  {
    var n := LiveCount(h, cap);
    var m := Fit(h, n, cap - Size(p));
    if OnlyEvicts(h, cap, p, smallest, inUse) then Fit(h + [p], Min(refs, m) + 1, limit)
    else Min(refs, n - Approved(h, n, m, Guard(smallest, inUse)))
  }

  ghost function Retried(c: Context, pol: Policy, w: Work, refs: nat, p: Pair): nat
    requires c.acked <= |w.hist| && refs <= LiveCount(w.hist, c.cap) && pol.limit <= c.cap
  {
    if Fits(c, pol, w, p) then RefsTried(w.hist, c.cap, pol.limit, refs, p, w.smallest, c.inUse) else refs
  }

  ghost function RefsAfter(c: Context, pol: Policy, w: Work, refs: nat, f: Field): nat
    requires c.acked <= |w.hist| && refs <= LiveCount(w.hist, c.cap) && pol.limit <= c.cap
  {
    if Wanted(c, pol, w, refs, f).Settled? then refs else Retried(c, pol, w, refs, f.AsPair())
  }

  // ---- what is decided is permitted ----

  lemma HeldLive(h: Hist, cap: nat, n: nat, e: Entry)
    requires n <= LiveCount(h, cap) && e in Held(h, n)
    ensures 1 <= e.base <= |h| && |h| - e.base < n && Live(h, cap, e.base) && h[e.base - 1] == e.AsPair()
  {
    var k :| 0 <= k < n && Held(h, n)[k] == e;
    LiveIsNewest(h, cap, e.base);
  }

  lemma UsableLive(c: Context, h: Hist, refs: nat, e: Entry)
    requires refs <= LiveCount(h, c.cap) && e in Usable(h, refs, c.maxBase)
    ensures 1 <= e.base <= |h| && Live(h, c.cap, e.base) && h[e.base - 1] == e.AsPair() && Allowed(c, e.base)
  {
    hide Live, LiveCount;
    var n := Min(Ahead(|h|, c.maxBase), refs);
    var k :| 0 <= k < refs - n && Held(h, refs)[n..][k] == e;
    assert e == Held(h, refs)[n + k] && e in Held(h, refs);
    HeldLive(h, c.cap, refs, e);
  }

  lemma FoundOk(c: Context, h: Hist, refs: nat, f: Field)
    requires refs <= LiveCount(h, c.cap)
    ensures
      var usable := Usable(h, refs, c.maxBase);
      var full, name := Find(c.statics, usable, f.AsPair(), true), Find(c.statics, usable, f.AsPair(), false);
      (full != Nowhere ==> FullOk(c, h, f, RefOf(full))) && NameOk(c, h, f, RefOf(name))
  {
    hide Live, LiveCount, Find, Usable, Allowed;
    var usable := Usable(h, refs, c.maxBase);
    var full, name := Find(c.statics, usable, f.AsPair(), true), Find(c.statics, usable, f.AsPair(), false);
    if full.InDynamic? {
      UsableLive(c, h, refs, full.entry);
    }
    if name.InDynamic? {
      UsableLive(c, h, refs, name.entry);
    }
  }

  lemma CopyOk(c: Context, h: Hist, refs: nat, p: Pair)
    requires refs <= LiveCount(h, c.cap)
    ensures
      var copy := Find([], AtRisk(h, LiveCount(h, c.cap), refs), p, true);
      copy.InDynamic? ==> 1 <= copy.entry.base <= |h| && Live(h, c.cap, copy.entry.base) && h[copy.entry.base - 1] == p
  {
    hide Live, LiveCount, Find;
    var n := LiveCount(h, c.cap);
    var copy := Find([], AtRisk(h, n, refs), p, true);
    if copy.InDynamic? {
      var k :| 0 <= k < n - refs && AtRisk(h, n, refs)[k] == copy.entry;
      assert copy.entry == Held(h, n)[refs + k] && copy.entry in Held(h, n);
      HeldLive(h, c.cap, n, copy.entry);
    }
  }

  /** Every decision the encoder takes is one the protocol permits. */
  lemma DecideOk(c: Context, pol: Policy, w: Work, refs: nat, f: Field)
    requires c.acked <= |w.hist| && refs <= LiveCount(w.hist, c.cap) && pol.limit <= c.cap
    ensures PlanOk(c, w, f, Decide(c, pol, w, refs, f))
  {
    hide Live, LiveCount, Find, Usable, AtRisk, Barred, FullOk, NameOk, Unacked;
    FoundOk(c, w.hist, refs, f);
    CopyOk(c, w.hist, refs, f.AsPair());
    if Accepts(c, pol, w, f.AsPair()) {
      AcceptsOk(c, pol, w, f.AsPair());
    }
  }

  lemma AcceptsOk(c: Context, pol: Policy, w: Work, p: Pair)
    requires c.acked <= |w.hist| && pol.limit <= c.cap && Accepts(c, pol, w, p)
    ensures CanInsert(c, w, p)
  {
    hide Live;
  }

  // ---- a whole block ----

  /** Decision `p` is the encoder's own with `r` entries referenceable, and `r'` are then. */
  ghost predicate Taken(c: Context, pol: Policy, w: Work, r: nat, r': nat, f: Field, p: Plan) {
    && pol.limit <= c.cap && c.acked <= |w.hist| && r <= LiveCount(w.hist, c.cap)
    && p == Decide(c, pol, w, r, f) && r' == RefsAfter(c, pol, w, r, f)
  }

  /** The decisions `ps` are the encoder's own, with `rs` referenceable before each. */
  ghost predicate Chosen(c: Context, pol: Policy, h: Hist, fs: seq<Field>, ps: seq<Plan>, rs: seq<nat>, n: nat)
    requires n <= |fs| && n <= |ps| && n < |rs|
    decreases n
  {
    n == 0 || (
      && Chosen(c, pol, h, fs, ps, rs, n - 1)
      && Planned(c, h, fs, ps, n - 1)
      && Taken(c, pol, After(c, h, fs, ps, n - 1), rs[n - 1], rs[n], fs[n - 1], ps[n - 1]))
  }

  /** There is only one way to choose. */
  lemma {:induction false} ChosenOnce(c: Context, pol: Policy, h: Hist, fs: seq<Field>, ps: seq<Plan>, qs: seq<Plan>, rs: seq<nat>, ss: seq<nat>, n: nat)
    requires n <= |fs| && n <= |ps| && n <= |qs| && n < |rs| && n < |ss|
    requires Chosen(c, pol, h, fs, ps, rs, n) && Chosen(c, pol, h, fs, qs, ss, n) && rs[0] == ss[0]
    ensures ps[..n] == qs[..n] && rs[..n + 1] == ss[..n + 1]
  {
    hide Taken, Planned, After;
    if n > 0 {
      ChosenOnce(c, pol, h, fs, ps, qs, rs, ss, n - 1);
      AfterSame(c, h, fs, ps, qs, n - 1);
      assert rs[n - 1] == rs[..n][n - 1] == ss[..n][n - 1];
      TakenOnce(c, pol, After(c, h, fs, ps, n - 1), rs[n - 1], rs[n], ss[n], fs[n - 1], ps[n - 1], qs[n - 1]);
      assert ps[..n] == ps[..n - 1] + [ps[n - 1]] && qs[..n] == qs[..n - 1] + [qs[n - 1]];
      assert rs[..n + 1] == rs[..n] + [rs[n]] && ss[..n + 1] == ss[..n] + [ss[n]];
    }
  }

  lemma TakenOnce(c: Context, pol: Policy, w: Work, r: nat, r1: nat, r2: nat, f: Field, p: Plan, q: Plan)
    requires Taken(c, pol, w, r, r1, f, p) && Taken(c, pol, w, r, r2, f, q)
    ensures p == q && r1 == r2
  {
    hide Decide, RefsAfter;
  }

  lemma {:induction false} AfterSame(c: Context, h: Hist, fs: seq<Field>, ps: seq<Plan>, qs: seq<Plan>, n: nat)
    requires n <= |fs| && n <= |ps| && n <= |qs| && ps[..n] == qs[..n]
    requires Planned(c, h, fs, ps, n) && Planned(c, h, fs, qs, n)
    ensures After(c, h, fs, ps, n) == After(c, h, fs, qs, n)
  {
    hide PlanOk, Apply;
    if n > 0 {
      assert ps[..n - 1] == ps[..n][..n - 1] && qs[..n - 1] == qs[..n][..n - 1];
      assert ps[n - 1] == ps[..n][n - 1] == qs[..n][n - 1];
      AfterSame(c, h, fs, ps, qs, n - 1);
    }
  }

  /** One more decision leaves the earlier ones as they were. */
  lemma {:induction false} ChosenSame(c: Context, pol: Policy, h: Hist, fs: seq<Field>, ps: seq<Plan>, rs: seq<nat>, p: Plan, r: nat, n: nat)
    requires n <= |fs| && n <= |ps| && n < |rs| && Chosen(c, pol, h, fs, ps, rs, n)
    ensures Chosen(c, pol, h, fs, ps + [p], rs + [r], n)
  {
    hide Taken, Planned, After;
    if n > 0 {
      ChosenSame(c, pol, h, fs, ps, rs, p, r, n - 1);
      PlannedSame(c, h, fs, ps, p, n - 1);
    }
  }

  lemma ChosenMore(c: Context, pol: Policy, h: Hist, fs: seq<Field>, ps: seq<Plan>, rs: seq<nat>, p: Plan, r: nat, n: nat)
    requires n == |ps| < |fs| && |rs| == n + 1 && Chosen(c, pol, h, fs, ps, rs, n) && Planned(c, h, fs, ps, n)
    requires Taken(c, pol, After(c, h, fs, ps, n), rs[n], r, fs[n], p)
    ensures Chosen(c, pol, h, fs, ps + [p], rs + [r], n + 1)
  {
    hide Taken, Planned, After;
    ChosenSame(c, pol, h, fs, ps, rs, p, r, n);
    PlannedSame(c, h, fs, ps, p, n);
  }

  /** One more plan leaves the earlier ones as they were. */
  lemma {:induction false} PlannedSame(c: Context, h: Hist, fs: seq<Field>, ps: seq<Plan>, p: Plan, n: nat)
    requires n <= |fs| && n <= |ps| && Planned(c, h, fs, ps, n)
    ensures Planned(c, h, fs, ps + [p], n) && After(c, h, fs, ps + [p], n) == After(c, h, fs, ps, n)
  {
    hide PlanOk, Apply;
    if n > 0 {
      PlannedSame(c, h, fs, ps, p, n - 1);
      assert (ps + [p])[n - 1] == ps[n - 1];
    }
  }

  lemma PlannedMore(c: Context, h: Hist, fs: seq<Field>, ps: seq<Plan>, p: Plan, n: nat)
    requires n == |ps| < |fs| && Planned(c, h, fs, ps, n) && PlanOk(c, After(c, h, fs, ps, n), fs[n], p)
    ensures Planned(c, h, fs, ps + [p], n + 1)
    ensures PlanRef(p) <= |After(c, h, fs, ps, n).hist|
    ensures After(c, h, fs, ps + [p], n + 1) == Apply(c, After(c, h, fs, ps, n), fs[n], p)
  {
    PlannedSame(c, h, fs, ps, p, n);
    PlanRefInRange(c, After(c, h, fs, ps, n), fs[n], p);
    hide PlanOk, Apply;
  }
}
