/** What the decisions of the QPACK encoder come to, said of the entries in its table and
    not of its lookups: each outcome and exactly when it is taken
    (hc/qpackencoder.go:43-55, 311-379). */
module QpackDecisions {
  import opened Headers
  import opened History
  import opened DynamicTable
  import opened Lookups
  import opened QpackWriter
  import opened QpackUsage
  import opened QpackPolicy

  // ---- matches ----

  /** The first static entry that matches. */
  predicate FirstStatic(statics: seq<Pair>, p: Pair, whole: bool, i: nat) {
    i < |statics| && Matches(statics[i], p, whole) && forall j :: 0 <= j < i ==> !Matches(statics[j], p, whole)
  }

  /** The entry with base `b` matches, is among the newest `refs`, and may be referred to. */
  predicate UsableMatch(c: Context, h: Hist, refs: nat, p: Pair, whole: bool, b: nat) {
    1 <= b <= |h| && |h| - b < refs && Allowed(c, b) && Matches(h[b - 1], p, whole)
  }

  /** The entry with base `b` is a copy of `p` that is in the table, but not among the
      newest `refs`. */
  predicate RiskMatch(h: Hist, live: nat, refs: nat, p: Pair, b: nat) {
    1 <= b <= |h| && refs <= |h| - b < live && h[b - 1] == p
  }

  /** `p` is among the newest `n` entries. */
  ghost predicate Among(h: Hist, n: nat, p: Pair) {
    exists i :: 0 <= i < |h| && |h| - i <= n && h[i] == p
  }

  /** `r` is what the block refers to for `p`: the first static match, or else the newest
      entry that matches and may be referred to, or nothing if there is neither. */
  ghost predicate Best(c: Context, h: Hist, refs: nat, p: Pair, whole: bool, r: Ref) {
    match r
    case Static(i) => FirstStatic(c.statics, p, whole, i)
    case Dynamic(b) =>
      && (forall i :: 0 <= i < |c.statics| ==> !Matches(c.statics[i], p, whole))
      && UsableMatch(c, h, refs, p, whole, b)
      && forall d: nat :: d > b ==> !UsableMatch(c, h, refs, p, whole, d)
    case NoRef =>
      && (forall i :: 0 <= i < |c.statics| ==> !Matches(c.statics[i], p, whole))
      && forall d: nat :: !UsableMatch(c, h, refs, p, whole, d)
  }

  /** The entries the block may refer to are those that match, newest first. */
  lemma UsableAt(c: Context, h: Hist, refs: nat, k: nat)
    requires refs <= |h| && k < |Usable(h, refs, c.maxBase)|
    ensures
      var b := |h| - Min(Ahead(|h|, c.maxBase), refs) - k;
      1 <= b <= |h| && |h| - b < refs && Allowed(c, b) && Usable(h, refs, c.maxBase)[k] == Entry(h[b - 1].name, h[b - 1].value, b)
  {
  }

  lemma UsableOf(c: Context, h: Hist, refs: nat, b: nat)
    requires refs <= |h| && 1 <= b <= |h| && |h| - b < refs && Allowed(c, b)
    ensures
      var k := |h| - Min(Ahead(|h|, c.maxBase), refs) - b;
      0 <= k < |Usable(h, refs, c.maxBase)| && Usable(h, refs, c.maxBase)[k].AsPair() == h[b - 1]
  {
  }

  lemma BestFound(c: Context, h: Hist, refs: nat, p: Pair, whole: bool)
    requires refs <= |h|
    ensures Best(c, h, refs, p, whole, RefOf(Find(c.statics, Usable(h, refs, c.maxBase), p, whole)))
  {
    hide First, Usable;
    var es := Usable(h, refs, c.maxBase);
    var n, top := First(Pairs(es), p, whole), |h| - Min(Ahead(|h|, c.maxBase), refs);
    if First(c.statics, p, whole) == |c.statics| {
      forall d: nat | UsableMatch(c, h, refs, p, whole, d) ensures n < |es| && d <= top - n {
        UsableOf(c, h, refs, d);
        assert Matches(Pairs(es)[top - d], p, whole);
      }
      if n < |es| {
        UsableAt(c, h, refs, n);
      }
    }
  }

  /** The duplicate is of the newest copy past the referenceable entries. */
  ghost predicate LatestRisk(h: Hist, live: nat, refs: nat, p: Pair, b: nat) {
    RiskMatch(h, live, refs, p, b) && forall d: nat :: d > b ==> !RiskMatch(h, live, refs, p, d)
  }

  lemma RiskFound(h: Hist, live: nat, refs: nat, p: Pair)
    requires refs <= live <= |h|
    ensures
      var copy := Find([], AtRisk(h, live, refs), p, true);
      if copy.InDynamic? then LatestRisk(h, live, refs, p, copy.entry.base)
      else copy == Nowhere && forall d: nat :: !RiskMatch(h, live, refs, p, d)
  {
    hide First;
    var es := AtRisk(h, live, refs);
    var n := First(Pairs(es), p, true);
    forall d: nat | RiskMatch(h, live, refs, p, d) ensures n < |es| && d <= |h| - refs - n {
      assert Matches(Pairs(es)[|h| - refs - d], p, true);
    }
    if n < |es| {
      assert es[n] == Held(h, live)[refs + n];
    }
  }

  lemma BarredFound(c: Context, h: Hist, refs: nat, p: Pair)
    requires refs <= |h|
    ensures p in Pairs(Barred(h, refs, c.maxBase)) <==> exists b :: 1 <= b <= |h| && |h| - b < refs && !Allowed(c, b) && h[b - 1] == p
  {
    var ps := Pairs(Barred(h, refs, c.maxBase));
    if p in ps {
      var k :| 0 <= k < |ps| && ps[k] == p;
      assert h[|h| - k - 1] == p && !Allowed(c, |h| - k);
    }
    if b :| 1 <= b <= |h| && |h| - b < refs && !Allowed(c, b) && h[b - 1] == p {
      assert ps[|h| - b] == p;
    }
  }

  // ---- outcomes ----

  /** An entry that an outstanding block refers to, or at or above the least full match of
      this one. */
  predicate Protected(c: Context, w: Work, b: nat) {
    b in c.inUse || (w.smallest.Some? && w.smallest.value <= b)
  }

  /** The entry with base `b` must go if `p` is to be inserted. */
  ghost predicate Evicts(c: Context, w: Work, p: Pair, b: nat) {
    Live(w.hist, c.cap, b) && !Live(w.hist + [p], c.cap, b)
  }

  /** There is room for `p` in the limit beside everything that is not acknowledged. */
  predicate HasRoom(c: Context, pol: Policy, w: Work, p: Pair)
    requires c.acked <= |w.hist|
  {
    32 + |p.name| + |p.value| + Newest(w.hist, |w.hist| - c.acked) <= pol.limit
  }

  ghost predicate Acceptable(c: Context, pol: Policy, w: Work, f: Field)
    requires c.acked <= |w.hist|
  {
    HasRoom(c, pol, w, f.AsPair()) && forall b: nat :: Evicts(c, w, f.AsPair(), b) ==> !Protected(c, w, b)
  }

  lemma AcceptableIs(c: Context, pol: Policy, w: Work, f: Field)
    requires c.acked <= |w.hist| && pol.limit <= c.cap
    ensures Accepts(c, pol, w, f.AsPair()) <==> Acceptable(c, pol, w, f)
    ensures Accepts(c, pol, w, f.AsPair()) ==> Size(f.AsPair()) <= c.cap
  {
    hide Live, Newest;
    var p := f.AsPair();
    if Acceptable(c, pol, w, f) {
      forall b: nat | Live(w.hist, c.cap, b) && !Live(w.hist + [p], c.cap, b)
        ensures (w.smallest.None? || b < w.smallest.value) && b !in c.inUse
      {
        assert Evicts(c, w, p, b);
      }
    }
  }

  lemma AmongParts(c: Context, h: Hist, live: nat, refs: nat, p: Pair)
    requires refs <= live <= |h|
    ensures Among(h, refs, p) <==>
      (exists d: nat :: UsableMatch(c, h, refs, p, true, d)) || p in Pairs(Barred(h, refs, c.maxBase))
    ensures Among(h, live, p) <==> Among(h, refs, p) || exists d: nat :: RiskMatch(h, live, refs, p, d)
  {
    hide Barred;
    BarredFound(c, h, refs, p);
    if Among(h, refs, p) {
      var i :| 0 <= i < |h| && |h| - i <= refs && h[i] == p;
      assert Allowed(c, i + 1) ==> UsableMatch(c, h, refs, p, true, i + 1);
    }
    if Among(h, live, p) {
      var i :| 0 <= i < |h| && |h| - i <= live && h[i] == p;
      assert |h| - i > refs ==> RiskMatch(h, live, refs, p, i + 1);
    }
  }

  /** Each decision and exactly when it is taken.  A sensitive field is a literal.  Any
      other is indexed exactly if a static entry or one that may be referred to equals it.
      It is duplicated exactly if it is not, nothing referenceable equals it, the newest
      copy past that is acknowledged and the insert is acceptable.  It is inserted exactly
      if nothing static or in the table equals it, its name is not excluded and the insert
      is acceptable; and if only the last two fail it is sent with a name. */
  lemma DecideExactly(c: Context, pol: Policy, w: Work, refs: nat, f: Field)
    requires c.acked <= |w.hist| && refs <= LiveCount(w.hist, c.cap) && pol.limit <= c.cap
    ensures
      var d, p, h, live := Decide(c, pol, w, refs, f), f.AsPair(), w.hist, LiveCount(w.hist, c.cap);
      var isNew := !f.sensitive && p !in c.statics && !Among(h, live, p);
      && (f.sensitive ==> d == UseLiteral)
      && (d.UseFull? <==> !f.sensitive && (p in c.statics || exists b: nat :: UsableMatch(c, h, refs, p, true, b)))
      && (d.UseFull? ==> Best(c, h, refs, p, true, d.r))
      && (d.DoDuplicate? <==>
            && !f.sensitive && p !in c.statics && !Among(h, refs, p)
            && (exists b: nat :: LatestRisk(h, live, refs, p, b) && b <= c.acked)
            && Acceptable(c, pol, w, f))
      && (d.DoDuplicate? ==> LatestRisk(h, live, refs, p, d.of) && d.of <= c.acked)
      && (d.DoInsert? <==> isNew && f.name !in pol.noIndex && Acceptable(c, pol, w, f))
      && (d.UseName? <==> isNew && !(f.name !in pol.noIndex && Acceptable(c, pol, w, f)))
      && (d.DoInsert? || d.UseName? ==> Best(c, h, refs, p, false, d.r))
  {
    hide Live, LiveCount, Find, Usable, AtRisk, Barred, Accepts, Acceptable, UsableMatch, RiskMatch, Among, Newest;
    var p, h, live := f.AsPair(), w.hist, LiveCount(w.hist, c.cap);
    BestFound(c, h, refs, p, true);
    BestFound(c, h, refs, p, false);
    RiskFound(h, live, refs, p);
    AmongParts(c, h, live, refs, p);
    AcceptableIs(c, pol, w, f);
    StaticIsIn(c.statics, p);
  }

  lemma StaticIsIn(statics: seq<Pair>, p: Pair)
    ensures p in statics <==> exists i :: 0 <= i < |statics| && Matches(statics[i], p, true)
  {
    if p in statics {
      var i :| 0 <= i < |statics| && statics[i] == p;
      assert Matches(statics[i], p, true);
    }
  }

  // ---- how many entries stay referenceable ----

  /** The field is worth inserting: a new one whose name is not excluded, or one whose only
      copies are past the referenceable entries, the newest of them acknowledged. */
  ghost predicate Worthwhile(c: Context, pol: Policy, w: Work, refs: nat, f: Field) {
    var p, h, live := f.AsPair(), w.hist, LiveCount(w.hist, c.cap);
    && !f.sensitive && p !in c.statics && !Among(h, refs, p)
    && if Among(h, live, p) then exists b: nat :: LatestRisk(h, live, refs, p, b) && b <= c.acked else f.name !in pol.noIndex
  }

  /** The oldest entry that must go and may not. */
  ghost predicate Vetoes(c: Context, w: Work, p: Pair, v: nat) {
    Evicts(c, w, p, v) && Protected(c, w, v) && forall b: nat :: Evicts(c, w, p, b) && b < v ==> !Protected(c, w, b)
  }

  /** What is referenceable changes only if the field is worth inserting and there is room.
      If an entry vetoes the insert, those older than it are referenceable no more.
      Otherwise it is the new entry with as many of the former as the limit allows. */
  lemma RefsExactly(c: Context, pol: Policy, w: Work, refs: nat, f: Field)
    requires c.acked <= |w.hist| && refs <= LiveCount(w.hist, c.cap) && pol.limit <= c.cap
    ensures
      var r, p, h := RefsAfter(c, pol, w, refs, f), f.AsPair(), w.hist;
      if !(Worthwhile(c, pol, w, refs, f) && HasRoom(c, pol, w, p)) then r == refs
      else
        && (forall v: nat :: Vetoes(c, w, p, v) ==> v <= |h| && r == Min(refs, |h| - v + 1))
        && (Acceptable(c, pol, w, f) ==>
              r <= refs + 1 && Newest(h + [p], r) <= pol.limit && (r <= refs ==> Newest(h + [p], r + 1) > pol.limit))
  {
    hide Live, LiveCount, Find, Usable, AtRisk, Barred, UsableMatch, RiskMatch, Among, Newest, RefsTried, Evicts, Protected;
    var p, h, live := f.AsPair(), w.hist, LiveCount(w.hist, c.cap);
    BestFound(c, h, refs, p, true);
    RiskFound(h, live, refs, p);
    AmongParts(c, h, live, refs, p);
    StaticIsIn(c.statics, p);
    if HasRoom(c, pol, w, p) {
      forall v: nat | Vetoes(c, w, p, v)
        ensures v <= |h| && RefsTried(h, c.cap, pol.limit, refs, p, w.smallest, c.inUse) == Min(refs, |h| - v + 1)
      {
        RefsVetoed(c, pol, w, refs, p, v);
      }
      AcceptableIs(c, pol, w, f);
      if Acceptable(c, pol, w, f) {
        RefsGrown(c, pol, w, refs, p);
      }
    }
  }

  lemma RefsGrown(c: Context, pol: Policy, w: Work, refs: nat, p: Pair)
    requires refs <= LiveCount(w.hist, c.cap) && Size(p) <= pol.limit <= c.cap && OnlyEvicts(w.hist, c.cap, p, w.smallest, c.inUse)
    ensures
      var r := RefsTried(w.hist, c.cap, pol.limit, refs, p, w.smallest, c.inUse);
      && r <= refs + 1 && Newest(w.hist + [p], r) <= pol.limit
      && (r <= refs ==> Newest(w.hist + [p], r + 1) > pol.limit)
  {
    hide OnlyEvicts, Newest, LiveCount, Approved;
    var m := Fit(w.hist, LiveCount(w.hist, c.cap), c.cap - Size(p));
    if m < refs {
      NewestOfAppend(w.hist, p, m + 1);
    }
  }

  lemma RefsVetoed(c: Context, pol: Policy, w: Work, refs: nat, p: Pair, v: nat)
    requires refs <= LiveCount(w.hist, c.cap) && Size(p) <= pol.limit <= c.cap && Vetoes(c, w, p, v)
    ensures v <= |w.hist| && RefsTried(w.hist, c.cap, pol.limit, refs, p, w.smallest, c.inUse) == Min(refs, |w.hist| - v + 1)
  {
    hide Live, Newest, Fit, LiveCount;
    var h, n := w.hist, LiveCount(w.hist, c.cap);
    var m, guard := Fit(h, n, c.cap - Size(p)), Guard(w.smallest, c.inUse);
    EvictedRange(h, c.cap, p, v);
    ApprovedExactly(h, n, m, guard);
    var b := |h| - n + Approved(h, n, m, guard) + 1;
    EvictedRange(h, c.cap, p, b);
    assert !guard.CanEvict(v) && !(Evicts(c, w, p, b) && b < v);
  }

  // ---- what blocking allows ----

  /** The stream may be blocked: the limit on blocked streams leaves room for it, or an
      outstanding block of it refers past the mark already. */
  ghost predicate MayBlock(e: Enc, s: Stream) {
    e.blocked < e.maxBlocked || RefersPast(BlocksOf(e.usage, s), e.acked)
  }

  ghost predicate RefersPast(bs: seq<seq<nat>>, acked: nat) {
    exists j, b :: 0 <= j < |bs| && b in bs[j] && b > acked
  }

  lemma LargestPast(bs: seq<seq<nat>>, acked: nat)
    ensures LargestOf(bs) > acked <==> RefersPast(bs, acked)
  {
    if LargestOf(bs) > acked {
      var j :| 0 <= j < |bs| && Tops(bs)[j] == LargestOf(bs);
      assert MaxOf(bs[j]) in bs[j];
    }
    if j, b :| 0 <= j < |bs| && b in bs[j] && b > acked {
      assert Tops(bs)[j] in Tops(bs);
    }
  }

  /** A stream that may be blocked is held to nothing, and any other to the mark. */
  lemma BlockingExactly(statics: seq<Pair>, cap: nat, e: Enc, s: Stream)
    ensures ContextFor(statics, cap, e, s).maxBase == if MayBlock(e, s) then None else Some(e.acked)
  {
    LargestPast(BlocksOf(e.usage, s), e.acked);
  }

  /** A block that refers to anything joins the outstanding ones of its stream, and none
      other changes.  The count of blocked streams rises by one exactly if the block is
      the first of them to refer past the mark. */
  lemma RecordedExactly(e: Enc, s: Stream, w: Work)
    requires w.largest == MaxOf(Refs(w.choices)) && forall b :: b in Refs(w.choices) ==> 1 <= b
    ensures
      var e', refs := Record(e, s, w), Refs(w.choices);
      var first := !RefersPast(BlocksOf(e.usage, s), e.acked) && exists b :: b in refs && b > e.acked;
      && BlocksOf(e'.usage, s) == BlocksOf(e.usage, s) + (if refs == [] then [] else [refs])
      && (forall t :: t != s ==> BlocksOf(e'.usage, t) == BlocksOf(e.usage, t))
      && e'.blocked == e.blocked + (if first then 1 else 0)
      && e'.acked == e.acked && e'.hist == w.hist
  {
    hide LargestOf;
    LargestPast(BlocksOf(e.usage, s), e.acked);
  }

  /** An increment is accepted exactly if it is not zero and does not pass the inserts
      made.  Then the mark rises by it, and the streams that refer past it are counted
      anew. */
  lemma IncrementedExactly(e: Enc, v: nat)
    ensures AckInsert(e, v) ==
      if v == 0 || e.acked + v > |e.hist| then e
      else e.(acked := e.acked + v, blocked := |set s | s in e.usage && RefersPast(BlocksOf(e.usage, s), e.acked + v)|)
  {
    hide LargestOf;
    forall s | s in e.usage ensures LargestOf(e.usage[s]) > e.acked + v <==> RefersPast(BlocksOf(e.usage, s), e.acked + v) {
      LargestPast(e.usage[s], e.acked + v);
    }
    assert BlockedStreams(e.usage, e.acked + v) == set s | s in e.usage && RefersPast(BlocksOf(e.usage, s), e.acked + v);
  }

  function Rest(bs: seq<seq<nat>>): seq<seq<nat>> {
    if bs == [] then [] else bs[1..]
  }

  /** An acknowledgment releases the oldest block of its stream and nothing else.  If that
      was the last to refer past the mark, the stream is counted off and the mark rises to
      the largest reference released; otherwise both stay. */
  lemma ReleasedExactly(e: Enc, s: Stream)
    ensures
      var e', bs := AckHeader(e, s), BlocksOf(e.usage, s);
      var last := RefersPast(bs, e.acked) && !RefersPast(Rest(bs), e.acked);
      && BlocksOf(e'.usage, s) == Rest(bs)
      && (forall t :: t != s ==> BlocksOf(e'.usage, t) == BlocksOf(e.usage, t))
      && e'.blocked == e.blocked - (if last then 1 else 0)
      && (!last ==> e'.acked == e.acked)
      && (last ==> e'.acked in bs[0] && forall b :: b in bs[0] ==> b <= e'.acked)
  {
    hide LargestOf;
    var bs := BlocksOf(e.usage, s);
    LargestPast(bs, e.acked);
    LargestPast(Rest(bs), e.acked);
    if bs != [] {
      LargestPast([bs[0]], e.acked);
      assert bs == [bs[0]] + Rest(bs);
      TopsAppend([bs[0]], Rest(bs));
      LargestOfOne(bs[0]);
    }
  }

  /** A cancellation releases every block of its stream, and counts it off if one of them
      referred past the mark. */
  lemma CancelledExactly(e: Enc, s: Stream)
    ensures
      var e', bs := AckReset(e, s), BlocksOf(e.usage, s);
      && BlocksOf(e'.usage, s) == []
      && (forall t :: t != s ==> BlocksOf(e'.usage, t) == BlocksOf(e.usage, t))
      && e'.blocked == e.blocked - (if RefersPast(bs, e.acked) then 1 else 0) && e'.acked == e.acked
  {
    LargestPast(BlocksOf(e.usage, s), e.acked);
  }

  // ---- a whole block ----

  /** The decision on field `n` was taken in the state that the fields before it left, and
      what it chose is kept. */
  lemma {:induction false} ChosenAt(c: Context, pol: Policy, h: Hist, fs: seq<Field>, ps: seq<Plan>, rs: seq<nat>, n: nat, m: nat)
    requires n < m <= |fs| && m <= |ps| && m < |rs| && Chosen(c, pol, h, fs, ps, rs, m) && Planned(c, h, fs, ps, m)
    ensures Planned(c, h, fs, ps, n) && Taken(c, pol, After(c, h, fs, ps, n), rs[n], rs[n + 1], fs[n], ps[n])
    ensures
      var v, w := After(c, h, fs, ps, n), After(c, h, fs, ps, m);
      && PlanRef(ps[n]) <= |v.hist| && |v.choices| == n && |w.choices| == m
      && w.choices[n] == Apply(c, v, fs[n], ps[n]).choices[n]
  {
    hide Taken, PlanOk;
    ChoicesCount(c, h, fs, ps, m);
    PlanRefInRange(c, After(c, h, fs, ps, m - 1), fs[m - 1], ps[m - 1]);
    if n < m - 1 {
      ChosenAt(c, pol, h, fs, ps, rs, n, m - 1);
    } else {
      ChoicesCount(c, h, fs, ps, n);
    }
  }

  lemma {:induction false} ChoicesCount(c: Context, h: Hist, fs: seq<Field>, ps: seq<Plan>, n: nat)
    requires n <= |fs| && n <= |ps| && Planned(c, h, fs, ps, n)
    ensures |After(c, h, fs, ps, n).choices| == n
  {
    hide PlanOk;
    if n > 0 {
      ChoicesCount(c, h, fs, ps, n - 1);
    }
  }

  /** The entry with base `b` is a referenceable copy of `p` that a block on `s` may use. */
  ghost predicate Referable(e: Enc, s: Stream, h: Hist, refs: nat, p: Pair, b: nat) {
    1 <= b <= |h| && |h| - b < refs && h[b - 1] == p && (MayBlock(e, s) || b <= e.acked)
  }

  /** Which fields of a block are indexed.  A field that is not sensitive is, exactly if it
      equals a static entry, or a referenceable one that is acknowledged or that the stream
      may be blocked on, or if it was inserted and the stream may be blocked on it. */
  lemma IndexedExactly(statics: seq<Pair>, cap: nat, pol: Policy, e: Enc, s: Stream, fs: seq<Field>, ps: seq<Plan>, rs: seq<nat>, n: nat)
    requires |ps| == |fs| && |rs| == |fs| + 1 && n < |fs| && e.acked <= |e.hist|
    requires var c := ContextFor(statics, cap, e, s); Chosen(c, pol, e.hist, fs, ps, rs, |fs|) && Planned(c, e.hist, fs, ps, |fs|)
    ensures
      var c, p := ContextFor(statics, cap, e, s), fs[n].AsPair();
      && Planned(c, e.hist, fs, ps, n)
      && var v, w := After(c, e.hist, fs, ps, n), After(c, e.hist, fs, ps, |fs|);
      && |w.choices| == |fs|
      && (w.choices[n].Indexed? <==>
            && !fs[n].sensitive
            && (|| p in statics
                || (exists b: nat :: Referable(e, s, v.hist, rs[n], p, b))
                || ((ps[n].DoInsert? || ps[n].DoDuplicate?) && MayBlock(e, s))))
  {
    hide Among, LatestRisk, Best, Acceptable, Decide, Chosen, Planned, After, LiveCount, MayBlock, RefsAfter;
    var c, p := ContextFor(statics, cap, e, s), fs[n].AsPair();
    ChosenAt(c, pol, e.hist, fs, ps, rs, n, |fs|);
    BlockingExactly(statics, cap, e, s);
    HistGrows(c, e.hist, fs, ps, n);
    var v := After(c, e.hist, fs, ps, n);
    DecideExactly(c, pol, v, rs[n], fs[n]);
    assert forall b: nat :: Referable(e, s, v.hist, rs[n], p, b) <==> UsableMatch(c, v.hist, rs[n], p, true, b);
  }

  /** What a field that is not indexed becomes: a literal with the best name there is if
      nothing static or in the table equals it, and with none otherwise. */
  lemma NamedExactly(statics: seq<Pair>, cap: nat, pol: Policy, e: Enc, s: Stream, fs: seq<Field>, ps: seq<Plan>, rs: seq<nat>, n: nat)
    requires |ps| == |fs| && |rs| == |fs| + 1 && n < |fs| && e.acked <= |e.hist|
    requires var c := ContextFor(statics, cap, e, s); Chosen(c, pol, e.hist, fs, ps, rs, |fs|) && Planned(c, e.hist, fs, ps, |fs|)
    ensures
      var c, p := ContextFor(statics, cap, e, s), fs[n].AsPair();
      && Planned(c, e.hist, fs, ps, n)
      && var v, w := After(c, e.hist, fs, ps, n), After(c, e.hist, fs, ps, |fs|);
      && |w.choices| == |fs|
      && var isNew, ch := !fs[n].sensitive && p !in statics && !Among(v.hist, LiveCount(v.hist, cap), p), w.choices[n];
      && (ch.Named? ==> isNew && ch.r != NoRef && Best(c, v.hist, rs[n], p, false, ch.r))
      && (ch.Plain? && isNew ==> Best(c, v.hist, rs[n], p, false, NoRef))
  {
    hide Among, LatestRisk, Best, Acceptable, Decide, Chosen, Planned, After, LiveCount, MayBlock, RefsAfter, UsableMatch;
    var c := ContextFor(statics, cap, e, s);
    ChosenAt(c, pol, e.hist, fs, ps, rs, n, |fs|);
    HistGrows(c, e.hist, fs, ps, n);
    DecideExactly(c, pol, After(c, e.hist, fs, ps, n), rs[n], fs[n]);
  }

  lemma {:induction false} HistGrows(c: Context, h: Hist, fs: seq<Field>, ps: seq<Plan>, n: nat)
    requires n <= |fs| && n <= |ps| && Planned(c, h, fs, ps, n)
    ensures h <= After(c, h, fs, ps, n).hist
  {
    hide PlanOk;
    if n > 0 {
      HistGrows(c, h, fs, ps, n - 1);
    }
  }

  /** A stream that may not be blocked is sent no reference past the mark. */
  lemma NoneBeyondMark(statics: seq<Pair>, cap: nat, e: Enc, s: Stream, fs: seq<Field>, ps: seq<Plan>, b: nat)
    requires |ps| == |fs| && EncOk(cap, e) && !MayBlock(e, s) && Planned(ContextFor(statics, cap, e, s), e.hist, fs, ps, |fs|)
    requires b in Refs(After(ContextFor(statics, cap, e, s), e.hist, fs, ps, |fs|).choices)
    ensures b <= e.acked
  {
    hide MayBlock, After, Planned, BlockedStreams, UsageOk;
    BlockingExactly(statics, cap, e, s);
    BlockWritten(ContextFor(statics, cap, e, s), e.hist, fs, ps, |fs|);
  }

  predicate FullMatch(ch: Choice) {
    ch.Indexed? && ch.r.Dynamic?
  }

  /** `m` is the least base of the full matches among `cs`, or None if there are none. */
  ghost predicate LeastMatch(cs: seq<Choice>, m: Option<nat>) {
    && (m.None? ==> forall j :: 0 <= j < |cs| ==> !FullMatch(cs[j]))
    && (m.Some? ==>
          && (exists j :: 0 <= j < |cs| && FullMatch(cs[j]) && cs[j].r.base == m.value)
          && forall j :: 0 <= j < |cs| && FullMatch(cs[j]) ==> m.value <= cs[j].r.base)
  }

  lemma LeastAppend(cs: seq<Choice>, m: Option<nat>, ch: Choice)
    requires LeastMatch(cs, m) && (ch.Indexed? ==> ch.r != NoRef)
    ensures LeastMatch(cs + [ch], if ch.Indexed? then Lowest(m, ch.r) else m)
  {
    var ds := cs + [ch];
    assert ds[|cs|] == ch;
    if m.Some? {
      var j :| 0 <= j < |cs| && FullMatch(cs[j]) && cs[j].r.base == m.value;
      assert ds[j] == cs[j];
    }
  }

  /** What protects the full matches of a block is exactly the least of them. */
  lemma {:induction false} SmallestIsLeast(c: Context, h: Hist, fs: seq<Field>, ps: seq<Plan>, n: nat)
    requires n <= |fs| && n <= |ps| && Planned(c, h, fs, ps, n)
    ensures LeastMatch(After(c, h, fs, ps, n).choices, After(c, h, fs, ps, n).smallest)
  {
    hide LeastMatch, CanInsert, Live, Lowest;
    if n == 0 {
      NoLeast();
    } else {
      SmallestIsLeast(c, h, fs, ps, n - 1);
      var v := After(c, h, fs, ps, n - 1);
      PlanRefInRange(c, v, fs[n - 1], ps[n - 1]);
      var w := Apply(c, v, fs[n - 1], ps[n - 1]);
      var ch := w.choices[|v.choices|];
      assert w.choices == v.choices + [ch];
      LeastAppend(v.choices, v.smallest, ch);
    }
  }

  lemma NoLeast()
    ensures LeastMatch([], None)
  {
  }
}
