/** How the QPACK encoder writes one header block (hc/qpackencoder.go:300-525).

    `Plan` says what the encoder decided for one field; `Apply` is the effect of
    that decision on the table, on the updates it emits and on the writer state;
    `PlanOk` is what the encoder checks before it may decide so.  Everything
    proved about plans holds for every table lookup and every indexing policy. */
module QpackWriter {
  import opened Headers
  import opened History
  import opened TableSpec
  import opened QpackSyntax
  import opened QpackReader
  import opened Seqs

  datatype Ref = NoRef | Static(index: nat) | Dynamic(base: nat)

  datatype Plan =
    | UseLiteral
    | UseFull(r: Ref)
    | UseName(r: Ref)
    | DoInsert(r: Ref)
    | DoDuplicate(of: nat)

  /** How a field ends up in the header block. */
  datatype Choice = Plain | Named(r: Ref) | Indexed(r: Ref)

  /** What is fixed while a block is written.  `maxBase` is None where the source
      has intMax; `inUse` holds the bases that outstanding blocks refer to. */
  datatype Context = Context(statics: seq<Pair>, cap: nat, acked: nat, maxBase: Option<nat>, inUse: set<nat>)

  /** The part of qpackWriterState, and of the encoder, that changes from field to
      field.  `smallest` is None where the source has intMax. */
  datatype Work = Work(hist: Hist, largest: nat, smallest: Option<nat>, choices: seq<Choice>, instrs: seq<Instr>)

  function Start(h: Hist): Work {
    Work(h, 0, None, [], [])
  }

  predicate Allowed(c: Context, b: nat) {
    c.maxBase.None? || b <= c.maxBase.value
  }

  function DynBase(r: Ref): nat {
    if r.Dynamic? then r.base else 0
  }

  /** Lower `smallest` to the base of a full match. */
  function Lowest(s: Option<nat>, r: Ref): Option<nat> {
    if r.Dynamic? && (s.None? || r.base < s.value) then Some(r.base) else s
  }

  function Match(w: Work, r: Ref): Work {
    w.(largest := Max(w.largest, DynBase(r)), smallest := Lowest(w.smallest, r), choices := w.choices + [Indexed(r)])
  }

  function NameMatch(w: Work, r: Ref): Work {
    w.(largest := Max(w.largest, DynBase(r)),
       choices := w.choices + [if r.NoRef? then Plain else Named(r)])
  }

  function Emit(w: Work, p: Pair, u: Instr): Work {
    w.(hist := w.hist + [p], instrs := w.instrs + [u])
  }

  /** The new entry is referenced if that is allowed; otherwise the field falls
      back to the name match `r`. */
  function MatchNew(c: Context, w: Work, r: Ref): Work {
    if Allowed(c, |w.hist|) then Match(w, Dynamic(|w.hist|)) else NameMatch(w, r)
  }

  function InsertInstr(h: Hist, p: Pair, r: Ref): Instr
    requires DynBase(r) <= |h|
  {
    match r
    case NoRef => InsertLiteral(p.name, p.value)
    case Static(i) => InsertNameStatic(i, p.value)
    case Dynamic(b) => InsertNameDynamic(|h| - b, p.value)
  }

  function PlanRef(p: Plan): nat {
    match p
    case DoInsert(r) => DynBase(r)
    case DoDuplicate(d) => d
    case _ => 0
  }

  function Apply(c: Context, w: Work, f: Field, p: Plan): Work
    requires PlanRef(p) <= |w.hist|
  {
    match p
    case UseLiteral => NameMatch(w, NoRef)
    case UseFull(r) => Match(w, r)
    case UseName(r) => NameMatch(w, r)
    case DoInsert(r) => MatchNew(c, Emit(w, f.AsPair(), InsertInstr(w.hist, f.AsPair(), r)), r)
    case DoDuplicate(d) => MatchNew(c, Emit(w, f.AsPair(), Duplicate(|w.hist| - d)), NoRef)
  }

  /** Total size of the entries the decoder has not acknowledged. */
  function Unacked(h: Hist, acked: nat): nat
    requires acked <= |h|
  {
    Newest(h, |h| - acked)
  }

  /** An entry may be evicted if no full match of this block and no outstanding
      block refers to it. */
  predicate Evictable(c: Context, w: Work, b: nat) {
    (w.smallest.None? || b < w.smallest.value) && b !in c.inUse
  }

  ghost predicate CanInsert(c: Context, w: Work, p: Pair) {
    && c.acked <= |w.hist|
    && Size(p) + Unacked(w.hist, c.acked) <= c.cap
    && forall b :: Live(w.hist, c.cap, b) && !Live(w.hist + [p], c.cap, b) ==> Evictable(c, w, b)
  }

  predicate NameOk(c: Context, h: Hist, f: Field, r: Ref) {
    match r
    case NoRef => true
    case Static(i) => i < |c.statics| && c.statics[i].name == f.name
    case Dynamic(b) => Live(h, c.cap, b) && h[b - 1].name == f.name && Allowed(c, b)
  }

  predicate FullOk(c: Context, h: Hist, f: Field, r: Ref) {
    match r
    case NoRef => false
    case Static(i) => i < |c.statics| && c.statics[i] == f.AsPair()
    case Dynamic(b) => Live(h, c.cap, b) && h[b - 1] == f.AsPair() && Allowed(c, b)
  }

  /** What the encoder establishes before it acts on a decision. */
  ghost predicate PlanOk(c: Context, w: Work, f: Field, p: Plan) {
    match p
    case UseLiteral => true
    case UseFull(r) => !f.sensitive && FullOk(c, w.hist, f, r)
    case UseName(r) => !f.sensitive && NameOk(c, w.hist, f, r)
    case DoInsert(r) => !f.sensitive && NameOk(c, w.hist, f, r) && CanInsert(c, w, f.AsPair())
    case DoDuplicate(d) =>
      && !f.sensitive
      && Live(w.hist, c.cap, d) && w.hist[d - 1] == f.AsPair()
      && d <= c.acked
      && CanInsert(c, w, f.AsPair())
  }

  /** The state after the first `n` fields, if all their plans are in order. */
  ghost predicate Planned(c: Context, h: Hist, fs: seq<Field>, ps: seq<Plan>, n: nat)
    requires n <= |fs| && n <= |ps|
    decreases n, 0
  {
    n == 0 || (Planned(c, h, fs, ps, n - 1) && PlanOk(c, After(c, h, fs, ps, n - 1), fs[n - 1], ps[n - 1]))
  }

  ghost function After(c: Context, h: Hist, fs: seq<Field>, ps: seq<Plan>, n: nat): Work
    requires n <= |fs| && n <= |ps|
    requires Planned(c, h, fs, ps, n)
    decreases n, 1
  {
    if n == 0 then Start(h)
    else
      var w := After(c, h, fs, ps, n - 1);
      PlanRefInRange(c, w, fs[n - 1], ps[n - 1]);
      Apply(c, w, fs[n - 1], ps[n - 1])
  }

  lemma PlanRefInRange(c: Context, w: Work, f: Field, p: Plan)
    requires PlanOk(c, w, f, p)
    ensures PlanRef(p) <= |w.hist|
  {
  }

  /** The bases a block refers to, in order: what addUse records. */
  function Refs(cs: seq<Choice>): seq<nat> {
    if cs == [] then [] else
      Refs(cs[..|cs| - 1]) + ChoiceRefs(cs[|cs| - 1])
  }

  function ChoiceRefs(ch: Choice): seq<nat> {
    match ch
    case Indexed(Dynamic(b)) => [b]
    case Named(Dynamic(b)) => [b]
    case _ => []
  }

  /** The largest of a list of bases; zero for none. */
  function MaxOf(s: seq<nat>): (m: nat)
    ensures forall b :: b in s ==> b <= m
    ensures s != [] ==> m in s
    ensures s == [] ==> m == 0
  {
    if s == [] then 0
    else
      assert forall b :: b in s ==> b in s[..|s| - 1] || b == s[|s| - 1];
      Max(MaxOf(s[..|s| - 1]), s[|s| - 1])
  }

  lemma {:induction false} MaxOfAppend(s: seq<nat>, t: seq<nat>)
    ensures MaxOf(s + t) == Max(MaxOf(s), MaxOf(t))
  {
    if t == [] {
      assert s + t == s;
    } else {
      assert (s + t)[..|s + t| - 1] == s + t[..|t| - 1];
      MaxOfAppend(s, t[..|t| - 1]);
    }
  }

  lemma RefsAppend(cs: seq<Choice>, ch: Choice)
    ensures Refs(cs + [ch]) == Refs(cs) + ChoiceRefs(ch)
  {
    assert (cs + [ch])[..|cs|] == cs;
  }

  lemma {:induction false} RefsIn(cs: seq<Choice>, j: nat, b: nat)
    requires j < |cs| && b in ChoiceRefs(cs[j])
    ensures b in Refs(cs)
  {
    if j < |cs| - 1 {
      RefsIn(cs[..|cs| - 1], j, b);
    }
  }

  lemma {:induction false} RefsFrom(cs: seq<Choice>, b: nat) returns (j: nat)
    requires b in Refs(cs)
    ensures j < |cs| && b in ChoiceRefs(cs[j])
  {
    if b in ChoiceRefs(cs[|cs| - 1]) {
      j := |cs| - 1;
    } else {
      j := RefsFrom(cs[..|cs| - 1], b);
    }
  }

  /** What is known of a field's representation once it is chosen. */
  predicate ChoiceOk(statics: seq<Pair>, h: Hist, f: Field, ch: Choice) {
    match ch
    case Plain => true
    case Named(Static(i)) => i < |statics| && statics[i].name == f.name
    case Named(Dynamic(b)) => 1 <= b <= |h| && h[b - 1].name == f.name
    case Indexed(Static(i)) => !f.sensitive && i < |statics| && statics[i] == f.AsPair()
    case Indexed(Dynamic(b)) => !f.sensitive && 1 <= b <= |h| && h[b - 1] == f.AsPair()
    case _ => false
  }

  /** Everything the choices made so far rely on. */
  ghost predicate WorkOk(c: Context, h: Hist, fs: seq<Field>, w: Work) {
    && h <= w.hist
    && (w.hist != [] ==> ENTRY_OVERHEAD <= c.cap)
    && c.acked <= |h| && Unacked(w.hist, c.acked) <= c.cap
    && |w.choices| <= |fs|
    && (forall j :: 0 <= j < |w.choices| ==> ChoiceOk(c.statics, w.hist, fs[j], w.choices[j]))
    && FullMatchesHeld(c, w)
    && (forall b :: b in Refs(w.choices) ==> 1 <= b <= |w.hist| && Allowed(c, b))
    && w.largest == MaxOf(Refs(w.choices))
  }

  /** Full matches are in the table and `smallest` protects them. */
  ghost predicate FullMatchesHeld(c: Context, w: Work) {
    forall j :: 0 <= j < |w.choices| && w.choices[j].Indexed? && w.choices[j].r.Dynamic? ==>
      && Live(w.hist, c.cap, w.choices[j].r.base)
      && w.smallest.Some? && w.smallest.value <= w.choices[j].r.base
  }

  /** Entries still referred to by outstanding blocks are not evicted. */
  ghost predicate InUseHeld(c: Context, h: Hist, w: Work) {
    forall b :: b in c.inUse && Live(h, c.cap, b) ==> Live(w.hist, c.cap, b)
  }

  /** Instruction `u`, met by a decoder that has replayed the first `k` inserts of
      `h`, makes its table equal to the encoder's after `k + 1` inserts. */
  ghost predicate InstrOk(statics: seq<Pair>, cap: nat, h: Hist, k: nat, u: Instr) {
    k < |h| && Update(statics, Canon(h[..k], cap), u) == Some(Canon(h[..k + 1], cap))
  }

  ghost function Follows(statics: seq<Pair>, cap: nat, h: Hist): (nat, Instr) -> bool {
    (k: nat, u: Instr) => InstrOk(statics, cap, h, k, u)
  }

  ghost predicate InstrsOk(statics: seq<Pair>, cap: nat, h: Hist, k: nat, us: seq<Instr>) {
    AllAt(Follows(statics, cap, h), k, us)
  }

  // ---- one decision ----

  lemma ChoiceGrows(statics: seq<Pair>, h: Hist, g: Hist, f: Field, ch: Choice)
    requires h <= g && ChoiceOk(statics, h, f, ch)
    ensures ChoiceOk(statics, g, f, ch)
  {
  }

  lemma AppendRefs(c: Context, w: Work, w': Work, ch: Choice)
    requires w.largest == MaxOf(Refs(w.choices)) && (forall b :: b in Refs(w.choices) ==> 1 <= b <= |w.hist| && Allowed(c, b))
    requires w'.hist == w.hist && w'.choices == w.choices + [ch]
    requires forall b :: b in ChoiceRefs(ch) ==> 1 <= b <= |w.hist| && Allowed(c, b)
    requires w'.largest == Max(w.largest, MaxOf(ChoiceRefs(ch)))
    ensures w'.largest == MaxOf(Refs(w'.choices))
    ensures forall b :: b in Refs(w'.choices) ==> 1 <= b <= |w'.hist| && Allowed(c, b)
  {
    RefsAppend(w.choices, ch);
    MaxOfAppend(Refs(w.choices), ChoiceRefs(ch));
  }

  lemma AppendChoice(c: Context, h: Hist, fs: seq<Field>, w: Work, w': Work, ch: Choice)
    requires WorkOk(c, h, fs, w)
    requires w'.hist == w.hist && w'.choices == w.choices + [ch] && |w'.choices| <= |fs|
    requires ChoiceOk(c.statics, w.hist, fs[|w.choices|], ch)
    requires forall b :: b in ChoiceRefs(ch) ==> 1 <= b <= |w.hist| && Allowed(c, b)
    requires w'.largest == Max(w.largest, MaxOf(ChoiceRefs(ch)))
    requires FullMatchesHeld(c, w')
    ensures WorkOk(c, h, fs, w')
  {
    hide ChoiceOk, FullMatchesHeld, Unacked, Refs, MaxOf;
    AppendRefs(c, w, w', ch);
    AppendChoices(c.statics, fs, w, w', ch);
  }

  lemma AppendChoices(statics: seq<Pair>, fs: seq<Field>, w: Work, w': Work, ch: Choice)
    requires |w.choices| < |fs| && forall j :: 0 <= j < |w.choices| ==> ChoiceOk(statics, w.hist, fs[j], w.choices[j])
    requires w'.hist == w.hist && w'.choices == w.choices + [ch] && ChoiceOk(statics, w.hist, fs[|w.choices|], ch)
    ensures forall j :: 0 <= j < |w'.choices| ==> ChoiceOk(statics, w'.hist, fs[j], w'.choices[j])
  {
    hide ChoiceOk;
    forall j | 0 <= j < |w'.choices|
      ensures ChoiceOk(statics, w'.hist, fs[j], w'.choices[j])
    {
      assert w'.choices[j] == if j < |w.choices| then w.choices[j] else ch;
    }
  }

  lemma MatchKeeps(c: Context, h: Hist, fs: seq<Field>, w: Work, r: Ref)
    requires WorkOk(c, h, fs, w) && |w.choices| < |fs|
    requires !fs[|w.choices|].sensitive && FullOk(c, w.hist, fs[|w.choices|], r)
    ensures WorkOk(c, h, fs, Match(w, r))
  {
    var w' := Match(w, r);
    var ch := Indexed(r);
    assert ChoiceRefs(ch) == if r.Dynamic? then [r.base] else [];
    assert forall j :: 0 <= j < |w.choices| ==> w'.choices[j] == w.choices[j];
    AppendChoice(c, h, fs, w, w', ch);
  }

  lemma NameMatchKeeps(c: Context, h: Hist, fs: seq<Field>, w: Work, r: Ref)
    requires WorkOk(c, h, fs, w) && |w.choices| < |fs|
    requires ChoiceOk(c.statics, w.hist, fs[|w.choices|], if r.NoRef? then Plain else Named(r))
    requires r.Dynamic? ==> Allowed(c, r.base)
    ensures WorkOk(c, h, fs, NameMatch(w, r))
  {
    var w' := NameMatch(w, r);
    var ch := if r.NoRef? then Plain else Named(r);
    assert ChoiceRefs(ch) == if r.Dynamic? then [r.base] else [];
    assert forall j :: 0 <= j < |w.choices| ==> w'.choices[j] == w.choices[j];
    AppendChoice(c, h, fs, w, w', ch);
  }

  /** An insert that fits beside the unacknowledged entries cannot evict them. */
  lemma UnackedAfterInsert(h: Hist, acked: nat, p: Pair)
    requires acked <= |h|
    ensures Unacked(h + [p], acked) == Unacked(h, acked) + Size(p)
  {
    NewestOfAppend(h, p, |h| - acked);
  }

  lemma EmitKeeps(c: Context, h: Hist, fs: seq<Field>, w: Work, p: Pair, u: Instr)
    requires WorkOk(c, h, fs, w) && CanInsert(c, w, p)
    ensures WorkOk(c, h, fs, Emit(w, p, u))
  {
    var w' := Emit(w, p, u);
    UnackedAfterInsert(w.hist, c.acked, p);
    forall j | 0 <= j < |w.choices|
      ensures ChoiceOk(c.statics, w'.hist, fs[j], w'.choices[j])
    {
      ChoiceGrows(c.statics, w.hist, w'.hist, fs[j], w.choices[j]);
    }
    assert FullMatchesHeld(c, w') by {
      assert forall b :: Live(w.hist, c.cap, b) && w.smallest.Some? && w.smallest.value <= b ==> Live(w'.hist, c.cap, b);
    }
  }

  /** The new entry is live and is the newest. */
  lemma NewEntryLive(h: Hist, cap: nat, p: Pair)
    requires Size(p) <= cap
    ensures Live(h + [p], cap, |h| + 1)
  {
    NewestOfAppend(h, p, 0);
  }

  lemma ApplyKeeps(c: Context, h: Hist, fs: seq<Field>, w: Work, p: Plan)
    requires WorkOk(c, h, fs, w) && |w.choices| < |fs|
    requires PlanOk(c, w, fs[|w.choices|], p)
    ensures PlanRef(p) <= |w.hist| && WorkOk(c, h, fs, Apply(c, w, fs[|w.choices|], p))
  {
    PlanRefInRange(c, w, fs[|w.choices|], p);
    var f := fs[|w.choices|];
    match p
    case UseLiteral => NameMatchKeeps(c, h, fs, w, NoRef);
    case UseFull(r) => MatchKeeps(c, h, fs, w, r);
    case UseName(r) => NameMatchKeeps(c, h, fs, w, r);
    case DoInsert(r) => NewEntryKeeps(c, h, fs, w, InsertInstr(w.hist, f.AsPair(), r), r);
    case DoDuplicate(d) => NewEntryKeeps(c, h, fs, w, Duplicate(|w.hist| - d), NoRef);
  }

  lemma NewEntryKeeps(c: Context, h: Hist, fs: seq<Field>, w: Work, u: Instr, r: Ref)
    requires WorkOk(c, h, fs, w) && |w.choices| < |fs|
    requires var f := fs[|w.choices|]; !f.sensitive && CanInsert(c, w, f.AsPair()) && NameOk(c, w.hist, f, r)
    ensures WorkOk(c, h, fs, MatchNew(c, Emit(w, fs[|w.choices|].AsPair(), u), r))
  {
    var f := fs[|w.choices|];
    var e := Emit(w, f.AsPair(), u);
    EmitKeeps(c, h, fs, w, f.AsPair(), u);
    NewEntryLive(w.hist, c.cap, f.AsPair());
    if Allowed(c, |e.hist|) {
      MatchKeeps(c, h, fs, e, Dynamic(|e.hist|));
    } else {
      NameMatchKeeps(c, h, fs, e, r);
    }
  }

  lemma AppendFollowed(statics: seq<Pair>, cap: nat, h: Hist, p: Pair, u: Instr)
    requires Size(p) <= cap && Update(statics, Canon(h, cap), u) == Some(Canon(h, cap).Insert(p))
    ensures InstrOk(statics, cap, h + [p], |h|, u)
  {
    assert (h + [p])[..|h|] == h && (h + [p])[..|h| + 1] == h + [p];
    CanonInsert(h, cap, p);
  }

  /** The decoder follows every insert, even one that evicts the entry it names. */
  lemma InsertFollowed(c: Context, w: Work, f: Field, r: Ref)
    requires NameOk(c, w.hist, f, r) && CanInsert(c, w, f.AsPair())
    ensures InstrOk(c.statics, c.cap, w.hist + [f.AsPair()], |w.hist|, InsertInstr(w.hist, f.AsPair(), r))
  {
    var p := f.AsPair();
    var t := Canon(w.hist, c.cap);
    if r.Dynamic? {
      CanonGet(w.hist, c.cap, |w.hist|, r.base);
    }
    assert Update(c.statics, t, InsertInstr(w.hist, p, r)) == InsertChecked(t, p);
    AppendFollowed(c.statics, c.cap, w.hist, p, InsertInstr(w.hist, p, r));
  }

  lemma DuplicateFollowed(c: Context, w: Work, f: Field, d: nat)
    requires Live(w.hist, c.cap, d) && w.hist[d - 1] == f.AsPair() && CanInsert(c, w, f.AsPair())
    ensures InstrOk(c.statics, c.cap, w.hist + [f.AsPair()], |w.hist|, Duplicate(|w.hist| - d))
  {
    CanonGet(w.hist, c.cap, |w.hist|, d);
    AppendFollowed(c.statics, c.cap, w.hist, f.AsPair(), Duplicate(|w.hist| - d));
  }

  lemma InstrGrows(statics: seq<Pair>, cap: nat, h: Hist, g: Hist, k: nat, u: Instr)
    requires h <= g && InstrOk(statics, cap, h, k, u)
    ensures InstrOk(statics, cap, g, k, u)
  {
    assert g[..k] == h[..k] && g[..k + 1] == h[..k + 1];
  }

  lemma InstrsGrow(statics: seq<Pair>, cap: nat, h: Hist, g: Hist, k: nat, us: seq<Instr>)
    requires h <= g && InstrsOk(statics, cap, h, k, us)
    ensures InstrsOk(statics, cap, g, k, us)
  {
    hide InstrOk;
    forall i, u | Follows(statics, cap, h)(i, u) ensures Follows(statics, cap, g)(i, u) {
      InstrGrows(statics, cap, h, g, i, u);
    }
    AllAtImplies(Follows(statics, cap, h), Follows(statics, cap, g), k, us);
  }

  /** The updates emitted since `h` take a decoder from `h` to the present table. */
  ghost predicate Followed(c: Context, h: Hist, w: Work) {
    && h <= w.hist && |w.instrs| == |w.hist| - |h|
    && InstrsOk(c.statics, c.cap, w.hist, |h|, w.instrs)
  }

  lemma EmitFollowed(c: Context, h: Hist, w: Work, p: Pair, u: Instr)
    requires Followed(c, h, w) && InstrOk(c.statics, c.cap, w.hist + [p], |w.hist|, u)
    ensures Followed(c, h, Emit(w, p, u))
  {
    hide InstrOk;
    var g := w.hist + [p];
    InstrsGrow(c.statics, c.cap, w.hist, g, |h|, w.instrs);
    AllAtOne(Follows(c.statics, c.cap, g), |h| + |w.instrs|, u);
    AllAtAppend(Follows(c.statics, c.cap, g), |h|, w.instrs, [u]);
  }

  /** Choosing a representation neither inserts nor emits. */
  lemma SameFollowed(c: Context, h: Hist, w: Work, w': Work)
    requires Followed(c, h, w) && w'.hist == w.hist && w'.instrs == w.instrs
    ensures Followed(c, h, w')
  {
    hide InstrOk;
  }

  lemma NewFollowed(c: Context, h: Hist, w: Work, f: Field, u: Instr, r: Ref)
    requires Followed(c, h, w) && InstrOk(c.statics, c.cap, w.hist + [f.AsPair()], |w.hist|, u)
    ensures Followed(c, h, MatchNew(c, Emit(w, f.AsPair(), u), r))
  {
    hide InstrOk;
    var e := Emit(w, f.AsPair(), u);
    EmitFollowed(c, h, w, f.AsPair(), u);
    SameFollowed(c, h, e, MatchNew(c, e, r));
  }

  lemma ApplyFollowed(c: Context, h: Hist, w: Work, f: Field, p: Plan)
    requires Followed(c, h, w) && PlanOk(c, w, f, p) && PlanRef(p) <= |w.hist|
    ensures Followed(c, h, Apply(c, w, f, p))
  {
    hide InstrOk;
    match p
    case DoInsert(r) =>
      InsertFollowed(c, w, f, r);
      NewFollowed(c, h, w, f, InsertInstr(w.hist, f.AsPair(), r), r);
    case DoDuplicate(d) =>
      DuplicateFollowed(c, w, f, d);
      NewFollowed(c, h, w, f, Duplicate(|w.hist| - d), NoRef);
    case _ => SameFollowed(c, h, w, Apply(c, w, f, p));
  }

  lemma ApplyInUse(c: Context, h: Hist, w: Work, f: Field, p: Plan)
    requires InUseHeld(c, h, w) && PlanOk(c, w, f, p) && PlanRef(p) <= |w.hist|
    ensures InUseHeld(c, h, Apply(c, w, f, p))
  {
    var w' := Apply(c, w, f, p);
    assert w'.hist == w.hist || (w'.hist == w.hist + [f.AsPair()] && CanInsert(c, w, f.AsPair()));
  }

  // ---- a whole block ----

  /** After any sequence of permitted decisions: full matches are still in the
      table, every choice is right about its field, `largest` is the largest base
      referred to, and the emitted updates take a decoder to the same table. */
  lemma {:induction false} BlockWritten(c: Context, h: Hist, fs: seq<Field>, ps: seq<Plan>, n: nat)
    requires n <= |fs| && n <= |ps| && Planned(c, h, fs, ps, n)
    requires c.acked <= |h| && Unacked(h, c.acked) <= c.cap
    requires h != [] ==> ENTRY_OVERHEAD <= c.cap
    ensures
      var w := After(c, h, fs, ps, n);
      WorkOk(c, h, fs, w) && |w.choices| == n && Followed(c, h, w) && InUseHeld(c, h, w)
  {
    hide InstrOk;
    if n > 0 {
      BlockWritten(c, h, fs, ps, n - 1);
      FieldWritten(c, h, fs, After(c, h, fs, ps, n - 1), ps[n - 1]);
    }
  }

  lemma FieldWritten(c: Context, h: Hist, fs: seq<Field>, w: Work, p: Plan)
    requires WorkOk(c, h, fs, w) && Followed(c, h, w) && InUseHeld(c, h, w)
    requires |w.choices| < |fs| && PlanOk(c, w, fs[|w.choices|], p)
    ensures PlanRef(p) <= |w.hist|
    ensures
      var w' := Apply(c, w, fs[|w.choices|], p);
      WorkOk(c, h, fs, w') && |w'.choices| == |w.choices| + 1 && Followed(c, h, w') && InUseHeld(c, h, w')
  {
    hide InstrOk;
    ApplyKeeps(c, h, fs, w, p);
    ApplyFollowed(c, h, w, fs[|w.choices|], p);
    ApplyInUse(c, h, w, fs[|w.choices|], p);
  }

  /** Replaying any prefix of the updates gives the encoder's table at that insert count. */
  lemma {:induction false} ReplayPrefix(statics: seq<Pair>, cap: nat, h: Hist, k: nat, us: seq<Instr>, j: nat)
    requires k + |us| <= |h| && j <= |us| && InstrsOk(statics, cap, h, k, us)
    ensures Updates(statics, Canon(h[..k], cap), us[..j]) == Some(Canon(h[..k + j], cap))
    decreases j
  {
    hide InstrOk, UpdateStep, Canon;
    if j > 0 {
      InstrStep(statics, cap, h, k, us[0]);
      ReplayPrefix(statics, cap, h, k + 1, us[1..], j - 1);
      assert us[..j][1..] == us[1..][..j - 1];
    }
  }

  lemma InstrStep(statics: seq<Pair>, cap: nat, h: Hist, k: nat, u: Instr)
    requires InstrOk(statics, cap, h, k, u)
    ensures k < |h| && UpdateStep(statics)(Canon(h[..k], cap), u) == Some(Canon(h[..k + 1], cap))
  {
  }
}
