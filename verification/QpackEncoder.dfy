/** The QPACK encoder as an object that updates its table, its record of outstanding
    blocks and its counters (hc/qpackencoder.go).  A whole call of WriteHeaderBlock is
    one step; entries are identified by their base. */
module QpackEncoder {
  import opened Headers
  import opened History
  import opened DynamicTable
  import opened Lookups
  import opened QpackEncoderTable
  import opened QpackSyntax
  import opened QpackWriter
  import opened QpackPolicy
  import opened QpackBlock
  import opened QpackUsage
  import opened QpackCounts

  /** qpackHeaderBlockUsage. */
  datatype BlockUse = BlockUse(entries: seq<nat>, max: nat)

  type Tracker = map<Stream, seq<BlockUse>>

  function Entries(bs: seq<BlockUse>): seq<seq<nat>> {
    seq(|bs|, i requires 0 <= i < |bs| => bs[i].entries)
  }

  ghost function Uses(u: Tracker): Usage {
    map s | s in u :: Entries(u[s])
  }

  predicate MaxOk(bs: seq<BlockUse>) {
    forall j :: 0 <= j < |bs| ==> bs[j].max == MaxOf(bs[j].entries)
  }

  /** qpackWriterState: NoRef is nil, and None is intMax. */
  datatype State = State(matches: seq<Ref>, nameMatches: seq<Ref>, largest: nat, smallest: Option<nat>, maxBase: Option<nat>)

  function ChoiceOf(m: Ref, n: Ref): Choice {
    if m != NoRef then QpackWriter.Indexed(m) else if n != NoRef then Named(n) else Plain
  }

  ghost predicate Reflects(st: State, c: Context, w: Work) {
    && |st.matches| == |st.nameMatches| == |w.choices|
    && (forall i :: 0 <= i < |w.choices| ==> w.choices[i] == ChoiceOf(st.matches[i], st.nameMatches[i]))
    && st.largest == w.largest && st.smallest == w.smallest && st.maxBase == c.maxBase
  }

  /** recordMatch of a full match, or of nothing but a name. */
  function RecordFull(st: State, r: Ref, name: Ref): State {
    st.(matches := st.matches + [r], nameMatches := st.nameMatches + [name],
        largest := Max(Max(st.largest, DynBase(name)), DynBase(r)), smallest := Lowest(st.smallest, r))
  }

  function RecordName(st: State, name: Ref): State {
    st.(matches := st.matches + [NoRef], nameMatches := st.nameMatches + [name],
        largest := Max(st.largest, DynBase(name)))
  }

  lemma RecordedFull(st: State, c: Context, w: Work, r: Ref, name: Ref)
    requires Reflects(st, c, w) && r != NoRef && DynBase(name) <= DynBase(r)
    ensures Reflects(RecordFull(st, r, name), c, Match(w, r))
  {
  }

  lemma RecordedName(st: State, c: Context, w: Work, name: Ref)
    requires Reflects(st, c, w)
    ensures Reflects(RecordName(st, name), c, NameMatch(w, name))
  {
  }

  /** The largest reference of a stream: qpackStreamUsage.max. */
  method StreamMax(bs: seq<BlockUse>) returns (m: nat)
    requires MaxOk(bs)
    ensures m == LargestOf(Entries(bs))
  {
    hide MaxOf;
    m := 0;
    ghost var tops := Tops(Entries(bs));
    for i := 0 to |bs|
      invariant m == MaxOf(tops[..i])
    {
      assert tops[..i + 1] == tops[..i] + [tops[i]];
      MaxOfAppend(tops[..i], [tops[i]]);
      MaxOfOne(tops[i]);
      if bs[i].max > m {
        m := bs[i].max;
      }
    }
    assert tops[..|bs|] == tops;
  }

  lemma ReleaseOne(m: multiset<nat>, s: seq<nat>, i: nat)
    requires i < |s| && multiset(s) <= m
    ensures (m - multiset(s[..i]))[s[i]] > 0
    ensures m - multiset(s[..i]) - multiset{s[i]} == m - multiset(s[..i + 1])
  {
    assert s == s[..i] + [s[i]] + s[i + 1..];
    assert s[..i + 1] == s[..i] + [s[i]];
  }

  lemma NoneOk()
    ensures MaxOk([])
  {
  }

  lemma NoRefs()
    ensures BlockRefs([]) == multiset{}
  {
  }

  lemma MaxOfOne(x: nat)
    ensures MaxOf([x]) == x
  {
    assert [x][..0] == [];
  }

  ghost function BlockedAmong(u: Usage, seen: set<Stream>, acked: nat): set<Stream> {
    set s | s in seen && s in u && LargestOf(u[s]) > acked
  }

  lemma BlockedOneMore(u: Usage, seen: set<Stream>, s: Stream, acked: nat)
    requires s !in seen && s in u
    ensures |BlockedAmong(u, seen + {s}, acked)| == |BlockedAmong(u, seen, acked)| + if LargestOf(u[s]) > acked then 1 else 0
  {
    var before, after := BlockedAmong(u, seen, acked), BlockedAmong(u, seen + {s}, acked);
    assert after == if LargestOf(u[s]) > acked then before + {s} else before;
  }

  /** countBlockedStreams. */
  method CountBlocked(u: Tracker, acked: nat) returns (n: nat)
    requires forall s :: s in u ==> MaxOk(u[s])
    ensures n == |BlockedStreams(Uses(u), acked)|
  {
    hide LargestOf;
    n := 0;
    var todo := u.Keys;
    ghost var seen: set<Stream> := {};
    assert BlockedAmong(Uses(u), seen, acked) == {};
    while todo != {}
      invariant todo + seen == u.Keys && todo !! seen
      invariant n == |BlockedAmong(Uses(u), seen, acked)|
      decreases todo
    {
      var s :| s in todo;
      var m := StreamMax(u[s]);
      BlockedOneMore(Uses(u), seen, s, acked);
      if m > acked {
        n := n + 1;
      }
      todo, seen := todo - {s}, seen + {s};
    }
    assert BlockedStreams(Uses(u), acked) == BlockedAmong(Uses(u), seen, acked);
  }

  lemma UsesRelease(u: Tracker, s: Stream)
    requires s in u && u[s] != []
    ensures Uses(if u[s][1..] == [] then u - {s} else u[s := u[s][1..]]) == Release(Uses(u), s, Uses(u)[s][1..])
    ensures Entries(u[s][1..]) == Uses(u)[s][1..] && u[s][0].entries == Uses(u)[s][0]
  {
    assert Entries(u[s][1..]) == Uses(u)[s][1..];
  }

  lemma UsesEmpty(u: Tracker, s: Stream)
    requires s in u && u[s] == []
    ensures Uses(u - {s}) == Uses(u) - {s} && Uses(u)[s] == []
    ensures AllRefs(Uses(u - {s})) == AllRefs(Uses(u))
  {
    hide AllRefs;
    var v := Uses(u) - {s};
    AllRefsEmpty(v, s);
    assert BlocksOf(v, s) == Entries(u[s]) == Uses(u)[s];
    assert v[s := Uses(u)[s]] == Uses(u);
    assert Uses(u - {s}) == v;
  }

  class Encoder {
    const statics: seq<Pair>
    const noIndex: set<Str>
    const etable: EncoderTable
    var usage: Tracker
    /** The usageCount of each entry, by its base. */
    var useCount: multiset<nat>
    var maxBlockedStreams: nat
    var highestAcknowledged: nat
    var unacknowledgedSize: nat
    var blockedStreams: nat

    ghost predicate Valid()
      reads this, etable, etable.table
    {
      && etable.Valid()
      && |etable.table.dynamic| == LiveCount(etable.table.hist, etable.table.capacity)
      && (forall s :: s in usage ==> MaxOk(usage[s]))
      && useCount == AllRefs(Uses(usage))
      && EncOk(etable.table.capacity, Value())
      && unacknowledgedSize == Unacked(etable.table.hist, highestAcknowledged)
    }

    ghost function Value(): Enc
      reads this, etable, etable.table
    {
      Enc(etable.table.hist, Uses(usage), highestAcknowledged, blockedStreams, maxBlockedStreams)
    }

    constructor (statics: seq<Pair>, noIndex: set<Str>, capacity: nat, limit: nat)
      ensures Valid() && fresh(etable) && fresh(etable.table) && this.statics == statics && this.noIndex == noIndex
      ensures Value() == Enc([], map[], 0, 0, 0) && etable.table.capacity == capacity
      ensures etable.referenceableLimit == Min(limit, capacity)
    {
      this.statics, this.noIndex := statics, noIndex;
      etable := new EncoderTable(capacity, limit);
      usage, useCount := map[], multiset{};
      maxBlockedStreams, highestAcknowledged, unacknowledgedSize, blockedStreams := 0, 0, 0, 0;
      new;
      assert BlockedStreams(Uses(usage), 0) == {};
    }

    method SetMaxBlockedStreams(m: nat)
      requires Valid() && blockedStreams <= m
      modifies `maxBlockedStreams
      ensures Valid() && Value() == old(Value()).(maxBlocked := m)
    {
      maxBlockedStreams := m;
    }

    method SetReferenceableLimit(limit: nat)
      requires Valid()
      modifies etable
      ensures Valid() && Value() == old(Value()) && etable.referenceableLimit == Min(limit, etable.table.capacity)
    {
      etable.SetReferenceableLimit(limit);
    }

    // ---- acknowledgments ----

    /** Neither panic of updateHighestAcknowledged is reachable and every entry it
        accounts for is in the table: that is what the requires and the loop show. */
    method UpdateHighestAcknowledged(increment: nat)
      requires etable.Valid() && increment > 0 && highestAcknowledged + increment <= etable.table.base
      requires Unacked(etable.table.hist, highestAcknowledged) == unacknowledgedSize
      requires etable.table.base - highestAcknowledged <= |etable.table.dynamic|
      modifies `highestAcknowledged, `unacknowledgedSize
      ensures highestAcknowledged == old(highestAcknowledged) + increment
      ensures unacknowledgedSize == Unacked(etable.table.hist, highestAcknowledged)
    {
      var mark := highestAcknowledged + increment;
      ghost var h := etable.table.hist;
      highestAcknowledged := mark;
      for i := 0 to increment
        modifies `unacknowledgedSize
        invariant unacknowledgedSize == Total(h, |h|) - Total(h, old(highestAcknowledged)) - Total(h, mark) + Total(h, mark - i)
      {
        var entry := etable.table.GetDynamic(i, mark);
        TotalMonotone(h, mark, |h|);
        TotalMonotone(h, old(highestAcknowledged), mark - i - 1);
        unacknowledgedSize := unacknowledgedSize - entry.value.Size();
      }
    }

    /** The unacknowledged entries are all in the table. */
    lemma UnackedHeld()
      requires Valid()
      ensures etable.table.base - highestAcknowledged <= |etable.table.dynamic|
    {
      var h, cap := etable.table.hist, etable.table.capacity;
      if highestAcknowledged < |h| {
        AckedEntriesLive(cap, Value(), highestAcknowledged + 1);
        LiveIsNewest(h, cap, highestAcknowledged + 1);
      }
    }

    method AcknowledgeInsert(increment: int) returns (ok: bool)
      requires Valid()
      modifies this
      ensures Valid() && unchanged(`usage) && useCount == old(useCount)
      ensures ok <==> increment > 0 && old(highestAcknowledged) + increment <= etable.table.base
      ensures Value() == if increment > 0 then AckInsert(old(Value()), increment) else old(Value())
    {
      hide BlockedStreams, AllRefs;
      if increment <= 0 {
        return false;
      }
      var mark := highestAcknowledged + increment;
      if mark > etable.table.base {
        return false;
      }
      UnackedHeld();
      AckInsertKeeps(etable.table.capacity, Value(), increment);
      blockedStreams := CountBlocked(usage, mark);
      UpdateHighestAcknowledged(increment);
      return true;
    }

    /** qpackHeaderBlockUsage.ack: no count is taken below zero. */
    method ReleaseEntries(entries: seq<nat>)
      requires multiset(entries) <= useCount
      modifies `useCount
      ensures useCount == old(useCount) - multiset(entries)
    {
      for i := 0 to |entries|
        modifies `useCount
        invariant useCount == old(useCount) - multiset(entries[..i])
      {
        ReleaseOne(old(useCount), entries, i);
        useCount := useCount - multiset{entries[i]};
      }
      assert entries[..|entries|] == entries;
    }

    method AcknowledgeHeader(s: Stream) returns (ok: bool)
      requires Valid()
      modifies this
      ensures Valid() && Value() == AckHeader(old(Value()), s)
      ensures ok <==> s in old(usage) && old(usage)[s] != []
    {
      hide BlockedStreams, AllRefs, Unacked;
      AckHeaderKeeps(etable.table.capacity, Value(), s);
      if s !in usage {
        return false;
      }
      if usage[s] == [] {
        UsesEmpty(usage, s);
        usage := usage - {s};
        return false;
      }
      AcknowledgeOldest(s);
      return true;
    }

    /** What the counters allow when a block is acknowledged. */
    lemma OldestFacts(s: Stream)
      requires Valid() && s in usage && usage[s] != [] && EncOk(etable.table.capacity, AckHeader(Value(), s))
      ensures MaxOf(Uses(usage)[s][0]) <= etable.table.base
      ensures MaxOf(Uses(usage)[s][0]) > highestAcknowledged && LargestOf(Uses(usage)[s][1..]) <= highestAcknowledged ==> blockedStreams > 0
    {
      hide AllRefs, Unacked, BlockedStreams;
      UsesRelease(usage, s);
      assert BlockOk(|etable.table.hist|, Uses(usage)[s][0]);
    }

    /** Release the oldest block of a stream, and raise the mark to its largest
        reference if that unblocks the stream. */
    method AcknowledgeOldest(s: Stream)
      requires Valid() && s in usage && usage[s] != [] && EncOk(etable.table.capacity, AckHeader(Value(), s))
      modifies this
      ensures Valid() && Value() == AckHeader(old(Value()), s)
    {
      hide BlockedStreams, AllRefs, Unacked, EncOk, LargestOf, Release;
      UnackedHeld();
      OldestFacts(s);
      var removed, newLargest := ReleaseOldest(s);
      if removed > highestAcknowledged && newLargest <= highestAcknowledged {
        blockedStreams := blockedStreams - 1;
        UpdateHighestAcknowledged(removed - highestAcknowledged);
      }
    }

    /** qpackUsageTracker.ack: the largest reference of the block that is released,
        and of those that remain. */
    method ReleaseOldest(s: Stream) returns (removed: nat, newLargest: nat)
      requires (forall t :: t in usage ==> MaxOk(usage[t])) && useCount == AllRefs(Uses(usage))
      requires s in usage && usage[s] != []
      modifies `usage, `useCount
      ensures (forall t :: t in usage ==> MaxOk(usage[t])) && useCount == AllRefs(Uses(usage))
      ensures var was := old(Uses(usage));
        && Uses(usage) == Release(was, s, was[s][1..])
        && removed == MaxOf(was[s][0]) && newLargest == LargestOf(was[s][1..])
    {
      hide AllRefs, LargestOf, Release;
      var z, rest := usage[s][0], usage[s][1..];
      UsesRelease(usage, s);
      AllRefsRelease(Uses(usage), s);
      ReleaseEntries(z.entries);
      newLargest := StreamMax(rest);
      removed := z.max;
      usage := if rest == [] then usage - {s} else usage[s := rest];
    }

    method AcknowledgeReset(s: Stream) returns (ok: bool)
      requires Valid()
      modifies this
      ensures Valid() && Value() == AckReset(old(Value()), s)
      ensures ok <==> s in old(usage)
    {
      AckResetKeeps(etable.table.capacity, Value(), s);
      if s !in usage {
        return false;
      }
      Cancel(s);
      return true;
    }

    /** Release every block of a stream. */
    method Cancel(s: Stream)
      requires Valid() && s in usage && EncOk(etable.table.capacity, AckReset(Value(), s))
      modifies this
      ensures Valid() && Value() == AckReset(old(Value()), s)
    {
      hide BlockedStreams, AllRefs, Unacked, LargestOf, EncOk;
      ResetFacts(s);
      var largest := StreamMax(usage[s]);
      ReleaseAll(s);
      if largest > highestAcknowledged {
        blockedStreams := blockedStreams - 1;
      }
    }

    /** qpackUsageTracker.cancel. */
    method ReleaseAll(s: Stream)
      requires s in usage && useCount == AllRefs(Uses(usage))
      modifies `usage, `useCount
      ensures usage == old(usage) - {s} && Uses(usage) == old(Uses(usage)) - {s} && useCount == AllRefs(Uses(usage))
    {
      hide AllRefs, BlockRefs;
      ghost var was := Uses(usage);
      AllRefsOf(was, s);
      NoRefs();
      for i := 0 to |usage[s]|
        modifies `useCount
        invariant useCount == BlockRefs(was[s][i..]) + AllRefs(was - {s}) && was[s] == Entries(usage[s])
      {
        BlockRefsFirst(was[s][i..]);
        assert was[s][i..][1..] == was[s][i + 1..];
        ReleaseEntries(usage[s][i].entries);
      }
      usage := usage - {s};
      assert Uses(usage) == was - {s};
    }

    lemma ResetFacts(s: Stream)
      requires s in usage && EncOk(etable.table.capacity, AckReset(Value(), s))
      ensures LargestOf(Uses(usage)[s]) > highestAcknowledged ==> blockedStreams > 0
    {
    }

    // ---- lookups ----

    /** What the choices of a block depend on beside the table. */
    ghost function Pol(): Policy
      reads etable
    {
      Policy(noIndex, etable.referenceableLimit)
    }

    /** The first match in the static table or among the entries that the block may
        refer to. */
    method LookupReferenceable(p: Pair, maxBase: Option<nat>) returns (full: Found, name: Found)
      requires etable.Valid()
      ensures full == Find(statics, Usable(etable.table.hist, etable.referenceable, maxBase), p, true)
      ensures full == Nowhere ==> name == Find(statics, Usable(etable.table.hist, etable.referenceable, maxBase), p, false)
    {
      hide Find, Newest;
      var t := etable.table;
      var lo: nat, hi: nat := 0, etable.referenceable;
      if maxBase.Some? && maxBase.value < t.base {
        lo := t.base - maxBase.value;
      }
      if hi <= lo {
        lo, hi := 0, 0;
      }
      assert t.dynamic[lo..hi] == Usable(t.hist, etable.referenceable, maxBase);
      full, name := t.Lookup(statics, p, lo, hi);
    }

    /** A complete match among the entries that this block may not refer to yet. */
    method LookupBlocked(p: Pair, maxBase: Option<nat>) returns (found: bool)
      requires etable.Valid()
      ensures found <==> p in Pairs(Barred(etable.table.hist, etable.referenceable, maxBase))
    {
      hide Newest;
      var t := etable.table;
      ghost var barred := Pairs(Barred(t.hist, etable.referenceable, maxBase));
      if maxBase.None? || maxBase.value >= t.base {
        return false;
      }
      var end := Min(t.base - maxBase.value, etable.referenceable);
      assert |barred| == end && forall k :: 0 <= k < end ==> barred[k] == t.dynamic[k].AsPair();
      for k := 0 to end
        invariant forall m :: 0 <= m < k ==> barred[m] != p
      {
        if t.dynamic[k].name == p.name && t.dynamic[k].value == p.value {
          assert barred[k] == p;
          return true;
        }
      }
      return false;
    }

    /** The first complete match among the entries near eviction.  The test on `name`
        keeps it from ever being set: there is no name match without a complete one. */
    method LookupExtra(p: Pair) returns (full: Option<Entry>, name: Option<Entry>)
      requires etable.Valid()
      ensures
        var found := Find([], AtRisk(etable.table.hist, |etable.table.dynamic|, etable.referenceable), p, true);
        if full.None? then found == Nowhere else found == InDynamic(full.value)
      ensures name == full
    {
      hide Newest, First;
      var t := etable.table;
      ghost var es := AtRisk(t.hist, |t.dynamic|, etable.referenceable);
      ghost var n := etable.referenceable;
      assert es == t.dynamic[n..];
      name := None;
      for k := etable.referenceable to |t.dynamic|
        invariant name.None?
        invariant k - n <= First(Pairs(es), p, true)
      {
        var entry := t.dynamic[k];
        assert es[k - n] == entry && Pairs(es)[k - n] == entry.AsPair();
        if entry.name == p.name {
          if entry.value == p.value {
            return Some(entry), Some(entry);
          }
          if name.Some? {
            name := Some(entry);
          }
        }
      }
      return None, name;
    }

    // ---- inserting ----

    /** An entry is inserted exactly if it fits beside everything unacknowledged and
        nothing that would have to go is protected. */
    method InsertEntry(p: Pair, smallest: Option<nat>) returns (inserted: bool)
      requires Valid()
      modifies `unacknowledgedSize, etable, etable.table
      ensures Valid() && etable.table.capacity == old(etable.table.capacity) && etable.referenceableLimit == old(etable.referenceableLimit)
      ensures inserted <==>
        && Size(p) + old(unacknowledgedSize) <= etable.referenceableLimit
        && OnlyEvicts(old(etable.table.hist), etable.table.capacity, p, smallest, InUse(Uses(usage)))
      ensures etable.table.hist == if inserted then old(etable.table.hist) + [p] else old(etable.table.hist)
      ensures etable.referenceable ==
        if Size(p) + old(unacknowledgedSize) <= etable.referenceableLimit
        then RefsTried(old(etable.table.hist), etable.table.capacity, etable.referenceableLimit, old(etable.referenceable), p, smallest, InUse(Uses(usage)))
        else old(etable.referenceable)
      ensures etable.table.base == |etable.table.hist|
    {
      hide Live, LiveCount, Fit, InUse, AllRefs, EncOk, Unacked, MayEvict, OnlyEvicts, Held, Approved, Newest;
      AckedInRange(etable.table.capacity, Value());
      ghost var h, cap := etable.table.hist, etable.table.capacity;
      if Size(p) + unacknowledgedSize > etable.referenceableLimit {
        return false;
      }
      var inUse := set b | b in useCount;
      CountsAreUses(useCount, inUse, Uses(usage));
      MayEvictMeans(h, cap, p, smallest, inUse);
      inserted := etable.Insert(p, smallest, inUse);
      if inserted {
        InsertKeeps(cap, old(Value()), p);
        LiveCountAppend(h, cap, p);
        UnackedAfterInsert(h, highestAcknowledged, p);
        unacknowledgedSize := unacknowledgedSize + Size(p);
      }
    }

    /** The context of this block is this encoder's. */
    ghost predicate InContext(c: Context)
      reads this, etable, etable.table
    {
      && c.statics == statics && c.cap == etable.table.capacity && c.acked == highestAcknowledged
      && c.inUse == InUse(Uses(usage))
    }

    /** What holds between fields: the table is as the writer has left it. */
    ghost predicate Between(c: Context, w: Work, st: State)
      reads this, etable, etable.table
    {
      && Valid() && InContext(c) && w.hist == etable.table.hist && Reflects(st, c, w)
    }

    lemma BetweenFacts(c: Context, w: Work, st: State)
      requires Between(c, w, st)
      ensures c.acked <= |w.hist| && etable.referenceable <= LiveCount(w.hist, c.cap) && Pol().limit <= c.cap
      ensures etable.Valid() && |etable.table.dynamic| == LiveCount(w.hist, c.cap)
      ensures unacknowledgedSize == Unacked(w.hist, c.acked)
      ensures st.smallest == w.smallest && st.maxBase == c.maxBase
    {
      hide AllRefs, BlockedStreams;
    }

    /** writeInsert: insert the field, naming an entry if one has its name, and refer
        to it if the block may; otherwise the name match recorded before stays. */
    method WriteInsert(f: Field, st: State, name: Ref, ghost c: Context, ghost w: Work)
      returns (st': State, us: seq<Instr>, ghost p: Plan)
      requires Between(c, w, st) && DynBase(name) <= |w.hist|
      modifies `unacknowledgedSize, etable, etable.table
      ensures etable.referenceableLimit == old(etable.referenceableLimit) && c.acked <= |w.hist|
      ensures p == if Accepts(c, old(Pol()), w, f.AsPair()) then DoInsert(name) else UseName(name)
      ensures Between(c, Apply(c, w, f, p), st') && w.instrs + us == Apply(c, w, f, p).instrs
      ensures etable.referenceable == Retried(c, old(Pol()), w, old(etable.referenceable), f.AsPair())
    {
      hide Valid, Live, Unacked, OnlyEvicts, Reflects, RefsTried, LiveCount;
      BetweenFacts(c, w, st);
      var pair := f.AsPair();
      var inserted := InsertEntry(pair, st.smallest);
      if !inserted {
        p := UseName(name);
        RecordedName(st, c, w, name);
        return RecordName(st, name), [], p;
      }
      p := DoInsert(name);
      var base := etable.table.base;
      var u := match name
        case NoRef => InsertLiteral(f.name, f.value)
        case Static(i) => InsertNameStatic(i, f.value)
        case Dynamic(b) => InsertNameDynamic(base - b - 1, f.value);
      ghost var e := Emit(w, pair, InsertInstr(w.hist, pair, name));
      Emitted(st, c, w, pair, InsertInstr(w.hist, pair, name));
      us := [u];
      if st.maxBase.None? || base <= st.maxBase.value {
        RecordedFull(st, c, e, Dynamic(base), name);
        st' := RecordFull(st, Dynamic(base), name);
      } else {
        RecordedName(st, c, e, name);
        st' := RecordName(st, name);
      }
    }

    /** writeDuplicate. */
    method WriteDuplicate(f: Field, st: State, d: nat, ghost c: Context, ghost w: Work)
      returns (st': State, us: seq<Instr>, ghost p: Plan)
      requires Between(c, w, st) && d <= |w.hist|
      modifies `unacknowledgedSize, etable, etable.table
      ensures etable.referenceableLimit == old(etable.referenceableLimit) && c.acked <= |w.hist|
      ensures p == if Accepts(c, old(Pol()), w, f.AsPair()) then DoDuplicate(d) else UseLiteral
      ensures Between(c, Apply(c, w, f, p), st') && w.instrs + us == Apply(c, w, f, p).instrs
      ensures etable.referenceable == Retried(c, old(Pol()), w, old(etable.referenceable), f.AsPair())
    {
      hide Valid, Live, Unacked, OnlyEvicts, Reflects, RefsTried, LiveCount;
      BetweenFacts(c, w, st);
      var pair := f.AsPair();
      var inserted := InsertEntry(pair, st.smallest);
      if !inserted {
        p := UseLiteral;
        RecordedName(st, c, w, NoRef);
        return RecordName(st, NoRef), [], p;
      }
      p := DoDuplicate(d);
      var base := etable.table.base;
      ghost var e := Emit(w, pair, Duplicate(|w.hist| - d));
      Emitted(st, c, w, pair, Duplicate(|w.hist| - d));
      us := [Duplicate(base - d - 1)];
      if st.maxBase.None? || base <= st.maxBase.value {
        RecordedFull(st, c, e, Dynamic(base), NoRef);
        st' := RecordFull(st, Dynamic(base), NoRef);
      } else {
        RecordedName(st, c, e, NoRef);
        st' := RecordName(st, NoRef);
      }
    }

    /** What writeTableChanges does for one field: the decision the policy names. */
    method WriteField(f: Field, st: State, ghost c: Context, ghost w: Work)
      returns (st': State, us: seq<Instr>, ghost p: Plan)
      requires Between(c, w, st)
      modifies `unacknowledgedSize, etable, etable.table
      ensures etable.referenceableLimit == old(etable.referenceableLimit)
      ensures Taken(c, old(Pol()), w, old(etable.referenceable), etable.referenceable, f, p)
      ensures PlanOk(c, w, f, p) && PlanRef(p) <= |w.hist|
      ensures Between(c, Apply(c, w, f, p), st') && w.instrs + us == Apply(c, w, f, p).instrs
    {
      hide Valid, Live, Unacked, OnlyEvicts, Reflects, PlanOk, RefsTried, LiveCount, Find, Usable, Barred, AtRisk, Held;
      BetweenFacts(c, w, st);
      ghost var refs := etable.referenceable;
      DecideOk(c, Pol(), w, refs, f);
      PlanRefInRange(c, w, f, Decide(c, Pol(), w, refs, f));
      us, p := [], UseLiteral;
      RecordedName(st, c, w, NoRef);
      st' := RecordName(st, NoRef);
      if f.sensitive {
        return;
      }
      var full, name := LookupReferenceable(f.AsPair(), st.maxBase);
      if full != Nowhere {
        p := UseFull(RefOf(full));
        RecordedFull(st, c, w, RefOf(full), NoRef);
        return RecordFull(st, RefOf(full), NoRef), [], p;
      }
      var blocked := LookupBlocked(f.AsPair(), st.maxBase);
      if blocked {
        return;
      }
      var duplicate, insertName := LookupExtra(f.AsPair());
      if duplicate.Some? {
        if duplicate.value.base <= highestAcknowledged {
          st', us, p := WriteDuplicate(f, st, duplicate.value.base, c, w);
        }
        return;
      }
      NameInRange(c, w.hist, refs, f.AsPair());
      if Size(f.AsPair()) <= etable.table.capacity && f.name !in noIndex {
        st', us, p := WriteInsert(f, st, RefOf(name), c, w);
      } else {
        p := UseName(RefOf(name));
        RecordedName(st, c, w, RefOf(name));
        st' := RecordName(st, RefOf(name));
      }
    }

    // ---- a whole block ----

    /** writeTableChanges, up to recording the block. */
    method WriteTableChanges(s: Stream, fs: seq<Field>)
      returns (st: State, us: seq<Instr>, wasBlocked: bool, ghost ps: seq<Plan>, ghost rs: seq<nat>)
      requires Valid()
      modifies `unacknowledgedSize, etable, etable.table
      ensures Valid() && wasBlocked == WasBlocked(old(Value()), s) && etable.table.capacity == old(etable.table.capacity)
      ensures
        var c, h := ContextFor(statics, etable.table.capacity, old(Value()), s), old(etable.table.hist);
        && |ps| == |fs| && |rs| == |fs| + 1 && rs[0] == old(etable.referenceable)
        && Chosen(c, old(Pol()), h, fs, ps, rs, |fs|) && Planned(c, h, fs, ps, |fs|)
        && var w := After(c, h, fs, ps, |fs|);
        && Between(c, w, st) && us == w.instrs
    {
      hide Valid, BlockedStreams, InUse, AllRefs, LargestOf, EncOk, Reflects, PlanOk, Apply, MaxOk, Taken;
      wasBlocked := IsBlocked(s);
      var maxBase := if wasBlocked || blockedStreams < maxBlockedStreams then None else Some(highestAcknowledged);
      ghost var h, pol := etable.table.hist, Pol();
      ghost var c := ContextFor(statics, etable.table.capacity, Value(), s);
      st, us, ps, rs := State([], [], 0, None, maxBase), [], [], [etable.referenceable];
      StartReflects(c, h);
      for i := 0 to |fs|
        invariant |ps| == i && |rs| == i + 1 && rs[0] == old(etable.referenceable) && rs[i] == etable.referenceable && Pol() == pol
        invariant Chosen(c, pol, h, fs, ps, rs, i) && Planned(c, h, fs, ps, i)
        invariant var w := After(c, h, fs, ps, i); Between(c, w, st) && us == w.instrs
      {
        ghost var w := After(c, h, fs, ps, i);
        var more;
        ghost var p;
        st, more, p := WriteField(fs[i], st, c, w);
        PlannedMore(c, h, fs, ps, p, i);
        ChosenMore(c, pol, h, fs, ps, rs, p, etable.referenceable, i);
        us, ps, rs := us + more, ps + [p], rs + [etable.referenceable];
      }
    }

    /** Whether the stream is blocked already. */
    method IsBlocked(s: Stream) returns (blocked: bool)
      requires Valid()
      ensures blocked == WasBlocked(Value(), s)
    {
      hide BlockedStreams, InUse, AllRefs, LargestOf, EncOk, Unacked, MaxOk, LiveCount;
      var su := if s in usage then usage[s] else [];
      NoneOk();
      var largest := StreamMax(su);
      assert Entries(su) == BlocksOf(Uses(usage), s);
      return largest > highestAcknowledged;
    }

    /** writeHeaderBlock: the lines, and what they refer to. */
    method EmitLines(fs: seq<Field>, st: State, ghost cs: seq<Choice>) returns (lines: seq<Line>, use: BlockUse)
      requires |st.matches| == |st.nameMatches| == |cs| == |fs|
      requires forall i :: 0 <= i < |cs| ==> cs[i] == ChoiceOf(st.matches[i], st.nameMatches[i])
      modifies `useCount
      ensures lines == LinesFor(st.largest, fs, cs)
      ensures use.entries == Refs(cs) && use.max == MaxOf(Refs(cs))
      ensures useCount == old(useCount) + multiset(Refs(cs))
    {
      hide Refs, MaxOf, LineFor;
      lines, use := [], BlockUse([], 0);
      NothingReferred(cs);
      for i := 0 to |fs|
        modifies `useCount
        invariant |lines| == i && forall j :: 0 <= j < i ==> lines[j] == LineFor(st.largest, fs[j], cs[j])
        invariant use.entries == Refs(cs[..i]) && use.max == MaxOf(use.entries)
        invariant useCount == old(useCount) + multiset(use.entries)
      {
        RefsNext(cs, i);
        lines := lines + [LineFor(st.largest, fs[i], ChoiceOf(st.matches[i], st.nameMatches[i]))];
        var e := if st.matches[i] != NoRef then st.matches[i] else st.nameMatches[i];
        if e.Dynamic? {
          MaxOfMore(use.entries, e.base);
          useCount := useCount + multiset{e.base};
          use := BlockUse(use.entries + [e.base], Max(use.max, e.base));
        }
      }
      assert cs[..|fs|] == cs;
    }

    /** WriteHeaderBlock: the updates and the block it writes, and the record it keeps. */
    method WriteHeaderBlock(s: Stream, raw: seq<Field>)
      returns (us: seq<Instr>, block: Block, ghost ps: seq<Plan>, ghost rs: seq<nat>)
      requires Valid()
      modifies this, etable, etable.table
      ensures Valid() && etable.table.capacity == old(etable.table.capacity)
      ensures
        var c, h, fs := ContextFor(statics, etable.table.capacity, old(Value()), s), old(etable.table.hist), LowerAll(raw);
        && |ps| == |fs| && |rs| == |fs| + 1 && rs[0] == old(etable.referenceable)
        && Chosen(c, old(Pol()), h, fs, ps, rs, |fs|) && Planned(c, h, fs, ps, |fs|)
        && var w := After(c, h, fs, ps, |fs|);
        && |w.choices| == |fs| && (w.largest > 0 ==> etable.table.capacity >= ENTRY_OVERHEAD)
        && us == w.instrs && Value() == Record(old(Value()), s, w)
        && block == MakeSent(etable.table.capacity, fs, w).block
    {
      hide BlockedStreams, InUse, AllRefs, LargestOf, EncOk, Unacked, LiveCount, Refs, MaxOf, MaxOk, Planned, After, Chosen, Record;
      var fs := LowerAll(raw);
      ghost var e := Value();
      var st, wasBlocked;
      st, us, wasBlocked, ps, rs := WriteTableChanges(s, fs);
      ghost var c := ContextFor(statics, etable.table.capacity, e, s);
      ghost var w := After(c, e.hist, fs, ps, |fs|);
      WholeBlock(c, e, s, fs, ps);
      var lines, use := EmitLines(fs, st, w.choices);
      block := Block(Prefix(EncodeLargest(etable.table.capacity, st.largest), false, 0), lines);
      RecordBlock(s, use, wasBlocked, w);
      RecordSame(e, s, w);
    }

    /** Keep the block as outstanding, if it refers to anything, and count the stream
        if it is blocked now. */
    method RecordBlock(s: Stream, use: BlockUse, wasBlocked: bool, ghost w: Work)
      requires use.entries == Refs(w.choices) && use.max == w.largest == MaxOf(use.entries)
      requires forall b :: b in use.entries ==> 1 <= b
      requires (forall t :: t in usage ==> MaxOk(usage[t])) && useCount == AllRefs(Uses(usage)) + multiset(use.entries)
      requires wasBlocked == WasBlocked(Value(), s) && w.hist == etable.table.hist
      modifies `usage, `blockedStreams
      ensures (forall t :: t in usage ==> MaxOk(usage[t])) && useCount == AllRefs(Uses(usage))
      ensures Value() == Record(old(Value()), s, w)
    {
      hide AllRefs, Refs, MaxOf, LargestOf, MaxOk;
      UsesRecord(usage, s, use, w);
      if !wasBlocked && use.max > highestAcknowledged {
        blockedStreams := blockedStreams + 1;
      }
      var su := if s in usage then usage[s] else [];
      usage := usage[s := if use.max > 0 then su + [use] else su];
    }
  }

  /** One more choice. */
  lemma RefsNext(cs: seq<Choice>, i: nat)
    requires i < |cs|
    ensures Refs(cs[..i + 1]) == Refs(cs[..i]) + ChoiceRefs(cs[i])
    ensures multiset(Refs(cs[..i + 1])) == multiset(Refs(cs[..i])) + multiset(ChoiceRefs(cs[i]))
  {
    assert cs[..i + 1] == cs[..i] + [cs[i]];
    RefsAppend(cs[..i], cs[i]);
  }

  lemma MaxOfMore(s: seq<nat>, b: nat)
    ensures MaxOf(s + [b]) == Max(MaxOf(s), b)
  {
    MaxOfAppend(s, [b]);
    MaxOfOne(b);
  }

  lemma NothingReferred(cs: seq<Choice>)
    ensures Refs(cs[..0]) == [] && MaxOf([]) == 0
  {
  }

  lemma StartReflects(c: Context, h: Hist)
    ensures Reflects(State([], [], 0, None, c.maxBase), c, Start(h))
  {
  }

  /** What is known once all fields are planned. */
  lemma WholeBlock(c: Context, e: Enc, s: Stream, fs: seq<Field>, ps: seq<Plan>)
    requires EncOk(c.cap, e) && c == ContextFor(c.statics, c.cap, e, s)
    requires |ps| == |fs| && Planned(c, e.hist, fs, ps, |fs|)
    ensures
      var w := After(c, e.hist, fs, ps, |fs|);
      && |w.choices| == |fs| && w.largest == MaxOf(Refs(w.choices))
      && (w.largest > 0 ==> c.cap >= ENTRY_OVERHEAD)
      && (forall b :: b in Refs(w.choices) ==> 1 <= b)
      && EncOk(c.cap, Record(e, s, w))
  {
    hide Planned, After;
    BlockWritten(c, e.hist, fs, ps, |fs|);
    PlannedSentOk(c, e.hist, fs, After(c, e.hist, fs, ps, |fs|));
    RecordKeeps(c.statics, c.cap, e, s, fs, After(c, e.hist, fs, ps, |fs|));
  }

  /** Recording the block in the tracker is recording it in the encoder's value. */
  lemma UsesRecord(u: Tracker, s: Stream, use: BlockUse, w: Work)
    requires use.entries == Refs(w.choices) && use.max == w.largest == MaxOf(use.entries)
    requires forall b :: b in use.entries ==> 1 <= b
    requires forall t :: t in u ==> MaxOk(u[t])
    ensures
      var su := if s in u then u[s] else [];
      var v := u[s := if w.largest > 0 then su + [use] else su];
      && Uses(v) == Uses(u)[s := BlocksOf(Uses(u), s) + if w.largest > 0 then [Refs(w.choices)] else []]
      && (forall t :: t in v ==> MaxOk(v[t]))
      && AllRefs(Uses(v)) == AllRefs(Uses(u)) + multiset(use.entries)
  {
    hide AllRefs, Refs, MaxOf;
    var su := if s in u then u[s] else [];
    var bs := BlocksOf(Uses(u), s);
    assert Entries(su) == bs;
    if w.largest > 0 {
      assert Entries(su + [use]) == bs + [use.entries];
      AllRefsAdd(Uses(u), s, use.entries);
      assert Uses(u[s := su + [use]]) == Uses(u)[s := bs + [use.entries]];
    } else {
      assert use.entries == [];
      AllRefsEmpty(Uses(u), s);
      assert bs + [] == bs;
      assert Uses(u[s := su]) == Uses(u)[s := bs];
    }
  }

  lemma NameInRange(c: Context, h: Hist, refs: nat, p: Pair)
    requires refs <= LiveCount(h, c.cap)
    ensures DynBase(RefOf(Find(c.statics, Usable(h, refs, c.maxBase), p, false))) <= |h|
  {
    hide Find, Usable;
    var name := Find(c.statics, Usable(h, refs, c.maxBase), p, false);
    if name.InDynamic? {
      UsableLive(c, h, refs, name.entry);
    }
  }

  lemma Emitted(st: State, c: Context, w: Work, p: Pair, u: Instr)
    requires Reflects(st, c, w)
    ensures Reflects(st, c, Emit(w, p, u))
  {
  }

  /** The use counts that are not zero are those of what is in use. */
  lemma CountsAreUses(counts: multiset<nat>, inUse: set<nat>, u: Usage)
    requires counts == AllRefs(u) && inUse == set b | b in counts
    ensures inUse == InUse(u)
  {
    hide AllRefs, InUse;
    forall b: nat ensures b in inUse <==> b in InUse(u) {
      InUseCounts(u, b);
    }
  }

  /** The eviction check on the table is the one on what is evicted. */
  lemma MayEvictMeans(h: Hist, cap: nat, p: Pair, smallest: Option<nat>, inUse: set<nat>)
    requires Size(p) <= cap
    ensures MayEvict(h, LiveCount(h, cap), cap - Size(p), Guard(smallest, inUse)) <==> OnlyEvicts(h, cap, p, smallest, inUse)
  {
    hide Live, Fit;
    var n := LiveCount(h, cap);
    var guard := Guard(smallest, inUse);
    if MayEvict(h, n, cap - Size(p), guard) {
      forall b: nat | Live(h, cap, b) && !Live(h + [p], cap, b)
        ensures (smallest.None? || b < smallest.value) && b !in inUse
      {
        EvictedRange(h, cap, p, b);
        assert guard.CanEvict(b);
      }
    }
    if OnlyEvicts(h, cap, p, smallest, inUse) {
      forall b: nat | |h| - n < b <= |h| - Fit(h, n, cap - Size(p)) ensures guard.CanEvict(b) {
        EvictedRange(h, cap, p, b);
      }
    }
  }

  lemma RecordSame(e: Enc, s: Stream, w: Work)
    ensures Record(e.(hist := w.hist), s, w) == Record(e, s, w)
  {
  }

  lemma AckedInRange(cap: nat, e: Enc)
    requires EncOk(cap, e)
    ensures e.acked <= |e.hist|
  {
  }

  /** Inserting what fits beside the unacknowledged entries keeps the encoder in order. */
  lemma InsertKeeps(cap: nat, e: Enc, p: Pair)
    requires EncOk(cap, e) && Size(p) + Unacked(e.hist, e.acked) <= cap
    ensures EncOk(cap, e.(hist := e.hist + [p]))
  {
    hide BlockedStreams;
    UnackedAfterInsert(e.hist, e.acked, p);
    forall s, j | s in e.usage && 0 <= j < |e.usage[s]| ensures BlockOk(|e.hist| + 1, e.usage[s][j]) {
      assert BlockOk(|e.hist|, e.usage[s][j]);
    }
  }
}
