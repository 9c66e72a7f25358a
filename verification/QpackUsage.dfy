/** The encoder's record of what is outstanding (hc/qpacktable.go:146-265) and how
    acknowledgments change it (hc/qpackencoder.go:544-636). */
module QpackUsage {
  import opened Headers
  import opened History
  import opened QpackWriter

  type Stream = nat

  /** For each stream the outstanding blocks, oldest first; a block is the list of
      bases it refers to. */
  type Usage = map<Stream, seq<seq<nat>>>

  function BlocksOf(u: Usage, s: Stream): seq<seq<nat>> {
    if s in u then u[s] else []
  }

  /** The largest reference of each block. */
  function Tops(bs: seq<seq<nat>>): seq<nat> {
    seq(|bs|, i requires 0 <= i < |bs| => MaxOf(bs[i]))
  }

  /** The largest reference over the blocks of one stream. */
  function LargestOf(bs: seq<seq<nat>>): nat {
    MaxOf(Tops(bs))
  }

  function BlockedStreams(u: Usage, acked: nat): set<Stream> {
    set s | s in u && LargestOf(u[s]) > acked
  }

  ghost function InUse(u: Usage): set<nat> {
    set s, j, b | s in u && 0 <= j < |u[s]| && b in u[s][j] :: b
  }

  /** The encoder, apart from its configuration.  The counters that the source keeps
      beside these (sizes, use counts) are functions of them. */
  datatype Enc = Enc(hist: Hist, usage: Usage, acked: nat, blocked: int, maxBlocked: nat)

  function Release(u: Usage, s: Stream, rest: seq<seq<nat>>): Usage {
    if rest == [] then u - {s} else u[s := rest]
  }

  /** AcknowledgeHeader. */
  function AckHeader(e: Enc, s: Stream): Enc {
    if s !in e.usage then e
    else if e.usage[s] == [] then e.(usage := e.usage - {s})
    else
      var removed := MaxOf(e.usage[s][0]);
      var rest := e.usage[s][1..];
      var u := Release(e.usage, s, rest);
      if removed > e.acked && LargestOf(rest) <= e.acked then
        e.(usage := u, blocked := e.blocked - 1, acked := removed)
      else
        e.(usage := u)
  }

  /** AcknowledgeInsert: an increment beyond what was sent is rejected. */
  function AckInsert(e: Enc, v: nat): Enc {
    if v == 0 || e.acked + v > |e.hist| then e
    else e.(blocked := |BlockedStreams(e.usage, e.acked + v)|, acked := e.acked + v)
  }

  /** AcknowledgeReset. */
  function AckReset(e: Enc, s: Stream): Enc {
    if s !in e.usage then e
    else e.(usage := e.usage - {s}, blocked := if LargestOf(e.usage[s]) > e.acked then e.blocked - 1 else e.blocked)
  }

  predicate WasBlocked(e: Enc, s: Stream) {
    LargestOf(BlocksOf(e.usage, s)) > e.acked
  }

  /** setupUsage: a stream that may not become blocked is held to acknowledged entries. */
  ghost function ContextFor(statics: seq<Pair>, cap: nat, e: Enc, s: Stream): Context {
    Context(statics, cap, e.acked,
            if WasBlocked(e, s) || e.blocked < e.maxBlocked then None else Some(e.acked),
            InUse(e.usage))
  }

  /** The encoder once a block with writer state `w` has been recorded for `s`. */
  function Record(e: Enc, s: Stream, w: Work): Enc {
    e.(hist := w.hist,
       usage := e.usage[s := BlocksOf(e.usage, s) + if w.largest > 0 then [Refs(w.choices)] else []],
       blocked := if !WasBlocked(e, s) && w.largest > e.acked then e.blocked + 1 else e.blocked)
  }

  predicate BlockOk(n: nat, refs: seq<nat>) {
    refs != [] && forall b :: b in refs ==> 1 <= b <= n
  }

  predicate UsageOk(u: Usage, n: nat) {
    forall s, j :: s in u && 0 <= j < |u[s]| ==> BlockOk(n, u[s][j])
  }

  /** What every reachable encoder satisfies: all unacknowledged entries fit in the
      table, so none of them has been evicted; outstanding blocks refer to inserted
      entries; and `blocked` bounds the streams that may be blocked. */
  predicate EncOk(cap: nat, e: Enc) {
    && e.acked <= |e.hist| && Unacked(e.hist, e.acked) <= cap
    && (e.hist != [] ==> ENTRY_OVERHEAD <= cap)
    && UsageOk(e.usage, |e.hist|)
    && |BlockedStreams(e.usage, e.acked)| <= e.blocked <= e.maxBlocked
  }

  // ---- facts about the largest reference of a stream ----

  lemma TopsAppend(a: seq<seq<nat>>, b: seq<seq<nat>>)
    ensures Tops(a + b) == Tops(a) + Tops(b)
    ensures LargestOf(a + b) == Max(LargestOf(a), LargestOf(b))
  {
    assert Tops(a + b) == Tops(a) + Tops(b);
    MaxOfAppend(Tops(a), Tops(b));
  }

  lemma LargestOfOne(refs: seq<nat>)
    ensures LargestOf([refs]) == MaxOf(refs)
  {
    assert Tops([refs]) == [MaxOf(refs)];
  }

  lemma LargestOfFirst(bs: seq<seq<nat>>)
    requires bs != []
    ensures LargestOf(bs) == Max(MaxOf(bs[0]), LargestOf(bs[1..]))
  {
    assert bs == [bs[0]] + bs[1..];
    TopsAppend([bs[0]], bs[1..]);
    LargestOfOne(bs[0]);
  }

  lemma SubsetSize<T>(a: set<T>, b: set<T>)
    requires a <= b
    ensures |a| <= |b|
  {
    assert b == a + (b - a);
  }

  /** Raising the mark can only unblock streams. */
  lemma BlockedAntitone(u: Usage, a: nat, a': nat)
    requires a <= a'
    ensures |BlockedStreams(u, a')| <= |BlockedStreams(u, a)|
  {
    assert BlockedStreams(u, a') <= BlockedStreams(u, a);
    SubsetSize(BlockedStreams(u, a'), BlockedStreams(u, a));
  }

  // ---- every operation preserves EncOk ----

  /** An acknowledgment of inserts never fails to find an entry to account for. */
  lemma AckedEntriesLive(cap: nat, e: Enc, b: nat)
    requires EncOk(cap, e) && e.acked < b <= |e.hist|
    ensures Live(e.hist, cap, b)
  {
    NewestMonotone(e.hist, |e.hist| - b + 1, |e.hist| - e.acked);
  }

  lemma RaiseAcked(h: Hist, cap: nat, a: nat, a': nat)
    requires a <= a' <= |h| && Unacked(h, a) <= cap
    ensures Unacked(h, a') <= cap
  {
    NewestMonotone(h, |h| - a', |h| - a);
  }

  lemma AckInsertKeeps(cap: nat, e: Enc, v: nat)
    requires EncOk(cap, e)
    ensures EncOk(cap, AckInsert(e, v))
  {
    hide Unacked, BlockedStreams, UsageOk;
    if v > 0 && e.acked + v <= |e.hist| {
      RaiseAcked(e.hist, cap, e.acked, e.acked + v);
      BlockedAntitone(e.usage, e.acked, e.acked + v);
    }
  }

  lemma AckResetKeeps(cap: nat, e: Enc, s: Stream)
    requires EncOk(cap, e)
    ensures EncOk(cap, AckReset(e, s))
  {
    if s in e.usage {
      var u := e.usage - {s};
      assert BlockedStreams(u, e.acked) == BlockedStreams(e.usage, e.acked) - {s};
    }
  }

  lemma ReleaseOk(u: Usage, n: nat, s: Stream)
    requires UsageOk(u, n) && s in u && u[s] != []
    ensures UsageOk(Release(u, s, u[s][1..]), n)
  {
    var v := Release(u, s, u[s][1..]);
    forall t, j | t in v && 0 <= j < |v[t]|
      ensures BlockOk(n, v[t][j])
    {
      if t == s {
        assert v[t][j] == u[s][j + 1];
      }
    }
  }

  /** Acknowledging a block: the counter goes down only with a stream that was
      counted, and stays an upper bound when the mark unblocks other streams. */
  lemma AckHeaderKeeps(cap: nat, e: Enc, s: Stream)
    requires EncOk(cap, e)
    ensures EncOk(cap, AckHeader(e, s))
  {
    if s in e.usage && e.usage[s] == [] {
      assert BlockedStreams(e.usage - {s}, e.acked) <= BlockedStreams(e.usage, e.acked);
      SubsetSize(BlockedStreams(e.usage - {s}, e.acked), BlockedStreams(e.usage, e.acked));
    } else if s in e.usage {
      var removed := MaxOf(e.usage[s][0]);
      var rest := e.usage[s][1..];
      var u := Release(e.usage, s, rest);
      ReleaseOk(e.usage, |e.hist|, s);
      LargestOfFirst(e.usage[s]);
      assert BlockOk(|e.hist|, e.usage[s][0]);
      var before := BlockedStreams(e.usage, e.acked);
      if removed > e.acked && LargestOf(rest) <= e.acked {
        RaiseAcked(e.hist, cap, e.acked, removed);
        assert s in before;
        SubsetSize(BlockedStreams(u, removed), before - {s});
      } else {
        SubsetSize(BlockedStreams(u, e.acked), before);
      }
    }
  }

  lemma RecordUsageOk(e: Enc, s: Stream, w: Work)
    requires UsageOk(e.usage, |e.hist|) && e.hist <= w.hist
    requires w.largest == MaxOf(Refs(w.choices))
    requires forall b :: b in Refs(w.choices) ==> 1 <= b <= |w.hist|
    ensures UsageOk(Record(e, s, w).usage, |w.hist|)
  {
    var prior := BlocksOf(e.usage, s);
    var u := Record(e, s, w).usage;
    forall t, j | t in u && 0 <= j < |u[t]|
      ensures BlockOk(|w.hist|, u[t][j])
    {
      if t == s && j >= |prior| {
        assert u[t][j] == Refs(w.choices);
      } else {
        assert BlockOk(|e.hist|, e.usage[t][j]);
      }
    }
  }

  lemma RecordLargest(e: Enc, s: Stream, w: Work)
    requires w.largest == MaxOf(Refs(w.choices))
    ensures LargestOf(Record(e, s, w).usage[s]) == Max(LargestOf(BlocksOf(e.usage, s)), w.largest)
  {
    var prior := BlocksOf(e.usage, s);
    if w.largest > 0 {
      TopsAppend(prior, [Refs(w.choices)]);
      LargestOfOne(Refs(w.choices));
    } else {
      assert prior + [] == prior;
    }
  }

  /** Recording a block adds at most one blocked stream, and only where the limit allows. */
  lemma RecordBlocked(e: Enc, s: Stream, w: Work)
    requires w.largest == MaxOf(Refs(w.choices))
    requires |BlockedStreams(e.usage, e.acked)| <= e.blocked <= e.maxBlocked
    requires WasBlocked(e, s) || e.blocked < e.maxBlocked || w.largest <= e.acked
    ensures
      var e' := Record(e, s, w);
      |BlockedStreams(e'.usage, e.acked)| <= e'.blocked <= e.maxBlocked
  {
    RecordLargest(e, s, w);
    var before := BlockedStreams(e.usage, e.acked);
    var after := BlockedStreams(Record(e, s, w).usage, e.acked);
    assert after <= before + {s};
    if !WasBlocked(e, s) && w.largest > e.acked {
      SubsetSize(after, before + {s});
    } else {
      assert s in after ==> s in before;
      SubsetSize(after, before);
    }
  }

  lemma RecordKeeps(statics: seq<Pair>, cap: nat, e: Enc, s: Stream, fs: seq<Field>, w: Work)
    requires EncOk(cap, e)
    requires WorkOk(ContextFor(statics, cap, e, s), e.hist, fs, w)
    ensures EncOk(cap, Record(e, s, w))
  {
    RecordUsageOk(e, s, w);
    assert w.largest > 0 ==> Allowed(ContextFor(statics, cap, e, s), w.largest);
    RecordBlocked(e, s, w);
  }
}
