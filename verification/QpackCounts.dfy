/** Use counts: how often outstanding blocks refer to each entry. */
module QpackCounts {
  import opened QpackUsage

  function BlockRefs(bs: seq<seq<nat>>): multiset<nat> {
    if bs == [] then multiset{} else BlockRefs(bs[..|bs| - 1]) + multiset(bs[|bs| - 1])
  }

  /** Every reference of every outstanding block. */
  ghost function AllRefs(u: Usage): multiset<nat>
    decreases |u|
  {
    if u == map[] then multiset{}
    else
      var s :| s in u;
      assert |u - {s}| < |u| by { Fewer(u, s); }
      BlockRefs(u[s]) + AllRefs(u - {s})
  }

  lemma Fewer(u: Usage, s: Stream)
    requires s in u
    ensures |u - {s}| == |u| - 1
  {
    assert (u - {s}).Keys == u.Keys - {s};
  }

  /** It does not matter which stream is counted first. */
  lemma AllRefsOf(u: Usage, s: Stream)
    requires s in u
    ensures AllRefs(u) == BlockRefs(u[s]) + AllRefs(u - {s})
    decreases |u|
  {
    var t :| t in u && AllRefs(u) == BlockRefs(u[t]) + AllRefs(u - {t});
    if t != s {
      Fewer(u, t);
      Fewer(u, s);
      AllRefsOf(u - {t}, s);
      AllRefsOf(u - {s}, t);
      assert u - {t} - {s} == u - {s} - {t};
    }
  }

  lemma {:induction false} BlockRefsIn(bs: seq<seq<nat>>, b: nat)
    ensures b in BlockRefs(bs) <==> exists j :: 0 <= j < |bs| && b in bs[j]
  {
    if bs != [] {
      var n := |bs| - 1;
      BlockRefsIn(bs[..n], b);
      if b in BlockRefs(bs[..n]) {
        var j :| 0 <= j < n && b in bs[..n][j];
        assert b in bs[j];
      }
      if exists j :: 0 <= j < |bs| && b in bs[j] {
        var j :| 0 <= j < |bs| && b in bs[j];
        if j < n {
          assert b in bs[..n][j];
        }
      }
    }
  }

  /** An entry is in use exactly if its count is not zero. */
  lemma {:induction false} InUseCounts(u: Usage, b: nat)
    ensures b in AllRefs(u) <==> b in InUse(u)
    decreases |u|
  {
    if u != map[] {
      var s :| s in u && AllRefs(u) == BlockRefs(u[s]) + AllRefs(u - {s});
      Fewer(u, s);
      InUseCounts(u - {s}, b);
      BlockRefsIn(u[s], b);
      var v := u - {s};
      if b in InUse(u) {
        var t, j :| t in u && 0 <= j < |u[t]| && b in u[t][j];
        if t != s {
          assert t in v && b in v[t][j];
        }
      }
      if b in InUse(v) {
        var t, j :| t in v && 0 <= j < |v[t]| && b in v[t][j];
        assert b in u[t][j];
      }
    }
  }

  /** Recording a block raises the counts of exactly what it refers to. */
  lemma AllRefsAdd(u: Usage, s: Stream, refs: seq<nat>)
    ensures AllRefs(u[s := BlocksOf(u, s) + [refs]]) == AllRefs(u) + multiset(refs)
  {
    hide AllRefs;
    var bs := BlocksOf(u, s);
    var v := u[s := bs + [refs]];
    AllRefsOf(v, s);
    assert (bs + [refs])[..|bs|] == bs;
    assert v - {s} == u - {s};
    if s in u {
      AllRefsOf(u, s);
    } else {
      assert u - {s} == u;
    }
  }

  /** A stream without blocks adds nothing. */
  lemma AllRefsEmpty(u: Usage, s: Stream)
    ensures AllRefs(u[s := BlocksOf(u, s)]) == AllRefs(u)
  {
    hide AllRefs;
    var v := u[s := BlocksOf(u, s)];
    AllRefsOf(v, s);
    assert v - {s} == u - {s};
    if s in u {
      AllRefsOf(u, s);
    } else {
      assert u - {s} == u;
    }
  }

  lemma {:induction false} BlockRefsFirst(bs: seq<seq<nat>>)
    requires bs != []
    ensures BlockRefs(bs) == multiset(bs[0]) + BlockRefs(bs[1..])
    decreases |bs|
  {
    if |bs| > 1 {
      var n := |bs| - 1;
      BlockRefsFirst(bs[..n]);
      assert bs[..n][1..] == bs[1..][..n - 1];
    } else {
      assert bs[..0] == [] && bs[1..] == [];
    }
  }

  /** Releasing the oldest block lowers the counts of exactly what it referred to. */
  lemma AllRefsRelease(u: Usage, s: Stream)
    requires s in u && u[s] != []
    ensures AllRefs(u) == multiset(u[s][0]) + AllRefs(Release(u, s, u[s][1..]))
  {
    hide AllRefs;
    var rest := u[s][1..];
    var v := Release(u, s, rest);
    AllRefsOf(u, s);
    BlockRefsFirst(u[s]);
    if rest != [] {
      AllRefsOf(v, s);
      assert v - {s} == u - {s};
    }
  }
}
