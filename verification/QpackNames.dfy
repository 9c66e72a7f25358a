/** References to the name of an entry.  They do not lower `smallestBase`
    (hc/qpackencoder.go:73-108), so an insert of the same block may evict the entry.
    Which blocks this spoils; QpackMisread has a run that gets there. */
module QpackNames {
  import opened Headers
  import opened History
  import opened TableSpec
  import opened QpackReader
  import opened QpackWriter
  import opened QpackBlock
  import opened QpackProtocol
  import opened QpackDecoder

  /** The entries the block names, but does not index, are in the table. */
  ghost predicate NamesHeld(c: Context, w: Work) {
    forall j :: 0 <= j < |w.choices| && w.choices[j].Named? && w.choices[j].r.Dynamic? ==>
      Live(w.hist, c.cap, w.choices[j].r.base)
  }

  lemma SafeIsNames(c: Context, w: Work)
    requires FullMatchesHeld(c, w)
    ensures AllLive(w.hist, c.cap, Refs(w.choices)) <==> NamesHeld(c, w)
  {
    hide Live, Refs;
    if NamesHeld(c, w) {
      forall b | b in Refs(w.choices) ensures Live(w.hist, c.cap, b) {
        var j := RefsFrom(w.choices, b);
      }
    } else {
      var j :| 0 <= j < |w.choices| && w.choices[j].Named? && w.choices[j].r.Dynamic? && !Live(w.hist, c.cap, w.choices[j].r.base);
      RefsIn(w.choices, j, w.choices[j].r.base);
    }
  }

  /** A block is safe exactly when the entries it only names survived its own table
      changes; its full matches always do. */
  lemma {:induction false} SafeExactly(c: Context, h: Hist, fs: seq<Field>, ps: seq<Plan>)
    requires |ps| == |fs| && Planned(c, h, fs, ps, |fs|)
    requires c.acked <= |h| && Unacked(h, c.acked) <= c.cap && (h != [] ==> ENTRY_OVERHEAD <= c.cap)
    ensures var w := After(c, h, fs, ps, |fs|); AllLive(w.hist, c.cap, Refs(w.choices)) <==> NamesHeld(c, w)
  {
    hide InstrOk, Live, AllLive, NamesHeld, ChoiceOk, Refs;
    var w := After(c, h, fs, ps, |fs|);
    BlockWritten(c, h, fs, ps, |fs|);
    SafeIsNames(c, w);
  }

  /** ... and exactly then does a decoder that has received every update read it. */
  lemma {:induction false} ReadsExactly(c: Context, h: Hist, fs: seq<Field>, ps: seq<Plan>)
    requires |ps| == |fs| && Planned(c, h, fs, ps, |fs|)
    requires c.acked <= |h| && Unacked(h, c.acked) <= c.cap && (h != [] ==> ENTRY_OVERHEAD <= c.cap)
    ensures
      var w := After(c, h, fs, ps, |fs|);
      && |w.choices| == |fs| && (w.largest > 0 ==> ENTRY_OVERHEAD <= c.cap)
      && (BlockRead(c.statics, Canon(w.hist, c.cap), MakeSent(c.cap, fs, w).block) == Fields(fs, w.largest) <==> NamesHeld(c, w))
  {
    hide NamesHeld, InstrsOk, Live, BlockRead, FullMatchesHeld, ChoiceOk, Refs, MakeSent;
    var w := After(c, h, fs, ps, |fs|);
    BlockWritten(c, h, fs, ps, |fs|);
    PlannedSentOk(c, h, fs, w);
    SentReads(Config(c.statics, c.cap), w.hist, MadeSent(c, fs, w));
    SafeExactly(c, h, fs, ps);
  }

  function MadeSent(c: Context, fs: seq<Field>, w: Work): (x: Sent)
    requires |w.choices| == |fs| && (w.largest > 0 ==> ENTRY_OVERHEAD <= c.cap)
    ensures x == MakeSent(c.cap, fs, w) && x.fields == fs && x.choices == w.choices && x.largest == w.largest
  {
    MakeSent(c.cap, fs, w)
  }

  /** A block that has every update before it reads as itself exactly if everything it
      refers to is live; the decoder works out the base. */
  lemma {:induction false} SentReads(k: Config, h: Hist, x: Sent)
    requires SentOk(k.statics, k.cap, h, x)
    ensures BlockRead(k.statics, Canon(h, k.cap), x.block) == Fields(x.fields, x.largest) <==> AllLive(h, k.cap, Refs(x.choices))
  {
    hide ReadLine, LineFor, Live, Refs, DecodeLargest, LinesRead;
    BlockReads(k.statics, k.cap, h, h, x);
    var t := Canon(h, k.cap);
    if AllLive(h, k.cap, Refs(x.choices)) {
      LinesReadAll(k.statics, t, x.largest, x.block.lines, x.fields);
      if x.largest > 0 {
        assert Live(h, k.cap, x.largest);
        LiveWindow(k.cap, h, x.largest);
        LargestRecovered(k.cap, |h|, x.largest);
      } else {
        NothingWrapped(k.cap, |h|);
      }
    } else {
      var n :| 0 <= n < |x.fields| && ReadLine(k.statics, t, x.largest, x.block.lines[n]) != Some(x.fields[n]);
      if LinesRead(k.statics, t, x.largest, x.block.lines) == Some(x.fields) {
        LinesReadEach(k.statics, t, x.largest, x.block.lines, x.fields, n);
      }
    }
  }

  lemma NothingWrapped(cap: nat, t: nat)
    ensures DecodeLargest(t, cap, 0) == Some(0)
  {
  }
}
