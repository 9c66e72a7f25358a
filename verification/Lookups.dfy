/** Entries as a table holds them, and what a lookup finds (hc/table.go:182-205). */
module Lookups {
  import opened Headers
  import opened History

  datatype Entry = Entry(name: Str, value: Str, base: nat) {
    function AsPair(): Pair { Pair(name, value) }
    function Size(): nat { Headers.Size(AsPair()) }
  }

  /** Where a lookup found its match. */
  datatype Found = Nowhere | InStatic(index: nat) | InDynamic(entry: Entry)

  /** The newest `n` entries, newest first. */
  function Held(h: Hist, n: nat): (es: seq<Entry>)
    requires n <= |h|
    ensures |es| == n
    ensures forall i :: 0 <= i < n ==> es[i] == Entry(h[|h| - 1 - i].name, h[|h| - 1 - i].value, |h| - i)
  {
    seq(n, i requires 0 <= i < n => Entry(h[|h| - 1 - i].name, h[|h| - 1 - i].value, |h| - i))
  }

  predicate Matches(e: Pair, p: Pair, whole: bool) {
    e.name == p.name && (whole ==> e.value == p.value)
  }

  /** The first pair with the name, and if `whole` also the value, of `p`. */
  function First(ps: seq<Pair>, p: Pair, whole: bool): (i: nat)
    ensures i <= |ps| && (i < |ps| ==> Matches(ps[i], p, whole))
    ensures forall j :: 0 <= j < i ==> !Matches(ps[j], p, whole)
  {
    if ps == [] || Matches(ps[0], p, whole) then 0 else First(ps[1..], p, whole) + 1
  }

  function Pairs(es: seq<Entry>): (ps: seq<Pair>)
    ensures |ps| == |es| && forall i :: 0 <= i < |es| ==> ps[i] == es[i].AsPair()
  {
    seq(|es|, i requires 0 <= i < |es| => es[i].AsPair())
  }

  /** The first match, static entries before the others. */
  function Find(statics: seq<Pair>, es: seq<Entry>, p: Pair, whole: bool): (r: Found)
    ensures r == Nowhere <==>
      && (forall s :: s in statics ==> !Matches(s, p, whole))
      && (forall e :: e in es ==> !Matches(e.AsPair(), p, whole))
    ensures r.InStatic? ==> r.index < |statics| && Matches(statics[r.index], p, whole)
    ensures r.InDynamic? ==> r.entry in es && Matches(r.entry.AsPair(), p, whole)
  {
    var i, k := First(statics, p, whole), First(Pairs(es), p, whole);
    if i < |statics| then
      assert statics[i] in statics;
      InStatic(i)
    else if k < |es| then
      assert es[k] in es;
      InDynamic(es[k])
    else Nowhere
  }
}
