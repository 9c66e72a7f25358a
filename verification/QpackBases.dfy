/** Header blocks with any base (hc/qpackdecoder.go:379-405).  The encoder always makes the
    base of a block its largest reference; other peers need not. */
module QpackBases {
  import opened Headers
  import opened History
  import opened TableSpec
  import opened QpackSyntax
  import opened QpackReader
  import opened QpackWriter
  import opened QpackBlock
  import opened QpackNames
  import opened QpackDecoder

  /** The post-base forms, which the encoder never writes: the indexed one denotes
      the entry it is meant for, the name one the entry before it. */
  lemma PostBaseForms(statics: seq<Pair>, cap: nat, h: Hist, base: nat, b: nat, v: Str, n: bool)
    requires 1 <= base < b <= |h|
    ensures ReadLine(statics, Canon(h, cap), base, IndexedPostBase(b - base - 1))
         == if Live(h, cap, b) then Some(Field(h[b - 1].name, h[b - 1].value, false)) else None
    ensures ReadLine(statics, Canon(h, cap), base, NamePostBase(b - base - 1, v, n))
         == if Live(h, cap, b - 1) then Some(Field(h[b - 2].name, v, n)) else None
  {
    LiveIsNewest(h, cap, b);
    LiveIsNewest(h, cap, b - 1);
  }

  /** The sign and the delta that stand for `base`. */
  function PrefixFor(wrapped: nat, largest: nat, base: nat): Prefix {
    if base < largest then Prefix(wrapped, true, largest - base) else Prefix(wrapped, false, base - largest)
  }

  lemma BaseRecovered(wrapped: nat, largest: nat, base: nat)
    ensures ReadBase(largest, PrefixFor(wrapped, largest, base)) == Some(base)
    ensures forall p: Prefix :: ReadBase(largest, p) == Some(base) ==> p == PrefixFor(p.wrapped, largest, base)
  {
  }

  /** A choice written against `base` leads the decoder to its field: the entry is live,
      or for a post-base name the entry before it is live and has the same name. */
  predicate Leads(cap: nat, g: Hist, base: nat, f: Field, ch: Choice) {
    match ch
    case Indexed(Dynamic(b)) => base <= |g| && Live(g, cap, b)
    case Named(Dynamic(b)) =>
      base <= |g| && if b <= base then Live(g, cap, b) else Live(g, cap, b - 1) && g[b - 2].name == f.name
    case _ => true
  }

  lemma LineReadsAt(statics: seq<Pair>, cap: nat, g: Hist, base: nat, f: Field, ch: Choice)
    requires ChoiceOk(statics, g, f, ch)
    ensures ReadLine(statics, Canon(g, cap), base, LineFor(base, f, ch)) == Some(f) <==> Leads(cap, g, base, f, ch)
  {
    hide LiveCount, Live;
    match ch
    case Indexed(Dynamic(b)) => LiveIsNewest(g, cap, b);
    case Named(Dynamic(b)) =>
      LiveIsNewest(g, cap, b);
      if b > 1 {
        LiveIsNewest(g, cap, b - 1);
      } else {
        NotLive(g, cap, b - 1);
      }
    case _ =>
  }

  /** A block written against any base is read as its fields, by a decoder that has reached
      its largest reference, exactly if that is recovered and every choice leads there. */
  lemma AnyBaseReads(statics: seq<Pair>, cap: nat, g: Hist, largest: nat, base: nat, fs: seq<Field>, cs: seq<Choice>)
    requires |cs| == |fs| && largest <= |g| && (largest > 0 ==> cap >= ENTRY_OVERHEAD)
    requires forall j :: 0 <= j < |fs| ==> ChoiceOk(statics, g, fs[j], cs[j])
    ensures
      var b := Block(PrefixFor(EncodeLargest(cap, largest), largest, base), LinesFor(base, fs, cs));
      BlockRead(statics, Canon(g, cap), b) == Fields(fs, largest)
      <==> (largest == 0 || |g| < largest + cap / ENTRY_OVERHEAD) && forall j :: 0 <= j < |fs| ==> Leads(cap, g, base, fs[j], cs[j])
  {
    hide ReadLine, LineFor, Leads, DecodeLargest, LinesRead, ChoiceOk;
    var t, ls := Canon(g, cap), LinesFor(base, fs, cs);
    if largest > 0 {
      LargestRecovered(cap, |g|, largest);
    } else {
      NothingWrapped(cap, |g|);
    }
    BaseRecovered(EncodeLargest(cap, largest), largest, base);
    forall j | 0 <= j < |fs| ensures ReadLine(statics, t, base, ls[j]) == Some(fs[j]) <==> Leads(cap, g, base, fs[j], cs[j]) {
      LineReadsAt(statics, cap, g, base, fs[j], cs[j]);
    }
    if forall j :: 0 <= j < |fs| ==> Leads(cap, g, base, fs[j], cs[j]) {
      LinesReadAll(statics, t, base, ls, fs);
    } else if LinesRead(statics, t, base, ls) == Some(fs) {
      var j :| 0 <= j < |fs| && !Leads(cap, g, base, fs[j], cs[j]);
      LinesReadEach(statics, t, base, ls, fs, j);
    }
  }
}
