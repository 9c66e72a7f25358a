/** Header blocks: what the encoder emits for its choices (hc/qpackencoder.go:390-525)
    and what a decoder makes of it at whatever insert count it has reached. */
module QpackBlock {
  import opened Arith
  import opened Headers
  import opened History
  import opened TableSpec
  import opened QpackSyntax
  import opened QpackReader
  import opened QpackWriter

  /** writeIndexed and writeLiteral.  An entry above `largest` takes a post-base form. */
  function LineFor(largest: nat, f: Field, ch: Choice): Line {
    match ch
    case Indexed(Static(i)) => IndexedStatic(i)
    case Indexed(Dynamic(b)) =>
      if largest < b then IndexedPostBase(b - largest - 1) else IndexedDynamic(largest - b)
    case Named(Static(i)) => NameStatic(i, f.value, f.sensitive)
    case Named(Dynamic(b)) =>
      if largest < b then NamePostBase(b - largest - 1, f.value, f.sensitive)
      else NameDynamic(largest - b, f.value, f.sensitive)
    case _ => NameLiteral(f.name, f.value, f.sensitive)
  }

  function LinesFor(largest: nat, fs: seq<Field>, cs: seq<Choice>): seq<Line>
    requires |cs| == |fs|
  {
    seq(|fs|, i requires 0 <= i < |fs| => LineFor(largest, fs[i], cs[i]))
  }

  /** encodeLargestReference. */
  function EncodeLargest(cap: nat, largest: nat): nat
    requires largest > 0 ==> cap >= ENTRY_OVERHEAD
  {
    if largest == 0 then 0 else largest % (2 * (cap / ENTRY_OVERHEAD)) + 1
  }

  /** A block as the encoder produced it, with what it was made from. */
  datatype Sent = Sent(fields: seq<Field>, choices: seq<Choice>, largest: nat, block: Block)

  ghost predicate SentOk(statics: seq<Pair>, cap: nat, h: Hist, x: Sent) {
    && |x.choices| == |x.fields|
    && x.largest <= |h| && x.largest == MaxOf(Refs(x.choices))
    && (x.largest > 0 ==> cap >= ENTRY_OVERHEAD)
    && (forall b :: b in Refs(x.choices) ==> 1 <= b)
    && (forall j :: 0 <= j < |x.fields| ==> ChoiceOk(statics, h, x.fields[j], x.choices[j]))
    && x.block == Block(Prefix(EncodeLargest(cap, x.largest), false, 0), LinesFor(x.largest, x.fields, x.choices))
  }

  /** Every entry the block refers to is in the table of `h`. */
  ghost predicate AllLive(h: Hist, cap: nat, refs: seq<nat>) {
    forall b :: b in refs ==> Live(h, cap, b)
  }

  /** decode(encode(R)) is R exactly when R lies within M entries of the decoder's
      insert count T, or has not wrapped yet. */
  lemma LargestRecovered(cap: nat, t: nat, r: nat)
    requires cap >= ENTRY_OVERHEAD && r > 0
    ensures
      var m := cap / ENTRY_OVERHEAD;
      DecodeLargest(t, cap, EncodeLargest(cap, r)) == Some(r) <==> t < r + m && (r <= t + m || r < 2 * m)
  {
    var m := cap / ENTRY_OVERHEAD;
    var full := m * 2;
    var a, x := Multiple(r, full);
    var k, y := Multiple(t + m, full);
    assert a == k || a + full == k || a + 2 * full <= k || k + full <= a by {
      Apart(r, t + m, full);
    }
    WrapArithmetic(m, t, r, a, x, k, y);
    assert EncodeLargest(cap, r) == x + 1;
  }

  lemma Multiple(r: nat, n: nat) returns (a: nat, x: nat)
    requires n > 0
    ensures a == r / n * n && x == r % n && r == a + x && x < n
    ensures a == 0 || a >= n
  {
    a, x := r / n * n, r % n;
    DivMod(r, n);
    if r / n > 0 {
      MulStep(0, r / n, n);
    }
  }

  lemma Apart(r: nat, t: nat, n: nat)
    requires n > 0
    ensures var a, k := r / n * n, t / n * n; a == k || a + n == k || a + 2 * n <= k || k + n <= a
  {
    if r / n < t / n {
      MulStep(r / n, t / n, n);
    } else if t / n < r / n {
      MulStep(t / n, r / n, n);
    }
  }

  /** The case analysis of LargestRecovered on multiples already known to be apart:
      `r == a + x` and `t + m == k + y` with `a` and `k` multiples of `2 * m`. */
  lemma WrapArithmetic(m: nat, t: nat, r: nat, a: nat, x: nat, k: nat, y: nat)
    requires m > 0 && r == a + x && x < 2 * m && t + m == k + y && y < 2 * m
    requires a == k || a + 2 * m == k || a + 4 * m <= k || k + 2 * m <= a
    requires a == 0 || a >= 2 * m
    requires k == 0 || k >= 2 * m
    ensures
      (if k + x > t + m && k + x >= 2 * m then k + x - 2 * m else k + x) == r
      <==> t < r + m && (r <= t + m || r < 2 * m)
  {
  }

  /** A line reads back as its field exactly when the entry it refers to is live in
      the decoder's table, and otherwise is an index error. */
  lemma LineReads(statics: seq<Pair>, cap: nat, h: Hist, g: Hist, largest: nat, f: Field, ch: Choice)
    requires g <= h || h <= g
    requires ChoiceOk(statics, h, f, ch)
    requires forall b :: b in ChoiceRefs(ch) ==> 1 <= b <= largest
    requires largest <= |g| && largest <= |h|
    ensures ReadLine(statics, Canon(g, cap), largest, LineFor(largest, f, ch))
         == if AllLive(g, cap, ChoiceRefs(ch)) then Some(f) else None
  {
    match ch
    case Indexed(Dynamic(b)) => assert b in ChoiceRefs(ch); CanonGet(g, cap, largest, b);
    case Named(Dynamic(b)) => assert b in ChoiceRefs(ch); CanonGet(g, cap, largest, b);
    case _ =>
  }

  /** Every reference is at or below the block's base, so no post-base form is written. */
  lemma NoPostBase(statics: seq<Pair>, cap: nat, h: Hist, x: Sent, j: nat)
    requires SentOk(statics, cap, h, x) && j < |x.fields|
    ensures forall b :: b in ChoiceRefs(x.choices[j]) ==> 1 <= b <= x.largest
    ensures !x.block.lines[j].IndexedPostBase? && !x.block.lines[j].NamePostBase?
  {
    forall b | b in ChoiceRefs(x.choices[j])
      ensures 1 <= b <= x.largest
    {
      RefsIn(x.choices, j, b);
    }
    if x.choices[j].Indexed? && x.choices[j].r.Dynamic? {
      assert x.choices[j].r.base in ChoiceRefs(x.choices[j]);
    }
    if x.choices[j].Named? && x.choices[j].r.Dynamic? {
      assert x.choices[j].r.base in ChoiceRefs(x.choices[j]);
    }
  }

  /** The whole block reads back exactly when everything it refers to is live at the
      decoder; a dead reference makes its own line an error. */
  lemma BlockReads(statics: seq<Pair>, cap: nat, h: Hist, g: Hist, x: Sent)
    requires g <= h || h <= g
    requires SentOk(statics, cap, h, x) && x.largest <= |g|
    ensures (forall j :: 0 <= j < |x.fields| ==>
               ReadLine(statics, Canon(g, cap), x.largest, x.block.lines[j]) == Some(x.fields[j]))
       <==> AllLive(g, cap, Refs(x.choices))
  {
    forall j | 0 <= j < |x.fields|
      ensures ReadLine(statics, Canon(g, cap), x.largest, x.block.lines[j])
           == if AllLive(g, cap, ChoiceRefs(x.choices[j])) then Some(x.fields[j]) else None
    {
      NoPostBase(statics, cap, h, x, j);
      LineReads(statics, cap, h, g, x.largest, x.fields[j], x.choices[j]);
    }
    if AllLive(g, cap, Refs(x.choices)) {
      forall j | 0 <= j < |x.fields|
        ensures AllLive(g, cap, ChoiceRefs(x.choices[j]))
      {
        forall b | b in ChoiceRefs(x.choices[j]) ensures Live(g, cap, b) {
          RefsIn(x.choices, j, b);
        }
      }
    } else {
      var b :| b in Refs(x.choices) && !Live(g, cap, b);
      var j := RefsFrom(x.choices, b);
      assert !AllLive(g, cap, ChoiceRefs(x.choices[j]));
      assert ReadLine(statics, Canon(g, cap), x.largest, x.block.lines[j]) == None;
    }
  }

  /** A block written by any permitted plans is well formed. */
  lemma PlannedSentOk(c: Context, h: Hist, fs: seq<Field>, w: Work)
    requires WorkOk(c, h, fs, w) && |w.choices| == |fs|
    ensures w.largest > 0 ==> c.cap >= ENTRY_OVERHEAD
    ensures SentOk(c.statics, c.cap, w.hist, MakeSent(c.cap, fs, w))
  {
  }

  function MakeSent(cap: nat, fs: seq<Field>, w: Work): Sent
    requires |w.choices| == |fs|
    requires w.largest > 0 ==> cap >= ENTRY_OVERHEAD
  {
    Sent(fs, w.choices, w.largest,
         Block(Prefix(EncodeLargest(cap, w.largest), false, 0), LinesFor(w.largest, fs, w.choices)))
  }
}
