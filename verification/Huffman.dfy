/** Huffman coding over any prefix-free table (hc/huffman.go). */
module Huffman {
  import opened Headers
  import opened Bits
  import opened BitIO
  import opened Seqs

  datatype Code = Code(len: nat, val: nat) {
    function Bits(): seq<bool> { ToBits(val, len) }
  }

  /** One code for each octet. */
  type Table = t: seq<Code> | |t| == 256 witness seq(256, i => Code(0, 0))

  /** What the code table must satisfy: every octet has a code of at least five and
      at most thirty bits, none the start of another, and seven one-bits are the
      start of a longer code, so that padding is never taken for a symbol. */
  ghost predicate TableOk(t: Table) {
    && (forall i :: 0 <= i < |t| ==> 5 <= t[i].len <= 30 && t[i].val < Pow2(t[i].len))
    && PrefixFree(t)
    && Extends(t, OneBits(7))
  }

  ghost predicate PrefixFree(t: Table) {
    forall i, j :: 0 <= i < |t| && 0 <= j < |t| && t[i].Bits() <= t[j].Bits() ==> i == j
  }

  /** `p` is the start of a longer code. */
  ghost predicate Extends(t: Table, p: seq<bool>) {
    exists i :: 0 <= i < |t| && Starts(t[i], p)
  }

  predicate Starts(c: Code, p: seq<bool>) {
    |p| < c.len && c.Bits()[..|p|] == p
  }

  function OneBits(n: nat): (bs: seq<bool>)
    ensures |bs| == n
    ensures forall i :: 0 <= i < n ==> bs[i]
  {
    seq(n, i => true)
  }

  /** The decoding tree; Nil is a branch that leads nowhere. */
  datatype Node = Nil | Leaf(val: Octet) | Inner(zero: Node, one: Node) {
    function Next(b: bool): Node {
      if !Inner? then Nil else if b then one else zero
    }

    function Walk(w: seq<bool>): Node
      decreases |w|
    {
      if w == [] then this else Next(w[0]).Walk(w[1..])
    }
  }

  // ---- the tree accepts exactly the code ----

  /** From a node reached by `p`, the bits `w` lead to the leaf `i` exactly if the
      code of `i` is `p + w`, and to an inner node if more bits can follow. */
  ghost predicate WalkOk(t: Table, p: seq<bool>, n: Node, w: seq<bool>) {
    && (forall i: Octet :: n.Walk(w) == Leaf(i) <==> i < |t| && t[i].Bits() == p + w)
    && (Extends(t, p + w) ==> n.Walk(w).Inner?)
  }

  ghost predicate Tree(t: Table, p: seq<bool>, n: Node) {
    forall w: seq<bool> :: WalkOk(t, p, n, w)
  }

  lemma {:induction false} WalkStuck(n: Node, w: seq<bool>)
    requires !n.Inner? && w != []
    ensures n.Walk(w) == Nil
    decreases |w|
  {
    if |w| > 1 {
      WalkStuck(Nil, w[1..]);
    } else {
      assert w[1..] == [];
    }
  }

  /** What starts with more bits starts with fewer. */
  lemma StartsShorter(c: Code, p: seq<bool>, w: seq<bool>)
    requires Starts(c, p + w) || (c.Bits() == p + w && w != [])
    ensures Starts(c, p)
  {
    assert (p + w)[..|p|] == p;
    assert c.Bits()[..|p + w|][..|p|] == c.Bits()[..|p|];
  }

  lemma ExtendsShorter(t: Table, p: seq<bool>, w: seq<bool>)
    ensures Extends(t, p + w) ==> Extends(t, p)
    ensures w != [] ==> forall i :: 0 <= i < |t| && t[i].Bits() == p + w ==> Extends(t, p)
  {
    forall i | 0 <= i < |t| && (Starts(t[i], p + w) || (t[i].Bits() == p + w && w != []))
      ensures Starts(t[i], p)
    {
      StartsShorter(t[i], p, w);
    }
  }

  /** Nothing goes on from a whole code. */
  lemma NothingBelow(t: Table, p: seq<bool>, j: nat, w: seq<bool>)
    requires PrefixFree(t) && j < |t| && t[j].Bits() == p
    ensures !Extends(t, p + w)
    ensures forall i :: 0 <= i < |t| && t[i].Bits() == p + w ==> i == j && w == []
  {
    forall i | 0 <= i < |t| ensures !Starts(t[i], p + w) {
      if Starts(t[i], p + w) {
        StartsShorter(t[i], p, w);
      }
    }
    forall i | 0 <= i < |t| && t[i].Bits() == p + w ensures i == j && w == [] {
      assert t[j].Bits() <= t[i].Bits();
    }
  }

  /** A leaf accepts its own code and, since no code starts another, nothing else. */
  lemma LeafTree(t: Table, p: seq<bool>, j: Octet)
    requires PrefixFree(t) && j < |t| && t[j].Bits() == p
    ensures Tree(t, p, Leaf(j))
  {
    forall w: seq<bool> ensures WalkOk(t, p, Leaf(j), w) {
      NothingBelow(t, p, j, w);
      if w == [] {
        assert p + w == p;
      } else {
        WalkStuck(Leaf(j), w);
      }
    }
  }

  /** Two branches make a node. */
  lemma NodeTree(t: Table, p: seq<bool>, z: Node, o: Node)
    requires (forall i :: 0 <= i < |t| ==> t[i].Bits() != p)
    requires Tree(t, p + [false], z) && Tree(t, p + [true], o)
    ensures Tree(t, p, Inner(z, o))
  {
    forall w: seq<bool> ensures WalkOk(t, p, Inner(z, o), w) {
      if w == [] {
        assert p + w == p;
      } else {
        var n := if w[0] then o else z;
        assert p + w == (p + [w[0]]) + w[1..];
        assert WalkOk(t, p + [w[0]], n, w[1..]);
      }
    }
  }

  /** Nothing extends `p`: the node may have no branches. */
  lemma EmptyTree(t: Table, p: seq<bool>, n: Node)
    requires n == Inner(Nil, Nil)
    requires (forall i :: 0 <= i < |t| ==> t[i].Bits() != p) && !Extends(t, p)
    ensures Tree(t, p, n)
  {
    forall w: seq<bool> ensures WalkOk(t, p, n, w) {
      if w == [] {
        assert p + w == p;
      } else {
        WalkStuckAfter(n, w);
        ExtendsShorter(t, p, w);
      }
    }
  }

  lemma WalkStuckAfter(n: Node, w: seq<bool>)
    requires n == Inner(Nil, Nil) && w != []
    ensures n.Walk(w) == Nil
  {
    if |w| > 1 {
      WalkStuck(Nil, w[1..]);
    } else {
      assert w[1..] == [];
    }
  }

  /** The test makeLayer makes on numbers is the one on bits. */
  lemma StartsByNumber(c: Code, prefix: nat, n: nat)
    requires n < c.len && c.val < Pow2(c.len) && prefix < Pow2(n)
    ensures Shr(c.val, c.len - n) == prefix <==> Starts(c, ToBits(prefix, n))
    ensures c.Bits()[n] == (Shr(c.val, c.len - n - 1) % 2 == 1)
  {
    ToBitsPrefix(c.val, c.len, n);
    ShrFits(c.val, n, c.len - n);
    if Starts(c, ToBits(prefix, n)) {
      ToBitsInjective(Shr(c.val, c.len - n), prefix, n);
    }
    ToBitsPrefix(c.val, c.len, n + 1);
    var v := Shr(c.val, c.len - n - 1);
    assert ToBits(v, n + 1) == ToBits(v / 2, n) + [v % 2 == 1];
    assert c.Bits()[n] == c.Bits()[..n + 1][n];
  }

  function MaxLen(t: seq<Code>): (m: nat)
    ensures forall i :: 0 <= i < |t| ==> t[i].len <= m
  {
    if t == [] then 0
    else
      assert forall i :: 0 <= i < |t| - 1 ==> t[..|t| - 1][i] == t[i];
      Max(MaxLen(t[..|t| - 1]), t[|t| - 1].len)
  }

  ghost predicate CodesOk(t: Table) {
    && PrefixFree(t)
    && (forall i :: 0 <= i < |t| ==> 1 <= t[i].len && t[i].val < Pow2(t[i].len))
  }

  /** Among the first `k` codes, the one that is exactly `p`. */
  ghost predicate FoundLeaf(t: Table, k: nat, p: seq<bool>, n: Node)
    requires k <= |t|
  {
    match n
    case Nil => forall j :: 0 <= j < k ==> t[j].Bits() != p
    case Leaf(v) => v < k && t[v].Bits() == p
    case Inner(_, _) => false
  }

  ghost predicate FoundAny(t: Table, k: nat, p: seq<bool>, found: bool)
    requires k <= |t|
  {
    found <==> exists j :: 0 <= j < k && Starts(t[j], p)
  }

  /** makeLayer: for every prefix-free table the recursion ends and the tree accepts
      exactly the code. */
  method MakeLayer(t: Table, prefix: nat, prefixLen: nat) returns (layer: Node)
    requires CodesOk(t) && prefix < Pow2(prefixLen) && prefixLen <= MaxLen(t)
    requires forall i :: 0 <= i < |t| ==> t[i].Bits() != ToBits(prefix, prefixLen)
    ensures layer.Inner? && Tree(t, ToBits(prefix, prefixLen), layer)
    decreases MaxLen(t) - prefixLen
  {
    hide ToBits, Shr, Pow2, Tree;
    ghost var p := ToBits(prefix, prefixLen);
    var zero, one, found := Nil, Nil, false;
    for i := 0 to |t|
      invariant FoundLeaf(t, i, p + [false], zero) && FoundLeaf(t, i, p + [true], one)
      invariant FoundAny(t, i, p, found)
    {
      var e := t[i];
      if e.len < prefixLen + 1 {
        continue;
      }
      StartsByNumber(e, prefix, prefixLen);
      if Shr(e.val, e.len - prefixLen) != prefix {
        NotMatched(t, i, p);
        continue;
      }
      Matched(t, i, p);
      var arity := Shr(e.val, e.len - prefixLen - 1) % 2;
      if e.len == prefixLen + 1 {
        if arity == 1 {
          one := Leaf(i);
        } else {
          zero := Leaf(i);
        }
        if zero != Nil && one != Nil {
          LeafTree(t, p + [false], zero.val);
          LeafTree(t, p + [true], one.val);
          NodeTree(t, p, zero, one);
          return Inner(zero, one);
        }
      }
      found := true;
    }
    if found {
      zero := Fill(t, prefix, prefixLen, false, zero);
      one := Fill(t, prefix, prefixLen, true, one);
      NodeTree(t, p, zero, one);
    } else {
      NothingFound(t, p, zero, one);
      EmptyTree(t, p, Inner(zero, one));
    }
    return Inner(zero, one);
  }

  /** The branch for bit `b`: a leaf already found, or another layer. */
  method Fill(t: Table, prefix: nat, prefixLen: nat, b: bool, leaf: Node) returns (n: Node)
    requires CodesOk(t) && prefix < Pow2(prefixLen) && prefixLen < MaxLen(t)
    requires FoundLeaf(t, |t|, ToBits(prefix, prefixLen) + [b], leaf)
    ensures Tree(t, ToBits(prefix, prefixLen) + [b], n)
    decreases MaxLen(t) - prefixLen, 0
  {
    hide Tree;
    if leaf == Nil {
      assert ToBits(2 * prefix + (if b then 1 else 0), prefixLen + 1) == ToBits(prefix, prefixLen) + [b];
      n := MakeLayer(t, 2 * prefix + (if b then 1 else 0), prefixLen + 1);
    } else {
      LeafTree(t, ToBits(prefix, prefixLen) + [b], leaf.val);
      n := leaf;
    }
  }

  lemma NotMatched(t: Table, i: nat, p: seq<bool>)
    requires i < |t| && |p| < t[i].len && !Starts(t[i], p)
    ensures forall b :: t[i].Bits() != p + [b]
  {
    forall b ensures t[i].Bits() != p + [b] {
      if t[i].Bits() == p + [b] {
        OneMoreStarts(t, i, p, b);
      }
    }
  }

  lemma Matched(t: Table, i: nat, p: seq<bool>)
    requires i < |t| && Starts(t[i], p)
    ensures forall b :: t[i].Bits() == p + [b] <==> t[i].len == |p| + 1 && t[i].Bits()[|p|] == b
  {
    forall b ensures t[i].Bits() == p + [b] <==> t[i].len == |p| + 1 && t[i].Bits()[|p|] == b {
      var bits := t[i].Bits();
      if t[i].len == |p| + 1 && bits[|p|] == b {
        assert bits == bits[..|p|] + [bits[|p|]];
      }
    }
  }

  lemma NothingFound(t: Table, p: seq<bool>, z: Node, o: Node)
    requires FoundAny(t, |t|, p, false) && FoundLeaf(t, |t|, p + [false], z) && FoundLeaf(t, |t|, p + [true], o)
    ensures z == Nil && o == Nil && !Extends(t, p)
  {
    if z.Leaf? {
      OneMoreStarts(t, z.val, p, false);
      assert false;
    }
    if o.Leaf? {
      OneMoreStarts(t, o.val, p, true);
      assert false;
    }
  }

  lemma OneMoreStarts(t: Table, i: nat, p: seq<bool>, b: bool)
    requires i < |t| && t[i].Bits() == p + [b]
    ensures Starts(t[i], p)
  {
    assert t[i].Bits()[..|p|] == p;
  }

  // ---- compression ----

  function Compress(t: Table, s: Str): seq<bool>
  {
    if s == [] then [] else Compress(t, s[..|s| - 1]) + t[s[|s| - 1]].Bits()
  }

  /** The octets the bits spell, walking the tree from `cur`; what remains at the
      end without reaching a leaf is padding. */
  function Inflate(root: Node, cur: Node, bits: seq<bool>): Result<Str>
    decreases |bits|
  {
    if bits == [] then Ok([])
    else
      match cur.Next(bits[0])
      case Nil => Err(Invalid)
      case Leaf(v) => Prepend(v, Inflate(root, root, bits[1..]))
      case Inner(z, o) => Inflate(root, Inner(z, o), bits[1..])
  }

  function Prepend(v: Octet, r: Result<Str>): Result<Str> {
    if r.Err? then r else Ok([v] + r.value)
  }

  /** Bits that lead to an inner node are consumed silently. */
  lemma {:induction false} InflateInner(root: Node, cur: Node, w: seq<bool>, rest: seq<bool>)
    requires forall k :: 0 <= k <= |w| ==> cur.Walk(w[..k]).Inner?
    ensures Inflate(root, cur, w + rest) == Inflate(root, cur.Walk(w), rest)
    decreases |w|
  {
    if w == [] {
      assert w + rest == rest;
    } else {
      var n := cur.Next(w[0]);
      assert (w + rest)[1..] == w[1..] + rest;
      forall k | 0 <= k <= |w[1..]| ensures n.Walk(w[1..][..k]).Inner? {
        assert w[..k + 1][1..] == w[1..][..k] && w[..k + 1][0] == w[0];
        assert cur.Walk(w[..k + 1]).Inner?;
      }
      assert w[1..][..0] == [];
      assert n.Walk([]).Inner?;
      InflateInner(root, n, w[1..], rest);
    }
  }

  lemma {:induction false} WalkAppend(n: Node, w: seq<bool>, b: bool)
    ensures n.Walk(w + [b]) == n.Walk(w).Next(b)
    decreases |w|
  {
    if w == [] {
      assert [] + [b] == [b];
      assert [b][1..] == [];
    } else {
      assert (w + [b])[1..] == w[1..] + [b];
      WalkAppend(n.Next(w[0]), w[1..], b);
    }
  }

  /** A code is decoded to its octet. */
  lemma InflateCode(t: Table, root: Node, i: Octet, rest: seq<bool>)
    requires TableOk(t) && Tree(t, [], root)
    ensures Inflate(root, root, t[i].Bits() + rest) == Prepend(i, Inflate(root, root, rest))
  {
    var code := t[i].Bits();
    var w, b := code[..|code| - 1], code[|code| - 1];
    forall k | 0 <= k <= |w| ensures root.Walk(w[..k]).Inner? {
      assert WalkOk(t, [], root, w[..k]);
      assert [] + w[..k] == code[..k];
      assert Starts(t[i], code[..k]);
    }
    assert w[..|w|] == w;
    assert code == w + [b];
    assert code + rest == w + ([b] + rest);
    InflateInner(root, root, w, [b] + rest);
    WalkAppend(root, w, b);
    assert WalkOk(t, [], root, code);
    assert [] + code == code;
    assert ([b] + rest)[1..] == rest;
  }

  /** Fewer than eight one-bits never complete a symbol. */
  lemma InflatePadding(t: Table, root: Node, k: nat)
    requires TableOk(t) && Tree(t, [], root) && k <= 7
    ensures Inflate(root, root, OneBits(k)) == Ok([])
  {
    var w := OneBits(k);
    var i :| 0 <= i < |t| && Starts(t[i], OneBits(7));
    forall j | 0 <= j <= |w| ensures root.Walk(w[..j]).Inner? {
      assert w[..j] == OneBits(7)[..j] == t[i].Bits()[..7][..j] == t[i].Bits()[..j];
      assert Starts(t[i], w[..j]);
      assert WalkOk(t, [], root, w[..j]);
      assert [] + w[..j] == w[..j];
    }
    InflateInner(root, root, w, []);
    assert w + [] == w;
  }

  lemma {:induction false} CompressFirst(t: Table, s: Str)
    requires s != []
    ensures Compress(t, s) == t[s[0]].Bits() + Compress(t, s[1..])
    decreases |s|
  {
    hide ToBits;
    if |s| == 1 {
      assert s[..0] == [] && s[1..] == [];
      assert Compress(t, s) == Compress(t, s[..0]) + t[s[0]].Bits();
    } else {
      var a := s[..|s| - 1];
      CompressFirst(t, a);
      assert a[1..] == s[1..][..|s| - 2];
      Assoc(t[s[0]].Bits(), Compress(t, a[1..]), t[s[|s| - 1]].Bits());
    }
  }

  /** Decompressing what was compressed, followed by padding, gives every octet
      string back. */
  lemma {:induction false} InflateCompress(t: Table, root: Node, s: Str, k: nat)
    requires TableOk(t) && Tree(t, [], root) && k <= 7
    ensures Inflate(root, root, Compress(t, s) + OneBits(k)) == Ok(s)
    decreases |s|
  {
    if s == [] {
      assert [] + OneBits(k) == OneBits(k);
      InflatePadding(t, root, k);
    } else {
      CompressFirst(t, s);
      Assoc(t[s[0]].Bits(), Compress(t, s[1..]), OneBits(k));
      InflateCode(t, root, s[0], Compress(t, s[1..]) + OneBits(k));
      InflateCompress(t, root, s[1..], k);
      assert s == [s[0]] + s[1..];
    }
  }

  // ---- the code ----

  /** HuffmanCompressor.Write. */
  method WriteCompressed(t: Table, w: BitWriter, input: Str)
    requires TableOk(t) && w.Valid()
    modifies w
    ensures w.Valid() && w.Bits() == old(w.Bits()) + Compress(t, input)
  {
    hide ToBits, OctetBits, Pow2, Extends, PrefixFree;
    for i := 0 to |input|
      invariant w.Valid() && w.Bits() == old(w.Bits()) + Compress(t, input[..i])
    {
      var entry := t[input[i]];
      PowMonotone(entry.len, 64);
      assert input[..i + 1][..i] == input[..i];
      Assoc(old(w.Bits()), Compress(t, input[..i]), entry.Bits());
      var _ := w.WriteBits(entry.val, entry.len);
    }
    assert input[..|input|] == input;
  }

  /** How a read ended: the buffer is full, the input is, or it is not a code. */
  datatype Outcome = Full | Ended | BadCode

  function PrependAll(p: Str, r: Result<Str>): Result<Str> {
    if r.Err? then r else Ok(p + r.value)
  }

  class Decompressor {
    const t: Table
    const root: Node
    var cursor: Node
    /** The bits that led from the root to the cursor. */
    ghost var path: seq<bool>

    ghost predicate Valid()
      reads this
    {
      TableOk(t) && Tree(t, [], root) && root.Inner? && cursor == root.Walk(path) && cursor.Inner?
    }

    constructor (t: Table, root: Node)
      requires TableOk(t) && Tree(t, [], root) && root.Inner?
      ensures Valid() && this.t == t && this.root == root && cursor == root && path == []
    {
      this.t, this.root, cursor, path := t, root, root, [];
    }

    /** Each octet decoded has used up the bits of its code. */
    lemma LeafUsesBits(b: bool)
      requires Valid() && cursor.Next(b).Leaf?
      ensures 5 <= |path| + 1
    {
      WalkAppend(root, path, b);
      assert WalkOk(t, [], root, path + [b]);
      var i := cursor.Next(b).val;
      assert t[i].Bits() == [] + (path + [b]);
    }

    method Read(r: BitReader, max: nat) returns (p: Str, res: Outcome)
      requires Valid() && r.Valid()
      modifies this, r
      ensures Valid() && r.Valid()
      ensures res == Full <==> |p| == max
      ensures |p| <= max
      ensures res == Full ==> Inflate(root, old(cursor), old(r.Bits())) == PrependAll(p, Inflate(root, cursor, r.Bits()))
      ensures res == Ended ==> Inflate(root, old(cursor), old(r.Bits())) == Ok(p) && r.Bits() == []
      ensures res == BadCode ==> Inflate(root, old(cursor), old(r.Bits())) == Err(Invalid)
      ensures 5 * |p| <= |old(path)| + |old(r.Bits())|
    {
      p, res := [], Full;
      ghost var all := Inflate(root, cursor, r.Bits());
      ghost var budget := |path| + |r.Bits()|;
      Nothing(all);
      while |p| < max
        invariant Valid() && r.Valid() && |p| <= max
        invariant all == PrependAll(p, Inflate(root, cursor, r.Bits()))
        invariant 5 * |p| + |path| + |r.Bits()| <= budget
        decreases |r.Bits()|
      {
        hide Tree, TableOk;
        ghost var bits := r.Bits();
        var b := r.ReadBit();
        if b.Err? {
          assert p + [] == p;
          return p, Ended;
        }
        var bit := b.value == 1;
        var next := cursor.Next(bit);
        if next == Nil {
          return p, BadCode;
        }
        WalkAppend(root, path, bit);
        if next.Leaf? {
          LeafUsesBits(bit);
          PrependMore(p, next.val, Inflate(root, root, bits[1..]));
          p := p + [next.val];
          cursor := root;
          path := [];
        } else {
          cursor := next;
          path := path + [bit];
        }
      }
    }
  }

  lemma Nothing(r: Result<Str>)
    ensures PrependAll([], r) == r
  {
    assert r.Ok? ==> [] + r.value == r.value;
  }

  lemma PrependMore(p: Str, v: Octet, r: Result<Str>)
    ensures PrependAll(p, Prepend(v, r)) == PrependAll(p + [v], r)
  {
    if r.Ok? {
      Assoc(p, [v], r.value);
    }
  }
}
