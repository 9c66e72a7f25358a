/** Header fields, table entries and their sizes (hc/codec.go, hc/table.go). */
module Headers {

  /** Go strings are byte strings. */
  type Octet = n: nat | n < 256
  type Str = seq<Octet>

  /** The name and value held by a table entry. */
  datatype Pair = Pair(name: Str, value: Str)

  datatype Field = Field(name: Str, value: Str, sensitive: bool) {
    function AsPair(): Pair { Pair(name, value) }
  }

  datatype Option<+T> = None | Some(value: T)

  const ENTRY_OVERHEAD: nat := 32

  function Size(p: Pair): nat {
    ENTRY_OVERHEAD + |p.name| + |p.value|
  }

  function Max(a: nat, b: nat): nat { if a > b then a else b }

  function Min(a: nat, b: nat): nat { if a < b then a else b }

  function LowerOctet(c: Octet): Octet {
    if 65 <= c <= 90 then c + 32 else c
  }

  /** ASCII lower-casing of a header name. */
  function Lower(s: Str): Str {
    seq(|s|, i requires 0 <= i < |s| => LowerOctet(s[i]))
  }

  function Lowered(f: Field): Field {
    Field(Lower(f.name), f.value, f.sensitive)
  }

  function LowerAll(fs: seq<Field>): seq<Field> {
    seq(|fs|, i requires 0 <= i < |fs| => Lowered(fs[i]))
  }

  predicate IsUpper(c: Octet) { 65 <= c <= 90 }

  predicate NoUpper(s: Str) {
    forall i :: 0 <= i < |s| ==> !IsUpper(s[i])
  }

  /** The same letter in either case, or the same octet. */
  predicate SameLetter(a: Octet, b: Octet) {
    a == b || (IsUpper(a) && b == a + 32) || (IsUpper(b) && a == b + 32)
  }

  /** Lower-casing leaves no upper-case octet, and nothing to do where there is none;
      two strings become equal exactly if they agree up to ASCII case. */
  lemma LowerExactly(s: Str, t: Str)
    ensures NoUpper(Lower(s)) && (Lower(s) == s <==> NoUpper(s))
    ensures Lower(s) == Lower(t) <==> |s| == |t| && forall i :: 0 <= i < |s| ==> SameLetter(s[i], t[i])
  {
    if Lower(s) == s {
      assert forall i :: 0 <= i < |s| ==> Lower(s)[i] == LowerOctet(s[i]);
    }
    if Lower(s) == Lower(t) {
      forall i | 0 <= i < |s| ensures SameLetter(s[i], t[i]) {
        assert Lower(s)[i] == LowerOctet(s[i]) && Lower(t)[i] == LowerOctet(t[i]);
      }
    }
  }

  predicate NamesLower(fs: seq<Field>) {
    forall i :: 0 <= i < |fs| ==> NoUpper(fs[i].name)
  }

  /** A list of fields whose names are in lower case is left alone. */
  lemma LowerAllExactly(fs: seq<Field>)
    ensures NamesLower(LowerAll(fs)) && (LowerAll(fs) == fs <==> NamesLower(fs))
  {
    forall i | 0 <= i < |fs| ensures NoUpper(LowerAll(fs)[i].name) && (LowerAll(fs)[i] == fs[i] <==> NoUpper(fs[i].name)) {
      LowerExactly(fs[i].name, fs[i].name);
    }
  }
}
