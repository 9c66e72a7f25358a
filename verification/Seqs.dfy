/** Properties of sequences whose elements are taken one after the other. */
module Seqs {
  import opened Headers

  /** `p` holds of every element of `us`, the first of which is at position `k`. */
  ghost predicate AllAt<T>(p: (nat, T) -> bool, k: nat, us: seq<T>)
    decreases |us|
  {
    us == [] || (p(k, us[0]) && AllAt(p, k + 1, us[1..]))
  }

  lemma {:induction false} AllAtImplies<T(!new)>(p: (nat, T) -> bool, q: (nat, T) -> bool, k: nat, us: seq<T>)
    requires AllAt(p, k, us) && forall i: nat, u: T :: p(i, u) ==> q(i, u)
    ensures AllAt(q, k, us)
    decreases |us|
  {
    if us != [] {
      AllAtImplies(p, q, k + 1, us[1..]);
    }
  }

  lemma {:induction false} AllAtAppend<T>(p: (nat, T) -> bool, k: nat, us: seq<T>, vs: seq<T>)
    requires AllAt(p, k, us) && AllAt(p, k + |us|, vs)
    ensures AllAt(p, k, us + vs)
    decreases |us|
  {
    if us == [] {
      assert us + vs == vs;
    } else {
      assert (us + vs)[1..] == us[1..] + vs;
      AllAtAppend(p, k + 1, us[1..], vs);
    }
  }

  lemma AllAtOne<T>(p: (nat, T) -> bool, k: nat, u: T)
    requires p(k, u)
    ensures AllAt(p, k, [u])
  {
    assert [u][1..] == [];
  }

  /** Take the elements of `us` in order, as long as `step` accepts them. */
  function Fold<S, T>(step: (S, T) -> Option<S>, s: S, us: seq<T>): Option<S>
    decreases |us|
  {
    if us == [] then Some(s)
    else match step(s, us[0])
      case None => None
      case Some(s') => Fold(step, s', us[1..])
  }

  lemma {:induction false} FoldAppend<S, T>(step: (S, T) -> Option<S>, s: S, us: seq<T>, u: T)
    ensures Fold(step, s, us + [u]) == match Fold(step, s, us) case None => None case Some(t) => step(t, u)
    decreases |us|
  {
    if us == [] {
      assert ([] + [u])[1..] == [];
      assert [] + [u] == [u];
    } else {
      assert (us + [u])[1..] == us[1..] + [u];
      match step(s, us[0])
      case None =>
      case Some(s') => FoldAppend(step, s', us[1..], u);
    }
  }

  lemma Assoc<T>(a: seq<T>, b: seq<T>, c: seq<T>)
    ensures (a + b) + c == a + (b + c)
  {
  }
}
