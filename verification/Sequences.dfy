/** The elements of a sequence that have a property. */
module Sequences {

  function Select<T>(p: T -> bool, xs: seq<T>): seq<T> {
    if xs == [] then [] else Select(p, xs[..|xs| - 1]) + (if p(xs[|xs| - 1]) then [xs[|xs| - 1]] else [])
  }

  lemma SelectOneMore<T>(p: T -> bool, xs: seq<T>, x: T)
    ensures Select(p, xs + [x]) == if p(x) then Select(p, xs) + [x] else Select(p, xs)
  {
    assert (xs + [x])[..|xs|] == xs;
    assert Select(p, xs) + [] == Select(p, xs);
  }

  lemma {:induction false} SelectAll<T>(p: T -> bool, xs: seq<T>)
    requires forall i :: 0 <= i < |xs| ==> p(xs[i])
    ensures Select(p, xs) == xs
  {
    if xs != [] { SelectAll(p, xs[..|xs| - 1]); }
  }

  lemma {:induction false} SelectNone<T>(p: T -> bool, xs: seq<T>)
    requires forall i :: 0 <= i < |xs| ==> !p(xs[i])
    ensures Select(p, xs) == []
  {
    if xs != [] { SelectNone(p, xs[..|xs| - 1]); }
  }

  lemma {:induction false} SelectSame<T>(p: T -> bool, q: T -> bool, xs: seq<T>)
    requires forall i :: 0 <= i < |xs| ==> p(xs[i]) == q(xs[i])
    ensures Select(p, xs) == Select(q, xs)
  {
    if xs != [] { SelectSame(p, q, xs[..|xs| - 1]); }
  }

  lemma {:induction false} SelectedFrom<T>(p: T -> bool, xs: seq<T>, k: nat) returns (i: nat)
    requires k < |Select(p, xs)|
    ensures i < |xs| && xs[i] == Select(p, xs)[k] && p(xs[i])
    decreases |xs|
  {
    var init := xs[..|xs| - 1];
    if k < |Select(p, init)| {
      i := SelectedFrom(p, init, k);
    } else {
      i := |xs| - 1;
    }
  }

  lemma SelectedHave<T>(p: T -> bool, xs: seq<T>)
    ensures forall k :: 0 <= k < |Select(p, xs)| ==> p(Select(p, xs)[k])
  {
    forall k | 0 <= k < |Select(p, xs)| ensures p(Select(p, xs)[k]) {
      var i := SelectedFrom(p, xs, k);
    }
  }

  lemma {:induction false} SelectsSome<T>(p: T -> bool, xs: seq<T>, i: nat)
    requires i < |xs| && p(xs[i])
    ensures Select(p, xs) != []
  {
    if i < |xs| - 1 { SelectsSome(p, xs[..|xs| - 1], i); }
  }
}
