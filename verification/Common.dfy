/** Small vocabulary shared by the models. */
module Common {
  datatype Option<+T> = None | Some(value: T)

  /** What an empty ticker field pads to. */
  const NO_TICKER := "000000"

  function Max(a: int, b: int): int { if a < b then b else a }

  function Min(a: int, b: int): int { if a < b then a else b }

  /** Concatenation of a list of lists, in order. */
  function Flatten<T>(groups: seq<seq<T>>): seq<T> {
    if |groups| == 0 then [] else Flatten(groups[..|groups| - 1]) + groups[|groups| - 1]
  }

  lemma FlattenAppend<T>(groups: seq<seq<T>>, group: seq<T>)
    ensures Flatten(groups + [group]) == Flatten(groups) + group
  {
    assert (groups + [group])[..|groups|] == groups;
  }

  lemma {:induction false} FlattenPrepend<T>(group: seq<T>, groups: seq<seq<T>>)
    ensures Flatten([group] + groups) == group + Flatten(groups)
    decreases |groups|
  {
    if |groups| == 0 {
      assert [group] + groups == [group] && [group][..0] == [];
      assert Flatten([group]) == [] + group;
    } else {
      var init, last := groups[..|groups| - 1], groups[|groups| - 1];
      FlattenPrepend(group, init);
      assert groups == init + [last] && [group] + groups == ([group] + init) + [last];
      FlattenAppend([group] + init, last);
    }
  }

  // ----- what a filter gives

  function Same<T>(x: T): T { x }

  /** ys holds f of exactly the kept elements of xs, in their order, each as often as it occurs. */
  ghost predicate Picks<S, T>(xs: seq<S>, keep: S -> bool, f: S -> T, ys: seq<T>) {
    exists at: seq<nat> :: PickedAt(xs, keep, f, ys, at)
  }

  /** The positions the elements of ys come from: ascending, kept, and all that are kept. */
  ghost predicate PickedAt<S, T>(xs: seq<S>, keep: S -> bool, f: S -> T, ys: seq<T>, at: seq<nat>) {
    && |at| == |ys|
    && (forall k :: 0 <= k < |at| ==> at[k] < |xs| && keep(xs[at[k]]) && ys[k] == f(xs[at[k]]))
    && (forall k, l :: 0 <= k < l < |at| ==> at[k] < at[l])
    && (forall i :: 0 <= i < |xs| && keep(xs[i]) ==> i in at)
  }

  lemma PicksNone<S, T>(keep: S -> bool, f: S -> T)
    ensures Picks([], keep, f, [])
  {
    assert PickedAt([], keep, f, [], []);
  }

  lemma PicksStep<S, T>(xs: seq<S>, x: S, keep: S -> bool, f: S -> T, ys: seq<T>)
    requires Picks(xs, keep, f, ys)
    ensures Picks(xs + [x], keep, f, if keep(x) then ys + [f(x)] else ys)
  {
    var at :| PickedAt(xs, keep, f, ys, at);
    if keep(x) {
      PickedLast(xs, x, keep, f, ys, at);
    } else {
      assert PickedAt(xs + [x], keep, f, ys, at);
    }
  }

  lemma PickedLast<S, T>(xs: seq<S>, x: S, keep: S -> bool, f: S -> T, ys: seq<T>, at: seq<nat>)
    requires PickedAt(xs, keep, f, ys, at) && keep(x)
    ensures PickedAt(xs + [x], keep, f, ys + [f(x)], at + [|xs|])
  {
    var more, all := at + [|xs|], xs + [x];
    forall i | 0 <= i < |all| && keep(all[i]) ensures i in more {
      if i < |xs| { assert all[i] == xs[i] && i in at; } else { assert more[|at|] == i; }
    }
  }

  /** Positions of the kept elements. */
  ghost function Indices<T>(xs: seq<T>, keep: T -> bool): set<nat> {
    set i: nat | i < |xs| && keep(xs[i])
  }

  lemma IndicesStep<T>(xs: seq<T>, x: T, keep: T -> bool)
    ensures |Indices(xs + [x], keep)| == |Indices(xs, keep)| + (if keep(x) then 1 else 0)
  {
    assert Indices(xs + [x], keep) == Indices(xs, keep) + (if keep(x) then {|xs|} else {});
  }

  lemma MulMono(x: int, y: int, b: int)
    requires x <= y && b >= 0
    ensures x * b <= y * b
  {
    assert (y - x) * b >= 0;
  }

  lemma NegativeProduct(x: real, m: real)
    requires x < 0.0 && m > 0.0
    ensures x * m < 0.0
  {
  }

  lemma ShareAtLeast(k: real, m: real, x: real)
    requires m > 0.0
    ensures k / m >= x <==> k >= x * m
  {
    var q := k / m;
    assert q * m == k;
    if q >= x { ScaleReal(x, q, m); }
    if q < x { NegativeProduct(q - x, m); }
  }

  lemma ScaleReal(x: real, y: real, m: real)
    requires x <= y && m > 0.0
    ensures x * m <= y * m
  {
    if x < y { NegativeProduct(x - y, m); }
  }
}
