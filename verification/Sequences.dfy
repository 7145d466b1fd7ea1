/** Lists: selecting elements by their positions, in order. */
module Sequences {
  /** The positions below `n` that are kept, ascending. */
  function Positions(n: nat, keep: nat -> bool): (r: seq<nat>)
    ensures forall k :: 0 <= k < |r| ==> r[k] < n
  {
    if n == 0 then [] else Positions(n - 1, keep) + if keep(n - 1) then [n - 1] else []
  }

  lemma {:induction false} PositionsExactly(n: nat, keep: nat -> bool)
    ensures var r := Positions(n, keep);
      && (forall i, j :: 0 <= i < j < |r| ==> r[i] < r[j])
      && (forall t: nat :: t in r <==> t < n && keep(t))
  {
    if n > 0 {
      PositionsExactly(n - 1, keep);
    }
  }

  /** The elements whose positions are kept. */
  function Selected<T>(c: seq<T>, n: nat, keep: nat -> bool): seq<T>
    requires n <= |c|
  {
    var at := Positions(n, keep);
    seq(|at|, k requires 0 <= k < |at| => c[at[k]])
  }

  lemma SelectedNext<T>(c: seq<T>, n: nat, keep: nat -> bool)
    requires n < |c|
    ensures Selected(c, n + 1, keep) == if keep(n) then Selected(c, n, keep) + [c[n]] else Selected(c, n, keep)
  {
  }

  /** A selection holds exactly the kept elements, in their order. */
  lemma SelectedExactly<T>(c: seq<T>, n: nat, keep: nat -> bool)
    requires n <= |c|
    ensures var at, r := Positions(n, keep), Selected(c, n, keep);
      && |r| == |at| && (forall k :: 0 <= k < |at| ==> at[k] < n && r[k] == c[at[k]])
      && (forall i, j :: 0 <= i < j < |at| ==> at[i] < at[j])
      && (forall t: nat :: t in at <==> t < n && keep(t))
  {
    PositionsExactly(n, keep);
  }

  /** What stands for each kept position, in order. */
  function Gathered<T>(n: nat, keep: nat -> bool, of: nat -> T): seq<T> {
    var at := Positions(n, keep);
    seq(|at|, k requires 0 <= k < |at| => of(at[k]))
  }

  lemma GatheredNext<T>(n: nat, keep: nat -> bool, of: nat -> T)
    ensures Gathered(n + 1, keep, of) == if keep(n) then Gathered(n, keep, of) + [of(n)] else Gathered(n, keep, of)
  {
  }

  lemma Regroup<T>(a: seq<T>, b: seq<T>, c: seq<T>)
    ensures a + (b + c) == (a + b) + c
  {
  }
}
