/** The outcomes of a retry loop, one entry per try, each with the URL it went to. */
module AttemptLog {
  /** What was tried on URL `v`, in order. */
  function Tries<O>(log: seq<(nat, O)>, v: nat): seq<O> {
    if log == [] then []
    else Tries(log[..|log| - 1], v) + if log[|log| - 1].0 == v then [log[|log| - 1].1] else []
  }

  lemma TriesSnoc<O>(log: seq<(nat, O)>, u: nat, o: O, v: nat)
    ensures Tries(log + [(u, o)], v) == if u == v then Tries(log, v) + [o] else Tries(log, v)
  {
    assert (log + [(u, o)])[..|log + [(u, o)]| - 1] == log;
    assert Tries(log, v) + [] == Tries(log, v);
  }
}
