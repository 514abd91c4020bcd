/** Small datatypes shared by the models. */
module Common {

  datatype Option<+T> = None | Some(value: T)

  datatype Result<+T, +E> = Ok(value: T) | Err(error: E)

  /** The fate of one API write issued by a reconcile pass.
      - Done: the write took effect and the pass goes on.
      - Cut: the write took effect but the pass ends there (a crash, or an error reply to a write that was applied).
      - Lost: the write had no effect and the pass ends (an error reply, a conflict, or a crash before the call). */
  datatype Write = Done | Cut | Lost

  function Min(a: int, b: int): int {
    if a <= b then a else b
  }

  // Lists that hold each element once, as sets.

  function AsSet<T(==)>(s: seq<T>): set<T> {
    set p | p in s
  }

  ghost predicate NoRepeats<T>(s: seq<T>) {
    forall i, j :: 0 <= i < j < |s| ==> s[i] != s[j]
  }

  lemma AppendToSet<T>(s: seq<T>, p: T)
    ensures AsSet(s + [p]) == AsSet(s) + {p}
  {
  }

  lemma {:induction false} SizeOfSet<T>(s: seq<T>)
    requires NoRepeats(s)
    ensures |AsSet(s)| == |s|
  {
    if s != [] {
      var n := |s| - 1;
      SizeOfSet(s[..n]);
      assert AsSet(s) == AsSet(s[..n]) + {s[n]};
    }
  }

  lemma SubsetSize<T>(a: set<T>, b: set<T>)
    requires a <= b
    ensures |a| <= |b|
  {
    assert b == a + (b - a);
  }
}
