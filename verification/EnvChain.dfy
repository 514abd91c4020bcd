/** The environment chain of a content project: admission check, the two chain walks, and promotion adjacency. */
module EnvChain {

  datatype Env = Env(envLabel: string, predecessor: string)

  // ---------------------------------------------------------------------------------------------------------------
  // What a well-formed chain is
  // ---------------------------------------------------------------------------------------------------------------

  function Labels(envs: seq<Env>): set<string> {
    set e | e in envs :: e.envLabel
  }

  predicate UniqueLabels(envs: seq<Env>) {
    forall i, j :: 0 <= i < j < |envs| ==> envs[i].envLabel != envs[j].envLabel
  }

  function Roots(envs: seq<Env>): set<int> {
    set i | 0 <= i < |envs| && envs[i].predecessor == ""
  }

  predicate DeclaresPredecessor(envs: seq<Env>, e: Env) {
    e.predecessor != "" ==> e.predecessor in Labels(envs)
  }

  predicate Declared(envs: seq<Env>) {
    forall e {:trigger DeclaresPredecessor(envs, e)} :: e in envs ==> DeclaresPredecessor(envs, e)
  }

  /** The predecessor of each label; a later declaration of a label overrides an earlier one. */
  function Predecessors(envs: seq<Env>): map<string, string> {
    if envs == [] then map[]
    else
      var n := |envs| - 1;
      Predecessors(envs[..n])[envs[n].envLabel := envs[n].predecessor]
  }

  lemma {:induction false} PredecessorKeys(envs: seq<Env>, name: string)
    ensures name in Predecessors(envs) <==> name in Labels(envs)
  {
    if envs != [] {
      var n := |envs| - 1;
      assert envs == envs[..n] + [envs[n]];
      PredecessorKeys(envs[..n], name);
    }
  }

  lemma {:induction false} PredecessorOf(envs: seq<Env>, e: Env)
    requires UniqueLabels(envs) && e in envs
    ensures e.envLabel in Predecessors(envs) && Predecessors(envs)[e.envLabel] == e.predecessor
  {
    var n := |envs| - 1;
    if e != envs[n] {
      assert envs == envs[..n] + [envs[n]];
      PredecessorOf(envs[..n], e);
      assert e.envLabel != envs[n].envLabel;
    }
  }

  /** The label reached from `cursor` by following `n` predecessor links; the empty label has no predecessor. */
  function Climb(pred: map<string, string>, cursor: string, n: nat): string
    decreases n
  {
    if n == 0 || cursor == "" then cursor
    else Climb(pred, if cursor in pred then pred[cursor] else "", n - 1)
  }

  ghost predicate ReachesItself(pred: map<string, string>, e: Env) {
    e.envLabel != "" && exists n: nat :: Climb(pred, e.predecessor, n) == e.envLabel
  }

  /** No label reaches itself. */
  ghost predicate Acyclic(envs: seq<Env>) {
    forall e {:trigger ReachesItself(Predecessors(envs), e)} :: e in envs ==> !ReachesItself(Predecessors(envs), e)
  }

  ghost predicate WellFormed(envs: seq<Env>) {
    envs != [] && UniqueLabels(envs) && |Roots(envs)| == 1 && Declared(envs) && Acyclic(envs)
  }

  predicate NonEmptyLabels(envs: seq<Env>) {
    forall e :: e in envs ==> e.envLabel != ""
  }

  /** No two environments share a predecessor. */
  predicate NoFork(envs: seq<Env>) {
    forall e, f :: e in envs && f in envs && e.predecessor == f.predecessor ==> e == f
  }

  lemma {:induction false} ClimbAdd(pred: map<string, string>, cursor: string, m: nat, n: nat)
    ensures Climb(pred, Climb(pred, cursor, m), n) == Climb(pred, cursor, m + n)
    decreases m
  {
    if m > 0 && cursor != "" {
      ClimbAdd(pred, if cursor in pred then pred[cursor] else "", m - 1, n);
    }
  }

  lemma {:induction false} ClimbFromEmpty(pred: map<string, string>, cursor: string, m: nat, n: nat)
    requires m <= n
    ensures Climb(pred, cursor, m) == "" ==> Climb(pred, cursor, n) == ""
  {
    ClimbAdd(pred, cursor, m, n - m);
  }

  /** The environment that carries a label. */
  function Find(envs: seq<Env>, name: string): (e: Env)
    requires name in Labels(envs)
    ensures e in envs && e.envLabel == name
  {
    if envs[0].envLabel == name then envs[0] else Find(envs[1..], name)
  }

  lemma SameLabel(envs: seq<Env>, e: Env, f: Env)
    requires UniqueLabels(envs) && e in envs && f in envs && e.envLabel == f.envLabel
    ensures e == f
  {
    var i :| 0 <= i < |envs| && envs[i] == e;
    var j :| 0 <= j < |envs| && envs[j] == f;
    assert i == j;
  }

  // ---------------------------------------------------------------------------------------------------------------
  // Cycle detection
  // ---------------------------------------------------------------------------------------------------------------

  lemma UndeclaredHasNoPredecessor(pred: map<string, string>, cursor: string, n: nat)
    requires n > 0
    ensures cursor !in pred ==> Climb(pred, cursor, n) == ""
  {
    if cursor !in pred {
      ClimbFromEmpty(pred, cursor, 1, n);
    }
  }

  /** A label that is met again by climbing from it belongs to an environment that reaches itself. */
  lemma ReturnMeansCycle(envs: seq<Env>, cursor: string, n: nat)
    requires UniqueLabels(envs) && cursor != "" && n > 0
    requires Climb(Predecessors(envs), cursor, n) == cursor
    ensures !Acyclic(envs)
  {
    UndeclaredHasNoPredecessor(Predecessors(envs), cursor, n);
    PredecessorKeys(envs, cursor);
    var f := Find(envs, cursor);
    PredecessorOf(envs, f);
    assert Climb(Predecessors(envs), f.predecessor, n - 1) == f.envLabel;
    assert ReachesItself(Predecessors(envs), f);
  }

  ghost predicate Met(pred: map<string, string>, e: Env, n: nat, place: string) {
    place == e.envLabel || exists i: nat :: i < n && Climb(pred, e.predecessor, i) == place
  }

  lemma RevisitMeansReturn(pred: map<string, string>, e: Env, n: nat) returns (k: nat)
    requires Climb(pred, e.predecessor, n) != e.envLabel
    requires Met(pred, e, n, Climb(pred, e.predecessor, n))
    ensures k > 0 && Climb(pred, Climb(pred, e.predecessor, n), k) == Climb(pred, e.predecessor, n)
  {
    var i: nat :| i < n && Climb(pred, e.predecessor, i) == Climb(pred, e.predecessor, n);
    k := n - i;
    ClimbAdd(pred, e.predecessor, i, k);
  }

  lemma RevisitMeansCycle(envs: seq<Env>, e: Env, n: nat)
    requires UniqueLabels(envs) && e in envs
    requires Climb(Predecessors(envs), e.predecessor, n) != ""
    requires Met(Predecessors(envs), e, n, Climb(Predecessors(envs), e.predecessor, n))
    ensures !Acyclic(envs)
  {
    var cursor := Climb(Predecessors(envs), e.predecessor, n);
    if cursor == e.envLabel {
      assert ReachesItself(Predecessors(envs), e);
    } else {
      var k := RevisitMeansReturn(Predecessors(envs), e, n);
      ReturnMeansCycle(envs, cursor, k);
    }
  }

  /** `seen` holds the environment's label and the places met in the first `n` steps of its climb, all different from
      that label. */
  ghost predicate Trail(pred: map<string, string>, e: Env, n: nat, seen: set<string>) {
    && e.envLabel in seen
    && (forall s :: s in seen ==> Met(pred, e, n, s))
    && forall i: nat :: i < n ==> Climb(pred, e.predecessor, i) in seen && Climb(pred, e.predecessor, i) != e.envLabel
  }

  lemma TrailGrows(pred: map<string, string>, e: Env, n: nat, seen: set<string>, cursor: string)
    requires Trail(pred, e, n, seen) && cursor !in seen && cursor != ""
    requires cursor == Climb(pred, e.predecessor, n)
    ensures Trail(pred, e, n + 1, seen + {cursor})
    ensures Climb(pred, e.predecessor, n + 1) == if cursor in pred then pred[cursor] else ""
  {
    ClimbAdd(pred, e.predecessor, n, 1);
    forall s | s in seen + {cursor}
      ensures Met(pred, e, n + 1, s)
    {
      if s != cursor && s != e.envLabel {
        var i: nat :| i < n && Climb(pred, e.predecessor, i) == s;
      }
    }
  }

  lemma TrailEnds(pred: map<string, string>, e: Env, n: nat, seen: set<string>)
    requires Trail(pred, e, n, seen) && Climb(pred, e.predecessor, n) == ""
    ensures !ReachesItself(pred, e)
  {
    forall j: nat | e.envLabel != ""
      ensures Climb(pred, e.predecessor, j) != e.envLabel
    {
      if j >= n {
        ClimbFromEmpty(pred, e.predecessor, n, j);
      }
    }
  }

  /** One climb of the cycle check; it ends on any input because every step meets a new place. */
  method ClimbsOut(pred: map<string, string>, e: Env) returns (ok: bool, ghost n: nat)
    ensures ok ==> !ReachesItself(pred, e)
    ensures !ok ==> Climb(pred, e.predecessor, n) != "" && Met(pred, e, n, Climb(pred, e.predecessor, n))
  {
    ghost var places := {e.envLabel, e.predecessor} + pred.Values;
    var seen := {e.envLabel};
    var cursor := e.predecessor;
    n := 0;
    while cursor != ""
      invariant cursor == Climb(pred, e.predecessor, n)
      invariant cursor == "" || cursor in places
      invariant seen <= places
      invariant Trail(pred, e, n, seen)
      decreases places - seen
    {
      if cursor in seen {
        return false, n;
      }
      TrailGrows(pred, e, n, seen, cursor);
      seen := seen + {cursor};
      cursor := if cursor in pred then pred[cursor] else "";
      n := n + 1;
    }
    TrailEnds(pred, e, n, seen);
    return true, n;
  }

  method PredecessorMap(envs: seq<Env>) returns (pred: map<string, string>)
    ensures pred == Predecessors(envs)
  {
    pred := map[];
    for i := 0 to |envs|
      invariant pred == Predecessors(envs[..i])
    {
      PrefixStep(envs, i);
      pred := pred[envs[i].envLabel := envs[i].predecessor];
    }
    assert envs[..|envs|] == envs;
  }

  lemma PrefixStep(envs: seq<Env>, i: int)
    requires 0 <= i < |envs|
    ensures Predecessors(envs[..i + 1]) == Predecessors(envs[..i])[envs[i].envLabel := envs[i].predecessor]
  {
    assert envs[..i + 1][..i] == envs[..i];
  }

  method IsAcyclic(envs: seq<Env>) returns (ok: bool)
    ensures UniqueLabels(envs) ==> (ok <==> Acyclic(envs))
  {
    var pred := PredecessorMap(envs);
    for k := 0 to |envs|
      invariant forall j :: 0 <= j < k ==> !ReachesItself(pred, envs[j])
    {
      var out, n := ClimbsOut(pred, envs[k]);
      if !out {
        if UniqueLabels(envs) {
          RevisitMeansCycle(envs, envs[k], n);
        }
        return false;
      }
    }
    return true;
  }

  // ---------------------------------------------------------------------------------------------------------------
  // Admission
  // ---------------------------------------------------------------------------------------------------------------

  datatype Problem = NoEnvironment | Duplicate(i: int) | WrongRoots(n: int) | Undeclared(i: int) | Cycle

  predicate DuplicateAt(envs: seq<Env>, i: int) {
    0 <= i < |envs| && exists j :: 0 <= j < i && envs[j].envLabel == envs[i].envLabel
  }

  predicate UndeclaredAt(envs: seq<Env>, i: int) {
    0 <= i < |envs| && envs[i].predecessor != "" && envs[i].predecessor !in Labels(envs)
  }

  /** Every problem an environment list has, one error each. A cycle is looked for only on an otherwise clean list. */
  ghost predicate HasProblem(envs: seq<Env>, p: Problem) {
    match p
    case NoEnvironment => envs == []
    case Duplicate(i) => DuplicateAt(envs, i)
    case WrongRoots(n) => envs != [] && n == |Roots(envs)| && n != 1
    case Undeclared(i) => UndeclaredAt(envs, i)
    case Cycle =>
      envs != [] && UniqueLabels(envs) && |Roots(envs)| == 1 && Declared(envs) && !Acyclic(envs)
  }

  lemma CleanIffShaped(envs: seq<Env>)
    ensures (forall i :: !DuplicateAt(envs, i)) <==> UniqueLabels(envs)
    ensures (forall i :: !UndeclaredAt(envs, i)) <==> Declared(envs)
  {
    if i :| UndeclaredAt(envs, i) {
      assert envs[i] in envs && !DeclaresPredecessor(envs, envs[i]);
    }
    if !UniqueLabels(envs) {
      var i, j :| 0 <= i < j < |envs| && envs[i].envLabel == envs[j].envLabel;
      assert DuplicateAt(envs, j);
    }
    if forall i :: !UndeclaredAt(envs, i) {
      forall e | e in envs
        ensures DeclaresPredecessor(envs, e)
      {
        var i :| 0 <= i < |envs| && envs[i] == e;
        assert !UndeclaredAt(envs, i);
      }
    }
  }

  /** The first pass over the list: labels seen, roots counted, duplicates reported. */
  method CheckLabels(envs: seq<Env>) returns (seen: set<string>, roots: int, errs: seq<Problem>)
    ensures seen == Labels(envs) && roots == |Roots(envs)|
    ensures forall p :: p in errs <==> p.Duplicate? && DuplicateAt(envs, p.i)
  {
    errs, seen, roots := [], {}, 0;
    for i := 0 to |envs|
      invariant seen == Labels(envs[..i]) && roots == |Roots(envs[..i])|
      invariant forall p :: p in errs <==> p.Duplicate? && p.i < i && DuplicateAt(envs, p.i)
    {
      var e := envs[i];
      AddOne(envs, i);
      if e.envLabel in seen {
        errs := errs + [Duplicate(i)];
      }
      seen := seen + {e.envLabel};
      if e.predecessor == "" {
        roots := roots + 1;
      }
    }
    assert envs[..|envs|] == envs;
  }

  lemma AddOne(envs: seq<Env>, i: int)
    requires 0 <= i < |envs|
    ensures Labels(envs[..i + 1]) == Labels(envs[..i]) + {envs[i].envLabel}
    ensures |Roots(envs[..i + 1])| == |Roots(envs[..i])| + if envs[i].predecessor == "" then 1 else 0
    ensures envs[i].envLabel in Labels(envs[..i]) <==> DuplicateAt(envs, i)
  {
    assert envs[..i + 1] == envs[..i] + [envs[i]];
    assert Roots(envs[..i + 1]) == Roots(envs[..i]) + if envs[i].predecessor == "" then {i} else {};
    if envs[i].envLabel in Labels(envs[..i]) {
      var e :| e in envs[..i] && e.envLabel == envs[i].envLabel;
    }
    if DuplicateAt(envs, i) {
      var j :| 0 <= j < i && envs[j].envLabel == envs[i].envLabel;
      assert envs[j] in envs[..i];
    }
  }

  /** The second pass: predecessors that no environment declares. */
  method CheckPredecessors(envs: seq<Env>, seen: set<string>) returns (errs: seq<Problem>)
    requires seen == Labels(envs)
    ensures forall p :: p in errs <==> p.Undeclared? && UndeclaredAt(envs, p.i)
  {
    errs := [];
    for i := 0 to |envs|
      invariant forall p :: p in errs <==> p.Undeclared? && p.i < i && UndeclaredAt(envs, p.i)
    {
      if envs[i].predecessor != "" && envs[i].predecessor !in seen {
        errs := errs + [Undeclared(i)];
      }
    }
  }

  /** The admission check reports exactly the problems the list has, and accepts exactly the well-formed chains. */
  method Validate(envs: seq<Env>) returns (errs: seq<Problem>)
    ensures forall p :: p in errs <==> HasProblem(envs, p)
    ensures errs == [] <==> WellFormed(envs)
  {
    if |envs| == 0 {
      return [NoEnvironment];
    }
    var seen, roots, duplicates := CheckLabels(envs);
    var wrongRoots := if roots == 1 then [] else [WrongRoots(roots)];
    var undeclared := CheckPredecessors(envs, seen);
    errs := duplicates + wrongRoots + undeclared;
    CleanIff(envs, errs);
    if |errs| == 0 {
      var acyclic := IsAcyclic(envs);
      if !acyclic {
        errs := [Cycle];
      }
    }
  }

  lemma CleanIff(envs: seq<Env>, errs: seq<Problem>)
    requires envs != []
    requires forall p :: p in errs <==> !p.Cycle? && HasProblem(envs, p)
    ensures errs == [] <==> UniqueLabels(envs) && |Roots(envs)| == 1 && Declared(envs)
  {
    CleanIffShaped(envs);
    if errs == [] {
      assert !HasProblem(envs, WrongRoots(|Roots(envs)|));
      forall i ensures !DuplicateAt(envs, i) && !UndeclaredAt(envs, i) {
        assert !HasProblem(envs, Duplicate(i)) && !HasProblem(envs, Undeclared(i));
      }
    } else {
      assert errs[0] in errs;
    }
  }
}
