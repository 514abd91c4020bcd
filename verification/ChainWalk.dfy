/** The two walks down an environment chain, and what promotion admission makes of the same chain. */
module ChainWalk {
  import opened Common
  import opened EnvChain

  /** The environment that follows each label; a later declaration overrides an earlier one with the same
      predecessor. */
  function ByPredecessor(envs: seq<Env>): map<string, Env> {
    if envs == [] then map[]
    else
      var n := |envs| - 1;
      ByPredecessor(envs[..n])[envs[n].predecessor := envs[n]]
  }

  lemma {:induction false} Follower(envs: seq<Env>, p: string)
    ensures var follow := ByPredecessor(envs);
            p in follow ==> follow[p] in envs && follow[p].predecessor == p
  {
    if envs != [] {
      Follower(envs[..|envs| - 1], p);
    }
  }

  lemma {:induction false} HasFollower(envs: seq<Env>, e: Env)
    requires e in envs
    ensures e.predecessor in ByPredecessor(envs)
  {
    var n := |envs| - 1;
    if e != envs[n] {
      assert envs == envs[..n] + [envs[n]];
      HasFollower(envs[..n], e);
    }
  }


  function LabelsOf(follow: map<string, Env>): set<string> {
    set p | p in follow :: follow[p].envLabel
  }

  /** The chain from `cursor` down, cut before the first label already visited. */
  function Walk(follow: map<string, Env>, cursor: string, visited: set<string>): seq<Env>
    decreases LabelsOf(follow) - visited
  {
    if cursor !in follow || follow[cursor].envLabel in visited then []
    else [follow[cursor]] + Walk(follow, follow[cursor].envLabel, visited + {follow[cursor].envLabel})
  }

  function Order(envs: seq<Env>): seq<Env> {
    Walk(ByPredecessor(envs), "", {})
  }

  // ---------------------------------------------------------------------------------------------------------------
  // The walks as they run
  // ---------------------------------------------------------------------------------------------------------------

  method IndexByPredecessor(envs: seq<Env>) returns (follow: map<string, Env>)
    ensures follow == ByPredecessor(envs)
  {
    follow := map[];
    for i := 0 to |envs|
      invariant follow == ByPredecessor(envs[..i])
    {
      IndexStep(envs, i);
      follow := follow[envs[i].predecessor := envs[i]];
    }
    assert envs[..|envs|] == envs;
  }

  lemma IndexStep(envs: seq<Env>, i: int)
    requires 0 <= i < |envs|
    ensures ByPredecessor(envs[..i + 1]) == ByPredecessor(envs[..i])[envs[i].predecessor := envs[i]]
  {
    assert envs[..i + 1][..i] == envs[..i];
  }

  /** The walk over Uyuni's own links: ends on any input. */
  method ChainOrderFromUyuni(envs: seq<Env>) returns (out: seq<Env>)
    ensures out == Order(envs)
  {
    var follow := IndexByPredecessor(envs);
    out := [];
    var cursor := "";
    var visited: set<string> := {};
    while true
      invariant out + Walk(follow, cursor, visited) == Order(envs)
      decreases LabelsOf(follow) - visited
    {
      if cursor !in follow || follow[cursor].envLabel in visited {
        break;
      }
      var next := follow[cursor];
      visited := visited + {next.envLabel};
      out := out + [next];
      cursor := next.envLabel;
    }
  }

  /** The label a path has come to before its element `i`. */
  function LabelBefore(out: seq<Env>, i: int): string
    requires 0 <= i <= |out|
  {
    if i == 0 then "" else out[i - 1].envLabel
  }

  /** A path that starts at a root, follows the links, and repeats no label. */
  ghost predicate RootPath(envs: seq<Env>, out: seq<Env>) {
    && (forall e :: e in out ==> e in envs)
    && (forall i {:trigger LabelBefore(out, i)} :: 0 <= i < |out| ==> out[i].predecessor == LabelBefore(out, i))
    && UniqueLabels(out)
  }

  lemma PathNeverReturns(envs: seq<Env>, out: seq<Env>, next: Env)
    requires UniqueLabels(envs) && NonEmptyLabels(out) && RootPath(envs, out)
    requires next in envs && next.predecessor == LabelBefore(out, |out|)
    ensures next.envLabel !in Labels(out)
  {
    forall j | 0 <= j < |out|
      ensures out[j].envLabel != next.envLabel
    {
      assert out[|out| - 1] in out && out[j].predecessor == LabelBefore(out, j);
      if out[j].envLabel == next.envLabel {
        SameLabel(envs, out[j], next);
        assert false;
      }
    }
  }

  lemma ExtendPath(envs: seq<Env>, out: seq<Env>, next: Env)
    requires RootPath(envs, out) && next in envs && next.envLabel !in Labels(out)
    requires next.predecessor == LabelBefore(out, |out|)
    ensures RootPath(envs, out + [next]) && Labels(out + [next]) == Labels(out) + {next.envLabel}
  {
    forall j | 0 <= j < |out|
      ensures out[j].envLabel != next.envLabel
    {
      assert out[j] in out;
    }
    var longer := out + [next];
    forall i | 0 <= i < |longer|
      ensures longer[i].predecessor == LabelBefore(longer, i)
    {
      assert LabelBefore(longer, i) == LabelBefore(out, i);
    }
  }

  /** One round of the walk over an admitted chain: the next environment is new. */
  lemma WalkRound(envs: seq<Env>, out: seq<Env>)
    requires UniqueLabels(envs) && NonEmptyLabels(envs) && RootPath(envs, out)
    requires LabelBefore(out, |out|) in ByPredecessor(envs)
    ensures var follow, cursor := ByPredecessor(envs), LabelBefore(out, |out|);
            var longer := out + [follow[cursor]];
            && RootPath(envs, longer) && Labels(longer) == Labels(out) + {follow[cursor].envLabel}
            && follow[cursor].envLabel !in Labels(out)
            && out + Walk(follow, cursor, Labels(out)) == longer + Walk(follow, follow[cursor].envLabel, Labels(longer))
  {
    var follow, cursor := ByPredecessor(envs), LabelBefore(out, |out|);
    Follower(envs, cursor);
    PathNeverReturns(envs, out, follow[cursor]);
    ExtendPath(envs, out, follow[cursor]);
  }

  /** The walk over an admitted chain keeps no record of the labels it has visited: with non-empty, unique labels it
      never meets one twice. */
  method ChainOrder(envs: seq<Env>) returns (out: seq<Env>)
    requires WellFormed(envs) && NonEmptyLabels(envs)
    ensures out == Order(envs)
  {
    var follow := IndexByPredecessor(envs);
    out := [];
    var cursor := "";
    assert Labels([]) == {};
    while true
      invariant out + Walk(follow, cursor, Labels(out)) == Order(envs)
      invariant RootPath(envs, out) && cursor == LabelBefore(out, |out|)
      decreases LabelsOf(follow) - Labels(out)
    {
      if cursor !in follow {
        break;
      }
      WalkRound(envs, out);
      var next := follow[cursor];
      out := out + [next];
      cursor := next.envLabel;
    }
  }

  // ---------------------------------------------------------------------------------------------------------------
  // What the walk returns
  // ---------------------------------------------------------------------------------------------------------------

  /** A walk that has come as far as `out` goes on to a path whose last label nothing new follows. */
  lemma {:induction false} WalkExtends(envs: seq<Env>, out: seq<Env>, cursor: string)
    requires RootPath(envs, out) && cursor == LabelBefore(out, |out|)
    ensures var follow := ByPredecessor(envs); var all := out + Walk(follow, cursor, Labels(out));
            && RootPath(envs, all)
            && (LabelBefore(all, |all|) in follow ==> follow[LabelBefore(all, |all|)].envLabel in Labels(all))
    decreases LabelsOf(ByPredecessor(envs)) - Labels(out)
  {
    var follow := ByPredecessor(envs);
    if cursor in follow && follow[cursor].envLabel !in Labels(out) {
      var next := follow[cursor];
      Follower(envs, cursor);
      ExtendPath(envs, out, next);
      WalkExtends(envs, out + [next], next.envLabel);
      assert (out + [next]) + Walk(follow, next.envLabel, Labels(out + [next]))
          == out + Walk(follow, cursor, Labels(out));
    } else {
      assert out + Walk(follow, cursor, Labels(out)) == out;
    }
  }

  /** On any input the walk returns one root path without repetitions. */
  lemma OrderIsRootPath(envs: seq<Env>)
    ensures RootPath(envs, Order(envs))
  {
    WalkExtends(envs, [], "");
    assert Labels([]) == {};
    assert [] + Order(envs) == Order(envs);
  }

  ghost predicate HasSuccessor(envs: seq<Env>, name: string) {
    exists e :: e in envs && e.predecessor == name
  }

  /** Nothing follows the last environment of the order, unless a label on it is empty. */
  lemma NothingFollowsLast(envs: seq<Env>)
    requires UniqueLabels(envs) && NonEmptyLabels(Order(envs))
    ensures LabelBefore(Order(envs), |Order(envs)|) !in ByPredecessor(envs)
  {
    var follow, out := ByPredecessor(envs), Order(envs);
    OrderIsRootPath(envs);
    WalkExtends(envs, [], "");
    assert Labels([]) == {} && [] + out == out;
    var last := LabelBefore(out, |out|);
    Follower(envs, last);
    if last in follow {
      PathNeverReturns(envs, out, follow[last]);
    }
  }

  lemma OrderStarts(envs: seq<Env>)
    requires WellFormed(envs)
    ensures Order(envs) != []
  {
    var i :| i in Roots(envs);
    HasFollower(envs, envs[i]);
  }

  /** On an admitted chain the path goes on until no environment follows. */
  lemma OrderIsMaximal(envs: seq<Env>)
    requires WellFormed(envs) && NonEmptyLabels(Order(envs))
    ensures Order(envs) != [] && !HasSuccessor(envs, Order(envs)[|Order(envs)| - 1].envLabel)
  {
    OrderIsRootPath(envs);
    OrderStarts(envs);
    NothingFollowsLast(envs);
    forall e | e in envs && e.predecessor == Order(envs)[|Order(envs)| - 1].envLabel
      ensures false
    {
      HasFollower(envs, e);
    }
  }

  // ---------------------------------------------------------------------------------------------------------------
  // Every climb ends at the root
  // ---------------------------------------------------------------------------------------------------------------

  ghost function ClimbedBelow(pred: map<string, string>, cursor: string, n: nat): set<string> {
    set i | 0 <= i < n :: Climb(pred, cursor, i)
  }

  lemma ClimbIsDeclared(envs: seq<Env>, e: Env, n: nat)
    requires WellFormed(envs) && e in envs && Climb(Predecessors(envs), e.predecessor, n) != ""
    ensures Climb(Predecessors(envs), e.predecessor, n) in Labels(envs)
  {
    assert DeclaresPredecessor(envs, e);
    if n > 0 {
      ClimbAdd(Predecessors(envs), e.predecessor, n - 1, 1);
      ClimbStaysDeclared(envs, Climb(Predecessors(envs), e.predecessor, n - 1));
    }
  }

  lemma ClimbIsNew(envs: seq<Env>, e: Env, i: nat, n: nat)
    requires WellFormed(envs) && e in envs && i < n && Climb(Predecessors(envs), e.predecessor, n) != ""
    ensures Climb(Predecessors(envs), e.predecessor, i) != Climb(Predecessors(envs), e.predecessor, n)
  {
    var pred := Predecessors(envs);
    ClimbAdd(pred, e.predecessor, i, n - i);
    if Climb(pred, e.predecessor, i) == Climb(pred, e.predecessor, n) {
      ReturnMeansCycle(envs, Climb(pred, e.predecessor, n), n - i);
    }
  }

  /** While a climb has not ended, it is among the declared labels and every step is new. */
  lemma {:induction false} ClimbsAreNew(envs: seq<Env>, e: Env, n: nat)
    requires WellFormed(envs) && e in envs
    requires n > 0 ==> Climb(Predecessors(envs), e.predecessor, n - 1) != ""
    ensures ClimbedBelow(Predecessors(envs), e.predecessor, n) <= Labels(envs)
    ensures |ClimbedBelow(Predecessors(envs), e.predecessor, n)| == n
  {
    if n > 0 {
      var pred := Predecessors(envs);
      var below, cursor := ClimbedBelow(pred, e.predecessor, n - 1), Climb(pred, e.predecessor, n - 1);
      ClimbIsDeclared(envs, e, n - 1);
      if n > 1 {
        ClimbFromEmpty(pred, e.predecessor, n - 2, n - 1);
      }
      ClimbsAreNew(envs, e, n - 1);
      assert ClimbedBelow(pred, e.predecessor, n) == below + {cursor};
      forall i: nat | i < n - 1
        ensures Climb(pred, e.predecessor, i) != cursor
      {
        ClimbIsNew(envs, e, i, n - 1);
      }
      assert cursor !in below;
    }
  }

  lemma ClimbStaysDeclared(envs: seq<Env>, name: string)
    requires UniqueLabels(envs) && Declared(envs)
    ensures name == "" ==> Climb(Predecessors(envs), name, 1) == ""
    ensures var up := Climb(Predecessors(envs), name, 1); up != "" ==> up in Labels(envs)
  {
    PredecessorKeys(envs, name);
    if name != "" && name in Predecessors(envs) {
      var f := Find(envs, name);
      PredecessorOf(envs, f);
      assert DeclaresPredecessor(envs, f);
      assert Climb(Predecessors(envs), name, 1) == f.predecessor;
    }
  }

  lemma ClimbEnds(envs: seq<Env>, e: Env) returns (n: nat)
    requires WellFormed(envs) && e in envs
    ensures Climb(Predecessors(envs), e.predecessor, n) == ""
  {
    n := |Labels(envs)|;
    var pred := Predecessors(envs);
    if Climb(pred, e.predecessor, n) != "" {
      ClimbsAreNew(envs, e, n + 1);
      SubsetSize(ClimbedBelow(pred, e.predecessor, n + 1), Labels(envs));
      assert false;
    }
  }

  // ---------------------------------------------------------------------------------------------------------------
  // Permutation, and forks
  // ---------------------------------------------------------------------------------------------------------------

  /** Without forks every environment whose climb ends is on the walk. */
  lemma {:induction false} OnTheWalk(envs: seq<Env>, e: Env, n: nat)
    requires WellFormed(envs) && NonEmptyLabels(Order(envs)) && NoFork(envs) && e in envs
    requires Climb(Predecessors(envs), e.predecessor, n) == ""
    ensures e in Order(envs)
    decreases n
  {
    var out := Order(envs);
    OrderIsRootPath(envs);
    OrderIsMaximal(envs);
    if e.predecessor == "" {
      assert out[0].predecessor == LabelBefore(out, 0) && out[0] in out;
    } else {
      assert DeclaresPredecessor(envs, e);
      var f := Find(envs, e.predecessor);
      PredecessorOf(envs, f);
      assert n > 0 && Climb(Predecessors(envs), f.predecessor, n - 1) == "";
      OnTheWalk(envs, f, n - 1);
      var j :| 0 <= j < |out| && out[j] == f;
      assert HasSuccessor(envs, f.envLabel);
      assert out[j + 1].predecessor == LabelBefore(out, j + 1) && out[j + 1] in out;
    }
  }

  lemma {:induction false} CountWithoutRepeats(s: seq<Env>, e: Env)
    requires UniqueLabels(s)
    ensures multiset(s)[e] == if e in s then 1 else 0
  {
    if s != [] {
      assert s == [s[0]] + s[1..];
      CountWithoutRepeats(s[1..], e);
      if e in s[1..] {
        var i :| 0 <= i < |s| - 1 && s[1..][i] == e;
        assert s[i + 1] == e;
      }
    }
  }

  lemma SameElementsSameMultiset(s: seq<Env>, t: seq<Env>)
    requires UniqueLabels(s) && UniqueLabels(t)
    requires forall e :: e in s <==> e in t
    ensures multiset(s) == multiset(t)
  {
    forall e: Env
      ensures multiset(s)[e] == multiset(t)[e]
    {
      CountWithoutRepeats(s, e);
      CountWithoutRepeats(t, e);
    }
  }

  /** A root path takes at most one branch of a fork. */
  lemma PathTakesOneBranch(envs: seq<Env>, out: seq<Env>, i: int, j: int)
    requires NonEmptyLabels(envs) && RootPath(envs, out)
    requires 0 <= i < |out| && 0 <= j < |out| && out[i].predecessor == out[j].predecessor
    ensures i == j
  {
    assert LabelBefore(out, i) == LabelBefore(out, j);
    assert i > 0 ==> out[i - 1] in out;
    assert j > 0 ==> out[j - 1] in out;
  }

  lemma EveryoneOnTheWalk(envs: seq<Env>, e: Env)
    requires WellFormed(envs) && NonEmptyLabels(envs) && NoFork(envs) && e in envs
    ensures e in Order(envs)
  {
    OrderIsRootPath(envs);
    var n := ClimbEnds(envs, e);
    OnTheWalk(envs, e, n);
  }

  /** On an admitted chain the walk is a permutation of the environments exactly when no two share a predecessor. */
  lemma OrderIsPermutationIffNoFork(envs: seq<Env>)
    requires WellFormed(envs) && NonEmptyLabels(envs)
    ensures multiset(Order(envs)) == multiset(envs) <==> NoFork(envs)
  {
    var out := Order(envs);
    OrderIsRootPath(envs);
    if NoFork(envs) {
      forall e | e in envs
        ensures e in out
      {
        EveryoneOnTheWalk(envs, e);
      }
      SameElementsSameMultiset(out, envs);
    } else if multiset(out) == multiset(envs) {
      var e, f :| e in envs && f in envs && e.predecessor == f.predecessor && e != f;
      assert e in multiset(out) && f in multiset(out);
      var i :| 0 <= i < |out| && out[i] == e;
      var j :| 0 <= j < |out| && out[j] == f;
      PathTakesOneBranch(envs, out, i, j);
    }
  }

  function Fork(a: string, b: string, c: string): seq<Env> {
    [Env(a, ""), Env(b, a), Env(c, a)]
  }

  lemma ForkIsAcyclic(a: string, b: string, c: string)
    requires a != "" && b != "" && c != "" && a != b && b != c && a != c
    ensures Acyclic(Fork(a, b, c))
  {
    var envs := Fork(a, b, c);
    var pred := Predecessors(envs);
    PredecessorOf(envs, envs[0]);
    forall e, n: nat | e in envs
      ensures Climb(pred, e.predecessor, n) != e.envLabel
    {
      if n > 0 {
        ClimbFromEmpty(pred, "", 0, n - 1);
      }
    }
  }

  lemma ForkIsAdmitted(a: string, b: string, c: string)
    requires a != "" && b != "" && c != "" && a != b && b != c && a != c
    ensures WellFormed(Fork(a, b, c))
  {
    assert Roots(Fork(a, b, c)) == {0};
    ForkIsAcyclic(a, b, c);
  }

  /** An admitted fork: the walk keeps one branch and silently drops the other. */
  lemma ForkDropsABranch(a: string, b: string, c: string)
    requires a != "" && b != "" && c != "" && a != b && b != c && a != c
    ensures WellFormed(Fork(a, b, c)) && Order(Fork(a, b, c)) == [Env(a, ""), Env(c, a)]
  {
    ForkIsAdmitted(a, b, c);
    ForkFollows(a, b, c);
    WalkTwo(map["" := Env(a, ""), a := Env(c, a)], a, c);
  }

  lemma WalkTwo(follow: map<string, Env>, a: string, c: string)
    requires follow == map["" := Env(a, ""), a := Env(c, a)] && c !in follow && a != "" && a != c
    ensures Walk(follow, "", {}) == [Env(a, ""), Env(c, a)]
  {
    assert {} + {a} == {a};
    assert Walk(follow, a, {a}) == [Env(c, a)] + Walk(follow, c, {a} + {c});
  }

  lemma ForkFollows(a: string, b: string, c: string)
    requires a != "" && a != b && b != c && a != c
    ensures ByPredecessor(Fork(a, b, c)) == map["" := Env(a, ""), a := Env(c, a)]
  {
    var envs := Fork(a, b, c);
    assert envs[..2][..1] == [envs[0]] && envs[..2] == [envs[0], envs[1]];
    assert ByPredecessor([envs[0]]) == map["" := envs[0]];
    assert ByPredecessor(envs[..2]) == map["" := envs[0], a := envs[1]];
  }

  // ---------------------------------------------------------------------------------------------------------------
  // When the unguarded walk ends
  // ---------------------------------------------------------------------------------------------------------------

  /** The cursor of the unguarded walk after `n` rounds; None once it has ended. */
  function CursorAt(follow: map<string, Env>, n: nat): Option<string> {
    if n == 0 then Some("")
    else
      var c := CursorAt(follow, n - 1);
      if c.None? || c.value !in follow then None else Some(follow[c.value].envLabel)
  }

  ghost predicate Halts(follow: map<string, Env>) {
    exists n: nat :: CursorAt(follow, n).None?
  }

  lemma {:induction false} CursorFollowsPath(envs: seq<Env>, n: nat)
    requires n <= |Order(envs)|
    ensures CursorAt(ByPredecessor(envs), n) == Some(LabelBefore(Order(envs), n))
  {
    if n > 0 {
      CursorFollowsPath(envs, n - 1);
      OrderStep(envs, n - 1);
    }
  }

  lemma {:induction false} WalkStep(follow: map<string, Env>, cursor: string, visited: set<string>, i: int)
    requires 0 <= i < |Walk(follow, cursor, visited)|
    ensures var w := Walk(follow, cursor, visited);
            var c := if i == 0 then cursor else w[i - 1].envLabel;
            c in follow && follow[c] == w[i]
    decreases i
  {
    if i > 0 {
      WalkStep(follow, follow[cursor].envLabel, visited + {follow[cursor].envLabel}, i - 1);
    }
  }

  lemma OrderStep(envs: seq<Env>, i: int)
    requires 0 <= i < |Order(envs)|
    ensures var c := LabelBefore(Order(envs), i);
            c in ByPredecessor(envs) && ByPredecessor(envs)[c] == Order(envs)[i]
  {
    WalkStep(ByPredecessor(envs), "", {}, i);
  }

  lemma {:induction false} CursorPeriod(follow: map<string, Env>, period: nat, n: nat)
    requires CursorAt(follow, period) == Some("")
    ensures CursorAt(follow, n + period) == CursorAt(follow, n)
  {
    if n > 0 {
      CursorPeriod(follow, period, n - 1);
    }
  }

  lemma {:induction false} CursorNeverEnds(follow: map<string, Env>, period: nat, n: nat)
    requires period > 0 && CursorAt(follow, period) == Some("")
    ensures CursorAt(follow, n).Some?
    decreases n
  {
    if n >= period {
      CursorPeriod(follow, period, n - period);
      CursorNeverEnds(follow, period, n - period);
    } else if CursorAt(follow, n).None? {
      CursorStaysEnded(follow, n, period);
      assert false;
    }
  }

  lemma {:induction false} CursorStaysEnded(follow: map<string, Env>, n: nat, m: nat)
    requires n <= m && CursorAt(follow, n).None?
    ensures CursorAt(follow, m).None?
    decreases m
  {
    if n < m {
      CursorStaysEnded(follow, n, m - 1);
    }
  }

  /** Admission does not check that labels are non-empty. On an admitted chain, forks or not, the unguarded walk ends
      exactly when no environment on the order has an empty label; at one it starts over, forever. */
  lemma WalkEndsIffLabelsNonEmpty(envs: seq<Env>)
    requires WellFormed(envs)
    ensures Halts(ByPredecessor(envs)) <==> NonEmptyLabels(Order(envs))
  {
    var follow, out := ByPredecessor(envs), Order(envs);
    if NonEmptyLabels(out) {
      CursorFollowsPath(envs, |out|);
      NothingFollowsLast(envs);
      assert CursorAt(follow, |out| + 1).None?;
    } else {
      var i :| 0 <= i < |out| && out[i].envLabel == "";
      CursorFollowsPath(envs, i + 1);
      forall m: nat
        ensures CursorAt(follow, m).Some?
      {
        CursorNeverEnds(follow, i + 1, m);
      }
    }
  }

  /** Without forks every label is on the order, so that one empty label anywhere is enough. */
  lemma WalkEndsIffNoForkAndNonEmpty(envs: seq<Env>)
    requires WellFormed(envs) && NoFork(envs)
    ensures Halts(ByPredecessor(envs)) <==> NonEmptyLabels(envs)
  {
    WalkEndsIffLabelsNonEmpty(envs);
    OrderIsRootPath(envs);
    if NonEmptyLabels(Order(envs)) {
      forall e | e in envs
        ensures e.envLabel != ""
      {
        var n := ClimbEnds(envs, e);
        OnTheWalk(envs, e, n);
      }
    }
  }

  // ---------------------------------------------------------------------------------------------------------------
  // Promotion
  // ---------------------------------------------------------------------------------------------------------------

  datatype PairError =
    | FromRequired | ToRequired | SameEnvironment | FromNotFound | ToNotFound | NotSuccessor(predecessor: string)

  /** The errors promotion admission reports for a pair, given the known labels and their predecessors. */
  function PromotionPair(known: set<string>, pred: map<string, string>, fromEnv: string,
                         toEnv: string): seq<PairError> {
    var shape :=
      (if fromEnv == "" then [FromRequired] else []) +
      (if toEnv == "" then [ToRequired] else []) +
      (if fromEnv != "" && fromEnv == toEnv then [SameEnvironment] else []);
    if shape != [] then shape
    else
      (if fromEnv !in known then [FromNotFound] else []) +
      (if toEnv !in pred then [ToNotFound]
       else if fromEnv in known && pred[toEnv] != fromEnv then [NotSuccessor(pred[toEnv])]
       else [])
  }

  ghost predicate Adjacent(order: seq<Env>, fromEnv: string, toEnv: string) {
    exists i :: 0 <= i < |order| - 1 && order[i].envLabel == fromEnv && order[i + 1].envLabel == toEnv
  }

  lemma SuccessorIsAdjacent(envs: seq<Env>, f: Env, t: Env)
    requires WellFormed(envs) && NonEmptyLabels(envs) && NoFork(envs)
    requires f in envs && t in envs && t.predecessor == f.envLabel
    ensures Adjacent(Order(envs), f.envLabel, t.envLabel)
  {
    var out := Order(envs);
    OrderIsRootPath(envs);
    OrderIsMaximal(envs);
    EveryoneOnTheWalk(envs, f);
    var i :| 0 <= i < |out| && out[i] == f;
    assert HasSuccessor(envs, f.envLabel);
    assert out[i + 1].predecessor == LabelBefore(out, i + 1) && out[i + 1] in out;
  }

  /** Promotion admission accepts exactly the pairs that are adjacent in the chain order, and it does so for every
      admitted chain without forks. */
  lemma PromotionIffAdjacent(envs: seq<Env>, fromEnv: string, toEnv: string)
    requires WellFormed(envs) && NonEmptyLabels(envs) && NoFork(envs)
    ensures PromotionPair(Labels(envs), Predecessors(envs), fromEnv, toEnv) == []
            <==> Adjacent(Order(envs), fromEnv, toEnv)
  {
    var out := Order(envs);
    PromotionIffDeclaredSuccessor(envs, fromEnv, toEnv);
    if fromEnv != "" && exists t :: t in envs && t.envLabel == toEnv && t.predecessor == fromEnv {
      var t :| t in envs && t.envLabel == toEnv && t.predecessor == fromEnv;
      assert DeclaresPredecessor(envs, t);
      SuccessorIsAdjacent(envs, Find(envs, fromEnv), t);
    }
    if Adjacent(out, fromEnv, toEnv) {
      OrderIsRootPath(envs);
      var i :| 0 <= i < |out| - 1 && out[i].envLabel == fromEnv && out[i + 1].envLabel == toEnv;
      assert out[i] in out && out[i + 1] in out;
      assert out[i + 1].predecessor == LabelBefore(out, i + 1);
    }
  }

  /** With forks admission still accepts the dropped branch, so acceptance no longer means adjacency; what it always
      means is that the second environment declares the first as its predecessor. */
  lemma PromotionIffDeclaredSuccessor(envs: seq<Env>, fromEnv: string, toEnv: string)
    requires WellFormed(envs) && NonEmptyLabels(envs)
    ensures PromotionPair(Labels(envs), Predecessors(envs), fromEnv, toEnv) == []
            <==> fromEnv != "" && exists t :: t in envs && t.envLabel == toEnv && t.predecessor == fromEnv
  {
    var pred := Predecessors(envs);
    PredecessorKeys(envs, toEnv);
    if PromotionPair(Labels(envs), pred, fromEnv, toEnv) == [] {
      var t := Find(envs, toEnv);
      PredecessorOf(envs, t);
    }
    if exists t :: t in envs && t.envLabel == toEnv && t.predecessor == fromEnv && fromEnv != "" {
      var t :| t in envs && t.envLabel == toEnv && t.predecessor == fromEnv;
      PredecessorOf(envs, t);
      assert DeclaresPredecessor(envs, t);
      assert !ReachesItself(pred, t);
      assert Climb(pred, t.predecessor, 0) == fromEnv;
    }
  }
}
