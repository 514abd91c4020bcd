/** Image retention: which finished builds of a profile one pass deletes, and what passes in a row leave. */
module Retention {
  import opened Common

  datatype Status = Scheduled | Running | Succeeded | Failed

  datatype Build = Build(name: string, profile: string, status: Status, created: int)

  /** `keepSucceeded` is not positive when the policy leaves it out. */
  datatype Policy = Policy(keepSucceeded: int, keepFailed: nat)

  /** The builds of a namespace, and those whose deletion has begun. */
  datatype World = World(builds: set<Build>, deleting: set<Build>)

  ghost function Category(w: World, profile: string, status: Status): set<Build> {
    set b | b in w.builds && b.profile == profile && b !in w.deleting && b.status == status
  }

  // ---------------------------------------------------------------------------------------------------------------
  // One category
  // ---------------------------------------------------------------------------------------------------------------

  /** `top` are `keep` newest builds of the category; among builds of the same age any may be taken. */
  ghost predicate IsTop(c: set<Build>, keep: nat, top: set<Build>) {
    && top <= c && |top| == keep
    && forall t, b :: t in top && b in c - top ==> t.created >= b.created
  }

  /** `gone` is everything beyond the newest `keep`. */
  ghost predicate Prunes(c: set<Build>, keep: nat, gone: set<Build>) {
    gone <= c && if |c| <= keep then gone == {} else IsTop(c, keep, c - gone)
  }

  /** `gone` is part of what lies beyond the newest `keep`. */
  ghost predicate PrunesPartly(c: set<Build>, keep: nat, gone: set<Build>) {
    gone == {} || exists top :: IsTop(c, keep, top) && gone <= c - top
  }

  /** Two choices of the newest agree up to age: what is in the one is as new as what is outside the other. */
  lemma TopsAgree(c: set<Build>, keep: nat, top: set<Build>, other: set<Build>, rest: set<Build>, t: Build, d: Build)
    requires IsTop(c, keep, top) && rest <= c && top <= rest && IsTop(rest, keep, other)
    requires t in other && d in c - top
    ensures t.created >= d.created
  {
    if t !in top {
      var k := InOneOnly(top, other, t);
      assert k in rest - other;
    }
  }

  lemma InOneOnly<T>(a: set<T>, b: set<T>, x: T) returns (y: T)
    requires |a| == |b| && x in b && x !in a
    ensures y in a && y !in b
  {
    if a <= b {
      SubsetSize(a + {x}, b);
    }
    y :| y in a && y !in b;
  }

  /** An interrupted pruning followed by a whole one prunes the category as a single pass would. */
  lemma PartThenWhole(c: set<Build>, keep: nat, first: set<Build>, second: set<Build>)
    requires PrunesPartly(c, keep, first) && Prunes(c - first, keep, second)
    ensures Prunes(c, keep, first + second)
  {
    if first == {} {
      assert c - first == c && first + second == second;
    } else {
      var top :| IsTop(c, keep, top) && first <= c - top;
      var rest := c - first;
      var left := c - (first + second);
      assert left == rest - second;
      SubsetSize(top, rest);
      PartLeavesTop(c, keep, top, first, second);
      forall t, d | t in left && d in c - left
        ensures t.created >= d.created
      {
        if d in first {
          TopsAgree(c, keep, top, left, rest, t, d);
        } else {
          assert d in rest - left;
        }
      }
      ProperSubsetIsSmaller(c, top, first);
    }
  }

  lemma ProperSubsetIsSmaller(c: set<Build>, top: set<Build>, first: set<Build>)
    requires top <= c && first <= c - top && first != {}
    ensures |c| > |top|
  {
    var x :| x in first;
    SubsetSize(top + {x}, c);
  }

  lemma PartLeavesTop(c: set<Build>, keep: nat, top: set<Build>, first: set<Build>, second: set<Build>)
    requires IsTop(c, keep, top) && first <= c - top && Prunes(c - first, keep, second)
    ensures IsTop(c - first, keep, c - first - second)
  {
    var rest := c - first;
    SubsetSize(top, rest);
    if |rest| <= keep {
      SameSizeIsEqual(top, rest);
      assert rest - second == rest;
    }
  }

  lemma SameSizeIsEqual<T>(a: set<T>, b: set<T>)
    requires a <= b && |b| <= |a|
    ensures a == b
  {
    if a != b {
      var x :| x in b && x !in a;
      SubsetSize(a + {x}, b);
    }
  }

  // ---------------------------------------------------------------------------------------------------------------
  // One pass
  // ---------------------------------------------------------------------------------------------------------------

  /** The successful and the failed builds that a pass deletes. */
  datatype Gone = Gone(succeeded: set<Build>, failed: set<Build>)

  /** Both categories pruned, the successful builds only under a policy that says how many to keep. */
  ghost predicate PrunesBoth(succeeded: set<Build>, failed: set<Build>, policy: Policy, gone: Gone) {
    && (if policy.keepSucceeded > 0
        then Prunes(succeeded, policy.keepSucceeded, gone.succeeded)
        else gone.succeeded == {})
    && Prunes(failed, policy.keepFailed, gone.failed)
  }

  /** The same cut short: failed builds go only after all successful ones. */
  ghost predicate PrunesBothPartly(succeeded: set<Build>, failed: set<Build>, policy: Policy, gone: Gone) {
    && (if policy.keepSucceeded > 0
        then PrunesPartly(succeeded, policy.keepSucceeded, gone.succeeded)
        else gone.succeeded == {})
    && PrunesPartly(failed, policy.keepFailed, gone.failed)
    && (gone.failed != {} && policy.keepSucceeded > 0 ==> Prunes(succeeded, policy.keepSucceeded, gone.succeeded))
  }

  /** What a pass without API errors deletes. */
  ghost predicate Enforces(w: World, profile: string, policy: Policy, gone: Gone) {
    PrunesBoth(Category(w, profile, Succeeded), Category(w, profile, Failed), policy, gone)
  }

  /** What a pass that an error may have ended deletes. */
  ghost predicate EnforcesPartly(w: World, profile: string, policy: Policy, gone: Gone) {
    PrunesBothPartly(Category(w, profile, Succeeded), Category(w, profile, Failed), policy, gone)
  }

  function After(w: World, gone: Gone): World {
    w.(deleting := w.deleting + gone.succeeded + gone.failed)
  }

  lemma CategoriesAfter(w: World, profile: string, gone: Gone)
    requires gone.succeeded <= Category(w, profile, Succeeded) && gone.failed <= Category(w, profile, Failed)
    ensures Category(After(w, gone), profile, Succeeded) == Category(w, profile, Succeeded) - gone.succeeded
    ensures Category(After(w, gone), profile, Failed) == Category(w, profile, Failed) - gone.failed
  {
  }

  lemma PrunedKeepsNewest(c: set<Build>, keep: nat, gone: set<Build>)
    requires Prunes(c, keep, gone)
    ensures |c - gone| == Min(|c|, keep)
    ensures forall k, d :: k in c - gone && d in gone ==> k.created >= d.created
  {
    if gone == {} {
      assert c - gone == c;
    } else {
      assert gone == c - (c - gone);
    }
  }

  /** A pass without errors leaves exactly as many builds of each enforced category as the policy keeps, or all if
      they are fewer, and each of them is at least as new as each one deleted. */
  lemma KeepsTheNewest(w: World, profile: string, policy: Policy, status: Status, gone: Gone)
    requires Enforces(w, profile, policy, gone)
    requires status.Failed? || (status.Succeeded? && policy.keepSucceeded > 0)
    ensures var keep := if status.Failed? then policy.keepFailed else policy.keepSucceeded;
            var before, after := Category(w, profile, status), Category(After(w, gone), profile, status);
            && |after| == Min(|before|, keep)
            && forall k, d :: k in after && d in before - after ==> k.created >= d.created
  {
    CategoriesAfter(w, profile, gone);
    if status.Failed? {
      PrunedKeepsNewest(Category(w, profile, Failed), policy.keepFailed, gone.failed);
    } else {
      PrunedKeepsNewest(Category(w, profile, Succeeded), policy.keepSucceeded, gone.succeeded);
    }
  }

  /** Whatever ends it, a pass touches no build but finished ones of its own profile that are not being deleted
      already. */
  lemma OnlyFinishedGo(w: World, profile: string, policy: Policy, gone: Gone)
    requires EnforcesPartly(w, profile, policy, gone)
    ensures gone.succeeded <= Category(w, profile, Succeeded) && gone.failed <= Category(w, profile, Failed)
  {
  }

  lemma TopHoldsNewest(c: set<Build>, keep: nat, top: set<Build>) returns (b: Build)
    requires IsTop(c, keep, top) && keep > 0
    ensures b in top && forall d :: d in c ==> b.created >= d.created
  {
    b := Newest(top);
  }

  lemma {:induction false} Newest(s: set<Build>) returns (b: Build)
    requires s != {}
    ensures b in s && forall d :: d in s ==> b.created >= d.created
  {
    var x :| x in s;
    if s == {x} {
      b := x;
    } else {
      var y := Newest(s - {x});
      b := if x.created >= y.created then x else y;
    }
  }

  /** Whatever the policy says and whatever ends the pass, a newest successful build stays. */
  lemma NewestSuccessStays(w: World, profile: string, policy: Policy, gone: Gone) returns (b: Build)
    requires EnforcesPartly(w, profile, policy, gone) && Category(w, profile, Succeeded) != {}
    ensures b in Category(After(w, gone), profile, Succeeded)
    ensures forall d :: d in Category(w, profile, Succeeded) ==> b.created >= d.created
  {
    var c := Category(w, profile, Succeeded);
    OnlyFinishedGo(w, profile, policy, gone);
    CategoriesAfter(w, profile, gone);
    if gone.succeeded == {} {
      b := Newest(c);
    } else {
      var top :| IsTop(c, policy.keepSucceeded, top) && gone.succeeded <= c - top;
      b := TopHoldsNewest(c, policy.keepSucceeded, top);
    }
  }

  /** A pass right after one without errors deletes nothing. */
  lemma SecondPassDeletesNothing(w: World, profile: string, policy: Policy, first: Gone, second: Gone)
    requires Enforces(w, profile, policy, first) && EnforcesPartly(After(w, first), profile, policy, second)
    ensures second == Gone({}, {})
  {
    CategoriesAfter(w, profile, first);
    if policy.keepSucceeded > 0 {
      NothingBeyond(Category(w, profile, Succeeded), policy.keepSucceeded, first.succeeded, second.succeeded);
    }
    NothingBeyond(Category(w, profile, Failed), policy.keepFailed, first.failed, second.failed);
  }

  lemma NothingBeyond(c: set<Build>, keep: nat, first: set<Build>, second: set<Build>)
    requires Prunes(c, keep, first) && PrunesPartly(c - first, keep, second)
    ensures second == {}
  {
    PrunedKeepsNewest(c, keep, first);
    if second != {} {
      var top :| IsTop(c - first, keep, top) && second <= c - first - top;
      ProperSubsetIsSmaller(c - first, top, second);
    }
  }

  /** An interrupted pass only delays: with the pass that completes it, it deletes what one pass would have. */
  lemma InterruptedThenFinished(w: World, profile: string, policy: Policy, first: Gone, second: Gone)
    requires EnforcesPartly(w, profile, policy, first) && Enforces(After(w, first), profile, policy, second)
    ensures Enforces(w, profile, policy, Gone(first.succeeded + second.succeeded, first.failed + second.failed))
  {
    OnlyFinishedGo(w, profile, policy, first);
    CategoriesAfter(w, profile, first);
    if policy.keepSucceeded > 0 {
      PartThenWhole(Category(w, profile, Succeeded), policy.keepSucceeded, first.succeeded, second.succeeded);
    }
    PartThenWhole(Category(w, profile, Failed), policy.keepFailed, first.failed, second.failed);
  }

  // ---------------------------------------------------------------------------------------------------------------
  // Runs
  // ---------------------------------------------------------------------------------------------------------------

  /** A pass over some profile, with whatever policy it then has, from the list `seen`, which may be out of date; a
      new build; the end of one; or a deletion coming to its end. */
  datatype Event =
    | Pass(seen: World, profile: string, policy: Policy, gone: Gone)
    | Created(b: Build)
    | Finished(b: Build, status: Status)
    | Purged(b: Build)

  ghost predicate CanHappen(w: World, e: Event) {
    match e
    case Pass(seen, profile, policy, gone) => EnforcesPartly(seen, profile, policy, gone)
    case Created(b) => b !in w.deleting
    case Finished(b, status) => b in w.builds && !b.status.Succeeded? && !b.status.Failed?
        && b.(status := status) !in w.deleting
    case Purged(b) => b in w.deleting
  }

  /** Deleting a build that is no longer there does nothing. */
  function Next(w: World, e: Event): World {
    match e
    case Pass(_, _, _, gone) => After(w, Gone(gone.succeeded * w.builds, gone.failed * w.builds))
    case Created(b) => w.(builds := w.builds + {b})
    case Finished(b, status) => w.(builds := w.builds - {b} + {b.(status := status)})
    case Purged(b) => World(w.builds - {b}, w.deleting - {b})
  }

  function Run(w: World, es: seq<Event>): World
    decreases |es|
  {
    if es == [] then w else Run(Next(w, es[0]), es[1..])
  }

  ghost predicate IsRun(w: World, es: seq<Event>)
    decreases |es|
  {
    es == [] || (CanHappen(w, es[0]) && IsRun(Next(w, es[0]), es[1..]))
  }

  /** The builds of a set that are at least as new as every live one. */
  ghost function AsNew(s: set<Build>, live: set<Build>): set<Build> {
    set b | b in s && forall l :: l in live ==> b.created >= l.created
  }

  /** The list shows every live success, and at least as many as are to be kept that are no longer live, though as
      new. */
  ghost predicate Misleads(seen: World, w: World, profile: string, policy: Policy) {
    var listed, live := Category(seen, profile, Succeeded), Category(w, profile, Succeeded);
    policy.keepSucceeded > 0 && live <= listed && |AsNew(listed - live, live)| >= policy.keepSucceeded
  }

  /** A pass over that list can delete every success of the profile. */
  ghost predicate CanLoseAll(seen: World, w: World, profile: string, policy: Policy) {
    exists gone :: EnforcesPartly(seen, profile, policy, gone) && Category(w, profile, Succeeded) <= gone.succeeded
  }

  lemma {:induction false} SomeTop(c: set<Build>, keep: nat) returns (top: set<Build>)
    requires keep <= |c|
    ensures IsTop(c, keep, top)
  {
    if keep == 0 {
      top := {};
    } else {
      var b := Newest(c);
      assert |c - {b}| == |c| - 1;
      var rest := SomeTop(c - {b}, keep - 1);
      top := rest + {b};
    }
  }

  lemma MisledPassLosesAll(seen: World, w: World, profile: string, policy: Policy)
    requires Misleads(seen, w, profile, policy)
    ensures CanLoseAll(seen, w, profile, policy)
  {
    var listed, live := Category(seen, profile, Succeeded), Category(w, profile, Succeeded);
    var top := SomeTop(AsNew(listed - live, live), policy.keepSucceeded);
    assert IsTop(listed, policy.keepSucceeded, top);
    var gone := Gone(listed - top, {});
    assert PrunesPartly(listed, policy.keepSucceeded, gone.succeeded);
    assert EnforcesPartly(seen, profile, policy, gone) && live <= gone.succeeded;
  }

  lemma LosingAllIsMisled(seen: World, w: World, profile: string, policy: Policy, gone: Gone)
    requires EnforcesPartly(seen, profile, policy, gone)
    requires Category(w, profile, Succeeded) != {} && Category(w, profile, Succeeded) <= gone.succeeded
    ensures Misleads(seen, w, profile, policy)
  {
    var listed, live := Category(seen, profile, Succeeded), Category(w, profile, Succeeded);
    var top :| IsTop(listed, policy.keepSucceeded, top) && gone.succeeded <= listed - top;
    SubsetSize(top, AsNew(listed - live, live));
  }

  /** When lists may be out of date: a pass over one can delete the last success if and only if the list misleads. A
      list that shows no deleted build never does. */
  lemma LosesAllIffMisled(seen: World, w: World, profile: string, policy: Policy)
    requires Category(w, profile, Succeeded) != {}
    ensures CanLoseAll(seen, w, profile, policy) <==> Misleads(seen, w, profile, policy)
    ensures Category(seen, profile, Succeeded) <= Category(w, profile, Succeeded) ==>
              !Misleads(seen, w, profile, policy)
  {
    var listed, live := Category(seen, profile, Succeeded), Category(w, profile, Succeeded);
    if CanLoseAll(seen, w, profile, policy) {
      var gone :| EnforcesPartly(seen, profile, policy, gone) && live <= gone.succeeded;
      LosingAllIsMisled(seen, w, profile, policy, gone);
    }
    if Misleads(seen, w, profile, policy) {
      MisledPassLosesAll(seen, w, profile, policy);
    }
    if listed <= live {
      assert listed - live == {} && AsNew(listed - live, live) == {};
    }
  }

  lemma OthersAreNotTouched(seen: World, w: World, e: Event, profile: string)
    requires e.Pass? && CanHappen(w, e) && e.profile != profile
    ensures Category(Next(w, e), profile, Succeeded) == Category(w, profile, Succeeded)
  {
    OnlyFinishedGo(e.seen, e.profile, e.policy, e.gone);
  }

  lemma SuccessSurvives(w: World, e: Event, profile: string)
    requires CanHappen(w, e) && Category(w, profile, Succeeded) != {}
    requires e.Pass? && e.profile == profile ==> !Misleads(e.seen, w, profile, e.policy)
    ensures Category(Next(w, e), profile, Succeeded) != {}
  {
    var live := Category(w, profile, Succeeded);
    if e.Pass? {
      if e.profile == profile {
        LosesAllIffMisled(e.seen, w, profile, e.policy);
        var b :| b in live && b !in e.gone.succeeded;
        OnlyFinishedGo(e.seen, profile, e.policy, e.gone);
        assert b in Category(Next(w, e), profile, Succeeded);
      } else {
        OthersAreNotTouched(e.seen, w, e, profile);
      }
    } else {
      var b :| b in live;
      assert b in Category(Next(w, e), profile, Succeeded);
    }
  }

  /** No pass over the profile is misled by its list. */
  ghost predicate NeverMisled(w: World, es: seq<Event>, profile: string)
    decreases |es|
  {
    es == [] ||
    (&& (es[0].Pass? && es[0].profile == profile ==> !Misleads(es[0].seen, w, profile, es[0].policy))
     && NeverMisled(Next(w, es[0]), es[1..], profile))
  }

  /** Over every run, with policies edited, passes interrupted and lists out of date: once a profile has a successful
      build to roll back to, retention always leaves it one, as long as no list misleads. */
  lemma {:induction false} RollbackAlwaysLeft(w: World, es: seq<Event>, profile: string)
    requires IsRun(w, es) && NeverMisled(w, es, profile) && Category(w, profile, Succeeded) != {}
    ensures Category(Run(w, es), profile, Succeeded) != {}
    decreases |es|
  {
    if es != [] {
      SuccessSurvives(w, es[0], profile);
      RollbackAlwaysLeft(Next(w, es[0]), es[1..], profile);
    }
  }

  // ---------------------------------------------------------------------------------------------------------------
  // The pass as it runs
  // ---------------------------------------------------------------------------------------------------------------

  ghost predicate NewestFirst(s: seq<Build>) {
    forall i, j :: 0 <= i < j < |s| ==> s[i].created >= s[j].created
  }

  /** The library sort: any arrangement with the newest first. */
  method SortNewestFirst(s: seq<Build>) returns (t: seq<Build>)
    requires NoRepeats(s)
    ensures NewestFirst(t) && NoRepeats(t) && AsSet(t) == AsSet(s)
  {
    t := [];
    var todo := AsSet(s);
    while todo != {}
      invariant NewestFirst(t) && NoRepeats(t)
      invariant AsSet(t) + todo == AsSet(s) && AsSet(t) !! todo
      invariant forall i, q :: 0 <= i < |t| && q in todo ==> t[i].created >= q.created
      decreases todo
    {
      ghost var newest := Newest(todo);
      var p :| p in todo && forall q :: q in todo ==> p.created >= q.created;
      assert p !in AsSet(t);
      AppendToSet(t, p);
      t := t + [p];
      todo := todo - {p};
    }
  }

  lemma FrontAndBack(t: seq<Build>, keep: nat, b: Build)
    requires NewestFirst(t) && NoRepeats(t) && keep <= |t| && b in t
    ensures b in t[..keep] <==> b !in t[keep..]
    ensures b in t[..keep] ==> forall d :: d in t[keep..] ==> b.created >= d.created
  {
    var i :| 0 <= i < |t| && t[i] == b;
    if i < keep {
      assert t[..keep][i] == b;
    } else {
      assert t[keep..][i - keep] == b;
    }
  }

  lemma FrontIsTop(t: seq<Build>, keep: nat)
    requires NewestFirst(t) && NoRepeats(t) && keep < |t|
    ensures IsTop(AsSet(t), keep, AsSet(t[..keep]))
    ensures AsSet(t[keep..]) == AsSet(t) - AsSet(t[..keep])
  {
    SizeOfSet(t[..keep]);
    forall b | b in t
      ensures b in t[..keep] <==> b !in t[keep..]
      ensures b in t[..keep] ==> forall d :: d in t[keep..] ==> b.created >= d.created
    {
      FrontAndBack(t, keep, b);
    }
  }

  lemma BackIsPruned(c: set<Build>, keep: nat, top: set<Build>, gone: set<Build>)
    requires IsTop(c, keep, top) && keep < |c| && gone <= c - top
    ensures PrunesPartly(c, keep, gone)
    ensures gone == c - top <==> Prunes(c, keep, gone)
  {
    if gone == c - top {
      assert c - gone == top;
    } else if Prunes(c, keep, gone) {
      SameSizeIsEqual(top, c - gone);
    }
  }

  /** The builds of one namespace at the API server. */
  class Namespace {
    var builds: set<Build>
    var deleting: set<Build>

    ghost function State(): World
      reads this
    {
      World(builds, deleting)
    }

    method List() returns (list: seq<Build>)
      ensures NoRepeats(list) && AsSet(list) == builds
    {
      list := [];
      var todo := builds;
      while todo != {}
        invariant todo <= builds && NoRepeats(list) && AsSet(list) == builds - todo
        decreases todo
      {
        var b :| b in todo;
        assert b !in AsSet(list);
        AppendToSet(list, b);
        list := list + [b];
        todo := todo - {b};
      }
    }

    method Delete(b: Build, fails: bool) returns (ok: bool)
      modifies this`deleting
      ensures ok == !fails && deleting == if ok then old(deleting) + {b} else old(deleting)
    {
      if !fails {
        deleting := deleting + {b};
      }
      ok := !fails;
    }

    /** Deletes the builds of a sorted list from a position on. `failing` are those whose deletion is answered with an
        error. */
    method DeleteFrom(sorted: seq<Build>, keep: nat, failing: set<Build>) returns (ok: bool, ghost gone: set<Build>)
      requires NoRepeats(sorted) && keep <= |sorted|
      modifies this`deleting
      ensures deleting == old(deleting) + gone && gone <= AsSet(sorted[keep..]) && gone !! failing
      ensures ok <==> gone == AsSet(sorted[keep..])
      ensures failing == {} ==> ok
    {
      gone := {};
      var rest := sorted[keep..];
      for i := 0 to |rest|
        invariant deleting == old(deleting) + gone && gone !! failing
        invariant gone == AsSet(rest[..i])
      {
        assert rest[..i + 1] == rest[..i] + [rest[i]];
        var deleted := Delete(rest[i], rest[i] in failing);
        if !deleted {
          return false, gone;
        }
        gone := gone + {rest[i]};
      }
      assert rest[..|rest|] == rest;
      ok := true;
    }

    method DeleteOldestBeyond(list: seq<Build>, keep: nat, failing: set<Build>)
      returns (ok: bool, ghost gone: set<Build>)
      requires NoRepeats(list)
      modifies this`deleting
      ensures deleting == old(deleting) + gone && gone <= AsSet(list)
      ensures PrunesPartly(AsSet(list), keep, gone)
      ensures ok <==> Prunes(AsSet(list), keep, gone)
      ensures failing == {} ==> ok
    {
      SizeOfSet(list);
      if |list| <= keep {
        return true, {};
      }
      var sorted := SortNewestFirst(list);
      SizeOfSet(sorted);
      FrontIsTop(sorted, keep);
      ok, gone := DeleteFrom(sorted, keep, failing);
      BackIsPruned(AsSet(list), keep, AsSet(sorted[..keep]), gone);
    }

    /** The builds a pass considers, by outcome. */
    method Finished(profile: string) returns (succeeded: seq<Build>, failed: seq<Build>)
      ensures NoRepeats(succeeded) && AsSet(succeeded) == Category(State(), profile, Succeeded)
      ensures NoRepeats(failed) && AsSet(failed) == Category(State(), profile, Failed)
    {
      var list := List();
      succeeded, failed := [], [];
      for i := 0 to |list|
        invariant NoRepeats(succeeded)
                  && AsSet(succeeded) == Category(World(AsSet(list[..i]), deleting), profile, Succeeded)
        invariant NoRepeats(failed) && AsSet(failed) == Category(World(AsSet(list[..i]), deleting), profile, Failed)
      {
        var b := list[i];
        assert b !in AsSet(list[..i]);
        assert AsSet(list[..i + 1]) == AsSet(list[..i]) + {b};
        if b.profile == profile && b !in deleting {
          if b.status.Succeeded? {
            assert b !in AsSet(succeeded);
            AppendToSet(succeeded, b);
            succeeded := succeeded + [b];
          } else if b.status.Failed? {
            assert b !in AsSet(failed);
            AppendToSet(failed, b);
            failed := failed + [b];
          }
        }
      }
      assert list[..|list|] == list;
    }

    method DeleteBoth(succeeded: seq<Build>, failed: seq<Build>, policy: Policy, failing: set<Build>)
      returns (ok: bool, ghost gone: Gone)
      requires NoRepeats(succeeded) && NoRepeats(failed)
      modifies this`deleting
      ensures deleting == old(deleting) + gone.succeeded + gone.failed
      ensures PrunesBothPartly(AsSet(succeeded), AsSet(failed), policy, gone)
      ensures ok <==> PrunesBoth(AsSet(succeeded), AsSet(failed), policy, gone)
      ensures failing == {} ==> ok
    {
      ghost var first, second: set<Build> := {}, {};
      ok := true;
      if policy.keepSucceeded > 0 {
        ok, first := DeleteOldestBeyond(succeeded, policy.keepSucceeded, failing);
      }
      if ok {
        ok, second := DeleteOldestBeyond(failed, policy.keepFailed, failing);
      }
      gone := Gone(first, second);
    }

    method EnforceRetention(profile: string, policy: Option<Policy>, failing: set<Build>)
      returns (ok: bool, ghost gone: Gone)
      modifies this`deleting
      ensures State() == After(old(State()), gone)
      ensures policy.None? ==> ok && gone == Gone({}, {})
      ensures policy.Some? ==> EnforcesPartly(old(State()), profile, policy.value, gone)
      ensures policy.Some? ==> (ok <==> Enforces(old(State()), profile, policy.value, gone))
      ensures failing == {} ==> ok
    {
      ok, gone := true, Gone({}, {});
      if policy.Some? {
        var succeeded, failed := Finished(profile);
        ok, gone := DeleteBoth(succeeded, failed, policy.value, failing);
      }
    }
  }
}
