/** The orphaned-package sweep: one batch as it runs, and what consecutive batches drain. */
module PackageSweep {
  import opened Common

  /** An orphaned package; its date is None when Uyuni's could not be parsed. Times and ages are in seconds. */
  datatype Package = Package(id: int, lastModified: Option<int>)

  datatype Policy = Policy(minAge: int, maxDelete: nat, dryRun: bool)

  // ---------------------------------------------------------------------------------------------------------------
  // Batches over a fixed backlog
  // ---------------------------------------------------------------------------------------------------------------

  /** An eligible package as the drain argument sees it. */
  function Date(p: Package): int {
    if p.lastModified.Some? then p.lastModified.value else 0
  }

  /** A batch takes as many of the oldest eligible packages as the cap allows; ties are broken in any way. */
  ghost predicate IsBatch(eligible: set<Package>, batch: set<Package>, cap: nat) {
    && batch <= eligible
    && |batch| == Min(cap, |eligible|)
    && forall p, q :: p in batch && q in eligible && q !in batch ==> Date(p) <= Date(q)
  }

  function Unblocked(s: set<Package>, blocked: set<Package>): set<Package> {
    s - blocked
  }

  /** One batch without API errors and without dry run, `blocked` being the packages an advisory or a system uses. */
  ghost predicate BatchStep(before: set<Package>, after: set<Package>, blocked: set<Package>, cap: nat) {
    exists batch :: IsBatch(before, batch, cap) && after == before - Unblocked(batch, blocked)
  }

  ghost predicate StepAt(states: seq<set<Package>>, i: int, blocked: set<Package>, cap: nat)
    requires 0 <= i < |states| - 1
  {
    BatchStep(states[i], states[i + 1], blocked, cap)
  }

  /** Consecutive batches over the same data. */
  ghost predicate IsRun(states: seq<set<Package>>, blocked: set<Package>, cap: nat) {
    && states != []
    && forall i {:trigger StepAt(states, i, blocked, cap)} :: 0 <= i < |states| - 1 ==> StepAt(states, i, blocked, cap)
  }

  /** The packages that a batch may take before `p`, `p` included. */
  ghost function Ahead(s: set<Package>, p: Package): set<Package> {
    set q | q in s && Date(q) <= Date(p)
  }

  /** The packages that every batch takes before `p`. */
  ghost function Older(s: set<Package>, p: Package): set<Package> {
    set q | q in s && Date(q) < Date(p)
  }

  /** How many blocked, and how many unblocked, packages a batch may take before `p`, `p` included. */
  ghost function BlockedAhead(s: set<Package>, blocked: set<Package>, p: Package): nat {
    |Ahead(s, p) * blocked|
  }

  ghost function FreeAhead(s: set<Package>, blocked: set<Package>, p: Package): nat {
    |Ahead(s, p) - blocked|
  }

  lemma SplitSize<T>(a: set<T>, b: set<T>)
    ensures |a| == |a - b| + |a * b|
  {
    assert a == (a - b) + a * b;
  }

  lemma RemoveSize<T>(a: set<T>, b: set<T>)
    requires b <= a
    ensures |a - b| == |a| - |b|
  {
    assert a == (a - b) + b;
  }

  /** A batch that leaves an eligible package out is full, and takes only packages ahead of it. */
  lemma LeftOut(eligible: set<Package>, batch: set<Package>, cap: nat, p: Package)
    requires IsBatch(eligible, batch, cap) && p in eligible && p !in batch
    ensures |batch| == cap && batch <= Ahead(eligible, p)
  {
    SubsetSize(batch + {p}, eligible);
  }

  /** A batch that leaves a package out holds at least as many unblocked packages as the cap exceeds the blocked ones
      ahead of it. */
  lemma FreeInBatch(before: set<Package>, batch: set<Package>, blocked: set<Package>, cap: nat, p: Package)
    requires |batch| == cap && batch <= Ahead(before, p)
    ensures |batch - blocked| + BlockedAhead(before, blocked, p) >= cap
  {
    SplitSize(batch, blocked);
    SubsetSize(batch * blocked, Ahead(before, p) * blocked);
  }

  lemma AheadAfter(before: set<Package>, gone: set<Package>, blocked: set<Package>, p: Package)
    requires gone <= Ahead(before, p) && gone !! blocked
    ensures Ahead(before - gone, p) * blocked == Ahead(before, p) * blocked
    ensures Ahead(before - gone, p) - blocked == (Ahead(before, p) - blocked) - gone
  {
    assert Ahead(before - gone, p) == Ahead(before, p) - gone;
  }

  lemma OneIsAhead(s: set<Package>, blocked: set<Package>, p: Package)
    requires p in s && p !in blocked
    ensures 1 <= FreeAhead(s, blocked, p)
  {
    SubsetSize({p}, Ahead(s, p) - blocked);
  }

  /** Each batch removes an unblocked package, or at least as many unblocked packages ahead of it as the cap exceeds
      the blocked ones ahead of it. */
  lemma StepDrains(before: set<Package>, after: set<Package>, blocked: set<Package>, cap: nat, p: Package)
    requires BatchStep(before, after, blocked, cap) && p !in blocked && p in after
    ensures p in before && BlockedAhead(after, blocked, p) == BlockedAhead(before, blocked, p)
    ensures FreeAhead(after, blocked, p) + (cap - BlockedAhead(before, blocked, p)) <= FreeAhead(before, blocked, p)
  {
    var batch :| IsBatch(before, batch, cap) && after == before - Unblocked(batch, blocked);
    LeftOut(before, batch, cap, p);
    FreeInBatch(before, batch, blocked, cap, p);
    var gone := Unblocked(batch, blocked);
    AheadAfter(before, gone, blocked, p);
    RemoveSize(Ahead(before, p) - blocked, gone);
  }

  /** `n` rounds of `d` each. */
  function Rounds(n: nat, d: int): int {
    if n == 0 then 0 else Rounds(n - 1, d) + d
  }

  lemma {:induction false} RoundsIsProduct(n: nat, d: int)
    ensures Rounds(n, d) == n * d
  {
    if n > 0 {
      RoundsIsProduct(n - 1, d);
      assert n * d == (n - 1) * d + d;
    }
  }

  lemma {:induction false} RoundsMonotone(n: nat, d: int, e: int)
    requires d <= e
    ensures Rounds(n, d) <= Rounds(n, e)
  {
    if n > 0 {
      RoundsMonotone(n - 1, d, e);
    }
  }

  lemma {:induction false} RoundsAtLeast(n: nat, d: int)
    requires d >= 1
    ensures Rounds(n, d) >= n
  {
    if n > 0 {
      RoundsAtLeast(n - 1, d);
    }
  }

  /** What `n` batches do to the backlog ahead of a package that is still there: the blocked part stays, and the
      unblocked part has shrunk by what each batch has room for. */
  ghost predicate Shrunk(first: set<Package>, last: set<Package>, blocked: set<Package>, cap: nat, p: Package, n: nat) {
    && BlockedAhead(last, blocked, p) == BlockedAhead(first, blocked, p)
    && FreeAhead(last, blocked, p) + Rounds(n, cap - BlockedAhead(first, blocked, p)) <= FreeAhead(first, blocked, p)
  }

  lemma ShrinksOnceMore(first: set<Package>, before: set<Package>, after: set<Package>, blocked: set<Package>, cap: nat,
                        p: Package, n: nat)
    requires Shrunk(first, before, blocked, cap, p, n)
    requires BatchStep(before, after, blocked, cap) && p !in blocked && p in after
    ensures Shrunk(first, after, blocked, cap, p, n + 1)
  {
    StepDrains(before, after, blocked, cap, p);
  }

  lemma RunFront(states: seq<set<Package>>, blocked: set<Package>, cap: nat) returns (front: seq<set<Package>>)
    requires IsRun(states, blocked, cap) && |states| > 1
    ensures IsRun(front, blocked, cap) && |front| == |states| - 1 && front[0] == states[0]
    ensures BatchStep(front[|front| - 1], states[|states| - 1], blocked, cap)
    ensures states[|states| - 1] <= front[|front| - 1]
  {
    front := states[..|states| - 1];
    forall i | 0 <= i < |front| - 1
      ensures StepAt(front, i, blocked, cap)
    {
      assert StepAt(states, i, blocked, cap);
    }
    assert StepAt(states, |states| - 2, blocked, cap);
  }

  lemma NothingComesBack(states: seq<set<Package>>, i: int, blocked: set<Package>, cap: nat)
    requires IsRun(states, blocked, cap) && 0 <= i < |states| - 1
    ensures states[i + 1] <= states[i]
  {
    assert StepAt(states, i, blocked, cap);
  }

  lemma ShrinksAt(states: seq<set<Package>>, i: nat, blocked: set<Package>, cap: nat, p: Package)
    requires IsRun(states, blocked, cap) && i < |states| - 1 && p !in blocked && p in states[i + 1]
    requires Shrunk(states[0], states[i], blocked, cap, p, i)
    ensures Shrunk(states[0], states[i + 1], blocked, cap, p, i + 1)
  {
    assert StepAt(states, i, blocked, cap);
    ShrinksOnceMore(states[0], states[i], states[i + 1], blocked, cap, p, i);
  }

  /** After every batch, the unblocked backlog ahead of a package that is still there has shrunk by that much
      again. */
  lemma {:induction false} BacklogAheadShrinks(states: seq<set<Package>>, blocked: set<Package>, cap: nat, p: Package,
                                               n: nat)
    requires IsRun(states, blocked, cap) && n < |states| && p !in blocked && p in states[n]
    ensures Shrunk(states[0], states[n], blocked, cap, p, n)
    decreases n
  {
    if n > 0 {
      NothingComesBack(states, n - 1, blocked, cap);
      BacklogAheadShrinks(states, blocked, cap, p, n - 1);
      ShrinksAt(states, n - 1, blocked, cap, p);
    }
  }

  /** What is left of a backlog of `start` after `n` rounds of `d`, when the backlog is at most `all` and a round
      clears at least `few`. */
  lemma BacklogAfterRounds(n: nat, d: int, few: int, left: int, start: int, all: int)
    requires left >= 1 && left + Rounds(n, d) <= start && start <= all && few <= d
    ensures n * few < all && n * d < start
    ensures few >= 1 ==> n < all
  {
    RoundsMonotone(n, few, d);
    RoundsIsProduct(n, few);
    RoundsIsProduct(n, d);
    if few >= 1 {
      RoundsAtLeast(n, few);
    }
  }

  /** While a package is still there after `n` batches, they have not covered the unblocked backlog ahead of it, nor
      all of it. */
  lemma StillAhead(first: set<Package>, last: set<Package>, blocked: set<Package>, cap: nat, p: Package, n: nat)
    requires Shrunk(first, last, blocked, cap, p, n) && p in last && p !in blocked
    ensures n * (cap - BlockedAhead(first, blocked, p)) < FreeAhead(first, blocked, p)
    ensures n * (cap - |first * blocked|) < |first - blocked|
  {
    OneIsAhead(last, blocked, p);
    CountsAheadAreSmaller(first, blocked, p);
    BacklogAfterRounds(n, cap - BlockedAhead(first, blocked, p), cap - |first * blocked|,
                       FreeAhead(last, blocked, p), FreeAhead(first, blocked, p), |first - blocked|);
  }

  lemma StillAheadMeansFew(first: set<Package>, last: set<Package>, blocked: set<Package>, cap: nat, p: Package, n: nat)
    requires Shrunk(first, last, blocked, cap, p, n) && p in last && p !in blocked
    requires BlockedAhead(first, blocked, p) < cap
    ensures n < |first|
  {
    OneIsAhead(last, blocked, p);
    FreeAheadIsSmaller(first, blocked, p);
    var d := cap - BlockedAhead(first, blocked, p);
    BacklogAfterRounds(n, d, d, FreeAhead(last, blocked, p), FreeAhead(first, blocked, p), |first|);
  }

  /** The bound for one package: with fewer than `cap` blocked packages ahead of it, it is gone once the batches have
      covered the unblocked backlog ahead of it at `cap` minus those per batch. */
  lemma GoneWithinBound(states: seq<set<Package>>, blocked: set<Package>, cap: nat, p: Package)
    requires IsRun(states, blocked, cap) && p !in blocked
    requires (|states| - 1) * (cap - BlockedAhead(states[0], blocked, p)) >= FreeAhead(states[0], blocked, p)
    ensures p !in states[|states| - 1]
  {
    if p in states[|states| - 1] {
      BacklogNotCovered(states, blocked, cap, p);
    }
  }

  lemma BacklogNotCovered(states: seq<set<Package>>, blocked: set<Package>, cap: nat, p: Package)
    requires IsRun(states, blocked, cap) && p in states[|states| - 1] && p !in blocked
    ensures (|states| - 1) * (cap - BlockedAhead(states[0], blocked, p)) < FreeAhead(states[0], blocked, p)
    ensures (|states| - 1) * (cap - |states[0] * blocked|) < |states[0] - blocked|
  {
    BacklogAheadShrinks(states, blocked, cap, p, |states| - 1);
    StillAhead(states[0], states[|states| - 1], blocked, cap, p, |states| - 1);
  }

  lemma CountsAheadAreSmaller(s: set<Package>, blocked: set<Package>, p: Package)
    ensures BlockedAhead(s, blocked, p) <= |s * blocked| && FreeAhead(s, blocked, p) <= |s - blocked|
  {
    SubsetSize(Ahead(s, p) * blocked, s * blocked);
    SubsetSize(Ahead(s, p) - blocked, s - blocked);
  }

  /** The drain bound: with fewer than `cap` eligible packages blocked, every unblocked package is gone after any
      number `n` of batches with n * (cap - blocked) at least the unblocked backlog. */
  lemma BacklogDrains(states: seq<set<Package>>, blocked: set<Package>, cap: nat)
    requires IsRun(states, blocked, cap)
    requires (|states| - 1) * (cap - |states[0] * blocked|) >= |states[0] - blocked|
    ensures states[|states| - 1] - blocked == {}
  {
    var left := states[|states| - 1] - blocked;
    if left != {} {
      var p :| p in left;
      BacklogNotCovered(states, blocked, cap, p);
    }
  }

  /** Every batch with an unblocked package makes progress, as long as fewer than `cap` packages are blocked. */
  lemma EveryBatchDeletes(before: set<Package>, batch: set<Package>, blocked: set<Package>, cap: nat, p: Package)
    requires IsBatch(before, batch, cap) && |before * blocked| < cap && p in before && p !in blocked
    ensures Unblocked(batch, blocked) != {}
  {
    if p !in batch {
      LeftOut(before, batch, cap, p);
      SubsetSize(batch * blocked, before * blocked);
      assert batch == (batch - blocked) + batch * blocked;
      assert |batch - blocked| > 0;
    } else {
      assert p in Unblocked(batch, blocked);
    }
  }

  /** Starvation: once `cap` blocked packages are older than an unblocked one, no batch ever reaches it. */
  lemma StepStarves(before: set<Package>, after: set<Package>, blocked: set<Package>, cap: nat, p: Package)
    requires BatchStep(before, after, blocked, cap) && p in before && |Older(before, p) * blocked| >= cap
    ensures p in after && Older(after, p) * blocked == Older(before, p) * blocked
  {
    var batch :| IsBatch(before, batch, cap) && after == before - Unblocked(batch, blocked);
    if p in batch {
      SubsetSize(Older(before, p) * blocked + {p}, batch);
    }
    assert Older(after, p) * blocked == Older(before, p) * blocked;
  }

  lemma {:induction false} StarvesForever(states: seq<set<Package>>, blocked: set<Package>, cap: nat, p: Package)
    requires IsRun(states, blocked, cap) && p in states[0] && |Older(states[0], p) * blocked| >= cap
    ensures var last := states[|states| - 1];
            p in last && Older(last, p) * blocked == Older(states[0], p) * blocked
    decreases |states|
  {
    if |states| > 1 {
      var front := RunFront(states, blocked, cap);
      StarvesForever(front, blocked, cap, p);
      StepStarves(front[|front| - 1], states[|states| - 1], blocked, cap, p);
    }
  }

  /** A batch that finds only blocked packages changes nothing, so neither does any later one. */
  lemma BlockedFrontStopsEverything(before: set<Package>, after: set<Package>, blocked: set<Package>, cap: nat)
    requires BatchStep(before, after, blocked, cap)
    requires forall p :: p in before && p !in blocked ==> |Older(before, p) * blocked| >= cap
    ensures after == before
  {
    forall p | p in before
      ensures p in after
    {
      if p !in blocked {
        StepStarves(before, after, blocked, cap, p);
      }
    }
  }

  lemma FreeAheadIsSmaller(s: set<Package>, blocked: set<Package>, p: Package)
    ensures FreeAhead(s, blocked, p) <= |s|
  {
    SubsetSize(Ahead(s, p) - blocked, s);
  }

  lemma FewBlockedMeansGone(states: seq<set<Package>>, blocked: set<Package>, cap: nat, p: Package)
    requires IsRun(states, blocked, cap) && p !in blocked && BlockedAhead(states[0], blocked, p) < cap
    requires |states| - 1 >= |states[0]|
    ensures p !in states[|states| - 1]
  {
    if p in states[|states| - 1] {
      BacklogAheadShrinks(states, blocked, cap, p, |states| - 1);
      StillAheadMeansFew(states[0], states[|states| - 1], blocked, cap, p, |states| - 1);
    }
  }

  // Which packages are ever swept depends on how ties are broken. A run in which they always fall against a package,
  // and one in which they fall in its favour, decide both questions exactly.

  ghost predicate IsOldest(p: Package, s: set<Package>) {
    p in s && forall q :: q in s ==> Date(p) <= Date(q)
  }

  lemma {:induction false} SomeOldest(s: set<Package>) returns (p: Package)
    requires s != {}
    ensures IsOldest(p, s)
  {
    var x :| x in s;
    if s == {x} {
      p := x;
    } else {
      var y := SomeOldest(s - {x});
      p := if Date(x) <= Date(y) then x else y;
    }
  }

  lemma {:induction false} SomeBatch(s: set<Package>, cap: nat) returns (batch: set<Package>)
    ensures IsBatch(s, batch, cap)
  {
    if cap == 0 || s == {} {
      batch := {};
    } else {
      var p := SomeOldest(s);
      var rest := SomeBatch(s - {p}, cap - 1);
      batch := rest + {p};
      RemoveSize(s, {p});
    }
  }

  /** With enough packages ahead of it, a batch may leave a package out. */
  lemma BatchWithout(s: set<Package>, cap: nat, p: Package) returns (batch: set<Package>)
    requires p in s && |Ahead(s, p) - {p}| >= cap
    ensures IsBatch(s, batch, cap) && p !in batch
  {
    batch := SomeBatch(s - {p}, cap);
    var ahead := Ahead(s, p) - {p};
    SubsetSize(ahead, s - {p});
    RemoveSize(s, {p});
    forall q | q in batch
      ensures Date(q) <= Date(p)
    {
      if Date(q) > Date(p) {
        SubsetSize(ahead + {q}, batch);
      }
    }
  }

  /** One batch that leaves the package out keeps the blocked packages ahead of it. */
  lemma StepWithout(s: set<Package>, blocked: set<Package>, cap: nat, p: Package) returns (after: set<Package>)
    requires p in s && p !in blocked && BlockedAhead(s, blocked, p) >= cap
    ensures BatchStep(s, after, blocked, cap)
    ensures p in after && BlockedAhead(after, blocked, p) == BlockedAhead(s, blocked, p)
  {
    SubsetSize(Ahead(s, p) * blocked, Ahead(s, p) - {p});
    var batch := BatchWithout(s, cap, p);
    after := s - Unblocked(batch, blocked);
    assert IsBatch(s, batch, cap) && after == s - Unblocked(batch, blocked);
    assert Ahead(after, p) * blocked == Ahead(s, p) * blocked;
  }

  lemma {:induction false} StarvingRun(s: set<Package>, blocked: set<Package>, cap: nat, p: Package, n: nat)
    returns (states: seq<set<Package>>)
    requires p in s && p !in blocked && BlockedAhead(s, blocked, p) >= cap
    ensures IsRun(states, blocked, cap) && |states| == n + 1 && states[0] == s
    ensures p in states[n] && BlockedAhead(states[n], blocked, p) >= cap
  {
    if n == 0 {
      states := [s];
    } else {
      var before := StarvingRun(s, blocked, cap, p, n - 1);
      var after := StepWithout(before[n - 1], blocked, cap, p);
      RunAppend(before, after, blocked, cap);
      states := before + [after];
    }
  }

  lemma RunAppend(states: seq<set<Package>>, after: set<Package>, blocked: set<Package>, cap: nat)
    requires IsRun(states, blocked, cap) && BatchStep(states[|states| - 1], after, blocked, cap)
    ensures IsRun(states + [after], blocked, cap)
  {
    var longer := states + [after];
    forall i | 0 <= i < |longer| - 1
      ensures StepAt(longer, i, blocked, cap)
    {
      if i < |states| - 1 {
        assert StepAt(states, i, blocked, cap);
      }
    }
  }

  /** A batch takes the package, or takes only packages strictly older than it. */
  lemma BatchInFavour(s: set<Package>, cap: nat, p: Package) returns (batch: set<Package>)
    requires p in s
    ensures IsBatch(s, batch, cap) && (p in batch || (|batch| == cap && batch <= Older(s, p)))
  {
    batch := SomeBatch(s, cap);
    if p !in batch {
      LeftOut(s, batch, cap, p);
      if !(batch <= Older(s, p)) {
        var q :| q in batch && q !in Older(s, p);
        RemoveSize(batch, {q});
        batch := batch - {q} + {p};
      }
    }
  }

  lemma RunPrepend(s: set<Package>, states: seq<set<Package>>, blocked: set<Package>, cap: nat)
    requires IsRun(states, blocked, cap) && BatchStep(s, states[0], blocked, cap)
    ensures IsRun([s] + states, blocked, cap)
  {
    var longer := [s] + states;
    forall i | 0 <= i < |longer| - 1
      ensures StepAt(longer, i, blocked, cap)
    {
      if i > 0 {
        assert StepAt(states, i - 1, blocked, cap);
      }
    }
  }

  lemma {:induction false} SweepingRun(s: set<Package>, blocked: set<Package>, cap: nat, p: Package)
    returns (states: seq<set<Package>>)
    requires p in s && p !in blocked && |Older(s, p) * blocked| < cap
    ensures IsRun(states, blocked, cap) && states[0] == s && p !in states[|states| - 1]
    decreases |Older(s, p) - blocked|
  {
    var after := StepInFavour(s, blocked, cap, p);
    var rest := [after];
    if p in after {
      rest := SweepingRun(after, blocked, cap, p);
    }
    RunPrepend(s, rest, blocked, cap);
    states := [s] + rest;
  }

  lemma StepInFavour(s: set<Package>, blocked: set<Package>, cap: nat, p: Package) returns (after: set<Package>)
    requires p in s && p !in blocked && |Older(s, p) * blocked| < cap
    ensures BatchStep(s, after, blocked, cap)
    ensures p in after ==> |Older(after, p) * blocked| < cap && |Older(after, p) - blocked| < |Older(s, p) - blocked|
  {
    var batch := BatchInFavour(s, cap, p);
    after := s - Unblocked(batch, blocked);
    if p !in batch {
      FewerOlder(s, batch, blocked, cap, p);
    }
  }

  lemma FewerOlder(s: set<Package>, batch: set<Package>, blocked: set<Package>, cap: nat, p: Package)
    requires |batch| == cap && batch <= Older(s, p) && |Older(s, p) * blocked| < cap
    ensures var after := s - Unblocked(batch, blocked);
            && Older(after, p) * blocked == Older(s, p) * blocked
            && |Older(after, p) - blocked| < |Older(s, p) - blocked|
  {
    SplitSize(batch, blocked);
    SubsetSize(batch * blocked, Older(s, p) * blocked);
    assert Older(s - Unblocked(batch, blocked), p) - blocked == (Older(s, p) - blocked) - (batch - blocked);
    RemoveSize(Older(s, p) - blocked, batch - blocked);
  }

  /** Every sufficiently long run from `s` sweeps the package. */
  ghost predicate AlwaysSwept(s: set<Package>, blocked: set<Package>, cap: nat, p: Package) {
    forall states :: IsRun(states, blocked, cap) && states[0] == s && |states| - 1 >= |s| ==>
      p !in states[|states| - 1]
  }

  /** Some run from `s` sweeps the package. */
  ghost predicate EverSwept(s: set<Package>, blocked: set<Package>, cap: nat, p: Package) {
    exists states :: IsRun(states, blocked, cap) && states[0] == s && p !in states[|states| - 1]
  }

  /** An unblocked package is sure to be swept if and only if fewer than `cap` blocked packages are as old as it or
      older: a tie may always be broken against it. */
  lemma AlwaysSweptIff(s: set<Package>, blocked: set<Package>, cap: nat, p: Package)
    requires p in s && p !in blocked
    ensures AlwaysSwept(s, blocked, cap, p) <==> BlockedAhead(s, blocked, p) < cap
  {
    if BlockedAhead(s, blocked, p) < cap {
      forall states | IsRun(states, blocked, cap) && states[0] == s && |states| - 1 >= |s|
        ensures p !in states[|states| - 1]
      {
        FewBlockedMeansGone(states, blocked, cap, p);
      }
    } else {
      var states := StarvingRun(s, blocked, cap, p, |s|);
    }
  }

  /** It can be swept at all if and only if fewer than `cap` blocked packages are strictly older. */
  lemma EverSweptIff(s: set<Package>, blocked: set<Package>, cap: nat, p: Package)
    requires p in s && p !in blocked
    ensures EverSwept(s, blocked, cap, p) <==> |Older(s, p) * blocked| < cap
  {
    if |Older(s, p) * blocked| < cap {
      var states := SweepingRun(s, blocked, cap, p);
    } else {
      forall states | IsRun(states, blocked, cap) && states[0] == s
        ensures p in states[|states| - 1]
      {
        StarvesForever(states, blocked, cap, p);
      }
    }
  }

  // ---------------------------------------------------------------------------------------------------------------
  // One batch as it runs
  // ---------------------------------------------------------------------------------------------------------------

  /** The answer of a live check for one package. */
  datatype Answer = Empty | Present | Unavailable

  /** What Uyuni says while the batch runs: the packages an advisory provides and those installed on a system, the
      packages whose checks fail, and those whose removal fails. A removal that finds the package already gone counts
      as successful. */
  datatype Live = Live(advised: set<Package>, installed: set<Package>, errataFails: set<Package>,
                       systemsFail: set<Package>, removalFails: set<Package>)

  function Check(present: set<Package>, fails: set<Package>, p: Package): Answer {
    if p in fails then Unavailable else if p in present then Present else Empty
  }

  function Errata(live: Live, p: Package): Answer {
    Check(live.advised, live.errataFails, p)
  }

  function Systems(live: Live, p: Package): Answer {
    Check(live.installed, live.systemsFail, p)
  }

  predicate NoErrors(live: Live) {
    live.errataFails == live.systemsFail == live.removalFails == {}
  }

  // What becomes of the packages of a batch.

  /** Both checks answer that nothing uses the package. */
  predicate PassesChecks(live: Live, p: Package) {
    p !in live.errataFails + live.advised + live.systemsFail + live.installed
  }

  ghost function Passing(live: Live, s: set<Package>): set<Package> {
    set p | p in s && PassesChecks(live, p)
  }

  ghost function Advised(live: Live, s: set<Package>): set<Package> {
    set p | p in s && p !in live.errataFails && p in live.advised
  }

  ghost function InUse(live: Live, s: set<Package>): set<Package> {
    set p | p in s && p !in live.errataFails + live.advised + live.systemsFail && p in live.installed
  }

  /** What a batch removes. */
  ghost function Removed(live: Live, dryRun: bool, s: set<Package>): set<Package> {
    if dryRun then {} else Passing(live, s) - live.removalFails
  }

  class Uyuni {
    var orphans: set<Package>

    method ListPackagesWithoutChannel() returns (list: seq<Package>)
      ensures NoRepeats(list) && AsSet(list) == orphans
    {
      list := [];
      var todo := orphans;
      while todo != {}
        invariant todo <= orphans && NoRepeats(list) && AsSet(list) == orphans - todo
        decreases todo
      {
        var p :| p in todo;
        assert p !in AsSet(list);
        AppendToSet(list, p);
        list := list + [p];
        todo := todo - {p};
      }
    }

    method RemovePackage(p: Package, fails: bool) returns (ok: bool)
      modifies this
      ensures ok == !fails && orphans == if ok then old(orphans) - {p} else old(orphans)
    {
      if !fails {
        orphans := orphans - {p};
      }
      ok := !fails;
    }
  }

  ghost predicate OldestFirst(s: seq<Package>) {
    forall i, j :: 0 <= i < j < |s| ==> Date(s[i]) <= Date(s[j])
  }

  /** The library sort: any arrangement with the oldest first. */
  method Sort(s: seq<Package>) returns (t: seq<Package>)
    requires NoRepeats(s)
    ensures OldestFirst(t) && NoRepeats(t) && AsSet(t) == AsSet(s)
  {
    t := [];
    var todo := AsSet(s);
    while todo != {}
      invariant OldestFirst(t) && NoRepeats(t)
      invariant AsSet(t) + todo == AsSet(s) && AsSet(t) !! todo
      invariant forall i, q :: 0 <= i < |t| && q in todo ==> Date(t[i]) <= Date(q)
      decreases todo
    {
      ghost var oldest := SomeOldest(todo);
      var p :| p in todo && forall q :: q in todo ==> Date(p) <= Date(q);
      assert p !in AsSet(t);
      AppendToSet(t, p);
      t := t + [p];
      todo := todo - {p};
    }
  }

  /** The counts a batch publishes in its status. */
  datatype Counts = Counts(found: int, tooRecent: int, errata: int, installed: int, deleted: int, remaining: int)

  ghost function Eligible(s: set<Package>, now: int, minAge: int): set<Package> {
    set p | p in s && p.lastModified.Some? && now - p.lastModified.value >= minAge
  }

  method FilterByAge(candidates: seq<Package>, now: int, minAge: int) returns (eligible: seq<Package>, tooRecent: nat)
    requires NoRepeats(candidates)
    ensures NoRepeats(eligible) && AsSet(eligible) == Eligible(AsSet(candidates), now, minAge)
    ensures |candidates| == |eligible| + tooRecent
  {
    eligible, tooRecent := [], 0;
    for i := 0 to |candidates|
      invariant NoRepeats(eligible) && AsSet(eligible) == Eligible(AsSet(candidates[..i]), now, minAge)
      invariant i == |eligible| + tooRecent
    {
      var p := candidates[i];
      assert p !in AsSet(candidates[..i]);
      assert AsSet(candidates[..i + 1]) == AsSet(candidates[..i]) + {p};
      assert p !in AsSet(eligible);
      AppendToSet(eligible, p);
      if p.lastModified.None? || now - p.lastModified.value < minAge {
        tooRecent := tooRecent + 1;
      } else {
        eligible := eligible + [p];
      }
    }
    assert candidates[..|candidates|] == candidates;
  }

  datatype Fate = HasErrata | Installed | Deleted | Reported | CheckOrRemovalFailed

  /** The fate that the checks, the kind of the run and the removal decide. */
  ghost predicate Befits(fate: Fate, p: Package, dryRun: bool, live: Live) {
    && (fate.HasErrata? <==> p in Advised(live, {p}))
    && (fate.Installed? <==> p in InUse(live, {p}))
    && (fate.Reported? <==> dryRun && PassesChecks(live, p))
    && (fate.Deleted? <==> !dryRun && PassesChecks(live, p) && p !in live.removalFails)
  }

  /** Re-verifies one package right before acting on it. */
  method ProcessOne(uc: Uyuni, p: Package, dryRun: bool, live: Live) returns (fate: Fate)
    modifies uc
    ensures uc.orphans == if fate.Deleted? then old(uc.orphans) - {p} else old(uc.orphans)
    ensures Befits(fate, p, dryRun, live)
  {
    match Errata(live, p)
    case Unavailable => return CheckOrRemovalFailed;
    case Present => return HasErrata;
    case Empty =>
      match Systems(live, p)
      case Unavailable => return CheckOrRemovalFailed;
      case Present => return Installed;
      case Empty =>
        if dryRun {
          return Reported;
        }
        var ok := uc.RemovePackage(p, p in live.removalFails);
        return if ok then Deleted else CheckOrRemovalFailed;
  }

  /** What a batch has counted and done when it has processed the packages of `s`. */
  ghost predicate Processed(all: set<Package>, now: set<Package>, s: set<Package>, dryRun: bool, live: Live,
                            errata: int, installed: int, reported: int, deleted: int) {
    && errata == |Advised(live, s)| && installed == |InUse(live, s)|
    && reported == (if dryRun then |Passing(live, s)| else 0)
    && deleted == |Removed(live, dryRun, s)| && now == all - Removed(live, dryRun, s)
  }

  function One(b: bool): int {
    if b then 1 else 0
  }

  lemma SizeOfOneMore(before: set<Package>, after: set<Package>, p: Package, b: bool)
    requires p !in before && after == before + (if b then {p} else {})
    ensures |after| == |before| + One(b)
  {
  }

  lemma AdvisedOneMore(live: Live, s: set<Package>, p: Package)
    requires p !in s
    ensures |Advised(live, s + {p})| == |Advised(live, s)| + One(p in Advised(live, {p}))
  {
    var b := p in Advised(live, {p});
    assert Advised(live, s + {p}) == Advised(live, s) + (if b then {p} else {});
    SizeOfOneMore(Advised(live, s), Advised(live, s + {p}), p, b);
  }

  lemma InUseOneMore(live: Live, s: set<Package>, p: Package)
    requires p !in s
    ensures |InUse(live, s + {p})| == |InUse(live, s)| + One(p in InUse(live, {p}))
  {
    var b := p in InUse(live, {p});
    assert InUse(live, s + {p}) == InUse(live, s) + (if b then {p} else {});
    SizeOfOneMore(InUse(live, s), InUse(live, s + {p}), p, b);
  }

  lemma PassingOneMore(live: Live, s: set<Package>, p: Package)
    requires p !in s
    ensures |Passing(live, s + {p})| == |Passing(live, s)| + One(PassesChecks(live, p))
  {
    var b := PassesChecks(live, p);
    assert Passing(live, s + {p}) == Passing(live, s) + (if b then {p} else {});
    SizeOfOneMore(Passing(live, s), Passing(live, s + {p}), p, b);
  }

  lemma RemovedOneMore(live: Live, dryRun: bool, s: set<Package>, p: Package)
    requires p !in s
    ensures var b := !dryRun && PassesChecks(live, p) && p !in live.removalFails;
            && Removed(live, dryRun, s + {p}) == Removed(live, dryRun, s) + (if b then {p} else {})
            && |Removed(live, dryRun, s + {p})| == |Removed(live, dryRun, s)| + One(b)
  {
    var b := !dryRun && PassesChecks(live, p) && p !in live.removalFails;
    assert Removed(live, dryRun, s + {p}) == Removed(live, dryRun, s) + (if b then {p} else {});
    SizeOfOneMore(Removed(live, dryRun, s), Removed(live, dryRun, s + {p}), p, b);
  }

  lemma ProcessedOneMore(all: set<Package>, now: set<Package>, s: set<Package>, p: Package, fate: Fate,
                         dryRun: bool, live: Live, errata: int, installed: int, reported: int, deleted: int)
    requires Processed(all, now, s, dryRun, live, errata, installed, reported, deleted) && p !in s
    requires Befits(fate, p, dryRun, live)
    ensures Processed(all, if fate.Deleted? then now - {p} else now, s + {p}, dryRun, live,
                      errata + One(fate.HasErrata?), installed + One(fate.Installed?),
                      reported + One(fate.Reported?), deleted + One(fate.Deleted?))
  {
    AdvisedOneMore(live, s, p);
    InUseOneMore(live, s, p);
    PassingOneMore(live, s, p);
    RemovedOneMore(live, dryRun, s, p);
    assert now - {p} == all - (Removed(live, dryRun, s) + {p});
  }

  lemma NothingProcessed(all: set<Package>, dryRun: bool, live: Live)
    ensures Processed(all, all, AsSet([]), dryRun, live, 0, 0, 0, 0)
  {
    assert AsSet<Package>([]) == {};
    assert Advised(live, {}) == InUse(live, {}) == Passing(live, {}) == Removed(live, dryRun, {}) == {};
    assert all - {} == all;
  }

  /** The next package of a batch is not among those already processed. */
  lemma NextIsNew(batch: seq<Package>, i: int)
    requires NoRepeats(batch) && 0 <= i < |batch|
    ensures batch[i] !in AsSet(batch[..i]) && AsSet(batch[..i + 1]) == AsSet(batch[..i]) + {batch[i]}
  {
    assert batch[..i + 1] == batch[..i] + [batch[i]];
    AppendToSet(batch[..i], batch[i]);
  }

  method Tally(fate: Fate, errata: int, installed: int, deleted: int, reported: int, errors: int)
    returns (errata': int, installed': int, deleted': int, reported': int, errors': int)
    ensures errata' == errata + One(fate.HasErrata?) && installed' == installed + One(fate.Installed?)
    ensures deleted' == deleted + One(fate.Deleted?) && reported' == reported + One(fate.Reported?)
    ensures errors' == errors + One(fate.CheckOrRemovalFailed?)
  {
    errata', installed', deleted', reported', errors' := errata, installed, deleted, reported, errors;
    match fate
    case HasErrata => errata' := errata + 1;
    case Installed => installed' := installed + 1;
    case Reported => reported' := reported + 1;
    case CheckOrRemovalFailed => errors' := errors + 1;
    case Deleted => deleted' := deleted + 1;
  }

  /** Processes the packages of one batch, one by one. */
  method ProcessBatch(uc: Uyuni, batch: seq<Package>, dryRun: bool, live: Live)
    returns (errata: int, installed: int, deleted: int, reported: int, errors: int)
    requires NoRepeats(batch)
    modifies uc
    ensures |batch| == errata + installed + deleted + reported + errors
    ensures Processed(old(uc.orphans), uc.orphans, AsSet(batch), dryRun, live, errata, installed, reported, deleted)
  {
    errata, installed, deleted, reported, errors := 0, 0, 0, 0, 0;
    NothingProcessed(uc.orphans, dryRun, live);
    assert batch[..0] == [];
    for i := 0 to |batch|
      invariant i == errata + installed + deleted + reported + errors
      invariant Processed(old(uc.orphans), uc.orphans, AsSet(batch[..i]), dryRun, live,
                          errata, installed, reported, deleted)
    {
      var p := batch[i];
      ghost var now := uc.orphans;
      NextIsNew(batch, i);
      var fate := ProcessOne(uc, p, dryRun, live);
      ProcessedOneMore(old(uc.orphans), now, AsSet(batch[..i]), p, fate, dryRun, live,
                       errata, installed, reported, deleted);
      errata, installed, deleted, reported, errors := Tally(fate, errata, installed, deleted, reported, errors);
    }
    assert batch[..|batch|] == batch;
  }

  /** The oldest `cap` of a sorted list are a batch of its elements. */
  lemma FrontIsBatch(sorted: seq<Package>, n: int, cap: nat)
    requires OldestFirst(sorted) && NoRepeats(sorted) && n == Min(cap, |sorted|)
    ensures NoRepeats(sorted[..n]) && IsBatch(AsSet(sorted), AsSet(sorted[..n]), cap)
  {
    SizeOfSet(sorted);
    SizeOfSet(sorted[..n]);
    assert AsSet(sorted[..n]) <= AsSet(sorted);
    forall k | 0 <= k < n
      ensures sorted[k] in AsSet(sorted[..n])
    {
      assert sorted[..n][k] == sorted[k];
    }
    forall p, q | p in AsSet(sorted[..n]) && q in AsSet(sorted) && q !in AsSet(sorted[..n])
      ensures Date(p) <= Date(q)
    {
      var i :| 0 <= i < n && sorted[..n][i] == p;
      var j :| 0 <= j < |sorted| && sorted[j] == q;
    }
  }

  /** One batch of the sweep, of the oldest packages of sufficient age, as many as the cap allows. Everything found is
      accounted for once, by what the checks say of it; exactly what passes both is removed, unless its removal fails,
      and a dry run removes nothing. Without errors the batch is a step of the drain argument. */
  method Sweep(uc: Uyuni, policy: Policy, now: int, live: Live)
    returns (c: Counts, again: bool, reported: int, errors: int, ghost batch: set<Package>)
    modifies uc
    ensures IsBatch(Eligible(old(uc.orphans), now, policy.minAge), batch, policy.maxDelete)
    ensures forall p :: p in batch ==> p.lastModified.Some? && now - p.lastModified.value >= policy.minAge
    ensures c.found == |old(uc.orphans)|
    ensures c.found == c.tooRecent + (c.errata + c.installed + c.deleted + reported + errors) + c.remaining
    ensures c.tooRecent == |set p | p in old(uc.orphans)
                                    && (p.lastModified.None? || now - p.lastModified.value < policy.minAge)|
    ensures c.errata == |Advised(live, batch)| && c.installed == |InUse(live, batch)|
    ensures reported == if policy.dryRun then |Passing(live, batch)| else 0
    ensures c.deleted == |old(uc.orphans)| - |uc.orphans| <= policy.maxDelete
    ensures uc.orphans == old(uc.orphans) - Removed(live, policy.dryRun, batch)
    ensures again <==> c.remaining > 0
    ensures var eligible := Eligible(old(uc.orphans), now, policy.minAge);
            && c.remaining == |eligible| - Min(policy.maxDelete, |eligible|)
            && (NoErrors(live) && !policy.dryRun ==>
                  BatchStep(eligible, Eligible(uc.orphans, now, policy.minAge), eligible - Passing(live, eligible),
                            policy.maxDelete))
  {
    var candidates := uc.ListPackagesWithoutChannel();
    SizeOfSet(candidates);
    var eligible, tooRecent := FilterByAge(candidates, now, policy.minAge);
    var sorted := Sort(eligible);
    SizeOfSet(eligible);
    SizeOfSet(sorted);
    TooRecent(AsSet(candidates), now, policy.minAge);
    var n := Min(policy.maxDelete, |sorted|);
    FrontIsBatch(sorted, n, policy.maxDelete);
    batch := AsSet(sorted[..n]);
    var errata, installed, deleted;
    errata, installed, deleted, reported, errors := ProcessBatch(uc, sorted[..n], policy.dryRun, live);
    c := Counts(|candidates|, tooRecent, errata, installed, deleted, |sorted| - n);
    again := c.remaining > 0;
    RemovedFromBatch(AsSet(candidates), batch, now, policy, live);
    if NoErrors(live) && !policy.dryRun {
      SweptStep(AsSet(candidates), batch, now, policy, live);
    }
  }

  lemma TooRecent(all: set<Package>, now: int, minAge: int)
    ensures |set p | p in all && (p.lastModified.None? || now - p.lastModified.value < minAge)|
         == |all| - |Eligible(all, now, minAge)|
  {
    assert (set p | p in all && (p.lastModified.None? || now - p.lastModified.value < minAge))
        == all - Eligible(all, now, minAge);
  }

  lemma RemovedFromBatch(all: set<Package>, batch: set<Package>, now: int, policy: Policy, live: Live)
    requires IsBatch(Eligible(all, now, policy.minAge), batch, policy.maxDelete)
    ensures var gone := Removed(live, policy.dryRun, batch);
            |all - gone| == |all| - |gone| && |gone| <= policy.maxDelete
  {
    var gone := Removed(live, policy.dryRun, batch);
    assert gone <= batch <= all;
    SubsetSize(gone, batch);
    assert all == (all - gone) + gone;
  }

  lemma SweptStep(all: set<Package>, batch: set<Package>, now: int, policy: Policy, live: Live)
    requires IsBatch(Eligible(all, now, policy.minAge), batch, policy.maxDelete) && NoErrors(live)
    ensures var eligible := Eligible(all, now, policy.minAge);
            BatchStep(eligible, Eligible(all - Removed(live, false, batch), now, policy.minAge),
                      eligible - Passing(live, eligible), policy.maxDelete)
  {
    var eligible := Eligible(all, now, policy.minAge);
    var blocked := eligible - Passing(live, eligible);
    assert Eligible(all - Removed(live, false, batch), now, policy.minAge) == eligible - Unblocked(batch, blocked);
  }
}
