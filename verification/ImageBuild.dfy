/** Scheduling an image build: one ImageBuild object without the build-now annotation, reconciled by one worker from
    an arbitrarily stale cache. */
module ImageBuild {
  import opened Common

  datatype BuildStatus = NotStarted | Scheduled | Running | Succeeded | Failed

  /** The parts of the status that scheduling and polling touch; 0 stands for an id that is not set. */
  datatype Status = Status(actionId: int, baseline: int, imageId: int, build: BuildStatus)

  const NEW_STATUS := Status(0, 0, 0, NotStarted)

  /** The state of the build action in Uyuni. */
  datatype Action = Completed | ActionFailed | Pending

  /** What one pass meets. `cached` is the stored version it works from, `readOk` says whether the uncached read of
      the current status succeeds, `listed` holds the images listed before scheduling (None if listing fails),
      `scheduled` is the action Uyuni creates (None if scheduling fails), and `write` is the fate of the status write
      as far as the API server is concerned; a write from a stale version is refused in any case. */
  datatype Pass = Pass(
    cached: nat, ready: bool, readOk: bool, listed: Option<seq<int>>, scheduled: Option<int>,
    pollOk: bool, action: Action, timedOut: bool, images: Option<seq<int>>, write: Write)

  /** Every version of the stored status, the last being current, and three counts over the whole run: successful
      ScheduleImageBuild calls, status writes after such a call that were lost while the stored status had no action
      yet, and uncached reads that failed. */
  datatype World = World(versions: seq<Status>, calls: int, lostWrites: int, blindReads: int)

  function Current(w: World): Status
    requires w.versions != []
  {
    w.versions[|w.versions| - 1]
  }

  predicate IsCurrent(w: World, cached: int) {
    cached == |w.versions| - 1
  }

  // ---------------------------------------------------------------------------------------------------------------
  // One pass
  // ---------------------------------------------------------------------------------------------------------------

  function Update(w: World, cached: int, s: Status, write: Write): World {
    if write.Lost? || !IsCurrent(w, cached) then w else w.(versions := w.versions + [s])
  }

  /** The largest id in a list, or 0. */
  function MaxId(ids: seq<int>): int {
    if ids == [] then 0
    else
      var m := MaxId(ids[..|ids| - 1]);
      if ids[|ids| - 1] > m then ids[|ids| - 1] else m
  }

  /** What scheduling records as the highest image so far: 0 if the images cannot be listed. */
  function Baseline(listed: Option<seq<int>>): int {
    if listed.Some? then MaxId(listed.value) else 0
  }

  /** The smallest id above the baseline, or 0. */
  function FirstAbove(ids: seq<int>, baseline: int): int {
    if ids == [] then 0
    else
      var best, id := FirstAbove(ids[..|ids| - 1], baseline), ids[|ids| - 1];
      if id > baseline && (best == 0 || id < best) then id else best
  }

  /** What polling the action makes of the status. */
  function Polled(s: Status, x: Pass): Status {
    var s' := if s.imageId == 0 && x.images.Some? then s.(imageId := FirstAbove(x.images.value, s.baseline)) else s;
    s'.(build := match x.action
                 case Completed => Succeeded
                 case ActionFailed => Failed
                 case Pending => if x.timedOut then Failed else if s'.imageId == 0 then Scheduled else Running)
  }

  function Schedule(w: World, x: Pass, s: Status): World
    requires w.versions != []
  {
    if x.readOk && Current(w).actionId != 0 then w
    else
      var w1 := if x.readOk then w else w.(blindReads := w.blindReads + 1);
      var s1 := s.(baseline := Baseline(x.listed));
      if x.scheduled.None? then Update(w1, x.cached, s1, x.write)
      else
        var w2 := Update(w1, x.cached, s1.(actionId := x.scheduled.value, build := Scheduled), x.write);
        var lost := |w2.versions| == |w.versions| && Current(w).actionId == 0;
        w2.(calls := w.calls + 1, lostWrites := w.lostWrites + if lost then 1 else 0)
  }

  function Reconcile(w: World, x: Pass): World
    requires x.cached < |w.versions|
  {
    var s := w.versions[x.cached];
    if !x.ready then Update(w, x.cached, s, x.write)
    else if s.actionId == 0 then Schedule(w, x, s)
    else if !x.pollOk then Update(w, x.cached, s, x.write)
    else Update(w, x.cached, Polled(s, x), x.write)
  }

  /** A pass of the worker, or somebody else's edit of the object, which makes a new version without touching the
      status. */
  datatype Event = Worker(x: Pass) | Edit

  function Next(w: World, e: Event): World
    requires w.versions != [] && (e.Worker? ==> e.x.cached < |w.versions|)
  {
    match e
    case Worker(x) => Reconcile(w, x)
    case Edit => w.(versions := w.versions + [Current(w)])
  }

  /** The passes read versions that exist, and Uyuni's action ids are not 0. */
  ghost predicate Possible(w: World, es: seq<Event>)
    requires w.versions != []
    decreases |es|
  {
    es == [] ||
    (&& (es[0].Worker? ==> es[0].x.cached < |w.versions| && es[0].x.scheduled != Some(0))
     && Possible(Next(w, es[0]), es[1..]))
  }

  function Run(w: World, es: seq<Event>): (f: World)
    requires w.versions != [] && Possible(w, es)
    ensures f.versions != []
    decreases |es|
  {
    if es == [] then w else Run(Next(w, es[0]), es[1..])
  }

  const FRESH := World([NEW_STATUS], 0, 0, 0)

  // ---------------------------------------------------------------------------------------------------------------
  // The scheduling bound
  // ---------------------------------------------------------------------------------------------------------------

  /** Every successful call but one is paid for by a lost write or a failed uncached read; the one left over is
      recorded. */
  predicate Counted(w: World) {
    && w.versions != [] && 0 <= w.lostWrites && 0 <= w.blindReads
    && w.calls <= w.lostWrites + w.blindReads + (if Current(w).actionId != 0 then 1 else 0)
  }

  lemma NextKeepsCounted(w: World, e: Event)
    requires Counted(w) && (e.Worker? ==> e.x.cached < |w.versions| && e.x.scheduled != Some(0))
    ensures Counted(Next(w, e))
    ensures Current(w).actionId != 0 ==> Current(Next(w, e)).actionId == Current(w).actionId
  {
  }

  /** Over every run, however stale the cache: at most one ScheduleImageBuild call succeeds, plus one for every status
      write lost before an action was recorded, plus one for every failed uncached read. */
  lemma {:induction false} CallsAreBounded(w: World, es: seq<Event>)
    requires Counted(w) && Possible(w, es)
    ensures Counted(Run(w, es))
    ensures Run(w, es).calls <= 1 + Run(w, es).lostWrites + Run(w, es).blindReads
    decreases |es|
  {
    if es != [] {
      NextKeepsCounted(w, es[0]);
      CallsAreBounded(Next(w, es[0]), es[1..]);
    }
  }

  /** The same from the moment the object is created, with nothing scheduled and nothing counted. */
  lemma CallsSinceCreationAreBounded(es: seq<Event>)
    requires Possible(FRESH, es)
    ensures FRESH == World([Status(0, 0, 0, NotStarted)], 0, 0, 0)
    ensures Run(FRESH, es).calls <= 1 + Run(FRESH, es).lostWrites + Run(FRESH, es).blindReads
  {
    CallsAreBounded(FRESH, es);
  }

  /** Once an action is recorded it is the build's action for good. */
  lemma {:induction false} ActionStays(w: World, es: seq<Event>)
    requires Counted(w) && Possible(w, es) && Current(w).actionId != 0
    ensures Current(Run(w, es)).actionId == Current(w).actionId
    decreases |es|
  {
    if es != [] {
      NextKeepsCounted(w, es[0]);
      ActionStays(Next(w, es[0]), es[1..]);
    }
  }

  /** What is counted: a call when none is recorded as far as the pass can see, and Uyuni accepts; a lost write when
      such a call is not recorded although none was; a blind read when the uncached read fails. */
  lemma CountsAreExact(w: World, x: Pass)
    requires x.cached < |w.versions|
    ensures var w' := Reconcile(w, x);
            var looks := x.ready && w.versions[x.cached].actionId == 0;
            var open := Current(w).actionId == 0;
            var calls := looks && (!x.readOk || open) && x.scheduled.Some?;
            && w'.calls == w.calls + (if calls then 1 else 0)
            && w'.blindReads == w.blindReads + (if looks && !x.readOk then 1 else 0)
            && w'.lostWrites == w.lostWrites + (if calls && open && w'.versions == w.versions then 1 else 0)
  {
  }

  /** What the uncached read is for: with a recorded action and a cache that has not seen it, a pass calls Uyuni again
      if and only if the read fails and Uyuni accepts. */
  lemma DuplicateIffBlindRead(w: World, x: Pass)
    requires Counted(w) && x.cached < |w.versions| && x.ready
    requires Current(w).actionId != 0 && w.versions[x.cached].actionId == 0
    ensures Reconcile(w, x).calls == w.calls + 1 <==> !x.readOk && x.scheduled.Some?
    ensures Reconcile(w, x).versions == w.versions
  {
  }

  // ---------------------------------------------------------------------------------------------------------------
  // Finding the image
  // ---------------------------------------------------------------------------------------------------------------

  predicate NoneAbove(ids: seq<int>, baseline: int) {
    forall id :: id in ids ==> id <= baseline
  }

  predicate IsLeastAbove(ids: seq<int>, baseline: int, best: int) {
    best in ids && best > baseline && forall id :: id in ids && id > baseline ==> best <= id
  }

  lemma {:induction false} FirstAboveIsLeast(ids: seq<int>, baseline: int)
    requires 0 <= baseline
    ensures FirstAbove(ids, baseline) == 0 <==> NoneAbove(ids, baseline)
    ensures FirstAbove(ids, baseline) != 0 ==> IsLeastAbove(ids, baseline, FirstAbove(ids, baseline))
  {
    if ids != [] {
      var n := |ids| - 1;
      FirstAboveIsLeast(ids[..n], baseline);
      assert ids == ids[..n] + [ids[n]];
      assert forall id :: id in ids <==> id in ids[..n] || id == ids[n];
      if NoneAbove(ids, baseline) {
        assert ids[n] in ids;
        assert NoneAbove(ids[..n], baseline);
      } else if NoneAbove(ids[..n], baseline) {
        assert ids[n] > baseline;
      }
    }
  }

  lemma {:induction false} MaxIdIsAbove(ids: seq<int>)
    ensures 0 <= MaxId(ids) && forall id :: id in ids ==> id <= MaxId(ids)
  {
    if ids != [] {
      var n := |ids| - 1;
      MaxIdIsAbove(ids[..n]);
      assert ids == ids[..n] + [ids[n]];
    }
  }

  /** Polling finds a build's own image exactly when the recorded baseline covers every image from before scheduling
      and no image created since is older than its own. `before` and `since` are the images listed at polling time. */
  lemma FindsOwnImageIff(before: seq<int>, since: seq<int>, baseline: int, own: int)
    requires 0 <= baseline && own in since
    requires forall id :: id in since ==> id > MaxId(before) && id > baseline
    ensures FirstAbove(before + since, baseline) == own <==>
              (forall id :: id in before ==> id <= baseline) && (forall id :: id in since ==> own <= id)
  {
    var all := before + since;
    MaxIdIsAbove(before);
    FirstAboveIsLeast(all, baseline);
    assert forall id :: id in all <==> id in before || id in since;
    assert own in all && !NoneAbove(all, baseline);
  }

  /** With the baseline that scheduling records, and Uyuni numbering images from 1: exactly when the images could be
      listed, or there were none, and the build's own image is the first one since. */
  lemma FindsOwnImageIffListedAndFirst(before: seq<int>, since: seq<int>, listOk: bool, own: int)
    requires own in since && forall id :: id in before + since ==> id > 0
    requires forall id :: id in since ==> id > MaxId(before)
    ensures FirstAbove(before + since, Baseline(if listOk then Some(before) else None)) == own <==>
              (listOk || before == []) && forall id :: id in since ==> own <= id
  {
    var baseline := Baseline(if listOk then Some(before) else None);
    MaxIdIsAbove(before);
    assert forall id :: id in since ==> id in before + since;
    FindsOwnImageIff(before, since, baseline, own);
    if listOk {
      assert baseline == MaxId(before) && forall id :: id in before ==> id <= baseline;
    } else if before != [] {
      assert before[0] in before + since && before[0] > 0;
      assert before[0] in before && !(before[0] <= baseline);
      assert !(forall id :: id in before ==> id <= baseline);
    } else {
      assert forall id :: id in before ==> id <= baseline;
    }
  }

  /** Builds overlap: of two scheduled over the same images, the one whose image comes second takes the other's
      image. */
  lemma OverlappingBuildsShareAnImage(before: seq<int>, since: seq<int>, first: int, second: int)
    requires first in since && second in since && first < second
    requires forall id :: id in before + since ==> id > 0
    requires forall id :: id in since ==> id > MaxId(before) && first <= id
    ensures FirstAbove(before + since, Baseline(Some(before))) == first
    ensures FirstAbove(before + since, Baseline(Some(before))) != second
  {
    FindsOwnImageIffListedAndFirst(before, since, true, first);
  }

  // ---------------------------------------------------------------------------------------------------------------
  // What a pass records
  // ---------------------------------------------------------------------------------------------------------------

  /** The pass works from the current version, and its write lands. */
  predicate Lands(w: World, x: Pass) {
    x.cached == |w.versions| - 1 && x.cached >= 0 && !x.write.Lost?
  }

  /** What scheduling leaves in the status: the action, and as the baseline the largest image listed before. When
      Uyuni refuses the call, only the baseline. */
  lemma SchedulingRecords(w: World, x: Pass)
    requires Lands(w, x) && x.ready && Current(w).actionId == 0
    ensures var s := Current(Reconcile(w, x));
            && Reconcile(w, x).calls == w.calls + (if x.scheduled.Some? then 1 else 0)
            && s.actionId == (if x.scheduled.Some? then x.scheduled.value else 0)
            && s.build == (if x.scheduled.Some? then BuildStatus.Scheduled else Current(w).build)
            && s.imageId == Current(w).imageId
            && (x.listed.Some? ==>
                  && (forall id :: id in x.listed.value ==> id <= s.baseline)
                  && (s.baseline in x.listed.value || s.baseline == 0))
            && (x.listed.None? ==> s.baseline == 0)
  {
    if x.listed.Some? {
      MaxIdIsAbove(x.listed.value);
      MaxIdIsListed(x.listed.value);
    }
  }

  lemma {:induction false} MaxIdIsListed(ids: seq<int>)
    ensures MaxId(ids) == 0 || MaxId(ids) in ids
  {
    if ids != [] {
      MaxIdIsListed(ids[..|ids| - 1]);
      assert ids == ids[..|ids| - 1] + [ids[|ids| - 1]];
    }
  }

  /** What polling leaves there: the verdict is the action's, and a build that times out has failed; one under way is
      running once its image is known. The image is the least one above the recorded baseline, and stays once known. */
  lemma PollingRecords(w: World, x: Pass)
    requires Lands(w, x) && x.ready && x.pollOk && Current(w).actionId != 0 && 0 <= Current(w).baseline
    ensures var was, s := Current(w), Current(Reconcile(w, x));
            && s.actionId == was.actionId && s.baseline == was.baseline
            && (s.build == Succeeded <==> x.action == Completed)
            && (s.build == Failed <==> x.action == ActionFailed || (x.action == Pending && x.timedOut))
            && (s.build == BuildStatus.Scheduled <==> x.action == Pending && !x.timedOut && s.imageId == 0)
            && (s.build == Running <==> x.action == Pending && !x.timedOut && s.imageId != 0)
            && (was.imageId != 0 || x.images.None? ==> s.imageId == was.imageId)
            && (was.imageId == 0 && x.images.Some? ==>
                  if s.imageId == 0 then NoneAbove(x.images.value, was.baseline)
                  else IsLeastAbove(x.images.value, was.baseline, s.imageId))
  {
    if x.images.Some? {
      FirstAboveIsLeast(x.images.value, Current(w).baseline);
    }
  }

  /** Any other pass leaves the status as it was, and so does one whose write is lost or refused. */
  lemma OtherPassesRecordNothing(w: World, x: Pass)
    requires x.cached < |w.versions|
    requires !Lands(w, x) || !x.ready || (Current(w).actionId != 0 && !x.pollOk)
    ensures Current(Reconcile(w, x)) == Current(w)
  {
  }

  /** From scheduling to the image: the build's own image is recorded exactly when the images could be listed at
      scheduling time, or there were none, and none that is listed with it now is older. */
  lemma RecordsOwnImageIff(w: World, x: Pass, y: Pass, before: seq<int>, since: seq<int>, listOk: bool, own: int)
    requires Lands(w, x) && x.ready && Current(w).actionId == 0 && Current(w).imageId == 0
    requires x.scheduled.Some? && x.scheduled.value != 0 && x.listed == if listOk then Some(before) else None
    requires Lands(Reconcile(w, x), y) && y.ready && y.pollOk && y.images == Some(before + since)
    requires own in since && forall id :: id in before + since ==> id > 0
    requires forall id, old' :: id in since && old' in before ==> id > old'
    ensures Current(Reconcile(Reconcile(w, x), y)).imageId == own <==>
              (listOk || before == []) && forall id :: id in since ==> own <= id
  {
    var w1 := Reconcile(w, x);
    SchedulingRecords(w, x);
    MaxIdIsListed(before);
    forall id | id in since
      ensures id > MaxId(before)
    {
      assert id in before + since;
    }
    FindsOwnImageIffListedAndFirst(before, since, listOk, own);
    assert Current(w1).baseline == Baseline(x.listed);
    assert Current(Reconcile(w1, y)).imageId == FirstAbove(before + since, Current(w1).baseline);
  }

  /** An image once recorded is the build's image for good. */
  lemma {:induction false} ImageStays(w: World, es: seq<Event>)
    requires w.versions != [] && Possible(w, es) && Current(w).imageId != 0
    ensures Current(Run(w, es)).imageId == Current(w).imageId
    decreases |es|
  {
    if es != [] {
      ImageStays(Next(w, es[0]), es[1..]);
    }
  }

  // ---------------------------------------------------------------------------------------------------------------
  // The pass as it runs
  // ---------------------------------------------------------------------------------------------------------------

  method MaxImageId(listed: Option<seq<int>>) returns (m: int)
    ensures m == Baseline(listed)
  {
    m := 0;
    if listed.None? {
      return;
    }
    var ids := listed.value;
    for i := 0 to |ids|
      invariant m == MaxId(ids[..i])
    {
      assert ids[..i + 1][..i] == ids[..i];
      if ids[i] > m {
        m := ids[i];
      }
    }
    assert ids[..|ids|] == ids;
  }

  method FindImage(ids: seq<int>, baseline: int) returns (best: int)
    ensures best == FirstAbove(ids, baseline)
  {
    best := 0;
    for i := 0 to |ids|
      invariant best == FirstAbove(ids[..i], baseline)
    {
      assert ids[..i + 1][..i] == ids[..i];
      if ids[i] > baseline && (best == 0 || ids[i] < best) {
        best := ids[i];
      }
    }
    assert ids[..|ids|] == ids;
  }

  class ImageBuildObject {
    var versions: seq<Status>
    ghost var calls: int
    ghost var lostWrites: int
    ghost var blindReads: int

    ghost function State(): World
      reads this
    {
      World(versions, calls, lostWrites, blindReads)
    }

    method UpdateStatus(cached: nat, s: Status, write: Write) returns (landed: bool)
      modifies this`versions
      ensures State() == Update(old(State()), cached, s, write)
      ensures landed == (|versions| > |old(versions)|)
    {
      landed := !write.Lost? && cached == |versions| - 1;
      if landed {
        versions := versions + [s];
      }
    }

    method ReconcilePass(x: Pass)
      requires x.cached < |versions|
      modifies this
      ensures State() == Reconcile(old(State()), x)
    {
      var ib := versions[x.cached];
      if !x.ready {
        var _ := UpdateStatus(x.cached, ib, x.write);
        return;
      }
      if ib.actionId == 0 {
        SchedulePass(x, ib);
        return;
      }
      if !x.pollOk {
        var _ := UpdateStatus(x.cached, ib, x.write);
        return;
      }
      ib := PollAction(ib, x);
      var _ := UpdateStatus(x.cached, ib, x.write);
    }

    method SchedulePass(x: Pass, copy: Status)
      requires versions != []
      modifies this
      ensures State() == Schedule(old(State()), x, copy)
    {
      var ib := copy;
      ghost var open := versions[|versions| - 1].actionId == 0;
      if x.readOk {
        var live := versions[|versions| - 1];
        if live.actionId != 0 {
          return;
        }
      } else {
        blindReads := blindReads + 1;
      }
      var highest := MaxImageId(x.listed);
      ib := ib.(baseline := highest);
      if x.scheduled.None? {
        var _ := UpdateStatus(x.cached, ib, x.write);
        return;
      }
      calls := calls + 1;
      ib := ib.(actionId := x.scheduled.value);
      ib := ib.(build := Scheduled);
      var landed := UpdateStatus(x.cached, ib, x.write);
      if !landed && open {
        lostWrites := lostWrites + 1;
      }
    }

    method PollAction(copy: Status, x: Pass) returns (ib: Status)
      ensures ib == Polled(copy, x)
    {
      ib := copy;
      if ib.imageId == 0 && x.images.Some? {
        var best := FindImage(x.images.value, ib.baseline);
        ib := ib.(imageId := best);
      }
      match x.action
      case Completed => ib := ib.(build := Succeeded);
      case ActionFailed => ib := ib.(build := Failed);
      case Pending =>
        if x.timedOut {
          ib := ib.(build := Failed);
        } else if ib.imageId == 0 {
          ib := ib.(build := Scheduled);
        } else {
          ib := ib.(build := Running);
        }
    }
  }
}
