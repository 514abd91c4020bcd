/** The run history of a Task: triggers, refreshing, trimming, and the two-step hand-over of a rerun request. */
module TaskRuns {
  import opened Common

  const MAX_HISTORY := 10

  datatype RunPhase = Pending | Running | Succeeded | Failed | Mixed

  datatype Trigger = Annotation | Initial | SpecChange

  datatype TaskRun = TaskRun(sequence: int, phase: RunPhase, completed: bool, trigger: Trigger)

  /** The status of one system in an action's results. */
  datatype Outcome = Waiting | Good | Bad | Other

  /** What one pass meets. `results` holds, per position in the history, what Uyuni reports for that run; a run it
      does not hold cannot be read. The writes are: the run's, the annotation's, the final one, and the one that
      reports a failure. */
  datatype Pass = Pass(orgOk: bool, results: map<int, seq<Outcome>>, startOk: bool,
                       runWrite: Write, stripWrite: Write, endWrite: Write, failWrite: Write)

  /** The stored object: history, observed generation, generation, and whether the rerun annotation is set; and counts
      over the whole run: rerun requests by users, runs scheduled at all and for an annotation, runs scheduled for an
      annotation whose write was lost, such runs whose write landed while the annotation stayed, and runs scheduled
      for another reason of which the pass did not record both the run and the generation. */
  datatype World = World(runs: seq<TaskRun>, observed: int, generation: int, rerun: bool,
                         asked: int, scheduled: int, annotationRuns: int, lostRuns: int, lostStrips: int,
                         lostOthers: int)

  predicate IsActive(r: TaskRun) {
    r.phase.Pending? || r.phase.Running?
  }

  predicate HasActive(runs: seq<TaskRun>) {
    exists r :: r in runs && IsActive(r)
  }

  // ---------------------------------------------------------------------------------------------------------------
  // The steps of a pass
  // ---------------------------------------------------------------------------------------------------------------

  function PhaseOf(results: seq<Outcome>): RunPhase {
    if Waiting in results then Running
    else if Bad in results && Good in results then Mixed
    else if Bad in results then Failed
    else if Good in results then Succeeded
    else Running
  }

  function RefreshRun(r: TaskRun, results: seq<Outcome>): TaskRun {
    var phase := PhaseOf(results);
    r.(phase := phase, completed := r.completed || !phase.Running?)
  }

  predicate Readable(runs: seq<TaskRun>, results: map<int, seq<Outcome>>) {
    forall i :: 0 <= i < |runs| && IsActive(runs[i]) ==> i in results
  }

  /** Every active run takes the phase its results give; finished runs stay as they are. */
  function Refresh(runs: seq<TaskRun>, results: map<int, seq<Outcome>>): seq<TaskRun>
    requires Readable(runs, results)
  {
    seq(|runs|, i requires 0 <= i < |runs| => if IsActive(runs[i]) then RefreshRun(runs[i], results[i]) else runs[i])
  }

  function Decide(rerun: bool, runs: seq<TaskRun>, observed: int, generation: int): Option<Trigger> {
    if rerun then Some(Annotation)
    else if runs == [] then Some(Initial)
    else if observed != generation then Some(SpecChange)
    else None
  }

  function NewRun(runs: seq<TaskRun>, trigger: Trigger): TaskRun {
    TaskRun(|runs| + 1, Pending, false, trigger)
  }

  /** The history with one more run, trimmed from the front. */
  function Append(runs: seq<TaskRun>, trigger: Trigger): seq<TaskRun> {
    var longer := runs + [NewRun(runs, trigger)];
    if |longer| > MAX_HISTORY then longer[|longer| - MAX_HISTORY..] else longer
  }

  function Finish(w: World, runs: seq<TaskRun>, x: Pass): World {
    if x.endWrite.Lost? then w else w.(runs := runs, observed := w.generation)
  }

  /** A run scheduled for an annotation, and what becomes of it. */
  function CountRerun(w: World, lost: bool, kept: bool): World {
    World(w.runs, w.observed, w.generation, w.rerun, w.asked, w.scheduled + 1, w.annotationRuns + 1,
          w.lostRuns + (if lost then 1 else 0), w.lostStrips + (if kept then 1 else 0), w.lostOthers)
  }

  /** A run scheduled for another reason. */
  function CountOther(w: World, lost: bool): World {
    World(w.runs, w.observed, w.generation, w.rerun, w.asked, w.scheduled + 1, w.annotationRuns,
          w.lostRuns, w.lostStrips, w.lostOthers + (if lost then 1 else 0))
  }

  /** Schedules the requested rerun, stores it, and only then strips the annotation. */
  function StartRerun(w: World, runs: seq<TaskRun>, x: Pass): World {
    var longer := Append(runs, Annotation);
    var kept := !x.runWrite.Lost? && (!x.runWrite.Done? || x.stripWrite.Lost?);
    var w1 := CountRerun(w, x.runWrite.Lost?, kept);
    if x.runWrite.Lost? then w1
    else if kept then w1.(runs := longer)
    else if x.stripWrite.Done? then Finish(w1.(runs := longer, rerun := false), longer, x)
    else w1.(runs := longer, rerun := false)
  }

  /** Schedules a first run or one for a changed specification, stores it, and records the generation. */
  function StartOther(w: World, runs: seq<TaskRun>, trigger: Trigger, x: Pass): World {
    var longer := Append(runs, trigger);
    var w1 := CountOther(w, !x.runWrite.Done? || x.endWrite.Lost?);
    if x.runWrite.Lost? then w1
    else if x.runWrite.Done? then Finish(w1.(runs := longer), longer, x)
    else w1.(runs := longer)
  }

  function Start(w: World, runs: seq<TaskRun>, trigger: Trigger, x: Pass): World {
    if trigger.Annotation? then StartRerun(w, runs, x) else StartOther(w, runs, trigger, x)
  }

  function Reconcile(w: World, x: Pass): World {
    if !x.orgOk || !Readable(w.runs, x.results) then w
    else
      var runs := Refresh(w.runs, x.results);
      var trigger := Decide(w.rerun, runs, w.observed, w.generation);
      if trigger.None? || HasActive(runs) then Finish(w, runs, x)
      else if !x.startOk then (if x.failWrite.Lost? then w else w.(runs := runs))
      else Start(w, runs, trigger.value, x)
  }

  /** A pass that works from an earlier version of the object. Its writes are refused, but what it schedules is
      scheduled. */
  function StalePass(w: World, copy: World, x: Pass): World {
    var after := Reconcile(copy, x.(runWrite := Lost, stripWrite := Lost, endWrite := Lost, failWrite := Lost));
    w.(scheduled := w.scheduled + after.scheduled - copy.scheduled,
       annotationRuns := w.annotationRuns + after.annotationRuns - copy.annotationRuns,
       lostRuns := w.lostRuns + after.lostRuns - copy.lostRuns,
       lostOthers := w.lostOthers + after.lostOthers - copy.lostOthers)
  }

  datatype Event = Worker(x: Pass) | StaleWorker(copy: World, x: Pass) | AskRerun | EditSpec

  function Next(w: World, e: Event): World {
    match e
    case Worker(x) => Reconcile(w, x)
    case StaleWorker(copy, x) => StalePass(w, copy, x)
    case AskRerun => if w.rerun then w else w.(rerun := true, asked := w.asked + 1)
    case EditSpec => w.(generation := w.generation + 1)
  }

  function Run(w: World, es: seq<Event>): World
    decreases |es|
  {
    if es == [] then w else Run(Next(w, es[0]), es[1..])
  }

  const NEW_TASK := World([], 0, 1, false, 0, 0, 0, 0, 0, 0)

  // ---------------------------------------------------------------------------------------------------------------
  // The history
  // ---------------------------------------------------------------------------------------------------------------

  /** The bound on the numbers a history of that length may hold. */
  function LastNumber(n: int): int {
    if n < MAX_HISTORY then n else MAX_HISTORY + 1
  }

  predicate RunOk(runs: seq<TaskRun>, i: int)
    requires 0 <= i < |runs|
  {
    && 1 <= runs[i].sequence <= LastNumber(|runs|)
    && (runs[i].completed <==> !IsActive(runs[i]))
    && (IsActive(runs[i]) ==> i == |runs| - 1)
  }

  /** At most ten runs; only the last can be active; exactly the finished ones have a completion time; and the
      sequence numbers never decrease and never exceed eleven. */
  predicate HistoryOk(runs: seq<TaskRun>) {
    && |runs| <= MAX_HISTORY
    && (forall i {:trigger RunOk(runs, i)} :: 0 <= i < |runs| ==> RunOk(runs, i))
    && (forall i, j :: 0 <= i < j < |runs| ==> runs[i].sequence <= runs[j].sequence)
  }

  lemma RefreshKeeps(runs: seq<TaskRun>, results: map<int, seq<Outcome>>)
    requires HistoryOk(runs) && Readable(runs, results)
    ensures HistoryOk(Refresh(runs, results))
    ensures forall i :: 0 <= i < |runs| && !IsActive(runs[i]) ==> Refresh(runs, results)[i] == runs[i]
  {
    var refreshed := Refresh(runs, results);
    forall i | 0 <= i < |runs|
      ensures RunOk(refreshed, i)
    {
      assert RunOk(runs, i);
    }
  }

  /** Trimming drops finished runs only, from the front, and keeps the rest in order. */
  lemma AppendKeeps(runs: seq<TaskRun>, trigger: Trigger)
    requires HistoryOk(runs) && !HasActive(runs)
    ensures HistoryOk(Append(runs, trigger))
    ensures Append(runs, trigger) == (if |runs| < MAX_HISTORY then runs else runs[1..]) + [NewRun(runs, trigger)]
    ensures NewRun(runs, trigger).sequence <= MAX_HISTORY + 1
  {
    var all := Append(runs, trigger);
    var kept := if |runs| < MAX_HISTORY then runs else runs[1..];
    assert all == kept + [NewRun(runs, trigger)];
    forall i | 0 <= i < |all|
      ensures RunOk(all, i)
    {
      if i < |kept| {
        var k := i + |runs| - |kept|;
        assert RunOk(runs, k) && all[i] == runs[k] && runs[k] in runs;
      }
    }
    forall i, j | 0 <= i < j < |all|
      ensures all[i].sequence <= all[j].sequence
    {
      var k := i + |runs| - |kept|;
      assert RunOk(runs, k) && all[i] == runs[k];
    }
  }

  lemma NextKeepsHistory(w: World, e: Event)
    requires HistoryOk(w.runs)
    ensures HistoryOk(Next(w, e).runs)
  {
    if e.Worker? && e.x.orgOk && Readable(w.runs, e.x.results) {
      var runs := Refresh(w.runs, e.x.results);
      RefreshKeeps(w.runs, e.x.results);
      var trigger := Decide(w.rerun, runs, w.observed, w.generation);
      if trigger.Some? && !HasActive(runs) {
        AppendKeeps(runs, trigger.value);
      }
    }
  }

  lemma {:induction false} EveryHistoryIsOk(w: World, es: seq<Event>)
    requires HistoryOk(w.runs)
    ensures HistoryOk(Run(w, es).runs)
    decreases |es|
  {
    if es != [] {
      NextKeepsHistory(w, es[0]);
      EveryHistoryIsOk(Next(w, es[0]), es[1..]);
    }
  }

  lemma FullStaysFull(w: World, e: Event)
    requires HistoryOk(w.runs) && |w.runs| == MAX_HISTORY
    ensures HistoryOk(Next(w, e).runs) && |Next(w, e).runs| == MAX_HISTORY
  {
    NextKeepsHistory(w, e);
  }

  /** Once the history is full the numbers repeat: whatever happens in between, every run stored from then on is
      number eleven. */
  lemma {:induction false} NumbersRepeat(w: World, es: seq<Event>, x: Pass)
    requires HistoryOk(w.runs) && |w.runs| == MAX_HISTORY
    ensures var w' := Run(w, es); var after := Reconcile(w', x);
            && |w'.runs| == MAX_HISTORY
            && (after.scheduled != w'.scheduled && !x.runWrite.Lost? ==>
                  |after.runs| == MAX_HISTORY && after.runs[MAX_HISTORY - 1].sequence == MAX_HISTORY + 1)
    decreases |es|
  {
    if es != [] {
      FullStaysFull(w, es[0]);
      NumbersRepeat(Next(w, es[0]), es[1..], x);
    } else if x.orgOk && Readable(w.runs, x.results) {
      var runs := Refresh(w.runs, x.results);
      RefreshKeeps(w.runs, x.results);
      var trigger := Decide(w.rerun, runs, w.observed, w.generation);
      if trigger.Some? && !HasActive(runs) {
        AppendKeeps(runs, trigger.value);
      }
    }
  }

  /** The run at `i` is still there, `dropped` places further to the front. */
  predicate KeptAt(before: seq<TaskRun>, after: seq<TaskRun>, i: nat, dropped: nat) {
    dropped <= i < |before| && i - dropped < |after| && after[i - dropped] == before[i]
  }

  predicate FinishedKept(before: seq<TaskRun>, after: seq<TaskRun>, dropped: nat) {
    forall i: nat {:trigger KeptAt(before, after, i, dropped)} ::
      dropped <= i < |before| && !IsActive(before[i]) ==> KeptAt(before, after, i, dropped)
  }

  lemma AppendKeepsFinished(before: seq<TaskRun>, runs: seq<TaskRun>, trigger: Trigger)
    requires HistoryOk(runs) && !HasActive(runs) && FinishedKept(before, runs, 0) && |before| == |runs|
    ensures FinishedKept(before, Append(runs, trigger), if |runs| < MAX_HISTORY then 0 else 1)
  {
    AppendKeeps(runs, trigger);
    var dropped := if |runs| < MAX_HISTORY then 0 else 1;
    forall i: nat | dropped <= i < |before| && !IsActive(before[i])
      ensures KeptAt(before, Append(runs, trigger), i, dropped)
    {
      assert KeptAt(before, runs, i, 0);
    }
  }

  /** A pass never rewrites a finished run: it stays in the history as it was, and only one that fills up loses one,
      the oldest. */
  lemma FinishedRunsNeverChange(w: World, x: Pass) returns (dropped: nat)
    requires HistoryOk(w.runs)
    ensures dropped <= 1 && (dropped == 1 ==> |w.runs| == MAX_HISTORY)
    ensures FinishedKept(w.runs, Reconcile(w, x).runs, dropped)
  {
    dropped := 0;
    if x.orgOk && Readable(w.runs, x.results) {
      var runs := Refresh(w.runs, x.results);
      RefreshKeeps(w.runs, x.results);
      var trigger := Decide(w.rerun, runs, w.observed, w.generation);
      if trigger.Some? && !HasActive(runs) && x.startOk && !x.runWrite.Lost? {
        AppendKeepsFinished(w.runs, runs, trigger.value);
        dropped := if |runs| < MAX_HISTORY then 0 else 1;
      }
    }
  }

  // ---------------------------------------------------------------------------------------------------------------
  // What a pass stores
  // ---------------------------------------------------------------------------------------------------------------

  predicate Unfinished(run: TaskRun) {
    run.phase in {Pending, Running}
  }

  /** `run` is what the results make of `was`: succeeded when some outcome is good and none bad, failed when some is bad
      and none good, mixed when there are both, all of this only when nothing is waiting; and running otherwise. */
  predicate Shows(run: TaskRun, was: TaskRun, results: seq<Outcome>) {
    && (run.phase == Succeeded <==> Good in results && Bad !in results && Waiting !in results)
    && (run.phase == Failed <==> Bad in results && Good !in results && Waiting !in results)
    && (run.phase == Mixed <==> Good in results && Bad in results && Waiting !in results)
    && (run.phase == Running <==> Waiting in results || (Good !in results && Bad !in results))
    && run.sequence == was.sequence && run.trigger == was.trigger
    && run.completed == (was.completed || run.phase in {Succeeded, Failed, Mixed})
  }

  /** A run as the pass finds it: as before when it had finished. */
  predicate Found(run: TaskRun, was: TaskRun, results: map<int, seq<Outcome>>, i: int) {
    if Unfinished(was) then i in results && Shows(run, was, results[i]) else run == was
  }

  predicate CanRead(runs: seq<TaskRun>, results: map<int, seq<Outcome>>) {
    forall i :: 0 <= i < |runs| && Unfinished(runs[i]) ==> i in results
  }

  /** No run is active any more, going by the results. */
  predicate Idle(runs: seq<TaskRun>, results: map<int, seq<Outcome>>) {
    forall i :: 0 <= i < |runs| && Unfinished(runs[i]) ==>
      i in results && Waiting !in results[i] && (Good in results[i] || Bad in results[i])
  }

  lemma RefreshedRuns(runs: seq<TaskRun>, results: map<int, seq<Outcome>>)
    requires Readable(runs, results)
    ensures var refreshed := Refresh(runs, results);
            && |refreshed| == |runs| && (forall i :: 0 <= i < |runs| ==> Found(refreshed[i], runs[i], results, i))
            && (HasActive(refreshed) <==> !Idle(runs, results))
  {
    var refreshed := Refresh(runs, results);
    if !Idle(runs, results) {
      var i :| 0 <= i < |runs| && Unfinished(runs[i])
               && (Waiting in results[i] || (Good !in results[i] && Bad !in results[i]));
      assert IsActive(refreshed[i]);
    }
  }

  /** A pass that cannot resolve the Organization, or cannot read the results of an unfinished run, changes nothing. */
  lemma UnreadableChangesNothing(w: World, x: Pass)
    requires !x.orgOk || !CanRead(w.runs, x.results)
    ensures Reconcile(w, x) == w
  {
  }

  /** Whether a pass that can read everything schedules a run. */
  predicate Schedules(w: World, x: Pass) {
    && x.startOk && Idle(w.runs, x.results)
    && (w.rerun || w.runs == [] || w.observed != w.generation)
  }

  /** Any other pass whose writes of the status land stores the history as the results have it. A new run is scheduled
      exactly when none is active any more and it is asked for, by the annotation first, else by the lack of any run,
      else by a changed specification; it is stored behind the others, with the next number, and the oldest of ten
      makes room for it. */
  lemma PassStoresResults(w: World, x: Pass) returns (found: seq<TaskRun>)
    requires |w.runs| <= 10 && x.orgOk && CanRead(w.runs, x.results)
    requires !x.runWrite.Lost? && !x.endWrite.Lost? && !x.failWrite.Lost?
    ensures |found| == |w.runs| && forall i :: 0 <= i < |w.runs| ==> Found(found[i], w.runs[i], x.results, i)
    ensures var trigger := if w.rerun then Annotation else if w.runs == [] then Initial else SpecChange;
            var w' := Reconcile(w, x);
            if Schedules(w, x) then
              && w'.runs == found[if |w.runs| == 10 then 1 else 0..]
                            + [TaskRun(|w.runs| + 1, Pending, false, trigger)]
              && w'.scheduled == w.scheduled + 1
            else w'.runs == found && w'.scheduled == w.scheduled
  {
    found := Refresh(w.runs, x.results);
    RefreshedRuns(w.runs, x.results);
    if Schedules(w, x) {
      StoresNewRun(w, x);
    } else {
      StoresRefreshed(w, x);
    }
  }

  lemma StoresNewRun(w: World, x: Pass)
    requires |w.runs| <= 10 && x.orgOk && CanRead(w.runs, x.results) && Schedules(w, x) && !x.runWrite.Lost?
    ensures var trigger := if w.rerun then Annotation else if w.runs == [] then Initial else SpecChange;
            Reconcile(w, x).runs == Refresh(w.runs, x.results)[if |w.runs| == 10 then 1 else 0..]
                                    + [TaskRun(|w.runs| + 1, Pending, false, trigger)]
    ensures Reconcile(w, x).scheduled == w.scheduled + 1
  {
    RefreshedRuns(w.runs, x.results);
    var refreshed := Refresh(w.runs, x.results);
    var trigger := Decide(w.rerun, refreshed, w.observed, w.generation);
    TrimmedRuns(refreshed, trigger.value);
    assert Reconcile(w, x) == Start(w, refreshed, trigger.value, x);
  }

  lemma StoresRefreshed(w: World, x: Pass)
    requires x.orgOk && CanRead(w.runs, x.results) && !Schedules(w, x) && !x.endWrite.Lost? && !x.failWrite.Lost?
    ensures Reconcile(w, x).runs == Refresh(w.runs, x.results) && Reconcile(w, x).scheduled == w.scheduled
  {
    RefreshedRuns(w.runs, x.results);
  }

  /** What else a pass records. The annotation goes once the run it asked for is stored. The generation is recorded by
      the last write of a pass that gets so far, whether it has scheduled anything or found a run active. */
  lemma PassRecords(w: World, x: Pass)
    requires x.orgOk && CanRead(w.runs, x.results)
    ensures var w' := Reconcile(w, x); var starts := Schedules(w, x);
            var asked := w.rerun || w.runs == [] || w.observed != w.generation;
            var fails := asked && Idle(w.runs, x.results) && !x.startOk;
            var ends := starts ==> x.runWrite.Done? && (w.rerun ==> x.stripWrite.Done?);
            && w'.generation == w.generation
            && w'.rerun == (w.rerun && !(starts && x.runWrite.Done? && !x.stripWrite.Lost?))
            && w'.observed == (if !fails && ends && !x.endWrite.Lost? then w.generation else w.observed)
  {
    RefreshedRuns(w.runs, x.results);
  }

  /** What is counted: the runs scheduled at all and for an annotation, and of these those that were not stored, those
      whose annotation stayed, and the others that were not recorded together with the generation. */
  lemma CountsAreExact(w: World, x: Pass)
    requires x.orgOk && CanRead(w.runs, x.results)
    ensures var w' := Reconcile(w, x); var starts := Schedules(w, x); var rerun := starts && w.rerun;
            && w'.asked == w.asked && w'.scheduled == w.scheduled + One(starts)
            && w'.annotationRuns == w.annotationRuns + One(rerun)
            && w'.lostRuns == w.lostRuns + One(rerun && x.runWrite.Lost?)
            && w'.lostStrips == w.lostStrips + One(rerun && !x.runWrite.Lost? && w'.rerun)
            && w'.lostOthers == w.lostOthers + One(starts && !w.rerun && (!x.runWrite.Done? || x.endWrite.Lost?))
  {
    RefreshedRuns(w.runs, x.results);
  }

  function One(b: bool): int {
    if b then 1 else 0
  }

  /** A pass from an earlier version counts what it schedules, none of which is recorded. */
  lemma StaleCountsAreExact(w: World, copy: World, x: Pass)
    requires x.orgOk && CanRead(copy.runs, x.results)
    ensures var starts := Schedules(copy, x);
            StalePass(w, copy, x) == w.(scheduled := w.scheduled + One(starts),
                                        annotationRuns := w.annotationRuns + One(starts && copy.rerun),
                                        lostRuns := w.lostRuns + One(starts && copy.rerun),
                                        lostOthers := w.lostOthers + One(starts && !copy.rerun))
  {
    RefreshedRuns(copy.runs, x.results);
  }

  lemma TrimmedRuns(runs: seq<TaskRun>, trigger: Trigger)
    requires |runs| <= 10
    ensures Append(runs, trigger)
         == runs[if |runs| == 10 then 1 else 0..] + [TaskRun(|runs| + 1, Pending, false, trigger)]
  {
  }

  // ---------------------------------------------------------------------------------------------------------------
  // Rerun requests
  // ---------------------------------------------------------------------------------------------------------------

  /** The annotation goes only from a pass that has stored the run it asked for. */
  lemma StrippedOnlyWhenDurable(w: World, x: Pass)
    requires w.rerun && !Reconcile(w, x).rerun
    ensures var runs' := Reconcile(w, x).runs;
            runs' != [] && runs'[|runs'| - 1].trigger.Annotation? && runs'[|runs'| - 1].phase.Pending?
    ensures Reconcile(w, x).annotationRuns == w.annotationRuns + 1
  {
  }

  predicate Counted(w: World) {
    w.annotationRuns + (if w.rerun then 1 else 0) <= w.asked + w.lostRuns + w.lostStrips
  }

  lemma NextKeepsCounted(w: World, e: Event)
    requires Counted(w)
    ensures Counted(Next(w, e))
  {
  }

  /** Over every run: as many runs are scheduled for annotations as users asked for, plus one for each such run whose
      write was lost and one for each whose annotation could not be stripped. */
  lemma {:induction false} RerunsAreBounded(w: World, es: seq<Event>)
    requires Counted(w)
    ensures Counted(Run(w, es))
    decreases |es|
  {
    if es != [] {
      NextKeepsCounted(w, es[0]);
      RerunsAreBounded(Next(w, es[0]), es[1..]);
    }
  }

  /** A pass over an idle task that schedules the requested rerun and stores it, but does not get the annotation
      stripped: the pass ends behind the first write, or the strip fails. */
  predicate FailsToStrip(w: World, x: Pass) {
    && w.rerun && x.orgOk && Readable(w.runs, x.results) && !HasActive(Refresh(w.runs, x.results)) && x.startOk
    && !x.runWrite.Lost? && (x.runWrite.Cut? || x.stripWrite.Lost?)
  }

  lemma OnlyLastActive(runs: seq<TaskRun>, results: map<int, seq<Outcome>>)
    requires HistoryOk(runs) && Readable(runs, results) && runs != [] && IsActive(runs[|runs| - 1])
    ensures |runs| - 1 in results
    ensures HasActive(Refresh(runs, results)) <==> PhaseOf(results[|runs| - 1]).Running?
  {
    var last := |runs| - 1;
    var refreshed := Refresh(runs, results);
    assert refreshed[last] in refreshed;
    forall i | 0 <= i < last
      ensures !IsActive(refreshed[i])
    {
      assert RunOk(runs, i);
    }
  }

  lemma RerunSchedulesIffIdle(w: World, y: Pass)
    requires y.orgOk && Readable(w.runs, y.results) && y.startOk && w.rerun
    ensures Reconcile(w, y).asked == w.asked
    ensures Reconcile(w, y).annotationRuns
            == w.annotationRuns + if HasActive(Refresh(w.runs, y.results)) then 0 else 1
  {
  }

  lemma StoredButNotStripped(w: World, x: Pass)
    requires HistoryOk(w.runs) && FailsToStrip(w, x)
    ensures var w1 := Reconcile(w, x);
            && w1.runs == Append(Refresh(w.runs, x.results), Annotation) && HistoryOk(w1.runs) && w1.runs != []
            && w1.runs[|w1.runs| - 1].phase.Pending?
            && w1.rerun && w1.asked == w.asked && w1.annotationRuns == w.annotationRuns + 1
  {
    RefreshKeeps(w.runs, x.results);
    AppendKeeps(Refresh(w.runs, x.results), Annotation);
  }

  /** The check for active runs does not always prevent the duplicate after a failed strip. The strip fails after the
      run has been stored; the next pass schedules a second run for the same request exactly when it finds the first
      one finished. */
  lemma DuplicateIffRunFinished(w: World, x: Pass, y: Pass)
    requires HistoryOk(w.runs) && FailsToStrip(w, x)
    requires var w1 := Reconcile(w, x); y.orgOk && Readable(w1.runs, y.results) && y.startOk
    ensures var w1 := Reconcile(w, x); var w2 := Reconcile(w1, y); var last := |w1.runs| - 1;
            && w1.rerun && w1.asked == w2.asked == w.asked && w1.annotationRuns == w.annotationRuns + 1
            && w1.runs != [] && last in y.results
            && (w2.annotationRuns == w.annotationRuns + 2 <==> !PhaseOf(y.results[last]).Running?)
            && (w2.annotationRuns == w.annotationRuns + 1 <==> PhaseOf(y.results[last]).Running?)
  {
    StoredButNotStripped(w, x);
    OnlyLastActive(Reconcile(w, x).runs, y.results);
    RerunSchedulesIffIdle(Reconcile(w, x), y);
  }

  /** Nothing in this controller reads past a stale cache. After a rerun has been scheduled, stored and its annotation
      stripped, a pass that still sees the object as it was schedules the same request again, unless it finds a run
      active that had been before. */
  lemma StaleReadDuplicatesIff(w: World, x: Pass, y: Pass)
    requires w.rerun && x.orgOk && Readable(w.runs, x.results) && !HasActive(Refresh(w.runs, x.results)) && x.startOk
    requires x.runWrite.Done? && x.stripWrite.Done?
    requires y.orgOk && Readable(w.runs, y.results) && y.startOk
    ensures var w1 := Reconcile(w, x);
            && !w1.rerun && w1.annotationRuns == w.annotationRuns + 1
            && (StalePass(w1, w, y).annotationRuns == w.annotationRuns + 2 <==> !HasActive(Refresh(w.runs, y.results)))
  {
  }

  // ---------------------------------------------------------------------------------------------------------------
  // All runs
  // ---------------------------------------------------------------------------------------------------------------

  /** Every run is paid for by a request, a version of the specification, or a pass that did not record what it did;
      what is still asked for has not been spent. */
  predicate AllCounted(w: World) {
    && (w.runs == [] ==> w.observed != w.generation) && w.observed <= w.generation
    && w.scheduled + (if w.rerun then 1 else 0) + (if w.observed != w.generation then 1 else 0)
       <= w.asked + w.generation + w.lostRuns + w.lostStrips + w.lostOthers
  }

  lemma StartKeepsAllCounted(w: World, runs: seq<TaskRun>, trigger: Trigger, x: Pass)
    requires AllCounted(w) && (trigger.Annotation? <==> w.rerun)
    requires !trigger.Annotation? ==> w.observed != w.generation
    ensures AllCounted(Start(w, runs, trigger, x))
  {
    assert Append(runs, trigger) != [];
  }

  lemma NextKeepsAllCounted(w: World, e: Event)
    requires AllCounted(w)
    ensures AllCounted(Next(w, e))
  {
    if e.Worker? && e.x.orgOk && Readable(w.runs, e.x.results) {
      var runs := Refresh(w.runs, e.x.results);
      var trigger := Decide(w.rerun, runs, w.observed, w.generation);
      if trigger.Some? && !HasActive(runs) && e.x.startOk {
        StartKeepsAllCounted(w, runs, trigger.value, e.x);
      }
    }
  }

  lemma {:induction false} RunKeepsAllCounted(w: World, es: seq<Event>)
    requires AllCounted(w)
    ensures AllCounted(Run(w, es))
    decreases |es|
  {
    if es != [] {
      NextKeepsAllCounted(w, es[0]);
      RunKeepsAllCounted(Next(w, es[0]), es[1..]);
    }
  }

  function Asks(es: seq<Event>): nat {
    if es == [] then 0 else (if es[0].AskRerun? then 1 else 0) + Asks(es[1..])
  }

  function Edits(es: seq<Event>): nat {
    if es == [] then 0 else (if es[0].EditSpec? then 1 else 0) + Edits(es[1..])
  }

  lemma UserStepIsCounted(w: World, e: Event)
    ensures Next(w, e).asked <= w.asked + (if e.AskRerun? then 1 else 0)
    ensures Next(w, e).generation == w.generation + (if e.EditSpec? then 1 else 0)
  {
  }

  lemma {:induction false} UserStepsAreCounted(w: World, es: seq<Event>)
    ensures Run(w, es).asked <= w.asked + Asks(es) && Run(w, es).generation == w.generation + Edits(es)
    decreases |es|
  {
    if es != [] {
      UserStepIsCounted(w, es[0]);
      UserStepsAreCounted(Next(w, es[0]), es[1..]);
    }
  }

  /** From the moment a task is created, over every run, stale reads included: no more runs are scheduled than users
      asked for reruns and made versions of the specification, plus one for every pass whose writes did not record its
      run; and every history on the way is in order. */
  lemma RunsSinceCreation(es: seq<Event>)
    ensures NEW_TASK == World([], 0, 1, false, 0, 0, 0, 0, 0, 0)
    ensures var w := Run(NEW_TASK, es);
            && w.scheduled <= Asks(es) + (1 + Edits(es)) + w.lostRuns + w.lostStrips + w.lostOthers
            && w.annotationRuns <= Asks(es) + w.lostRuns + w.lostStrips
            && HistoryOk(w.runs)
  {
    RunKeepsAllCounted(NEW_TASK, es);
    RerunsAreBounded(NEW_TASK, es);
    EveryHistoryIsOk(NEW_TASK, es);
    UserStepsAreCounted(NEW_TASK, es);
  }

  /** A pass over an idle task that runs a changed specification and stores the run, but does not record the
      generation: the pass ends behind the first write, or the last one is lost. */
  predicate FailsToObserve(w: World, x: Pass) {
    && w.runs != [] && !w.rerun && w.observed != w.generation
    && x.orgOk && Readable(w.runs, x.results) && !HasActive(Refresh(w.runs, x.results)) && x.startOk
    && !x.runWrite.Lost? && (x.runWrite.Cut? || x.endWrite.Lost?)
  }

  lemma StoredButNotObserved(w: World, x: Pass)
    requires HistoryOk(w.runs) && FailsToObserve(w, x)
    ensures var w1 := Reconcile(w, x);
            && w1.runs == Append(Refresh(w.runs, x.results), SpecChange) && HistoryOk(w1.runs) && w1.runs != []
            && w1.runs[|w1.runs| - 1].phase.Pending?
            && !w1.rerun && w1.observed == w.observed && w1.generation == w.generation
            && w1.scheduled == w.scheduled + 1
  {
    RefreshKeeps(w.runs, x.results);
    AppendKeeps(Refresh(w.runs, x.results), SpecChange);
  }

  lemma PassSchedulesIffIdle(w: World, y: Pass)
    requires y.orgOk && Readable(w.runs, y.results) && y.startOk
    requires !w.rerun && w.runs != [] && w.observed != w.generation
    ensures Reconcile(w, y).generation == w.generation
    ensures Reconcile(w, y).scheduled == w.scheduled + if HasActive(Refresh(w.runs, y.results)) then 0 else 1
  {
  }

  /** The next pass runs the same change again exactly when it finds the first run finished. */
  lemma ChangeRunsAgainIffRunFinished(w: World, x: Pass, y: Pass)
    requires HistoryOk(w.runs) && FailsToObserve(w, x)
    requires var w1 := Reconcile(w, x); y.orgOk && Readable(w1.runs, y.results) && y.startOk
    ensures var w1 := Reconcile(w, x); var w2 := Reconcile(w1, y); var last := |w1.runs| - 1;
            && w1.generation == w2.generation == w.generation && w1.scheduled == w.scheduled + 1
            && w1.runs != [] && last in y.results
            && (w2.scheduled == w.scheduled + 2 <==> !PhaseOf(y.results[last]).Running?)
            && (w2.scheduled == w.scheduled + 1 <==> PhaseOf(y.results[last]).Running?)
  {
    StoredButNotObserved(w, x);
    OnlyLastActive(Reconcile(w, x).runs, y.results);
    PassSchedulesIffIdle(Reconcile(w, x), y);
  }

  // ---------------------------------------------------------------------------------------------------------------
  // Specification changes
  // ---------------------------------------------------------------------------------------------------------------

  predicate WorkerOnly(es: seq<Event>) {
    forall e :: e in es ==> e.Worker?
  }

  /** Once the generation is recorded as observed, no later pass runs anything until the user acts again. */
  lemma {:induction false} NothingRunsWithoutTrigger(w: World, es: seq<Event>)
    requires w.runs != [] && !w.rerun && w.observed == w.generation && WorkerOnly(es)
    ensures Run(w, es).scheduled == w.scheduled
    decreases |es|
  {
    if es != [] {
      assert es[0] in es;
      assert forall e :: e in es[1..] ==> e in es;
      NothingRunsWithoutTrigger(Next(w, es[0]), es[1..]);
    }
  }

  /** A specification changed while a run is active is swallowed: it is observed, and however long the controller goes
      on by itself, it is never run. */
  lemma SpecChangeIsSwallowed(w: World, x: Pass, es: seq<Event>)
    requires w.runs != [] && !w.rerun && w.observed != w.generation && WorkerOnly(es)
    requires x.orgOk && Readable(w.runs, x.results) && HasActive(Refresh(w.runs, x.results)) && !x.endWrite.Lost?
    ensures Run(Reconcile(w, x), es).scheduled == w.scheduled
  {
    NothingRunsWithoutTrigger(Reconcile(w, x), es);
  }

  lemma PassObserves(w: World, x: Pass)
    requires !w.rerun && w.runs != [] && x.orgOk && Readable(w.runs, x.results) && x.startOk
    requires x.runWrite.Done? && !x.endWrite.Lost?
    ensures var w1 := Reconcile(w, x); w1.runs != [] && !w1.rerun && w1.observed == w1.generation
  {
    var runs := Refresh(w.runs, x.results);
    assert |runs| == |w.runs| && Append(runs, SpecChange) != [];
  }

  /** So a changed specification is run by the first pass that goes through, or never: that pass records the
      generation in any case, and however long the controller goes on by itself, the change is run once if no run was
      active then, and not at all if one was. */
  lemma ChangeIsRunIffIdle(w: World, x: Pass, es: seq<Event>)
    requires w.runs != [] && !w.rerun && w.observed != w.generation && WorkerOnly(es)
    requires x.orgOk && Readable(w.runs, x.results) && x.startOk && x.runWrite.Done? && !x.endWrite.Lost?
    ensures Run(Reconcile(w, x), es).scheduled
            == w.scheduled + if HasActive(Refresh(w.runs, x.results)) then 0 else 1
  {
    PassSchedulesIffIdle(w, x);
    PassObserves(w, x);
    NothingRunsWithoutTrigger(Reconcile(w, x), es);
  }

  // ---------------------------------------------------------------------------------------------------------------
  // The pass as it runs
  // ---------------------------------------------------------------------------------------------------------------

  class TaskObject {
    var runs: seq<TaskRun>
    var observed: int
    var generation: int
    var rerun: bool
    ghost var asked: int
    ghost var scheduled: int
    ghost var annotationRuns: int
    ghost var lostRuns: int
    ghost var lostStrips: int
    ghost var lostOthers: int

    ghost function State(): World
      reads this
    {
      World(runs, observed, generation, rerun, asked, scheduled, annotationRuns, lostRuns, lostStrips, lostOthers)
    }

    method RefreshActiveRuns(results: map<int, seq<Outcome>>) returns (r: Option<seq<TaskRun>>)
      ensures r.Some? <==> Readable(runs, results)
      ensures r.Some? ==> r.value == Refresh(runs, results)
      ensures r.Some? <==> CanRead(runs, results)
      ensures r.Some? ==> |r.value| == |runs| && forall i :: 0 <= i < |runs| ==> Found(r.value[i], runs[i], results, i)
    {
      var out: seq<TaskRun> := [];
      for i := 0 to |runs|
        invariant |out| == i
        invariant forall k :: 0 <= k < i ==> (IsActive(runs[k]) ==> k in results)
        invariant forall k :: 0 <= k < i ==>
          out[k] == if IsActive(runs[k]) then RefreshRun(runs[k], results[k]) else runs[k]
      {
        var run := runs[i];
        if IsActive(run) {
          if i !in results {
            return None;
          }
          run := CollectResults(run, results[i]);
        }
        out := out + [run];
      }
      r := Some(out);
    }

    method CollectResults(copy: TaskRun, results: seq<Outcome>) returns (run: TaskRun)
      ensures run == RefreshRun(copy, results) && Shows(run, copy, results)
    {
      var anyRunning, anyFailed, anySucceeded := false, false, false;
      for i := 0 to |results|
        invariant anyRunning == (Waiting in results[..i])
        invariant anyFailed == (Bad in results[..i])
        invariant anySucceeded == (Good in results[..i])
      {
        assert results[..i + 1] == results[..i] + [results[i]];
        match results[i]
        case Waiting => anyRunning := true;
        case Bad => anyFailed := true;
        case Good => anySucceeded := true;
        case Other =>
      }
      assert results[..|results|] == results;
      run := copy.(phase :=
        if anyRunning then Running
        else if anyFailed && anySucceeded then Mixed
        else if anyFailed then Failed
        else if anySucceeded then Succeeded
        else Running);
      if run.phase.Succeeded? || run.phase.Failed? || run.phase.Mixed? {
        run := run.(completed := true);
      }
    }

    method ReconcilePass(x: Pass)
      modifies this
      ensures State() == Reconcile(old(State()), x)
    {
      if !x.orgOk {
        return;
      }
      var refreshed := RefreshActiveRuns(x.results);
      if refreshed.None? {
        return;
      }
      var trigger := Decide(rerun, refreshed.value, observed, generation);
      if trigger.Some? && !HasActive(refreshed.value) {
        if !x.startOk {
          if !x.failWrite.Lost? {
            runs := refreshed.value;
          }
          return;
        }
        StartRun(refreshed.value, trigger.value, x);
      } else {
        FinishPass(refreshed.value, x);
      }
    }

    method StartRun(copy: seq<TaskRun>, trigger: Trigger, x: Pass)
      modifies this
      ensures State() == Start(old(State()), copy, trigger, x)
    {
      var longer := AppendRun(copy, trigger);
      if trigger.Annotation? {
        StoreRerun(longer, x);
      } else {
        StoreOther(longer, x);
      }
    }

    method AppendRun(copy: seq<TaskRun>, trigger: Trigger) returns (longer: seq<TaskRun>)
      ensures longer == Append(copy, trigger)
    {
      longer := copy + [TaskRun(|copy| + 1, Pending, false, trigger)];
      if |longer| > MAX_HISTORY {
        longer := longer[|longer| - MAX_HISTORY..];
      }
    }

    method StoreRerun(longer: seq<TaskRun>, x: Pass)
      modifies this
      ensures forall copy :: longer == Append(copy, Annotation) ==> State() == StartRerun(old(State()), copy, x)
    {
      scheduled, annotationRuns := scheduled + 1, annotationRuns + 1;
      if x.runWrite.Lost? {
        lostRuns := lostRuns + 1;
        return;
      }
      runs := longer;
      if !x.runWrite.Done? || x.stripWrite.Lost? {
        lostStrips := lostStrips + 1;
        return;
      }
      rerun := false;
      if x.stripWrite.Done? {
        FinishPass(longer, x);
      }
    }

    method StoreOther(longer: seq<TaskRun>, x: Pass)
      modifies this
      ensures forall copy, trigger: Trigger :: longer == Append(copy, trigger) ==>
        State() == StartOther(old(State()), copy, trigger, x)
    {
      scheduled := scheduled + 1;
      if !x.runWrite.Done? || x.endWrite.Lost? {
        lostOthers := lostOthers + 1;
      }
      if !x.runWrite.Lost? {
        runs := longer;
        if x.runWrite.Done? {
          FinishPass(longer, x);
        }
      }
    }

    method FinishPass(copy: seq<TaskRun>, x: Pass)
      modifies this`runs, this`observed
      ensures State() == Finish(old(State()), copy, x)
    {
      if !x.endWrite.Lost? {
        runs, observed := copy, generation;
      }
    }
  }
}
