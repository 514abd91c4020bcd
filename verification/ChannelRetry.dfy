/** Retrying a failed channel change: a System remembers the last action it scheduled and schedules a new one when
    that one failed and the minion has checked in since. */
module ChannelRetry {
  import opened Common

  /** Clock readings are in nanoseconds; stored times and the check-ins Uyuni reports have whole seconds. */
  const SECOND := 1_000_000_000

  function Seconds(t: int): int {
    t / SECOND
  }

  /** The answer to a query for the tracked action. */
  datatype ActionReport = Completed | Failed | InProgress | Missing | Unavailable

  /** The annotation that asks for formula values to be applied: absent, "true", or anything else. */
  datatype Annotation = Absent | Wanted | Other

  /** What one pass meets. `drift` says that the subscribed channels differ from the specified ones, `scheduled` holds
      the new action, and `delay` is the time up to the moment the pass notes. Behind the channels the pass may stop
      before it comes to the formulas, and these may fail or have to wait. `strip` is the fate of the update that
      takes the annotation back, and `last` that of the pass's last status write, which an error makes it attempt as
      well. */
  datatype Pass = Pass(drift: bool, report: ActionReport, checkinOk: bool, scheduled: Option<int>, delay: int,
                       reachesFormulas: bool, formulasOk: bool, strip: Write, last: Write)

  /** The tracked action, as stored: 0 and no time when there is none. */
  datatype Tracked = Tracked(id: int, time: Option<int>)

  /** What the API server holds: the tracked action, the generation whose formula values are recorded as applied, the
      generation, and the annotation. */
  datatype Stored = Stored(tracked: Tracked, formulaGeneration: int, generation: int, annotation: Annotation)

  /** The stored object, the clock, and the last check-in; and counts over the whole run: check-ins, retries
      (schedulings without drift), and schedulings that were not recorded. `last` is the time of the last scheduling,
      and `noted` says that it has been recorded. */
  datatype World = World(obj: Stored, now: int, checkin: Option<int>, checkins: int, retries: int, unrecorded: int,
                         last: int, noted: bool)

  /** Whether the minion is known to have checked in after the stored time. */
  predicate CheckedInSince(time: Option<int>, checkin: Option<int>) {
    time.Some? && checkin.Some? && Seconds(checkin.value) > time.value
  }

  /** The verdict on the tracked action, and what stays tracked. */
  function Verdict(tracked: Tracked, checkin: Option<int>, x: Pass): (bool, Tracked) {
    if tracked.id == 0 then (false, tracked)
    else
      match x.report
      case Unavailable => (false, tracked)
      case InProgress => (false, tracked)
      case Missing => (false, Tracked(0, None))
      case Completed => (false, Tracked(0, None))
      case Failed => (tracked.time.None? || (x.checkinOk && CheckedInSince(tracked.time, checkin)), tracked)
  }

  predicate Schedules(w: World, x: Pass) {
    (x.drift || Verdict(w.obj.tracked, w.checkin, x).0) && x.scheduled.Some?
  }

  /** The pass applies formula values without an error. */
  predicate Applies(o: Stored, x: Pass) {
    x.reachesFormulas && x.formulasOk && (o.generation != o.formulaGeneration || o.annotation.Wanted?)
  }

  /** The pass then takes the annotation back, whatever it says. */
  predicate TakesBack(o: Stored, x: Pass) {
    Applies(o, x) && !o.annotation.Absent?
  }

  /** What the pass stores. If the update that takes the annotation back goes through, it reads the stored status back
      over the fields the pass has set, and the last write stores the old ones again; if it lands but the pass ends
      there, nothing is written after it; and if it is refused, the error is written together with what the pass has
      set. */
  function Store(o: Stored, next: Tracked, x: Pass): Stored {
    if TakesBack(o, x) && !x.strip.Lost? then Stored(o.tracked, o.formulaGeneration, o.generation, Absent)
    else if x.last.Lost? then o
    else Stored(next, if Applies(o, x) then o.generation else o.formulaGeneration, o.generation, o.annotation)
  }

  /** What the pass has set is stored. */
  predicate Records(o: Stored, x: Pass) {
    !x.last.Lost? && !(TakesBack(o, x) && !x.strip.Lost?)
  }

  /** A scheduling, at the time the pass notes. */
  function Count(w: World, x: Pass, obj: Stored): World {
    var recorded := Records(w.obj, x);
    World(obj, w.now + x.delay, w.checkin, w.checkins, w.retries + (if x.drift then 0 else 1),
          w.unrecorded + (if recorded then 0 else 1), w.now + x.delay, recorded)
  }

  function Reconcile(w: World, x: Pass): World {
    if Schedules(w, x) then
      Count(w, x, Store(w.obj, Tracked(x.scheduled.value, Some(Seconds(w.now + x.delay))), x))
    else if x.drift then
      w.(obj := Store(w.obj, w.obj.tracked, StopsEarly(x)))
    else
      var verdict := Verdict(w.obj.tracked, w.checkin, x);
      w.(obj := Store(w.obj, verdict.1, if verdict.0 then StopsEarly(x) else x))
  }

  /** A pass that cannot schedule its action ends there. */
  function StopsEarly(x: Pass): Pass {
    x.(reachesFormulas := false)
  }

  datatype Event = Worker(x: Pass) | CheckIn | Tick(d: int) | Annotate(annotation: Annotation) | EditSpec

  /** Uyuni numbers its actions from 1, and the clock does not go back. */
  predicate Sane(e: Event) {
    match e
    case Worker(x) => x.delay >= 0 && (x.scheduled.Some? ==> x.scheduled.value != 0)
    case Tick(d) => d >= 0
    case _ => true
  }

  predicate AllSane(es: seq<Event>) {
    forall e :: e in es ==> Sane(e)
  }

  function Next(w: World, e: Event): World {
    match e
    case Worker(x) => Reconcile(w, x)
    case CheckIn => w.(checkin := Some(w.now), checkins := w.checkins + 1)
    case Tick(d) => w.(now := w.now + d)
    case Annotate(annotation) => w.(obj := w.obj.(annotation := annotation))
    case EditSpec => w.(obj := w.obj.(generation := w.obj.generation + 1))
  }

  function Run(w: World, es: seq<Event>): World
    decreases |es|
  {
    if es == [] then w else Run(Next(w, es[0]), es[1..])
  }

  // ---------------------------------------------------------------------------------------------------------------
  // What every run keeps
  // ---------------------------------------------------------------------------------------------------------------

  /** An action is tracked exactly when a time is; a recorded time is that of the last scheduling; and every retry is
      paid for by a check-in of its own or by a scheduling that was not recorded, with one to spare while a check-in
      is unused. */
  predicate Inv(w: World) {
    var t := w.obj.tracked;
    && (t.id != 0 <==> t.time.Some?)
    && (w.noted && t.time.Some? ==> t.time.value == Seconds(w.last))
    && (t.time.Some? ==> t.time.value <= Seconds(w.now))
    && (w.checkin.Some? ==> w.checkin.value <= w.now)
    && w.retries + (if CheckedInSince(t.time, w.checkin) then 1 else 0) <= w.checkins + w.unrecorded
  }

  lemma NextKeepsInv(w: World, e: Event)
    requires Inv(w) && Sane(e)
    ensures Inv(Next(w, e))
  {
  }

  lemma {:induction false} RunKeepsInv(w: World, es: seq<Event>)
    requires Inv(w) && AllSane(es)
    ensures Inv(Run(w, es))
    decreases |es|
  {
    if es != [] {
      assert es[0] in es;
      assert forall e :: e in es[1..] ==> e in es;
      NextKeepsInv(w, es[0]);
      RunKeepsInv(Next(w, es[0]), es[1..]);
    }
  }

  /** Every pass that schedules an action loses no last write, and takes no annotation back. */
  ghost predicate AllRecorded(w: World, es: seq<Event>)
    decreases |es|
  {
    es == [] ||
    (&& (es[0].Worker? && Schedules(w, es[0].x) ==> Records(w.obj, es[0].x))
     && AllRecorded(Next(w, es[0]), es[1..]))
  }

  lemma {:induction false} NothingUnrecorded(w: World, es: seq<Event>)
    requires AllRecorded(w, es)
    ensures Run(w, es).unrecorded == w.unrecorded
    ensures w.noted ==> Run(w, es).noted
    decreases |es|
  {
    if es != [] {
      NothingUnrecorded(Next(w, es[0]), es[1..]);
    }
  }

  const REGISTERED := World(Stored(Tracked(0, None), 1, 1, Absent), 0, None, 0, 0, 0, 0, true)

  function CheckIns(es: seq<Event>): nat {
    if es == [] then 0 else (if es[0].CheckIn? then 1 else 0) + CheckIns(es[1..])
  }

  lemma {:induction false} CheckInsAreCounted(w: World, es: seq<Event>)
    ensures Run(w, es).checkins == w.checkins + CheckIns(es)
    decreases |es|
  {
    if es != [] {
      CheckInsAreCounted(Next(w, es[0]), es[1..]);
    }
  }

  /** Over every run in which what a scheduling pass notes is stored: retries never outnumber check-ins. */
  lemma RetriesNeedCheckIns(es: seq<Event>)
    requires AllSane(es) && AllRecorded(REGISTERED, es)
    ensures Run(REGISTERED, es).retries <= CheckIns(es)
  {
    RunKeepsInv(REGISTERED, es);
    NothingUnrecorded(REGISTERED, es);
    CheckInsAreCounted(REGISTERED, es);
  }

  /** And in every run of that kind the minion has checked in, truly and not only by the rounded times, between a
      retry and the scheduling before it. */
  lemma RetryFollowsCheckIn(es: seq<Event>, x: Pass)
    requires AllSane(es) && AllRecorded(REGISTERED, es)
    requires !x.drift && Schedules(Run(REGISTERED, es), x)
    ensures var w := Run(REGISTERED, es); w.checkin.Some? && w.last < w.checkin.value <= w.now
  {
    RunKeepsInv(REGISTERED, es);
    NothingUnrecorded(REGISTERED, es);
  }

  // ---------------------------------------------------------------------------------------------------------------
  // What a pass decides
  // ---------------------------------------------------------------------------------------------------------------

  /** The tracked action has failed, and the minion has checked in since, by whole seconds; an action without a time is
      retried at once. */
  predicate RetryIsDue(t: Tracked, checkin: Option<int>, x: Pass) {
    && t.id != 0 && x.report == Failed
    && (t.time.None? || (x.checkinOk && checkin.Some? && checkin.value / 1_000_000_000 > t.time.value))
  }

  /** What stays tracked, when the channels are as specified: not an action that has completed or is gone. */
  function StillTracked(t: Tracked, x: Pass): Tracked {
    if t.id != 0 && (x.report == Completed || x.report == Missing) then Tracked(0, None) else t
  }

  /** A pass schedules an action exactly when the channels have drifted or a retry is due, and Uyuni takes it; what it
      schedules is tracked from then on, what has completed is not, and everything else stays. */
  lemma PassDecides(w: World, x: Pass)
    requires !x.last.Lost? && (w.obj.annotation.Absent? || x.strip.Lost?)
    ensures var due := x.drift || RetryIsDue(w.obj.tracked, w.checkin, x);
            var t := Reconcile(w, x).obj.tracked;
            && (due && x.scheduled.Some? ==>
                  t == Tracked(x.scheduled.value, Some((w.now + x.delay) / 1_000_000_000)))
            && (due && x.scheduled.None? ==> t == w.obj.tracked)
            && (!due ==> t == StillTracked(w.obj.tracked, x))
  {
  }

  /** What is counted: a retry is a scheduling without drift, and a scheduling is recorded exactly when the pass has
      stored it. */
  lemma CountsAreExact(w: World, x: Pass)
    requires x.scheduled.Some? ==> x.scheduled.value != w.obj.tracked.id
    ensures var schedules := (x.drift || RetryIsDue(w.obj.tracked, w.checkin, x)) && x.scheduled.Some?;
            var w' := Reconcile(w, x);
            && w'.checkins == w.checkins && w'.checkin == w.checkin
            && w'.retries == w.retries + (if schedules && !x.drift then 1 else 0)
            && w'.unrecorded == w.unrecorded
               + (if schedules && w'.obj.tracked.id != x.scheduled.value then 1 else 0)
            && (schedules ==> w'.last == w'.now == w.now + x.delay)
  {
  }

  /** A new generation's formula values, or those the annotation asks for, are applied once a pass comes to them without
      an error, which it does not when it cannot schedule what is due. What it has applied is recorded, unless it takes
      an annotation back. */
  lemma FormulasAreRecorded(w: World, x: Pass)
    requires !x.last.Lost?
    ensures var o, o' := w.obj, Reconcile(w, x).obj;
            var due := x.drift || RetryIsDue(o.tracked, w.checkin, x);
            var applies := (due ==> x.scheduled.Some?) && x.reachesFormulas && x.formulasOk
                           && (o.generation != o.formulaGeneration || o.annotation == Wanted);
            var strips := applies && o.annotation != Absent && !x.strip.Lost?;
            && o'.generation == o.generation
            && o'.formulaGeneration == (if applies && !strips then o.generation else o.formulaGeneration)
            && o'.annotation == (if strips then Absent else o.annotation)
  {
  }

  // ---------------------------------------------------------------------------------------------------------------
  // Schedulings that are not recorded
  // ---------------------------------------------------------------------------------------------------------------

  /** A pass asking for a retry again, with everything answering. */
  predicate AsksAgain(y: Pass) {
    !y.drift && y.report.Failed? && y.checkinOk && y.scheduled.Some?
  }

  /** A retry is repeated by the next pass, with no check-in between them, exactly when the last write of its own pass
      was lost, or when that pass applied formula values without an error while the annotation was set, to whatever
      value, and the update that took it back was not refused. */
  lemma RetryRepeatsIffUnrecorded(w: World, x: Pass, y: Pass)
    requires Inv(w) && Sane(Worker(x)) && !x.drift && Schedules(w, x) && AsksAgain(y)
    ensures Schedules(Reconcile(w, x), y) <==>
              || x.last.Lost?
              || (&& x.reachesFormulas && x.formulasOk && !x.strip.Lost?
                  && (w.obj.annotation.Wanted? ||
                      (w.obj.annotation.Other? && w.obj.generation != w.obj.formulaGeneration)))
    ensures Reconcile(w, x).checkins == w.checkins
  {
  }

  /** The same read-back makes the pass forget that it has applied the formula values of a new generation, which the
      next pass therefore applies again; a pass that takes no annotation back does not. */
  lemma AppliesAgainIffTakenBack(o: Stored, next: Tracked, x: Pass, y: Pass)
    requires o.generation != o.formulaGeneration && Applies(o, x) && !x.last.Lost?
    requires y.reachesFormulas && y.formulasOk
    ensures Applies(Store(o, next, x), y) <==>
              (!o.annotation.Absent? && !x.strip.Lost?) || (o.annotation.Wanted? && x.strip.Lost?)
  {
  }

  lemma RunUnrolls(w: World, e: Event, es: seq<Event>)
    ensures Run(w, [e] + es) == Run(Next(w, e), es)
  {
    assert ([e] + es)[1..] == es;
  }

  const UNTROUBLED := Pass(true, Unavailable, false, Some(1), 0, true, true, Done, Done)
  const CHANGE := Worker(UNTROUBLED)
  const RETRY := Worker(UNTROUBLED.(drift := false, report := Failed, checkinOk := true, scheduled := Some(2)))

  /** The System after a channel change, a second, and a check-in. */
  const CHECKED_IN :=
    World(Stored(Tracked(1, Some(0)), 1, 1, Absent), SECOND, Some(SECOND), 1, 0, 0, 0, true)

  lemma ChangeThenCheckIn()
    ensures Run(REGISTERED, [CHANGE, Tick(SECOND), CheckIn]) == CHECKED_IN
  {
    var w1 := World(Stored(Tracked(1, Some(0)), 1, 1, Absent), 0, None, 0, 0, 0, 0, true);
    assert Next(REGISTERED, CHANGE) == w1;
    RunUnrolls(Next(w1, Tick(SECOND)), CheckIn, []);
    RunUnrolls(w1, Tick(SECOND), [CheckIn]);
    RunUnrolls(REGISTERED, CHANGE, [Tick(SECOND), CheckIn]);
    assert [CheckIn] + [] == [CheckIn] && [Tick(SECOND)] + [CheckIn] == [Tick(SECOND), CheckIn];
    assert [CHANGE] + [Tick(SECOND), CheckIn] == [CHANGE, Tick(SECOND), CheckIn];
  }

  lemma RetryTwice()
    ensures var w := Run(CHECKED_IN, [Annotate(Wanted), RETRY, RETRY]); w.checkins == 1 && w.retries == 2
  {
    var annotated := Next(CHECKED_IN, Annotate(Wanted));
    var once := World(CHECKED_IN.obj, SECOND, Some(SECOND), 1, 1, 1, SECOND, false);
    assert Next(annotated, RETRY) == once;
    RunUnrolls(once, RETRY, []);
    RunUnrolls(annotated, RETRY, [RETRY]);
    RunUnrolls(CHECKED_IN, Annotate(Wanted), [RETRY, RETRY]);
    assert [RETRY] + [] == [RETRY] && [RETRY] + [RETRY] == [RETRY, RETRY];
    assert [Annotate(Wanted)] + [RETRY, RETRY] == [Annotate(Wanted), RETRY, RETRY];
  }

  lemma {:induction false} RunAppend(w: World, a: seq<Event>, b: seq<Event>)
    ensures Run(w, a + b) == Run(Run(w, a), b)
    decreases |a|
  {
    if a == [] {
      assert a + b == b;
    } else {
      assert (a + b)[0] == a[0] && (a + b)[1..] == a[1..] + b;
      RunAppend(Next(w, a[0]), a[1..], b);
    }
  }

  /** A run of that kind, with nothing failing: the user asks for formula values, the minion checks in once, and the
      channel change is retried twice. */
  lemma OneCheckInTwoRetries() returns (es: seq<Event>)
    ensures AllSane(es)
    ensures forall e :: e in es && e.Worker? ==> e.x.formulasOk && e.x.strip.Done? && e.x.last.Done?
    ensures Run(REGISTERED, es).checkins == 1 && Run(REGISTERED, es).retries == 2
  {
    es := [CHANGE, Tick(SECOND), CheckIn] + [Annotate(Wanted), RETRY, RETRY];
    RunAppend(REGISTERED, [CHANGE, Tick(SECOND), CheckIn], [Annotate(Wanted), RETRY, RETRY]);
    ChangeThenCheckIn();
    RetryTwice();
  }

  // ---------------------------------------------------------------------------------------------------------------
  // The pass as it runs
  // ---------------------------------------------------------------------------------------------------------------

  /** A System as one pass works on it. `stored` is what the API server holds. */
  class SystemObject {
    var channelActionId: int
    var channelActionTime: Option<int>
    var formulaGeneration: int
    var stored: Stored

    ghost function InMemory(): Tracked
      reads this
    {
      Tracked(channelActionId, channelActionTime)
    }

    method ChannelActionFailed(report: ActionReport, checkinOk: bool, checkin: Option<int>) returns (failed: bool)
      modifies this`channelActionId, this`channelActionTime
      ensures forall x: Pass :: x.report == report && x.checkinOk == checkinOk ==>
        (failed, InMemory()) == Verdict(old(InMemory()), checkin, x)
      ensures forall x: Pass :: x.report == report && x.checkinOk == checkinOk ==>
        failed == RetryIsDue(old(InMemory()), checkin, x) && InMemory() == StillTracked(old(InMemory()), x)
    {
      if channelActionId == 0 {
        return false;
      }
      match report {
        case Unavailable | InProgress =>
          return false;
        case Missing | Completed =>
          channelActionId, channelActionTime := 0, None;
          return false;
        case Failed =>
          if channelActionTime.None? {
            return true;
          }
          return checkinOk && checkin.Some? && Seconds(checkin.value) > channelActionTime.value;
      }
    }

    method Load()
      modifies this
      ensures stored == old(stored) && InMemory() == stored.tracked && formulaGeneration == stored.formulaGeneration
    {
      channelActionId, channelActionTime := stored.tracked.id, stored.tracked.time;
      formulaGeneration := stored.formulaGeneration;
    }

    method UpdateStatus(fate: Write)
      modifies this`stored
      ensures stored == if fate.Lost? then old(stored)
                        else Stored(InMemory(), formulaGeneration, old(stored).generation, old(stored).annotation)
    {
      if !fate.Lost? {
        stored := Stored(Tracked(channelActionId, channelActionTime), formulaGeneration, stored.generation,
                         stored.annotation);
      }
    }

    /** The rest of the pass, from the formulas on. The update that takes the annotation back reads the object
        back. */
    method FormulaPass(x: Pass)
      requires formulaGeneration == stored.formulaGeneration
      modifies this
      ensures stored == Store(old(stored), old(InMemory()), x)
    {
      if x.reachesFormulas && x.formulasOk {
        if stored.generation != formulaGeneration || stored.annotation.Wanted? {
          formulaGeneration := stored.generation;
          if !stored.annotation.Absent? && !x.strip.Lost? {
            stored := stored.(annotation := Absent);
            if x.strip.Cut? {
              return;
            }
            Load();
          }
        }
      }
      UpdateStatus(x.last);
    }

    method ChannelPass(ghost w: World, now: int, checkin: Option<int>, x: Pass)
      requires w.obj == stored && w.now == now && w.checkin == checkin
      modifies this
      ensures stored == Reconcile(w, x).obj
    {
      Load();
      var change := x.drift;
      if !change {
        change := ChannelActionFailed(x.report, x.checkinOk, checkin);
      }
      if change {
        if x.scheduled.None? {
          UpdateStatus(x.last);
          return;
        }
        channelActionId := x.scheduled.value;
        channelActionTime := Some(Seconds(now + x.delay));
      }
      FormulaPass(x);
    }
  }
}
