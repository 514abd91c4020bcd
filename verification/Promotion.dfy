/** The content project promotion controller: one promotion object, its reconcile passes, and what holds over every
    run. Each pass reads the stored status, works on a copy, and changes the stored status only through writes that
    land. */
module Promotion {
  import opened Common

  datatype Phase = NoPhase | Pending | Running | Succeeded | Failed

  datatype Status = Status(phase: Phase, startedAt: Option<int>, completedAt: Option<int>, requested: bool,
                           promotedVersion: int)

  const NEW_STATUS := Status(NoPhase, None, None, false, 0)

  /** `notBefore` comes from the API, so it is a whole second; times are in nanoseconds. `ttl` is in nanoseconds. */
  datatype Spec = Spec(notBefore: Option<int>, requireVersion: int, ttl: int)

  const SECOND := 1_000_000_000

  /** Times are stored with a resolution of one second. */
  function Stored(t: int): int {
    t / SECOND * SECOND
  }

  predicate WholeSecond(t: int) {
    t % SECOND == 0
  }

  /** Uyuni's answer to a promotion request. AcceptedUnseen: Uyuni took the request but the caller got an error. */
  datatype Reply = Accepted | AcceptedUnseen | Busy | Rejected

  datatype Target = Missing | InProgress | BuildFailed | Built | Unknown

  /** The target environment in Uyuni: its status, and whether that has changed since Uyuni last accepted a
      request. */
  datatype Environment = Environment(status: Target, moved: bool)

  /** What one pass meets. The clock is read at the gate, at the start, and at the end; `startWrite`, `requestWrite`
      and `lastWrite` are the fates of the status writes. `meanwhile` is a status that the target takes on between the
      request and the poll, if any. */
  datatype Pass = Pass(
    orgOk: bool, ownershipOk: bool, projectFound: bool, source: Option<int>, building: bool,
    gate: int, start: int, end: int,
    reply: Reply, meanwhile: Option<Target>, listOk: bool, deleteOk: bool,
    startWrite: Write, requestWrite: Write, lastWrite: Write)

  /** The stored object; the target environment; and what Uyuni and an observer have seen: how many requests Uyuni
      accepted, how many status writes were lost right after one, whether a poll after an accepted request showed the
      target built, and whether one showed it built after a change since that request. */
  datatype World = World(stored: Status, deleted: bool, env: Environment, accepted: int, lostAfter: int,
                         builtSeen: bool, finished: bool, clock: int)

  predicate IsTerminal(phase: Phase) {
    phase.Succeeded? || phase.Failed?
  }

  // ---------------------------------------------------------------------------------------------------------------
  // One pass
  // ---------------------------------------------------------------------------------------------------------------

  function UpdateStatus(w: World, p: Status, fate: Write): World {
    if fate.Lost? then w else w.(stored := p)
  }

  function FailWith(w: World, p: Status, at: int, fate: Write): World {
    UpdateStatus(w, p.(phase := Failed, completedAt := Some(Stored(at))), fate)
  }

  function Wait(w: World, p: Status, fate: Write): World {
    UpdateStatus(w, p.(phase := Pending), fate)
  }

  /** What stops a pass before it acts. */
  datatype Stop = Go | FailNow | WaitNow | Leave

  function Check(spec: Spec, x: Pass): Stop {
    if !x.orgOk then FailNow
    else if !x.ownershipOk then Leave
    else if !x.projectFound || x.source.None? then FailNow
    else if spec.notBefore.Some? && x.gate < spec.notBefore.value then WaitNow
    else if spec.requireVersion > 0 && x.source.value == 0 then WaitNow
    else if spec.requireVersion > 0 && x.source.value != spec.requireVersion then FailNow
    else if x.building then WaitNow
    else Go
  }

  /** The target takes on a status. */
  function Move(env: Environment, status: Target): Environment {
    Environment(status, env.moved || status != env.status)
  }

  function InEnv(w: World, env: Environment): World {
    World(w.stored, w.deleted, env, w.accepted, w.lostAfter, w.builtSeen, w.finished, w.clock)
  }

  /** A poll shows the target built. */
  function ShowBuilt(w: World): World {
    var after := w.accepted > 0;
    World(w.stored, w.deleted, w.env, w.accepted, w.lostAfter, w.builtSeen || after,
          w.finished || (after && w.env.moved), w.clock)
  }

  /** Uyuni accepts a request, and the status write right after it is lost or not. */
  function Accept(w: World, lost: bool): World {
    World(w.stored, w.deleted, Environment(w.env.status, false), w.accepted + 1,
          w.lostAfter + (if lost then 1 else 0), w.builtSeen, w.finished, w.clock)
  }

  /** Reads the target environment and finishes the promotion if it can be finished. */
  function Poll(w: World, p: Status, x: Pass): World {
    Conclude(if x.meanwhile.Some? then InEnv(w, Move(w.env, x.meanwhile.value)) else w, p, x)
  }

  function Conclude(w: World, p: Status, x: Pass): World {
    if !x.listOk then w
    else
      match w.env.status
      case Missing => FailWith(w, p, x.end, x.lastWrite)
      case BuildFailed => FailWith(w, p, x.end, x.lastWrite)
      case Built =>
        UpdateStatus(ShowBuilt(w), p.(phase := Succeeded, completedAt := Some(Stored(x.end))), x.lastWrite)
      case _ => w
  }

  /** Requests the promotion, unless the status says it has been requested, and then polls. */
  function Request(w: World, p: Status, x: Pass): World {
    if p.requested then Poll(w, p, x)
    else
      match x.reply
      case Busy => UpdateStatus(w, p, x.lastWrite)
      case Rejected => FailWith(w, p, x.end, x.lastWrite)
      case AcceptedUnseen => FailWith(Accept(w, x.lastWrite.Lost?), p, x.end, x.lastWrite)
      case Accepted => RecordRequest(Accept(w, x.requestWrite.Lost?), p.(requested := true), x)
  }

  /** Stores that the promotion has been requested, and polls. */
  function RecordRequest(w: World, p: Status, x: Pass): World {
    var w' := UpdateStatus(w, p, x.requestWrite);
    if x.requestWrite.Done? then Poll(w', p, x) else w'
  }

  /** Marks the promotion as started, once, and goes on. */
  function Execute(w: World, p: Status, x: Pass): World {
    if p.startedAt.Some? then Request(w, p, x)
    else
      var p' := p.(startedAt := Some(Stored(x.start)), phase := Running,
                   promotedVersion := if x.source.Some? then x.source.value else 0);
      var w' := UpdateStatus(w, p', x.startWrite);
      if x.startWrite.Done? then Request(w', p', x) else w'
  }

  function Collect(spec: Spec, w: World, x: Pass): World {
    if spec.ttl > 0 && w.stored.completedAt.Some? && x.gate > w.stored.completedAt.value + spec.ttl && x.deleteOk
    then w.(deleted := true)
    else w
  }

  /** What a pass does with a promotion that has not finished. */
  function Act(spec: Spec, w: World, x: Pass): World {
    match Check(spec, x)
    case Leave => w
    case FailNow => FailWith(w, w.stored, x.end, x.lastWrite)
    case WaitNow => Wait(w, w.stored, x.lastWrite)
    case Go => Execute(w, w.stored, x)
  }

  /** One reconcile pass. */
  function Reconcile(spec: Spec, w: World, x: Pass): World {
    var w' :=
      if w.deleted then w
      else if IsTerminal(w.stored.phase) then Collect(spec, w, x)
      else
        Act(spec, w, x);
    w'.(clock := x.end)
  }

  /** The clock never goes back. */
  predicate Monotone(w: World, x: Pass) {
    w.clock <= x.gate <= x.start <= x.end
  }

  /** A pass, or a step of Uyuni's own. */
  datatype Event = Worker(x: Pass) | Moves(status: Target)

  function Next(spec: Spec, w: World, e: Event): World {
    match e
    case Worker(x) => Reconcile(spec, w, x)
    case Moves(status) => InEnv(w, Move(w.env, status))
  }

  function Run(spec: Spec, w: World, es: seq<Event>): World
    decreases |es|
  {
    if es == [] then w else Run(spec, Next(spec, w, es[0]), es[1..])
  }

  ghost predicate MonotoneRun(spec: Spec, w: World, es: seq<Event>)
    decreases |es|
  {
    es == [] ||
    ((es[0].Worker? ==> Monotone(w, es[0].x)) && MonotoneRun(spec, Next(spec, w, es[0]), es[1..]))
  }

  /** A new object, over a target in any status. */
  function Fresh(clock: int, status: Target): World {
    World(NEW_STATUS, false, Environment(status, false), 0, 0, false, false, clock)
  }

  // ---------------------------------------------------------------------------------------------------------------
  // Invariants
  // ---------------------------------------------------------------------------------------------------------------

  /** Every accepted request but one has lost its status write; the one left over is recorded, or ended the
      promotion. */
  predicate Counted(w: World) {
    && 0 <= w.lostAfter && 0 <= w.accepted
    && w.accepted <= w.lostAfter + (if w.stored.requested || IsTerminal(w.stored.phase) then 1 else 0)
    && (w.stored.requested ==> w.accepted > 0)
  }

  predicate Ordered(spec: Spec, w: World) {
    && (w.stored.startedAt.Some? ==>
          && (spec.notBefore.Some? ==> spec.notBefore.value <= w.stored.startedAt.value)
          && w.stored.startedAt.value <= w.clock && WholeSecond(w.stored.startedAt.value))
    && (w.stored.requested ==> w.stored.startedAt.Some?)
    && (w.stored.phase.Succeeded? ==>
          w.stored.requested && w.builtSeen && w.stored.completedAt.Some?
          && w.stored.startedAt.value <= w.stored.completedAt.value)
  }

  lemma StoredIsMonotone(s: int, t: int)
    requires s <= t
    ensures Stored(s) <= Stored(t) <= t
    ensures WholeSecond(s) ==> s <= Stored(t)
  {
  }

  predicate Inv(spec: Spec, w: World) {
    Counted(w) && Ordered(spec, w)
  }

  /** What a copy inside a pass has that the invariant speaks about. */
  predicate CopyInv(spec: Spec, w: World, p: Status, x: Pass) {
    && !IsTerminal(w.stored.phase) && !IsTerminal(p.phase) && Counted(w)
    && p.requested == w.stored.requested
    && (p.requested ==> p.startedAt.Some?)
    && (p.startedAt.Some? ==>
          && (spec.notBefore.Some? ==> spec.notBefore.value <= p.startedAt.value)
          && p.startedAt.value <= Stored(x.end) && WholeSecond(p.startedAt.value))
    && (w.stored.startedAt.Some? ==> p.startedAt == w.stored.startedAt)
    && (w.stored.requested ==> w.stored.startedAt.Some?)
  }

  lemma PollKeeps(spec: Spec, w: World, p: Status, x: Pass)
    requires CopyInv(spec, w, p, x) && p.requested
    ensures Inv(spec, Poll(w, p, x).(clock := x.end))
  {
    StoredIsMonotone(x.end, x.end);
  }

  /** Before the acceptance: what both kinds of it start from. */
  predicate BeforeRequest(spec: Spec, w: World, p: Status, x: Pass) {
    CopyInv(spec, w, p, x) && p.startedAt.Some? && !p.requested && w.stored.startedAt.Some?
  }

  lemma UnseenKeeps(spec: Spec, w: World, p: Status, x: Pass)
    requires BeforeRequest(spec, w, p, x)
    ensures Inv(spec, FailWith(Accept(w, x.lastWrite.Lost?), p, x.end, x.lastWrite).(clock := x.end))
  {
    StoredIsMonotone(x.end, x.end);
  }

  lemma RecordKeeps(spec: Spec, w: World, p: Status, x: Pass)
    requires BeforeRequest(spec, w, p, x)
    ensures Inv(spec, RecordRequest(Accept(w, x.requestWrite.Lost?), p.(requested := true), x).(clock := x.end))
  {
    StoredIsMonotone(x.end, x.end);
    if x.requestWrite.Done? {
      PollKeeps(spec, UpdateStatus(Accept(w, false), p.(requested := true), Done), p.(requested := true), x);
    }
  }

  lemma AcceptedKeeps(spec: Spec, w: World, p: Status, x: Pass)
    requires BeforeRequest(spec, w, p, x)
    requires x.reply.Accepted? || x.reply.AcceptedUnseen?
    ensures Inv(spec, Request(w, p, x).(clock := x.end))
  {
    if x.reply.AcceptedUnseen? {
      UnseenKeeps(spec, w, p, x);
    } else {
      RecordKeeps(spec, w, p, x);
    }
  }

  lemma RequestKeeps(spec: Spec, w: World, p: Status, x: Pass)
    requires CopyInv(spec, w, p, x) && p.startedAt.Some? && w.stored.startedAt.Some?
    ensures Inv(spec, Request(w, p, x).(clock := x.end))
  {
    StoredIsMonotone(x.end, x.end);
    if p.requested {
      PollKeeps(spec, w, p, x);
    } else if x.reply.Accepted? || x.reply.AcceptedUnseen? {
      AcceptedKeeps(spec, w, p, x);
    }
  }

  lemma ExecuteKeeps(spec: Spec, w: World, x: Pass)
    requires Inv(spec, w) && Monotone(w, x) && !IsTerminal(w.stored.phase) && Check(spec, x).Go?
    requires spec.notBefore.Some? ==> WholeSecond(spec.notBefore.value)
    ensures Inv(spec, Execute(w, w.stored, x).(clock := x.end))
  {
    var p := w.stored;
    StoredIsMonotone(x.start, x.end);
    if p.startedAt.Some? {
      StoredIsMonotone(p.startedAt.value, x.end);
      RequestKeeps(spec, w, p, x);
    } else {
      var p' := p.(startedAt := Some(Stored(x.start)), phase := Running,
                   promotedVersion := if x.source.Some? then x.source.value else 0);
      if spec.notBefore.Some? {
        StoredIsMonotone(spec.notBefore.value, x.start);
      }
      if x.startWrite.Done? {
        RequestKeeps(spec, w.(stored := p'), p', x);
      }
    }
  }

  lemma ReconcileKeeps(spec: Spec, w: World, x: Pass)
    requires Inv(spec, w) && Monotone(w, x)
    requires spec.notBefore.Some? ==> WholeSecond(spec.notBefore.value)
    ensures Inv(spec, Reconcile(spec, w, x))
  {
    if !w.deleted && !IsTerminal(w.stored.phase) && Check(spec, x).Go? {
      ExecuteKeeps(spec, w, x);
    }
  }

  // ---------------------------------------------------------------------------------------------------------------
  // Every run
  // ---------------------------------------------------------------------------------------------------------------

  lemma {:induction false} RunKeeps(spec: Spec, w: World, es: seq<Event>)
    requires Inv(spec, w) && MonotoneRun(spec, w, es)
    requires spec.notBefore.Some? ==> WholeSecond(spec.notBefore.value)
    ensures Inv(spec, Run(spec, w, es))
    decreases |es|
  {
    if es != [] {
      if es[0].Worker? {
        ReconcileKeeps(spec, w, es[0].x);
      }
      RunKeeps(spec, Next(spec, w, es[0]), es[1..]);
    }
  }

  /** Uyuni accepts at most one promotion request per promotion object, plus one for every status write that was lost
      right after an acceptance. */
  lemma AtMostOneRequestPlusLostWrites(spec: Spec, clock: int, status: Target, es: seq<Event>)
    requires MonotoneRun(spec, Fresh(clock, status), es)
    requires spec.notBefore.Some? ==> WholeSecond(spec.notBefore.value)
    ensures var w := Run(spec, Fresh(clock, status), es); w.accepted <= 1 + w.lostAfter
  {
    RunKeeps(spec, Fresh(clock, status), es);
  }

  /** Succeeded is never claimed without cause: Uyuni had accepted a request and a later poll showed the target built;
      and the recorded times are in order. */
  lemma SucceededMeansPromoted(spec: Spec, clock: int, status: Target, es: seq<Event>)
    requires MonotoneRun(spec, Fresh(clock, status), es)
    requires spec.notBefore.Some? ==> WholeSecond(spec.notBefore.value)
    requires Run(spec, Fresh(clock, status), es).stored.phase.Succeeded?
    ensures var w := Run(spec, Fresh(clock, status), es);
            && w.accepted > 0 && w.builtSeen
            && w.stored.startedAt.Some? && w.stored.completedAt.Some?
            && (spec.notBefore.Some? ==> spec.notBefore.value <= w.stored.startedAt.value)
            && w.stored.startedAt.value <= w.stored.completedAt.value
  {
    RunKeeps(spec, Fresh(clock, status), es);
  }

  lemma PollKeepsRequested(w: World, p: Status, x: Pass)
    requires w.stored.requested && p.requested
    ensures Poll(w, p, x).stored.requested && Poll(w, p, x).accepted == w.accepted
  {
  }

  lemma NextKeepsRequested(spec: Spec, w: World, e: Event)
    requires w.stored.requested
    ensures Next(spec, w, e).stored.requested && Next(spec, w, e).accepted == w.accepted
  {
    if e.Worker? && !w.deleted && !IsTerminal(w.stored.phase) && Check(spec, e.x).Go? {
      var p, x := w.stored, e.x;
      PollKeepsRequested(w, p, x);
      var p' := p.(startedAt := Some(Stored(x.start)), phase := Running,
                   promotedVersion := if x.source.Some? then x.source.value else 0);
      PollKeepsRequested(UpdateStatus(w, p', x.startWrite), p', x);
    }
  }

  /** The record of the request is never taken back, whatever the phase does in between. */
  lemma {:induction false} RequestedStays(spec: Spec, w: World, es: seq<Event>)
    requires w.stored.requested
    ensures var f := Run(spec, w, es); f.stored.requested && f.accepted == w.accepted
    decreases |es|
  {
    if es != [] {
      NextKeepsRequested(spec, w, es[0]);
      RequestedStays(spec, Next(spec, w, es[0]), es[1..]);
    }
  }

  /** Succeeded and Failed are final: no later pass changes the status at all. */
  lemma {:induction false} TerminalStays(spec: Spec, w: World, es: seq<Event>)
    requires IsTerminal(w.stored.phase)
    ensures var f := Run(spec, w, es); f.stored == w.stored && f.accepted == w.accepted
    decreases |es|
  {
    if es != [] {
      TerminalStays(spec, Next(spec, w, es[0]), es[1..]);
    }
  }

  lemma PollAcceptsNothing(w: World, p: Status, x: Pass)
    ensures Poll(w, p, x).accepted == w.accepted
  {
  }

  lemma ExecuteAcceptsOne(w: World, p: Status, x: Pass)
    ensures var after := Execute(w, p, x).accepted;
            after == w.accepted || (after == w.accepted + 1 && !p.requested)
  {
    if p.startedAt.Some? {
      RequestAcceptsOne(w, p, x);
    } else {
      var p' := p.(startedAt := Some(Stored(x.start)), phase := Running,
                   promotedVersion := if x.source.Some? then x.source.value else 0);
      RequestAcceptsOne(UpdateStatus(w, p', x.startWrite), p', x);
    }
  }

  lemma RequestAcceptsOne(w: World, p: Status, x: Pass)
    ensures var after := Request(w, p, x).accepted;
            after == w.accepted || (after == w.accepted + 1 && !p.requested)
  {
    if p.requested {
      PollAcceptsNothing(w, p, x);
    } else if x.reply.Accepted? {
      var w' := UpdateStatus(Accept(w, x.requestWrite.Lost?), p.(requested := true), x.requestWrite);
      PollAcceptsNothing(w', p.(requested := true), x);
    }
  }

  /** A request goes out only from a pass that found its gates open: not before the scheduled time, with the required
      source version in place, and with no build under way. */
  lemma RequestsOnlyWhenReady(spec: Spec, w: World, x: Pass)
    requires Reconcile(spec, w, x).accepted != w.accepted
    ensures !w.stored.requested && !IsTerminal(w.stored.phase)
    ensures Reconcile(spec, w, x).accepted == w.accepted + 1
    ensures spec.notBefore.Some? ==> spec.notBefore.value <= x.gate
    ensures spec.requireVersion > 0 ==> x.source == Some(spec.requireVersion)
    ensures !x.building
  {
    ExecuteAcceptsOne(w, w.stored, x);
  }

  /** The phase is no anchor: a promotion that is under way in Uyuni goes back to Pending when the project builds, and
      forward again once the target is built, without a second request. */
  lemma PhaseGoesBack(spec: Spec, w: World, x: Pass, y: Pass)
    requires w.stored.phase.Running? && w.stored.requested && w.stored.startedAt.Some? && !w.deleted
    requires Check(spec, x).WaitNow? && !x.lastWrite.Lost?
    requires Check(spec, y).Go? && y.meanwhile == Some(Built) && y.listOk && !y.lastWrite.Lost?
    ensures Run(spec, w, [Worker(x)]).stored.phase.Pending?
    ensures var f := Run(spec, w, [Worker(x), Worker(y)]); f.stored.phase.Succeeded? && f.accepted == w.accepted
  {
    var m := Reconcile(spec, w, x);
    var two := [Worker(x), Worker(y)];
    assert two[1..] == [Worker(y)] && [Worker(y)][1..] == [] && [Worker(x)][1..] == [];
    assert Run(spec, m, [Worker(y)]) == Run(spec, Reconcile(spec, m, y), []);
  }

  /** The object is collected exactly by a pass that finds it finished for longer than its time to live, which has to
      be set, and gets the deletion through. */
  lemma CollectedIffTtlPassed(spec: Spec, w: World, x: Pass)
    requires !w.deleted
    ensures Reconcile(spec, w, x).deleted <==>
              && (w.stored.phase == Succeeded || w.stored.phase == Failed) && spec.ttl > 0 && x.deleteOk
              && w.stored.completedAt.Some? && x.gate > w.stored.completedAt.value + spec.ttl
  {
  }

  // ---------------------------------------------------------------------------------------------------------------
  // What a pass decides
  // ---------------------------------------------------------------------------------------------------------------

  predicate Early(spec: Spec, x: Pass) {
    spec.notBefore.Some? && x.gate < spec.notBefore.value
  }

  /** The gates are open. */
  predicate Open(spec: Spec, x: Pass) {
    && x.orgOk && x.ownershipOk && x.projectFound && x.source.Some? && !Early(spec, x) && !x.building
    && (spec.requireVersion > 0 ==> x.source.value == spec.requireVersion)
  }

  /** It is too early, or the source has no build yet, or the project is building. */
  predicate Waits(spec: Spec, x: Pass) {
    && x.orgOk && x.ownershipOk && x.projectFound && x.source.Some?
    && (Early(spec, x) || (spec.requireVersion > 0 && x.source.value == 0)
        || (x.building && (spec.requireVersion > 0 ==> x.source.value == spec.requireVersion)))
  }

  /** The promotion cannot be made: without its Organization, its project or its source, or from another version. */
  predicate Refused(spec: Spec, x: Pass) {
    || !x.orgOk
    || (x.ownershipOk && (|| !x.projectFound || x.source.None?
                          || (!Early(spec, x) && spec.requireVersion > 0
                              && x.source.value != 0 && x.source.value != spec.requireVersion)))
  }

  /** The pass gets to see the target, in this status. */
  predicate Sees(spec: Spec, w: World, x: Pass, status: Target) {
    && Open(spec, x) && (w.stored.requested || x.reply.Accepted?) && x.listOk
    && status == if x.meanwhile.Some? then x.meanwhile.value else w.env.status
  }

  /** What a promotion fails for: it cannot be made, Uyuni refuses the request with an error other than that it is
      busy, or the target is missing or failed to build. */
  predicate FailureCause(spec: Spec, w: World, x: Pass) {
    || Refused(spec, x)
    || (Open(spec, x) && !w.stored.requested && (x.reply.Rejected? || x.reply.AcceptedUnseen?))
    || Sees(spec, w, x, Missing) || Sees(spec, w, x, BuildFailed)
  }

  lemma GatesDecide(spec: Spec, x: Pass)
    ensures Check(spec, x).Go? <==> Open(spec, x)
    ensures Check(spec, x).WaitNow? <==> Waits(spec, x)
    ensures Check(spec, x).FailNow? <==> Refused(spec, x)
  {
  }

  /** The target shows this status to a pass that gets as far as the poll. */
  predicate Shows(w: World, x: Pass, requested: bool, status: Target) {
    && (requested || x.reply.Accepted?) && x.listOk
    && status == if x.meanwhile.Some? then x.meanwhile.value else w.env.status
  }

  /** `s` is `p` with the phase decided, or left. */
  predicate Decided(p: Status, s: Status, x: Pass, failed: bool, succeeded: bool) {
    && (s.phase == Failed <==> failed) && (s.phase == Succeeded <==> succeeded)
    && (!failed && !succeeded ==> s.phase == p.phase)
    && s.completedAt == (if failed || succeeded then Some(x.end / SECOND * SECOND) else p.completedAt)
    && s.startedAt == p.startedAt && s.promotedVersion == p.promotedVersion
  }

  lemma PollDecides(w: World, p: Status, x: Pass)
    requires w.stored == p && !p.phase.Succeeded? && !p.phase.Failed? && !x.lastWrite.Lost?
    ensures Decided(p, Poll(w, p, x).stored, x, Shows(w, x, true, Missing) || Shows(w, x, true, BuildFailed),
                    Shows(w, x, true, Built))
    ensures Poll(w, p, x).stored.requested == p.requested
  {
  }

  lemma RequestDecides(w: World, p: Status, x: Pass)
    requires w.stored == p && !p.phase.Succeeded? && !p.phase.Failed?
    requires x.requestWrite.Done? && !x.lastWrite.Lost?
    ensures Decided(p, Request(w, p, x).stored, x,
                    || (!p.requested && (x.reply.Rejected? || x.reply.AcceptedUnseen?))
                    || Shows(w, x, p.requested, Missing) || Shows(w, x, p.requested, BuildFailed),
                    Shows(w, x, p.requested, Built))
    ensures Request(w, p, x).stored.requested == (p.requested || x.reply == Accepted)
  {
    if p.requested {
      PollDecides(w, p, x);
    } else if x.reply.Accepted? {
      var p' := p.(requested := true);
      PollDecides(UpdateStatus(Accept(w, false), p', Done), p', x);
    }
  }

  /** What a pass whose writes land makes of an unfinished promotion. */
  lemma PassDecides(spec: Spec, w: World, x: Pass)
    requires !w.deleted && !w.stored.phase.Succeeded? && !w.stored.phase.Failed?
    requires x.startWrite.Done? && x.requestWrite.Done? && !x.lastWrite.Lost?
    ensures var was, s := w.stored, Reconcile(spec, w, x).stored;
            var starts := Open(spec, x) && was.startedAt.None?;
            && (s.phase == Failed <==> FailureCause(spec, w, x))
            && (s.phase == Succeeded <==> Sees(spec, w, x, Built))
            && (Waits(spec, x) ==> s.phase == Pending)
            && (!Waits(spec, x) && s.phase != Failed && s.phase != Succeeded ==>
                  s.phase == if starts then Running else was.phase)
            && s.completedAt == (if s.phase == Failed || s.phase == Succeeded then Some(x.end / SECOND * SECOND)
                                 else was.completedAt)
            && s.startedAt == (if starts then Some(x.start / SECOND * SECOND) else was.startedAt)
            && s.promotedVersion == (if starts then x.source.value else was.promotedVersion)
            && s.requested == (was.requested || (Open(spec, x) && x.reply == Accepted))
  {
    GatesDecide(spec, x);
    if Open(spec, x) {
      var p := w.stored;
      var p' := p.(startedAt := Some(Stored(x.start)), phase := Running,
                   promotedVersion := if x.source.Some? then x.source.value else 0);
      if p.startedAt.Some? {
        RequestDecides(w, p, x);
      } else {
        RequestDecides(UpdateStatus(w, p', Done), p', x);
      }
    }
  }

  /** The pass gets as far as the request, and Uyuni accepts it, whether or not the reply arrives. */
  predicate Requests(spec: Spec, w: World, x: Pass) {
    && !w.deleted && !w.stored.phase.Succeeded? && !w.stored.phase.Failed? && Open(spec, x)
    && (w.stored.startedAt.Some? || x.startWrite.Done?) && !w.stored.requested
    && (x.reply == Accepted || x.reply == AcceptedUnseen)
  }

  /** The status write right behind an accepted request, or behind the error that came in its place, is lost. */
  predicate NextWriteLost(x: Pass) {
    if x.reply == Accepted then x.requestWrite.Lost? else x.lastWrite.Lost?
  }

  /** What is counted: acceptances, and those whose next status write is lost. */
  lemma CountsAreExact(spec: Spec, w: World, x: Pass)
    ensures var w' := Reconcile(spec, w, x); var requests := Requests(spec, w, x);
            && w'.accepted == w.accepted + (if requests then 1 else 0)
            && w'.lostAfter == w.lostAfter
               + (if requests && NextWriteLost(x) then 1 else 0)
  {
    GatesDecide(spec, x);
    ExecuteCounts(w, w.stored, x);
  }

  lemma PollCounts(w: World, p: Status, x: Pass)
    ensures Poll(w, p, x).accepted == w.accepted && Poll(w, p, x).lostAfter == w.lostAfter
    ensures Poll(w, p, x).builtSeen == (w.builtSeen || (w.accepted > 0 && Shows(w, x, true, Built)))
  {
  }

  lemma ExecuteCounts(w: World, p: Status, x: Pass)
    ensures var w' := Execute(w, p, x);
            var requests := (p.startedAt.Some? || x.startWrite.Done?) && !p.requested
                            && (x.reply == Accepted || x.reply == AcceptedUnseen);
            && w'.accepted == w.accepted + (if requests then 1 else 0)
            && w'.lostAfter == w.lostAfter
               + (if requests && NextWriteLost(x) then 1 else 0)
  {
    var p' := p.(startedAt := Some(Stored(x.start)), phase := Running,
                 promotedVersion := if x.source.Some? then x.source.value else 0);
    if p.startedAt.Some? {
      RequestCounts(w, p, x);
    } else {
      RequestCounts(UpdateStatus(w, p', x.startWrite), p', x);
    }
  }

  lemma RequestCounts(w: World, p: Status, x: Pass)
    ensures var w' := Request(w, p, x);
            var requests := !p.requested && (x.reply == Accepted || x.reply == AcceptedUnseen);
            && w'.accepted == w.accepted + (if requests then 1 else 0)
            && w'.lostAfter == w.lostAfter
               + (if requests && NextWriteLost(x) then 1 else 0)
  {
    if p.requested {
      PollCounts(w, p, x);
    } else if x.reply.Accepted? {
      var p' := p.(requested := true);
      PollCounts(UpdateStatus(Accept(w, x.requestWrite.Lost?), p', x.requestWrite), p', x);
    }
  }

  /** Over every run, whatever becomes of the writes: a promotion fails only for a cause. */
  ghost predicate NoFailureCause(spec: Spec, w: World, es: seq<Event>)
    decreases |es|
  {
    es == [] ||
    ((es[0].Worker? ==> !FailureCause(spec, w, es[0].x)) && NoFailureCause(spec, Next(spec, w, es[0]), es[1..]))
  }

  lemma FailsOnlyForACause(spec: Spec, w: World, x: Pass)
    requires w.stored.phase != Failed && !FailureCause(spec, w, x)
    ensures Reconcile(spec, w, x).stored.phase != Failed
  {
    GatesDecide(spec, x);
    if Open(spec, x) {
      var p := w.stored;
      var p' := p.(startedAt := Some(Stored(x.start)), phase := Running,
                   promotedVersion := if x.source.Some? then x.source.value else 0);
      RequestFailsOnlyForACause(w, p, x);
      RequestFailsOnlyForACause(UpdateStatus(w, p', x.startWrite), p', x);
    }
  }

  lemma RequestFailsOnlyForACause(w: World, p: Status, x: Pass)
    requires w.stored.phase != Failed && p.phase != Failed
    requires !p.requested ==> !x.reply.Rejected? && !x.reply.AcceptedUnseen?
    requires !Shows(w, x, p.requested, Missing) && !Shows(w, x, p.requested, BuildFailed)
    ensures Request(w, p, x).stored.phase != Failed
  {
    if !p.requested && x.reply.Accepted? {
      var w' := UpdateStatus(Accept(w, x.requestWrite.Lost?), p.(requested := true), x.requestWrite);
      PollFailsOnlyForACause(w', p.(requested := true), x);
    } else if p.requested {
      PollFailsOnlyForACause(w, p, x);
    }
  }

  lemma PollFailsOnlyForACause(w: World, p: Status, x: Pass)
    requires w.stored.phase != Failed && p.phase != Failed
    requires !Shows(w, x, true, Missing) && !Shows(w, x, true, BuildFailed)
    ensures Poll(w, p, x).stored.phase != Failed
  {
  }

  lemma {:induction false} FailsOnlyWithCause(spec: Spec, w: World, es: seq<Event>)
    requires w.stored.phase != Failed && NoFailureCause(spec, w, es)
    ensures Run(spec, w, es).stored.phase != Failed
    decreases |es|
  {
    if es != [] {
      if es[0].Worker? {
        FailsOnlyForACause(spec, w, es[0].x);
      }
      FailsOnlyWithCause(spec, Next(spec, w, es[0]), es[1..]);
    }
  }

  /** Any number of passes that find Uyuni busy leave a started promotion as it is. */
  ghost predicate OnlyBusy(spec: Spec, es: seq<Event>) {
    forall e :: e in es ==> e.Moves? || (Open(spec, e.x) && e.x.reply.Busy?)
  }

  lemma {:induction false} BusyIsRetried(spec: Spec, w: World, es: seq<Event>, y: Pass)
    requires !w.deleted && w.stored.phase == Running && w.stored.startedAt.Some? && !w.stored.requested
    requires OnlyBusy(spec, es) && Open(spec, y) && y.reply.Accepted? && y.meanwhile == Some(Built) && y.listOk
    requires y.requestWrite.Done? && !y.lastWrite.Lost?
    ensures var f := Run(spec, w, es);
            && f.stored == w.stored && f.accepted == w.accepted
            && Reconcile(spec, f, y).stored.phase == Succeeded && Reconcile(spec, f, y).accepted == w.accepted + 1
    decreases |es|
  {
    if es != [] {
      assert es[0] in es && forall e :: e in es[1..] ==> e in es;
      BusyIsRetried(spec, Next(spec, w, es[0]), es[1..], y);
    }
  }

  // ---------------------------------------------------------------------------------------------------------------
  // Whose build it was
  // ---------------------------------------------------------------------------------------------------------------

  /** The promotion is reported succeeded, and no poll has shown the target built after a change since the request. */
  predicate Misreported(w: World) {
    w.stored.phase.Succeeded? && !w.finished
  }

  /** Uyuni accepts a request in this step. */
  predicate Accepts(spec: Spec, w: World, e: Event) {
    Next(spec, w, e).accepted != w.accepted
  }

  /** No request is accepted while the target shows the build that stood before. */
  ghost predicate AcceptsWhileUnbuilt(spec: Spec, w: World, es: seq<Event>)
    decreases |es|
  {
    es == [] ||
    ((Accepts(spec, w, es[0]) ==> !w.env.status.Built?) && AcceptsWhileUnbuilt(spec, Next(spec, w, es[0]), es[1..]))
  }

  /** Once a request has been accepted, BUILT can only be a status that came after it. */
  predicate OwnInv(w: World) {
    && 0 <= w.accepted && (w.accepted > 0 && w.env.status.Built? ==> w.env.moved)
    && (w.stored.requested ==> w.accepted > 0)
    && !Misreported(w)
  }

  lemma ConcludeKeepsOwn(w: World, p: Status, x: Pass)
    requires OwnInv(w) && w.accepted > 0
    ensures OwnInv(Conclude(w, p, x))
  {
  }

  lemma PollKeepsOwn(w: World, p: Status, x: Pass)
    requires OwnInv(w) && w.accepted > 0
    ensures OwnInv(Poll(w, p, x))
  {
    var w' := if x.meanwhile.Some? then InEnv(w, Move(w.env, x.meanwhile.value)) else w;
    ConcludeKeepsOwn(w', p, x);
  }

  lemma RequestKeepsOwn(w: World, p: Status, x: Pass)
    requires OwnInv(w) && !p.phase.Succeeded? && (p.requested ==> w.accepted > 0)
    requires Request(w, p, x).accepted != w.accepted ==> !w.env.status.Built?
    ensures OwnInv(Request(w, p, x))
  {
    RequestAcceptsOne(w, p, x);
    if p.requested {
      PollKeepsOwn(w, p, x);
    } else if x.reply.Accepted? {
      var w' := UpdateStatus(Accept(w, x.requestWrite.Lost?), p.(requested := true), x.requestWrite);
      PollAcceptsNothing(w', p.(requested := true), x);
      assert OwnInv(w');
      PollKeepsOwn(w', p.(requested := true), x);
    }
  }

  lemma NextKeepsOwn(spec: Spec, w: World, e: Event)
    requires OwnInv(w) && (Accepts(spec, w, e) ==> !w.env.status.Built?)
    ensures OwnInv(Next(spec, w, e))
  {
    if e.Worker? && !w.deleted && !IsTerminal(w.stored.phase) && Check(spec, e.x).Go? {
      var p, x := w.stored, e.x;
      if p.startedAt.Some? {
        RequestKeepsOwn(w, p, x);
      } else {
        var p' := p.(startedAt := Some(Stored(x.start)), phase := Running,
                     promotedVersion := if x.source.Some? then x.source.value else 0);
        if x.startWrite.Done? {
          RequestKeepsOwn(UpdateStatus(w, p', x.startWrite), p', x);
        }
      }
    }
  }

  /** Over every run in which no request is accepted while the target shows BUILT, Succeeded means that the target was
      built after the request. */
  lemma {:induction false} SucceededMeansFinished(spec: Spec, w: World, es: seq<Event>)
    requires OwnInv(w) && AcceptsWhileUnbuilt(spec, w, es)
    ensures !Misreported(Run(spec, w, es))
    decreases |es|
  {
    if es != [] {
      NextKeepsOwn(spec, w, es[0]);
      SucceededMeansFinished(spec, Next(spec, w, es[0]), es[1..]);
    }
  }

  lemma {:induction false} NothingMoreIsAccepted(spec: Spec, w: World, es: seq<Event>)
    requires w.stored.requested
    ensures AcceptsWhileUnbuilt(spec, w, es)
    decreases |es|
  {
    if es != [] {
      NextKeepsRequested(spec, w, es[0]);
      NothingMoreIsAccepted(spec, Next(spec, w, es[0]), es[1..]);
    }
  }

  /** A pass whose gates are open. */
  lemma OpenPass(spec: Spec) returns (x: Pass)
    ensures Check(spec, x).Go? && x.listOk && x.meanwhile.None? && x.lastWrite.Done?
  {
    var gate := if spec.notBefore.Some? then spec.notBefore.value else 0;
    var source := if spec.requireVersion > 0 then spec.requireVersion else 1;
    x := Pass(true, true, true, Some(source), false, gate, gate, gate, Busy, None, true, true, Done, Done, Done);
  }

  ghost predicate CanMisreport(spec: Spec, w: World) {
    exists es :: Misreported(Run(spec, w, es))
  }

  /** A promotion that has been requested and not finished can be misreported while the target still shows the status
      it had when Uyuni accepted the request, and that is BUILT. */
  lemma OldBuildMisreports(spec: Spec, w: World)
    requires w.stored.requested && w.stored.startedAt.Some? && !IsTerminal(w.stored.phase) && !w.deleted
    requires w.env == Environment(Built, false) && !w.finished
    ensures CanMisreport(spec, w)
  {
    var y := OpenPass(spec);
    var es := [Worker(y)];
    assert es[1..] == [] && Run(spec, w, es) == Run(spec, Reconcile(spec, w, y), []);
    assert Misreported(Run(spec, w, es));
  }

  lemma OwnBuildIsReported(spec: Spec, w: World)
    requires OwnInv(w) && w.stored.requested
    ensures !CanMisreport(spec, w)
  {
    forall es
      ensures !Misreported(Run(spec, w, es))
    {
      NothingMoreIsAccepted(spec, w, es);
      SucceededMeansFinished(spec, w, es);
    }
  }

  /** At any later moment of an unfinished promotion: it can be misreported if and only if the target still shows
      BUILT, unchanged since the request. */
  lemma MisreportsIffStillOldBuild(spec: Spec, w: World)
    requires Inv(spec, w) && w.stored.requested && !IsTerminal(w.stored.phase) && !w.deleted && !w.finished
    ensures CanMisreport(spec, w) <==> w.env == Environment(Built, false)
  {
    if w.env == Environment(Built, false) {
      OldBuildMisreports(spec, w);
    } else {
      OwnBuildIsReported(spec, w);
    }
  }

  /** The exact condition, which can be read off the target when the request goes out: once Uyuni has accepted a first
      request and the status says so, some continuation misreports the promotion if and only if the target showed
      BUILT at that moment. */
  lemma MisreportsIffAcceptedOnBuilt(spec: Spec, w: World, x: Pass)
    requires Inv(spec, w) && !w.deleted && w.accepted == 0 && !w.finished
    requires Accepts(spec, w, Worker(x)) && x.reply.Accepted? && x.requestWrite.Cut?
    ensures w.env.status.Built? <==> CanMisreport(spec, Reconcile(spec, w, x))
  {
    RequestsOnlyWhenReady(spec, w, x);
    var w' := Reconcile(spec, w, x);
    assert w'.env == Environment(w.env.status, false) && w'.accepted == 1 && !w'.finished;
    if w.env.status.Built? {
      OldBuildMisreports(spec, w');
    } else {
      OwnBuildIsReported(spec, w');
    }
  }

  /** The pass that makes the request polls at once: with nothing failing it may report success on the earlier
      build. */
  lemma SucceedsInOnePass(spec: Spec, clock: int, x: Pass)
    requires Check(spec, x).Go? && x.reply.Accepted? && x.meanwhile.None? && x.listOk
    requires x.startWrite.Done? && x.requestWrite.Done? && x.lastWrite.Done?
    ensures var w := Reconcile(spec, Fresh(clock, Built), x); Misreported(w) && w.accepted == 1
  {
  }

  // ---------------------------------------------------------------------------------------------------------------
  // The pass as it runs
  // ---------------------------------------------------------------------------------------------------------------

  /** The promotion object on the API server, together with what Uyuni and an observer have seen. */
  class PromotionObject {
    var status: Status
    var deleted: bool
    ghost var accepted: int
    ghost var lostAfter: int
    var target: Target
    ghost var moved: bool
    ghost var builtSeen: bool
    ghost var finished: bool
    ghost var clock: int

    ghost function State(): World
      reads this
    {
      World(status, deleted, Environment(target, moved), accepted, lostAfter, builtSeen, finished, clock)
    }

    method Update(p: Status, fate: Write) returns (ok: bool)
      modifies this`status
      ensures ok == fate.Done? && State() == UpdateStatus(old(State()), p, fate)
    {
      if !fate.Lost? {
        status := p;
      }
      ok := fate.Done?;
    }

    method Fail(copy: Status, at: int, fate: Write)
      modifies this`status
      ensures State() == FailWith(old(State()), copy, at, fate)
    {
      var p := copy;
      p := p.(phase := Failed);
      p := p.(completedAt := Some(Stored(at)));
      var _ := Update(p, fate);
    }

    method Pend(copy: Status, fate: Write)
      modifies this`status
      ensures State() == Wait(old(State()), copy, fate)
    {
      var _ := Update(copy.(phase := Pending), fate);
    }

    method ReconcilePass(spec: Spec, x: Pass)
      modifies this
      ensures State() == Reconcile(spec, old(State()), x)
    {
      if !deleted {
        if IsTerminal(status.phase) {
          if spec.ttl > 0 && status.completedAt.Some? && x.gate > status.completedAt.value + spec.ttl && x.deleteOk {
            deleted := true;
          }
        } else {
          ActPass(spec, x);
        }
      }
      clock := x.end;
    }

    method ActPass(spec: Spec, x: Pass)
      modifies this
      ensures State() == Act(spec, old(State()), x)
    {
      var p := status;
      if !x.orgOk {
        Fail(p, x.end, x.lastWrite);
        return;
      }
      if !x.ownershipOk {
        return;
      }
      if !x.projectFound || x.source.None? {
        Fail(p, x.end, x.lastWrite);
        return;
      }
      if spec.notBefore.Some? && x.gate < spec.notBefore.value {
        Pend(p, x.lastWrite);
        return;
      }
      if spec.requireVersion > 0 {
        if x.source.value == 0 {
          Pend(p, x.lastWrite);
          return;
        }
        if x.source.value != spec.requireVersion {
          Fail(p, x.end, x.lastWrite);
          return;
        }
      }
      if x.building {
        Pend(p, x.lastWrite);
        return;
      }
      ExecutePass(p, x);
    }

    method ExecutePass(copy: Status, x: Pass)
      requires x.source.Some?
      modifies this
      ensures State() == Execute(old(State()), copy, x)
    {
      var p := copy;
      if p.startedAt.None? {
        p := p.(startedAt := Some(Stored(x.start)), phase := Running, promotedVersion := x.source.value);
        var ok := Update(p, x.startWrite);
        if !ok {
          return;
        }
      }
      RequestPass(p, x);
    }

    /** Uyuni accepts the request. */
    ghost method Accepted(lost: bool)
      modifies this`accepted, this`lostAfter, this`moved
      ensures State() == Accept(old(State()), lost)
    {
      accepted, moved := accepted + 1, false;
      lostAfter := lostAfter + if lost then 1 else 0;
    }

    /** A step of Uyuni's own. */
    method TakeOn(next: Target)
      modifies this`target, this`moved
      ensures State() == InEnv(old(State()), Move(old(State()).env, next))
    {
      moved := moved || next != target;
      target := next;
    }

    method RequestPass(copy: Status, x: Pass)
      modifies this
      ensures State() == Request(old(State()), copy, x)
    {
      var p := copy;
      if !p.requested {
        match x.reply
        case Busy =>
          var _ := Update(p, x.lastWrite);
          return;
        case Rejected =>
          Fail(p, x.end, x.lastWrite);
          return;
        case AcceptedUnseen =>
          Accepted(x.lastWrite.Lost?);
          Fail(p, x.end, x.lastWrite);
          return;
        case Accepted =>
          Accepted(x.requestWrite.Lost?);
          p := p.(requested := true);
          var ok := Update(p, x.requestWrite);
          if !ok {
            return;
          }
      }
      PollPass(p, x);
    }

    method PollPass(copy: Status, x: Pass)
      modifies this
      ensures State() == Poll(old(State()), copy, x)
    {
      if x.meanwhile.Some? {
        TakeOn(x.meanwhile.value);
      }
      if !x.listOk {
        return;
      }
      match target
      case Missing => Fail(copy, x.end, x.lastWrite);
      case BuildFailed => Fail(copy, x.end, x.lastWrite);
      case Built =>
        builtSeen := builtSeen || accepted > 0;
        finished := finished || (accepted > 0 && moved);
        var p := copy.(completedAt := Some(Stored(x.end)), phase := Succeeded);
        var _ := Update(p, x.lastWrite);
      case _ =>
    }
  }
}
