/** The netboot hand-off between the System and the CobblerSystem reconcilers, as a small-step machine.

    The value travels System annotation -> CobblerSystem annotation -> Cobbler record, and is then stripped from both
    objects. Every API call is one step; every object carries its resource version, and an update made from a stale copy
    is refused. Either controller may fail or crash at any step. */
module NetbootProtocol {
  import opened Common

  datatype Mode = Create | Import

  /** The two objects and the Cobbler record. `intent` is not stored anywhere in the system: it remembers the last
      well-formed value the user asked for, so that properties can speak about it. A user who takes a pending request
      back asks for nothing. */
  datatype Cluster = Cluster(
    sysAnn: Option<string>, sysStatus: Option<bool>, sysVersion: nat,
    present: bool, csAnn: Option<string>, csStatus: Option<bool>, csVersion: nat,
    record: bool, intent: Option<bool>)

  /** Where a System pass stands, with the copy it works from. */
  datatype SystemPc =
    | SysIdle
    | SysHas(val: string, version: nat)        // has read the System; `version` is the System's
    | SysForward(val: string, version: nat)    // has read the CobblerSystem; `version` is the CobblerSystem's

  /** Where a CobblerSystem pass stands, with the copy it works from. */
  datatype CobblerPc =
    | CobIdle
    | CobRead(val: string, version: nat)                         // has read the CobblerSystem
    | CobApplied(val: string, version: nat)                      // the Cobbler record is set
    | CobStatused(val: string, version: nat)                     // the CobblerSystem status is written
    | CobStripped(val: string)                                   // the CobblerSystem annotation is stripped
    | CobParent(val: string, seen: bool, version: nat)           // has read the owning System
    | CobParentStatused(val: string, seen: bool, version: nat)   // the System status is written

  datatype Machine = Machine(c: Cluster, spc: SystemPc, cpc: CobblerPc)

  predicate ValidFlag(val: string) {
    val == "true" || val == "false"
  }

  function Enabled(val: string): bool {
    val == "true"
  }

  function FlagText(b: bool): (val: string)
    ensures ValidFlag(val) && Enabled(val) == b
  {
    if b then "true" else "false"
  }

  // ---------------------------------------------------------------------------------------------------------------
  // The writes. Each is refused when the writer's copy is stale.
  // ---------------------------------------------------------------------------------------------------------------

  predicate Lands(w: Write, copy: nat, current: nat) {
    !w.Lost? && copy == current
  }

  function StripSystem(c: Cluster, version: nat, w: Write): Cluster {
    if Lands(w, version, c.sysVersion) then c.(sysAnn := None, sysVersion := c.sysVersion + 1) else c
  }

  function StripCobbler(c: Cluster, version: nat, w: Write): Cluster {
    if Lands(w, version, c.csVersion) then c.(csAnn := None, csVersion := c.csVersion + 1) else c
  }

  function ForwardTo(c: Cluster, val: string, version: nat, w: Write): Cluster {
    if Lands(w, version, c.csVersion) then c.(csAnn := Some(val), csVersion := c.csVersion + 1) else c
  }

  // ---------------------------------------------------------------------------------------------------------------
  // One API call of a System pass
  // ---------------------------------------------------------------------------------------------------------------

  function SystemStep(c: Cluster, pc: SystemPc, w: Write): (Cluster, SystemPc) {
    match pc
    case SysIdle =>
      (c, if c.sysAnn.None? then SysIdle else SysHas(c.sysAnn.value, c.sysVersion))
    case SysHas(val, version) =>
      if !ValidFlag(val) then (StripSystem(c, version, w), SysIdle)
      else if !w.Done? || !c.present || c.csAnn == Some(val) then (c, SysIdle)
      else (c, SysForward(val, c.csVersion))
    case SysForward(val, version) =>
      (ForwardTo(c, val, version, w), SysIdle)
  }

  // ---------------------------------------------------------------------------------------------------------------
  // One API call of a CobblerSystem pass
  // ---------------------------------------------------------------------------------------------------------------

  function StripCobblerStep(c: Cluster, val: string, version: nat, w: Write): (Cluster, CobblerPc) {
    (StripCobbler(c, version, w),
     if w.Done? && version == c.csVersion && ValidFlag(val) then CobStripped(val) else CobIdle)
  }

  function StripSystemStep(c: Cluster, seen: bool, version: nat, w: Write): (Cluster, CobblerPc) {
    (if seen then StripSystem(c, version, w) else c, CobIdle)
  }

  function CobblerStep(mode: Mode, c: Cluster, pc: CobblerPc, w: Write): (Cluster, CobblerPc) {
    match pc
    case CobIdle =>
      (c, if c.present && c.csAnn.Some? then CobRead(c.csAnn.value, c.csVersion) else CobIdle)
    case CobRead(val, version) =>
      if !ValidFlag(val) || mode.Import? then
        StripCobblerStep(c, val, version, w)
      else
        (if w.Lost? then c else c.(record := Enabled(val)),
         if w.Done? then CobApplied(val, version) else CobIdle)
    case CobApplied(val, version) =>
      if Lands(w, version, c.csVersion) then
        (c.(csStatus := Some(Enabled(val)), csVersion := c.csVersion + 1),
         if w.Done? then CobStatused(val, c.csVersion + 1) else CobIdle)
      else (c, CobIdle)
    case CobStatused(val, version) =>
      StripCobblerStep(c, val, version, w)
    case CobStripped(val) =>
      (c, if w.Done? then CobParent(val, c.sysAnn.Some?, c.sysVersion) else CobIdle)
    case CobParent(val, seen, version) =>
      if mode.Import? then
        StripSystemStep(c, seen, version, w)
      else if Lands(w, version, c.sysVersion) then
        (c.(sysStatus := Some(Enabled(val)), sysVersion := c.sysVersion + 1),
         if w.Done? then CobParentStatused(val, seen, c.sysVersion + 1) else CobIdle)
      else (c, CobIdle)
    case CobParentStatused(val, seen, version) =>
      StripSystemStep(c, seen, version, w)
  }

  // ---------------------------------------------------------------------------------------------------------------
  // Free interleaving
  // ---------------------------------------------------------------------------------------------------------------

  datatype Event =
    | UserSet(val: Option<string>)   // the user sets, overwrites or removes the System's netboot annotation
    | CobblerCreated                 // the owned CobblerSystem comes into being
    | SystemMove(w: Write)           // one API call of the System reconciler
    | CobblerMove(w: Write)          // one API call of the CobblerSystem reconciler
    // Reads from a cache that has not caught up. Each takes the place of the read that the pass makes at that point.
    | StaleSystem(copy: string, version: nat)   // a System pass starts from an earlier copy of the System
    | StaleTarget(version: nat)                 // it goes on with an earlier copy of the CobblerSystem
    | StaleCobbler(copy: string, version: nat)  // a CobblerSystem pass starts from an earlier copy of its object
    | StaleParent(seen: bool, version: nat)     // it goes on with an earlier copy of the System

  /** The values admission lets through; the reconcilers still expect others. */
  predicate Admitted(val: Option<string>) {
    val.Some? ==> ValidFlag(val.value)
  }

  predicate Pending(c: Cluster) {
    c.sysAnn.Some? && ValidFlag(c.sysAnn.value)
  }

  function Ask(c: Cluster, val: Option<string>): Cluster {
    c.(sysAnn := val, sysVersion := c.sysVersion + 1,
       intent := if val.Some? && ValidFlag(val.value) then Some(Enabled(val.value))
                 else if Pending(c) then None
                 else c.intent)
  }

  function ReadStale(m: Machine, e: Event): Machine {
    match e
    case StaleSystem(val, version) =>
      if m.spc.SysIdle? && version < m.c.sysVersion then m.(spc := SysHas(val, version)) else m
    case StaleTarget(version) =>
      if m.spc.SysHas? && ValidFlag(m.spc.val) && m.c.present && version < m.c.csVersion
      then m.(spc := SysForward(m.spc.val, version)) else m
    case StaleCobbler(val, version) =>
      if m.cpc.CobIdle? && m.c.present && version < m.c.csVersion then m.(cpc := CobRead(val, version)) else m
    case StaleParent(seen, version) =>
      if m.cpc.CobStripped? && version < m.c.sysVersion then m.(cpc := CobParent(m.cpc.val, seen, version)) else m
    case _ => m
  }

  function Next(mode: Mode, m: Machine, e: Event): Machine {
    match e
    case UserSet(val) => m.(c := Ask(m.c, val))
    case CobblerCreated => m.(c := m.c.(present := true))
    case SystemMove(w) => var (c, pc) := SystemStep(m.c, m.spc, w); Machine(c, pc, m.cpc)
    case CobblerMove(w) => var (c, pc) := CobblerStep(mode, m.c, m.cpc, w); Machine(c, m.spc, pc)
    case _ => ReadStale(m, e)
  }

  function Run(mode: Mode, m: Machine, es: seq<Event>): Machine
    decreases |es|
  {
    if es == [] then m else Run(mode, Next(mode, m, es[0]), es[1..])
  }

  lemma {:induction false} RunAppend(mode: Mode, m: Machine, a: seq<Event>, b: seq<Event>)
    ensures Run(mode, m, a + b) == Run(mode, Run(mode, m, a), b)
    decreases |a|
  {
    if a == [] {
      assert a + b == b;
    } else {
      assert (a + b)[0] == a[0] && (a + b)[1..] == a[1..] + b;
      RunAppend(mode, Next(mode, m, a[0]), a[1..], b);
    }
  }

  /** The CobblerSystem pass has stripped its own annotation and not yet the System's. */
  predicate InWindow(pc: CobblerPc) {
    pc.CobStripped? || pc.CobParent? || pc.CobParentStatused?
  }

  /** The same, and its copy of the System, if it has one, is not stale: the strip may still land. */
  predicate MayStrip(m: Machine) {
    match m.cpc
    case CobStripped(_) => true
    case CobParent(_, _, version) => version == m.c.sysVersion
    case CobParentStatused(_, _, version) => version == m.c.sysVersion
    case _ => false
  }

  /** The System reconciler is about to write the CobblerSystem annotation, and the write will land. */
  predicate Forwards(m: Machine, e: Event) {
    e.SystemMove? && m.spc.SysForward? && Lands(e.w, m.spc.version, m.c.csVersion)
  }

  /** A forward is late when the System no longer carries the forwarded value, or when the CobblerSystem pass that
      consumed it has already stripped its own copy and may still strip the System's. */
  predicate Late(m: Machine, e: Event) {
    Forwards(m, e) && (m.c.sysAnn != Some(m.spc.val) || MayStrip(m))
  }

  /** The user changes a request that has been handed over: the CobblerSystem carries another value, or its pass has
      just stripped another value and is about to read the System. */
  predicate Clobbers(m: Machine, e: Event) {
    && e.UserSet? && m.c.sysAnn.Some?
    && ((m.c.csAnn.Some? && m.c.csAnn != e.val) || (m.cpc.CobStripped? && e.val != Some(m.cpc.val)))
  }

  /** A CobblerSystem pass starts from an earlier copy whose value is not the last request, with no request pending.
      The Cobbler record has no version: the pass sets it before the conflict on its own object can stop it. */
  predicate StaleRecord(m: Machine, e: Event) {
    && e.StaleCobbler? && m.cpc.CobIdle? && m.c.present && e.version < m.c.csVersion
    && !StaleOk(m.c, e.copy)
  }

  predicate StaleOk(c: Cluster, val: string) {
    ValidFlag(val) && !Pending(c) && c.intent.Some? ==> Enabled(val) == c.intent.value
  }

  predicate Unsafe(m: Machine, e: Event) {
    Late(m, e) || Clobbers(m, e) || StaleRecord(m, e)
  }

  ghost predicate Careful(mode: Mode, m: Machine, es: seq<Event>)
    decreases |es|
  {
    es == [] || (!Unsafe(m, es[0]) && Careful(mode, Next(mode, m, es[0]), es[1..]))
  }

  predicate Quiescent(c: Cluster) {
    c.sysAnn.None? && c.csAnn.None?
  }

  /** The record and both statuses show the last requested value, if one was ever requested. */
  predicate Settled(c: Cluster) {
    c.intent.Some? ==> c.record == c.intent.value && c.csStatus == c.intent && c.sysStatus == c.intent
  }

  /** Nothing has been requested and nothing is in flight. */
  predicate Fresh(m: Machine) {
    Quiescent(m.c) && m.c.intent.None? && m.spc.SysIdle? && m.cpc.CobIdle?
  }

  // ---------------------------------------------------------------------------------------------------------------
  // The invariant
  // ---------------------------------------------------------------------------------------------------------------

  predicate ClusterInv(c: Cluster) {
    && (c.csAnn.Some? ==> c.present && ValidFlag(c.csAnn.value) && c.sysAnn == c.csAnn)
    && (if Pending(c) then c.intent == Some(Enabled(c.sysAnn.value)) else Settled(c))
  }

  predicate SystemPcInv(c: Cluster, pc: SystemPc) {
    match pc
    case SysIdle => true
    case SysHas(val, version) => version <= c.sysVersion && (version == c.sysVersion ==> c.sysAnn == Some(val))
    case SysForward(val, version) => c.present && ValidFlag(val) && version <= c.csVersion
  }

  /** What a CobblerSystem pass working on `val` has established so far. */
  predicate Progress(c: Cluster, val: string, recordDone: bool, statusDone: bool, parentDone: bool) {
    && ValidFlag(val)
    && c.present
    && c.sysAnn == Some(val)
    && (recordDone ==> c.record == Enabled(val))
    && (statusDone ==> c.csStatus == Some(Enabled(val)))
    && (parentDone ==> c.sysStatus == Some(Enabled(val)))
  }

  predicate CobblerPcInv(c: Cluster, pc: CobblerPc) {
    match pc
    case CobIdle => true
    case CobRead(val, version) =>
      && version <= c.csVersion && c.present
      && if version == c.csVersion then Progress(c, val, false, false, false) && c.csAnn == Some(val)
         else StaleOk(c, val)
    case CobApplied(val, version) =>
      && version <= c.csVersion
      && (version == c.csVersion ==> Progress(c, val, true, false, false) && c.csAnn == Some(val))
    case CobStatused(val, version) =>
      && version <= c.csVersion
      && (version == c.csVersion ==> Progress(c, val, true, true, false) && c.csAnn == Some(val))
    case CobStripped(val) => Progress(c, val, true, true, false) && c.csAnn.None?
    case CobParent(val, seen, version) =>
      && version <= c.sysVersion
      && (version == c.sysVersion ==> Progress(c, val, true, true, false) && c.csAnn.None? && seen)
    case CobParentStatused(val, seen, version) =>
      && version <= c.sysVersion
      && (version == c.sysVersion ==> Progress(c, val, true, true, true) && c.csAnn.None? && seen)
  }

  predicate Inv(m: Machine) {
    ClusterInv(m.c) && SystemPcInv(m.c, m.spc) && CobblerPcInv(m.c, m.cpc)
  }

  lemma SystemKeepsInv(m: Machine, w: Write)
    requires Inv(m) && !Late(m, SystemMove(w))
    ensures Inv(Next(Create, m, SystemMove(w)))
  {
    match m.spc
    case SysIdle =>
    case SysHas(_, _) =>
    case SysForward(_, _) =>
  }

  lemma CobblerKeepsInvOutside(m: Machine, w: Write)
    requires Inv(m) && !InWindow(m.cpc)
    ensures Inv(Next(Create, m, CobblerMove(w)))
  {
  }

  lemma CobblerKeepsInvInWindow(m: Machine, w: Write)
    requires Inv(m) && InWindow(m.cpc)
    ensures Inv(Next(Create, m, CobblerMove(w)))
  {
  }

  lemma UserKeepsInv(m: Machine, val: Option<string>)
    requires Inv(m) && !Clobbers(m, UserSet(val))
    ensures Inv(Next(Create, m, UserSet(val)))
  {
  }

  lemma StaleReadKeepsInv(m: Machine, e: Event)
    requires Inv(m) && !StaleRecord(m, e)
    ensures Inv(ReadStale(m, e))
  {
  }

  lemma NextKeepsInv(m: Machine, e: Event)
    requires Inv(m) && !Unsafe(m, e)
    ensures Inv(Next(Create, m, e))
  {
    match e
    case UserSet(val) => UserKeepsInv(m, val);
    case CobblerCreated =>
    case SystemMove(w) => SystemKeepsInv(m, w);
    case CobblerMove(w) =>
      if InWindow(m.cpc) {
        CobblerKeepsInvInWindow(m, w);
      } else {
        CobblerKeepsInvOutside(m, w);
      }
    case _ => StaleReadKeepsInv(m, e);
  }

  /** Safety over every freely interleaved run: without late forwards, changes of a request that has been handed over,
      and passes that would set the record from an earlier copy, no crash, lost write, conflict or stale read makes a
      quiescent state disagree with the last request. */
  lemma {:induction false} CarefulMeansSettled(m: Machine, es: seq<Event>)
    requires Inv(m) && Careful(Create, m, es)
    ensures Inv(Run(Create, m, es))
    ensures Quiescent(Run(Create, m, es).c) ==> Settled(Run(Create, m, es).c)
    decreases |es|
  {
    if es != [] {
      NextKeepsInv(m, es[0]);
      CarefulMeansSettled(Next(Create, m, es[0]), es[1..]);
    }
  }

  // ---------------------------------------------------------------------------------------------------------------
  // Turn taking
  // ---------------------------------------------------------------------------------------------------------------

  /** Neither reconciler makes a call while the other one is inside a pass. */
  predicate InTurn(m: Machine, e: Event) {
    && (e.SystemMove? || e.StaleSystem? || e.StaleTarget? ==> m.cpc.CobIdle?)
    && (e.CobblerMove? || e.StaleCobbler? || e.StaleParent? ==> m.spc.SysIdle?)
  }

  ghost predicate TurnTaking(mode: Mode, m: Machine, es: seq<Event>)
    decreases |es|
  {
    es == [] || (InTurn(m, es[0]) && TurnTaking(mode, Next(mode, m, es[0]), es[1..]))
  }

  /** The System pass under way may still forward the value it has read. */
  predicate MayForward(m: Machine) {
    match m.spc
    case SysIdle => false
    case SysHas(val, _) => ValidFlag(val)
    case SysForward(val, version) => ValidFlag(val) && version == m.c.csVersion
  }

  /** The user changes a request while the System reconciler is inside a pass over another value. */
  predicate HeldBySystem(m: Machine, e: Event) {
    e.UserSet? && m.c.sysAnn.Some? && MayForward(m) && e.val != Some(m.spc.val)
  }

  /** A System pass starts from an earlier copy, with a value that the System does not carry now. */
  predicate StaleHold(m: Machine, e: Event) {
    && e.StaleSystem? && m.spc.SysIdle? && e.version < m.c.sysVersion
    && ValidFlag(e.copy) && m.c.sysAnn != Some(e.copy)
  }

  /** What is unsafe under turn taking: to change a request while somebody holds another value, and to start a pass
      from an earlier copy with another value. */
  predicate TurnUnsafe(m: Machine, e: Event) {
    Clobbers(m, e) || HeldBySystem(m, e) || StaleHold(m, e) || StaleRecord(m, e)
  }

  /** A turn-taking run without such steps. */
  ghost predicate CarefulTurns(m: Machine, es: seq<Event>)
    decreases |es|
  {
    es == [] ||
    (InTurn(m, es[0]) && !TurnUnsafe(m, es[0]) && CarefulTurns(Next(Create, m, es[0]), es[1..]))
  }

  /** While it is the System reconciler's turn, a value it may forward is what the System carries. */
  predicate TurnInv(m: Machine) {
    && Inv(m)
    && (!m.spc.SysIdle? ==> m.cpc.CobIdle?)
    && (MayForward(m) ==> m.c.sysAnn == Some(m.spc.val))
  }

  lemma TurnKeepsTurnInv(m: Machine, e: Event)
    requires TurnInv(m) && !TurnUnsafe(m, e) && InTurn(m, e)
    ensures !Unsafe(m, e) && TurnInv(Next(Create, m, e))
  {
    NextKeepsInv(m, e);
  }

  lemma {:induction false} CarefulTurnsAreCareful(m: Machine, es: seq<Event>)
    requires TurnInv(m) && CarefulTurns(m, es)
    ensures Careful(Create, m, es)
    decreases |es|
  {
    if es != [] {
      TurnKeepsTurnInv(m, es[0]);
      CarefulTurnsAreCareful(Next(Create, m, es[0]), es[1..]);
    }
  }

  /** The promise of the hand-off: from a state in which nothing was asked for, whatever the two reconcilers do in
      turns and wherever their passes crash, a state without annotations shows the last requested value everywhere.
      The user may change a request as long as neither the CobblerSystem nor a pass holds another value, and reads may
      be stale as long as no pass starts with another value. */
  lemma TurnTakingLosesNothing(m: Machine, es: seq<Event>)
    requires Fresh(m) && CarefulTurns(m, es)
    ensures Quiescent(Run(Create, m, es).c) ==> Settled(Run(Create, m, es).c)
  {
    CarefulTurnsAreCareful(m, es);
    CarefulMeansSettled(m, es);
  }

  // ---------------------------------------------------------------------------------------------------------------
  // One undisturbed CobblerSystem pass
  // ---------------------------------------------------------------------------------------------------------------

  /** A CobblerSystem pass is under way for `val`, and no copy it holds is stale. */
  predicate Ready(m: Machine, val: string) {
    && ValidFlag(val)
    && var b := Some(Enabled(val));
    match m.cpc
    case CobIdle => false
    case CobRead(v, version) => v == val && version == m.c.csVersion
    case CobApplied(v, version) => v == val && version == m.c.csVersion && Some(m.c.record) == b
    case CobStatused(v, version) => v == val && version == m.c.csVersion && Some(m.c.record) == b == m.c.csStatus
    case CobStripped(v) => v == val && m.c.csAnn.None? && Some(m.c.record) == b == m.c.csStatus
    case CobParent(v, seen, version) =>
      && v == val && m.c.csAnn.None? && Some(m.c.record) == b == m.c.csStatus
      && seen == m.c.sysAnn.Some? && version == m.c.sysVersion
    case CobParentStatused(v, seen, version) =>
      && v == val && m.c.csAnn.None? && Some(m.c.record) == b == m.c.csStatus && m.c.sysStatus == b
      && seen == m.c.sysAnn.Some? && version == m.c.sysVersion
  }

  function CallsLeft(pc: CobblerPc): nat {
    match pc
    case CobIdle => 0
    case CobRead(_, _) => 6
    case CobApplied(_, _) => 5
    case CobStatused(_, _) => 4
    case CobStripped(_) => 3
    case CobParent(_, _, _) => 2
    case CobParentStatused(_, _, _) => 1
  }

  /** `f` is `m` after `val` has been applied everywhere and consumed. */
  predicate Consumed(m: Machine, val: string, f: Machine) {
    && f.cpc.CobIdle? && f.spc == m.spc && f.c.intent == m.c.intent
    && Quiescent(f.c)
    && f.c.record == Enabled(val)
    && f.c.csStatus == f.c.sysStatus == Some(Enabled(val))
  }

  /** `n` undisturbed calls of the CobblerSystem reconciler. */
  function Calls(n: nat): seq<Event> {
    if n == 0 then [] else [CobblerMove(Done)] + Calls(n - 1)
  }

  lemma {:induction false} FinishPass(m: Machine, val: string)
    requires Ready(m, val)
    ensures Careful(Create, m, Calls(CallsLeft(m.cpc)))
    ensures m.spc.SysIdle? ==> CarefulTurns(m, Calls(CallsLeft(m.cpc)))
    ensures Consumed(m, val, Run(Create, m, Calls(CallsLeft(m.cpc))))
    decreases CallsLeft(m.cpc)
  {
    var n := CallsLeft(m.cpc);
    var m' := Next(Create, m, CobblerMove(Done));
    assert Calls(n)[1..] == Calls(n - 1);
    if n > 1 {
      FinishPass(m', val);
    }
  }

  /** A pass that starts on an annotated CobblerSystem and is not disturbed consumes the value in seven calls. */
  lemma WholePass(m: Machine, val: string)
    requires m.cpc.CobIdle? && m.c.present && ValidFlag(val) && m.c.csAnn == Some(val)
    ensures Careful(Create, m, Calls(7))
    ensures m.spc.SysIdle? ==> CarefulTurns(m, Calls(7))
    ensures Consumed(m, val, Run(Create, m, Calls(7)))
  {
    assert Calls(7)[1..] == Calls(6);
    FinishPass(Next(Create, m, CobblerMove(Done)), val);
  }

  /** The three undisturbed calls of a System pass that forwards. */
  function SystemCalls(): seq<Event> {
    [SystemMove(Done), SystemMove(Done), SystemMove(Done)]
  }

  /** No intent is stuck either: from any state reachable in turns, one undisturbed System pass and one undisturbed
      CobblerSystem pass realize the pending request and consume both annotations. */
  lemma TwoPassesComplete(c: Cluster)
    requires ClusterInv(c) && Pending(c) && c.present
    ensures var f := Run(Create, Machine(c, SysIdle, CobIdle), SystemCalls() + Calls(7)).c;
            c.csAnn.None? ==> f.intent == c.intent && Quiescent(f) && Settled(f)
    ensures var f := Run(Create, Machine(c, SysIdle, CobIdle), Calls(7)).c;
            c.csAnn.Some? ==> f.intent == c.intent && Quiescent(f) && Settled(f)
  {
    var m := Machine(c, SysIdle, CobIdle);
    if c.csAnn.Some? {
      WholePass(m, c.csAnn.value);
    } else {
      var m1 := Next(Create, m, SystemMove(Done));
      var m2 := Next(Create, m1, SystemMove(Done));
      var m3 := Next(Create, m2, SystemMove(Done));
      RunAppend(Create, m, SystemCalls(), Calls(7));
      RunThree(m, SystemCalls());
      WholePass(m3, c.sysAnn.value);
    }
  }

  // ---------------------------------------------------------------------------------------------------------------
  // The unsafe steps
  // ---------------------------------------------------------------------------------------------------------------

  /** A run without further unsafe steps that ends without annotations and without the last request. */
  ghost predicate Loses(m: Machine, es: seq<Event>) {
    && Careful(Create, m, es)
    && var f := Run(Create, m, es).c;
    Quiescent(f) && !Settled(f)
  }

  ghost predicate LosesInTurns(m: Machine, es: seq<Event>) {
    && CarefulTurns(m, es)
    && var f := Run(Create, m, es).c;
    Quiescent(f) && !Settled(f)
  }

  lemma LosesBefore(m: Machine, e: Event, es: seq<Event>)
    requires Loses(Next(Create, m, e), es) && !Unsafe(m, e)
    ensures Loses(m, [e] + es)
  {
    assert ([e] + es)[1..] == es;
  }

  lemma LosesInTurnsBefore(m: Machine, e: Event, es: seq<Event>)
    requires LosesInTurns(Next(Create, m, e), es) && !TurnUnsafe(m, e) && InTurn(m, e)
    ensures LosesInTurns(m, [e] + es)
  {
    assert ([e] + es)[1..] == es;
  }

  /** The CobblerSystem carries a value the System does not carry, between passes. */
  predicate Orphaned(m: Machine) {
    && m.spc.SysIdle? && m.cpc.CobIdle? && m.c.present
    && m.c.csAnn.Some? && ValidFlag(m.c.csAnn.value) && m.c.sysAnn != m.c.csAnn
    && (Pending(m.c) ==> m.c.intent == Some(Enabled(m.c.sysAnn.value)))
  }

  /** The newer value, set by the user while the orphan waits, is deleted by the pass that consumes the orphan. */
  lemma OrphanLoses(m: Machine) returns (es: seq<Event>)
    requires Orphaned(m)
    ensures Loses(m, es) && LosesInTurns(m, es)
    decreases m.c.sysAnn.Some?
  {
    var val := m.c.csAnn.value;
    if Pending(m.c) {
      es := Calls(7);
      WholePass(m, val);
    } else if m.c.sysAnn.None? {
      var ask := UserSet(Some(FlagText(!Enabled(val))));
      WholePass(Next(Create, m, ask), val);
      es := [ask] + Calls(7);
      LosesBefore(m, ask, Calls(7));
      LosesInTurnsBefore(m, ask, Calls(7));
    } else {
      var move := SystemMove(Done);
      var m1 := Next(Create, m, move);
      var rest := OrphanLoses(Next(Create, m1, move));
      LosesBefore(m1, move, rest);
      LosesInTurnsBefore(m1, move, rest);
      LosesBefore(m, move, [move] + rest);
      LosesInTurnsBefore(m, move, [move] + rest);
      es := [move] + ([move] + rest);
    }
  }

  /** The CobblerSystem carries a value the System does not carry, and any pass under way still has to find out: every
      write of a CobblerSystem pass that could touch the System works from a stale copy. */
  predicate OrphanedUnderway(m: Machine) {
    && m.c.present && !MayStrip(m)
    && m.c.csAnn.Some? && ValidFlag(m.c.csAnn.value) && m.c.sysAnn != m.c.csAnn
    && (Pending(m.c) ==> m.c.intent == Some(Enabled(m.c.sysAnn.value)))
  }

  /** Both passes may crash here, after which the orphan is there between passes. */
  lemma CrashedOrphanLoses(m: Machine) returns (es: seq<Event>)
    requires OrphanedUnderway(m)
    ensures Loses(m, es)
    ensures m.spc.SysIdle? || m.cpc.CobIdle? ==> LosesInTurns(m, es)
    decreases !m.cpc.CobIdle?
  {
    var cob, sys := CobblerMove(Lost), SystemMove(Lost);
    if !m.cpc.CobIdle? {
      var rest := CrashedOrphanLoses(Next(Create, m, cob));
      LosesBefore(m, cob, rest);
      if m.spc.SysIdle? {
        LosesInTurnsBefore(m, cob, rest);
      }
      es := [cob] + rest;
    } else if !m.spc.SysIdle? {
      var rest := OrphanLoses(Next(Create, m, sys));
      LosesBefore(m, sys, rest);
      LosesInTurnsBefore(m, sys, rest);
      es := [sys] + rest;
    } else {
      es := OrphanLoses(m);
    }
  }

  lemma {:induction false} StripsParent(m: Machine)
    requires InWindow(m.cpc) && m.c.sysAnn.Some?
    requires !m.cpc.CobStripped? ==> m.cpc.seen && m.cpc.version == m.c.sysVersion
    ensures Careful(Create, m, Calls(CallsLeft(m.cpc)))
    ensures var f := Run(Create, m, Calls(CallsLeft(m.cpc)));
            && f.cpc.CobIdle? && f.spc == m.spc && f.c.sysAnn.None?
            && f.c.csAnn == m.c.csAnn && f.c.present == m.c.present
    decreases CallsLeft(m.cpc)
  {
    var n := CallsLeft(m.cpc);
    assert Calls(n)[1..] == Calls(n - 1);
    if n > 1 {
      StripsParent(Next(Create, m, CobblerMove(Done)));
    }
  }

  /** A late forward leaves a value on the CobblerSystem that the System does not carry, or will not carry once the
      current CobblerSystem pass has stripped it. */
  lemma LateForwardLoses(m: Machine, e: Event) returns (es: seq<Event>)
    requires Inv(m) && Late(m, e)
    ensures Loses(Next(Create, m, e), es)
  {
    var m' := Next(Create, m, e);
    if MayStrip(m') {
      StripsParent(m');
      var calls := Calls(CallsLeft(m'.cpc));
      var rest := OrphanLoses(Run(Create, m', calls));
      es := calls + rest;
      RunAppend(Create, m', calls, rest);
      CarefulAppend(m', calls, rest);
    } else {
      es := CrashedOrphanLoses(m');
    }
  }

  lemma {:induction false} CarefulAppend(m: Machine, a: seq<Event>, b: seq<Event>)
    requires Careful(Create, m, a) && Careful(Create, Run(Create, m, a), b)
    ensures Careful(Create, m, a + b)
    decreases |a|
  {
    if a == [] {
      assert a + b == b;
    } else {
      assert (a + b)[0] == a[0] && (a + b)[1..] == a[1..] + b;
      CarefulAppend(Next(Create, m, a[0]), a[1..], b);
    }
  }

  /** The CobblerSystem pass has stripped `val` from its own object, has not yet read the System, and the System
      carries something else by now. */
  predicate StripsAnother(m: Machine, val: string) {
    && m.cpc == CobStripped(val) && Ready(m, val) && m.c.sysAnn != Some(val)
    && (Pending(m.c) ==> m.c.intent == Some(Enabled(m.c.sysAnn.value)))
  }

  /** The pass strips the newer request unapplied; if there is none yet, the user may still make one. */
  lemma StripLoses(m: Machine, val: string) returns (es: seq<Event>)
    requires StripsAnother(m, val) && (m.c.sysAnn.None? || Pending(m.c))
    ensures Loses(m, es)
    ensures m.spc.SysIdle? ==> LosesInTurns(m, es)
  {
    if Pending(m.c) {
      es := Calls(3);
      FinishPass(m, val);
    } else {
      var ask := UserSet(Some(FlagText(!Enabled(val))));
      var m' := Next(Create, m, ask);
      FinishPass(m', val);
      LosesBefore(m, ask, Calls(3));
      if m.spc.SysIdle? {
        LosesInTurnsBefore(m, ask, Calls(3));
      }
      es := [ask] + Calls(3);
    }
  }

  /** A malformed value is stripped by the System reconciler first. */
  lemma StripLosesAfterMalformed(m: Machine, val: string) returns (es: seq<Event>)
    requires StripsAnother(m, val)
    ensures Loses(m, es)
    decreases m.c.sysAnn.Some? && !Pending(m.c), !m.spc.SysIdle?
  {
    if m.c.sysAnn.None? || Pending(m.c) {
      es := StripLoses(m, val);
    } else if !m.spc.SysIdle? {
      var move := SystemMove(Lost);
      var rest := StripLosesAfterMalformed(Next(Create, m, move), val);
      LosesBefore(m, move, rest);
      es := [move] + rest;
    } else {
      var move := SystemMove(Done);
      var m1 := Next(Create, m, move);
      var rest := StripLosesAfterMalformed(Next(Create, m1, move), val);
      LosesBefore(m1, move, rest);
      LosesBefore(m, move, [move] + rest);
      es := [move] + ([move] + rest);
    }
  }

  /** A request changed after it has been handed over can be lost. */
  lemma ClobberLoses(m: Machine, e: Event) returns (es: seq<Event>)
    requires Inv(m) && Clobbers(m, e)
    ensures Loses(Next(Create, m, e), es)
    ensures (m.spc.SysIdle? || m.cpc.CobIdle?) && Admitted(e.val) ==> LosesInTurns(Next(Create, m, e), es)
  {
    var m' := Next(Create, m, e);
    if m.c.csAnn.Some? && m.c.csAnn != e.val {
      es := CrashedOrphanLoses(m');
    } else if Admitted(e.val) {
      es := StripLoses(m', m.cpc.val);
    } else {
      es := StripLosesAfterMalformed(m', m.cpc.val);
    }
  }

  /** Between CobblerSystem passes nothing is pending and the record is not what was last asked for. */
  predicate WrongRecord(m: Machine) {
    && m.cpc.CobIdle? && m.c.csAnn.None? && !Pending(m.c)
    && m.c.intent.Some? && m.c.record != m.c.intent.value
  }

  lemma WrongRecordLoses(m: Machine) returns (es: seq<Event>)
    requires WrongRecord(m)
    ensures Loses(m, es) && LosesInTurns(m, es)
    decreases m.c.sysAnn.Some?, !m.spc.SysIdle?
  {
    if m.c.sysAnn.None? {
      es := [];
    } else if !m.spc.SysIdle? {
      var move := SystemMove(Lost);
      var rest := WrongRecordLoses(Next(Create, m, move));
      LosesBefore(m, move, rest);
      LosesInTurnsBefore(m, move, rest);
      es := [move] + rest;
    } else {
      var move := SystemMove(Done);
      var m1 := Next(Create, m, move);
      var rest := WrongRecordLoses(Next(Create, m1, move));
      LosesBefore(m1, move, rest);
      LosesInTurnsBefore(m1, move, rest);
      LosesBefore(m, move, [move] + rest);
      LosesInTurnsBefore(m, move, [move] + rest);
      es := [move] + ([move] + rest);
    }
  }

  /** A pass from an earlier copy sets the record, and stops at the conflict on its own object. */
  lemma StaleRecordLoses(m: Machine, e: Event) returns (es: seq<Event>)
    requires Inv(m) && StaleRecord(m, e)
    ensures Loses(Next(Create, m, e), es)
    ensures m.spc.SysIdle? ==> LosesInTurns(Next(Create, m, e), es)
  {
    var m' := Next(Create, m, e);
    var sets := CobblerMove(Cut);
    var rest := WrongRecordLoses(Next(Create, m', sets));
    LosesBefore(m', sets, rest);
    if m.spc.SysIdle? {
      LosesInTurnsBefore(m', sets, rest);
    }
    es := [sets] + rest;
  }

  /** The exact condition under free interleaving: after a step, some continuation (free of further unsafe steps)
      loses the user's last request if and only if the step was a late forward, changed a request that had been handed
      over, or began a CobblerSystem pass that will set the record from an earlier copy. */
  lemma LosesIffUnsafe(m: Machine, e: Event)
    requires Inv(m)
    ensures Unsafe(m, e) <==> exists es :: Loses(Next(Create, m, e), es)
  {
    if Late(m, e) {
      var es := LateForwardLoses(m, e);
    } else if Clobbers(m, e) {
      var es := ClobberLoses(m, e);
    } else if StaleRecord(m, e) {
      var es := StaleRecordLoses(m, e);
    } else {
      NextKeepsInv(m, e);
      forall es | Loses(Next(Create, m, e), es)
        ensures false
      {
        CarefulMeansSettled(Next(Create, m, e), es);
      }
    }
  }

  /** A System pass that has read a value forwards it although the user has changed it since. */
  lemma HeldValueLoses(m: Machine, e: Event) returns (es: seq<Event>)
    requires TurnInv(m) && HeldBySystem(m, e) && !Clobbers(m, e)
    ensures LosesInTurns(Next(Create, m, e), es)
  {
    var m' := Next(Create, m, e);
    es := HeldForwardLoses(m', m.spc.val);
  }

  lemma HeldForwardLoses(m: Machine, held: string) returns (es: seq<Event>)
    requires m.cpc.CobIdle? && m.c.csAnn != Some(held) && ValidFlag(held) && m.c.sysAnn != Some(held)
    requires Pending(m.c) ==> m.c.intent == Some(Enabled(m.c.sysAnn.value))
    requires match m.spc
             case SysIdle => false
             case SysHas(val, _) => val == held
             case SysForward(val, version) => val == held && version == m.c.csVersion && m.c.present
    ensures LosesInTurns(m, es)
    decreases m.spc.SysHas?, !m.c.present
  {
    var e := if !m.c.present then CobblerCreated else SystemMove(Done);
    var m' := Next(Create, m, e);
    var rest;
    if m'.spc.SysIdle? {
      rest := OrphanLoses(m');
    } else {
      rest := HeldForwardLoses(m', held);
    }
    LosesInTurnsBefore(m, e, rest);
    es := [e] + rest;
  }

  /** A System pass that starts from an earlier copy forwards what the System does not carry. */
  lemma StaleHoldLoses(m: Machine, e: Event) returns (es: seq<Event>)
    requires TurnInv(m) && StaleHold(m, e) && m.cpc.CobIdle?
    ensures LosesInTurns(Next(Create, m, e), es)
  {
    es := HeldForwardLoses(Next(Create, m, e), e.copy);
  }

  /** The exact condition under turn taking, for every step of a reconciler and for every value that admission lets
      the user set: some turn-taking continuation (without further unsafe steps) loses the last request if and only if
      the step changed a request while the CobblerSystem, or a pass that has read it, held another value, or started a
      pass from an earlier copy with another value. */
  lemma LosesInTurnsIffHeld(m: Machine, e: Event)
    requires TurnInv(m) && InTurn(m, e) && (e.UserSet? ==> Admitted(e.val))
    ensures TurnUnsafe(m, e) <==> exists es :: LosesInTurns(Next(Create, m, e), es)
  {
    if Clobbers(m, e) {
      var es := ClobberLoses(m, e);
    } else if HeldBySystem(m, e) {
      var es := HeldValueLoses(m, e);
    } else if StaleHold(m, e) {
      var es := StaleHoldLoses(m, e);
    } else if StaleRecord(m, e) {
      var es := StaleRecordLoses(m, e);
    } else {
      TurnKeepsTurnInv(m, e);
      forall es | LosesInTurns(Next(Create, m, e), es)
        ensures false
      {
        CarefulTurnsAreCareful(Next(Create, m, e), es);
        CarefulMeansSettled(Next(Create, m, e), es);
      }
    }
  }

  /** A state between passes is safe for turn taking exactly when the CobblerSystem carries nothing the System does
      not: otherwise some turn-taking run loses a request. */
  lemma TurnsLoseIffOrphaned(m: Machine)
    requires m.spc.SysIdle? && m.cpc.CobIdle? && m.c.present
    requires m.c.csAnn.Some? ==> ValidFlag(m.c.csAnn.value)
    requires Pending(m.c) ==> m.c.intent == Some(Enabled(m.c.sysAnn.value))
    requires !Pending(m.c) ==> Settled(m.c)
    ensures m.c.csAnn.Some? && m.c.sysAnn != m.c.csAnn <==> exists es :: LosesInTurns(m, es)
  {
    if Orphaned(m) {
      var es := OrphanLoses(m);
    } else {
      forall es | LosesInTurns(m, es)
        ensures false
      {
        CarefulTurnsAreCareful(m, es);
        CarefulMeansSettled(m, es);
      }
    }
  }

  predicate NothingFails(es: seq<Event>) {
    forall e :: e in es ==> (e.SystemMove? ==> e.w.Done?) && (e.CobblerMove? ==> e.w.Done?)
  }

  lemma {:induction false} CallsNeverFail(n: nat)
    ensures NothingFails(Calls(n))
  {
    if n > 0 {
      CallsNeverFail(n - 1);
    }
  }

  lemma {:induction false} CarefulTurnsTakeTurns(m: Machine, es: seq<Event>)
    requires CarefulTurns(m, es)
    ensures TurnTaking(Create, m, es)
    decreases |es|
  {
    if es != [] {
      CarefulTurnsTakeTurns(Next(Create, m, es[0]), es[1..]);
    }
  }

  lemma {:induction false} SystemTurnFirst(m: Machine, a: seq<Event>, b: seq<Event>)
    requires m.cpc.CobIdle? && forall e :: e in a ==> e.UserSet? || e.SystemMove?
    requires TurnTaking(Create, Run(Create, m, a), b)
    ensures TurnTaking(Create, m, a + b)
    decreases |a|
  {
    if a == [] {
      assert a + b == b;
    } else {
      assert (a + b)[0] == a[0] && (a + b)[1..] == a[1..] + b;
      assert a[0] in a && forall e :: e in a[1..] ==> e in a;
      SystemTurnFirst(Next(Create, m, a[0]), a[1..], b);
    }
  }

  /** An overwritten request lost in turns, without crash, conflict or late forward: the user asks for true, the
      System reconciler forwards it, the user changes the request to false, and the CobblerSystem pass applies true
      and strips both annotations. */
  lemma OverwriteLosesInTurns(c: Cluster) returns (es: seq<Event>)
    requires Quiescent(c) && c.intent.None? && c.present
    ensures var m := Machine(c, SysIdle, CobIdle); var f := Run(Create, m, es).c;
            && TurnTaking(Create, m, es) && NothingFails(es)
            && Quiescent(f) && f.intent == Some(false) && f.record && f.csStatus == f.sysStatus == Some(true)
  {
    var m := Machine(c, SysIdle, CobIdle);
    var sys, overwrite := SystemMove(Done), UserSet(Some("false"));
    var asked := [UserSet(Some("true")), sys, sys, sys];
    RunFour(m, asked);
    var m1 := Run(Create, m, asked);
    var m2 := Next(Create, m1, overwrite);
    WholePass(m2, "true");
    CarefulTurnsTakeTurns(m2, Calls(7));
    CallsNeverFail(7);
    var rest := [overwrite] + Calls(7);
    assert rest[1..] == Calls(7);
    es := asked + rest;
    RunAppend(Create, m, asked, rest);
    SystemTurnFirst(m, asked, rest);
  }

  /** A freely interleaved run from a fresh cluster that loses the newer value: the System reconciler reads its
      annotation, the CobblerSystem pass applies and strips its copy, the System reconciler forwards the same value
      again, and the pass goes on to strip the System. The user's next request is then deleted unapplied. */
  lemma FreeInterleavingLosesARequest(c: Cluster)
    returns (es: seq<Event>)
    requires Quiescent(c) && c.intent.None? && c.present
    ensures var f := Run(Create, Machine(c, SysIdle, CobIdle), es).c;
            Quiescent(f) && f.intent == Some(false) && f.record && f.csStatus == f.sysStatus == Some(true)
  {
    var m := Machine(c, SysIdle, CobIdle);
    var sys, cob := SystemMove(Done), CobblerMove(Done);
    var forward := [UserSet(Some("true")), sys, sys, sys];
    var apply := [cob, cob, cob, cob];
    var again := [sys, sys, sys];
    var m1 := Run(Create, m, forward);
    assert m1.c.csAnn == m1.c.sysAnn == Some("true") && m1.spc.SysIdle? && m1.cpc.CobIdle? && m1.c.present by {
      RunFour(m, forward);
    }
    var m2 := Run(Create, m1, apply);
    assert m2.cpc == CobStripped("true") && m2.c.sysAnn == Some("true") && m2.c.csAnn.None? && m2.spc.SysIdle?
        && m2.c.present by {
      RunFour(m1, apply);
    }
    var m3 := Run(Create, m2, again);
    assert m3.cpc == CobStripped("true") && m3.c.sysAnn == m3.c.csAnn == Some("true") && m3.spc.SysIdle?
        && m3.c.present by {
      RunThree(m2, again);
    }
    StripsParent(m3);
    var m4 := Run(Create, m3, Calls(3));
    var m5 := Next(Create, m4, UserSet(Some("false")));
    WholePass(m5, "true");
    es := forward + (apply + (again + (Calls(3) + ([UserSet(Some("false"))] + Calls(7)))));
    assert ([UserSet(Some("false"))] + Calls(7))[1..] == Calls(7);
    RunAppend(Create, m3, Calls(3), [UserSet(Some("false"))] + Calls(7));
    RunAppend(Create, m2, again, Calls(3) + ([UserSet(Some("false"))] + Calls(7)));
    RunAppend(Create, m1, apply, again + (Calls(3) + ([UserSet(Some("false"))] + Calls(7))));
    RunAppend(Create, m, forward, apply + (again + (Calls(3) + ([UserSet(Some("false"))] + Calls(7)))));
  }

  lemma RunThree(m: Machine, es: seq<Event>)
    requires |es| == 3
    ensures Run(Create, m, es) == Next(Create, Next(Create, Next(Create, m, es[0]), es[1]), es[2])
  {
    var m1 := Next(Create, m, es[0]);
    var m2 := Next(Create, m1, es[1]);
    var m3 := Next(Create, m2, es[2]);
    assert es == [es[0]] + ([es[1]] + [es[2]]);
    RunAppend(Create, m, [es[0]], [es[1]] + [es[2]]);
    RunAppend(Create, m1, [es[1]], [es[2]]);
    assert Run(Create, m, [es[0]]) == m1 && Run(Create, m1, [es[1]]) == m2 && Run(Create, m2, [es[2]]) == m3;
  }

  lemma RunFour(m: Machine, es: seq<Event>)
    requires |es| == 4
    ensures Run(Create, m, es) ==
            Next(Create, Next(Create, Next(Create, Next(Create, m, es[0]), es[1]), es[2]), es[3])
  {
    RunThree(Next(Create, m, es[0]), es[1..]);
  }

  // ---------------------------------------------------------------------------------------------------------------
  // Import mode
  // ---------------------------------------------------------------------------------------------------------------

  /** An imported record is only observed: no run, however interleaved, touches it or either status. */
  lemma {:induction false} ImportNeverMutates(m: Machine, es: seq<Event>)
    requires !m.cpc.CobApplied?
    ensures var f := Run(Import, m, es);
            f.c.record == m.c.record && f.c.csStatus == m.c.csStatus && f.c.sysStatus == m.c.sysStatus
    decreases |es|
  {
    if es != [] {
      ImportNeverMutates(Next(Import, m, es[0]), es[1..]);
    }
  }

  /** An imported record is left alone and the request is consumed: four undisturbed calls strip the CobblerSystem and
      then the System, whatever the System carries, and change nothing else. */
  lemma ImportPassConsumes(m: Machine, val: string)
    requires m.cpc.CobIdle? && m.c.present && ValidFlag(val) && m.c.csAnn == Some(val)
    ensures var f := Run(Import, m, Calls(4));
            && f.cpc.CobIdle? && f.spc == m.spc && Quiescent(f.c)
            && f.c == m.c.(csAnn := None, csVersion := m.c.csVersion + 1, sysAnn := None,
                           sysVersion := m.c.sysVersion + if m.c.sysAnn.Some? then 1 else 0)
  {
    var call := CobblerMove(Done);
    var read := Next(Import, m, call);
    var stripped := Next(Import, read, call);
    var parent := Next(Import, stripped, call);
    assert stripped.cpc == CobStripped(val);
    CallsUnroll(Import, m, 3);
    CallsUnroll(Import, read, 2);
    CallsUnroll(Import, stripped, 1);
    CallsUnroll(Import, parent, 0);
  }

  /** A value that is no flag leaves the CobblerSystem, in either mode, and nothing else happens. */
  lemma MalformedValueIsStripped(mode: Mode, m: Machine, val: string)
    requires m.cpc.CobIdle? && m.c.present && !ValidFlag(val) && m.c.csAnn == Some(val)
    ensures Run(mode, m, Calls(2)) == m.(c := m.c.(csAnn := None, csVersion := m.c.csVersion + 1))
  {
    CallsUnroll(mode, m, 1);
    CallsUnroll(mode, Next(mode, m, CobblerMove(Done)), 0);
  }

  lemma CallsUnroll(mode: Mode, m: Machine, n: nat)
    ensures Run(mode, m, Calls(n + 1)) == Run(mode, Next(mode, m, CobblerMove(Done)), Calls(n))
  {
    assert Calls(n + 1)[1..] == Calls(n);
  }

  // ---------------------------------------------------------------------------------------------------------------
  // Whole passes
  // ---------------------------------------------------------------------------------------------------------------

  /** A CobblerSystem pass from `pc` on; the script gives the fate of its calls and the pass crashes where it ends. */
  function CobblerPass(mode: Mode, c: Cluster, pc: CobblerPc, ws: seq<Write>): Cluster
    decreases |ws|
  {
    if ws == [] then c
    else
      var (c', pc') := CobblerStep(mode, c, pc, ws[0]);
      if pc'.CobIdle? then c' else CobblerPass(mode, c', pc', ws[1..])
  }

  /** A System pass from `pc` on. */
  function SystemPass(c: Cluster, pc: SystemPc, ws: seq<Write>): Cluster
    decreases |ws|
  {
    if ws == [] then c
    else
      var (c', pc') := SystemStep(c, pc, ws[0]);
      if pc'.SysIdle? then c' else SystemPass(c', pc', ws[1..])
  }

  /** A whole pass, crashed or not, is a turn-taking run of the machine that leaves both reconcilers idle. */
  lemma {:induction false} CobblerPassIsTurn(mode: Mode, c: Cluster, pc: CobblerPc, ws: seq<Write>)
    returns (es: seq<Event>)
    ensures var m := Machine(c, SysIdle, pc);
            TurnTaking(mode, m, es) && Run(mode, m, es) == Machine(CobblerPass(mode, c, pc, ws), SysIdle, CobIdle)
    decreases |ws|
  {
    var m := Machine(c, SysIdle, pc);
    if ws == [] {
      if pc.CobIdle? {
        es := [];
      } else {
        es := [CobblerMove(Lost)];
        assert Next(mode, m, es[0]) == Machine(c, SysIdle, CobIdle);
        assert es[1..] == [];
      }
    } else {
      var m' := Next(mode, m, CobblerMove(ws[0]));
      var rest := [];
      if !m'.cpc.CobIdle? {
        rest := CobblerPassIsTurn(mode, m'.c, m'.cpc, ws[1..]);
      }
      es := [CobblerMove(ws[0])] + rest;
      assert es[1..] == rest;
    }
  }

  lemma {:induction false} SystemPassIsTurn(mode: Mode, c: Cluster, pc: SystemPc, ws: seq<Write>)
    returns (es: seq<Event>)
    ensures var m := Machine(c, pc, CobIdle);
            TurnTaking(mode, m, es) && Run(mode, m, es) == Machine(SystemPass(c, pc, ws), SysIdle, CobIdle)
    decreases |ws|
  {
    var m := Machine(c, pc, CobIdle);
    if ws == [] {
      if pc.SysIdle? {
        es := [];
      } else {
        es := [SystemMove(Lost)];
        assert Next(mode, m, es[0]) == Machine(c, SysIdle, CobIdle);
        assert es[1..] == [];
      }
    } else {
      var m' := Next(mode, m, SystemMove(ws[0]));
      var rest := [];
      if !m'.spc.SysIdle? {
        rest := SystemPassIsTurn(mode, m'.c, m'.spc, ws[1..]);
      }
      es := [SystemMove(ws[0])] + rest;
      assert es[1..] == rest;
    }
  }
}
