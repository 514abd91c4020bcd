/** The two netboot reconcilers as they run, on mutable API objects. Each pass is proved to be the corresponding pass
    of the protocol machine; each fate in a script is consumed by the next API call, and the pass crashes where the
    script ends. */
module NetbootReconcilers {
  import opened Common
  import opened NetbootProtocol

  class SystemObject {
    var annotation: Option<string>
    var netbootEnabled: Option<bool>
    var version: nat
    ghost var requested: Option<bool>

    /** Updates the object from a copy whose netboot annotation has been deleted. */
    method UpdateStripped(copy: nat, w: Write) returns (ok: bool)
      modifies this`annotation, this`version
      ensures ok == (w.Done? && copy == old(version))
      ensures annotation == (if Lands(w, copy, old(version)) then None else old(annotation))
      ensures version == (if Lands(w, copy, old(version)) then old(version) + 1 else old(version))
    {
      ok := w.Done? && copy == version;
      if Lands(w, copy, version) {
        annotation, version := None, version + 1;
      }
    }

    method UpdateStatus(copy: nat, enabled: bool, w: Write) returns (ok: bool)
      modifies this`netbootEnabled, this`version
      ensures ok == (w.Done? && copy == old(version))
      ensures netbootEnabled == (if Lands(w, copy, old(version)) then Some(enabled) else old(netbootEnabled))
      ensures version == (if Lands(w, copy, old(version)) then old(version) + 1 else old(version))
    {
      ok := w.Done? && copy == version;
      if Lands(w, copy, version) {
        netbootEnabled, version := Some(enabled), version + 1;
      }
    }
  }

  class CobblerSystemObject {
    var present: bool
    var annotation: Option<string>
    var netbootEnabled: Option<bool>
    var version: nat

    /** Updates the object from a copy that carries `value` as its netboot annotation. */
    method UpdateAnnotation(copy: nat, value: Option<string>, w: Write) returns (ok: bool)
      modifies this`annotation, this`version
      ensures ok == (w.Done? && copy == old(version))
      ensures annotation == (if Lands(w, copy, old(version)) then value else old(annotation))
      ensures version == (if Lands(w, copy, old(version)) then old(version) + 1 else old(version))
    {
      ok := w.Done? && copy == version;
      if Lands(w, copy, version) {
        annotation, version := value, version + 1;
      }
    }

    method UpdateStatus(copy: nat, enabled: bool, w: Write) returns (ok: bool)
      modifies this`netbootEnabled, this`version
      ensures ok == (w.Done? && copy == old(version))
      ensures netbootEnabled == (if Lands(w, copy, old(version)) then Some(enabled) else old(netbootEnabled))
      ensures version == (if Lands(w, copy, old(version)) then old(version) + 1 else old(version))
    {
      ok := w.Done? && copy == version;
      if Lands(w, copy, version) {
        netbootEnabled, version := Some(enabled), version + 1;
      }
    }
  }

  class CobblerRecord {
    var netboot: bool

    method SetNetboot(enabled: bool, w: Write) returns (ok: bool)
      modifies this
      ensures ok == w.Done?
      ensures netboot == (if w.Lost? then old(netboot) else enabled)
    {
      ok := w.Done?;
      if !w.Lost? {
        netboot := enabled;
      }
    }
  }

  ghost function State(sys: SystemObject, cs: CobblerSystemObject, rec: CobblerRecord): Cluster
    reads sys, cs, rec
  {
    Cluster(sys.annotation, sys.netbootEnabled, sys.version,
            cs.present, cs.annotation, cs.netbootEnabled, cs.version,
            rec.netboot, sys.requested)
  }

  /** The first `n` calls all succeed. */
  predicate Undisturbed(ws: seq<Write>, n: nat) {
    |ws| >= n && forall i :: 0 <= i < n ==> ws[i].Done?
  }

  /** The System reconciler's share: forward a pending annotation onto the owned CobblerSystem. */
  method ForwardNetboot(sys: SystemObject, cs: CobblerSystemObject, rec: CobblerRecord, ws: seq<Write>)
    returns (waiting: bool)
    modifies sys, cs
    ensures State(sys, cs, rec) == SystemPass(old(State(sys, cs, rec)), SysIdle, ws)
    ensures waiting ==> !cs.present && State(sys, cs, rec) == old(State(sys, cs, rec))
    ensures waiting <==> |ws| >= 2 && ws[1].Done? && old(sys.annotation) in {Some("true"), Some("false")} && !cs.present
    ensures Undisturbed(ws, 3) && old(sys.annotation) in {Some("true"), Some("false")} ==>
              sys.annotation == old(sys.annotation) && (cs.present ==> cs.annotation == old(sys.annotation))
    ensures Undisturbed(ws, 2) && old(sys.annotation) !in {None, Some("true"), Some("false")} ==>
              sys.annotation.None? && cs.annotation == old(cs.annotation)
    ensures cs.annotation in {old(cs.annotation), old(sys.annotation)}
    ensures sys.netbootEnabled == old(sys.netbootEnabled) && cs.netbootEnabled == old(cs.netbootEnabled)
  {
    waiting := false;
    ghost var s := State(sys, cs, rec);
    if |ws| < 1 || sys.annotation.None? {
      return;
    }
    var val, sysCopy := sys.annotation.value, sys.version;
    if |ws| < 2 {
      return;
    }
    assert SystemPass(s, SysIdle, ws) == SystemPass(s, SysHas(val, sysCopy), ws[1..]);
    if !ValidFlag(val) {
      var _ := sys.UpdateStripped(sysCopy, ws[1]);
      return;
    }
    if !ws[1].Done? {
      return;
    }
    if !cs.present {
      waiting := true;
      return;
    }
    if cs.annotation == Some(val) {
      return;
    }
    assert SystemPass(s, SysHas(val, sysCopy), ws[1..]) == SystemPass(s, SysForward(val, cs.version), ws[1..][1..]);
    if |ws| < 3 {
      return;
    }
    assert ws[1..][1..][0] == ws[2];
    assert SystemPass(s, SysIdle, ws) == SystemPass(s, SysForward(val, cs.version), ws[1..][1..]);
    var _ := cs.UpdateAnnotation(cs.version, Some(val), ws[2]);
  }

  /** The CobblerSystem reconciler's share: apply the value, record it, and strip both annotations. */
  method ApplyNetboot(mode: Mode, sys: SystemObject, cs: CobblerSystemObject, rec: CobblerRecord, ws: seq<Write>)
    modifies sys, cs, rec
    ensures State(sys, cs, rec) == CobblerPass(mode, old(State(sys, cs, rec)), CobIdle, ws)
    ensures Undisturbed(ws, 7) && cs.present && old(cs.annotation) in {Some("true"), Some("false")} ==>
              && cs.annotation.None? && sys.annotation.None?
              && if mode.Create? then
                   && rec.netboot == (old(cs.annotation) == Some("true"))
                   && cs.netbootEnabled == sys.netbootEnabled == Some(rec.netboot)
                 else
                   && rec.netboot == old(rec.netboot)
                   && cs.netbootEnabled == old(cs.netbootEnabled) && sys.netbootEnabled == old(sys.netbootEnabled)
    ensures Undisturbed(ws, 4) && mode.Import? && cs.present && old(cs.annotation) in {Some("true"), Some("false")} ==>
              cs.annotation.None? && sys.annotation.None?
    ensures Undisturbed(ws, 2) && cs.present && old(cs.annotation) !in {None, Some("true"), Some("false")} ==>
              cs.annotation.None?
    ensures old(cs.annotation) !in {Some("true"), Some("false")} || mode.Import? ==>
              && rec.netboot == old(rec.netboot)
              && cs.netbootEnabled == old(cs.netbootEnabled) && sys.netbootEnabled == old(sys.netbootEnabled)
    ensures old(cs.annotation) !in {Some("true"), Some("false")} ==> sys.annotation == old(sys.annotation)
  {
    ghost var s := State(sys, cs, rec);
    if |ws| < 2 || !cs.present || cs.annotation.None? {
      return;
    }
    var val, copy := cs.annotation.value, cs.version;
    assert CobblerPass(mode, s, CobIdle, ws) == CobblerPass(mode, s, CobRead(val, copy), ws[1..]);
    if !ValidFlag(val) {
      var _ := cs.UpdateAnnotation(copy, None, ws[1]);
    } else if mode.Create? {
      RecordNetboot(val, copy, sys, cs, rec, ws[1..]);
    } else {
      ConsumeNetboot(mode, val, copy, sys, cs, rec, ws[1..]);
    }
  }

  /** Sets the Cobbler record and the CobblerSystem status, in that order, and consumes the annotations. */
  method RecordNetboot(val: string, copy: nat, sys: SystemObject, cs: CobblerSystemObject, rec: CobblerRecord,
                       ws: seq<Write>)
    requires |ws| > 0 && ValidFlag(val)
    modifies sys, cs, rec
    ensures State(sys, cs, rec) == CobblerPass(Create, old(State(sys, cs, rec)), CobRead(val, copy), ws)
    ensures Undisturbed(ws, 6) && copy == old(cs.version) ==>
              && rec.netboot == Enabled(val) && cs.netbootEnabled == sys.netbootEnabled == Some(Enabled(val))
              && cs.annotation.None? && sys.annotation.None?
  {
    var ok := rec.SetNetboot(Enabled(val), ws[0]);
    if !ok || |ws| < 2 {
      return;
    }
    ghost var recorded := State(sys, cs, rec);
    assert ws[1..][0] == ws[1] && ws[1..][1..] == ws[2..];
    ok := cs.UpdateStatus(copy, Enabled(val), ws[1]);
    if !ok || |ws| < 3 {
      assert CobblerPass(Create, recorded, CobApplied(val, copy), ws[1..]) == State(sys, cs, rec);
      return;
    }
    assert CobblerPass(Create, recorded, CobApplied(val, copy), ws[1..])
        == CobblerPass(Create, State(sys, cs, rec), CobStatused(val, copy + 1), ws[2..]);
    ConsumeNetboot(Create, val, copy + 1, sys, cs, rec, ws[2..]);
  }

  /** Strips the CobblerSystem annotation, then completes the round trip on the owning System. */
  method ConsumeNetboot(mode: Mode, val: string, copy: nat, sys: SystemObject, cs: CobblerSystemObject,
                        rec: CobblerRecord, ws: seq<Write>)
    requires |ws| > 0 && ValidFlag(val)
    modifies sys, cs
    ensures State(sys, cs, rec)
         == CobblerPass(mode, old(State(sys, cs, rec)),
                        if mode.Create? then CobStatused(val, copy) else CobRead(val, copy), ws)
    ensures Undisturbed(ws, if mode.Create? then 4 else 3) && copy == old(cs.version) ==>
              cs.annotation.None? && sys.annotation.None? && (mode.Create? ==> sys.netbootEnabled == Some(Enabled(val)))
    ensures cs.netbootEnabled == old(cs.netbootEnabled)
    ensures mode.Import? ==> sys.netbootEnabled == old(sys.netbootEnabled)
  {
    var ok := cs.UpdateAnnotation(copy, None, ws[0]);
    if ok && |ws| > 1 {
      ClearParent(mode, val, sys, cs, rec, ws[1..]);
    }
  }

  /** Completes the round trip on the owning System. */
  method ClearParent(mode: Mode, val: string, sys: SystemObject, cs: CobblerSystemObject, rec: CobblerRecord,
                     ws: seq<Write>)
    requires |ws| > 0
    modifies sys
    ensures State(sys, cs, rec) == CobblerPass(mode, old(State(sys, cs, rec)), CobStripped(val), ws)
    ensures Undisturbed(ws, if mode.Create? then 3 else 2) ==>
              sys.annotation.None? && (mode.Create? ==> sys.netbootEnabled == Some(Enabled(val)))
    ensures mode.Import? ==> sys.netbootEnabled == old(sys.netbootEnabled)
  {
    ghost var s := State(sys, cs, rec);
    if !ws[0].Done? || |ws| < 2 {
      return;
    }
    var copy, seen := sys.version, sys.annotation.Some?;
    var k := 1;
    assert CobblerPass(mode, s, CobStripped(val), ws) == CobblerPass(mode, s, CobParent(val, seen, copy), ws[1..]);
    if mode.Create? {
      assert ws[1..][0] == ws[1] && ws[1..][1..] == ws[2..];
      var ok := sys.UpdateStatus(copy, Enabled(val), ws[1]);
      if !ok || |ws| < 3 {
        assert CobblerPass(mode, s, CobParent(val, seen, copy), ws[1..]) == State(sys, cs, rec);
        return;
      }
      copy, k := copy + 1, 2;
      assert CobblerPass(mode, s, CobStripped(val), ws)
          == CobblerPass(mode, State(sys, cs, rec), CobParentStatused(val, seen, copy), ws[2..]);
    }
    if !seen {
      return;
    }
    var _ := sys.UpdateStripped(copy, ws[k]);
  }
}
