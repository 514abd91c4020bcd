/** Resolving a formula's form data from several sources, and reconciling it with what Uyuni holds. */
module FormulaSync {
  import opened Common
  import opened GoText
  import opened FormData

  // ---------------------------------------------------------------------------------------------------------------
  // Resolution
  // ---------------------------------------------------------------------------------------------------------------

  /** What looking up a referenced Secret, ConfigMap or object field came to. */
  datatype Lookup<T> = Found(value: T) | Waiting | Broken

  datatype BulkSource = BulkSource(path: string, entries: Lookup<map<string, string>>)

  datatype Reference = Reference(path: string, value: Lookup<Data>)

  datatype Resolved = Resolved(form: Form) | NotYet | Invalid

  /** One explicit reference: a value at its path, or, with an empty path, a map whose entries go to the top level. */
  function ApplyReference(form: Form, r: Reference): Resolved {
    match r.value
    case Waiting => NotYet
    case Broken => Invalid
    case Found(v) =>
      if r.path != "" then Resolved(SetPath(form, r.path, v))
      else if v.Object? then Resolved(form + v.fields)
      else Invalid
  }

  function ApplyReferences(form: Form, rs: seq<Reference>): Resolved
    decreases |rs|
  {
    if rs == [] then Resolved(form)
    else
      var first := ApplyReference(form, rs[0]);
      if first.Resolved? then ApplyReferences(first.form, rs[1..]) else first
  }

  /** `form` is what the bulk sources make of `start`, each merged in some order of its entries. */
  ghost predicate Merges(start: Form, sources: seq<BulkSource>, form: Form)
    decreases |sources|
  {
    if sources == [] then form == start
    else
      var last := sources[|sources| - 1];
      && last.entries.Found?
      && exists mid, order :: Merges(start, sources[..|sources| - 1], mid) && Iterates(order, last.entries.value.Keys)
                              && form == BulkMerge(mid, last.path, last.entries.value, order)
  }

  /** A path is not below, above or at a path that the reference writes. */
  ghost predicate ApartFrom(parts: seq<string>, r: Reference)
    requires parts != []
  {
    if r.path != "" then Apart(SplitDots(r.path), parts)
    else r.value.Found? && r.value.value.Object? && parts[0] !in r.value.value.fields
  }

  lemma {:induction false} ReferencesLeaveApart(form: Form, rs: seq<Reference>, parts: seq<string>)
    requires parts != [] && forall r :: r in rs ==> ApartFrom(parts, r)
    ensures ApplyReferences(form, rs).Resolved? ==> Get(ApplyReferences(form, rs).form, parts) == Get(form, parts)
    decreases |rs|
  {
    if rs != [] {
      var first := ApplyReference(form, rs[0]);
      assert rs[0] in rs && ApartFrom(parts, rs[0]);
      if first.Resolved? {
        if rs[0].path != "" {
          GetElsewhere(form, SplitDots(rs[0].path), rs[0].value.value, parts);
        } else {
          assert parts[0] !in rs[0].value.value.fields;
        }
        ReferencesLeaveApart(first.form, rs[1..], parts);
      }
    }
  }

  lemma {:induction false} ReferencesSplit(form: Form, a: seq<Reference>, b: seq<Reference>)
    ensures var mid := ApplyReferences(form, a);
            ApplyReferences(form, a + b) == if mid.Resolved? then ApplyReferences(mid.form, b) else mid
    decreases |a|
  {
    if a == [] {
      assert a + b == b;
    } else {
      assert (a + b)[1..] == a[1..] + b;
      var first := ApplyReference(form, a[0]);
      if first.Resolved? {
        ReferencesSplit(first.form, a[1..], b);
      }
    }
  }

  /** Explicit references override static values and bulk sources: once everything resolves, the value of a reference
      stands at its path unless a later reference writes there. */
  lemma ReferenceStands(form: Form, before: seq<Reference>, r: Reference, after: seq<Reference>)
    requires r.path != "" && r.value.Found?
    requires forall x :: x in after ==> ApartFrom(SplitDots(r.path), x)
    ensures var out := ApplyReferences(form, before + ([r] + after));
            out.Resolved? ==> Get(out.form, SplitDots(r.path)) == Some(r.value.value)
  {
    ReferencesSplit(form, before, [r] + after);
    var mid := ApplyReferences(form, before);
    if mid.Resolved? {
      var v := r.value.value;
      assert ([r] + after)[1..] == after;
      GetAfterSet(mid.form, SplitDots(r.path), v);
      ReferencesLeaveApart(SetPath(mid.form, r.path, v), after, SplitDots(r.path));
    }
  }

  /** The same for a reference with an empty path: each of its entries stands at the top level, over whatever earlier
      references, bulk sources and static values put there. */
  lemma TopLevelReferenceStands(form: Form, before: seq<Reference>, r: Reference, after: seq<Reference>, key: string)
    requires r.path == "" && r.value.Found? && r.value.value.Object? && key in r.value.value.fields
    requires forall x :: x in after ==> ApartFrom([key], x)
    ensures var out := ApplyReferences(form, before + ([r] + after));
            out.Resolved? ==> Get(out.form, [key]) == Some(r.value.value.fields[key])
  {
    ReferencesSplit(form, before, [r] + after);
    var mid := ApplyReferences(form, before);
    if mid.Resolved? {
      assert ([r] + after)[1..] == after;
      ReferencesLeaveApart(mid.form + r.value.value.fields, after, [key]);
    }
  }

  /** A reference that can be applied: its value is there, and with an empty path it is a map. */
  predicate Applicable(r: Reference) {
    r.value.Found? && (r.path == "" ==> r.value.value.Object?)
  }

  /** The references are applied exactly when each can be; else the first that cannot decides. */
  lemma {:induction false} FirstReferenceDecides(form: Form, rs: seq<Reference>)
    ensures ApplyReferences(form, rs).Resolved? <==> forall r :: r in rs ==> Applicable(r)
    ensures forall i :: 0 <= i < |rs| && !Applicable(rs[i]) && (forall j :: 0 <= j < i ==> Applicable(rs[j])) ==>
              ApplyReferences(form, rs) == if rs[i].value.Waiting? then NotYet else Invalid
    decreases |rs|
  {
    if rs != [] {
      assert rs == [rs[0]] + rs[1..];
      var first := ApplyReference(form, rs[0]);
      assert first.Resolved? <==> Applicable(rs[0]);
      if first.Resolved? {
        FirstReferenceDecides(first.form, rs[1..]);
        forall i | 0 <= i < |rs| && !Applicable(rs[i]) && forall j :: 0 <= j < i ==> Applicable(rs[j])
          ensures ApplyReferences(form, rs) == if rs[i].value.Waiting? then NotYet else Invalid
        {
          assert Applicable(rs[0]) && i > 0 && rs[i] == rs[1..][i - 1];
          assert forall j :: 0 <= j < i - 1 ==> rs[1..][j] == rs[j + 1];
        }
      }
    }
  }

  predicate AllFound(sources: seq<BulkSource>) {
    forall s :: s in sources ==> s.entries.Found?
  }

  /** What the first unavailable source makes of the whole resolution. */
  function FirstMissing(sources: seq<BulkSource>): Resolved
    requires !AllFound(sources)
    decreases |sources|
  {
    match sources[0].entries
    case Waiting => NotYet
    case Broken => Invalid
    case Found(_) =>
      assert sources == [sources[0]] + sources[1..];
      FirstMissing(sources[1..])
  }

  /** What a resolution may come to: static values, then the bulk sources in order, each merged in some order of its
      entries, then the explicit references in order. */
  ghost predicate IsResolution(values: Form, sources: seq<BulkSource>, refs: seq<Reference>, r: Resolved) {
    if AllFound(sources) then exists mid :: Merges(values, sources, mid) && r == ApplyReferences(mid, refs)
    else r == FirstMissing(sources)
  }

  lemma {:induction false} FirstSourceDecides(sources: seq<BulkSource>, i: int)
    requires 0 <= i < |sources| && !sources[i].entries.Found?
    requires forall j :: 0 <= j < i ==> sources[j].entries.Found?
    ensures !AllFound(sources) && FirstMissing(sources) == if sources[i].entries.Waiting? then NotYet else Invalid
    decreases i
  {
    assert sources[i] in sources;
    if i > 0 {
      assert sources[1..][i - 1] == sources[i] && forall j :: 0 <= j < i - 1 ==> sources[1..][j] == sources[j + 1];
      FirstSourceDecides(sources[1..], i - 1);
    }
  }

  /** What stops a resolution: the first bulk source that is not there, or else the first reference that cannot be
      applied. One that is not there yet is waited for, anything else is an error. */
  lemma ResolutionOutcome(values: Form, sources: seq<BulkSource>, refs: seq<Reference>, r: Resolved)
    requires IsResolution(values, sources, refs, r)
    ensures r.Resolved? <==> (forall s :: s in sources ==> s.entries.Found?) && forall x :: x in refs ==> Applicable(x)
    ensures forall i :: 0 <= i < |sources| && !sources[i].entries.Found?
                        && (forall j :: 0 <= j < i ==> sources[j].entries.Found?) ==>
              r == if sources[i].entries.Waiting? then NotYet else Invalid
    ensures (forall s :: s in sources ==> s.entries.Found?) ==>
              forall i :: 0 <= i < |refs| && !Applicable(refs[i])
                          && (forall j :: 0 <= j < i ==> Applicable(refs[j])) ==>
                r == if refs[i].value.Waiting? then NotYet else Invalid
  {
    if AllFound(sources) {
      var mid :| Merges(values, sources, mid) && r == ApplyReferences(mid, refs);
      FirstReferenceDecides(mid, refs);
    } else {
      SomethingIsMissing(sources);
      forall i | 0 <= i < |sources| && !sources[i].entries.Found?
                 && forall j :: 0 <= j < i ==> sources[j].entries.Found?
        ensures r == if sources[i].entries.Waiting? then NotYet else Invalid
      {
        FirstSourceDecides(sources, i);
      }
    }
  }

  lemma {:induction false} SomethingIsMissing(sources: seq<BulkSource>)
    requires !AllFound(sources)
    ensures !FirstMissing(sources).Resolved?
    decreases |sources|
  {
    assert sources == [sources[0]] + sources[1..];
    if sources[0].entries.Found? {
      SomethingIsMissing(sources[1..]);
    }
  }

  /** The source writes nowhere at, above or below this path. */
  ghost predicate SourceApart(parts: seq<string>, s: BulkSource) {
    s.entries.Found? ==> forall k :: k in s.entries.value ==> Apart(EntryParts(s.path, k), parts)
  }

  lemma {:induction false} MergesLeaveApart(start: Form, sources: seq<BulkSource>, form: Form, parts: seq<string>)
    requires Merges(start, sources, form) && parts != [] && forall s :: s in sources ==> SourceApart(parts, s)
    ensures Get(form, parts) == Get(start, parts)
    decreases |sources|
  {
    if sources != [] {
      var front, last := sources[..|sources| - 1], sources[|sources| - 1];
      var m := last.entries.value;
      var mid, order :| Merges(start, front, mid) && Iterates(order, m.Keys)
                        && form == BulkMerge(mid, last.path, m, order);
      assert last in sources && SourceApart(parts, last);
      forall s | s in front
        ensures SourceApart(parts, s)
      {
        assert s in sources;
      }
      MergesLeaveApart(start, front, mid, parts);
      MergeLeavesApart(mid, last.path, m, order, parts);
    }
  }

  lemma {:induction false} MergedEntryStands(start: Form, sources: seq<BulkSource>, form: Form, i: int, key: string)
    requires Merges(start, sources, form) && 0 <= i < |sources| && sources[i].entries.Found?
    requires key in sources[i].entries.value && KeysApart(sources[i].entries.value)
    requires forall j :: i < j < |sources| ==> SourceApart(EntryParts(sources[i].path, key), sources[j])
    ensures Get(form, EntryParts(sources[i].path, key)) == Some(Text(sources[i].entries.value[key]))
    decreases |sources|
  {
    var n := |sources| - 1;
    var front, last := sources[..n], sources[n];
    var m := last.entries.value;
    var mid, order :| Merges(start, front, mid) && Iterates(order, m.Keys)
                      && form == BulkMerge(mid, last.path, m, order);
    if i == n {
      EntryStands(mid, last.path, m, m.Keys, order, key);
    } else {
      MergedEntryStands(start, front, mid, i, key);
      assert SourceApart(EntryParts(sources[i].path, key), sources[n]);
      MergeLeavesApart(mid, last.path, m, order, EntryParts(sources[i].path, key));
    }
  }

  /** The form data that a resolution comes to. An entry of a bulk source stands below the source's path unless a later
      source or a reference writes there; static values stand wherever nothing else is written. */
  lemma ResolvedEntryStands(values: Form, sources: seq<BulkSource>, refs: seq<Reference>, form: Form, i: int,
                            key: string)
    requires IsResolution(values, sources, refs, Resolved(form)) && 0 <= i < |sources| && sources[i].entries.Found?
    requires key in sources[i].entries.value && KeysApart(sources[i].entries.value)
    requires var parts := EntryParts(sources[i].path, key);
             && (forall j :: i < j < |sources| ==> SourceApart(parts, sources[j]))
             && forall x :: x in refs ==> ApartFrom(parts, x)
    ensures Get(form, (if sources[i].path == "" then [] else SplitDots(sources[i].path)) + SplitDots(key))
         == Some(Text(sources[i].entries.value[key]))
  {
    ResolutionOutcome(values, sources, refs, Resolved(form));
    var mid :| Merges(values, sources, mid) && Resolved(form) == ApplyReferences(mid, refs);
    MergedEntryStands(values, sources, mid, i, key);
    ReferencesLeaveApart(mid, refs, EntryParts(sources[i].path, key));
  }

  lemma StaticValuesStand(values: Form, sources: seq<BulkSource>, refs: seq<Reference>, form: Form, parts: seq<string>)
    requires IsResolution(values, sources, refs, Resolved(form)) && parts != []
    requires (forall s :: s in sources ==> SourceApart(parts, s)) && forall x :: x in refs ==> ApartFrom(parts, x)
    ensures Get(form, parts) == Get(values, parts)
  {
    ResolutionOutcome(values, sources, refs, Resolved(form));
    var mid :| Merges(values, sources, mid) && Resolved(form) == ApplyReferences(mid, refs);
    MergesLeaveApart(values, sources, mid, parts);
    ReferencesLeaveApart(mid, refs, parts);
  }

  /** No key of any bulk source is a segment prefix of another of the same source. */
  ghost predicate SourcesApart(sources: seq<BulkSource>) {
    forall s :: s in sources && s.entries.Found? ==> KeysApart(s.entries.value)
  }

  lemma {:induction false} MergesAgree(start: Form, sources: seq<BulkSource>, a: Form, b: Form)
    requires SourcesApart(sources) && Merges(start, sources, a) && Merges(start, sources, b)
    ensures a == b
    decreases |sources|
  {
    if sources != [] {
      var front, last := sources[..|sources| - 1], sources[|sources| - 1];
      var m := last.entries.value;
      var x, o :| Merges(start, front, x) && Iterates(o, m.Keys) && a == BulkMerge(x, last.path, m, o);
      var y, p :| Merges(start, front, y) && Iterates(p, m.Keys) && b == BulkMerge(y, last.path, m, p);
      assert last in sources && forall s :: s in front ==> s in sources;
      MergesAgree(start, front, x, y);
      OrdersAgree(x, last.path, m, m.Keys, o, p);
    }
  }

  /** With such sources the same inputs always resolve alike, whatever order the maps yield their entries in. */
  lemma ResolutionsAgree(values: Form, sources: seq<BulkSource>, refs: seq<Reference>, r: Resolved, q: Resolved)
    requires SourcesApart(sources) && IsResolution(values, sources, refs, r) && IsResolution(values, sources, refs, q)
    ensures r == q
  {
    if AllFound(sources) {
      var a :| Merges(values, sources, a) && r == ApplyReferences(a, refs);
      var b :| Merges(values, sources, b) && q == ApplyReferences(b, refs);
      MergesAgree(values, sources, a, b);
    }
  }

  /** Otherwise a formula with that source alone has two resolutions of which the one does not hold where the other
      has been applied: unchanged inputs are reported as drift, or written again, as the map iteration goes. */
  lemma ResolutionsMayDrift(values: Form, path: string, m: map<string, string>) returns (r: Form, q: Form)
    requires !KeysApart(m)
    ensures var sources := [BulkSource(path, Found(m))];
            IsResolution(values, sources, [], Resolved(r)) && IsResolution(values, sources, [], Resolved(q))
    ensures !MapSubset(q, r)
  {
    var k, l :| k in m && l in m && k != l && SplitDots(k) <= SplitDots(l);
    var o, p := OrdersThatDiffer(values, path, m, k, l);
    r, q := BulkMerge(values, path, m, o), BulkMerge(values, path, m, p);
    OneSourceResolves(values, path, m, o);
    OneSourceResolves(values, path, m, p);
    if MapSubset(q, r) {
      if MapSubset(r, q) {
        WithinAntisymmetric(Object(r), Object(q));
      }
      r, q := q, r;
    }
  }

  lemma OneSourceResolves(values: Form, path: string, m: map<string, string>, order: seq<string>)
    requires Iterates(order, m.Keys)
    ensures IsResolution(values, [BulkSource(path, Found(m))], [], Resolved(BulkMerge(values, path, m, order)))
  {
    var sources := [BulkSource(path, Found(m))];
    var form := BulkMerge(values, path, m, order);
    assert Merges(values, sources[..0], values);
    assert Merges(values, sources, form) && Resolved(form) == ApplyReferences(form, []);
  }

  /** resolveFormulaValues: static values, then the bulk sources in order, then the explicit references in order. */
  method Resolve(values: Form, sources: seq<BulkSource>, refs: seq<Reference>) returns (r: Resolved)
    ensures IsResolution(values, sources, refs, r)
  {
    var data := values;
    for i := 0 to |sources|
      invariant Merges(values, sources[..i], data)
      invariant AllFound(sources) <==> AllFound(sources[i..])
      invariant !AllFound(sources) ==> FirstMissing(sources) == FirstMissing(sources[i..])
    {
      assert sources[..i + 1][..i] == sources[..i] && sources[i..] == [sources[i]] + sources[i + 1..];
      match sources[i].entries
      case Waiting => return NotYet;
      case Broken => return Invalid;
      case Found(m) =>
        ghost var order;
        ghost var before := data;
        data, order := MergeSource(data, sources[i].path, m);
        assert Merges(values, sources[..i], before) && data == BulkMerge(before, sources[i].path, m, order);
    }
    assert sources[..|sources|] == sources;
    ghost var merged := data;
    for i := 0 to |refs|
      invariant ApplyReferences(merged, refs) == ApplyReferences(data, refs[i..])
    {
      assert refs[i..][1..] == refs[i + 1..];
      var x := refs[i];
      match x.value
      case Waiting => return NotYet;
      case Broken => return Invalid;
      case Found(v) =>
        if x.path == "" {
          if !v.Object? {
            return Invalid;
          }
          data := MergeTop(data, v.fields);
        } else {
          data := SetPath(data, x.path, v);
        }
    }
    r := Resolved(data);
  }

  method MergeTop(form: Form, fields: Form) returns (merged: Form)
    ensures merged == form + fields
  {
    merged := form;
    var todo := fields.Keys;
    while todo != {}
      invariant todo <= fields.Keys
      invariant merged == form + (map k | k in fields && k !in todo :: fields[k])
      decreases todo
    {
      var k :| k in todo;
      merged := merged[k := fields[k]];
      todo := todo - {k};
    }
    assert (map k | k in fields && k !in todo :: fields[k]) == fields;
  }

  // ---------------------------------------------------------------------------------------------------------------
  // Reconciliation
  // ---------------------------------------------------------------------------------------------------------------

  /** A formula assignment with what its form data resolves to in this pass. */
  datatype Formula = Formula(name: string, want: Resolved)

  /** A formula assignment as the specification has it, with what its references come to. */
  datatype Assignment = Assignment(name: string, values: Form, sources: seq<BulkSource>, refs: seq<Reference>)

  ghost predicate IsWanted(x: Assignment, f: Formula) {
    f.name == x.name && IsResolution(x.values, x.sources, x.refs, f.want)
  }

  ghost predicate AreWanted(xs: seq<Assignment>, formulas: seq<Formula>) {
    |formulas| == |xs| && forall i {:trigger IsWanted(xs[i], formulas[i])} :: 0 <= i < |xs| ==>
        IsWanted(xs[i], formulas[i])
  }

  ghost predicate AllApart(xs: seq<Assignment>) {
    forall x :: x in xs ==> SourcesApart(x.sources)
  }

  lemma AssignmentsAgree(xs: seq<Assignment>, formulas: seq<Formula>, again: seq<Formula>)
    requires AllApart(xs) && AreWanted(xs, formulas) && AreWanted(xs, again)
    ensures formulas == again
  {
    forall i | 0 <= i < |xs|
      ensures formulas[i] == again[i]
    {
      assert xs[i] in xs && IsWanted(xs[i], formulas[i]) && IsWanted(xs[i], again[i]);
      ResolutionsAgree(xs[i].values, xs[i].sources, xs[i].refs, formulas[i].want, again[i].want);
    }
  }

  datatype SyncResult = Synced(enabled: seq<string>, drift: bool) | WaitFor | ApiError

  function Names(formulas: seq<Formula>): seq<string> {
    seq(|formulas|, i requires 0 <= i < |formulas| => formulas[i].name)
  }

  ghost predicate UniqueNames(formulas: seq<Formula>) {
    forall i, j :: 0 <= i < j < |formulas| ==> formulas[i].name != formulas[j].name
  }

  function FormOf(data: map<string, Form>, name: string): Form {
    if name in data then data[name] else map[]
  }

  /** Uyuni already holds what the formula wants. */
  predicate Holds(data: map<string, Form>, f: Formula) {
    f.want.Resolved? ==> MapSubset(f.want.form, FormOf(data, f.name))
  }

  ghost predicate AllHold(data: map<string, Form>, formulas: seq<Formula>) {
    forall f :: f in formulas ==> Holds(data, f)
  }

  lemma EmptyHolds(data: map<string, Form>, f: Formula)
    requires f.want.Resolved? && f.want.form == map[]
    ensures Holds(data, f)
  {
  }

  /** The formulas of one system or group as Uyuni keeps them. Uyuni may add defaults to the form data it is given. */
  class FormulaStore {
    var enabled: seq<string>
    var data: map<string, Form>
    const fill: (string, Form) -> Form
    ghost var writes: nat

    ghost predicate Valid()
      reads this
    {
      forall name, form {:trigger fill(name, form)} :: MapSubset(form, fill(name, form))
    }

    /** Any call may fail; a failed write changes nothing. */
    method Assign(formulas: seq<string>, fails: bool) returns (ok: bool)
      modifies this`enabled, this`writes
      ensures ok == !fails && writes == old(writes) + 1
      ensures enabled == if ok then formulas else old(enabled)
    {
      writes := writes + 1;
      if !fails {
        enabled := formulas;
      }
      ok := !fails;
    }

    method SetData(name: string, form: Form, fails: bool) returns (ok: bool)
      modifies this`data, this`writes
      ensures ok == !fails && writes == old(writes) + 1
      ensures data == if ok then old(data)[name := fill(name, form)] else old(data)
    {
      writes := writes + 1;
      if !fails {
        data := data[name := fill(name, form)];
      }
      ok := !fails;
    }

    /** The assigned formulas are the desired ones, and every formula's form data is in place. */
    ghost predicate Converged(formulas: seq<Formula>)
      reads this
    {
      AsSet(enabled) == AsSet(Names(formulas)) && AllHold(data, formulas)
    }

    /** The same for some resolution of the assignments. */
    ghost predicate ConvergedFor(xs: seq<Assignment>)
      reads this
    {
      exists formulas :: AreWanted(xs, formulas) && Converged(formulas)
    }
  }

  /** Form data that a pass has changed is what some formula wants, and the server's additions to it. */
  ghost predicate OnlyWanted(before: map<string, Form>, after: map<string, Form>, formulas: seq<Formula>,
                             fill: (string, Form) -> Form) {
    forall name :: name in before.Keys + after.Keys ==>
      name in after && ((name in before && after[name] == before[name]) || IsFilled(name, after[name], formulas, fill))
  }

  ghost predicate IsFilled(name: string, form: Form, formulas: seq<Formula>, fill: (string, Form) -> Form) {
    exists f :: f in formulas && f.name == name && f.want.Resolved? && form == fill(name, f.want.form)
  }

  /** Which calls of a pass fail: listing the installed formulas, reading and writing the assignment, and, per
      formula, reading and writing its form data. */
  datatype Failures = Failures(list: bool, current: bool, assign: bool, read: int -> bool, write: int -> bool)

  /** The installed formulas are asked for only when there are formulas to assign. */
  ghost predicate NothingFails(fails: Failures, formulas: seq<Formula>) {
    && (formulas != [] ==> !fails.list) && !fails.current && !fails.assign
    && forall i :: !fails.read(i) && !fails.write(i)
  }

  /** The first formula whose form data does not resolve. */
  ghost predicate FirstUnresolved(formulas: seq<Formula>, f: Formula) {
    exists i :: 0 <= i < |formulas| && formulas[i] == f && !f.want.Resolved?
                && forall j :: 0 <= j < i ==> formulas[j].want.Resolved?
  }

  method SyncFormulas(store: FormulaStore, installed: set<string>, formulas: seq<Formula>, applyData: bool,
                      fails: Failures)
    returns (r: SyncResult)
    requires store.Valid()
    modifies store
    ensures store.Valid()
    // A pass that succeeds leaves the desired formulas assigned.
    ensures r.Synced? ==> AsSet(store.enabled) == AsSet(Names(formulas)) && r.enabled == Names(formulas)
    // Applying makes the store hold everything, and reports no drift.
    ensures r.Synced? && applyData && UniqueNames(formulas) ==> store.Converged(formulas) && !r.drift
    // Not applying writes no form data and reports drift exactly when something is missing.
    ensures !applyData ==> store.data == old(store.data)
    ensures r.Synced? && !applyData ==> (r.drift <==> !AllHold(store.data, formulas))
    // Whatever fails, what has changed is what was wanted.
    ensures store.enabled == old(store.enabled) || store.enabled == Names(formulas)
    ensures OnlyWanted(old(store.data), store.data, formulas, store.fill)
    // It goes through exactly when every formula is installed and resolved, and nothing fails.
    ensures r.Synced? ==> AsSet(Names(formulas)) <= installed && forall f :: f in formulas ==> f.want.Resolved?
    ensures NothingFails(fails, formulas) && AsSet(Names(formulas)) <= installed ==>
              (forall f :: f in formulas ==> f.want.Resolved?) ==> r.Synced?
    ensures r.WaitFor? ==> !(AsSet(Names(formulas)) <= installed) || exists f :: f in formulas && f.want.NotYet?
    ensures NothingFails(fails, formulas) && !(AsSet(Names(formulas)) <= installed) ==> r.WaitFor?
    ensures NothingFails(fails, formulas) && AsSet(Names(formulas)) <= installed ==>
              forall f :: FirstUnresolved(formulas, f) ==> r == if f.want.NotYet? then WaitFor else ApiError
    // A store that has converged is left alone, whatever fails.
    ensures old(store.Converged(formulas)) ==>
              store.writes == old(store.writes) && store.enabled == old(store.enabled) && store.data == old(store.data)
    ensures old(store.Converged(formulas)) && r.Synced? ==> !r.drift
  {
    var desired := Names(formulas);
    if |desired| > 0 {
      if fails.list {
        return ApiError;
      }
      if !(AsSet(desired) <= installed) {
        return WaitFor;
      }
    }
    if fails.current {
      return ApiError;
    }
    if AsSet(store.enabled) != AsSet(desired) {
      var ok := store.Assign(desired, fails.assign);
      if !ok {
        return ApiError;
      }
    }
    ghost var stop;
    r, stop := SyncData(store, formulas, applyData, fails);
    if stop < |formulas| && !formulas[stop].want.Resolved? {
      FirstIsUnique(formulas, stop);
    }
  }

  /** Each formula up to `n` holds, if form data is being applied and no name is repeated. */
  ghost predicate DoneUpTo(data: map<string, Form>, formulas: seq<Formula>, n: int) {
    forall i :: 0 <= i < n && i < |formulas| ==> Holds(data, formulas[i])
  }

  lemma AllHoldIffDone(data: map<string, Form>, formulas: seq<Formula>)
    ensures AllHold(data, formulas) <==> DoneUpTo(data, formulas, |formulas|)
  {
    forall i | 0 <= i < |formulas|
      ensures formulas[i] in formulas
    {
    }
  }

  method SyncData(store: FormulaStore, formulas: seq<Formula>, applyData: bool, fails: Failures)
    returns (r: SyncResult, ghost stop: nat)
    requires store.Valid()
    modifies store`data, store`writes
    ensures store.Valid()
    ensures r.Synced? ==> r.enabled == Names(formulas)
    ensures r.Synced? && applyData ==> !r.drift && (UniqueNames(formulas) ==> AllHold(store.data, formulas))
    ensures !applyData ==> store.data == old(store.data) && store.writes == old(store.writes)
    ensures OnlyWanted(old(store.data), store.data, formulas, store.fill)
    // It stops at the first formula that does not resolve, if not before.
    ensures stop <= |formulas| && (forall k :: 0 <= k < stop ==> formulas[k].want.Resolved?)
    ensures r.Synced? <==> stop == |formulas|
    ensures r.WaitFor? <==> stop < |formulas| && formulas[stop].want.NotYet?
    ensures NothingFails(fails, formulas) && stop < |formulas| ==> !formulas[stop].want.Resolved?
    ensures r.Synced? && !applyData ==> (r.drift <==> !AllHold(store.data, formulas))
    ensures old(AllHold(store.data, formulas)) ==>
              store.writes == old(store.writes) && store.data == old(store.data) && (r.Synced? ==> !r.drift)
  {
    var drift := false;
    UpToNothing(store.data, formulas, applyData, store.fill);
    for i := 0 to |formulas|
      invariant store.Valid()
      invariant UpTo(old(store.data), store.data, formulas, i, applyData, drift, store.fill)
      invariant forall k :: 0 <= k < i ==> formulas[k].want.Resolved?
      invariant !applyData || old(AllHold(store.data, formulas)) ==> store.writes == old(store.writes)
    {
      var f := formulas[i];
      match f.want
      case NotYet =>
        return WaitFor, i;
      case Invalid =>
        return ApiError, i;
      case Resolved(want) =>
        ghost var before := store.data;
        HoldsFirst(old(store.data), before, formulas, i, applyData, drift, store.fill);
        var ok, differs := SyncFormula(store, f, applyData, fails.read(i), fails.write(i));
        FormulaKeepsWanted(old(store.data), before, store.data, formulas, f, store.fill);
        if !ok {
          return ApiError, i;
        }
        UpToOneMore(old(store.data), before, store.data, formulas, i, applyData, drift, differs, store.fill);
        drift := drift || differs;
    }
    AllHoldIffDone(store.data, formulas);
    r, stop := Synced(Names(formulas), drift), |formulas|;
  }

  /** What the loop has come to behind its first `n` formulas. */
  ghost predicate UpTo(first: map<string, Form>, data: map<string, Form>, formulas: seq<Formula>, n: int,
                       applyData: bool, drift: bool, fill: (string, Form) -> Form) {
    && (applyData ==> !drift && (UniqueNames(formulas) ==> DoneUpTo(data, formulas, n)))
    && (!applyData ==> data == first && (drift <==> !DoneUpTo(data, formulas, n)))
    && (AllHold(first, formulas) ==> data == first && !drift)
    && OnlyWanted(first, data, formulas, fill)
  }

  lemma UpToNothing(data: map<string, Form>, formulas: seq<Formula>, applyData: bool, fill: (string, Form) -> Form)
    ensures UpTo(data, data, formulas, 0, applyData, false, fill)
  {
  }

  lemma HoldsFirst(first: map<string, Form>, data: map<string, Form>, formulas: seq<Formula>, i: int, applyData: bool,
                   drift: bool, fill: (string, Form) -> Form)
    requires UpTo(first, data, formulas, i, applyData, drift, fill) && 0 <= i < |formulas|
    ensures formulas[i] in formulas && (AllHold(first, formulas) ==> Holds(data, formulas[i]))
  {
  }

  lemma UpToOneMore(first: map<string, Form>, before: map<string, Form>, after: map<string, Form>,
                    formulas: seq<Formula>, i: int, applyData: bool, drift: bool, differs: bool,
                    fill: (string, Form) -> Form)
    requires UpTo(first, before, formulas, i, applyData, drift, fill) && 0 <= i < |formulas|
    requires formulas[i].want.Resolved?
    requires after == before
          || (applyData && after == before[formulas[i].name := fill(formulas[i].name, formulas[i].want.form)])
    requires !applyData || Holds(before, formulas[i]) ==> after == before
    requires differs == (!applyData && !Holds(after, formulas[i])) && (applyData ==> Holds(after, formulas[i]))
    requires OnlyWanted(first, after, formulas, fill)
    ensures UpTo(first, after, formulas, i + 1, applyData, drift || differs, fill)
  {
    var f := formulas[i];
    assert f in formulas;
    WriteKeepsOthers(before, formulas, i, fill(f.name, f.want.form));
  }

  /** One formula: its form data is read, compared, and written when that is asked for. */
  method SyncFormula(store: FormulaStore, f: Formula, applyData: bool, readFails: bool, writeFails: bool)
    returns (ok: bool, drift: bool)
    requires store.Valid() && f.want.Resolved?
    modifies store`data, store`writes
    ensures store.Valid()
    ensures !readFails && !writeFails ==> ok
    ensures ok ==> drift == (!applyData && !Holds(store.data, f)) && (applyData ==> Holds(store.data, f))
    ensures store.data == old(store.data)
         || (applyData && store.data == old(store.data)[f.name := store.fill(f.name, f.want.form)])
    ensures !applyData || old(Holds(store.data, f)) ==>
              store.data == old(store.data) && store.writes == old(store.writes)
  {
    var want := f.want.form;
    drift := false;
    if want == map[] {
      EmptyHolds(store.data, f);
      return true, false;
    }
    if readFails {
      return false, false;
    }
    if !MapSubset(want, FormOf(store.data, f.name)) {
      if applyData {
        ok := store.SetData(f.name, want, writeFails);
        return ok, false;
      }
      drift := true;
    }
    ok := true;
  }

  lemma FirstIsUnique(formulas: seq<Formula>, i: int)
    requires 0 <= i < |formulas| && !formulas[i].want.Resolved?
    requires forall j :: 0 <= j < i ==> formulas[j].want.Resolved?
    ensures forall f :: FirstUnresolved(formulas, f) ==> f == formulas[i]
  {
  }

  lemma FormulaKeepsWanted(first: map<string, Form>, before: map<string, Form>, after: map<string, Form>,
                           formulas: seq<Formula>, f: Formula, fill: (string, Form) -> Form)
    requires OnlyWanted(first, before, formulas, fill) && f in formulas && f.want.Resolved?
    requires after == before || after == before[f.name := fill(f.name, f.want.form)]
    ensures OnlyWanted(first, after, formulas, fill)
  {
    assert IsFilled(f.name, fill(f.name, f.want.form), formulas, fill);
  }

  lemma WriteKeepsOthers(data: map<string, Form>, formulas: seq<Formula>, i: int, form: Form)
    requires 0 <= i < |formulas|
    ensures UniqueNames(formulas) && DoneUpTo(data, formulas, i) ==>
              DoneUpTo(data[formulas[i].name := form], formulas, i)
  {
  }

  ghost predicate UniqueAssignments(xs: seq<Assignment>) {
    forall i, j :: 0 <= i < j < |xs| ==> xs[i].name != xs[j].name
  }

  method ResolveAll(xs: seq<Assignment>) returns (formulas: seq<Formula>)
    ensures AreWanted(xs, formulas)
    ensures UniqueAssignments(xs) ==> UniqueNames(formulas)
  {
    formulas := [];
    for i := 0 to |xs|
      invariant |formulas| == i
      invariant forall k {:trigger IsWanted(xs[k], formulas[k])} :: 0 <= k < i ==> IsWanted(xs[k], formulas[k])
    {
      var want := Resolve(xs[i].values, xs[i].sources, xs[i].refs);
      formulas := formulas + [Formula(xs[i].name, want)];
    }
    forall i | 0 <= i < |xs|
      ensures formulas[i].name == xs[i].name
    {
      assert IsWanted(xs[i], formulas[i]);
    }
  }

  /** A whole pass: the assignments are resolved again, and the store is synchronised with what they come to. A store
      that an applying pass has converged is not written again by a later pass over the same inputs, as long as no
      bulk source has a key that is a segment prefix of another. */
  method SyncPass(store: FormulaStore, installed: set<string>, xs: seq<Assignment>, applyData: bool, fails: Failures)
    returns (r: SyncResult)
    requires store.Valid()
    modifies store
    ensures store.Valid()
    ensures r.Synced? && applyData && UniqueAssignments(xs) ==> store.ConvergedFor(xs) && !r.drift
    ensures old(store.ConvergedFor(xs)) && AllApart(xs) ==>
              store.writes == old(store.writes) && store.data == old(store.data) && (r.Synced? ==> !r.drift)
  {
    var formulas := ResolveAll(xs);
    if store.ConvergedFor(xs) && AllApart(xs) {
      ghost var earlier :| AreWanted(xs, earlier) && store.Converged(earlier);
      AssignmentsAgree(xs, earlier, formulas);
    }
    r := SyncFormulas(store, installed, formulas, applyData, fails);
  }

  /** Why names must be unique: two assignments of one formula that want different values for a scalar cannot both
      hold, so no store ever converges for them and every applying pass writes again. */
  lemma RepeatedNameNeverConverges(data: map<string, Form>, formulas: seq<Formula>, i: int, j: int, p: seq<string>)
    requires 0 <= i < j < |formulas| && formulas[i].name == formulas[j].name && p != []
    requires formulas[i].want.Resolved? && formulas[j].want.Resolved?
    requires Get(formulas[i].want.form, p).Some? && Get(formulas[j].want.form, p).Some?
    requires var a, b := Get(formulas[i].want.form, p).value, Get(formulas[j].want.form, p).value;
             a != b && !a.Object? && !b.Object?
    ensures !AllHold(data, formulas)
  {
    if AllHold(data, formulas) {
      assert formulas[i] in formulas && formulas[j] in formulas;
      WithinKeepsPaths(formulas[i].want.form, FormOf(data, formulas[i].name), p);
      WithinKeepsPaths(formulas[j].want.form, FormOf(data, formulas[j].name), p);
      assert false;
    }
  }
}
