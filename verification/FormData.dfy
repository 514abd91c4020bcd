/** Formula form data: writes at dotted paths into nested maps, their confluence, and the subset order used to detect
    drift. */
module FormData {
  import opened Common
  import opened GoText

  /** A decoded JSON value. */
  datatype Data =
    | Null
    | Flag(b: bool)
    | Number(n: real)
    | Text(s: string)
    | List(items: seq<Data>)
    | Object(fields: Form)

  type Form = map<string, Data>

  // ---------------------------------------------------------------------------------------------------------------
  // Path writes
  // ---------------------------------------------------------------------------------------------------------------

  function Below(form: Form, part: string): Form {
    if part in form && form[part].Object? then form[part].fields else map[]
  }

  /** setPath on a split path: intermediate maps are created, and whatever is not a map on the way is replaced by
      one. */
  function SetParts(form: Form, parts: seq<string>, v: Data): Form
    requires parts != []
    decreases |parts|, 1
  {
    form[parts[0] := HeadValue(form, parts, v)]
  }

  /** What a write puts at the first part of its path: the value itself, or a map when the path goes on. */
  function HeadValue(form: Form, parts: seq<string>, v: Data): Data
    requires parts != []
    decreases |parts|, 0
  {
    if |parts| == 1 then v else Object(SetParts(Below(form, parts[0]), parts[1..], v))
  }

  function SetPath(form: Form, path: string, v: Data): Form {
    SetParts(form, SplitDots(path), v)
  }

  /** The value at a path, if every step on the way is a map that has the next part. */
  function Get(form: Form, parts: seq<string>): Option<Data>
    requires parts != []
    decreases |parts|
  {
    if parts[0] !in form then None
    else if |parts| == 1 then Some(form[parts[0]])
    else if form[parts[0]].Object? then Get(form[parts[0]].fields, parts[1..])
    else None
  }

  /** Neither path leads through the other. */
  predicate Apart(p: seq<string>, q: seq<string>) {
    !(p <= q) && !(q <= p)
  }

  lemma ApartTail(p: seq<string>, q: seq<string>)
    requires p != [] && q != [] && Apart(p, q) && p[0] == q[0]
    ensures |p| > 1 && |q| > 1 && Apart(p[1..], q[1..])
  {
    assert p == [p[0]] + p[1..] && q == [q[0]] + q[1..];
    assert |p| == 1 ==> p <= q;
    assert |q| == 1 ==> q <= p;
  }

  lemma {:induction false} GetAfterSet(form: Form, p: seq<string>, v: Data)
    requires p != []
    ensures Get(SetParts(form, p, v), p) == Some(v)
    decreases |p|
  {
    if |p| > 1 {
      GetAfterSet(Below(form, p[0]), p[1..], v);
    }
  }

  lemma GetInEmpty(q: seq<string>)
    requires q != []
    ensures Get(map[], q) == None
  {
  }

  /** A write leaves every path that is apart from its own as it was. */
  lemma {:induction false} GetElsewhere(form: Form, p: seq<string>, v: Data, q: seq<string>)
    requires p != [] && q != [] && Apart(p, q)
    ensures Get(SetParts(form, p, v), q) == Get(form, q)
    decreases |p|
  {
    if p[0] == q[0] {
      ApartTail(p, q);
      GetElsewhere(Below(form, p[0]), p[1..], v, q[1..]);
      GetInEmpty(q[1..]);
    }
  }

  /** A write at a path replaces everything that was below it. */
  lemma {:induction false} GetUnder(form: Form, p: seq<string>, v: Data, q: seq<string>)
    requires p != [] && q != []
    ensures Get(SetParts(form, p, v), p + q) == if v.Object? then Get(v.fields, q) else None
    decreases |p|
  {
    if |p| == 1 {
      assert (p + q)[1..] == q;
    } else {
      assert (p + q)[1..] == p[1..] + q;
      GetUnder(Below(form, p[0]), p[1..], v, q);
    }
  }

  lemma CommutesAtDifferentHeads(form: Form, p: seq<string>, v: Data, q: seq<string>, w: Data)
    requires p != [] && q != [] && p[0] != q[0]
    ensures SetParts(SetParts(form, p, v), q, w) == SetParts(SetParts(form, q, w), p, v)
  {
    var x, y := HeadValue(form, p, v), HeadValue(form, q, w);
    assert Below(form[p[0] := x], q[0]) == Below(form, q[0]);
    assert Below(form[q[0] := y], p[0]) == Below(form, p[0]);
    assert form[p[0] := x][q[0] := y] == form[q[0] := y][p[0] := x];
  }

  /** Two writes that start alike amount to two writes below the shared first part. */
  lemma SetTwiceBelow(form: Form, p: seq<string>, v: Data, q: seq<string>, w: Data)
    requires |p| > 1 && |q| > 1 && p[0] == q[0]
    ensures SetParts(SetParts(form, p, v), q, w)
         == form[p[0] := Object(SetParts(SetParts(Below(form, p[0]), p[1..], v), q[1..], w))]
  {
    var once := SetParts(Below(form, p[0]), p[1..], v);
    assert Below(SetParts(form, p, v), p[0]) == once;
    assert form[p[0] := Object(once)][p[0] := Object(SetParts(once, q[1..], w))]
        == form[p[0] := Object(SetParts(once, q[1..], w))];
  }

  /** Writes at paths that are apart commute. */
  lemma {:induction false} SetCommutes(form: Form, p: seq<string>, v: Data, q: seq<string>, w: Data)
    requires p != [] && q != [] && Apart(p, q)
    ensures SetParts(SetParts(form, p, v), q, w) == SetParts(SetParts(form, q, w), p, v)
    decreases |p|
  {
    if p[0] == q[0] {
      ApartTail(p, q);
      SetCommutes(Below(form, p[0]), p[1..], v, q[1..], w);
      SetTwiceBelow(form, p, v, q, w);
      SetTwiceBelow(form, q, w, p, v);
    } else {
      CommutesAtDifferentHeads(form, p, v, q, w);
    }
  }

  /** Writes of two texts at paths that are not apart never commute, unless the paths are the same and the texts
      are. */
  lemma ComparableWritesDiffer(form: Form, p: seq<string>, s: string, q: seq<string>, t: string)
    requires p != [] && p < q
    ensures SetParts(SetParts(form, p, Text(s)), q, Text(t)) != SetParts(SetParts(form, q, Text(t)), p, Text(s))
  {
    var rest := q[|p|..];
    assert q == p + rest;
    GetAfterSet(SetParts(form, p, Text(s)), q, Text(t));
    GetUnder(SetParts(form, q, Text(t)), p, Text(s), rest);
  }

  // ---------------------------------------------------------------------------------------------------------------
  // Bulk sources
  // ---------------------------------------------------------------------------------------------------------------

  function JoinPath(prefix: string, key: string): string {
    if prefix == "" then key else prefix + "." + key
  }

  function KeyPath(prefix: string, key: string): (parts: seq<string>)
    ensures parts != []
  {
    SplitDots(JoinPath(prefix, key))
  }

  /** Where an entry of a source belongs: below the source's path, or at the top level when it has none. */
  function EntryParts(prefix: string, key: string): (parts: seq<string>)
    ensures parts != []
  {
    (if prefix == "" then [] else SplitDots(prefix)) + SplitDots(key)
  }

  /** And that is where it lands. */
  lemma KeyPathIsBelowThePrefix(prefix: string, key: string)
    ensures KeyPath(prefix, key) == EntryParts(prefix, key)
  {
    if prefix != "" {
      SplitAppend(prefix, key);
    } else {
      assert [] + SplitDots(key) == SplitDots(key);
    }
  }

  function Write(form: Form, prefix: string, m: map<string, string>, key: string): Form {
    if key in m then SetParts(form, KeyPath(prefix, key), Text(m[key])) else form
  }

  /** The bulk merge of a Secret's or ConfigMap's entries in one particular iteration order. */
  function BulkMerge(form: Form, prefix: string, m: map<string, string>, order: seq<string>): Form
    decreases |order|
  {
    if order == [] then form else BulkMerge(Write(form, prefix, m, order[0]), prefix, m, order[1..])
  }

  /** An order in which Go may iterate over the keys. */
  ghost predicate Iterates(order: seq<string>, keys: set<string>) {
    && (forall k :: k in order <==> k in keys)
    && (forall i, j :: 0 <= i < j < |order| ==> order[i] != order[j])
  }

  /** No key's segments are the leading segments of another key's. */
  ghost predicate KeysApart(m: map<string, string>) {
    forall k, l :: k in m && l in m && k != l ==> !(SplitDots(k) <= SplitDots(l))
  }

  lemma PrefixAfterHead(head: seq<string>, a: seq<string>, b: seq<string>)
    ensures head + a <= head + b <==> a <= b
  {
    assert (head + a)[|head|..] == a && (head + b)[|head|..] == b;
    if head + a <= head + b {
      assert a == (head + b)[|head|..|head| + |a|];
    }
  }

  lemma KeyPathPrefix(prefix: string, k: string, l: string)
    ensures KeyPath(prefix, k) <= KeyPath(prefix, l) <==> SplitDots(k) <= SplitDots(l)
  {
    KeyPathIsBelowThePrefix(prefix, k);
    KeyPathIsBelowThePrefix(prefix, l);
    PrefixAfterHead(if prefix == "" then [] else SplitDots(prefix), SplitDots(k), SplitDots(l));
  }

  lemma KeysApartMeansPathsApart(prefix: string, m: map<string, string>, k: string, l: string)
    requires KeysApart(m) && k in m && l in m && k != l
    ensures Apart(KeyPath(prefix, k), KeyPath(prefix, l))
  {
    KeyPathPrefix(prefix, k, l);
    KeyPathPrefix(prefix, l, k);
  }

  /** The writes of two keys may be swapped. */
  ghost predicate Swappable(prefix: string, m: map<string, string>, k: string, l: string) {
    forall form :: Write(Write(form, prefix, m, k), prefix, m, l) == Write(Write(form, prefix, m, l), prefix, m, k)
  }

  lemma ApartMeansSwappable(prefix: string, m: map<string, string>, k: string, l: string)
    requires KeysApart(m) && k in m && l in m && k != l
    ensures Swappable(prefix, m, k, l)
  {
    KeysApartMeansPathsApart(prefix, m, k, l);
    forall form: Form
      ensures Write(Write(form, prefix, m, k), prefix, m, l) == Write(Write(form, prefix, m, l), prefix, m, k)
    {
      SetCommutes(form, KeyPath(prefix, k), Text(m[k]), KeyPath(prefix, l), Text(m[l]));
    }
  }

  lemma MergeFirst(form: Form, prefix: string, m: map<string, string>, k: string, rest: seq<string>)
    ensures BulkMerge(form, prefix, m, [k] + rest) == BulkMerge(Write(form, prefix, m, k), prefix, m, rest)
  {
    assert ([k] + rest)[1..] == rest;
  }

  /** A key may be moved to the front of the order. */
  lemma {:induction false} MoveToFront(form: Form, prefix: string, m: map<string, string>, before: seq<string>,
                                       k: string,
                                       after: seq<string>)
    requires forall x :: x in before ==> Swappable(prefix, m, x, k)
    ensures BulkMerge(form, prefix, m, before + ([k] + after)) == BulkMerge(form, prefix, m, [k] + (before + after))
    decreases |before|
  {
    if before == [] {
      assert before + ([k] + after) == [k] + (before + after);
    } else {
      var b, rest := before[0], before[1..];
      assert b in before && before == [b] + rest;
      assert before + ([k] + after) == [b] + (rest + ([k] + after));
      MergeFirst(form, prefix, m, b, rest + ([k] + after));
      MoveToFront(Write(form, prefix, m, b), prefix, m, rest, k, after);
      MergeFirst(Write(form, prefix, m, b), prefix, m, k, rest + after);
      assert Swappable(prefix, m, b, k);
      MergeFirst(form, prefix, m, k, before + after);
      assert before + after == [b] + (rest + after);
      MergeFirst(Write(form, prefix, m, k), prefix, m, b, rest + after);
    }
  }

  /** When no key is a segment prefix of another, every iteration order builds the same form data. */
  lemma {:induction false} OrdersAgree(form: Form, prefix: string, m: map<string, string>, keys: set<string>,
                                       a: seq<string>, b: seq<string>)
    requires KeysApart(m) && keys <= m.Keys && Iterates(a, keys) && Iterates(b, keys)
    ensures BulkMerge(form, prefix, m, a) == BulkMerge(form, prefix, m, b)
    decreases |a|
  {
    if a == [] {
      IteratesAll(a, keys);
      IteratesAll(b, keys);
    } else {
      var k := a[0];
      var i := IndexOf(b, k);
      var before, after := b[..i], b[i + 1..];
      assert b == before + ([k] + after) && a == [k] + a[1..];
      IteratesRest(a, keys);
      IteratesWithout(b, keys, i);
      forall x | x in before
        ensures Swappable(prefix, m, x, k)
      {
        assert x in b;
        ApartMeansSwappable(prefix, m, x, k);
      }
      MoveToFront(form, prefix, m, before, k, after);
      MergeFirst(form, prefix, m, k, before + after);
      MergeFirst(form, prefix, m, k, a[1..]);
      OrdersAgree(Write(form, prefix, m, k), prefix, m, keys - {k}, a[1..], before + after);
    }
  }

  lemma IndexOf(s: seq<string>, k: string) returns (i: int)
    requires k in s
    ensures 0 <= i < |s| && s[i] == k
  {
    i :| 0 <= i < |s| && s[i] == k;
  }

  lemma IteratesRest(order: seq<string>, keys: set<string>)
    requires order != [] && Iterates(order, keys)
    ensures Iterates(order[1..], keys - {order[0]})
  {
    assert order == [order[0]] + order[1..];
    assert forall i :: 0 <= i < |order| - 1 ==> order[1..][i] == order[i + 1];
  }

  lemma {:induction false} IteratesAll(order: seq<string>, keys: set<string>)
    requires Iterates(order, keys)
    ensures |order| == |keys|
    decreases |order|
  {
    if order == [] {
      assert keys == {};
    } else {
      IteratesRest(order, keys);
      IteratesAll(order[1..], keys - {order[0]});
    }
  }

  function Without(order: seq<string>, i: int): seq<string>
    requires 0 <= i < |order|
  {
    order[..i] + order[i + 1..]
  }

  lemma WithoutAt(order: seq<string>, i: int, j: int)
    requires 0 <= i < |order| && 0 <= j < |order| - 1
    ensures Without(order, i)[j] == order[if j < i then j else j + 1]
  {
  }

  lemma WithoutHolds(order: seq<string>, i: int, k: string)
    requires 0 <= i < |order|
    ensures k in order && k != order[i] ==> k in Without(order, i)
    ensures k in Without(order, i) ==> exists j :: 0 <= j < |order| && j != i && order[j] == k
  {
    if k in order && k != order[i] {
      var j := IndexOf(order, k);
      WithoutAt(order, i, if j < i then j else j - 1);
    }
    if k in Without(order, i) {
      var j := IndexOf(Without(order, i), k);
      WithoutAt(order, i, j);
    }
  }

  lemma IteratesWithout(order: seq<string>, keys: set<string>, i: int)
    requires Iterates(order, keys) && 0 <= i < |order|
    ensures order[i] !in order[..i] && Iterates(order[..i] + order[i + 1..], keys - {order[i]})
  {
    forall k
      ensures k in Without(order, i) <==> k in keys - {order[i]}
    {
      WithoutHolds(order, i, k);
    }
    forall x, y | 0 <= x < y < |Without(order, i)|
      ensures Without(order, i)[x] != Without(order, i)[y]
    {
      WithoutAt(order, i, x);
      WithoutAt(order, i, y);
    }
  }

  lemma {:induction false} SomeOrder(keys: set<string>) returns (order: seq<string>)
    ensures Iterates(order, keys)
  {
    if keys == {} {
      order := [];
    } else {
      var k :| k in keys;
      var rest := SomeOrder(keys - {k});
      order := [k] + rest;
    }
  }

  lemma {:induction false} MergeAppend(form: Form, prefix: string, m: map<string, string>, a: seq<string>,
                                       b: seq<string>)
    ensures BulkMerge(form, prefix, m, a + b) == BulkMerge(BulkMerge(form, prefix, m, a), prefix, m, b)
    decreases |a|
  {
    if a == [] {
      assert a + b == b;
    } else {
      assert (a + b)[1..] == a[1..] + b;
      MergeAppend(Write(form, prefix, m, a[0]), prefix, m, a[1..], b);
    }
  }

  lemma MergeTwo(form: Form, prefix: string, m: map<string, string>, k: string, l: string)
    requires k in m && l in m
    ensures BulkMerge(form, prefix, m, [k, l]) == Write(Write(form, prefix, m, k), prefix, m, l)
  {
    assert [k, l][1..] == [l] && [l][1..] == [];
    assert BulkMerge(Write(form, prefix, m, k), prefix, m, [l])
        == BulkMerge(Write(Write(form, prefix, m, k), prefix, m, l), prefix, m, []);
  }

  lemma SplitIsInjective(a: string, b: string)
    requires SplitDots(a) == SplitDots(b)
    ensures a == b
  {
    JoinSplit(a);
    JoinSplit(b);
  }

  /** The result of a bulk merge is independent of the map's iteration order exactly when no key is a segment prefix
      of another. */
  lemma OrderIndependentIffKeysApart(form: Form, prefix: string, m: map<string, string>)
    ensures (forall a, b :: Iterates(a, m.Keys) && Iterates(b, m.Keys) ==>
              BulkMerge(form, prefix, m, a) == BulkMerge(form, prefix, m, b))
            <==> KeysApart(m)
  {
    if KeysApart(m) {
      forall a, b | Iterates(a, m.Keys) && Iterates(b, m.Keys)
        ensures BulkMerge(form, prefix, m, a) == BulkMerge(form, prefix, m, b)
      {
        OrdersAgree(form, prefix, m, m.Keys, a, b);
      }
    } else {
      var k, l :| k in m && l in m && k != l && SplitDots(k) <= SplitDots(l);
      var a, b := OrdersThatDiffer(form, prefix, m, k, l);
    }
  }

  lemma OrdersThatDiffer(form: Form, prefix: string, m: map<string, string>, k: string, l: string)
    returns (a: seq<string>, b: seq<string>)
    requires k in m && l in m && k != l && SplitDots(k) <= SplitDots(l)
    ensures Iterates(a, m.Keys) && Iterates(b, m.Keys)
    ensures BulkMerge(form, prefix, m, a) != BulkMerge(form, prefix, m, b)
  {
    var rest := SomeOrder(m.Keys - {k, l});
    a, b := rest + [k, l], rest + [l, k];
    LastTwo(m.Keys - {k, l}, rest, k, l);
    LastTwo(m.Keys - {k, l}, rest, l, k);
    assert m.Keys - {k, l} + {k, l} == m.Keys && m.Keys - {k, l} + {l, k} == m.Keys;
    MergeAppend(form, prefix, m, rest, [k, l]);
    MergeAppend(form, prefix, m, rest, [l, k]);
    TwoOrdersDiffer(BulkMerge(form, prefix, m, rest), prefix, m, k, l);
  }

  lemma LastTwo(keys: set<string>, rest: seq<string>, k: string, l: string)
    requires Iterates(rest, keys) && k !in keys && l !in keys && k != l
    ensures Iterates(rest + [k, l], keys + {k, l})
  {
    forall x
      ensures x in rest + [k, l] <==> x in keys + {k, l}
    {
      assert x in rest + [k, l] <==> x in rest || x in [k, l];
    }
  }

  lemma TwoOrdersDiffer(form: Form, prefix: string, m: map<string, string>, k: string, l: string)
    requires k in m && l in m && k != l && SplitDots(k) <= SplitDots(l)
    ensures BulkMerge(form, prefix, m, [k, l]) != BulkMerge(form, prefix, m, [l, k])
  {
    MergeTwo(form, prefix, m, k, l);
    MergeTwo(form, prefix, m, l, k);
    KeyPathPrefix(prefix, k, l);
    KeyPathPrefix(prefix, l, k);
    if SplitDots(k) == SplitDots(l) {
      SplitIsInjective(k, l);
    }
    ComparableWritesDiffer(form, KeyPath(prefix, k), m[k], KeyPath(prefix, l), m[l]);
  }

  lemma {:induction false} OtherEntriesStay(form: Form, prefix: string, m: map<string, string>, order: seq<string>,
                                            k: string)
    requires KeysApart(m) && k in m && k !in order
    ensures Get(BulkMerge(form, prefix, m, order), KeyPath(prefix, k)) == Get(form, KeyPath(prefix, k))
    decreases |order|
  {
    if order != [] {
      if order[0] in m {
        KeysApartMeansPathsApart(prefix, m, order[0], k);
        GetElsewhere(form, KeyPath(prefix, order[0]), Text(m[order[0]]), KeyPath(prefix, k));
      }
      OtherEntriesStay(Write(form, prefix, m, order[0]), prefix, m, order[1..], k);
    }
  }

  /** When no key is a segment prefix of another, no entry of a bulk source overwrites another one. */
  lemma {:induction false} EntryStands(form: Form, prefix: string, m: map<string, string>, keys: set<string>,
                                       order: seq<string>, k: string)
    requires KeysApart(m) && k in m && Iterates(order, keys) && k in order
    ensures Get(BulkMerge(form, prefix, m, order), EntryParts(prefix, k)) == Some(Text(m[k]))
    decreases |order|
  {
    KeyPathIsBelowThePrefix(prefix, k);
    IteratesRest(order, keys);
    if order[0] == k {
      GetAfterSet(form, KeyPath(prefix, k), Text(m[k]));
      OtherEntriesStay(Write(form, prefix, m, k), prefix, m, order[1..], k);
    } else {
      EntryStands(Write(form, prefix, m, order[0]), prefix, m, keys - {order[0]}, order[1..], k);
    }
  }

  /** Whatever is apart from all of them stays. */
  lemma {:induction false} MergeLeavesApart(form: Form, prefix: string, m: map<string, string>, order: seq<string>,
                                            parts: seq<string>)
    requires parts != [] && forall k :: k in m ==> Apart(EntryParts(prefix, k), parts)
    ensures Get(BulkMerge(form, prefix, m, order), parts) == Get(form, parts)
    decreases |order|
  {
    if order != [] {
      if order[0] in m {
        KeyPathIsBelowThePrefix(prefix, order[0]);
        GetElsewhere(form, KeyPath(prefix, order[0]), Text(m[order[0]]), parts);
      }
      MergeLeavesApart(Write(form, prefix, m, order[0]), prefix, m, order[1..], parts);
    }
  }

  /** The merge loop, taking the entries in whatever order the map yields them. */
  method MergeSource(form: Form, prefix: string, m: map<string, string>)
    returns (merged: Form, ghost order: seq<string>)
    ensures Iterates(order, m.Keys) && merged == BulkMerge(form, prefix, m, order)
    ensures KeysApart(m) ==> forall k :: k in m ==> Get(merged, EntryParts(prefix, k)) == Some(Text(m[k]))
    ensures forall parts {:trigger Get(merged, parts)} ::
              parts != [] && (forall k :: k in m ==> Apart(EntryParts(prefix, k), parts)) ==>
              Get(merged, parts) == Get(form, parts)
  {
    merged, order := form, [];
    var todo := m.Keys;
    while todo != {}
      invariant todo <= m.Keys
      invariant Iterates(order, m.Keys - todo)
      invariant merged == BulkMerge(form, prefix, m, order)
      decreases todo
    {
      var k :| k in todo;
      MergeAppend(form, prefix, m, order, [k]);
      assert BulkMerge(merged, prefix, m, [k]) == Write(merged, prefix, m, k) by {
        assert [k][1..] == [];
      }
      merged := SetPath(merged, JoinPath(prefix, k), Text(m[k]));
      order := order + [k];
      todo := todo - {k};
    }
    assert m.Keys - todo == m.Keys;
    if KeysApart(m) {
      forall k | k in m
        ensures Get(merged, EntryParts(prefix, k)) == Some(Text(m[k]))
      {
        EntryStands(form, prefix, m, m.Keys, order, k);
      }
    }
    forall parts | parts != [] && forall k :: k in m ==> Apart(EntryParts(prefix, k), parts)
      ensures Get(merged, parts) == Get(form, parts)
    {
      MergeLeavesApart(form, prefix, m, order, parts);
    }
  }

  // ---------------------------------------------------------------------------------------------------------------
  // The subset order
  // ---------------------------------------------------------------------------------------------------------------

  /** mapSubset on values: maps are compared entry by entry, everything else must be equal. */
  predicate Within(want: Data, got: Data) {
    match want
    case Object(fields) =>
      got.Object? && forall k :: k in fields ==> k in got.fields && Within(fields[k], got.fields[k])
    case _ => want == got
  }

  predicate MapSubset(want: Form, got: Form) {
    Within(Object(want), Object(got))
  }

  lemma {:induction false} WithinReflexive(d: Data)
    ensures Within(d, d)
  {
    if d.Object? {
      forall k | k in d.fields
        ensures Within(d.fields[k], d.fields[k])
      {
        WithinReflexive(d.fields[k]);
      }
    }
  }

  lemma {:induction false} WithinTransitive(a: Data, b: Data, c: Data)
    requires Within(a, b) && Within(b, c)
    ensures Within(a, c)
  {
    if a.Object? {
      forall k | k in a.fields
        ensures k in c.fields && Within(a.fields[k], c.fields[k])
      {
        WithinTransitive(a.fields[k], b.fields[k], c.fields[k]);
      }
    }
  }

  lemma {:induction false} WithinAntisymmetric(a: Data, b: Data)
    requires Within(a, b) && Within(b, a)
    ensures a == b
  {
    if a.Object? {
      forall k | k in a.fields
        ensures k in b.fields && a.fields[k] == b.fields[k]
      {
        WithinAntisymmetric(a.fields[k], b.fields[k]);
      }
      assert a.fields == b.fields;
    }
  }

  /** What drift detection asks: some wanted path holds no value, or another value than a map of more. */
  lemma {:induction false} WithinKeepsPaths(want: Form, got: Form, p: seq<string>)
    requires p != [] && MapSubset(want, got) && Get(want, p).Some?
    ensures Get(got, p).Some? && Within(Get(want, p).value, Get(got, p).value)
    decreases |p|
  {
    assert Within(want[p[0]], got[p[0]]);
    if |p| > 1 {
      WithinKeepsPaths(want[p[0]].fields, got[p[0]].fields, p[1..]);
    }
  }
}
