/** The date-bound probes of a search, and when the fast form may stand in for the scan.

    Filters that reduce to a finite set of (system, talkgroup) pairs let each bound be taken as
    the extreme over one index seek per pair instead of a walk of the whole time index. */
module ProbeBounds {
  import opened Collections
  import opened OrderBy
  import opened CallTable

  const PROBE_PAIR_LIMIT := 200

  /** system -> talkgroups */
  type Scope = map<nat, seq<nat>>

  datatype Pair = Pair(system: nat, talkgroup: nat)

  /** The named groups and tags as one client sees them. */
  datatype View = View(groups: map<string, Scope>, tags: map<string, Scope>)

  /** `elsewhere` stands for every filter that is no set of pairs: a client's access scope, the
      legacy singular system, a time of day. */
  datatype Filters = Filters(
    elsewhere: Option<Row -> bool>,
    systems: Option<seq<nat>>,
    talkgroups: Option<seq<Pair>>,
    group: Option<string>,
    tag: Option<string>,
    groups: Option<seq<string>>,
    tags: Option<seq<string>>)

  predicate Admits(scope: Scope, p: Pair) {
    p.system in scope && p.talkgroup in scope[p.system]
  }

  /** A name nobody configured resolves to the empty scope. */
  function Lookup(scopes: map<string, Scope>, name: string): Scope {
    if name in scopes then scopes[name] else map[]
  }

  function IdKey(): nat -> Key { (n: nat) => Key(n, 0, 0) }

  function Nats(s: set<nat>): seq<nat> { Sorted(IdKey(), s) }

  function Elems(scope: Scope, system: nat): set<nat> {
    if system in scope then set t | t in scope[system] else {}
  }

  function Names(names: seq<string>): set<string> { set n | n in names }

  // ---- named groups and tags folded together ----

  function MergedSystems(names: set<string>, scopes: map<string, Scope>): set<nat> {
    set name, s | name in names && s in Lookup(scopes, name) :: s
  }

  function MergedTalkgroups(names: set<string>, scopes: map<string, Scope>, system: nat): set<nat> {
    set name, t | name in names && t in Elems(Lookup(scopes, name), system) :: t
  }

  /** What merging means: it depends on which names were asked for, not on their order, their
      repeats, or the order maps are walked in. */
  function Merged(names: set<string>, scopes: map<string, Scope>): Scope {
    map s | s in MergedSystems(names, scopes) && MergedTalkgroups(names, scopes, s) != {} ::
      Nats(MergedTalkgroups(names, scopes, s))
  }

  method AddTalkgroups(list: seq<nat>, talkgroups: seq<nat>) returns (merged: seq<nat>)
    requires Distinct(list)
    ensures Distinct(merged)
    ensures (set t | t in merged) == (set t | t in list) + (set t | t in talkgroups)
  {
    merged := list;
    for i := 0 to |talkgroups|
      invariant Distinct(merged)
      invariant forall t :: t in merged <==> t in list || t in talkgroups[..i]
    {
      assert talkgroups[..i + 1] == talkgroups[..i] + [talkgroups[i]];
      if talkgroups[i] !in merged {
        merged := merged + [talkgroups[i]];
      }
    }
    assert talkgroups[..|talkgroups|] == talkgroups;
  }

  /** The talkgroups of one named scope, its systems visited in no particular order. */
  method AddScope(before: Scope, scope: Scope) returns (bySystem: Scope)
    requires forall s | s in before :: Distinct(before[s]) && before[s] != []
    ensures forall s | s in bySystem :: Distinct(bySystem[s]) && bySystem[s] != []
    ensures forall s :: Elems(bySystem, s) == Elems(before, s) + Elems(scope, s)
  {
    bySystem := before;
    var left := scope.Keys;
    while left != {}
      invariant left <= scope.Keys
      invariant forall s | s in bySystem :: Distinct(bySystem[s]) && bySystem[s] != []
      invariant forall s | s in left :: Elems(bySystem, s) == Elems(before, s)
      invariant forall s | s !in left :: Elems(bySystem, s) == Elems(before, s) + Elems(scope, s)
    {
      var s :| s in left;
      left := left - {s};
      var list := AddTalkgroups(if s in bySystem then bySystem[s] else [], scope[s]);
      if list != [] {
        bySystem := bySystem[s := list];
      }
      assert Elems(bySystem, s) == set t | t in list;
    }
  }

  lemma OneMoreName(names: seq<string>, i: nat, scopes: map<string, Scope>)
    requires i < |names|
    ensures var (done, more) := (Names(names[..i]), Names(names[..i + 1]));
            var scope := Lookup(scopes, names[i]);
            && MergedSystems(more, scopes) == MergedSystems(done, scopes) + scope.Keys
            && forall s :: MergedTalkgroups(more, scopes, s) == MergedTalkgroups(done, scopes, s) + Elems(scope, s)
  {
    assert names[..i + 1] == names[..i] + [names[i]];
    assert Names(names[..i + 1]) == Names(names[..i]) + {names[i]};
  }

  /** The dedup-as-you-go lists, sorted, are the canonical map. */
  lemma SortedListsAreMerged(merged: Scope, names: set<string>, scopes: map<string, Scope>)
    requires forall s | s in merged :: merged[s] != []
    requires forall s :: Elems(merged, s) == MergedTalkgroups(names, scopes, s)
    ensures (map s | s in merged :: Nats(Elems(merged, s))) == Merged(names, scopes)
  {
    hide Nats, MergedTalkgroups, MergedSystems;
    var sorted := map s | s in merged :: Nats(Elems(merged, s));
    forall s ensures s in sorted <==> s in Merged(names, scopes) {
      MergedWhere(names, scopes, s);
      if s in merged { assert merged[s][0] in Elems(merged, s); }
    }
  }

  lemma MergedWhere(names: set<string>, scopes: map<string, Scope>, s: nat)
    ensures s in Merged(names, scopes) <==> MergedTalkgroups(names, scopes, s) != {}
  {
    hide Nats;
    if MergedTalkgroups(names, scopes, s) != {} {
      var t :| t in MergedTalkgroups(names, scopes, s);
      var name :| name in names && t in Elems(Lookup(scopes, name), s);
      assert s in Lookup(scopes, name);
    }
  }

  method MergeScopes(names: seq<string>, scopes: map<string, Scope>) returns (bySystem: Scope, systemIds: seq<nat>)
    ensures bySystem == Merged(Names(names), scopes)
    ensures systemIds == Nats(MergedSystems(Names(names), scopes))
  {
    hide Merged, MergedSystems, MergedTalkgroups, Names, Sorted, Elems;
    var merged: Scope, seen: set<nat> := map[], {};
    EmptyMerge(scopes);
    for i := 0 to |names|
      invariant forall s | s in merged :: Distinct(merged[s]) && merged[s] != []
      invariant forall s :: Elems(merged, s) == MergedTalkgroups(Names(names[..i]), scopes, s)
      invariant seen == MergedSystems(Names(names[..i]), scopes)
    {
      OneMoreName(names, i, scopes);
      var scope := Lookup(scopes, names[i]);
      seen := seen + scope.Keys;
      merged := AddScope(merged, scope);
    }
    assert names[..|names|] == names;
    SortedListsAreMerged(merged, Names(names), scopes);
    bySystem := map s | s in merged :: Nats(Elems(merged, s));
    systemIds := Nats(seen);
  }

  lemma EmptyMerge(scopes: map<string, Scope>)
    ensures MergedSystems(Names([]), scopes) == {}
    ensures forall s :: Elems(map[], s) == MergedTalkgroups(Names([]), scopes, s)
  {
  }

  // ---- several constraints at once ----

  function Allowed(scope: Scope, system: nat): nat -> bool { (t: nat) => t in Elems(scope, system) }

  function IntersectStep(result: Scope, scope: Scope): Scope {
    map s | s in result && Keep(Allowed(scope, s), result[s]) != [] :: Keep(Allowed(scope, s), result[s])
  }

  function IntersectAll(sets: seq<Scope>): Scope
    requires sets != []
  {
    if |sets| == 1 then sets[0] else IntersectStep(IntersectAll(sets[..|sets| - 1]), sets[|sets| - 1])
  }

  method IntersectPair(result: Scope, scope: Scope) returns (next: Scope)
    ensures next == IntersectStep(result, scope)
  {
    hide Keep;
    next := map[];
    var left := result.Keys;
    while left != {}
      invariant left <= result.Keys
      invariant forall s :: s in next <==> s in IntersectStep(result, scope) && s !in left
      invariant forall s | s in next :: next[s] == IntersectStep(result, scope)[s]
    {
      var s :| s in left;
      left := left - {s};
      var kept := Keep(Allowed(scope, s), result[s]);
      if kept != [] {
        next := next[s := kept];
      }
    }
  }

  method IntersectScopes(sets: seq<Scope>) returns (result: Scope)
    requires sets != []
    ensures result == IntersectAll(sets)
  {
    hide IntersectStep;
    result := sets[0];
    for i := 1 to |sets|
      invariant result == IntersectAll(sets[..i])
    {
      assert sets[..i + 1][..i] == sets[..i];
      result := IntersectPair(result, sets[i]);
    }
    assert sets[..|sets|] == sets;
  }

  lemma StepAdmits(result: Scope, scope: Scope, p: Pair)
    ensures Admits(IntersectStep(result, scope), p) <==> Admits(result, p) && Admits(scope, p)
  {
    if Admits(result, p) {
      assert p.talkgroup in Keep(Allowed(scope, p.system), result[p.system]) <==> Admits(scope, p);
    }
  }

  predicate AllAdmit(sets: seq<Scope>, p: Pair) { forall s | s in sets :: Admits(s, p) }

  lemma OneMoreConstraint(init: seq<Scope>, last: Scope, p: Pair)
    ensures AllAdmit(init + [last], p) <==> AllAdmit(init, p) && Admits(last, p)
  {
    hide Admits;
    assert last in init + [last] && forall s | s in init :: s in init + [last];
  }

  lemma {:induction false} IntersectAdmits(sets: seq<Scope>, p: Pair)
    requires sets != []
    ensures Admits(IntersectAll(sets), p) <==> AllAdmit(sets, p)
  {
    var init, last := sets[..|sets| - 1], sets[|sets| - 1];
    assert sets == init + [last];
    OneMoreConstraint(init, last, p);
    if init == [] {
      assert AllAdmit([], p) && IntersectAll(sets) == last;
    } else {
      hide Admits, AllAdmit, IntersectStep;
      IntersectAdmits(init, p);
      StepAdmits(IntersectAll(init), last, p);
    }
  }

  // ---- the plan ----

  function BySystem(pairs: seq<Pair>): (scope: Scope)
    ensures forall p :: Admits(scope, p) <==> p in pairs
  {
    if pairs == [] then map[] else
      var init, last := pairs[..|pairs| - 1], pairs[|pairs| - 1];
      assert pairs == init + [last];
      var scope := BySystem(init);
      scope[last.system := (if last.system in scope then scope[last.system] else []) + [last.talkgroup]]
  }

  /** Every filter that is an OR of pairs, in the order the plan builder meets them. */
  function PairSets(view: View, f: Filters): seq<Scope> {
    (if f.talkgroups.Some? then [BySystem(f.talkgroups.value)] else []) +
    (if f.group.Some? then [Lookup(view.groups, f.group.value)] else []) +
    (if f.tag.Some? then [Lookup(view.tags, f.tag.value)] else []) +
    (if f.groups.Some? then [Merged(Names(f.groups.value), view.groups)] else []) +
    (if f.tags.Some? then [Merged(Names(f.tags.value), view.tags)] else [])
  }

  function Narrow(pairs: Scope, systems: Option<seq<nat>>): Scope {
    if systems.Some? && systems.value != [] then map s | s in pairs && s in systems.value :: pairs[s] else pairs
  }

  /** Sorting a list that may hold repeats. */
  function Insert(x: nat, q: seq<nat>): (r: seq<nat>)
    ensures forall y :: y in r <==> y == x || y in q
  {
    if q == [] || x <= q[0] then [x] + q else
      assert q == [q[0]] + q[1..];
      [q[0]] + Insert(x, q[1..])
  }

  function InsertionSort(q: seq<nat>): (r: seq<nat>)
    ensures forall y :: y in r <==> y in q
  {
    if q == [] then [] else
      assert q == [q[0]] + q[1..];
      Insert(q[0], InsertionSort(q[1..]))
  }

  function PairsOf(system: nat, talkgroups: seq<nat>): (r: seq<Pair>)
    ensures forall p :: p in r <==> p.system == system && p.talkgroup in talkgroups
  {
    if talkgroups == [] then [] else
      assert talkgroups == [talkgroups[0]] + talkgroups[1..];
      [Pair(system, talkgroups[0])] + PairsOf(system, talkgroups[1..])
  }

  function Flatten(systemIds: seq<nat>, pairs: Scope): (r: seq<Pair>)
    requires forall s | s in systemIds :: s in pairs
    ensures forall p :: p in r <==> p.system in systemIds && Admits(pairs, p)
  {
    if systemIds == [] then [] else
      var init, last := systemIds[..|systemIds| - 1], systemIds[|systemIds| - 1];
      assert systemIds == init + [last];
      Flatten(init, pairs) + PairsOf(last, InsertionSort(pairs[last]))
  }

  function ProbePairs(view: View, f: Filters): Option<seq<Pair>> {
    var sets := PairSets(view, f);
    if f.elsewhere.Some? || sets == [] then None else
      var pairs := Narrow(IntersectAll(sets), f.systems);
      var flat := Flatten(Nats(pairs.Keys), pairs);
      if 0 < |flat| <= PROBE_PAIR_LIMIT then Some(flat) else None
  }

  method GroupPairs(pairs: seq<Pair>) returns (bySystem: Scope)
    ensures bySystem == BySystem(pairs)
  {
    bySystem := map[];
    for i := 0 to |pairs|
      invariant bySystem == BySystem(pairs[..i])
    {
      var p := pairs[i];
      assert pairs[..i + 1][..i] == pairs[..i];
      bySystem := bySystem[p.system := (if p.system in bySystem then bySystem[p.system] else []) + [p.talkgroup]];
    }
    assert pairs[..|pairs|] == pairs;
  }

  method FlattenPairs(systemIds: seq<nat>, pairs: Scope) returns (flat: seq<Pair>)
    requires forall s | s in systemIds :: s in pairs
    ensures flat == Flatten(systemIds, pairs)
  {
    hide PairsOf, InsertionSort;
    flat := [];
    for i := 0 to |systemIds|
      invariant flat == Flatten(systemIds[..i], pairs)
    {
      assert systemIds[..i + 1][..i] == systemIds[..i];
      flat := flat + PairsOf(systemIds[i], InsertionSort(pairs[systemIds[i]]));
    }
    assert systemIds[..|systemIds|] == systemIds;
  }

  method CollectPairSets(view: View, f: Filters) returns (pairSets: seq<Scope>)
    ensures pairSets == PairSets(view, f)
  {
    hide Sorted, Merged, BySystem, Lookup;
    pairSets := [];
    if f.talkgroups.Some? {
      var bySystem := GroupPairs(f.talkgroups.value);
      pairSets := pairSets + [bySystem];
    }
    ghost var pairs := if f.talkgroups.Some? then [BySystem(f.talkgroups.value)] else [];
    assert pairSets == pairs;
    if f.group.Some? { pairSets := pairSets + [Lookup(view.groups, f.group.value)]; }
    ghost var group := if f.group.Some? then [Lookup(view.groups, f.group.value)] else [];
    assert pairSets == pairs + group;
    if f.tag.Some? { pairSets := pairSets + [Lookup(view.tags, f.tag.value)]; }
    ghost var tag := if f.tag.Some? then [Lookup(view.tags, f.tag.value)] else [];
    assert pairSets == pairs + group + tag;
    if f.groups.Some? {
      var bySystem, _ := MergeScopes(f.groups.value, view.groups);
      pairSets := pairSets + [bySystem];
    }
    ghost var groups := if f.groups.Some? then [Merged(Names(f.groups.value), view.groups)] else [];
    assert pairSets == pairs + group + tag + groups;
    if f.tags.Some? {
      var bySystem, _ := MergeScopes(f.tags.value, view.tags);
      pairSets := pairSets + [bySystem];
    }
  }

  method BuildProbePairs(view: View, f: Filters) returns (probePairs: Option<seq<Pair>>)
    ensures probePairs == ProbePairs(view, f)
  {
    hide PairSets, IntersectAll, Flatten, Narrow, Sorted;
    var pairSets := CollectPairSets(view, f);
    probePairs := None;
    if f.elsewhere.None? && |pairSets| > 0 {
      var all := IntersectScopes(pairSets);
      var pairs := Narrow(all, f.systems);
      var flat := FlattenPairs(Nats(pairs.Keys), pairs);
      if 0 < |flat| <= PROBE_PAIR_LIMIT {
        probePairs := Some(flat);
      }
    }
  }

  // ---- the clause the scan runs against ----

  /** A singular group or tag that resolves to nothing adds no clause at all. */
  predicate SingularClause(scope: Scope, p: Pair) { scope == map[] || Admits(scope, p) }

  predicate ProbeWhere(view: View, f: Filters, r: Row) {
    var p := Pair(r.system, r.talkgroup);
    && (f.elsewhere.Some? ==> f.elsewhere.value(r))
    && (f.systems.Some? ==> r.system in f.systems.value)
    && (f.talkgroups.Some? ==> p in f.talkgroups.value)
    && (f.group.Some? ==> SingularClause(Lookup(view.groups, f.group.value), p))
    && (f.tag.Some? ==> SingularClause(Lookup(view.tags, f.tag.value), p))
    && (f.groups.Some? ==> AnyAdmits(f.groups.value, view.groups, p))
    && (f.tags.Some? ==> AnyAdmits(f.tags.value, view.tags, p))
  }

  lemma MergedAdmits(names: seq<string>, scopes: map<string, Scope>, p: Pair)
    ensures Admits(Merged(Names(names), scopes), p) <==> exists n | n in names :: Admits(Lookup(scopes, n), p)
  {
    hide Sorted;
    var all := Names(names);
    assert Admits(Merged(all, scopes), p) <==> p.talkgroup in MergedTalkgroups(all, scopes, p.system);
    if n :| n in names && Admits(Lookup(scopes, n), p) {
      assert n in all && p.talkgroup in Elems(Lookup(scopes, n), p.system);
    }
  }

  predicate AnyAdmits(names: seq<string>, scopes: map<string, Scope>, p: Pair) {
    exists n | n in names :: Admits(Lookup(scopes, n), p)
  }

  lemma AllSetsAdmit(view: View, f: Filters, p: Pair)
    requires PairSets(view, f) != []
    ensures Admits(IntersectAll(PairSets(view, f)), p) <==>
            && (f.talkgroups.Some? ==> p in f.talkgroups.value)
            && (f.group.Some? ==> Admits(Lookup(view.groups, f.group.value), p))
            && (f.tag.Some? ==> Admits(Lookup(view.tags, f.tag.value), p))
            && (f.groups.Some? ==> AnyAdmits(f.groups.value, view.groups, p))
            && (f.tags.Some? ==> AnyAdmits(f.tags.value, view.tags, p))
  {
    hide Merged, BySystem, IntersectAll, Admits;
    IntersectAdmits(PairSets(view, f), p);
    if f.groups.Some? { MergedAdmits(f.groups.value, view.groups, p); }
    if f.tags.Some? { MergedAdmits(f.tags.value, view.tags, p); }
  }

  lemma SomePair(view: View, f: Filters, flat: seq<Pair>)
    requires ProbePairs(view, f) == Some(flat)
    ensures flat != [] && PairSets(view, f) != [] && f.elsewhere.None?
    ensures forall p :: p in flat <==> Admits(Narrow(IntersectAll(PairSets(view, f)), f.systems), p)
  {
    hide PairSets, IntersectAll, Narrow, Flatten;
  }

  lemma NarrowAdmits(pairs: Scope, systems: Option<seq<nat>>, p: Pair)
    requires systems != Some([])
    ensures Admits(Narrow(pairs, systems), p) <==> Admits(pairs, p) && (systems.Some? ==> p.system in systems.value)
  {
  }

  lemma PairIsAdmitted(view: View, f: Filters, flat: seq<Pair>, r: Row)
    requires ProbePairs(view, f) == Some(flat) && f.systems != Some([])
    ensures Pair(r.system, r.talkgroup) in flat <==> ProbeWhere(view, f, r)
  {
    hide ProbePairs, PairSets, IntersectAll, Narrow, Admits, Lookup, AnyAdmits;
    var p := Pair(r.system, r.talkgroup);
    SomePair(view, f, flat);
    NarrowAdmits(IntersectAll(PairSets(view, f)), f.systems, p);
    AllSetsAdmit(view, f, p);
    if f.group.Some? { SingularIsNotEmpty(view, f, flat); }
    if f.tag.Some? { SingularIsNotEmpty(view, f, flat); }
  }

  lemma SingularIsNotEmpty(view: View, f: Filters, flat: seq<Pair>)
    requires ProbePairs(view, f) == Some(flat)
    ensures f.group.Some? ==> Lookup(view.groups, f.group.value) != map[]
    ensures f.tag.Some? ==> Lookup(view.tags, f.tag.value) != map[]
  {
    hide ProbePairs, Lookup, Merged, BySystem;
    if f.group.Some? {
      assert Lookup(view.groups, f.group.value) in PairSets(view, f);
      NotEmpty(view, f, flat, Lookup(view.groups, f.group.value));
    }
    if f.tag.Some? {
      assert Lookup(view.tags, f.tag.value) in PairSets(view, f);
      NotEmpty(view, f, flat, Lookup(view.tags, f.tag.value));
    }
  }

  /** Whenever the plan takes the fast form, its pairs are exactly those the clause admits, if and
      only if the systems filter is not the empty list: that one reaches the clause as "match
      nothing" but never narrows the pairs. */
  lemma ProbePairsExact(view: View, f: Filters, flat: seq<Pair>)
    requires ProbePairs(view, f) == Some(flat)
    ensures (forall r: Row :: Pair(r.system, r.talkgroup) in flat <==> ProbeWhere(view, f, r))
            <==> f.systems != Some([])
  {
    hide ProbePairs;
    if f.systems == Some([]) {
      SomePair(view, f, flat);
      var p := flat[0];
      var r := Row(0, 0, p.system, p.talkgroup, []);
      assert p in flat && !ProbeWhere(view, f, r);
    } else {
      forall r: Row ensures Pair(r.system, r.talkgroup) in flat <==> ProbeWhere(view, f, r) {
        PairIsAdmitted(view, f, flat, r);
      }
    }
  }

  /** The exception, in one request: no systems wanted, one pair offered. */
  lemma EmptySystemsListIsIgnored()
    ensures var view := View(map[], map[]);
            var f := Filters(None, Some([]), Some([Pair(1, 5)]), None, None, None, None);
            ProbePairs(view, f) == Some([Pair(1, 5)]) && forall r :: !ProbeWhere(view, f, r)
  {
    var pairs := [Pair(1, 5)];
    assert pairs[..|pairs| - 1] == [] && BySystem([]) == map[];
    assert BySystem(pairs) == map[1 := [5]] by {
      var none: Scope := map[];
      var five: seq<nat> := [] + [5];
      assert BySystem(pairs) == none[1 := five];
      assert five == [5];
    }
    var ids := Nats({1});
    assert ids[0] in ids && ids == [1];
    assert map[1 := [5]].Keys == {1} && [1][..0] == [] && [5][1..] == [];
    assert InsertionSort([5]) == [5] && Flatten([1], map[1 := [5]]) == pairs;
  }

  /** An empty constraint leaves no pair, and with no pair the plan does not take the fast form. */
  lemma NotEmpty(view: View, f: Filters, flat: seq<Pair>, scope: Scope)
    requires ProbePairs(view, f) == Some(flat) && scope in PairSets(view, f)
    ensures scope != map[]
  {
    hide PairSets, IntersectAll;
    IntersectAdmits(PairSets(view, f), flat[0]);
    assert flat[0] in flat;
  }

  // ---- when the fast form is taken ----

  predicate NoRepeats(scope: Scope) { forall s | s in scope :: Distinct(scope[s]) }

  lemma {:induction false} InsertDistinct(x: nat, q: seq<nat>)
    requires Distinct(q) && x !in q
    ensures Distinct(Insert(x, q))
  {
    if q != [] && x > q[0] {
      assert q == [q[0]] + q[1..];
      InsertDistinct(x, q[1..]);
      assert q[0] !in q[1..] && q[0] !in Insert(x, q[1..]);
    }
  }

  lemma {:induction false} SortDistinct(q: seq<nat>)
    requires Distinct(q)
    ensures Distinct(InsertionSort(q))
  {
    if q != [] {
      assert q == [q[0]] + q[1..];
      SortDistinct(q[1..]);
      assert q[0] !in q[1..];
      InsertDistinct(q[0], InsertionSort(q[1..]));
    }
  }

  lemma {:induction false} PairsOfDistinct(system: nat, talkgroups: seq<nat>)
    requires Distinct(talkgroups)
    ensures Distinct(PairsOf(system, talkgroups))
  {
    if talkgroups != [] {
      assert talkgroups == [talkgroups[0]] + talkgroups[1..];
      PairsOfDistinct(system, talkgroups[1..]);
      assert Pair(system, talkgroups[0]) !in PairsOf(system, talkgroups[1..]);
    }
  }

  lemma {:induction false} FlattenDistinct(systemIds: seq<nat>, pairs: Scope)
    requires Distinct(systemIds) && NoRepeats(pairs) && forall s | s in systemIds :: s in pairs
    ensures Distinct(Flatten(systemIds, pairs))
  {
    if systemIds != [] {
      hide InsertionSort, PairsOf;
      var init, last := systemIds[..|systemIds| - 1], systemIds[|systemIds| - 1];
      assert systemIds == init + [last];
      FlattenDistinct(init, pairs);
      SortDistinct(pairs[last]);
      PairsOfDistinct(last, InsertionSort(pairs[last]));
      JoinDistinct(Flatten(init, pairs), PairsOf(last, InsertionSort(pairs[last])));
    }
  }

  lemma JoinDistinct(a: seq<Pair>, b: seq<Pair>)
    requires Distinct(a) && Distinct(b) && forall p | p in a :: p !in b
    ensures Distinct(a + b)
  {
    forall i, j | 0 <= i < j < |a + b| ensures (a + b)[i] != (a + b)[j] {
      if i < |a| <= j { assert a[i] in a && b[j - |a|] in b; }
    }
  }

  lemma {:induction false} IntersectNoRepeats(sets: seq<Scope>)
    requires sets != [] && NoRepeats(sets[0])
    ensures NoRepeats(IntersectAll(sets))
  {
    if |sets| > 1 {
      var init, last := sets[..|sets| - 1], sets[|sets| - 1];
      IntersectNoRepeats(init);
      var before := IntersectAll(init);
      forall s | s in IntersectStep(before, last) ensures Distinct(IntersectStep(before, last)[s]) {
        KeepDistinct(Allowed(last, s), before[s]);
      }
    }
  }

  /** What the pair filters ask for, narrowed to the systems wanted where any are named. */
  ghost predicate Asked(view: View, f: Filters, p: Pair) {
    && (f.talkgroups.Some? ==> p in f.talkgroups.value)
    && (f.group.Some? ==> Admits(Lookup(view.groups, f.group.value), p))
    && (f.tag.Some? ==> Admits(Lookup(view.tags, f.tag.value), p))
    && (f.groups.Some? ==> AnyAdmits(f.groups.value, view.groups, p))
    && (f.tags.Some? ==> AnyAdmits(f.tags.value, view.tags, p))
    && (f.systems.Some? && f.systems.value != [] ==> p.system in f.systems.value)
  }

  predicate HasPairFilter(f: Filters) {
    f.talkgroups.Some? || f.group.Some? || f.tag.Some? || f.groups.Some? || f.tags.Some?
  }

  lemma FlatIsAsked(view: View, f: Filters, p: Pair)
    requires HasPairFilter(f)
    ensures PairSets(view, f) != []
    ensures var pairs := Narrow(IntersectAll(PairSets(view, f)), f.systems);
            p in Flatten(Nats(pairs.Keys), pairs) <==> Asked(view, f, p)
  {
    AllSetsAdmit(view, f, p);
    hide IntersectAll, PairSets, Flatten, Admits, AnyAdmits;
    NarrowMeans(IntersectAll(PairSets(view, f)), f.systems, p);
    var pairs := Narrow(IntersectAll(PairSets(view, f)), f.systems);
    InAScope(pairs, p);
  }

  lemma NarrowMeans(pairs: Scope, systems: Option<seq<nat>>, p: Pair)
    ensures Admits(Narrow(pairs, systems), p) <==>
              Admits(pairs, p) && (systems.Some? && systems.value != [] ==> p.system in systems.value)
    ensures NoRepeats(pairs) ==> NoRepeats(Narrow(pairs, systems))
  {
  }

  lemma InAScope(pairs: Scope, p: Pair)
    ensures Admits(pairs, p) ==> p.system in Nats(pairs.Keys)
  {
  }

  function FlatPairs(view: View, f: Filters): seq<Pair>
    requires PairSets(view, f) != []
  {
    var pairs := Narrow(IntersectAll(PairSets(view, f)), f.systems);
    Flatten(Nats(pairs.Keys), pairs)
  }

  lemma FlatIsDistinct(view: View, f: Filters)
    requires PairSets(view, f) != [] && NoRepeats(PairSets(view, f)[0])
    ensures Distinct(FlatPairs(view, f))
  {
    hide PairSets, IntersectAll, Flatten, Narrow, NoRepeats;
    var sets := PairSets(view, f);
    var pairs := Narrow(IntersectAll(sets), f.systems);
    IntersectNoRepeats(sets);
    NarrowMeans(IntersectAll(sets), f.systems, Pair(0, 0));
    NatsDistinct(pairs.Keys);
    FlattenDistinct(Nats(pairs.Keys), pairs);
  }

  lemma FlatIsWanted(view: View, f: Filters, wanted: set<Pair>)
    requires HasPairFilter(f) && forall p :: p in wanted <==> Asked(view, f, p)
    ensures PairSets(view, f) != []
    ensures |wanted| <= |FlatPairs(view, f)| && (FlatPairs(view, f) != [] ==> |wanted| > 0)
    ensures Distinct(FlatPairs(view, f)) ==> |FlatPairs(view, f)| == |wanted|
  {
    FlatIsAsked(view, f, Pair(0, 0));
    hide PairSets, Asked, IntersectAll, Flatten, Narrow, Distinct;
    var flat := FlatPairs(view, f);
    forall p ensures p in flat <==> p in wanted { FlatIsAsked(view, f, p); }
    hide FlatPairs;
    assert Elements(flat) == wanted;
    ElementsCount(flat);
    if flat != [] { assert flat[0] in wanted; }
  }

  /** The fast form is taken only for one to two hundred pairs with nothing else asked; and where the
      first filter repeats no pair, whenever that is so. */
  lemma FastFormIsTaken(view: View, f: Filters, wanted: set<Pair>)
    requires forall p :: p in wanted <==> Asked(view, f, p)
    ensures ProbePairs(view, f).Some? ==> f.elsewhere.None? && HasPairFilter(f) && 0 < |wanted| <= 200
    ensures f.elsewhere.None? && HasPairFilter(f) && 0 < |wanted| <= 200 &&
              PairSets(view, f) != [] && NoRepeats(PairSets(view, f)[0]) ==>
              ProbePairs(view, f).Some?
  {
    if HasPairFilter(f) {
      FlatIsWanted(view, f, wanted);
      hide Asked, IntersectAll, Flatten, Narrow, NoRepeats, Distinct, BySystem, Merged, Lookup;
      if NoRepeats(PairSets(view, f)[0]) { FlatIsDistinct(view, f); }
    }
  }

  lemma NatsDistinct(s: set<nat>)
    ensures Distinct(Nats(s))
  {
    forall i, j | 0 <= i < j < |Nats(s)| ensures Nats(s)[i] != Nats(s)[j] {
      assert Below(IdKey()(Nats(s)[i]), IdKey()(Nats(s)[j]));
    }
  }

  // ---- the two forms of a bound ----

  function TimeKey(newest: bool): int -> Key { (t: int) => Key(if newest then -t else t, 0, 0) }

  predicate NoLater(newest: bool, x: int, y: int) { if newest then y <= x else x <= y }

  /** min or max; null over no rows. */
  function Extreme(newest: bool, times: set<int>): (bound: Option<int>)
    ensures times == {} <==> bound == None
    ensures bound.Some? ==> bound.value in times
    ensures bound.Some? ==> forall t | t in times :: NoLater(newest, bound.value, t)
  {
    if times == {} then None else Some(First(TimeKey(newest), times))
  }

  function TimesOf(t: Table, p: Pair): set<int> {
    set r | r in Rows(t) && r.system == p.system && r.talkgroup == p.talkgroup :: r.dateTime
  }

  function TimesAt(t: Table, pairs: seq<Pair>): set<int> { set p, at | p in pairs && at in TimesOf(t, p) :: at }

  function TimesWhere(view: View, f: Filters, t: Table): set<int> {
    set r | r in Rows(t) && ProbeWhere(view, f, r) :: r.dateTime
  }

  /** The fast form: an index seek per pair, then the extreme of those. */
  predicate Beaten(newest: bool, arms: set<int>, at: int) { exists best | best in arms :: NoLater(newest, best, at) }

  lemma ExtremeOfArms(newest: bool, arms: set<int>, times: set<int>)
    requires arms <= times && forall at | at in times :: Beaten(newest, arms, at)
    ensures Extreme(newest, arms) == Extreme(newest, times)
  {
    hide Extreme;
    if times != {} {
      assert Beaten(newest, arms, Extreme(newest, times).value);
    }
  }

  method FastProbe(newest: bool, pairs: seq<Pair>, t: Table) returns (bound: Option<int>)
    ensures bound == Extreme(newest, TimesAt(t, pairs))
  {
    hide TimesOf, Extreme, Beaten;
    var arms: set<int> := {};
    for i := 0 to |pairs|
      invariant arms <= TimesAt(t, pairs[..i])
      invariant forall at | at in TimesAt(t, pairs[..i]) :: Beaten(newest, arms, at)
    {
      var seek := Extreme(newest, TimesOf(t, pairs[i]));
      ArmAdded(newest, pairs, i, t, arms);
      if seek.Some? {
        arms := arms + {seek.value};
      }
    }
    assert pairs[..|pairs|] == pairs;
    ExtremeOfArms(newest, arms, TimesAt(t, pairs));
    bound := Extreme(newest, arms);
  }

  lemma ArmAdded(newest: bool, pairs: seq<Pair>, i: nat, t: Table, arms: set<int>)
    requires i < |pairs|
    requires arms <= TimesAt(t, pairs[..i]) && forall at | at in TimesAt(t, pairs[..i]) :: Beaten(newest, arms, at)
    ensures var seek := Extreme(newest, TimesOf(t, pairs[i]));
            var more := if seek.Some? then arms + {seek.value} else arms;
            more <= TimesAt(t, pairs[..i + 1]) && forall at | at in TimesAt(t, pairs[..i + 1]) :: Beaten(newest, more, at)
  {
    hide TimesOf, Extreme;
    var done, all := pairs[..i], pairs[..i + 1];
    var seek := Extreme(newest, TimesOf(t, pairs[i]));
    var more := if seek.Some? then arms + {seek.value} else arms;
    assert all == done + [pairs[i]];
    assert pairs[i] in all && forall p | p in done :: p in all;
    forall at: int | at in TimesAt(t, all) ensures Beaten(newest, more, at) {
      var p :| p in all && at in TimesOf(t, p);
      if p in done {
        assert at in TimesAt(t, done);
        var best :| best in arms && NoLater(newest, best, at);
        assert best in more;
      } else {
        assert NoLater(newest, seek.value, at);
      }
    }
    forall p, at: int | p in all && at in TimesOf(t, p) ensures at in TimesAt(t, all) {
    }
  }

  /** The bound the fast form reports is the first `dateTime` of the full scan, on every table. */
  lemma FastProbeIsTheScan(newest: bool, view: View, f: Filters, flat: seq<Pair>, t: Table)
    requires ProbePairs(view, f) == Some(flat) && f.systems != Some([])
    ensures Extreme(newest, TimesAt(t, flat))
         == Extreme(newest, TimesWhere(view, f, t))
  {
    hide ProbeWhere, ProbePairs, Extreme;
    ProbePairsExact(view, f, flat);
    var fast := TimesAt(t, flat);
    forall at ensures at in fast <==> at in TimesWhere(view, f, t) {
      if at in TimesWhere(view, f, t) {
        var r :| r in Rows(t) && ProbeWhere(view, f, r) && r.dateTime == at;
        assert at in TimesOf(t, Pair(r.system, r.talkgroup));
      }
    }
    assert fast == TimesWhere(view, f, t);
  }
}
