/** What holds over whole runs of ingest: no receipt is lost, calls only climb, and the order in
    which the copies of one transmission arrive does not matter. */
module PatchHistory {
  import opened Collections
  import opened OrderBy
  import opened CallTable
  import opened Patching
  import opened Ingest

  ghost function Run(cfg: Config, s: Store, inputs: seq<Input>): Store
  {
    if inputs == [] then s
    else Ingested(cfg, Run(cfg, s, inputs[..|inputs| - 1]), inputs[|inputs| - 1])
  }

  /** The store after the first `n` inputs, from empty. */
  ghost function After(cfg: Config, inputs: seq<Input>, n: nat): Store
    requires n <= |inputs|
  {
    Run(cfg, EMPTY, inputs[..n])
  }

  lemma AfterNext(cfg: Config, inputs: seq<Input>, n: nat)
    requires n < |inputs|
    ensures After(cfg, inputs, n + 1) == Ingested(cfg, After(cfg, inputs, n), inputs[n])
  {
    assert inputs[..n + 1][..n] == inputs[..n];
  }

  ghost function OutcomeAt(cfg: Config, inputs: seq<Input>, n: nat): Outcome
    requires n < |inputs|
  {
    Decide(cfg, After(cfg, inputs, n), inputs[n])
  }

  // ---- what every reachable state keeps ----

  /** The received list has no repeats, and names the talkgroup a patched call is filed on. */
  ghost predicate RowOk(cfg: Config, r: Row) {
    && Distinct(r.patches)
    && (GetPatch(cfg.patches, r.system, r.talkgroup).Some? ==> r.talkgroup in r.patches)
  }

  ghost predicate Reachable(cfg: Config, s: Store) {
    s.Valid() && forall id | id in s.calls :: RowOk(cfg, s.calls[id])
  }

  lemma {:induction false} ReportedIsDistinct(patches: seq<nat>, own: nat)
    ensures Distinct(Reported(patches, own))
  {
    AddAllMeans([], patches);
    KeepDistinct((t: nat) => t != own, AddAll([], patches));
  }

  lemma StepKeepsReachable(cfg: Config, s: Store, input: Input)
    requires cfg.Valid() && Reachable(cfg, s)
    ensures Reachable(cfg, Ingested(cfg, s, input))
  {
    hide PatchMatch, DuplicateMatch, AddAll, HomeRank, GetPatch;
    ReportedIsDistinct(input.copy.reported, input.copy.talkgroup);
    CleanAgain(input.copy);
    ArrivalListed(cfg, input.copy);
  }

  lemma ArrivalListed(cfg: Config, copy: Copy)
    requires cfg.Valid()
    ensures var patch := GetPatch(cfg.patches, copy.system, copy.talkgroup);
            patch.Some? ==> copy.talkgroup in ReceivedList(patch, copy)
  {
    hide AddAll, GetPatch;
    AddAllMeans([], copy.reported);
    AddAllMeans(AddAll([], copy.reported), [copy.talkgroup]);
  }

  lemma {:induction false} RunIsReachable(cfg: Config, inputs: seq<Input>, n: nat)
    requires cfg.Valid() && n <= |inputs|
    ensures Reachable(cfg, After(cfg, inputs, n))
  {
    hide Ingested;
    if n > 0 {
      RunIsReachable(cfg, inputs, n - 1);
      AfterNext(cfg, inputs, n - 1);
      StepKeepsReachable(cfg, After(cfg, inputs, n - 1), inputs[n - 1]);
    } else {
      assert inputs[..0] == [];
    }
  }

  // ---- how a row changes ----

  /** A talkgroup's rank in the patch it goes by. */
  function RankAt(cfg: Config, system: nat, talkgroup: nat): nat {
    var patch := GetPatch(cfg.patches, system, talkgroup);
    if patch.Some? then HomeRank(patch.value.talkgroups, talkgroup) else 0
  }

  ghost function Rank(cfg: Config, r: Row): nat { RankAt(cfg, r.system, r.talkgroup) }

  /** A copy on `b` takes a call filed on `a` up, by the patch of `b`. */
  predicate Climbs(cfg: Config, system: nat, a: nat, b: nat) {
    var patch := GetPatch(cfg.patches, system, b);
    && patch.Some? && a in patch.value.talkgroups
    && HomeRank(patch.value.talkgroups, b) > HomeRank(patch.value.talkgroups, a)
  }

  /** Whatever takes a call up takes it up in the sight of its own patch as well. */
  ghost predicate RanksAgree(cfg: Config) {
    forall system: nat, a: nat, b: nat | Climbs(cfg, system, a, b) :: RankAt(cfg, system, a) <= RankAt(cfg, system, b)
  }

  lemma NonOverlappingRanksAgree(cfg: Config)
    requires NonOverlapping(cfg.patches)
    ensures RanksAgree(cfg)
  {
    hide HomeRank;
    forall system: nat, a: nat, b: nat | Climbs(cfg, system, a, b) ensures RankAt(cfg, system, a) <= RankAt(cfg, system, b) {
      var q := GetPatch(cfg.patches, system, b).value;
      assert q.Covers(system, a);
      assert GetPatch(cfg.patches, system, a) == Some(q);
    }
  }

  /** One patch has both talkgroups. */
  ghost predicate SamePatch(cfg: Config, system: nat, a: nat, b: nat) {
    exists p :: p in cfg.patches && p.Covers(system, a) && p.Covers(system, b)
  }

  /** Lists only grow, time and system stay, a row moves only within a patch, and never down. */
  ghost predicate Evolves(cfg: Config, before: Row, after: Row) {
    && after.id == before.id && after.dateTime == before.dateTime && after.system == before.system
    && before.patches <= after.patches
    && (after.talkgroup != before.talkgroup ==> SamePatch(cfg, before.system, before.talkgroup, after.talkgroup))
    && (RanksAgree(cfg) ==> Rank(cfg, before) <= Rank(cfg, after))
  }

  lemma StepEvolves(cfg: Config, s: Store, input: Input, id: nat)
    requires s.Valid() && id in s.calls
    ensures id in Ingested(cfg, s, input).calls && Evolves(cfg, s.calls[id], Ingested(cfg, s, input).calls[id])
  {
    var copy := input.copy;
    if Decide(cfg, s, input) == Joined(id) {
      var patch := GetPatch(cfg.patches, copy.system, copy.talkgroup).value;
      JoinEvolves(cfg, s, copy, patch, s.calls[id]);
    }
  }

  lemma JoinEvolves(cfg: Config, s: Store, copy: Copy, patch: Patch, row: Row)
    requires GetPatch(cfg.patches, copy.system, copy.talkgroup) == Some(patch)
    requires PatchMatch(s.calls, copy, patch.talkgroups, patch.delay) == Some(row)
    ensures Evolves(cfg, row, JoinedRow(patch, copy, row))
    ensures GetPatch(cfg.patches, row.system, row.talkgroup).Some?
  {
    hide GetPatch, HomeRank;
    assert row in PatchRows(s.calls, copy, patch.talkgroups, Seconds(patch.delay));
    assert patch.Covers(row.system, row.talkgroup);
  }

  /** Each talkgroup shares a patch with the next. */
  ghost predicate Linked(cfg: Config, system: nat, path: seq<nat>) {
    forall i | 0 <= i < |path| - 1 :: SamePatch(cfg, system, path[i], path[i + 1])
  }

  /** From one talkgroup to the other by way of patches. */
  ghost predicate Reaches(cfg: Config, system: nat, a: nat, b: nat) {
    exists path :: path != [] && path[0] == a && path[|path| - 1] == b && Linked(cfg, system, path)
  }

  lemma ReachesOn(cfg: Config, system: nat, a: nat, b: nat, c: nat)
    requires Reaches(cfg, system, a, b) && (b == c || SamePatch(cfg, system, b, c))
    ensures Reaches(cfg, system, a, c)
  {
    hide SamePatch;
    if b != c {
      var path :| path != [] && path[0] == a && path[|path| - 1] == b && Linked(cfg, system, path);
      var longer := path + [c];
      assert Linked(cfg, system, longer);
      assert longer != [] && longer[0] == a && longer[|longer| - 1] == c;
    }
  }

  /** Where patches do not overlap, a chain of them is one patch. */
  lemma OnePatch(cfg: Config, system: nat, a: nat, b: nat, c: nat)
    requires NonOverlapping(cfg.patches)
    requires (a == b || SamePatch(cfg, system, a, b)) && (b == c || SamePatch(cfg, system, b, c))
    ensures a == c || SamePatch(cfg, system, a, c)
  {
    if a != b && b != c {
      var p :| p in cfg.patches && p.Covers(system, a) && p.Covers(system, b);
      var q :| q in cfg.patches && q.Covers(system, b) && q.Covers(system, c);
      assert p == q;
    }
  }

  /** What any number of steps make of a row: as one does, but it may have moved by way of several
      patches where they overlap. */
  ghost predicate EvolvesOver(cfg: Config, before: Row, after: Row) {
    && after.dateTime == before.dateTime && after.system == before.system
    && before.patches <= after.patches && Reaches(cfg, before.system, before.talkgroup, after.talkgroup)
    && (RanksAgree(cfg) ==> Rank(cfg, before) <= Rank(cfg, after))
    && (NonOverlapping(cfg.patches) ==>
          before.talkgroup == after.talkgroup || SamePatch(cfg, before.system, before.talkgroup, after.talkgroup))
  }

  lemma EvolvesOn(cfg: Config, a: Row, b: Row, c: Row)
    requires EvolvesOver(cfg, a, b) && Evolves(cfg, b, c)
    ensures EvolvesOver(cfg, a, c)
  {
    hide Rank, RanksAgree, NonOverlapping, SamePatch, Reaches;
    ReachesOn(cfg, a.system, a.talkgroup, b.talkgroup, c.talkgroup);
    if NonOverlapping(cfg.patches) { OnePatch(cfg, a.system, a.talkgroup, b.talkgroup, c.talkgroup); }
  }

  lemma {:induction false} RowsEvolve(cfg: Config, inputs: seq<Input>, m: nat, n: nat, id: nat)
    requires cfg.Valid() && m <= n <= |inputs| && id in After(cfg, inputs, m).calls
    ensures id in After(cfg, inputs, n).calls
    ensures EvolvesOver(cfg, After(cfg, inputs, m).calls[id], After(cfg, inputs, n).calls[id])
  {
    hide Ingested, Evolves, Run;
    var first := After(cfg, inputs, m).calls[id];
    if m < n {
      hide EvolvesOver;
      RowsEvolve(cfg, inputs, m, n - 1, id);
      RunIsReachable(cfg, inputs, n - 1);
      AfterNext(cfg, inputs, n - 1);
      StepEvolves(cfg, After(cfg, inputs, n - 1), inputs[n - 1], id);
      EvolvesOn(cfg, first, After(cfg, inputs, n - 1).calls[id], After(cfg, inputs, n).calls[id]);
    } else {
      ReachesItself(cfg, first.system, first.talkgroup);
    }
  }

  lemma ReachesItself(cfg: Config, system: nat, a: nat)
    ensures Reaches(cfg, system, a, a)
  {
    var path := [a];
    assert Linked(cfg, system, path) && path[0] == a && path[|path| - 1] == a;
  }

  /** In no run of this configuration does any call's rank ever fall. */
  ghost predicate RanksNeverFall(cfg: Config) {
    forall inputs: seq<Input>, m: nat, n: nat, id: nat |
      m <= n <= |inputs| && id in After(cfg, inputs, m).calls && id in After(cfg, inputs, n).calls ::
      Rank(cfg, After(cfg, inputs, m).calls[id]) <= Rank(cfg, After(cfg, inputs, n).calls[id])
  }

  /** Ranks never fall, in any run, if and only if the patches agree on who outranks whom; overlap by
      itself is no harm. */
  lemma RanksNeverFallExactly(cfg: Config)
    requires cfg.Valid()
    ensures RanksNeverFall(cfg) <==> RanksAgree(cfg)
  {
    hide RankAt, Climbs, After, GetPatch;
    if RanksAgree(cfg) {
      forall inputs: seq<Input>, m: nat, n: nat, id: nat |
        m <= n <= |inputs| && id in After(cfg, inputs, m).calls && id in After(cfg, inputs, n).calls
        ensures Rank(cfg, After(cfg, inputs, m).calls[id]) <= Rank(cfg, After(cfg, inputs, n).calls[id])
      {
        RowsEvolve(cfg, inputs, m, n, id);
      }
    } else {
      var system: nat, a: nat, b: nat :| Climbs(cfg, system, a, b) && RankAt(cfg, system, a) > RankAt(cfg, system, b);
      var inputs := TwoCopies(cfg, system, a, b);
      assert Rank(cfg, After(cfg, inputs, 1).calls[1]) > Rank(cfg, After(cfg, inputs, 2).calls[1]);
    }
  }

  /** One copy on each of two talkgroups, at one moment, from an empty store: the call moves across. */
  lemma TwoCopies(cfg: Config, system: nat, a: nat, b: nat) returns (inputs: seq<Input>)
    requires Climbs(cfg, system, a, b)
    ensures |inputs| == 2
    ensures 1 in After(cfg, inputs, 1).calls && 1 in After(cfg, inputs, 2).calls
    ensures After(cfg, inputs, 1).calls[1].system == system && After(cfg, inputs, 1).calls[1].talkgroup == a
    ensures After(cfg, inputs, 2).calls[1].system == system && After(cfg, inputs, 2).calls[1].talkgroup == b
  {
    var first, second := Copy(system, a, 0, []), Copy(system, b, 0, []);
    inputs := [Input(first, false, true), Input(second, false, true)];
    var q := GetPatch(cfg.patches, system, b).value;
    assert inputs[..0] == [];
    AfterNext(cfg, inputs, 0);
    AfterNext(cfg, inputs, 1);
    EmptyStoreStores(cfg, first);
    var one := After(cfg, inputs, 1);
    hide GetPatch, HomeRank, ReceivedList, AddAll;
    var row := one.calls[1];
    OnlyRowMatches(one.calls, second, q, row);
    MatchedCopyJoins(cfg, q, one, second, row);
  }

  lemma EmptyStoreStores(cfg: Config, copy: Copy)
    ensures var after := Ingested(cfg, EMPTY, Input(copy, false, true));
            var patch := GetPatch(cfg.patches, copy.system, copy.talkgroup);
            after.calls == map[1 := Row(1, copy.dateTime, copy.system, copy.talkgroup, ReceivedList(patch, copy))]
  {
    hide GetPatch, ReceivedList;
    var patch := GetPatch(cfg.patches, copy.system, copy.talkgroup);
    if patch.Some? {
      assert PatchRows(map[], copy, patch.value.talkgroups, Seconds(patch.value.delay)) == {};
    }
    assert TwinRows(cfg, map[], copy) == {};
  }

  lemma OnlyRowMatches(calls: Table, copy: Copy, patch: Patch, row: Row)
    requires calls == map[row.id := row] && row.system == copy.system && row.dateTime == copy.dateTime
    requires row.talkgroup in patch.talkgroups && row.talkgroup != copy.talkgroup
    ensures PatchMatch(calls, copy, patch.talkgroups, patch.delay) == Some(row)
  {
    assert PatchRows(calls, copy, patch.talkgroups, Seconds(patch.delay)) == {row};
  }

  const LEADS_WITH_10 := Patch(false, 1, 10, 0, [10, 20, 40], 0)

  const ENDS_WITH_10 := Patch(false, 1, 20, 0, [20, 30, 10], 0)

  lemma OverlappingConfig(cfg: Config)
    requires cfg.patches == [LEADS_WITH_10, ENDS_WITH_10]
    ensures cfg.Valid() && GetPatch(cfg.patches, 1, 10) == Some(LEADS_WITH_10) && GetPatch(cfg.patches, 1, 30) == Some(ENDS_WITH_10)
  {
    assert cfg.patches[1..] == [ENDS_WITH_10];
  }

  /** Ranks are kept only because patches do not overlap: 10 leads one patch and closes another, so
      a copy on 30 moves a call off the highest home it had. */
  lemma OverlapCanLowerARank()
    ensures var cfg := Config([LEADS_WITH_10, ENDS_WITH_10], false, 0, at => at);
            var row := Row(1, 0, 1, 10, [10]);
            var after := Ingested(cfg, Store(map[1 := row], 2), Input(Copy(1, 30, 0, []), false, true));
            && cfg.Valid() && RowOk(cfg, row) && after.calls == map[1 := row.(talkgroup := 30, patches := [10, 30])]
            && Rank(cfg, row) == 3 && Rank(cfg, after.calls[1]) == 2
  {
    hide GetPatch, HomeRank;
    var cfg := Config([LEADS_WITH_10, ENDS_WITH_10], false, 0, at => at);
    OverlappingConfig(cfg);
    RanksHere(LEADS_WITH_10, ENDS_WITH_10);
    var row := Row(1, 0, 1, 10, [10]);
    assert PatchRows(map[1 := row], Copy(1, 30, 0, []), ENDS_WITH_10.talkgroups, 0) == {row};
    var calls := map[1 := row];
    assert PatchMatch(calls, Copy(1, 30, 0, []), ENDS_WITH_10.talkgroups, 0) == Some(row);
    var moved := JoinedRow(ENDS_WITH_10, Copy(1, 30, 0, []), row);
    assert moved == row.(talkgroup := 30, patches := [10, 30]);
    MatchedCopyJoins(cfg, ENDS_WITH_10, Store(calls, 2), Copy(1, 30, 0, []), row);
    assert calls[1 := moved] == map[1 := moved];
  }

  lemma RanksHere(first: Patch, second: Patch)
    requires first.talkgroups == [10, 20, 40] && second.talkgroups == [20, 30, 10]
    ensures HomeRank(first.talkgroups, 10) == 3
    ensures HomeRank(second.talkgroups, 30) == 2 && HomeRank(second.talkgroups, 10) == 1
  {
    assert second.talkgroups[1..] == [30, 10] && [30, 10][1..] == [10];
  }

  // ---- conservation ----

  function DelayOf(cfg: Config, copy: Copy): nat {
    var patch := GetPatch(cfg.patches, copy.system, copy.talkgroup);
    if patch.Some? then 1000 * patch.value.delay else 0
  }

  /** Near enough to a copy to stand for it: within its patch's delay, or in the duplicate window. */
  predicate Near(cfg: Config, copy: Copy, at: int) {
    Abs(at - copy.dateTime) <= DelayOf(cfg, copy) || cfg.InWindow(copy.dateTime, at)
  }

  /** Where the window's bounds lose less than `grain`, that is within the larger of the delay and the
      window, and a grain; with bounds that lose nothing it is within the larger of the two. */
  lemma NearIsClose(cfg: Config, copy: Copy, at: int, grain: nat)
    requires grain > 0 && Near(cfg, copy, at)
    requires forall x: int :: 0 <= x - cfg.edge(x) < grain
    ensures Abs(at - copy.dateTime) <= DelayOf(cfg, copy) || Abs(at - copy.dateTime) < cfg.timeFrame + grain
  {
    var from, to := copy.dateTime - cfg.timeFrame, copy.dateTime + cfg.timeFrame;
    assert 0 <= from - cfg.edge(from) < grain && 0 <= to - cfg.edge(to) < grain;
  }

  predicate Names(r: Row, talkgroup: nat) { r.talkgroup == talkgroup || talkgroup in r.patches }

  /** A stored call of the copy's system, close enough in time, that names where it arrived. */
  ghost predicate Witnessed(cfg: Config, s: Store, copy: Copy) {
    exists id :: id in s.calls && s.calls[id].system == copy.system && Names(s.calls[id], copy.talkgroup) &&
                 Near(cfg, copy, s.calls[id].dateTime)
  }

  lemma IngestWitnesses(cfg: Config, s: Store, input: Input)
    requires cfg.Valid() && s.Valid() && !Decide(cfg, s, input).Dropped?
    ensures Witnessed(cfg, Ingested(cfg, s, input), input.copy)
  {
    var copy := input.copy;
    var outcome := Decide(cfg, s, input);
    var t := Ingested(cfg, s, input);
    var patch := GetPatch(cfg.patches, copy.system, copy.talkgroup);
    hide GetPatch, HomeRank, AddAll, ReceivedList;
    match outcome {
      case Joined(id) =>
        assert s.calls[id] in PatchRows(s.calls, copy, patch.value.talkgroups, Seconds(patch.value.delay));
        assert t.calls[id].dateTime == s.calls[id].dateTime;
      case Duplicate(id) =>
        assert t.calls[id].talkgroup == copy.talkgroup;
      case Stored(id) =>
        assert t.calls[id].talkgroup == copy.talkgroup;
    }
  }

  lemma StepKeepsWitness(cfg: Config, s: Store, input: Input, copy: Copy)
    requires cfg.Valid() && Reachable(cfg, s) && Witnessed(cfg, s, copy)
    ensures Witnessed(cfg, Ingested(cfg, s, input), copy)
  {
    hide Ingested, Near, Rank, GetPatch;
    var id :| id in s.calls && s.calls[id].system == copy.system && Names(s.calls[id], copy.talkgroup) &&
              Near(cfg, copy, s.calls[id].dateTime);
    StepEvolves(cfg, s, input, id);
    var after := Ingested(cfg, s, input).calls[id];
    assert RowOk(cfg, s.calls[id]);
    assert Names(after, copy.talkgroup);
  }

  /** Every copy no plugin dropped is on record from then on, at every later moment, whatever
      promotions follow. */
  lemma {:induction false} NoReceiptIsLost(cfg: Config, inputs: seq<Input>, k: nat, n: nat)
    requires cfg.Valid() && k < n <= |inputs| && !OutcomeAt(cfg, inputs, k).Dropped?
    ensures Witnessed(cfg, After(cfg, inputs, n), inputs[k].copy)
  {
    hide Ingested, Decide, Witnessed;
    RunIsReachable(cfg, inputs, n - 1);
    AfterNext(cfg, inputs, n - 1);
    if k == n - 1 {
      IngestWitnesses(cfg, After(cfg, inputs, k), inputs[k]);
    } else {
      NoReceiptIsLost(cfg, inputs, k, n - 1);
      StepKeepsWitness(cfg, After(cfg, inputs, n - 1), inputs[n - 1], inputs[k].copy);
    }
  }

  // ---- nothing is claimed without a receipt ----

  /** Some copy that arrived on this talkgroup created the row or joined it. */
  ghost predicate Received(cfg: Config, inputs: seq<Input>, n: nat, id: nat, talkgroup: nat)
    requires n <= |inputs|
  {
    exists k :: 0 <= k < n && inputs[k].copy.talkgroup == talkgroup &&
                (OutcomeAt(cfg, inputs, k) == Stored(id) || OutcomeAt(cfg, inputs, k) == Joined(id))
  }

  /** The recorder said so, on the copy that created the row. */
  ghost predicate Announced(cfg: Config, inputs: seq<Input>, n: nat, id: nat, talkgroup: nat)
    requires n <= |inputs|
  {
    exists k :: 0 <= k < n && talkgroup in inputs[k].copy.reported && OutcomeAt(cfg, inputs, k) == Stored(id)
  }

  lemma ListOrigin(cfg: Config, copy: Copy, talkgroup: nat)
    requires talkgroup in ReceivedList(GetPatch(cfg.patches, copy.system, copy.talkgroup), copy)
    ensures talkgroup == copy.talkgroup || talkgroup in copy.reported
  {
    hide GetPatch, AddAll;
    AddAllMeans([], copy.reported);
    AddAllMeans(AddAll([], copy.reported), [copy.talkgroup]);
  }

  lemma ClaimsLast(cfg: Config, inputs: seq<Input>, n: nat, id: nat, talkgroup: nat)
    requires 0 < n <= |inputs|
    ensures Received(cfg, inputs, n - 1, id, talkgroup) ==> Received(cfg, inputs, n, id, talkgroup)
    ensures Announced(cfg, inputs, n - 1, id, talkgroup) ==> Announced(cfg, inputs, n, id, talkgroup)
    ensures var (copy, outcome) := (inputs[n - 1].copy, OutcomeAt(cfg, inputs, n - 1));
            && (copy.talkgroup == talkgroup && (outcome == Stored(id) || outcome == Joined(id)) ==>
                  Received(cfg, inputs, n, id, talkgroup))
            && (talkgroup in copy.reported && outcome == Stored(id) ==> Announced(cfg, inputs, n, id, talkgroup))
  {
    hide Decide, After;
  }

  /** Where a row's names come from: this copy, or the row as it was. */
  lemma NamesOrigin(cfg: Config, s: Store, input: Input, id: nat, talkgroup: nat)
    requires id in Ingested(cfg, s, input).calls && Names(Ingested(cfg, s, input).calls[id], talkgroup)
    ensures var (copy, outcome) := (input.copy, Decide(cfg, s, input));
            var filed := Ingested(cfg, s, input).calls[id].talkgroup;
            if outcome == Stored(id) then talkgroup == copy.talkgroup || (talkgroup != filed && talkgroup in copy.reported)
            else (outcome == Joined(id) && talkgroup == copy.talkgroup) ||
                 (id in s.calls && Names(s.calls[id], talkgroup) && (talkgroup == filed ==> talkgroup == s.calls[id].talkgroup))
  {
    hide Decide, GetPatch, ReceivedList, HomeRank;
    var copy := input.copy;
    if Decide(cfg, s, input) == Stored(id) && talkgroup != copy.talkgroup { ListOrigin(cfg, copy, talkgroup); }
  }

  /** The talkgroup a call is filed on, at any moment, really received a copy of it; every other
      talkgroup it names received one too, or was announced by the recorder. */
  lemma {:induction false} EveryHomeWasReceived(cfg: Config, inputs: seq<Input>, n: nat, id: nat, talkgroup: nat)
    requires cfg.Valid() && n <= |inputs| && id in After(cfg, inputs, n).calls
    requires Names(After(cfg, inputs, n).calls[id], talkgroup)
    ensures Received(cfg, inputs, n, id, talkgroup) ||
            (talkgroup != After(cfg, inputs, n).calls[id].talkgroup && Announced(cfg, inputs, n, id, talkgroup))
  {
    hide Decide, Ingested, Names, Received, Announced;
    if n > 0 {
      AfterNext(cfg, inputs, n - 1);
      ClaimsLast(cfg, inputs, n, id, talkgroup);
      var s, outcome := After(cfg, inputs, n - 1), OutcomeAt(cfg, inputs, n - 1);
      NamesOrigin(cfg, s, inputs[n - 1], id, talkgroup);
      if outcome != Stored(id) && !(outcome == Joined(id) && talkgroup == inputs[n - 1].copy.talkgroup) {
        EveryHomeWasReceived(cfg, inputs, n - 1, id, talkgroup);
      }
    }
  }

  // ---- arrival order does not matter ----

  /** One transmission: one copy per talkgroup of one patch, stamped within its delay of each
      other, nothing reported by the recorder. */
  ghost predicate Transmission(cfg: Config, patch: Patch, copies: seq<Copy>) {
    && copies != []
    && (forall c | c in copies :: c.reported == [] && c.system == patch.systemId &&
          GetPatch(cfg.patches, c.system, c.talkgroup) == Some(patch))
    && (forall i, j | 0 <= i < j < |copies| :: copies[i].talkgroup != copies[j].talkgroup)
    && (forall c, d | c in copies && d in copies :: Abs(c.dateTime - d.dateTime) <= 1000 * patch.delay)
  }

  /** No other call on the patch's talkgroups is near enough to be taken for this one. */
  ghost predicate Quiet(cfg: Config, patch: Patch, s: Store, copies: seq<Copy>) {
    forall r, c | r in Rows(s.calls) && c in copies && r.system == patch.systemId && r.talkgroup in patch.talkgroups ::
      !Near(cfg, c, r.dateTime)
  }

  /** No plugin interferes. */
  function Plain(copies: seq<Copy>): seq<Input> { seq(|copies|, i requires 0 <= i < |copies| => Input(copies[i], false, true)) }

  function Talkgroups(copies: seq<Copy>): seq<nat> { seq(|copies|, i requires 0 <= i < |copies| => copies[i].talkgroup) }

  function Highest(patch: Patch, talkgroups: seq<nat>): nat
    requires talkgroups != []
  {
    var init, last := talkgroups[..|talkgroups| - 1], talkgroups[|talkgroups| - 1];
    if init == [] then last
    else if HomeRank(patch.talkgroups, last) > HomeRank(patch.talkgroups, Highest(patch, init)) then last
    else Highest(patch, init)
  }

  lemma {:induction false} HighestMeans(patch: Patch, talkgroups: seq<nat>)
    requires talkgroups != []
    ensures Highest(patch, talkgroups) in talkgroups
    ensures forall t | t in talkgroups :: HomeRank(patch.talkgroups, t) <= HomeRank(patch.talkgroups, Highest(patch, talkgroups))
  {
    var init, last := talkgroups[..|talkgroups| - 1], talkgroups[|talkgroups| - 1];
    assert talkgroups == init + [last];
    if init != [] { HighestMeans(patch, init); }
  }

  ghost function Collapsed(patch: Patch, s: Store, copies: seq<Copy>): Store
    requires copies != []
  {
    var row := Row(s.nextId, copies[0].dateTime, patch.systemId, Highest(patch, Talkgroups(copies)), Talkgroups(copies));
    Store(s.calls[s.nextId := row], s.nextId + 1)
  }

  lemma FirstCopyIsStored(cfg: Config, patch: Patch, s: Store, copy: Copy)
    requires cfg.Valid() && s.Valid() && Transmission(cfg, patch, [copy]) && Quiet(cfg, patch, s, [copy])
    ensures Ingested(cfg, s, Input(copy, false, true)) == Collapsed(patch, s, [copy])
  {
    hide HomeRank, GetPatch, Quiet, PatchMatch, DuplicateMatch, ReceivedList;
    assert copy in [copy];
    assert patch in cfg.patches && patch.Covers(copy.system, copy.talkgroup);
    NothingNear(cfg, patch, s, copy);
    OwnTalkgroupOnly(patch, copy);
    assert Talkgroups([copy]) == [copy.talkgroup] && [copy.talkgroup][..0] == [];
  }

  lemma NothingNear(cfg: Config, patch: Patch, s: Store, copy: Copy)
    requires Quiet(cfg, patch, s, [copy]) && GetPatch(cfg.patches, copy.system, copy.talkgroup) == Some(patch)
    ensures PatchMatch(s.calls, copy, patch.talkgroups, patch.delay).None?
    ensures DuplicateMatch(cfg, s.calls, copy).None?
  {
    hide GetPatch;
    assert copy in [copy] && patch in cfg.patches && patch.Covers(copy.system, copy.talkgroup);
    assert PatchRows(s.calls, copy, patch.talkgroups, Seconds(patch.delay)) == {};
  }

  lemma OwnTalkgroupOnly(patch: Patch, copy: Copy)
    requires copy.reported == [] && copy.talkgroup != 0
    ensures ReceivedList(Some(patch), copy) == [copy.talkgroup]
  {
    assert [copy.talkgroup][..0] == [];
  }

  lemma LaterCopyIsNew(cfg: Config, patch: Patch, copies: seq<Copy>, copy: Copy)
    requires copies != [] && Transmission(cfg, patch, copies + [copy])
    ensures copy.talkgroup !in Talkgroups(copies)
    ensures forall t | t in Talkgroups(copies) :: t in patch.talkgroups
    ensures GetPatch(cfg.patches, copy.system, copy.talkgroup) == Some(patch) && copy.system == patch.systemId
    ensures Abs(copies[0].dateTime - copy.dateTime) <= Seconds(patch.delay)
  {
    hide GetPatch;
    var all := copies + [copy];
    assert all[|copies|] == copy && copy in all && all[0] in all;
    forall i | 0 <= i < |copies| ensures copies[i].talkgroup in patch.talkgroups && copies[i].talkgroup != copy.talkgroup {
      assert copies[i] == all[i] && all[i] in all;
    }
  }

  lemma MatchedCopyJoins(cfg: Config, patch: Patch, t: Store, copy: Copy, row: Row)
    requires GetPatch(cfg.patches, copy.system, copy.talkgroup) == Some(patch)
    requires PatchMatch(t.calls, copy, patch.talkgroups, patch.delay) == Some(row)
    ensures Ingested(cfg, t, Input(copy, false, true)) == t.(calls := t.calls[row.id := JoinedRow(patch, copy, row)])
  {
    hide GetPatch, HomeRank, PatchMatch, DuplicateMatch;
  }

  lemma LaterCopyJoins(cfg: Config, patch: Patch, s: Store, copies: seq<Copy>, copy: Copy)
    requires cfg.Valid() && s.Valid() && copies != []
    requires Transmission(cfg, patch, copies + [copy]) && Quiet(cfg, patch, s, copies + [copy])
    ensures Ingested(cfg, Collapsed(patch, s, copies), Input(copy, false, true)) == Collapsed(patch, s, copies + [copy])
  {
    hide Ingested, Highest, Transmission, Quiet, GetPatch, PatchMatch, HomeRank;
    var talkgroups := Talkgroups(copies);
    var t := Collapsed(patch, s, copies);
    var row := t.calls[s.nextId];
    LaterCopyIsNew(cfg, patch, copies, copy);
    HighestMeans(patch, talkgroups);
    HighestStep(patch, talkgroups, copy.talkgroup);
    assert Talkgroups(copies + [copy]) == talkgroups + [copy.talkgroup];
    OnlyCandidate(cfg, patch, s, copies + [copy], copy, row);
    MatchedCopyJoins(cfg, patch, t, copy, row);
  }

  lemma HighestStep(patch: Patch, talkgroups: seq<nat>, last: nat)
    requires talkgroups != []
    ensures var best := Highest(patch, talkgroups);
            Highest(patch, talkgroups + [last]) ==
              if HomeRank(patch.talkgroups, last) > HomeRank(patch.talkgroups, best) then last else best
  {
    assert (talkgroups + [last])[..|talkgroups|] == talkgroups;
  }

  lemma OnlyCandidate(cfg: Config, patch: Patch, s: Store, all: seq<Copy>, copy: Copy, row: Row)
    requires s.Valid() && Transmission(cfg, patch, all) && Quiet(cfg, patch, s, all) && copy in all
    requires row.id == s.nextId && row.system == patch.systemId && row.talkgroup in patch.talkgroups
    requires row.talkgroup != copy.talkgroup && Abs(row.dateTime - copy.dateTime) <= Seconds(patch.delay)
    ensures PatchMatch(s.calls[row.id := row], copy, patch.talkgroups, patch.delay) == Some(row)
  {
    hide HomeRank, GetPatch;
    var rows := PatchRows(s.calls[row.id := row], copy, patch.talkgroups, Seconds(patch.delay));
    forall r | r in rows ensures r == row {
      assert r.id == row.id || r in Rows(s.calls);
    }
    assert row in rows && rows == {row};
  }

  /** Whatever the order of arrival, the copies leave one row: filed on the highest-ranked
      talkgroup that received one, received list exactly the talkgroups that did. */
  lemma {:induction false} TransmissionCollapses(cfg: Config, patch: Patch, s: Store, copies: seq<Copy>)
    requires cfg.Valid() && s.Valid() && Transmission(cfg, patch, copies) && Quiet(cfg, patch, s, copies)
    ensures Run(cfg, s, Plain(copies)) == Collapsed(patch, s, copies)
    decreases |copies|
  {
    assert copies != [];
    hide Ingested, Collapsed, Transmission, Quiet;
    var init, last := copies[..|copies| - 1], copies[|copies| - 1];
    assert copies == init + [last];
    LastPlain(cfg, s, init, last);
    hide Run, Plain;
    if init == [] {
      assert copies == [last];
      FirstCopyIsStored(cfg, patch, s, last);
    } else {
      WithoutTheLast(cfg, patch, s, init, last);
      TransmissionCollapses(cfg, patch, s, init);
      LaterCopyJoins(cfg, patch, s, init, last);
    }
  }

  lemma LastPlain(cfg: Config, s: Store, init: seq<Copy>, last: Copy)
    ensures Run(cfg, s, Plain(init + [last])) == Ingested(cfg, Run(cfg, s, Plain(init)), Input(last, false, true))
    ensures Run(cfg, s, Plain([])) == s
  {
    hide Ingested;
    var all := Plain(init + [last]);
    assert all[..|all| - 1] == Plain(init) && all[|all| - 1] == Input(last, false, true);
  }

  lemma WithoutTheLast(cfg: Config, patch: Patch, s: Store, init: seq<Copy>, last: Copy)
    requires init != [] && Transmission(cfg, patch, init + [last]) && Quiet(cfg, patch, s, init + [last])
    ensures Transmission(cfg, patch, init) && Quiet(cfg, patch, s, init)
  {
    hide GetPatch, Near;
    var all := init + [last];
    assert forall c | c in init :: c in all;
    assert forall i | 0 <= i < |init| :: all[i] == init[i];
  }

  /** So two arrival orders of the same talkgroups end on the same talkgroup, with the same
      received set, in a store otherwise the same. */
  lemma Confluence(cfg: Config, patch: Patch, s: Store, copies: seq<Copy>, others: seq<Copy>)
    requires cfg.Valid() && s.Valid()
    requires Transmission(cfg, patch, copies) && Quiet(cfg, patch, s, copies)
    requires Transmission(cfg, patch, others) && Quiet(cfg, patch, s, others)
    requires forall t :: t in Talkgroups(copies) <==> t in Talkgroups(others)
    ensures var (one, two) := (Run(cfg, s, Plain(copies)), Run(cfg, s, Plain(others)));
            var id := s.nextId;
            && one.calls.Keys == two.calls.Keys == s.calls.Keys + {id}
            && (forall old_ | old_ in s.calls :: one.calls[old_] == two.calls[old_] == s.calls[old_])
            && one.calls[id].talkgroup == two.calls[id].talkgroup
            && one.calls[id].talkgroup in Talkgroups(copies)
            && (forall t | t in Talkgroups(copies) ::
                  HomeRank(patch.talkgroups, t) <= HomeRank(patch.talkgroups, one.calls[id].talkgroup))
            && (forall t :: t in one.calls[id].patches <==> t in Talkgroups(copies))
            && (forall t :: t in two.calls[id].patches <==> t in Talkgroups(copies))
  {
    hide Run, Highest, HomeRank, Quiet;
    TransmissionCollapses(cfg, patch, s, copies);
    TransmissionCollapses(cfg, patch, s, others);
    var (a, b) := (Talkgroups(copies), Talkgroups(others));
    HighestMeans(patch, a);
    HighestMeans(patch, b);
    var i :| 0 <= i < |copies| && copies[i].talkgroup == Highest(patch, a);
    assert copies[i] in copies;
    RankIsInjective(patch.talkgroups, Highest(patch, a), Highest(patch, b));
  }
}
