/** The part of ingest that collapses patched copies, rejects duplicates and stores the rest.

    One transmission arrives once per member talkgroup. The first copy becomes a row; each later
    one joins it, and may move it up to the talkgroup it arrived on. Times are in milliseconds. */
module Ingest {
  import opened Collections
  import opened OrderBy
  import opened CallTable
  import opened Patching

  /** `edge` is what a bound of the duplicate window becomes by being written into the query as text,
      which on some backends drops the fraction of a second. */
  datatype Config = Config(patches: seq<Patch>, detectDuplicates: bool, timeFrame: nat, edge: int -> int)
  {
    predicate Valid() { forall p | p in patches :: Normalized(p) }

    predicate InWindow(at: int, stored: int) { edge(at - timeFrame) <= stored <= edge(at + timeFrame) }
  }

  /** A copy as it reaches the patch stage, with the patches its recorder reported. */
  datatype Copy = Copy(system: nat, talkgroup: nat, dateTime: int, reported: seq<nat>)

  /** `keep` is what a plugin answers when asked to keep a duplicate, `admit` what the filter
      before storing answers. */
  datatype Input = Input(copy: Copy, keep: bool, admit: bool)

  datatype Store = Store(calls: Table, nextId: nat)
  {
    ghost predicate Valid() { nextId > 0 && forall id | id in calls :: 0 < id < nextId }
  }

  const EMPTY := Store(map[], 1)

  datatype Outcome = Joined(id: nat) | Duplicate(id: nat) | Dropped | Stored(id: nat)

  function Abs(x: int): nat { if x < 0 then -x else x }

  function Seconds(n: nat): nat { 1000 * n }

  // ---- finding the call a copy belongs to ----

  /** Nearest in time first, then earliest, then lowest id. */
  function Nearness(at: int): Row -> Key { (r: Row) => Key(Abs(r.dateTime - at), r.dateTime, r.id) }

  function ById(): Row -> Key { (r: Row) => Key(r.id, 0, 0) }

  /** Rows of the copy's system within `window` of it, on another of the given homes. */
  function PatchRows(t: Table, copy: Copy, homes: seq<nat>, window: nat): set<Row> {
    set r | r in Rows(t) && Abs(r.dateTime - copy.dateTime) <= window && r.system == copy.system &&
            r.talkgroup in homes && r.talkgroup != copy.talkgroup
  }

  function FirstOf(key: Row -> Key, rows: set<Row>): (first: Option<Row>)
    requires Injective(key, rows)
    ensures first.None? <==> rows == {}
    ensures first.Some? ==> IsFirst(key, rows, first.value)
  {
    if rows == {} then None else Some(First(key, rows))
  }

  /** The stored call a patched copy duplicates: the nearest one the window admits. */
  function PatchMatch(t: Table, copy: Copy, homes: seq<nat>, delay: nat): (found: Option<Row>)
    ensures found.Some? ==> found.value in Rows(t)
  {
    FirstOf(Nearness(copy.dateTime), PatchRows(t, copy, homes, Seconds(delay)))
  }

  function TwinRows(cfg: Config, t: Table, copy: Copy): set<Row> {
    set r | r in Rows(t) && cfg.InWindow(copy.dateTime, r.dateTime) &&
            r.system == copy.system && r.talkgroup == copy.talkgroup
  }

  /** A call of the copy's own talkgroup inside the duplicate window. */
  function DuplicateMatch(cfg: Config, t: Table, copy: Copy): (found: Option<Row>)
    ensures found.Some? ==> found.value in Rows(t)
  {
    FirstOf(ById(), TwinRows(cfg, t, copy))
  }

  /** Nearer in time wins, then the earlier row, then the lower id. */
  predicate Preferred(at: int, a: Row, b: Row) {
    var (gapA, gapB) := (Abs(a.dateTime - at), Abs(b.dateTime - at));
    gapA < gapB || (gapA == gapB && (a.dateTime < b.dateTime || (a.dateTime == b.dateTime && a.id < b.id)))
  }

  predicate Eligible(t: Table, copy: Copy, homes: seq<nat>, delay: nat, r: Row) {
    && r.id in t && t[r.id] == r && r.system == copy.system && r.talkgroup in homes && r.talkgroup != copy.talkgroup
    && copy.dateTime - 1000 * delay <= r.dateTime <= copy.dateTime + 1000 * delay
  }

  /** The lookup returns a row if and only if it is eligible and preferred to every other eligible
      row, and none exactly when nothing is eligible. */
  lemma PatchMatchIsNearest(t: Table, copy: Copy, homes: seq<nat>, delay: nat, r: Row)
    ensures PatchMatch(t, copy, homes, delay) == Some(r) <==>
              Eligible(t, copy, homes, delay, r) &&
              forall other | Eligible(t, copy, homes, delay, other) && other != r :: Preferred(copy.dateTime, r, other)
    ensures PatchMatch(t, copy, homes, delay).None? <==> forall other :: !Eligible(t, copy, homes, delay, other)
  {
    var rows := PatchRows(t, copy, homes, Seconds(delay));
    forall other ensures other in rows <==> Eligible(t, copy, homes, delay, other) {
      if Eligible(t, copy, homes, delay, other) { assert t[other.id] == other; }
    }
    hide Eligible, PatchRows;
    var key := Nearness(copy.dateTime);
    forall a, b ensures Preferred(copy.dateTime, a, b) <==> Below(key(a), key(b)) {}
    var found := PatchMatch(t, copy, homes, delay);
    if found.Some? && found.value != r && r in rows {
      assert Below(key(found.value), key(r)) && !Below(key(r), key(found.value));
    }
  }

  /** With no delay only equal timestamps qualify, and there nearest-first is lowest-id-first. */
  lemma ExactBranchAgrees(t: Table, copy: Copy, homes: seq<nat>)
    ensures PatchMatch(t, copy, homes, 0) ==
            FirstOf(ById(), set r | r in PatchRows(t, copy, homes, 0) && r.dateTime == copy.dateTime)
  {
    var exact := set r | r in PatchRows(t, copy, homes, 0) && r.dateTime == copy.dateTime;
    assert exact == PatchRows(t, copy, homes, 0);
    if exact != {} {
      var f, g := First(Nearness(copy.dateTime), exact), First(ById(), exact);
      assert f == g;
    }
  }

  method GetPatchDuplicate(t: Table, copy: Copy, homes: seq<nat>, delay: nat) returns (found: Option<Row>)
    requires forall id | id in t :: id > 0
    ensures found == PatchMatch(t, copy, homes, delay)
  {
    var others: seq<nat> := [];
    for i := 0 to |homes|
      invariant forall h :: h in others <==> h in homes[..i] && h != copy.talkgroup
    {
      assert homes[..i + 1] == homes[..i] + [homes[i]];
      if homes[i] != copy.talkgroup {
        others := others + [homes[i]];
      }
    }
    assert homes[..|homes|] == homes;
    if delay == 0 {
      ExactBranchAgrees(t, copy, homes);
      var rows := set r | r in Rows(t) && r.dateTime == copy.dateTime && r.system == copy.system && r.talkgroup in others;
      assert rows == set r | r in PatchRows(t, copy, homes, 0) && r.dateTime == copy.dateTime;
      return FirstOf(ById(), rows);
    }
    var window := Seconds(delay);
    var admitted := set r | r in Rows(t) && copy.dateTime - window <= r.dateTime <= copy.dateTime + window &&
                            r.system == copy.system && r.talkgroup in others;
    assert admitted == PatchRows(t, copy, homes, window);
    found := NearestInWindow(admitted, copy.dateTime);
  }

  function ByTime(): Row -> Key { (r: Row) => Key(r.dateTime, r.id, 0) }

  predicate IsNearest(rows: seq<Row>, at: int, best: Option<Row>) {
    match best
    case None => rows == []
    case Some(b) => b in rows && forall r | r in rows && r != b :: Below(Nearness(at)(b), Nearness(at)(r))
  }

  lemma NearestStep(rows: seq<Row>, i: nat, at: int, best: Option<Row>)
    requires i < |rows| && IsNearest(rows[..i], at, best)
    requires forall r | r in rows[..i] :: Below(ByTime()(r), ByTime()(rows[i]))
    ensures var closer := best.None? || Abs(rows[i].dateTime - at) < Abs(best.value.dateTime - at);
            IsNearest(rows[..i + 1], at, if closer then Some(rows[i]) else best)
  {
    assert rows[..i + 1] == rows[..i] + [rows[i]];
  }

  lemma RisingPrefix(rows: seq<Row>, i: nat)
    requires Ascending(ByTime(), rows) && i < |rows|
    ensures forall r | r in rows[..i] :: Below(ByTime()(r), ByTime()(rows[i]))
  {
  }

  lemma NearestEnds(admitted: set<Row>, rows: seq<Row>, at: int, best: Option<Row>)
    requires Injective(ById(), admitted)
    ensures rows == [] && best.None? ==> IsNearest(rows, at, best)
    ensures Injective(Nearness(at), admitted)
    ensures IsNearest(rows, at, best) && (forall r :: r in rows <==> r in admitted) ==>
              best == FirstOf(Nearness(at), admitted)
  {
    if IsNearest(rows, at, best) && (forall r :: r in rows <==> r in admitted) && rows != [] {
      assert rows[0] in admitted;
      var first := First(Nearness(at), admitted);
      assert first in rows;
    }
  }

  /** Rows come by (dateTime, id); only a strictly smaller gap displaces the best so far. */
  method NearestInWindow(admitted: set<Row>, at: int) returns (best: Option<Row>)
    requires Injective(ById(), admitted) && forall r | r in admitted :: r.id > 0
    ensures Injective(Nearness(at), admitted) && best == FirstOf(Nearness(at), admitted)
  {
    hide Sorted, IsNearest, Ascending, Below;
    var rows := Sorted(ByTime(), admitted);
    var bestGap := 0;
    best := None;
    NearestEnds(admitted, [], at, best);
    for i := 0 to |rows|
      invariant IsNearest(rows[..i], at, best)
      invariant best.Some? ==> bestGap == Abs(best.value.dateTime - at)
    {
      RisingPrefix(rows, i);
      NearestStep(rows, i, at, best);
      var gap := Abs(rows[i].dateTime - at);
      if best.None? || gap < bestGap {
        best, bestGap := Some(rows[i]), gap;
      }
    }
    assert rows[..|rows|] == rows;
    NearestEnds(admitted, rows, at, best);
  }

  // ---- one copy through ingest ----

  /** The stored list joined by the talkgroup a copy arrived on. */
  function WithTalkgroup(patches: seq<nat>, talkgroup: nat): seq<nat> {
    if talkgroup in patches then patches else patches + [talkgroup]
  }

  /** Whatever the recorder reported, minus the call's own talkgroup. */
  function Reported(patches: seq<nat>, own: nat): seq<nat> {
    Keep((t: nat) => t != own, AddAll([], patches))
  }

  function ReceivedList(patch: Option<Patch>, copy: Copy): seq<nat> {
    if patch.Some? then AddAll(AddAll([], copy.reported), [copy.talkgroup]) else Reported(copy.reported, copy.talkgroup)
  }

  function Promotes(patch: Patch, copy: Copy, row: Row): bool {
    HomeRank(patch.talkgroups, copy.talkgroup) > HomeRank(patch.talkgroups, row.talkgroup)
  }

  function JoinedRow(patch: Patch, copy: Copy, row: Row): Row {
    row.(patches := WithTalkgroup(row.patches, copy.talkgroup),
         talkgroup := if Promotes(patch, copy, row) then copy.talkgroup else row.talkgroup)
  }

  function Decide(cfg: Config, s: Store, input: Input): (outcome: Outcome)
    ensures outcome.Joined? ==> outcome.id in s.calls && GetPatch(cfg.patches, input.copy.system, input.copy.talkgroup).Some?
    ensures outcome.Stored? ==> outcome.id == s.nextId
  {
    var copy := input.copy;
    var patch := GetPatch(cfg.patches, copy.system, copy.talkgroup);
    var original := if patch.Some? then PatchMatch(s.calls, copy, patch.value.talkgroups, patch.value.delay) else None;
    var duplicate := DuplicateMatch(cfg, s.calls, copy);
    if original.Some? && !input.keep then Joined(original.value.id)
    else if original.None? && cfg.detectDuplicates && duplicate.Some? && !input.keep then Duplicate(duplicate.value.id)
    else if !input.admit then Dropped
    else Stored(s.nextId)
  }

  /** The transmission is already here, through another member of the patch. */
  ghost predicate HasSibling(cfg: Config, s: Store, copy: Copy) {
    var patch := GetPatch(cfg.patches, copy.system, copy.talkgroup);
    patch.Some? && exists r :: Eligible(s.calls, copy, patch.value.talkgroups, patch.value.delay, r)
  }

  predicate IsTwin(cfg: Config, copy: Copy, r: Row) {
    && r.system == copy.system && r.talkgroup == copy.talkgroup
    && cfg.edge(copy.dateTime - cfg.timeFrame) <= r.dateTime <= cfg.edge(copy.dateTime + cfg.timeFrame)
  }

  /** The recording is already here, on the very same talkgroup. */
  ghost predicate HasTwin(cfg: Config, s: Store, copy: Copy) {
    exists id :: id in s.calls && IsTwin(cfg, copy, s.calls[id])
  }

  /** What becomes of a copy depends on whether a sibling or a twin is stored, and on nothing else
      about the store. */
  lemma OutcomeMeans(cfg: Config, s: Store, input: Input)
    ensures var outcome := Decide(cfg, s, input);
            var (sibling, twin) := (HasSibling(cfg, s, input.copy), HasTwin(cfg, s, input.copy));
            && (outcome.Joined? <==> sibling && !input.keep)
            && (outcome.Duplicate? <==> !sibling && cfg.detectDuplicates && twin && !input.keep)
            && (outcome.Dropped? <==> !outcome.Joined? && !outcome.Duplicate? && !input.admit)
  {
    hide GetPatch, PatchMatch, DuplicateMatch, HasSibling, HasTwin;
    SiblingIsFound(cfg, s, input.copy);
    TwinIsFound(cfg, s, input.copy);
  }

  lemma SiblingIsFound(cfg: Config, s: Store, copy: Copy)
    ensures var patch := GetPatch(cfg.patches, copy.system, copy.talkgroup);
            (patch.Some? && PatchMatch(s.calls, copy, patch.value.talkgroups, patch.value.delay).Some?)
            <==> HasSibling(cfg, s, copy)
  {
    hide GetPatch, Eligible, PatchMatch;
    var patch := GetPatch(cfg.patches, copy.system, copy.talkgroup);
    if patch.Some? {
      var p := patch.value;
      var found := PatchMatch(s.calls, copy, p.talkgroups, p.delay);
      var r := if found.Some? then found.value else Row(0, 0, 0, 0, []);
      PatchMatchIsNearest(s.calls, copy, p.talkgroups, p.delay, r);
    }
  }

  lemma TwinIsFound(cfg: Config, s: Store, copy: Copy)
    ensures DuplicateMatch(cfg, s.calls, copy).Some? <==> HasTwin(cfg, s, copy)
  {
    if HasTwin(cfg, s, copy) {
      var id :| id in s.calls && IsTwin(cfg, copy, s.calls[id]);
      assert s.calls[id] in TwinRows(cfg, s.calls, copy);
    }
    var found := DuplicateMatch(cfg, s.calls, copy);
    if found.Some? {
      assert IsTwin(cfg, copy, s.calls[found.value.id]);
    }
  }

  function Apply(cfg: Config, s: Store, copy: Copy, outcome: Outcome): Store
    requires outcome.Joined? ==> outcome.id in s.calls && GetPatch(cfg.patches, copy.system, copy.talkgroup).Some?
  {
    var patch := GetPatch(cfg.patches, copy.system, copy.talkgroup);
    match outcome
    case Joined(id) => s.(calls := s.calls[id := JoinedRow(patch.value, copy, s.calls[id])])
    case Stored(id) =>
      Store(s.calls[id := Row(id, copy.dateTime, copy.system, copy.talkgroup, ReceivedList(patch, copy))], id + 1)
    case _ => s
  }

  function Ingested(cfg: Config, s: Store, input: Input): Store {
    Apply(cfg, s, input.copy, Decide(cfg, s, input))
  }

  method NormalizeReportedPatches(patches: seq<nat>, own: nat) returns (out: seq<nat>)
    ensures out == Reported(patches, own)
  {
    var merged := MergePatches(patches, []);
    out := [];
    for i := 0 to |merged|
      invariant out == Keep((t: nat) => t != own, merged[..i])
    {
      assert merged[..i + 1][..i] == merged[..i];
      if merged[i] != own {
        out := out + [merged[i]];
      }
    }
    assert merged[..|merged|] == merged;
  }

  class Controller {
    const cfg: Config
    var calls: Table
    var nextId: nat

    ghost function State(): Store
      reads this
    {
      Store(calls, nextId)
    }

    constructor (cfg: Config)
      ensures this.cfg == cfg && State() == EMPTY
    {
      this.cfg := cfg;
      calls, nextId := map[], 1;
    }

    method AddPatch(id: nat, talkgroup: nat)
      requires id in calls
      modifies this`calls
      ensures calls == old(calls)[id := old(calls[id]).(patches := WithTalkgroup(old(calls[id].patches), talkgroup))]
    {
      var patches := calls[id].patches;
      for i := 0 to |patches|
        invariant talkgroup !in patches[..i]
      {
        if patches[i] == talkgroup {
          assert calls == calls[id := calls[id].(patches := patches)];
          return;
        }
      }
      calls := calls[id := calls[id].(patches := patches + [talkgroup])];
    }

    method PromoteCall(id: nat, talkgroup: nat)
      requires id in calls
      modifies this`calls
      ensures calls == old(calls)[id := old(calls[id]).(talkgroup := talkgroup)]
    {
      calls := calls[id := calls[id].(talkgroup := talkgroup)];
    }

    method WriteCall(copy: Copy, patches: seq<nat>) returns (id: nat)
      modifies this`calls, this`nextId
      ensures id == old(nextId) && nextId == id + 1
      ensures calls == old(calls)[id := Row(id, copy.dateTime, copy.system, copy.talkgroup, patches)]
    {
      id := nextId;
      calls := calls[id := Row(id, copy.dateTime, copy.system, copy.talkgroup, patches)];
      nextId := nextId + 1;
    }

    method IngestCall(input: Input) returns (outcome: Outcome)
      requires State().Valid()
      modifies this`calls, this`nextId
      ensures outcome == Decide(cfg, old(State()), input)
      ensures State() == Ingested(cfg, old(State()), input)
    {
      hide PatchMatch, DuplicateMatch, GetPatch, AddAll, HomeRank;
      var copy := input.copy;
      var patches := copy.reported;
      var patch := FindPatch(cfg.patches, copy.system, copy.talkgroup);
      if patch.Some? {
        patches := MergePatches(patches, [copy.talkgroup]);
      }
      var collapsed := false;
      if patch.Some? {
        var found := GetPatchDuplicate(calls, copy, patch.value.talkgroups, patch.value.delay);
        if found.Some? {
          collapsed := true;
          if !input.keep {
            var row := found.value;
            AddPatch(row.id, copy.talkgroup);
            var arrived := ScanHomeRank(patch.value.talkgroups, copy.talkgroup);
            var filed := ScanHomeRank(patch.value.talkgroups, row.talkgroup);
            if arrived > filed {
              PromoteCall(row.id, copy.talkgroup);
            }
            return Joined(row.id);
          }
        }
      }
      if !collapsed && cfg.detectDuplicates {
        var duplicate := DuplicateMatch(cfg, calls, copy);
        if duplicate.Some? && !input.keep {
          return Duplicate(duplicate.value.id);
        }
      }
      if patch.None? {
        patches := NormalizeReportedPatches(patches, copy.talkgroup);
      } else {
        CleanAgain(copy);
        patches := MergePatches(patches, []);
      }
      if !input.admit {
        return Dropped;
      }
      var id := WriteCall(copy, patches);
      outcome := Stored(id);
    }
  }

  /** The second canonicalization of a patched call's list changes nothing. */
  lemma CleanAgain(copy: Copy)
    ensures var list := AddAll(AddAll([], copy.reported), [copy.talkgroup]);
            Clean(list) && AddAll([], list) == list && AddAll(AddAll([], list), []) == list
  {
    AddAllMeans([], copy.reported);
    AddAllMeans(AddAll([], copy.reported), [copy.talkgroup]);
    AddAllClean(AddAll(AddAll([], copy.reported), [copy.talkgroup]));
  }

  // ---- what a new call says of where it was received ----

  lemma {:induction false} KeepInFirstOrder(p: nat -> bool, q: seq<nat>, source: seq<nat>)
    requires InFirstOrder(q, source)
    ensures InFirstOrder(Keep(p, q), source)
  {
    if q != [] {
      var init, last := q[..|q| - 1], q[|q| - 1];
      KeepInFirstOrder(p, init, source);
      forall i | 0 <= i < |Keep(p, init)| ensures IndexOf(source, Keep(p, init)[i]) < IndexOf(source, last) {
        assert Keep(p, init)[i] in init;
        var k :| 0 <= k < |init| && init[k] == Keep(p, init)[i];
        assert q[k] == init[k];
      }
    }
  }

  /** A stored copy becomes one new row that is the copy's own, and leaves every other as it was. Outside
      any patch it names exactly the other talkgroups the recorder reported; in a patch exactly those
      reported and the one it arrived on; zeros and repeats dropped, in the order they first came. */
  lemma StoredRowMeans(cfg: Config, s: Store, input: Input)
    requires cfg.Valid() && Decide(cfg, s, input).Stored?
    ensures var (copy, after) := (input.copy, Ingested(cfg, s, input));
            var patched := GetPatch(cfg.patches, copy.system, copy.talkgroup).Some?;
            s.nextId in after.calls && after.nextId == s.nextId + 1 &&
            var row := after.calls[s.nextId];
            && after.calls == s.calls[s.nextId := row]
            && row == Row(s.nextId, copy.dateTime, copy.system, copy.talkgroup, row.patches)
            && (forall t :: t in row.patches <==>
                  if patched then t == copy.talkgroup || (t != 0 && t in copy.reported)
                  else t != copy.talkgroup && t != 0 && t in copy.reported)
            && InFirstOrder(row.patches, if patched then copy.reported + [copy.talkgroup] else copy.reported)
  {
    var copy := input.copy;
    var patch := GetPatch(cfg.patches, copy.system, copy.talkgroup);
    AddAllMeans([], copy.reported);
    AddAllOrder(copy.reported);
    if patch.Some? {
      assert patch.value in cfg.patches && copy.talkgroup in patch.value.talkgroups && copy.talkgroup != 0;
      AddAllMeans(AddAll([], copy.reported), [copy.talkgroup]);
      AddAllInTwo([], copy.reported, [copy.talkgroup]);
      AddAllOrder(copy.reported + [copy.talkgroup]);
    } else {
      KeepInFirstOrder((t: nat) => t != copy.talkgroup, AddAll([], copy.reported), copy.reported);
    }
  }

  /** A copy that joins, joins the preferred eligible call and nothing else changes: its talkgroup is
      added to the list if it was not there, and the call moves to it exactly when the patch lists it
      above the talkgroup the call is filed on. */
  lemma JoinedRowMeans(cfg: Config, s: Store, input: Input)
    requires Decide(cfg, s, input).Joined?
    ensures var (copy, id, after) := (input.copy, Decide(cfg, s, input).id, Ingested(cfg, s, input));
            var patch := GetPatch(cfg.patches, copy.system, copy.talkgroup).value;
            var row := s.calls[id];
            && Eligible(s.calls, copy, patch.talkgroups, patch.delay, row)
            && (forall other | Eligible(s.calls, copy, patch.talkgroups, patch.delay, other) && other != row ::
                  Preferred(copy.dateTime, row, other))
            && id in after.calls && after == s.(calls := s.calls[id := after.calls[id]])
            && after.calls[id] == row.(
                 patches := if copy.talkgroup in row.patches then row.patches else row.patches + [copy.talkgroup],
                 talkgroup := if IndexOf(patch.talkgroups, copy.talkgroup) < IndexOf(patch.talkgroups, row.talkgroup)
                              then copy.talkgroup else row.talkgroup)
  {
    hide GetPatch, Eligible, PatchMatch, HomeRank, IndexOf;
    var copy := input.copy;
    var patch := GetPatch(cfg.patches, copy.system, copy.talkgroup).value;
    var row := s.calls[Decide(cfg, s, input).id];
    PatchMatchIsNearest(s.calls, copy, patch.talkgroups, patch.delay, row);
    RankIsPosition(patch.talkgroups, copy.talkgroup);
    RankIsPosition(patch.talkgroups, row.talkgroup);
  }

  /** A copy that is rejected or dropped leaves no trace. */
  lemma OthersLeaveNoTrace(cfg: Config, s: Store, input: Input)
    requires Decide(cfg, s, input).Duplicate? || Decide(cfg, s, input).Dropped?
    ensures Ingested(cfg, s, input) == s
  {
  }
}
