/** Declared patches: the ranked member list, and which patch a talkgroup belongs to. */
module Patching {
  import opened Collections

  /** Neither a repeat nor a zero. */
  predicate Clean(q: seq<nat>) { Distinct(q) && 0 !in q }

  /** First occurrences, in order, zeros dropped. */
  function AddAll(seen: seq<nat>, ids: seq<nat>): seq<nat> {
    if ids == [] then seen else
      var init, last := ids[..|ids| - 1], ids[|ids| - 1];
      var merged := AddAll(seen, init);
      if last == 0 || last in merged then merged else merged + [last]
  }

  lemma {:induction false} AddAllMeans(seen: seq<nat>, ids: seq<nat>)
    requires Clean(seen)
    ensures Clean(AddAll(seen, ids)) && seen <= AddAll(seen, ids)
    ensures forall t :: t in AddAll(seen, ids) <==> t in seen || (t in ids && t != 0)
  {
    if ids != [] {
      var init, last := ids[..|ids| - 1], ids[|ids| - 1];
      assert ids == init + [last];
      AddAllMeans(seen, init);
    }
  }

  /** A clean list passes through untouched. */
  lemma {:induction false} AddAllClean(q: seq<nat>)
    requires Clean(q)
    ensures AddAll([], q) == q
  {
    if q != [] {
      var init, last := q[..|q| - 1], q[|q| - 1];
      assert q == init + [last];
      assert forall i | 0 <= i < |init| :: q[i] != last;
      AddAllClean(init);
    }
  }

  lemma {:induction false} AddAllInTwo(seen: seq<nat>, a: seq<nat>, b: seq<nat>)
    ensures AddAll(AddAll(seen, a), b) == AddAll(seen, a + b)
  {
    if b == [] {
      assert a + b == a;
    } else {
      assert (a + b)[..|a + b| - 1] == a + b[..|b| - 1];
      AddAllInTwo(seen, a, b[..|b| - 1]);
    }
  }

  /** Where a talkgroup first comes in a list; its length if it does not. */
  function IndexOf(q: seq<nat>, t: nat): nat {
    if q == [] then 0 else if q[0] == t then 0 else 1 + IndexOf(q[1..], t)
  }

  /** A listing without repeats, in the order its members first come in the source. */
  predicate InFirstOrder(list: seq<nat>, source: seq<nat>) {
    forall i, j | 0 <= i < j < |list| :: IndexOf(source, list[i]) < IndexOf(source, list[j])
  }

  lemma {:induction false} IndexOfJoin(a: seq<nat>, b: seq<nat>, t: nat)
    ensures IndexOf(a + b, t) == if t in a then IndexOf(a, t) else |a| + IndexOf(b, t)
    ensures t in a ==> IndexOf(a, t) < |a|
  {
    if a == [] {
      assert a + b == b;
    } else {
      assert (a + b)[1..] == a[1..] + b && a == [a[0]] + a[1..];
      IndexOfJoin(a[1..], b, t);
    }
  }

  /** Merging lists ids in the order they first come. */
  lemma {:induction false} AddAllOrder(ids: seq<nat>)
    ensures InFirstOrder(AddAll([], ids), ids)
  {
    if ids != [] {
      var init, last := ids[..|ids| - 1], ids[|ids| - 1];
      assert ids == init + [last];
      AddAllOrder(init);
      AddAllMeans([], init);
      var merged := AddAll([], init);
      forall i | 0 <= i < |merged| ensures IndexOf(ids, merged[i]) == IndexOf(init, merged[i]) < |init| {
        assert merged[i] in merged;
        IndexOfJoin(init, [last], merged[i]);
      }
      if last !in merged && last != 0 {
        IndexOfJoin(init, [last], last);
      }
    }
  }

  method MergePatches(existing: seq<nat>, members: seq<nat>) returns (merged: seq<nat>)
    ensures merged == AddAll(AddAll([], existing), members)
  {
    merged := [];
    for i := 0 to |existing|
      invariant merged == AddAll([], existing[..i])
    {
      assert existing[..i + 1][..i] == existing[..i];
      if existing[i] != 0 && existing[i] !in merged {
        merged := merged + [existing[i]];
      }
    }
    assert existing[..|existing|] == existing;
    for i := 0 to |members|
      invariant merged == AddAll(AddAll([], existing), members[..i])
    {
      assert members[..i + 1][..i] == members[..i];
      if members[i] != 0 && members[i] !in merged {
        merged := merged + [members[i]];
      }
    }
    assert members[..|members|] == members;
  }

  datatype Patch = Patch(    disabled: bool,
    systemId: nat,
    talkgroupId: nat,
    primaryTalkgroupId: nat,
    talkgroups: seq<nat>,
    delay: nat)
  {
    predicate Usable() { !disabled && systemId != 0 && talkgroupId != 0 && |talkgroups| > 1 }

    predicate Covers(system: nat, talkgroup: nat) { systemId == system && Usable() && talkgroup in talkgroups }
  }

  function Top(q: seq<nat>): nat { if q == [] then 0 else q[0] }

  /** The canonical ranked form: legacy homes folded to the front, primary first. */
  function Normalize(p: Patch): Patch {
    var ordered := AddAll([], [p.primaryTalkgroupId, p.talkgroupId] + p.talkgroups);
    p.(talkgroups := ordered, primaryTalkgroupId := 0, talkgroupId := Top(ordered))
  }

  predicate Normalized(p: Patch) {
    Clean(p.talkgroups) && p.primaryTalkgroupId == 0 && p.talkgroupId == Top(p.talkgroups)
  }

  /** Normalizing yields the canonical form, keeps exactly the nonzero members, and leaves a
      canonical patch as it was; so doing it twice is doing it once. */
  lemma NormalizeIsCanonical(p: Patch)
    ensures Normalized(Normalize(p))
    ensures forall t :: t in Normalize(p).talkgroups <==>
              t != 0 && (t == p.primaryTalkgroupId || t == p.talkgroupId || t in p.talkgroups)
    ensures Normalized(p) ==> Normalize(p) == p
  {
    var homes := [p.primaryTalkgroupId, p.talkgroupId];
    AddAllMeans([], homes + p.talkgroups);
    if Normalized(p) {
      AddAllInTwo([], homes, p.talkgroups);
      assert homes[..1] == [0] && [0][..0] == [];
      if p.talkgroups == [] {
        assert homes == [0, 0];
        assert homes + p.talkgroups == homes;
      } else {
        var first := p.talkgroups[0];
        assert AddAll([], homes) == [first];
        assert p.talkgroups == [first] + p.talkgroups[1..];
        AddAllInTwo([], [first], p.talkgroups);
        FirstAgain(first, p.talkgroups);
        AddAllClean(p.talkgroups);
      }
    }
  }

  /** The primary leads, the secondary follows, the listed members come after in their own order. */
  lemma NormalizeKeepsTheOrder(p: Patch)
    ensures InFirstOrder(Normalize(p).talkgroups, [p.primaryTalkgroupId, p.talkgroupId] + p.talkgroups)
  {
    AddAllOrder([p.primaryTalkgroupId, p.talkgroupId] + p.talkgroups);
  }

  lemma {:induction false} FirstAgain(first: nat, q: seq<nat>)
    requires q != [] && q[0] == first && first != 0
    ensures AddAll([first], q) == AddAll([], q)
  {
    if |q| > 1 {
      FirstAgain(first, q[..|q| - 1]);
    } else {
      assert q[..0] == [];
    }
  }

  class PatchRecord {
    var disabled: bool
    var systemId: nat
    var talkgroupId: nat
    var primaryTalkgroupId: nat
    var talkgroups: seq<nat>
    var delay: nat

    function Value(): Patch
      reads this
    {
      Patch(disabled, systemId, talkgroupId, primaryTalkgroupId, talkgroups, delay)
    }

    method NormalizeRecord()
      modifies this
      ensures Value() == Normalize(old(Value()))
    {
      var homes := [primaryTalkgroupId, talkgroupId];
      var ordered := AddAll([], homes);
      assert homes + talkgroups[..0] == homes;
      for i := 0 to |talkgroups|
        invariant Value() == old(Value())
        invariant ordered == AddAll([], homes + talkgroups[..i])
      {
        assert (homes + talkgroups[..i + 1])[..|homes| + i] == homes + talkgroups[..i];
        if talkgroups[i] != 0 && talkgroups[i] !in ordered {
          ordered := ordered + [talkgroups[i]];
        }
      }
      assert talkgroups[..|talkgroups|] == talkgroups;
      talkgroups, primaryTalkgroupId := ordered, 0;
      talkgroupId := if |ordered| > 0 then ordered[0] else 0;
    }
  }

  /** Highest-listed scores highest; an outsider scores nothing. */
  function HomeRank(talkgroups: seq<nat>, id: nat): nat {
    if talkgroups == [] then 0
    else if talkgroups[0] == id then |talkgroups|
    else HomeRank(talkgroups[1..], id)
  }

  method ScanHomeRank(talkgroups: seq<nat>, id: nat) returns (rank: nat)
    ensures rank == HomeRank(talkgroups, id)
  {
    for i := 0 to |talkgroups|
      invariant HomeRank(talkgroups, id) == HomeRank(talkgroups[i..], id)
    {
      if talkgroups[i] == id {
        return |talkgroups| - i;
      }
    }
    rank := 0;
  }

  lemma {:induction false} HomeRankMeans(talkgroups: seq<nat>, id: nat)
    ensures HomeRank(talkgroups, id) <= |talkgroups|
    ensures HomeRank(talkgroups, id) > 0 <==> id in talkgroups
    ensures id in talkgroups ==> talkgroups[|talkgroups| - HomeRank(talkgroups, id)] == id
  {
    if talkgroups != [] && talkgroups[0] != id {
      assert talkgroups == [talkgroups[0]] + talkgroups[1..];
      HomeRankMeans(talkgroups[1..], id);
    }
  }

  /** The rank is the position, counted from the end. */
  lemma {:induction false} RankIsPosition(talkgroups: seq<nat>, id: nat)
    ensures HomeRank(talkgroups, id) + IndexOf(talkgroups, id) == |talkgroups|
  {
    if talkgroups != [] {
      RankIsPosition(talkgroups[1..], id);
    }
  }

  /** Two members of equal rank are one member. */
  lemma RankIsInjective(talkgroups: seq<nat>, a: nat, b: nat)
    requires a in talkgroups && HomeRank(talkgroups, a) == HomeRank(talkgroups, b)
    ensures a == b
  {
    HomeRankMeans(talkgroups, a);
    HomeRankMeans(talkgroups, b);
  }

  /** The first usable patch that lists the talkgroup. */
  function GetPatch(patches: seq<Patch>, system: nat, talkgroup: nat): (found: Option<Patch>)
    ensures found.Some? ==> found.value in patches && found.value.Covers(system, talkgroup)
    ensures found.None? ==> forall p | p in patches :: !p.Covers(system, talkgroup)
  {
    if patches == [] then None
    else if patches[0].Covers(system, talkgroup) then Some(patches[0])
    else GetPatch(patches[1..], system, talkgroup)
  }

  /** Enabled, with a system, a home and more than one member, and the talkgroup among them. */
  predicate Serves(p: Patch, system: nat, talkgroup: nat) {
    !p.disabled && p.systemId != 0 && p.talkgroupId != 0 && |p.talkgroups| >= 2 && p.systemId == system &&
    talkgroup in p.talkgroups
  }

  /** The lookup answers with the first patch that serves the talkgroup, whatever comes after it, and
      with none exactly when none does. */
  lemma {:induction false} GetPatchIsTheFirst(patches: seq<Patch>, system: nat, talkgroup: nat)
    ensures GetPatch(patches, system, talkgroup).None? <==> forall i | 0 <= i < |patches| :: !Serves(patches[i], system, talkgroup)
    ensures GetPatch(patches, system, talkgroup).Some? ==>
              exists i :: 0 <= i < |patches| && GetPatch(patches, system, talkgroup) == Some(patches[i]) &&
                          Serves(patches[i], system, talkgroup) &&
                          forall j | 0 <= j < i :: !Serves(patches[j], system, talkgroup)
  {
    if patches != [] {
      var first, rest := patches[0], patches[1..];
      assert first.Covers(system, talkgroup) <==> Serves(first, system, talkgroup);
      if !first.Covers(system, talkgroup) {
        GetPatchIsTheFirst(rest, system, talkgroup);
        forall i | 0 <= i < |rest| ensures rest[i] == patches[i + 1] {}
        if GetPatch(rest, system, talkgroup).Some? {
          var i :| 0 <= i < |rest| && GetPatch(rest, system, talkgroup) == Some(rest[i]) &&
                   Serves(rest[i], system, talkgroup) && forall j | 0 <= j < i :: !Serves(rest[j], system, talkgroup);
          assert patches[i + 1] == rest[i];
          forall j | 0 <= j < i + 1 ensures !Serves(patches[j], system, talkgroup) {
            if j > 0 { assert patches[j] == rest[j - 1]; }
          }
        }
      }
    }
  }

  method FindPatch(patches: seq<Patch>, system: nat, talkgroup: nat) returns (found: Option<Patch>)
    ensures found == GetPatch(patches, system, talkgroup)
  {
    for i := 0 to |patches|
      invariant GetPatch(patches, system, talkgroup) == GetPatch(patches[i..], system, talkgroup)
    {
      if patches[i].systemId == system && patches[i].Usable() && talkgroup in patches[i].talkgroups {
        return Some(patches[i]);
      }
    }
    found := None;
  }

  /** No talkgroup belongs to two usable patches of its system. */
  ghost predicate NonOverlapping(patches: seq<Patch>) {
    forall p, q, system: nat, talkgroup: nat |
      p in patches && q in patches && p.Covers(system, talkgroup) && q.Covers(system, talkgroup) :: p == q
  }
}
