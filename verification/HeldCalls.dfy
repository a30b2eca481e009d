/** Calls held back before listeners get them, and what is left of the holds after a restart. */
module HeldCalls {
  import opened Collections

  // ---- how long a call is held ----

  datatype Record = Record(dateTime: int, system: int, talkgroup: int)

  /** Delays in seconds, and a plugin that may replace the configured one. */
  datatype Config = Config(systems: map<int, nat>, talkgroups: map<(int, int), nat>, plugin: (Record, nat) -> nat)

  function GetDelay(config: Config, call: Record): nat {
    var key := (call.system, call.talkgroup);
    if call.system !in config.systems then 0
    else if key in config.talkgroups && config.talkgroups[key] > 0 then config.talkgroups[key]
    else config.systems[call.system]
  }

  function Hold(config: Config, call: Record): nat { config.plugin(call, GetDelay(config, call)) }

  function Due(config: Config, call: Record): int { call.dateTime + 1000 * Hold(config, call) }

  // ---- the state ----

  datatype Emission = Emission(id: nat, at: int)

  /** Milliseconds now, the stored calls, the armed timers, the persisted schedule, what went out. */
  datatype State = State(now: int, records: map<nat, Record>, timers: map<nat, int>, table: map<nat, int>,
                         log: seq<Emission>)

  function Emit(s: State, id: nat): State { s.(log := s.log + [Emission(id, s.now)]) }

  function Delayed(config: Config, s: State, id: nat): State
    requires id in s.records
  {
    var due := Due(config, s.records[id]);
    if Hold(config, s.records[id]) == 0 || due <= s.now then Emit(s, id)
    else s.(table := s.table[id := due], timers := s.timers[id := due])
  }

  function Fired(s: State, id: nat): State {
    Emit(s.(table := s.table - {id}, timers := s.timers - {id}), id)
  }

  function Rearmed(config: Config, s: State, pending: map<nat, int>, order: seq<nat>): (r: State)
    requires forall id | id in order :: id in pending && id in s.records
    ensures r.now == s.now && r.records == s.records
  {
    if order == [] then s else
      var n, id := |order| - 1, order[|order| - 1];
      var before := Rearmed(config, s, pending, order[..n]);
      if pending[id] < before.now then Emit(before, id) else Delayed(config, before, id)
  }

  /** A listing of the persisted schedule, earliest first; equal moments come in any order. */
  ghost predicate Listing(pending: map<nat, int>, order: seq<nat>) {
    && (forall id :: id in order <==> id in pending)
    && forall i, j | 0 <= i < j < |order| :: order[i] != order[j] && pending[order[i]] <= pending[order[j]]
  }

  lemma EmptyListing(pending: map<nat, int>, order: seq<nat>)
    requires Listing(pending, order)
    ensures order != [] ==> pending != map[]
  {
    if order != [] { assert order[0] in order; }
  }

  function Cleared(s: State, at: int): State { s.(now := at, timers := map[], table := map[]) }

  function Restarted(config: Config, s: State, at: int, order: seq<nat>): State
    requires Listing(s.table, order) && s.table.Keys <= s.records.Keys
  {
    Rearmed(config, Cleared(s, at), s.table, order)
  }

  class Delayer {
    const config: Config
    var now: int
    var records: map<nat, Record>
    var timers: map<nat, int>
    var table: map<nat, int>
    var log: seq<Emission>

    function Now(): State
      reads this
    {
      State(now, records, timers, table, log)
    }

    method EmitCall(id: nat)
      modifies this`log
      ensures Now() == Emit(old(Now()), id)
    {
      log := log + [Emission(id, now)];
    }

    method Delay(id: nat)
      requires id in records
      modifies this`table, this`timers, this`log
      ensures Now() == Delayed(config, old(Now()), id)
    {
      var call := records[id];
      var delay := config.plugin(call, GetDelay(config, call));
      if delay == 0 {
        EmitCall(id);
        return;
      }
      var timestamp := call.dateTime + 1000 * delay;
      var remaining := timestamp - now;
      if remaining <= 0 {
        EmitCall(id);
        return;
      }
      table := table[id := timestamp];
      timers := timers[id := timestamp];
    }

    method TimerFires(id: nat)
      modifies this`table, this`timers, this`log
      ensures Now() == Fired(old(Now()), id)
    {
      table := table - {id};
      timers := timers - {id};
      EmitCall(id);
    }

    /** `order` is the sorted listing of what was pending. */
    method Start(at: int, order: seq<nat>)
      requires Listing(table, order) && table.Keys <= records.Keys
      modifies this
      ensures Now() == Restarted(config, old(Now()), at, order)
    {
      now, timers := at, map[];
      var pending := table;
      if |pending| == 0 {
        EmptyListing(pending, order);
        return;
      }
      table := map[];
      assert Now() == Cleared(old(Now()), at);
      for i := 0 to |order|
        invariant Now() == Rearmed(config, Cleared(old(Now()), at), pending, order[..i])
      {
        hide Delayed, Emit;
        assert order[..i + 1][..i] == order[..i];
        var id := order[i];
        assert id in pending;
        if pending[id] < now {
          EmitCall(id);
        } else {
          Delay(id);
        }
      }
      assert order[..|order|] == order;
    }
  }

  /** A call with a hold that lasts beyond now is held for its own time and that many seconds; any other
      goes out now. The hold is what the plugin makes of the configured delay. */
  lemma LandingMeans(config: Config, s: State, id: nat, call: Record)
    requires id !in s.records
    ensures var hold := config.plugin(call, GetDelay(config, call));
            var landed := s.(records := s.records[id := call]);
            var moment := call.dateTime + 1000 * hold;
            Next(config, s, Lands(id, call)) ==
              if hold > 0 && moment > s.now then landed.(table := s.table[id := moment], timers := s.timers[id := moment])
              else landed.(log := s.log + [Emission(id, s.now)])
  {
  }

  /** Whatever goes out goes out at the time it then is, after everything that went before. */
  lemma EmittedNow(config: Config, s: State, e: Event)
    requires Enabled(s, e)
    ensures var t := Next(config, s, e);
            s.log <= t.log && forall i | |s.log| <= i < |t.log| :: t.log[i].at == t.now
  {
    if e.Restarts? {
      hide Rearmed, Leaving, Leaves;
      RestartCatchesUp(config, s, e.at, e.order);
    }
  }

  // ---- every call goes out once ----

  function Heard(log: seq<Emission>): set<nat> { set e | e in log :: e.id }

  /** Each stored call is held or has gone out, never both and never twice; the timers are the
      persisted schedule. */
  predicate OnceEach(s: State) {
    && s.timers == s.table && s.table.Keys !! Heard(s.log) && s.table.Keys + Heard(s.log) == s.records.Keys
    && forall i, j | 0 <= i < j < |s.log| :: s.log[i].id != s.log[j].id
  }

  /** A call lands, time passes, a timer runs, a sibling promotes the stored call, or the process is
      restarted at some later time with nothing but the database. */
  datatype Event =
    | Lands(id: nat, call: Record) | Elapses(to: int) | Fires(id: nat)
    | Promoted(id: nat, talkgroup: int) | Restarts(at: int, order: seq<nat>)

  ghost predicate Enabled(s: State, e: Event) {
    match e
    case Lands(id, _) => id !in s.records
    case Elapses(to) => to >= s.now
    case Fires(id) => id in s.timers && s.timers[id] <= s.now
    case Promoted(id, _) => id in s.records
    case Restarts(at, order) => at >= s.now && Listing(s.table, order) && s.table.Keys <= s.records.Keys
  }

  function Next(config: Config, s: State, e: Event): State
    requires Enabled(s, e)
  {
    match e
    case Lands(id, call) => Delayed(config, s.(records := s.records[id := call]), id)
    case Elapses(to) => s.(now := to)
    case Fires(id) => Fired(s, id)
    case Promoted(id, talkgroup) => s.(records := s.records[id := s.records[id].(talkgroup := talkgroup)])
    case Restarts(at, order) => Restarted(config, s, at, order)
  }

  /** Between the parts of a restart: what is still to be dealt with is neither held nor out. */
  predicate OnceEachBut(s: State, todo: set<nat>) {
    && s.timers == s.table && s.table.Keys !! Heard(s.log) && todo !! s.table.Keys + Heard(s.log)
    && s.table.Keys + Heard(s.log) + todo == s.records.Keys
    && forall i, j | 0 <= i < j < |s.log| :: s.log[i].id != s.log[j].id
  }

  lemma EmitHears(s: State, id: nat)
    ensures Heard(Emit(s, id).log) == Heard(s.log) + {id}
  {
    var log := Emit(s, id).log;
    forall x | x in Heard(s.log) + {id} ensures x in Heard(log) {
      if x == id { assert log[|s.log|].id == id; } else {
        var e :| e in s.log && e.id == x;
        assert e in log;
      }
    }
  }

  lemma EmitOne(s: State, id: nat, todo: set<nat>)
    requires OnceEachBut(s, todo) && id in todo
    ensures OnceEachBut(Emit(s, id), todo - {id})
  {
    EmitHears(s, id);
    forall i | 0 <= i < |s.log| ensures s.log[i].id != id { assert s.log[i] in s.log; }
  }

  lemma DelayOne(config: Config, s: State, id: nat, todo: set<nat>)
    requires OnceEachBut(s, todo) && id in todo && id in s.records
    ensures OnceEachBut(Delayed(config, s, id), todo - {id})
  {
    hide Heard;
    EmitOne(s, id, todo);
  }

  lemma {:induction false} RearmEach(config: Config, s: State, pending: map<nat, int>, order: seq<nat>, todo: set<nat>)
    requires OnceEachBut(s, todo) && (forall id | id in order :: id in pending && id in s.records && id in todo)
    requires forall i, j | 0 <= i < j < |order| :: order[i] != order[j]
    ensures OnceEachBut(Rearmed(config, s, pending, order), todo - Elements(order))
  {
    hide OnceEachBut, Delayed, Emit;
    if order == [] {
      assert todo - Elements(order) == todo;
    } else {
      var n, id := |order| - 1, order[|order| - 1];
      RearmEach(config, s, pending, order[..n], todo);
      var before := Rearmed(config, s, pending, order[..n]);
      assert order == order[..n] + [id] && id !in order[..n];
      assert Elements(order) == Elements(order[..n]) + {id};
      assert todo - Elements(order) == todo - Elements(order[..n]) - {id};
      EmitOne(before, id, todo - Elements(order[..n]));
      DelayOne(config, before, id, todo - Elements(order[..n]));
    }
  }

  lemma StepKeepsOnceEach(config: Config, s: State, e: Event)
    requires OnceEach(s) && Enabled(s, e)
    ensures OnceEach(Next(config, s, e))
  {
    hide Heard;
    match e
    case Lands(id, call) =>
      var landed := s.(records := s.records[id := call]);
      assert OnceEachBut(landed, {id});
      DelayOne(config, landed, id, {id});
      assert {id} - {id} == {};
    case Fires(id) =>
      EmitOne(s.(table := s.table - {id}, timers := s.timers - {id}), id, {id});
      assert {id} - {id} == {};
    case Restarts(at, order) =>
      hide Rearmed;
      var todo := s.table.Keys;
      RearmEach(config, Cleared(s, at), s.table, order, todo);
      assert Elements(order) == todo;
      assert todo - todo == {};
    case _ =>
  }

  lemma {:induction false} RunKeepsOnceEach(config: Config, s: State, events: seq<Event>)
    requires OnceEach(s) && Possible(config, s, events)
    ensures OnceEach(After(config, s, events))
    decreases |events|
  {
    if events != [] {
      StepKeepsOnceEach(config, s, events[0]);
      RunKeepsOnceEach(config, Next(config, s, events[0]), events[1..]);
    }
  }

  ghost predicate Possible(config: Config, s: State, events: seq<Event>)
    decreases |events|
  {
    events != [] ==> Enabled(s, events[0]) && Possible(config, Next(config, s, events[0]), events[1..])
  }

  function After(config: Config, s: State, events: seq<Event>): State
    requires Possible(config, s, events)
    decreases |events|
  {
    if events == [] then s else After(config, Next(config, s, events[0]), events[1..])
  }

  // ---- what a restart does ----

  function Emissions(ids: seq<nat>, at: int): seq<Emission> {
    seq(|ids|, i requires 0 <= i < |ids| => Emission(ids[i], at))
  }

  lemma EmissionsAppend(ids: seq<nat>, id: nat, at: int)
    ensures Emissions(ids + [id], at) == Emissions(ids, at) + [Emission(id, at)]
  {
  }

  /** An entry goes out at once if it is overdue, or due under the hold its record has now. */
  predicate Leaves(config: Config, s: State, pending: map<nat, int>, id: nat)
    requires id in pending && id in s.records
  {
    pending[id] < s.now || Hold(config, s.records[id]) == 0 || Due(config, s.records[id]) <= s.now
  }

  function Leaving(config: Config, s: State, pending: map<nat, int>, order: seq<nat>): (out: seq<nat>)
    requires forall id | id in order :: id in pending && id in s.records
    ensures forall id :: id in out <==> id in order && Leaves(config, s, pending, id)
  {
    if order == [] then [] else
      var n, id := |order| - 1, order[|order| - 1];
      assert order == order[..n] + [id];
      Leaving(config, s, pending, order[..n]) + if Leaves(config, s, pending, id) then [id] else []
  }

  /** The rest is held again, for as long as its record is held now. */
  function Staying(config: Config, s: State, pending: map<nat, int>, order: seq<nat>): map<nat, int>
    requires forall id | id in order :: id in pending && id in s.records
  {
    map id | id in order && !Leaves(config, s, pending, id) :: Due(config, s.records[id])
  }

  predicate InOrder(pending: map<nat, int>, ids: seq<nat>) {
    && (forall id | id in ids :: id in pending)
    && forall i, j | 0 <= i < j < |ids| :: ids[i] in pending && ids[j] in pending && pending[ids[i]] <= pending[ids[j]]
  }

  lemma AppendInOrder(pending: map<nat, int>, ids: seq<nat>, id: nat)
    requires InOrder(pending, ids) && id in pending && forall other | other in ids :: pending[other] <= pending[id]
    ensures InOrder(pending, ids + [id])
  {
    forall i | 0 <= i < |ids| ensures pending[ids[i]] <= pending[id] { assert ids[i] in ids; }
  }

  lemma {:induction false} LeavingInOrder(config: Config, s: State, pending: map<nat, int>, order: seq<nat>)
    requires InOrder(pending, order) && forall id | id in order :: id in s.records
    ensures InOrder(pending, Leaving(config, s, pending, order))
  {
    hide Leaves;
    if order != [] {
      var n, id := |order| - 1, order[|order| - 1];
      assert order == order[..n] + [id];
      LeavingInOrder(config, s, pending, order[..n]);
      var out := Leaving(config, s, pending, order[..n]);
      if Leaves(config, s, pending, id) {
        hide Leaving;
        forall other | other in out ensures pending[other] <= pending[id] {
          var j :| 0 <= j < n && order[j] == other;
        }
        AppendInOrder(pending, out, id);
      }
    }
  }

  lemma OneMoreEntry(config: Config, s: State, pending: map<nat, int>, order: seq<nat>, id: nat)
    requires forall other | other in order :: other in pending && other in s.records
    requires id in pending && id in s.records && id !in order
    ensures var out, held := Leaving(config, s, pending, order), Staying(config, s, pending, order);
            var leaves := Leaves(config, s, pending, id);
            && Leaving(config, s, pending, order + [id]) == out + (if leaves then [id] else [])
            && Staying(config, s, pending, order + [id]) == if leaves then held else held[id := Due(config, s.records[id])]
  {
    hide Leaves, Due;
    var all := order + [id];
    assert all[..|all| - 1] == order && id in all;
  }

  function Caught(s: State, out: seq<nat>, held: map<nat, int>): State {
    s.(log := s.log + Emissions(out, s.now), table := held, timers := held)
  }

  lemma RearmNext(config: Config, s: State, pending: map<nat, int>, order: seq<nat>, id: nat)
    requires forall other | other in order :: other in pending && other in s.records
    requires id in pending && id in s.records
    ensures forall other | other in order + [id] :: other in pending && other in s.records
    ensures var before := Rearmed(config, s, pending, order);
            Rearmed(config, s, pending, order + [id]) ==
              if Leaves(config, s, pending, id) then Emit(before, id)
              else before.(table := before.table[id := Due(config, s.records[id])],
                           timers := before.timers[id := Due(config, s.records[id])])
  {
    hide Hold, Due;
    assert (order + [id])[..|order|] == order;
  }

  lemma {:induction false} RearmCatchesUp(config: Config, s: State, pending: map<nat, int>, order: seq<nat>)
    requires s.table == map[] && s.timers == map[]
    requires forall id | id in order :: id in pending && id in s.records
    requires forall i, j | 0 <= i < j < |order| :: order[i] != order[j]
    ensures Rearmed(config, s, pending, order) ==
              Caught(s, Leaving(config, s, pending, order), Staying(config, s, pending, order))
  {
    hide Hold, Due;
    if order == [] {
      assert s.log + [] == s.log && Staying(config, s, pending, order) == map[];
    } else {
      hide Staying, Leaving;
      var n, id := |order| - 1, order[|order| - 1];
      var early := order[..n];
      assert order == early + [id] && id !in early;
      RearmNext(config, s, pending, early, id);
      hide Rearmed, Leaves;
      RearmCatchesUp(config, s, pending, early);
      OneMoreEntry(config, s, pending, early, id);
      EmissionsAppend(Leaving(config, s, pending, early), id, s.now);
    }
  }

  /** Every restart, whatever was promoted meanwhile: all that is overdue goes out at once, earliest
      first, along with what its record no longer holds; the rest is held for the moment its record
      gives it now. */
  lemma RestartCatchesUp(config: Config, s: State, at: int, order: seq<nat>)
    requires Enabled(s, Restarts(at, order))
    ensures var r, out := Restarted(config, s, at, order), Leaving(config, Cleared(s, at), s.table, order);
            && r.log == s.log + Emissions(out, at) && InOrder(s.table, out)
            && (forall id :: id in out <==> id in s.table && Leaves(config, Cleared(s, at), s.table, id))
            && (forall id :: id in r.table <==> id in s.table && !Leaves(config, Cleared(s, at), s.table, id))
            && (forall id | id in r.table :: r.table[id] == Due(config, s.records[id])) && r.timers == r.table
  {
    hide Rearmed, Leaving, Leaves;
    RearmCatchesUp(config, Cleared(s, at), s.table, order);
    LeavingInOrder(config, Cleared(s, at), s.table, order);
  }

  // ---- no call before its moment ----

  /** If this call is held, it is scheduled for the moment its record would be given now. */
  predicate Steady(config: Config, s: State, id: nat) {
    id in s.table ==> id in s.records && Hold(config, s.records[id]) > 0 && s.table[id] == Due(config, s.records[id])
  }

  /** `promised` is the moment the call was first scheduled for, if it was held at all. */
  predicate Timely(s: State, promised: Option<int>, id: nat) {
    && (promised.Some? ==> id in s.records)
    && (id in s.table ==> promised == Some(s.table[id]))
    && forall e | e in s.log && e.id == id && promised.Some? :: e.at >= promised.value
  }

  function Promise(config: Config, s: State, promised: Option<int>, e: Event, id: nat): Option<int>
    requires Enabled(s, e)
  {
    if e.Lands? && e.id == id && id in Next(config, s, e).table then Some(Next(config, s, e).table[id]) else promised
  }

  /** A promotion of this call while it is held does not change how long it is held. */
  predicate HoldUnmoved(config: Config, s: State, e: Event, id: nat) {
    e.Promoted? && e.id == id && id in s.records && id in s.table ==>
      Hold(config, s.records[id].(talkgroup := e.talkgroup)) == Hold(config, s.records[id])
  }

  lemma RestartKeepsTimely(config: Config, s: State, promised: Option<int>, at: int, order: seq<nat>, id: nat)
    requires Enabled(s, Restarts(at, order)) && Steady(config, s, id) && Timely(s, promised, id)
    ensures Steady(config, Restarted(config, s, at, order), id) && Timely(Restarted(config, s, at, order), promised, id)
  {
    hide Hold, Due, Rearmed, Leaving;
    RestartCatchesUp(config, s, at, order);
    var out := Leaving(config, Cleared(s, at), s.table, order);
    forall e | e in Emissions(out, at) ensures e.id in out && e.at == at {}
  }

  lemma DelayedMeans(config: Config, s: State, id: nat)
    requires id in s.records
    ensures var call := s.records[id];
            Delayed(config, s, id) ==
              if Hold(config, call) == 0 || Due(config, call) <= s.now then Emit(s, id)
              else s.(table := s.table[id := Due(config, call)], timers := s.timers[id := Due(config, call)])
  {
  }

  lemma LandingKeepsTimely(config: Config, s: State, promised: Option<int>, landing: nat, call: Record, id: nat)
    requires OnceEach(s) && landing !in s.records && Steady(config, s, id) && Timely(s, promised, id)
    ensures var e := Lands(landing, call);
            Steady(config, Next(config, s, e), id) && Timely(Next(config, s, e), Promise(config, s, promised, e, id), id)
  {
    forall emission | emission in s.log ensures emission.id in Heard(s.log) {}
    DelayedMeans(config, s.(records := s.records[landing := call]), landing);
    hide Hold, Due, Heard, Delayed;
  }

  lemma StepKeepsTimely(config: Config, s: State, promised: Option<int>, e: Event, id: nat)
    requires OnceEach(s) && Enabled(s, e) && Steady(config, s, id) && Timely(s, promised, id) && HoldUnmoved(config, s, e, id)
    ensures Steady(config, Next(config, s, e), id) && Timely(Next(config, s, e), Promise(config, s, promised, e, id), id)
  {
    if e.Restarts? {
      hide Steady, Timely, Rearmed;
      RestartKeepsTimely(config, s, promised, e.at, e.order, id);
    } else if e.Lands? {
      hide Steady, Timely, Next, Promise;
      LandingKeepsTimely(config, s, promised, e.id, e.call, id);
    } else {
      hide Hold, Heard;
    }
  }

  ghost predicate Unmoved(config: Config, s: State, events: seq<Event>, id: nat)
    requires Possible(config, s, events)
    decreases |events|
  {
    events != [] ==>
      HoldUnmoved(config, s, events[0], id) && Unmoved(config, Next(config, s, events[0]), events[1..], id)
  }

  function PromiseOver(config: Config, s: State, promised: Option<int>, events: seq<Event>, id: nat): Option<int>
    requires Possible(config, s, events)
    decreases |events|
  {
    if events == [] then promised
    else PromiseOver(config, Next(config, s, events[0]), Promise(config, s, promised, events[0], id), events[1..], id)
  }

  /** Over any run, restarts included and whatever happens to other calls: as long as no promotion
      changes the hold of this call while it is held, it stays scheduled for the moment it was first
      promised, and if it has gone out it went at that moment or later. */
  lemma {:induction false} RunKeepsTimely(config: Config, s: State, promised: Option<int>, events: seq<Event>, id: nat)
    requires OnceEach(s) && Steady(config, s, id) && Timely(s, promised, id)
    requires Possible(config, s, events) && Unmoved(config, s, events, id)
    ensures var r := After(config, s, events);
            OnceEach(r) && Steady(config, r, id) && Timely(r, PromiseOver(config, s, promised, events, id), id)
    decreases |events|
  {
    hide OnceEach, Steady, Timely, Next, Enabled, HoldUnmoved, Promise;
    if events != [] {
      StepKeepsOnceEach(config, s, events[0]);
      StepKeepsTimely(config, s, promised, events[0], id);
      RunKeepsTimely(config, Next(config, s, events[0]), Promise(config, s, promised, events[0], id), events[1..], id);
    }
  }

  // ---- a promotion while a call is held ----

  /** A held call that is promoted to another talkgroup and then meets a restart before its moment
      keeps that moment exactly when the new talkgroup is held equally long, and is let out early
      exactly when it is held for less. */
  lemma PromotionMovesTheMoment(config: Config, s: State, id: nat, talkgroup: int, at: int, order: seq<nat>)
    requires OnceEach(s) && Steady(config, s, id) && id in s.table && s.now <= at < s.table[id] && Listing(s.table, order)
    ensures var moved := s.records[id].(talkgroup := talkgroup);
            var promoted := Next(config, s, Promoted(id, talkgroup));
            var after := Next(config, promoted, Restarts(at, order));
            && ((id in after.table && after.table[id] == s.table[id]) <==>
                  Hold(config, moved) == Hold(config, s.records[id]))
            && ((Emission(id, at) in after.log || (id in after.table && after.table[id] < s.table[id])) <==>
                  Hold(config, moved) < Hold(config, s.records[id]))
  {
    forall e | e in s.log ensures e.id in Heard(s.log) {}
    hide Hold, Rearmed, Heard, Leaving;
    var promoted := Next(config, s, Promoted(id, talkgroup));
    assert Enabled(promoted, Restarts(at, order));
    RestartCatchesUp(config, promoted, at, order);
    var out := Leaving(config, Cleared(promoted, at), promoted.table, order);
    EmittedAre(out, id, at);
  }

  lemma EmittedAre(ids: seq<nat>, id: nat, at: int)
    ensures Emission(id, at) in Emissions(ids, at) <==> id in ids
  {
    if id in ids {
      var i :| 0 <= i < |ids| && ids[i] == id;
      assert Emissions(ids, at)[i] == Emission(id, at);
    }
  }

  /** One such call: held ten seconds on talkgroup 7, promoted to 8, which is held one. */
  lemma PromotedCallLeavesEarly()
    ensures var config := Config(map[1 := 0], map[(1, 7) := 10, (1, 8) := 1], (call, delay) => delay);
            var s := State(0, map[], map[], map[], []);
            var events := [Lands(5, Record(0, 1, 7)), Promoted(5, 8), Restarts(1000, [5])];
            Possible(config, s, events) &&
            PromiseOver(config, s, None, events, 5) == Some(10000) && After(config, s, events).log == [Emission(5, 1000)]
  {
    var config := Config(map[1 := 0], map[(1, 7) := 10, (1, 8) := 1], (call, delay) => delay);
    var landed := Next(config, State(0, map[], map[], map[], []), Lands(5, Record(0, 1, 7)));
    var promoted := Next(config, landed, Promoted(5, 8));
    assert landed == State(0, map[5 := Record(0, 1, 7)], map[5 := 10000], map[5 := 10000], []);
    assert Rearmed(config, Cleared(promoted, 1000), promoted.table, [5]).log == [Emission(5, 1000)];
  }

  /** The talkgroup's own delay goes before its system's; an unknown system has none. */
  lemma TalkgroupDelayWins(config: Config, call: Record)
    ensures var own := (call.system, call.talkgroup);
            var chosen := call.system in config.systems && own in config.talkgroups && config.talkgroups[own] > 0;
            && (chosen ==> GetDelay(config, call) == config.talkgroups[own])
            && (!chosen && call.system in config.systems ==> GetDelay(config, call) == config.systems[call.system])
  {
  }

  /** Nothing is held where neither the talkgroup nor its system has a delay, and only there: a
      talkgroup without one takes its system's. */
  lemma NoDelayExactly(config: Config, call: Record)
    ensures var own := (call.system, call.talkgroup);
            GetDelay(config, call) == 0 <==>
              call.system !in config.systems ||
              (config.systems[call.system] == 0 && (own in config.talkgroups ==> config.talkgroups[own] == 0))
  {
  }
}
