/** The search-meta cache: one computation per key however many callers ask at once.

    Every critical section of the source is one atomic step here, and any caller may move between
    any two steps of another. */
module SingleFlight {
  import opened Collections

  const SOFT_CEILING := 256

  datatype Meta = Meta(value: int, expires: int)

  /** What a computation returned: an error, or an answer that may be nil. */
  datatype Answer = Err(error: string) | Ok(meta: Option<Meta>)

  type Cache = map<string, Meta>

  predicate Fresh(cache: Cache, key: string, now: int) { key in cache && now <= cache[key].expires }

  function Put(cache: Cache, key: string, meta: Meta): Cache {
    if |cache| > SOFT_CEILING then map[key := meta] else cache[key := meta]
  }

  /** An error, or no answer, leaves the cache alone. */
  function Remember(cache: Cache, key: string, answer: Answer): Cache {
    if answer.Ok? && answer.meta.Some? then Put(cache, key, answer.meta.value) else cache
  }

  datatype Entry = Hit(meta: Meta) | Join(flight: nat) | Lead

  function Enter(cache: Cache, inFlight: map<string, nat>, key: string, now: int): Entry {
    if Fresh(cache, key, now) then Hit(cache[key])
    else if key in inFlight then Join(inFlight[key])
    else Lead
  }

  /** The two sections `searchMetaOnce` runs under the mutex, and the plain put. */
  class Calls {
    var metaCache: Cache
    var inFlight: map<string, nat>

    constructor ()
      ensures metaCache == map[] && inFlight == map[]
    {
      metaCache, inFlight := map[], map[];
    }

    method EnterFlight(key: string, now: int, flight: nat) returns (entry: Entry)
      modifies this
      ensures entry == Enter(old(metaCache), old(inFlight), key, now)
      ensures metaCache == old(metaCache)
      ensures inFlight == if entry.Lead? then old(inFlight)[key := flight] else old(inFlight)
    {
      if Fresh(metaCache, key, now) {
        return Hit(metaCache[key]);
      }
      if key in inFlight {
        return Join(inFlight[key]);
      }
      inFlight := inFlight[key := flight];
      entry := Lead;
    }

    method LeaveFlight(key: string, answer: Answer)
      modifies this
      ensures inFlight == old(inFlight) - {key}
      ensures metaCache == Remember(old(metaCache), key, answer)
    {
      inFlight := inFlight - {key};
      if answer.Ok? && answer.meta.Some? {
        PutSearchMeta(key, answer.meta.value);
      }
    }

    method PutSearchMeta(key: string, meta: Meta)
      modifies this`metaCache
      ensures metaCache == Put(old(metaCache), key, meta)
    {
      if |metaCache| > SOFT_CEILING {
        metaCache := map[];
      }
      metaCache := metaCache[key := meta];
    }
  }

  // ---- every interleaving ----

  /** `answer` is set when fn returns, `closed` when the leader closes the channel. */
  datatype Flight = Flight(key: string, leader: nat, answer: Option<Answer>, closed: bool)

  datatype Origin = FromCache | FromFlight(flight: nat)

  /** `key` is what the caller asked for, the argument it was called with. */
  datatype Caller =
    | Computing(key: string, flight: nat)
    | Storing(key: string, flight: nat)
    | Closing(key: string, flight: nat)
    | Waiting(key: string, flight: nat)
    | Returned(key: string, answer: Answer, origin: Origin)
  {
    predicate Leads(f: nat) { (Computing? || Storing? || Closing?) && flight == f }
  }

  datatype State = State(
    cache: Cache,
    inFlight: map<string, nat>,
    flights: seq<Flight>,
    callers: map<nat, Caller>,
    puts: set<(string, Meta)>)

  const START := State(map[], map[], [], map[], {})

  datatype Event =
    | Arrive(caller: nat, key: string, now: int)
    | Compute(caller: nat, answer: Answer)
    | Store(caller: nat)
    | Close(caller: nat)
    | Wake(caller: nat)
    | Warm(key: string, meta: Meta)
    | Invalidate

  ghost predicate Answered(s: State, f: nat) { f < |s.flights| && s.flights[f].answer.Some? }

  ghost predicate Enabled(s: State, e: Event) {
    match e
    case Arrive(c, _, _) => c !in s.callers
    case Compute(c, _) => c in s.callers && s.callers[c].Computing? && s.callers[c].flight < |s.flights|
    case Store(c) => c in s.callers && s.callers[c].Storing? && Answered(s, s.callers[c].flight)
    case Close(c) => c in s.callers && s.callers[c].Closing? && Answered(s, s.callers[c].flight)
    case Wake(c) => c in s.callers && s.callers[c].Waiting? && Answered(s, s.callers[c].flight) &&
                    s.flights[s.callers[c].flight].closed
    case Warm(_, _) => true
    case Invalidate => true
  }

  ghost function Step(s: State, e: Event): State
    requires Enabled(s, e)
  {
    match e
    case Arrive(c, key, now) => (
      match Enter(s.cache, s.inFlight, key, now)
      case Hit(meta) => s.(callers := s.callers[c := Returned(key, Ok(Some(meta)), FromCache)])
      case Join(f) => s.(callers := s.callers[c := Waiting(key, f)])
      case Lead =>
        var f := |s.flights|;
        s.(inFlight := s.inFlight[key := f],
           flights := s.flights + [Flight(key, c, None, false)],
           callers := s.callers[c := Computing(key, f)]))
    case Compute(c, answer) =>
      var f := s.callers[c].flight;
      s.(flights := s.flights[f := s.flights[f].(answer := Some(answer))],
         callers := s.callers[c := Storing(s.callers[c].key, f)])
    case Store(c) =>
      var (key, f) := (s.callers[c].key, s.callers[c].flight);
      s.(inFlight := s.inFlight - {key},
         cache := Remember(s.cache, key, s.flights[f].answer.value),
         callers := s.callers[c := Closing(key, f)])
    case Close(c) =>
      var f := s.callers[c].flight;
      s.(flights := s.flights[f := s.flights[f].(closed := true)],
         callers := s.callers[c := Returned(s.callers[c].key, s.flights[f].answer.value, FromFlight(f))])
    case Wake(c) =>
      var f := s.callers[c].flight;
      s.(callers := s.callers[c := Returned(s.callers[c].key, s.flights[f].answer.value, FromFlight(f))])
    case Warm(key, meta) => s.(cache := Put(s.cache, key, meta), puts := s.puts + {(key, meta)})
    case Invalidate => s.(cache := map[])
  }

  /** Some computation for this very key produced this entry, or a warm-up put it there. */
  ghost predicate Explained(s: State, key: string, meta: Meta) {
    || (key, meta) in s.puts
    || exists f :: 0 <= f < |s.flights| && s.flights[f].key == key && s.flights[f].answer == Some(Ok(Some(meta)))
  }

  ghost predicate CallerOk(s: State, c: nat, caller: Caller) {
    match caller
    case Returned(key, answer, FromFlight(f)) =>
      f < |s.flights| && s.flights[f].key == key && s.flights[f].closed && s.flights[f].answer == Some(answer)
    case Returned(key, answer, FromCache) =>
      answer.Ok? && answer.meta.Some? && Explained(s, key, answer.meta.value)
    case Waiting(key, f) => f < |s.flights| && s.flights[f].key == key && s.flights[f].leader != c
    case Computing(key, f) =>
      f < |s.flights| && s.flights[f].key == key && s.flights[f].leader == c && s.flights[f].answer.None? &&
      !s.flights[f].closed && key in s.inFlight && s.inFlight[key] == f
    case Storing(key, f) =>
      f < |s.flights| && s.flights[f].key == key && s.flights[f].leader == c && s.flights[f].answer.Some? &&
      !s.flights[f].closed && key in s.inFlight && s.inFlight[key] == f
    case Closing(key, f) =>
      f < |s.flights| && s.flights[f].key == key && s.flights[f].leader == c && s.flights[f].answer.Some? &&
      !s.flights[f].closed && !(key in s.inFlight && s.inFlight[key] == f)
  }

  ghost predicate FlightOk(s: State, f: nat)
    requires f < |s.flights|
  {
    var flight := s.flights[f];
    && (flight.closed ==> flight.answer.Some?)
    && (!flight.closed ==> flight.leader in s.callers && s.callers[flight.leader].Leads(f))
  }

  ghost predicate Invariant(s: State) {
    && (forall c | c in s.callers :: CallerOk(s, c, s.callers[c]))
    && (forall f | 0 <= f < |s.flights| :: FlightOk(s, f))
    && (forall key | key in s.inFlight ::
          var f := s.inFlight[key];
          f < |s.flights| && s.flights[f].key == key && !s.flights[f].closed)
    && (forall key | key in s.cache :: Explained(s, key, s.cache[key]))
    && |s.cache| <= SOFT_CEILING + 1
  }

  lemma StepKeepsExplained(s: State, e: Event)
    requires Enabled(s, e) && Invariant(s)
    ensures forall key, meta | Explained(s, key, meta) :: Explained(Step(s, e), key, meta)
  {
    var t := Step(s, e);
    forall key, meta | Explained(s, key, meta) ensures Explained(t, key, meta) {
      if f :| 0 <= f < |s.flights| && s.flights[f].key == key && s.flights[f].answer == Some(Ok(Some(meta))) {
        if e.Compute? { assert CallerOk(s, e.caller, s.callers[e.caller]); }
        assert t.flights[f].key == key && t.flights[f].answer == s.flights[f].answer;
      }
    }
  }

  /** A caller that is not the one moving. */
  ghost predicate Bystander(s: State, e: Event, c: nat) {
    && Enabled(s, e) && c in s.callers && CallerOk(s, c, s.callers[c])
    && (e.Warm? || e.Invalidate? || e.caller != c)
    && (forall key, meta | Explained(s, key, meta) :: Explained(Step(s, e), key, meta))
  }

  lemma BystanderOfArrival(s: State, e: Event, c: nat)
    requires Bystander(s, e, c) && (e.Arrive? || e.Wake? || e.Warm? || e.Invalidate?)
    ensures c in Step(s, e).callers && CallerOk(Step(s, e), c, s.callers[c])
  {
    hide Explained, Remember, Fresh;
  }

  lemma BystanderOfFlight(s: State, e: Event, c: nat)
    requires Bystander(s, e, c) && (e.Compute? || e.Store? || e.Close?)
    requires CallerOk(s, e.caller, s.callers[e.caller])
    ensures c in Step(s, e).callers && CallerOk(Step(s, e), c, s.callers[c])
  {
    hide Explained, Remember, Enter;
  }

  lemma StepKeepsBystander(s: State, e: Event, c: nat)
    requires Enabled(s, e) && Invariant(s) && c in s.callers && (e.Warm? || e.Invalidate? || e.caller != c)
    ensures c in Step(s, e).callers && CallerOk(Step(s, e), c, s.callers[c])
  {
    hide CallerOk, Explained, Step, FlightOk;
    StepKeepsExplained(s, e);
    if e.Compute? || e.Store? || e.Close? {
      BystanderOfFlight(s, e, c);
    } else {
      BystanderOfArrival(s, e, c);
    }
  }

  /** The caller that moves. */
  lemma StepKeepsMover(s: State, e: Event)
    requires Enabled(s, e) && Invariant(s) && !e.Warm? && !e.Invalidate?
    ensures var t := Step(s, e); e.caller in t.callers && CallerOk(t, e.caller, t.callers[e.caller])
  {
    StepKeepsExplained(s, e);
    hide Explained, Remember;
    var t := Step(s, e);
    if e.Arrive? {
      if t.callers[e.caller].Waiting? { assert FlightOk(s, t.callers[e.caller].flight); }
    } else {
      assert CallerOk(s, e.caller, s.callers[e.caller]);
    }
  }

  /** An open flight's leader is still leading it after any step but the one that closes it. */
  lemma LeaderGoesOn(s: State, e: Event, f: nat)
    requires Enabled(s, e) && f < |s.flights| && FlightOk(s, f) && !s.flights[f].closed
    requires !(e.Close? && e.caller == s.flights[f].leader)
    ensures s.flights[f].leader in Step(s, e).callers && Step(s, e).callers[s.flights[f].leader].Leads(f)
  {
    hide Explained, Remember, Put;
  }

  /** What a step leaves of a flight. */
  lemma FlightGoesOn(s: State, e: Event, f: nat)
    requires Enabled(s, e) && f < |s.flights|
    ensures var t := Step(s, e);
            && f < |t.flights| && t.flights[f].leader == s.flights[f].leader
            && (s.flights[f].answer.Some? ==> t.flights[f].answer.Some?)
            && (t.flights[f].closed <==> s.flights[f].closed || (e.Close? && s.callers[e.caller].flight == f))
  {
    hide Explained, Remember, Put;
  }

  lemma NewFlight(s: State, e: Event)
    requires Enabled(s, e) && |Step(s, e).flights| > |s.flights|
    ensures |Step(s, e).flights| == |s.flights| + 1 && FlightOk(Step(s, e), |s.flights|)
  {
    hide Explained, Remember, Put;
  }

  lemma StepKeepsFlight(s: State, e: Event, f: nat)
    requires Enabled(s, e) && Invariant(s) && f < |Step(s, e).flights|
    ensures FlightOk(Step(s, e), f)
  {
    hide Step, CallerOk, Explained;
    if f >= |s.flights| {
      NewFlight(s, e);
    } else {
      assert FlightOk(s, f);
      FlightGoesOn(s, e, f);
      if !Step(s, e).flights[f].closed { LeaderGoesOn(s, e, f); }
    }
  }

  lemma PutExplained(cache: Cache, t: State, key: string, meta: Meta)
    requires Explained(t, key, meta) && |cache| <= SOFT_CEILING + 1
    requires forall k | k in cache :: Explained(t, k, cache[k])
    ensures forall k | k in Put(cache, key, meta) :: Explained(t, k, Put(cache, key, meta)[k])
    ensures |Put(cache, key, meta)| <= SOFT_CEILING + 1
  {
    hide Explained;
    assert cache[key := meta].Keys == cache.Keys + {key};
  }

  lemma StepKeepsCache(s: State, e: Event)
    requires Enabled(s, e) && Invariant(s)
    ensures var t := Step(s, e);
            && (forall key | key in t.cache :: Explained(t, key, t.cache[key]))
            && |t.cache| <= SOFT_CEILING + 1
  {
    if e.Store? { assert CallerOk(s, e.caller, s.callers[e.caller]); }
    hide CallerOk, FlightOk;
    StepKeepsExplained(s, e);
    var t := Step(s, e);
    if e.Store? {
      var f := s.callers[e.caller].flight;
      var answer := s.flights[f].answer.value;
      if answer.Ok? && answer.meta.Some? { PutExplained(s.cache, t, s.flights[f].key, answer.meta.value); }
    } else if e.Warm? {
      PutExplained(s.cache, t, e.key, e.meta);
    }
  }

  lemma StepKeepsInFlight(s: State, e: Event)
    requires Enabled(s, e) && Invariant(s)
    ensures var t := Step(s, e);
            forall key | key in t.inFlight ::
              var f := t.inFlight[key];
              f < |t.flights| && t.flights[f].key == key && !t.flights[f].closed
  {
    if e.Compute? || e.Close? { assert CallerOk(s, e.caller, s.callers[e.caller]); }
  }

  lemma OthersStay(s: State, e: Event, c: nat)
    requires Enabled(s, e) && c in Step(s, e).callers && (e.Warm? || e.Invalidate? || e.caller != c)
    ensures c in s.callers && Step(s, e).callers[c] == s.callers[c]
  {
  }

  lemma StepKeepsInvariant(s: State, e: Event)
    requires Enabled(s, e) && Invariant(s)
    ensures Invariant(Step(s, e))
  {
    hide CallerOk, FlightOk, Explained, Step;
    var t := Step(s, e);
    forall c | c in t.callers ensures CallerOk(t, c, t.callers[c]) {
      if !e.Warm? && !e.Invalidate? && e.caller == c {
        StepKeepsMover(s, e);
      } else {
        OthersStay(s, e, c);
        StepKeepsBystander(s, e, c);
      }
    }
    forall f | 0 <= f < |t.flights| ensures FlightOk(t, f) { StepKeepsFlight(s, e, f); }
    StepKeepsInFlight(s, e);
    StepKeepsCache(s, e);
  }

  ghost predicate Possible(s: State, events: seq<Event>)
    decreases |events|
  {
    events == [] || (Enabled(s, events[0]) && Possible(Step(s, events[0]), events[1..]))
  }

  ghost function Run(s: State, events: seq<Event>): State
    requires Possible(s, events)
    decreases |events|
  {
    if events == [] then s else Run(Step(s, events[0]), events[1..])
  }

  lemma {:induction false} RunKeepsInvariant(s: State, events: seq<Event>)
    requires Invariant(s) && Possible(s, events)
    ensures Invariant(Run(s, events))
    decreases |events|
  {
    if events != [] {
      StepKeepsInvariant(s, events[0]);
      RunKeepsInvariant(Step(s, events[0]), events[1..]);
    }
  }

  /** The flight a caller leads, waits for or came back from; None for an answer out of the cache. */
  function OnFlight(caller: Caller): Option<nat> {
    match caller
    case Returned(_, _, FromCache) => None
    case Returned(_, _, FromFlight(f)) => Some(f)
    case _ => Some(caller.flight)
  }

  /** What a caller that arrived in state `s` is due: the entry that was there and had not expired,
      else the flight then running for its key, else the flight it started. */
  predicate Served(s: State, key: string, now: int, caller: Caller) {
    && caller.key == key
    && if key in s.cache && now <= s.cache[key].expires then caller == Returned(key, Ok(Some(s.cache[key])), FromCache)
       else OnFlight(caller) == Some(if key in s.inFlight then s.inFlight[key] else |s.flights|)
  }

  /** So judged at the event that brought the caller. */
  ghost predicate ServedOnArrival(s: State, events: seq<Event>, c: nat, caller: Caller)
    requires Possible(s, events)
    decreases |events|
  {
    events != [] &&
    if events[0].Arrive? && events[0].caller == c then Served(s, events[0].key, events[0].now, caller)
    else ServedOnArrival(Step(s, events[0]), events[1..], c, caller)
  }

  predicate SameService(a: Caller, b: Caller) {
    a.key == b.key && OnFlight(a) == OnFlight(b) && (OnFlight(a).None? ==> a == b)
  }

  lemma StepKeepsService(s: State, e: Event, c: nat)
    requires Enabled(s, e) && c in Step(s, e).callers
    ensures if c in s.callers then SameService(s.callers[c], Step(s, e).callers[c])
            else e.Arrive? && e.caller == c && Served(s, e.key, e.now, Step(s, e).callers[c])
  {
    hide Explained, Remember, Put;
  }

  lemma SameIsServed(s: State, key: string, now: int, a: Caller, b: Caller)
    requires Served(s, key, now, a) && SameService(a, b)
    ensures Served(s, key, now, b)
  {
  }

  /** Whoever is there now is on the flight it was on, or came back from it, or was served on arrival. */
  lemma {:induction false} CallersAreServed(s: State, events: seq<Event>, c: nat)
    requires Possible(s, events) && c in Run(s, events).callers
    ensures var caller := Run(s, events).callers[c];
            if c in s.callers then SameService(s.callers[c], caller) else ServedOnArrival(s, events, c, caller)
    decreases |events|
  {
    hide Step, Enabled, Served, SameService;
    if events != [] {
      var e, t, rest := events[0], Step(s, events[0]), events[1..];
      var caller := Run(t, rest).callers[c];
      CallersAreServed(t, rest, c);
      if c in s.callers { CallersStay(s, e, c); }
      if c in t.callers {
        StepKeepsService(s, e, c);
        if c in s.callers {
          SameIsTransitive(s.callers[c], t.callers[c], caller);
        } else {
          SameIsServed(s, e.key, e.now, t.callers[c], caller);
        }
      } else {
        NobodyNew(s, e, c);
      }
    } else {
      SameIsReflexive(Run(s, events).callers[c]);
    }
  }

  lemma SameIsTransitive(a: Caller, b: Caller, c: Caller)
    requires SameService(a, b) && SameService(b, c)
    ensures SameService(a, c)
  {
  }

  lemma SameIsReflexive(a: Caller)
    ensures SameService(a, a)
  {
  }

  lemma NobodyNew(s: State, e: Event, c: nat)
    requires Enabled(s, e) && c !in Step(s, e).callers
    ensures !(e.Arrive? && e.caller == c)
  {
    hide Explained, Remember, Put;
  }

  lemma CallersStay(s: State, e: Event, c: nat)
    requires Enabled(s, e) && c in s.callers
    ensures c in Step(s, e).callers
  {
    hide Explained, Remember, Put;
  }

  /** What every interleaving of callers guarantees. */
  lemma EveryInterleaving(events: seq<Event>)
    requires Possible(START, events)
    ensures var s := Run(START, events);
            // at most one computation per key runs at a time
            && (forall c, d | c in s.callers && d in s.callers && s.callers[c].Computing? && s.callers[d].Computing? ::
                  s.callers[c].flight < |s.flights| && s.callers[d].flight < |s.flights| &&
                  (s.flights[s.callers[c].flight].key == s.flights[s.callers[d].flight].key ==> c == d))
            // every caller has the key it arrived for, and is on, or back from, the very flight it joined or
            // started then, or holds the unexpired entry it found then
            && (forall c | c in s.callers :: ServedOnArrival(START, events, c, s.callers[c]))
            // whoever came through a flight holds the answer or error that flight computed, for that key
            && (forall c | c in s.callers && s.callers[c].Returned? && s.callers[c].origin.FromFlight? ::
                  && Answered(s, s.callers[c].origin.flight)
                  && s.flights[s.callers[c].origin.flight].key == s.callers[c].key
                  && s.flights[s.callers[c].origin.flight].answer.value == s.callers[c].answer)
            // whoever was served from the cache holds a successful answer for that key
            && (forall c | c in s.callers && s.callers[c].Returned? && s.callers[c].origin.FromCache? ::
                  && s.callers[c].answer.Ok? && s.callers[c].answer.meta.Some?
                  && Explained(s, s.callers[c].key, s.callers[c].answer.meta.value))
            // nobody can join a flight that has closed
            && (forall key | key in s.inFlight ::
                  s.inFlight[key] < |s.flights| && !s.flights[s.inFlight[key]].closed)
            // an errored flight stored nothing, and the cache is bounded
            && (forall key | key in s.cache :: Explained(s, key, s.cache[key]))
            && |s.cache| <= 257
  {
    RunKeepsInvariant(START, events);
    forall c | c in Run(START, events).callers ensures ServedOnArrival(START, events, c, Run(START, events).callers[c]) {
      CallersAreServed(START, events, c);
    }
  }

  /** What `c` can do next, if it is not waiting for somebody else. */
  ghost predicate CanMove(s: State, c: nat) {
    || (forall answer :: Enabled(s, Compute(c, answer)))
    || Enabled(s, Store(c)) || Enabled(s, Close(c)) || Enabled(s, Wake(c))
  }

  /** No caller is ever stuck: it can move, or waits on a flight whose leader can. */
  lemma NobodyIsStuck(events: seq<Event>, c: nat)
    requires Possible(START, events)
    requires c in Run(START, events).callers && !Run(START, events).callers[c].Returned?
    ensures var s := Run(START, events);
            CanMove(s, c) || (s.callers[c].Waiting? && exists d :: d in s.callers && s.callers[d].Leads(s.callers[c].flight) && CanMove(s, d))
  {
    hide Step, Run, Possible;
    RunKeepsInvariant(START, events);
    var s := Run(START, events);
    assert CallerOk(s, c, s.callers[c]);
    if s.callers[c].Waiting? {
      var f := s.callers[c].flight;
      assert FlightOk(s, f);
      if !s.flights[f].closed {
        var d := s.flights[f].leader;
        assert CallerOk(s, d, s.callers[d]);
        assert s.callers[d].Leads(f) && CanMove(s, d);
      }
    }
  }

  /** An answer, once there, is there for good: a flight is computed once. */
  lemma {:induction false} AnswersAreFinal(s: State, events: seq<Event>, f: nat)
    requires Invariant(s) && Possible(s, events) && Answered(s, f)
    ensures Answered(Run(s, events), f) && Run(s, events).flights[f].answer == s.flights[f].answer
    decreases |events|
  {
    if events != [] {
      StepKeepsInvariant(s, events[0]);
      if events[0].Compute? { assert CallerOk(s, events[0].caller, s.callers[events[0].caller]); }
      AnswersAreFinal(Step(s, events[0]), events[1..], f);
    }
  }

  // ---- what is computed is kept ----

  /** This step puts this answer in the cache: a leader stores what its computation returned without
      error, or a warm-up puts it there. */
  ghost predicate Puts(s: State, e: Event, key: string, meta: Meta)
    requires Enabled(s, e)
  {
    || e == Warm(key, meta)
    || (e.Store? && s.callers[e.caller].key == key && s.flights[s.callers[e.caller].flight].answer == Some(Ok(Some(meta))))
  }

  /** Nothing is cleared, this key is not put again, and the cache does not have to make room. */
  ghost predicate Spares(s: State, e: Event, key: string)
    requires Enabled(s, e)
  {
    !e.Invalidate? && forall other, meta | Puts(s, e, other, meta) :: other != key && |s.cache| <= SOFT_CEILING
  }

  /** An answer put there is there, beside every other entry unless the cache had outgrown its ceiling. */
  lemma PutIsThere(s: State, e: Event, key: string, meta: Meta)
    requires Enabled(s, e) && Puts(s, e, key, meta)
    ensures var cache := Step(s, e).cache;
            && key in cache && cache[key] == meta
            && (|s.cache| <= SOFT_CEILING ==> forall other | other in s.cache && other != key :: other in cache && cache[other] == s.cache[other])
            && (forall other | other in cache && other != key :: other in s.cache && cache[other] == s.cache[other])
  {
  }

  /** Otherwise the cache changes only by being cleared: an error or an empty answer leaves it alone. */
  lemma NothingElseIsPut(s: State, e: Event)
    requires Enabled(s, e) && !e.Invalidate? && forall key, meta :: !Puts(s, e, key, meta)
    ensures Step(s, e).cache == s.cache
  {
    if e.Warm? { assert Puts(s, e, e.key, e.meta); }
    if e.Store? {
      var answer := s.flights[s.callers[e.caller].flight].answer.value;
      if answer.Ok? && answer.meta.Some? { assert Puts(s, e, s.callers[e.caller].key, answer.meta.value); }
    }
  }

  lemma SparedStays(s: State, e: Event, key: string)
    requires Enabled(s, e) && Spares(s, e, key) && key in s.cache
    ensures key in Step(s, e).cache && Step(s, e).cache[key] == s.cache[key]
  {
    hide Step;
    if other, meta :| Puts(s, e, other, meta) {
      PutIsThere(s, e, other, meta);
    } else {
      NothingElseIsPut(s, e);
    }
  }

  ghost predicate Undisturbed(s: State, events: seq<Event>, key: string)
    requires Possible(s, events)
    decreases |events|
  {
    events != [] ==> Spares(s, events[0], key) && Undisturbed(Step(s, events[0]), events[1..], key)
  }

  lemma {:induction false} EntryStays(s: State, events: seq<Event>, key: string)
    requires Possible(s, events) && Undisturbed(s, events, key) && key in s.cache
    ensures key in Run(s, events).cache && Run(s, events).cache[key] == s.cache[key]
    decreases |events|
  {
    hide Step, Spares;
    if events != [] {
      SparedStays(s, events[0], key);
      EntryStays(Step(s, events[0]), events[1..], key);
    }
  }

  /** A computed answer is not computed again while it lasts: whoever asks before it expires, with
      nothing cleared or put over it since, gets it from the cache at once. */
  lemma StoredAnswerIsServed(s: State, e: Event, key: string, meta: Meta, events: seq<Event>, c: nat, now: int)
    requires Enabled(s, e) && Puts(s, e, key, meta)
    requires Possible(Step(s, e), events) && Undisturbed(Step(s, e), events, key)
    requires Enabled(Run(Step(s, e), events), Arrive(c, key, now)) && now <= meta.expires
    ensures var t := Run(Step(s, e), events);
            Step(t, Arrive(c, key, now)) == t.(callers := t.callers[c := Returned(key, Ok(Some(meta)), FromCache)])
  {
    PutIsThere(s, e, key, meta);
    EntryStays(Step(s, e), events, key);
  }
}
