/** A fixed-window limiter keyed by string, whose expired windows are pruned only when the map is
    full. Times come from a clock that never runs backwards. */
module LogThrottle {
  import opened Collections

  const MAX_KEYS := 10000

  datatype Window = Window(count: nat, start: int)

  type Hits = map<string, Window>

  datatype Settings = Settings(limit: nat, window: nat)

  predicate Expired(cfg: Settings, w: Window, now: int) { now - w.start >= cfg.window }

  function Pruned(cfg: Settings, hits: Hits, now: int): Hits {
    map k | k in hits && !Expired(cfg, hits[k], now) :: hits[k]
  }

  /** The window a hit falls into, before it is counted. */
  function Current(cfg: Settings, hits: Hits, key: string, now: int): Window {
    if key in hits && !Expired(cfg, hits[key], now) then hits[key] else Window(0, now)
  }

  /** One hit, by a throttle that prunes a full map or by one that never does. */
  function Counted(cfg: Settings, hits: Hits, key: string, now: int, prunes: bool): Hits {
    var w := Current(cfg, hits, key, now);
    var rolled := !(key in hits && !Expired(cfg, hits[key], now));
    var base := if prunes && rolled && |hits| >= MAX_KEYS then Pruned(cfg, hits, now) else hits;
    base[key := Window(w.count + 1, w.start)]
  }

  function Answer(cfg: Settings, hits: Hits, key: string, now: int): bool {
    Current(cfg, hits, key, now).count + 1 <= cfg.limit
  }

  class Throttle {
    const settings: Settings
    var hits: Hits

    constructor (limit: nat, window: nat)
      ensures settings == Settings(limit, window) && hits == map[]
    {
      settings, hits := Settings(limit, window), map[];
    }

    method PruneLocked(now: int)
      modifies this
      ensures hits == Pruned(settings, old(hits), now)
    {
      var left := hits.Keys;
      while left != {}
        invariant left <= old(hits).Keys
        invariant forall k :: k in hits <==> k in old(hits) && (k in left || !Expired(settings, old(hits)[k], now))
        invariant forall k | k in hits :: hits[k] == old(hits)[k]
      {
        var k :| k in left;
        left := left - {k};
        if Expired(settings, hits[k], now) {
          hits := hits - {k};
        }
      }
    }

    method Allow(key: string, now: int) returns (allowed: bool)
      modifies this
      ensures allowed == Answer(settings, old(hits), key, now)
      ensures hits == Counted(settings, old(hits), key, now, true)
    {
      var w: Window;
      if key !in hits || now - hits[key].start >= settings.window {
        if |hits| >= MAX_KEYS {
          PruneLocked(now);
        }
        w := Window(0, now);
      } else {
        w := hits[key];
      }
      w := w.(count := w.count + 1);
      hits := hits[key := w];
      allowed := w.count <= settings.limit;
    }
  }

  // ---- traces ----

  datatype Hit = Hit(key: string, at: int)

  predicate Monotone(trace: seq<Hit>) { forall i, j | 0 <= i < j < |trace| :: trace[i].at <= trace[j].at }

  ghost function After(cfg: Settings, trace: seq<Hit>, prunes: bool): Hits {
    if trace == [] then map[] else
      var last := trace[|trace| - 1];
      Counted(cfg, After(cfg, trace[..|trace| - 1], prunes), last.key, last.at, prunes)
  }

  /** The answer to hit `i` of the trace. */
  ghost predicate Allowed(cfg: Settings, trace: seq<Hit>, i: nat, prunes: bool)
    requires i < |trace|
  {
    Answer(cfg, After(cfg, trace[..i], prunes), trace[i].key, trace[i].at)
  }

  /** The pruned map is the other one without some windows that have expired. */
  ghost predicate Shadows(cfg: Settings, hits: Hits, full: Hits, now: int) {
    && (forall k | k in hits :: k in full && full[k] == hits[k])
    && (forall k | k in full && k !in hits :: Expired(cfg, full[k], now))
  }

  lemma {:induction false} PruningIsInvisible(cfg: Settings, trace: seq<Hit>, now: int)
    requires Monotone(trace) && forall h | h in trace :: h.at <= now
    ensures Shadows(cfg, After(cfg, trace, true), After(cfg, trace, false), now)
  {
    if trace != [] {
      var init, last := trace[..|trace| - 1], trace[|trace| - 1];
      assert forall i | 0 <= i < |init| :: init[i] == trace[i];
      PruningIsInvisible(cfg, init, last.at);
    }
  }

  /** The answers are those of a throttle that never prunes. */
  lemma AnswersNeverPruned(cfg: Settings, trace: seq<Hit>, i: nat)
    requires Monotone(trace) && i < |trace|
    ensures Allowed(cfg, trace, i, true) == Allowed(cfg, trace, i, false)
  {
    PruningIsInvisible(cfg, trace[..i], trace[i].at);
  }

  /** How many hits of `key` were allowed at a time in [from, from + window). */
  ghost function AllowedIn(cfg: Settings, trace: seq<Hit>, key: string, from: int): nat {
    if trace == [] then 0 else
      var n := |trace| - 1;
      var hit := trace[n];
      AllowedIn(cfg, trace[..n], key, from) +
      if hit.key == key && from <= hit.at < from + cfg.window && Allowed(cfg, trace, n, false) then 1 else 0
  }

  /** What an interval can hold of a window that began before it: all but the hit that begun it, and
      nothing when times are too coarse for a window to reach past its own start. */
  function Carry(cfg: Settings): nat { if cfg.window > 1 && cfg.limit > 0 then cfg.limit - 1 else 0 }

  /** At most two windows reach into the interval, the earlier one without its first hit: `n` allowed
      so far, at time `now`. */
  predicate Bounded(cfg: Settings, hits: Hits, key: string, from: int, n: nat, now: int) {
    && n <= Carry(cfg) + cfg.limit
    && (now < from || key !in hits ==> n == 0)
    && (key in hits ==>
          var w := hits[key];
          && w.start <= now && w.count > 0
          && (w.start < from ==> n <= Min(w.count - 1, Carry(cfg)))
          && (from <= w.start < from + cfg.window ==> n <= Carry(cfg) + Min(w.count, cfg.limit)))
  }

  function Tally(cfg: Settings, hits: Hits, key: string, from: int, hit: Hit): nat {
    if hit.key == key && from <= hit.at < from + cfg.window && Answer(cfg, hits, hit.key, hit.at) then 1 else 0
  }

  lemma BoundStep(cfg: Settings, hits: Hits, key: string, from: int, n: nat, now: int, hit: Hit)
    requires Bounded(cfg, hits, key, from, n, now) && now <= hit.at
    ensures Bounded(cfg, Counted(cfg, hits, hit.key, hit.at, false), key, from, n + Tally(cfg, hits, key, from, hit), hit.at)
  {
  }

  lemma {:induction false} WindowBound(cfg: Settings, trace: seq<Hit>, key: string, from: int)
    requires Monotone(trace) && trace != []
    ensures Bounded(cfg, After(cfg, trace, false), key, from, AllowedIn(cfg, trace, key, from), trace[|trace| - 1].at)
  {
    hide Bounded, Counted, Answer;
    var k := |trace| - 1;
    var init := trace[..k];
    if k == 0 {
      StartBounded(cfg, key, from, trace[0].at);
      assert init == [];
      BoundStep(cfg, map[], key, from, 0, trace[0].at, trace[0]);
    } else {
      WindowBound(cfg, init, key, from);
      BoundStep(cfg, After(cfg, init, false), key, from, AllowedIn(cfg, init, key, from), init[k - 1].at, trace[k]);
    }
  }

  lemma StartBounded(cfg: Settings, key: string, from: int, now: int)
    ensures Bounded(cfg, map[], key, from, 0, now)
  {
  }

  /** The hits of `key` in [from, from + window) the throttle allowed. */
  ghost function AllowedHits(cfg: Settings, trace: seq<Hit>, key: string, from: int): set<nat> {
    set i: nat | i < |trace| && trace[i].key == key && from <= trace[i].at < from + cfg.window && Allowed(cfg, trace, i, true)
  }

  lemma {:induction false} CountIsSize(cfg: Settings, trace: seq<Hit>, key: string, from: int)
    requires Monotone(trace)
    ensures |AllowedHits(cfg, trace, key, from)| == AllowedIn(cfg, trace, key, from)
  {
    hide After, Answer;
    if trace != [] {
      var k := |trace| - 1;
      var init := trace[..k];
      CountIsSize(cfg, init, key, from);
      AnswersNeverPruned(cfg, trace, k);
      EarlierAnswersStand(cfg, trace, key, from);
    }
  }

  lemma EarlierAnswersStand(cfg: Settings, trace: seq<Hit>, key: string, from: int)
    requires trace != []
    ensures var k := |trace| - 1;
            AllowedHits(cfg, trace, key, from) ==
              AllowedHits(cfg, trace[..k], key, from) + if k in AllowedHits(cfg, trace, key, from) then {k} else {}
  {
    hide After, Answer;
    var k := |trace| - 1;
    var init := trace[..k];
    forall i: nat | i < k ensures i in AllowedHits(cfg, init, key, from) <==> i in AllowedHits(cfg, trace, key, from) {
      assert init[..i] == trace[..i];
    }
  }

  /** For each key, any half-open interval one window long holds fewer than twice the limit of allowed
      hits, and no more than the limit itself where a window spans a single instant. */
  lemma FewerThanTwiceTheLimit(cfg: Settings, trace: seq<Hit>, key: string, from: int)
    requires Monotone(trace)
    ensures |AllowedHits(cfg, trace, key, from)| <= Carry(cfg) + cfg.limit
    ensures cfg.limit > 0 ==> |AllowedHits(cfg, trace, key, from)| < 2 * cfg.limit
  {
    CountIsSize(cfg, trace, key, from);
    if trace != [] { WindowBound(cfg, trace, key, from); }
  }

  // ---- that many do get through ----

  /** `n` hits of one key at one time. */
  function Burst(key: string, at: int, n: nat): seq<Hit> { seq(n, _ => Hit(key, at)) }

  lemma OneMoreInBurst(trace: seq<Hit>, key: string, at: int, n: nat)
    ensures trace + Burst(key, at, n + 1) == (trace + Burst(key, at, n)) + [Hit(key, at)]
    ensures trace + Burst(key, at, 0) == trace
  {
  }

  /** One hit inside the interval, its window open with budget left or not open at all. */
  lemma HitIsAllowed(cfg: Settings, trace: seq<Hit>, key: string, at: int, from: int)
    requires from <= at < from + cfg.window && Answer(cfg, After(cfg, trace, false), key, at)
    ensures var w := Current(cfg, After(cfg, trace, false), key, at);
            var after := After(cfg, trace + [Hit(key, at)], false);
            key in after && after[key] == Window(w.count + 1, w.start)
    ensures AllowedIn(cfg, trace + [Hit(key, at)], key, from) == AllowedIn(cfg, trace, key, from) + 1
  {
    assert (trace + [Hit(key, at)])[..|trace|] == trace;
  }

  /** A burst is let through as far as the budget goes. */
  lemma {:induction false} BurstIsAllowed(cfg: Settings, trace: seq<Hit>, key: string, at: int, n: nat, from: int)
    requires from <= at < from + cfg.window
    requires Current(cfg, After(cfg, trace, false), key, at).count + n <= cfg.limit
    ensures var w := Current(cfg, After(cfg, trace, false), key, at);
            Current(cfg, After(cfg, trace + Burst(key, at, n), false), key, at) == Window(w.count + n, w.start)
    ensures AllowedIn(cfg, trace + Burst(key, at, n), key, from) == AllowedIn(cfg, trace, key, from) + n
    decreases n
  {
    hide After, AllowedIn, Burst;
    OneMoreInBurst(trace, key, at, if n > 0 then n - 1 else 0);
    if n > 0 {
      BurstIsAllowed(cfg, trace, key, at, n - 1, from);
      HitIsAllowed(cfg, trace + Burst(key, at, n - 1), key, at, from);
    }
  }

  /** One hit to open a window, the rest of its budget late in it, and a whole budget as it ends. */
  function Late(cfg: Settings, key: string): seq<Hit>
    requires cfg.limit > 0
  {
    [Hit(key, 0)] + Burst(key, 1, cfg.limit - 1) + Burst(key, cfg.window, cfg.limit)
  }

  lemma OpeningHit(cfg: Settings, key: string)
    requires cfg.window > 1
    ensures Current(cfg, After(cfg, [Hit(key, 0)], false), key, 1) == Window(1, 0)
    ensures AllowedIn(cfg, [Hit(key, 0)], key, 1) == 0
  {
    assert [Hit(key, 0)][..0] == [];
  }

  lemma LateIsLetThrough(cfg: Settings, key: string)
    requires cfg.window > 1 && cfg.limit > 0
    ensures AllowedIn(cfg, Late(cfg, key), key, 1) == Carry(cfg) + cfg.limit
  {
    hide After, AllowedIn, Burst;
    var first := [Hit(key, 0)];
    var late := first + Burst(key, 1, cfg.limit - 1);
    OpeningHit(cfg, key);
    BurstIsAllowed(cfg, first, key, 1, cfg.limit - 1, 1);
    NextWindow(cfg, late, key);
    BurstIsAllowed(cfg, late, key, cfg.window, cfg.limit, 1);
  }

  lemma NextWindow(cfg: Settings, trace: seq<Hit>, key: string)
    requires cfg.window > 1 && Current(cfg, After(cfg, trace, false), key, 1) == Window(cfg.limit, 0)
    ensures Current(cfg, After(cfg, trace, false), key, cfg.window).count == 0
  {
    hide After;
  }

  lemma AtOnceIsLetThrough(cfg: Settings, key: string)
    requires cfg.window == 1
    ensures AllowedIn(cfg, Burst(key, 0, cfg.limit), key, 0) == cfg.limit
  {
    BurstIsAllowed(cfg, [], key, 0, cfg.limit, 0);
    assert [] + Burst(key, 0, cfg.limit) == Burst(key, 0, cfg.limit);
  }

  /** The bound is reached, for every limit and window: no smaller one holds. */
  lemma TheBoundIsReached(cfg: Settings, key: string) returns (trace: seq<Hit>, from: int)
    requires cfg.window > 0 && cfg.limit > 0
    ensures Monotone(trace) && |AllowedHits(cfg, trace, key, from)| == Carry(cfg) + cfg.limit
  {
    hide AllowedIn, AllowedHits;
    if cfg.window == 1 {
      trace, from := Burst(key, 0, cfg.limit), 0;
      AtOnceIsLetThrough(cfg, key);
    } else {
      trace, from := Late(cfg, key), 1;
      LateIsLetThrough(cfg, key);
    }
    CountIsSize(cfg, trace, key, from);
  }

  // ---- nothing is refused early ----

  /** The window a key is in has let through as many hits as it counted, up to the limit. */
  ghost predicate Spent(cfg: Settings, trace: seq<Hit>, key: string) {
    var hits := After(cfg, trace, false);
    key in hits && trace != [] ==>
      hits[key].start <= trace[|trace| - 1].at && AllowedIn(cfg, trace, key, hits[key].start) >= Min(hits[key].count, cfg.limit)
  }

  lemma {:induction false} CountedWereAllowed(cfg: Settings, trace: seq<Hit>, key: string)
    requires Monotone(trace) && cfg.window > 0
    ensures Spent(cfg, trace, key)
  {
    if trace != [] {
      var n := |trace| - 1;
      CountedWereAllowed(cfg, trace[..n], key);
    }
  }

  /** A hit is refused only where its key has spent its budget: some interval one window long, begun
      by then and not over, already holds as many allowed hits as the limit. */
  lemma RefusedOnlyWhenSpent(cfg: Settings, trace: seq<Hit>, i: nat)
    requires Monotone(trace) && i < |trace| && cfg.window > 0
    requires !Allowed(cfg, trace, i, true)
    ensures exists from :: trace[i].at - cfg.window < from <= trace[i].at &&
                           AllowedIn(cfg, trace[..i], trace[i].key, from) >= cfg.limit
  {
    AnswersNeverPruned(cfg, trace, i);
    var hits, hit := After(cfg, trace[..i], false), trace[i];
    assert forall a, b | 0 <= a < b < i :: trace[..i][a] == trace[a] && trace[..i][b] == trace[b];
    CountedWereAllowed(cfg, trace[..i], hit.key);
    if cfg.limit == 0 {
      assert AllowedIn(cfg, trace[..i], hit.key, hit.at) >= 0;
    } else {
      assert hit.key in hits && trace[..i] != [];
      assert AllowedIn(cfg, trace[..i], hit.key, hits[hit.key].start) >= cfg.limit;
    }
  }

  // ---- the size of the map ----

  /** Past its cap the map grows only while every window in it is live. */
  lemma GrowthIsLive(cfg: Settings, hits: Hits, key: string, now: int)
    requires cfg.window > 0
    ensures var after := Counted(cfg, hits, key, now, true);
            |after| > MAX_KEYS && |after| > |hits| ==> Pruned(cfg, after, now) == after
  {
    var after := Counted(cfg, hits, key, now, true);
    if key in hits {
      NoMoreThan(after.Keys, hits.Keys);
    } else if |hits| < MAX_KEYS {
      assert after.Keys == hits.Keys + {key};
    } else {
      assert after == Pruned(cfg, hits, now)[key := Window(1, now)];
    }
  }

  ghost function KeysOf(trace: seq<Hit>): set<string> { set h | h in trace :: h.key }

  lemma OneMoreKey(init: seq<Hit>, last: Hit)
    requires forall i | 0 <= i < |init| :: init[i].key != last.key
    ensures last.key !in KeysOf(init) && KeysOf(init + [last]) == KeysOf(init) + {last.key}
  {
    assert last in init + [last] && forall h | h in init :: h in init + [last];
  }

  /** And live windows it never drops: distinct keys inside one window are all kept, however many. */
  lemma {:induction false} FloodIsKept(cfg: Settings, trace: seq<Hit>, from: int)
    requires forall i, j | 0 <= i < j < |trace| :: trace[i].key != trace[j].key && trace[i].at <= trace[j].at
    requires forall h | h in trace :: from <= h.at < from + cfg.window
    ensures var hits := After(cfg, trace, true);
            |hits| == |trace| && hits.Keys == KeysOf(trace) && forall k | k in hits :: from <= hits[k].start
  {
    if trace != [] {
      hide Counted;
      var n := |trace| - 1;
      var init, last := trace[..n], trace[n];
      assert trace == init + [last];
      OneMoreKey(init, last);
      FloodIsKept(cfg, init, from);
      LiveStay(cfg, After(cfg, init, true), last);
    } else {
      assert KeysOf(trace) == {};
    }
  }

  lemma LiveStay(cfg: Settings, hits: Hits, hit: Hit)
    requires hit.key !in hits && forall k | k in hits :: hit.at < hits[k].start + cfg.window
    ensures var after := Counted(cfg, hits, hit.key, hit.at, true);
            && |after| == |hits| + 1 && after.Keys == hits.Keys + {hit.key}
            && forall k | k in after :: after[k].start == if k == hit.key then hit.at else hits[k].start
  {
    assert Pruned(cfg, hits, hit.at) == hits;
    assert Counted(cfg, hits, hit.key, hit.at, true) == hits[hit.key := Window(1, hit.at)];
    assert hits[hit.key := Window(1, hit.at)].Keys == hits.Keys + {hit.key};
  }

  /** The keys with a live window once the first `i` hits are in, were nothing ever pruned. */
  ghost function Live(cfg: Settings, trace: seq<Hit>, i: nat): Hits
    requires 0 < i <= |trace|
  {
    Pruned(cfg, After(cfg, trace[..i], false), trace[i - 1].at)
  }

  ghost predicate OverCap(cfg: Settings, trace: seq<Hit>, i: nat)
    requires i <= |trace|
  {
    |After(cfg, trace[..i], true)| > 10000
  }

  lemma LiveAreKept(cfg: Settings, trace: seq<Hit>, i: nat)
    requires Monotone(trace) && 0 < i <= |trace|
    ensures |Live(cfg, trace, i)| <= |After(cfg, trace[..i], true)|
  {
    hide After;
    PruningIsInvisible(cfg, trace[..i], trace[i - 1].at);
    NoMoreThan(Live(cfg, trace, i).Keys, After(cfg, trace[..i], true).Keys);
  }

  lemma {:induction false} FirstOverflow(cfg: Settings, trace: seq<Hit>, i: nat) returns (j: nat)
    requires Monotone(trace) && cfg.window > 0 && i <= |trace| && OverCap(cfg, trace, i)
    ensures 0 < j <= i && |Live(cfg, trace, j)| > 10000
    decreases i
  {
    var before, after := After(cfg, trace[..i - 1], true), After(cfg, trace[..i], true);
    if OverCap(cfg, trace, i - 1) {
      j := FirstOverflow(cfg, trace, i - 1);
    } else {
      j := i;
      var hit := trace[i - 1];
      assert trace[..i][..i - 1] == trace[..i - 1] && trace[..i][i - 1] == hit;
      hide After;
      GrowthIsLive(cfg, before, hit.key, hit.at);
      PruningIsInvisible(cfg, trace[..i], hit.at);
      NoMoreThan(after.Keys, Live(cfg, trace, i).Keys);
    }
  }

  /** On every trace: the map outgrows its cap at some moment if and only if, at some hit, more keys
      than the cap have a live window. Expired windows alone never push it past. */
  lemma CapHoldsExactly(cfg: Settings, trace: seq<Hit>)
    requires Monotone(trace) && cfg.window > 0
    ensures (exists i :: 0 <= i <= |trace| && OverCap(cfg, trace, i)) <==>
            (exists i :: 0 < i <= |trace| && |Live(cfg, trace, i)| > 10000)
  {
    hide OverCap, Live, After;
    if i :| 0 <= i <= |trace| && OverCap(cfg, trace, i) {
      var j := FirstOverflow(cfg, trace, i);
    }
    if i :| 0 < i <= |trace| && |Live(cfg, trace, i)| > 10000 {
      LiveAreKept(cfg, trace, i);
      OverCapMeans(cfg, trace, i);
    }
  }

  lemma OverCapMeans(cfg: Settings, trace: seq<Hit>, i: nat)
    requires i <= |trace|
    ensures OverCap(cfg, trace, i) <==> |After(cfg, trace[..i], true)| > 10000
  {
  }
}
