/** Which handlers a point has: a registry swapped whole, never edited, and what its history of
    registrations and removals adds up to. */
module PluginRegistry {
  import opened Collections
  import opened OrderBy
  import opened PluginChain

  type Handlers = map<string, seq<Handler>>

  function HandlersAt(handlers: Handlers, point: string): seq<Handler> {
    if point in handlers then handlers[point] else []
  }

  /** Immutable once published. */
  class DispatchRegistry {
    const handlers: Handlers

    constructor (handlers: Handlers)
      ensures this.handlers == handlers
    {
      this.handlers := handlers;
    }
  }

  datatype Change = Registered(handler: Handler, point: string) | Unregistered(plugin: string)

  function NotOf(plugin: string): Handler -> bool { (h: Handler) => h.plugin != plugin }

  function Published(handlers: Handlers, change: Change): Handlers {
    match change
    case Registered(handler, point) => handlers[point := HandlersAt(handlers, point) + [handler]]
    case Unregistered(plugin) =>
      map point | point in handlers && Keep(NotOf(plugin), handlers[point]) != [] :: Keep(NotOf(plugin), handlers[point])
  }

  function With(verb: Verb): Handler -> bool { (h: Handler) => h.verb == verb }

  class PluginDispatch {
    var registry: DispatchRegistry

    constructor ()
      ensures registry.handlers == map[] && fresh(registry)
    {
      registry := new DispatchRegistry(map[]);
    }

    /** A reader holding the registry it loaded goes on seeing exactly what it loaded. */
    method Register(handler: Handler, point: string)
      modifies this`registry
      ensures fresh(registry)
      ensures registry.handlers == Published(old(registry).handlers, Registered(handler, point))
    {
      var current := registry.handlers;
      registry := new DispatchRegistry(current[point := HandlersAt(current, point) + [handler]]);
    }

    method Unregister(plugin: string)
      modifies this`registry
      ensures fresh(registry)
      ensures registry.handlers == Published(old(registry).handlers, Unregistered(plugin))
    {
      hide Keep;
      var current := registry.handlers;
      var next: Handlers := map[];
      var left := current.Keys;
      while left != {}
        invariant left <= current.Keys && registry == old(registry)
        invariant forall p :: p in next <==> p in Published(current, Unregistered(plugin)) && p !in left
        invariant forall p | p in next :: next[p] == Published(current, Unregistered(plugin))[p]
      {
        var point :| point in left;
        left := left - {point};
        var kept := Keep(NotOf(plugin), current[point]);
        if |kept| > 0 {
          next := next[point := kept];
        }
      }
      registry := new DispatchRegistry(next);
    }

    method HandlersFor(point: string, verb: Verb) returns (matched: seq<Handler>)
      ensures matched == Keep(With(verb), HandlersAt(registry.handlers, point))
      ensures forall h :: h in matched <==> point in registry.handlers && h in registry.handlers[point] && h.verb == verb
    {
      var handlers := HandlersAt(registry.handlers, point);
      matched := [];
      assert matched == Keep(With(verb), handlers[..0]);
      hide Keep, With;
      for i := 0 to |handlers|
        invariant matched == Keep(With(verb), handlers[..i])
      {
        KeepNext(verb, handlers, i);
        if handlers[i].verb == verb {
          matched := matched + [handlers[i]];
        }
      }
      assert handlers[..|handlers|] == handlers;
    }
  }

  function HandlersAfter(log: seq<Change>): Handlers {
    if log == [] then map[] else Published(HandlersAfter(log[..|log| - 1]), log[|log| - 1])
  }

  /** Entry `k` of the history registered a handler at the point, and its plugin was not removed
      afterwards. */
  predicate Standing(log: seq<Change>, point: string, k: nat)
    requires k < |log|
  {
    && log[k].Registered? && log[k].point == point
    && forall j | k < j < |log| :: log[j] != Unregistered(log[k].handler.plugin)
  }

  /** The standing registrations among the first `n` entries, in registration order. */
  ghost function Standings(log: seq<Change>, point: string, n: nat): seq<Handler>
    requires n <= |log|
  {
    if n == 0 then [] else
      Standings(log, point, n - 1) + if Standing(log, point, n - 1) then [log[n - 1].handler] else []
  }

  lemma KeepLast<T(!new)>(p: T -> bool, init: seq<T>, last: T)
    ensures Keep(p, init + [last]) == Keep(p, init) + if p(last) then [last] else []
  {
    assert (init + [last])[..|init|] == init;
  }

  lemma KeepNext(verb: Verb, handlers: seq<Handler>, i: nat)
    requires i < |handlers|
    ensures Keep(With(verb), handlers[..i + 1]) ==
              Keep(With(verb), handlers[..i]) + if handlers[i].verb == verb then [handlers[i]] else []
  {
    hide Keep;
    assert handlers[..i + 1] == handlers[..i] + [handlers[i]];
    KeepLast(With(verb), handlers[..i], handlers[i]);
  }

  /** One more entry of history: a removal thins what stood before, anything else leaves it. */
  lemma {:induction false} StandingsAfterChange(log: seq<Change>, change: Change, point: string, n: nat)
    requires n <= |log|
    ensures Standings(log + [change], point, n) ==
              if change.Unregistered? then Keep(NotOf(change.plugin), Standings(log, point, n)) else Standings(log, point, n)
  {
    hide Keep;
    var more := log + [change];
    if n > 0 {
      var k := n - 1;
      StandingsAfterChange(log, change, point, k);
      assert more[k] == log[k] && more[|log|] == change;
      assert forall j | k < j < |log| :: more[j] == log[j];
      assert Standing(more, point, k) <==>
             Standing(log, point, k) && (change.Unregistered? ==> log[k].handler.plugin != change.plugin);
      assert Standings(log, point, k) + [] == Standings(log, point, k);
      assert Standings(more, point, k) + [] == Standings(more, point, k);
      if Standing(log, point, k) {
        if change.Unregistered? { KeepLast(NotOf(change.plugin), Standings(log, point, k), log[k].handler); }
      }
    } else {
      KeepNothing(change);
    }
  }

  lemma KeepNothing(change: Change)
    ensures change.Unregistered? ==> Keep(NotOf(change.plugin), []) == []
  {
  }

  /** After any history, a point's handlers are exactly the registrations still standing, in the
      order they were made. */
  lemma {:induction false} RegistryIsItsHistory(log: seq<Change>, point: string)
    ensures HandlersAt(HandlersAfter(log), point) == Standings(log, point, |log|)
  {
    hide Keep;
    if log != [] {
      var init, last := log[..|log| - 1], log[|log| - 1];
      assert log == init + [last];
      RegistryIsItsHistory(init, point);
      StandingsAfterChange(init, last, point, |init|);
      KeepNothing(last);
    }
  }

  // ---- observers ----

  /** The runtimes behind a handler list, in order, without repeats. */
  function Runtimes(handlers: seq<Handler>): seq<nat> {
    if handlers == [] then [] else
      var known := Runtimes(handlers[..|handlers| - 1]);
      var last := handlers[|handlers| - 1].runtime;
      if last in known then known else known + [last]
  }

  method DistinctRuntimes(handlers: seq<Handler>) returns (runtimes: seq<nat>)
    ensures runtimes == Runtimes(handlers)
  {
    runtimes := [];
    for i := 0 to |handlers|
      invariant runtimes == Runtimes(handlers[..i])
    {
      assert handlers[..i + 1][..i] == handlers[..i];
      var seen := false;
      for j := 0 to |runtimes|
        invariant seen <==> handlers[i].runtime in runtimes[..j]
      {
        if runtimes[j] == handlers[i].runtime {
          seen := true;
          assert handlers[i].runtime in runtimes;
          break;
        }
      }
      if !seen {
        runtimes := runtimes + [handlers[i].runtime];
      }
    }
    assert handlers[..|handlers|] == handlers;
  }

  function Of(runtime: nat): Handler -> bool { (h: Handler) => h.runtime == runtime }

  /** One EmitTo per runtime, each of which runs every handler of that runtime. */
  ghost function Invocations(runtimes: seq<nat>, handlers: seq<Handler>): seq<Handler> {
    if runtimes == [] then [] else
      Invocations(runtimes[..|runtimes| - 1], handlers) + Keep(Of(runtimes[|runtimes| - 1]), handlers)
  }

  lemma {:induction false} RuntimesCover(handlers: seq<Handler>)
    ensures Distinct(Runtimes(handlers))
    ensures forall h | h in handlers :: h.runtime in Runtimes(handlers)
  {
    if handlers != [] {
      var init, last := handlers[..|handlers| - 1], handlers[|handlers| - 1];
      assert handlers == init + [last];
      RuntimesCover(init);
    }
  }

  lemma {:induction false} OneMoreHandler(runtimes: seq<nat>, handlers: seq<Handler>, h: Handler)
    requires Distinct(runtimes)
    ensures multiset(Invocations(runtimes, handlers + [h])) ==
            multiset(Invocations(runtimes, handlers)) + if h.runtime in runtimes then multiset{h} else multiset{}
  {
    hide Keep;
    if runtimes != [] {
      var init, last := runtimes[..|runtimes| - 1], runtimes[|runtimes| - 1];
      assert runtimes == init + [last];
      OneMoreHandler(init, handlers, h);
      KeepLast(Of(last), handlers, h);
    }
  }

  lemma {:induction false} EachInvokedOnce(runtimes: seq<nat>, handlers: seq<Handler>)
    requires Distinct(runtimes) && forall h | h in handlers :: h.runtime in runtimes
    ensures multiset(Invocations(runtimes, handlers)) == multiset(handlers)
  {
    if handlers != [] {
      var init, last := handlers[..|handlers| - 1], handlers[|handlers| - 1];
      assert handlers == init + [last];
      EachInvokedOnce(runtimes, init);
      OneMoreHandler(runtimes, init, last);
    } else {
      NobodyInvoked(runtimes);
    }
  }

  lemma {:induction false} NobodyInvoked(runtimes: seq<nat>)
    ensures Invocations(runtimes, []) == []
  {
    if runtimes != [] { NobodyInvoked(runtimes[..|runtimes| - 1]); }
  }

  /** A notification runs every registered observer exactly once, however many of them share a
      runtime. */
  lemma NotifyRunsEachObserverOnce(handlers: seq<Handler>)
    ensures multiset(Invocations(Runtimes(handlers), handlers)) == multiset(handlers)
  {
    RuntimesCover(handlers);
    EachInvokedOnce(Runtimes(handlers), handlers);
  }
}
