/** Sending one call to many listeners under one time budget. */
module FanOut {
  import opened Collections
  import opened PluginChain

  /** The whole fan-out of one call. */
  datatype Emission = Emission(sent: seq<nat>, vetoes: nat, remaining: int, overruns: nat, spent: nat)

  /** One listener: kept unless a handler says drop. */
  function EmitOne(handlers: seq<Handler>, value: Fields, timeout: nat, c: nat, e: Emission): Emission {
    var p := Chain(handlers, Start(value, Some(e.remaining)), timeout);
    Emission(if p.vetoed then e.sent else e.sent + [c],
             e.vetoes + (if p.vetoed then 1 else 0),
             p.remaining.value, e.overruns + p.overruns, e.spent + p.spent)
  }

  function EmitAll(handlers: seq<Handler>, valueFor: nat -> Fields, timeout: nat, candidates: seq<nat>, total: nat): Emission {
    if candidates == [] then Emission([], 0, total, 0, 0) else
      var init, last := candidates[..|candidates| - 1], candidates[|candidates| - 1];
      EmitOne(handlers, valueFor(last), timeout, last, EmitAll(handlers, valueFor, timeout, init, total))
  }

  /** The chain never loses track of an allowance it was given. */
  lemma {:induction false} ChainKeepsAllowance(handlers: seq<Handler>, p: Progress, timeout: nat)
    requires p.remaining.Some?
    ensures Chain(handlers, p, timeout).remaining.value + Chain(handlers, p, timeout).spent == p.remaining.value + p.spent
    ensures (forall h | h in handlers :: Punctual(h)) && p.remaining.value >= 0 ==>
              Chain(handlers, p, timeout).remaining.value >= 0
  {
    if handlers != [] && Grant(p.remaining, timeout).Some? {
      assert handlers[0] in handlers;
      var allowed := Grant(p.remaining, timeout).value;
      var reply := handlers[0].reply(p.current, allowed);
      var after := Charged(p, handlers[0].cost(p.current, allowed));
      if !reply.Drops() {
        if reply.Returned? {
          after := Noted(after, reply.fields);
        }
        ChainKeepsAllowance(handlers[1..], after, timeout);
        assert forall h | h in handlers[1..] :: h in handlers;
      }
    }
  }

  /** A handler that stops by the deadline it is granted. */
  ghost predicate Punctual(h: Handler) { forall value, granted :: h.cost(value, granted) <= granted }

  lemma FirstTakesItsTime(handlers: seq<Handler>, p: Progress, timeout: nat)
    requires handlers != [] && Punctual(handlers[0]) && Grant(p.remaining, timeout).Some?
    ensures var (end, next) := (Chain(handlers, p, timeout), Afterwards(handlers, p, timeout));
            next.spent <= p.spent + timeout && (end.spent == next.spent || end == Chain(handlers[1..], next, timeout))
  {
    GrantMeans(p.remaining, timeout);
  }

  lemma OneMoreTimes(n: nat, t: nat)
    requires n > 0
    ensures n * t == t + (n - 1) * t && (n - 1) * t >= 0
  {
  }

  /** No handler is given more than its own timeout either, whatever the budget. */
  lemma {:induction false} ChainTimeIsBounded(handlers: seq<Handler>, p: Progress, timeout: nat)
    requires forall h | h in handlers :: Punctual(h)
    ensures Chain(handlers, p, timeout).spent <= p.spent + |handlers| * timeout
    decreases |handlers|
  {
    if handlers != [] {
      OneMoreTimes(|handlers|, timeout);
      if Grant(p.remaining, timeout).Some? {
        hide Chain, Afterwards, Punctual;
        assert handlers[0] in handlers && forall h | h in handlers[1..] :: h in handlers;
        FirstTakesItsTime(handlers, p, timeout);
        ChainTimeIsBounded(handlers[1..], Afterwards(handlers, p, timeout), timeout);
      }
    }
  }

  lemma {:induction false} FanOutTimeIsBounded(handlers: seq<Handler>, valueFor: nat -> Fields, timeout: nat, candidates: seq<nat>, total: nat)
    requires forall h | h in handlers :: Punctual(h)
    ensures EmitAll(handlers, valueFor, timeout, candidates, total).spent <= |candidates| * (|handlers| * timeout)
  {
    hide Chain;
    if candidates != [] {
      var init, last := candidates[..|candidates| - 1], candidates[|candidates| - 1];
      FanOutTimeIsBounded(handlers, valueFor, timeout, init, total);
      var e := EmitAll(handlers, valueFor, timeout, init, total);
      ChainTimeIsBounded(handlers, Start(valueFor(last), Some(e.remaining)), timeout);
    }
  }

  method EmitCall(handlers: seq<Handler>, valueFor: nat -> Fields, timeout: nat, candidates: seq<nat>, total: nat)
    returns (recipients: nat, sent: seq<nat>, skipped: nat)
    ensures var e := EmitAll(handlers, valueFor, timeout, candidates, total);
            recipients == |e.sent| && sent == e.sent && skipped == e.overruns
  {
    var budget := new Budget(total);
    recipients, sent := 0, [];
    for i := 0 to |candidates|
      invariant fresh(budget)
      invariant var e := EmitAll(handlers, valueFor, timeout, candidates[..i], total);
                recipients == |e.sent| && sent == e.sent && budget.overruns == e.overruns && budget.remaining == e.remaining
    {
      assert candidates[..i + 1][..i] == candidates[..i];
      var c := candidates[i];
      var _, keep := FilterWithin(budget, handlers, valueFor(c), timeout);
      if keep {
        sent := sent + [c];
        recipients := recipients + 1;
      }
    }
    assert candidates[..|candidates|] == candidates;
    skipped := budget.overruns;
  }

  /** However many listeners and handlers: recipients and explicit vetoes add up to the
      candidates, and handlers that keep their deadlines never take more than the budget between
      them. */
  lemma {:induction false} FanOutIsBounded(handlers: seq<Handler>, valueFor: nat -> Fields, timeout: nat, candidates: seq<nat>, total: nat)
    ensures var e := EmitAll(handlers, valueFor, timeout, candidates, total);
            && |e.sent| + e.vetoes == |candidates|
            && e.spent + e.remaining == total
            && ((forall h | h in handlers :: Punctual(h)) ==> e.spent <= total)
  {
    hide Chain;
    if candidates != [] {
      var init, last := candidates[..|candidates| - 1], candidates[|candidates| - 1];
      FanOutIsBounded(handlers, valueFor, timeout, init, total);
      var e := EmitAll(handlers, valueFor, timeout, init, total);
      ChainKeepsAllowance(handlers, Start(valueFor(last), Some(e.remaining)), timeout);
    }
  }

  /** The chain of candidate `k`, on what the ones before it had left of the budget. */
  function Turn(handlers: seq<Handler>, valueFor: nat -> Fields, timeout: nat, candidates: seq<nat>, total: nat, k: nat): Progress
    requires k < |candidates|
  {
    Start(valueFor(candidates[k]), Some(EmitAll(handlers, valueFor, timeout, candidates[..k], total).remaining))
  }

  lemma {:induction false} SentUnlessVetoed(handlers: seq<Handler>, valueFor: nat -> Fields, timeout: nat, candidates: seq<nat>, total: nat, k: nat)
    requires k < |candidates| && Distinct(candidates)
    ensures candidates[k] in EmitAll(handlers, valueFor, timeout, candidates, total).sent <==>
              !Chain(handlers, Turn(handlers, valueFor, timeout, candidates, total, k), timeout).vetoed
    ensures forall c | c in EmitAll(handlers, valueFor, timeout, candidates, total).sent :: c in candidates
  {
    hide Chain;
    var n := |candidates| - 1;
    var init, last := candidates[..n], candidates[n];
    assert candidates == init + [last];
    OnlyCandidatesAreSent(handlers, valueFor, timeout, init, total);
    OnlyCandidatesAreSent(handlers, valueFor, timeout, candidates, total);
    if k < n {
      assert candidates[..k] == init[..k];
      SentUnlessVetoed(handlers, valueFor, timeout, init, total, k);
    }
  }

  lemma {:induction false} OnlyCandidatesAreSent(handlers: seq<Handler>, valueFor: nat -> Fields, timeout: nat, candidates: seq<nat>, total: nat)
    ensures forall c | c in EmitAll(handlers, valueFor, timeout, candidates, total).sent :: c in candidates
  {
    hide Chain;
    if candidates != [] {
      var init, last := candidates[..|candidates| - 1], candidates[|candidates| - 1];
      assert candidates == init + [last];
      OnlyCandidatesAreSent(handlers, valueFor, timeout, init, total);
    }
  }

  /** A candidate is not sent the call if and only if, on its own turn, some handler that was reached
      dropped the value it was shown within the time it was granted. */
  lemma WithheldByAHandler(handlers: seq<Handler>, valueFor: nat -> Fields, timeout: nat, candidates: seq<nat>, total: nat, k: nat)
    requires k < |candidates| && Distinct(candidates)
    ensures candidates[k] !in EmitAll(handlers, valueFor, timeout, candidates, total).sent <==>
              exists i: nat :: DropsAt(handlers, Turn(handlers, valueFor, timeout, candidates, total, k), timeout, i)
  {
    hide EmitAll, Chain, DropsAt;
    SentUnlessVetoed(handlers, valueFor, timeout, candidates, total, k);
    VetoHasAnAuthor(handlers, Turn(handlers, valueFor, timeout, candidates, total, k), timeout);
  }

  /** Running out of time withholds a call from nobody: once the allowance is gone every later
      candidate is sent the call. */
  lemma {:induction false} ExhaustionWithholdsNothing(handlers: seq<Handler>, valueFor: nat -> Fields, timeout: nat, served: seq<nat>, rest: seq<nat>, total: nat)
    requires EmitAll(handlers, valueFor, timeout, served, total).remaining <= 0
    ensures EmitAll(handlers, valueFor, timeout, served + rest, total).sent ==
            EmitAll(handlers, valueFor, timeout, served, total).sent + rest
    ensures EmitAll(handlers, valueFor, timeout, served + rest, total).remaining <= 0
  {
    if rest == [] {
      assert served + rest == served;
    } else {
      var init, last := rest[..|rest| - 1], rest[|rest| - 1];
      assert rest == init + [last];
      assert (served + rest)[..|served + rest| - 1] == served + init;
      ExhaustionWithholdsNothing(handlers, valueFor, timeout, served, init, total);
    }
  }
}
