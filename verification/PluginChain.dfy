/** The plugin filter chain, its time budget, and the registry it reads.

    A handler is any function of the value it is given and the time it is granted: it may fail,
    say nothing, return something unusable, return fields to change, or veto. */
module PluginChain {
  import opened Collections

  datatype Value = Bool(b: bool) | Other(n: int)

  type Fields = map<string, Value>

  datatype Reply = Failed | Nil | NotAMap | Returned(fields: Fields)
  {
    predicate Drops() { Returned? && "drop" in fields && fields["drop"] == Bool(true) }
  }

  datatype Verb = On | Filter | Override | Provide

  datatype Handler = Handler(
    plugin: string,
    verb: Verb,
    runtime: nat,
    reply: (Fields, nat) -> Reply,
    cost: (Fields, nat) -> nat)

  // ---- the budget ----

  /** How long a handler may run; None means it is not reached. No allowance bounds nothing. */
  function Grant(remaining: Option<int>, want: nat): Option<nat> {
    match remaining
    case None => Some(want)
    case Some(left) => if left <= 0 then None else if want > left then Some(left) else Some(want)
  }

  class Budget {
    var remaining: int
    var overruns: nat

    constructor (total: nat)
      ensures remaining == total && overruns == 0
    {
      remaining, overruns := total, 0;
    }

    method Take(want: nat) returns (granted: Option<nat>)
      modifies this`overruns
      ensures granted == Grant(Some(remaining), want)
      ensures overruns == old(overruns) + if granted.None? then 1 else 0
    {
      if remaining <= 0 {
        overruns := overruns + 1;
        return None;
      }
      granted := Some(if want > remaining then remaining else want);
    }

    method Spend(used: nat)
      modifies this`remaining
      ensures remaining == old(remaining) - used
    {
      remaining := remaining - used;
    }
  }

  // ---- the chain ----

  /** `current` is what the next handler sees, `changed` the fields named so far, `spent` the time
      handlers have really taken. */
  datatype Progress = Progress(
    current: Fields,
    changed: Option<Fields>,
    vetoed: bool,
    remaining: Option<int>,
    overruns: nat,
    spent: nat)

  function Start(value: Fields, remaining: Option<int>): Progress { Progress(value, None, false, remaining, 0, 0) }

  function Overlay(base: Fields, fields: Fields): Fields { base + fields }

  function Named(changed: Option<Fields>): Fields { if changed.Some? then changed.value else map[] }

  function Charged(p: Progress, used: nat): Progress {
    p.(remaining := if p.remaining.Some? then Some(p.remaining.value - used) else None, spent := p.spent + used)
  }

  /** The fields a handler returned, noted in both. */
  function Noted(p: Progress, fields: Fields): Progress {
    p.(current := Overlay(p.current, fields), changed := Some(Overlay(Named(p.changed), fields)))
  }

  function Chain(handlers: seq<Handler>, p: Progress, timeout: nat): (end: Progress)
    ensures end.remaining.Some? == p.remaining.Some?
  {
    if handlers == [] then p else
      match Grant(p.remaining, timeout)
      case None => p.(overruns := p.overruns + 1)
      case Some(allowed) =>
        var reply := handlers[0].reply(p.current, allowed);
        var after := Charged(p, handlers[0].cost(p.current, allowed));
        if reply.Drops() then after.(vetoed := true)
        else if reply.Returned? then
          Chain(handlers[1..], Noted(after, reply.fields), timeout)
        else Chain(handlers[1..], after, timeout)
  }

  /** What the caller gets back: the value as it stood at a veto, the fields some handler named,
      or exactly what came in. */
  function Result(value: Fields, p: Progress): (Fields, bool) {
    if p.vetoed then (p.current, false)
    else if p.changed.None? then (value, true)
    else (p.changed.value, true)
  }

  function Remaining(budget: Budget?): Option<int>
    reads budget
  {
    if budget == null then None else Some(budget.remaining)
  }

  method FilterWithin(budget: Budget?, handlers: seq<Handler>, value: Fields, timeout: nat) returns (result: Fields, keep: bool)
    modifies budget
    ensures var p := Chain(handlers, Start(value, old(Remaining(budget))), timeout);
            && (result, keep) == Result(value, p)
            && Remaining(budget) == p.remaining
            && (budget != null ==> budget.overruns == old(budget.overruns) + p.overruns)
  {
    ghost var p := Start(value, Remaining(budget));
    ghost var final := Chain(handlers, p, timeout);
    var current := value;
    var changed: Option<Fields> := None;
    var i := 0;
    while i < |handlers|
      invariant 0 <= i <= |handlers|
      invariant current == p.current && changed == p.changed && !p.vetoed && p.overruns == 0
      invariant Remaining(budget) == p.remaining
      invariant budget != null ==> budget.overruns == old(budget.overruns)
      invariant Chain(handlers[i..], p, timeout) == final
    {
      var granted := Some(timeout);
      if budget != null {
        granted := budget.Take(timeout);
      }
      if granted.None? {
        break;
      }
      var reply := handlers[i].reply(current, granted.value);
      var used := handlers[i].cost(current, granted.value);
      if budget != null {
        budget.Spend(used);
      }
      p := Charged(p, used);
      if reply.Drops() {
        return current, false;
      }
      if reply.Returned? {
        changed := Some(Overlay(Named(changed), reply.fields));
        current := Overlay(current, reply.fields);
        p := p.(current := current, changed := changed);
      }
      i := i + 1;
    }
    if changed.None? {
      return value, true;
    }
    result, keep := changed.value, true;
  }

  /** At every point of the chain, what handlers see is the original with all changes so far laid
      over it. */
  lemma {:induction false} ValueSeenIsOriginalPlusChanges(handlers: seq<Handler>, value: Fields, p: Progress, timeout: nat)
    requires p.current == Overlay(value, Named(p.changed))
    ensures var end := Chain(handlers, p, timeout); end.current == Overlay(value, Named(end.changed))
  {
    if handlers != [] && Grant(p.remaining, timeout).Some? {
      var allowed := Grant(p.remaining, timeout).value;
      var reply := handlers[0].reply(p.current, allowed);
      var after := Charged(p, handlers[0].cost(p.current, allowed));
      if !reply.Drops() {
        if reply.Returned? {
          after := Noted(after, reply.fields);
        }
        ValueSeenIsOriginalPlusChanges(handlers[1..], value, after, timeout);
      }
    }
  }

  /** Each handler applied in turn to the whole value, nothing else kept. */
  function Fold(handlers: seq<Handler>, value: Fields, timeout: nat): Fields {
    if handlers == [] then value else
      var reply := handlers[0].reply(value, timeout);
      Fold(handlers[1..], if reply.Returned? then Overlay(value, reply.fields) else value, timeout)
  }

  lemma {:induction false} ChainFolds(handlers: seq<Handler>, p: Progress, timeout: nat)
    requires p.remaining.None? && !p.vetoed && !Chain(handlers, p, timeout).vetoed
    ensures Chain(handlers, p, timeout).current == Fold(handlers, p.current, timeout)
  {
    if handlers != [] {
      var reply := handlers[0].reply(p.current, timeout);
      var after := Charged(p, handlers[0].cost(p.current, timeout));
      if reply.Returned? {
        after := Noted(after, reply.fields);
      }
      ChainFolds(handlers[1..], after, timeout);
    }
  }

  /** Laying the returned fields over the input gives what running every handler on the whole
      value would have given. */
  lemma ResultIsTheFold(handlers: seq<Handler>, value: Fields, timeout: nat)
    requires !Chain(handlers, Start(value, None), timeout).vetoed
    ensures var (fields, keep) := Result(value, Chain(handlers, Start(value, None), timeout));
            keep && Overlay(value, fields) == Fold(handlers, value, timeout)
  {
    ChainFolds(handlers, Start(value, None), timeout);
    assert Overlay(value, map[]) == value;
    ValueSeenIsOriginalPlusChanges(handlers, value, Start(value, None), timeout);
    assert Overlay(value, value) == value;
  }

  /** `short` is `full` without some handlers that failed, said nothing or returned no map. */
  ghost predicate Thinned(short: seq<Handler>, full: seq<Handler>, value: Fields, timeout: nat) {
    if full == [] then short == [] else
      var reply := full[0].reply(value, timeout);
      var next := if reply.Returned? then Overlay(value, reply.fields) else value;
      || (!reply.Returned? && Thinned(short, full[1..], value, timeout))
      || (short != [] && short[0] == full[0] && (reply.Drops() || Thinned(short[1..], full[1..], next, timeout)))
  }

  /** A plugin that fails cannot change what the others do: leaving such handlers out changes
      neither the result nor the veto. */
  lemma {:induction false} FailingHandlersDoNotMatter(short: seq<Handler>, full: seq<Handler>, p: Progress, q: Progress, timeout: nat)
    requires p.remaining.None? && q.remaining.None? && Thinned(short, full, p.current, timeout)
    requires p.current == q.current && p.changed == q.changed && p.vetoed == q.vetoed
    ensures var (a, b) := (Chain(full, p, timeout), Chain(short, q, timeout));
            a.current == b.current && a.changed == b.changed && a.vetoed == b.vetoed
    decreases |full|
  {
    if full != [] {
      var reply := full[0].reply(p.current, timeout);
      var after := Charged(p, full[0].cost(p.current, timeout));
      if !reply.Returned? && Thinned(short, full[1..], p.current, timeout) {
        FailingHandlersDoNotMatter(short, full[1..], after, q, timeout);
      } else if !reply.Drops() {
        var thinned := Charged(q, short[0].cost(q.current, timeout));
        if reply.Returned? {
          after := Noted(after, reply.fields);
          thinned := Noted(thinned, reply.fields);
        }
        FailingHandlersDoNotMatter(short[1..], full[1..], after, thinned, timeout);
      }
    }
  }

  // ---- what a grant and an overlay are ----

  /** A grant is never longer than what was asked for nor than what is left, and shorter than asked only
      where less is left; it is refused exactly when nothing is. */
  lemma GrantMeans(remaining: Option<int>, want: nat)
    ensures Grant(remaining, want).None? <==> remaining.Some? && remaining.value <= 0
    ensures Grant(remaining, want).Some? ==>
              var g := Grant(remaining, want).value;
              g <= want && (remaining.Some? ==> g <= remaining.value) &&
              (g == want || (remaining.Some? && g == remaining.value))
  {
  }

  /** The later fields win, key by key, and nothing else moves. */
  lemma OverlayMeans(base: Fields, fields: Fields, key: string)
    ensures key in Overlay(base, fields) <==> key in base || key in fields
    ensures key in fields ==> Overlay(base, fields)[key] == fields[key]
    ensures key in base && key !in fields ==> Overlay(base, fields)[key] == base[key]
  {
  }

  // ---- what each handler said ----

  /** What handler `i` said to the value the ones before it had left, in the time that then remained;
      None if it was not reached. */
  ghost function ReplyAt(handlers: seq<Handler>, p: Progress, timeout: nat, i: nat): Option<Reply> {
    if i >= |handlers| then None else
      var before := Chain(handlers[..i], p, timeout);
      if before.vetoed then None else
        match Grant(before.remaining, timeout)
        case None => None
        case Some(granted) => Some(handlers[i].reply(before.current, granted))
  }

  /** It said drop: a map with that field true, and nothing less. */
  ghost predicate DropsAt(handlers: seq<Handler>, p: Progress, timeout: nat, i: nat) {
    var reply := ReplyAt(handlers, p, timeout, i);
    reply.Some? && reply.value.Returned? && "drop" in reply.value.fields && reply.value.fields["drop"] == Bool(true)
  }

  /** It returned fields, this one among them, and no veto. */
  ghost predicate NamesAt(handlers: seq<Handler>, p: Progress, timeout: nat, i: nat, key: string) {
    var reply := ReplyAt(handlers, p, timeout, i);
    reply.Some? && reply.value.Returned? && key in reply.value.fields && !DropsAt(handlers, p, timeout, i)
  }

  /** The chain past its first handler. */
  function Afterwards(handlers: seq<Handler>, p: Progress, timeout: nat): Progress
    requires handlers != [] && Grant(p.remaining, timeout).Some?
  {
    var allowed := Grant(p.remaining, timeout).value;
    var reply := handlers[0].reply(p.current, allowed);
    var after := Charged(p, handlers[0].cost(p.current, allowed));
    if reply.Returned? then Noted(after, reply.fields) else after
  }

  lemma FirstReply(handlers: seq<Handler>, p: Progress, timeout: nat)
    requires handlers != [] && !p.vetoed
    ensures ReplyAt(handlers, p, timeout, 0) ==
              match Grant(p.remaining, timeout)
              case None => None
              case Some(granted) => Some(handlers[0].reply(p.current, granted))
  {
    assert handlers[..0] == [];
  }

  /** Nobody is reached past a veto or an empty allowance. */
  lemma NobodyAfterTheEnd(handlers: seq<Handler>, p: Progress, timeout: nat, i: nat)
    requires handlers != [] && !p.vetoed && i > 0
    requires Grant(p.remaining, timeout).None? || DropsAt(handlers, p, timeout, 0)
    ensures ReplyAt(handlers, p, timeout, i).None?
  {
    FirstReply(handlers, p, timeout);
    if i < |handlers| { assert handlers[..i][0] == handlers[0]; }
  }

  lemma LaterReply(handlers: seq<Handler>, p: Progress, timeout: nat, i: nat)
    requires handlers != [] && !p.vetoed && Grant(p.remaining, timeout).Some? && !DropsAt(handlers, p, timeout, 0)
    ensures ReplyAt(handlers, p, timeout, i + 1) == ReplyAt(handlers[1..], Afterwards(handlers, p, timeout), timeout, i)
  {
    FirstReply(handlers, p, timeout);
    if i + 1 < |handlers| {
      assert handlers[..i + 1][1..] == handlers[1..][..i];
    }
  }

  /** A chain goes on exactly as the rest of it does from where the first handler left it. */
  lemma ChainGoesOn(handlers: seq<Handler>, p: Progress, timeout: nat)
    requires handlers != [] && !p.vetoed && Grant(p.remaining, timeout).Some? && !DropsAt(handlers, p, timeout, 0)
    ensures Chain(handlers, p, timeout) == Chain(handlers[1..], Afterwards(handlers, p, timeout), timeout)
    ensures !Afterwards(handlers, p, timeout).vetoed
  {
    FirstReply(handlers, p, timeout);
  }

  lemma ChainEnds(handlers: seq<Handler>, p: Progress, timeout: nat)
    requires handlers == [] || Grant(p.remaining, timeout).None? || DropsAt(handlers, p, timeout, 0)
    requires !p.vetoed
    ensures Chain(handlers, p, timeout).changed == p.changed
    ensures Chain(handlers, p, timeout).vetoed <==> handlers != [] && Grant(p.remaining, timeout).Some?
  {
    if handlers != [] { FirstReply(handlers, p, timeout); }
  }

  /** A chain ends in a veto if and only if one of its handlers was reached and said drop. */
  lemma {:induction false} VetoHasAnAuthor(handlers: seq<Handler>, p: Progress, timeout: nat)
    requires !p.vetoed
    ensures Chain(handlers, p, timeout).vetoed <==> exists i: nat :: DropsAt(handlers, p, timeout, i)
    decreases |handlers|
  {
    if handlers != [] && Grant(p.remaining, timeout).Some? && !DropsAt(handlers, p, timeout, 0) {
      var rest, next := handlers[1..], Afterwards(handlers, p, timeout);
      forall i: nat ensures DropsAt(handlers, p, timeout, i + 1) <==> DropsAt(rest, next, timeout, i) {
        LaterReply(handlers, p, timeout, i);
      }
      ChainGoesOn(handlers, p, timeout);
      hide DropsAt, Chain, Afterwards;
      VetoHasAnAuthor(rest, next, timeout);
      if i: nat :| DropsAt(handlers, p, timeout, i) { assert DropsAt(rest, next, timeout, i - 1); }
      if i: nat :| DropsAt(rest, next, timeout, i) { assert DropsAt(handlers, p, timeout, i + 1); }
    } else {
      ChainEnds(handlers, p, timeout);
      if handlers != [] {
        FirstReply(handlers, p, timeout);
        forall i: nat | i > 0 ensures !DropsAt(handlers, p, timeout, i) { NobodyAfterTheEnd(handlers, p, timeout, i); }
      }
    }
  }

  /** What the chain has noted as changed are exactly the fields its handlers named. */
  lemma {:induction false} FieldsWereNamed(handlers: seq<Handler>, p: Progress, timeout: nat, key: string)
    requires !p.vetoed
    ensures key in Named(Chain(handlers, p, timeout).changed) <==>
              key in Named(p.changed) || exists i: nat :: NamesAt(handlers, p, timeout, i, key)
    decreases |handlers|
  {
    if handlers != [] && Grant(p.remaining, timeout).Some? && !DropsAt(handlers, p, timeout, 0) {
      var rest, next := handlers[1..], Afterwards(handlers, p, timeout);
      forall i: nat ensures NamesAt(handlers, p, timeout, i + 1, key) <==> NamesAt(rest, next, timeout, i, key) {
        LaterReply(handlers, p, timeout, i);
      }
      FirstReply(handlers, p, timeout);
      ChainGoesOn(handlers, p, timeout);
      assert key in Named(next.changed) <==> key in Named(p.changed) || NamesAt(handlers, p, timeout, 0, key);
      hide NamesAt, Chain, Afterwards;
      FieldsWereNamed(rest, next, timeout, key);
      if i: nat :| NamesAt(handlers, p, timeout, i, key) && i > 0 { assert NamesAt(rest, next, timeout, i - 1, key); }
      if i: nat :| NamesAt(rest, next, timeout, i, key) { assert NamesAt(handlers, p, timeout, i + 1, key); }
    } else {
      ChainEnds(handlers, p, timeout);
      if handlers != [] {
        FirstReply(handlers, p, timeout);
        forall i: nat | i > 0 ensures !NamesAt(handlers, p, timeout, i, key) { NobodyAfterTheEnd(handlers, p, timeout, i); }
      }
    }
  }

  /** An un-vetoed filter hands back either exactly what came in or only what handlers named. */
  lemma OnlyNamedFieldsComeBack(handlers: seq<Handler>, value: Fields, remaining: Option<int>, timeout: nat, key: string)
    ensures var p := Start(value, remaining);
            var (fields, keep) := Result(value, Chain(handlers, p, timeout));
            && (keep <==> forall i: nat :: !DropsAt(handlers, p, timeout, i))
            && (keep && fields != value ==> (key in fields <==> exists i: nat :: NamesAt(handlers, p, timeout, i, key)))
            && (keep && (exists i: nat :: NamesAt(handlers, p, timeout, i, key)) ==> key in fields)
  {
    hide DropsAt, NamesAt, Chain;
    VetoHasAnAuthor(handlers, Start(value, remaining), timeout);
    FieldsWereNamed(handlers, Start(value, remaining), timeout, key);
  }
}
