/** Listeners and the corrections that follow a call.

    A patched call goes out when its first copy lands and is corrected as others join it. Ingest,
    the emit dispatcher and each listener's socket move independently, one step at a time. */
module Listeners {
  import opened Collections
  import opened CallTable
  import opened Patching
  import opened Ingest

  const CAPACITY := 8192

  /** What a display shows of a call: where it is filed and where it was received. */
  datatype Shown = Shown(talkgroup: nat, patches: seq<nat>)

  datatype Message = CallMessage(id: nat, shown: Shown) | PatchMessage(id: nat, shown: Shown)

  function Offer(queue: seq<Message>, m: Message): seq<Message> {
    if |queue| < CAPACITY then queue + [m] else queue
  }

  /** A bounded send buffer that never blocks the sender. */
  class Client {
    var send: seq<Message>
    var closed: bool
    var dropped: nat

    constructor ()
      ensures send == [] && !closed && dropped == 0
    {
      send, closed, dropped := [], false, 0;
    }

    method Enqueue(m: Message) returns (accepted: bool)
      modifies this`send, this`dropped
      ensures accepted == (!closed && |old(send)| < CAPACITY)
      ensures send == if closed then old(send) else Offer(old(send), m)
      ensures dropped == old(dropped) + if !closed && !accepted then 1 else 0
    {
      if closed {
        return false;
      }
      if |send| < CAPACITY {
        send := send + [m];
        return true;
      }
      dropped := dropped + 1;
      accepted := false;
    }
  }

  /** Where the single ingest goroutine stands. */
  datatype Ingesting =
    | Idle
    | Emitting(id: nat, shown: Shown)
    | Adding(id: nat, copy: Copy)
    | Promoting(id: nat, talkgroup: nat)
    | Correcting(id: nat)

  /** `sent` is every call this listener was meant to get; `behind` records that its own queue
      overflowed. */
  datatype Listener = Listener(queue: seq<Message>, view: map<nat, Shown>, sent: set<nat>, behind: bool)

  /** `lost` records that the shared emit queue overflowed. */
  datatype State = State(
    store: Store,
    ingest: Ingesting,
    emitQueue: seq<Message>,
    listeners: map<nat, Listener>,
    lost: bool)

  const START := State(EMPTY, Idle, [], map[], false)

  /** `to` is whoever the livefeed selections and the plugins let through. */
  datatype Event =
    | Begin(input: Input)
    | Advance
    | Dispatch(to: set<nat>)
    | Receive(listener: nat)
    | Connect(listener: nat)
    | Disconnect(listener: nat)

  function Display(r: Row): Shown { Shown(r.talkgroup, r.patches) }

  function PatchFor(cfg: Config, copy: Copy): Option<Patch> { GetPatch(cfg.patches, copy.system, copy.talkgroup) }

  ghost predicate Enabled(cfg: Config, s: State, e: Event) {
    match e
    case Begin(_) => s.ingest.Idle?
    case Advance => !s.ingest.Idle? && (s.ingest.Emitting? || s.ingest.id in s.store.calls) &&
                    (s.ingest.Adding? ==> PatchFor(cfg, s.ingest.copy).Some?)
    case Dispatch(_) => s.emitQueue != []
    case Receive(c) => c in s.listeners && s.listeners[c].queue != []
    case Connect(c) => c !in s.listeners
    case Disconnect(c) => c in s.listeners
  }

  function Enqueued(s: State, m: Message): State {
    s.(emitQueue := Offer(s.emitQueue, m), lost := s.lost || |s.emitQueue| >= CAPACITY, ingest := Idle)
  }

  /** One statement of the ingest goroutine: the received list first, then the promotion, and only
      then the record is read back and the correction queued. */
  ghost function Advanced(cfg: Config, s: State): State
    requires Enabled(cfg, s, Advance)
  {
    var calls := s.store.calls;
    match s.ingest
    case Emitting(id, shown) => Enqueued(s, CallMessage(id, shown))
    case Adding(id, copy) =>
      var row := calls[id];
      s.(store := s.store.(calls := calls[id := row.(patches := WithTalkgroup(row.patches, copy.talkgroup))]),
         ingest := if Promotes(PatchFor(cfg, copy).value, copy, row) then Promoting(id, copy.talkgroup) else Correcting(id))
    case Promoting(id, talkgroup) =>
      s.(store := s.store.(calls := calls[id := calls[id].(talkgroup := talkgroup)]), ingest := Correcting(id))
    case Correcting(id) => Enqueued(s, PatchMessage(id, Display(calls[id])))
  }

  ghost function Begun(cfg: Config, s: State, input: Input): State {
    match Decide(cfg, s.store, input)
    case Stored(id) =>
      var store := Ingested(cfg, s.store, input);
      s.(store := store, ingest := Emitting(id, Display(store.calls[id])))
    case Joined(id) => s.(ingest := Adding(id, input.copy))
    case _ => s
  }

  /** A call goes to whom it concerns, a correction to everybody. */
  function Delivered(m: Message, to: set<nat>, c: nat, listener: Listener): Listener {
    if m.PatchMessage? || c in to then
      listener.(queue := Offer(listener.queue, m), behind := listener.behind || |listener.queue| >= CAPACITY)
    else listener
  }

  /** A listener after one message has been handed round, what it was meant to get put down first. */
  function HandedTo(m: Message, to: set<nat>, c: nat, listener: Listener): Listener {
    Delivered(m, to, c, if m.CallMessage? && c in to then listener.(sent := listener.sent + {m.id}) else listener)
  }

  /** A display takes a call as given, and a correction only to a call it has. */
  function Taken(view: map<nat, Shown>, m: Message): map<nat, Shown> {
    if m.CallMessage? || m.id in view then view[m.id := m.shown] else view
  }

  function Received(listener: Listener): Listener
    requires listener.queue != []
  {
    listener.(queue := listener.queue[1..], view := Taken(listener.view, listener.queue[0]))
  }

  ghost function Step(cfg: Config, s: State, e: Event): State
    requires Enabled(cfg, s, e)
  {
    match e
    case Begin(input) => Begun(cfg, s, input)
    case Advance => Advanced(cfg, s)
    case Dispatch(to) =>
      var m := s.emitQueue[0];
      s.(emitQueue := s.emitQueue[1..],
         listeners := map c | c in s.listeners :: HandedTo(m, to, c, s.listeners[c]))
    case Receive(c) =>
      var listener := s.listeners[c];
      s.(listeners := s.listeners[c := Received(listener)])
    case Connect(c) => s.(listeners := s.listeners[c := NEWCOMER])
    case Disconnect(c) => s.(listeners := s.listeners - {c})
  }

  /** Run to completion, the statements of one ingest are the ingest of the single-step model. */
  lemma StatementsAreIngest(cfg: Config, s: State, input: Input)
    requires s.ingest.Idle?
    ensures var t := Begun(cfg, s, input);
            match Decide(cfg, s.store, input)
            case Stored(_) => Enabled(cfg, t, Advance) && Advanced(cfg, t).store == Ingested(cfg, s.store, input)
            case Joined(_) =>
              && Enabled(cfg, t, Advance)
              && var u := Advanced(cfg, t);
                 var v := if u.ingest.Promoting? && Enabled(cfg, u, Advance) then Advanced(cfg, u) else u;
                 v.ingest == Correcting(t.ingest.id) && v.store == Ingested(cfg, s.store, input)
            case _ => t.store == Ingested(cfg, s.store, input)
  {
    hide Decide, GetPatch, HomeRank, ReceivedList;
  }

  // ---- what is on its way ----

  /** The last thing a stretch of messages says about a call. */
  function LastIn(msgs: seq<Message>, id: nat): Option<Shown> {
    if msgs == [] then None
    else if msgs[|msgs| - 1].id == id then Some(msgs[|msgs| - 1].shown)
    else LastIn(msgs[..|msgs| - 1], id)
  }

  lemma {:induction false} LastInJoin(a: seq<Message>, b: seq<Message>, id: nat)
    ensures LastIn(a + b, id) == if LastIn(b, id).Some? then LastIn(b, id) else LastIn(a, id)
  {
    if b == [] {
      assert a + b == a;
    } else {
      assert (a + b)[..|a + b| - 1] == a + b[..|b| - 1];
      LastInJoin(a, b[..|b| - 1], id);
    }
  }

  lemma {:induction false} LastInNone(msgs: seq<Message>, id: nat)
    ensures LastIn(msgs, id).None? <==> forall m | m in msgs :: m.id != id
  {
    if msgs != [] {
      assert msgs == msgs[..|msgs| - 1] + [msgs[|msgs| - 1]];
      LastInNone(msgs[..|msgs| - 1], id);
    }
  }

  function Lookup(view: map<nat, Shown>, id: nat): Option<Shown> { if id in view then Some(view[id]) else None }

  /** What a listener will show of a call once it has taken all of `msgs`. */
  function Latest(view: map<nat, Shown>, msgs: seq<Message>, id: nat): Option<Shown> {
    if LastIn(msgs, id).Some? then LastIn(msgs, id) else Lookup(view, id)
  }

  /** Queued for everyone, the call being emitted included. */
  ghost function Upcoming(s: State): seq<Message> {
    s.emitQueue + if s.ingest.Emitting? then [CallMessage(s.ingest.id, s.ingest.shown)] else []
  }

  /** The row is being rewritten and its correction is not queued yet. */
  predicate Unsettled(s: State, id: nat) { (s.ingest.Promoting? || s.ingest.Correcting?) && s.ingest.id == id }

  ghost predicate UpToDate(s: State, listener: Listener, id: nat) {
    var latest := Latest(listener.view, listener.queue + Upcoming(s), id);
    latest.Some? ==> id in s.store.calls && (Unsettled(s, id) || latest.value == Display(s.store.calls[id]))
  }

  /** Nothing about a call precedes the call itself. */
  ghost predicate CallsComeFirst(s: State) {
    forall j | 0 <= j < |Upcoming(s)| && Upcoming(s)[j].CallMessage? ::
      && (forall i | 0 <= i < j :: Upcoming(s)[i].id != Upcoming(s)[j].id)
      && (forall c | c in s.listeners :: Unheard(s.listeners[c], Upcoming(s)[j].id))
  }

  ghost predicate Unheard(listener: Listener, id: nat) {
    id !in listener.view && LastIn(listener.queue, id).None?
  }

  ghost predicate IngestOk(cfg: Config, s: State) {
    match s.ingest
    case Idle => true
    case Adding(id, copy) => id in s.store.calls && PatchFor(cfg, copy).Some?
    case _ => s.ingest.id in s.store.calls
  }

  /** A listener just connected, which must be as right about the queue as everyone else. */
  const NEWCOMER := Listener([], map[], {}, false)

  /** Whatever a listener was told is about calls that are stored. */
  ghost predicate HeardIsStored(s: State, listener: Listener) {
    forall id | !Unheard(listener, id) :: id in s.store.calls
  }

  /** The call is on the display or on its way there. */
  ghost predicate Reached(listener: Listener, id: nat) {
    id in listener.view || exists m :: m in listener.queue && m.CallMessage? && m.id == id
  }

  ghost predicate NothingMissing(listener: Listener) { forall id | id in listener.sent :: Reached(listener, id) }

  /** And if its queue never overflowed, it has or is getting every call it was sent, and will end up
      showing each as it is. */
  ghost predicate ListenerOk(s: State, listener: Listener) {
    HeardIsStored(s, listener) &&
    (!listener.behind ==> NothingMissing(listener) && forall id :: UpToDate(s, listener, id))
  }

  ghost predicate Invariant(cfg: Config, s: State) {
    && s.store.Valid() && IngestOk(cfg, s)
    && (!s.lost ==>
          && CallsComeFirst(s)
          && (forall m | m in Upcoming(s) :: m.id in s.store.calls)
          && ListenerOk(s, NEWCOMER)
          && (forall c | c in s.listeners :: ListenerOk(s, s.listeners[c])))
  }

  /** Nothing reaches a listener but what `before` had queued or shown, and the rows it may know
      about read as they did, or are unsettled now. */
  lemma SameStream(before: State, after: State, listener: Listener, id: nat)
    requires UpToDate(before, listener, id) && Upcoming(after) == Upcoming(before)
    requires id in before.store.calls ==> id in after.store.calls
    requires Unsettled(before, id) ==> Unsettled(after, id)
    requires id in before.store.calls && !Unsettled(after, id) ==> after.store.calls[id] == before.store.calls[id]
    ensures UpToDate(after, listener, id)
  {
  }

  /** A message about `id` saying what the record now says settles it for every listener. */
  lemma MessageSettles(before: State, after: State, listener: Listener, m: Message, id: nat)
    requires UpToDate(before, listener, id) && Upcoming(after) == Upcoming(before) + [m]
    requires m.id in after.store.calls && m.shown == Display(after.store.calls[m.id])
    requires id in before.store.calls ==> id in after.store.calls
    requires id != m.id ==> !Unsettled(before, id) && (id in before.store.calls ==> after.store.calls[id] == before.store.calls[id])
    ensures UpToDate(after, listener, id)
  {
    assert listener.queue + Upcoming(after) == (listener.queue + Upcoming(before)) + [m];
  }

  /** The two cases for every call at once, whatever the listener missed. */
  lemma StreamGoesOn(before: State, after: State, listener: Listener)
    requires ListenerOk(before, listener) && Upcoming(after) == Upcoming(before)
    requires before.store.calls.Keys <= after.store.calls.Keys
    requires forall id :: Unsettled(before, id) ==> Unsettled(after, id)
    requires forall id | id in before.store.calls && !Unsettled(after, id) :: after.store.calls[id] == before.store.calls[id]
    ensures ListenerOk(after, listener)
  {
    hide UpToDate, Unheard, Unsettled;
    if !listener.behind {
      forall id ensures UpToDate(after, listener, id) { SameStream(before, after, listener, id); }
    }
  }

  lemma StreamSettles(before: State, after: State, listener: Listener, m: Message)
    requires ListenerOk(before, listener) && Upcoming(after) == Upcoming(before) + [m]
    requires m.id in after.store.calls && m.shown == Display(after.store.calls[m.id])
    requires before.store.calls.Keys <= after.store.calls.Keys
    requires forall id | id != m.id :: !Unsettled(before, id)
    requires forall id | id in before.store.calls && id != m.id :: after.store.calls[id] == before.store.calls[id]
    ensures ListenerOk(after, listener)
  {
    hide UpToDate, Unheard, Unsettled;
    if !listener.behind {
      forall id ensures UpToDate(after, listener, id) { MessageSettles(before, after, listener, m, id); }
    }
  }

  /** A call that was never heard of before it was withheld stays unheard of. */
  lemma WithheldCall(s: State, t: State, listener: Listener, id: nat)
    requires UpToDate(s, listener, id) && s.emitQueue != [] && t == s.(emitQueue := s.emitQueue[1..], listeners := t.listeners)
    requires s.emitQueue[0].id == id ==> Unheard(listener, id)
    ensures UpToDate(t, listener, id)
  {
    var (head, rest) := (s.emitQueue[0], Upcoming(t));
    assert Upcoming(s) == [head] + rest;
    assert listener.queue + Upcoming(s) == listener.queue + ([head] + rest);
    LastInJoin(listener.queue, [head] + rest, id);
    LastInJoin([head], rest, id);
    LastInJoin(listener.queue, rest, id);
    assert [head][..0] == [];
  }

  lemma DeliveredMessage(s: State, t: State, listener: Listener, after: Listener, id: nat)
    requires UpToDate(s, listener, id) && s.emitQueue != [] && t == s.(emitQueue := s.emitQueue[1..], listeners := t.listeners)
    requires after.view == listener.view && after.queue == listener.queue + [s.emitQueue[0]]
    ensures UpToDate(t, after, id)
  {
    assert Upcoming(s) == [s.emitQueue[0]] + Upcoming(t);
    assert listener.queue + Upcoming(s) == (listener.queue + [s.emitQueue[0]]) + Upcoming(t);
  }

  lemma TakenMessage(s: State, t: State, listener: Listener, id: nat)
    requires UpToDate(s, listener, id) && listener.queue != [] && t == s.(listeners := t.listeners)
    ensures UpToDate(t, Received(listener), id)
  {
    var (head, rest) := (listener.queue[0], listener.queue[1..] + Upcoming(s));
    assert listener.queue + Upcoming(s) == [head] + rest;
    assert Upcoming(t) == Upcoming(s);
    LastInJoin([head], rest, id);
    assert [head][..0] == [];
  }

  // ---- the steps ----

  lemma BeginKeeps(cfg: Config, s: State, input: Input)
    requires Invariant(cfg, s) && s.ingest.Idle?
    ensures Invariant(cfg, Begun(cfg, s, input))
  {
    hide ListenerOk, Unheard, Decide, GetPatch, ReceivedList, HomeRank;
    var t := Begun(cfg, s, input);
    if !s.lost {
      var outcome := Decide(cfg, s.store, input);
      if outcome.Stored? {
        var m := CallMessage(outcome.id, t.ingest.shown);
        assert Upcoming(s) == s.emitQueue && Upcoming(t) == Upcoming(s) + [m];
        NewIdIsUnheard(cfg, s, input);
        StreamSettles(s, t, NEWCOMER, m);
        forall c | c in t.listeners ensures ListenerOk(t, t.listeners[c]) { StreamSettles(s, t, s.listeners[c], m); }
      } else {
        assert Upcoming(t) == Upcoming(s);
        StreamGoesOn(s, t, NEWCOMER);
        forall c | c in t.listeners ensures ListenerOk(t, t.listeners[c]) { StreamGoesOn(s, t, s.listeners[c]); }
      }
    }
  }

  lemma NewIdIsUnheard(cfg: Config, s: State, input: Input)
    requires Invariant(cfg, s) && !s.lost && s.ingest.Idle? && Decide(cfg, s.store, input).Stored?
    ensures s.store.nextId !in s.store.calls
    ensures forall c | c in s.listeners :: Unheard(s.listeners[c], s.store.nextId)
  {
    var id := s.store.nextId;
    forall c | c in s.listeners ensures Unheard(s.listeners[c], id) {
      assert HeardIsStored(s, s.listeners[c]);
    }
  }

  lemma AdvanceKeeps(cfg: Config, s: State)
    requires Invariant(cfg, s) && Enabled(cfg, s, Advance)
    ensures Invariant(cfg, Advanced(cfg, s))
  {
    hide ListenerOk, Unheard, GetPatch, HomeRank;
    var t := Advanced(cfg, s);
    if !t.lost {
      if s.ingest.Correcting? {
        var m := PatchMessage(s.ingest.id, Display(s.store.calls[s.ingest.id]));
        assert Upcoming(s) == s.emitQueue && Upcoming(t) == Upcoming(s) + [m];
        StreamSettles(s, t, NEWCOMER, m);
        forall c | c in t.listeners ensures ListenerOk(t, t.listeners[c]) { StreamSettles(s, t, s.listeners[c], m); }
      } else {
        assert Upcoming(t) == Upcoming(s);
        StreamGoesOn(s, t, NEWCOMER);
        forall c | c in t.listeners ensures ListenerOk(t, t.listeners[c]) { StreamGoesOn(s, t, s.listeners[c]); }
      }
    }
  }

  lemma DispatchKeeps(cfg: Config, s: State, to: set<nat>)
    requires Invariant(cfg, s) && s.emitQueue != []
    ensures Invariant(cfg, Step(cfg, s, Dispatch(to)))
  {
    hide ListenerOk, Unheard;
    var t := Step(cfg, s, Dispatch(to));
    if !t.lost {
      var m := s.emitQueue[0];
      assert Upcoming(s) == [m] + Upcoming(t);
      assert Upcoming(s)[0] == m;
      DispatchKeepsOrder(cfg, s, to);
      NewcomerMisses(s, t);
      forall c | c in t.listeners ensures ListenerOk(t, t.listeners[c]) { DispatchKeepsListener(s, t, to, c, s.listeners[c]); }
    }
  }

  /** Whether the message is meant for it, fits its queue or neither. */
  lemma DispatchKeepsListener(s: State, t: State, to: set<nat>, c: nat, listener: Listener)
    requires ListenerOk(s, listener) && s.emitQueue != [] && t == s.(emitQueue := s.emitQueue[1..], listeners := t.listeners)
    requires s.emitQueue[0].id in s.store.calls && (s.emitQueue[0].CallMessage? ==> Unheard(listener, s.emitQueue[0].id))
    ensures ListenerOk(t, HandedTo(s.emitQueue[0], to, c, listener))
  {
    hide UpToDate;
    var m := s.emitQueue[0];
    var after := HandedTo(m, to, c, listener);
    forall id | !Unheard(after, id) ensures id in t.store.calls { LastInJoin(listener.queue, [m], id); }
    if !after.behind {
      DeliveryLosesNothing(m, to, c, listener);
      forall id ensures UpToDate(t, after, id) {
        if m.PatchMessage? || c in to { DeliveredMessage(s, t, listener, after, id); } else { WithheldCall(s, t, after, id); }
      }
    }
  }

  lemma NewcomerMisses(s: State, t: State)
    requires ListenerOk(s, NEWCOMER) && s.emitQueue != [] && t == s.(emitQueue := s.emitQueue[1..], listeners := t.listeners)
    ensures ListenerOk(t, NEWCOMER)
  {
    hide UpToDate;
    var m := s.emitQueue[0];
    forall id ensures UpToDate(t, NEWCOMER, id) {
      if m.CallMessage? || id != m.id { WithheldCall(s, t, NEWCOMER, id); } else { NewcomerMissesPatch(s, t, id); }
    }
  }

  /** A correction already dispatched means nothing to whoever connects afterwards. */
  lemma NewcomerMissesPatch(s: State, t: State, id: nat)
    requires UpToDate(s, NEWCOMER, id) && s.emitQueue != [] && t == s.(emitQueue := s.emitQueue[1..], listeners := t.listeners)
    ensures UpToDate(t, NEWCOMER, id)
  {
    var (head, rest) := (s.emitQueue[0], Upcoming(t));
    assert NEWCOMER.queue + Upcoming(s) == [head] + rest;
    assert NEWCOMER.queue + rest == rest;
    LastInJoin([head], rest, id);
  }

  lemma DispatchKeepsOrder(cfg: Config, s: State, to: set<nat>)
    requires Invariant(cfg, s) && s.emitQueue != [] && !Step(cfg, s, Dispatch(to)).lost
    ensures CallsComeFirst(Step(cfg, s, Dispatch(to)))
    ensures forall m | m in Upcoming(Step(cfg, s, Dispatch(to))) :: m in Upcoming(s)
  {
    hide ListenerOk;
    var t := Step(cfg, s, Dispatch(to));
    var m := s.emitQueue[0];
    assert Upcoming(s) == [m] + Upcoming(t);
    forall j, c | 0 <= j < |Upcoming(t)| && Upcoming(t)[j].CallMessage? && c in t.listeners
      ensures Unheard(t.listeners[c], Upcoming(t)[j].id)
    {
      assert Upcoming(s)[j + 1] == Upcoming(t)[j] && Upcoming(s)[0] == m;
      LastInJoin(s.listeners[c].queue, [m], Upcoming(t)[j].id);
    }
    forall i, j | 0 <= i < j < |Upcoming(t)| && Upcoming(t)[j].CallMessage? ensures Upcoming(t)[i].id != Upcoming(t)[j].id {
      assert Upcoming(s)[j + 1] == Upcoming(t)[j] && Upcoming(s)[i + 1] == Upcoming(t)[i];
    }
  }

  lemma ReceiveKeeps(cfg: Config, s: State, c: nat)
    requires Invariant(cfg, s) && Enabled(cfg, s, Receive(c))
    ensures Invariant(cfg, Step(cfg, s, Receive(c)))
  {
    hide ListenerOk, Unheard;
    var t := Step(cfg, s, Receive(c));
    if !t.lost {
      assert Upcoming(t) == Upcoming(s);
      StreamGoesOn(s, t, NEWCOMER);
      ReceiveKeepsListener(s, t, s.listeners[c]);
      forall d | d in t.listeners && d != c ensures ListenerOk(t, t.listeners[d]) { StreamGoesOn(s, t, s.listeners[d]); }
    }
  }

  lemma TakingLosesNothing(listener: Listener)
    requires listener.queue != [] && NothingMissing(listener)
    ensures NothingMissing(Received(listener))
  {
    assert listener.queue == [listener.queue[0]] + listener.queue[1..];
    forall id | id in listener.sent ensures Reached(Received(listener), id) {
      assert Reached(listener, id);
    }
  }

  lemma DeliveryLosesNothing(m: Message, to: set<nat>, c: nat, listener: Listener)
    requires NothingMissing(listener) && !HandedTo(m, to, c, listener).behind
    ensures NothingMissing(HandedTo(m, to, c, listener))
  {
    var after := HandedTo(m, to, c, listener);
    assert forall x | x in listener.queue :: x in listener.queue + [m];
    forall id | id in after.sent ensures Reached(after, id) {
      if id in listener.sent { assert Reached(listener, id); } else { assert m in after.queue; }
    }
  }

  /** Taking a message settles it, and makes nothing heard of that was not. */
  lemma ReceiveKeepsListener(s: State, t: State, listener: Listener)
    requires ListenerOk(s, listener) && listener.queue != [] && t == s.(listeners := t.listeners)
    ensures var after := Received(listener);
            ListenerOk(t, after) && forall id | Unheard(listener, id) :: Unheard(after, id)
  {
    hide UpToDate;
    var after := Received(listener);
    forall id | Unheard(listener, id) ensures Unheard(after, id) {
      assert listener.queue == [listener.queue[0]] + listener.queue[1..];
      LastInNone(listener.queue, id);
      LastInNone(listener.queue[1..], id);
      assert listener.queue[0] in listener.queue;
    }
    if !listener.behind {
      TakingLosesNothing(listener);
      forall id ensures UpToDate(t, after, id) { TakenMessage(s, t, listener, id); }
    }
  }

  lemma ConnectionsKeep(cfg: Config, s: State, e: Event)
    requires Invariant(cfg, s) && Enabled(cfg, s, e) && (e.Connect? || e.Disconnect?)
    ensures Invariant(cfg, Step(cfg, s, e))
  {
    hide ListenerOk;
    var t := Step(cfg, s, e);
    assert Upcoming(t) == Upcoming(s);
    if !t.lost {
      StreamGoesOn(s, t, NEWCOMER);
      forall d | d in t.listeners ensures ListenerOk(t, t.listeners[d]) {
        if d in s.listeners { StreamGoesOn(s, t, s.listeners[d]); }
      }
    }
  }

  lemma StepKeepsInvariant(cfg: Config, s: State, e: Event)
    requires Invariant(cfg, s) && Enabled(cfg, s, e)
    ensures Invariant(cfg, Step(cfg, s, e))
  {
    hide Invariant, Begun, Advanced;
    match e
    case Begin(input) => BeginKeeps(cfg, s, input);
    case Advance => AdvanceKeeps(cfg, s);
    case Dispatch(to) => DispatchKeeps(cfg, s, to);
    case Receive(c) => ReceiveKeeps(cfg, s, c);
    case Connect(_) => ConnectionsKeep(cfg, s, e);
    case Disconnect(_) => ConnectionsKeep(cfg, s, e);
  }

  ghost predicate Possible(cfg: Config, s: State, events: seq<Event>)
    decreases |events|
  {
    events == [] || (Enabled(cfg, s, events[0]) && Possible(cfg, Step(cfg, s, events[0]), events[1..]))
  }

  ghost function Run(cfg: Config, s: State, events: seq<Event>): State
    requires Possible(cfg, s, events)
    decreases |events|
  {
    if events == [] then s else Run(cfg, Step(cfg, s, events[0]), events[1..])
  }

  lemma {:induction false} RunKeepsInvariant(cfg: Config, s: State, events: seq<Event>)
    requires Invariant(cfg, s) && Possible(cfg, s, events)
    ensures Invariant(cfg, Run(cfg, s, events))
    decreases |events|
  {
    hide Invariant, Step;
    if events != [] {
      StepKeepsInvariant(cfg, s, events[0]);
      RunKeepsInvariant(cfg, Step(cfg, s, events[0]), events[1..]);
    }
  }

  // ---- who was handed what ----

  ghost predicate StaysConnected(c: nat, events: seq<Event>) { forall e | e in events :: e != Disconnect(c) }

  /** The dispatcher has this call in hand, and hands it to this listener. */
  ghost predicate HandedNow(s: State, e: Event, c: nat, id: nat) {
    && e.Dispatch? && c in e.to && c in s.listeners
    && s.emitQueue != [] && s.emitQueue[0].CallMessage? && s.emitQueue[0].id == id
  }

  /** At some event of the run, with the listener connected from there on. */
  ghost predicate WasHanded(cfg: Config, s: State, events: seq<Event>, c: nat, id: nat)
    requires Possible(cfg, s, events)
    decreases |events|
  {
    events != [] &&
    ((HandedNow(s, events[0], c, id) && StaysConnected(c, events[1..]))
     || WasHanded(cfg, Step(cfg, s, events[0]), events[1..], c, id))
  }

  lemma StepKeepsSent(cfg: Config, s: State, e: Event, c: nat, id: nat)
    requires Enabled(cfg, s, e) && e != Disconnect(c) && c in s.listeners
    requires id in s.listeners[c].sent || HandedNow(s, e, c, id)
    ensures c in Step(cfg, s, e).listeners && id in Step(cfg, s, e).listeners[c].sent
  {
    hide Decide, GetPatch;
  }

  lemma {:induction false} SentStays(cfg: Config, s: State, events: seq<Event>, c: nat, id: nat)
    requires Possible(cfg, s, events) && StaysConnected(c, events) && c in s.listeners && id in s.listeners[c].sent
    ensures c in Run(cfg, s, events).listeners && id in Run(cfg, s, events).listeners[c].sent
    decreases |events|
  {
    hide Step;
    if events != [] {
      assert events[0] in events && forall e | e in events[1..] :: e in events;
      StepKeepsSent(cfg, s, events[0], c, id);
      SentStays(cfg, Step(cfg, s, events[0]), events[1..], c, id);
    }
  }

  lemma {:induction false} HandedIsSent(cfg: Config, s: State, events: seq<Event>, c: nat, id: nat)
    requires Possible(cfg, s, events) && WasHanded(cfg, s, events, c, id)
    ensures c in Run(cfg, s, events).listeners && id in Run(cfg, s, events).listeners[c].sent
    decreases |events|
  {
    hide Step, HandedNow;
    var e, t, rest := events[0], Step(cfg, s, events[0]), events[1..];
    if HandedNow(s, e, c, id) && StaysConnected(c, rest) {
      HandedNotGone(s, e, c, id);
      StepKeepsSent(cfg, s, e, c, id);
      SentStays(cfg, t, rest, c, id);
    } else {
      HandedIsSent(cfg, t, rest, c, id);
    }
  }

  lemma HandedNotGone(s: State, e: Event, c: nat, id: nat)
    requires HandedNow(s, e, c, id)
    ensures e != Disconnect(c) && c in s.listeners
  {
  }

  // ---- every stored call goes out once ----

  function CallsIn(msgs: seq<Message>, id: nat): nat {
    if msgs == [] then 0
    else CallsIn(msgs[..|msgs| - 1], id) + if msgs[|msgs| - 1].CallMessage? && msgs[|msgs| - 1].id == id then 1 else 0
  }

  lemma {:induction false} CallsInJoin(a: seq<Message>, b: seq<Message>, id: nat)
    ensures CallsIn(a + b, id) == CallsIn(a, id) + CallsIn(b, id)
  {
    if b == [] {
      assert a + b == a;
    } else {
      assert (a + b)[..|a + b| - 1] == a + b[..|b| - 1];
      CallsInJoin(a, b[..|b| - 1], id);
    }
  }

  ghost predicate Emits(s: State, e: Event, id: nat) {
    e.Dispatch? && s.emitQueue != [] && s.emitQueue[0].CallMessage? && s.emitQueue[0].id == id
  }

  /** How often the dispatcher takes this call off the queue. */
  ghost function Emissions(cfg: Config, s: State, events: seq<Event>, id: nat): nat
    requires Possible(cfg, s, events)
    decreases |events|
  {
    if events == [] then 0
    else (if Emits(s, events[0], id) then 1 else 0) + Emissions(cfg, Step(cfg, s, events[0]), events[1..], id)
  }

  ghost predicate StoredBetween(s: State, t: State, id: nat) { id in t.store.calls && id !in s.store.calls }

  /** What is queued grows by the calls newly stored and shrinks by those taken off. */
  ghost predicate Accounted(s: State, t: State, emitted: nat, id: nat) {
    && s.store.calls.Keys <= t.store.calls.Keys
    && emitted + CallsIn(Upcoming(t), id) == CallsIn(Upcoming(s), id) + if StoredBetween(s, t, id) then 1 else 0
  }

  lemma OneMoreMessage(msgs: seq<Message>, m: Message, id: nat)
    ensures CallsIn(msgs + [m], id) == CallsIn(msgs, id) + if m.CallMessage? && m.id == id then 1 else 0
    ensures CallsIn([m] + msgs, id) == CallsIn(msgs, id) + if m.CallMessage? && m.id == id then 1 else 0
  {
    assert [m][..0] == [];
    CallsInJoin(msgs, [m], id);
    CallsInJoin([m], msgs, id);
  }

  lemma BeginAccounts(cfg: Config, s: State, input: Input, id: nat)
    requires s.store.Valid() && s.ingest.Idle?
    ensures Accounted(s, Begun(cfg, s, input), 0, id)
  {
    hide CallsIn, GetPatch, ReceivedList, Decide;
    var t := Begun(cfg, s, input);
    if t.ingest.Emitting? {
      var m := CallMessage(t.ingest.id, t.ingest.shown);
      assert Upcoming(t) == Upcoming(s) + [m];
      OneMoreMessage(Upcoming(s), m, id);
    } else {
      assert Upcoming(t) == Upcoming(s);
    }
  }

  lemma AdvanceAccounts(cfg: Config, s: State, id: nat)
    requires Enabled(cfg, s, Advance) && !Advanced(cfg, s).lost
    ensures !s.lost && Accounted(s, Advanced(cfg, s), 0, id)
  {
    hide CallsIn, GetPatch, HomeRank;
    var t := Advanced(cfg, s);
    if s.ingest.Correcting? {
      var m := PatchMessage(s.ingest.id, Display(s.store.calls[s.ingest.id]));
      assert Upcoming(t) == Upcoming(s) + [m];
      OneMoreMessage(Upcoming(s), m, id);
    } else {
      assert Upcoming(t) == Upcoming(s);
    }
  }

  lemma DispatchAccounts(cfg: Config, s: State, to: set<nat>, id: nat)
    requires Enabled(cfg, s, Dispatch(to))
    ensures Accounted(s, Step(cfg, s, Dispatch(to)), if Emits(s, Dispatch(to), id) then 1 else 0, id)
  {
    hide CallsIn, HandedTo;
    var t := Step(cfg, s, Dispatch(to));
    assert Upcoming(s) == [s.emitQueue[0]] + Upcoming(t);
    OneMoreMessage(Upcoming(t), s.emitQueue[0], id);
  }

  lemma StepAccounts(cfg: Config, s: State, e: Event, id: nat)
    requires s.store.Valid() && Enabled(cfg, s, e) && !Step(cfg, s, e).lost
    ensures !s.lost && Accounted(s, Step(cfg, s, e), if Emits(s, e, id) then 1 else 0, id)
  {
    hide CallsIn, Decide, GetPatch, Advanced;
    match e
    case Begin(input) => BeginAccounts(cfg, s, input, id);
    case Advance => AdvanceAccounts(cfg, s, id);
    case Dispatch(to) => DispatchAccounts(cfg, s, to, id);
    case _ => assert Upcoming(Step(cfg, s, e)) == Upcoming(s);
  }

  lemma {:induction false} RunAccounts(cfg: Config, s: State, events: seq<Event>, id: nat)
    requires Invariant(cfg, s) && Possible(cfg, s, events) && !Run(cfg, s, events).lost
    ensures !s.lost && Accounted(s, Run(cfg, s, events), Emissions(cfg, s, events, id), id)
    decreases |events|
  {
    assert s.store.Valid();
    hide Invariant, Step, Upcoming, Emits, CallsIn;
    if events != [] {
      StepKeepsInvariant(cfg, s, events[0]);
      RunAccounts(cfg, Step(cfg, s, events[0]), events[1..], id);
      StepAccounts(cfg, s, events[0], id);
    }
  }

  /** Unless the emit queue overflowed, every call ever stored has been taken off it once, or is on it
      or about to be, once; and no other call is or was. */
  lemma EveryStoredCallGoesOutOnce(cfg: Config, events: seq<Event>, id: nat)
    requires Possible(cfg, START, events) && !Run(cfg, START, events).lost
    ensures var s := Run(cfg, START, events);
            Emissions(cfg, START, events, id) + CallsIn(Upcoming(s), id) == if id in s.store.calls then 1 else 0
  {
    hide Run, Emissions;
    assert Invariant(cfg, START);
    RunAccounts(cfg, START, events, id);
  }

  // ---- where there is room ----

  /** The emit queue has room before every event. */
  ghost predicate Roomy(cfg: Config, s: State, events: seq<Event>)
    requires Possible(cfg, s, events)
    decreases |events|
  {
    events != [] ==> |s.emitQueue| < 8192 && Roomy(cfg, Step(cfg, s, events[0]), events[1..])
  }

  /** So has this listener's own, whenever it is connected. */
  ghost predicate KeepsUp(cfg: Config, s: State, events: seq<Event>, c: nat)
    requires Possible(cfg, s, events)
    decreases |events|
  {
    events != [] ==>
      && (c in s.listeners ==> |s.listeners[c].queue| < 8192)
      && KeepsUp(cfg, Step(cfg, s, events[0]), events[1..], c)
  }

  lemma RoomyStep(cfg: Config, s: State, e: Event)
    requires Enabled(cfg, s, e) && !s.lost && |s.emitQueue| < CAPACITY
    ensures !Step(cfg, s, e).lost
  {
    hide Decide, GetPatch, HomeRank;
  }

  lemma KeepingUpStep(cfg: Config, s: State, e: Event, c: nat)
    requires Enabled(cfg, s, e) && c in Step(cfg, s, e).listeners
    requires c in s.listeners ==> !s.listeners[c].behind && |s.listeners[c].queue| < CAPACITY
    ensures !Step(cfg, s, e).listeners[c].behind
  {
    hide Decide, GetPatch, HomeRank;
  }

  lemma {:induction false} RoomLosesNothing(cfg: Config, s: State, events: seq<Event>)
    requires Possible(cfg, s, events) && Roomy(cfg, s, events) && !s.lost
    ensures !Run(cfg, s, events).lost
    decreases |events|
  {
    hide Step;
    if events != [] {
      RoomyStep(cfg, s, events[0]);
      RoomLosesNothing(cfg, Step(cfg, s, events[0]), events[1..]);
    }
  }

  lemma {:induction false} KeepingUpIsNotBehind(cfg: Config, s: State, events: seq<Event>, c: nat)
    requires Possible(cfg, s, events) && KeepsUp(cfg, s, events, c) && (c in s.listeners ==> !s.listeners[c].behind)
    ensures c in Run(cfg, s, events).listeners ==> !Run(cfg, s, events).listeners[c].behind
    decreases |events|
  {
    hide Step;
    if events != [] {
      var t := Step(cfg, s, events[0]);
      if c in t.listeners { KeepingUpStep(cfg, s, events[0], c); }
      KeepingUpIsNotBehind(cfg, t, events[1..], c);
    }
  }

  /** However ingest, dispatch and listeners interleave, and however far behind others fall: if the
      emit queue and this listener's own never overflowed, then once ingest rests and both have
      drained, its display has every call it was handed, and each call there reads exactly as the
      record does. */
  lemma DisplaysConverge(cfg: Config, events: seq<Event>, c: nat)
    requires Possible(cfg, START, events)
    requires var s := Run(cfg, START, events);
             && !s.lost && s.ingest.Idle? && s.emitQueue == []
             && c in s.listeners && !s.listeners[c].behind && s.listeners[c].queue == []
    ensures var (calls, view) := (Run(cfg, START, events).store.calls, Run(cfg, START, events).listeners[c].view);
            && Run(cfg, START, events).listeners[c].sent <= view.Keys
            && (forall id | WasHanded(cfg, START, events, c, id) :: id in view)
            && (forall id | id in view ::
                  id in calls && view[id].talkgroup == calls[id].talkgroup && view[id].patches == calls[id].patches)
  {
    RunKeepsInvariant(cfg, START, events);
    var s := Run(cfg, START, events);
    assert ListenerOk(s, s.listeners[c]);
    forall id | id in s.listeners[c].sent ensures id in s.listeners[c].view { assert Reached(s.listeners[c], id); }
    forall id | WasHanded(cfg, START, events, c, id) ensures id in s.listeners[c].sent {
      HandedIsSent(cfg, START, events, c, id);
    }
    forall id | id in s.listeners[c].view
      ensures id in s.store.calls && s.listeners[c].view[id] == Display(s.store.calls[id])
    {
      assert UpToDate(s, s.listeners[c], id);
      assert s.listeners[c].queue + Upcoming(s) == [];
    }
  }

  /** The same, asking only that there was room wherever a message was put. */
  lemma DisplaysConvergeWithRoom(cfg: Config, events: seq<Event>, c: nat)
    requires Possible(cfg, START, events) && Roomy(cfg, START, events) && KeepsUp(cfg, START, events, c)
    requires var s := Run(cfg, START, events);
             s.ingest.Idle? && s.emitQueue == [] && c in s.listeners && s.listeners[c].queue == []
    ensures var (calls, view) := (Run(cfg, START, events).store.calls, Run(cfg, START, events).listeners[c].view);
            && (forall id | WasHanded(cfg, START, events, c, id) :: id in view)
            && (forall id | id in view ::
                  id in calls && view[id].talkgroup == calls[id].talkgroup && view[id].patches == calls[id].patches)
            && (forall id :: Emissions(cfg, START, events, id) == if id in calls then 1 else 0)
  {
    hide Run, Roomy, KeepsUp, WasHanded, Emissions;
    RoomLosesNothing(cfg, START, events);
    KeepingUpIsNotBehind(cfg, START, events, c);
    DisplaysConverge(cfg, events, c);
    forall id ensures Emissions(cfg, START, events, id) == if id in Run(cfg, START, events).store.calls then 1 else 0 {
      EveryStoredCallGoesOutOnce(cfg, events, id);
      assert Upcoming(Run(cfg, START, events)) == [];
    }
  }
}
