/**
 The child side of the budget IPC channel: the handlers of
 `createComparisonBudgetIpcClient`, each of them atomic because the event loop
 never interleaves two handlers.

 `Client` is the state the closures share, the functions `After...` say what one
 handler does to it, and the class at the end runs the handlers step by step.
 Promises are numbered in the order `exchange` creates them, so that a promise
 keeps its identity whatever request id it was created for.
 */
module BudgetIpcClient {
  import opened Common

  type RequestId = string
  type Signal = nat

  datatype Reply = Reply(requestId: RequestId, ok: bool, body: string)

  /** A line as the handler sees it: `Malformed` failed to parse or failed the reply schema. */
  datatype Line = Malformed | WellFormed(reply: Reply)

  /** A call of a promise's `resolve` or `reject`. */
  datatype Outcome = Resolved(reply: Reply) | Cancelled | Disconnected

  /** One call of `exchange` and every settlement its promise has received. */
  datatype Call = Call(id: RequestId, signal: Option<Signal>, outcomes: seq<Outcome>)

  /** A value of the `pending` map. */
  datatype Entry = Entry(promise: nat, signal: Option<Signal>)

  /** A registered abort listener, with the request id and promise its closure captured. */
  datatype Listener = Listener(signal: Signal, id: RequestId, promise: nat)

  datatype Client = Client(
    closed: bool,
    pending: map<RequestId, Entry>,
    abandoned: set<RequestId>,
    listeners: set<Listener>,
    calls: seq<Call>,
    sent: seq<RequestId>)

  const INITIAL := Client(false, map[], {}, {}, [], [])

  // ---------------------------------------------------------------- handlers

  function Settle(calls: seq<Call>, promise: nat, outcome: Outcome): seq<Call> {
    if promise < |calls| then
      calls[promise := calls[promise].(outcomes := calls[promise].outcomes + [outcome])]
    else calls
  }

  /** Every promise that belongs to a fired listener is rejected as cancelled. */
  function CancelAll(calls: seq<Call>, fired: set<Listener>): (r: seq<Call>)
    ensures |r| == |calls|
  {
    seq(|calls|, p requires 0 <= p < |calls| =>
      if exists l :: l in fired && l.promise == p
      then calls[p].(outcomes := calls[p].outcomes + [Cancelled]) else calls[p])
  }

  /** The abort listeners `fired` have run: each moves its own request to `abandoned`. */
  function AfterListeners(c: Client, fired: set<Listener>): Client {
    var ids := set l | l in fired :: l.id;
    c.(pending := c.pending - ids,
       abandoned := c.abandoned + ids,
       listeners := c.listeners - fired,
       calls := CancelAll(c.calls, fired))
  }

  /** The abort events of a set of signals. */
  function AfterAbort(c: Client, signals: set<Signal>): Client {
    AfterListeners(c, set l | l in c.listeners && l.signal in signals)
  }

  /** Every promise still in the pending map is rejected as disconnected. */
  function RejectPending(calls: seq<Call>, pending: map<RequestId, Entry>): (r: seq<Call>)
    ensures |r| == |calls|
  {
    seq(|calls|, p requires 0 <= p < |calls| =>
      if exists id :: id in pending && pending[id].promise == p
      then calls[p].(outcomes := calls[p].outcomes + [Disconnected]) else calls[p])
  }

  function OwnListeners(pending: map<RequestId, Entry>): set<Listener> {
    set id | id in pending && pending[id].signal.Some? ::
      Listener(pending[id].signal.value, id, pending[id].promise)
  }

  /** The entries `rejected` have been rejected as disconnected and taken off the pending map. */
  function AfterRejects(c: Client, rejected: map<RequestId, Entry>): Client {
    c.(pending := c.pending - rejected.Keys,
       listeners := c.listeners - OwnListeners(rejected),
       calls := RejectPending(c.calls, rejected))
  }

  /** A pending request is settled and its listener removed, as the handlers do. */
  function AfterSettling(c: Client, id: RequestId, outcome: Outcome): Client
    requires id in c.pending
  {
    var entry := c.pending[id];
    c.(pending := c.pending - {id},
       listeners := WithoutListener(c.listeners, id, entry.promise, entry.signal),
       calls := Settle(c.calls, entry.promise, outcome))
  }

  /**
   `disconnect`. Aborting the client's own signal first fires, synchronously, the listeners
   of every request whose signal was composed from it (`linked`); only the requests left
   over are rejected by the loop.
   */
  function AfterDisconnect(c: Client, linked: set<Signal>): Client {
    if c.closed then c
    else
      var aborted := AfterAbort(c.(closed := true), linked);
      AfterRejects(aborted, aborted.pending).(abandoned := {})
  }

  function WithoutListener(listeners: set<Listener>, id: RequestId, promise: nat,
                           signal: Option<Signal>): set<Listener> {
    if signal.Some? then listeners - {Listener(signal.value, id, promise)} else listeners
  }

  function AfterLine(c: Client, line: Line, linked: set<Signal>): Client {
    match line
    case Malformed => AfterDisconnect(c, linked)
    case WellFormed(reply) =>
      var id := reply.requestId;
      if id in c.pending then
        AfterSettling(c, id, Resolved(reply))
      else if id in c.abandoned then c.(abandoned := c.abandoned - {id})
      else AfterDisconnect(c, linked)
  }

  function AfterExchange(c: Client, id: RequestId, signal: Option<Signal>, signalAborted: bool): Client {
    if c.closed then c.(calls := c.calls + [Call(id, signal, [Disconnected])])
    else if signal.Some? && signalAborted then c.(calls := c.calls + [Call(id, signal, [Cancelled])])
    else
      var promise := |c.calls|;
      c.(pending := c.pending[id := Entry(promise, signal)],
         listeners := c.listeners + (if signal.Some? then {Listener(signal.value, id, promise)} else {}),
         calls := c.calls + [Call(id, signal, [])],
         sent := c.sent + [id])
  }

  /** The write callback of promise `promise`; it looks its request up by id. */
  function AfterWrite(c: Client, promise: nat, failed: bool, linked: set<Signal>): Client
    requires promise < |c.calls|
  {
    var call := c.calls[promise];
    if !failed || call.id !in c.pending then c
    else
      AfterDisconnect(c.(pending := c.pending - {call.id},
                         listeners := WithoutListener(c.listeners, call.id, promise, call.signal),
                         calls := Settle(c.calls, promise, Disconnected)), linked)
  }

  // ---------------------------------------------------------------- invariant

  ghost predicate Waiting(c: Client, promise: nat)
    requires promise < |c.calls|
  {
    c.calls[promise].id in c.pending && c.pending[c.calls[promise].id].promise == promise
  }

  /** A settled promise has one outcome, and a reply that resolved it carries its own id. */
  ghost predicate SettledRight(call: Call) {
    |call.outcomes| <= 1 &&
    (|call.outcomes| == 1 && call.outcomes[0].Resolved? ==> call.outcomes[0].reply.requestId == call.id)
  }

  ghost predicate Issued(c: Client, id: RequestId) {
    exists p :: 0 <= p < |c.calls| && c.calls[p].id == id
  }

  /** An abort listener is registered exactly while the request it was made for is pending. */
  ghost predicate ListenersExact(c: Client) {
    forall l :: l in c.listeners <==> l.id in c.pending && c.pending[l.id] == Entry(l.promise, Some(l.signal))
  }

  ghost predicate PendingCoherent(c: Client) {
    forall id :: id in c.pending ==>
      && c.pending[id].promise < |c.calls|
      && c.calls[c.pending[id].promise].id == id
      && c.calls[c.pending[id].promise].signal == c.pending[id].signal
  }

  /** A promise is unsettled exactly while its request is pending, and is never settled twice. */
  ghost predicate SettlementExact(c: Client) {
    forall p :: 0 <= p < |c.calls| ==>
      SettledRight(c.calls[p]) && (c.calls[p].outcomes == [] <==> Waiting(c, p))
  }

  ghost predicate InvCore(c: Client) {
    && PendingCoherent(c)
    && ListenersExact(c)
    && SettlementExact(c)
    && c.pending.Keys !! c.abandoned
    && (forall id :: id in c.abandoned ==> Issued(c, id))
  }

  ghost predicate Inv(c: Client) {
    InvCore(c) && (c.closed ==> c.pending == map[] && c.abandoned == {})
  }

  /** `d` has the same promises as `c`, possibly settled further. */
  ghost predicate SameCalls(c: Client, d: Client) {
    |d.calls| == |c.calls| &&
    forall p :: 0 <= p < |c.calls| ==>
      d.calls[p].id == c.calls[p].id && d.calls[p].signal == c.calls[p].signal
  }

  lemma StillIssued(c: Client, d: Client)
    requires |c.calls| <= |d.calls|
    requires forall p :: 0 <= p < |c.calls| ==> d.calls[p].id == c.calls[p].id
    ensures forall id :: Issued(c, id) ==> Issued(d, id)
  {
    forall id | Issued(c, id) ensures Issued(d, id) {
      var p :| 0 <= p < |c.calls| && c.calls[p].id == id;
      assert d.calls[p].id == id;
    }
  }

  lemma AbortSettles(c: Client, signals: set<Signal>)
    requires PendingCoherent(c) && ListenersExact(c) && SettlementExact(c)
    ensures SettlementExact(AfterAbort(c, signals))
  {
    var d := AfterAbort(c, signals);
    var fired := set l | l in c.listeners && l.signal in signals;
    forall p | 0 <= p < |c.calls|
      ensures SettledRight(d.calls[p]) && (d.calls[p].outcomes == [] <==> Waiting(d, p))
    {
      if l :| l in fired && l.promise == p {
        assert c.calls[p].id == l.id && Waiting(c, p);
      } else if Waiting(c, p) {
        forall l | l in fired ensures l.id != c.calls[p].id {}
      }
    }
  }

  lemma AbortTables(c: Client, signals: set<Signal>)
    requires PendingCoherent(c) && ListenersExact(c) && c.pending.Keys !! c.abandoned
    ensures var d := AfterAbort(c, signals);
            PendingCoherent(d) && ListenersExact(d) && d.pending.Keys !! d.abandoned && SameCalls(c, d)
  {
    var d := AfterAbort(c, signals);
    var fired := set l | l in c.listeners && l.signal in signals;
    var ids := set l | l in fired :: l.id;
    forall l | l in fired ensures l.id in ids {}
    assert forall id :: id in d.pending <==> id in c.pending && id !in ids;
  }

  lemma AbortKeepsInv(c: Client, signals: set<Signal>)
    requires InvCore(c)
    ensures InvCore(AfterAbort(c, signals)) && SameCalls(c, AfterAbort(c, signals))
  {
    var d := AfterAbort(c, signals);
    AbortSettles(c, signals);
    AbortTables(c, signals);
    forall id | id in d.abandoned ensures Issued(d, id) {
      StillIssued(c, d);
      if id !in c.abandoned {
        var l :| l in c.listeners && l.id == id;
        assert c.calls[c.pending[l.id].promise].id == id;
        assert Issued(c, id);
      }
    }
  }

  lemma RejectSettles(a: Client)
    requires PendingCoherent(a) && SettlementExact(a)
    ensures forall p :: 0 <= p < |a.calls| ==>
              var call := RejectPending(a.calls, a.pending)[p];
              SettledRight(call) && call.outcomes != []
  {
    forall p | 0 <= p < |a.calls|
      ensures var call := RejectPending(a.calls, a.pending)[p]; SettledRight(call) && call.outcomes != []
    {
      if id :| id in a.pending && a.pending[id].promise == p {
        assert Waiting(a, p);
      } else {
        assert !Waiting(a, p);
      }
    }
  }

  lemma DisconnectKeepsInv(c: Client, linked: set<Signal>)
    requires InvCore(c) && (c.closed ==> Inv(c))
    ensures Inv(AfterDisconnect(c, linked)) && AfterDisconnect(c, linked).closed
    ensures SameCalls(c, AfterDisconnect(c, linked))
  {
    if !c.closed {
      var shut := c.(closed := true);
      assert InvCore(shut);
      AbortKeepsInv(shut, linked);
      var a := AfterAbort(shut, linked);
      RejectSettles(a);
      assert a.listeners - OwnListeners(a.pending) == {};
    }
  }

  /** Removing a pending entry, its listener and settling its promise, as every handler does. */
  lemma SettlingKeepsInv(c: Client, id: RequestId, outcome: Outcome)
    requires InvCore(c) && id in c.pending
    requires outcome.Resolved? ==> outcome.reply.requestId == id
    ensures InvCore(AfterSettling(c, id, outcome)) && SameCalls(c, AfterSettling(c, id, outcome))
  {
    var e := c.pending[id];
    var d := AfterSettling(c, id, outcome);
    assert Waiting(c, e.promise);
    StillIssued(c, d);
  }

  lemma LineKeepsInv(c: Client, line: Line, linked: set<Signal>)
    requires Inv(c)
    ensures Inv(AfterLine(c, line, linked)) && SameCalls(c, AfterLine(c, line, linked))
  {
    if line.WellFormed? && line.reply.requestId in c.pending {
      SettlingKeepsInv(c, line.reply.requestId, Resolved(line.reply));
    } else if line.Malformed? || line.reply.requestId !in c.abandoned {
      DisconnectKeepsInv(c, linked);
    } else {
      var d := AfterLine(c, line, linked);
      assert forall p :: 0 <= p < |c.calls| ==> Waiting(d, p) == Waiting(c, p);
      StillIssued(c, d);
    }
  }

  /** A failed write whose request id has meanwhile been taken by another request. */
  ghost predicate Overtaken(c: Client, promise: nat, failed: bool) {
    && promise < |c.calls| && failed
    && c.calls[promise].id in c.pending && c.pending[c.calls[promise].id].promise != promise
  }

  lemma WriteKeepsInv(c: Client, promise: nat, failed: bool, linked: set<Signal>)
    requires Inv(c) && promise < |c.calls| && !Overtaken(c, promise, failed)
    ensures Inv(AfterWrite(c, promise, failed, linked))
    ensures SameCalls(c, AfterWrite(c, promise, failed, linked))
  {
    var call := c.calls[promise];
    if failed && call.id in c.pending {
      SettlingKeepsInv(c, call.id, Disconnected);
      DisconnectKeepsInv(c.(pending := c.pending - {call.id},
                            listeners := WithoutListener(c.listeners, call.id, promise, call.signal),
                            calls := Settle(c.calls, promise, Disconnected)), linked);
    }
  }

  /** An exchange that is rejected at once, or whose id the client does not hold in either table. */
  predicate AdmitsId(c: Client, id: RequestId, signal: Option<Signal>, signalAborted: bool) {
    c.closed || (signal.Some? && signalAborted) || (id !in c.pending && id !in c.abandoned)
  }

  lemma ExchangeKeepsInv(c: Client, id: RequestId, signal: Option<Signal>, signalAborted: bool)
    requires Inv(c) && AdmitsId(c, id, signal, signalAborted)
    ensures Inv(AfterExchange(c, id, signal, signalAborted))
  {
    var d := AfterExchange(c, id, signal, signalAborted);
    forall p | 0 <= p < |d.calls|
      ensures SettledRight(d.calls[p]) && (d.calls[p].outcomes == [] <==> Waiting(d, p))
    {
      if p < |c.calls| {
        assert SettledRight(c.calls[p]) && Waiting(d, p) == Waiting(c, p);
      }
    }
    StillIssued(c, d);
  }

  /** Exactly when an exchange keeps every promise unsettled only while it is pending. */
  lemma ExchangeSettlesExactly(c: Client, id: RequestId, signal: Option<Signal>, signalAborted: bool)
    requires Inv(c)
    ensures SettlementExact(AfterExchange(c, id, signal, signalAborted)) <==>
            c.closed || (signal.Some? && signalAborted) || id !in c.pending
  {
    var d := AfterExchange(c, id, signal, signalAborted);
    if c.closed || (signal.Some? && signalAborted) || id !in c.pending {
      forall p | 0 <= p < |d.calls|
        ensures SettledRight(d.calls[p]) && (d.calls[p].outcomes == [] <==> Waiting(d, p))
      {
        if p < |c.calls| {
          assert SettledRight(c.calls[p]) && Waiting(d, p) == Waiting(c, p);
        }
      }
    } else {
      var p := c.pending[id].promise;
      assert Waiting(c, p) && d.calls[p].outcomes == [] && !Waiting(d, p);
    }
  }

  // ---------------------------------------------------------------- whole runs

  datatype Event =
    | Exchange(id: RequestId, signal: Option<Signal>, signalAborted: bool)
    | Received(line: Line, linked: set<Signal>)
    | Aborted(signals: set<Signal>)
    | Written(promise: nat, failed: bool, linked: set<Signal>)
    | StreamEnded(linked: set<Signal>)

  /** One handler run; a write callback exists only for a promise that was created. */
  function After(c: Client, e: Event): Client {
    match e
    case Exchange(id, signal, signalAborted) => AfterExchange(c, id, signal, signalAborted)
    case Received(line, linked) => AfterLine(c, line, linked)
    case Aborted(signals) => AfterAbort(c, signals)
    case Written(promise, failed, linked) =>
      if promise < |c.calls| then AfterWrite(c, promise, failed, linked) else c
    case StreamEnded(linked) => AfterDisconnect(c, linked)
  }

  function Run(c: Client, events: seq<Event>): Client
    decreases |events|
  {
    if events == [] then c else Run(After(c, events[0]), events[1..])
  }

  /** What the environment must not do: reuse an id the client still holds, or fail an overtaken write. */
  ghost predicate Admits(c: Client, e: Event) {
    match e
    case Exchange(id, signal, signalAborted) => AdmitsId(c, id, signal, signalAborted)
    case Written(promise, failed, _) => !Overtaken(c, promise, failed)
    case _ => true
  }

  ghost predicate Admitted(c: Client, events: seq<Event>)
    decreases |events|
  {
    events == [] || (Admits(c, events[0]) && Admitted(After(c, events[0]), events[1..]))
  }

  lemma StepKeepsInv(c: Client, e: Event)
    requires Inv(c) && Admits(c, e)
    ensures Inv(After(c, e)) && (c.closed ==> After(c, e).closed)
  {
    match e
    case Exchange(id, signal, signalAborted) =>
      ExchangeKeepsInv(c, id, signal, signalAborted);
    case Received(line, linked) => LineKeepsInv(c, line, linked);
    case Aborted(signals) => AbortKeepsInv(c, signals);
    case Written(promise, failed, linked) =>
      if promise < |c.calls| { WriteKeepsInv(c, promise, failed, linked); }
    case StreamEnded(linked) => DisconnectKeepsInv(c, linked);
  }

  /** Once a promise has been settled twice, it stays so. */
  lemma OvertakenSettlesTwice(c: Client, promise: nat, linked: set<Signal>)
    requires Inv(c) && Overtaken(c, promise, true)
    ensures |AfterWrite(c, promise, true, linked).calls| == |c.calls|
    ensures |AfterWrite(c, promise, true, linked).calls[promise].outcomes| >= 2
  {
    assert !Waiting(c, promise);
    assert c.calls[promise].outcomes != [];
  }

  /** Each handler keeps the invariant exactly when its event is admitted. */
  lemma StepExactly(c: Client, e: Event)
    requires Inv(c)
    ensures Inv(After(c, e)) <==> Admits(c, e)
  {
    if Admits(c, e) {
      StepKeepsInv(c, e);
    } else if e.Exchange? {
      ExchangeSettlesExactly(c, e.id, e.signal, e.signalAborted);
    } else {
      OvertakenSettlesTwice(c, e.promise, e.linked);
      assert !SettledRight(After(c, e).calls[e.promise]);
    }
  }

  lemma {:induction false} RunKeepsInv(c: Client, events: seq<Event>)
    requires Inv(c) && Admitted(c, events)
    ensures Inv(Run(c, events))
    ensures c.closed ==> Run(c, events).closed
    decreases |events|
  {
    if events != [] {
      StepKeepsInv(c, events[0]);
      RunKeepsInv(After(c, events[0]), events[1..]);
    }
  }

  ghost predicate AlwaysInv(c: Client, events: seq<Event>)
    decreases |events|
  {
    Inv(c) && (events == [] || AlwaysInv(After(c, events[0]), events[1..]))
  }

  /** The invariant holds all along a run exactly when every event of it is admitted. */
  lemma {:induction false} RunExactly(c: Client, events: seq<Event>)
    requires Inv(c)
    ensures AlwaysInv(c, events) <==> Admitted(c, events)
    decreases |events|
  {
    if events != [] {
      StepExactly(c, events[0]);
      if Admits(c, events[0]) {
        RunExactly(After(c, events[0]), events[1..]);
      }
    }
  }

  /** No two calls of `exchange` used the same request id. */
  ghost predicate UniqueIds(c: Client) {
    forall p, q :: 0 <= p < q < |c.calls| ==> c.calls[p].id != c.calls[q].id
  }

  /** The caller draws a fresh request id (`randomUUID`) for every exchange. */
  ghost predicate FreshIds(c: Client, events: seq<Event>)
    decreases |events|
  {
    events == [] ||
    ((events[0].Exchange? ==> !Issued(c, events[0].id)) && FreshIds(After(c, events[0]), events[1..]))
  }

  lemma TableIdsIssued(c: Client)
    requires Inv(c)
    ensures forall id :: id in c.pending || id in c.abandoned ==> Issued(c, id)
  {
    forall id | id in c.pending ensures Issued(c, id) {
      assert c.calls[c.pending[id].promise].id == id;
    }
  }

  lemma FreshStep(c: Client, e: Event)
    requires Inv(c) && UniqueIds(c) && (e.Exchange? ==> !Issued(c, e.id))
    ensures Admits(c, e) && UniqueIds(After(c, e))
  {
    match e
    case Exchange(id, signal, signalAborted) => TableIdsIssued(c);
    case Received(line, linked) => LineKeepsInv(c, line, linked);
    case Aborted(signals) => AbortKeepsInv(c, signals);
    case Written(promise, failed, linked) =>
      if promise < |c.calls| { WriteKeepsInv(c, promise, failed, linked); }
    case StreamEnded(linked) => DisconnectKeepsInv(c, linked);
  }

  /** Fresh ids are enough. */
  lemma {:induction false} FreshIsAdmitted(c: Client, events: seq<Event>)
    requires Inv(c) && UniqueIds(c) && FreshIds(c, events)
    ensures Admitted(c, events)
    decreases |events|
  {
    if events != [] {
      FreshStep(c, events[0]);
      StepKeepsInv(c, events[0]);
      FreshIsAdmitted(After(c, events[0]), events[1..]);
    }
  }

  /**
   In every admitted interleaving of exchanges, replies (well formed or not), aborts, write results
   and stream ends: no promise is settled twice; a reply only ever resolves the promise of the
   request it names; a promise is unsettled exactly while its request is pending; an abort
   listener is registered exactly while its request is pending; and once the client has
   disconnected every promise is settled and both tables are empty.
   */
  lemma EveryRunSettlesOnce(events: seq<Event>)
    requires Admitted(INITIAL, events)
    ensures var c := Run(INITIAL, events);
            && (forall p :: 0 <= p < |c.calls| ==>
                  && |c.calls[p].outcomes| <= 1
                  && (c.calls[p].outcomes == [] <==> Waiting(c, p))
                  && (forall r :: Resolved(r) in c.calls[p].outcomes ==> r.requestId == c.calls[p].id))
            && ListenersExact(c)
            && c.pending.Keys !! c.abandoned
            && (c.closed ==> c.pending == map[] && c.abandoned == {} && c.listeners == {})
            && (c.closed ==> forall p :: 0 <= p < |c.calls| ==> |c.calls[p].outcomes| == 1)
  {
    RunKeepsInv(INITIAL, events);
    var c := Run(INITIAL, events);
    forall p | 0 <= p < |c.calls|
      ensures |c.calls[p].outcomes| <= 1
      ensures forall r :: Resolved(r) in c.calls[p].outcomes ==> r.requestId == c.calls[p].id
    {
      assert SettledRight(c.calls[p]);
    }
  }

  /** What happened before the client disconnected is final: nothing settles or reopens later. */
  lemma {:induction false} ClosedForEver(c: Client, events: seq<Event>)
    requires Inv(c) && c.closed
    ensures var d := Run(c, events);
            && d.closed && d.pending == map[] && d.abandoned == {}
            && d.sent == c.sent
            && |c.calls| <= |d.calls| && d.calls[..|c.calls|] == c.calls
            && forall p :: |c.calls| <= p < |d.calls| ==> d.calls[p].outcomes == [Disconnected]
    decreases |events|
  {
    if events != [] {
      var e := events[0];
      StepKeepsInv(c, e);
      assert c.listeners == {};
      var d := After(c, e);
      assert d.calls[..|c.calls|] == c.calls by {
        if e.Aborted? {
          assert d.calls == c.calls;
        }
      }
      ClosedForEver(d, events[1..]);
      var f := Run(d, events[1..]);
      assert f.calls[..|c.calls|] == f.calls[..|d.calls|][..|c.calls|];
      forall p | |c.calls| <= p < |d.calls| ensures f.calls[p].outcomes == [Disconnected] {
        assert f.calls[p] == f.calls[..|d.calls|][p];
      }
    }
  }

  /**
   The shortest such run: two exchanges with one id overwrite the first pending entry, and even the
   disconnect that follows settles only the second promise.
   */
  lemma DuplicateIdRun(id: RequestId)
    ensures var c := Run(INITIAL, [Exchange(id, None, false), Exchange(id, None, false), StreamEnded({})]);
            c.closed && c.pending == map[] && |c.calls| == 2 && c.calls[0].outcomes == []
              && c.calls[1].outcomes == [Disconnected]
  {
    var one := AfterExchange(INITIAL, id, None, false);
    var two := AfterExchange(one, id, None, false);
    var events := [Exchange(id, None, false), Exchange(id, None, false), StreamEnded({})];
    assert events[1..] == [Exchange(id, None, false), StreamEnded({})];
    assert events[1..][1..] == [StreamEnded({})];
    assert Run(INITIAL, events) == Run(one, events[1..]) == Run(two, [StreamEnded({})]);
    assert [StreamEnded({})][1..] == [];
    var end := AfterDisconnect(two, {});
    assert Run(two, [StreamEnded({})]) == Run(After(two, StreamEnded({})), []) == end;
    assert two.pending == map[id := Entry(1, None)] && two.listeners == {};
    var a := AfterAbort(two.(closed := true), {});
    assert a.listeners == {} && a.pending == two.pending;
    assert id in a.pending && a.pending[id].promise == 1;
    assert end.calls == RejectPending(a.calls, a.pending);
  }

  lemma RunThree(c: Client, a: Event, b: Event, d: Event)
    ensures Run(c, [a, b, d]) == After(After(After(c, a), b), d)
  {
    assert [a, b, d][1..] == [b, d] && [b, d][1..] == [d] && [d][1..] == [];
    assert Run(c, [a, b, d]) == Run(After(c, a), [b, d]) == Run(After(After(c, a), b), [d]);
    assert Run(After(After(After(c, a), b), d), []) == After(After(After(c, a), b), d);
  }

  /**
   An abandoned id: after the first request with an id is aborted and the id is used again, the late
   reply to the first resolves the second.
   */
  lemma AbandonedIdTakesLateReply(reply: Reply, signal: Signal)
    ensures var id := reply.requestId;
            var c := Run(INITIAL, [Exchange(id, Some(signal), false), Aborted({signal}), Exchange(id, None, false)]);
            && !c.closed && id in c.pending && id in c.abandoned && c.sent == [id, id]
            && var d := After(c, Received(WellFormed(reply), {}));
            d.calls == [Call(id, Some(signal), [Cancelled]), Call(id, None, [Resolved(reply)])]
  {
    var id := reply.requestId;
    RunThree(INITIAL, Exchange(id, Some(signal), false), Aborted({signal}), Exchange(id, None, false));
    var one := AfterExchange(INITIAL, id, Some(signal), false);
    var listener := Listener(signal, id, 0);
    assert one.listeners == {listener};
    var fired := set l | l in one.listeners && l.signal in {signal};
    assert fired == {listener} && listener in fired;
    assert (set l | l in fired :: l.id) == {id};
    var two := AfterAbort(one, {signal});
    assert two.calls == [Call(id, Some(signal), [Cancelled])] && two.pending == map[];
    assert [] + [Cancelled] == [Cancelled] && [] + [Resolved(reply)] == [Resolved(reply)];
  }

  /**
   An answered id: the guard on the two tables is not enough, because the failed write of the first
   request then takes the second one off the table. The first promise is settled again and the
   second never.
   */
  lemma LateWriteErrorOrphansAPromise(reply: Reply)
    ensures var id := reply.requestId;
            var c := Run(INITIAL, [Exchange(id, None, false), Received(WellFormed(reply), {}),
                                   Exchange(id, None, false)]);
            && AdmitsId(After(After(INITIAL, Exchange(id, None, false)), Received(WellFormed(reply), {})), id, None,
                        false)
            && var d := After(c, Written(0, true, {}));
            d.closed && d.pending == map[] &&
            d.calls == [Call(id, None, [Resolved(reply), Disconnected]), Call(id, None, [])]
  {
    var id := reply.requestId;
    RunThree(INITIAL, Exchange(id, None, false), Received(WellFormed(reply), {}), Exchange(id, None, false));
    assert [] + [Resolved(reply)] == [Resolved(reply)];
    assert [Resolved(reply)] + [Disconnected] == [Resolved(reply), Disconnected];
    var one := AfterExchange(INITIAL, id, None, false);
    var two := AfterLine(one, WellFormed(reply), {});
    assert two.pending == map[] && two.calls == [Call(id, None, [Resolved(reply)])];
    var three := AfterExchange(two, id, None, false);
    assert three.pending == map[id := Entry(1, None)] && three.listeners == {};
    var cut := three.(closed := true, pending := three.pending - {id}, calls := Settle(three.calls, 0, Disconnected));
    assert cut.pending == map[];
    assert cut.calls == [Call(id, None, [Resolved(reply), Disconnected]), Call(id, None, [])];
    assert CancelAll(cut.calls, {}) == cut.calls && RejectPending(cut.calls, map[]) == cut.calls;
    assert (set l | l in cut.listeners && l.signal in {}) == {};
  }

  // ---------------------------------------------------------------- what each event does

  /** The client has ended: every promise still open is rejected, as cancelled if its signal fired with the end. */
  ghost predicate Ended(c: Client, d: Client, linked: set<Signal>) {
    && d.closed && d.pending == map[] && d.abandoned == {} && d.listeners == {} && d.sent == c.sent
    && |d.calls| == |c.calls|
    && forall p :: 0 <= p < |c.calls| ==>
         var call := c.calls[p];
         d.calls[p] ==
           if call.outcomes != [] then call
           else if call.signal.Some? && call.signal.value in linked then call.(outcomes := [Cancelled])
           else call.(outcomes := [Disconnected])
  }

  /** A new request on an open client is sent, and pending under its id from then on. */
  lemma ExchangeMeans(c: Client, id: RequestId, signal: Option<Signal>, signalAborted: bool)
    ensures var d := After(c, Exchange(id, signal, signalAborted));
            if c.closed then d == c.(calls := c.calls + [Call(id, signal, [Disconnected])])
            else if signal.Some? && signalAborted then d == c.(calls := c.calls + [Call(id, signal, [Cancelled])])
            else
              && d.calls == c.calls + [Call(id, signal, [])] && d.sent == c.sent + [id] && !d.closed
              && d.pending == c.pending[id := Entry(|c.calls|, signal)] && d.abandoned == c.abandoned
  {
  }

  /** The signals that fire cancel exactly the open promises registered with them, and remember their ids. */
  lemma AbortMeans(c: Client, signals: set<Signal>)
    requires Inv(c)
    ensures var d := After(c, Aborted(signals));
            && d.closed == c.closed && d.sent == c.sent && |d.calls| == |c.calls|
            && (forall p :: 0 <= p < |c.calls| ==>
                  var call := c.calls[p];
                  d.calls[p] == if call.outcomes == [] && call.signal.Some? && call.signal.value in signals
                                then call.(outcomes := [Cancelled]) else call)
            && (forall id :: id in d.pending <==>
                  id in c.pending && !(c.pending[id].signal.Some? && c.pending[id].signal.value in signals))
            && (forall id :: id in d.pending ==> d.pending[id] == c.pending[id])
            && (forall id :: id in d.abandoned <==>
                  id in c.abandoned ||
                  (id in c.pending && c.pending[id].signal.Some? && c.pending[id].signal.value in signals))
  {
    var fired := set l | l in c.listeners && l.signal in signals;
    forall id | id in c.pending && c.pending[id].signal.Some? && c.pending[id].signal.value in signals
      ensures Listener(c.pending[id].signal.value, id, c.pending[id].promise) in fired
    {
    }
    forall p | 0 <= p < |c.calls|
      ensures (exists l :: l in fired && l.promise == p) <==>
              c.calls[p].outcomes == [] && c.calls[p].signal.Some? && c.calls[p].signal.value in signals
    {
      if c.calls[p].outcomes == [] && c.calls[p].signal.Some? && c.calls[p].signal.value in signals {
        assert Waiting(c, p);
        assert Listener(c.calls[p].signal.value, c.calls[p].id, p) in fired;
      }
      if l :| l in fired && l.promise == p {
        assert Waiting(c, p);
      }
    }
  }

  lemma DisconnectEnds(c: Client, linked: set<Signal>)
    requires Inv(c) && !c.closed
    ensures Ended(c, AfterDisconnect(c, linked), linked)
  {
    var a := AfterAbort(c.(closed := true), linked);
    AbortMeans(c, linked);
    forall p | 0 <= p < |c.calls|
      ensures (exists id :: id in a.pending && a.pending[id].promise == p) <==> LeftOpen(c, p, linked)
    {
      LeftPending(c, p, linked);
    }
    DisconnectKeepsInv(c, linked);
  }

  /** The promise is open and its signal does not fire. */
  ghost predicate LeftOpen(c: Client, p: nat, linked: set<Signal>)
    requires p < |c.calls|
  {
    c.calls[p].outcomes == [] && !(c.calls[p].signal.Some? && c.calls[p].signal.value in linked)
  }

  lemma LeftPending(c: Client, p: nat, linked: set<Signal>)
    requires Inv(c) && p < |c.calls|
    ensures var a := AfterAbort(c.(closed := true), linked);
            (exists id :: id in a.pending && a.pending[id].promise == p) <==> LeftOpen(c, p, linked)
  {
    var a := AfterAbort(c.(closed := true), linked);
    AbortMeans(c, linked);
    if LeftOpen(c, p, linked) {
      assert Waiting(c, p);
      assert c.calls[p].id in a.pending;
    }
    if id :| id in a.pending && a.pending[id].promise == p {
      assert Waiting(c, p);
    }
  }

  /** A reply settles the request it names or clears an abandoned one; every other line ends the client. */
  lemma LineMeans(c: Client, line: Line, linked: set<Signal>)
    requires Inv(c) && !c.closed
    ensures var d := After(c, Received(line, linked));
            if line.WellFormed? && line.reply.requestId in c.pending then
              var id, p := line.reply.requestId, c.pending[line.reply.requestId].promise;
              && !d.closed && d.sent == c.sent && d.pending == c.pending - {id} && d.abandoned == c.abandoned
              && d.calls == c.calls[p := c.calls[p].(outcomes := [Resolved(line.reply)])]
            else if line.WellFormed? && line.reply.requestId in c.abandoned then
              d == c.(abandoned := c.abandoned - {line.reply.requestId})
            else Ended(c, d, linked)
  {
    if line.WellFormed? && line.reply.requestId in c.pending {
      var p := c.pending[line.reply.requestId].promise;
      assert Waiting(c, p) && c.calls[p].outcomes == [];
      assert [] + [Resolved(line.reply)] == [Resolved(line.reply)];
    } else if !(line.WellFormed? && line.reply.requestId in c.abandoned) {
      DisconnectEnds(c, linked);
    }
  }

  lemma StreamEndMeans(c: Client, linked: set<Signal>)
    requires Inv(c) && !c.closed
    ensures Ended(c, After(c, StreamEnded(linked)), linked)
  {
    DisconnectEnds(c, linked);
  }

  /** A failed write of an open request ends the client; any other write result changes nothing. */
  lemma WriteMeans(c: Client, promise: nat, failed: bool, linked: set<Signal>)
    requires Inv(c) && promise < |c.calls| && !Overtaken(c, promise, failed)
    ensures var d := After(c, Written(promise, failed, linked));
            if !failed || c.calls[promise].outcomes != [] then d == c
            else Ended(c.(calls := c.calls[promise := c.calls[promise].(outcomes := [Disconnected])]), d, linked)
  {
    var call := c.calls[promise];
    assert Waiting(c, promise) <==> call.outcomes == [];
    if failed && call.outcomes == [] {
      var cut := c.(pending := c.pending - {call.id},
                    listeners := WithoutListener(c.listeners, call.id, promise, call.signal),
                    calls := Settle(c.calls, promise, Disconnected));
      SettlingKeepsInv(c, call.id, Disconnected);
      assert [] + [Disconnected] == [Disconnected];
      DisconnectEnds(cut, linked);
    }
  }

  // ---------------------------------------------------------------- the handlers, step by step

  /** What every handler keeps whatever ids are used: table entries and listeners know their own call. */
  ghost predicate Coherent(c: Client) {
    && PendingCoherent(c)
    && forall l :: l in c.listeners ==>
         l.promise < |c.calls| && c.calls[l.promise].id == l.id && c.calls[l.promise].signal == Some(l.signal)
  }

  /** Settling promises and taking entries and listeners away disturbs nothing. */
  lemma FewerCoherent(c: Client, d: Client)
    requires Coherent(c) && SameCalls(c, d) && Within(d.pending, c.pending) && d.listeners <= c.listeners
    ensures Coherent(d)
  {
  }

  lemma DisconnectCoherent(c: Client, linked: set<Signal>)
    requires Coherent(c)
    ensures Coherent(AfterDisconnect(c, linked))
  {
    FewerCoherent(c, AfterDisconnect(c, linked));
  }

  lemma WriteCoherent(c: Client, promise: nat, failed: bool, linked: set<Signal>)
    requires Coherent(c) && promise < |c.calls|
    ensures Coherent(AfterWrite(c, promise, failed, linked))
  {
    var call := c.calls[promise];
    if failed && call.id in c.pending {
      var cut := c.(pending := c.pending - {call.id},
                    listeners := WithoutListener(c.listeners, call.id, promise, call.signal),
                    calls := Settle(c.calls, promise, Disconnected));
      FewerCoherent(c, cut);
      DisconnectCoherent(cut, linked);
    }
  }

  lemma LineCoherent(c: Client, line: Line, linked: set<Signal>)
    requires Coherent(c)
    ensures Coherent(AfterLine(c, line, linked))
  {
    if line.Malformed? || line.reply.requestId !in c.pending {
      DisconnectCoherent(c, linked);
    } else {
      FewerCoherent(c, AfterLine(c, line, linked));
    }
  }

  lemma StepCoherent(c: Client, e: Event)
    requires Coherent(c)
    ensures Coherent(After(c, e))
  {
    match e
    case Exchange(_, _, _) =>
    case Received(line, linked) => LineCoherent(c, line, linked);
    case Aborted(signals) => FewerCoherent(c, AfterAbort(c, signals));
    case Written(promise, failed, linked) =>
      if promise < |c.calls| { WriteCoherent(c, promise, failed, linked); }
    case StreamEnded(linked) => DisconnectCoherent(c, linked);
  }

  // ---------------------------------------------------------------- orphaned promises

  /** The abort signals that fire with an event. */
  function SignalsOf(e: Event): set<Signal> {
    match e
    case Exchange(_, _, _) => {}
    case Received(_, linked) => linked
    case Aborted(signals) => signals
    case Written(_, _, linked) => linked
    case StreamEnded(linked) => linked
  }

  /** The events that can still settle a promise no table entry leads to: its own write, its own signal. */
  predicate Reaches(e: Event, promise: nat, signal: Option<Signal>) {
    || (e.Written? && e.promise == promise && e.failed)
    || (signal.Some? && signal.value in SignalsOf(e))
  }

  ghost predicate NoEntry(c: Client, promise: nat) {
    forall id :: id in c.pending ==> c.pending[id].promise != promise
  }

  ghost predicate Untouched(c: Client, d: Client, promise: nat)
    requires promise < |c.calls|
  {
    promise < |d.calls| && d.calls[promise] == c.calls[promise] && NoEntry(d, promise)
  }

  lemma AbortLeaves(c: Client, promise: nat, signals: set<Signal>)
    requires Coherent(c) && promise < |c.calls| && NoEntry(c, promise)
    requires c.calls[promise].signal.Some? ==> c.calls[promise].signal.value !in signals
    ensures Untouched(c, AfterAbort(c, signals), promise)
  {
    forall l | l in c.listeners && l.promise == promise ensures l.signal !in signals {
      assert c.calls[l.promise].signal == Some(l.signal);
    }
  }

  lemma DisconnectLeaves(c: Client, promise: nat, linked: set<Signal>)
    requires Coherent(c) && promise < |c.calls| && NoEntry(c, promise)
    requires c.calls[promise].signal.Some? ==> c.calls[promise].signal.value !in linked
    ensures Untouched(c, AfterDisconnect(c, linked), promise)
  {
    if !c.closed {
      AbortLeaves(c.(closed := true), promise, linked);
    }
  }

  lemma WriteLeaves(c: Client, promise: nat, other: nat, failed: bool, linked: set<Signal>)
    requires Coherent(c) && promise < |c.calls| && other < |c.calls| && NoEntry(c, promise)
    requires !(failed && other == promise)
    requires c.calls[promise].signal.Some? ==> c.calls[promise].signal.value !in linked
    ensures Untouched(c, AfterWrite(c, other, failed, linked), promise)
  {
    var call := c.calls[other];
    if failed && call.id in c.pending {
      var cut := c.(pending := c.pending - {call.id},
                    listeners := WithoutListener(c.listeners, call.id, other, call.signal),
                    calls := Settle(c.calls, other, Disconnected));
      FewerCoherent(c, cut);
      DisconnectLeaves(cut, promise, linked);
    }
  }

  lemma EventLeaves(c: Client, promise: nat, e: Event)
    requires Coherent(c) && promise < |c.calls| && NoEntry(c, promise)
    requires !Reaches(e, promise, c.calls[promise].signal)
    ensures Untouched(c, After(c, e), promise)
  {
    match e
    case Exchange(id, signal, signalAborted) =>
    case Received(line, linked) => DisconnectLeaves(c, promise, linked);
    case Aborted(signals) => AbortLeaves(c, promise, signals);
    case Written(other, failed, linked) =>
      if other < |c.calls| { WriteLeaves(c, promise, other, failed, linked); }
    case StreamEnded(linked) => DisconnectLeaves(c, promise, linked);
  }

  /** A promise that no entry leads to stays as it is, unless its own write fails or its own signal fires. */
  lemma {:induction false} OrphanedForEver(c: Client, promise: nat, events: seq<Event>)
    requires Coherent(c) && promise < |c.calls| && NoEntry(c, promise)
    requires forall e :: e in events ==> !Reaches(e, promise, c.calls[promise].signal)
    ensures promise < |Run(c, events).calls| && Run(c, events).calls[promise] == c.calls[promise]
    decreases |events|
  {
    if events != [] {
      EventLeaves(c, promise, events[0]);
      StepCoherent(c, events[0]);
      OrphanedForEver(After(c, events[0]), promise, events[1..]);
    }
  }

  /**
   An id in use: a second exchange under a pending id orphans the promise of the first. Whatever follows,
   disconnects and replies included, it is never settled, unless its own write fails or its own signal
   fires.
   */
  lemma DuplicateIdOrphansAPromise(c: Client, id: RequestId, signal: Option<Signal>, events: seq<Event>)
    requires Inv(c) && !c.closed && id in c.pending
    requires var p := c.pending[id].promise; forall e :: e in events ==> !Reaches(e, p, c.pending[id].signal)
    ensures var p := c.pending[id].promise;
            var d := Run(AfterExchange(c, id, signal, false), events);
            p < |d.calls| && d.calls[p].outcomes == []
  {
    var p := c.pending[id].promise;
    var d := AfterExchange(c, id, signal, false);
    assert Waiting(c, p) && c.calls[p].outcomes == [];
    assert Coherent(c);
    StepCoherent(c, Exchange(id, signal, false));
    forall other | other in d.pending ensures d.pending[other].promise != p {
      if other != id {
        assert c.calls[c.pending[other].promise].id == other && c.calls[p].id == id;
      }
    }
    OrphanedForEver(d, p, events);
  }

  /** The closures of `createComparisonBudgetIpcClient` over their shared variables. */
  class IpcClient {
    var closed: bool
    var pending: map<RequestId, Entry>
    var abandoned: set<RequestId>
    var listeners: set<Listener>
    var calls: seq<Call>
    var sent: seq<RequestId>

    ghost function State(): Client
      reads this
    {
      Client(closed, pending, abandoned, listeners, calls, sent)
    }

    constructor ()
      ensures State() == INITIAL && Inv(State()) && Coherent(State())
    {
      closed, pending, abandoned, listeners, calls, sent := false, map[], {}, {}, [], [];
    }

    /** One abort listener: it removes itself and rejects its request. */
    method Fire(l: Listener, ghost before: Client, ghost done: set<Listener>)
      requires Coherent(before) && done <= before.listeners && l in before.listeners && l !in done
      requires State() == AfterListeners(before, done)
      modifies this
      ensures State() == AfterListeners(before, done + {l})
    {
      FireOne(before, done, l);
      listeners := listeners - {l};
      pending := pending - {l.id};
      abandoned := abandoned + {l.id};
      calls := Settle(calls, l.promise, Cancelled);
    }

    /** Dispatches the abort events of `signals`, one listener at a time. */
    method Abort(signals: set<Signal>)
      requires Coherent(State())
      modifies this
      ensures State() == AfterAbort(old(State()), signals)
    {
      ghost var before := State();
      var todo := set l | l in listeners && l.signal in signals;
      ghost var fired := todo;
      ghost var done: set<Listener> := {};
      assert State() == AfterListeners(before, {}) by {
        assert CancelAll(calls, {}) == calls;
        assert pending - {} == pending;
      }
      while todo != {}
        invariant done + todo == fired && done !! todo
        invariant State() == AfterListeners(before, done)
        decreases todo
      {
        var l :| l in todo;
        Fire(l, before, done);
        todo := todo - {l};
        done := done + {l};
      }
      assert done == fired;
    }

    method Disconnect(linked: set<Signal>)
      requires Coherent(State())
      modifies this
      ensures State() == AfterDisconnect(old(State()), linked) && Coherent(State())
    {
      StepCoherent(State(), StreamEnded(linked));
      if closed { return; }
      closed := true;
      StepCoherent(State(), Aborted(linked));
      Abort(linked);
      RejectAll();
      abandoned := {};
    }

    /** The loop of `disconnect` over the pending map, which it empties as it goes. */
    method RejectAll()
      requires PendingCoherent(State())
      modifies this
      ensures State() == AfterRejects(old(State()), old(pending))
    {
      ghost var a := State();
      ghost var done: map<RequestId, Entry> := map[];
      RejectNone(a);
      while pending != map[]
        invariant Within(done, a.pending)
        invariant State() == AfterRejects(a, done)
        decreases |pending|
      {
        assert pending.Keys != {};
        var id :| id in pending;
        RejectOne(a, done, id);
        RejectOnly(id);
        done := done[id := a.pending[id]];
      }
      RejectedAll(a, done);
    }

    /** The body of that loop. */
    method RejectOnly(id: RequestId)
      requires id in pending
      modifies this
      ensures State() == AfterSettling(old(State()), id, Disconnected)
      ensures |pending| < |old(pending)|
    {
      var entry := pending[id];
      listeners := WithoutListener(listeners, id, entry.promise, entry.signal);
      calls := Settle(calls, entry.promise, Disconnected);
      pending := pending - {id};
      assert pending.Keys == old(pending.Keys) - {id};
    }

    method OnLine(line: Line, linked: set<Signal>)
      requires Coherent(State())
      modifies this
      ensures State() == AfterLine(old(State()), line, linked) && Coherent(State())
    {
      StepCoherent(State(), Received(line, linked));
      if line.Malformed? {
        Disconnect(linked);
        return;
      }
      var id := line.reply.requestId;
      if id !in pending {
        if id in abandoned {
          abandoned := abandoned - {id};
          return;
        }
        Disconnect(linked);
        return;
      }
      var entry := pending[id];
      pending := pending - {id};
      listeners := WithoutListener(listeners, id, entry.promise, entry.signal);
      calls := Settle(calls, entry.promise, Resolved(line.reply));
    }

    /** Returns the number of the promise it creates. */
    method Exchange(id: RequestId, signal: Option<Signal>, signalAborted: bool) returns (promise: nat)
      requires Coherent(State())
      modifies this
      ensures State() == AfterExchange(old(State()), id, signal, signalAborted) && Coherent(State())
      ensures promise == |old(calls)|
    {
      StepCoherent(State(), Event.Exchange(id, signal, signalAborted));
      promise := |calls|;
      if closed {
        calls := calls + [Call(id, signal, [Disconnected])];
        return;
      }
      if signal.Some? && signalAborted {
        calls := calls + [Call(id, signal, [Cancelled])];
        return;
      }
      calls := calls + [Call(id, signal, [])];
      if signal.Some? {
        listeners := listeners + {Listener(signal.value, id, promise)};
      }
      pending := pending[id := Entry(promise, signal)];
      sent := sent + [id];
    }

    method OnWritten(promise: nat, failed: bool, linked: set<Signal>)
      requires Coherent(State()) && promise < |calls|
      modifies this
      ensures State() == AfterWrite(old(State()), promise, failed, linked) && Coherent(State())
    {
      StepCoherent(State(), Written(promise, failed, linked));
      var call := calls[promise];
      if !failed || call.id !in pending { return; }
      pending := pending - {call.id};
      listeners := WithoutListener(listeners, call.id, promise, call.signal);
      calls := Settle(calls, promise, Disconnected);
      Disconnect(linked);
    }
  }

  lemma FireOne(c: Client, done: set<Listener>, l: Listener)
    requires Coherent(c) && done <= c.listeners && l in c.listeners && l !in done
    ensures var d := AfterListeners(c, done);
            AfterListeners(c, done + {l}) ==
              d.(pending := d.pending - {l.id}, abandoned := d.abandoned + {l.id},
                 listeners := d.listeners - {l}, calls := Settle(d.calls, l.promise, Cancelled))
  {
    var ids := set k | k in done :: k.id;
    assert (set k | k in done + {l} :: k.id) == ids + {l.id};
    assert c.pending - (ids + {l.id}) == c.pending - ids - {l.id};
    forall k | k in done ensures k.promise != l.promise {
      assert c.calls[k.promise].id == k.id && c.calls[l.promise].id == l.id;
    }
    assert CancelAll(c.calls, done + {l}) == Settle(CancelAll(c.calls, done), l.promise, Cancelled);
  }

  ghost predicate Within(part: map<RequestId, Entry>, whole: map<RequestId, Entry>) {
    forall id :: id in part ==> id in whole && part[id] == whole[id]
  }

  lemma RejectNone(c: Client)
    ensures AfterRejects(c, map[]) == c
  {
    assert RejectPending(c.calls, map[]) == c.calls && c.pending - {} == c.pending;
  }

  lemma RejectedAll(a: Client, done: map<RequestId, Entry>)
    requires Within(done, a.pending)
    requires AfterRejects(a, done).pending == map[]
    ensures done == a.pending
  {
    forall id | id in a.pending ensures id in done {
      assert id !in a.pending - done.Keys;
    }
  }

  lemma RejectOne(a: Client, done: map<RequestId, Entry>, id: RequestId)
    requires PendingCoherent(a) && id in AfterRejects(a, done).pending
    requires Within(done, a.pending)
    ensures AfterRejects(a, done[id := a.pending[id]]) == AfterSettling(AfterRejects(a, done), id, Disconnected)
    ensures Within(done[id := a.pending[id]], a.pending)
  {
    var e := a.pending[id];
    var more := done[id := e];
    forall k | k in done ensures done[k].promise != e.promise {
      assert a.calls[done[k].promise].id == k;
    }
    assert forall k :: k in more <==> k == id || k in done;
    assert OwnListeners(more) ==
           OwnListeners(done) + (if e.signal.Some? then {Listener(e.signal.value, id, e.promise)} else {});
    assert a.pending - more.Keys == a.pending - done.Keys - {id};
    var left, right := RejectPending(a.calls, more), Settle(RejectPending(a.calls, done), e.promise, Disconnected);
    forall p | 0 <= p < |a.calls| ensures left[p] == right[p] {
      if p == e.promise { assert id in more && more[id].promise == p; }
      if k :| k in done && done[k].promise == p { assert more[k].promise == p; }
    }
    assert left == right;
  }
}
