/**
 The child's client and the parent's coordinator joined by two line streams. The streams are
 first-in first-out, the coordinator answers the requests it holds in any order, requests are
 aborted at any time, writes fail and either side may leave.
 */
module BudgetIpcSystem {
  import opened Common
  import opened BudgetIpcClient

  datatype System = System(
    client: Client,
    aborted: set<Signal>,        // signals that have fired
    toParent: seq<RequestId>,    // request lines not yet read by the parent
    working: set<RequestId>,     // requests the coordinator has accepted and not answered
    toClient: seq<Reply>,        // reply lines not yet read by the child
    attached: bool,              // the parent has not detached the child
    lossless: bool)              // no request line and no reply has been dropped

  const START := System(INITIAL, {}, [], {}, [], true, true)

  datatype Step =
    | Issue(id: RequestId, signal: Option<Signal>)
    | FireSignals(signals: set<Signal>)
    | ParentReads
    | ParentAnswers(reply: Reply)
    | ParentDetaches
    | ClientReads(linked: set<Signal>)
    | WriteFails(promise: nat, delivered: bool, linked: set<Signal>)
    | ClientEnds(linked: set<Signal>)

  function Without(line: seq<RequestId>, id: RequestId): seq<RequestId> {
    if line == [] then []
    else if line[0] == id then Without(line[1..], id)
    else [line[0]] + Without(line[1..], id)
  }

  /** A step whose guard does not hold leaves the system as it is. */
  function Next(s: System, step: Step): System {
    match step
    case Issue(id, signal) =>
      var c := AfterExchange(s.client, id, signal, signal.Some? && signal.value in s.aborted);
      s.(client := c, toParent := s.toParent + c.sent[|s.client.sent|..])
    case FireSignals(signals) =>
      s.(client := AfterAbort(s.client, signals - s.aborted), aborted := s.aborted + signals)
    case ParentReads =>
      if s.toParent == [] then s
      else s.(toParent := s.toParent[1..], working := s.working + {s.toParent[0]})
    case ParentAnswers(reply) =>
      if reply.requestId !in s.working then s
      else if s.attached then
        s.(working := s.working - {reply.requestId}, toClient := s.toClient + [reply])
      else s.(working := s.working - {reply.requestId}, lossless := false)
    case ParentDetaches => s.(attached := false)
    case ClientReads(linked) =>
      if s.toClient == [] then s
      else s.(client := AfterLine(s.client, WellFormed(s.toClient[0]), linked), toClient := s.toClient[1..])
    case WriteFails(promise, delivered, linked) =>
      if promise >= |s.client.calls| then s
      else
        var t := s.(client := AfterWrite(s.client, promise, true, linked));
        if delivered then t
        else t.(toParent := Without(s.toParent, s.client.calls[promise].id), lossless := false)
    case ClientEnds(linked) => s.(client := AfterDisconnect(s.client, linked))
  }

  function RunAll(s: System, steps: seq<Step>): System
    decreases |steps|
  {
    if steps == [] then s else RunAll(Next(s, steps[0]), steps[1..])
  }

  /** What the environment must not do, as for the client alone. */
  ghost predicate AdmitsStep(s: System, step: Step) {
    match step
    case Issue(id, signal) => AdmitsId(s.client, id, signal, signal.Some? && signal.value in s.aborted)
    case WriteFails(promise, _, _) => !Overtaken(s.client, promise, true)
    case _ => true
  }

  ghost predicate AdmittedSteps(s: System, steps: seq<Step>)
    decreases |steps|
  {
    steps == [] || (AdmitsStep(s, steps[0]) && AdmittedSteps(Next(s, steps[0]), steps[1..]))
  }

  // ---------------------------------------------------------------- what is in flight

  function Ids(replies: seq<Reply>): (r: seq<RequestId>)
    ensures |r| == |replies|
  {
    seq(|replies|, i requires 0 <= i < |replies| => replies[i].requestId)
  }

  /** Every id on either stream or in the coordinator's hands, with its multiplicity. */
  ghost function InFlight(s: System): multiset<RequestId> {
    multiset(s.toParent) + multiset(s.working) + multiset(Ids(s.toClient))
  }

  /** The client still expects a reply to `id`, if only to discard it. */
  ghost predicate Expected(c: Client, id: RequestId) {
    id in c.pending || id in c.abandoned
  }

  ghost predicate Matches(c: Client, flight: multiset<RequestId>, lossless: bool) {
    && (forall id :: flight[id] <= 1)
    && (forall id :: id in flight ==> Issued(c, id))
    && (!c.closed ==> forall id :: id in flight ==> Expected(c, id))
    && (!c.closed && lossless ==> forall id :: Expected(c, id) ==> id in flight)
  }

  ghost predicate Sound(s: System) {
    Inv(s.client) && Matches(s.client, InFlight(s), s.lossless)
  }

  lemma PopLine(line: seq<RequestId>)
    requires line != []
    ensures multiset(line) == multiset{line[0]} + multiset(line[1..])
  {
    assert line == [line[0]] + line[1..];
  }

  lemma PopReply(replies: seq<Reply>)
    requires replies != []
    ensures multiset(Ids(replies)) == multiset{replies[0].requestId} + multiset(Ids(replies[1..]))
  {
    assert Ids(replies)[1..] == Ids(replies[1..]);
    PopLine(Ids(replies));
  }

  lemma {:induction false} WithoutCount(line: seq<RequestId>, id: RequestId)
    ensures forall k :: multiset(Without(line, id))[k] == if k == id then 0 else multiset(line)[k]
  {
    if line != [] {
      PopLine(line);
      WithoutCount(line[1..], id);
    }
  }

  lemma IssueMatches(c: Client, id: RequestId, signal: Option<Signal>, aborted: bool,
                     flight: multiset<RequestId>, lossless: bool)
    requires Inv(c) && AdmitsId(c, id, signal, aborted) && Matches(c, flight, lossless)
    ensures var d := AfterExchange(c, id, signal, aborted);
            Matches(d, flight + (if |d.sent| > |c.sent| then multiset{id} else multiset{}), lossless)
  {
    var d := AfterExchange(c, id, signal, aborted);
    StillIssued(c, d);
    assert d.calls[|c.calls|].id == id && Issued(d, id);
    forall k ensures Expected(d, k) <==> Expected(c, k) || (k == id && |d.sent| > |c.sent|) {}
  }

  lemma IssueSound(s: System, id: RequestId, signal: Option<Signal>)
    requires Sound(s) && AdmitsStep(s, Issue(id, signal))
    ensures Sound(Next(s, Issue(id, signal)))
  {
    var aborted := signal.Some? && signal.value in s.aborted;
    StepKeepsInv(s.client, Exchange(id, signal, aborted));
    IssueFlight(s, id, signal);
    IssueMatches(s.client, id, signal, aborted, InFlight(s), s.lossless);
  }

  lemma IssueFlight(s: System, id: RequestId, signal: Option<Signal>)
    ensures var t := Next(s, Issue(id, signal));
            InFlight(t) == InFlight(s) + (if |t.client.sent| > |s.client.sent| then multiset{id} else multiset{})
  {
    var t := Next(s, Issue(id, signal));
    if |t.client.sent| > |s.client.sent| {
      assert t.client.sent[|s.client.sent|..] == [id];
    } else {
      assert t.client.sent[|s.client.sent|..] == [];
    }
  }

  lemma ReadFlight(s: System)
    requires s.toParent != [] && InFlight(s)[s.toParent[0]] <= 1
    ensures InFlight(Next(s, ParentReads)) == InFlight(s)
  {
    var t := Next(s, ParentReads);
    var id := s.toParent[0];
    PopLine(s.toParent);
    assert id !in s.working;
    assert multiset(t.working) == multiset(s.working) + multiset{id};
  }

  lemma AnswerFlight(s: System, reply: Reply)
    requires reply.requestId in s.working
    ensures InFlight(Next(s, ParentAnswers(reply))) ==
            if s.attached then InFlight(s) else InFlight(s) - multiset{reply.requestId}
  {
    var t := Next(s, ParentAnswers(reply));
    var id := reply.requestId;
    assert multiset(s.working) == multiset(t.working) + multiset{id};
    if s.attached {
      assert Ids(t.toClient) == Ids(s.toClient) + [id];
    }
  }

  lemma SameFlightSound(s: System, t: System)
    requires Sound(s) && t.client == s.client && t.lossless == s.lossless && InFlight(t) == InFlight(s)
    ensures Sound(t)
  {
  }

  lemma LossSound(s: System, t: System, id: RequestId)
    requires Sound(s) && t.client == s.client && !t.lossless && InFlight(t) == InFlight(s) - multiset{id}
    ensures Sound(t)
  {
    forall x | x in InFlight(t) ensures x in InFlight(s) && InFlight(t)[x] <= InFlight(s)[x] {
    }
  }

  lemma ReadSound(s: System)
    requires Sound(s)
    ensures Sound(Next(s, ParentReads))
  {
    if s.toParent != [] {
      ReadFlight(s);
      SameFlightSound(s, Next(s, ParentReads));
    }
  }

  lemma DeliveredSound(s: System, reply: Reply)
    requires Sound(s) && reply.requestId in s.working && s.attached
    ensures Sound(Next(s, ParentAnswers(reply)))
  {
    AnswerFlight(s, reply);
    SameFlightSound(s, Next(s, ParentAnswers(reply)));
  }

  lemma LostSound(s: System, reply: Reply)
    requires Sound(s) && reply.requestId in s.working && !s.attached
    ensures Sound(Next(s, ParentAnswers(reply)))
  {
    AnswerFlight(s, reply);
    LossSound(s, Next(s, ParentAnswers(reply)), reply.requestId);
  }

  lemma AnswerSound(s: System, reply: Reply)
    requires Sound(s)
    ensures Sound(Next(s, ParentAnswers(reply)))
  {
    if reply.requestId in s.working && s.attached {
      DeliveredSound(s, reply);
    } else if reply.requestId in s.working {
      LostSound(s, reply);
    }
  }

  lemma ParentSound(s: System, step: Step)
    requires Sound(s) && (step.ParentReads? || step.ParentAnswers? || step.ParentDetaches?)
    ensures Sound(Next(s, step))
  {
    match step
    case ParentReads => ReadSound(s);
    case ParentAnswers(reply) => AnswerSound(s, reply);
    case ParentDetaches => assert InFlight(Next(s, step)) == InFlight(s);
    case _ =>
  }

  lemma FireSound(s: System, signals: set<Signal>)
    requires Sound(s)
    ensures Sound(Next(s, FireSignals(signals)))
  {
    var c, d := s.client, AfterAbort(s.client, signals - s.aborted);
    var fired := set l | l in c.listeners && l.signal in signals - s.aborted;
    StepKeepsInv(c, Aborted(signals - s.aborted));
    AbortTables(c, signals - s.aborted);
    StillIssued(c, d);
    assert InFlight(Next(s, FireSignals(signals))) == InFlight(s);
    forall id ensures Expected(d, id) == Expected(c, id) {
      if id in d.abandoned && id !in c.abandoned {
        var l :| l in fired && l.id == id;
      }
    }
  }

  lemma ReplyFlight(s: System, linked: set<Signal>)
    requires s.toClient != []
    ensures InFlight(s) == InFlight(Next(s, ClientReads(linked))) + multiset{s.toClient[0].requestId}
  {
    PopReply(s.toClient);
  }

  lemma ReplyMatches(c: Client, reply: Reply, linked: set<Signal>, rest: multiset<RequestId>, lossless: bool)
    requires Inv(c) && Matches(c, rest + multiset{reply.requestId}, lossless)
    ensures Matches(AfterLine(c, WellFormed(reply), linked), rest, lossless)
  {
    var d := AfterLine(c, WellFormed(reply), linked);
    var flight := rest + multiset{reply.requestId};
    LineKeepsInv(c, WellFormed(reply), linked);
    StillIssued(c, d);
    assert flight[reply.requestId] == rest[reply.requestId] + 1;
    forall id ensures rest[id] <= 1 && (id in rest ==> Issued(d, id)) {
      assert flight[id] <= 1;
    }
    if !c.closed {
      assert Expected(c, reply.requestId);
      forall id ensures Expected(d, id) <==> Expected(c, id) && id != reply.requestId {}
    }
  }

  lemma ReplySound(s: System, linked: set<Signal>)
    requires Sound(s) && s.toClient != []
    ensures Sound(Next(s, ClientReads(linked)))
  {
    var line := WellFormed(s.toClient[0]);
    var t := Next(s, ClientReads(linked));
    StepKeepsInv(s.client, Received(line, linked));
    ReplyFlight(s, linked);
    ReplyMatches(s.client, s.toClient[0], linked, InFlight(t), s.lossless);
  }

  lemma WriteFlight(s: System, promise: nat, delivered: bool, linked: set<Signal>)
    requires promise < |s.client.calls|
    ensures forall id :: InFlight(Next(s, WriteFails(promise, delivered, linked)))[id] <= InFlight(s)[id]
    ensures delivered ==> InFlight(Next(s, WriteFails(promise, delivered, linked))) == InFlight(s)
  {
    WithoutCount(s.toParent, s.client.calls[promise].id);
  }

  lemma WriteSound(s: System, promise: nat, delivered: bool, linked: set<Signal>)
    requires Sound(s) && promise < |s.client.calls| && !Overtaken(s.client, promise, true)
    ensures Sound(Next(s, WriteFails(promise, delivered, linked)))
  {
    var c, t := s.client, Next(s, WriteFails(promise, delivered, linked));
    StepKeepsInv(c, Written(promise, true, linked));
    WriteKeepsInv(c, promise, true, linked);
    StillIssued(c, t.client);
    WriteFlight(s, promise, delivered, linked);
    WriteMatches(c, promise, linked, InFlight(s), InFlight(t), s.lossless, t.lossless);
  }

  lemma WriteMatches(c: Client, promise: nat, linked: set<Signal>, flight: multiset<RequestId>,
                     rest: multiset<RequestId>, lossless: bool, after: bool)
    requires Inv(c) && promise < |c.calls| && !Overtaken(c, promise, true) && Matches(c, flight, lossless)
    requires forall id :: rest[id] <= flight[id]
    requires after ==> lossless && rest == flight
    ensures Matches(AfterWrite(c, promise, true, linked), rest, after)
  {
    WriteKeepsInv(c, promise, true, linked);
    StillIssued(c, AfterWrite(c, promise, true, linked));
    forall id ensures rest[id] <= 1 && (id in rest ==> id in flight) {
      assert rest[id] <= flight[id] <= 1;
    }
  }

  lemma NextSound(s: System, step: Step)
    requires Sound(s) && AdmitsStep(s, step)
    ensures Sound(Next(s, step))
  {
    match step
    case Issue(id, signal) => IssueSound(s, id, signal);
    case FireSignals(signals) => FireSound(s, signals);
    case ParentReads => ParentSound(s, step);
    case ParentAnswers(_) => ParentSound(s, step);
    case ParentDetaches => ParentSound(s, step);
    case ClientReads(linked) => if s.toClient != [] { ReplySound(s, linked); }
    case WriteFails(promise, delivered, linked) =>
      if promise < |s.client.calls| { WriteSound(s, promise, delivered, linked); }
    case ClientEnds(linked) =>
      StepKeepsInv(s.client, StreamEnded(linked));
      DisconnectKeepsInv(s.client, linked);
      StillIssued(s.client, Next(s, step).client);
  }

  /** A step keeps the joint invariant exactly when it is admitted. */
  lemma NextExactly(s: System, step: Step)
    requires Sound(s)
    ensures Sound(Next(s, step)) <==> AdmitsStep(s, step)
  {
    if AdmitsStep(s, step) {
      NextSound(s, step);
    } else if step.Issue? {
      StepExactly(s.client, Exchange(step.id, step.signal, step.signal.Some? && step.signal.value in s.aborted));
    } else {
      StepExactly(s.client, Written(step.promise, true, step.linked));
    }
  }

  /**
   Why the ids the client holds must not be reused: as long as nothing was dropped, the line of such a
   request joins another one with its id, so that one of the two replies is for the other request.
   */
  lemma ReusedIdInFlightTwice(s: System, id: RequestId, signal: Option<Signal>)
    requires Sound(s) && s.lossless && !s.client.closed && !(signal.Some? && signal.value in s.aborted)
    ensures InFlight(Next(s, Issue(id, signal)))[id] == 2 <==> Expected(s.client, id)
    ensures InFlight(Next(s, Issue(id, signal)))[id] == 1 <==> !Expected(s.client, id)
  {
    IssueFlight(s, id, signal);
    assert InFlight(s)[id] <= 1 && (id in InFlight(s) <==> Expected(s.client, id));
  }

  lemma {:induction false} RunSound(s: System, steps: seq<Step>)
    requires Sound(s) && AdmittedSteps(s, steps)
    ensures Sound(RunAll(s, steps))
    decreases |steps|
  {
    if steps != [] {
      NextSound(s, steps[0]);
      RunSound(Next(s, steps[0]), steps[1..]);
    }
  }

  ghost predicate FreshSteps(s: System, steps: seq<Step>)
    decreases |steps|
  {
    steps == [] ||
    ((steps[0].Issue? ==> !Issued(s.client, steps[0].id)) && FreshSteps(Next(s, steps[0]), steps[1..]))
  }

  lemma FreshNext(s: System, step: Step)
    requires Sound(s) && UniqueIds(s.client) && (step.Issue? ==> !Issued(s.client, step.id))
    ensures AdmitsStep(s, step) && UniqueIds(Next(s, step).client)
  {
    match step
    case Issue(id, signal) => FreshStep(s.client, Exchange(id, signal, signal.Some? && signal.value in s.aborted));
    case FireSignals(signals) => FreshStep(s.client, Aborted(signals - s.aborted));
    case ClientReads(linked) =>
      if s.toClient != [] { FreshStep(s.client, Received(WellFormed(s.toClient[0]), linked)); }
    case WriteFails(promise, _, linked) => FreshStep(s.client, Written(promise, true, linked));
    case ClientEnds(linked) => FreshStep(s.client, StreamEnded(linked));
    case _ =>
  }

  /** Fresh ids are enough. */
  lemma {:induction false} FreshStepsAdmitted(s: System, steps: seq<Step>)
    requires Sound(s) && UniqueIds(s.client) && FreshSteps(s, steps)
    ensures AdmittedSteps(s, steps)
    decreases |steps|
  {
    if steps != [] {
      FreshNext(s, steps[0]);
      NextSound(s, steps[0]);
      FreshStepsAdmitted(Next(s, steps[0]), steps[1..]);
    }
  }

  /**
   In every reachable state of the joined system: no id is in flight twice; while the client is
   open every id in flight is either pending or abandoned, never both; and as long as nothing
   was dropped the converse holds too, so no pending request has been forgotten by anyone.
   */
  lemma FlightExact(steps: seq<Step>)
    requires AdmittedSteps(START, steps)
    ensures var s := RunAll(START, steps);
            && (forall id :: InFlight(s)[id] <= 1)
            && s.client.pending.Keys !! s.client.abandoned
            && (!s.client.closed ==> forall id :: id in InFlight(s) ==>
                  id in s.client.pending || id in s.client.abandoned)
            && (!s.client.closed && s.lossless ==>
                  forall id :: id in InFlight(s) <==> id in s.client.pending || id in s.client.abandoned)
  {
    assert InFlight(START) == multiset{};
    RunSound(START, steps);
  }

  lemma NextReply(s: System, linked: set<Signal>)
    requires Inv(s.client) && !s.client.closed && s.toClient != []
    requires Expected(s.client, s.toClient[0].requestId)
    ensures Expected(s.client, s.toClient[0].requestId)
            && ReplyLands(s.client, Next(s, ClientReads(linked)).client, s.toClient[0])
  {
    var c, reply := s.client, s.toClient[0];
    if reply.requestId in c.pending {
      var p := c.pending[reply.requestId].promise;
      assert Waiting(c, p);
      assert c.calls[p].outcomes + [Resolved(reply)] == [Resolved(reply)];
    }
  }

  /** `d` is `c` after `reply` settled its own request, or was discarded because that was aborted. */
  ghost predicate ReplyLands(c: Client, d: Client, reply: Reply) {
    && !d.closed
    && (if reply.requestId in c.pending then
          var p := c.pending[reply.requestId].promise;
          && p < |c.calls| && c.calls[p].id == reply.requestId && c.calls[p].outcomes == []
          && d.calls == c.calls[p := c.calls[p].(outcomes := [Resolved(reply)])]
          && d.abandoned == c.abandoned
        else
          && reply.requestId in c.abandoned
          && d.abandoned == c.abandoned - {reply.requestId}
          && d.calls == c.calls && d.pending == c.pending)
  }

  lemma NextReplyExpected(s: System)
    requires Sound(s) && !s.client.closed && s.toClient != []
    ensures Inv(s.client) && Expected(s.client, s.toClient[0].requestId)
  {
    PopReply(s.toClient);
    assert s.toClient[0].requestId in InFlight(s);
  }

  /**
   The disconnect on an unknown request id cannot happen: whatever the run, reading the next
   reply either settles the promise of exactly the request it answers, and no other, or takes
   one abandoned id off the table and settles nothing. Either way the client stays open.
   */
  lemma UnknownReplyUnreachable(steps: seq<Step>, linked: set<Signal>)
    requires AdmittedSteps(START, steps)
    requires !RunAll(START, steps).client.closed && RunAll(START, steps).toClient != []
    ensures var s := RunAll(START, steps);
            ReplyLands(s.client, Next(s, ClientReads(linked)).client, s.toClient[0])
  {
    assert InFlight(START) == multiset{};
    RunSound(START, steps);
    NextReplyExpected(RunAll(START, steps));
    NextReply(RunAll(START, steps), linked);
  }

  // ---------------------------------------------------------------- every request is answered in the end

  /** Both sides are there and nothing has been dropped. */
  ghost predicate Live(s: System) {
    Sound(s) && !s.client.closed && s.attached && s.lossless
  }

  /** The step moves something on: a request to the coordinator, its answer to the stream, a reply to the client. */
  predicate Delivers(s: System, step: Step) {
    match step
    case ParentReads => s.toParent != []
    case ParentAnswers(reply) => reply.requestId in s.working
    case ClientReads(_) => s.toClient != []
    case _ => false
  }

  ghost predicate AllDeliver(s: System, steps: seq<Step>)
    decreases |steps|
  {
    steps == [] || (Delivers(s, steps[0]) && AllDeliver(Next(s, steps[0]), steps[1..]))
  }

  /** How many steps are left: three for a request on its way, two for one being worked on, one for a reply. */
  ghost function Work(s: System): nat {
    3 * |s.toParent| + 2 * |s.working| + |s.toClient|
  }

  /** The same calls, some of the unsettled ones now resolved. */
  ghost predicate Answered(c: Client, d: Client) {
    && |d.calls| == |c.calls|
    && forall p :: 0 <= p < |c.calls| ==>
         || d.calls[p] == c.calls[p]
         || (c.calls[p].outcomes == [] && exists r :: d.calls[p] == c.calls[p].(outcomes := [Resolved(r)]))
  }

  lemma ReadsOn(s: System)
    requires Live(s) && s.toParent != []
    ensures Live(Next(s, ParentReads)) && Work(Next(s, ParentReads)) == Work(s) - 1
  {
    PopLine(s.toParent);
    assert s.toParent[0] in InFlight(s) && InFlight(s)[s.toParent[0]] == 1;
    assert s.toParent[0] !in s.working;
    ReadSound(s);
  }

  lemma AnswersOn(s: System, reply: Reply)
    requires Live(s) && reply.requestId in s.working
    ensures Live(Next(s, ParentAnswers(reply))) && Work(Next(s, ParentAnswers(reply))) == Work(s) - 1
  {
    AnswerSound(s, reply);
  }

  lemma ReplyOn(s: System, linked: set<Signal>)
    requires Live(s) && s.toClient != []
    ensures var t := Next(s, ClientReads(linked)); Live(t) && Work(t) == Work(s) - 1 && Answered(s.client, t.client)
  {
    ReplySound(s, linked);
    NextReplyExpected(s);
    NextReply(s, linked);
  }

  /** A delivery keeps the system live, leaves one step less and settles nothing but by a reply. */
  lemma DeliveryStep(s: System, step: Step)
    requires Live(s) && Delivers(s, step)
    ensures Live(Next(s, step)) && Work(Next(s, step)) == Work(s) - 1 && Answered(s.client, Next(s, step).client)
  {
    match step
    case ParentReads => ReadsOn(s);
    case ParentAnswers(reply) => AnswersOn(s, reply);
    case ClientReads(linked) => ReplyOn(s, linked);
  }

  lemma AnsweredTransitive(c: Client, d: Client, e: Client)
    requires Answered(c, d) && Answered(d, e)
    ensures Answered(c, e)
  {
  }

  lemma {:induction false} DeliveryRun(s: System, steps: seq<Step>)
    requires Live(s) && AllDeliver(s, steps)
    ensures var t := RunAll(s, steps); Live(t) && Work(t) == Work(s) - |steps| && Answered(s.client, t.client)
    decreases |steps|
  {
    if steps != [] {
      var t := Next(s, steps[0]);
      DeliveryStep(s, steps[0]);
      DeliveryRun(t, steps[1..]);
      AnsweredTransitive(s.client, t.client, RunAll(t, steps[1..]).client);
    }
  }

  lemma DeliverySome(s: System)
    requires Work(s) > 0
    ensures exists step :: Delivers(s, step)
  {
    if s.toClient != [] {
      assert Delivers(s, ClientReads({}));
    } else if s.toParent != [] {
      assert Delivers(s, ParentReads);
    } else {
      assert s.working != {};
      var id :| id in s.working;
      assert Delivers(s, ParentAnswers(Reply(id, true, "")));
    }
  }

  /** With nothing in flight no request is pending, so every promise is settled. */
  lemma DrainedIsSettled(s: System)
    requires Live(s) && Work(s) == 0
    ensures s.toParent == [] && s.working == {} && s.toClient == []
    ensures s.client.pending == map[] && s.client.abandoned == {}
    ensures forall p :: 0 <= p < |s.client.calls| ==> |s.client.calls[p].outcomes| == 1
  {
    assert Ids(s.toClient) == [] && InFlight(s) == multiset{};
    forall id ensures id !in s.client.pending && id !in s.client.abandoned {
      assert !Expected(s.client, id);
    }
    forall p | 0 <= p < |s.client.calls| ensures |s.client.calls[p].outcomes| == 1 {
      assert SettledRight(s.client.calls[p]) && !Waiting(s.client, p);
    }
  }

  /**
   However deliveries are scheduled, they end after exactly `Work(s)` of them, and then nothing is in
   flight and every promise is settled: those that were unsettled by a reply to their own request, the
   others as before.
   */
  lemma EveryDeliveryDrains(s: System, steps: seq<Step>)
    requires Live(s) && AllDeliver(s, steps)
    ensures |steps| <= Work(s)
    ensures |steps| == Work(s) <==> forall step :: !Delivers(RunAll(s, steps), step)
    ensures |steps| == Work(s) ==>
              var t := RunAll(s, steps);
              && Live(t) && t.toParent == [] && t.working == {} && t.toClient == [] && t.client.pending == map[]
              && |t.client.calls| == |s.client.calls|
              && forall p :: 0 <= p < |s.client.calls| ==>
                   if s.client.calls[p].outcomes != [] then t.client.calls[p] == s.client.calls[p]
                   else exists r: Reply ::
                          r.requestId == s.client.calls[p].id && t.client.calls[p].outcomes == [Resolved(r)]
  {
    var t := RunAll(s, steps);
    DeliveryRun(s, steps);
    if Work(t) > 0 {
      DeliverySome(t);
    } else {
      DrainedIsSettled(t);
      forall p | 0 <= p < |s.client.calls| && s.client.calls[p].outcomes == []
        ensures exists r: Reply :: r.requestId == s.client.calls[p].id && t.client.calls[p].outcomes == [Resolved(r)]
      {
        assert SettledRight(t.client.calls[p]);
        var r :| t.client.calls[p] == s.client.calls[p].(outcomes := [Resolved(r)]);
        assert t.client.calls[p].outcomes[0].reply == r;
      }
    }
  }

  /** Such a schedule exists from every live state. */
  lemma {:induction false} Drain(s: System) returns (steps: seq<Step>)
    requires Live(s)
    ensures AllDeliver(s, steps) && |steps| == Work(s)
    decreases Work(s)
  {
    steps := [];
    if Work(s) > 0 {
      DeliverySome(s);
      var step :| Delivers(s, step);
      DeliveryStep(s, step);
      var rest := Drain(Next(s, step));
      steps := [step] + rest;
      assert steps[1..] == rest;
    }
  }

  // ---------------------------------------------------------------- the two streams

  /** What each step does to the streams and to the coordinator's hands. */
  lemma StreamsExactly(s: System, reply: Reply, linked: set<Signal>)
    ensures var t := Next(s, ParentReads);
            if s.toParent == [] then t == s
            else t == s.(toParent := s.toParent[1..], working := s.working + {s.toParent[0]})
    ensures var t := Next(s, ParentAnswers(reply));
            && t.client == s.client && t.toParent == s.toParent && t.attached == s.attached
            && t.working == s.working - {reply.requestId}
            && t.toClient == s.toClient + (if reply.requestId in s.working && s.attached then [reply] else [])
            && t.lossless == (s.lossless && (s.attached || reply.requestId !in s.working))
    ensures Next(s, ParentDetaches) == s.(attached := false)
    ensures var t := Next(s, ClientReads(linked));
            && t.toParent == s.toParent && t.working == s.working && t.attached == s.attached
            && (s.toClient == [] ==> t == s)
            && (s.toClient != [] ==> t.toClient == s.toClient[1..])
  {
  }

  /** An accepted exchange puts its request on the stream, behind what is there; a rejected one puts nothing. */
  lemma IssueExactly(s: System, id: RequestId, signal: Option<Signal>)
    ensures var t := Next(s, Issue(id, signal));
            && t.toParent ==
               s.toParent + (if s.client.closed || (signal.Some? && signal.value in s.aborted) then [] else [id])
            && t.working == s.working && t.toClient == s.toClient && t.attached == s.attached
  {
    var t := Next(s, Issue(id, signal));
    var more := t.client.sent[|s.client.sent|..];
    assert more == if s.client.closed || (signal.Some? && signal.value in s.aborted) then [] else [id];
  }

  /** A failed write loses the request line when it was not delivered, and only that line. */
  lemma LostWriteExactly(s: System, promise: nat, delivered: bool, linked: set<Signal>)
    requires promise < |s.client.calls|
    ensures var t := Next(s, WriteFails(promise, delivered, linked));
            && t.working == s.working && t.toClient == s.toClient && t.lossless == (s.lossless && delivered)
            && forall id :: multiset(t.toParent)[id] ==
                            if !delivered && id == s.client.calls[promise].id then 0 else multiset(s.toParent)[id]
  {
    WithoutCount(s.toParent, s.client.calls[promise].id);
  }

  lemma DetachedStep(s: System, step: Step)
    requires !s.attached
    ensures var t := Next(s, step);
            !t.attached && (t.toClient == s.toClient || (s.toClient != [] && t.toClient == s.toClient[1..]))
  {
  }

  /** Once the parent has detached the child no reply is sent to it any more: what is under way is all there is. */
  lemma {:induction false} DetachedIsSilent(s: System, steps: seq<Step>)
    requires !s.attached
    ensures var t := RunAll(s, steps);
            && !t.attached && |t.toClient| <= |s.toClient|
            && t.toClient == s.toClient[|s.toClient| - |t.toClient|..]
    decreases |steps|
  {
    if steps != [] {
      DetachedStep(s, steps[0]);
      DetachedIsSilent(Next(s, steps[0]), steps[1..]);
    }
  }
}
