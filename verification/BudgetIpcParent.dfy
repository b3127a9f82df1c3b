/**
 The parent side of the budget IPC channel: `ComparisonBudgetIpcCoordinator` and the closures
 its `attach` creates, one record per child that was attached.
 */
module BudgetIpcParent {
  import opened Common
  import opened BudgetIpcClient

  /** The variables one `attach` call closes over, and what reached the child process. */
  datatype Child = Child(detached: bool, reading: bool, stdinEnded: bool, terminated: bool, written: seq<Reply>)

  const ATTACHED := Child(false, true, false, false, [])

  datatype Parent = Parent(closed: bool, ledgerStopped: bool, children: set<nat>, records: seq<Child>)

  const FRESH := Parent(false, false, {}, [])

  datatype Attachment = Refused | Unpiped | Attached(child: nat)

  // ---------------------------------------------------------------- handlers

  function AfterAttach(p: Parent, piped: bool): Parent {
    if p.closed || p.ledgerStopped then p.(closed := true)
    else if !piped then p
    else p.(records := p.records + [ATTACHED], children := p.children + {|p.records|})
  }

  /** The closure `attached.close`. */
  function AfterCloseChild(p: Parent, child: nat): Parent
    requires child < |p.records|
  {
    if p.records[child].detached then p
    else
      p.(records := p.records[child := p.records[child].(
                      detached := true, reading := false, stdinEnded := true, terminated := true)],
         children := p.children - {child})
  }

  /** The closure `detach`, run when the child's output closes or the child exits or errors. */
  function AfterDetach(p: Parent, child: nat): Parent
    requires child < |p.records|
  {
    if p.records[child].detached then p
    else
      p.(records := p.records[child := p.records[child].(detached := true, reading := false)],
         children := p.children - {child})
  }

  /** The coordinator's answer arrives; `stdinGone` says the child's input was destroyed. */
  function AfterReply(p: Parent, child: nat, reply: Reply, stdinGone: bool): Parent
    requires child < |p.records|
  {
    if p.records[child].detached || stdinGone then p
    else p.(records := p.records[child := p.records[child].(written := p.records[child].written + [reply])])
  }

  /** The records of the children in `closing` after their `close` has run. */
  function CloseRecords(records: seq<Child>, closing: set<nat>): (r: seq<Child>)
    ensures |r| == |records|
  {
    seq(|records|, i requires 0 <= i < |records| =>
      if i in closing && !records[i].detached
      then records[i].(detached := true, reading := false, stdinEnded := true, terminated := true)
      else records[i])
  }

  /** `close`: the children go even when closing the ledger throws. */
  function AfterClose(p: Parent): Parent {
    Parent(true, true, {}, CloseRecords(p.records, p.children))
  }

  // ---------------------------------------------------------------- invariant and runs

  /** The set of children is exactly the set of records not detached yet. */
  ghost predicate Valid(p: Parent) {
    && (forall i :: i in p.children <==> 0 <= i < |p.records| && !p.records[i].detached)
    && (forall i :: 0 <= i < |p.records| ==> (p.records[i].reading <==> !p.records[i].detached))
  }

  datatype Event =
    | Attach(piped: bool)
    | BadLine(child: nat)
    | Answer(child: nat, reply: Reply, stdinGone: bool)
    | WriteError(child: nat)
    | ChildGone(child: nat)
    | LedgerStops
    | Close

  function After(p: Parent, e: Event): Parent {
    match e
    case Attach(piped) => AfterAttach(p, piped)
    case BadLine(child) => if child < |p.records| then AfterCloseChild(p, child) else p
    case Answer(child, reply, gone) => if child < |p.records| then AfterReply(p, child, reply, gone) else p
    case WriteError(child) => if child < |p.records| then AfterCloseChild(p, child) else p
    case ChildGone(child) => if child < |p.records| then AfterDetach(p, child) else p
    case LedgerStops => p.(ledgerStopped := true)
    case Close => AfterClose(p)
  }

  function Run(p: Parent, events: seq<Event>): Parent
    decreases |events|
  {
    if events == [] then p else Run(After(p, events[0]), events[1..])
  }

  lemma StepKeepsValid(p: Parent, e: Event)
    requires Valid(p)
    ensures Valid(After(p, e))
  {
  }

  lemma {:induction false} RunKeepsValid(p: Parent, events: seq<Event>)
    requires Valid(p)
    ensures Valid(Run(p, events))
    decreases |events|
  {
    if events != [] {
      StepKeepsValid(p, events[0]);
      RunKeepsValid(After(p, events[0]), events[1..]);
    }
  }

  /**
   A detached child stays detached and nothing is ever written to it again, whatever answers
   are still on their way to it.
   */
  lemma {:induction false} DetachedChildIsSilent(p: Parent, child: nat, events: seq<Event>)
    requires child < |p.records| && p.records[child].detached
    ensures var q := Run(p, events);
            child < |q.records| && q.records[child].detached && q.records[child].written == p.records[child].written
    decreases |events|
  {
    if events != [] {
      DetachedChildIsSilent(After(p, events[0]), child, events[1..]);
    }
  }

  /** No child joins a closed coordinator, whatever happens to it afterwards. */
  lemma {:induction false} ClosedAcceptsNobody(p: Parent, events: seq<Event>)
    requires Valid(p) && p.closed
    ensures var q := Run(p, events);
            Valid(q) && q.closed && q.children <= p.children && |q.records| == |p.records|
    decreases |events|
  {
    if events != [] {
      ClosedAcceptsNobody(After(p, events[0]), events[1..]);
    }
  }

  /** `close` leaves no child, terminates each one it found and stays effective for ever. */
  lemma CloseIsFinal(before: seq<Event>, after: seq<Event>)
    ensures var p := Run(FRESH, before);
            var q := Run(After(p, Close), after);
            && q.closed && q.children == {} && |q.records| == |p.records|
            && forall i :: i in p.children ==>
                 && i < |q.records| && q.records[i].detached && q.records[i].terminated
                 && q.records[i].written == p.records[i].written
  {
    var p := Run(FRESH, before);
    RunKeepsValid(FRESH, before);
    ClosedAcceptsNobody(After(p, Close), after);
    forall i | i in p.children
      ensures var q := Run(After(p, Close), after);
              && i < |q.records| && q.records[i].detached && q.records[i].terminated
              && q.records[i].written == p.records[i].written
    {
      StaysTerminated(After(p, Close), i, after);
    }
  }

  lemma {:induction false} StaysTerminated(p: Parent, child: nat, events: seq<Event>)
    requires child < |p.records| && p.records[child].detached
    ensures var q := Run(p, events); child < |q.records| && q.records[child] == p.records[child]
    decreases |events|
  {
    if events != [] {
      StaysTerminated(After(p, events[0]), child, events[1..]);
    }
  }

  /**
   "Closed implies no children" is not an invariant: `attach` latches `closed` when it finds the
   ledger stopped, and does not touch the children attached before.
   */
  lemma RefusedAttachLeavesChildren()
    ensures var p := Run(FRESH, [Attach(true), LedgerStops, Attach(true)]);
            p.closed && p.children == {0} && !p.records[0].detached
  {
    var events := [Attach(true), LedgerStops, Attach(true)];
    assert events[1..] == [LedgerStops, Attach(true)];
    assert events[1..][1..] == [Attach(true)];
    assert events[1..][1..][1..] == [];
    var one := After(FRESH, Attach(true));
    var two := After(one, LedgerStops);
    assert Run(FRESH, events) == Run(one, events[1..]) == Run(two, [Attach(true)])
        == Run(After(two, Attach(true)), []);
  }

  /**
   Exactly when a single step closes a coordinator over children it still has: an `attach` on an
   open coordinator whose ledger has stopped while it has a child.
   */
  lemma ClosedWithChildrenExactly(p: Parent, e: Event)
    requires Valid(p) && !p.closed
    ensures (After(p, e).closed && After(p, e).children != {}) <==>
            (e.Attach? && p.ledgerStopped && p.children != {})
  {
    assert e.Close? ==> After(p, e).children == {};
  }

  /** So in a whole run a closed coordinator with children has a stopped ledger and was never `close`d. */
  lemma {:induction false} ClosedWithChildrenInRun(p: Parent, events: seq<Event>)
    requires Valid(p) && (p.closed && p.children != {} ==> p.ledgerStopped)
    ensures var q := Run(p, events);
            q.closed && q.children != {} ==> q.ledgerStopped && Close !in events
    decreases |events|
  {
    if events != [] {
      var q := After(p, events[0]);
      ClosedWithChildrenInRun(q, events[1..]);
      if events[0].Close? {
        ClosedAcceptsNobody(q, events[1..]);
      }
    }
  }

  ghost predicate ClosedWithChildren(p: Parent) {
    p.closed && p.children != {}
  }

  /** Some state of the run is a closed coordinator with children. */
  ghost predicate PassesClosedWithChildren(p: Parent, events: seq<Event>)
    decreases |events|
  {
    ClosedWithChildren(p) || (events != [] && PassesClosedWithChildren(After(p, events[0]), events[1..]))
  }

  /** Some event of the run is an `attach` on an open coordinator with children and a stopped ledger. */
  ghost predicate AttachesTooLate(p: Parent, events: seq<Event>)
    decreases |events|
  {
    && events != []
    && (|| (events[0].Attach? && !p.closed && p.ledgerStopped && p.children != {})
        || AttachesTooLate(After(p, events[0]), events[1..]))
  }

  /** Exactly the runs that pass through a closed coordinator with children. */
  lemma {:induction false} ClosedWithChildrenRunExactly(p: Parent, events: seq<Event>)
    requires Valid(p) && !ClosedWithChildren(p)
    ensures PassesClosedWithChildren(p, events) <==> AttachesTooLate(p, events)
    decreases |events|
  {
    if events != [] {
      var q := After(p, events[0]);
      assert q == Run(p, [events[0]]) by {
        assert [events[0]][1..] == [];
      }
      RunKeepsValid(p, [events[0]]);
      if p.closed {
        ClosedAcceptsNobody(p, [events[0]]);
      } else {
        ClosedWithChildrenExactly(p, events[0]);
      }
      if !ClosedWithChildren(q) {
        ClosedWithChildrenRunExactly(q, events[1..]);
      }
    }
  }

  // ---------------------------------------------------------------- what a child sees

  /** An answer is written to its child exactly while that is attached with a live input, and to nobody else. */
  lemma AnswerExactly(p: Parent, i: nat, reply: Reply, stdinGone: bool)
    requires Valid(p) && i < |p.records|
    ensures var q := After(p, Answer(i, reply, stdinGone));
            && q.closed == p.closed && q.ledgerStopped == p.ledgerStopped && q.children == p.children
            && |q.records| == |p.records|
            && (q.records[i].written == p.records[i].written + [reply] <==> i in p.children && !stdinGone)
            && (!(i in p.children && !stdinGone) ==> q.records[i].written == p.records[i].written)
            && q.records[i].(written := []) == p.records[i].(written := [])
            && forall j :: 0 <= j < |p.records| && j != i ==> q.records[j] == p.records[j]
  {
    assert |p.records[i].written + [reply]| != |p.records[i].written|;
  }

  /** What an attach does: a refusal only latches `closed`, a child without pipes leaves nothing behind. */
  lemma AttachExactly(p: Parent, piped: bool)
    requires Valid(p)
    ensures var q := After(p, Attach(piped));
            && q.ledgerStopped == p.ledgerStopped
            && (q.closed <==> p.closed || p.ledgerStopped)
            && (if q.closed || !piped then q.records == p.records && q.children == p.children
                else
                  && q.records == p.records + [Child(false, true, false, false, [])]
                  && q.children == p.children + {|p.records|})
  {
  }

  /** The events that end the attachment of a child. */
  predicate EndsChild(e: Event, i: nat) {
    e == BadLine(i) || e == WriteError(i) || e == ChildGone(i) || e == Close
  }

  function FirstEnd(i: nat, events: seq<Event>): Option<Event> {
    if events == [] then None else if EndsChild(events[0], i) then Some(events[0]) else FirstEnd(i, events[1..])
  }

  /** What an event brings a child that is attached. */
  function Brings(e: Event, i: nat): seq<Reply> {
    if e.Answer? && e.child == i && !e.stdinGone then [e.reply] else []
  }

  /** The answers that find the child attached and its input alive. */
  function Delivered(i: nat, events: seq<Event>): seq<Reply> {
    if events == [] || EndsChild(events[0], i) then [] else Brings(events[0], i) + Delivered(i, events[1..])
  }

  /**
   The whole life of an attached child: it is written exactly the answers for it that come while its
   input is alive and before its attachment ends, in order; a bad line, a failed write or the closing of
   the coordinator terminates it, its own departure does not; and it reads on until then.
   */
  lemma {:induction false} ChildLife(p: Parent, i: nat, events: seq<Event>)
    requires Valid(p) && i in p.children
    ensures var q, end, was := Run(p, events), FirstEnd(i, events), p.records[i];
            && i < |q.records| && (i in q.children <==> end.None?)
            && q.records[i].written == was.written + Delivered(i, events)
            && (q.records[i].detached <==> end.Some?) && (q.records[i].reading <==> end.None?)
            && (q.records[i].terminated <==> was.terminated || (end.Some? && !end.value.ChildGone?))
            && (q.records[i].stdinEnded <==> was.stdinEnded || (end.Some? && !end.value.ChildGone?))
    decreases |events|
  {
    if events != [] {
      var e, q := events[0], After(p, events[0]);
      StepKeepsValid(p, e);
      if EndsChild(e, i) {
        ChildEnds(p, i, e);
        StaysTerminated(q, i, events[1..]);
        RunKeepsValid(q, events[1..]);
      } else {
        ChildStays(p, i, e);
        ChildLife(q, i, events[1..]);
        assert p.records[i].written + Brings(e, i) + Delivered(i, events[1..])
            == p.records[i].written + Delivered(i, events);
      }
    }
  }

  lemma ChildEnds(p: Parent, i: nat, e: Event)
    requires Valid(p) && i in p.children && EndsChild(e, i)
    ensures var q, off := After(p, e), p.records[i].(detached := true, reading := false);
            && i < |q.records|
            && q.records[i] == if e.ChildGone? then off else off.(stdinEnded := true, terminated := true)
  {
  }

  lemma ChildStays(p: Parent, i: nat, e: Event)
    requires Valid(p) && i in p.children && !EndsChild(e, i)
    ensures var q, was := After(p, e), p.records[i];
            i in q.children && i < |q.records| && q.records[i] == was.(written := was.written + Brings(e, i))
  {
    assert p.records[i].written + [] == p.records[i].written;
  }

  // ---------------------------------------------------------------- the coordinator, step by step

  class IpcCoordinator {
    var closed: bool
    var ledgerStopped: bool
    var children: set<nat>
    var records: seq<Child>

    ghost function State(): Parent
      reads this
    {
      Parent(closed, ledgerStopped, children, records)
    }

    constructor ()
      ensures State() == FRESH && Valid(State())
    {
      closed, ledgerStopped, children, records := false, false, {}, [];
    }

    method Attach(piped: bool) returns (r: Attachment)
      requires Valid(State())
      modifies this
      ensures State() == AfterAttach(old(State()), piped) && Valid(State())
      ensures r == if old(closed || ledgerStopped) then Refused
                   else if !piped then Unpiped else Attached(|old(records)|)
    {
      if closed || ledgerStopped {
        closed := true;
        return Refused;
      }
      if !piped {
        return Unpiped;
      }
      r := Attached(|records|);
      children := children + {|records|};
      records := records + [ATTACHED];
    }

    method CloseChild(child: nat)
      requires Valid(State()) && child < |records|
      modifies this`children, this`records
      ensures State() == AfterCloseChild(old(State()), child) && Valid(State())
    {
      var record := records[child];
      if record.detached { return; }
      children := children - {child};
      records := records[child := record.(detached := true, reading := false, stdinEnded := true, terminated := true)];
    }

    method Detach(child: nat)
      requires Valid(State()) && child < |records|
      modifies this`children, this`records
      ensures State() == AfterDetach(old(State()), child) && Valid(State())
    {
      var record := records[child];
      if record.detached { return; }
      children := children - {child};
      records := records[child := record.(detached := true, reading := false)];
    }

    method OnReply(child: nat, reply: Reply, stdinGone: bool)
      requires Valid(State()) && child < |records|
      modifies this`records
      ensures State() == AfterReply(old(State()), child, reply, stdinGone) && Valid(State())
    {
      var record := records[child];
      if record.detached || stdinGone { return; }
      records := records[child := record.(written := record.written + [reply])];
    }

    method Close()
      requires Valid(State())
      modifies this
      ensures State() == AfterClose(old(State())) && Valid(State())
    {
      closed := true;
      ledgerStopped := true;
      ghost var before := records;
      ghost var done: set<nat> := {};
      while children != {}
        invariant Valid(State()) && closed && ledgerStopped
        invariant done + children == old(children) && done !! children
        invariant records == CloseRecords(before, done)
        decreases children
      {
        var child :| child in children;
        CloseChild(child);
        done := done + {child};
      }
      assert done == old(children);
    }
  }
}
