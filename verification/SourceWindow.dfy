/**
 The owned window every request of every worker is reserved in before it is sent. The receipts on
 disk become two fields: reservation `n` is entry `n - 1` of `reserved`, and `outcomes` holds the
 outcome files.
 */
module SourceWindow {
  import opened Common
  import opened UrlIdentity

  const SOURCE_WINDOW_MAX := 1200

  datatype Request = Request(worker: string, url: Url)

  datatype Outcome = FetchFailed | Answered(status: int, finalUrl: Option<Url>)

  datatype Window = Window(max: nat, reserved: seq<Request>, outcomes: map<nat, Outcome>)

  predicate IsSeq(w: Window, s: nat) {
    1 <= s <= |w.reserved|
  }

  ghost predicate Sound(w: Window) {
    && 1 <= w.max <= SOURCE_WINDOW_MAX
    && |w.reserved| <= w.max
    && (forall s :: s in w.outcomes ==> IsSeq(w, s))
  }

  function AfterReserve(w: Window, r: Request): Window {
    if |w.reserved| >= w.max then w else w.(reserved := w.reserved + [r])
  }

  /** Outcomes are written once: a second one, or one for a number never reserved, is refused. */
  function AfterRecord(w: Window, s: nat, o: Outcome): Window {
    if IsSeq(w, s) && s !in w.outcomes then w.(outcomes := w.outcomes[s := o]) else w
  }

  /** A list of reservations, one after the other. */
  function AfterAll(w: Window, requests: seq<Request>): Window {
    if requests == [] then w
    else AfterReserve(AfterAll(w, requests[..|requests| - 1]), requests[|requests| - 1])
  }

  class SharedWindow {
    const max: nat
    var reserved: seq<Request>
    var outcomes: map<nat, Outcome>

    ghost function State(): Window
      reads this
    {
      Window(max, reserved, outcomes)
    }

    constructor (max: nat)
      requires 1 <= max <= SOURCE_WINDOW_MAX
      ensures State() == Window(max, [], map[]) && Sound(State())
    {
      this.max := max;
      reserved := [];
      outcomes := map[];
    }

    /** The next number, or nothing when the window is exhausted. */
    method Reserve(r: Request) returns (s: Option<nat>)
      requires Sound(State())
      modifies this`reserved
      ensures Sound(State()) && State() == AfterReserve(old(State()), r)
      ensures s.None? <==> |old(reserved)| >= max
      ensures s.Some? ==> s.value == |reserved| && s.value !in outcomes && reserved[s.value - 1] == r
    {
      if |reserved| >= max {
        return None;
      }
      reserved := reserved + [r];
      return Some(|reserved|);
    }

    method Record(s: nat, o: Outcome) returns (ok: bool)
      requires Sound(State())
      modifies this`outcomes
      ensures Sound(State()) && State() == AfterRecord(old(State()), s, o)
      ensures ok <==> 1 <= s <= |reserved| && s !in old(outcomes)
      ensures outcomes == if ok then old(outcomes)[s := o] else old(outcomes)
    {
      ok := 1 <= s <= |reserved| && s !in outcomes;
      if ok {
        outcomes := outcomes[s := o];
      }
    }

    /** Reservations of other workers and processes that share the window. */
    method Others(requests: seq<Request>)
      requires Sound(State())
      modifies this`reserved
      ensures Sound(State()) && old(reserved) <= reserved
      ensures State() == AfterAll(old(State()), requests)
    {
      for n := 0 to |requests|
        invariant Sound(State()) && old(reserved) <= reserved
        invariant State() == AfterAll(old(State()), requests[..n])
      {
        assert requests[..n + 1][..n] == requests[..n];
        var _ := Reserve(requests[n]);
      }
      assert requests[..|requests|] == requests;
    }
  }

  /**
   The cap of one invocation: what is left of the window, or a smaller number asked for. `raw` is the
   flag if given, and its digits if it consists of digits. A window with nothing left refuses first.
   */
  function ParseInvocationCap(raw: Option<Option<nat>>, remaining: nat): (r: Result<nat>)
    ensures r.Ok? ==> 1 <= r.value <= remaining
    ensures r.Ok? <==>
            && remaining > 0
            && (raw.Some? ==>
                  raw.value.Some? && 1 <= raw.value.value <= remaining && raw.value.value <= 1200)
    ensures r.Ok? ==> r.value == if raw.None? then remaining else raw.value.value
  {
    if remaining == 0 then Err("source_window_exhausted")
    else if raw.None? then Result.Ok(remaining)
    else if raw.value.None? then Err("invalid_attempt_cap")
    else
      var n := raw.value.value;
      if n < 1 || n > SOURCE_WINDOW_MAX || n > remaining then Err("invalid_attempt_cap") else Result.Ok(n)
  }

  // ---------------------------------------------------------------- whole runs

  datatype Event = Reserving(r: Request) | Recording(s: nat, o: Outcome)

  function After(w: Window, e: Event): Window {
    match e
    case Reserving(r) => AfterReserve(w, r)
    case Recording(s, o) => AfterRecord(w, s, o)
  }

  function Run(w: Window, events: seq<Event>): Window {
    if events == [] then w else After(Run(w, events[..|events| - 1]), events[|events| - 1])
  }

  ghost predicate Extends(w: Window, v: Window) {
    && w.max == v.max && w.reserved <= v.reserved
    && (forall s :: s in w.outcomes ==> s in v.outcomes && v.outcomes[s] == w.outcomes[s])
  }

  lemma StepExtends(w: Window, e: Event)
    requires Sound(w)
    ensures Sound(After(w, e)) && Extends(w, After(w, e))
  {
    var v := After(w, e);
    forall s | s in v.outcomes ensures IsSeq(v, s) {
      assert IsSeq(w, s);
    }
  }

  lemma ExtendsTransitive(u: Window, w: Window, v: Window)
    requires Extends(u, w) && Extends(w, v)
    ensures Extends(u, v)
  {
  }

  /** Over any interleaving of workers: never over the allocation, nothing refunded, nothing rewritten. */
  lemma {:induction false} NeverOverspent(w: Window, events: seq<Event>)
    requires Sound(w)
    ensures var v := Run(w, events);
            Sound(v) && |v.reserved| <= w.max && Extends(w, v)
  {
    if events != [] {
      var n := |events| - 1;
      var u := Run(w, events[..n]);
      NeverOverspent(w, events[..n]);
      StepExtends(u, events[n]);
      ExtendsTransitive(w, u, After(u, events[n]));
    }
  }

  /** The requests of a run, in order. */
  function Requests(events: seq<Event>): seq<Request> {
    if events == [] then []
    else
      var n := |events| - 1;
      Requests(events[..n]) + (if events[n].Reserving? then [events[n].r] else [])
  }

  /** What a run reserves: its requests in order, as many as there is room for. */
  lemma {:induction false} ReservedExactly(w: Window, events: seq<Event>)
    requires Sound(w)
    ensures var room, all := w.max - |w.reserved|, Requests(events);
            Run(w, events).reserved == w.reserved + (if |all| <= room then all else all[..room])
    ensures Run(w, events).max == w.max
  {
    if events != [] {
      var n := |events| - 1;
      ReservedExactly(w, events[..n]);
      var earlier, room := Requests(events[..n]), w.max - |w.reserved|;
      if events[n].Reserving? && |earlier| >= room {
        assert (earlier + [events[n].r])[..room] == earlier[..room];
        assert earlier[..room] == if |earlier| <= room then earlier else earlier[..room];
      }
    }
  }

  function SpentBy(reserved: seq<Request>, worker: string): nat {
    if reserved == [] then 0
    else SpentBy(reserved[..|reserved| - 1], worker) + (if reserved[|reserved| - 1].worker == worker then 1 else 0)
  }

  function SpentByAll(reserved: seq<Request>, workers: seq<string>): nat {
    if workers == [] then 0
    else SpentByAll(reserved, workers[..|workers| - 1]) + SpentBy(reserved, workers[|workers| - 1])
  }

  ghost predicate Distinct(workers: seq<string>) {
    forall i, j :: 0 <= i < j < |workers| ==> workers[i] != workers[j]
  }

  lemma {:induction false} OneMore(reserved: seq<Request>, r: Request, workers: seq<string>)
    requires Distinct(workers)
    ensures SpentByAll(reserved + [r], workers) ==
            SpentByAll(reserved, workers) + (if r.worker in workers then 1 else 0)
  {
    if workers != [] {
      var n := |workers| - 1;
      OneMore(reserved, r, workers[..n]);
      assert (reserved + [r])[..|reserved|] == reserved;
      assert workers == workers[..n] + [workers[n]];
    }
  }

  lemma {:induction false} SharesFit(reserved: seq<Request>, workers: seq<string>)
    requires Distinct(workers)
    ensures SpentByAll(reserved, workers) <= |reserved|
    ensures (forall r :: r in reserved ==> r.worker in workers) ==> SpentByAll(reserved, workers) == |reserved|
  {
    if reserved == [] {
      NothingSpent(workers);
    } else {
      var n := |reserved| - 1;
      SharesFit(reserved[..n], workers);
      OneMore(reserved[..n], reserved[n], workers);
      assert reserved == reserved[..n] + [reserved[n]];
    }
  }

  lemma {:induction false} NothingSpent(workers: seq<string>)
    ensures SpentByAll([], workers) == 0
  {
    if workers != [] {
      NothingSpent(workers[..|workers| - 1]);
    }
  }

  /**
   However the workers interleave, what they spent adds up to the reservations and stays inside the
   allocation, whatever caps they started with.
   */
  lemma {:induction false} WorkersShareTheWindow(max: nat, events: seq<Event>, workers: seq<string>)
    requires 1 <= max <= SOURCE_WINDOW_MAX && Distinct(workers)
    ensures var v := Run(Window(max, [], map[]), events);
            && SpentByAll(v.reserved, workers) <= |v.reserved| <= max
            && ((forall r :: r in v.reserved ==> r.worker in workers) ==>
                SpentByAll(v.reserved, workers) == |v.reserved|)
  {
    NeverOverspent(Window(max, [], map[]), events);
    SharesFit(Run(Window(max, [], map[]), events).reserved, workers);
  }
}
