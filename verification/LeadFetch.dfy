/**
 `fetchLeadPage`: one curated page, fetched over at most five hops. Every hop is gated, reserved in
 the shared window and receipted. The network, the proof over the page and the schema are arbitrary
 functions; the answer to a request may depend on its number, so the network may change its mind.
 */
module LeadFetch {
  import opened Common
  import opened UrlIdentity
  import opened SourceWindow

  const MAX_HOPS := 5

  datatype Lead = Lead(url: Url, domain: string)

  datatype Response = Response(status: int, location: Option<string>, html: string)

  datatype World = World(
    allowed: Url -> bool,
    excluded: Url -> bool,
    respond: (nat, Url) -> Option<Response>,        // None: the transport failed
    resolve: (string, Url) -> Option<Url>,          // None: the location does not parse
    proof: (Lead, Url, string) -> Option<string>,
    valid: string -> bool,
    others: nat -> seq<Request>)                    // what other workers reserve before our n-th

  datatype Hop = Hop(seqNo: nat, url: Url)

  datatype Reason =
    | InvocationCapReached | UrlPolicyRefused | HostDenied | WindowExhausted | FetchError
    | RedirectWithoutLocation | CrossSiteRedirectRefused | HttpStatus(status: int)
    | ExcludedPostRedirectAlias | IdentityProofFailed | SchemaInvalid | HopLimitReached

  datatype Page =
    | ExcludedPrefetch
    | Kept(row: string, finalUrl: Url, seqs: seq<nat>)
    | Failed(reason: Reason, seqs: seq<nat>)

  // ---------------------------------------------------------------- what an answer means

  predicate IsDenial(status: int) {
    status == 401 || status == 403 || status == 429 || status == 451
  }

  predicate Denies(w: World, h: Hop) {
    var res := w.respond(h.seqNo, h.url);
    res.Some? && IsDenial(res.value.status)
  }

  function Root(h: Hop): string {
    SiteRoot(h.url.host)
  }

  /** Where a redirect points, if the answer is one and its location parses. */
  function Target(w: World, h: Hop): Option<Url> {
    var res := w.respond(h.seqNo, h.url);
    if res.Some? && 300 <= res.value.status < 400 && res.value.location.Some?
    then w.resolve(res.value.location.value, h.url)
    else None
  }

  /** The redirect that is followed: https and on the same site. */
  function Followed(w: World, h: Hop): Option<Url> {
    var next := Target(w, h);
    if next.Some? && next.value.scheme == "https" && SameSite(next.value, h.url) then next else None
  }

  /** A redirect whose location does not parse: it throws and ends the whole run, with nothing written. */
  predicate Unresolved(w: World, h: Hop) {
    var res := w.respond(h.seqNo, h.url);
    && res.Some? && 300 <= res.value.status < 400 && res.value.location.Some?
    && w.resolve(res.value.location.value, h.url).None?
  }

  /** The row the answer proves, if it does and the row is admissible. */
  function Delivers(w: World, lead: Lead, h: Hop): Option<string> {
    var res := w.respond(h.seqNo, h.url);
    if res.None? || res.value.status < 200 || 300 <= res.value.status || w.excluded(h.url) then None
    else
      var row := w.proof(lead, h.url, res.value.html);
      if row.Some? && w.valid(row.value) then row else None
  }

  /** What an answer must be for a page to fail on it with this reason. */
  predicate Cause(w: World, lead: Lead, h: Hop, reason: Reason) {
    var res := w.respond(h.seqNo, h.url);
    if res.None? then reason == FetchError
    else
      var status, row := res.value.status, w.proof(lead, h.url, res.value.html);
      match reason
      case HostDenied => IsDenial(status)
      case RedirectWithoutLocation => 300 <= status < 400 && res.value.location.None?
      case CrossSiteRedirectRefused => Target(w, h).Some? && Followed(w, h).None?
      case HttpStatus(s) => status == s && !IsDenial(s) && !(200 <= s < 400)
      case ExcludedPostRedirectAlias => 200 <= status < 300 && w.excluded(h.url)
      case IdentityProofFailed => 200 <= status < 300 && !w.excluded(h.url) && row.None?
      case SchemaInvalid => 200 <= status < 300 && !w.excluded(h.url) && row.Some? && !w.valid(row.value)
      case _ => false
  }

  /** Every answer is followed, throws, delivers a row or fails, and only one of these, for one reason. */
  lemma OneEnding(w: World, lead: Lead, h: Hop)
    ensures Followed(w, h).Some? || Unresolved(w, h) || Delivers(w, lead, h).Some? || exists r :: Cause(w, lead, h, r)
    ensures !(Followed(w, h).Some? && (Unresolved(w, h) || Delivers(w, lead, h).Some?))
    ensures !(Unresolved(w, h) && Delivers(w, lead, h).Some?)
    ensures forall r :: Cause(w, lead, h, r) ==>
              Followed(w, h).None? && !Unresolved(w, h) && Delivers(w, lead, h).None?
    ensures forall r, q :: Cause(w, lead, h, r) && Cause(w, lead, h, q) ==> r == q
  {
    var res := w.respond(h.seqNo, h.url);
    var reason :=
      if res.None? then FetchError
      else if IsDenial(res.value.status) then HostDenied
      else if 300 <= res.value.status < 400 then
        if res.value.location.None? then RedirectWithoutLocation else CrossSiteRedirectRefused
      else if res.value.status < 200 || 300 <= res.value.status then HttpStatus(res.value.status)
      else if w.excluded(h.url) then ExcludedPostRedirectAlias
      else if w.proof(lead, h.url, res.value.html).None? then IdentityProofFailed
      else SchemaInvalid;
    if Followed(w, h).None? && !Unresolved(w, h) && Delivers(w, lead, h).None? {
      assert Cause(w, lead, h, reason);
    }
  }

  /** The receipt of a hop. */
  function Receipt(w: World, h: Hop): Outcome {
    var res := w.respond(h.seqNo, h.url);
    if res.None? then FetchFailed
    else if 200 <= res.value.status < 300 then Answered(res.value.status, Some(h.url))
    else
      var next := Target(w, h);
      Answered(res.value.status, if next.Some? && next.value.scheme == "https" then next else None)
  }

  /** Four statuses deny the host: the page fails, and the receipt names no final URL. */
  lemma DenialExactly(w: World, lead: Lead, h: Hop)
    ensures Denies(w, h) <==>
            var res := w.respond(h.seqNo, h.url);
            res.Some? && (res.value.status == 401 || res.value.status == 403 || res.value.status == 429 ||
                          res.value.status == 451)
    ensures Denies(w, h) <==> w.respond(h.seqNo, h.url).Some? && Cause(w, lead, h, HostDenied)
    ensures Denies(w, h) ==> Receipt(w, h) == Answered(w.respond(h.seqNo, h.url).value.status, None)
  {
  }

  /** A redirect is followed exactly when its location parses to an https URL of the same site. */
  lemma RedirectExactly(w: World, lead: Lead, h: Hop, res: Response)
    requires w.respond(h.seqNo, h.url) == Some(res) && 300 <= res.status < 400
    ensures res.location.None? ==>
              Cause(w, lead, h, RedirectWithoutLocation) && Receipt(w, h) == Answered(res.status, None)
    ensures res.location.Some? && w.resolve(res.location.value, h.url).None? ==> Unresolved(w, h)
    ensures res.location.Some? && w.resolve(res.location.value, h.url).Some? ==>
              var next := w.resolve(res.location.value, h.url).value;
              && Receipt(w, h) == Answered(res.status, if next.scheme == "https" then Some(next) else None)
              && if next.scheme == "https" && SiteRoot(next.host) == SiteRoot(h.url.host)
                 then Followed(w, h) == Some(next) else Cause(w, lead, h, CrossSiteRedirectRefused)
  {
  }

  /** Any other answer: no transport, a page, or a status that is neither. */
  lemma AnswerExactly(w: World, lead: Lead, h: Hop)
    ensures var res := w.respond(h.seqNo, h.url);
            && (res.None? ==> Cause(w, lead, h, FetchError) && Receipt(w, h) == FetchFailed)
            && (res.Some? && 200 <= res.value.status < 300 ==>
                  var row := w.proof(lead, h.url, res.value.html);
                  && Receipt(w, h) == Answered(res.value.status, Some(h.url))
                  && if w.excluded(h.url) then Cause(w, lead, h, ExcludedPostRedirectAlias)
                     else if row.None? then Cause(w, lead, h, IdentityProofFailed)
                     else if !w.valid(row.value) then Cause(w, lead, h, SchemaInvalid)
                     else Delivers(w, lead, h) == row)
            && (res.Some? && (res.value.status < 200 || 400 <= res.value.status) && !Denies(w, h) ==>
                  && Receipt(w, h) == Answered(res.value.status, None)
                  && Cause(w, lead, h, HttpStatus(res.value.status)))
  {
  }

  /** The hops of one page: from the curated URL along redirects that may be followed. */
  ghost predicate Chain(w: World, lead: Lead, hops: seq<Hop>) {
    && (hops != [] ==> hops[0].url == lead.url)
    && (forall i :: 0 < i < |hops| ==> Followed(w, hops[i - 1]) == Some(hops[i].url))
  }

  lemma {:induction false} ChainStaysOnSite(w: World, lead: Lead, hops: seq<Hop>)
    requires Chain(w, lead, hops)
    ensures forall h :: h in hops ==> SameSite(h.url, lead.url)
  {
    if |hops| > 1 {
      var n := |hops| - 1;
      ChainStaysOnSite(w, lead, hops[..n]);
      assert hops[n - 1] in hops[..n];
      assert Followed(w, hops[n - 1]) == Some(hops[n].url);
    }
  }

  /** A host that denied a request is not asked again. */
  ghost predicate DenialsObeyed(w: World, hops: seq<Hop>) {
    forall i, j :: 0 <= i < j < |hops| && Denies(w, hops[i]) ==> Root(hops[j]) != Root(hops[i])
  }

  function Seqs(hops: seq<Hop>): (r: seq<nat>)
    ensures |r| == |hops|
    ensures forall i :: 0 <= i < |r| ==> r[i] == hops[i].seqNo
  {
    seq(|hops|, i requires 0 <= i < |hops| => hops[i].seqNo)
  }

  /** The hosts that denied one of these requests. */
  ghost function DeniedRoots(w: World, hops: seq<Hop>): set<string> {
    set h | h in hops && Denies(w, h) :: Root(h)
  }

  lemma DeniedRootsStep(w: World, hops: seq<Hop>, h: Hop)
    ensures DeniedRoots(w, hops + [h]) == DeniedRoots(w, hops) + (if Denies(w, h) then {Root(h)} else {})
  {
  }

  // ---------------------------------------------------------------- how a page ends

  /** The first gate that refuses a request for `url` after these hops of the run. */
  ghost function Refusal(w: World, cap: nat, hops: seq<Hop>, url: Url): Option<Reason> {
    if |hops| >= cap then Some(InvocationCapReached)
    else if !w.allowed(url) then Some(UrlPolicyRefused)
    else if SiteRoot(url.host) in DeniedRoots(w, hops) then Some(HostDenied)
    else None
  }

  /** A request that is not sent: a gate refuses it, or none does and the window is full. */
  ghost predicate Blocked(w: World, cap: nat, hops: seq<Hop>, url: Url, full: bool, reason: Reason) {
    var refusal := Refusal(w, cap, hops, url);
    refusal == Some(reason) || (refusal.None? && full && reason == WindowExhausted)
  }

  /** Where the chain goes next, if its last answer was not its end. */
  ghost function Next(w: World, lead: Lead, mine: seq<Hop>): Option<Url> {
    if mine == [] then Some(lead.url) else Followed(w, mine[|mine| - 1])
  }

  /** The page that ends with the answer to `h`; a page that throws has no outcome. */
  ghost predicate AnswerEnds(w: World, lead: Lead, h: Hop, seqs: seq<nat>, page: Option<Page>) {
    match page
    case None => Unresolved(w, h)
    case Some(Kept(row, url, s)) => Delivers(w, lead, h) == Some(row) && url == h.url && s == seqs
    case Some(Failed(reason, s)) => Cause(w, lead, h, reason) && s == seqs
    case Some(ExcludedPrefetch) => false
  }

  /**
   The whole story of a page whose hops are `mine`, in a run that made the hops `before` until then: no
   hop when the lead is excluded; else a chain of followed redirects from the curated URL that ended at
   the hop limit, at a request that was blocked, or with an answer that is not followed.
   */
  ghost predicate Ends(w: World, cap: nat, lead: Lead, before: seq<Hop>, mine: seq<Hop>, page: Option<Page>, full: bool)
  {
    if w.excluded(lead.url) then page == Some(ExcludedPrefetch) && mine == []
    else
      && Chain(w, lead, mine) && |mine| <= MAX_HOPS
      && if Next(w, lead, mine).None? then AnswerEnds(w, lead, mine[|mine| - 1], Seqs(mine), page)
         else
           && page.Some? && page.value.Failed? && page.value.seqs == Seqs(mine)
           && if |mine| == MAX_HOPS then page.value.reason == HopLimitReached
              else Blocked(w, cap, before + mine, Next(w, lead, mine).value, full, page.value.reason)
  }

  /** The hops of a page determine its outcome. */
  lemma EndsOnce(w: World, cap: nat, lead: Lead, before: seq<Hop>, mine: seq<Hop>,
                 p: Option<Page>, q: Option<Page>, full: bool)
    requires Ends(w, cap, lead, before, mine, p, full) && Ends(w, cap, lead, before, mine, q, full)
    ensures p == q
  {
    if !w.excluded(lead.url) && Next(w, lead, mine).None? {
      OneEnding(w, lead, mine[|mine| - 1]);
    }
  }

  /** A page is kept exactly when its last hop proves an admissible row, which the page then holds. */
  lemma KeptExactly(w: World, cap: nat, lead: Lead, before: seq<Hop>, mine: seq<Hop>, page: Option<Page>, full: bool)
    requires Ends(w, cap, lead, before, mine, page, full)
    ensures page.Some? && page.value.Kept? <==> mine != [] && Delivers(w, lead, mine[|mine| - 1]).Some?
    ensures page.Some? && page.value.Kept? ==>
              var last := mine[|mine| - 1];
              && page.value == Kept(Delivers(w, lead, last).value, last.url, Seqs(mine))
              && SameSite(last.url, lead.url)
    ensures page.None? <==> mine != [] && Unresolved(w, mine[|mine| - 1])
  {
    if mine != [] {
      OneEnding(w, lead, mine[|mine| - 1]);
      ChainStaysOnSite(w, lead, mine);
    }
  }

  /**
   No request is sent beyond the invocation's cap, to a URL the policy refuses, or to a site that answered
   an earlier request of the run with one of the four denials.
   */
  lemma RefusalExactly(w: World, cap: nat, hops: seq<Hop>, url: Url)
    ensures var denied := exists h ::
              && h in hops && SiteRoot(h.url.host) == SiteRoot(url.host)
              && w.respond(h.seqNo, h.url).Some?
              && w.respond(h.seqNo, h.url).value.status in {401, 403, 429, 451};
            Refusal(w, cap, hops, url) ==
            if |hops| >= cap then Some(InvocationCapReached)
            else if !w.allowed(url) then Some(UrlPolicyRefused)
            else if denied then Some(HostDenied)
            else None
  {
    var root := SiteRoot(url.host);
    if root in DeniedRoots(w, hops) {
      var h :| h in hops && Denies(w, h) && Root(h) == root;
      assert w.respond(h.seqNo, h.url).value.status in {401, 403, 429, 451};
    }
    if h :| h in hops && SiteRoot(h.url.host) == root && w.respond(h.seqNo, h.url).Some?
            && w.respond(h.seqNo, h.url).value.status in {401, 403, 429, 451}
    {
      assert Denies(w, h) && Root(h) == root;
    }
  }

  /** At most five requests are made for a page; the limit is what ends it exactly when the fifth is redirected. */
  lemma FiveHops(w: World, cap: nat, lead: Lead, before: seq<Hop>, mine: seq<Hop>, page: Option<Page>, full: bool)
    requires Ends(w, cap, lead, before, mine, page, full)
    ensures |mine| <= 5
    ensures page == Some(Failed(HopLimitReached, Seqs(mine))) <==> |mine| == 5 && Followed(w, mine[4]).Some?
    ensures forall i :: 0 <= i < |mine| - 1 ==> Followed(w, mine[i]) == Some(mine[i + 1].url)
  {
    if mine != [] {
      OneEnding(w, lead, mine[|mine| - 1]);
    }
    forall i | 0 <= i < |mine| - 1 ensures Followed(w, mine[i]) == Some(mine[i + 1].url) {
      assert Followed(w, mine[i + 1 - 1]) == Some(mine[i + 1].url);
    }
  }

  /** A window that has run full stays full, so what ended with it ended rightly. */
  lemma EndsStays(w: World, cap: nat, lead: Lead, before: seq<Hop>, mine: seq<Hop>, page: Option<Page>,
                  full: bool, full': bool)
    requires Ends(w, cap, lead, before, mine, page, full) && (full ==> full')
    ensures Ends(w, cap, lead, before, mine, page, full')
  {
  }

  // ---------------------------------------------------------------- what a run leaves in the window

  /** Nobody else reserves under this worker's name. */
  ghost predicate OwnName(w: World, worker: string) {
    forall n, q :: q in w.others(n) ==> q.worker != worker
  }

  lemma {:induction false} OthersSpendNothing(w: Window, requests: seq<Request>, worker: string)
    requires forall q :: q in requests ==> q.worker != worker
    ensures SpentBy(AfterAll(w, requests).reserved, worker) == SpentBy(w.reserved, worker)
  {
    if requests != [] {
      var n := |requests| - 1;
      OthersSpendNothing(w, requests[..n], worker);
      assert requests[n] in requests;
      SpentByMore(AfterAll(w, requests[..n]).reserved, requests[n], worker);
    }
  }

  lemma SpentByMore(reserved: seq<Request>, r: Request, worker: string)
    ensures SpentBy(reserved + [r], worker) == SpentBy(reserved, worker) + (if r.worker == worker then 1 else 0)
  {
    assert (reserved + [r])[..|reserved|] == reserved;
  }

  function SeqSet(hops: seq<Hop>): set<nat> {
    set h | h in hops :: h.seqNo
  }

  /** Outcome files that were added are exactly the receipts of these hops; the others are as they were. */
  ghost predicate Receipts(w: World, opening: map<nat, Outcome>, outcomes: map<nat, Outcome>, hops: seq<Hop>) {
    && outcomes.Keys == opening.Keys + SeqSet(hops)
    && (forall s :: s in opening ==> outcomes[s] == opening[s])
    && (forall h :: h in hops ==> outcomes[h.seqNo] == Receipt(w, h))
  }

  lemma ReceiptsMore(w: World, opening: map<nat, Outcome>, outcomes: map<nat, Outcome>, hops: seq<Hop>, h: Hop)
    requires Receipts(w, opening, outcomes, hops) && h.seqNo !in outcomes
    ensures Receipts(w, opening, outcomes[h.seqNo := Receipt(w, h)], hops + [h])
  {
    assert SeqSet(hops + [h]) == SeqSet(hops) + {h.seqNo};
  }

  // ---------------------------------------------------------------- the run's state

  datatype Permit = Granted(seqNo: nat) | Refused(reason: Reason)

  datatype Step = Stop(page: Option<Page>) | Follow(next: Url)

  class Runner {
    const world: World
    const cap: nat
    const worker: string
    const window: SharedWindow
    var spentSeqs: seq<nat>
    var denied: set<string>
    ghost const opening: Window       // the window when the run begins
    ghost var hops: seq<Hop>
    ghost var recorded: seq<Hop>      // the hops whose outcome has been written

    constructor (world: World, cap: nat, worker: string, window: SharedWindow)
      requires Sound(window.State())
      ensures this.world == world && this.cap == cap && this.worker == worker && this.window == window
      ensures Ledger() && Shut(hops) && Receipted(hops) && spentSeqs == [] && hops == []
      ensures opening == window.State()
    {
      this.world, this.cap, this.worker, this.window := world, cap, worker, window;
      opening := window.State();
      spentSeqs, denied, hops, recorded := [], {}, [], [];
    }

    /** The run spends what it lists, and writes the outcomes of its own hops only. */
    ghost predicate Ledger()
      reads this, window
    {
      Listed() && Owned() && Receipts(world, opening.outcomes, window.outcomes, recorded)
    }

    /** What the window holds under this worker's name is what it held at the beginning and one for each hop. */
    ghost predicate Owned()
      reads this, window
    {
      && opening.reserved <= window.reserved
      && (OwnName(world, worker) ==>
            SpentBy(window.reserved, worker) == SpentBy(opening.reserved, worker) + |hops|)
    }

    /** The spent numbers are our own reservations, in order, each for a URL the policy admits. */
    ghost predicate Listed()
      reads this, window
    {
      && Sound(window.State())
      && |spentSeqs| <= cap
      && spentSeqs == Seqs(hops)
      && (forall i :: 0 <= i < |hops| ==> Reserved(hops[i]) && world.allowed(hops[i].url))
      && (forall i, j :: 0 <= i < j < |hops| ==> hops[i].seqNo < hops[j].seqNo)
      && DenialsObeyed(world, hops)
    }

    ghost predicate Reserved(h: Hop)
      reads this, window
    {
      1 <= h.seqNo <= |window.reserved| && window.reserved[h.seqNo - 1] == Request(worker, h.url)
    }

    /** Exactly the hosts that denied one of these hops are shut out. */
    ghost predicate Shut(hops: seq<Hop>)
      reads this
    {
      denied == DeniedRoots(world, hops)
    }

    /** The window has nothing left. */
    ghost predicate Full()
      reads this, window
    {
      |window.reserved| >= window.max
    }

    /** The outcomes of these hops, all of them, have been written. */
    ghost predicate Receipted(hops: seq<Hop>)
      reads this
    {
      recorded == hops
    }

    /** A reservation just made joins the spent numbers. */
    method Spend(s: nat, current: Url)
      requires Listed() && Shut(hops) && |spentSeqs| < cap
      requires s == |window.reserved| && Reserved(Hop(s, current)) && world.allowed(current)
      requires SiteRoot(current.host) !in denied && forall h :: h in hops ==> h.seqNo < s
      modifies this`spentSeqs, this`hops
      ensures Listed() && hops == old(hops) + [Hop(s, current)]
    {
      spentSeqs := spentSeqs + [s];
      hops := hops + [Hop(s, current)];
      forall i, j | 0 <= i < j < |hops| && Denies(world, hops[i]) ensures Root(hops[j]) != Root(hops[i]) {
        assert hops[i] in old(hops);
      }
    }

    /**
     The gates of a hop, then its reservation. A refused hop spends nothing; the window changes only when
     every gate passes, and then by what others reserve and by this one request, if there is room for it.
     */
    method Reserve(current: Url) returns (p: Permit)
      requires Ledger() && Shut(hops) && Receipted(hops)
      modifies this`spentSeqs, this`hops, window`reserved
      ensures Ledger() && Shut(old(hops)) && Receipted(old(hops))
      ensures p.Refused? ==> hops == old(hops) && Blocked(world, cap, hops, current, Full(), p.reason)
      ensures p.Granted? ==>
                && Refusal(world, cap, old(hops), current).None?
                && hops == old(hops) + [Hop(p.seqNo, current)] && p.seqNo !in window.outcomes
      ensures old(window.reserved) <= window.reserved
      ensures window.State() ==
              if Refusal(world, cap, old(hops), current).Some? then old(window.State())
              else AfterReserve(AfterAll(old(window.State()), world.others(|old(hops)|)), Request(worker, current))
    {
      if |spentSeqs| >= cap { return Refused(InvocationCapReached); }
      if !world.allowed(current) { return Refused(UrlPolicyRefused); }
      if SiteRoot(current.host) in denied { return Refused(HostDenied); }
      p := Take(current);
    }

    /** What others reserve meanwhile, then this request, if there is room for it. */
    method Take(current: Url) returns (p: Permit)
      requires Ledger() && Shut(hops) && |spentSeqs| < cap && world.allowed(current)
      requires SiteRoot(current.host) !in denied
      modifies this`spentSeqs, this`hops, window`reserved
      ensures Ledger() && Shut(old(hops))
      ensures p.Refused? ==> hops == old(hops) && Full() && p.reason == WindowExhausted
      ensures p.Granted? ==> hops == old(hops) + [Hop(p.seqNo, current)] && p.seqNo !in window.outcomes
      ensures old(window.reserved) <= window.reserved
      ensures window.State() ==
              AfterReserve(AfterAll(old(window.State()), world.others(|old(hops)|)), Request(worker, current))
    {
      LetOthers();
      p := Book(current);
    }

    method Book(current: Url) returns (p: Permit)
      requires Ledger() && Shut(hops) && |spentSeqs| < cap && world.allowed(current)
      requires SiteRoot(current.host) !in denied
      modifies this`spentSeqs, this`hops, window`reserved
      ensures Ledger() && Shut(old(hops))
      ensures p.Refused? ==> hops == old(hops) && Full() && p.reason == WindowExhausted
      ensures p.Granted? ==> hops == old(hops) + [Hop(p.seqNo, current)] && p.seqNo !in window.outcomes
      ensures window.State() == AfterReserve(old(window.State()), Request(worker, current))
    {
      var s := ReserveOwn(Request(worker, current));
      if s.None? { return Refused(WindowExhausted); }
      Spend(s.value, current);
      return Granted(s.value);
    }

    /** The window takes a request of this worker, which the run has still to list. */
    method ReserveOwn(q: Request) returns (s: Option<nat>)
      requires Ledger() && q.worker == worker
      modifies window`reserved
      ensures s.None? ==> Ledger() && Full()
      ensures s.Some? ==>
                && Listed() && Receipts(world, opening.outcomes, window.outcomes, recorded)
                && opening.reserved <= window.reserved
                && (OwnName(world, worker) ==>
                      SpentBy(window.reserved, worker) == SpentBy(opening.reserved, worker) + |hops| + 1)
                && s.value == |window.reserved| > 0 && window.reserved[s.value - 1] == q
                && s.value !in window.outcomes && forall h :: h in hops ==> h.seqNo < s.value
      ensures window.State() == AfterReserve(old(window.State()), q)
    {
      SpentByMore(window.reserved, q, worker);
      assert forall h :: h in hops ==> Reserved(h);
      s := window.Reserve(q);
    }

    method LetOthers()
      requires Ledger()
      modifies window`reserved
      ensures Ledger() && old(window.reserved) <= window.reserved
      ensures window.State() == AfterAll(old(window.State()), world.others(|hops|))
    {
      ghost var before := window.State();
      window.Others(world.others(|spentSeqs|));
      if OwnName(world, worker) {
        OthersSpendNothing(before, world.others(|spentSeqs|), worker);
      }
    }

    method Record(h: Hop, o: Outcome, ghost before: seq<Hop>)
      requires Ledger() && hops == before + [h] && Receipted(before)
      requires h.seqNo !in window.outcomes && o == Receipt(world, h)
      modifies this`recorded, window`outcomes
      ensures Ledger() && Receipted(hops)
    {
      assert h == hops[|before|];
      assert Reserved(h);
      ReceiptsMore(world, opening.outcomes, window.outcomes, before, h);
      var _ := window.Record(h.seqNo, o);
      recorded := hops;
    }

    /** The answer to a reserved hop: its receipt, and what follows from it. */
    method Answer(lead: Lead, h: Hop, ghost before: seq<Hop>, seqs: seq<nat>) returns (step: Step)
      requires Ledger() && hops == before + [h] && Shut(before) && Receipted(before)
      requires h.seqNo !in window.outcomes
      modifies this`denied, this`recorded, window`outcomes
      ensures Ledger() && Shut(hops)
      ensures Receipted(if step == Stop(None) then before else hops)
      ensures step.Follow? ==> Followed(world, h) == Some(step.next)
      ensures step.Stop? ==> Followed(world, h).None? && AnswerEnds(world, lead, h, seqs, step.page)
    {
      var answer := world.respond(h.seqNo, h.url);
      if answer.Some? && IsDenial(answer.value.status) {
        Deny(h, answer.value, before);
        return Stop(Some(Failed(HostDenied, seqs)));
      }
      DeniedRootsStep(world, before, h);
      assert Shut(hops);
      step := Arrived(lead, h, answer, before, seqs);
    }

    /** An answer that is no denial, or none. */
    method Arrived(lead: Lead, h: Hop, answer: Option<Response>, ghost before: seq<Hop>, seqs: seq<nat>)
      returns (step: Step)
      requires Ledger() && hops == before + [h] && Receipted(before) && Shut(hops)
      requires h.seqNo !in window.outcomes && world.respond(h.seqNo, h.url) == answer && !Denies(world, h)
      modifies this`recorded, window`outcomes
      ensures Ledger() && Shut(hops)
      ensures Receipted(if step == Stop(None) then before else hops)
      ensures step.Follow? ==> Followed(world, h) == Some(step.next)
      ensures step.Stop? ==> Followed(world, h).None? && AnswerEnds(world, lead, h, seqs, step.page)
    {
      if answer.None? {
        Record(h, FetchFailed, before);
        return Stop(Some(Failed(FetchError, seqs)));
      }
      if 300 <= answer.value.status < 400 {
        step := Redirect(lead, h, answer.value, before, seqs);
        return;
      }
      var page := Settle(lead, h, answer.value, before, seqs);
      return Stop(Some(page));
    }

    /** A denial shuts the host out for the rest of the run. */
    method Deny(h: Hop, res: Response, ghost before: seq<Hop>)
      requires Ledger() && hops == before + [h] && Shut(before) && Receipted(before)
      requires h.seqNo !in window.outcomes && world.respond(h.seqNo, h.url) == Some(res) && IsDenial(res.status)
      modifies this`denied, this`recorded, window`outcomes
      ensures Ledger() && Shut(hops) && Receipted(hops)
    {
      DeniedRootsStep(world, before, h);
      denied := denied + {SiteRoot(h.url.host)};
      Record(h, Answered(res.status, None), before);
    }

    /** An answer that is neither a denial nor a redirect. */
    method Settle(lead: Lead, h: Hop, res: Response, ghost before: seq<Hop>, seqs: seq<nat>) returns (page: Page)
      requires Ledger() && hops == before + [h] && Receipted(before)
      requires h.seqNo !in window.outcomes && world.respond(h.seqNo, h.url) == Some(res)
      requires !IsDenial(res.status) && !(300 <= res.status < 400)
      modifies this`recorded, window`outcomes
      ensures Ledger() && Receipted(hops)
      ensures AnswerEnds(world, lead, h, seqs, Some(page))
    {
      if res.status < 200 || res.status >= 300 {
        Record(h, Answered(res.status, None), before);
        return Failed(HttpStatus(res.status), seqs);
      }
      Record(h, Answered(res.status, Some(h.url)), before);
      page := Prove(lead, h, res, seqs);
    }

    /** The proof over a page that arrived, after the alias gate. */
    method Prove(lead: Lead, h: Hop, res: Response, seqs: seq<nat>) returns (page: Page)
      requires world.respond(h.seqNo, h.url) == Some(res) && 200 <= res.status < 300
      ensures AnswerEnds(world, lead, h, seqs, Some(page))
    {
      if world.excluded(h.url) { return Failed(ExcludedPostRedirectAlias, seqs); }
      var row := world.proof(lead, h.url, res.html);
      if row.None? { return Failed(IdentityProofFailed, seqs); }
      if !world.valid(row.value) { return Failed(SchemaInvalid, seqs); }
      return Kept(row.value, h.url, seqs);
    }

    method Redirect(lead: Lead, h: Hop, res: Response, ghost before: seq<Hop>, seqs: seq<nat>) returns (step: Step)
      requires Ledger() && hops == before + [h] && Receipted(before)
      requires h.seqNo !in window.outcomes && world.respond(h.seqNo, h.url) == Some(res) && 300 <= res.status < 400
      modifies this`recorded, window`outcomes
      ensures Ledger()
      ensures Receipted(if step == Stop(None) then before else hops)
      ensures step.Follow? ==> Followed(world, h) == Some(step.next)
      ensures step.Stop? ==> Followed(world, h).None? && AnswerEnds(world, lead, h, seqs, step.page)
    {
      if res.location.None? {
        Record(h, Answered(res.status, None), before);
        return Stop(Some(Failed(RedirectWithoutLocation, seqs)));
      }
      var parsed := world.resolve(res.location.value, h.url);
      if parsed.None? { return Stop(None); }
      var next := parsed.value;
      Record(h, Answered(res.status, if next.scheme == "https" then Some(next) else None), before);
      if next.scheme != "https" || !SameSite(next, h.url) {
        return Stop(Some(Failed(CrossSiteRedirectRefused, seqs)));
      }
      return Follow(next);
    }

    /**
     One page. Its hops `mine` are all the run reserves for it, are receipted with what the network
     answered, the last one only if the page does not throw, and tell its outcome as `Ends` says.
     */
    method FetchLeadPage(lead: Lead) returns (page: Option<Page>, ghost mine: seq<Hop>)
      requires Ledger() && Shut(hops) && Receipted(hops)
      modifies this, window`reserved, window`outcomes
      ensures Ledger() && Shut(hops) && hops == old(hops) + mine
      ensures page.Some? ==> Receipted(hops)
      ensures page.None? ==> recorded <= hops && |recorded| + 1 == |hops|
      ensures old(window.reserved) <= window.reserved
      ensures Ends(world, cap, lead, old(hops), mine, page, Full())
    {
      mine := [];
      assert hops == old(hops) + mine;
      if world.excluded(lead.url) {
        return Some(ExcludedPrefetch), mine;
      }
      var seqs: seq<nat> := [];
      var current := lead.url;
      for hop := 0 to MAX_HOPS
        invariant Ledger() && Shut(hops) && Receipted(hops) && hops == old(hops) + mine
        invariant Chain(world, lead, mine) && |mine| == hop && seqs == Seqs(mine)
        invariant Next(world, lead, mine) == Some(current) && old(window.reserved) <= window.reserved
      {
        var step;
        step, seqs, mine := TryHop(lead, current, seqs, old(hops), mine);
        if step.Stop? { return step.page, mine; }
        current := step.next;
      }
      return Some(Failed(HopLimitReached, seqs)), mine;
    }

    /** One turn of the hop loop: at most one request, which lengthens the chain. */
    method TryHop(lead: Lead, current: Url, seqs: seq<nat>, ghost start: seq<Hop>, ghost mine: seq<Hop>)
      returns (step: Step, seqs': seq<nat>, ghost mine': seq<Hop>)
      requires Ledger() && Shut(hops) && Receipted(hops) && hops == start + mine
      requires !world.excluded(lead.url) && |mine| < MAX_HOPS
      requires Chain(world, lead, mine) && Next(world, lead, mine) == Some(current) && seqs == Seqs(mine)
      modifies this, window`reserved, window`outcomes
      ensures Ledger() && Shut(hops) && hops == start + mine'
      ensures step != Stop(None) ==> Receipted(hops)
      ensures step == Stop(None) ==> recorded <= hops && |recorded| + 1 == |hops|
      ensures old(window.reserved) <= window.reserved
      ensures step.Follow? ==>
                && Chain(world, lead, mine') && |mine'| == |mine| + 1 && seqs' == Seqs(mine')
                && Next(world, lead, mine') == Some(step.next)
      ensures step.Stop? ==> Ends(world, cap, lead, start, mine', step.page, Full())
    {
      var permit := Reserve(current);
      if permit.Refused? {
        BlockedEnds(world, cap, lead, start, mine, current, Full(), permit.reason);
        return Stop(Some(Failed(permit.reason, seqs))), seqs, mine;
      }
      var h := Hop(permit.seqNo, current);
      mine', seqs' := mine + [h], seqs + [h.seqNo];
      ExtendChain(world, lead, mine, h);
      assert start + mine' == start + mine + [h];
      step := SendHop(lead, h, seqs', start, start + mine, mine');
    }

    /** A reserved hop is sent: the chain `mine` goes on, or its answer ends the page. */
    method SendHop(lead: Lead, h: Hop, seqs: seq<nat>, ghost start: seq<Hop>, ghost before: seq<Hop>,
                   ghost mine: seq<Hop>)
      returns (step: Step)
      requires Ledger() && hops == before + [h] && hops == start + mine && Shut(before) && Receipted(before)
      requires h.seqNo !in window.outcomes && !world.excluded(lead.url)
      requires 0 < |mine| <= MAX_HOPS && mine[|mine| - 1] == h && Chain(world, lead, mine) && seqs == Seqs(mine)
      modifies this`denied, this`recorded, window`outcomes
      ensures Ledger() && Shut(hops)
      ensures if step == Stop(None) then recorded <= hops && |recorded| + 1 == |hops| else Receipted(hops)
      ensures step.Follow? ==> Next(world, lead, mine) == Some(step.next)
      ensures step.Stop? ==> Ends(world, cap, lead, start, mine, step.page, Full())
    {
      step := Answer(lead, h, before, seqs);
      if step.Stop? {
        AnswerIsEnd(world, cap, lead, start, mine, step.page, Full());
      }
    }
  }

  lemma BlockedEnds(w: World, cap: nat, lead: Lead, start: seq<Hop>, mine: seq<Hop>, current: Url, full: bool,
                    reason: Reason)
    requires !w.excluded(lead.url) && |mine| < MAX_HOPS
    requires Chain(w, lead, mine) && Next(w, lead, mine) == Some(current)
    requires Blocked(w, cap, start + mine, current, full, reason)
    ensures Ends(w, cap, lead, start, mine, Some(Failed(reason, Seqs(mine))), full)
  {
  }

  lemma AnswerIsEnd(w: World, cap: nat, lead: Lead, start: seq<Hop>, mine: seq<Hop>, page: Option<Page>, full: bool)
    requires !w.excluded(lead.url) && 0 < |mine| <= MAX_HOPS && Chain(w, lead, mine)
    requires Followed(w, mine[|mine| - 1]).None? && AnswerEnds(w, lead, mine[|mine| - 1], Seqs(mine), page)
    ensures Ends(w, cap, lead, start, mine, page, full)
  {
  }

  lemma ExtendChain(w: World, lead: Lead, mine: seq<Hop>, h: Hop)
    requires Chain(w, lead, mine) && Next(w, lead, mine) == Some(h.url)
    ensures Chain(w, lead, mine + [h]) && Seqs(mine + [h]) == Seqs(mine) + [h.seqNo]
    ensures mine + [h] != [] && (mine + [h])[|mine + [h]| - 1] == h
  {
  }
}
