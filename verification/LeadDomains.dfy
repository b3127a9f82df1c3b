/**
 The run control of `main` around `fetchLeadPage`: the counters of one domain as a machine over page
 outcomes, and the loops over domains and leads that drive it.
 */
module LeadDomains {
  import opened Common
  import opened UrlIdentity
  import SourceWindow
  import opened LeadFetch

  const F1_HARD_CAP := 120
  const PILOT_PAGE_ATTEMPTS := 15
  const DOMAIN_SUB_CAP := 30
  const DOMAIN_PAUSE_CONSEC_FAILS := 15

  datatype Status = Pending | Complete | PausedProofWall | AbandonedZeroKept | CappedSubCap | PilotPaused

  datatype Tally = Tally(pageAttempts: nat, proofPass: nat, kept: nat, consecFails: nat,
                         excludedPrefetch: nat, spentHops: nat, status: Status)

  /** What one lead contributed. */
  datatype Outcome = Skipped | Passed(hops: nat) | Missed(hops: nat)

  // ---------------------------------------------------------------- the machine of one domain

  function Start(): Tally {
    Tally(0, 0, 0, 0, 0, 0, Pending)
  }

  /** The pilot verdict first, then the proof wall. */
  function Judge(t: Tally, pilot: bool, total: nat): Tally {
    if pilot && (t.pageAttempts >= PILOT_PAGE_ATTEMPTS || t.pageAttempts + t.excludedPrefetch >= total)
      && t.proofPass == 0
    then t.(status := PilotPaused)
    else if t.consecFails >= DOMAIN_PAUSE_CONSEC_FAILS then t.(status := PausedProofWall)
    else t
  }

  /** A skipped lead goes straight on to the next one: no verdict is taken. */
  function AfterPage(t: Tally, o: Outcome, pilot: bool, total: nat): Tally {
    match o
    case Skipped => t.(excludedPrefetch := t.excludedPrefetch + 1)
    case Passed(n) =>
      Judge(t.(pageAttempts := t.pageAttempts + 1, spentHops := t.spentHops + n, proofPass := t.proofPass + 1,
               kept := t.kept + 1, consecFails := 0), pilot, total)
    case Missed(n) =>
      Judge(t.(pageAttempts := t.pageAttempts + 1, spentHops := t.spentHops + n, consecFails := t.consecFails + 1),
            pilot, total)
  }

  function Play(outcomes: seq<Outcome>, pilot: bool, total: nat): Tally {
    if outcomes == [] then Start()
    else AfterPage(Play(outcomes[..|outcomes| - 1], pilot, total), outcomes[|outcomes| - 1], pilot, total)
  }

  /** The lead loop takes another lead. */
  predicate Open(t: Tally, pilot: bool, pilotOnly: bool) {
    && t.status == Pending
    && t.pageAttempts < DOMAIN_SUB_CAP
    && !(pilotOnly && !pilot)
    && !(pilotOnly && pilot && t.pageAttempts >= PILOT_PAGE_ATTEMPTS)
  }

  /** A run of the lead loop over a domain of `total` leads. */
  ghost predicate Playable(outcomes: seq<Outcome>, pilot: bool, pilotOnly: bool, total: nat) {
    && |outcomes| <= total
    && (forall n :: 0 <= n < |outcomes| ==> Open(Play(outcomes[..n], pilot, total), pilot, pilotOnly))
    && (forall o :: o in outcomes && !o.Skipped? ==> o.hops <= MAX_HOPS)
  }

  function Finish(t: Tally): Tally {
    if t.status != Pending then t
    else if t.pageAttempts >= DOMAIN_SUB_CAP then t.(status := if t.kept == 0 then AbandonedZeroKept else CappedSubCap)
    else t.(status := Complete)
  }

  lemma PlayableInit(outcomes: seq<Outcome>, pilot: bool, pilotOnly: bool, total: nat)
    requires Playable(outcomes, pilot, pilotOnly, total) && outcomes != []
    ensures var n := |outcomes| - 1;
            && Playable(outcomes[..n], pilot, pilotOnly, total)
            && Open(Play(outcomes[..n], pilot, total), pilot, pilotOnly)
            && (!outcomes[n].Skipped? ==> outcomes[n].hops <= MAX_HOPS)
  {
    var n := |outcomes| - 1;
    forall m | 0 <= m < n ensures Open(Play(outcomes[..n][..m], pilot, total), pilot, pilotOnly) {
      assert outcomes[..n][..m] == outcomes[..m];
    }
    assert outcomes[n] in outcomes;
  }

  lemma PlayableStep(outcomes: seq<Outcome>, o: Outcome, pilot: bool, pilotOnly: bool, total: nat)
    requires Playable(outcomes, pilot, pilotOnly, total) && |outcomes| < total
    requires Open(Play(outcomes, pilot, total), pilot, pilotOnly) && (!o.Skipped? ==> o.hops <= MAX_HOPS)
    ensures Playable(outcomes + [o], pilot, pilotOnly, total)
    ensures Play(outcomes + [o], pilot, total) == AfterPage(Play(outcomes, pilot, total), o, pilot, total)
  {
    var after := outcomes + [o];
    assert after[..|outcomes|] == outcomes;
    forall n | 0 <= n < |after| ensures Open(Play(after[..n], pilot, total), pilot, pilotOnly) {
      if n < |outcomes| {
        assert after[..n] == outcomes[..n];
      }
    }
  }

  ghost predicate Consistent(t: Tally, seen: nat, pilot: bool) {
    && t.kept == t.proofPass
    && (t.kept == 0 ==> t.consecFails == t.pageAttempts)
    && t.consecFails <= t.pageAttempts <= DOMAIN_SUB_CAP && t.consecFails <= DOMAIN_PAUSE_CONSEC_FAILS
    && t.pageAttempts + t.excludedPrefetch == seen
    && t.spentHops <= MAX_HOPS * t.pageAttempts
    && t.status in {Pending, PausedProofWall, PilotPaused}
    && (t.status == Pending ==> t.consecFails < DOMAIN_PAUSE_CONSEC_FAILS)
    && (t.status == PausedProofWall ==> t.consecFails == DOMAIN_PAUSE_CONSEC_FAILS && !(pilot && t.proofPass == 0))
    && (t.status == PilotPaused ==> pilot && t.proofPass == 0)
  }

  /** The counters agree with each other after every run of outcomes. */
  lemma {:induction false} AlwaysConsistent(outcomes: seq<Outcome>, pilot: bool, pilotOnly: bool, total: nat)
    requires Playable(outcomes, pilot, pilotOnly, total)
    ensures Consistent(Play(outcomes, pilot, total), |outcomes|, pilot)
  {
    if outcomes != [] {
      PlayableInit(outcomes, pilot, pilotOnly, total);
      AlwaysConsistent(outcomes[..|outcomes| - 1], pilot, pilotOnly, total);
    }
  }

  /**
   A domain that kept nothing has stopped by its fifteenth attempt, so the verdict
   `abandoned-zero-kept`, which needs thirty, is never given; the others are given exactly so.
   */
  lemma {:induction false} AbandonedIsUnreachable(outcomes: seq<Outcome>, pilot: bool, pilotOnly: bool, total: nat)
    requires Playable(outcomes, pilot, pilotOnly, total)
    ensures var t := Finish(Play(outcomes, pilot, total));
            && t.status != AbandonedZeroKept
            && (t.kept == 0 ==> t.pageAttempts <= DOMAIN_PAUSE_CONSEC_FAILS)
            && (t.status == CappedSubCap <==>
                t.pageAttempts == DOMAIN_SUB_CAP && t.consecFails < DOMAIN_PAUSE_CONSEC_FAILS)
            && (t.status == PausedProofWall <==>
                  t.consecFails == DOMAIN_PAUSE_CONSEC_FAILS && !(pilot && t.proofPass == 0))
  {
    AlwaysConsistent(outcomes, pilot, pilotOnly, total);
  }

  /**
   When the pilot pauses the block: nothing passed, and either fifteen attempts were made or the
   whole domain was used up by an attempt. A domain used up by a skipped lead does not pause it.
   */
  lemma {:induction false} PilotPausesExactly(outcomes: seq<Outcome>, pilotOnly: bool, total: nat)
    requires Playable(outcomes, true, pilotOnly, total)
    ensures var t := Play(outcomes, true, total);
            t.status == PilotPaused <==>
              && t.proofPass == 0
              && (t.pageAttempts >= PILOT_PAGE_ATTEMPTS || (|outcomes| == total > 0 && !outcomes[total - 1].Skipped?))
  {
    if outcomes != [] {
      var n := |outcomes| - 1;
      PlayableInit(outcomes, true, pilotOnly, total);
      PilotPausesExactly(outcomes[..n], pilotOnly, total);
      AlwaysConsistent(outcomes[..n], true, pilotOnly, total);
    }
  }

  /**
   The promise that an exhausted pilot domain with no pass pauses the block fails when its last lead
   is excluded before fetching: one miss, one skip, and the block goes on.
   */
  lemma ExhaustedPilotGoesOn()
    ensures var outcomes := [Missed(1), Skipped];
            && Playable(outcomes, true, false, 2)
            && Play(outcomes, true, 2).proofPass == 0
            && Finish(Play(outcomes, true, 2)).status == Complete
  {
    PlayableStep([], Missed(1), true, false, 2);
    assert [] + [Missed(1)] == [Missed(1)];
    PlayableStep([Missed(1)], Skipped, true, false, 2);
    assert [Missed(1)] + [Skipped] == [Missed(1), Skipped];
  }

  // ---------------------------------------------------------------- the counters over a run

  ghost function Tries(outcomes: seq<Outcome>): set<nat> {
    set i: nat | i < |outcomes| && !outcomes[i].Skipped?
  }

  ghost function Passes(outcomes: seq<Outcome>): set<nat> {
    set i: nat | i < |outcomes| && outcomes[i].Passed?
  }

  ghost function Skips(outcomes: seq<Outcome>): set<nat> {
    set i: nat | i < |outcomes| && outcomes[i].Skipped?
  }

  /** The misses after the last pass. */
  ghost function LateMisses(outcomes: seq<Outcome>): set<nat> {
    set i: nat | i < |outcomes| && outcomes[i].Missed? && forall j :: i < j < |outcomes| ==> !outcomes[j].Passed?
  }

  lemma LateMissesStep(outcomes: seq<Outcome>)
    requires outcomes != []
    ensures var n := |outcomes| - 1;
            LateMisses(outcomes) == match outcomes[n]
                                    case Passed(_) => {}
                                    case Missed(_) => LateMisses(outcomes[..n]) + {n}
                                    case Skipped => LateMisses(outcomes[..n])
  {
    var n := |outcomes| - 1;
    forall i: nat | i < n
      ensures i in LateMisses(outcomes) <==> i in LateMisses(outcomes[..n]) && !outcomes[n].Passed?
    {
      assert forall j :: i < j < n ==> outcomes[..n][j] == outcomes[j];
      assert outcomes[..n][i] == outcomes[i];
    }
  }

  lemma PlacesStep(outcomes: seq<Outcome>)
    requires outcomes != []
    ensures var n := |outcomes| - 1; var last := outcomes[n];
            && Tries(outcomes) == Tries(outcomes[..n]) + (if last.Skipped? then {} else {n})
            && Passes(outcomes) == Passes(outcomes[..n]) + (if last.Passed? then {n} else {})
            && Skips(outcomes) == Skips(outcomes[..n]) + (if last.Skipped? then {n} else {})
  {
  }

  lemma SizesStep(outcomes: seq<Outcome>)
    requires outcomes != []
    ensures var n := |outcomes| - 1; var last := outcomes[n];
            && |Tries(outcomes)| == |Tries(outcomes[..n])| + (if last.Skipped? then 0 else 1)
            && |Passes(outcomes)| == |Passes(outcomes[..n])| + (if last.Passed? then 1 else 0)
            && |Skips(outcomes)| == |Skips(outcomes[..n])| + (if last.Skipped? then 1 else 0)
            && |LateMisses(outcomes)| == if last.Passed? then 0
                                         else |LateMisses(outcomes[..n])| + (if last.Missed? then 1 else 0)
  {
    PlacesStep(outcomes);
    LateMissesStep(outcomes);
  }

  lemma CountersStep(t: Tally, o: Outcome, pilot: bool, total: nat)
    ensures var u := AfterPage(t, o, pilot, total);
            && u.pageAttempts == t.pageAttempts + (if o.Skipped? then 0 else 1)
            && u.excludedPrefetch == t.excludedPrefetch + (if o.Skipped? then 1 else 0)
            && u.proofPass == t.proofPass + (if o.Passed? then 1 else 0)
            && u.kept == t.kept + (if o.Passed? then 1 else 0)
            && u.consecFails == if o.Passed? then 0 else t.consecFails + (if o.Missed? then 1 else 0)
  {
  }

  /** What the counters of a domain count, whatever the verdicts. */
  lemma {:induction false} CountersExactly(outcomes: seq<Outcome>, pilot: bool, total: nat)
    ensures var t := Play(outcomes, pilot, total);
            && t.pageAttempts == |Tries(outcomes)| && t.excludedPrefetch == |Skips(outcomes)|
            && t.proofPass == |Passes(outcomes)| && t.kept == |Passes(outcomes)|
            && t.consecFails == |LateMisses(outcomes)|
  {
    assert outcomes == [] ==>
        Tries(outcomes) == {} && Skips(outcomes) == {} && Passes(outcomes) == {} && LateMisses(outcomes) == {};
    if outcomes != [] {
      var n := |outcomes| - 1;
      CountersExactly(outcomes[..n], pilot, total);
      SizesStep(outcomes);
      CountersStep(Play(outcomes[..n], pilot, total), outcomes[n], pilot, total);
    }
  }

  /**
   The closing status of a domain from its outcomes alone: a pilot without a pass pauses after fifteen
   attempts, or when an attempt uses the domain up; fifteen misses in a row are a proof wall; thirty
   attempts are the cap; anything else is complete.
   */
  lemma VerdictsExactly(outcomes: seq<Outcome>, pilot: bool, pilotOnly: bool, total: nat)
    requires Playable(outcomes, pilot, pilotOnly, total)
    ensures var status := Finish(Play(outcomes, pilot, total)).status;
            var tries, passes, late := |Tries(outcomes)|, |Passes(outcomes)|, |LateMisses(outcomes)|;
            && (status == PilotPaused <==>
                  && pilot && passes == 0
                  && (tries >= 15 || (|outcomes| == total > 0 && !outcomes[total - 1].Skipped?)))
            && (status == PausedProofWall <==> late == 15 && !(pilot && passes == 0))
            && (status == CappedSubCap <==> tries == 30 && late < 15)
            && status in {PilotPaused, PausedProofWall, CappedSubCap, Complete}
            && tries <= 30 && late <= 15
  {
    CountersExactly(outcomes, pilot, total);
    AbandonedIsUnreachable(outcomes, pilot, pilotOnly, total);
    AlwaysConsistent(outcomes, pilot, pilotOnly, total);
    if pilot {
      PilotPausesExactly(outcomes, pilotOnly, total);
    }
  }

  /** When the lead loop takes another lead. */
  lemma GoesOnExactly(outcomes: seq<Outcome>, pilot: bool, pilotOnly: bool, total: nat)
    requires Playable(outcomes, pilot, pilotOnly, total)
    ensures Open(Play(outcomes, pilot, total), pilot, pilotOnly) <==>
            && Finish(Play(outcomes, pilot, total)).status !in {PilotPaused, PausedProofWall}
            && |Tries(outcomes)| < 30
            && (pilotOnly ==> pilot && |Tries(outcomes)| < 15)
  {
    CountersExactly(outcomes, pilot, total);
    AlwaysConsistent(outcomes, pilot, pilotOnly, total);
  }

  // ---------------------------------------------------------------- the loops

  class DomainState {
    const leads: seq<Lead>
    var pageAttempts: nat
    var proofPass: nat
    var kept: nat
    var consecFails: nat
    var excludedPrefetch: nat
    var spentHops: nat
    var status: Status

    ghost function Counts(): Tally
      reads this
    {
      Tally(pageAttempts, proofPass, kept, consecFails, excludedPrefetch, spentHops, status)
    }

    constructor (leads: seq<Lead>)
      ensures this.leads == leads && Counts() == Start()
    {
      this.leads := leads;
      pageAttempts, proofPass, kept, consecFails, excludedPrefetch, spentHops := 0, 0, 0, 0, 0, 0;
      status := Pending;
    }

    /** The counters after one page, with the pilot verdict and the proof wall. */
    method Count(o: Outcome, pilot: bool)
      modifies this
      ensures Counts() == AfterPage(old(Counts()), o, pilot, |leads|)
    {
      if o.Skipped? {
        excludedPrefetch := excludedPrefetch + 1;
        return;
      }
      pageAttempts := pageAttempts + 1;
      spentHops := spentHops + o.hops;
      if o.Passed? {
        proofPass := proofPass + 1;
        kept := kept + 1;
        consecFails := 0;
      } else {
        consecFails := consecFails + 1;
      }
      if pilot && (pageAttempts >= PILOT_PAGE_ATTEMPTS || pageAttempts + excludedPrefetch >= |leads|) {
        if proofPass == 0 {
          status := PilotPaused;
          return;
        }
      }
      if consecFails >= DOMAIN_PAUSE_CONSEC_FAILS {
        status := PausedProofWall;
      }
    }

    method Close()
      modifies this`status
      ensures Counts() == Finish(old(Counts()))
    {
      if status == Pending {
        if pageAttempts >= DOMAIN_SUB_CAP {
          status := if kept == 0 then AbandonedZeroKept else CappedSubCap;
        } else {
          status := Complete;
        }
      }
    }
  }

  // ---------------------------------------------------------------- the logs

  /** A page fetched for a lead. */
  datatype Entry = Entry(lead: Lead, page: Page)

  datatype KeptRow = KeptRow(lead: Lead, row: string, finalUrl: Url, seqs: seq<nat>)

  function OutcomeOf(page: Page): Outcome {
    match page
    case ExcludedPrefetch => Skipped
    case Kept(_, _, seqs) => Passed(|seqs|)
    case Failed(_, seqs) => Missed(|seqs|)
  }

  function Outcomes(entries: seq<Entry>): (r: seq<Outcome>)
    ensures |r| == |entries|
    ensures forall i :: 0 <= i < |r| ==> r[i] == OutcomeOf(entries[i].page)
  {
    seq(|entries|, i requires 0 <= i < |entries| => OutcomeOf(entries[i].page))
  }

  function HopsOf(o: Outcome): nat {
    if o.Skipped? then 0 else o.hops
  }

  function EntryHops(entries: seq<Entry>): nat {
    if entries == [] then 0
    else EntryHops(entries[..|entries| - 1]) + HopsOf(OutcomeOf(entries[|entries| - 1].page))
  }

  function KeptIn(e: Entry): seq<KeptRow> {
    if e.page.Kept? then [KeptRow(e.lead, e.page.row, e.page.finalUrl, e.page.seqs)] else []
  }

  /** The rows of the pages that were kept. */
  function KeptOf(entries: seq<Entry>): seq<KeptRow> {
    if entries == [] then [] else KeptOf(entries[..|entries| - 1]) + KeptIn(entries[|entries| - 1])
  }

  function Flat<T>(lists: seq<seq<T>>): seq<T> {
    if lists == [] then [] else Flat(lists[..|lists| - 1]) + lists[|lists| - 1]
  }

  lemma FlatSnoc<T>(lists: seq<seq<T>>, last: seq<T>)
    ensures Flat(lists + [last]) == Flat(lists) + last
  {
    assert (lists + [last])[..|lists|] == lists;
  }

  lemma LogSnoc(entries: seq<Entry>, e: Entry)
    ensures EntryHops(entries + [e]) == EntryHops(entries) + HopsOf(OutcomeOf(e.page))
    ensures KeptOf(entries + [e]) == KeptOf(entries) + KeptIn(e)
    ensures Outcomes(entries + [e]) == Outcomes(entries) + [OutcomeOf(e.page)]
  {
    assert (entries + [e])[..|entries|] == entries;
  }

  /** A page counts as a pass exactly when it is kept, and its row, and no other, joins the kept rows. */
  lemma LogMeans(entries: seq<Entry>, e: Entry)
    ensures KeptOf([]) == []
    ensures KeptOf(entries + [e]) ==
            KeptOf(entries) + (match e.page
                               case Kept(row, url, seqs) => [KeptRow(e.lead, row, url, seqs)]
                               case _ => [])
    ensures OutcomeOf(e.page) == match e.page
                                 case Kept(_, _, seqs) => Passed(|seqs|)
                                 case Failed(_, seqs) => Missed(|seqs|)
                                 case ExcludedPrefetch => Skipped
  {
    LogSnoc(entries, e);
  }

  lemma SplitLast(a: seq<Entry>, b: seq<Entry>)
    requires b != []
    ensures a + b == (a + b[..|b| - 1]) + [b[|b| - 1]]
  {
  }

  lemma {:induction false} LogAppend(a: seq<Entry>, b: seq<Entry>)
    ensures EntryHops(a + b) == EntryHops(a) + EntryHops(b)
    ensures |KeptOf(a + b)| == |KeptOf(a)| + |KeptOf(b)|
  {
    if b == [] {
      assert a + b == a;
    } else {
      var n := |b| - 1;
      LogAppend(a, b[..n]);
      SplitLast(a, b);
      LogSnoc(a + b[..n], b[n]);
    }
  }

  /**
   The log is true: `chains` are the hops of its pages, together the hops of the run, and every page
   ended as `Ends` says for its own hops and those before it.
   */
  ghost predicate Logged(w: World, cap: nat, entries: seq<Entry>, chains: seq<seq<Hop>>, hops: seq<Hop>, full: bool) {
    && |chains| == |entries| && hops == Flat(chains)
    && forall i :: 0 <= i < |entries| ==>
         Ends(w, cap, entries[i].lead, Flat(chains[..i]), chains[i], Some(entries[i].page), full)
  }

  lemma LoggedStep(w: World, cap: nat, entries: seq<Entry>, chains: seq<seq<Hop>>, hops: seq<Hop>, full: bool,
                   e: Entry, mine: seq<Hop>, full': bool)
    requires Logged(w, cap, entries, chains, hops, full) && (full ==> full')
    requires Ends(w, cap, e.lead, hops, mine, Some(e.page), full')
    ensures Logged(w, cap, entries + [e], chains + [mine], hops + mine, full')
  {
    var entries', chains' := entries + [e], chains + [mine];
    FlatSnoc(chains, mine);
    forall i | 0 <= i < |entries'|
      ensures Ends(w, cap, entries'[i].lead, Flat(chains'[..i]), chains'[i], Some(entries'[i].page), full')
    {
      if i < |entries| {
        assert chains'[..i] == chains[..i];
        EndsStays(w, cap, entries[i].lead, Flat(chains[..i]), chains[i], Some(entries[i].page), full, full');
      } else {
        assert chains'[..i] == chains;
      }
    }
  }

  /** What the ending of a page says about its outcome. */
  lemma EndsOutcome(w: World, cap: nat, lead: Lead, before: seq<Hop>, mine: seq<Hop>, page: Page, full: bool)
    requires Ends(w, cap, lead, before, mine, Some(page), full)
    ensures HopsOf(OutcomeOf(page)) == |mine| <= MAX_HOPS
    ensures OutcomeOf(page).Skipped? <==> w.excluded(lead.url)
  {
    if !w.excluded(lead.url) && Next(w, lead, mine).None? {
      OneEnding(w, lead, mine[|mine| - 1]);
    }
  }

  /** The hops of the entries are the hops of the run. */
  lemma {:induction false} LoggedHops(w: World, cap: nat, entries: seq<Entry>, chains: seq<seq<Hop>>, hops: seq<Hop>,
                                      full: bool)
    requires Logged(w, cap, entries, chains, hops, full)
    ensures EntryHops(entries) == |hops|
  {
    if entries != [] {
      var n := |entries| - 1;
      forall i | 0 <= i < n
        ensures Ends(w, cap, entries[i].lead, Flat(chains[..n][..i]), chains[i], Some(entries[i].page), full)
      {
        assert chains[..n][..i] == chains[..i];
      }
      LoggedHops(w, cap, entries[..n], chains[..n], Flat(chains[..n]), full);
      EndsOutcome(w, cap, entries[n].lead, Flat(chains[..n]), chains[n], entries[n].page, full);
    }
  }

  /** The last hop of the chain proves the row, on the lead's own site. */
  ghost predicate ProvedBy(w: World, k: KeptRow, e: Entry, chain: seq<Hop>) {
    && e.lead == k.lead && chain != [] && k.seqs == Seqs(chain)
    && var last := chain[|chain| - 1];
    Delivers(w, k.lead, last) == Some(k.row) && k.finalUrl == last.url && SameSite(last.url, k.lead.url)
  }

  ghost predicate AllProved(w: World, kept: seq<KeptRow>, entries: seq<Entry>, chains: seq<seq<Hop>>)
    requires |chains| == |entries|
  {
    forall k :: k in kept ==> exists i :: 0 <= i < |entries| && ProvedBy(w, k, entries[i], chains[i])
  }

  lemma {:induction false} KeptFrom(entries: seq<Entry>, k: KeptRow) returns (i: nat)
    requires k in KeptOf(entries)
    ensures i < |entries| && KeptIn(entries[i]) == [k]
  {
    i := |entries| - 1;
    if k !in KeptIn(entries[i]) {
      i := KeptFrom(entries[..i], k);
    }
  }

  /** Every kept row was proved by the last hop of its lead's chain. */
  lemma KeptRowsProved(w: World, cap: nat, entries: seq<Entry>, chains: seq<seq<Hop>>, hops: seq<Hop>, full: bool)
    requires Logged(w, cap, entries, chains, hops, full)
    ensures AllProved(w, KeptOf(entries), entries, chains)
  {
    forall k | k in KeptOf(entries)
      ensures exists i :: 0 <= i < |entries| && ProvedBy(w, k, entries[i], chains[i])
    {
      var i := KeptFrom(entries, k);
      KeptExactly(w, cap, entries[i].lead, Flat(chains[..i]), chains[i], Some(entries[i].page), full);
      assert ProvedBy(w, k, entries[i], chains[i]);
    }
  }

  // ---------------------------------------------------------------- one domain

  ghost predicate Settled(r: Runner)
    reads r, r.window
  {
    r.Ledger() && r.Shut(r.hops) && r.Receipted(r.hops)
  }

  /** The run so far and its logs. */
  ghost predicate Recorded(r: Runner, perLead: seq<Entry>, keptRows: seq<KeptRow>, chains: seq<seq<Hop>>)
    reads r, r.window
  {
    Settled(r) && Logged(r.world, r.cap, perLead, chains, r.hops, r.Full()) && keptRows == KeptOf(perLead)
  }

  /** The run ended with a redirect whose location does not parse; of all hops only this one has no outcome. */
  ghost predicate Threw(r: Runner)
    reads r
  {
    && r.hops != [] && Unresolved(r.world, r.hops[|r.hops| - 1])
    && r.recorded <= r.hops && |r.recorded| + 1 == |r.hops|
  }

  /** One lead: fetched, then counted unless the page throws. */
  method RunLead(r: Runner, ds: DomainState, lead: Lead, pilot: bool) returns (page: Option<Page>, ghost mine: seq<Hop>)
    requires Settled(r)
    modifies r, r.window`reserved, r.window`outcomes, ds
    ensures r.Ledger() && r.hops == old(r.hops) + mine && (old(r.Full()) ==> r.Full())
    ensures Ends(r.world, r.cap, lead, old(r.hops), mine, page, r.Full())
    ensures page.Some? ==>
              Settled(r) && ds.Counts() == AfterPage(old(ds.Counts()), OutcomeOf(page.value), pilot, |ds.leads|)
    ensures page.None? ==> Threw(r)
  {
    ghost var before := r.hops;
    page, mine := r.FetchLeadPage(lead);
    if page.Some? {
      ds.Count(OutcomeOf(page.value), pilot);
    } else {
      KeptExactly(r.world, r.cap, lead, before, mine, page, r.Full());
    }
  }

  /** The leads of a domain were tried from the front, and skipped exactly when the gate excludes them. */
  ghost predicate Gated(w: World, leads: seq<Lead>, play: seq<Entry>) {
    && |play| <= |leads|
    && forall i :: 0 <= i < |play| ==>
         play[i].lead == leads[i] && (OutcomeOf(play[i].page).Skipped? <==> w.excluded(leads[i].url))
  }

  /** A run of the lead loop and what it has logged after `start`. */
  ghost predicate LeadRun(w: World, leads: seq<Lead>, start: seq<Entry>, entries: seq<Entry>, play: seq<Entry>,
                          pilot: bool, pilotOnly: bool)
  {
    Playable(Outcomes(play), pilot, pilotOnly, |leads|) && Gated(w, leads, play) && entries == start + play
  }

  lemma GatedStep(w: World, leads: seq<Lead>, play: seq<Entry>, page: Page)
    requires Gated(w, leads, play) && |play| < |leads|
    requires OutcomeOf(page).Skipped? <==> w.excluded(leads[|play|].url)
    ensures Gated(w, leads, play + [Entry(leads[|play|], page)])
  {
  }

  lemma {:induction false} LeadRunStep(w: World, leads: seq<Lead>, start: seq<Entry>, entries: seq<Entry>,
                                       play: seq<Entry>, pilot: bool, pilotOnly: bool, page: Page)
    requires LeadRun(w, leads, start, entries, play, pilot, pilotOnly) && |play| < |leads|
    requires Open(Play(Outcomes(play), pilot, |leads|), pilot, pilotOnly)
    requires var o := OutcomeOf(page); (o.Skipped? <==> w.excluded(leads[|play|].url)) && HopsOf(o) <= MAX_HOPS
    ensures var e := Entry(leads[|play|], page); LeadRun(w, leads, start, entries + [e], play + [e], pilot, pilotOnly)
    ensures Play(Outcomes(play + [Entry(leads[|play|], page)]), pilot, |leads|) ==
            AfterPage(Play(Outcomes(play), pilot, |leads|), OutcomeOf(page), pilot, |leads|)
  {
    var e := Entry(leads[|play|], page);
    LogSnoc(play, e);
    PlayableStep(Outcomes(play), OutcomeOf(page), pilot, pilotOnly, |leads|);
    GatedStep(w, leads, play, page);
    assert start + play + [e] == start + (play + [e]);
  }

  /** A page for the next lead extends the run of the lead loop, its counters and its kept rows. */
  lemma TurnRun(w: World, cap: nat, leads: seq<Lead>, start: seq<Entry>, entries: seq<Entry>, play: seq<Entry>,
                pilot: bool, pilotOnly: bool, before: seq<Hop>, mine: seq<Hop>, page: Page, full: bool)
    requires LeadRun(w, leads, start, entries, play, pilot, pilotOnly) && |play| < |leads|
    requires Open(Play(Outcomes(play), pilot, |leads|), pilot, pilotOnly)
    requires Ends(w, cap, leads[|play|], before, mine, Some(page), full)
    ensures var e := Entry(leads[|play|], page);
            && LeadRun(w, leads, start, entries + [e], play + [e], pilot, pilotOnly)
            && KeptOf(entries + [e]) == KeptOf(entries) + KeptIn(e)
            && Play(Outcomes(play + [e]), pilot, |leads|) ==
               AfterPage(Play(Outcomes(play), pilot, |leads|), OutcomeOf(page), pilot, |leads|)
  {
    EndsOutcome(w, cap, leads[|play|], before, mine, page, full);
    LeadRunStep(w, leads, start, entries, play, pilot, pilotOnly, page);
    LogSnoc(entries, Entry(leads[|play|], page));
  }

  /** One turn of the lead loop. */
  method RunTurn(r: Runner, ds: DomainState, n: nat, pilot: bool, pilotOnly: bool, perLead: seq<Entry>,
                 keptRows: seq<KeptRow>, ghost chains: seq<seq<Hop>>, ghost start: seq<Entry>, ghost play: seq<Entry>)
    returns (ok: bool, perLead': seq<Entry>, keptRows': seq<KeptRow>, ghost chains': seq<seq<Hop>>,
             ghost play': seq<Entry>)
    requires Recorded(r, perLead, keptRows, chains) && n == |play| < |ds.leads|
    requires LeadRun(r.world, ds.leads, start, perLead, play, pilot, pilotOnly)
    requires ds.Counts() == Play(Outcomes(play), pilot, |ds.leads|) && Open(ds.Counts(), pilot, pilotOnly)
    modifies r, r.window`reserved, r.window`outcomes, ds
    ensures r.Ledger() && old(r.hops) <= r.hops
    ensures ok ==>
              && Recorded(r, perLead', keptRows', chains') && |play'| == n + 1
              && LeadRun(r.world, ds.leads, start, perLead', play', pilot, pilotOnly)
              && ds.Counts() == Play(Outcomes(play'), pilot, |ds.leads|)
    ensures !ok ==> Threw(r)
  {
    perLead', keptRows', chains', play' := perLead, keptRows, chains, play;
    ghost var before, full := r.hops, r.Full();
    var page;
    ghost var mine;
    page, mine := RunLead(r, ds, ds.leads[n], pilot);
    ok := page.Some?;
    if ok {
      var e := Entry(ds.leads[n], page.value);
      assert Settled(r) && r.hops == before + mine;
      LoggedStep(r.world, r.cap, perLead, chains, before, full, e, mine, r.Full());
      TurnRun(r.world, r.cap, ds.leads, start, perLead, play, pilot, pilotOnly, before, mine, page.value, r.Full());
      perLead', chains', play' := perLead + [e], chains + [mine], play + [e];
      keptRows' := keptRows + KeptIn(e);
    }
  }

  /** The lead loop has come to its end, the cap aside. */
  ghost predicate Done(leads: seq<Lead>, play: seq<Entry>, pilot: bool, pilotOnly: bool) {
    |play| == |leads| || !Open(Play(Outcomes(play), pilot, |leads|), pilot, pilotOnly)
  }

  /** The lead loop of one domain; `ok` is false when a page throws. */
  method RunLeads(r: Runner, ds: DomainState, pilot: bool, pilotOnly: bool, perLead: seq<Entry>, keptRows: seq<KeptRow>,
                  ghost chains: seq<seq<Hop>>)
    returns (ok: bool, perLead': seq<Entry>, keptRows': seq<KeptRow>, ghost chains': seq<seq<Hop>>,
             ghost play: seq<Entry>)
    requires Recorded(r, perLead, keptRows, chains) && ds.Counts() == Start()
    modifies r, r.window`reserved, r.window`outcomes, ds
    ensures r.Ledger() && old(r.hops) <= r.hops
    ensures ok ==>
              && Recorded(r, perLead', keptRows', chains')
              && LeadRun(r.world, ds.leads, perLead, perLead', play, pilot, pilotOnly)
              && ds.Counts() == Play(Outcomes(play), pilot, |ds.leads|)
              && (Done(ds.leads, play, pilot, pilotOnly) || |r.spentSeqs| >= r.cap)
    ensures !ok ==> Threw(r)
  {
    perLead', keptRows', chains', play := perLead, keptRows, chains, [];
    assert Outcomes([]) == [] && perLead == perLead + [];
    for n := 0 to |ds.leads|
      invariant |play| == n && Recorded(r, perLead', keptRows', chains') && old(r.hops) <= r.hops
      invariant LeadRun(r.world, ds.leads, perLead, perLead', play, pilot, pilotOnly)
      invariant ds.Counts() == Play(Outcomes(play), pilot, |ds.leads|)
    {
      if |r.spentSeqs| >= r.cap || ds.status != Pending { break; }
      if ds.pageAttempts >= DOMAIN_SUB_CAP { break; }
      if pilotOnly && !pilot { break; }
      if pilotOnly && pilot && ds.pageAttempts >= PILOT_PAGE_ATTEMPTS { break; }
      ok, perLead', keptRows', chains', play :=
        RunTurn(r, ds, n, pilot, pilotOnly, perLead', keptRows', chains', perLead, play);
      if !ok { return; }
    }
    ok := true;
  }

  /** The domain has been run, with this log, and closed. */
  ghost predicate Ran(ds: DomainState, play: seq<Entry>, pilot: bool, pilotOnly: bool)
    reads ds
  {
    && Playable(Outcomes(play), pilot, pilotOnly, |ds.leads|)
    && ds.Counts() == Finish(Play(Outcomes(play), pilot, |ds.leads|))
  }

  /** What a domain spent and kept is what its log says. */
  lemma {:induction false} PlayTotals(play: seq<Entry>, pilot: bool, total: nat)
    ensures Play(Outcomes(play), pilot, total).spentHops == EntryHops(play)
    ensures Play(Outcomes(play), pilot, total).kept == |KeptOf(play)|
  {
    if play != [] {
      var n := |play| - 1;
      PlayTotals(play[..n], pilot, total);
      assert Outcomes(play)[..n] == Outcomes(play[..n]);
      TotalsAdd(Play(Outcomes(play[..n]), pilot, total), OutcomeOf(play[n].page), pilot, total);
    }
  }

  lemma TotalsAdd(t: Tally, o: Outcome, pilot: bool, total: nat)
    ensures AfterPage(t, o, pilot, total).spentHops == t.spentHops + HopsOf(o)
    ensures AfterPage(t, o, pilot, total).kept == t.kept + (if o.Passed? then 1 else 0)
  {
  }

  ghost predicate Untouched(domains: seq<DomainState>, n: nat)
    reads domains
  {
    forall i :: n <= i < |domains| ==> domains[i].Counts() == Start()
  }

  /** The pilot domain is paused exactly as `PilotPausesExactly` says. */
  ghost predicate PilotJudged(w: World, ds: DomainState, play: seq<Entry>)
    reads ds
    requires ds.leads != []
  {
    ds.status == PilotPaused <==>
      && ds.proofPass == 0
      && (|| ds.pageAttempts >= PILOT_PAGE_ATTEMPTS
          || (|play| == |ds.leads| && !w.excluded(ds.leads[|ds.leads| - 1].url)))
  }

  ghost predicate Sane(ds: DomainState)
    reads ds
  {
    ds.status != AbandonedZeroKept && ds.pageAttempts <= DOMAIN_SUB_CAP && ds.kept == ds.proofPass
  }

  /** The verdicts over a finished domain. */
  lemma PlayJudged(w: World, leads: seq<Lead>, play: seq<Entry>, pilot: bool, pilotOnly: bool)
    requires Playable(Outcomes(play), pilot, pilotOnly, |leads|) && Gated(w, leads, play) && leads != []
    ensures var t := Finish(Play(Outcomes(play), pilot, |leads|));
            && t.status != AbandonedZeroKept && t.pageAttempts <= DOMAIN_SUB_CAP && t.kept == t.proofPass
            && if pilot then
                 (t.status == PilotPaused <==>
                    && t.proofPass == 0
                    && (|| t.pageAttempts >= PILOT_PAGE_ATTEMPTS
                        || (|play| == |leads| && !w.excluded(leads[|leads| - 1].url))))
               else t.status != PilotPaused
  {
    var outcomes := Outcomes(play);
    FinishSane(outcomes, pilot, pilotOnly, |leads|);
    if pilot {
      PilotPausesExactly(outcomes, pilotOnly, |leads|);
      assert |play| == |leads| ==> (outcomes[|leads| - 1].Skipped? <==> w.excluded(leads[|leads| - 1].url));
    }
  }

  lemma FinishSane(outcomes: seq<Outcome>, pilot: bool, pilotOnly: bool, total: nat)
    requires Playable(outcomes, pilot, pilotOnly, total)
    ensures var t, v := Play(outcomes, pilot, total), Finish(Play(outcomes, pilot, total));
            && v.status != AbandonedZeroKept && v.pageAttempts <= DOMAIN_SUB_CAP && v.kept == v.proofPass
            && v.pageAttempts == t.pageAttempts && v.proofPass == t.proofPass
            && (v.status == PilotPaused <==> t.status == PilotPaused) && (t.status == PilotPaused ==> pilot)
  {
    AlwaysConsistent(outcomes, pilot, pilotOnly, total);
  }

  /** One domain of the block: its leads, then its closing status. */
  method RunDomain(r: Runner, ds: DomainState, pilot: bool, pilotOnly: bool, perLead: seq<Entry>,
                   keptRows: seq<KeptRow>, ghost chains: seq<seq<Hop>>)
    returns (ok: bool, perLead': seq<Entry>, keptRows': seq<KeptRow>, ghost chains': seq<seq<Hop>>,
             ghost play: seq<Entry>)
    requires Recorded(r, perLead, keptRows, chains) && ds.Counts() == Start() && ds.leads != []
    modifies r, r.window`reserved, r.window`outcomes, ds
    ensures r.Ledger() && old(r.hops) <= r.hops
    ensures ok ==>
              && Recorded(r, perLead', keptRows', chains') && Ran(ds, play, pilot, pilotOnly) && Sane(ds)
              && Gated(r.world, ds.leads, play) && perLead' == perLead + play
              && (Done(ds.leads, play, pilot, pilotOnly) || |r.spentSeqs| >= r.cap)
              && (if pilot then PilotJudged(r.world, ds, play) else ds.status != PilotPaused)
    ensures !ok ==> Threw(r)
  {
    ok, perLead', keptRows', chains', play := RunLeads(r, ds, pilot, pilotOnly, perLead, keptRows, chains);
    if ok {
      PlayJudged(r.world, ds.leads, play, pilot, pilotOnly);
      ds.Close();
    }
  }

  // ---------------------------------------------------------------- the block

  datatype BlockStatus = BlockComplete | BlockPilotPaused | F1CapReached

  ghost function SumHops(domains: seq<DomainState>): nat
    reads domains
  {
    if domains == [] then 0 else SumHops(domains[..|domains| - 1]) + domains[|domains| - 1].spentHops
  }

  ghost function SumKept(domains: seq<DomainState>): nat
    reads domains
  {
    if domains == [] then 0 else SumKept(domains[..|domains| - 1]) + domains[|domains| - 1].kept
  }

  lemma SumsUntouched(domains: seq<DomainState>, n: nat)
    requires n <= |domains| && Untouched(domains, n)
    ensures SumHops(domains) == SumHops(domains[..n]) && SumKept(domains) == SumKept(domains[..n])
    decreases |domains|
  {
    if n < |domains| {
      var m := |domains| - 1;
      SumsUntouched(domains[..m], n);
      assert domains[..m][..n] == domains[..n];
    } else {
      assert domains[..n] == domains;
    }
  }

  /**
   The log lists the leads tried, domain by domain, a lead being skipped exactly when it is excluded, and
   every domain begun was run to its end, except that the cap may have cut the last one short.
   */
  ghost predicate BlockLog(w: World, domains: seq<DomainState>, plays: seq<seq<Entry>>, perLead: seq<Entry>,
                           pilotOnly: bool, capped: bool)
  {
    && |plays| <= |domains| && perLead == Flat(plays)
    && forall i :: 0 <= i < |plays| ==>
         && Gated(w, domains[i].leads, plays[i])
         && (Done(domains[i].leads, plays[i], i == 0, pilotOnly) || (capped && i == |plays| - 1))
  }

  lemma BlockLogStep(w: World, domains: seq<DomainState>, plays: seq<seq<Entry>>, perLead: seq<Entry>,
                     pilotOnly: bool, play: seq<Entry>, capped: bool)
    requires BlockLog(w, domains, plays, perLead, pilotOnly, false) && |plays| < |domains|
    requires Gated(w, domains[|plays|].leads, play)
    requires Done(domains[|plays|].leads, play, |plays| == 0, pilotOnly) || capped
    ensures BlockLog(w, domains, plays + [play], perLead + play, pilotOnly, capped)
  {
    FlatSnoc(plays, play);
  }

  /** All these domains have been run, with these logs. */
  ghost predicate Front(domains: seq<DomainState>, plays: seq<seq<Entry>>, pilotOnly: bool)
    reads domains
  {
    && |plays| == |domains|
    && forall i :: 0 <= i < |domains| ==>
         Ran(domains[i], plays[i], i == 0, pilotOnly) && Sane(domains[i]) && domains[i].leads != []
  }

  /** What the domains spent and kept is what the log says. */
  lemma {:induction false} FrontTotals(domains: seq<DomainState>, plays: seq<seq<Entry>>, pilotOnly: bool)
    requires Front(domains, plays, pilotOnly)
    ensures SumHops(domains) == EntryHops(Flat(plays)) && SumKept(domains) == |KeptOf(Flat(plays))|
  {
    if plays != [] {
      var n := |plays| - 1;
      FrontInit(domains, plays, pilotOnly);
      FrontTotals(domains[..n], plays[..n], pilotOnly);
      TotalsStep(domains, plays);
    }
  }

  lemma TotalsStep(domains: seq<DomainState>, plays: seq<seq<Entry>>)
    requires |domains| == |plays| > 0
    requires var n := |plays| - 1;
             && domains[n].spentHops == EntryHops(plays[n]) && domains[n].kept == |KeptOf(plays[n])|
             && SumHops(domains[..n]) == EntryHops(Flat(plays[..n]))
             && SumKept(domains[..n]) == |KeptOf(Flat(plays[..n]))|
    ensures SumHops(domains) == EntryHops(Flat(plays)) && SumKept(domains) == |KeptOf(Flat(plays))|
  {
    LogAppend(Flat(plays[..|plays| - 1]), plays[|plays| - 1]);
  }

  lemma FrontInit(domains: seq<DomainState>, plays: seq<seq<Entry>>, pilotOnly: bool)
    requires Front(domains, plays, pilotOnly) && plays != []
    ensures Front(domains[..|plays| - 1], plays[..|plays| - 1], pilotOnly)
    ensures var n := |plays| - 1;
            domains[n].spentHops == EntryHops(plays[n]) && domains[n].kept == |KeptOf(plays[n])|
  {
    RanTotals(domains[|plays| - 1], plays[|plays| - 1], |plays| == 1, pilotOnly);
    var earlier := domains[..|plays| - 1];
    assert forall i :: 0 <= i < |earlier| ==> earlier[i] == domains[i];
  }

  lemma RanTotals(ds: DomainState, play: seq<Entry>, pilot: bool, pilotOnly: bool)
    requires Ran(ds, play, pilot, pilotOnly)
    ensures ds.spentHops == EntryHops(play) && ds.kept == |KeptOf(play)|
  {
    PlayTotals(play, pilot, |ds.leads|);
  }

  /** None of these domains has been begun. */
  ghost predicate Back(domains: seq<DomainState>)
    reads domains
  {
    forall i :: 0 <= i < |domains| ==> domains[i].Counts() == Start() && domains[i].leads != []
  }

  /** The first domains have been run, with these logs, and the others not begun. */
  ghost predicate Progress(domains: seq<DomainState>, plays: seq<seq<Entry>>, pilotOnly: bool)
    reads domains
  {
    |plays| <= |domains| && Front(domains[..|plays|], plays, pilotOnly) && Back(domains[|plays|..])
  }

  lemma FrontStep(domains: seq<DomainState>, plays: seq<seq<Entry>>, play: seq<Entry>, pilotOnly: bool)
    requires |plays| < |domains| && Front(domains[..|plays|], plays, pilotOnly)
    requires var ds := domains[|plays|]; Ran(ds, play, |plays| == 0, pilotOnly) && Sane(ds) && ds.leads != []
    ensures Front(domains[..|plays| + 1], plays + [play], pilotOnly)
  {
    var n := |plays|;
    var front, plays' := domains[..n + 1], plays + [play];
    forall i | 0 <= i < n + 1
      ensures Ran(front[i], plays'[i], i == 0, pilotOnly) && Sane(front[i]) && front[i].leads != []
    {
      if i < n {
        assert front[i] == domains[..n][i];
      }
    }
  }

  lemma BackStep(domains: seq<DomainState>, n: nat)
    requires n < |domains| && Back(domains[n..])
    ensures domains[n].Counts() == Start() && domains[n].leads != [] && Back(domains[n + 1..])
  {
    assert domains[n..][0] == domains[n];
    var rest := domains[n + 1..];
    forall i | 0 <= i < |rest| ensures rest[i].Counts() == Start() && rest[i].leads != [] {
      assert rest[i] == domains[n..][i + 1];
    }
  }

  lemma BackUntouched(domains: seq<DomainState>, n: nat)
    requires n <= |domains|
    ensures Back(domains[n..]) ==> Untouched(domains, n)
  {
    forall i | n <= i < |domains| && Back(domains[n..]) ensures domains[i].Counts() == Start() {
      assert domains[i] == domains[n..][i - n];
    }
  }

  ghost predicate DistinctDomains(domains: seq<DomainState>) {
    forall i, j :: 0 <= i < j < |domains| ==> domains[i] != domains[j]
  }

  lemma NotElsewhere(domains: seq<DomainState>, n: nat)
    requires n < |domains| && DistinctDomains(domains)
    ensures domains[n] !in domains[..n] && domains[n] !in domains[n + 1..]
  {
  }

  /** The next domain; the domains before and after it stay as they are. */
  method RunNext(r: Runner, domains: seq<DomainState>, pilotOnly: bool, n: nat, perLead: seq<Entry>,
                 keptRows: seq<KeptRow>, ghost chains: seq<seq<Hop>>, ghost plays: seq<seq<Entry>>)
    returns (ok: bool, perLead': seq<Entry>, keptRows': seq<KeptRow>, ghost chains': seq<seq<Hop>>,
             ghost play: seq<Entry>)
    requires n == |plays| < |domains| && domains[n] !in domains[..n] && domains[n] !in domains[n + 1..]
    requires domains[n].Counts() == Start() && domains[n].leads != []
    requires Recorded(r, perLead, keptRows, chains) && Front(domains[..n], plays, pilotOnly) && Back(domains[n + 1..])
    modifies r, r.window`reserved, r.window`outcomes, domains[n]
    ensures Front(domains[..n], plays, pilotOnly) && Back(domains[n + 1..])
    ensures r.Ledger() && old(r.hops) <= r.hops
    ensures ok ==>
              var ds := domains[n];
              && Recorded(r, perLead', keptRows', chains') && Ran(ds, play, n == 0, pilotOnly) && Sane(ds)
              && Gated(r.world, ds.leads, play) && perLead' == perLead + play
              && (Done(ds.leads, play, n == 0, pilotOnly) || |r.spentSeqs| >= r.cap)
              && (if n == 0 then PilotJudged(r.world, ds, play) else ds.status != PilotPaused)
    ensures !ok ==> Threw(r)
  {
    ok, perLead', keptRows', chains', play := RunDomain(r, domains[n], n == 0, pilotOnly, perLead, keptRows, chains);
  }

  lemma ProgressStep(domains: seq<DomainState>, plays: seq<seq<Entry>>, play: seq<Entry>, pilotOnly: bool)
    requires |plays| < |domains|
    requires Front(domains[..|plays|], plays, pilotOnly) && Back(domains[|plays| + 1..])
    requires var ds := domains[|plays|]; Ran(ds, play, |plays| == 0, pilotOnly) && Sane(ds) && ds.leads != []
    ensures Progress(domains, plays + [play], pilotOnly)
  {
    FrontStep(domains, plays, play, pilotOnly);
  }

  /** The first domain run was judged as the pilot. */
  ghost predicate Judged(w: World, domains: seq<DomainState>, plays: seq<seq<Entry>>)
    reads if domains == [] then {} else {domains[0]}
  {
    domains != [] && plays != [] && domains[0].leads != [] && PilotJudged(w, domains[0], plays[0])
  }

  /** One turn of the domain loop. */
  method RunOne(r: Runner, domains: seq<DomainState>, pilotOnly: bool, n: nat, perLead: seq<Entry>,
                keptRows: seq<KeptRow>, ghost chains: seq<seq<Hop>>, ghost plays: seq<seq<Entry>>)
    returns (ok: bool, perLead': seq<Entry>, keptRows': seq<KeptRow>, ghost chains': seq<seq<Hop>>,
             ghost plays': seq<seq<Entry>>)
    requires n == |plays| < |domains| && DistinctDomains(domains)
    requires Recorded(r, perLead, keptRows, chains) && Progress(domains, plays, pilotOnly)
    requires BlockLog(r.world, domains, plays, perLead, pilotOnly, false)
    requires n > 0 ==> Judged(r.world, domains, plays) && domains[0].status != PilotPaused
    modifies r, r.window`reserved, r.window`outcomes, domains[n]
    ensures r.Ledger()
    ensures ok ==>
              && Recorded(r, perLead', keptRows', chains') && Progress(domains, plays', pilotOnly)
              && BlockLog(r.world, domains, plays', perLead', pilotOnly, |r.spentSeqs| >= r.cap)
              && |plays'| == n + 1 && Judged(r.world, domains, plays')
              && (n > 0 ==> domains[n].status != PilotPaused && domains[0].status != PilotPaused)
    ensures !ok ==> Threw(r)
  {
    assert n > 0 ==> domains[0] != domains[n];
    BackStep(domains, n);
    NotElsewhere(domains, n);
    ghost var play;
    ok, perLead', keptRows', chains', play := RunNext(r, domains, pilotOnly, n, perLead, keptRows, chains, plays);
    plays' := plays + [play];
    if ok {
      ProgressStep(domains, plays, play, pilotOnly);
      BlockLogStep(r.world, domains, plays, perLead, pilotOnly, play, |r.spentSeqs| >= r.cap);
    }
  }

  /** The domain loop; it ends at the cap, at a pilot pause and after the pilot domain of a pilot-only run. */
  method RunDomains(r: Runner, domains: seq<DomainState>, pilotOnly: bool)
    returns (ok: bool, paused: bool, perLead: seq<Entry>, keptRows: seq<KeptRow>, ghost chains: seq<seq<Hop>>,
             ghost plays: seq<seq<Entry>>)
    requires Settled(r) && r.spentSeqs == [] && DistinctDomains(domains) && Back(domains)
    modifies r, r.window`reserved, r.window`outcomes, domains
    ensures r.Ledger()
    ensures ok ==>
              && Recorded(r, perLead, keptRows, chains) && Progress(domains, plays, pilotOnly)
              && BlockLog(r.world, domains, plays, perLead, pilotOnly, |r.spentSeqs| >= r.cap)
              && (paused <==> plays != [] && domains[0].status == PilotPaused)
              && (plays != [] ==> Judged(r.world, domains, plays))
              && (paused || pilotOnly ==> |plays| <= 1)
              && (|plays| < |domains| ==> paused || (pilotOnly && plays != []) || |r.spentSeqs| >= r.cap)
    ensures !ok ==> Threw(r)
  {
    paused, perLead, keptRows, chains, plays := false, [], [], [], [];
    assert domains[0..] == domains;
    for n := 0 to |domains|
      invariant Recorded(r, perLead, keptRows, chains) && |plays| == n && !paused
      invariant Progress(domains, plays, pilotOnly)
      invariant BlockLog(r.world, domains, plays, perLead, pilotOnly, |r.spentSeqs| >= r.cap)
      invariant n > 0 ==> Judged(r.world, domains, plays) && domains[0].status != PilotPaused
      invariant pilotOnly ==> n == 0
    {
      if |r.spentSeqs| >= r.cap { break; }
      ok, perLead, keptRows, chains, plays := RunOne(r, domains, pilotOnly, n, perLead, keptRows, chains, plays);
      if !ok { return; }
      if domains[n].status == PilotPaused {
        paused := true;
        break;
      }
      if pilotOnly { break; }
    }
    ok := true;
  }

  /** The block status in terms of the run. */
  ghost predicate StatusRight(r: Runner, domains: seq<DomainState>, plays: seq<seq<Entry>>, pilotOnly: bool,
                              status: BlockStatus)
    reads r, domains
  {
    && |plays| <= |domains|
    && (status == BlockPilotPaused <==> plays != [] && domains[0].status == PilotPaused)
    && (status == F1CapReached <==> status != BlockPilotPaused && |r.spentSeqs| >= r.cap)
    && (status == BlockPilotPaused || pilotOnly ==> |plays| <= 1)
    && (|plays| < |domains| ==> status != BlockComplete || (pilotOnly && plays != []))
    && (plays != [] ==> Judged(r.world, domains, plays))
  }

  /**
   The whole block. `perLead` is a true log of the pages fetched: the leads tried, in order, each with the
   outcome its hops determine. Every domain begun was run to its end unless the cap cut it short; later
   domains are untouched only after a pilot pause, in a pilot-only run, or at the cap. What was spent is the
   sum over the domains and over the log; `keptRows` are the pages kept, as many as the domains counted,
   each proved by the last hop of its lead's chain.
   */
  ghost predicate BlockRun(r: Runner, domains: seq<DomainState>, pilotOnly: bool, status: BlockStatus,
                           perLead: seq<Entry>, keptRows: seq<KeptRow>, chains: seq<seq<Hop>>, plays: seq<seq<Entry>>)
    reads r, r.window, domains
  {
    && Recorded(r, perLead, keptRows, chains)
    && Progress(domains, plays, pilotOnly) && Untouched(domains, |plays|)
    && BlockLog(r.world, domains, plays, perLead, pilotOnly, |r.spentSeqs| >= r.cap)
    && StatusRight(r, domains, plays, pilotOnly, status)
    && EntryHops(perLead) == |r.spentSeqs| == SumHops(domains)
    && |keptRows| == SumKept(domains) && AllProved(r.world, keptRows, perLead, chains)
  }

  /** The block runs as `BlockRun` says, or a page throws. */
  method RunBlock(r: Runner, domains: seq<DomainState>, pilotOnly: bool)
    returns (ok: bool, status: BlockStatus, perLead: seq<Entry>, keptRows: seq<KeptRow>, ghost chains: seq<seq<Hop>>,
             ghost plays: seq<seq<Entry>>)
    requires Settled(r) && r.spentSeqs == [] && DistinctDomains(domains) && Back(domains)
    modifies r, r.window`reserved, r.window`outcomes, domains
    ensures r.Ledger() && |r.spentSeqs| <= r.cap
    ensures ok ==> BlockRun(r, domains, pilotOnly, status, perLead, keptRows, chains, plays)
    ensures !ok ==> Threw(r)
  {
    var paused;
    ok, paused, perLead, keptRows, chains, plays := RunDomains(r, domains, pilotOnly);
    status := if paused then BlockPilotPaused else if |r.spentSeqs| >= r.cap then F1CapReached else BlockComplete;
    if ok {
      BackUntouched(domains, |plays|);
      SumsUntouched(domains, |plays|);
      FrontTotals(domains[..|plays|], plays, pilotOnly);
      LoggedHops(r.world, r.cap, perLead, chains, r.hops, r.Full());
      KeptRowsProved(r.world, r.cap, perLead, chains, r.hops, r.Full());
    }
  }

  /** The leads of each domain, in the order the domains are first seen. */
  method MakeDomains(groups: seq<seq<Lead>>) returns (domains: seq<DomainState>)
    ensures |domains| == |groups| && fresh(domains) && DistinctDomains(domains) && Untouched(domains, 0)
    ensures forall i :: 0 <= i < |domains| ==> domains[i].leads == groups[i]
  {
    domains := [];
    for n := 0 to |groups|
      invariant |domains| == n && fresh(domains) && DistinctDomains(domains) && Untouched(domains, 0)
      invariant forall i :: 0 <= i < n ==> domains[i].leads == groups[i]
    {
      var ds := new DomainState(groups[n]);
      domains := domains + [ds];
    }
  }

  /**
   The fetching run: the invocation cap is clamped to 120, and whatever the network answers the run
   reserves no more than that, nor more than the window had left: under this worker's name, which nobody
   else uses, the window gains exactly the spent numbers. Outcomes are written for hops of the run only.
   */
  method FetchRun(window: SourceWindow.SharedWindow, world: World, raw: Option<Option<nat>>, worker: string,
                  groups: seq<seq<Lead>>, pilotOnly: bool)
    returns (r: Option<Runner>, ok: bool, domains: seq<DomainState>, status: BlockStatus, perLead: seq<Entry>,
             keptRows: seq<KeptRow>, ghost chains: seq<seq<Hop>>, ghost plays: seq<seq<Entry>>)
    requires SourceWindow.Sound(window.State()) && forall g :: g in groups ==> g != []
    modifies window`reserved, window`outcomes
    ensures SourceWindow.Sound(window.State())
    ensures var cap := SourceWindow.ParseInvocationCap(raw, window.max - |old(window.reserved)|);
            && (r.None? <==> cap.Err?)
            && (r.None? ==> window.reserved == old(window.reserved) && window.outcomes == old(window.outcomes))
            && (r.Some? ==>
                  && r.value.Ledger() && r.value.world == world && r.value.window == window && r.value.worker == worker
                  && r.value.cap == (if cap.value < 120 then cap.value else 120)
                  && |r.value.spentSeqs| <= r.value.cap
                  && (OwnName(world, worker) ==>
                        SourceWindow.SpentBy(window.reserved, worker) ==
                        SourceWindow.SpentBy(old(window.reserved), worker) + |r.value.spentSeqs|)
                  && old(window.reserved) <= window.reserved
                  && Receipts(world, old(window.outcomes), window.outcomes, r.value.recorded)
                  && (ok ==> r.value.recorded == r.value.hops))
    ensures r.Some? ==> |domains| == |groups| && forall i :: 0 <= i < |domains| ==> domains[i].leads == groups[i]
    ensures r.Some? && ok ==> BlockRun(r.value, domains, pilotOnly, status, perLead, keptRows, chains, plays)
    ensures r.Some? && !ok ==> Threw(r.value)
  {
    r, ok, domains, status, perLead, keptRows, chains, plays := None, false, [], BlockComplete, [], [], [], [];
    var invocationCap := SourceWindow.ParseInvocationCap(raw, window.max - |window.reserved|);
    if invocationCap.Err? { return; }
    var cap := if invocationCap.value < F1_HARD_CAP then invocationCap.value else F1_HARD_CAP;
    var runner := new Runner(world, cap, worker, window);
    domains := MakeDomains(groups);
    assert forall i :: 0 <= i < |domains| ==> domains[i].leads in groups;
    ok, status, perLead, keptRows, chains, plays := RunBlock(runner, domains, pilotOnly);
    r := Some(runner);
  }
}
