/**
 `runRepair` over the five tables it reads and writes: what it selects, the transaction that applies
 it, and what the transaction leaves behind. Backup, locks and reports are outside the model, and a
 timestamp is whatever the caller's clock says.
 */
module AutoAcceptRepair {
  import opened Common

  const SYSTEM := "system_auto_accept"
  const REASON := "historical_auto_accept_repaired"

  datatype Kind = PrimaryProductType | CategoryPage | FieldAssignment | OtherKind

  datatype Decision = Decision(proposalId: string, reviewerId: string, origin: string, supersededAt: Option<string>)

  datatype Proposal = Proposal(runId: string, sku: string, kind: Kind, status: string, isStale: bool,
                               reason: Option<string>, supersededAt: Option<string>)

  datatype Run = Run(workspaceId: string, itemId: Option<string>)

  datatype Item = Item(stage: string, stageStatus: string, updatedAt: string)

  datatype Review = Review(reviewedAt: Option<string>, invalidatedAt: Option<string>, reason: Option<string>,
                           approvedAt: Option<string>, approvedBy: Option<string>, updatedAt: string)

  datatype Event = Event(decisionId: string, proposalId: string, runId: string, sku: string, workspaceId: string,
                         at: string)

  datatype Tables = Tables(decisions: map<string, Decision>, proposals: map<string, Proposal>, runs: map<string, Run>,
                           items: map<string, Item>, reviews: map<string, Review>, history: seq<Event>)

  /** A selected row: the decision joined with its proposal and run. */
  datatype Target = Target(decisionId: string, proposalId: string, runId: string, sku: string,
                           itemId: Option<string>, workspaceId: string)

  datatype Plan = Plan(targets: seq<Target>, dependents: seq<string>, itemIds: seq<string>)

  // ---------------------------------------------------------------- what is selected

  /** An active primary-type decision of the system whose proposal is active; the joins drop orphans. */
  predicate IsTarget(t: Tables, d: string) {
    && d in t.decisions
    && (t.decisions[d].reviewerId == SYSTEM || t.decisions[d].origin == SYSTEM)
    && t.decisions[d].supersededAt.None?
    && t.decisions[d].proposalId in t.proposals
    && var p := t.proposals[t.decisions[d].proposalId];
    p.kind == PrimaryProductType && p.supersededAt.None? && p.runId in t.runs
  }

  function Row(t: Tables, d: string): Target
    requires IsTarget(t, d)
  {
    var p := t.proposals[t.decisions[d].proposalId];
    Target(d, t.decisions[d].proposalId, p.runId, p.sku, t.runs[p.runId].itemId, t.runs[p.runId].workspaceId)
  }

  ghost predicate AffectedRun(t: Tables, r: string) {
    exists d :: IsTarget(t, d) && Row(t, d).runId == r
  }

  /** The item of an affected run; a missing or empty id names none. */
  ghost predicate AffectedItem(t: Tables, i: string) {
    i != "" && exists d :: IsTarget(t, d) && Row(t, d).itemId == Some(i)
  }

  /** A live, non-stale dependent proposal. */
  predicate IsOpenDependent(p: Proposal) {
    (p.kind == CategoryPage || p.kind == FieldAssignment) && p.supersededAt.None? && p.status != "stale"
  }

  ghost predicate IsDependent(t: Tables, p: string) {
    p in t.proposals && IsOpenDependent(t.proposals[p]) && AffectedRun(t, t.proposals[p].runId)
  }

  function DecisionIds(rows: seq<Target>): (r: seq<string>)
    ensures |r| == |rows|
    ensures forall i :: 0 <= i < |r| ==> r[i] == rows[i].decisionId
  {
    seq(|rows|, i requires 0 <= i < |rows| => rows[i].decisionId)
  }

  ghost predicate NoRepeats(s: seq<string>) {
    forall i, j :: 0 <= i < j < |s| ==> s[i] != s[j]
  }

  /** The queries of the run, in whatever order the database answers. */
  ghost predicate PlanFor(t: Tables, plan: Plan) {
    && NoRepeats(DecisionIds(plan.targets)) && NoRepeats(plan.dependents) && NoRepeats(plan.itemIds)
    && (forall row :: row in plan.targets ==> IsTarget(t, row.decisionId) && row == Row(t, row.decisionId))
    && (forall d :: IsTarget(t, d) ==> d in DecisionIds(plan.targets))
    && (forall p :: p in plan.dependents <==> IsDependent(t, p))
    && (forall i :: i in plan.itemIds <==> AffectedItem(t, i))
  }

  // ---------------------------------------------------------------- the transaction

  function Superseded(d: Decision, now: string): Decision {
    if d.supersededAt.None? then d.(supersededAt := Some(now)) else d
  }

  function Staled(p: Proposal): Proposal {
    p.(status := "stale", isStale := true, reason := Some(REASON))
  }

  predicate IsLive(t: Tables, d: string) {
    d in t.decisions && t.decisions[d].supersededAt.None?
  }

  function ToEvent(row: Target, now: string): Event {
    Event(row.decisionId, row.proposalId, row.runId, row.sku, row.workspaceId, now)
  }

  /** A decision somebody else repaired meanwhile changes nothing and gets no event. */
  function ApplyTarget(t: Tables, row: Target, now: string): Tables {
    if !IsLive(t, row.decisionId) then t
    else t.(decisions := t.decisions[row.decisionId := Superseded(t.decisions[row.decisionId], now)],
            proposals := if row.proposalId in t.proposals
                         then t.proposals[row.proposalId := Staled(t.proposals[row.proposalId])] else t.proposals,
            history := t.history + [ToEvent(row, now)])
  }

  function ApplyDependent(t: Tables, p: string, now: string): Tables {
    t.(proposals := if p in t.proposals && t.proposals[p].supersededAt.None?
                    then t.proposals[p := Staled(t.proposals[p])] else t.proposals,
       decisions := map d | d in t.decisions ::
                      if t.decisions[d].proposalId == p then Superseded(t.decisions[d], now) else t.decisions[d])
  }

  predicate CanInvalidate(v: Review) {
    v.reviewedAt.Some? && v.invalidatedAt.None?
  }

  function Invalidated(v: Review, now: string): Review {
    if CanInvalidate(v)
    then v.(invalidatedAt := Some(now), reason := Some(REASON), approvedAt := None, approvedBy := None,
            updatedAt := now)
    else v
  }

  function Returned(i: Item, now: string): Item {
    if i.stage == "promotion" then Item("review", "pending", now) else i
  }

  function ApplyItem(t: Tables, i: string, now: string): Tables {
    t.(reviews := if i in t.reviews then t.reviews[i := Invalidated(t.reviews[i], now)] else t.reviews,
       items := if i in t.items then t.items[i := Returned(t.items[i], now)] else t.items)
  }

  function ApplyTargets(t: Tables, rows: seq<Target>, now: string): Tables {
    if rows == [] then t else ApplyTarget(ApplyTargets(t, rows[..|rows| - 1], now), rows[|rows| - 1], now)
  }

  function ApplyDependents(t: Tables, ps: seq<string>, now: string): Tables {
    if ps == [] then t else ApplyDependent(ApplyDependents(t, ps[..|ps| - 1], now), ps[|ps| - 1], now)
  }

  function ApplyItems(t: Tables, ids: seq<string>, now: string): Tables {
    if ids == [] then t else ApplyItem(ApplyItems(t, ids[..|ids| - 1], now), ids[|ids| - 1], now)
  }

  function Apply(t: Tables, plan: Plan, now: string): Tables {
    ApplyItems(ApplyDependents(ApplyTargets(t, plan.targets, now), plan.dependents, now), plan.itemIds, now)
  }

  /** The rows whose decision is still live. */
  function LiveRows(t: Tables, rows: seq<Target>): seq<Target> {
    if rows == [] then []
    else
      var n := |rows| - 1;
      LiveRows(t, rows[..n]) + (if IsLive(t, rows[n].decisionId) then [rows[n]] else [])
  }

  function ToEvents(rows: seq<Target>, now: string): (r: seq<Event>)
    ensures |r| == |rows|
    ensures forall i :: 0 <= i < |r| ==> r[i] == ToEvent(rows[i], now)
  {
    seq(|rows|, i requires 0 <= i < |rows| => ToEvent(rows[i], now))
  }

  // ---------------------------------------------------------------- each loop, row by row

  ghost predicate StalesProposal(t: Tables, rows: seq<Target>, p: string) {
    exists row :: row in rows && row.proposalId == p && IsLive(t, row.decisionId)
  }

  lemma IdsStep(rows: seq<Target>)
    requires rows != [] && NoRepeats(DecisionIds(rows))
    ensures var n := |rows| - 1;
            && NoRepeats(DecisionIds(rows[..n])) && rows[n].decisionId !in DecisionIds(rows[..n])
            && DecisionIds(rows) == DecisionIds(rows[..n]) + [rows[n].decisionId]
  {
    var n := |rows| - 1;
    assert forall i :: 0 <= i < n ==> DecisionIds(rows[..n])[i] == DecisionIds(rows)[i];
  }

  /** What the first loop does to the decisions and the log, for a selection that may be out of date. */
  lemma {:induction false} TargetsFrame(t: Tables, rows: seq<Target>, now: string)
    ensures var u := ApplyTargets(t, rows, now);
            && u.runs == t.runs && u.items == t.items && u.reviews == t.reviews
            && u.decisions.Keys == t.decisions.Keys && u.proposals.Keys == t.proposals.Keys
  {
    if rows != [] {
      TargetsFrame(t, rows[..|rows| - 1], now);
    }
  }

  lemma {:induction false} TargetsApplied(t: Tables, rows: seq<Target>, now: string)
    requires NoRepeats(DecisionIds(rows))
    ensures var u := ApplyTargets(t, rows, now);
            && u.runs == t.runs && u.items == t.items && u.reviews == t.reviews
            && u.decisions.Keys == t.decisions.Keys && u.proposals.Keys == t.proposals.Keys
            && u.history == t.history + ToEvents(LiveRows(t, rows), now)
    ensures var u := ApplyTargets(t, rows, now);
            forall d :: d in t.decisions ==>
              u.decisions[d] == if d in DecisionIds(rows) then Superseded(t.decisions[d], now) else t.decisions[d]
  {
    TargetsFrame(t, rows, now);
    if rows != [] {
      var n := |rows| - 1;
      IdsStep(rows);
      TargetsApplied(t, rows[..n], now);
      EventsExtend(t, rows, now);
    }
  }

  lemma {:induction false} EventsExtend(t: Tables, rows: seq<Target>, now: string)
    requires rows != []
    ensures var n := |rows| - 1; var earlier := t.history + ToEvents(LiveRows(t, rows[..n]), now);
            t.history + ToEvents(LiveRows(t, rows), now) ==
            if IsLive(t, rows[n].decisionId) then earlier + [ToEvent(rows[n], now)] else earlier
  {
    var n := |rows| - 1;
    var live := LiveRows(t, rows[..n]);
    if IsLive(t, rows[n].decisionId) {
      AppendEvent(t.history, live, rows[n], now);
    } else {
      assert LiveRows(t, rows) == live;
    }
  }

  lemma AppendEvent(log: seq<Event>, rows: seq<Target>, row: Target, now: string)
    ensures log + ToEvents(rows + [row], now) == log + ToEvents(rows, now) + [ToEvent(row, now)]
  {
    assert ToEvents(rows + [row], now) == ToEvents(rows, now) + [ToEvent(row, now)];
  }

  /** What it does to the proposals. */
  lemma {:induction false} TargetsStaled(t: Tables, rows: seq<Target>, now: string)
    requires NoRepeats(DecisionIds(rows))
    ensures var u := ApplyTargets(t, rows, now);
            && u.proposals.Keys == t.proposals.Keys
            && forall p :: p in t.proposals ==>
                 u.proposals[p] == if StalesProposal(t, rows, p) then Staled(t.proposals[p]) else t.proposals[p]
  {
    if rows != [] {
      var n := |rows| - 1;
      IdsStep(rows);
      TargetsApplied(t, rows[..n], now);
      TargetsStaled(t, rows[..n], now);
      forall p ensures StalesProposal(t, rows, p) <==>
                       StalesProposal(t, rows[..n], p) || (rows[n].proposalId == p && IsLive(t, rows[n].decisionId))
      {
        LastStales(t, rows, p);
      }
    }
  }

  lemma LastStales(t: Tables, rows: seq<Target>, p: string)
    requires rows != []
    ensures var n := |rows| - 1;
            StalesProposal(t, rows, p) <==>
            StalesProposal(t, rows[..n], p) || (rows[n].proposalId == p && IsLive(t, rows[n].decisionId))
  {
    var n := |rows| - 1;
    assert rows == rows[..n] + [rows[n]];
    if StalesProposal(t, rows[..n], p) {
      var row :| row in rows[..n] && row.proposalId == p && IsLive(t, row.decisionId);
      assert row in rows;
    }
  }

  lemma {:induction false} DependentsApplied(t: Tables, ps: seq<string>, now: string)
    ensures var u := ApplyDependents(t, ps, now);
            && u.runs == t.runs && u.items == t.items && u.reviews == t.reviews && u.history == t.history
            && u.decisions.Keys == t.decisions.Keys && u.proposals.Keys == t.proposals.Keys
    ensures var u := ApplyDependents(t, ps, now);
            forall d :: d in t.decisions ==>
              u.decisions[d] ==
              if t.decisions[d].proposalId in ps then Superseded(t.decisions[d], now) else t.decisions[d]
    ensures var u := ApplyDependents(t, ps, now);
            forall p :: p in t.proposals ==>
              u.proposals[p] ==
              if p in ps && t.proposals[p].supersededAt.None? then Staled(t.proposals[p]) else t.proposals[p]
  {
    if ps != [] {
      var n := |ps| - 1;
      DependentsApplied(t, ps[..n], now);
      assert ps == ps[..n] + [ps[n]];
    }
  }

  lemma {:induction false} ItemsApplied(t: Tables, ids: seq<string>, now: string)
    ensures var u := ApplyItems(t, ids, now);
            && u.runs == t.runs && u.decisions == t.decisions && u.proposals == t.proposals && u.history == t.history
            && u.items.Keys == t.items.Keys && u.reviews.Keys == t.reviews.Keys
    ensures var u := ApplyItems(t, ids, now);
            && (forall i :: i in t.items ==> u.items[i] == if i in ids then Returned(t.items[i], now) else t.items[i])
            && (forall i :: i in t.reviews ==>
                u.reviews[i] == if i in ids then Invalidated(t.reviews[i], now) else t.reviews[i])
  {
    if ids != [] {
      var n := |ids| - 1;
      ItemsApplied(t, ids[..n], now);
      assert ids == ids[..n] + [ids[n]];
    }
  }

  // ---------------------------------------------------------------- what one run does

  ghost predicate TargetProposal(t: Tables, p: string) {
    exists d :: IsTarget(t, d) && Row(t, d).proposalId == p
  }

  lemma {:induction false} AllLive(t: Tables, rows: seq<Target>)
    requires forall row :: row in rows ==> IsLive(t, row.decisionId)
    ensures LiveRows(t, rows) == rows
  {
    if rows != [] {
      AllLive(t, rows[..|rows| - 1]);
      assert rows[|rows| - 1] in rows;
    }
  }

  lemma PlannedTargets(t: Tables, plan: Plan)
    requires PlanFor(t, plan)
    ensures forall d :: d in DecisionIds(plan.targets) <==> IsTarget(t, d)
    ensures forall p :: StalesProposal(t, plan.targets, p) <==> TargetProposal(t, p)
    ensures LiveRows(t, plan.targets) == plan.targets
  {
    var rows := plan.targets;
    forall d | d in DecisionIds(rows) ensures IsTarget(t, d) {
      var i :| 0 <= i < |rows| && DecisionIds(rows)[i] == d;
      assert rows[i] in rows;
    }
    forall p | TargetProposal(t, p) ensures StalesProposal(t, rows, p) {
      var d :| IsTarget(t, d) && Row(t, d).proposalId == p;
      var i :| 0 <= i < |rows| && DecisionIds(rows)[i] == d;
      assert rows[i] in rows && rows[i] == Row(t, d);
    }
    AllLive(t, rows);
  }

  lemma RepairsDecisions(t: Tables, plan: Plan, now: string)
    requires PlanFor(t, plan)
    ensures var u := ApplyDependents(ApplyTargets(t, plan.targets, now), plan.dependents, now);
            && u.decisions.Keys == t.decisions.Keys && u.history == t.history + ToEvents(plan.targets, now)
            && forall d :: d in t.decisions ==>
                 u.decisions[d] == if IsTarget(t, d) || IsDependent(t, t.decisions[d].proposalId)
                                   then Superseded(t.decisions[d], now) else t.decisions[d]
  {
    PlannedTargets(t, plan);
    TargetsApplied(t, plan.targets, now);
    var a := ApplyTargets(t, plan.targets, now);
    DependentsApplied(a, plan.dependents, now);
    forall d | d in t.decisions ensures a.decisions[d].proposalId == t.decisions[d].proposalId {
    }
  }

  lemma RepairsProposals(t: Tables, plan: Plan, now: string)
    requires PlanFor(t, plan)
    ensures var u := ApplyDependents(ApplyTargets(t, plan.targets, now), plan.dependents, now);
            && u.runs == t.runs && u.items == t.items && u.reviews == t.reviews && u.proposals.Keys == t.proposals.Keys
            && forall p :: p in t.proposals ==>
                 u.proposals[p] ==
                 if TargetProposal(t, p) || IsDependent(t, p) then Staled(t.proposals[p]) else t.proposals[p]
  {
    PlannedTargets(t, plan);
    TargetsApplied(t, plan.targets, now);
    TargetsStaled(t, plan.targets, now);
    var a := ApplyTargets(t, plan.targets, now);
    DependentsApplied(a, plan.dependents, now);
    forall p | p in plan.dependents
      ensures p in t.proposals && !TargetProposal(t, p) && a.proposals[p].supersededAt.None?
    {
      assert IsDependent(t, p);
    }
  }

  /**
   One run, row by row: the selected decisions and those of dependent proposals are superseded, the
   selected and the dependent proposals go stale, affected items in promotion return to review, their
   reviews are invalidated, each selected decision gets one event, and nothing else changes.
   */
  lemma RepairsExactly(t: Tables, plan: Plan, now: string)
    requires PlanFor(t, plan)
    ensures var u := Apply(t, plan, now);
            && u.runs == t.runs && u.decisions.Keys == t.decisions.Keys && u.proposals.Keys == t.proposals.Keys
            && u.items.Keys == t.items.Keys && u.reviews.Keys == t.reviews.Keys
            && u.history == t.history + ToEvents(plan.targets, now)
    ensures var u := Apply(t, plan, now);
            forall d :: d in t.decisions ==>
              u.decisions[d] == if IsTarget(t, d) || IsDependent(t, t.decisions[d].proposalId)
                                then Superseded(t.decisions[d], now) else t.decisions[d]
    ensures var u := Apply(t, plan, now);
            forall p :: p in t.proposals ==>
              u.proposals[p] ==
              if TargetProposal(t, p) || IsDependent(t, p) then Staled(t.proposals[p]) else t.proposals[p]
    ensures var u := Apply(t, plan, now);
            && (forall i :: i in t.items ==>
                  u.items[i] == if AffectedItem(t, i) then Returned(t.items[i], now) else t.items[i])
            && (forall i :: i in t.reviews ==>
                  u.reviews[i] == if AffectedItem(t, i) then Invalidated(t.reviews[i], now) else t.reviews[i])
  {
    RepairsDecisions(t, plan, now);
    RepairsProposals(t, plan, now);
    ItemsApplied(ApplyDependents(ApplyTargets(t, plan.targets, now), plan.dependents, now), plan.itemIds, now);
  }

  /** Afterwards nothing is left to repair. */
  lemma NothingIsLeft(t: Tables, plan: Plan, now: string)
    requires PlanFor(t, plan)
    ensures var u := Apply(t, plan, now);
            && (forall d :: !IsTarget(u, d))
            && (forall p :: p in u.proposals && AffectedRun(t, u.proposals[p].runId) ==>
                !IsOpenDependent(u.proposals[p]))
            && (forall i :: i in u.items && AffectedItem(t, i) ==> u.items[i].stage != "promotion")
            && (forall i :: i in u.reviews && AffectedItem(t, i) ==> !CanInvalidate(u.reviews[i]))
  {
    RepairsExactly(t, plan, now);
    var u := Apply(t, plan, now);
    forall d ensures !IsTarget(u, d) {
      if IsTarget(t, d) {
        assert u.decisions[d].supersededAt.Some?;
      } else if d in t.decisions && t.decisions[d].proposalId in t.proposals {
        var p := t.decisions[d].proposalId;
        assert u.proposals[p] == t.proposals[p] || u.proposals[p] == Staled(t.proposals[p]);
      }
    }
  }

  lemma EmptyWithout<T>(s: seq<T>)
    ensures s == [] || exists x :: x in s
  {
    if s != [] {
      assert s[0] in s;
    }
  }

  /** A second run finds nothing, changes nothing and logs nothing. */
  lemma SecondRunIsIdle(t: Tables, plan: Plan, now: string, again: Plan, later: string)
    requires PlanFor(t, plan) && PlanFor(Apply(t, plan, now), again)
    ensures again == Plan([], [], []) && Apply(Apply(t, plan, now), again, later) == Apply(t, plan, now)
  {
    var u := Apply(t, plan, now);
    NothingIsLeft(t, plan, now);
    forall row ensures row !in again.targets {
    }
    EmptyWithout(again.targets);
    EmptyWithout(again.dependents);
    EmptyWithout(again.itemIds);
  }

  lemma {:induction false} NoneLive(t: Tables, rows: seq<Target>)
    requires forall row :: row in rows ==> !IsLive(t, row.decisionId)
    ensures LiveRows(t, rows) == []
  {
    if rows != [] {
      NoneLive(t, rows[..|rows| - 1]);
      assert rows[|rows| - 1] in rows;
    }
  }

  lemma {:induction false} StaleTargetsIdle(u: Tables, rows: seq<Target>, later: string)
    requires NoRepeats(DecisionIds(rows)) && forall d :: d in DecisionIds(rows) ==> !IsLive(u, d)
    ensures ApplyTargets(u, rows, later) == u
  {
    var a := ApplyTargets(u, rows, later);
    forall row | row in rows ensures !IsLive(u, row.decisionId) {
      var i :| 0 <= i < |rows| && rows[i] == row;
      assert DecisionIds(rows)[i] == row.decisionId;
    }
    NoneLive(u, rows);
    TargetsApplied(u, rows, later);
    TargetsStaled(u, rows, later);
    assert a.decisions == u.decisions && a.proposals == u.proposals && a.history == u.history;
  }

  lemma {:induction false} StaleDependentsIdle(u: Tables, ps: seq<string>, later: string)
    requires forall d :: d in u.decisions && u.decisions[d].proposalId in ps ==> u.decisions[d].supersededAt.Some?
    requires forall p :: p in u.proposals && p in ps ==> Staled(u.proposals[p]) == u.proposals[p]
    ensures ApplyDependents(u, ps, later) == u
  {
    var b := ApplyDependents(u, ps, later);
    DependentsApplied(u, ps, later);
    assert b.decisions == u.decisions && b.proposals == u.proposals;
  }

  lemma {:induction false} StaleItemsIdle(u: Tables, ids: seq<string>, later: string)
    requires forall i :: i in u.items && i in ids ==> u.items[i].stage != "promotion"
    requires forall i :: i in u.reviews && i in ids ==> !CanInvalidate(u.reviews[i])
    ensures ApplyItems(u, ids, later) == u
  {
    var c := ApplyItems(u, ids, later);
    ItemsApplied(u, ids, later);
    assert c.items == u.items && c.reviews == u.reviews;
  }

  /**
   Two runs that selected at the same time: whichever transaction comes second changes nothing and
   logs nothing, so no decision is logged twice.
   */
  lemma ConcurrentRunIsIdle(t: Tables, plan: Plan, now: string, other: Plan, later: string)
    requires PlanFor(t, plan) && PlanFor(t, other)
    ensures Apply(Apply(t, plan, now), other, later) == Apply(t, plan, now)
  {
    var u := Apply(t, plan, now);
    RepairsExactly(t, plan, now);
    NothingIsLeft(t, plan, now);
    PlannedTargets(t, other);
    StaleTargetsIdle(u, other.targets, later);
    forall d | d in u.decisions && u.decisions[d].proposalId in other.dependents
      ensures u.decisions[d].supersededAt.Some?
    {
      assert IsDependent(t, t.decisions[d].proposalId);
    }
    forall p | p in u.proposals && p in other.dependents ensures Staled(u.proposals[p]) == u.proposals[p] {
      assert IsDependent(t, p);
    }
    StaleDependentsIdle(u, other.dependents, later);
    StaleItemsIdle(u, other.itemIds, later);
  }

  /** Timestamps are only ever set; a superseded row keeps the time it has. */
  lemma TimestampsOnlySet(t: Tables, plan: Plan, now: string)
    requires PlanFor(t, plan)
    ensures var u := Apply(t, plan, now);
            && u.decisions.Keys == t.decisions.Keys && u.proposals.Keys == t.proposals.Keys
            && (forall d :: d in t.decisions ==>
                  u.decisions[d].supersededAt == t.decisions[d].supersededAt ||
                  (t.decisions[d].supersededAt.None? && u.decisions[d].supersededAt == Some(now)))
            && (forall p :: p in t.proposals ==> u.proposals[p].supersededAt == t.proposals[p].supersededAt)
  {
    RepairsExactly(t, plan, now);
  }

  function EventsFor(history: seq<Event>, d: string): nat {
    if history == [] then 0
    else EventsFor(history[..|history| - 1], d) + (if history[|history| - 1].decisionId == d then 1 else 0)
  }

  lemma OneMoreEvent(log: seq<Event>, e: Event, d: string)
    ensures EventsFor(log + [e], d) == EventsFor(log, d) + (if e.decisionId == d then 1 else 0)
  {
    assert (log + [e])[..|log|] == log;
  }

  lemma {:induction false} EventsForAppend(h: seq<Event>, rows: seq<Target>, d: string, now: string)
    requires NoRepeats(DecisionIds(rows))
    ensures EventsFor(h + ToEvents(rows, now), d) == EventsFor(h, d) + (if d in DecisionIds(rows) then 1 else 0)
  {
    if rows == [] {
      assert h + ToEvents(rows, now) == h;
    } else {
      var n := |rows| - 1;
      IdsStep(rows);
      EventsForAppend(h, rows[..n], d, now);
      assert h + ToEvents(rows, now) == (h + ToEvents(rows[..n], now)) + [ToEvent(rows[n], now)];
      OneMoreEvent(h + ToEvents(rows[..n], now), ToEvent(rows[n], now), d);
    }
  }

  /** Each selected decision gets exactly one event, every other one none. */
  lemma OneEventEach(t: Tables, plan: Plan, now: string, d: string)
    requires PlanFor(t, plan)
    ensures EventsFor(Apply(t, plan, now).history, d) == EventsFor(t.history, d) + (if IsTarget(t, d) then 1 else 0)
  {
    RepairsExactly(t, plan, now);
    PlannedTargets(t, plan);
    EventsForAppend(t.history, plan.targets, d, now);
  }

  // ---------------------------------------------------------------- the run

  datatype Metrics = Metrics(itemsExamined: nat, proposalsSuperseded: nat, dependentProposalsStaled: nat,
                             reviewStateRowsInvalidated: nat, promotionItemsReturned: nat, exportedItemsListed: nat)

  /** The named items that are in one of the given stages. */
  function ItemsAt(t: Tables, ids: seq<string>, stages: set<string>): set<string> {
    set i | i in ids && i in t.items && t.items[i].stage in stages
  }

  function CountInvalidated(t: Tables, ids: seq<string>): nat {
    if ids == [] then 0
    else
      var n := |ids| - 1;
      CountInvalidated(t, ids[..n]) + (if ids[n] in t.reviews && CanInvalidate(t.reviews[ids[n]]) then 1 else 0)
  }

  lemma {:induction false} SameCount(t: Tables, u: Tables, ids: seq<string>)
    requires t.reviews == u.reviews
    ensures CountInvalidated(t, ids) == CountInvalidated(u, ids)
  {
    if ids != [] {
      SameCount(t, u, ids[..|ids| - 1]);
    }
  }

  class Store {
    var decisions: map<string, Decision>
    var proposals: map<string, Proposal>
    const runs: map<string, Run>
    var items: map<string, Item>
    var reviews: map<string, Review>
    var history: seq<Event>

    constructor (t: Tables)
      ensures State() == t
    {
      decisions, proposals, runs := t.decisions, t.proposals, t.runs;
      items, reviews, history := t.items, t.reviews, t.history;
    }

    function State(): Tables
      reads this
    {
      Tables(decisions, proposals, runs, items, reviews, history)
    }

    method SelectTargets() returns (rows: seq<Target>)
      ensures NoRepeats(DecisionIds(rows))
      ensures forall row :: row in rows ==> IsTarget(State(), row.decisionId) && row == Row(State(), row.decisionId)
      ensures forall d :: IsTarget(State(), d) ==> d in DecisionIds(rows)
    {
      rows := [];
      var rest := decisions.Keys;
      while rest != {}
        invariant rest <= decisions.Keys && NoRepeats(DecisionIds(rows))
        invariant forall row :: row in rows ==>
                    IsTarget(State(), row.decisionId) && row == Row(State(), row.decisionId) && row.decisionId !in rest
        invariant forall d :: IsTarget(State(), d) ==> d in DecisionIds(rows) || d in rest
        decreases rest
      {
        var d :| d in rest;
        if IsTarget(State(), d) {
          AddRow(rows, Row(State(), d), rest);
          rows := rows + [Row(State(), d)];
        }
        rest := rest - {d};
      }
    }

    method SelectDependents(runIds: set<string>) returns (ps: seq<string>)
      ensures NoRepeats(ps)
      ensures forall p :: p in ps <==> p in proposals && IsOpenDependent(proposals[p]) && proposals[p].runId in runIds
    {
      ps := [];
      var rest := proposals.Keys;
      while rest != {}
        invariant rest <= proposals.Keys && NoRepeats(ps) && forall p :: p in ps ==> p !in rest
        invariant forall p :: p in ps <==>
                    p in proposals && p !in rest && IsOpenDependent(proposals[p]) && proposals[p].runId in runIds
        decreases rest
      {
        var p :| p in rest;
        if IsOpenDependent(proposals[p]) && proposals[p].runId in runIds {
          ps := ps + [p];
        }
        rest := rest - {p};
      }
    }

    /** The two audit queries over the named items. */
    method CountItems(ids: seq<string>, stages: set<string>) returns (n: nat)
      requires NoRepeats(ids)
      ensures n == |ItemsAt(State(), ids, stages)|
    {
      n := 0;
      for k := 0 to |ids|
        invariant n == |ItemsAt(State(), ids[..k], stages)|
      {
        NextItem(State(), ids, k, stages);
        if ids[k] in items && items[ids[k]].stage in stages {
          n := n + 1;
        }
      }
      assert ids[..|ids|] == ids;
    }

    method ApplyRow(row: Target, now: string)
      modifies this
      ensures State() == ApplyTarget(old(State()), row, now)
    {
      if row.decisionId !in decisions || decisions[row.decisionId].supersededAt.Some? {
        return;
      }
      decisions := decisions[row.decisionId := decisions[row.decisionId].(supersededAt := Some(now))];
      if row.proposalId in proposals {
        proposals := proposals[row.proposalId := Staled(proposals[row.proposalId])];
      }
      history := history + [Event(row.decisionId, row.proposalId, row.runId, row.sku, row.workspaceId, now)];
    }

    method ApplyDependentRow(p: string, now: string)
      modifies this
      ensures State() == ApplyDependent(old(State()), p, now)
    {
      if p in proposals && proposals[p].supersededAt.None? {
        proposals := proposals[p := Staled(proposals[p])];
      }
      decisions := map d | d in decisions ::
                     if decisions[d].proposalId == p then Superseded(decisions[d], now) else decisions[d];
    }

    method MarkReviewInvalidated(item: string, now: string) returns (changed: bool)
      modifies this`reviews
      ensures changed <==> item in old(reviews) && CanInvalidate(old(reviews)[item])
      ensures reviews ==
              if item in old(reviews) then old(reviews)[item := Invalidated(old(reviews)[item], now)] else old(reviews)
    {
      changed := item in reviews && CanInvalidate(reviews[item]);
      if changed {
        reviews := reviews[item := Invalidated(reviews[item], now)];
      } else if item in reviews {
        assert reviews == reviews[item := reviews[item]];
      }
    }

    method ApplyItemRow(item: string, now: string) returns (invalidated: bool)
      modifies this
      ensures State() == ApplyItem(old(State()), item, now)
      ensures invalidated <==> item in old(reviews) && CanInvalidate(old(reviews)[item])
    {
      invalidated := MarkReviewInvalidated(item, now);
      if item in items {
        if items[item].stage == "promotion" {
          items := items[item := Item("review", "pending", now)];
        } else {
          assert items == items[item := items[item]];
        }
      }
    }

    /** The transaction. */
    method Transact(plan: Plan, now: string) returns (invalidated: nat)
      requires NoRepeats(plan.itemIds)
      modifies this
      ensures State() == Apply(old(State()), plan, now)
      ensures invalidated == CountInvalidated(old(State()), plan.itemIds)
    {
      ghost var t := State();
      for n := 0 to |plan.targets|
        invariant State() == ApplyTargets(t, plan.targets[..n], now)
      {
        ApplyRow(plan.targets[n], now);
        assert plan.targets[..n + 1][..n] == plan.targets[..n];
      }
      assert plan.targets[..|plan.targets|] == plan.targets;
      ghost var a := State();
      for n := 0 to |plan.dependents|
        invariant State() == ApplyDependents(a, plan.dependents[..n], now)
      {
        ApplyDependentRow(plan.dependents[n], now);
        assert plan.dependents[..n + 1][..n] == plan.dependents[..n];
      }
      assert plan.dependents[..|plan.dependents|] == plan.dependents;
      ReviewsUntouched(t, plan.targets, plan.dependents, now);
      SameCount(t, State(), plan.itemIds);
      invalidated := TransactItems(plan.itemIds, now);
    }

    method TransactItems(ids: seq<string>, now: string) returns (invalidated: nat)
      requires NoRepeats(ids)
      modifies this
      ensures State() == ApplyItems(old(State()), ids, now)
      ensures invalidated == CountInvalidated(old(State()), ids)
    {
      ghost var t := State();
      invalidated := 0;
      for n := 0 to |ids|
        invariant State() == ApplyItems(t, ids[..n], now) && invalidated == CountInvalidated(t, ids[..n])
      {
        ItemsApplied(t, ids[..n], now);
        assert ids[..n + 1][..n] == ids[..n];
        var changed := ApplyItemRow(ids[n], now);
        if changed { invalidated := invalidated + 1; }
      }
      assert ids[..|ids|] == ids;
    }

    /** The whole run over a store nobody else writes to. */
    method Repair(apply: bool, now: string) returns (m: Metrics, ghost plan: Plan)
      modifies this
      ensures PlanFor(old(State()), plan)
      ensures State() == if apply then Apply(old(State()), plan, now) else old(State())
      ensures m.itemsExamined == |plan.itemIds| && m.proposalsSuperseded == |plan.targets|
      ensures m.dependentProposalsStaled == |plan.dependents|
      ensures apply ==> |history| == |old(history)| + m.proposalsSuperseded
      ensures m.reviewStateRowsInvalidated == if apply then CountInvalidated(old(State()), plan.itemIds) else 0
      ensures m.promotionItemsReturned == |ItemsAt(old(State()), plan.itemIds, {"promotion"})|
      ensures m.exportedItemsListed == |ItemsAt(old(State()), plan.itemIds, {"promoted", "exported"})|
    {
      ghost var t := State();
      var targets := SelectTargets();
      var runIds, itemIds := RunsAndItems(targets);
      var dependents := SelectDependents(runIds);
      plan := Plan(targets, dependents, itemIds);
      PlanIsExact(t, plan, runIds);
      var promotion := CountItems(itemIds, {"promotion"});
      var exported := CountItems(itemIds, {"promoted", "exported"});
      m := Metrics(|itemIds|, |targets|, |dependents|, 0, promotion, exported);
      if apply {
        RepairsExactly(t, plan, now);
        var invalidated := Transact(Plan(targets, dependents, itemIds), now);
        m := m.(reviewStateRowsInvalidated := invalidated);
      }
    }
  }

  lemma NextItem(t: Tables, ids: seq<string>, k: nat, stages: set<string>)
    requires NoRepeats(ids) && k < |ids|
    ensures ids[k] !in ItemsAt(t, ids[..k], stages)
    ensures ItemsAt(t, ids[..k + 1], stages) == ItemsAt(t, ids[..k], stages) + ItemsAt(t, [ids[k]], stages)
    ensures ItemsAt(t, [ids[k]], stages)
            == if ids[k] in t.items && t.items[ids[k]].stage in stages then {ids[k]} else {}
  {
    assert ids[..k + 1] == ids[..k] + [ids[k]];
  }

  lemma AddRow(rows: seq<Target>, row: Target, rest: set<string>)
    requires NoRepeats(DecisionIds(rows)) && row.decisionId in rest
    requires forall r :: r in rows ==> r.decisionId !in rest
    ensures NoRepeats(DecisionIds(rows + [row]))
    ensures DecisionIds(rows + [row]) == DecisionIds(rows) + [row.decisionId]
  {
    forall i | 0 <= i < |rows| ensures DecisionIds(rows)[i] != row.decisionId {
      assert rows[i] in rows;
    }
  }

  lemma {:induction false} ReviewsUntouched(t: Tables, rows: seq<Target>, ps: seq<string>, now: string)
    ensures ApplyDependents(ApplyTargets(t, rows, now), ps, now).reviews == t.reviews
    decreases |rows| + |ps|
  {
    if ps != [] {
      ReviewsUntouched(t, rows, ps[..|ps| - 1], now);
    } else if rows != [] {
      ReviewsUntouched(t, rows[..|rows| - 1], ps, now);
    }
  }

  /** The distinct runs and the distinct named items of the selected rows. */
  method RunsAndItems(rows: seq<Target>) returns (runIds: set<string>, itemIds: seq<string>)
    ensures forall r :: r in runIds <==> exists row :: row in rows && row.runId == r
    ensures NoRepeats(itemIds)
    ensures forall i :: i in itemIds <==> i != "" && exists row :: row in rows && row.itemId == Some(i)
  {
    runIds, itemIds := {}, [];
    for n := 0 to |rows|
      invariant forall r :: r in runIds <==> exists k :: 0 <= k < n && rows[k].runId == r
      invariant NoRepeats(itemIds)
      invariant forall i :: i in itemIds <==> i != "" && exists k :: 0 <= k < n && rows[k].itemId == Some(i)
    {
      var row := rows[n];
      runIds := runIds + {row.runId};
      if row.itemId.Some? && row.itemId.value != "" && row.itemId.value !in itemIds {
        itemIds := itemIds + [row.itemId.value];
      }
    }
  }

  lemma PlanIsExact(t: Tables, plan: Plan, runIds: set<string>)
    requires NoRepeats(DecisionIds(plan.targets)) && NoRepeats(plan.dependents) && NoRepeats(plan.itemIds)
    requires forall row :: row in plan.targets ==> IsTarget(t, row.decisionId) && row == Row(t, row.decisionId)
    requires forall d :: IsTarget(t, d) ==> d in DecisionIds(plan.targets)
    requires forall r :: r in runIds <==> exists row :: row in plan.targets && row.runId == r
    requires forall i :: i in plan.itemIds <==> i != "" && exists row :: row in plan.targets && row.itemId == Some(i)
    requires forall p :: p in plan.dependents <==>
             p in t.proposals && IsOpenDependent(t.proposals[p]) && t.proposals[p].runId in runIds
    ensures PlanFor(t, plan)
  {
    forall d | IsTarget(t, d) ensures Row(t, d) in plan.targets {
      var i :| 0 <= i < |plan.targets| && DecisionIds(plan.targets)[i] == d;
      assert plan.targets[i] in plan.targets;
    }
    forall r ensures r in runIds <==> AffectedRun(t, r) {
      if AffectedRun(t, r) {
        var d :| IsTarget(t, d) && Row(t, d).runId == r;
        assert Row(t, d) in plan.targets;
      }
    }
    forall i ensures i in plan.itemIds <==> AffectedItem(t, i) {
      if AffectedItem(t, i) {
        var d :| IsTarget(t, d) && Row(t, d).itemId == Some(i);
        assert Row(t, d) in plan.targets;
      }
    }
  }
}
