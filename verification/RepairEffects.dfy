/**
 What one applied repair leaves in every table, field by field, and which rows it touches, stated on the
 rows alone.
 */
module RepairEffects {
  import opened Common
  import opened AutoAcceptRepair

  // ---------------------------------------------------------------- which rows

  /** A live primary-type decision of the system, with a live proposal and a run. */
  ghost predicate AutoAccepted(t: Tables, d: string) {
    && d in t.decisions
    && (t.decisions[d].reviewerId == "system_auto_accept" || t.decisions[d].origin == "system_auto_accept")
    && t.decisions[d].supersededAt == None
    && t.decisions[d].proposalId in t.proposals
    && t.proposals[t.decisions[d].proposalId].kind == PrimaryProductType
    && t.proposals[t.decisions[d].proposalId].supersededAt == None
    && t.proposals[t.decisions[d].proposalId].runId in t.runs
  }

  ghost predicate RunTouched(t: Tables, r: string) {
    exists d :: AutoAccepted(t, d) && t.proposals[t.decisions[d].proposalId].runId == r
  }

  ghost predicate ItemTouched(t: Tables, i: string) {
    && i != ""
    && exists d :: AutoAccepted(t, d) && t.runs[t.proposals[t.decisions[d].proposalId].runId].itemId == Some(i)
  }

  /** A category or field proposal of a touched run that is neither superseded nor stale yet. */
  ghost predicate Depends(t: Tables, p: string) {
    && p in t.proposals && (t.proposals[p].kind == CategoryPage || t.proposals[p].kind == FieldAssignment)
    && t.proposals[p].supersededAt == None && t.proposals[p].status != "stale"
    && RunTouched(t, t.proposals[p].runId)
  }

  /** The proposal of an auto-accepted decision. */
  ghost predicate Accepted(t: Tables, p: string) {
    exists d :: AutoAccepted(t, d) && t.decisions[d].proposalId == p
  }

  lemma TargetExactly(t: Tables, d: string)
    ensures IsTarget(t, d) <==> AutoAccepted(t, d)
    ensures IsTarget(t, d) ==>
              var p := t.decisions[d].proposalId; var r := t.proposals[p].runId;
              Row(t, d) == Target(d, p, r, t.proposals[p].sku, t.runs[r].itemId, t.runs[r].workspaceId)
  {
  }

  /** The rows the run selects, each once. */
  lemma SelectedExactly(t: Tables)
    ensures forall d :: IsTarget(t, d) <==> AutoAccepted(t, d)
    ensures forall r :: AffectedRun(t, r) <==> RunTouched(t, r)
    ensures forall i :: AffectedItem(t, i) <==> ItemTouched(t, i)
    ensures forall p :: IsDependent(t, p) <==> Depends(t, p)
    ensures forall p :: TargetProposal(t, p) <==> Accepted(t, p)
  {
    forall d ensures IsTarget(t, d) <==> AutoAccepted(t, d) {
      TargetExactly(t, d);
    }
    forall r ensures AffectedRun(t, r) <==> RunTouched(t, r) {
      if AffectedRun(t, r) {
        var d :| IsTarget(t, d) && Row(t, d).runId == r;
        assert AutoAccepted(t, d);
      }
      if RunTouched(t, r) {
        var d :| AutoAccepted(t, d) && t.proposals[t.decisions[d].proposalId].runId == r;
        assert IsTarget(t, d);
      }
    }
    ItemsSelected(t);
    forall p ensures TargetProposal(t, p) <==> Accepted(t, p) {
      if TargetProposal(t, p) {
        var d :| IsTarget(t, d) && Row(t, d).proposalId == p;
        assert AutoAccepted(t, d);
      }
      if Accepted(t, p) {
        var d :| AutoAccepted(t, d) && t.decisions[d].proposalId == p;
        assert IsTarget(t, d);
      }
    }
  }

  lemma ItemsSelected(t: Tables)
    ensures forall i :: AffectedItem(t, i) <==> ItemTouched(t, i)
  {
    forall i ensures AffectedItem(t, i) <==> ItemTouched(t, i) {
      if AffectedItem(t, i) {
        var d :| IsTarget(t, d) && Row(t, d).itemId == Some(i);
        assert AutoAccepted(t, d);
      }
      if ItemTouched(t, i) {
        var d :| AutoAccepted(t, d) && t.runs[t.proposals[t.decisions[d].proposalId].runId].itemId == Some(i);
        assert IsTarget(t, d);
      }
    }
  }

  // ---------------------------------------------------------------- which fields

  /**
   Where a touched item goes: from promotion back to a pending review at the time of the repair. Every
   other item stays as it is.
   */
  lemma ItemsReturn(t: Tables, plan: Plan, now: string)
    requires PlanFor(t, plan)
    ensures var u := Apply(t, plan, now);
            && u.items.Keys == t.items.Keys
            && forall i :: i in t.items ==>
                 u.items[i] == if ItemTouched(t, i) && t.items[i].stage == "promotion"
                               then Item("review", "pending", now) else t.items[i]
  {
    RepairsExactly(t, plan, now);
    ItemsSelected(t);
  }

  /** A live review of a touched item loses its approval and is invalidated, with time and reason. */
  lemma ReviewsInvalidate(t: Tables, plan: Plan, now: string)
    requires PlanFor(t, plan)
    ensures var u := Apply(t, plan, now);
            && u.reviews.Keys == t.reviews.Keys
            && forall i :: i in t.reviews ==>
                 u.reviews[i] ==
                 if ItemTouched(t, i) && t.reviews[i].reviewedAt != None && t.reviews[i].invalidatedAt == None
                 then Review(t.reviews[i].reviewedAt, Some(now), Some("historical_auto_accept_repaired"), None, None,
                             now)
                 else t.reviews[i]
  {
    RepairsExactly(t, plan, now);
    ItemsSelected(t);
  }

  /** The accepted and the dependent proposals are stale, with the reason; no proposal is superseded. */
  lemma ProposalsStale(t: Tables, plan: Plan, now: string)
    requires PlanFor(t, plan)
    ensures var u := Apply(t, plan, now);
            && u.proposals.Keys == t.proposals.Keys
            && forall p :: p in t.proposals ==>
                 u.proposals[p] ==
                 if Accepted(t, p) || Depends(t, p)
                 then Proposal(t.proposals[p].runId, t.proposals[p].sku, t.proposals[p].kind, "stale", true,
                               Some("historical_auto_accept_repaired"), t.proposals[p].supersededAt)
                 else t.proposals[p]
  {
    RepairsExactly(t, plan, now);
    SelectedExactly(t);
  }

  /** The accepted decisions, and the live ones on dependent proposals, are superseded now. */
  lemma DecisionsSuperseded(t: Tables, plan: Plan, now: string)
    requires PlanFor(t, plan)
    ensures var u := Apply(t, plan, now);
            && u.decisions.Keys == t.decisions.Keys && u.runs == t.runs
            && forall d :: d in t.decisions ==>
                 u.decisions[d] ==
                 if (AutoAccepted(t, d) || Depends(t, t.decisions[d].proposalId))
                    && t.decisions[d].supersededAt == None
                 then Decision(t.decisions[d].proposalId, t.decisions[d].reviewerId, t.decisions[d].origin, Some(now))
                 else t.decisions[d]
  {
    RepairsExactly(t, plan, now);
    SelectedExactly(t);
  }

  /** The entry of an accepted decision: its ids, its run's workspace and the time. */
  ghost predicate EntryOf(t: Tables, e: Event, now: string) {
    && AutoAccepted(t, e.decisionId)
    && var p := t.decisions[e.decisionId].proposalId; var r := t.proposals[p].runId;
    e == Event(e.decisionId, p, r, t.proposals[p].sku, t.runs[r].workspaceId, now)
  }

  lemma LogGrows(t: Tables, plan: Plan, now: string)
    requires PlanFor(t, plan)
    ensures Apply(t, plan, now).history == t.history + ToEvents(plan.targets, now)
  {
    RepairsExactly(t, plan, now);
  }

  lemma NewEntry(t: Tables, plan: Plan, now: string, k: nat)
    requires PlanFor(t, plan) && k < |plan.targets|
    ensures EntryOf(t, ToEvents(plan.targets, now)[k], now)
    ensures ToEvents(plan.targets, now)[k].decisionId == DecisionIds(plan.targets)[k]
  {
    assert plan.targets[k] in plan.targets;
    TargetExactly(t, plan.targets[k].decisionId);
  }

  /** The log keeps what it had and gains one entry for each accepted decision, and no other. */
  lemma EventsLogged(t: Tables, plan: Plan, now: string) returns (entries: seq<Event>)
    requires PlanFor(t, plan)
    ensures Apply(t, plan, now).history == t.history + entries
    ensures forall e :: e in entries ==> EntryOf(t, e, now)
    ensures forall j, k :: 0 <= j < k < |entries| ==> entries[j].decisionId != entries[k].decisionId
    ensures forall d :: AutoAccepted(t, d) ==> exists e :: e in entries && e.decisionId == d
  {
    entries := ToEvents(plan.targets, now);
    LogGrows(t, plan, now);
    forall k | 0 <= k < |entries|
      ensures EntryOf(t, entries[k], now) && entries[k].decisionId == DecisionIds(plan.targets)[k]
    {
      NewEntry(t, plan, now, k);
    }
    forall d | AutoAccepted(t, d) ensures exists e :: e in entries && e.decisionId == d {
      TargetExactly(t, d);
      var k :| 0 <= k < |plan.targets| && DecisionIds(plan.targets)[k] == d;
      assert entries[k] in entries;
    }
  }

  // ---------------------------------------------------------------- the metrics

  ghost function LiveReviews(t: Tables, ids: seq<string>): set<string> {
    set i | i in ids && i in t.reviews && t.reviews[i].reviewedAt != None && t.reviews[i].invalidatedAt == None
  }

  /** The number of invalidated rows is that of the touched items with a live review. */
  lemma {:induction false} InvalidatedNumber(t: Tables, ids: seq<string>)
    requires NoRepeats(ids)
    ensures CountInvalidated(t, ids) == |LiveReviews(t, ids)|
  {
    if ids == [] {
      assert LiveReviews(t, ids) == {};
    } else {
      var n := |ids| - 1;
      InvalidatedNumber(t, ids[..n]);
      assert ids == ids[..n] + [ids[n]] && ids[n] !in ids[..n];
      if ids[n] in t.reviews && CanInvalidate(t.reviews[ids[n]]) {
        assert LiveReviews(t, ids) == LiveReviews(t, ids[..n]) + {ids[n]};
      } else {
        assert LiveReviews(t, ids) == LiveReviews(t, ids[..n]);
      }
    }
  }

  /** The plan's three lists are exactly the accepted decisions, the dependents and the touched items. */
  lemma PlanExactly(t: Tables, plan: Plan)
    requires PlanFor(t, plan)
    ensures forall d :: AutoAccepted(t, d) <==> exists k :: 0 <= k < |plan.targets| && plan.targets[k].decisionId == d
    ensures forall p :: p in plan.dependents <==> Depends(t, p)
    ensures forall i :: i in plan.itemIds <==> ItemTouched(t, i)
  {
    SelectedExactly(t);
    forall d ensures AutoAccepted(t, d) <==> exists k :: 0 <= k < |plan.targets| && plan.targets[k].decisionId == d {
      if AutoAccepted(t, d) {
        var k :| 0 <= k < |plan.targets| && DecisionIds(plan.targets)[k] == d;
        assert plan.targets[k].decisionId == d;
      }
    }
  }
}
