/**
 What each call of the paid-effect ledger does to the rows, stated on the rows themselves: which row it
 touches, the state that row is left in, what every other row keeps and what the budget holds afterwards.
 */
module BudgetEffects {
  import opened Common
  import opened Sums
  import opened BillingContract
  import opened BudgetLedger

  // ---------------------------------------------------------------- what the sums count

  /**
   One more row: a released one holds nothing, one settled on authoritative evidence its actual charge,
   every other its maximum.
   */
  lemma EncumbranceMeans(rows: seq<Row>, r: Row)
    ensures Encumbered([]) == 0
    ensures Encumbered(rows + [r]) == Encumbered(rows) +
                                      if r.state.Released? then 0
                                      else if r.state.Settled? && r.state.evidence.Authoritative?
                                      then r.state.evidence.actual
                                      else r.maximum
  {
    SumBySnoc(rows, r, Holding());
  }

  /** Every row of the contract that is not released counts the units it asked for. */
  lemma ConsumptionMeans(rows: seq<Row>, r: Row, contractHash: string, name: string)
    ensures Consumed([], contractHash, name) == 0
    ensures Consumed(rows + [r], contractHash, name) == Consumed(rows, contractHash, name) +
                                                        if !r.state.Released?
                                                           && r.descriptor.contractHash == contractHash
                                                           && name in r.descriptor.requestedUnits
                                                        then r.descriptor.requestedUnits[name] else 0
  {
    SumBySnoc(rows, r, UnitsHeld(contractHash, name));
  }

  lemma {:induction false} RowReplaced(rows: seq<Row>, i: nat, row: Row)
    requires i < |rows|
    ensures Encumbered(rows[i := row]) == Encumbered(rows) - Held(rows[i]) + Held(row)
  {
    var after := rows[i := row];
    SumByRemove(rows, i, Holding());
    SumByRemove(after, i, Holding());
    assert after[..i] + after[i + 1..] == rows[..i] + rows[i + 1..];
  }

  lemma FoundAt(rows: seq<Row>, i: nat)
    requires DistinctKeys(rows) && i < |rows|
    ensures FindRow(rows, rows[i].descriptor.idempotencyKey) == Some(i)
  {
  }

  /** The row of this key and hash, in this state. */
  ghost predicate Stands(rows: seq<Row>, i: nat, key: string, hash: string) {
    i < |rows| && rows[i].descriptor.idempotencyKey == key && rows[i].hash == hash
  }

  /** Only row `i` differs. */
  ghost predicate OnlyRow(l: Ledger, v: Ledger, i: nat, row: Row) {
    && v.auth == l.auth && v.hashes == l.hashes && v.status == l.status
    && |v.rows| == |l.rows| && i < |l.rows|
    && v.rows[i] == row && forall k :: 0 <= k < |l.rows| && k != i ==> v.rows[k] == l.rows[k]
  }

  lemma WithOnlyRow(l: Ledger, i: nat, row: Row)
    requires i < |l.rows|
    ensures OnlyRow(l, WithRow(l, i, row), i, row)
    ensures Encumbered(WithRow(l, i, row).rows) == Encumbered(l.rows) - Held(l.rows[i]) + Held(row)
  {
    RowReplaced(l.rows, i, row);
  }

  // ---------------------------------------------------------------- dispatch

  /** A dispatch is accepted exactly for a reserved row of an active ledger with this key and hash. */
  lemma DispatchedExactly(l: Ledger, key: string, hash: string)
    requires DistinctKeys(l.rows)
    ensures MarkDispatched(l, key, hash).error.None? <==>
            l.status == Active && exists i: nat :: Stands(l.rows, i, key, hash) && l.rows[i].state == Reserved
    ensures MarkDispatched(l, key, hash).error.Some? ==> MarkDispatched(l, key, hash).ledger == l
    ensures l.status == Closed ==> MarkDispatched(l, key, hash).error == Some("paid_effect_ledger_closed")
    ensures l.status == Drifted ==> MarkDispatched(l, key, hash).error == Some("paid_effect_ledger_drifted")
    ensures l.status == Active && MarkDispatched(l, key, hash).error.Some? ==>
              MarkDispatched(l, key, hash).error == Some("paid_effect_reservation_not_dispatchable")
  {
    forall i: nat | Stands(l.rows, i, key, hash) ensures FindRow(l.rows, key) == Some(i) {
      FoundAt(l.rows, i);
    }
    if MarkDispatched(l, key, hash).error.None? {
      assert Stands(l.rows, FindRow(l.rows, key).value, key, hash);
    }
  }

  /** An accepted dispatch sets this row to dispatched, changes nothing else and holds what was held. */
  lemma DispatchEffect(l: Ledger, key: string, hash: string, i: nat)
    requires DistinctKeys(l.rows) && l.status == Active
    requires Stands(l.rows, i, key, hash) && l.rows[i].state == Reserved
    ensures var v := MarkDispatched(l, key, hash).ledger;
            && OnlyRow(l, v, i, l.rows[i].(state := Dispatched))
            && Encumbered(v.rows) == Encumbered(l.rows)
  {
    FoundAt(l.rows, i);
    WithOnlyRow(l, i, l.rows[i].(state := Dispatched));
  }

  /** A row on its way, or settled, is neither dispatched again nor released, whatever the caller sends. */
  lemma OutstandingRefuses(l: Ledger, i: nat, hash: string, reason: string)
    requires DistinctKeys(l.rows) && i < |l.rows| && (l.rows[i].state == Dispatched || l.rows[i].state.Settled?)
    ensures var key := l.rows[i].descriptor.idempotencyKey;
            && MarkDispatched(l, key, hash).error.Some? && MarkDispatched(l, key, hash).ledger == l
            && ReleaseUndispatched(l, key, hash, reason).error.Some?
            && ReleaseUndispatched(l, key, hash, reason).ledger == l
  {
    FoundAt(l.rows, i);
  }

  /**
   Over every run after an accepted dispatch the row is dispatched or settled: no second dispatch and no
   release of it is ever accepted.
   */
  lemma DispatchedForEver(l: Ledger, i: nat, key: string, hash: string, events: seq<Event>, other: string,
                          reason: string)
    requires Sound(l) && l.status == Active
    requires Stands(l.rows, i, key, hash) && l.rows[i].state == Reserved
    ensures var v := Run(MarkDispatched(l, key, hash).ledger, events);
            && Stands(v.rows, i, key, hash) && (v.rows[i].state == Dispatched || v.rows[i].state.Settled?)
            && MarkDispatched(v, key, other).error.Some?
            && ReleaseUndispatched(v, key, other, reason).error.Some?
  {
    var u := MarkDispatched(l, key, hash).ledger;
    DispatchEffect(l, key, hash, i);
    DispatchSound(l, key, hash);
    EveryRunContinues(u, events);
    assert Follows(u.rows[i], Run(u, events).rows[i]);
    OutstandingRefuses(Run(u, events), i, other, reason);
  }

  // ---------------------------------------------------------------- release and close

  /** A release is accepted exactly for a reserved row, or for one released for the same reason. */
  lemma ReleasedExactly(l: Ledger, key: string, hash: string, reason: string)
    requires DistinctKeys(l.rows)
    ensures ReleaseUndispatched(l, key, hash, reason).error.None? <==>
            && reason != ""
            && exists i: nat ::
                 && Stands(l.rows, i, key, hash)
                 && (l.rows[i].state == Reserved || l.rows[i].state == Released(reason))
    ensures ReleaseUndispatched(l, key, hash, reason).error.Some? ==>
              ReleaseUndispatched(l, key, hash, reason).ledger == l
    ensures reason != "" && (exists i: nat :: Stands(l.rows, i, key, hash)) ==>
              var e := ReleaseUndispatched(l, key, hash, reason).error;
              e.None? || e == Some("paid_effect_dispatched_reservation_not_releasable")
  {
    forall i: nat | Stands(l.rows, i, key, hash) ensures FindRow(l.rows, key) == Some(i) {
      FoundAt(l.rows, i);
    }
    if ReleaseUndispatched(l, key, hash, reason).error.None? {
      assert Stands(l.rows, FindRow(l.rows, key).value, key, hash);
    }
  }

  /** The row of an accepted release ends released for this reason, its maximum is free, nothing else changes. */
  lemma ReleaseEffect(l: Ledger, key: string, hash: string, reason: string, i: nat)
    requires DistinctKeys(l.rows) && reason != "" && Stands(l.rows, i, key, hash)
    requires l.rows[i].state == Reserved || l.rows[i].state == Released(reason)
    ensures var v := ReleaseUndispatched(l, key, hash, reason).ledger;
            && OnlyRow(l, v, i, l.rows[i].(state := Released(reason)))
            && Encumbered(v.rows) ==
               Encumbered(l.rows) - (if l.rows[i].state == Reserved then l.rows[i].maximum else 0)
  {
    FoundAt(l.rows, i);
    WithOnlyRow(l, i, l.rows[i].(state := Released(reason)));
  }

  /** Closing releases the reserved rows, and only those, with the fixed reason; it works once. */
  lemma CloseEffect(l: Ledger, reason: string)
    ensures Close(l, reason).error.None? <==> reason != ""
    ensures reason == "" || l.status != Active ==> Close(l, reason).ledger == l
    ensures reason != "" && l.status == Active ==>
              var v := Close(l, reason).ledger;
              && v.status == Closed && v.auth == l.auth && v.hashes == l.hashes && |v.rows| == |l.rows|
              && forall k :: 0 <= k < |l.rows| ==>
                   v.rows[k] == if l.rows[k].state == Reserved
                                then l.rows[k].(state := Released("authorization_closed_before_dispatch"))
                                else l.rows[k]
  {
  }

  // ---------------------------------------------------------------- reserve

  /** `contracts[j]` is the first contract with this id. */
  ghost predicate FirstContract(contracts: seq<Contract>, j: nat, id: string) {
    j < |contracts| && contracts[j].id == id && forall k :: 0 <= k < j ==> contracts[k].id != id
  }

  lemma {:induction false} FirstFound(contracts: seq<Contract>, j: nat, id: string)
    requires FirstContract(contracts, j, id)
    ensures FindContract(contracts, id) == Some(contracts[j])
  {
    var n := |contracts| - 1;
    if j < n {
      FirstFound(contracts[..n], j, id);
    } else {
      NoneFound(contracts[..n], id);
    }
  }

  lemma {:induction false} NoneFound(contracts: seq<Contract>, id: string)
    requires forall k :: 0 <= k < |contracts| ==> contracts[k].id != id
    ensures FindContract(contracts, id).None?
  {
    if contracts != [] {
      NoneFound(contracts[..|contracts| - 1], id);
    }
  }

  /** The request names the provider, model and hash of the contract, and all its dimensions within their maxima. */
  ghost predicate Matches(h: Hashes, c: Contract, d: Descriptor) {
    && d.provider == c.provider && d.model == c.model && d.contractHash == h.contract(c)
    && d.requestedUnits.Keys == (set x | x in c.dimensions :: x.name)
    && forall x :: x in c.dimensions ==> d.requestedUnits[x.name] <= x.maxUnits
  }

  lemma MatchesCovers(h: Hashes, c: Contract, d: Descriptor)
    ensures DescriptorError(h, c, d).None? <==> Matches(h, c, d)
  {
    assert Names(c.dimensions) == (set x | x in c.dimensions :: x.name);
    if Covers(c, d.requestedUnits) {
      forall n | n in Names(c.dimensions) ensures n in d.requestedUnits {
      }
    }
    if Matches(h, c, d) {
      forall x | x in c.dimensions ensures x.name in d.requestedUnits.Keys {
      }
    }
  }

  /** The maximum fits under the ceiling, and the units under every cumulative limit. */
  ghost predicate Room(l: Ledger, c: Contract, d: Descriptor) {
    && Encumbered(l.rows) + c.maxChargeMicros <= l.auth.ceiling
    && forall x :: x in c.dimensions && x.cumulativeMaxUnits.Some? && x.name in d.requestedUnits ==>
         Consumed(l.rows, d.contractHash, x.name) + d.requestedUnits[x.name] <= x.cumulativeMaxUnits.value
  }

  /** A request whose key is on record is accepted exactly as the replay of that row, and changes nothing. */
  lemma ReplayedExactly(l: Ledger, s: Scope, d: Descriptor, j: nat, i: nat)
    requires DistinctKeys(l.rows) && FirstContract(l.auth.contracts, j, d.contractId)
    requires i < |l.rows| && l.rows[i].descriptor.idempotencyKey == d.idempotencyKey
    ensures Reserve(l, s, d).ledger == l
    ensures Reserve(l, s, d).error.None? <==>
            && l.status == Active
            && s.authorizationId == l.auth.id && s.qualificationRunId == l.auth.runId && s.arm in l.auth.arms
            && Matches(l.hashes, l.auth.contracts[j], d)
            && l.rows[i].hash == l.hashes.request(s, d)
  {
    FirstFound(l.auth.contracts, j, d.contractId);
    MatchesCovers(l.hashes, l.auth.contracts[j], d);
    FoundAt(l.rows, i);
  }

  lemma RoomFits(l: Ledger, c: Contract, d: Descriptor)
    requires Sound(l) && Matches(l.hashes, c, d)
    ensures Room(l, c, d) <==> FitsUnits(l.rows, c, d) && FitsCeiling(l, c.maxChargeMicros)
  {
    forall x | x in c.dimensions
      ensures x.name in d.requestedUnits && UnitsOf(d.requestedUnits, x.name) == d.requestedUnits[x.name]
    {
      assert x.name in d.requestedUnits.Keys;
    }
  }

  /**
   A request with a new key is accepted exactly when the ledger is active, the scope is the
   authorization's, the request matches its contract and there is room for it.
   */
  lemma ReservedExactly(l: Ledger, s: Scope, d: Descriptor, j: nat)
    requires Sound(l) && FirstContract(l.auth.contracts, j, d.contractId)
    requires forall i :: 0 <= i < |l.rows| ==> l.rows[i].descriptor.idempotencyKey != d.idempotencyKey
    ensures Reserve(l, s, d).error.None? <==>
            && l.status == Active
            && s.authorizationId == l.auth.id && s.qualificationRunId == l.auth.runId && s.arm in l.auth.arms
            && Matches(l.hashes, l.auth.contracts[j], d) && Room(l, l.auth.contracts[j], d)
    ensures Reserve(l, s, d).error.Some? ==> Reserve(l, s, d).ledger == l
  {
    FirstFound(l.auth.contracts, j, d.contractId);
    MatchesCovers(l.hashes, l.auth.contracts[j], d);
    if Matches(l.hashes, l.auth.contracts[j], d) {
      RoomFits(l, l.auth.contracts[j], d);
    }
  }

  /** Without a contract of this id nothing is reserved. */
  lemma UnverifiedRefused(l: Ledger, s: Scope, d: Descriptor)
    requires forall k :: 0 <= k < |l.auth.contracts| ==> l.auth.contracts[k].id != d.contractId
    ensures Reserve(l, s, d).error.Some? && Reserve(l, s, d).ledger == l
  {
    NoneFound(l.auth.contracts, d.contractId);
  }

  /** An accepted new reservation appends one reserved row that holds the maximum of its contract. */
  lemma ReserveEffect(l: Ledger, s: Scope, d: Descriptor, j: nat)
    requires FirstContract(l.auth.contracts, j, d.contractId) && Reserve(l, s, d).error.None?
    ensures var v, c := Reserve(l, s, d).ledger, l.auth.contracts[j];
            if exists i :: 0 <= i < |l.rows| && l.rows[i].descriptor.idempotencyKey == d.idempotencyKey then v == l
            else
              && v.auth == l.auth && v.hashes == l.hashes && v.status == Active
              && v.rows == l.rows + [Row(s, d, l.hashes.request(s, d), c.maxChargeMicros, Reserved, map[])]
              && Encumbered(v.rows) == Encumbered(l.rows) + c.maxChargeMicros
  {
    FirstFound(l.auth.contracts, j, d.contractId);
    var c := l.auth.contracts[j];
    SumBySnoc(l.rows, NewRow(l, s, d, c), Holding());
  }

  // ---------------------------------------------------------------- settle

  /** The row with one observation more, unless one is on record under its hash. */
  function Observed(h: Hashes, r: Row, st: Settlement): map<string, Settlement> {
    if h.settlement(st) in r.observed then r.observed else r.observed[h.settlement(st) := st]
  }

  /**
   An authoritative settlement of a dispatched row is accepted exactly when it comes from the contract's
   source, its usage is within the request and its charge is the contract's price of that usage. From
   another source it is refused without effect; from this source, with other figures, it is a drift.
   */
  lemma SettledExactly(l: Ledger, i: nat, key: string, hash: string, st: Settlement, j: nat)
    requires Sound(l) && Stands(l.rows, i, key, hash) && l.rows[i].state == Dispatched && st.Authoritative?
    requires FirstContract(l.auth.contracts, j, l.rows[i].descriptor.contractId)
    ensures var c := l.auth.contracts[j];
            Settle(l, key, hash, st).error.None? <==>
            && c.source != NoSource && st.source == c.source
            && (forall u :: u in st.usage ==>
                  u in l.rows[i].descriptor.requestedUnits && st.usage[u] <= l.rows[i].descriptor.requestedUnits[u])
            && assert c in l.auth.contracts && Verified(c); ChargeOf(c, st.usage) == Ok(st.actual)
    ensures var c, a := l.auth.contracts[j], Settle(l, key, hash, st);
            && (a.error.Some? && c.source != NoSource && st.source == c.source ==>
                  a.error == Some("paid_effect_billing_contract_drift"))
            && (c.source == NoSource || st.source != c.source ==>
                  a == After(l, Some("paid_effect_settlement_not_authoritative")))
  {
    FoundAt(l.rows, i);
    FirstFound(l.auth.contracts, j, l.rows[i].descriptor.contractId);
    assert Bound(l, l.rows[i]);
    DriftsExactly(l, i, st);
  }

  /** The row then stands settled on that evidence and holds the actual charge; nothing else changes. */
  lemma SettleEffect(l: Ledger, i: nat, key: string, hash: string, st: Settlement)
    requires Sound(l) && Stands(l.rows, i, key, hash) && l.rows[i].state == Dispatched && st.Authoritative?
    requires Settle(l, key, hash, st).error.None?
    ensures var v, r := Settle(l, key, hash, st).ledger, l.rows[i];
            && OnlyRow(l, v, i, Row(r.scope, r.descriptor, r.hash, r.maximum, Settled(st),
                                    Observed(l.hashes, r, st)))
            && Encumbered(v.rows) == Encumbered(l.rows) - r.maximum + st.actual
  {
    FoundAt(l.rows, i);
    WithOnlyRow(l, i, SettledRow(l.hashes, l.rows[i], st));
  }

  /** A settlement without a known charge is recorded on a dispatched row, which stays dispatched. */
  lemma UnknownEffect(l: Ledger, i: nat, key: string, hash: string, st: Settlement)
    requires Sound(l) && Stands(l.rows, i, key, hash) && st.Unknown?
    ensures Settle(l, key, hash, st).error.None? <==> l.rows[i].state == Dispatched
    ensures Settle(l, key, hash, st).error.Some? ==> Settle(l, key, hash, st).ledger == l
    ensures l.rows[i].state == Dispatched ==>
              var v, r := Settle(l, key, hash, st).ledger, l.rows[i];
              && OnlyRow(l, v, i, Row(r.scope, r.descriptor, r.hash, r.maximum, Dispatched,
                                      Observed(l.hashes, r, st)))
              && Encumbered(v.rows) == Encumbered(l.rows)
  {
    FoundAt(l.rows, i);
    WithOnlyRow(l, i, l.rows[i].(observed := Observe(l.hashes, l.rows[i].observed, st)));
  }

  /** A contradicted settlement drifts an active ledger, releases what was reserved and settles nothing. */
  lemma DriftEffect(l: Ledger, key: string, hash: string, st: Settlement)
    requires Settle(l, key, hash, st).error == Some("paid_effect_billing_contract_drift")
    ensures var v := Settle(l, key, hash, st).ledger;
            && v.auth == l.auth && v.hashes == l.hashes && |v.rows| == |l.rows|
            && v.status == (if l.status == Active then Drifted else l.status)
            && forall k :: 0 <= k < |l.rows| ==>
                 v.rows[k] == if l.rows[k].state == Reserved
                              then l.rows[k].(state := Released("authorization_drifted_before_dispatch"))
                              else l.rows[k]
  {
  }
}
