/** The ledger's repository: the loops over its rows and the updates, in place, proved against the machine. */
module BudgetRepo {
  import opened Common
  import opened Sums
  import opened BillingContract
  import L = BudgetLedger

  datatype Totals = Totals(known: nat, unknown: nat, reserved: nat)

  datatype Snapshot = Snapshot(status: L.Status, ceiling: nat, uniqueEffects: nat, totals: Totals, available: int)

  function IfSettled(): L.Row -> int {
    (r: L.Row) => if r.state.Settled? then L.Held(r) as int else 0
  }

  function IfDispatched(): L.Row -> int {
    (r: L.Row) => if r.state.Dispatched? then r.maximum as int else 0
  }

  function IfReserved(): L.Row -> int {
    (r: L.Row) => if r.state.Reserved? then r.maximum as int else 0
  }

  lemma PrefixSum<T>(xs: seq<T>, n: nat, weight: T -> int)
    requires n < |xs|
    ensures SumBy(xs[..n + 1], weight) == SumBy(xs[..n], weight) + weight(xs[n])
  {
    assert xs[..n + 1] == xs[..n] + [xs[n]];
    L.SumBySnoc(xs[..n], xs[n], weight);
  }

  lemma {:induction false} KindsAddUp(rows: seq<L.Row>)
    ensures SumBy(rows, IfSettled()) + SumBy(rows, IfDispatched()) + SumBy(rows, IfReserved()) == L.Encumbered(rows)
  {
    if rows != [] {
      KindsAddUp(rows[1..]);
    }
  }

  class Repo {
    const auth: L.Authorization
    const hashes: L.Hashes
    var status: L.Status
    var rows: seq<L.Row>

    constructor (auth: L.Authorization, hashes: L.Hashes)
      ensures State() == L.Ledger(auth, hashes, L.Active, [])
    {
      this.auth, this.hashes, status, rows := auth, hashes, L.Active, [];
    }

    function State(): L.Ledger
      reads this
    {
      L.Ledger(auth, hashes, status, rows)
    }

    /** `checkedSum`: what is known, what is outstanding and what is reserved add up to what is held. */
    method CheckedSum() returns (t: Totals)
      requires forall i :: 0 <= i < |rows| && rows[i].state.Settled? ==> rows[i].state.evidence.Authoritative?
      ensures t.known == SumBy(rows, IfSettled()) && t.unknown == SumBy(rows, IfDispatched())
      ensures t.reserved == SumBy(rows, IfReserved())
      ensures t.known + t.unknown + t.reserved == L.Encumbered(rows)
    {
      var known, unknown, reserved := 0, 0, 0;
      for n := 0 to |rows|
        invariant known == SumBy(rows[..n], IfSettled()) && unknown == SumBy(rows[..n], IfDispatched())
        invariant reserved == SumBy(rows[..n], IfReserved())
        invariant 0 <= known && 0 <= unknown && 0 <= reserved
      {
        PrefixSum(rows, n, IfSettled());
        PrefixSum(rows, n, IfDispatched());
        PrefixSum(rows, n, IfReserved());
        match rows[n].state {
          case Settled(e) => known := known + e.actual;
          case Dispatched => unknown := unknown + rows[n].maximum;
          case Reserved => reserved := reserved + rows[n].maximum;
          case Released(_) =>
        }
      }
      assert rows[..|rows|] == rows;
      KindsAddUp(rows);
      t := Totals(known, unknown, reserved);
    }

    /** The units of one dimension already taken, over rows of the same contract that are not released. */
    method ConsumedUnits(contractHash: string, name: string) returns (units: int)
      ensures units == L.Consumed(rows, contractHash, name)
    {
      units := 0;
      for n := 0 to |rows|
        invariant units == L.Consumed(rows[..n], contractHash, name)
      {
        PrefixSum(rows, n, L.UnitsHeld(contractHash, name));
        var row := rows[n];
        if row.state.Released? || row.descriptor.contractHash != contractHash { continue; }
        units := units + L.UnitsOf(row.descriptor.requestedUnits, name);
      }
      assert rows[..|rows|] == rows;
    }

    /** The loop over the contract's dimensions. */
    method FitsUnits(c: Contract, d: L.Descriptor) returns (fits: bool)
      ensures fits == L.FitsUnits(rows, c, d)
    {
      for n := 0 to |c.dimensions|
        invariant forall k :: 0 <= k < n && c.dimensions[k].cumulativeMaxUnits.Some? ==>
                    L.UnitsOf(d.requestedUnits, c.dimensions[k].name) <=
                    c.dimensions[k].cumulativeMaxUnits.value - L.Consumed(rows, d.contractHash, c.dimensions[k].name)
      {
        var x := c.dimensions[n];
        if x.cumulativeMaxUnits.None? { continue; }
        var consumed := ConsumedUnits(d.contractHash, x.name);
        if L.UnitsOf(d.requestedUnits, x.name) > x.cumulativeMaxUnits.value - consumed {
          assert x in c.dimensions;
          return false;
        }
      }
      return true;
    }

    method Reserve(s: L.Scope, d: L.Descriptor) returns (error: Option<string>)
      requires L.Sound(State())
      modifies this`rows
      ensures L.After(State(), error) == L.Reserve(old(State()), s, d) && L.Sound(State())
    {
      L.ReserveSound(State(), s, d);
      if !L.InScope(State(), s) { return L.ScopeError(State(), s); }
      if status != L.Active { return L.StatusError(status); }
      var contract := L.FindContract(auth.contracts, d.contractId);
      if contract.None? { return Some("paid_effect_billing_contract_unverified"); }
      var invalid := L.DescriptorError(hashes, contract.value, d);
      if invalid.Some? { return invalid; }
      var existing := L.FindRow(rows, d.idempotencyKey);
      if existing.Some? {
        return if rows[existing.value].hash != hashes.request(s, d) then Some("paid_effect_idempotency_conflict")
               else None;
      }
      var fits := FitsUnits(contract.value, d);
      if !fits { return Some("paid_effect_budget_exhausted"); }
      SettledRowsHaveEvidence(State());
      var t := CheckedSum();
      var total := t.known + t.unknown + t.reserved;
      if total > auth.ceiling || contract.value.maxChargeMicros > auth.ceiling - total {
        return Some("paid_effect_budget_exhausted");
      }
      rows := rows + [L.NewRow(State(), s, d, contract.value)];
      return None;
    }

    method MarkDispatched(key: string, hash: string) returns (error: Option<string>)
      requires L.Sound(State())
      modifies this`rows
      ensures L.After(State(), error) == L.MarkDispatched(old(State()), key, hash) && L.Sound(State())
    {
      L.DispatchSound(State(), key, hash);
      if status != L.Active { return L.StatusError(status); }
      var found := L.FindRow(rows, key);
      if found.None? || rows[found.value].hash != hash || rows[found.value].state != L.Reserved {
        return Some("paid_effect_reservation_not_dispatchable");
      }
      rows := rows[found.value := rows[found.value].(state := L.Dispatched)];
      return None;
    }

    method CloseForDrift()
      modifies this
      ensures State() == L.CloseForDrift(old(State()))
    {
      if status == L.Active { status := L.Drifted; }
      rows := L.ReleaseReserved(rows, "authorization_drifted_before_dispatch");
    }

    /** The evidence of a dispatched row: priced, compared and recorded, or the ledger drifts. */
    method SettleDispatched(i: nat, st: L.Settlement) returns (error: Option<string>)
      requires L.Sound(State()) && i < |rows| && st.Authoritative?
      modifies this
      ensures L.After(State(), error) == L.SettleDispatched(old(State()), i, st)
    {
      var row := rows[i];
      var contract := L.FindContract(auth.contracts, row.descriptor.contractId);
      if contract.None? { return Some("paid_effect_billing_contract_unverified"); }
      if !L.InScope(State(), row.scope) { return L.ScopeError(State(), row.scope); }
      var c := contract.value;
      if c.source == NoSource || st.source != c.source { return Some("paid_effect_settlement_not_authoritative"); }
      var computed := CalculateCharge(c, st.usage);
      PricedAsComputed(c, st.usage);
      if computed.Err? || !L.WithinRequest(st.usage, row.descriptor.requestedUnits) ||
         computed.value != st.actual || st.actual > row.maximum
      {
        CloseForDrift();
        return Some("paid_effect_billing_contract_drift");
      }
      rows := rows[i := row.(state := L.Settled(st), observed := L.Observe(hashes, row.observed, st))];
      return None;
    }

    method Settle(key: string, hash: string, st: L.Settlement) returns (error: Option<string>)
      requires L.Sound(State())
      modifies this
      ensures L.After(State(), error) == L.Settle(old(State()), key, hash, st) && L.Sound(State())
    {
      L.SettleSound(State(), key, hash, st);
      var found := L.FindRow(rows, key);
      if found.None? { return Some("paid_effect_reservation_missing"); }
      var row := rows[found.value];
      if row.hash != hash { return Some("paid_effect_idempotency_conflict"); }
      if st.Unknown? {
        if row.state.Settled? { return Some("paid_effect_reservation_already_settled"); }
        if row.state != L.Dispatched { return Some("paid_effect_reservation_not_settleable"); }
        rows := rows[found.value := row.(observed := L.Observe(hashes, row.observed, st))];
        return None;
      }
      if row.state.Settled? {
        return if L.OnRecord(hashes, row.observed, st) then None else Some("paid_effect_settlement_conflict");
      }
      if row.state != L.Dispatched { return Some("paid_effect_reservation_not_settleable"); }
      error := SettleDispatched(found.value, st);
    }

    method ReleaseUndispatched(key: string, hash: string, reason: string) returns (error: Option<string>)
      requires L.Sound(State())
      modifies this`rows
      ensures L.After(State(), error) == L.ReleaseUndispatched(old(State()), key, hash, reason) && L.Sound(State())
    {
      L.ReleaseSound(State(), key, hash, reason);
      if reason == "" { return Some("paid_effect_release_reason_required"); }
      var found := L.FindRow(rows, key);
      if found.None? { return Some("paid_effect_reservation_missing"); }
      var row := rows[found.value];
      if row.hash != hash { return Some("paid_effect_idempotency_conflict"); }
      if row.state == L.Released(reason) { return None; }
      if row.state != L.Reserved { return Some("paid_effect_dispatched_reservation_not_releasable"); }
      rows := rows[found.value := row.(state := L.Released(reason))];
      return None;
    }

    method Close(reason: string) returns (error: Option<string>)
      requires L.Sound(State())
      modifies this
      ensures L.After(State(), error) == L.Close(old(State()), reason) && L.Sound(State())
    {
      L.CloseSound(State(), reason);
      if reason == "" { return Some("paid_effect_close_reason_required"); }
      if status == L.Active {
        status := L.Closed;
        rows := L.ReleaseReserved(rows, "authorization_closed_before_dispatch");
      }
      return None;
    }

    /** A snapshot never finds the ceiling broken, and what it calls available is what is left of it. */
    method TakeSnapshot() returns (r: Result<Snapshot>)
      requires L.Sound(State())
      ensures r.Ok? && r.value.available == auth.ceiling - L.Encumbered(rows) && 0 <= r.value.available
      ensures r.value.uniqueEffects == |rows| && r.value.status == status
      ensures var t := r.value.totals; t.known + t.unknown + t.reserved == L.Encumbered(rows)
    {
      SettledRowsHaveEvidence(State());
      var t := CheckedSum();
      var total := t.known + t.unknown + t.reserved;
      return if total > auth.ceiling then Err("paid_effect_journal_ceiling_invariant_broken")
             else Ok(Snapshot(status, auth.ceiling, |rows|, t, auth.ceiling - total));
    }
  }

  lemma SettledRowsHaveEvidence(l: L.Ledger)
    requires L.Sound(l)
    ensures forall i :: 0 <= i < |l.rows| && l.rows[i].state.Settled? ==> l.rows[i].state.evidence.Authoritative?
  {
    forall i | 0 <= i < |l.rows| && l.rows[i].state.Settled? ensures l.rows[i].state.evidence.Authoritative? {
      assert L.Bound(l, l.rows[i]);
    }
  }

  lemma PricedAsComputed(c: Contract, usage: Units)
    requires Verified(c)
    ensures Covers(c, usage) ==> ChargeOf(c, usage) == Ok(L.ChargeOrZero(c, usage))
  {
    if Covers(c, usage) {
      L.CoveredCharge(c, usage);
    }
  }
}
