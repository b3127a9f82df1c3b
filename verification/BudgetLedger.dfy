/**
 The paid-effect ledger of one qualification run behind the budget protocol: reserve, dispatch,
 settle, release and close, as one machine over the reservation rows of one authorization. Hashes are
 arbitrary functions; a refused call rolls back, except that a drift commits what it closes.
 */
module BudgetLedger {
  import opened Common
  import opened Sums
  import opened BillingContract

  const MAX_CEILING_MICROS := 3_000_000

  datatype Scope = Scope(authorizationId: string, qualificationRunId: string, arm: string, outputId: string,
                         beneficiaries: seq<string>)

  datatype Descriptor = Descriptor(idempotencyKey: string, contractId: string, provider: string, model: string,
                                   contractHash: string, requestedUnits: Units)

  datatype Settlement =
    | Unknown(usageSeen: Option<Units>, estimate: Option<nat>)
    | Authoritative(usage: Units, actual: nat, source: Source, evidenceRef: string, estimate: Option<nat>)

  /** A settled row keeps the evidence it was settled on. */
  datatype State = Reserved | Dispatched | Settled(evidence: Settlement) | Released(reason: string)

  /** `observed` holds the observations of the row, one for each settlement hash. */
  datatype Row = Row(scope: Scope, descriptor: Descriptor, hash: string, maximum: nat, state: State,
                     observed: map<string, Settlement>)

  datatype Status = Active | Closed | Drifted

  datatype Authorization = Authorization(id: string, runId: string, ceiling: nat, arms: set<string>,
                                         contracts: seq<Contract>)

  datatype Hashes = Hashes(
    contract: Contract -> string,
    request: (Scope, Descriptor) -> string,
    settlement: Settlement -> string)

  datatype Ledger = Ledger(auth: Authorization, hashes: Hashes, status: Status, rows: seq<Row>)

  // ---------------------------------------------------------------- what the rows bind

  /** What a row holds of the budget: its maximum until the exact charge is known, nothing once released. */
  function Held(r: Row): nat {
    match r.state
    case Settled(e) => if e.Authoritative? then e.actual else r.maximum
    case Released(_) => 0
    case _ => r.maximum
  }

  function Holding(): Row -> int {
    (r: Row) => Held(r) as int
  }

  function Encumbered(rows: seq<Row>): int {
    SumBy(rows, Holding())
  }

  function UnitsOf(units: Units, name: string): nat {
    if name in units then units[name] else 0
  }

  /** The units of one dimension that a row of one contract holds. */
  function UnitsHeld(contractHash: string, name: string): Row -> int {
    (r: Row) => if r.state.Released? || r.descriptor.contractHash != contractHash then 0
                else UnitsOf(r.descriptor.requestedUnits, name) as int
  }

  function Consumed(rows: seq<Row>, contractHash: string, name: string): int {
    SumBy(rows, UnitsHeld(contractHash, name))
  }

  function FindContract(contracts: seq<Contract>, id: string): (r: Option<Contract>)
    ensures r.Some? ==> r.value in contracts && r.value.id == id
  {
    if contracts == [] then None
    else
      var n := |contracts| - 1;
      var earlier := FindContract(contracts[..n], id);
      if earlier.Some? then earlier else if contracts[n].id == id then Some(contracts[n]) else None
  }

  function FindRow(rows: seq<Row>, key: string): (r: Option<nat>)
    ensures r.Some? ==> r.value < |rows| && rows[r.value].descriptor.idempotencyKey == key
    ensures r.None? <==> forall i :: 0 <= i < |rows| ==> rows[i].descriptor.idempotencyKey != key
  {
    if rows == [] then None
    else
      var n := |rows| - 1;
      var earlier := FindRow(rows[..n], key);
      if earlier.Some? then earlier else if rows[n].descriptor.idempotencyKey == key then Some(n) else None
  }

  // ---------------------------------------------------------------- the operations

  /** The new state, and the error thrown if there is one. */
  datatype After = After(ledger: Ledger, error: Option<string>)

  function Throw(l: Ledger, error: string): After {
    After(l, Some(error))
  }

  predicate InScope(l: Ledger, s: Scope) {
    s.authorizationId == l.auth.id && s.qualificationRunId == l.auth.runId && s.arm in l.auth.arms
  }

  function ScopeError(l: Ledger, s: Scope): (e: Option<string>)
    ensures e.None? <==> InScope(l, s)
  {
    if s.authorizationId != l.auth.id || s.qualificationRunId != l.auth.runId
    then Some("paid_effect_qualification_scope_mismatch")
    else if s.arm !in l.auth.arms then Some("paid_effect_arm_not_authorized")
    else None
  }

  function StatusError(status: Status): (e: Option<string>)
    ensures e.None? <==> status == Active
  {
    match status
    case Active => None
    case Closed => Some("paid_effect_ledger_closed")
    case Drifted => Some("paid_effect_ledger_drifted")
  }

  /** `validateDescriptor`. */
  function DescriptorError(h: Hashes, c: Contract, d: Descriptor): (e: Option<string>)
    ensures e.None? <==> d.provider == c.provider && d.model == c.model && d.contractHash == h.contract(c) &&
                         Covers(c, d.requestedUnits)
  {
    if d.provider != c.provider || d.model != c.model || d.contractHash != h.contract(c)
    then Some("paid_effect_billing_contract_drift")
    else if !(d.requestedUnits.Keys <= Names(c.dimensions)) ||
            exists x :: x in c.dimensions && x.name in d.requestedUnits && d.requestedUnits[x.name] > x.maxUnits
    then Some("paid_effect_request_exceeds_contract")
    else if exists x :: x in c.dimensions && x.name !in d.requestedUnits
    then Some("paid_effect_request_missing_dimension")
    else None
  }

  /** The request still fits the cumulative limits of its contract. */
  predicate FitsUnits(rows: seq<Row>, c: Contract, d: Descriptor) {
    forall x :: x in c.dimensions && x.cumulativeMaxUnits.Some? ==>
      UnitsOf(d.requestedUnits, x.name) <= x.cumulativeMaxUnits.value - Consumed(rows, d.contractHash, x.name)
  }

  predicate FitsCeiling(l: Ledger, maximum: nat) {
    Encumbered(l.rows) <= l.auth.ceiling && maximum <= l.auth.ceiling - Encumbered(l.rows)
  }

  function NewRow(l: Ledger, s: Scope, d: Descriptor, c: Contract): Row {
    Row(s, d, l.hashes.request(s, d), c.maxChargeMicros, Reserved, map[])
  }

  /** A replay of the same attempt finds its row; anything else under its key is a conflict. */
  function Reserve(l: Ledger, s: Scope, d: Descriptor): After {
    var contract := FindContract(l.auth.contracts, d.contractId);
    if !InScope(l, s) then After(l, ScopeError(l, s))
    else if l.status != Active then After(l, StatusError(l.status))
    else if contract.None? then Throw(l, "paid_effect_billing_contract_unverified")
    else
      var c := contract.value;
      var invalid := DescriptorError(l.hashes, c, d);
      if invalid.Some? then Throw(l, invalid.value)
      else
        match FindRow(l.rows, d.idempotencyKey)
        case Some(i) =>
          if l.rows[i].hash != l.hashes.request(s, d) then Throw(l, "paid_effect_idempotency_conflict")
          else After(l, None)
        case None =>
          if !FitsUnits(l.rows, c, d) || !FitsCeiling(l, c.maxChargeMicros)
          then Throw(l, "paid_effect_budget_exhausted")
          else After(l.(rows := l.rows + [NewRow(l, s, d, c)]), None)
  }

  function WithRow(l: Ledger, i: nat, row: Row): Ledger
    requires i < |l.rows|
  {
    l.(rows := l.rows[i := row])
  }

  /** `INSERT OR IGNORE`: an observation is stored under its hash once. */
  function Observe(h: Hashes, observed: map<string, Settlement>, st: Settlement): map<string, Settlement> {
    var key := h.settlement(st);
    if key in observed then observed else observed[key := st]
  }

  /** An authoritative observation with this hash is on record. */
  predicate OnRecord(h: Hashes, observed: map<string, Settlement>, st: Settlement) {
    var key := h.settlement(st);
    key in observed && observed[key].Authoritative?
  }

  function MarkDispatched(l: Ledger, key: string, hash: string): After {
    var found := FindRow(l.rows, key);
    if l.status != Active then After(l, StatusError(l.status))
    else if found.None? || l.rows[found.value].hash != hash || l.rows[found.value].state != Reserved
    then Throw(l, "paid_effect_reservation_not_dispatchable")
    else After(WithRow(l, found.value, l.rows[found.value].(state := Dispatched)), None)
  }

  /** Reserved rows are released; dispatched ones stay liabilities. */
  function ReleaseReserved(rows: seq<Row>, reason: string): (r: seq<Row>)
    ensures |r| == |rows|
    ensures forall i :: 0 <= i < |r| ==>
              r[i] == if rows[i].state == Reserved then rows[i].(state := Released(reason)) else rows[i]
  {
    seq(|rows|, i requires 0 <= i < |rows| =>
      if rows[i].state == Reserved then rows[i].(state := Released(reason)) else rows[i])
  }

  function CloseForDrift(l: Ledger): Ledger {
    l.(status := if l.status == Active then Drifted else l.status,
       rows := ReleaseReserved(l.rows, "authorization_drifted_before_dispatch"))
  }

  predicate WithinRequest(usage: Units, requested: Units) {
    forall u :: u in usage ==> u in requested && usage[u] <= requested[u]
  }

  /** The evidence contradicts the contract the row was reserved under. */
  predicate Drifts(c: Contract, r: Row, st: Settlement)
    requires st.Authoritative?
  {
    || !Covers(c, st.usage)
    || !WithinRequest(st.usage, r.descriptor.requestedUnits)
    || ChargeOrZero(c, st.usage) != st.actual
    || st.actual > r.maximum
  }

  function ChargeOrZero(c: Contract, usage: Units): nat {
    if (forall x :: x in c.dimensions ==> x.priceUnits > 0) && Covers(c, usage)
    then c.overhead + Charge(c.dimensions, usage) else 0
  }

  function Settle(l: Ledger, key: string, hash: string, st: Settlement): After {
    var found := FindRow(l.rows, key);
    if found.None? then Throw(l, "paid_effect_reservation_missing")
    else
      var r := l.rows[found.value];
      if r.hash != hash then Throw(l, "paid_effect_idempotency_conflict")
      else if st.Unknown? then
        if r.state.Settled? then Throw(l, "paid_effect_reservation_already_settled")
        else if r.state != Dispatched then Throw(l, "paid_effect_reservation_not_settleable")
        else After(WithRow(l, found.value, r.(observed := Observe(l.hashes, r.observed, st))), None)
      else if r.state.Settled? then
        if OnRecord(l.hashes, r.observed, st) then After(l, None) else Throw(l, "paid_effect_settlement_conflict")
      else if r.state != Dispatched then Throw(l, "paid_effect_reservation_not_settleable")
      else SettleDispatched(l, found.value, st)
  }

  function SettledRow(h: Hashes, r: Row, st: Settlement): Row {
    r.(state := Settled(st), observed := Observe(h, r.observed, st))
  }

  function SettleDispatched(l: Ledger, i: nat, st: Settlement): After
    requires i < |l.rows| && st.Authoritative?
  {
    var r := l.rows[i];
    var contract := FindContract(l.auth.contracts, r.descriptor.contractId);
    if contract.None? then Throw(l, "paid_effect_billing_contract_unverified")
    else if !InScope(l, r.scope) then After(l, ScopeError(l, r.scope))
    else if contract.value.source == NoSource || st.source != contract.value.source
    then Throw(l, "paid_effect_settlement_not_authoritative")
    else if Drifts(contract.value, r, st) then Throw(CloseForDrift(l), "paid_effect_billing_contract_drift")
    else After(WithRow(l, i, SettledRow(l.hashes, r, st)), None)
  }

  /** `reason` is trimmed. */
  function ReleaseUndispatched(l: Ledger, key: string, hash: string, reason: string): After {
    var found := FindRow(l.rows, key);
    if reason == "" then Throw(l, "paid_effect_release_reason_required")
    else if found.None? then Throw(l, "paid_effect_reservation_missing")
    else
      var r := l.rows[found.value];
      if r.hash != hash then Throw(l, "paid_effect_idempotency_conflict")
      else if r.state == Released(reason) then After(l, None)
      else if r.state != Reserved then Throw(l, "paid_effect_dispatched_reservation_not_releasable")
      else After(WithRow(l, found.value, r.(state := Released(reason))), None)
  }

  function Close(l: Ledger, reason: string): After {
    if reason == "" then Throw(l, "paid_effect_close_reason_required")
    else if l.status != Active then After(l, None)
    else After(l.(status := Closed, rows := ReleaseReserved(l.rows, "authorization_closed_before_dispatch")), None)
  }

  // ---------------------------------------------------------------- the invariant

  /** What the schema of an authorization guarantees; contract hashes do not collide. */
  ghost predicate Frozen(auth: Authorization, h: Hashes) {
    && auth.ceiling <= MAX_CEILING_MICROS
    && (forall c :: c in auth.contracts ==> Verified(c))
    && (forall c, d :: c in auth.contracts && d in auth.contracts && h.contract(c) == h.contract(d) ==> c == d)
  }

  /** A row reserves the maximum of its contract, and a settled one charges what its evidence prices. */
  ghost predicate Bound(l: Ledger, r: Row) {
    var contract := FindContract(l.auth.contracts, r.descriptor.contractId);
    && contract.Some? && r.maximum == contract.value.maxChargeMicros
    && DescriptorError(l.hashes, contract.value, r.descriptor).None?
    && r.hash == l.hashes.request(r.scope, r.descriptor) && InScope(l, r.scope)
    && (r.state.Settled? ==>
          && r.state.evidence.Authoritative? && r.state.evidence.actual <= r.maximum
          && Covers(contract.value, r.state.evidence.usage)
          && ChargeOrZero(contract.value, r.state.evidence.usage) == r.state.evidence.actual)
    && Recorded(l.hashes, r)
  }

  /** Observations stand under their hashes, and the only authoritative one is what the row was settled on. */
  ghost predicate Recorded(h: Hashes, r: Row) {
    forall k :: k in r.observed ==>
      && h.settlement(r.observed[k]) == k
      && (r.observed[k].Authoritative? ==> r.state.Settled? && r.observed[k] == r.state.evidence)
  }

  ghost predicate DistinctKeys(rows: seq<Row>) {
    forall i, j :: 0 <= i < j < |rows| ==> rows[i].descriptor.idempotencyKey != rows[j].descriptor.idempotencyKey
  }

  ghost predicate WithinUnits(l: Ledger) {
    forall c, x :: c in l.auth.contracts && x in c.dimensions && x.cumulativeMaxUnits.Some? ==>
      Consumed(l.rows, l.hashes.contract(c), x.name) <= x.cumulativeMaxUnits.value
  }

  /** Nothing can be dispatched any more once the ledger is not active. */
  ghost predicate QuietUnlessActive(l: Ledger) {
    l.status != Active ==> forall i :: 0 <= i < |l.rows| ==> l.rows[i].state != Reserved
  }

  ghost predicate Sound(l: Ledger) {
    && Frozen(l.auth, l.hashes) && DistinctKeys(l.rows)
    && (forall i :: 0 <= i < |l.rows| ==> Bound(l, l.rows[i]))
    && Encumbered(l.rows) <= l.auth.ceiling
    && WithinUnits(l) && QuietUnlessActive(l)
  }

  lemma {:induction false} SumByLess<T>(xs: seq<T>, ys: seq<T>, weight: T -> int)
    requires |xs| == |ys| && forall i :: 0 <= i < |xs| ==> weight(xs[i]) <= weight(ys[i])
    ensures SumBy(xs, weight) <= SumBy(ys, weight)
  {
    if xs != [] {
      SumByRemove(xs, 0, weight);
      SumByRemove(ys, 0, weight);
      assert xs[..0] + xs[1..] == xs[1..] && ys[..0] + ys[1..] == ys[1..];
      SumByLess(xs[1..], ys[1..], weight);
    }
  }

  lemma SumBySnoc<T>(xs: seq<T>, y: T, weight: T -> int)
    ensures SumBy(xs + [y], weight) == SumBy(xs, weight) + weight(y)
  {
    SumByAppend(xs, [y], weight);
    assert [y][1..] == [];
  }

  /** The same reservation, in a later state. */
  ghost predicate SameBinding(before: Row, after: Row) {
    after == before.(state := after.state, observed := after.observed)
  }

  /** Rows that keep their bindings, each holding no more than before. */
  ghost predicate Lightened(before: seq<Row>, after: seq<Row>) {
    && |before| == |after|
    && (forall i :: 0 <= i < |before| ==> SameBinding(before[i], after[i]))
    && (forall i :: 0 <= i < |before| ==> Held(after[i]) <= Held(before[i]))
    && (forall i :: 0 <= i < |before| && before[i].state.Released? ==> after[i].state.Released?)
  }

  lemma LightenedHolds(before: seq<Row>, after: seq<Row>)
    requires Lightened(before, after)
    ensures Encumbered(after) <= Encumbered(before)
    ensures forall h, name :: Consumed(after, h, name) <= Consumed(before, h, name)
  {
    SumByLess(after, before, Holding());
    forall h, name ensures Consumed(after, h, name) <= Consumed(before, h, name) {
      SumByLess(after, before, UnitsHeld(h, name));
    }
  }

  lemma LightenedSound(l: Ledger, v: Ledger)
    requires Sound(l) && v.auth == l.auth && v.hashes == l.hashes && Lightened(l.rows, v.rows)
    requires forall i :: 0 <= i < |v.rows| ==> Bound(v, v.rows[i])
    requires QuietUnlessActive(v)
    ensures Sound(v) && Encumbered(v.rows) <= Encumbered(l.rows)
  {
    LightenedHolds(l.rows, v.rows);
    forall i, j | 0 <= i < j < |v.rows|
      ensures v.rows[i].descriptor.idempotencyKey != v.rows[j].descriptor.idempotencyKey
    {
      assert l.rows[i].descriptor.idempotencyKey != l.rows[j].descriptor.idempotencyKey;
    }
  }

  lemma WithRowLightens(l: Ledger, i: nat, row: Row)
    requires i < |l.rows| && SameBinding(l.rows[i], row) && Held(row) <= Held(l.rows[i])
    requires l.rows[i].state.Released? ==> row.state.Released?
    ensures Lightened(l.rows, WithRow(l, i, row).rows)
  {
  }

  lemma WithRowBound(l: Ledger, i: nat, row: Row)
    requires i < |l.rows| && (forall k :: 0 <= k < |l.rows| ==> Bound(l, l.rows[k])) && Bound(l, row)
    ensures var v := WithRow(l, i, row); forall k :: 0 <= k < |v.rows| ==> Bound(v, v.rows[k])
  {
    var v := WithRow(l, i, row);
    forall k | 0 <= k < |v.rows| ensures Bound(v, v.rows[k]) {
      assert Bound(l, l.rows[k]);
    }
  }

  /** Replacing one row by a bound one that holds no more. */
  lemma WithRowSound(l: Ledger, i: nat, row: Row)
    requires Sound(l) && i < |l.rows| && SameBinding(l.rows[i], row) && Bound(l, row) && Held(row) <= Held(l.rows[i])
    requires (l.rows[i].state.Released? ==> row.state.Released?) && row.state != Reserved
    ensures Sound(WithRow(l, i, row))
  {
    WithRowLightens(l, i, row);
    WithRowBound(l, i, row);
    LightenedSound(l, WithRow(l, i, row));
  }

  lemma ReleaseLightens(rows: seq<Row>, reason: string)
    ensures Lightened(rows, ReleaseReserved(rows, reason))
    ensures forall i :: 0 <= i < |rows| ==> ReleaseReserved(rows, reason)[i].state != Reserved
  {
  }

  // ---------------------------------------------------------------- every operation keeps it

  lemma DispatchSound(l: Ledger, key: string, hash: string)
    requires Sound(l)
    ensures Sound(MarkDispatched(l, key, hash).ledger)
  {
    if MarkDispatched(l, key, hash).error.None? {
      var i := FindRow(l.rows, key).value;
      assert Bound(l, l.rows[i]);
      WithRowSound(l, i, l.rows[i].(state := Dispatched));
    }
  }

  lemma ReleaseSound(l: Ledger, key: string, hash: string, reason: string)
    requires Sound(l)
    ensures Sound(ReleaseUndispatched(l, key, hash, reason).ledger)
  {
    if ReleaseUndispatched(l, key, hash, reason).ledger != l {
      var i := FindRow(l.rows, key).value;
      assert Bound(l, l.rows[i]);
      WithRowSound(l, i, l.rows[i].(state := Released(reason)));
    }
  }

  lemma ReleasedAllSound(l: Ledger, v: Ledger, reason: string)
    requires Sound(l) && v.auth == l.auth && v.hashes == l.hashes && v.rows == ReleaseReserved(l.rows, reason)
    ensures Sound(v) && Encumbered(v.rows) <= Encumbered(l.rows)
  {
    ReleaseLightens(l.rows, reason);
    forall i | 0 <= i < |v.rows| ensures Bound(v, v.rows[i]) {
      assert Bound(l, l.rows[i]);
    }
    LightenedSound(l, v);
  }

  lemma CloseSound(l: Ledger, reason: string)
    requires Sound(l)
    ensures Sound(Close(l, reason).ledger)
  {
    if reason != "" && l.status == Active {
      ReleasedAllSound(l, Close(l, reason).ledger, "authorization_closed_before_dispatch");
    }
  }

  lemma CoveredCharge(c: Contract, usage: Units)
    requires Verified(c) && Covers(c, usage)
    ensures ChargeOf(c, usage) == Ok(ChargeOrZero(c, usage)) && ChargeOrZero(c, usage) <= c.maxChargeMicros
  {
    WithinMaximum(c, usage);
  }

  /** A row settled on evidence that does not drift stays bound to its contract. */
  lemma SettledBound(l: Ledger, r: Row, st: Settlement, c: Contract)
    requires Frozen(l.auth, l.hashes) && Bound(l, r) && r.state == Dispatched && st.Authoritative?
    requires FindContract(l.auth.contracts, r.descriptor.contractId) == Some(c) && !Drifts(c, r, st)
    ensures Bound(l, SettledRow(l.hashes, r, st))
  {
  }

  lemma SettleDispatchedSound(l: Ledger, i: nat, st: Settlement)
    requires Sound(l) && i < |l.rows| && st.Authoritative? && l.rows[i].state == Dispatched
    ensures Sound(SettleDispatched(l, i, st).ledger)
  {
    var v := SettleDispatched(l, i, st);
    assert Bound(l, l.rows[i]);
    if v.error.None? {
      SettledBound(l, l.rows[i], st, FindContract(l.auth.contracts, l.rows[i].descriptor.contractId).value);
      WithRowSound(l, i, SettledRow(l.hashes, l.rows[i], st));
    } else if v.ledger != l {
      ReleasedAllSound(l, CloseForDrift(l), "authorization_drifted_before_dispatch");
    }
  }

  lemma ObservedSound(l: Ledger, i: nat, st: Settlement)
    requires Sound(l) && i < |l.rows| && st.Unknown? && l.rows[i].state == Dispatched
    ensures Sound(WithRow(l, i, l.rows[i].(observed := Observe(l.hashes, l.rows[i].observed, st))))
  {
    assert Bound(l, l.rows[i]);
    WithRowSound(l, i, l.rows[i].(observed := Observe(l.hashes, l.rows[i].observed, st)));
  }

  lemma SettleSound(l: Ledger, key: string, hash: string, st: Settlement)
    requires Sound(l)
    ensures Sound(Settle(l, key, hash, st).ledger)
  {
    if Settle(l, key, hash, st).ledger != l {
      var i := FindRow(l.rows, key).value;
      if st.Unknown? {
        ObservedSound(l, i, st);
      } else {
        SettleDispatchedSound(l, i, st);
      }
    }
  }

  lemma AppendBound(l: Ledger, row: Row)
    requires (forall i :: 0 <= i < |l.rows| ==> Bound(l, l.rows[i])) && Bound(l, row)
    ensures var v := l.(rows := l.rows + [row]); forall i :: 0 <= i < |v.rows| ==> Bound(v, v.rows[i])
  {
    var v := l.(rows := l.rows + [row]);
    forall i | 0 <= i < |v.rows| ensures Bound(v, v.rows[i]) {
      assert Bound(l, if i < |l.rows| then l.rows[i] else row);
    }
  }

  lemma AppendDistinct(rows: seq<Row>, row: Row)
    requires DistinctKeys(rows) && FindRow(rows, row.descriptor.idempotencyKey).None?
    ensures DistinctKeys(rows + [row])
  {
  }

  /** An admitted reservation is bound to its contract and fits. */
  lemma AdmittedRow(l: Ledger, s: Scope, d: Descriptor) returns (c: Contract)
    requires Reserve(l, s, d).ledger != l
    ensures FindContract(l.auth.contracts, d.contractId) == Some(c)
    ensures Reserve(l, s, d).ledger == l.(rows := l.rows + [NewRow(l, s, d, c)]) && l.status == Active
    ensures Bound(l, NewRow(l, s, d, c)) && FindRow(l.rows, d.idempotencyKey).None?
    ensures FitsUnits(l.rows, c, d) && FitsCeiling(l, c.maxChargeMicros)
  {
    c := FindContract(l.auth.contracts, d.contractId).value;
  }

  lemma ReserveSound(l: Ledger, s: Scope, d: Descriptor)
    requires Sound(l)
    ensures Sound(Reserve(l, s, d).ledger)
  {
    if Reserve(l, s, d).ledger != l {
      var c := AdmittedRow(l, s, d);
      var row := NewRow(l, s, d, c);
      SumBySnoc(l.rows, row, Holding());
      AppendDistinct(l.rows, row);
      AppendBound(l, row);
      NewUnits(l, c, row);
    }
  }

  lemma NewUnits(l: Ledger, c: Contract, row: Row)
    requires Frozen(l.auth, l.hashes) && WithinUnits(l) && c in l.auth.contracts
    requires row.state == Reserved && row.descriptor.contractHash == l.hashes.contract(c)
             && FitsUnits(l.rows, c, row.descriptor)
    ensures WithinUnits(l.(rows := l.rows + [row]))
  {
    var v := l.(rows := l.rows + [row]);
    forall e, x | e in l.auth.contracts && x in e.dimensions && x.cumulativeMaxUnits.Some?
      ensures Consumed(v.rows, l.hashes.contract(e), x.name) <= x.cumulativeMaxUnits.value
    {
      SumBySnoc(l.rows, row, UnitsHeld(l.hashes.contract(e), x.name));
      if l.hashes.contract(e) == l.hashes.contract(c) {
        assert e == c;
      }
    }
  }

  // ---------------------------------------------------------------- whole runs

  datatype Event =
    | OnReserve(s: Scope, d: Descriptor)
    | OnDispatch(key: string, hash: string)
    | OnSettle(key: string, hash: string, st: Settlement)
    | OnRelease(key: string, hash: string, reason: string)
    | OnClose(reason: string)

  function Step(l: Ledger, e: Event): After {
    match e
    case OnReserve(s, d) => Reserve(l, s, d)
    case OnDispatch(key, hash) => MarkDispatched(l, key, hash)
    case OnSettle(key, hash, st) => Settle(l, key, hash, st)
    case OnRelease(key, hash, reason) => ReleaseUndispatched(l, key, hash, reason)
    case OnClose(reason) => Close(l, reason)
  }

  function Run(l: Ledger, events: seq<Event>): Ledger {
    if events == [] then l else Step(Run(l, events[..|events| - 1]), events[|events| - 1]).ledger
  }

  lemma StepSound(l: Ledger, e: Event)
    requires Sound(l)
    ensures Sound(Step(l, e).ledger)
  {
    match e
    case OnReserve(s, d) => ReserveSound(l, s, d);
    case OnDispatch(key, hash) => DispatchSound(l, key, hash);
    case OnSettle(key, hash, st) => SettleSound(l, key, hash, st);
    case OnRelease(key, hash, reason) => ReleaseSound(l, key, hash, reason);
    case OnClose(reason) => CloseSound(l, reason);
  }

  /**
   Over every run of requests, replays, wrong hashes and contradicted invoices: what is reserved,
   outstanding and settled together never exceeds the approved ceiling, nor the units of any contract
   their cumulative limit.
   */
  lemma {:induction false} NeverOverCeiling(auth: Authorization, h: Hashes, events: seq<Event>)
    requires Frozen(auth, h)
    ensures Sound(Run(Ledger(auth, h, Active, []), events))
  {
    if events == [] {
      assert Encumbered([]) == 0;
    } else {
      NeverOverCeiling(auth, h, events[..|events| - 1]);
      StepSound(Run(Ledger(auth, h, Active, []), events[..|events| - 1]), events[|events| - 1]);
    }
  }

  /** Released and settled are final, and what was dispatched is never released. */
  predicate Allowed(before: State, after: State) {
    || before == after
    || before == Reserved
    || (before == Dispatched && after.Settled?)
  }

  /** The same reservation in a state its life cycle allows, with all its observations. */
  ghost predicate Follows(before: Row, after: Row) {
    && SameBinding(before, after) && Allowed(before.state, after.state)
    && forall k :: k in before.observed ==> k in after.observed && after.observed[k] == before.observed[k]
  }

  /**
   How a ledger may go on: no row is lost or rebound, every row follows its life cycle, no observation
   is removed or rewritten, and a ledger that is no longer active stays as it is, admits no attempt,
   dispatches none and never holds more.
   */
  ghost predicate Continues(l: Ledger, v: Ledger) {
    && v.auth == l.auth && v.hashes == l.hashes && |l.rows| <= |v.rows|
    && (forall i :: 0 <= i < |l.rows| ==> Follows(l.rows[i], v.rows[i]))
    && (l.status != Active ==>
          && v.status == l.status && |v.rows| == |l.rows| && Encumbered(v.rows) <= Encumbered(l.rows)
          && forall i :: 0 <= i < |l.rows| && v.rows[i].state == Dispatched ==> l.rows[i].state == Dispatched)
  }

  lemma AppendContinues(l: Ledger, row: Row)
    requires l.status == Active
    ensures Continues(l, l.(rows := l.rows + [row]))
  {
  }

  lemma WithRowContinues(l: Ledger, i: nat, row: Row)
    requires i < |l.rows| && Follows(l.rows[i], row)
    requires l.status != Active ==>
               && (row.state == Dispatched ==> l.rows[i].state == Dispatched)
               && Held(row) <= Held(l.rows[i]) && !l.rows[i].state.Released?
    ensures Continues(l, WithRow(l, i, row))
  {
    if l.status != Active {
      WithRowLightens(l, i, row);
      LightenedHolds(l.rows, WithRow(l, i, row).rows);
    }
  }

  lemma ReleaseContinues(l: Ledger, status: Status, reason: string)
    requires l.status != Active ==> status == l.status
    ensures Continues(l, l.(status := status, rows := ReleaseReserved(l.rows, reason)))
  {
    ReleaseLightens(l.rows, reason);
    LightenedHolds(l.rows, ReleaseReserved(l.rows, reason));
  }

  lemma ReserveContinues(l: Ledger, s: Scope, d: Descriptor)
    ensures Continues(l, Reserve(l, s, d).ledger)
  {
    if Reserve(l, s, d).ledger != l {
      AppendContinues(l, NewRow(l, s, d, FindContract(l.auth.contracts, d.contractId).value));
    }
  }

  lemma DispatchContinues(l: Ledger, key: string, hash: string)
    ensures Continues(l, MarkDispatched(l, key, hash).ledger)
  {
    if MarkDispatched(l, key, hash).error.None? {
      var i := FindRow(l.rows, key).value;
      WithRowContinues(l, i, l.rows[i].(state := Dispatched));
    }
  }

  lemma ReleaseUndispatchedContinues(l: Ledger, key: string, hash: string, reason: string)
    requires QuietUnlessActive(l)
    ensures Continues(l, ReleaseUndispatched(l, key, hash, reason).ledger)
  {
    if ReleaseUndispatched(l, key, hash, reason).ledger != l {
      var i := FindRow(l.rows, key).value;
      WithRowContinues(l, i, l.rows[i].(state := Released(reason)));
    }
  }

  lemma SettledContinues(l: Ledger, i: nat, st: Settlement)
    requires i < |l.rows| && st.Authoritative? && l.rows[i].state == Dispatched
    requires Held(SettledRow(l.hashes, l.rows[i], st)) <= Held(l.rows[i])
    ensures Continues(l, WithRow(l, i, SettledRow(l.hashes, l.rows[i], st)))
  {
    WithRowContinues(l, i, SettledRow(l.hashes, l.rows[i], st));
  }

  lemma DriftContinues(l: Ledger)
    ensures Continues(l, CloseForDrift(l))
  {
    ReleaseContinues(l, CloseForDrift(l).status, "authorization_drifted_before_dispatch");
  }

  /** What became of the ledger: nothing, the row's settlement at no more than its maximum, or a drift. */
  lemma SettleDispatchedEnds(l: Ledger, i: nat, st: Settlement)
    requires i < |l.rows| && st.Authoritative? && l.rows[i].state == Dispatched
    ensures var v, row := SettleDispatched(l, i, st).ledger, SettledRow(l.hashes, l.rows[i], st);
            v == l || v == CloseForDrift(l) || (v == WithRow(l, i, row) && Held(row) <= Held(l.rows[i]))
  {
  }

  lemma NothingContinues(l: Ledger)
    ensures Continues(l, l)
  {
  }

  lemma SettleDispatchedContinues(l: Ledger, i: nat, st: Settlement)
    requires i < |l.rows| && st.Authoritative? && l.rows[i].state == Dispatched
    ensures Continues(l, SettleDispatched(l, i, st).ledger)
  {
    SettleDispatchedEnds(l, i, st);
    NothingContinues(l);
    DriftContinues(l);
    if Held(SettledRow(l.hashes, l.rows[i], st)) <= Held(l.rows[i]) {
      SettledContinues(l, i, st);
    }
  }

  lemma SettleContinues(l: Ledger, i: nat, st: Settlement)
    requires i < |l.rows| && l.rows[i].state == Dispatched
    ensures st.Authoritative? ==> Continues(l, SettleDispatched(l, i, st).ledger)
    ensures st.Unknown? ==>
              Continues(l, WithRow(l, i, l.rows[i].(observed := Observe(l.hashes, l.rows[i].observed, st))))
  {
    if st.Authoritative? {
      SettleDispatchedContinues(l, i, st);
    } else {
      WithRowContinues(l, i, l.rows[i].(observed := Observe(l.hashes, l.rows[i].observed, st)));
    }
  }

  lemma StepContinues(l: Ledger, e: Event)
    requires QuietUnlessActive(l)
    ensures Continues(l, Step(l, e).ledger)
  {
    match e
    case OnReserve(s, d) => ReserveContinues(l, s, d);
    case OnDispatch(key, hash) => DispatchContinues(l, key, hash);
    case OnRelease(key, hash, reason) => ReleaseUndispatchedContinues(l, key, hash, reason);
    case OnSettle(key, hash, st) => {
      if Settle(l, key, hash, st).ledger != l {
        SettleContinues(l, FindRow(l.rows, key).value, st);
      }
    }
    case OnClose(reason) => {
      if Close(l, reason).ledger != l {
        ReleaseContinues(l, Closed, "authorization_closed_before_dispatch");
      }
    }
  }

  lemma ContinuesTransitive(u: Ledger, l: Ledger, v: Ledger)
    requires Continues(u, l) && Continues(l, v)
    ensures Continues(u, v)
  {
    forall i | 0 <= i < |u.rows| ensures Follows(u.rows[i], v.rows[i]) {
      assert Follows(u.rows[i], l.rows[i]) && Follows(l.rows[i], v.rows[i]);
    }
  }

  lemma {:induction false} EveryRunContinues(l: Ledger, events: seq<Event>)
    requires Sound(l)
    ensures Sound(Run(l, events)) && Continues(l, Run(l, events))
  {
    if events != [] {
      var n := |events| - 1;
      EveryRunContinues(l, events[..n]);
      StepSound(Run(l, events[..n]), events[n]);
      StepContinues(Run(l, events[..n]), events[n]);
      ContinuesTransitive(l, Run(l, events[..n]), Run(l, events));
    }
  }

  // ---------------------------------------------------------------- single operations

  /** A new attempt is admitted exactly when the ceiling and the cumulative units leave room for its maximum. */
  lemma AdmittedExactly(l: Ledger, s: Scope, d: Descriptor, c: Contract)
    requires Sound(l) && l.status == Active && InScope(l, s)
    requires FindContract(l.auth.contracts, d.contractId) == Some(c) && DescriptorError(l.hashes, c, d).None?
    requires FindRow(l.rows, d.idempotencyKey).None?
    ensures Reserve(l, s, d).error.None? <==>
            && Encumbered(l.rows) + c.maxChargeMicros <= l.auth.ceiling
            && forall x :: x in c.dimensions && x.cumulativeMaxUnits.Some? ==>
                 Consumed(l.rows, d.contractHash, x.name) + d.requestedUnits[x.name] <= x.cumulativeMaxUnits.value
    ensures Reserve(l, s, d).error.None? ==>
              Encumbered(Reserve(l, s, d).ledger.rows) == Encumbered(l.rows) + c.maxChargeMicros
  {
    SumBySnoc(l.rows, NewRow(l, s, d, c), Holding());
    forall x | x in c.dimensions ensures UnitsOf(d.requestedUnits, x.name) == d.requestedUnits[x.name] {
    }
  }

  /** Sending an accepted reservation again finds the row it made. */
  lemma ReserveReplays(l: Ledger, s: Scope, d: Descriptor)
    requires Sound(l) && Reserve(l, s, d).error.None?
    ensures Reserve(Reserve(l, s, d).ledger, s, d) == After(Reserve(l, s, d).ledger, None)
  {
    var v := Reserve(l, s, d).ledger;
    if v != l {
      AppendedIsFound(l.rows, NewRow(l, s, d, FindContract(l.auth.contracts, d.contractId).value));
    }
  }

  lemma AppendedIsFound(rows: seq<Row>, row: Row)
    requires FindRow(rows, row.descriptor.idempotencyKey).None?
    ensures FindRow(rows + [row], row.descriptor.idempotencyKey) == Some(|rows|)
  {
    assert (rows + [row])[|rows|] == row;
    assert (rows + [row])[..|rows|] == rows;
  }

  lemma {:induction false} FoundInSameKeys(a: seq<Row>, b: seq<Row>, key: string)
    requires |a| == |b| && forall i :: 0 <= i < |a| ==> a[i].descriptor == b[i].descriptor
    ensures FindRow(a, key) == FindRow(b, key)
  {
    if a != [] {
      FoundInSameKeys(a[..|a| - 1], b[..|b| - 1], key);
    }
  }

  /** The hash covers the kind of a settlement. */
  ghost predicate KindsDiffer(h: Hashes) {
    forall a: Settlement, b: Settlement :: a.Unknown? && b.Authoritative? ==> h.settlement(a) != h.settlement(b)
  }

  /** A row that accepted a settlement has it on record, alone of its kind. */
  lemma AcceptedOnRecord(l: Ledger, i: nat, st: Settlement)
    requires Sound(l) && KindsDiffer(l.hashes) && i < |l.rows| && st.Authoritative?
    requires l.rows[i].state == Dispatched || (l.rows[i].state.Settled? && OnRecord(l.hashes, l.rows[i].observed, st))
    ensures var row := if l.rows[i].state == Dispatched then SettledRow(l.hashes, l.rows[i], st) else l.rows[i];
            forall other: Settlement :: other.Authoritative? ==>
              (OnRecord(l.hashes, row.observed, other) <==> l.hashes.settlement(other) == l.hashes.settlement(st))
  {
    assert Bound(l, l.rows[i]);
  }

  /** What an accepted settlement means: the row was dispatched and is settled, or had the evidence on record. */
  lemma AcceptedSettlement(l: Ledger, key: string, hash: string, st: Settlement)
    requires st.Authoritative? && Settle(l, key, hash, st).error.None?
    ensures FindRow(l.rows, key).Some?
    ensures var v, i := Settle(l, key, hash, st).ledger, FindRow(l.rows, key).value;
            && l.rows[i].hash == hash
            && (l.rows[i].state == Dispatched
                || (l.rows[i].state.Settled? && OnRecord(l.hashes, l.rows[i].observed, st)))
            && v == WithRow(l, i,
                            if l.rows[i].state == Dispatched then SettledRow(l.hashes, l.rows[i], st) else l.rows[i])
  {
  }

  lemma SettledRowAnswers(l: Ledger, i: nat, key: string, hash: string, other: Settlement)
    requires FindRow(l.rows, key) == Some(i) && l.rows[i].hash == hash && l.rows[i].state.Settled?
             && other.Authoritative?
    ensures Settle(l, key, hash, other).ledger == l
    ensures Settle(l, key, hash, other).error.None? <==> OnRecord(l.hashes, l.rows[i].observed, other)
  {
  }

  /**
   After an accepted settlement the next authoritative one for its row changes nothing, and is accepted
   exactly when its hash is that of the first.
   */
  lemma SettleReplays(l: Ledger, key: string, hash: string, st: Settlement, other: Settlement)
    requires Sound(l) && KindsDiffer(l.hashes) && st.Authoritative? && other.Authoritative?
    requires Settle(l, key, hash, st).error.None?
    ensures var v := Settle(l, key, hash, st).ledger;
            && Settle(v, key, hash, other).ledger == v
            && (Settle(v, key, hash, other).error.None? <==> l.hashes.settlement(other) == l.hashes.settlement(st))
  {
    AcceptedSettlement(l, key, hash, st);
    var v, i := Settle(l, key, hash, st).ledger, FindRow(l.rows, key).value;
    AcceptedOnRecord(l, i, st);
    FoundInSameKeys(l.rows, v.rows, key);
    SettledRowAnswers(v, i, key, hash, other);
  }

  /**
   When an authoritative settlement of a dispatched row drifts the ledger: its usage is outside the
   contract or the request, or its price is not the contract's. The last test, a price above the
   reserved maximum, never decides: a price the contract confirms is within it.
   */
  lemma DriftsExactly(l: Ledger, i: nat, st: Settlement)
    requires Sound(l) && i < |l.rows| && l.rows[i].state == Dispatched && st.Authoritative?
    requires FindContract(l.auth.contracts, l.rows[i].descriptor.contractId).Some?
    ensures var r := l.rows[i];
            var c := FindContract(l.auth.contracts, r.descriptor.contractId).value;
            c.source != NoSource && st.source == c.source ==>
              (SettleDispatched(l, i, st).error == Some("paid_effect_billing_contract_drift") <==>
                    || ChargeOf(c, st.usage) != Ok(st.actual)
                    || !WithinRequest(st.usage, r.descriptor.requestedUnits))
  {
    assert Bound(l, l.rows[i]);
    var c := FindContract(l.auth.contracts, l.rows[i].descriptor.contractId).value;
    if Covers(c, st.usage) {
      CoveredCharge(c, st.usage);
    }
  }

  /**
   What a drift leaves: every dispatched row, the contradicted one too, still held at its maximum, and
   nothing reserved.
   */
  lemma DriftHoldsLiabilities(l: Ledger, i: nat, st: Settlement)
    requires i < |l.rows| && st.Authoritative?
    requires SettleDispatched(l, i, st).error == Some("paid_effect_billing_contract_drift")
    ensures var v := SettleDispatched(l, i, st).ledger;
            && v.status != Active && |v.rows| == |l.rows|
            && (forall k :: 0 <= k < |l.rows| ==> v.rows[k].state != Reserved)
            && (forall k :: 0 <= k < |l.rows| && l.rows[k].state == Dispatched ==>
                  v.rows[k] == l.rows[k] && Held(v.rows[k]) == l.rows[k].maximum)
  {
    ReleaseLightens(l.rows, "authorization_drifted_before_dispatch");
  }
}
