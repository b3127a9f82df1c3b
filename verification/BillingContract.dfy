/** Integer ceiling pricing of one billed attempt, and the maximum a verified contract states for it. */
module BillingContract {
  import opened Common

  const MAX_SAFE := 9007199254740991

  datatype Dimension = Dimension(name: string, maxUnits: nat, cumulativeMaxUnits: Option<nat>, priceMicros: nat,
                                 priceUnits: nat)

  datatype Source = ProviderUsage | Invoice | NoSource

  datatype Contract = Contract(id: string, provider: string, model: string, dimensions: seq<Dimension>, overhead: nat,
                               maxChargeMicros: nat, source: Source)

  type Units = map<string, nat>

  /** `ceil(quantity * priceMicros / priceUnits)`. */
  function DimensionCharge(d: Dimension, quantity: nat): nat
    requires d.priceUnits > 0
  {
    (quantity * d.priceMicros + d.priceUnits - 1) / d.priceUnits
  }

  /** Rounded up: the least whole number of micros that is not below the exact price. */
  lemma LeastNotBelow(d: Dimension, quantity: nat)
    requires d.priceUnits > 0
    ensures DimensionCharge(d, quantity) * d.priceUnits >= quantity * d.priceMicros
    ensures forall k: nat :: k * d.priceUnits >= quantity * d.priceMicros ==> DimensionCharge(d, quantity) <= k
  {
    var exact, n, r := quantity * d.priceMicros, d.priceUnits, DimensionCharge(d, quantity);
    assert exact + n - 1 == n * r + (exact + n - 1) % n;
    forall k: nat | k * n >= exact ensures r <= k {
      if k < r {
        TimesPositive(n, r - k);
        TimesDifference(n, r, k);
        assert false;
      }
    }
  }

  ghost predicate Priced(dims: seq<Dimension>) {
    forall d :: d in dims ==> d.priceUnits > 0
  }

  function Maximum(dims: seq<Dimension>): nat
    requires Priced(dims)
  {
    if dims == [] then 0
    else
      var n := |dims| - 1;
      Maximum(dims[..n]) + DimensionCharge(dims[n], dims[n].maxUnits)
  }

  /** The charge for usage that names every dimension. */
  function Charge(dims: seq<Dimension>, units: Units): nat
    requires Priced(dims) && forall d :: d in dims ==> d.name in units
  {
    if dims == [] then 0
    else
      var n := |dims| - 1;
      Charge(dims[..n], units) + DimensionCharge(dims[n], units[dims[n].name])
  }

  function Names(dims: seq<Dimension>): (r: set<string>)
    ensures forall n :: n in r <==> exists d :: d in dims && d.name == n
  {
    set d | d in dims :: d.name
  }

  /** What the schema of a verified contract guarantees. */
  ghost predicate Verified(c: Contract) {
    && Priced(c.dimensions)
    && (forall i, j :: 0 <= i < j < |c.dimensions| ==> c.dimensions[i].name != c.dimensions[j].name)
    && c.maxChargeMicros == c.overhead + Maximum(c.dimensions) <= MAX_SAFE
    && forall d :: d in c.dimensions && d.cumulativeMaxUnits.Some? ==> d.cumulativeMaxUnits.value <= MAX_SAFE
  }

  /** Usage the contract can price: its dimensions, all of them, each within its maximum. */
  predicate Covers(c: Contract, units: Units) {
    && units.Keys <= Names(c.dimensions)
    && forall d :: d in c.dimensions ==> d.name in units && units[d.name] <= d.maxUnits
  }

  lemma TimesPositive(n: nat, k: nat)
    requires k > 0
    ensures n * k >= n
  {
  }

  lemma TimesDifference(n: int, x: int, y: int)
    ensures n * (x - y) == n * x - n * y
  {
  }

  lemma CeilingMonotone(a: nat, b: nat, n: nat)
    requires a <= b && n > 0
    ensures (a + n - 1) / n <= (b + n - 1) / n
  {
    var x, y := (a + n - 1) / n, (b + n - 1) / n;
    var r, s := (a + n - 1) % n, (b + n - 1) % n;
    assert a + n - 1 == n * x + r && b + n - 1 == n * y + s;
    if x > y {
      TimesPositive(n, x - y);
      TimesDifference(n, x, y);
      assert false;
    }
  }

  lemma DimensionChargeMonotone(d: Dimension, p: nat, q: nat)
    requires d.priceUnits > 0 && p <= q
    ensures DimensionCharge(d, p) <= DimensionCharge(d, q)
  {
    assert p * d.priceMicros <= q * d.priceMicros;
    CeilingMonotone(p * d.priceMicros, q * d.priceMicros, d.priceUnits);
  }

  lemma {:induction false} ChargeBounded(dims: seq<Dimension>, units: Units)
    requires Priced(dims) && forall d :: d in dims ==> d.name in units && units[d.name] <= d.maxUnits
    ensures Charge(dims, units) <= Maximum(dims)
  {
    if dims != [] {
      var n := |dims| - 1;
      assert dims[n] in dims;
      ChargeBounded(dims[..n], units);
      DimensionChargeMonotone(dims[n], units[dims[n].name], dims[n].maxUnits);
    }
  }

  /** No usage a verified contract covers costs more than its stated maximum. */
  lemma WithinMaximum(c: Contract, units: Units)
    requires Verified(c) && Covers(c, units)
    ensures c.overhead + Charge(c.dimensions, units) <= c.maxChargeMicros <= MAX_SAFE
  {
    ChargeBounded(c.dimensions, units);
  }

  /** The charge of an attempt, or the reason the usage is refused. */
  function ChargeOf(c: Contract, units: Units): Result<nat>
    requires Priced(c.dimensions)
  {
    if Covers(c, units) then Ok(c.overhead + Charge(c.dimensions, units)) else Err("paid_effect_usage_outside_contract")
  }

  /** The sums grow by the charge of each dimension, at its own quantity and at its maximum. */
  lemma SumsMean(dims: seq<Dimension>, d: Dimension, units: Units)
    requires Priced(dims + [d]) && forall x :: x in dims + [d] ==> x.name in units
    ensures (forall x :: x in dims ==> x in dims + [d]) && d in dims + [d]
    ensures Charge([], units) == 0 && Maximum([]) == 0
    ensures Charge(dims + [d], units) == Charge(dims, units) + DimensionCharge(d, units[d.name])
    ensures Maximum(dims + [d]) == Maximum(dims) + DimensionCharge(d, d.maxUnits)
  {
    assert (dims + [d])[..|dims|] == dims;
  }

  /** Usage is priced exactly when it names the dimensions of the contract, each within its maximum. */
  lemma PricedExactly(c: Contract, units: Units)
    requires Priced(c.dimensions)
    ensures ChargeOf(c, units).Ok? <==>
            && units.Keys == (set d | d in c.dimensions :: d.name)
            && forall d :: d in c.dimensions ==> units[d.name] <= d.maxUnits
    ensures ChargeOf(c, units).Ok? ==>
              && (forall d :: d in c.dimensions ==> d.name in units)
              && ChargeOf(c, units) == Ok(c.overhead + Charge(c.dimensions, units))
  {
    var names := set d | d in c.dimensions :: d.name;
    assert Names(c.dimensions) == names;
    if Covers(c, units) {
      forall n | n in names ensures n in units {
      }
    } else if units.Keys == names {
      forall d | d in c.dimensions ensures d.name in units {
        assert d.name in names;
      }
    }
  }

  lemma ChargeStep(dims: seq<Dimension>, n: nat, units: Units)
    requires n < |dims| && Priced(dims) && forall k :: 0 <= k <= n ==> dims[k].name in units
    ensures Charge(dims[..n + 1], units) == Charge(dims[..n], units) + DimensionCharge(dims[n], units[dims[n].name])
  {
    assert dims[..n + 1][..n] == dims[..n];
  }

  /** The dimension loop: it stops at the first dimension missing or out of range. */
  method AddCharges(dims: seq<Dimension>, start: nat, units: Units) returns (total: Option<nat>)
    requires Priced(dims)
    ensures total.Some? <==> forall d :: d in dims ==> d.name in units && units[d.name] <= d.maxUnits
    ensures total.Some? ==> total.value == start + Charge(dims, units)
  {
    var sum := start;
    for n := 0 to |dims|
      invariant forall k :: 0 <= k < n ==> dims[k].name in units && units[dims[k].name] <= dims[k].maxUnits
      invariant sum == start + Charge(dims[..n], units)
    {
      var d := dims[n];
      assert d in dims;
      if d.name !in units || units[d.name] > d.maxUnits { return None; }
      ChargeStep(dims, n, units);
      sum := sum + DimensionCharge(d, units[d.name]);
    }
    assert dims[..|dims|] == dims;
    return Some(sum);
  }

  function Checked(total: nat): Result<nat> {
    if total > MAX_SAFE then Err("paid_effect_cost_overflow") else Ok(total)
  }

  /**
   `calculatePaidEffectChargeMicros`: it refuses exactly the usage the contract does not cover, and for
   a verified contract the overflow test at the end never fires.
   */
  method CalculateCharge(c: Contract, units: Units) returns (r: Result<nat>)
    requires Verified(c)
    ensures r.Ok? <==> Covers(c, units)
    ensures r.Ok? ==> r == ChargeOf(c, units) && r.value <= c.maxChargeMicros
  {
    if !(units.Keys <= Names(c.dimensions)) {
      return Err("paid_effect_unknown_billing_dimension");
    }
    var total := AddCharges(c.dimensions, c.overhead, units);
    if total.None? {
      return Err("paid_effect_usage_outside_contract");
    }
    WithinMaximum(c, units);
    return Checked(total.value);
  }
}
