/**
 `reconcileComparisonCosts`: charges each physical attempt once, refuses conflicting aliases and
 totals what is known.
 */
module CostReconciliation {
  import opened Common
  import opened IdOrder
  import opened Sums

  datatype Kind = Billed | Reported | Estimated | Reserved | Unknown

  /** What an effect charges and for whom; `amount` is `None` for the source's `null`. */
  datatype Charge = Charge(
    attempt: string, logical: string, beneficiaries: seq<string>, amount: Option<int>, kind: Kind)

  datatype Effect = Effect(id: string, arm: string, charge: Charge)

  datatype Reconciliation = Reconciliation(
    physicalEffects: nat,
    attributed: Option<int>,
    unallocated: Option<int>,
    billed: Option<int>,
    reported: Option<int>,
    estimated: Option<int>,
    reserved: Option<int>,
    unknownEffects: nat,
    reconciled: bool,
    effects: seq<Effect>)

  function SetOf(ids: seq<string>): set<string> {
    set x | x in ids
  }

  /** The comparison the loop makes: two aliases of one attempt may differ in nothing else. */
  predicate Agree(a: Charge, b: Charge) {
    a.amount == b.amount && a.kind == b.kind && a.logical == b.logical
  }

  ghost predicate Consistent(effects: seq<Effect>) {
    forall i, j ::
      0 <= i < |effects| && 0 <= j < |effects| && effects[i].charge.attempt == effects[j].charge.attempt ==>
      Agree(effects[i].charge, effects[j].charge)
  }

  // ---------------------------------------------------------------- one row per attempt

  /** The attempts charged, in the order in which they first occur. */
  ghost function Attempts(effects: seq<Effect>): seq<string> {
    if effects == [] then []
    else
      var n := |effects| - 1;
      var earlier, attempt := Attempts(effects[..n]), effects[n].charge.attempt;
      if attempt in earlier then earlier else earlier + [attempt]
  }

  /** The first alias of an attempt. */
  ghost function FirstAlias(effects: seq<Effect>, attempt: string): Option<Effect> {
    if effects == [] then None
    else
      var n := |effects| - 1;
      var earlier := FirstAlias(effects[..n], attempt);
      if earlier.None? && effects[n].charge.attempt == attempt then Some(effects[n]) else earlier
  }

  /** Everyone named as a beneficiary by some alias of the attempt. */
  ghost function Beneficiaries(effects: seq<Effect>, attempt: string): set<string> {
    set i, x | 0 <= i < |effects| && effects[i].charge.attempt == attempt && x in effects[i].charge.beneficiaries :: x
  }

  function Renamed(effect: Effect, beneficiaries: seq<string>): Effect {
    effect.(charge := effect.charge.(beneficiaries := beneficiaries))
  }

  /** The row an attempt deserves: its first alias, but with the beneficiaries of all of them. */
  ghost function RowFor(effects: seq<Effect>, attempt: string): Effect
    requires FirstAlias(effects, attempt).Some?
  {
    Renamed(FirstAlias(effects, attempt).value, SortedIds(Beneficiaries(effects, attempt)))
  }

  /** One row per attempt. */
  ghost function Rows(effects: seq<Effect>): (rows: seq<Effect>)
    ensures |rows| == |Attempts(effects)|
  {
    AttemptsMean(effects);
    seq(|Attempts(effects)|, k requires 0 <= k < |Attempts(effects)| => RowFor(effects, Attempts(effects)[k]))
  }

  ghost predicate Distinct(ids: seq<string>) {
    forall i, j :: 0 <= i < j < |ids| ==> ids[i] != ids[j]
  }

  lemma {:induction false} AttemptsDistinct(effects: seq<Effect>)
    ensures Distinct(Attempts(effects))
  {
    if effects != [] {
      AttemptsDistinct(effects[..|effects| - 1]);
    }
  }

  lemma {:induction false} AttemptCharged(effects: seq<Effect>, i: nat)
    requires i < |effects|
    ensures effects[i].charge.attempt in Attempts(effects)
  {
    var n := |effects| - 1;
    if i < n {
      AttemptCharged(effects[..n], i);
    }
  }

  lemma {:induction false} AttemptHasAlias(effects: seq<Effect>, a: string)
    ensures a in Attempts(effects) <==> FirstAlias(effects, a).Some?
    ensures FirstAlias(effects, a).Some? ==>
              FirstAlias(effects, a).value in effects && FirstAlias(effects, a).value.charge.attempt == a
  {
    if effects != [] {
      AttemptHasAlias(effects[..|effects| - 1], a);
    }
  }

  lemma {:induction false} AttemptsMean(effects: seq<Effect>)
    ensures Distinct(Attempts(effects))
    ensures forall i :: 0 <= i < |effects| ==> effects[i].charge.attempt in Attempts(effects)
    ensures forall a :: a in Attempts(effects) <==> FirstAlias(effects, a).Some?
    ensures forall a :: FirstAlias(effects, a).Some? ==>
              FirstAlias(effects, a).value in effects && FirstAlias(effects, a).value.charge.attempt == a
  {
    AttemptsDistinct(effects);
    forall i | 0 <= i < |effects| ensures effects[i].charge.attempt in Attempts(effects) {
      AttemptCharged(effects, i);
    }
    forall a ensures (a in Attempts(effects) <==> FirstAlias(effects, a).Some?) &&
                     (FirstAlias(effects, a).Some? ==>
                        FirstAlias(effects, a).value in effects && FirstAlias(effects, a).value.charge.attempt == a)
    {
      AttemptHasAlias(effects, a);
    }
  }

  lemma BeneficiariesExtend(effects: seq<Effect>, effect: Effect, attempt: string)
    ensures Beneficiaries(effects + [effect], attempt) ==
            Beneficiaries(effects, attempt) +
            (if effect.charge.attempt == attempt then SetOf(effect.charge.beneficiaries) else {})
  {
    var more := effects + [effect];
    forall x ensures x in Beneficiaries(more, attempt) <==>
                     x in Beneficiaries(effects, attempt) ||
                     (effect.charge.attempt == attempt && x in effect.charge.beneficiaries)
    {
      if x in Beneficiaries(effects, attempt) {
        var i :| 0 <= i < |effects| && effects[i].charge.attempt == attempt && x in effects[i].charge.beneficiaries;
        assert more[i] == effects[i];
      }
      if effect.charge.attempt == attempt && x in effect.charge.beneficiaries {
        assert more[|effects|] == effect;
      }
    }
  }

  function Merged(row: Effect, effect: Effect): Effect {
    Renamed(row, SortedIds(SetOf(row.charge.beneficiaries) + SetOf(effect.charge.beneficiaries)))
  }

  function Opened(effect: Effect): Effect {
    Renamed(effect, SortedIds(SetOf(effect.charge.beneficiaries)))
  }

  lemma RowUnmoved(effects: seq<Effect>, effect: Effect, attempt: string)
    requires FirstAlias(effects, attempt).Some? && attempt != effect.charge.attempt
    ensures FirstAlias(effects + [effect], attempt).Some?
    ensures RowFor(effects + [effect], attempt) == RowFor(effects, attempt)
  {
    assert (effects + [effect])[..|effects|] == effects;
    BeneficiariesExtend(effects, effect, attempt);
  }

  lemma RowMerged(effects: seq<Effect>, effect: Effect)
    requires FirstAlias(effects, effect.charge.attempt).Some?
    ensures FirstAlias(effects + [effect], effect.charge.attempt).Some?
    ensures RowFor(effects + [effect], effect.charge.attempt) ==
            Merged(RowFor(effects, effect.charge.attempt), effect)
  {
    var attempt := effect.charge.attempt;
    assert (effects + [effect])[..|effects|] == effects;
    BeneficiariesExtend(effects, effect, attempt);
    assert SetOf(RowFor(effects, attempt).charge.beneficiaries) == Beneficiaries(effects, attempt);
  }

  lemma KnownAttempt(effects: seq<Effect>, effect: Effect)
    requires effect.charge.attempt in Attempts(effects)
    ensures Attempts(effects + [effect]) == Attempts(effects)
  {
    assert (effects + [effect])[..|effects|] == effects;
  }

  /** What one more alias of the `k`-th attempt does to the `j`-th row. */
  lemma MergedRow(effects: seq<Effect>, effect: Effect, k: nat, j: nat)
    requires k < |Attempts(effects)| && j < |Attempts(effects)| && Attempts(effects)[k] == effect.charge.attempt
    requires Attempts(effects + [effect]) == Attempts(effects)
    ensures Rows(effects + [effect])[j] ==
            if j == k then Merged(Rows(effects)[k], effect) else Rows(effects)[j]
  {
    var attempt := Attempts(effects)[j];
    AttemptHasAlias(effects, attempt);
    if j == k {
      RowMerged(effects, effect);
    } else {
      AttemptsDistinct(effects);
      RowUnmoved(effects, effect, attempt);
    }
  }

  lemma MergeStep(effects: seq<Effect>, effect: Effect, k: nat)
    requires k < |Attempts(effects)| && Attempts(effects)[k] == effect.charge.attempt
    ensures Attempts(effects + [effect]) == Attempts(effects)
    ensures Rows(effects + [effect]) == Rows(effects)[k := Merged(Rows(effects)[k], effect)]
  {
    KnownAttempt(effects, effect);
    forall j | 0 <= j < |Rows(effects)|
      ensures Rows(effects + [effect])[j] == if j == k then Merged(Rows(effects)[k], effect) else Rows(effects)[j]
    {
      MergedRow(effects, effect, k, j);
    }
  }

  lemma OpenStep(effects: seq<Effect>, effect: Effect)
    requires effect.charge.attempt !in Attempts(effects)
    ensures Attempts(effects + [effect]) == Attempts(effects) + [effect.charge.attempt]
    ensures Rows(effects + [effect]) == Rows(effects) + [Opened(effect)]
  {
    var more, attempt := effects + [effect], effect.charge.attempt;
    assert more[..|effects|] == effects;
    AttemptsMean(effects);
    BeneficiariesExtend(effects, effect, attempt);
    assert Beneficiaries(effects, attempt) == {};
    forall j | 0 <= j < |Attempts(effects)| ensures Rows(more)[j] == Rows(effects)[j] {
      RowUnmoved(effects, effect, Attempts(effects)[j]);
    }
  }

  /** The row of an attempt charges what its first alias charges. */
  lemma RowAlias(effects: seq<Effect>, k: nat)
    requires k < |Rows(effects)|
    ensures var alias := FirstAlias(effects, Attempts(effects)[k]);
            && alias.Some? && alias.value in effects
            && alias.value.charge.attempt == Attempts(effects)[k]
            && forall c :: Agree(alias.value.charge, c) <==> Agree(Rows(effects)[k].charge, c)
  {
    AttemptsMean(effects);
  }

  lemma Conflict(effects: seq<Effect>, n: nat, alias: Effect)
    requires n < |effects| && alias in effects[..n]
    requires alias.charge.attempt == effects[n].charge.attempt && !Agree(alias.charge, effects[n].charge)
    ensures !Consistent(effects)
  {
    var i :| 0 <= i < n && effects[i] == alias;
    assert !Agree(effects[i].charge, effects[n].charge);
  }

  lemma ConsistentOpen(effects: seq<Effect>, effect: Effect)
    requires Consistent(effects) && effect.charge.attempt !in Attempts(effects)
    ensures Consistent(effects + [effect])
  {
    AttemptsMean(effects);
  }

  lemma ConsistentMerge(effects: seq<Effect>, effect: Effect, alias: Effect)
    requires Consistent(effects) && alias in effects
    requires alias.charge.attempt == effect.charge.attempt && Agree(alias.charge, effect.charge)
    ensures Consistent(effects + [effect])
  {
    var i :| 0 <= i < |effects| && effects[i] == alias;
  }

  // ---------------------------------------------------------------- totals

  function Worth(value: Option<int>): int {
    value.GetOr(0)
  }

  /** `sumKnown`: a null value, or no value at all, makes the sum unknown. */
  function SumKnown(values: seq<Option<int>>): Option<int> {
    if values == [] || None in values then None else Some(SumBy(values, Worth))
  }

  function Charges(rows: seq<Effect>): (r: seq<Charge>)
    ensures |r| == |rows|
  {
    seq(|rows|, k requires 0 <= k < |rows| => rows[k].charge)
  }

  /** The amounts of the charges a filter keeps. */
  function Amounts(charges: seq<Charge>, p: Charge -> bool): seq<Option<int>> {
    if charges == [] then []
    else (if p(charges[0]) then [charges[0].amount] else []) + Amounts(charges[1..], p)
  }

  predicate Known(c: Charge) {
    c.amount.Some? && c.kind != Unknown
  }

  /** `a! + b!`: JavaScript reads a null operand as zero. */
  function JsAdd(a: Option<int>, b: Option<int>): int {
    a.GetOr(0) + b.GetOr(0)
  }

  const ANY := (c: Charge) => true
  const ATTRIBUTED := (c: Charge) => |c.beneficiaries| > 0
  const UNALLOCATED := (c: Charge) => |c.beneficiaries| == 0
  const UNKNOWN := (c: Charge) => !Known(c)

  function OfKind(kind: Kind): Charge -> bool {
    (c: Charge) => c.kind == kind
  }

  function Summary(rows: seq<Effect>): Reconciliation {
    var charges := Charges(rows);
    var total := SumKnown(Amounts(charges, ANY));
    var attributed := SumKnown(Amounts(charges, ATTRIBUTED));
    var unallocated := SumKnown(Amounts(charges, UNALLOCATED));
    Reconciliation(
      |rows|, attributed, unallocated,
      SumKnown(Amounts(charges, OfKind(Billed))),
      SumKnown(Amounts(charges, OfKind(Reported))),
      SumKnown(Amounts(charges, OfKind(Estimated))),
      SumKnown(Amounts(charges, OfKind(Reserved))),
      |Amounts(charges, UNKNOWN)|,
      (forall k :: 0 <= k < |charges| ==> Known(charges[k])) && total == Some(JsAdd(attributed, unallocated)),
      rows)
  }

  // ---------------------------------------------------------------- the method

  /** Refuses exactly the inputs in which two aliases of one attempt disagree. */
  method Reconcile(effects: seq<Effect>) returns (r: Result<Reconciliation>)
    ensures r.Ok? <==> Consistent(effects)
    ensures r.Ok? ==> r.value == Summary(Rows(effects))
  {
    var rows: seq<Effect> := [];
    var unique: map<string, nat> := map[];
    assert effects[..0] == [];
    for n := 0 to |effects|
      invariant rows == Rows(effects[..n])
      invariant forall a :: a in unique ==> unique[a] < |rows| && Attempts(effects[..n])[unique[a]] == a
      invariant forall a :: a in Attempts(effects[..n]) ==> a in unique
      invariant Consistent(effects[..n])
    {
      var effect := effects[n];
      var attempt := effect.charge.attempt;
      assert effects[..n + 1] == effects[..n] + [effect];
      if attempt in unique {
        var k := unique[attempt];
        RowAlias(effects[..n], k);
        ghost var alias := FirstAlias(effects[..n], attempt).value;
        if !Agree(rows[k].charge, effect.charge) {
          Conflict(effects, n, alias);
          return Err("Conflicting aliases for physical attempt " + attempt);
        }
        ConsistentMerge(effects[..n], effect, alias);
        MergeStep(effects[..n], effect, k);
        rows := rows[k := Merged(rows[k], effect)];
      } else {
        ConsistentOpen(effects[..n], effect);
        OpenStep(effects[..n], effect);
        unique := unique[attempt := |rows|];
        rows := rows + [Opened(effect)];
      }
    }
    assert effects[..|effects|] == effects;
    return Ok(Summary(rows));
  }

  // ---------------------------------------------------------------- what the reconciliation means

  lemma {:induction false} AmountsKnown(charges: seq<Charge>, p: Charge -> bool)
    requires forall k :: 0 <= k < |charges| ==> charges[k].amount.Some?
    ensures None !in Amounts(charges, p)
  {
    if charges != [] {
      AmountsKnown(charges[1..], p);
    }
  }

  lemma {:induction false} SplitTotal(charges: seq<Charge>)
    ensures SumBy(Amounts(charges, ANY), Worth) ==
            SumBy(Amounts(charges, ATTRIBUTED), Worth) + SumBy(Amounts(charges, UNALLOCATED), Worth)
    ensures |Amounts(charges, ANY)| == |charges|
  {
    if charges != [] {
      SplitTotal(charges[1..]);
      var head := charges[..1];
      assert charges[0] == head[0];
      forall p: Charge -> bool ensures SumBy(Amounts(charges, p), Worth) ==
        (if p(charges[0]) then Worth(charges[0].amount) else 0) + SumBy(Amounts(charges[1..], p), Worth)
      {
        if p(charges[0]) {
          assert Amounts(charges, p)[1..] == Amounts(charges[1..], p);
        } else {
          assert Amounts(charges, p) == Amounts(charges[1..], p);
        }
      }
    }
  }

  lemma {:induction false} TotalsAgree(charges: seq<Charge>)
    requires forall k :: 0 <= k < |charges| ==> charges[k].amount.Some?
    ensures (SumKnown(Amounts(charges, ANY)) ==
               Some(JsAdd(SumKnown(Amounts(charges, ATTRIBUTED)), SumKnown(Amounts(charges, UNALLOCATED)))))
            <==> charges != []
  {
    SplitTotal(charges);
    AmountsKnown(charges, ANY);
    AmountsKnown(charges, ATTRIBUTED);
    AmountsKnown(charges, UNALLOCATED);
  }

  lemma RowsKnown(effects: seq<Effect>)
    requires Consistent(effects)
    ensures (forall k :: 0 <= k < |Rows(effects)| ==> Known(Rows(effects)[k].charge)) <==>
            (forall i :: 0 <= i < |effects| ==> Known(effects[i].charge))
  {
    var rows := Rows(effects);
    AttemptsMean(effects);
    if forall k :: 0 <= k < |rows| ==> Known(rows[k].charge) {
      forall i | 0 <= i < |effects| ensures Known(effects[i].charge) {
        var k :| 0 <= k < |rows| && Attempts(effects)[k] == effects[i].charge.attempt;
        RowAlias(effects, k);
        assert Known(rows[k].charge);
      }
    } else {
      var k :| 0 <= k < |rows| && !Known(rows[k].charge);
      RowAlias(effects, k);
    }
  }

  /**
   `reconciled` holds exactly when there is something to reconcile and every effect is known:
   the three independently filtered sums then agree, null operands included.
   */
  lemma ReconciledExactly(effects: seq<Effect>)
    requires Consistent(effects)
    ensures Summary(Rows(effects)).reconciled <==>
            effects != [] && forall i :: 0 <= i < |effects| ==> Known(effects[i].charge)
  {
    var charges := Charges(Rows(effects));
    RowsKnown(effects);
    AttemptsMean(effects);
    if effects != [] {
      assert effects[0].charge.attempt in Attempts(effects);
    }
    if forall k :: 0 <= k < |charges| ==> Known(charges[k]) {
      TotalsAgree(charges);
      forall k | 0 <= k < |Rows(effects)| ensures Known(Rows(effects)[k].charge) {
        assert Known(charges[k]);
      }
    } else {
      var k :| 0 <= k < |charges| && !Known(charges[k]);
      assert !Known(Rows(effects)[k].charge);
    }
  }

  lemma {:induction false} AmountsAppend(xs: seq<Charge>, ys: seq<Charge>, p: Charge -> bool)
    ensures Amounts(xs + ys, p) == Amounts(xs, p) + Amounts(ys, p)
  {
    if xs == [] {
      assert xs + ys == ys;
    } else {
      var head := if p(xs[0]) then [xs[0].amount] else [];
      assert (xs + ys)[0] == xs[0] && (xs + ys)[1..] == xs[1..] + ys;
      AmountsAppend(xs[1..], ys, p);
      assert head + (Amounts(xs[1..], p) + Amounts(ys, p)) == head + Amounts(xs[1..], p) + Amounts(ys, p);
    }
  }

  lemma {:induction false} AmountsWithout(ys: seq<Charge>, i: nat, p: Charge -> bool)
    requires i < |ys|
    ensures multiset(Amounts(ys, p)) ==
            multiset(Amounts(ys[..i] + ys[i + 1..], p)) + (if p(ys[i]) then multiset{ys[i].amount} else multiset{})
  {
    assert ys == ys[..i] + ([ys[i]] + ys[i + 1..]);
    assert ([ys[i]] + ys[i + 1..])[1..] == ys[i + 1..];
    AmountsAppend(ys[..i], [ys[i]] + ys[i + 1..], p);
    AmountsAppend(ys[..i], ys[i + 1..], p);
  }

  lemma {:induction false} AmountsPermutation(xs: seq<Charge>, ys: seq<Charge>, p: Charge -> bool)
    requires multiset(xs) == multiset(ys)
    ensures multiset(Amounts(xs, p)) == multiset(Amounts(ys, p))
  {
    if xs == [] {
      SameLength(xs, ys);
    } else {
      var i := FindInPermutation(xs, ys);
      AmountsPermutation(xs[1..], ys[..i] + ys[i + 1..], p);
      AmountsWithout(ys, i, p);
    }
  }

  lemma SumKnownPermutation(xs: seq<Option<int>>, ys: seq<Option<int>>)
    requires multiset(xs) == multiset(ys)
    ensures SumKnown(xs) == SumKnown(ys) && |xs| == |ys|
  {
    assert |multiset(xs)| == |xs| && |multiset(ys)| == |ys|;
    assert None in xs <==> None in multiset(xs);
    assert None in ys <==> None in multiset(ys);
    SumByPermutation(xs, ys, Worth);
  }

  lemma {:induction false} DistinctPermutation(xs: seq<string>, ys: seq<string>)
    requires Distinct(xs) && Distinct(ys)
    requires forall x :: x in xs <==> x in ys
    ensures multiset(xs) == multiset(ys)
  {
    forall x ensures multiset(xs)[x] == multiset(ys)[x] {
      DistinctCount(xs, x);
      DistinctCount(ys, x);
    }
  }

  lemma {:induction false} DistinctCount(xs: seq<string>, x: string)
    requires Distinct(xs)
    ensures multiset(xs)[x] == if x in xs then 1 else 0
  {
    if xs != [] {
      DistinctCount(xs[1..], x);
      assert xs == [xs[0]] + xs[1..];
    }
  }

  /** The charge of an attempt's row; arbitrary when the attempt does not occur. */
  ghost function ChargeFor(effects: seq<Effect>, attempt: string): Charge {
    if FirstAlias(effects, attempt).Some? then RowFor(effects, attempt).charge
    else Charge(attempt, "", [], None, Unknown)
  }

  lemma {:induction false} SameCharge(es: seq<Effect>, fs: seq<Effect>, attempt: string)
    requires multiset(es) == multiset(fs) && Consistent(es)
    requires attempt in Attempts(es)
    ensures attempt in Attempts(fs) && FirstAlias(es, attempt).Some? && FirstAlias(fs, attempt).Some?
    ensures ChargeFor(es, attempt) == ChargeFor(fs, attempt)
  {
    AttemptsMean(es);
    AttemptsMean(fs);
    var e := FirstAlias(es, attempt).value;
    SameElements(es, fs);
    assert e in fs && e.charge.attempt in Attempts(fs);
    var f := FirstAlias(fs, attempt).value;
    assert f in es;
    SameBeneficiaries(es, fs, attempt);
  }

  lemma SameElements(es: seq<Effect>, fs: seq<Effect>)
    requires multiset(es) == multiset(fs)
    ensures forall e :: e in es <==> e in fs
  {
    forall e ensures e in es <==> e in fs {
      assert e in es <==> e in multiset(es);
      assert e in fs <==> e in multiset(fs);
    }
  }

  lemma SameBeneficiaries(es: seq<Effect>, fs: seq<Effect>, attempt: string)
    requires multiset(es) == multiset(fs)
    ensures Beneficiaries(es, attempt) == Beneficiaries(fs, attempt)
  {
    SameElements(es, fs);
    forall x ensures x in Beneficiaries(es, attempt) <==> x in Beneficiaries(fs, attempt) {
      if x in Beneficiaries(es, attempt) {
        var i :| 0 <= i < |es| && es[i].charge.attempt == attempt && x in es[i].charge.beneficiaries;
        assert es[i] in fs;
      }
      if x in Beneficiaries(fs, attempt) {
        var i :| 0 <= i < |fs| && fs[i].charge.attempt == attempt && x in fs[i].charge.beneficiaries;
        assert fs[i] in es;
      }
    }
  }

  lemma SameConsistency(es: seq<Effect>, fs: seq<Effect>)
    requires multiset(es) == multiset(fs) && Consistent(es)
    ensures Consistent(fs)
  {
    SameElements(es, fs);
    forall i, j | 0 <= i < |fs| && 0 <= j < |fs| && fs[i].charge.attempt == fs[j].charge.attempt
      ensures Agree(fs[i].charge, fs[j].charge)
    {
      assert fs[i] in es && fs[j] in es;
    }
  }

  lemma {:induction false} SameAttempts(es: seq<Effect>, fs: seq<Effect>)
    requires multiset(es) == multiset(fs) && Consistent(es) && Consistent(fs)
    ensures multiset(Attempts(es)) == multiset(Attempts(fs)) && |Attempts(es)| == |Attempts(fs)|
    ensures forall a :: a in Attempts(fs) ==> a in Attempts(es)
  {
    var xs, ys := Attempts(es), Attempts(fs);
    AttemptsMean(es);
    AttemptsMean(fs);
    forall a ensures a in xs <==> a in ys {
      if a in xs { SameCharge(es, fs, a); }
      if a in ys { SameCharge(fs, es, a); }
    }
    DistinctPermutation(xs, ys);
    assert |multiset(xs)| == |xs| && |multiset(ys)| == |ys|;
  }

  lemma SameCharges(es: seq<Effect>, fs: seq<Effect>)
    requires multiset(es) == multiset(fs) && Consistent(es)
    ensures multiset(Charges(Rows(es))) == multiset(Charges(Rows(fs)))
    ensures |Rows(es)| == |Rows(fs)|
  {
    var xs, ys := Attempts(es), Attempts(fs);
    SameConsistency(es, fs);
    SameAttempts(es, fs);
    var f, g := a => ChargeFor(es, a), a => ChargeFor(fs, a);
    MapPermutation(xs, ys, f);
    ChargesByAttempt(es);
    ChargesByAttempt(fs);
    assert MapSeq(ys, f) == MapSeq(ys, g) by {
      AttemptsMean(es);
      forall i | 0 <= i < |ys| ensures ChargeFor(es, ys[i]) == ChargeFor(fs, ys[i]) {
        assert ys[i] in xs;
        SameCharge(es, fs, ys[i]);
      }
    }
  }

  lemma {:induction false} ChargesByAttempt(effects: seq<Effect>)
    ensures Charges(Rows(effects)) == MapSeq(Attempts(effects), a => ChargeFor(effects, a))
  {
    AttemptsMean(effects);
  }

  /**
   The order of the input does not matter: whether it is refused, every count and total, and the
   charge (with its beneficiary list) of every attempt are the same for any permutation.
   */
  lemma OrderIrrelevant(es: seq<Effect>, fs: seq<Effect>)
    requires multiset(es) == multiset(fs)
    ensures Consistent(es) <==> Consistent(fs)
    ensures Consistent(es) ==>
              && Summary(Rows(fs)) == Summary(Rows(es)).(effects := Rows(fs))
              && multiset(Charges(Rows(es))) == multiset(Charges(Rows(fs)))
  {
    if Consistent(fs) { SameConsistency(fs, es); }
    if Consistent(es) {
      SameConsistency(es, fs);
      SameCharges(es, fs);
      var xs, ys := Charges(Rows(es)), Charges(Rows(fs));
      forall p: Charge -> bool
        ensures SumKnown(Amounts(xs, p)) == SumKnown(Amounts(ys, p)) && |Amounts(xs, p)| == |Amounts(ys, p)|
      {
        AmountsPermutation(xs, ys, p);
        SumKnownPermutation(Amounts(xs, p), Amounts(ys, p));
      }
      AllKnownPermutation(xs, ys);
    }
  }

  lemma AllKnownPermutation(xs: seq<Charge>, ys: seq<Charge>)
    requires multiset(xs) == multiset(ys)
    ensures (forall k :: 0 <= k < |xs| ==> Known(xs[k])) <==> (forall k :: 0 <= k < |ys| ==> Known(ys[k]))
  {
    forall k | 0 <= k < |ys| ensures ys[k] in xs {
      assert ys[k] in multiset(xs);
    }
    forall k | 0 <= k < |xs| ensures xs[k] in ys {
      assert xs[k] in multiset(ys);
    }
  }

  /** Opening the effect's row changes nothing: its beneficiary list is sorted and has no repeats. */
  ghost predicate Canonical(effect: Effect) {
    Opened(effect) == effect
  }

  ghost function AttemptOf(effect: Effect): string {
    effect.charge.attempt
  }

  /** Rows that are already distinct and canonical are reproduced as they are. */
  lemma {:induction false} CanonicalRows(rows: seq<Effect>)
    requires Distinct(MapSeq(rows, AttemptOf))
    requires forall e :: e in rows ==> Canonical(e)
    ensures Rows(rows) == rows && Attempts(rows) == MapSeq(rows, AttemptOf)
  {
    if rows != [] {
      var n := |rows| - 1;
      var earlier, last := rows[..n], rows[n];
      assert rows == earlier + [last];
      assert MapSeq(rows, AttemptOf) == MapSeq(earlier, AttemptOf) + [last.charge.attempt];
      assert Distinct(MapSeq(earlier, AttemptOf));
      CanonicalRows(earlier);
      assert last in rows;
      OpenStep(earlier, last);
    }
  }

  lemma RowCanonical(effects: seq<Effect>, attempt: string)
    requires FirstAlias(effects, attempt).Some?
    ensures Canonical(RowFor(effects, attempt))
  {
    assert SetOf(RowFor(effects, attempt).charge.beneficiaries) == Beneficiaries(effects, attempt);
  }

  /** The rows of a reconciliation are canonical, one for each attempt. */
  lemma RowsCanonical(effects: seq<Effect>)
    ensures forall e :: e in Rows(effects) ==> Canonical(e)
    ensures MapSeq(Rows(effects), AttemptOf) == Attempts(effects)
    ensures Distinct(Attempts(effects))
  {
    var rows, attempts := Rows(effects), Attempts(effects);
    AttemptsMean(effects);
    forall k | 0 <= k < |rows| ensures Canonical(rows[k]) && AttemptOf(rows[k]) == attempts[k] {
      assert attempts[k] in attempts;
      RowCanonical(effects, attempts[k]);
    }
  }

  lemma DistinctAttemptsConsistent(rows: seq<Effect>)
    requires Distinct(MapSeq(rows, AttemptOf))
    ensures Consistent(rows)
  {
    forall i, j | 0 <= i < |rows| && 0 <= j < |rows| && rows[i].charge.attempt == rows[j].charge.attempt
      ensures i == j
    {
      assert MapSeq(rows, AttemptOf)[i] == MapSeq(rows, AttemptOf)[j];
    }
  }

  /** Reconciling a reconciliation's own rows returns the same reconciliation. */
  lemma ReconcileIdempotent(effects: seq<Effect>)
    ensures Consistent(Rows(effects))
    ensures Summary(Rows(Rows(effects))) == Summary(Rows(effects))
  {
    RowsCanonical(effects);
    DistinctAttemptsConsistent(Rows(effects));
    CanonicalRows(Rows(effects));
  }
}
