/**
 What a reconciliation reports, stated on the raw effects: which rows it has, in which order and for
 whom, and every count and total as a sum over physical attempts.
 */
module CostTotals {
  import opened Common
  import opened IdOrder
  import opened Sums
  import opened CostReconciliation

  // ---------------------------------------------------------------- the rows

  /** No earlier effect belongs to the attempt of effect `i`. */
  ghost predicate FirstOfAttempt(effects: seq<Effect>, i: nat) {
    i < |effects| && forall k :: 0 <= k < i ==> effects[k].charge.attempt != effects[i].charge.attempt
  }

  /** The row is that effect, with the sorted, distinct beneficiaries of all effects of its attempt. */
  ghost predicate RowOf(row: Effect, effects: seq<Effect>, i: nat) {
    && i < |effects|
    && row.id == effects[i].id && row.arm == effects[i].arm
    && row.charge == effects[i].charge.(beneficiaries := row.charge.beneficiaries)
    && Increasing(row.charge.beneficiaries)
    && forall x :: x in row.charge.beneficiaries <==>
                   exists e :: e in effects && e.charge.attempt == row.charge.attempt && x in e.charge.beneficiaries
  }

  lemma {:induction false} FirstIsAlias(effects: seq<Effect>, i: nat)
    requires FirstOfAttempt(effects, i)
    ensures FirstAlias(effects, effects[i].charge.attempt) == Some(effects[i])
  {
    var n := |effects| - 1;
    if i < n {
      FirstIsAlias(effects[..n], i);
    } else {
      AttemptsMean(effects[..n]);
      NoneBefore(effects[..n], effects[i].charge.attempt);
    }
  }

  lemma {:induction false} NoneBefore(effects: seq<Effect>, attempt: string)
    requires forall k :: 0 <= k < |effects| ==> effects[k].charge.attempt != attempt
    ensures FirstAlias(effects, attempt).None?
  {
    if effects != [] {
      NoneBefore(effects[..|effects| - 1], attempt);
    }
  }

  /** Some earlier effect has the attempt of effect `n`. */
  ghost function FirstIndex(effects: seq<Effect>, n: nat): (k: nat)
    requires n < |effects| && effects[n].charge.attempt in Attempts(effects[..n])
    ensures k < n && effects[k].charge.attempt == effects[n].charge.attempt
  {
    AttemptsMean(effects[..n]);
    var alias := FirstAlias(effects[..n], effects[n].charge.attempt).value;
    var k: nat :| k < n && effects[..n][k] == alias;
    k
  }

  lemma FirstInPrefix(effects: seq<Effect>, n: nat, i: nat)
    requires i < n <= |effects|
    ensures FirstOfAttempt(effects, i) <==> FirstOfAttempt(effects[..n], i)
  {
    assert forall k :: 0 <= k <= i ==> effects[..n][k] == effects[k];
  }

  lemma LastIsFirst(effects: seq<Effect>, n: nat)
    requires n < |effects|
    ensures FirstOfAttempt(effects, n) <==> effects[n].charge.attempt !in Attempts(effects[..n])
  {
    if effects[n].charge.attempt in Attempts(effects[..n]) {
      assert effects[FirstIndex(effects, n)].charge.attempt == effects[n].charge.attempt;
    } else {
      forall k | 0 <= k < n ensures effects[k].charge.attempt != effects[n].charge.attempt {
        AttemptCharged(effects[..n], k);
      }
    }
  }

  /** The places where attempts first occur, in order. */
  ghost function Places(effects: seq<Effect>): seq<nat> {
    if effects == [] then []
    else
      var n := |effects| - 1;
      var earlier := Places(effects[..n]);
      if effects[n].charge.attempt in Attempts(effects[..n]) then earlier else earlier + [n]
  }

  lemma {:induction false} PlacesAlign(effects: seq<Effect>)
    ensures |Places(effects)| == |Attempts(effects)|
    ensures forall k :: 0 <= k < |Places(effects)| ==>
              && Places(effects)[k] < |effects|
              && effects[Places(effects)[k]].charge.attempt == Attempts(effects)[k]
  {
    if effects != [] {
      PlacesAlign(effects[..|effects| - 1]);
    }
  }

  lemma {:induction false} PlacesIncrease(effects: seq<Effect>)
    ensures forall j, k :: 0 <= j < k < |Places(effects)| ==> Places(effects)[j] < Places(effects)[k]
  {
    if effects != [] {
      var n := |effects| - 1;
      PlacesIncrease(effects[..n]);
      PlacesAlign(effects[..n]);
    }
  }

  lemma PlacesStep(effects: seq<Effect>, i: nat)
    requires effects != []
    ensures var n := |effects| - 1;
            && (i < n ==> (i in Places(effects) <==> i in Places(effects[..n])))
            && (i == n ==> (i in Places(effects) <==> effects[n].charge.attempt !in Attempts(effects[..n])))
            && (i > n ==> i !in Places(effects))
  {
    PlacesAlign(effects);
    PlacesAlign(effects[..|effects| - 1]);
  }

  lemma {:induction false} PlacesFirst(effects: seq<Effect>, i: nat)
    ensures i in Places(effects) <==> FirstOfAttempt(effects, i)
  {
    if effects != [] {
      var n := |effects| - 1;
      PlacesStep(effects, i);
      if i < n {
        PlacesFirst(effects[..n], i);
        FirstInPrefix(effects, n, i);
      } else if i == n {
        LastIsFirst(effects, n);
      }
    }
  }

  lemma RowAtPlace(effects: seq<Effect>, k: nat, i: nat)
    requires k < |Rows(effects)| && FirstOfAttempt(effects, i)
    requires effects[i].charge.attempt == Attempts(effects)[k]
    ensures RowOf(Rows(effects)[k], effects, i)
  {
    var attempt, row := Attempts(effects)[k], Rows(effects)[k];
    FirstIsAlias(effects, i);
    forall x ensures x in Beneficiaries(effects, attempt) <==>
                     exists e :: e in effects && e.charge.attempt == attempt && x in e.charge.beneficiaries
    {
      if e :| e in effects && e.charge.attempt == attempt && x in e.charge.beneficiaries {
        var j :| 0 <= j < |effects| && effects[j] == e;
      }
    }
  }

  /** One row for each attempt, in the order of first occurrence, with everyone any alias names. */
  lemma RowsExactly(effects: seq<Effect>) returns (places: seq<nat>)
    ensures |Rows(effects)| == |places|
    ensures forall j, k :: 0 <= j < k < |places| ==> places[j] < places[k]
    ensures forall i: nat :: i in places <==> FirstOfAttempt(effects, i)
    ensures forall k :: 0 <= k < |places| ==> RowOf(Rows(effects)[k], effects, places[k])
  {
    places := Places(effects);
    PlacesAlign(effects);
    PlacesIncrease(effects);
    forall i: nat ensures i in places <==> FirstOfAttempt(effects, i) {
      PlacesFirst(effects, i);
    }
    forall k | 0 <= k < |places| ensures RowOf(Rows(effects)[k], effects, places[k]) {
      RowAtPlace(effects, k, places[k]);
    }
  }

  // ---------------------------------------------------------------- sums over the rows

  ghost function Kept(charges: seq<Charge>, p: Charge -> bool): set<string> {
    set k | 0 <= k < |charges| && p(charges[k]) :: charges[k].attempt
  }

  ghost predicate DistinctCharges(charges: seq<Charge>) {
    forall i, j :: 0 <= i < j < |charges| ==> charges[i].attempt != charges[j].attempt
  }

  lemma KeptStep(charges: seq<Charge>, p: Charge -> bool)
    requires charges != [] && DistinctCharges(charges)
    ensures var c := charges[0];
            && Kept(charges, p) == Kept(charges[1..], p) + (if p(c) then {c.attempt} else {})
            && c.attempt !in Kept(charges[1..], p)
  {
    var rest := Kept(charges[1..], p);
    forall k | 0 <= k < |charges| && p(charges[k]) && k > 0 ensures charges[k].attempt in rest {
      assert charges[1..][k - 1] == charges[k];
    }
    forall a | a in rest ensures a in Kept(charges, p) && a != charges[0].attempt {
      var k :| 0 <= k < |charges[1..]| && p(charges[1..][k]) && charges[1..][k].attempt == a;
      assert charges[k + 1] == charges[1..][k];
    }
  }

  lemma {:induction false} AmountsCounted(charges: seq<Charge>, p: Charge -> bool)
    requires DistinctCharges(charges)
    ensures |Amounts(charges, p)| == |Kept(charges, p)|
  {
    if charges != [] {
      KeptStep(charges, p);
      AmountsCounted(charges[1..], p);
    }
  }

  lemma {:induction false} AmountsMissing(charges: seq<Charge>, p: Charge -> bool)
    ensures None in Amounts(charges, p) <==> exists c :: c in charges && p(c) && c.amount.None?
  {
    if charges != [] {
      AmountsMissing(charges[1..], p);
      assert forall c :: c in charges <==> c == charges[0] || c in charges[1..];
    }
  }

  lemma {:induction false} AmountsSummed(charges: seq<Charge>, p: Charge -> bool, price: string -> int)
    requires DistinctCharges(charges)
    requires forall c :: c in charges && p(c) ==> c.amount == Some(price(c.attempt))
    ensures SumBy(Amounts(charges, p), Worth) == SumOver(Kept(charges, p), price)
  {
    if charges == [] {
      assert Kept(charges, p) == {};
    } else {
      KeptStep(charges, p);
      AmountsSummed(charges[1..], p, price);
      var c := charges[0];
      assert c in charges;
      if p(c) {
        SumOverInsert(Kept(charges[1..], p), c.attempt, price);
        assert Amounts(charges, p) == [c.amount] + Amounts(charges[1..], p);
        assert ([c.amount] + Amounts(charges[1..], p))[1..] == Amounts(charges[1..], p);
      } else {
        assert Kept(charges, p) == Kept(charges[1..], p);
        assert Amounts(charges, p) == Amounts(charges[1..], p);
      }
    }
  }

  /** The filtered total of distinct charges: unknown when nothing is kept or some kept amount is. */
  lemma TotalOf(charges: seq<Charge>, p: Charge -> bool, price: string -> int)
    requires DistinctCharges(charges)
    requires forall c :: c in charges && c.amount.Some? ==> c.amount.value == price(c.attempt)
    ensures var unknown := exists c :: c in charges && p(c) && c.amount.None?;
            SumKnown(Amounts(charges, p)) ==
            if Kept(charges, p) == {} || unknown then None else Some(SumOver(Kept(charges, p), price))
  {
    AmountsCounted(charges, p);
    AmountsMissing(charges, p);
    if !exists c :: c in charges && p(c) && c.amount.None? {
      AmountsSummed(charges, p, price);
    }
  }

  // ---------------------------------------------------------------- on the raw effects

  /** The attempts charged, those of one kind, and those for which some effect names a beneficiary. */
  ghost function AllAttempts(effects: seq<Effect>): set<string> {
    set e | e in effects :: e.charge.attempt
  }

  ghost function AttemptsOfKind(effects: seq<Effect>, kind: Kind): set<string> {
    set e | e in effects && e.charge.kind == kind :: e.charge.attempt
  }

  ghost function NamingAttempts(effects: seq<Effect>): set<string> {
    set e | e in effects && e.charge.beneficiaries != [] :: e.charge.attempt
  }

  /** The attempts whose amount, or whose kind, is unknown. */
  ghost function UnknownAttempts(effects: seq<Effect>): set<string> {
    set e | e in effects && (e.charge.amount == None || e.charge.kind == Unknown) :: e.charge.attempt
  }

  ghost predicate Prices(effects: seq<Effect>, price: string -> int) {
    forall e :: e in effects && e.charge.amount != None ==> e.charge.amount == Some(price(e.charge.attempt))
  }

  /** Each attempt of the set counts once; no attempt, or one without an amount, leaves the total unknown. */
  ghost predicate TotalIs(total: Option<int>, effects: seq<Effect>, attempts: set<string>, price: string -> int) {
    total == if attempts == {} || exists e :: e in effects && e.charge.attempt in attempts && e.charge.amount == None
             then None else Some(SumOver(attempts, price))
  }

  /** A test on charges that all effects of an attempt, and its row, answer alike. */
  ghost predicate Selects(effects: seq<Effect>, p: Charge -> bool, attempts: set<string>) {
    forall k :: 0 <= k < |Rows(effects)| ==> (p(Rows(effects)[k].charge) <==> Attempts(effects)[k] in attempts)
  }

  lemma RowsDistinct(effects: seq<Effect>)
    ensures DistinctCharges(Charges(Rows(effects)))
    ensures forall k :: 0 <= k < |Rows(effects)| ==> Charges(Rows(effects))[k].attempt == Attempts(effects)[k]
  {
    AttemptsMean(effects);
    forall k | 0 <= k < |Rows(effects)| ensures Charges(Rows(effects))[k].attempt == Attempts(effects)[k] {
      RowAlias(effects, k);
    }
  }

  lemma KeptAttempts(effects: seq<Effect>, p: Charge -> bool, attempts: set<string>)
    requires Selects(effects, p, attempts) && attempts <= AllAttempts(effects)
    ensures Kept(Charges(Rows(effects)), p) == attempts
  {
    RowsDistinct(effects);
    AttemptsMean(effects);
    forall a | a in attempts ensures a in Kept(Charges(Rows(effects)), p) {
      var e :| e in effects && e.charge.attempt == a;
      var i :| 0 <= i < |effects| && effects[i] == e;
      var k :| 0 <= k < |Rows(effects)| && Attempts(effects)[k] == a;
      assert p(Charges(Rows(effects))[k]);
    }
  }

  /** The row of an attempt has the amount and the kind of every effect of it. */
  lemma RowAgrees(effects: seq<Effect>, k: nat, e: Effect)
    requires Consistent(effects) && k < |Rows(effects)| && e in effects && e.charge.attempt == Attempts(effects)[k]
    ensures Rows(effects)[k].charge.amount == e.charge.amount && Rows(effects)[k].charge.kind == e.charge.kind
  {
    RowAlias(effects, k);
    var alias := FirstAlias(effects, Attempts(effects)[k]).value;
    var i :| 0 <= i < |effects| && effects[i] == alias;
    var j :| 0 <= j < |effects| && effects[j] == e;
    assert Agree(effects[i].charge, effects[j].charge);
  }

  /** Some effect stands behind each row. */
  lemma BehindRow(effects: seq<Effect>, k: nat) returns (e: Effect)
    requires k < |Rows(effects)|
    ensures e in effects && e.charge.attempt == Attempts(effects)[k]
    ensures Rows(effects)[k].charge.amount == e.charge.amount && Rows(effects)[k].charge.kind == e.charge.kind
  {
    RowAlias(effects, k);
    e := FirstAlias(effects, Attempts(effects)[k]).value;
    assert Agree(Rows(effects)[k].charge, e.charge);
  }

  lemma RowPrices(effects: seq<Effect>, price: string -> int)
    requires Prices(effects, price)
    ensures forall c :: c in Charges(Rows(effects)) && c.amount.Some? ==> c.amount.value == price(c.attempt)
  {
    var charges := Charges(Rows(effects));
    RowsDistinct(effects);
    forall c | c in charges && c.amount.Some? ensures c.amount.value == price(c.attempt) {
      var k :| 0 <= k < |charges| && charges[k] == c;
      var e := BehindRow(effects, k);
    }
  }

  /** A kept row has no amount exactly when some effect of a kept attempt has none. */
  lemma RowUnknown(effects: seq<Effect>, p: Charge -> bool, attempts: set<string>)
    requires Consistent(effects) && Selects(effects, p, attempts)
    ensures (exists c :: c in Charges(Rows(effects)) && p(c) && c.amount.None?) <==>
            exists e :: e in effects && e.charge.attempt in attempts && e.charge.amount == None
  {
    var charges := Charges(Rows(effects));
    if c :| c in charges && p(c) && c.amount.None? {
      var k :| 0 <= k < |charges| && charges[k] == c;
      var e := BehindRow(effects, k);
      assert e in effects && e.charge.attempt in attempts && e.charge.amount == None;
    }
    if e :| e in effects && e.charge.attempt in attempts && e.charge.amount == None {
      AttemptsMean(effects);
      var i :| 0 <= i < |effects| && effects[i] == e;
      var k :| 0 <= k < |Rows(effects)| && Attempts(effects)[k] == e.charge.attempt;
      RowAgrees(effects, k, e);
      assert charges[k] in charges && p(charges[k]) && charges[k].amount.None?;
    }
  }

  lemma RowTotal(effects: seq<Effect>, p: Charge -> bool, attempts: set<string>, price: string -> int)
    requires Consistent(effects) && Prices(effects, price)
    requires Selects(effects, p, attempts) && attempts <= AllAttempts(effects)
    ensures TotalIs(SumKnown(Amounts(Charges(Rows(effects)), p)), effects, attempts, price)
  {
    RowsDistinct(effects);
    KeptAttempts(effects, p, attempts);
    RowPrices(effects, price);
    RowUnknown(effects, p, attempts);
    TotalOf(Charges(Rows(effects)), p, price);
  }

  lemma SelectsKind(effects: seq<Effect>, kind: Kind)
    requires Consistent(effects)
    ensures Selects(effects, OfKind(kind), AttemptsOfKind(effects, kind))
  {
    forall k | 0 <= k < |Rows(effects)|
      ensures Rows(effects)[k].charge.kind == kind <==> Attempts(effects)[k] in AttemptsOfKind(effects, kind)
    {
      var e := BehindRow(effects, k);
      if f :| f in effects && f.charge.kind == kind && f.charge.attempt == Attempts(effects)[k] {
        RowAgrees(effects, k, f);
      }
    }
  }

  lemma SelectsUnknown(effects: seq<Effect>)
    requires Consistent(effects)
    ensures Selects(effects, UNKNOWN, UnknownAttempts(effects))
  {
    forall k | 0 <= k < |Rows(effects)|
      ensures UNKNOWN(Rows(effects)[k].charge) <==> Attempts(effects)[k] in UnknownAttempts(effects)
    {
      var e := BehindRow(effects, k);
      if f :| f in effects && (f.charge.amount == None || f.charge.kind == Unknown)
              && f.charge.attempt == Attempts(effects)[k]
      {
        RowAgrees(effects, k, f);
      }
    }
  }

  lemma NamedBehind(effects: seq<Effect>, k: nat)
    requires k < |Rows(effects)|
    ensures Rows(effects)[k].charge.beneficiaries != [] <==> Attempts(effects)[k] in NamingAttempts(effects)
  {
    var attempt, row := Attempts(effects)[k], Rows(effects)[k];
    AttemptsMean(effects);
    assert forall x :: x in row.charge.beneficiaries <==> x in Beneficiaries(effects, attempt);
    if row.charge.beneficiaries != [] {
      assert row.charge.beneficiaries[0] in Beneficiaries(effects, attempt);
    }
    if attempt in NamingAttempts(effects) {
      var e :| e in effects && e.charge.beneficiaries != [] && e.charge.attempt == attempt;
      var i :| 0 <= i < |effects| && effects[i] == e;
      var x := effects[i].charge.beneficiaries[0];
      assert x in effects[i].charge.beneficiaries;
      assert x in Beneficiaries(effects, attempt);
    }
  }

  lemma SelectsNaming(effects: seq<Effect>)
    ensures Selects(effects, ATTRIBUTED, NamingAttempts(effects))
    ensures Selects(effects, UNALLOCATED, AllAttempts(effects) - NamingAttempts(effects))
  {
    forall k | 0 <= k < |Rows(effects)|
      ensures Rows(effects)[k].charge.beneficiaries != [] <==> Attempts(effects)[k] in NamingAttempts(effects)
      ensures Attempts(effects)[k] in AllAttempts(effects)
    {
      NamedBehind(effects, k);
      var e := BehindRow(effects, k);
    }
  }

  lemma SelectsAll(effects: seq<Effect>)
    ensures Selects(effects, ANY, AllAttempts(effects))
  {
    forall k | 0 <= k < |Rows(effects)| ensures Attempts(effects)[k] in AllAttempts(effects) {
      var e := BehindRow(effects, k);
    }
  }

  /** Each kind's total counts every attempt of that kind once, over all its aliases. */
  lemma KindTotalsExactly(effects: seq<Effect>, price: string -> int)
    requires Consistent(effects) && Prices(effects, price)
    ensures var s := Summary(Rows(effects));
            && TotalIs(s.billed, effects, AttemptsOfKind(effects, Billed), price)
            && TotalIs(s.reported, effects, AttemptsOfKind(effects, Reported), price)
            && TotalIs(s.estimated, effects, AttemptsOfKind(effects, Estimated), price)
            && TotalIs(s.reserved, effects, AttemptsOfKind(effects, Reserved), price)
  {
    forall kind: Kind
      ensures TotalIs(SumKnown(Amounts(Charges(Rows(effects)), OfKind(kind))), effects,
                      AttemptsOfKind(effects, kind), price)
    {
      SelectsKind(effects, kind);
      RowTotal(effects, OfKind(kind), AttemptsOfKind(effects, kind), price);
    }
  }

  /** The attributed total is over the attempts that some effect names a beneficiary for, the rest is unallocated. */
  lemma AttributionExactly(effects: seq<Effect>, price: string -> int)
    requires Consistent(effects) && Prices(effects, price)
    ensures var s := Summary(Rows(effects));
            && TotalIs(s.attributed, effects, NamingAttempts(effects), price)
            && TotalIs(s.unallocated, effects, AllAttempts(effects) - NamingAttempts(effects), price)
  {
    SelectsNaming(effects);
    RowTotal(effects, ATTRIBUTED, NamingAttempts(effects), price);
    RowTotal(effects, UNALLOCATED, AllAttempts(effects) - NamingAttempts(effects), price);
  }

  /** The input is refused exactly when two effects of one attempt differ in amount, kind or logical effect. */
  lemma RefusedExactly(effects: seq<Effect>)
    ensures !Consistent(effects) <==>
            exists e, f ::
              && e in effects && f in effects && e.charge.attempt == f.charge.attempt
              && (e.charge.amount != f.charge.amount || e.charge.kind != f.charge.kind
                  || e.charge.logical != f.charge.logical)
  {
    if e, f :|
      && e in effects && f in effects && e.charge.attempt == f.charge.attempt
      && (e.charge.amount != f.charge.amount || e.charge.kind != f.charge.kind
          || e.charge.logical != f.charge.logical)
    {
      var i :| 0 <= i < |effects| && effects[i] == e;
      var j :| 0 <= j < |effects| && effects[j] == f;
      assert !Agree(effects[i].charge, effects[j].charge);
    }
    if !Consistent(effects) {
      var i, j :| 0 <= i < |effects| && 0 <= j < |effects|
                  && effects[i].charge.attempt == effects[j].charge.attempt
                  && !Agree(effects[i].charge, effects[j].charge);
      assert effects[i] in effects && effects[j] in effects;
    }
  }

  /** The flag holds exactly when there is an effect and no attempt is unknown. */
  lemma FlagExactly(effects: seq<Effect>)
    requires Consistent(effects)
    ensures Summary(Rows(effects)).reconciled <==> effects != [] && UnknownAttempts(effects) == {}
  {
    ReconciledExactly(effects);
    if UnknownAttempts(effects) == {} {
      forall i | 0 <= i < |effects| ensures Known(effects[i].charge) {
        assert effects[i] in effects;
        assert effects[i].charge.attempt !in UnknownAttempts(effects);
      }
    }
  }

  /** The two counts are of physical attempts. */
  lemma CountsExactly(effects: seq<Effect>)
    requires Consistent(effects)
    ensures Summary(Rows(effects)).physicalEffects == |AllAttempts(effects)|
    ensures Summary(Rows(effects)).unknownEffects == |UnknownAttempts(effects)|
  {
    var charges := Charges(Rows(effects));
    RowsDistinct(effects);
    SelectsAll(effects);
    SelectsUnknown(effects);
    KeptAttempts(effects, ANY, AllAttempts(effects));
    KeptAttempts(effects, UNKNOWN, UnknownAttempts(effects));
    AmountsCounted(charges, ANY);
    AmountsCounted(charges, UNKNOWN);
    SplitTotal(charges);
  }

  /** Prices exist for every input that is not refused. */
  lemma PricesExist(effects: seq<Effect>) returns (price: string -> int)
    requires Consistent(effects)
    ensures Prices(effects, price)
  {
    var amounts: map<string, int> := map[];
    for n := 0 to |effects|
      invariant forall k :: 0 <= k < n && effects[k].charge.amount.Some? ==>
                  && effects[k].charge.attempt in amounts
                  && amounts[effects[k].charge.attempt] == effects[k].charge.amount.value
      invariant forall a :: a in amounts ==>
                  exists k :: && 0 <= k < n && effects[k].charge.attempt == a
                              && effects[k].charge.amount == Some(amounts[a])
    {
      var c := effects[n].charge;
      if c.amount.Some? {
        if c.attempt in amounts {
          var k :| 0 <= k < n && effects[k].charge.attempt == c.attempt
                   && effects[k].charge.amount == Some(amounts[c.attempt]);
          assert Agree(effects[k].charge, c);
        }
        amounts := amounts[c.attempt := c.amount.value];
      }
    }
    price := a => if a in amounts then amounts[a] else 0;
  }
}
