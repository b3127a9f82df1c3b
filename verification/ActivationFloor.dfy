/**
 The confusion matrix, the strata and the activation floor of `runBenchmark`, for arbitrary
 (deterministic) evaluators. Rates are exact reals; the square root is the parameter of
 `WilsonInterval`.
 */
module ActivationFloor {
  import opened Sums
  import opened WilsonInterval

  /** A gold record with the page it freezes; an evaluator may look at all of it. */
  datatype Record = Record(id: string, stratum: string, expected: bool, rawUpc: string, url: string, html: string)

  type Evaluator = Record -> bool

  datatype Matrix = Matrix(tp: nat, fp: nat, tn: nat, fn: nat)

  datatype Stratum = Stratum(count: nat, positives: nat, negatives: nat, strict: Matrix, relaxedFp: nat)

  datatype Report = Report(
    relaxed: Matrix, strict: Matrix, strata: map<string, Stratum>,
    falsePositivesEliminated: int, deltaNeedsInput: int, passed: bool)

  // ---------------------------------------------------------------- counting

  /** How many records satisfy a test. */
  function CountOf(records: seq<Record>, test: Record -> bool): nat {
    if records == [] then 0
    else CountOf(records[..|records| - 1], test) + (if test(records[|records| - 1]) then 1 else 0)
  }

  lemma CountStep(records: seq<Record>, n: nat, test: Record -> bool)
    requires n < |records|
    ensures CountOf(records[..n + 1], test) == CountOf(records[..n], test) + (if test(records[n]) then 1 else 0)
  {
    assert records[..n + 1][..n] == records[..n];
  }

  function TruePositive(e: Evaluator): Record -> bool { (r: Record) => r.expected && e(r) }
  function FalsePositive(e: Evaluator): Record -> bool { (r: Record) => !r.expected && e(r) }
  function TrueNegative(e: Evaluator): Record -> bool { (r: Record) => !r.expected && !e(r) }
  function FalseNegative(e: Evaluator): Record -> bool { (r: Record) => r.expected && !e(r) }
  function Rejected(e: Evaluator): Record -> bool { (r: Record) => !e(r) }

  function In(stratum: string, test: Record -> bool): Record -> bool {
    (r: Record) => r.stratum == stratum && test(r)
  }

  const ALL := (r: Record) => true
  const POSITIVE := (r: Record) => r.expected
  const NEGATIVE := (r: Record) => !r.expected

  /** One record's contribution to a matrix. */
  function Bump(m: Matrix, expected: bool, actual: bool): Matrix {
    if expected && actual then m.(tp := m.tp + 1)
    else if !expected && actual then m.(fp := m.fp + 1)
    else if !expected && !actual then m.(tn := m.tn + 1)
    else m.(fn := m.fn + 1)
  }

  /** The number of records in each cell. */
  function MatrixOf(records: seq<Record>, e: Evaluator): Matrix {
    Matrix(CountOf(records, TruePositive(e)), CountOf(records, FalsePositive(e)),
           CountOf(records, TrueNegative(e)), CountOf(records, FalseNegative(e)))
  }

  lemma {:induction false} CountIsNumber(records: seq<Record>, test: Record -> bool)
    ensures CountOf(records, test) == |set i: nat | i < |records| && test(records[i])|
  {
    var these := set i: nat | i < |records| && test(records[i]);
    if records == [] {
      assert these == {};
    } else {
      var n := |records| - 1;
      var earlier := set i: nat | i < n && test(records[..n][i]);
      CountIsNumber(records[..n], test);
      assert earlier == set i: nat | i < |records[..n]| && test(records[..n][i]);
      if test(records[n]) {
        assert these == earlier + {n};
      } else {
        assert these == earlier;
      }
    }
  }

  lemma CountsSet(records: seq<Record>, test: Record -> bool, these: set<nat>)
    requires forall i: nat :: i in these <==> i < |records| && test(records[i])
    ensures CountOf(records, test) == |these|
  {
    CountIsNumber(records, test);
    assert these == set i: nat | i < |records| && test(records[i]);
  }

  /** The four cells are the numbers of records selected and expected, selected only, neither, and missed. */
  lemma MatrixExactly(records: seq<Record>, e: Evaluator)
    ensures var m := MatrixOf(records, e);
            && m.tp == |set i: nat | i < |records| && records[i].expected && e(records[i])|
            && m.fp == |set i: nat | i < |records| && !records[i].expected && e(records[i])|
            && m.tn == |set i: nat | i < |records| && !records[i].expected && !e(records[i])|
            && m.fn == |set i: nat | i < |records| && records[i].expected && !e(records[i])|
  {
    CountsSet(records, TruePositive(e), set i: nat | i < |records| && records[i].expected && e(records[i]));
    CountsSet(records, FalsePositive(e), set i: nat | i < |records| && !records[i].expected && e(records[i]));
    CountsSet(records, TrueNegative(e), set i: nat | i < |records| && !records[i].expected && !e(records[i]));
    CountsSet(records, FalseNegative(e), set i: nat | i < |records| && records[i].expected && !e(records[i]));
  }

  method ComputeConfusionMatrix(records: seq<Record>, e: Evaluator) returns (m: Matrix)
    ensures m == MatrixOf(records, e)
    ensures m.tp + m.fp + m.tn + m.fn == |records|
  {
    m := Matrix(0, 0, 0, 0);
    for n := 0 to |records|
      invariant m.tp == CountOf(records[..n], TruePositive(e)) && m.fp == CountOf(records[..n], FalsePositive(e))
      invariant m.tn == CountOf(records[..n], TrueNegative(e)) && m.fn == CountOf(records[..n], FalseNegative(e))
      invariant m.tp + m.fp + m.tn + m.fn == n
    {
      CountStep(records, n, TruePositive(e));
      CountStep(records, n, FalsePositive(e));
      CountStep(records, n, TrueNegative(e));
      CountStep(records, n, FalseNegative(e));
      m := Bump(m, records[n].expected, e(records[n]));
    }
    assert records[..|records|] == records;
  }

  /** A record needs input exactly when the evaluator rejects it, rightly or wrongly. */
  lemma {:induction false} NeedsInputIsRejected(records: seq<Record>, e: Evaluator)
    ensures CountOf(records, Rejected(e)) ==
            CountOf(records, TrueNegative(e)) + CountOf(records, FalseNegative(e))
  {
    if records != [] {
      NeedsInputIsRejected(records[..|records| - 1], e);
    }
  }

  // ---------------------------------------------------------------- strata

  const EMPTY := Stratum(0, 0, 0, Matrix(0, 0, 0, 0), 0)

  ghost predicate StratumOf(s: Stratum, records: seq<Record>, name: string, relaxed: Evaluator, strict: Evaluator) {
    && s.count == CountOf(records, In(name, ALL))
    && s.positives == CountOf(records, In(name, POSITIVE))
    && s.negatives == CountOf(records, In(name, NEGATIVE))
    && s.strict.tp == CountOf(records, In(name, TruePositive(strict)))
    && s.strict.fp == CountOf(records, In(name, FalsePositive(strict)))
    && s.strict.tn == CountOf(records, In(name, TrueNegative(strict)))
    && s.strict.fn == CountOf(records, In(name, FalseNegative(strict)))
    && s.relaxedFp == CountOf(records, In(name, FalsePositive(relaxed)))
  }

  ghost function Names(records: seq<Record>): set<string> {
    set i | 0 <= i < |records| :: records[i].stratum
  }

  /** The places of one stratum whose records are, and are not, expected to match. */
  ghost function Places(records: seq<Record>, name: string, expected: bool): set<nat> {
    set i: nat | i < |records| && records[i].stratum == name && records[i].expected == expected
  }

  /** The places among these that an evaluator selects. */
  ghost function Selected(records: seq<Record>, places: set<nat>, e: Evaluator): set<nat> {
    set i | i in places && i < |records| && e(records[i])
  }

  lemma SizesExactly(s: Stratum, records: seq<Record>, name: string, relaxed: Evaluator, strict: Evaluator)
    requires StratumOf(s, records, name, relaxed, strict)
    ensures var yes, no := Places(records, name, true), Places(records, name, false);
            s.count == |yes + no| && s.positives == |yes| && s.negatives == |no|
  {
    var yes, no := Places(records, name, true), Places(records, name, false);
    CountsSet(records, In(name, ALL), yes + no);
    CountsSet(records, In(name, POSITIVE), yes);
    CountsSet(records, In(name, NEGATIVE), no);
  }

  lemma SelectedExactly(records: seq<Record>, name: string, e: Evaluator)
    ensures CountOf(records, In(name, TruePositive(e))) == |Selected(records, Places(records, name, true), e)|
    ensures CountOf(records, In(name, FalsePositive(e))) == |Selected(records, Places(records, name, false), e)|
  {
    CountsSet(records, In(name, TruePositive(e)), Selected(records, Places(records, name, true), e));
    CountsSet(records, In(name, FalsePositive(e)), Selected(records, Places(records, name, false), e));
  }

  lemma PassedOverExactly(records: seq<Record>, name: string, e: Evaluator)
    ensures var yes, no := Places(records, name, true), Places(records, name, false);
            && CountOf(records, In(name, FalseNegative(e))) == |yes - Selected(records, yes, e)|
            && CountOf(records, In(name, TrueNegative(e))) == |no - Selected(records, no, e)|
  {
    var yes, no := Places(records, name, true), Places(records, name, false);
    CountsSet(records, In(name, FalseNegative(e)), yes - Selected(records, yes, e));
    CountsSet(records, In(name, TrueNegative(e)), no - Selected(records, no, e));
  }

  /** What the counters of a stratum count. */
  lemma StratumExactly(s: Stratum, records: seq<Record>, name: string, relaxed: Evaluator, strict: Evaluator)
    requires StratumOf(s, records, name, relaxed, strict)
    ensures var yes, no := Places(records, name, true), Places(records, name, false);
            && s.count == |yes + no| && s.positives == |yes| && s.negatives == |no|
            && s.strict.tp == |Selected(records, yes, strict)| && s.strict.fn == |yes - Selected(records, yes, strict)|
            && s.strict.fp == |Selected(records, no, strict)| && s.strict.tn == |no - Selected(records, no, strict)|
            && s.relaxedFp == |Selected(records, no, relaxed)|
  {
    SizesExactly(s, records, name, relaxed, strict);
    SelectedExactly(records, name, strict);
    PassedOverExactly(records, name, strict);
    SelectedExactly(records, name, relaxed);
  }

  /** Every stratum that occurs has exactly the counters of its own records. */
  ghost predicate StrataOf(strata: map<string, Stratum>, records: seq<Record>, relaxed: Evaluator, strict: Evaluator) {
    strata.Keys == Names(records) &&
    forall name :: name in strata ==> StratumOf(strata[name], records, name, relaxed, strict)
  }

  function Add(s: Stratum, r: Record, relaxed: Evaluator, strict: Evaluator): Stratum {
    Stratum(
      s.count + 1,
      s.positives + (if r.expected then 1 else 0),
      s.negatives + (if r.expected then 0 else 1),
      Bump(s.strict, r.expected, strict(r)),
      s.relaxedFp + (if !r.expected && relaxed(r) then 1 else 0))
  }

  lemma StratumStep(s: Stratum, records: seq<Record>, n: nat, name: string, relaxed: Evaluator, strict: Evaluator)
    requires n < |records| && StratumOf(s, records[..n], name, relaxed, strict)
    ensures StratumOf(if records[n].stratum == name then Add(s, records[n], relaxed, strict) else s,
                      records[..n + 1], name, relaxed, strict)
  {
    CountStep(records, n, In(name, ALL));
    CountStep(records, n, In(name, POSITIVE));
    CountStep(records, n, In(name, NEGATIVE));
    CountStep(records, n, In(name, TruePositive(strict)));
    CountStep(records, n, In(name, FalsePositive(strict)));
    CountStep(records, n, In(name, TrueNegative(strict)));
    CountStep(records, n, In(name, FalseNegative(strict)));
    CountStep(records, n, In(name, FalsePositive(relaxed)));
  }

  lemma {:induction false} NoneIn(records: seq<Record>, name: string, test: Record -> bool)
    requires name !in Names(records)
    ensures CountOf(records, In(name, test)) == 0
  {
    if records != [] {
      var n := |records| - 1;
      assert records[n].stratum in Names(records);
      assert forall i :: 0 <= i < n ==> records[..n][i] == records[i];
      NoneIn(records[..n], name, test);
    }
  }

  lemma EmptyStratum(records: seq<Record>, name: string, relaxed: Evaluator, strict: Evaluator)
    requires name !in Names(records)
    ensures StratumOf(EMPTY, records, name, relaxed, strict)
  {
    NoneIn(records, name, ALL);
    NoneIn(records, name, POSITIVE);
    NoneIn(records, name, NEGATIVE);
    NoneIn(records, name, TruePositive(strict));
    NoneIn(records, name, FalsePositive(strict));
    NoneIn(records, name, TrueNegative(strict));
    NoneIn(records, name, FalseNegative(strict));
    NoneIn(records, name, FalsePositive(relaxed));
  }

  method CollectStrata(records: seq<Record>, relaxed: Evaluator, strict: Evaluator)
    returns (strata: map<string, Stratum>)
    ensures StrataOf(strata, records, relaxed, strict)
  {
    strata := map[];
    for n := 0 to |records|
      invariant StrataOf(strata, records[..n], relaxed, strict)
    {
      var r := records[n];
      ghost var before := strata;
      if r.stratum !in strata {
        EmptyStratum(records[..n], r.stratum, relaxed, strict);
        strata := strata[r.stratum := EMPTY];
      }
      forall name | name in strata
        ensures StratumOf(if r.stratum == name then Add(strata[name], r, relaxed, strict) else strata[name],
                          records[..n + 1], name, relaxed, strict)
      {
        StratumStep(strata[name], records, n, name, relaxed, strict);
      }
      NamesStep(records, n);
      strata := strata[r.stratum := Add(strata[r.stratum], r, relaxed, strict)];
    }
    assert records[..|records|] == records;
  }

  lemma NamesStep(records: seq<Record>, n: nat)
    requires n < |records|
    ensures Names(records[..n + 1]) == Names(records[..n]) + {records[n].stratum}
  {
    forall x ensures x in Names(records[..n + 1]) <==> x in Names(records[..n]) + {records[n].stratum} {
      if x in Names(records[..n]) {
        var i :| 0 <= i < n && records[..n][i].stratum == x;
        assert records[..n + 1][i].stratum == x;
      }
      assert records[..n + 1][n] == records[n];
      if x in Names(records[..n + 1]) {
        var i :| 0 <= i < n + 1 && records[..n + 1][i].stratum == x;
        if i < n { assert records[..n][i].stratum == x; }
      }
    }
  }

  ghost function PerStratum(records: seq<Record>, test: Record -> bool): string -> int {
    name => CountOf(records, In(name, test))
  }

  /** Splitting the records by stratum loses none and counts none twice, whatever is counted. */
  lemma {:induction false} StrataSum(records: seq<Record>, names: set<string>, test: Record -> bool)
    requires Names(records) <= names
    ensures SumOver(names, PerStratum(records, test)) == CountOf(records, test)
  {
    if records == [] {
      SumOverZero(names, PerStratum(records, test));
    } else {
      var n := |records| - 1;
      var earlier, last := records[..n], records[n];
      assert last.stratum in Names(records);
      forall x | x in Names(earlier) ensures x in names {
        var i :| 0 <= i < n && earlier[i].stratum == x;
        assert records[i].stratum in Names(records);
      }
      StrataSum(earlier, names, test);
      SumOverChange(names, last.stratum, PerStratum(earlier, test), PerStratum(records, test));
    }
  }

  /** The strict counters of the strata add up to the cells of the strict matrix. */
  lemma StrataSumToMatrix(strata: map<string, Stratum>, records: seq<Record>, relaxed: Evaluator, strict: Evaluator)
    requires StrataOf(strata, records, relaxed, strict)
    ensures SumOver(strata.Keys, n => if n in strata then strata[n].strict.tp else 0) ==
            CountOf(records, TruePositive(strict))
    ensures SumOver(strata.Keys, n => if n in strata then strata[n].strict.fp else 0) ==
            CountOf(records, FalsePositive(strict))
    ensures SumOver(strata.Keys, n => if n in strata then strata[n].strict.tn else 0) ==
            CountOf(records, TrueNegative(strict))
    ensures SumOver(strata.Keys, n => if n in strata then strata[n].strict.fn else 0) ==
            CountOf(records, FalseNegative(strict))
    ensures SumOver(strata.Keys, n => if n in strata then strata[n].relaxedFp else 0) ==
            CountOf(records, FalsePositive(relaxed))
  {
    var names := strata.Keys;
    StrataSum(records, names, TruePositive(strict));
    StrataSum(records, names, FalsePositive(strict));
    StrataSum(records, names, TrueNegative(strict));
    StrataSum(records, names, FalseNegative(strict));
    StrataSum(records, names, FalsePositive(relaxed));
    SumOverEqual(names, n => if n in strata then strata[n].strict.tp else 0, PerStratum(records, TruePositive(strict)));
    SumOverEqual(names, n => if n in strata then strata[n].strict.fp else 0,
                 PerStratum(records, FalsePositive(strict)));
    SumOverEqual(names, n => if n in strata then strata[n].strict.tn else 0, PerStratum(records, TrueNegative(strict)));
    SumOverEqual(names, n => if n in strata then strata[n].strict.fn else 0,
                 PerStratum(records, FalseNegative(strict)));
    SumOverEqual(names, n => if n in strata then strata[n].relaxedFp else 0,
                 PerStratum(records, FalsePositive(relaxed)));
  }

  // ---------------------------------------------------------------- the activation floor

  const QUANTILE := 1.959964

  function Rate(part: nat, whole: nat): real {
    if whole > 0 then part as real / whole as real else 1.0
  }

  /** The four conditions of the release gate; `root` is the square root the precision bound takes. */
  predicate Passes(m: Matrix, root: real) {
    && m.fp == 0
    && Rate(m.tp, m.tp + m.fp) == 1.0
    && Wilson(m.tp as real, (m.tp + m.fp) as real, QUANTILE, root).lower >= 0.95
    && Rate(m.tp, m.tp + m.fn) >= 0.99
  }

  predicate RootFor(m: Matrix, root: real) {
    m.tp + m.fp > 0 ==> IsRoot(root, Variance(m.tp as real, (m.tp + m.fp) as real, QUANTILE))
  }

  lemma HalfRoot(s: real, z: real)
    requires 0.0 <= s && 0.0 < z && s * s == z * z / 4.0
    ensures s == z / 2.0
  {
    var h := z / 2.0;
    assert h * h == z * z / 4.0;
    RootOrder(s, h);
    RootOrder(h, s);
  }

  lemma PerfectLower(n: real, s: real)
    requires n > 0.0 && IsRoot(s, Variance(n, n, QUANTILE))
    ensures Wilson(n, n, QUANTILE, s).lower >= 0.95 <==> n >= 19.0 * QUANTILE * QUANTILE
  {
    var z, d := QUANTILE, n + QUANTILE * QUANTILE;
    assert n * (n - n) / n == 0.0;
    HalfRoot(s, z);
    ClampsAreIdle(n, n, z, s);
    var lower := Center(n, n, z) - Margin(n, z, s);
    ToEndPoints(n, n, z, s);
    assert n / n == 1.0;
    assert lower * d == n;
    NineteenSquares(lower, n, z * z);
    assert 19.0 * (z * z) == 19.0 * QUANTILE * QUANTILE;
  }

  lemma NineteenSquares(lower: real, n: real, square: real)
    requires 0.0 < n && 0.0 < square && lower * (n + square) == n
    ensures lower >= 0.95 <==> n >= 19.0 * square
  {
    var d := n + square;
    if lower >= 0.95 {
      ProductOrder(0.95, lower, d);
    } else {
      ProductPositive(0.95 - lower, d);
      assert (0.95 - lower) * d == 0.95 * d - lower * d;
    }
  }

  lemma RateReal(part: real, whole: real)
    requires whole > 0.0
    ensures part / whole >= 0.99 <==> 100.0 * part >= 99.0 * whole
  {
    var r := part / whole;
    assert r * whole == part;
    if r >= 0.99 { ProductOrder(0.99, r, whole); } else { ProductPositive(0.99 - r, whole); }
  }

  lemma RateBound(part: nat, whole: nat)
    requires part <= whole
    ensures Rate(part, whole) >= 0.99 <==> 100 * part >= 99 * whole
  {
    if whole > 0 {
      RateReal(part as real, whole as real);
      assert (100 * part) as real == 100.0 * part as real;
      assert (99 * whole) as real == 99.0 * whole as real;
    }
  }

  /**
   The gate in integers. In exact arithmetic it passes if and only if nothing was wrongly selected
   and either there was nothing to find, or at least 73 pages were selected and at least 99 in 100
   of those to find were found.
   */
  lemma FloorExactly(m: Matrix, root: real)
    requires RootFor(m, root)
    ensures Passes(m, root) <==>
            m.fp == 0 && ((m.tp == 0 && m.fn == 0) || (m.tp >= 73 && 100 * m.tp >= 99 * (m.tp + m.fn)))
  {
    if m.fp == 0 {
      RateBound(m.tp, m.tp + m.fn);
      if m.tp > 0 {
        var n := m.tp as real;
        assert n / n == 1.0;
        PerfectLower(n, root);
        assert 72.0 < 19.0 * QUANTILE * QUANTILE < 73.0;
        assert n >= 19.0 * QUANTILE * QUANTILE <==> m.tp >= 73;
      }
    }
  }

  lemma {:induction false} DeltasAgree(records: seq<Record>, relaxed: Evaluator, strict: Evaluator)
    ensures CountOf(records, Rejected(relaxed)) ==
            CountOf(records, TrueNegative(relaxed)) + CountOf(records, FalseNegative(relaxed))
    ensures CountOf(records, Rejected(strict)) ==
            CountOf(records, TrueNegative(strict)) + CountOf(records, FalseNegative(strict))
    ensures CountOf(records, FalsePositive(relaxed)) + CountOf(records, TrueNegative(relaxed)) ==
            CountOf(records, FalsePositive(strict)) + CountOf(records, TrueNegative(strict))
  {
    NeedsInputIsRejected(records, relaxed);
    NeedsInputIsRejected(records, strict);
    NegativesSplit(records, relaxed);
    NegativesSplit(records, strict);
  }

  /** The deltas and the verdict, with what they mean in terms of the two matrices. */
  method RunBenchmark(records: seq<Record>, relaxed: Evaluator, strict: Evaluator, root: real) returns (report: Report)
    requires RootFor(MatrixOf(records, strict), root)
    ensures StrataOf(report.strata, records, relaxed, strict)
    ensures report.relaxed == MatrixOf(records, relaxed) && report.strict == MatrixOf(records, strict)
    ensures report.deltaNeedsInput == CountOf(records, Rejected(strict)) - CountOf(records, Rejected(relaxed))
    ensures report.deltaNeedsInput == (report.strict.tn + report.strict.fn) - (report.relaxed.tn + report.relaxed.fn)
    ensures report.deltaNeedsInput == (report.relaxed.tp + report.relaxed.fp) - (report.strict.tp + report.strict.fp)
    ensures report.falsePositivesEliminated == report.relaxed.fp - report.strict.fp
    ensures report.falsePositivesEliminated == report.strict.tn - report.relaxed.tn
    ensures report.passed <==>
            && report.strict.fp == 0
            && ((report.strict.tp == 0 && report.strict.fn == 0) ||
                (report.strict.tp >= 73 && 100 * report.strict.tp >= 99 * (report.strict.tp + report.strict.fn)))
  {
    var relaxedMatrix := ComputeConfusionMatrix(records, relaxed);
    var strictMatrix := ComputeConfusionMatrix(records, strict);
    var strata := CollectStrata(records, relaxed, strict);
    var relaxedNeedsInput: int := CountOf(records, Rejected(relaxed));
    var strictNeedsInput: int := CountOf(records, Rejected(strict));
    DeltasAgree(records, relaxed, strict);
    FloorExactly(strictMatrix, root);
    var eliminated: int := relaxedMatrix.fp - strictMatrix.fp;
    var delta: int := strictNeedsInput - relaxedNeedsInput;
    report := Report(relaxedMatrix, strictMatrix, strata, eliminated, delta, Passes(strictMatrix, root));
  }

  lemma {:induction false} NegativesSplit(records: seq<Record>, e: Evaluator)
    ensures CountOf(records, FalsePositive(e)) + CountOf(records, TrueNegative(e)) == CountOf(records, NEGATIVE)
  {
    if records != [] {
      NegativesSplit(records[..|records| - 1], e);
    }
  }
}
