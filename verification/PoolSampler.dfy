/**
 The expansion-pool sampler: candidates are screened and deduplicated by family, a thin-slot
 oversample comes first, and then every stratum is filled to its quota from a shuffled list.
 */
module PoolSampler {
  import opened Common
  import opened Shuffle

  const PER_STRATUM := 24
  const UNMAPPED_QUOTA := 60
  const THIN_QUOTA := 40
  const UNMAPPED := "unmapped"

  datatype Candidate = Candidate(sku: string, family: string, stratum: string, thin: bool)

  /** A store row: the candidate it would make, unless its custom fields do not parse. */
  datatype Row = Row(sku: string, candidate: Option<Candidate>)

  // ---------------------------------------------------------------- screening

  datatype Verdict = Unparsed | ExposedSku | ExposedIdentity | RepeatedFamily | Admitted

  ghost predicate HasFamily(cands: seq<Candidate>, family: string) {
    family in FamiliesOf(cands)
  }

  ghost function FamiliesOf(cands: seq<Candidate>): set<string> {
    set c | c in cands :: c.family
  }

  /** The identity that exposure is tested on is the family key: the same brand and name, normalized alike. */
  function Judge(row: Row, skus: set<string>, identities: set<string>, families: set<string>): Verdict {
    if row.candidate.None? then Unparsed
    else if row.sku != "" && row.sku in skus then ExposedSku
    else if row.candidate.value.family in identities then ExposedIdentity
    else if row.candidate.value.family in families then RepeatedFamily
    else Admitted
  }

  ghost predicate Screened(cands: seq<Candidate>, skus: set<string>, identities: set<string>) {
    && (forall c :: c in cands ==> c.family !in identities && (c.sku != "" ==> c.sku !in skus))
    && (forall i, j :: 0 <= i < j < |cands| ==> cands[i].family != cands[j].family)
  }

  /** The rows with a verdict that does not depend on the rows before them. */
  function CountVerdict(rows: seq<Row>, skus: set<string>, identities: set<string>, v: Verdict): nat {
    if rows == [] then 0
    else
      var n := |rows| - 1;
      CountVerdict(rows[..n], skus, identities, v) + (if Judge(rows[n], skus, identities, {}) == v then 1 else 0)
  }

  lemma VerdictStep(rows: seq<Row>, n: nat, skus: set<string>, identities: set<string>)
    requires n < |rows|
    ensures forall v :: CountVerdict(rows[..n + 1], skus, identities, v) ==
                        CountVerdict(rows[..n], skus, identities, v)
                          + (if Judge(rows[n], skus, identities, {}) == v then 1 else 0)
  {
    assert rows[..n + 1][..n] == rows[..n];
  }

  /** The row neither fails to parse nor is exposed. */
  predicate Admissible(row: Row, skus: set<string>, identities: set<string>) {
    Judge(row, skus, identities, {}) == Admitted
  }

  ghost function AdmissibleFamilies(rows: seq<Row>, skus: set<string>, identities: set<string>): set<string> {
    set r | r in rows && Admissible(r, skus, identities) :: r.candidate.value.family
  }

  /** The first admissible row of its family. */
  ghost predicate FirstOfFamily(rows: seq<Row>, i: nat, skus: set<string>, identities: set<string>)
    requires i < |rows|
  {
    && Admissible(rows[i], skus, identities)
    && rows[i].candidate.value.family !in AdmissibleFamilies(rows[..i], skus, identities)
  }

  /** The pool: the first admissible row of each family, in row order. */
  ghost function Screening(rows: seq<Row>, skus: set<string>, identities: set<string>): seq<Candidate> {
    if rows == [] then []
    else
      var n := |rows| - 1;
      Screening(rows[..n], skus, identities) +
      (if FirstOfFamily(rows, n, skus, identities) then [rows[n].candidate.value] else [])
  }

  /** The families seen are those of the admissible rows. */
  lemma {:induction false} FamiliesSeen(rows: seq<Row>, skus: set<string>, identities: set<string>)
    ensures FamiliesOf(Screening(rows, skus, identities)) == AdmissibleFamilies(rows, skus, identities)
  {
    if rows != [] {
      var n := |rows| - 1;
      FamiliesSeen(rows[..n], skus, identities);
      MoreFamilies(rows[..n], rows[n], skus, identities);
      assert rows == rows[..n] + [rows[n]];
      if FirstOfFamily(rows, n, skus, identities) {
        FamilyAdded(Screening(rows[..n], skus, identities), rows[n].candidate.value);
      }
    }
  }

  lemma MoreFamilies(rows: seq<Row>, row: Row, skus: set<string>, identities: set<string>)
    ensures AdmissibleFamilies(rows + [row], skus, identities) ==
            AdmissibleFamilies(rows, skus, identities) +
            (if Admissible(row, skus, identities) then {row.candidate.value.family} else {})
  {
  }

  lemma ScreenNext(rows: seq<Row>, n: nat, skus: set<string>, identities: set<string>)
    requires n < |rows|
    ensures var earlier := Screening(rows[..n], skus, identities);
            Screening(rows[..n + 1], skus, identities) ==
            earlier + (if Judge(rows[n], skus, identities, FamiliesOf(earlier)) == Admitted
                       then [rows[n].candidate.value] else [])
  {
    FamiliesSeen(rows[..n], skus, identities);
    assert rows[..n + 1][..n] == rows[..n];
  }

  /** One candidate per family, none exposed, each from an admissible row. */
  lemma {:induction false} ScreeningIsClean(rows: seq<Row>, skus: set<string>, identities: set<string>)
    requires forall r :: r in rows && r.candidate.Some? ==> r.candidate.value.sku == r.sku
    ensures Screened(Screening(rows, skus, identities), skus, identities)
    ensures forall c :: c in Screening(rows, skus, identities) ==>
              exists r :: r in rows && r.candidate == Some(c) && Admissible(r, skus, identities)
  {
    if rows != [] {
      var n := |rows| - 1;
      var earlier := Screening(rows[..n], skus, identities);
      assert rows == rows[..n] + [rows[n]];
      ScreeningIsClean(rows[..n], skus, identities);
      ScreenNext(rows, n, skus, identities);
      assert rows[..n + 1] == rows && rows[n] in rows;
    }
  }

  ghost predicate DistinctRows(rows: seq<Row>) {
    forall i, j :: 0 <= i < j < |rows| ==> rows[i].sku != rows[j].sku
  }

  /** Rows with distinct SKUs make a pool with distinct SKUs. */
  lemma {:induction false} ScreeningIsDistinct(rows: seq<Row>, skus: set<string>, identities: set<string>)
    requires forall r :: r in rows && r.candidate.Some? ==> r.candidate.value.sku == r.sku
    requires DistinctRows(rows)
    ensures DistinctSkus(Screening(rows, skus, identities))
  {
    if rows != [] {
      var n := |rows| - 1;
      var earlier := Screening(rows[..n], skus, identities);
      assert rows == rows[..n] + [rows[n]];
      ScreeningIsDistinct(rows[..n], skus, identities);
      ScreeningIsClean(rows[..n], skus, identities);
      forall c | c in earlier ensures c.sku != rows[n].sku {
        EarlierSku(rows, n, c, skus, identities);
      }
    }
  }

  lemma EarlierSku(rows: seq<Row>, n: nat, c: Candidate, skus: set<string>, identities: set<string>)
    requires forall r :: r in rows && r.candidate.Some? ==> r.candidate.value.sku == r.sku
    requires n < |rows| && DistinctRows(rows) && exists r :: r in rows[..n] && r.candidate == Some(c)
    ensures c.sku != rows[n].sku
  {
    var r :| r in rows[..n] && r.candidate == Some(c);
    var j :| 0 <= j < n && rows[..n][j] == r;
    assert rows[j] == r;
  }

  /**
   The first admissible row of each family makes the pool, so none is exposed; every row is counted once,
   and a row that is neither unparsed nor exposed has its family among the candidates.
   */
  method Screen(rows: seq<Row>, skus: set<string>, identities: set<string>)
    returns (cands: seq<Candidate>, unparsed: nat, exposedSku: nat, exposedIdentity: nat, repeated: nat)
    requires forall r :: r in rows && r.candidate.Some? ==> r.candidate.value.sku == r.sku
    ensures cands == Screening(rows, skus, identities) && Screened(cands, skus, identities)
    ensures |rows| == unparsed + exposedSku + exposedIdentity + repeated + |cands|
    ensures unparsed == CountVerdict(rows, skus, identities, Unparsed)
    ensures exposedSku == CountVerdict(rows, skus, identities, ExposedSku)
    ensures exposedIdentity == CountVerdict(rows, skus, identities, ExposedIdentity)
    ensures forall c :: c in cands ==> exists r :: r in rows && r.candidate == Some(c)
    ensures forall r :: r in rows && Admissible(r, skus, identities) ==> HasFamily(cands, r.candidate.value.family)
  {
    cands, unparsed, exposedSku, exposedIdentity, repeated := [], 0, 0, 0, 0;
    var families: set<string> := {};
    for n := 0 to |rows|
      invariant cands == Screening(rows[..n], skus, identities) && families == FamiliesOf(cands)
      invariant n == unparsed + exposedSku + exposedIdentity + repeated + |cands|
      invariant unparsed == CountVerdict(rows[..n], skus, identities, Unparsed)
      invariant exposedSku == CountVerdict(rows[..n], skus, identities, ExposedSku)
      invariant exposedIdentity == CountVerdict(rows[..n], skus, identities, ExposedIdentity)
    {
      VerdictStep(rows, n, skus, identities);
      ScreenNext(rows, n, skus, identities);
      match Judge(rows[n], skus, identities, families) {
        case Unparsed => unparsed := unparsed + 1;
        case ExposedSku => exposedSku := exposedSku + 1;
        case ExposedIdentity => exposedIdentity := exposedIdentity + 1;
        case RepeatedFamily => repeated := repeated + 1;
        case Admitted => {
          var c := rows[n].candidate.value;
          FamilyAdded(cands, c);
          cands := cands + [c];
          families := families + {c.family};
        }
      }
    }
    assert rows[..|rows|] == rows;
    ScreeningIsClean(rows, skus, identities);
    FamiliesSeen(rows, skus, identities);
  }

  lemma FamilyAdded(cands: seq<Candidate>, c: Candidate)
    ensures FamiliesOf(cands + [c]) == FamiliesOf(cands) + {c.family}
  {
  }

  // ---------------------------------------------------------------- counting and filtering

  function Filter(list: seq<Candidate>, keep: Candidate -> bool): seq<Candidate> {
    if list == [] then []
    else
      var n := |list| - 1;
      Filter(list[..n], keep) + (if keep(list[n]) then [list[n]] else [])
  }

  lemma {:induction false} FilterMeans(list: seq<Candidate>, keep: Candidate -> bool)
    ensures forall c :: c in Filter(list, keep) <==> c in list && keep(c)
    ensures |Filter(list, keep)| <= |list|
  {
    if list != [] {
      var n := |list| - 1;
      FilterMeans(list[..n], keep);
      assert list == list[..n] + [list[n]];
    }
  }

  function Count(list: seq<Candidate>, keep: Candidate -> bool): nat {
    |Filter(list, keep)|
  }

  lemma {:induction false} FilterAppend(a: seq<Candidate>, b: seq<Candidate>, keep: Candidate -> bool)
    ensures Filter(a + b, keep) == Filter(a, keep) + Filter(b, keep)
  {
    if b == [] {
      assert a + b == a;
    } else {
      assert (a + b)[..|a + b| - 1] == a + b[..|b| - 1];
      FilterAppend(a, b[..|b| - 1], keep);
    }
  }

  lemma LastFiltered(list: seq<Candidate>, keep: Candidate -> bool)
    requires list != []
    ensures var n := |list| - 1;
            Filter(list, keep) == Filter(list[..n], keep) + (if keep(list[n]) then [list[n]] else [])
  {
  }

  lemma {:induction false} FilterAll(list: seq<Candidate>, keep: Candidate -> bool)
    requires forall i :: 0 <= i < |list| ==> keep(list[i])
    ensures Filter(list, keep) == list
  {
    if list != [] {
      FilterAll(list[..|list| - 1], keep);
      LastKept(list, keep);
    }
  }

  lemma LastKept(list: seq<Candidate>, keep: Candidate -> bool)
    requires list != [] && keep(list[|list| - 1]) && Filter(list[..|list| - 1], keep) == list[..|list| - 1]
    ensures Filter(list, keep) == list
  {
    LastFiltered(list, keep);
    assert list == list[..|list| - 1] + [list[|list| - 1]];
  }

  lemma {:induction false} FilterNone(list: seq<Candidate>, keep: Candidate -> bool)
    requires forall c :: c in list ==> !keep(c)
    ensures Filter(list, keep) == []
  {
    if list != [] {
      FilterNone(list[..|list| - 1], keep);
    }
  }

  lemma {:induction false} FilterMultiplicity(list: seq<Candidate>, keep: Candidate -> bool, x: Candidate)
    ensures multiset(Filter(list, keep))[x] == if keep(x) then multiset(list)[x] else 0
  {
    if list != [] {
      var n := |list| - 1;
      FilterMultiplicity(list[..n], keep, x);
      assert list == list[..n] + [list[n]];
    }
  }

  /** A permutation keeps every count. */
  lemma {:induction false} CountPermuted(a: seq<Candidate>, b: seq<Candidate>, keep: Candidate -> bool)
    requires multiset(a) == multiset(b)
    ensures multiset(Filter(a, keep)) == multiset(Filter(b, keep))
    ensures Count(a, keep) == Count(b, keep)
  {
    forall x ensures multiset(Filter(a, keep))[x] == multiset(Filter(b, keep))[x] {
      FilterMultiplicity(a, keep, x);
      FilterMultiplicity(b, keep, x);
    }
    assert |multiset(Filter(a, keep))| == Count(a, keep);
    assert |multiset(Filter(b, keep))| == Count(b, keep);
  }

  // ---------------------------------------------------------------- picking

  ghost predicate DistinctSkus(list: seq<Candidate>) {
    forall i, j :: 0 <= i < j < |list| ==> list[i].sku != list[j].sku
  }

  ghost predicate SkusOf(list: seq<Candidate>, skus: set<string>) {
    && (forall c :: c in list ==> c.sku in skus)
    && (forall s :: s in skus ==> exists c :: c in list && c.sku == s)
  }

  /** The picks so far: their SKUs differ, and the set holds exactly those. */
  ghost predicate Picks(picked: seq<Candidate>, pickedSkus: set<string>) {
    DistinctSkus(picked) && SkusOf(picked, pickedSkus)
  }

  lemma PickOne(picked: seq<Candidate>, pickedSkus: set<string>, c: Candidate)
    requires Picks(picked, pickedSkus) && c.sku !in pickedSkus
    ensures Picks(picked + [c], pickedSkus + {c.sku})
  {
    forall i | 0 <= i < |picked| ensures picked[i].sku != c.sku {
      assert picked[i] in picked;
    }
    forall s | s in pickedSkus + {c.sku} ensures exists d :: d in picked + [c] && d.sku == s {
      if s == c.sku {
        assert c in picked + [c];
      } else {
        var d :| d in picked && d.sku == s;
        assert d in picked + [c];
      }
    }
  }

  predicate HasSku(picked: seq<Candidate>, sku: string) {
    exists p :: p in picked && p.sku == sku
  }

  /** What a picking loop adds, and in what order: the new ones, until the limit of the kind is reached. */
  function Take(picked: seq<Candidate>, list: seq<Candidate>, limited: Candidate -> bool,
                limit: nat): (r: seq<Candidate>)
    decreases |list|
  {
    if list == [] then picked
    else if HasSku(picked, list[0].sku) then Take(picked, list[1..], limited, limit)
    else if Count(picked, limited) >= limit then picked
    else Take(picked + [list[0]], list[1..], limited, limit)
  }

  /** The picking loop: a pick already made is skipped, and the limit ends the loop. */
  method PickFrom(list: seq<Candidate>, limited: Candidate -> bool, limit: nat, picked: seq<Candidate>,
                  pickedSkus: set<string>) returns (picked': seq<Candidate>, pickedSkus': set<string>)
    requires Picks(picked, pickedSkus)
    ensures Picks(picked', pickedSkus') && picked' == Take(picked, list, limited, limit)
  {
    picked', pickedSkus' := picked, pickedSkus;
    for n := 0 to |list|
      invariant Picks(picked', pickedSkus')
      invariant Take(picked', list[n..], limited, limit) == Take(picked, list, limited, limit)
    {
      var c := list[n];
      assert list[n..][0] == c && list[n..][1..] == list[n + 1..];
      if c.sku in pickedSkus' { continue; }
      if Count(picked', limited) >= limit { return; }
      PickOne(picked', pickedSkus', c);
      picked' := picked' + [c];
      pickedSkus' := pickedSkus' + {c.sku};
    }
  }

  /** Unconditionally: the earlier picks stay, and every new one comes from the list. */
  lemma {:induction false} TakeGrows(picked: seq<Candidate>, list: seq<Candidate>, limited: Candidate -> bool,
                                     limit: nat)
    requires DistinctSkus(picked)
    ensures var r := Take(picked, list, limited, limit);
            DistinctSkus(r) && picked <= r && forall c :: c in r ==> c in picked || c in list
    decreases |list|
  {
    if list == [] {
    } else if HasSku(picked, list[0].sku) {
      TakeGrows(picked, list[1..], limited, limit);
    } else if Count(picked, limited) < limit {
      assert forall i :: 0 <= i < |picked| ==> picked[i] in picked;
      TakeGrows(picked + [list[0]], list[1..], limited, limit);
    }
  }

  lemma FirstIsNew(picked: seq<Candidate>, list: seq<Candidate>)
    requires list != [] && DistinctSkus(picked + list)
    ensures !HasSku(picked, list[0].sku) && picked + [list[0]] + list[1..] == picked + list
  {
    assert (picked + list)[|picked|] == list[0];
    assert forall i :: 0 <= i < |picked| ==> (picked + list)[i] == picked[i];
    assert picked + [list[0]] + list[1..] == picked + list;
  }

  lemma OneMoreCounted(picked: seq<Candidate>, c: Candidate, limited: Candidate -> bool)
    requires limited(c)
    ensures Count(picked + [c], limited) == Count(picked, limited) + 1
  {
    assert (picked + [c])[..|picked|] == picked;
  }

  lemma FrontJoins(picked: seq<Candidate>, list: seq<Candidate>, k: nat)
    requires k < |list|
    ensures picked + [list[0]] + list[1..][..k] == picked + list[..k + 1]
  {
  }

  function Min(a: nat, b: nat): nat {
    if a <= b then a else b
  }

  /** How many more of a kind may be picked. */
  function Room(picked: seq<Candidate>, limited: Candidate -> bool, limit: nat): nat {
    if Count(picked, limited) >= limit then 0 else limit - Count(picked, limited)
  }

  /** A list of new, different candidates of the limited kind is taken from the front up to the limit. */
  lemma {:induction false} TakeUpTo(picked: seq<Candidate>, list: seq<Candidate>, limited: Candidate -> bool,
                                    limit: nat)
    requires DistinctSkus(picked + list) && forall c :: c in list ==> limited(c)
    ensures Take(picked, list, limited, limit) == picked + list[..Min(|list|, Room(picked, limited, limit))]
    decreases |list|
  {
    if list == [] {
    } else {
      FirstIsNew(picked, list);
      var room := Room(picked, limited, limit);
      if room > 0 {
        var c, rest := list[0], list[1..];
        OneMoreCounted(picked, c, limited);
        TakeUpTo(picked + [c], rest, limited, limit);
        FrontJoins(picked, list, Min(|rest|, room - 1));
      }
    }
  }

  // ---------------------------------------------------------------- filling a stratum

  function Thin(): Candidate -> bool {
    (c: Candidate) => c.thin
  }

  function Of(stratum: string): Candidate -> bool {
    (c: Candidate) => c.stratum == stratum
  }

  function Unpicked(pickedSkus: set<string>): Candidate -> bool {
    (c: Candidate) => c.sku !in pickedSkus
  }

  ghost function Elements(list: seq<Candidate>): set<Candidate> {
    set c | c in list
  }

  lemma {:induction false} DistinctSize(list: seq<Candidate>)
    requires DistinctSkus(list)
    ensures |Elements(list)| == |list|
  {
    if list != [] {
      var n := |list| - 1;
      DistinctSize(list[..n]);
      assert list == list[..n] + [list[n]];
      assert Elements(list) == Elements(list[..n]) + {list[n]};
    }
  }

  lemma {:induction false} FilterDistinct(list: seq<Candidate>, keep: Candidate -> bool)
    requires DistinctSkus(list)
    ensures DistinctSkus(Filter(list, keep))
  {
    if list != [] {
      var n := |list| - 1;
      FilterDistinct(list[..n], keep);
      var r := Filter(list[..n], keep);
      FilterMeans(list[..n], keep);
      forall i | 0 <= i < |r| ensures r[i].sku != list[n].sku {
        assert r[i] in list[..n];
      }
    }
  }

  lemma PermutedDistinct(a: seq<Candidate>, b: seq<Candidate>)
    requires DistinctSkus(a) && multiset(a) == multiset(b)
    ensures DistinctSkus(b)
  {
    forall i, j | 0 <= i < j < |b| ensures b[i].sku != b[j].sku {
      SameMembers(a, b);
      assert b[i] in b && b[j] in b;
      var k :| 0 <= k < |a| && a[k] == b[i];
      var m :| 0 <= m < |a| && a[m] == b[j];
      if k == m {
        TwiceIn(b, i, j);
        OnceInDistinct(a, k);
      }
    }
  }

  lemma TwiceIn(b: seq<Candidate>, i: nat, j: nat)
    requires i < j < |b| && b[i] == b[j]
    ensures multiset(b)[b[i]] >= 2
  {
    assert b == b[..i] + [b[i]] + b[i + 1..j] + [b[j]] + b[j + 1..];
  }

  lemma OnceInDistinct(a: seq<Candidate>, k: nat)
    requires k < |a| && DistinctSkus(a)
    ensures multiset(a)[a[k]] == 1
  {
    assert NoDuplicates(a);
    CountOnce(a, k);
  }

  /** The candidates of a stratum not picked yet, before sorting and shuffling. */
  ghost function Open(cands: seq<Candidate>, stratum: string, pickedSkus: set<string>): seq<Candidate> {
    Filter(Filter(cands, Of(stratum)), Unpicked(pickedSkus))
  }

  lemma OpenMeans(cands: seq<Candidate>, stratum: string, pickedSkus: set<string>)
    ensures forall c :: c in Open(cands, stratum, pickedSkus) <==>
              c in cands && c.stratum == stratum && c.sku !in pickedSkus
  {
    FilterMeans(cands, Of(stratum));
    FilterMeans(Filter(cands, Of(stratum)), Unpicked(pickedSkus));
  }

  ghost predicate FromPool(picked: seq<Candidate>, cands: seq<Candidate>) {
    forall c :: c in picked ==> c in cands
  }

  lemma SameSku(cands: seq<Candidate>, c: Candidate, d: Candidate)
    requires DistinctSkus(cands) && c in cands && d in cands && c.sku == d.sku
    ensures c == d
  {
  }

  /** A stratum's candidates are those picked and those open. */
  lemma OpenSize(cands: seq<Candidate>, picked: seq<Candidate>, pickedSkus: set<string>, stratum: string)
    requires DistinctSkus(cands) && Picks(picked, pickedSkus) && FromPool(picked, cands)
    ensures |Open(cands, stratum, pickedSkus)| + Count(picked, Of(stratum)) == Count(cands, Of(stratum))
    ensures DistinctSkus(Open(cands, stratum, pickedSkus))
  {
    var all, rest, mine := Filter(cands, Of(stratum)), Open(cands, stratum, pickedSkus), Filter(picked, Of(stratum));
    FilterDistinct(cands, Of(stratum));
    FilterDistinct(all, Unpicked(pickedSkus));
    FilterDistinct(picked, Of(stratum));
    DistinctSize(all);
    DistinctSize(rest);
    DistinctSize(mine);
    OpenMeans(cands, stratum, pickedSkus);
    FilterMeans(cands, Of(stratum));
    FilterMeans(picked, Of(stratum));
    forall c ensures c in all <==> c in rest || c in mine {
      if c in all && c !in rest {
        var d :| d in picked && d.sku == c.sku;
        SameSku(cands, c, d);
      }
    }
    assert Elements(all) == Elements(rest) + Elements(mine);
    assert Elements(rest) !! Elements(mine);
  }

  lemma JoinDistinct(cands: seq<Candidate>, picked: seq<Candidate>, pickedSkus: set<string>, stratum: string,
                     list: seq<Candidate>)
    requires Picks(picked, pickedSkus)
    requires DistinctSkus(list) && forall c :: c in list ==> c.sku !in pickedSkus
    ensures DistinctSkus(picked + list)
  {
    var both := picked + list;
    forall i, j | 0 <= i < j < |both| ensures both[i].sku != both[j].sku {
      if i < |picked| <= j {
        assert picked[i] in picked && list[j - |picked|] in list;
      }
    }
  }

  function Max(a: nat, b: nat): nat {
    if a >= b then a else b
  }

  /** Filling a stratum brings it up to its quota or its supply, and leaves the others alone. */
  lemma {:induction false} Fills(cands: seq<Candidate>, picked: seq<Candidate>, pickedSkus: set<string>,
                                 stratum: string, quota: nat, list: seq<Candidate>)
    requires DistinctSkus(cands) && Picks(picked, pickedSkus) && FromPool(picked, cands)
    requires multiset(list) == multiset(Open(cands, stratum, pickedSkus))
    ensures var r := Take(picked, list, Of(stratum), quota);
            && Count(r, Of(stratum)) == Max(Count(picked, Of(stratum)), Min(Count(cands, Of(stratum)), quota))
            && forall s :: s != stratum ==> Count(r, Of(s)) == Count(picked, Of(s))
  {
    var rest := Open(cands, stratum, pickedSkus);
    OpenSize(cands, picked, pickedSkus, stratum);
    OpenMeans(cands, stratum, pickedSkus);
    PermutedDistinct(rest, list);
    SameMembers(rest, list);
    JoinDistinct(cands, picked, pickedSkus, stratum, list);
    TakeUpTo(picked, list, Of(stratum), quota);
    var taken := list[..Min(|list|, Room(picked, Of(stratum), quota))];
    FilterAppend(picked, taken, Of(stratum));
    FilterAll(taken, Of(stratum));
    forall s | s != stratum ensures Count(picked + taken, Of(s)) == Count(picked, Of(s)) {
      FilterAppend(picked, taken, Of(s));
      FilterNone(taken, Of(s));
    }
  }

  lemma SameMembers(a: seq<Candidate>, b: seq<Candidate>)
    requires multiset(a) == multiset(b)
    ensures |a| == |b| && forall c :: c in a <==> c in b
  {
    assert |multiset(a)| == |a| && |multiset(b)| == |b|;
    forall c ensures c in a <==> c in b {
      assert c in a <==> c in multiset(a);
      assert c in b <==> c in multiset(b);
    }
  }

  // ---------------------------------------------------------------- the run

  method ShuffleList<S>(list: seq<Candidate>, rng: Rng<S>) returns (r: seq<Candidate>)
    modifies rng`state
    ensures multiset(r) == multiset(list)
    ensures r == Shuffled(rng.generator, old(rng.state), list)
    ensures rng.state == Advance(rng.generator, old(rng.state), Draws(|list|))
  {
    var arr := new Candidate[|list|](i requires 0 <= i < |list| => list[i]);
    assert arr[..] == list;
    ShuffledPermutes(rng.generator, rng.state, list);
    var a := ShuffleCopy(arr, rng);
    r := a[..];
  }

  ghost predicate SortsBySku(sort: seq<Candidate> -> seq<Candidate>) {
    forall s :: multiset(sort(s)) == multiset(s)
  }

  lemma OpenSorted(cands: seq<Candidate>, sort: seq<Candidate> -> seq<Candidate>, stratum: string,
                   pickedSkus: set<string>)
    requires SortsBySku(sort)
    ensures multiset(Filter(sort(Filter(cands, Of(stratum))), Unpicked(pickedSkus))) ==
            multiset(Open(cands, stratum, pickedSkus))
  {
    CountPermuted(sort(Filter(cands, Of(stratum))), Filter(cands, Of(stratum)), Unpicked(pickedSkus));
  }

  /** One stratum reaches its quota as far as the supply allows; the others keep their counts. */
  ghost predicate ToppedUp(cands: seq<Candidate>, picked: seq<Candidate>, picked': seq<Candidate>, stratum: string,
                           quota: nat)
  {
    && Count(picked', Of(stratum)) == Max(Count(picked, Of(stratum)), Min(Count(cands, Of(stratum)), quota))
    && forall s :: s != stratum ==> Count(picked', Of(s)) == Count(picked, Of(s))
  }

  ghost function SkuSet(picked: seq<Candidate>): set<string> {
    set c | c in picked :: c.sku
  }

  lemma PicksSkus(picked: seq<Candidate>, pickedSkus: set<string>)
    requires Picks(picked, pickedSkus)
    ensures pickedSkus == SkuSet(picked)
  {
  }

  /** The picks after a list has been shuffled and taken up to a limit, and the generator's state then. */
  ghost function TakeShuffled<S>(g: Generator<S>, state: S, picked: seq<Candidate>, list: seq<Candidate>,
                                 limited: Candidate -> bool, limit: nat): (seq<Candidate>, S)
  {
    (Take(picked, Shuffled(g, state, list), limited, limit), Advance(g, state, Draws(|list|)))
  }

  /** The same for the open candidates of one stratum. */
  ghost function FillFrom<S>(g: Generator<S>, state: S, cands: seq<Candidate>,
                             sort: seq<Candidate> -> seq<Candidate>, stratum: string, quota: nat,
                             picked: seq<Candidate>): (seq<Candidate>, S)
  {
    TakeShuffled(g, state, picked, Filter(sort(Filter(cands, Of(stratum))), Unpicked(SkuSet(picked))), Of(stratum),
                 quota)
  }

  /** The thin oversample, then the first `n` strata without the unmapped one. */
  ghost function SampledTo<S>(g: Generator<S>, seed: S, cands: seq<Candidate>,
                              sort: seq<Candidate> -> seq<Candidate>, order: seq<string>, n: nat): (seq<Candidate>, S)
    requires n <= |order|
  {
    if n == 0 then TakeShuffled(g, seed, [], Filter(cands, Thin()), Thin(), THIN_QUOTA)
    else
      var earlier := SampledTo(g, seed, cands, sort, order, n - 1);
      if order[n - 1] == UNMAPPED then earlier
      else FillFrom(g, earlier.1, cands, sort, order[n - 1], PER_STRATUM, earlier.0)
  }

  /** The sample a generator makes from a seed. */
  ghost function SampleOf<S>(g: Generator<S>, seed: S, cands: seq<Candidate>,
                             sort: seq<Candidate> -> seq<Candidate>, order: seq<string>): (seq<Candidate>, S)
  {
    var strata := SampledTo(g, seed, cands, sort, order, |order|);
    FillFrom(g, strata.1, cands, sort, UNMAPPED, UNMAPPED_QUOTA, strata.0)
  }

  /** `fillToQuota` on one stratum of the pool. */
  method FillToQuota<S>(cands: seq<Candidate>, sort: seq<Candidate> -> seq<Candidate>, stratum: string, quota: nat,
                        rng: Rng<S>, picked: seq<Candidate>, pickedSkus: set<string>)
    returns (picked': seq<Candidate>, pickedSkus': set<string>)
    requires SortsBySku(sort) && Picks(picked, pickedSkus) && FromPool(picked, cands)
    modifies rng`state
    ensures Picks(picked', pickedSkus') && FromPool(picked', cands) && picked <= picked'
    ensures DistinctSkus(cands) ==>
              ToppedUp(cands, picked, picked', stratum, quota)
    ensures (picked', rng.state) == FillFrom(rng.generator, old(rng.state), cands, sort, stratum, quota, picked)
  {
    PicksSkus(picked, pickedSkus);
    var unpicked := Filter(sort(Filter(cands, Of(stratum))), Unpicked(pickedSkus));
    OpenSorted(cands, sort, stratum, pickedSkus);
    var list := ShuffleList(unpicked, rng);
    OpenMeans(cands, stratum, pickedSkus);
    SameMembers(list, Open(cands, stratum, pickedSkus));
    TakeGrows(picked, list, Of(stratum), quota);
    picked', pickedSkus' := PickFrom(list, Of(stratum), quota, picked, pickedSkus);
    if DistinctSkus(cands) {
      Fills(cands, picked, pickedSkus, stratum, quota, list);
    }
  }

  /** The thin-slot oversample. */
  method PickThin<S>(cands: seq<Candidate>, rng: Rng<S>) returns (picked: seq<Candidate>, pickedSkus: set<string>)
    modifies rng`state
    ensures Picks(picked, pickedSkus) && FromPool(picked, cands)
    ensures forall c :: c in picked ==> c.thin
    ensures DistinctSkus(cands) ==> |picked| == Min(Count(cands, Thin()), THIN_QUOTA)
    ensures (picked, rng.state) ==
            TakeShuffled(rng.generator, old(rng.state), [], Filter(cands, Thin()), Thin(), THIN_QUOTA)
  {
    var thin := Filter(cands, Thin());
    var list := ShuffleList(thin, rng);
    FilterMeans(cands, Thin());
    SameMembers(list, thin);
    TakeGrows([], list, Thin(), THIN_QUOTA);
    picked, pickedSkus := PickFrom(list, Thin(), THIN_QUOTA, [], {});
    if DistinctSkus(cands) {
      ThinTaken(cands, list);
    }
  }

  lemma {:induction false} ThinTaken(cands: seq<Candidate>, list: seq<Candidate>)
    requires DistinctSkus(cands) && multiset(list) == multiset(Filter(cands, Thin()))
    ensures |Take([], list, Thin(), THIN_QUOTA)| == Min(Count(cands, Thin()), THIN_QUOTA)
  {
    FilterDistinct(cands, Thin());
    FilterMeans(cands, Thin());
    PermutedDistinct(Filter(cands, Thin()), list);
    SameMembers(Filter(cands, Thin()), list);
    assert [] + list == list;
    TakeUpTo([], list, Thin(), THIN_QUOTA);
  }

  function Quota(stratum: string): nat {
    if stratum == UNMAPPED then UNMAPPED_QUOTA else PER_STRATUM
  }

  /** What a stratum ends with: its thin picks, unless quota and supply allow more. */
  ghost predicate Filled(cands: seq<Candidate>, thin: seq<Candidate>, picked: seq<Candidate>, stratum: string) {
    Count(picked, Of(stratum)) == Max(Count(thin, Of(stratum)), Min(Count(cands, Of(stratum)), Quota(stratum)))
  }

  /** The first `n` strata are filled, but for the unmapped rows; the others hold their thin picks. */
  ghost predicate FilledTo(cands: seq<Candidate>, thin: seq<Candidate>, picked: seq<Candidate>, order: seq<string>,
                           n: nat)
    requires n <= |order|
  {
    forall s :: if s in order[..n] && s != UNMAPPED then Filled(cands, thin, picked, s)
                else Count(picked, Of(s)) == Count(thin, Of(s))
  }

  lemma StratumFilled(cands: seq<Candidate>, thin: seq<Candidate>, picked: seq<Candidate>, picked': seq<Candidate>,
                      order: seq<string>, n: nat)
    requires DistinctNames(order) && n < |order| && FilledTo(cands, thin, picked, order, n)
    requires if order[n] == UNMAPPED then picked' == picked
             else ToppedUp(cands, picked, picked', order[n], PER_STRATUM)
    ensures FilledTo(cands, thin, picked', order, n + 1)
  {
    assert order[..n + 1] == order[..n] + [order[n]];
    assert order[n] !in order[..n];
  }

  lemma AllFilled(cands: seq<Candidate>, thin: seq<Candidate>, picked: seq<Candidate>, picked': seq<Candidate>,
                  order: seq<string>)
    requires FilledTo(cands, thin, picked, order, |order|)
    requires ToppedUp(cands, picked, picked', UNMAPPED, UNMAPPED_QUOTA)
    ensures forall s :: s in order || s == UNMAPPED ==> Filled(cands, thin, picked', s)
  {
    assert order[..|order|] == order;
  }

  ghost predicate DistinctNames(order: seq<string>) {
    forall i, j :: 0 <= i < j < |order| ==> order[i] != order[j]
  }

  /**
   The whole sample, whatever the generator: the picks have distinct SKUs and come from the pool, and
   the thin picks `thin` come first. If the pool's SKUs are distinct, every stratum ends with exactly
   its thin picks or the smaller of its quota and its supply, whichever is more.
   */
  method Sample<S>(cands: seq<Candidate>, sort: seq<Candidate> -> seq<Candidate>, order: seq<string>, rng: Rng<S>)
    returns (picked: seq<Candidate>, ghost thin: seq<Candidate>)
    requires SortsBySku(sort) && DistinctNames(order) && forall c :: c in cands ==> c.stratum in order
    modifies rng`state
    ensures DistinctSkus(picked) && FromPool(picked, cands)
    ensures thin <= picked && forall c :: c in thin ==> c.thin && c in cands
    ensures DistinctSkus(cands) ==>
              && |thin| == Min(Count(cands, Thin()), THIN_QUOTA)
              && forall s :: s in order || s == UNMAPPED ==> Filled(cands, thin, picked, s)
    ensures (picked, rng.state) == SampleOf(rng.generator, old(rng.state), cands, sort, order)
  {
    ghost var seed := rng.state;
    var pickedSkus;
    picked, pickedSkus := PickThin(cands, rng);
    thin := picked;
    for n := 0 to |order|
      invariant Picks(picked, pickedSkus) && FromPool(picked, cands) && thin <= picked
      invariant DistinctSkus(cands) ==> FilledTo(cands, thin, picked, order, n)
      invariant (picked, rng.state) == SampledTo(rng.generator, seed, cands, sort, order, n)
    {
      ghost var before := picked;
      if order[n] != UNMAPPED {
        picked, pickedSkus := FillToQuota(cands, sort, order[n], PER_STRATUM, rng, picked, pickedSkus);
      }
      if DistinctSkus(cands) {
        StratumFilled(cands, thin, before, picked, order, n);
      }
    }
    ghost var before := picked;
    picked, pickedSkus := FillToQuota(cands, sort, UNMAPPED, UNMAPPED_QUOTA, rng, picked, pickedSkus);
    if DistinctSkus(cands) {
      AllFilled(cands, thin, before, picked, order);
    }
  }

  /** From a screened pool, the sample repeats no family and shows nothing that was exposed. */
  lemma SampleIsClean(cands: seq<Candidate>, picked: seq<Candidate>, skus: set<string>, identities: set<string>)
    requires Screened(cands, skus, identities) && DistinctSkus(picked) && FromPool(picked, cands)
    ensures Screened(picked, skus, identities)
  {
    forall i, j | 0 <= i < j < |picked| ensures picked[i].family != picked[j].family {
      assert picked[i] in cands && picked[j] in cands && picked[i] != picked[j];
    }
  }

  const SEED: bv32 := 0xC0FFEE

  /**
   From store rows to the sample, with the script's own generator and seed: the candidates are the first
   admissible rows of their families, nothing exposed is picked, no family and no SKU twice, and if the
   SKUs of the rows are distinct, as in the store, every stratum is filled as `Filled` says.
   */
  method BuildPool(rows: seq<Row>, skus: set<string>, identities: set<string>, sort: seq<Candidate> -> seq<Candidate>,
                   orderOf: seq<Candidate> -> seq<string>)
    returns (picked: seq<Candidate>, ghost cands: seq<Candidate>, ghost thin: seq<Candidate>)
    requires forall r :: r in rows && r.candidate.Some? ==> r.candidate.value.sku == r.sku
    requires SortsBySku(sort)
    requires forall cs: seq<Candidate> :: DistinctNames(orderOf(cs)) && forall c :: c in cs ==> c.stratum in orderOf(cs)
    ensures cands == Screening(rows, skus, identities) && FromPool(picked, cands)
    ensures Screened(picked, skus, identities) && DistinctSkus(picked)
    ensures forall c :: c in picked ==> exists r :: r in rows && r.candidate == Some(c)
    ensures thin <= picked && forall c :: c in thin ==> c.thin
    ensures DistinctRows(rows) ==> DistinctSkus(cands)
    ensures DistinctSkus(cands) ==>
              && |thin| == Min(Count(cands, Thin()), THIN_QUOTA)
              && forall c :: c in cands ==> Filled(cands, thin, picked, c.stratum)
    ensures picked == SampleOf(Mulberry32(), 0xC0FFEE, cands, sort, orderOf(cands)).0
  {
    var pool, unparsed, exposedSku, exposedIdentity, repeated := Screen(rows, skus, identities);
    cands := pool;
    var rng := new Rng(Mulberry32(), SEED);
    picked, thin := Sample(pool, sort, orderOf(pool), rng);
    SampleIsClean(pool, picked, skus, identities);
    if DistinctRows(rows) {
      ScreeningIsDistinct(rows, skus, identities);
    }
  }

  // ---------------------------------------------------------------- in numbers

  /** The verdict over one row: the tests in their order. */
  lemma JudgeExactly(row: Row, skus: set<string>, identities: set<string>, families: set<string>)
    ensures var v, known := Judge(row, skus, identities, families), row.sku != "" && row.sku in skus;
            && (v == Unparsed <==> row.candidate == None)
            && (v == ExposedSku <==> row.candidate != None && known)
            && (v == ExposedIdentity <==>
                  row.candidate != None && !known && row.candidate.value.family in identities)
            && (v == Admitted <==>
                  && row.candidate != None && !known && row.candidate.value.family !in identities
                  && row.candidate.value.family !in families)
  {
  }

  /** One row more joins the pool exactly when it parses, is not exposed and its family is new to the pool. */
  lemma ScreeningExactly(rows: seq<Row>, row: Row, skus: set<string>, identities: set<string>)
    ensures Screening([], skus, identities) == []
    ensures Screening(rows + [row], skus, identities) ==
            Screening(rows, skus, identities) +
            if && row.candidate != None && (row.sku == "" || row.sku !in skus)
               && row.candidate.value.family !in identities
               && (forall c :: c in Screening(rows, skus, identities) ==> c.family != row.candidate.value.family)
            then [row.candidate.value] else []
  {
    var more := rows + [row];
    assert more[..|rows|] == rows && more[..|rows| + 1] == more;
    ScreenNext(more, |rows|, skus, identities);
    var earlier := Screening(rows, skus, identities);
    if row.candidate != None {
      assert row.candidate.value.family in FamiliesOf(earlier) <==>
          exists c :: c in earlier && c.family == row.candidate.value.family;
    }
  }

  ghost function PlacesOf(list: seq<Candidate>, keep: Candidate -> bool): set<nat> {
    set i: nat | i < |list| && keep(list[i])
  }

  lemma {:induction false} CountIsNumber(list: seq<Candidate>, keep: Candidate -> bool)
    ensures Count(list, keep) == |PlacesOf(list, keep)|
  {
    if list == [] {
      assert PlacesOf(list, keep) == {};
    } else {
      var n := |list| - 1;
      CountIsNumber(list[..n], keep);
      if keep(list[n]) {
        assert PlacesOf(list, keep) == PlacesOf(list[..n], keep) + {n};
      } else {
        assert PlacesOf(list, keep) == PlacesOf(list[..n], keep);
      }
    }
  }

  ghost function StratumPlaces(list: seq<Candidate>, stratum: string): set<nat> {
    set i: nat | i < |list| && list[i].stratum == stratum
  }

  /**
   A filled stratum in numbers: 24 candidates, 60 of the unmapped ones, or all there are, unless the thin
   picks are more.
   */
  lemma FilledExactly(cands: seq<Candidate>, thin: seq<Candidate>, picked: seq<Candidate>, stratum: string)
    ensures var supply, before := |StratumPlaces(cands, stratum)|, |StratumPlaces(thin, stratum)|;
            var quota := if stratum == "unmapped" then 60 else 24;
            var share := if supply < quota then supply else quota;
            Filled(cands, thin, picked, stratum) <==>
            |StratumPlaces(picked, stratum)| == if before > share then before else share
  {
    CountIsNumber(cands, Of(stratum));
    CountIsNumber(thin, Of(stratum));
    CountIsNumber(picked, Of(stratum));
    assert PlacesOf(cands, Of(stratum)) == StratumPlaces(cands, stratum);
    assert PlacesOf(thin, Of(stratum)) == StratumPlaces(thin, stratum);
    assert PlacesOf(picked, Of(stratum)) == StratumPlaces(picked, stratum);
  }

  /** The thin picks in numbers: 40, or all there are. */
  lemma ThinExactly(cands: seq<Candidate>)
    ensures var supply := |set i: nat | i < |cands| && cands[i].thin|;
            Min(Count(cands, Thin()), THIN_QUOTA) == if supply < 40 then supply else 40
  {
    CountIsNumber(cands, Thin());
    assert PlacesOf(cands, Thin()) == set i: nat | i < |cands| && cands[i].thin;
  }
}
