/**
 `loadBank` and `loadPublicExclusion`: the sealed rows a new collection must avoid, kept as a list
 and as two sets that every admission check looks up.
 */
module ExclusionBank {
  import opened Common
  import opened UrlIdentity

  /** The `canonicalUrl` of a row: not a string at all, or a string that may fail to parse. */
  datatype UrlField = NotText | Text(parsed: Option<Url>)

  /** `familyId` is `None` when it is not a string. */
  datatype BankRow = BankRow(familyId: Option<string>, canonicalUrl: UrlField)

  /** A bank file is absent, unreadable as an array, or a list of rows. */
  datatype Bank = Missing | Corrupt | Rows(rows: seq<BankRow>)

  datatype StageBank = StageBank(privateLooking: bool, bank: Bank)

  datatype Prior = Prior(familyId: string, url: Url)

  datatype Added = Added(families: nat, urls: nat)

  predicate WellFormedRow(row: BankRow) {
    row.familyId.Some? && row.familyId.value != "" && row.canonicalUrl.Text? && row.canonicalUrl.parsed.Some?
  }

  predicate WellFormedBank(bank: Bank) {
    bank.Missing? || (bank.Rows? && WellFormedRows(bank.rows, |bank.rows|))
  }

  /** The first `n` rows are well formed. */
  predicate WellFormedRows(rows: seq<BankRow>, n: nat)
    requires n <= |rows|
  {
    forall i :: 0 <= i < n ==> WellFormedRow(rows[i])
  }

  function ToPrior(row: BankRow): Prior {
    Prior(row.familyId.GetOr(""),
          if row.canonicalUrl.Text? then row.canonicalUrl.parsed.GetOr(Url("", "", "")) else Url("", "", ""))
  }

  ghost function RowPriors(rows: seq<BankRow>): (r: seq<Prior>)
    ensures |r| == |rows|
  {
    seq(|rows|, i requires 0 <= i < |rows| => ToPrior(rows[i]))
  }

  /** The priors of a bank, in row order. */
  ghost function PriorsOf(bank: Bank): seq<Prior> {
    if bank.Rows? then RowPriors(bank.rows) else []
  }

  /** The family ids of the rows. */
  ghost function Families(prior: seq<Prior>): set<string> {
    if prior == [] then {}
    else Families(prior[..|prior| - 1]) + {prior[|prior| - 1].familyId}
  }

  /** The product identities of the rows. */
  ghost function Keys(prior: seq<Prior>): set<string> {
    if prior == [] then {}
    else Keys(prior[..|prior| - 1]) + {Key(prior[|prior| - 1].url)}
  }

  lemma {:induction false} SetsMean(prior: seq<Prior>)
    ensures forall x :: x in Families(prior) <==> exists p :: p in prior && p.familyId == x
    ensures forall x :: x in Keys(prior) <==> exists p :: p in prior && Key(p.url) == x
  {
    if prior != [] {
      var n := |prior| - 1;
      SetsMean(prior[..n]);
      assert forall p :: p in prior <==> p in prior[..n] || p == prior[n];
    }
  }

  class Exclusion {
    var byFamily: set<string>
    var byUrl: set<string>
    var prior: seq<Prior>

    /** The two sets are exactly the identities of the rows loaded. */
    ghost predicate Valid()
      reads this
    {
      byFamily == Families(prior) && byUrl == Keys(prior)
    }

    constructor ()
      ensures Valid() && prior == []
    {
      byFamily, byUrl, prior := {}, {}, [];
    }

    /** One row of a bank; the counts say which of its identities were new. */
    method AddRow(p: Prior) returns (added: Added)
      requires Valid()
      modifies this
      ensures Valid() && prior == old(prior) + [p]
      ensures |byFamily| == |old(byFamily)| + added.families && |byUrl| == |old(byUrl)| + added.urls
      ensures added.families == (if p.familyId in old(byFamily) then 0 else 1)
      ensures added.urls == (if Key(p.url) in old(byUrl) then 0 else 1)
    {
      var key := Key(p.url);
      added := Added(if p.familyId !in byFamily then 1 else 0, if key !in byUrl then 1 else 0);
      SetsExtend(prior, p);
      Grow(byFamily, p.familyId);
      Grow(byUrl, key);
      byFamily := byFamily + {p.familyId};
      byUrl := byUrl + {key};
      prior := prior + [p];
    }

    /**
     Adds a bank. The counts returned are the growth of the two sets; a malformed bank throws, and
     what was added before the malformed row stays consistent.
     */
    method LoadBank(bank: Bank) returns (r: Result<Added>)
      requires Valid()
      modifies this
      ensures Valid()
      ensures r.Ok? <==> WellFormedBank(bank)
      ensures r.Ok? ==> prior == old(prior) + PriorsOf(bank)
      ensures r.Ok? ==> |byFamily| == |old(byFamily)| + r.value.families && |byUrl| == |old(byUrl)| + r.value.urls
    {
      if bank.Missing? {
        return Ok(Added(0, 0));
      }
      if bank.Corrupt? {
        return Err("corrupt_exclusion_bank");
      }
      r := LoadRows(bank.rows);
    }

    method LoadRows(rows: seq<BankRow>) returns (r: Result<Added>)
      requires Valid()
      modifies this
      ensures Valid()
      ensures r.Ok? <==> WellFormedRows(rows, |rows|)
      ensures r.Ok? ==> prior == old(prior) + RowPriors(rows)
      ensures r.Ok? ==> |byFamily| == |old(byFamily)| + r.value.families && |byUrl| == |old(byUrl)| + r.value.urls
    {
      var families: nat, urls: nat := 0, 0;
      for n := 0 to |rows|
        invariant Valid()
        invariant WellFormedRows(rows, n)
        invariant prior == old(prior) + RowPriors(rows[..n])
        invariant |byFamily| == |old(byFamily)| + families && |byUrl| == |old(byUrl)| + urls
      {
        RowPriorsStep(old(prior), rows, n);
        if !WellFormedRow(rows[n]) {
          return Err("corrupt_exclusion_bank");
        }
        var added := AddRow(ToPrior(rows[n]));
        families, urls := families + added.families, urls + added.urls;
      }
      assert rows[..|rows|] == rows;
      return Ok(Added(families, urls));
    }
  }

  lemma RowPriorsStep(start: seq<Prior>, rows: seq<BankRow>, n: nat)
    requires n < |rows|
    ensures start + RowPriors(rows[..n + 1]) == start + RowPriors(rows[..n]) + [ToPrior(rows[n])]
    ensures WellFormedRows(rows, n + 1) <==> WellFormedRows(rows, n) && WellFormedRow(rows[n])
  {
    assert RowPriors(rows[..n + 1]) == RowPriors(rows[..n]) + [ToPrior(rows[n])];
  }

  lemma Grow(s: set<string>, x: string)
    ensures |s + {x}| == |s| + (if x in s then 0 else 1)
  {
    if x in s { assert s + {x} == s; }
  }

  lemma SetsExtend(prior: seq<Prior>, p: Prior)
    ensures Families(prior + [p]) == Families(prior) + {p.familyId}
    ensures Keys(prior + [p]) == Keys(prior) + {Key(p.url)}
  {
    assert (prior + [p])[..|prior|] == prior;
  }

  /** All the priors of a list of banks. */
  ghost function AllPriors(banks: seq<Bank>): seq<Prior> {
    if banks == [] then []
    else AllPriors(banks[..|banks| - 1]) + PriorsOf(banks[|banks| - 1])
  }

  ghost function StagePriors(stages: seq<StageBank>): seq<Prior> {
    if stages == [] then []
    else StagePriors(stages[..|stages| - 1]) + PriorsOf(stages[|stages| - 1].bank)
  }

  predicate AllWellFormed(banks: seq<Bank>) {
    forall b :: b in banks ==> WellFormedBank(b)
  }

  lemma BanksStep(banks: seq<Bank>, n: nat, start: seq<Prior>)
    requires n < |banks|
    ensures start + AllPriors(banks[..n + 1]) == start + AllPriors(banks[..n]) + PriorsOf(banks[n])
    ensures AllWellFormed(banks[..n + 1]) <==> AllWellFormed(banks[..n]) && WellFormedBank(banks[n])
    ensures AllWellFormed(banks) ==> WellFormedBank(banks[n])
  {
    assert banks[..n + 1] == banks[..n] + [banks[n]];
  }

  predicate AllStageable(stages: seq<StageBank>) {
    forall s :: s in stages ==> Stageable(s)
  }

  lemma StagesStep(stages: seq<StageBank>, n: nat, start: seq<Prior>)
    requires n < |stages|
    ensures start + StagePriors(stages[..n + 1]) == start + StagePriors(stages[..n]) + PriorsOf(stages[n].bank)
    ensures AllStageable(stages[..n + 1]) <==> AllStageable(stages[..n]) && Stageable(stages[n])
    ensures AllStageable(stages) ==> Stageable(stages[n])
  {
    assert stages[..n + 1] == stages[..n] + [stages[n]];
  }

  predicate Stageable(stage: StageBank) {
    !stage.privateLooking && stage.bank.Rows? && WellFormedBank(stage.bank)
  }

  method LoadPublicBanks(exclusion: Exclusion, banks: seq<Bank>) returns (r: Result<Added>)
    requires exclusion.Valid()
    modifies exclusion
    ensures exclusion.Valid()
    ensures r.Ok? <==> AllWellFormed(banks)
    ensures r.Ok? ==> exclusion.prior == old(exclusion.prior) + AllPriors(banks)
    ensures r.Ok? ==> |exclusion.byFamily| == |old(exclusion.byFamily)| + r.value.families
    ensures r.Ok? ==> |exclusion.byUrl| == |old(exclusion.byUrl)| + r.value.urls
  {
    var total := Added(0, 0);
    for n := 0 to |banks|
      invariant exclusion.Valid()
      invariant AllWellFormed(banks[..n])
      invariant exclusion.prior == old(exclusion.prior) + AllPriors(banks[..n])
      invariant |exclusion.byFamily| == |old(exclusion.byFamily)| + total.families
      invariant |exclusion.byUrl| == |old(exclusion.byUrl)| + total.urls
    {
      BanksStep(banks, n, old(exclusion.prior));
      var added := exclusion.LoadBank(banks[n]);
      if added.Err? {
        return added;
      }
      total := Added(total.families + added.value.families, total.urls + added.value.urls);
    }
    assert banks[..|banks|] == banks;
    return Ok(total);
  }

  /** A stage bank that looks private or does not exist is refused, never skipped. */
  method LoadStageBanks(exclusion: Exclusion, stages: seq<StageBank>) returns (r: Result<Added>)
    requires exclusion.Valid()
    modifies exclusion
    ensures exclusion.Valid()
    ensures r.Ok? <==> AllStageable(stages)
    ensures r.Ok? ==> exclusion.prior == old(exclusion.prior) + StagePriors(stages)
    ensures r.Ok? ==> |exclusion.byFamily| == |old(exclusion.byFamily)| + r.value.families
    ensures r.Ok? ==> |exclusion.byUrl| == |old(exclusion.byUrl)| + r.value.urls
  {
    var total := Added(0, 0);
    for n := 0 to |stages|
      invariant exclusion.Valid()
      invariant AllStageable(stages[..n])
      invariant exclusion.prior == old(exclusion.prior) + StagePriors(stages[..n])
      invariant |exclusion.byFamily| == |old(exclusion.byFamily)| + total.families
      invariant |exclusion.byUrl| == |old(exclusion.byUrl)| + total.urls
    {
      var stage := stages[n];
      StagesStep(stages, n, old(exclusion.prior));
      if stage.privateLooking {
        return Err("private_exclusion_rejected");
      }
      if stage.bank.Missing? {
        return Err("missing_stage_bank");
      }
      var added := exclusion.LoadBank(stage.bank);
      if added.Err? {
        return added;
      }
      total := Added(total.families + added.value.families, total.urls + added.value.urls);
    }
    assert stages[..|stages|] == stages;
    return Ok(total);
  }

  lemma NothingBefore(priors: seq<Prior>)
    ensures [] + priors == priors
  {
  }

  /** The counts reported for the two kinds of bank add up to the sizes of the two sets. */
  method LoadPublicExclusion(banks: seq<Bank>, stages: seq<StageBank>)
    returns (exclusion: Exclusion, r: Result<(Added, Added)>)
    ensures fresh(exclusion) && exclusion.Valid()
    ensures r.Ok? <==> AllWellFormed(banks) && AllStageable(stages)
    ensures r.Ok? ==> exclusion.prior == AllPriors(banks) + StagePriors(stages)
    ensures r.Ok? ==> r.value.0.families + r.value.1.families == |exclusion.byFamily|
    ensures r.Ok? ==> r.value.0.urls + r.value.1.urls == |exclusion.byUrl|
  {
    exclusion := new Exclusion();
    var public := LoadPublicBanks(exclusion, banks);
    if public.Err? {
      return exclusion, Err(public.error);
    }
    NothingBefore(AllPriors(banks));
    var staged := LoadStageBanks(exclusion, stages);
    if staged.Err? {
      return exclusion, Err(staged.error);
    }
    return exclusion, Ok((public.value, staged.value));
  }

  /**
   The lookup excludes a URL exactly when some loaded row is the same product under the pairwise test,
   or collides with it. Only an opaque URL and a page collide: a bank with an opaque row shuts out the
   pages that row spells, and a bank of pages shuts out the opaque URLs that spell one of them.
   */
  lemma ExcludedExactly(url: Option<Url>, prior: seq<Prior>)
    requires url.Some? ==> Standard(url.value)
    requires forall p :: p in prior ==> Standard(p.url)
    ensures IsExcluded(url, Keys(prior)) <==>
            exists p :: p in prior && url.Some? && (SameProduct(url, Some(p.url)) || Collides(url.value, p.url))
  {
    SetsMean(prior);
    if url.Some? {
      forall p | p in prior
        ensures Key(url.value) == Key(p.url) <==> SameProduct(url, Some(p.url)) || Collides(url.value, p.url)
      {
        KeyExactly(url.value, p.url);
      }
    }
  }

  /** Among pages the lookup is exactly the pairwise test. */
  lemma ExcludedPagesExactly(url: Option<Url>, prior: seq<Prior>)
    requires url.Some? ==> Hierarchical(url.value)
    requires forall p :: p in prior ==> Hierarchical(p.url)
    ensures IsExcluded(url, Keys(prior)) <==> exists p :: p in prior && SameProduct(url, Some(p.url))
  {
    SetsMean(prior);
    if url.Some? {
      forall p | p in prior ensures Key(url.value) == Key(p.url) <==> SameProduct(url, Some(p.url)) {
        KeyIsIdentity(url.value, p.url);
      }
    }
  }

  // ---------------------------------------------------------------- what a sealed row shuts out

  /** A bank is loaded exactly when it is absent or all its rows name a family and a URL that parses. */
  lemma BankExactly(bank: Bank)
    ensures WellFormedBank(bank) <==>
            || bank == Missing
            || (&& bank.Rows?
                && forall i :: 0 <= i < |bank.rows| ==>
                     && bank.rows[i].familyId.Some? && bank.rows[i].familyId != Some("")
                     && bank.rows[i].canonicalUrl.Text? && bank.rows[i].canonicalUrl.parsed.Some?)
  {
  }

  /** A stage bank must not look private and must exist. */
  lemma StageExactly(stage: StageBank)
    ensures Stageable(stage) <==> !stage.privateLooking && stage.bank != Missing && WellFormedBank(stage.bank)
  {
  }

  ghost predicate Holds(bank: Bank, family: string, url: Url) {
    bank.Rows? && BankRow(Some(family), Text(Some(url))) in bank.rows
  }

  lemma HeldIsPrior(bank: Bank, family: string, url: Url)
    requires Holds(bank, family, url)
    ensures Prior(family, url) in PriorsOf(bank)
  {
    var i :| 0 <= i < |bank.rows| && bank.rows[i] == BankRow(Some(family), Text(Some(url)));
    assert PriorsOf(bank)[i] == Prior(family, url);
  }

  lemma {:induction false} BanksKeep(banks: seq<Bank>, bank: Bank, p: Prior)
    requires bank in banks && p in PriorsOf(bank)
    ensures p in AllPriors(banks)
  {
    var n := |banks| - 1;
    if bank != banks[n] {
      BanksKeep(banks[..n], bank, p);
    }
  }

  lemma {:induction false} StagesKeep(stages: seq<StageBank>, stage: StageBank, p: Prior)
    requires stage in stages && p in PriorsOf(stage.bank)
    ensures p in StagePriors(stages)
  {
    var n := |stages| - 1;
    if stage != stages[n] {
      StagesKeep(stages[..n], stage, p);
    }
  }

  /**
   A row of any loaded bank shuts out its family and every spelling of its page: apex or `www.`, any
   letter case of the host, with or without a last slash.
   */
  lemma SealedRowExcludes(banks: seq<Bank>, stages: seq<StageBank>, family: string, sealed: Url, url: Url,
                          host: string, path: string)
    requires (exists b :: b in banks && Holds(b, family, sealed))
             || (exists s :: s in stages && Holds(s.bank, family, sealed))
    requires !("www." <= Lower(host)) && (path == "" || path[|path| - 1] != '/')
    requires Spelling(sealed, host, path) && Spelling(url, host, path)
    ensures IsExcluded(Some(url), Keys(AllPriors(banks) + StagePriors(stages)))
    ensures family in Families(AllPriors(banks) + StagePriors(stages))
  {
    var p := Prior(family, sealed);
    if b :| b in banks && Holds(b, family, sealed) {
      HeldIsPrior(b, family, sealed);
      BanksKeep(banks, b, p);
    } else {
      var s :| s in stages && Holds(s.bank, family, sealed);
      HeldIsPrior(s.bank, family, sealed);
      StagesKeep(stages, s, p);
    }
    var priors := AllPriors(banks) + StagePriors(stages);
    assert p in priors;
    SetsMean(priors);
    SpellingsAgree(sealed, url, host, path);
  }

  /** Every prior of the public banks is a row of one of them. */
  lemma {:induction false} PriorsAreRows(banks: seq<Bank>, p: Prior)
    requires AllWellFormed(banks) && p in AllPriors(banks)
    ensures exists b :: b in banks && Holds(b, p.familyId, p.url)
  {
    var n := |banks| - 1;
    if p in PriorsOf(banks[n]) {
      assert banks[n] in banks;
      var i :| 0 <= i < |banks[n].rows| && ToPrior(banks[n].rows[i]) == p;
      assert WellFormedRow(banks[n].rows[i]);
      assert Holds(banks[n], p.familyId, p.url);
    } else {
      assert AllWellFormed(banks[..n]);
      PriorsAreRows(banks[..n], p);
    }
  }

  /** And every prior of the stage banks a row of one of those. */
  lemma {:induction false} StagePriorsAreRows(stages: seq<StageBank>, p: Prior)
    requires AllStageable(stages) && p in StagePriors(stages)
    ensures exists s :: s in stages && Holds(s.bank, p.familyId, p.url)
  {
    var n := |stages| - 1;
    assert stages[n] in stages && Stageable(stages[n]);
    if p in PriorsOf(stages[n].bank) {
      var i :| 0 <= i < |stages[n].bank.rows| && ToPrior(stages[n].bank.rows[i]) == p;
      assert WellFormedRow(stages[n].bank.rows[i]);
      assert Holds(stages[n].bank, p.familyId, p.url);
    } else {
      StagePriorsAreRows(stages[..n], p);
    }
  }
}
