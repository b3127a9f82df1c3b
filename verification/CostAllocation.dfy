/**
 `allocateSharedCost`, which splits one charge in integer micros, and the loop of
 `projectComparisonRows` that accumulates the shares per beneficiary.
 */
module CostAllocation {
  import opened Common
  import opened IdOrder
  import opened Sums
  import opened CostReconciliation

  const MAX_SAFE_INTEGER := 9007199254740991

  datatype Share = Share(item: string, amount: int)

  predicate InRange(amount: int) {
    0 <= amount <= MAX_SAFE_INTEGER
  }

  function AmountOf(share: Share): int {
    share.amount
  }

  /** The first `remainder` identifiers receive one micro more than the others. */
  function Shares(ids: seq<string>, base: int, remainder: int): (r: seq<Share>)
    ensures |r| == |ids|
    ensures forall i :: 0 <= i < |ids| ==> r[i] == Share(ids[i], base + (if i < remainder then 1 else 0))
  {
    seq(|ids|, i requires 0 <= i < |ids| => Share(ids[i], base + (if i < remainder then 1 else 0)))
  }

  function Allocate(amount: int, ids: seq<string>): Result<seq<Share>> {
    if !InRange(amount) then Err("Cost must be non-negative integer micros")
    else
      var sorted := SortedIds(SetOf(ids));
      Ok(if sorted == [] then [] else Shares(sorted, amount / |sorted|, amount % |sorted|))
  }

  // ---------------------------------------------------------------- one charge

  lemma {:induction false} SharesSum(ids: seq<string>, base: int, remainder: nat)
    ensures SumBy(Shares(ids, base, remainder), AmountOf)
         == |ids| * base + (if |ids| < remainder then |ids| else remainder)
  {
    if ids != [] {
      var n := |ids| - 1;
      var last := Share(ids[n], base + (if n < remainder then 1 else 0));
      SharesSum(ids[..n], base, remainder);
      assert Shares(ids, base, remainder) == Shares(ids[..n], base, remainder) + [last];
      SumByAppend(Shares(ids[..n], base, remainder), [last], AmountOf);
      assert SumBy([last], AmountOf) == last.amount + SumBy([last][1..], AmountOf);
      assert |ids| * base == n * base + base;
    }
  }

  lemma DivideExactly(amount: nat, n: nat)
    requires n > 0
    ensures 0 <= amount / n && 0 <= amount % n < n && n * (amount / n) + amount % n == amount
  {
  }

  lemma SortedIsEmpty(ids: seq<string>)
    ensures SortedIds(SetOf(ids)) == [] <==> ids == []
  {
    if ids != [] {
      assert ids[0] in SetOf(ids);
      assert ids[0] in SortedIds(SetOf(ids));
    }
  }

  /**
   The items of the shares are the distinct beneficiaries, in increasing order: the one increasing list
   of these ids, whichever way it is sorted.
   */
  lemma AllocateItems(amount: int, ids: seq<string>)
    requires InRange(amount)
    ensures var shares := Allocate(amount, ids).value;
            && MapSeq(shares, (s: Share) => s.item) == SortedIds(SetOf(ids))
            && |shares| == |SetOf(ids)|
            && forall p :: Increasing(p) && (forall x :: x in p <==> x in ids) ==>
                 MapSeq(shares, (s: Share) => s.item) == p
  {
    forall p | Increasing(p) && (forall x :: x in p <==> x in ids) ensures SortedIds(SetOf(ids)) == p {
      IncreasingUnique(SortedIds(SetOf(ids)), p);
    }
  }

  /**
   A charge in range is split completely: the shares add up to it, and of any two the one of the
   earlier beneficiary is larger by at most one. A charge out of range is refused whoever it is for.
   */
  lemma AllocateExact(amount: int, ids: seq<string>)
    ensures Allocate(amount, ids).Ok? <==> 0 <= amount <= 9007199254740991
    ensures InRange(amount) ==>
              var shares := Allocate(amount, ids).value;
              && (forall i, j :: 0 <= i < j < |shares| ==>
                    0 <= shares[j].amount <= shares[i].amount <= shares[j].amount + 1)
              && (forall i :: 0 <= i < |shares| ==> 0 <= shares[i].amount)
              && SumBy(shares, AmountOf) == (if ids == [] then 0 else amount)
  {
    SortedIsEmpty(ids);
    if InRange(amount) && ids != [] {
      SharesExact(amount, SortedIds(SetOf(ids)));
    }
  }

  lemma SharesExact(amount: nat, sorted: seq<string>)
    requires sorted != []
    ensures var shares := Shares(sorted, amount / |sorted|, amount % |sorted|);
            && (forall i, j :: 0 <= i < j < |shares| ==>
                  0 <= shares[j].amount <= shares[i].amount <= shares[j].amount + 1)
            && (forall i :: 0 <= i < |shares| ==> 0 <= shares[i].amount)
            && SumBy(shares, AmountOf) == amount
  {
    DivideExactly(amount, |sorted|);
    SharesSum(sorted, amount / |sorted|, amount % |sorted|);
  }

  /** Neither the order nor the repetitions of the beneficiary list matter. */
  lemma AllocateIgnoresOrder(amount: int, ids: seq<string>, others: seq<string>)
    requires forall x :: x in ids <==> x in others
    ensures Allocate(amount, ids) == Allocate(amount, others)
  {
    assert SetOf(ids) == SetOf(others);
  }

  // ---------------------------------------------------------------- the accumulation loop

  /** What one charge gives to one beneficiary; zero when the charge is not for it or not known. */
  ghost function Gives(charge: Charge, item: string): int {
    if charge.amount.Some? && InRange(charge.amount.value) then
      AmountTo(Allocate(charge.amount.value, charge.beneficiaries).value, item)
    else 0
  }

  function AmountTo(shares: seq<Share>, item: string): int {
    if shares == [] then 0
    else (if shares[0].item == item then shares[0].amount else 0) + AmountTo(shares[1..], item)
  }

  ghost function GivesTo(item: string): Charge -> int {
    (c: Charge) => Gives(c, item)
  }

  /** Some charge of unknown amount names the item. */
  ghost predicate UnknownFor(charges: seq<Charge>, item: string) {
    exists i :: 0 <= i < |charges| && charges[i].amount.None? && item in charges[i].beneficiaries
  }

  ghost predicate Named(charges: seq<Charge>, item: string) {
    exists i :: 0 <= i < |charges| && item in charges[i].beneficiaries
  }

  /** What the item is owed: unknown as soon as one of its charges is, else the sum of its shares. */
  ghost function Owed(charges: seq<Charge>, item: string): Option<int> {
    if UnknownFor(charges, item) then None else Some(SumBy(charges, GivesTo(item)))
  }

  /** `accounts` has an entry for every item some charge names, and no other. */
  ghost predicate AllocationExact(charges: seq<Charge>, accounts: map<string, Option<int>>) {
    && (forall x :: x in accounts <==> Named(charges, x))
    && (forall x :: x in accounts ==> accounts[x] == Owed(charges, x))
  }

  ghost predicate AllInRange(charges: seq<Charge>) {
    forall i :: 0 <= i < |charges| && charges[i].amount.Some? ==> InRange(charges[i].amount.value)
  }

  /** The entries after the shares: a null one absorbs whatever is added to it. */
  ghost predicate Added(accounts: map<string, Option<int>>, shares: seq<Share>, r: map<string, Option<int>>) {
    forall x :: AddedAt(accounts, shares, r, x)
  }

  ghost predicate AddedAt(accounts: map<string, Option<int>>, shares: seq<Share>, r: map<string, Option<int>>,
                          x: string) {
    && (x in r <==> x in accounts || Names(shares, x))
    && (x in r ==>
          r[x] == if x !in accounts then Some(AmountTo(shares, x))
                  else if accounts[x].None? then None else Some(accounts[x].value + AmountTo(shares, x)))
  }

  ghost predicate Names(shares: seq<Share>, x: string) {
    exists i :: 0 <= i < |shares| && shares[i].item == x
  }

  /** The inner loop over the shares of a known charge: a null entry absorbs whatever is added. */
  method AddShares(accounts: map<string, Option<int>>, shares: seq<Share>) returns (r: map<string, Option<int>>)
    ensures Added(accounts, shares, r)
  {
    r := accounts;
    assert shares[..0] == [];
    for n := 0 to |shares|
      invariant forall x :: x in r <==> x in accounts || exists i :: 0 <= i < n && shares[i].item == x
      invariant forall x :: x in r ==>
                  r[x] == if x !in accounts then Some(AmountTo(shares[..n], x))
                          else if accounts[x].None? then None
                          else Some(accounts[x].value + AmountTo(shares[..n], x))
    {
      var item := shares[n].item;
      assert shares[..n + 1] == shares[..n] + [shares[n]];
      forall x ensures AmountTo(shares[..n + 1], x) ==
                       AmountTo(shares[..n], x) + (if item == x then shares[n].amount else 0) {
        AmountToAppend(shares[..n], shares[n], x);
      }
      if item !in r {
        NotGiven(shares[..n], item);
      }
      var previous := if item in r then r[item] else Some(0);
      r := r[item := if previous.None? then None else Some(previous.value + shares[n].amount)];
    }
    assert shares[..|shares|] == shares;
  }

  lemma {:induction false} AmountToAppend(shares: seq<Share>, share: Share, item: string)
    ensures AmountTo(shares + [share], item) ==
            AmountTo(shares, item) + (if share.item == item then share.amount else 0)
  {
    if shares == [] {
      assert shares + [share] == [share];
    } else {
      assert (shares + [share])[1..] == shares[1..] + [share];
      AmountToAppend(shares[1..], share, item);
    }
  }

  lemma {:induction false} NotGiven(shares: seq<Share>, item: string)
    requires forall i :: 0 <= i < |shares| ==> shares[i].item != item
    ensures AmountTo(shares, item) == 0
  {
    if shares != [] {
      NotGiven(shares[1..], item);
    }
  }

  /** The inner loop over the beneficiaries of a charge of unknown amount. */
  method AbsorbUnknown(accounts: map<string, Option<int>>, ids: seq<string>) returns (r: map<string, Option<int>>)
    ensures forall x :: x in r <==> x in accounts || x in ids
    ensures forall x :: x in r ==> r[x] == if x in ids then None else accounts[x]
  {
    r := accounts;
    for k := 0 to |ids|
      invariant forall x :: x in r <==> x in accounts || x in ids[..k]
      invariant forall x :: x in r ==> r[x] == if x in ids[..k] then None else accounts[x]
    {
      r := r[ids[k] := None];
    }
    assert ids[..|ids|] == ids;
  }

  /** The entry of one item after the loop has taken `charges`: absent, unknown or a sum of gifts. */
  ghost function Account(charges: seq<Charge>, item: string, gift: Charge -> int): Option<Option<int>> {
    if charges == [] then None
    else
      var n := |charges| - 1;
      AfterCharge(Account(charges[..n], item, gift), charges[n], item, gift(charges[n]))
  }

  ghost function AfterCharge(entry: Option<Option<int>>, charge: Charge, item: string, gift: int): Option<Option<int>> {
    if item !in charge.beneficiaries then entry
    else if charge.amount.None? || entry == Some(None) then Some(None)
    else Some(Some((if entry.Some? then entry.value.value else 0) + gift))
  }

  function Lookup(accounts: map<string, Option<int>>, item: string): Option<Option<int>> {
    if item in accounts then Some(accounts[item]) else None
  }

  lemma AddedFor(accounts: map<string, Option<int>>, charge: Charge, shares: seq<Share>,
                 after: map<string, Option<int>>, x: string, gift: int)
    requires charge.amount.Some? && AddedAt(accounts, shares, after, x) && AmountTo(shares, x) == gift
    requires x in charge.beneficiaries <==> Names(shares, x)
    requires x !in charge.beneficiaries ==> gift == 0
    ensures Lookup(after, x) == AfterCharge(Lookup(accounts, x), charge, x, gift)
  {
  }

  lemma AddedAsCharged(accounts: map<string, Option<int>>, charge: Charge, shares: seq<Share>,
                       after: map<string, Option<int>>)
    requires charge.amount.Some? && Allocate(charge.amount.value, charge.beneficiaries) == Ok(shares)
    requires Added(accounts, shares, after)
    ensures forall x :: Lookup(after, x) == AfterCharge(Lookup(accounts, x), charge, x, Gives(charge, x))
  {
    GivesShares(charge, shares);
    forall x ensures Lookup(after, x) == AfterCharge(Lookup(accounts, x), charge, x, Gives(charge, x)) {
      if x !in charge.beneficiaries {
        OutsiderGetsNothing(charge, x);
      }
      AddedFor(accounts, charge, shares, after, x, Gives(charge, x));
    }
  }

  /** The body of the loop. */
  method TakeCharge(accounts: map<string, Option<int>>, charge: Charge) returns (r: Result<map<string, Option<int>>>)
    ensures r.Ok? <==> charge.amount.Some? ==> InRange(charge.amount.value)
    ensures r.Ok? ==> forall x :: Lookup(r.value, x) == AfterCharge(Lookup(accounts, x), charge, x, Gives(charge, x))
  {
    if charge.amount.None? {
      var after := AbsorbUnknown(accounts, charge.beneficiaries);
      return Ok(after);
    }
    var shares := Allocate(charge.amount.value, charge.beneficiaries);
    if shares.Err? {
      return Err(shares.error);
    }
    var after := AddShares(accounts, shares.value);
    AddedAsCharged(accounts, charge, shares.value, after);
    return Ok(after);
  }

  /** The whole loop; a known charge out of range throws, and nothing else does. */
  method Accumulate(charges: seq<Charge>) returns (r: Result<map<string, Option<int>>>)
    ensures r.Ok? <==> AllInRange(charges)
    ensures r.Ok? ==> AllocationExact(charges, r.value)
  {
    var accounts: map<string, Option<int>> := map[];
    assert charges[..0] == [];
    for n := 0 to |charges|
      invariant AllInRange(charges[..n])
      invariant forall x :: Lookup(accounts, x) == Account(charges[..n], x, GivesTo(x))
    {
      assert charges[..n + 1] == charges[..n] + [charges[n]];
      var after := TakeCharge(accounts, charges[n]);
      if after.Err? {
        return after;
      }
      accounts := after.value;
    }
    assert charges[..|charges|] == charges;
    AccountsExact(charges, accounts);
    return Ok(accounts);
  }

  /** A gift goes only to a named beneficiary. */
  ghost predicate OnlyToNamed(item: string, gift: Charge -> int) {
    forall c: Charge :: item !in c.beneficiaries ==> gift(c) == 0
  }

  lemma {:induction false} AccountMeans(charges: seq<Charge>, item: string, gift: Charge -> int)
    requires OnlyToNamed(item, gift)
    ensures Account(charges, item, gift) ==
            if !Named(charges, item) then None
            else if UnknownFor(charges, item) then Some(None)
            else Some(Some(SumBy(charges, gift)))
    ensures !Named(charges, item) ==> SumBy(charges, gift) == 0
  {
    if charges != [] {
      var n := |charges| - 1;
      AccountMeans(charges[..n], item, gift);
      assert charges == charges[..n] + [charges[n]];
      NamedExtend(charges[..n], charges[n], item, gift);
    }
  }

  lemma AccountsExact(charges: seq<Charge>, accounts: map<string, Option<int>>)
    requires forall x :: Lookup(accounts, x) == Account(charges, x, GivesTo(x))
    ensures AllocationExact(charges, accounts)
  {
    forall x ensures x in accounts <==> Named(charges, x) {
      GivesOnlyToNamed(x);
      AccountMeans(charges, x, GivesTo(x));
      assert Lookup(accounts, x) == Account(charges, x, GivesTo(x));
    }
    forall x | x in accounts ensures accounts[x] == Owed(charges, x) {
      GivesOnlyToNamed(x);
      AccountMeans(charges, x, GivesTo(x));
      assert Lookup(accounts, x) == Account(charges, x, GivesTo(x));
    }
  }

  lemma NamedExtend(charges: seq<Charge>, charge: Charge, item: string, gift: Charge -> int)
    ensures Named(charges + [charge], item) <==> Named(charges, item) || item in charge.beneficiaries
    ensures UnknownFor(charges + [charge], item) <==>
            UnknownFor(charges, item) || (charge.amount.None? && item in charge.beneficiaries)
    ensures SumBy(charges + [charge], gift) == SumBy(charges, gift) + gift(charge)
  {
    var more := charges + [charge];
    assert forall i :: 0 <= i < |charges| ==> more[i] == charges[i];
    assert more[|charges|] == charge;
    SumByAppend(charges, [charge], gift);
    assert SumBy([charge], gift) == gift(charge) + SumBy([charge][1..], gift);
  }

  lemma GivesOnlyToNamed(item: string)
    ensures OnlyToNamed(item, GivesTo(item))
  {
    forall c: Charge | item !in c.beneficiaries ensures GivesTo(item)(c) == 0 {
      OutsiderGetsNothing(c, item);
    }
  }

  lemma OutsiderGetsNothing(charge: Charge, item: string)
    requires item !in charge.beneficiaries
    ensures Gives(charge, item) == 0
  {
    if charge.amount.Some? && InRange(charge.amount.value) {
      var shares := Allocate(charge.amount.value, charge.beneficiaries).value;
      AllocateItems(charge.amount.value, charge.beneficiaries);
      forall i | 0 <= i < |shares| ensures shares[i].item != item {
        assert MapSeq(shares, (s: Share) => s.item)[i] in SortedIds(SetOf(charge.beneficiaries));
      }
      NotGiven(shares, item);
    }
  }

  lemma GivesShares(charge: Charge, shares: seq<Share>)
    requires charge.amount.Some? && Allocate(charge.amount.value, charge.beneficiaries) == Ok(shares)
    ensures forall x :: AmountTo(shares, x) == Gives(charge, x)
    ensures forall x :: x in charge.beneficiaries <==> exists i :: 0 <= i < |shares| && shares[i].item == x
  {
    ShareItems(charge.amount.value, charge.beneficiaries);
  }

  lemma ShareItems(amount: int, ids: seq<string>)
    requires InRange(amount)
    ensures var shares := Allocate(amount, ids).value;
            forall x :: x in ids <==> exists i :: 0 <= i < |shares| && shares[i].item == x
  {
    var shares := Allocate(amount, ids).value;
    var items := MapSeq(shares, (s: Share) => s.item);
    AllocateItems(amount, ids);
    forall x ensures x in ids <==> exists i :: 0 <= i < |shares| && shares[i].item == x {
      assert x in ids <==> x in items;
      if x in items {
        var i :| 0 <= i < |items| && items[i] == x;
        assert shares[i].item == x;
      }
      if i :| 0 <= i < |shares| && shares[i].item == x {
        assert items[i] == x;
      }
    }
  }

  // ---------------------------------------------------------------- conservation

  ghost function AmountsIn(shares: seq<Share>): string -> int {
    x => AmountTo(shares, x)
  }

  ghost function GiftsOf(charge: Charge): string -> int {
    x => Gives(charge, x)
  }

  ghost function GiftsOfAll(charges: seq<Charge>): string -> int {
    x => SumBy(charges, GivesTo(x))
  }

  lemma {:induction false} AmountToSum(shares: seq<Share>, keys: set<string>)
    requires forall s :: s in shares ==> s.item in keys
    ensures SumOver(keys, AmountsIn(shares)) == SumBy(shares, AmountOf)
  {
    if shares == [] {
      SumOverZero(keys, AmountsIn(shares));
    } else {
      AmountToSum(shares[1..], keys);
      SumOverChange(keys, shares[0].item, AmountsIn(shares[1..]), AmountsIn(shares));
    }
  }

  /** What a charge hands out in all: its amount, unless nobody is named. */
  function HandedOut(charge: Charge): int {
    if charge.beneficiaries == [] then 0 else charge.amount.GetOr(0)
  }

  /** Known amounts are in range. */
  ghost predicate Payable(charge: Charge) {
    charge.amount.Some? ==> InRange(charge.amount.value)
  }

  lemma GivesSum(charge: Charge, keys: set<string>)
    requires Payable(charge) && SetOf(charge.beneficiaries) <= keys
    ensures SumOver(keys, GiftsOf(charge)) == HandedOut(charge)
  {
    if charge.amount.None? {
      SumOverZero(keys, GiftsOf(charge));
    } else {
      KnownGivesSum(charge, keys);
    }
  }

  lemma KnownGivesSum(charge: Charge, keys: set<string>)
    requires charge.amount.Some? && Payable(charge) && SetOf(charge.beneficiaries) <= keys
    ensures SumOver(keys, GiftsOf(charge)) == HandedOut(charge)
  {
    var shares := Allocate(charge.amount.value, charge.beneficiaries).value;
    AllocateExact(charge.amount.value, charge.beneficiaries);
    GivesShares(charge, shares);
    forall s | s in shares ensures s.item in keys {
      assert s.item in SetOf(charge.beneficiaries);
    }
    AmountToSum(shares, keys);
    SumOverEqual(keys, GiftsOf(charge), AmountsIn(shares));
  }

  lemma {:induction false} SharesConserve(charges: seq<Charge>, keys: set<string>)
    requires forall c :: c in charges ==> Payable(c) && SetOf(c.beneficiaries) <= keys
    ensures SumOver(keys, GiftsOfAll(charges)) == SumBy(charges, HandedOut)
  {
    if charges == [] {
      SumOverZero(keys, GiftsOfAll(charges));
    } else {
      assert charges[0] in charges;
      GivesSum(charges[0], keys);
      SharesConserve(charges[1..], keys);
      SumOverAdd(keys, GiftsOf(charges[0]), GiftsOfAll(charges[1..]), GiftsOfAll(charges));
    }
  }

  /** The value of an entry, zero when it is unknown. */
  ghost function EntryOf(accounts: map<string, Option<int>>): string -> int {
    x => if x in accounts then Worth(accounts[x]) else 0
  }

  /** The shares of known charges that an unknown entry absorbs. */
  ghost function Swallowed(charges: seq<Charge>): string -> int {
    x => if UnknownFor(charges, x) then SumBy(charges, GivesTo(x)) else 0
  }

  lemma AllNamed(charges: seq<Charge>, accounts: map<string, Option<int>>)
    requires AllInRange(charges) && AllocationExact(charges, accounts)
    ensures forall c :: c in charges ==> Payable(c) && SetOf(c.beneficiaries) <= accounts.Keys
  {
    forall c | c in charges ensures Payable(c) && SetOf(c.beneficiaries) <= accounts.Keys {
      var i :| 0 <= i < |charges| && charges[i] == c;
      forall x | x in c.beneficiaries ensures x in accounts {
        assert Named(charges, x);
      }
    }
  }

  /**
   Nothing is lost or invented, unknown amounts or not: the known entries and what the unknown ones
   absorb add up to exactly the known charges that name a beneficiary.
   */
  lemma {:induction false} AllocationBalances(charges: seq<Charge>, accounts: map<string, Option<int>>)
    requires AllInRange(charges) && AllocationExact(charges, accounts)
    ensures SumOver(accounts.Keys, EntryOf(accounts)) + SumOver(accounts.Keys, Swallowed(charges)) ==
            SumBy(charges, HandedOut)
    ensures SumOver(accounts.Keys, EntryOf(accounts)) <= SumBy(charges, HandedOut)
  {
    var keys := accounts.Keys;
    AllNamed(charges, accounts);
    SharesConserve(charges, keys);
    forall x | x in keys ensures EntryOf(accounts)(x) + Swallowed(charges)(x) == GiftsOfAll(charges)(x) {
      assert accounts[x] == Owed(charges, x);
    }
    SumOverAdd(keys, EntryOf(accounts), Swallowed(charges), GiftsOfAll(charges));
    forall x | x in keys ensures 0 <= Swallowed(charges)(x) {
      OwedNonNegative(charges, x);
    }
    SumOverMonotone({}, keys, Swallowed(charges), Swallowed(charges));
    SumOverZero({}, Swallowed(charges));
  }

  /** When every amount is known, the entries alone add up to the charges that name a beneficiary. */
  lemma {:induction false} AllocationConserves(charges: seq<Charge>, accounts: map<string, Option<int>>)
    requires AllInRange(charges) && AllocationExact(charges, accounts)
    requires forall i :: 0 <= i < |charges| ==> charges[i].amount.Some?
    ensures forall x :: x in accounts ==> accounts[x].Some?
    ensures SumOver(accounts.Keys, EntryOf(accounts)) == SumBy(charges, HandedOut)
  {
    AllocationBalances(charges, accounts);
    assert forall x :: !UnknownFor(charges, x);
    SumOverZero(accounts.Keys, Swallowed(charges));
  }

  lemma {:induction false} AttributedTotal(charges: seq<Charge>)
    ensures SumBy(charges, HandedOut) == SumBy(Amounts(charges, ATTRIBUTED), Worth)
  {
    if charges != [] {
      AttributedTotal(charges[1..]);
      if |charges[0].beneficiaries| > 0 {
        assert Amounts(charges, ATTRIBUTED)[1..] == Amounts(charges[1..], ATTRIBUTED);
      } else {
        assert Amounts(charges, ATTRIBUTED) == Amounts(charges[1..], ATTRIBUTED);
      }
    }
  }

  /**
   From the raw effects to the per-beneficiary map: if the reconciliation is accepted and every
   amount is known, the entries add up to its attributed total.
   */
  lemma EndToEndConservation(effects: seq<Effect>, accounts: map<string, Option<int>>)
    requires Consistent(effects) && forall i :: 0 <= i < |effects| ==> effects[i].charge.amount.Some?
    requires AllInRange(Charges(Rows(effects))) && AllocationExact(Charges(Rows(effects)), accounts)
    ensures SumOver(accounts.Keys, EntryOf(accounts)) == Worth(Summary(Rows(effects)).attributed)
  {
    var rows := Rows(effects);
    var charges := Charges(rows);
    forall k | 0 <= k < |charges| ensures charges[k].amount.Some? {
      RowAlias(effects, k);
    }
    AllocationConserves(charges, accounts);
    AttributedTotal(charges);
    AmountsKnown(charges, ATTRIBUTED);
  }

  lemma {:induction false} OwedNonNegative(charges: seq<Charge>, item: string)
    ensures 0 <= SumBy(charges, GivesTo(item))
    ensures 0 <= Worth(Owed(charges, item))
  {
    if charges != [] {
      OwedNonNegative(charges[1..], item);
      GiftNonNegative(charges[0], item);
    }
  }

  lemma GiftNonNegative(charge: Charge, item: string)
    ensures 0 <= Gives(charge, item)
  {
    if charge.amount.Some? && InRange(charge.amount.value) {
      AllocateExact(charge.amount.value, charge.beneficiaries);
      AmountToNonNegative(Allocate(charge.amount.value, charge.beneficiaries).value, item);
    }
  }

  lemma {:induction false} AmountToNonNegative(shares: seq<Share>, item: string)
    requires forall i :: 0 <= i < |shares| ==> 0 <= shares[i].amount
    ensures 0 <= AmountTo(shares, item)
  {
    if shares != [] {
      AmountToNonNegative(shares[1..], item);
    }
  }

  /** The result does not depend on the order in which the charges are taken. */
  lemma AllocationOrderIrrelevant(charges: seq<Charge>, others: seq<Charge>,
                                  a: map<string, Option<int>>, b: map<string, Option<int>>)
    requires multiset(charges) == multiset(others)
    requires AllocationExact(charges, a) && AllocationExact(others, b)
    ensures a == b
  {
    forall x ensures Named(charges, x) == Named(others, x) && UnknownFor(charges, x) == UnknownFor(others, x) {
      NamedPermutation(charges, others, x);
      NamedPermutation(others, charges, x);
    }
    forall x | x in a ensures x in b && a[x] == b[x] {
      SumByPermutation(charges, others, GivesTo(x));
    }
    forall x | x in b ensures x in a {}
  }

  /**
   From permuted raw effects to the same outcome: the same refusal, the same range error, and the same
   entry for every item.
   */
  lemma EffectsOrderIrrelevant(es: seq<Effect>, fs: seq<Effect>, a: map<string, Option<int>>,
                               b: map<string, Option<int>>)
    requires multiset(es) == multiset(fs)
    ensures Consistent(es) <==> Consistent(fs)
    ensures Consistent(es) ==> (AllInRange(Charges(Rows(es))) <==> AllInRange(Charges(Rows(fs))))
    ensures Consistent(es) && AllocationExact(Charges(Rows(es)), a) && AllocationExact(Charges(Rows(fs)), b) ==> a == b
  {
    OrderIrrelevant(es, fs);
    if Consistent(es) {
      RangePermutation(Charges(Rows(es)), Charges(Rows(fs)));
      RangePermutation(Charges(Rows(fs)), Charges(Rows(es)));
      if AllocationExact(Charges(Rows(es)), a) && AllocationExact(Charges(Rows(fs)), b) {
        AllocationOrderIrrelevant(Charges(Rows(es)), Charges(Rows(fs)), a, b);
      }
    }
  }

  lemma RangePermutation(charges: seq<Charge>, others: seq<Charge>)
    requires multiset(charges) == multiset(others)
    ensures AllInRange(charges) ==> AllInRange(others)
  {
    forall i | 0 <= i < |others| ensures others[i] in charges {
      assert others[i] in multiset(charges);
    }
  }

  lemma NamedPermutation(charges: seq<Charge>, others: seq<Charge>, item: string)
    requires multiset(charges) == multiset(others)
    ensures Named(charges, item) ==> Named(others, item)
    ensures UnknownFor(charges, item) ==> UnknownFor(others, item)
  {
    forall i | 0 <= i < |charges| ensures exists j :: 0 <= j < |others| && others[j] == charges[i] {
      assert charges[i] in multiset(others);
    }
  }

  // ---------------------------------------------------------------- one beneficiary's entry

  lemma {:induction false} AmountAt(shares: seq<Share>, k: nat)
    requires k < |shares| && forall i, j :: 0 <= i < j < |shares| ==> shares[i].item != shares[j].item
    ensures AmountTo(shares, shares[k].item) == shares[k].amount
  {
    if k == 0 {
      NotGiven(shares[1..], shares[0].item);
    } else {
      AmountAt(shares[1..], k - 1);
    }
  }

  /**
   What a charge gives to its `k`-th beneficiary in increasing order: the even share, and one micro more
   while the remainder lasts.
   */
  lemma GiftExactly(charge: Charge, p: seq<string>, k: nat)
    requires charge.amount.Some? && 0 <= charge.amount.value <= 9007199254740991
    requires Increasing(p) && (forall x :: x in p <==> x in charge.beneficiaries) && k < |p|
    ensures Gives(charge, p[k]) ==
            charge.amount.value / |p| + (if k < charge.amount.value % |p| then 1 else 0)
  {
    var shares := Allocate(charge.amount.value, charge.beneficiaries).value;
    IncreasingUnique(SortedIds(SetOf(charge.beneficiaries)), p);
    IncreasingDistinct(p);
    assert shares == Shares(p, charge.amount.value / |p|, charge.amount.value % |p|);
    AmountAt(shares, k);
  }

  /**
   The entries in an exact allocation: one for each item a charge names, null exactly when a charge of
   unknown amount names it; one more charge adds its gift to the sum behind the entry.
   */
  lemma EntriesExactly(charges: seq<Charge>, accounts: map<string, Option<int>>, x: string)
    requires AllocationExact(charges, accounts)
    ensures x in accounts <==> exists c :: c in charges && x in c.beneficiaries
    ensures x in accounts ==>
              accounts[x] == if exists c :: c in charges && c.amount == None && x in c.beneficiaries then None
                             else Some(SumBy(charges, GivesTo(x)))
  {
    if c :| c in charges && c.amount == None && x in c.beneficiaries {
      var i :| 0 <= i < |charges| && charges[i] == c;
      assert UnknownFor(charges, x);
    }
    if UnknownFor(charges, x) {
      var i :| 0 <= i < |charges| && charges[i].amount.None? && x in charges[i].beneficiaries;
      assert charges[i] in charges;
    }
    if c :| c in charges && x in c.beneficiaries {
      var i :| 0 <= i < |charges| && charges[i] == c;
      assert Named(charges, x);
    }
    if Named(charges, x) {
      var i :| 0 <= i < |charges| && x in charges[i].beneficiaries;
      assert charges[i] in charges;
    }
  }

  /** Accumulation goes through exactly when every known amount is a safe integer, and not negative. */
  lemma RangeExactly(charges: seq<Charge>)
    ensures AllInRange(charges) <==>
            forall c :: c in charges && c.amount.Some? ==> 0 <= c.amount.value <= 9007199254740991
  {
    if AllInRange(charges) {
      forall c | c in charges && c.amount.Some? ensures InRange(c.amount.value) {
        var i :| 0 <= i < |charges| && charges[i] == c;
      }
    } else {
      var i :| 0 <= i < |charges| && charges[i].amount.Some? && !InRange(charges[i].amount.value);
      assert charges[i] in charges;
    }
  }

  /** The sum behind an entry. */
  lemma GiftsSum(charges: seq<Charge>, charge: Charge, x: string)
    ensures SumBy([], GivesTo(x)) == 0
    ensures SumBy(charges + [charge], GivesTo(x)) == SumBy(charges, GivesTo(x)) + Gives(charge, x)
    ensures charge.amount == None || x !in charge.beneficiaries ==> Gives(charge, x) == 0
  {
    SumByAppend(charges, [charge], GivesTo(x));
    assert [charge][1..] == [];
    if x !in charge.beneficiaries {
      OutsiderGetsNothing(charge, x);
    }
  }
}
