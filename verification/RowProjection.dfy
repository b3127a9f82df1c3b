/**
 `projectComparisonRows`: one report row per input row, joined with the item of its UPC, given a
 disposition and charged with the item's cost.
 */
module RowProjection {
  import opened Common
  import opened Sums
  import opened CostReconciliation
  import opened CostAllocation

  datatype Mark = MarkedImported | MarkedInvalid | MarkedSkipped | MarkedDuplicate | MarkedMissing

  datatype Input = Input(
    rowId: Option<string>, upc: Option<string>, mark: Option<Mark>,
    sourceDisposition: Option<string>, primaryRowId: Option<string>)

  datatype Stop =
    | ReviewReady | NeedsInput | Denied | StopFailed | StopCancelled | DeadlineExceeded | NoProgress
    | SourceResolution | StopPending | Unavailable

  /**
   `stage` and `stageStatus` are the lower-cased values; `mentionsReview` is the outcome of the
   regular expression test on the error message.
   */
  datatype Item = Item(
    id: string, upc: string, stage: string, stageStatus: string, status: string,
    mentionsReview: bool, hasSourceUrl: bool, preparationStop: Option<Stop>, costMicros: Option<int>)

  datatype Source = Source(itemId: string, selected: bool)

  datatype Disposition =
    | Duplicate | MissingOutput | Blocked | Failed | PipelinePending
    | UnresolvedSource | Invalid | SkippedExisting | Other

  datatype Row = Row(
    itemId: Option<string>, disposition: Disposition, stop: Stop,
    primaryRowId: Option<string>, cost: Option<int>)

  datatype Report = Report(
    rows: seq<Row>, counts: map<Disposition, nat>,
    sourceRows: nat, importedRows: nat, duplicateRows: nat, missingRows: nat)

  const DISPOSITIONS := {Duplicate, MissingOutput, Blocked, Failed, PipelinePending,
                         UnresolvedSource, Invalid, SkippedExisting, Other}

  // ---------------------------------------------------------------- one row

  function Key(input: Input): string {
    input.upc.GetOr("")
  }

  function FirstItem(items: seq<Item>, upc: string): Option<Item> {
    if items == [] then None
    else if items[0].upc == upc then Some(items[0])
    else FirstItem(items[1..], upc)
  }

  function StopFor(item: Item, selected: bool, terminal: Option<Stop>): Stop {
    if item.preparationStop.Some? then item.preparationStop.value
    else if terminal.Some? && item.stageStatus in {"pending", "running"} then terminal.value
    else if item.status == "failed" || item.stageStatus == "failed" then StopFailed
    else if item.stageStatus == "cancelled" then StopCancelled
    else if item.stageStatus == "deadline_exceeded" then DeadlineExceeded
    else if item.stageStatus == "denied" || item.stageStatus == "blocked" then Denied
    else if item.stage in {"review_listings", "review"} && item.stageStatus == "pending" then ReviewReady
    else if item.status == "needs_review" || item.stageStatus == "needs_input" || item.mentionsReview then NeedsInput
    else if item.stageStatus == "completed" && item.stage in {"discovery", "find_product_page"} &&
            (!item.hasSourceUrl || !selected) then SourceResolution
    else if item.stageStatus != "completed" then StopPending
    else if item.status == "needs_input" then NeedsInput
    else if item.status == "review_ready" then ReviewReady
    else StopPending
  }

  function StopDisposition(stop: Stop): Disposition {
    match stop
    case StopFailed => Failed
    case Denied | NeedsInput | SourceResolution => Blocked
    case ReviewReady | StopPending => PipelinePending
    case _ => Blocked
  }

  predicate OtherSource(input: Input) {
    && input.sourceDisposition.Some? && input.sourceDisposition.value != ""
    && input.sourceDisposition.value !in {"imported", "duplicate", "missing_output", "invalid", "skipped_existing"}
  }

  /** The row is not excluded from claiming its UPC by its own mark. */
  predicate Eligible(input: Input) {
    input.mark != Some(MarkedInvalid) && input.mark != Some(MarkedSkipped)
  }

  predicate IsDuplicate(input: Input, seen: map<string, Option<string>>) {
    input.mark == Some(MarkedDuplicate) || Key(input) in seen
  }

  function SeenAfter(input: Input, seen: map<string, Option<string>>): map<string, Option<string>> {
    if !IsDuplicate(input, seen) && Eligible(input) then seen[Key(input) := input.rowId] else seen
  }

  function RowFor(input: Input, seen: map<string, Option<string>>, items: seq<Item>, sources: seq<Source>,
                  terminal: Option<Stop>, accounts: map<string, Option<int>>): Row
  {
    var duplicate := IsDuplicate(input, seen);
    var item := if duplicate then None else FirstItem(items, Key(input));
    var imported := Imported(input, duplicate, item);
    var stop := if imported then
                  StopFor(item.value, exists s :: s in sources && s.itemId == item.value.id && s.selected, terminal)
                else Unavailable;
    var disposition :=
      if input.mark == Some(MarkedInvalid) then Invalid
      else if input.mark == Some(MarkedSkipped) then SkippedExisting
      else if OtherSource(input) then Other
      else if duplicate then Duplicate
      else if !imported then MissingOutput
      else StopDisposition(stop);
    var after := SeenAfter(input, seen);
    Row(
      if item.Some? then Some(item.value.id) else None,
      disposition,
      stop,
      if !duplicate then None
      else if input.primaryRowId.Some? then input.primaryRowId
      else if Key(input) in after then after[Key(input)] else None,
      if item.None? then None
      else if item.value.costMicros.Some? then item.value.costMicros
      else if item.value.id in accounts then accounts[item.value.id] else None)
  }

  predicate Imported(input: Input, duplicate: bool, item: Option<Item>) {
    Eligible(input) && !OtherSource(input) && !duplicate && item.Some? && input.mark != Some(MarkedMissing)
  }

  // ---------------------------------------------------------------- all rows

  /** The UPCs claimed by a prefix of the input, each with the row id that claimed it. */
  ghost function Seen(inputs: seq<Input>): map<string, Option<string>> {
    if inputs == [] then map[]
    else SeenAfter(inputs[|inputs| - 1], Seen(inputs[..|inputs| - 1]))
  }

  ghost function Rows(inputs: seq<Input>, items: seq<Item>, sources: seq<Source>,
                      terminal: Option<Stop>, accounts: map<string, Option<int>>): (rows: seq<Row>)
    ensures |rows| == |inputs|
  {
    seq(|inputs|, i requires 0 <= i < |inputs| =>
      RowFor(inputs[i], Seen(inputs[..i]), items, sources, terminal, accounts))
  }

  function Count(rows: seq<Row>, d: Disposition): nat {
    if rows == [] then 0
    else Count(rows[..|rows| - 1], d) + (if rows[|rows| - 1].disposition == d then 1 else 0)
  }

  function CountImported(rows: seq<Row>): nat {
    Count(rows, Failed) + Count(rows, Blocked) + Count(rows, PipelinePending)
  }

  ghost predicate Tallied(counts: map<Disposition, nat>, rows: seq<Row>) {
    counts.Keys == DISPOSITIONS && forall d :: d in counts ==> counts[d] == Count(rows, d)
  }

  function Increment(counts: map<Disposition, nat>, d: Disposition): map<Disposition, nat>
    requires d in counts
  {
    counts[d := counts[d] + 1]
  }

  lemma TallyStep(counts: map<Disposition, nat>, rows: seq<Row>, row: Row)
    requires Tallied(counts, rows)
    ensures row.disposition in counts && Tallied(Increment(counts, row.disposition), rows + [row])
    ensures CountImported(rows + [row]) ==
            CountImported(rows) + (if row.disposition in {Failed, Blocked, PipelinePending} then 1 else 0)
  {
    assert (rows + [row])[..|rows|] == rows;
    EveryDisposition(row.disposition);
  }

  lemma EveryDisposition(d: Disposition)
    ensures d in DISPOSITIONS
  {
    match d {
      case Duplicate | MissingOutput | Blocked | Failed | PipelinePending
         | UnresolvedSource | Invalid | SkippedExisting | Other =>
    }
  }

  /** A row counts as imported exactly when its disposition is one an imported row can have. */
  lemma ImportedDisposition(input: Input, seen: map<string, Option<string>>, items: seq<Item>, sources: seq<Source>,
                            terminal: Option<Stop>, accounts: map<string, Option<int>>)
    ensures var row := RowFor(input, seen, items, sources, terminal, accounts);
            var duplicate := IsDuplicate(input, seen);
            && (Imported(input, duplicate, if duplicate then None else FirstItem(items, Key(input))) <==>
                  row.disposition in {Failed, Blocked, PipelinePending})
            && row.disposition != UnresolvedSource
  {
  }

  lemma {:induction false} CountTotal(rows: seq<Row>)
    ensures Count(rows, Duplicate) + Count(rows, MissingOutput) + Count(rows, Blocked) + Count(rows, Failed)
          + Count(rows, PipelinePending) + Count(rows, UnresolvedSource) + Count(rows, Invalid)
          + Count(rows, SkippedExisting) + Count(rows, Other) == |rows|
  {
    if rows != [] {
      CountTotal(rows[..|rows| - 1]);
    }
  }

  lemma {:induction false} NeverUnresolved(rows: seq<Row>)
    requires forall i :: 0 <= i < |rows| ==> rows[i].disposition != UnresolvedSource
    ensures Count(rows, UnresolvedSource) == 0
  {
    if rows != [] {
      NeverUnresolved(rows[..|rows| - 1]);
    }
  }

  lemma PrefixStep(inputs: seq<Input>, n: nat, spec: seq<Row>)
    requires n < |inputs| == |spec|
    ensures Seen(inputs[..n + 1]) == SeenAfter(inputs[n], Seen(inputs[..n]))
    ensures spec[..n] + [spec[n]] == spec[..n + 1]
  {
    assert inputs[..n + 1][..n] == inputs[..n];
  }

  lemma RowsAccounted(inputs: seq<Input>, items: seq<Item>, sources: seq<Source>,
                      terminal: Option<Stop>, accounts: map<string, Option<int>>)
    ensures var rows := Rows(inputs, items, sources, terminal, accounts);
            && Count(rows, UnresolvedSource) == 0
            && |inputs| == CountImported(rows) + Count(rows, Duplicate) + Count(rows, MissingOutput)
                           + Count(rows, Invalid) + Count(rows, SkippedExisting) + Count(rows, Other)
  {
    var rows := Rows(inputs, items, sources, terminal, accounts);
    CountTotal(rows);
    forall i | 0 <= i < |rows| ensures rows[i].disposition != UnresolvedSource {
      ImportedDisposition(inputs[i], Seen(inputs[..i]), items, sources, terminal, accounts);
    }
    NeverUnresolved(rows);
  }

  /**
   The loop over the input rows. Every input row is accounted for by exactly one of the figures
   reported, and no row is ever `unresolved_source`.
   */
  method ProjectRows(inputs: seq<Input>, items: seq<Item>, sources: seq<Source>,
                     terminal: Option<Stop>, accounts: map<string, Option<int>>) returns (report: Report)
    ensures report.rows == Rows(inputs, items, sources, terminal, accounts)
    ensures Tallied(report.counts, report.rows)
    ensures report.importedRows == CountImported(report.rows)
    ensures report.sourceRows == |inputs| && report.duplicateRows == Count(report.rows, Duplicate)
    ensures report.missingRows ==
            Count(report.rows, MissingOutput) + Count(report.rows, Invalid) + Count(report.rows, SkippedExisting)
    ensures report.sourceRows ==
            report.importedRows + report.duplicateRows + report.missingRows + Count(report.rows, Other)
    ensures Count(report.rows, UnresolvedSource) == 0
  {
    ghost var spec := Rows(inputs, items, sources, terminal, accounts);
    var seen: map<string, Option<string>> := map[];
    var counts: map<Disposition, nat> := map d | d in DISPOSITIONS :: 0;
    var imported := 0;
    var rows: seq<Row> := [];
    for n := 0 to |inputs|
      invariant seen == Seen(inputs[..n])
      invariant rows == spec[..n]
      invariant Tallied(counts, rows)
      invariant imported == CountImported(rows)
    {
      PrefixStep(inputs, n, spec);
      var row, counted := ProjectRow(inputs[n], seen, items, sources, terminal, accounts);
      TallyStep(counts, rows, row);
      if counted {
        imported := imported + 1;
      }
      seen := SeenAfter(inputs[n], seen);
      rows := rows + [row];
      counts := Increment(counts, row.disposition);
    }
    assert rows == spec;
    RowsAccounted(inputs, items, sources, terminal, accounts);
    return Report(rows, counts, |inputs|, imported, counts[Duplicate],
                  counts[MissingOutput] + counts[Invalid] + counts[SkippedExisting]);
  }

  /** The callback for one input row; `counted` says whether it increments the imported rows. */
  method ProjectRow(input: Input, seen: map<string, Option<string>>, items: seq<Item>, sources: seq<Source>,
                    terminal: Option<Stop>, accounts: map<string, Option<int>>) returns (row: Row, counted: bool)
    ensures row == RowFor(input, seen, items, sources, terminal, accounts)
    ensures counted <==> row.disposition in {Failed, Blocked, PipelinePending}
  {
    ImportedDisposition(input, seen, items, sources, terminal, accounts);
    var duplicate := IsDuplicate(input, seen);
    row := RowFor(input, seen, items, sources, terminal, accounts);
    counted := Imported(input, duplicate, if duplicate then None else FirstItem(items, Key(input)));
  }

  // ---------------------------------------------------------------- joins and charges

  /** The row takes its UPC for itself when it is the first to do so. */
  predicate Claims(input: Input, key: string) {
    Key(input) == key && Eligible(input) && input.mark != Some(MarkedDuplicate)
  }

  ghost predicate FirstClaim(inputs: seq<Input>, i: int, key: string) {
    0 <= i < |inputs| && Claims(inputs[i], key) && forall j :: 0 <= j < i ==> !Claims(inputs[j], key)
  }

  lemma {:induction false} SeenIffClaimed(inputs: seq<Input>, key: string)
    ensures key !in Seen(inputs) <==> forall i :: 0 <= i < |inputs| ==> !Claims(inputs[i], key)
  {
    if inputs != [] {
      var n := |inputs| - 1;
      SeenIffClaimed(inputs[..n], key);
      assert forall i :: 0 <= i < n ==> inputs[..n][i] == inputs[i];
    }
  }

  lemma {:induction false} SeenValue(inputs: seq<Input>, i: nat, key: string)
    requires FirstClaim(inputs, i, key)
    ensures key in Seen(inputs) && Seen(inputs)[key] == inputs[i].rowId
  {
    var n := |inputs| - 1;
    if i < n {
      SeenValue(inputs[..n], i, key);
    } else {
      SeenIffClaimed(inputs[..n], key);
    }
  }

  /**
   A row is joined with an item exactly when it is not marked as a duplicate, its UPC has an item
   and no earlier row has claimed that UPC. Rows marked invalid or skipped claim nothing.
   */
  lemma JoinExactly(inputs: seq<Input>, items: seq<Item>, sources: seq<Source>, terminal: Option<Stop>,
                    accounts: map<string, Option<int>>, i: nat)
    requires i < |inputs|
    ensures Rows(inputs, items, sources, terminal, accounts)[i].itemId.Some? <==>
              && inputs[i].mark != Some(MarkedDuplicate)
              && FirstItem(items, Key(inputs[i])).Some?
              && forall j :: 0 <= j < i ==> !Claims(inputs[j], Key(inputs[i]))
  {
    SeenIffClaimed(inputs[..i], Key(inputs[i]));
    assert forall j :: 0 <= j < i ==> inputs[..i][j] == inputs[j];
  }

  /** A repeated row that names no primary row points at the row that claimed its UPC. */
  lemma DuplicatePointsAtClaim(inputs: seq<Input>, items: seq<Item>, sources: seq<Source>, terminal: Option<Stop>,
                               accounts: map<string, Option<int>>, claim: nat, i: nat)
    requires claim < i < |inputs| && FirstClaim(inputs, claim, Key(inputs[i]))
    requires inputs[i].primaryRowId.None?
    ensures var row := Rows(inputs, items, sources, terminal, accounts)[i];
            row.itemId.None? && row.primaryRowId == inputs[claim].rowId
  {
    SeenValue(inputs[..i], claim, Key(inputs[i]));
  }

  lemma {:induction false} FirstItemMeans(items: seq<Item>, upc: string)
    ensures var item := FirstItem(items, upc); item.Some? ==> item.value in items && item.value.upc == upc
  {
    if items != [] {
      FirstItemMeans(items[1..], upc);
    }
  }

  ghost predicate DistinctIds(items: seq<Item>) {
    forall a, b :: a in items && b in items && a.id == b.id ==> a == b
  }

  /** No item is joined, and hence charged, again after a row that is marked neither invalid nor skipped. */
  lemma JoinedOnce(inputs: seq<Input>, items: seq<Item>, sources: seq<Source>, terminal: Option<Stop>,
                   accounts: map<string, Option<int>>, i: nat, j: nat)
    requires i < j < |inputs| && Eligible(inputs[i]) && DistinctIds(items)
    requires var rows := Rows(inputs, items, sources, terminal, accounts);
             rows[i].itemId.Some? && rows[j].itemId.Some?
    ensures var rows := Rows(inputs, items, sources, terminal, accounts); rows[i].itemId != rows[j].itemId
  {
    JoinExactly(inputs, items, sources, terminal, accounts, i);
    JoinExactly(inputs, items, sources, terminal, accounts, j);
    assert Claims(inputs[i], Key(inputs[i]));
    FirstItemMeans(items, Key(inputs[i]));
    FirstItemMeans(items, Key(inputs[j]));
  }

  /** The item of a joined row is the first one with the row's UPC. */
  lemma JoinedItem(inputs: seq<Input>, items: seq<Item>, sources: seq<Source>, terminal: Option<Stop>,
                   accounts: map<string, Option<int>>, i: nat)
    requires i < |inputs|
    ensures var row := Rows(inputs, items, sources, terminal, accounts)[i];
            var item := FirstItem(items, Key(inputs[i]));
            row.itemId.Some? ==> item.Some? && row.itemId.value == item.value.id
  {
  }

  /**
   Exactly when two rows are joined with, and so charged for, one item: they carry the same UPC, it has
   an item, neither is marked as a duplicate, and nothing before the later row has claimed the UPC. The
   earlier row is then marked invalid or skipped; the later one may be any row.
   */
  lemma SharedExactly(inputs: seq<Input>, items: seq<Item>, sources: seq<Source>, terminal: Option<Stop>,
                      accounts: map<string, Option<int>>, i: nat, j: nat)
    requires i < j < |inputs| && DistinctIds(items)
    ensures var rows := Rows(inputs, items, sources, terminal, accounts);
            (rows[i].itemId.Some? && rows[i].itemId == rows[j].itemId) <==>
              && Key(inputs[i]) == Key(inputs[j]) && FirstItem(items, Key(inputs[j])).Some?
              && inputs[i].mark != Some(MarkedDuplicate) && inputs[j].mark != Some(MarkedDuplicate)
              && forall k :: 0 <= k < j ==> !Claims(inputs[k], Key(inputs[j]))
  {
    JoinExactly(inputs, items, sources, terminal, accounts, i);
    JoinExactly(inputs, items, sources, terminal, accounts, j);
    JoinedItem(inputs, items, sources, terminal, accounts, i);
    JoinedItem(inputs, items, sources, terminal, accounts, j);
    FirstItemMeans(items, Key(inputs[i]));
    FirstItemMeans(items, Key(inputs[j]));
  }

  /** An imported row shares its item, and its charge, with a row marked invalid before it. */
  lemma ImportedSharesWithInvalid(item: Item, cost: int)
    requires item.costMicros == Some(cost)
    ensures var invalid := Input(None, Some(item.upc), Some(MarkedInvalid), None, None);
            var imported := Input(None, Some(item.upc), Some(MarkedImported), None, None);
            var rows := Rows([invalid, imported], [item], [], None, map[]);
            && Eligible(imported) && rows[1].disposition in {Failed, Blocked, PipelinePending}
            && rows[0].itemId == rows[1].itemId == Some(item.id) && rows[0].cost == rows[1].cost == Some(cost)
  {
    var invalid := Input(None, Some(item.upc), Some(MarkedInvalid), None, None);
    var imported := Input(None, Some(item.upc), Some(MarkedImported), None, None);
    assert [invalid, imported][..1] == [invalid] && [invalid][..0] == [];
    assert Seen([]) == map[] && Seen([invalid]) == map[];
    ImportedDisposition(imported, map[], [item], [], None, map[]);
  }

  /** The exception is real: two rows marked invalid are both charged the cost of the same item. */
  lemma InvalidRowsShareACharge(item: Item, cost: int)
    requires item.costMicros == Some(cost)
    ensures var input := Input(None, Some(item.upc), Some(MarkedInvalid), None, None);
            var rows := Rows([input, input], [item], [], None, map[]);
            rows[0].itemId == rows[1].itemId == Some(item.id) && rows[0].cost == rows[1].cost == Some(cost)
  {
    var input := Input(None, Some(item.upc), Some(MarkedInvalid), None, None);
    assert [input, input][..1] == [input] && [input][..0] == [];
    assert Seen([]) == map[] && Seen([input]) == map[];
  }

  /** What the eligible rows are charged, taking unknown as nothing. */
  ghost function Charged(inputs: seq<Input>, rows: seq<Row>, n: nat): int
    requires n <= |inputs| == |rows|
  {
    if n == 0 then 0
    else Charged(inputs, rows, n - 1) + (if Eligible(inputs[n - 1]) then Worth(rows[n - 1].cost) else 0)
  }

  /** The cost an item carries itself, which takes the place of its entry. */
  function OwnCost(items: seq<Item>, input: Input): Option<int> {
    var item := FirstItem(items, Key(input));
    if item.Some? then item.value.costMicros else None
  }

  /** What the eligible rows are charged as own costs of their items. */
  ghost function OwnCharged(inputs: seq<Input>, items: seq<Item>, rows: seq<Row>, n: nat): int
    requires n <= |inputs| == |rows|
  {
    if n == 0 then 0
    else
      OwnCharged(inputs, items, rows, n - 1) +
      (if Eligible(inputs[n - 1]) && rows[n - 1].itemId.Some? then Worth(OwnCost(items, inputs[n - 1])) else 0)
  }

  /** The row is charged the entry of its item. */
  predicate TakesEntry(inputs: seq<Input>, items: seq<Item>, rows: seq<Row>, i: nat)
    requires i < |inputs| == |rows|
  {
    Eligible(inputs[i]) && rows[i].itemId.Some? && OwnCost(items, inputs[i]).None?
  }

  /** The items whose entries the first `n` rows are charged. */
  ghost function EntryIds(inputs: seq<Input>, items: seq<Item>, rows: seq<Row>, n: nat): set<string>
    requires n <= |inputs| == |rows|
  {
    set i | 0 <= i < n && TakesEntry(inputs, items, rows, i) :: rows[i].itemId.value
  }

  /** An item is charged its own cost or else its entry; a row without item is charged nothing. */
  lemma CostOfRow(input: Input, seen: map<string, Option<string>>, items: seq<Item>, sources: seq<Source>,
                  terminal: Option<Stop>, accounts: map<string, Option<int>>)
    ensures var row := RowFor(input, seen, items, sources, terminal, accounts);
            Worth(row.cost) ==
              if row.itemId.None? then 0
              else if OwnCost(items, input).Some? then Worth(OwnCost(items, input))
              else EntryOf(accounts)(row.itemId.value)
  {
  }

  lemma {:induction false} ChargedIsSum(inputs: seq<Input>, items: seq<Item>, sources: seq<Source>,
                                        terminal: Option<Stop>, accounts: map<string, Option<int>>, n: nat)
    requires n <= |inputs| && DistinctIds(items)
    ensures var rows := Rows(inputs, items, sources, terminal, accounts);
            Charged(inputs, rows, n) ==
              OwnCharged(inputs, items, rows, n) + SumOver(EntryIds(inputs, items, rows, n), EntryOf(accounts))
  {
    var rows := Rows(inputs, items, sources, terminal, accounts);
    if n == 0 {
      SumOverZero(EntryIds(inputs, items, rows, 0), EntryOf(accounts));
    } else {
      var k := n - 1;
      ChargedIsSum(inputs, items, sources, terminal, accounts, k);
      CostOfRow(inputs[k], Seen(inputs[..k]), items, sources, terminal, accounts);
      if rows[k].itemId.Some? {
        forall i | 0 <= i < k && Eligible(inputs[i]) && rows[i].itemId.Some? ensures rows[i].itemId != rows[k].itemId {
          JoinedOnce(inputs, items, sources, terminal, accounts, i, k);
        }
      }
      EntryStep(inputs, items, rows, k, EntryOf(accounts));
    }
  }

  lemma EntryStep(inputs: seq<Input>, items: seq<Item>, rows: seq<Row>, k: nat, entry: string -> int)
    requires k < |inputs| == |rows|
    requires rows[k].itemId.Some? ==>
               forall i :: 0 <= i < k && Eligible(inputs[i]) && rows[i].itemId.Some? ==>
                        rows[i].itemId != rows[k].itemId
    ensures SumOver(EntryIds(inputs, items, rows, k + 1), entry) ==
            SumOver(EntryIds(inputs, items, rows, k), entry) +
            (if TakesEntry(inputs, items, rows, k) then entry(rows[k].itemId.value) else 0)
  {
    var before := EntryIds(inputs, items, rows, k);
    if TakesEntry(inputs, items, rows, k) {
      var id := rows[k].itemId.value;
      assert EntryIds(inputs, items, rows, k + 1) == before + {id};
      SumOverInsert(before, id, entry);
    } else {
      assert EntryIds(inputs, items, rows, k + 1) == before;
    }
  }

  lemma {:induction false} ChargedWithin(inputs: seq<Input>, items: seq<Item>, sources: seq<Source>,
                                         terminal: Option<Stop>, accounts: map<string, Option<int>>)
    requires DistinctIds(items) && forall x :: x in accounts ==> 0 <= Worth(accounts[x])
    ensures var rows := Rows(inputs, items, sources, terminal, accounts);
            Charged(inputs, rows, |inputs|) <=
              SumOver(accounts.Keys, EntryOf(accounts)) + OwnCharged(inputs, items, rows, |inputs|)
  {
    var rows := Rows(inputs, items, sources, terminal, accounts);
    var ids, keys := EntryIds(inputs, items, rows, |inputs|), accounts.Keys;
    ChargedIsSum(inputs, items, sources, terminal, accounts, |inputs|);
    SumOverMonotone(ids, ids + keys, EntryOf(accounts), EntryOf(accounts));
    SumOverDropZeros(keys, ids - keys, EntryOf(accounts));
    assert keys + (ids - keys) == ids + keys;
  }

  /**
   From effects to rows: when item ids are distinct, the eligible rows together are charged at most what
   the known charges hand out and the own costs of the items they are joined with. When every amount is
   known, what the charges hand out is the attributed total.
   */
  lemma {:induction false} NeverOvercharged(effects: seq<Effect>, accounts: map<string, Option<int>>,
                                            inputs: seq<Input>, items: seq<Item>, sources: seq<Source>,
                                            terminal: Option<Stop>)
    requires Consistent(effects) && DistinctIds(items)
    requires var charges := Charges(CostReconciliation.Rows(effects));
             AllInRange(charges) && AllocationExact(charges, accounts)
    ensures var rows := Rows(inputs, items, sources, terminal, accounts);
            Charged(inputs, rows, |inputs|) <= HandedOutBy(effects) + OwnCharged(inputs, items, rows, |inputs|)
    ensures (forall i :: 0 <= i < |effects| ==> effects[i].charge.amount.Some?) ==>
              HandedOutBy(effects) == Worth(Summary(CostReconciliation.Rows(effects)).attributed)
  {
    var charges := Charges(CostReconciliation.Rows(effects));
    AllocationBalances(charges, accounts);
    forall x | x in accounts ensures 0 <= Worth(accounts[x]) {
      OwedNonNegative(charges, x);
    }
    ChargedWithin(inputs, items, sources, terminal, accounts);
    if forall i :: 0 <= i < |effects| ==> effects[i].charge.amount.Some? {
      KnownHandedOut(effects, accounts);
    }
  }

  /** What the known charges of the reconciled effects hand out to named beneficiaries. */
  ghost function HandedOutBy(effects: seq<Effect>): int {
    SumBy(Charges(CostReconciliation.Rows(effects)), HandedOut)
  }

  lemma KnownHandedOut(effects: seq<Effect>, accounts: map<string, Option<int>>)
    requires Consistent(effects) && forall i :: 0 <= i < |effects| ==> effects[i].charge.amount.Some?
    requires var charges := Charges(CostReconciliation.Rows(effects));
             AllInRange(charges) && AllocationExact(charges, accounts)
    ensures HandedOutBy(effects) == Worth(Summary(CostReconciliation.Rows(effects)).attributed)
  {
    var charges := Charges(CostReconciliation.Rows(effects));
    EndToEndConservation(effects, accounts);
    forall k | 0 <= k < |charges| ensures charges[k].amount.Some? {
      RowAlias(effects, k);
    }
    AllocationConserves(charges, accounts);
  }

  /**
   The whole projection. It throws exactly when two aliases of an attempt conflict or a known
   charge is out of range; otherwise the report accounts for every input row and charges no more than
   `NeverOvercharged` says.
   */
  method Project(inputs: seq<Input>, items: seq<Item>, sources: seq<Source>, costs: seq<Effect>,
                 terminal: Option<Stop>) returns (r: Result<(Reconciliation, Report)>)
    ensures r.Ok? <==> Consistent(costs) && AllInRange(Charges(CostReconciliation.Rows(costs)))
    ensures r.Ok? ==>
              && r.value.0 == Summary(CostReconciliation.Rows(costs))
              && |r.value.1.rows| == |inputs| && Tallied(r.value.1.counts, r.value.1.rows)
              && r.value.1.sourceRows == r.value.1.importedRows + r.value.1.duplicateRows + r.value.1.missingRows
                                         + Count(r.value.1.rows, Other)
              && exists accounts ::
                   && AllocationExact(Charges(CostReconciliation.Rows(costs)), accounts)
                   && r.value.1.rows == Rows(inputs, items, sources, terminal, accounts)
    ensures r.Ok? && DistinctIds(items) ==>
              Charged(inputs, r.value.1.rows, |inputs|) <=
                HandedOutBy(costs) + OwnCharged(inputs, items, r.value.1.rows, |inputs|)
    ensures r.Ok? && DistinctIds(items) && (forall i :: 0 <= i < |costs| ==> costs[i].charge.amount.Some?) ==>
              HandedOutBy(costs) == Worth(r.value.0.attributed)
  {
    var reconciliation := Reconcile(costs);
    if reconciliation.Err? {
      return Err(reconciliation.error);
    }
    var accounts := Accumulate(Charges(reconciliation.value.effects));
    if accounts.Err? {
      return Err(accounts.error);
    }
    var report := ProjectRows(inputs, items, sources, terminal, accounts.value);
    if DistinctIds(items) {
      NeverOvercharged(costs, accounts.value, inputs, items, sources, terminal);
    }
    return Ok((reconciliation.value, report));
  }
}
