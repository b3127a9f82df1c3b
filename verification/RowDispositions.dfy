/**
 The disposition, the stop, the join and the cost of every report row, stated on the inputs, items and
 sources alone, and the report's counts as numbers of input rows.
 */
module RowDispositions {
  import opened Common
  import opened RowProjection

  // ---------------------------------------------------------------- the inputs

  /** Marked neither invalid, skipped nor duplicate: what takes the UPC for a row. */
  ghost predicate Takes(input: Input) {
    input.mark.None? || input.mark.value in {MarkedImported, MarkedMissing}
  }

  ghost predicate SameUpc(a: Input, b: Input) {
    (if a.upc.Some? then a.upc.value else "") == (if b.upc.Some? then b.upc.value else "")
  }

  /** An earlier row has taken the UPC of row `i`. */
  ghost predicate Taken(inputs: seq<Input>, i: nat) {
    i < |inputs| && exists j :: 0 <= j < i && SameUpc(inputs[j], inputs[i]) && Takes(inputs[j])
  }

  ghost predicate KnownSource(input: Input) {
    || input.sourceDisposition.None?
    || input.sourceDisposition.value in
       {"", "imported", "duplicate", "missing_output", "invalid", "skipped_existing"}
  }

  /** `items[m]` is the first item with the UPC of the row. */
  ghost predicate FirstAt(items: seq<Item>, m: nat, input: Input) {
    && m < |items| && items[m].upc == (if input.upc.Some? then input.upc.value else "")
    && forall k :: 0 <= k < m ==> items[k].upc != items[m].upc
  }

  ghost predicate HasItem(items: seq<Item>, input: Input) {
    exists k :: 0 <= k < |items| && items[k].upc == (if input.upc.Some? then input.upc.value else "")
  }

  lemma {:induction false} FirstIsFound(items: seq<Item>, m: nat, upc: string)
    requires m < |items| && items[m].upc == upc && forall k :: 0 <= k < m ==> items[k].upc != upc
    ensures FirstItem(items, upc) == Some(items[m])
  {
    if m > 0 {
      assert items[0].upc != upc;
      FirstIsFound(items[1..], m - 1, upc);
    }
  }

  lemma {:induction false} FoundHasFirst(items: seq<Item>, input: Input)
    ensures FirstItem(items, Key(input)).Some? <==> HasItem(items, input)
    ensures HasItem(items, input) ==> exists m: nat :: FirstAt(items, m, input)
  {
    if items != [] {
      FoundHasFirst(items[1..], input);
      if items[0].upc == Key(input) {
        assert FirstAt(items, 0, input);
      } else {
        if HasItem(items, input) {
          var k :| 0 <= k < |items| && items[k].upc == Key(input);
          assert items[1..][k - 1] == items[k];
          var m: nat :| FirstAt(items[1..], m, input);
          assert FirstAt(items, m + 1, input);
        }
        if HasItem(items[1..], input) {
          var k :| 0 <= k < |items[1..]| && items[1..][k].upc == Key(input);
          assert items[k + 1].upc == Key(input);
        }
      }
    }
  }

  lemma ClaimMeans(a: Input, b: Input)
    ensures Claims(a, Key(b)) <==> SameUpc(a, b) && Takes(a)
  {
    if a.mark.Some? {
      match a.mark.value {
        case MarkedImported | MarkedInvalid | MarkedSkipped | MarkedDuplicate | MarkedMissing =>
      }
    }
  }

  lemma TakenIsSeen(inputs: seq<Input>, i: nat)
    requires i < |inputs|
    ensures Taken(inputs, i) <==> Key(inputs[i]) in Seen(inputs[..i])
  {
    SeenIffClaimed(inputs[..i], Key(inputs[i]));
    forall j | 0 <= j < i
      ensures Claims(inputs[..i][j], Key(inputs[i])) <==> SameUpc(inputs[j], inputs[i]) && Takes(inputs[j])
    {
      ClaimMeans(inputs[j], inputs[i]);
    }
  }

  // ---------------------------------------------------------------- dispositions that need no item

  /** Every disposition outside the imported ones, and when a row is imported at all. */
  lemma DispositionExactly(inputs: seq<Input>, items: seq<Item>, sources: seq<Source>, terminal: Option<Stop>,
                           accounts: map<string, Option<int>>, i: nat)
    requires i < |inputs|
    ensures var d := Rows(inputs, items, sources, terminal, accounts)[i].disposition;
            var mark, known := inputs[i].mark, KnownSource(inputs[i]);
            var again := mark == Some(MarkedDuplicate) || Taken(inputs, i);
            && (d == Invalid <==> mark == Some(MarkedInvalid))
            && (d == SkippedExisting <==> mark == Some(MarkedSkipped))
            && (d == Other <==> mark != Some(MarkedInvalid) && mark != Some(MarkedSkipped) && !known)
            && (d == Duplicate <==>
                  mark != Some(MarkedInvalid) && mark != Some(MarkedSkipped) && known && again)
            && (d == MissingOutput <==>
                  && Takes(inputs[i]) && known && !again
                  && (mark == Some(MarkedMissing) || !HasItem(items, inputs[i])))
            && (d in {Failed, Blocked, PipelinePending} <==>
                  && (mark.None? || mark == Some(MarkedImported)) && known && !again
                  && HasItem(items, inputs[i]))
  {
    TakenIsSeen(inputs, i);
    FoundHasFirst(items, inputs[i]);
    ImportedDisposition(inputs[i], Seen(inputs[..i]), items, sources, terminal, accounts);
    if inputs[i].mark.Some? {
      match inputs[i].mark.value {
        case MarkedImported | MarkedInvalid | MarkedSkipped | MarkedDuplicate | MarkedMissing =>
      }
    }
  }

  // ---------------------------------------------------------------- the stop of an imported row

  /** The row is imported and joined with `items[m]`. */
  ghost predicate ImportedWith(inputs: seq<Input>, items: seq<Item>, i: nat, m: nat) {
    && i < |inputs| && FirstAt(items, m, inputs[i])
    && (inputs[i].mark.None? || inputs[i].mark == Some(MarkedImported))
    && KnownSource(inputs[i]) && !Taken(inputs, i)
  }

  /** The stop that overrides the item's own state: its preparation's, or the terminal one of unfinished work. */
  ghost function Given(item: Item, terminal: Option<Stop>): Option<Stop> {
    if item.preparationStop.Some? then item.preparationStop
    else if item.stageStatus == "pending" || item.stageStatus == "running" then terminal
    else None
  }

  ghost predicate HasSelected(sources: seq<Source>, id: string) {
    exists k :: 0 <= k < |sources| && sources[k].itemId == id && sources[k].selected
  }

  /** Discovery has ended without a page to go on with. */
  ghost predicate Unresolved(item: Item, sources: seq<Source>) {
    && item.stageStatus == "completed" && (item.stage == "discovery" || item.stage == "find_product_page")
    && !(item.hasSourceUrl && HasSelected(sources, item.id))
  }

  ghost predicate HasFailed(item: Item) {
    item.status == "failed" || item.stageStatus == "failed"
  }

  ghost predicate AtReview(item: Item) {
    (item.stage == "review_listings" || item.stage == "review") && item.stageStatus == "pending"
  }

  /** Review or input is asked for before the stage is looked at. */
  ghost predicate Asks(item: Item) {
    item.status == "needs_review" || item.stageStatus == "needs_input" || item.mentionsReview
  }

  /** Cancelled, late, denied and blocked stages end the row, unless the item itself has failed. */
  ghost predicate EndsAs(item: Item, stageStatus: string) {
    !HasFailed(item) && item.stageStatus == stageStatus
  }

  ghost predicate Halted(item: Item) {
    item.stageStatus in {"failed", "cancelled", "deadline_exceeded", "denied", "blocked"} || item.status == "failed"
  }

  lemma RowOf(inputs: seq<Input>, items: seq<Item>, sources: seq<Source>, terminal: Option<Stop>,
              accounts: map<string, Option<int>>, i: nat, m: nat)
    requires ImportedWith(inputs, items, i, m)
    ensures var row := Rows(inputs, items, sources, terminal, accounts)[i];
            && row.stop == StopFor(items[m], HasSelected(sources, items[m].id), terminal)
            && row.disposition == StopDisposition(row.stop)
  {
    TakenIsSeen(inputs, i);
    FirstIsFound(items, m, items[m].upc);
    var id := items[m].id;
    if HasSelected(sources, id) {
      var k :| 0 <= k < |sources| && sources[k].itemId == id && sources[k].selected;
      assert sources[k] in sources;
    }
    if exists s :: s in sources && s.itemId == id && s.selected {
      var s :| s in sources && s.itemId == id && s.selected;
      var k :| 0 <= k < |sources| && sources[k] == s;
      assert HasSelected(sources, id);
    }
  }

  /** Which stop an imported row shows: the given one, or exactly the one its item's fields call for. */
  lemma StopExactly(inputs: seq<Input>, items: seq<Item>, sources: seq<Source>, terminal: Option<Stop>,
                    accounts: map<string, Option<int>>, i: nat, m: nat)
    requires ImportedWith(inputs, items, i, m)
    ensures var stop, item := Rows(inputs, items, sources, terminal, accounts)[i].stop, items[m];
            if Given(item, terminal).Some? then stop == Given(item, terminal).value
            else
              && (stop == StopFailed <==> HasFailed(item))
              && (stop == StopCancelled <==> EndsAs(item, "cancelled"))
              && (stop == DeadlineExceeded <==> EndsAs(item, "deadline_exceeded"))
              && (stop == Denied <==> EndsAs(item, "denied") || EndsAs(item, "blocked"))
              && (stop == ReviewReady <==>
                    && !Halted(item)
                    && (AtReview(item)
                        || (item.status == "review_ready" && item.stageStatus == "completed"
                            && !Asks(item) && !Unresolved(item, sources))))
              && (stop == NeedsInput <==>
                    && !Halted(item) && !AtReview(item)
                    && (Asks(item)
                        || (item.status == "needs_input" && item.stageStatus == "completed"
                            && !Unresolved(item, sources))))
              && (stop == SourceResolution <==> !Halted(item) && !Asks(item) && Unresolved(item, sources))
              && stop != NoProgress && stop != Unavailable
  {
    RowOf(inputs, items, sources, terminal, accounts, i, m);
  }

  /** The item of an imported row has failed, or a given stop says so. */
  ghost predicate Fails(item: Item, terminal: Option<Stop>) {
    if Given(item, terminal).Some? then Given(item, terminal).value == StopFailed else HasFailed(item)
  }

  /** The item is on its way or ready for review, or a given stop says so. */
  ghost predicate Pends(item: Item, sources: seq<Source>, terminal: Option<Stop>) {
    if Given(item, terminal).Some? then Given(item, terminal).value in {ReviewReady, StopPending}
    else
      && !Halted(item)
      && (AtReview(item)
          || (!Asks(item) && !Unresolved(item, sources)
              && !(item.status == "needs_input" && item.stageStatus == "completed")))
  }

  lemma FailsExactly(item: Item, sources: seq<Source>, terminal: Option<Stop>)
    ensures StopDisposition(StopFor(item, HasSelected(sources, item.id), terminal)) == Failed <==>
            Fails(item, terminal)
  {
  }

  lemma PendsExactly(item: Item, sources: seq<Source>, terminal: Option<Stop>)
    ensures StopDisposition(StopFor(item, HasSelected(sources, item.id), terminal)) == PipelinePending <==>
            Pends(item, sources, terminal)
  {
  }

  /** The disposition of an imported row: failed, pending, and blocked in every other case. */
  lemma ImportedExactly(inputs: seq<Input>, items: seq<Item>, sources: seq<Source>, terminal: Option<Stop>,
                        accounts: map<string, Option<int>>, i: nat, m: nat)
    requires ImportedWith(inputs, items, i, m)
    ensures var d := Rows(inputs, items, sources, terminal, accounts)[i].disposition;
            && (d == Failed <==> Fails(items[m], terminal))
            && (d == PipelinePending <==> Pends(items[m], sources, terminal))
            && (d == Blocked <==> !Fails(items[m], terminal) && !Pends(items[m], sources, terminal))
  {
    RowOf(inputs, items, sources, terminal, accounts, i, m);
    FailsExactly(items[m], sources, terminal);
    PendsExactly(items[m], sources, terminal);
  }

  // ---------------------------------------------------------------- join, cost and primary row

  /** A row that is no repeat carries its item's identity and cost: the item's own, or what the accounts hold. */
  lemma CostExactly(inputs: seq<Input>, items: seq<Item>, sources: seq<Source>, terminal: Option<Stop>,
                    accounts: map<string, Option<int>>, i: nat, m: nat)
    requires i < |inputs| && FirstAt(items, m, inputs[i])
    requires inputs[i].mark != Some(MarkedDuplicate) && !Taken(inputs, i)
    ensures var row := Rows(inputs, items, sources, terminal, accounts)[i];
            && row.itemId == Some(items[m].id)
            && row.cost == if items[m].costMicros.Some? then items[m].costMicros
                           else if items[m].id in accounts then accounts[items[m].id]
                           else None
  {
    TakenIsSeen(inputs, i);
    FirstIsFound(items, m, items[m].upc);
  }

  /** A repeat, and a row without an item, carries neither item nor cost. */
  lemma NoCostExactly(inputs: seq<Input>, items: seq<Item>, sources: seq<Source>, terminal: Option<Stop>,
                      accounts: map<string, Option<int>>, i: nat)
    requires i < |inputs|
    requires inputs[i].mark == Some(MarkedDuplicate) || Taken(inputs, i) || !HasItem(items, inputs[i])
    ensures var row := Rows(inputs, items, sources, terminal, accounts)[i]; row.itemId.None? && row.cost.None?
  {
    TakenIsSeen(inputs, i);
    FoundHasFirst(items, inputs[i]);
  }

  /** Row `j` is the first before `i` that took the UPC of row `i`. */
  ghost predicate TakenBy(inputs: seq<Input>, i: nat, j: nat) {
    && j < i < |inputs| && SameUpc(inputs[j], inputs[i]) && Takes(inputs[j])
    && forall k :: 0 <= k < j ==> !(SameUpc(inputs[k], inputs[i]) && Takes(inputs[k]))
  }

  /**
   The primary row of a repeat is the one it names, else the row that took its UPC; no other row has one.
   */
  lemma PrimaryExactly(inputs: seq<Input>, items: seq<Item>, sources: seq<Source>, terminal: Option<Stop>,
                       accounts: map<string, Option<int>>, i: nat)
    requires i < |inputs|
    ensures var primary := Rows(inputs, items, sources, terminal, accounts)[i].primaryRowId;
            var again := inputs[i].mark == Some(MarkedDuplicate) || Taken(inputs, i);
            && (!again ==> primary.None?)
            && (again && inputs[i].primaryRowId.Some? ==> primary == inputs[i].primaryRowId)
            && (again && inputs[i].primaryRowId.None? && !Taken(inputs, i) ==> primary.None?)
            && forall j: nat :: again && inputs[i].primaryRowId.None? && TakenBy(inputs, i, j) ==>
                 primary == inputs[j].rowId
  {
    TakenIsSeen(inputs, i);
    forall j: nat | TakenBy(inputs, i, j)
      ensures Key(inputs[i]) in Seen(inputs[..i]) && Seen(inputs[..i])[Key(inputs[i])] == inputs[j].rowId
    {
      assert FirstClaim(inputs[..i], j, Key(inputs[i])) by {
        forall k | 0 <= k < j ensures !Claims(inputs[..i][k], Key(inputs[i])) {
          ClaimMeans(inputs[k], inputs[i]);
        }
        ClaimMeans(inputs[j], inputs[i]);
      }
      SeenValue(inputs[..i], j, Key(inputs[i]));
    }
  }

  // ---------------------------------------------------------------- the counts

  ghost function Those(rows: seq<Row>, d: Disposition): set<nat> {
    set i: nat | i < |rows| && rows[i].disposition == d
  }

  /** A count is the number of rows with that disposition. */
  lemma {:induction false} CountIsNumber(rows: seq<Row>, d: Disposition)
    ensures Count(rows, d) == |Those(rows, d)|
  {
    if rows == [] {
      assert Those(rows, d) == {};
    } else {
      var n := |rows| - 1;
      CountIsNumber(rows[..n], d);
      if rows[n].disposition == d {
        assert Those(rows, d) == Those(rows[..n], d) + {n};
      } else {
        assert Those(rows, d) == Those(rows[..n], d);
      }
    }
  }

  ghost predicate RowFails(inputs: seq<Input>, items: seq<Item>, terminal: Option<Stop>, i: nat) {
    exists m: nat :: ImportedWith(inputs, items, i, m) && Fails(items[m], terminal)
  }

  ghost predicate RowPends(inputs: seq<Input>, items: seq<Item>, sources: seq<Source>, terminal: Option<Stop>,
                           i: nat) {
    exists m: nat :: ImportedWith(inputs, items, i, m) && Pends(items[m], sources, terminal)
  }

  ghost predicate RowBlocked(inputs: seq<Input>, items: seq<Item>, sources: seq<Source>, terminal: Option<Stop>,
                             i: nat) {
    exists m: nat ::
      && ImportedWith(inputs, items, i, m)
      && !Fails(items[m], terminal) && !Pends(items[m], sources, terminal)
  }

  lemma DispositionOfRow(inputs: seq<Input>, items: seq<Item>, sources: seq<Source>, terminal: Option<Stop>,
                         accounts: map<string, Option<int>>, i: nat)
    requires i < |inputs|
    ensures var d := Rows(inputs, items, sources, terminal, accounts)[i].disposition;
            && (d == Failed <==> RowFails(inputs, items, terminal, i))
            && (d == PipelinePending <==> RowPends(inputs, items, sources, terminal, i))
            && (d == Blocked <==> RowBlocked(inputs, items, sources, terminal, i))
  {
    DispositionExactly(inputs, items, sources, terminal, accounts, i);
    FoundHasFirst(items, inputs[i]);
    forall m: nat | ImportedWith(inputs, items, i, m)
      ensures var d := Rows(inputs, items, sources, terminal, accounts)[i].disposition;
              && (d == Failed <==> Fails(items[m], terminal))
              && (d == PipelinePending <==> Pends(items[m], sources, terminal))
              && (d == Blocked <==> !Fails(items[m], terminal) && !Pends(items[m], sources, terminal))
    {
      ImportedExactly(inputs, items, sources, terminal, accounts, i, m);
    }
    if Rows(inputs, items, sources, terminal, accounts)[i].disposition in {Failed, Blocked, PipelinePending} {
      var m: nat :| FirstAt(items, m, inputs[i]);
      assert ImportedWith(inputs, items, i, m);
    }
  }

  /** The three counts of a report over imported rows are the numbers of inputs whose items call for them. */
  lemma CountsExactly(inputs: seq<Input>, items: seq<Item>, sources: seq<Source>, terminal: Option<Stop>,
                      accounts: map<string, Option<int>>)
    ensures var rows := Rows(inputs, items, sources, terminal, accounts);
            && Count(rows, Failed) == |set i: nat | i < |inputs| && RowFails(inputs, items, terminal, i)|
            && Count(rows, PipelinePending) ==
               |set i: nat | i < |inputs| && RowPends(inputs, items, sources, terminal, i)|
            && Count(rows, Blocked) ==
               |set i: nat | i < |inputs| && RowBlocked(inputs, items, sources, terminal, i)|
  {
    var rows := Rows(inputs, items, sources, terminal, accounts);
    forall i: nat | i < |inputs|
      ensures rows[i].disposition == Failed <==> RowFails(inputs, items, terminal, i)
      ensures rows[i].disposition == PipelinePending <==> RowPends(inputs, items, sources, terminal, i)
      ensures rows[i].disposition == Blocked <==> RowBlocked(inputs, items, sources, terminal, i)
    {
      DispositionOfRow(inputs, items, sources, terminal, accounts, i);
    }
    CountIsNumber(rows, Failed);
    CountIsNumber(rows, PipelinePending);
    CountIsNumber(rows, Blocked);
    assert Those(rows, Failed) == set i: nat | i < |inputs| && RowFails(inputs, items, terminal, i);
    assert Those(rows, PipelinePending) ==
           set i: nat | i < |inputs| && RowPends(inputs, items, sources, terminal, i);
    assert Those(rows, Blocked) ==
           set i: nat | i < |inputs| && RowBlocked(inputs, items, sources, terminal, i);
  }
}
