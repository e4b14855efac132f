/**
 * The bulk import of deliveries: every data row of the file is either created or
 * reported, through validation, duplicate detection and a partially failing insert.
 */
module BulkImport {
  import opened Common
  import StableSort

  datatype Issue = Issue(field: string, message: string)

  /** A row after schema parsing: its data, or the problems of its columns. */
  datatype Parsed = Good(trackingNumber: string) | Bad(issues: seq<Issue>)

  datatype CsvRow = CsvRow(line: nat, rawTrackingNumber: string, parsed: Parsed)

  datatype ValidRow = ValidRow(line: nat, trackingNumber: string)

  datatype RowError = RowError(line: nat, trackingNumber: Option<string>, field: Option<string>, message: Message)

  datatype Message = Text(text: string) | DuplicateInFile(firstLine: nat) | AlreadyExists

  datatype WriteError = WriteError(index: nat, duplicateKey: bool, message: string)

  /** What the unordered insert answers: all documents, or a bulk error with its details. */
  datatype StoreReport = Inserted(docs: seq<string>) | BulkError(insertedDocs: seq<string>, writeErrors: seq<WriteError>)

  datatype ImportError = MissingColumns(columns: seq<string>) | WriteFailed

  datatype ImportResult = ImportResult(
    totalRows: nat, successCount: nat, failureCount: nat, created: seq<string>, errors: seq<RowError>)

  const REQUIRED_COLUMNS := [
    "trackingnumber", "customername", "customerphone", "pickupaddress", "dropoffaddress", "packagedescription",
    "packageweight", "deliveryfee", "escrowamount"]

  /** A failing schema names at least one problem. */
  predicate Parses(rows: seq<CsvRow>) {
    forall i :: 0 <= i < |rows| && rows[i].parsed.Bad? ==> rows[i].parsed.issues != []
  }

  // -------------------------------------------------------------- splitting lines

  function RowLines(rows: seq<CsvRow>): seq<nat> { seq(|rows|, i requires 0 <= i < |rows| => rows[i].line) }

  function Lines(rows: seq<ValidRow>): seq<nat> { seq(|rows|, i requires 0 <= i < |rows| => rows[i].line) }

  function ErrorLines(errors: seq<RowError>): seq<nat> { seq(|errors|, i requires 0 <= i < |errors| => errors[i].line) }

  function TrackingNumbers(rows: seq<ValidRow>): seq<string> {
    seq(|rows|, i requires 0 <= i < |rows| => rows[i].trackingNumber)
  }

  function Members<T>(s: seq<T>): set<T> { set x | x in s }

  /** Every line of `whole` is kept, once, or dropped, and never both. */
  ghost predicate Splits(whole: seq<nat>, kept: seq<nat>, dropped: seq<nat>) {
    && (forall l :: l in whole <==> l in kept || l in dropped)
    && (forall l :: !(l in kept && l in dropped))
    && Distinct(kept)
  }

  lemma KeepOne(whole: seq<nat>, kept: seq<nat>, dropped: seq<nat>, l: nat)
    requires Splits(whole, kept, dropped) && l !in whole
    ensures Splits(whole + [l], kept + [l], dropped)
  {
  }

  lemma DropOne(whole: seq<nat>, kept: seq<nat>, dropped: seq<nat>, l: nat, more: seq<nat>)
    requires Splits(whole, kept, dropped) && l !in whole
    requires more != [] && forall m :: m in more ==> m == l
    ensures Splits(whole + [l], kept, dropped + more)
  {
    assert more[0] in more;
    forall m ensures m in whole + [l] <==> m in kept || m in dropped + more {}
  }

  lemma SplitAgain(whole: seq<nat>, kept: seq<nat>, dropped: seq<nat>, kept2: seq<nat>, dropped2: seq<nat>)
    requires Splits(whole, kept, dropped) && Splits(kept, kept2, dropped2)
    ensures Splits(whole, kept2, dropped + dropped2)
  {
  }

  lemma {:induction false} DistinctSize<T>(s: seq<T>)
    requires Distinct(s)
    ensures |Members(s)| == |s|
  {
    if s != [] {
      var n := |s| - 1;
      DistinctSize(s[..n]);
      assert s == s[..n] + [s[n]];
      assert Members(s) == Members(s[..n]) + {s[n]};
    }
  }

  /** Counting lines, not errors, accounts for each row once. */
  lemma SplitCounts(whole: seq<nat>, kept: seq<nat>, dropped: seq<nat>)
    requires Distinct(whole) && Splits(whole, kept, dropped)
    ensures |kept| + |Members(dropped)| == |whole|
  {
    DistinctSize(whole);
    DistinctSize(kept);
    assert Members(whole) == Members(kept) + Members(dropped);
    assert Members(kept) !! Members(dropped);
  }

  lemma SnocLines(rows: seq<CsvRow>)
    requires rows != []
    ensures RowLines(rows) == RowLines(rows[..|rows| - 1]) + [rows[|rows| - 1].line]
  {
  }

  lemma SnocDistinct<T>(s: seq<T>, l: T)
    requires Distinct(s + [l])
    ensures Distinct(s) && l !in s
  {
    assert forall i :: 0 <= i < |s| ==> (s + [l])[i] == s[i];
    assert (s + [l])[|s|] == l;
  }

  lemma AppendNew<T>(part: seq<T>, whole: seq<T>, l: T)
    requires Distinct(part) && (forall x :: x in part ==> x in whole) && l !in whole
    ensures Distinct(part + [l])
  {
  }

  // ------------------------------------------------------------------- validation

  function IssueErrors(row: CsvRow): seq<RowError>
    requires row.parsed.Bad?
  {
    var shown := if row.rawTrackingNumber == "" then None else Some(row.rawTrackingNumber);
    seq(|row.parsed.issues|, i requires 0 <= i < |row.parsed.issues| =>
      var issue := row.parsed.issues[i];
      RowError(row.line, shown, if issue.field == "" then None else Some(issue.field), Text(issue.message)))
  }

  function ValidOf(rows: seq<CsvRow>): seq<ValidRow> {
    if rows == [] then []
    else
      var n := |rows| - 1;
      ValidOf(rows[..n])
      + if rows[n].parsed.Good? then [ValidRow(rows[n].line, rows[n].parsed.trackingNumber)] else []
  }

  function IssuesOf(rows: seq<CsvRow>): seq<RowError> {
    if rows == [] then []
    else
      var n := |rows| - 1;
      IssuesOf(rows[..n]) + if rows[n].parsed.Bad? then IssueErrors(rows[n]) else []
  }

  lemma {:induction false} ValidationSplits(rows: seq<CsvRow>)
    requires Parses(rows) && Distinct(RowLines(rows))
    ensures Splits(RowLines(rows), Lines(ValidOf(rows)), ErrorLines(IssuesOf(rows)))
  {
    if rows != [] {
      var n := |rows| - 1;
      var whole, kept, dropped := RowLines(rows[..n]), ValidOf(rows[..n]), IssuesOf(rows[..n]);
      SnocLines(rows);
      SnocDistinct(whole, rows[n].line);
      ValidationSplits(rows[..n]);
      if rows[n].parsed.Good? {
        KeepOne(whole, Lines(kept), ErrorLines(dropped), rows[n].line);
        assert Lines(ValidOf(rows)) == Lines(kept) + [rows[n].line];
        assert IssuesOf(rows) == dropped;
      } else {
        var more := IssueErrors(rows[n]);
        DropOne(whole, Lines(kept), ErrorLines(dropped), rows[n].line, ErrorLines(more));
        assert ErrorLines(IssuesOf(rows)) == ErrorLines(dropped) + ErrorLines(more);
        assert ValidOf(rows) == kept;
      }
    }
  }

  // ------------------------------------------------------------ duplicates in the file

  predicate Has(rows: seq<ValidRow>, trackingNumber: string) {
    exists i :: 0 <= i < |rows| && rows[i].trackingNumber == trackingNumber
  }

  /** The line of the first row with this number. */
  function FirstLine(rows: seq<ValidRow>, trackingNumber: string): nat
    requires Has(rows, trackingNumber)
  {
    if rows[0].trackingNumber == trackingNumber then rows[0].line else FirstLine(rows[1..], trackingNumber)
  }

  function Firsts(rows: seq<ValidRow>): seq<ValidRow> {
    if rows == [] then []
    else
      var n := |rows| - 1;
      Firsts(rows[..n]) + if Has(rows[..n], rows[n].trackingNumber) then [] else [rows[n]]
  }

  function RepeatErrors(rows: seq<ValidRow>): seq<RowError> {
    if rows == [] then []
    else
      var n := |rows| - 1;
      RepeatErrors(rows[..n])
      + if Has(rows[..n], rows[n].trackingNumber)
        then [RowError(rows[n].line, Some(rows[n].trackingNumber), Some("trackingNumber"),
                       DuplicateInFile(FirstLine(rows[..n], rows[n].trackingNumber)))]
        else []
  }

  lemma SnocValidLines(rows: seq<ValidRow>)
    requires rows != []
    ensures Lines(rows) == Lines(rows[..|rows| - 1]) + [rows[|rows| - 1].line]
  {
  }

  lemma {:induction false} RepeatsSplit(rows: seq<ValidRow>)
    requires Distinct(Lines(rows))
    ensures Splits(Lines(rows), Lines(Firsts(rows)), ErrorLines(RepeatErrors(rows)))
  {
    if rows != [] {
      var n := |rows| - 1;
      SnocValidLines(rows);
      SnocDistinct(Lines(rows[..n]), rows[n].line);
      RepeatsSplit(rows[..n]);
      var kept, dropped := Firsts(rows[..n]), RepeatErrors(rows[..n]);
      if Has(rows[..n], rows[n].trackingNumber) {
        DropOne(Lines(rows[..n]), Lines(kept), ErrorLines(dropped), rows[n].line, [rows[n].line]);
        assert ErrorLines(RepeatErrors(rows)) == ErrorLines(dropped) + [rows[n].line];
        assert Firsts(rows) == kept;
      } else {
        KeepOne(Lines(rows[..n]), Lines(kept), ErrorLines(dropped), rows[n].line);
        assert Lines(Firsts(rows)) == Lines(kept) + [rows[n].line];
        assert RepeatErrors(rows) == dropped;
      }
    }
  }

  /** The row is the first of these valid rows with its number. */
  ghost predicate IsFirstValid(rows: seq<ValidRow>, row: ValidRow) {
    exists i: nat :: IsFirst(rows, i) && rows[i] == row
  }

  /** Row i is the first of the valid rows with its number. */
  ghost predicate IsFirst(rows: seq<ValidRow>, i: nat) {
    i < |rows| && forall j :: 0 <= j < i ==> rows[j].trackingNumber != rows[i].trackingNumber
  }

  lemma {:induction false} FirstsAreFirst(rows: seq<ValidRow>, row: ValidRow)
    requires row in Firsts(rows)
    ensures IsFirstValid(rows, row)
  {
    var n := |rows| - 1;
    if row in Firsts(rows[..n]) {
      FirstsAreFirst(rows[..n], row);
      var i: nat :| IsFirst(rows[..n], i) && rows[..n][i] == row;
      assert forall j :: 0 <= j <= i ==> rows[j] == rows[..n][j];
      assert IsFirst(rows, i);
    } else {
      assert row == rows[n];
      forall j | 0 <= j < n ensures rows[j].trackingNumber != row.trackingNumber {
        assert rows[..n][j] == rows[j];
      }
      assert IsFirst(rows, n);
    }
  }

  lemma {:induction false} FirstsAreDistinct(rows: seq<ValidRow>)
    ensures Distinct(TrackingNumbers(Firsts(rows)))
    ensures forall t :: t in TrackingNumbers(Firsts(rows)) ==> Has(rows, t)
  {
    if rows != [] {
      var n := |rows| - 1;
      FirstsAreDistinct(rows[..n]);
      forall t | Has(rows[..n], t) ensures Has(rows, t) {
        var i :| 0 <= i < n && rows[..n][i].trackingNumber == t;
        assert rows[i].trackingNumber == t;
      }
      if !Has(rows[..n], rows[n].trackingNumber) {
        assert TrackingNumbers(Firsts(rows)) == TrackingNumbers(Firsts(rows[..n])) + [rows[n].trackingNumber];
      } else {
        assert Firsts(rows) == Firsts(rows[..n]);
      }
    }
  }

  // --------------------------------------------------------- filters on single rows

  /** The rows whose position is not in `out`, in order. */
  function Without(rows: seq<ValidRow>, out: set<nat>): seq<ValidRow> {
    if rows == [] then []
    else
      var n := |rows| - 1;
      Without(rows[..n], out) + if n in out then [] else [rows[n]]
  }

  /** The positions of the rows whose number the store already has. */
  function Taken(rows: seq<ValidRow>, existing: set<string>): set<nat> {
    set i | 0 <= i < |rows| && rows[i].trackingNumber in existing
  }

  lemma {:induction false} WithoutKeeps(rows: seq<ValidRow>, out: set<nat>, row: ValidRow)
    ensures row in Without(rows, out) <==> exists i :: 0 <= i < |rows| && i !in out && rows[i] == row
  {
    if rows != [] {
      var n := |rows| - 1;
      WithoutKeeps(rows[..n], out, row);
      if i :| 0 <= i < |rows| && i !in out && rows[i] == row {
        if i < n { assert rows[..n][i] == row; }
      }
      if i :| 0 <= i < n && i !in out && rows[..n][i] == row { assert rows[i] == row; }
    }
  }

  lemma {:induction false} WithoutKeepsDistinct(rows: seq<ValidRow>, out: set<nat>)
    requires Distinct(TrackingNumbers(rows))
    ensures Distinct(TrackingNumbers(Without(rows, out)))
    ensures forall t :: t in TrackingNumbers(Without(rows, out)) ==> t in TrackingNumbers(rows)
  {
    if rows != [] {
      var n := |rows| - 1;
      var init := TrackingNumbers(rows[..n]);
      assert TrackingNumbers(rows) == init + [rows[n].trackingNumber];
      SnocDistinct(init, rows[n].trackingNumber);
      WithoutKeepsDistinct(rows[..n], out);
      if n !in out {
        AppendNew(TrackingNumbers(Without(rows[..n], out)), init, rows[n].trackingNumber);
        assert TrackingNumbers(Without(rows, out))
            == TrackingNumbers(Without(rows[..n], out)) + [rows[n].trackingNumber];
      } else {
        assert Without(rows, out) == Without(rows[..n], out);
      }
    }
  }

  /** Dropping rows splits their lines, whatever errors name exactly the dropped ones. */
  lemma {:induction false} WithoutSplits(rows: seq<ValidRow>, out: set<nat>, dropped: seq<nat>)
    requires Distinct(Lines(rows))
    requires forall l :: l in dropped <==> exists i :: 0 <= i < |rows| && i in out && rows[i].line == l
    ensures Splits(Lines(rows), Lines(Without(rows, out)), dropped)
  {
    WithoutLines(rows, out);
    var kept := Lines(Without(rows, out));
    forall l ensures (l in Lines(rows) <==> l in kept || l in dropped) && !(l in kept && l in dropped) {
      if l in Lines(rows) {
        var i :| 0 <= i < |rows| && Lines(rows)[i] == l;
        assert rows[i].line == l;
      }
      if l in dropped {
        var i :| 0 <= i < |rows| && i in out && rows[i].line == l;
        assert Lines(rows)[i] == l;
      }
    }
  }

  lemma {:induction false} WithoutLines(rows: seq<ValidRow>, out: set<nat>)
    requires Distinct(Lines(rows))
    ensures Distinct(Lines(Without(rows, out)))
    ensures forall l :: l in Lines(Without(rows, out)) <==>
              exists i :: 0 <= i < |rows| && i !in out && Lines(rows)[i] == l
  {
    if rows != [] {
      var n := |rows| - 1;
      SnocValidLines(rows);
      SnocDistinct(Lines(rows[..n]), rows[n].line);
      WithoutLines(rows[..n], out);
      var before := Lines(Without(rows[..n], out));
      assert forall i :: 0 <= i < n ==> Lines(rows)[i] == Lines(rows[..n])[i];
      if n in out {
        assert Without(rows, out) == Without(rows[..n], out);
      } else {
        AppendNew(before, Lines(rows[..n]), rows[n].line);
        assert Lines(Without(rows, out)) == before + [rows[n].line];
        assert Lines(rows)[n] == rows[n].line;
      }
    }
  }

  // ----------------------------------------------------- numbers the store already has

  function ExistingErrors(rows: seq<ValidRow>, existing: set<string>): seq<RowError> {
    if rows == [] then []
    else
      var n := |rows| - 1;
      ExistingErrors(rows[..n], existing)
      + if rows[n].trackingNumber in existing
        then [RowError(rows[n].line, Some(rows[n].trackingNumber), Some("trackingNumber"), AlreadyExists)]
        else []
  }

  lemma {:induction false} ExistingErrorLines(rows: seq<ValidRow>, existing: set<string>, l: nat)
    ensures l in ErrorLines(ExistingErrors(rows, existing)) <==>
              exists i :: 0 <= i < |rows| && i in Taken(rows, existing) && rows[i].line == l
  {
    if rows != [] {
      var n := |rows| - 1;
      var before := ErrorLines(ExistingErrors(rows[..n], existing));
      ExistingErrorLines(rows[..n], existing, l);
      if i :| 0 <= i < n && i in Taken(rows[..n], existing) && rows[..n][i].line == l {
        assert i in Taken(rows, existing) && rows[i].line == l;
      }
      if i :| 0 <= i < |rows| && i in Taken(rows, existing) && rows[i].line == l {
        if i < n { assert i in Taken(rows[..n], existing) && rows[..n][i].line == l; }
      }
      if rows[n].trackingNumber in existing {
        assert n in Taken(rows, existing);
        assert ErrorLines(ExistingErrors(rows, existing)) == before + [rows[n].line];
      } else {
        assert ExistingErrors(rows, existing) == ExistingErrors(rows[..n], existing);
      }
    }
  }

  // ---------------------------------------------------------------- refused documents

  /** A write error is mapped back to its row, or to line 0 if its index is out of range. */
  function RefusalErrors(rows: seq<ValidRow>, writeErrors: seq<WriteError>): seq<RowError> {
    seq(|writeErrors|, i requires 0 <= i < |writeErrors| =>
      var w := writeErrors[i];
      var message := if w.duplicateKey then AlreadyExists else Text(w.message);
      if w.index < |rows|
      then RowError(rows[w.index].line, Some(rows[w.index].trackingNumber), None, message)
      else RowError(0, None, None, message))
  }

  function Refused(writeErrors: seq<WriteError>): set<nat> {
    set i | 0 <= i < |writeErrors| :: writeErrors[i].index
  }

  /** The store answers for exactly these rows: what it did not insert, it reports. */
  ghost predicate ReportsExactly(report: StoreReport, rows: seq<ValidRow>) {
    match report
    case Inserted(docs) => docs == TrackingNumbers(rows)
    case BulkError(docs, writeErrors) =>
      && writeErrors != []
      && (forall i :: 0 <= i < |writeErrors| ==> writeErrors[i].index < |rows|)
      && docs == TrackingNumbers(Without(rows, Refused(writeErrors)))
  }

  lemma RefusalLines(rows: seq<ValidRow>, writeErrors: seq<WriteError>, l: nat)
    requires forall i :: 0 <= i < |writeErrors| ==> writeErrors[i].index < |rows|
    ensures l in ErrorLines(RefusalErrors(rows, writeErrors)) <==>
              exists i :: 0 <= i < |rows| && i in Refused(writeErrors) && rows[i].line == l
  {
    var lines := ErrorLines(RefusalErrors(rows, writeErrors));
    if l in lines {
      var k :| 0 <= k < |lines| && lines[k] == l;
      assert writeErrors[k].index in Refused(writeErrors);
      assert rows[writeErrors[k].index].line == l;
    }
    if i :| 0 <= i < |rows| && i in Refused(writeErrors) && rows[i].line == l {
      var k :| 0 <= k < |writeErrors| && writeErrors[k].index == i;
      assert lines[k] == l;
    }
  }

  // ------------------------------------------------------------------ report in order

  /** The stable sort by line. */
  function SortByLine(errors: seq<RowError>): seq<RowError> {
    StableSort.Sort(errors, (e: RowError) => e.line)
  }

  ghost predicate SortedByLine(errors: seq<RowError>) {
    StableSort.IsSorted(errors, (e: RowError) => e.line)
  }

  // ------------------------------------------------------------------------ the import

  function Deduped(rows: seq<CsvRow>): seq<ValidRow> {
    Firsts(ValidOf(rows))
  }

  function Insertable(rows: seq<CsvRow>, existing: set<string>): seq<ValidRow> {
    Without(Deduped(rows), Taken(Deduped(rows), existing))
  }

  /** The rows that end up in the store, if the report is exact. */
  function CreatedRows(rows: seq<CsvRow>, existing: set<string>, report: StoreReport): seq<ValidRow> {
    var insertable := Insertable(rows, existing);
    if report.BulkError? && insertable != [] then Without(insertable, Refused(report.writeErrors)) else insertable
  }

  function AllErrors(rows: seq<CsvRow>, existing: set<string>, report: StoreReport): seq<RowError> {
    var insertable := Insertable(rows, existing);
    IssuesOf(rows) + RepeatErrors(ValidOf(rows)) + ExistingErrors(Deduped(rows), existing)
    + if report.BulkError? && insertable != [] then RefusalErrors(insertable, report.writeErrors) else []
  }

  lemma ErrorLinesOfSum(a: seq<RowError>, b: seq<RowError>)
    ensures ErrorLines(a + b) == ErrorLines(a) + ErrorLines(b)
  {
  }

  lemma InsertableSplits(rows: seq<CsvRow>, existing: set<string>)
    requires Parses(rows) && Distinct(RowLines(rows))
    ensures Splits(RowLines(rows), Lines(Insertable(rows, existing)),
                   ErrorLines(IssuesOf(rows) + RepeatErrors(ValidOf(rows)) + ExistingErrors(Deduped(rows), existing)))
  {
    var valid, deduped := ValidOf(rows), Deduped(rows);
    var issues, repeats, taken := IssuesOf(rows), RepeatErrors(valid), ExistingErrors(deduped, existing);
    ValidationSplits(rows);
    RepeatsSplit(valid);
    SplitAgain(RowLines(rows), Lines(valid), ErrorLines(issues), Lines(deduped), ErrorLines(repeats));
    forall l ensures l in ErrorLines(taken) <==>
      exists i :: 0 <= i < |deduped| && i in Taken(deduped, existing) && deduped[i].line == l
    {
      ExistingErrorLines(deduped, existing, l);
    }
    WithoutSplits(deduped, Taken(deduped, existing), ErrorLines(taken));
    SplitAgain(RowLines(rows), Lines(deduped), ErrorLines(issues) + ErrorLines(repeats),
               Lines(Insertable(rows, existing)), ErrorLines(taken));
    ErrorLinesOfSum(issues, repeats);
    ErrorLinesOfSum(issues + repeats, taken);
  }

  /** Every line of the file is created, once, or has an error, and never both. */
  lemma ImportSplits(rows: seq<CsvRow>, existing: set<string>, report: StoreReport)
    requires Parses(rows) && Distinct(RowLines(rows))
    requires ReportsExactly(report, Insertable(rows, existing))
    ensures Splits(RowLines(rows), Lines(CreatedRows(rows, existing, report)),
                   ErrorLines(AllErrors(rows, existing, report)))
  {
    var insertable := Insertable(rows, existing);
    var early := IssuesOf(rows) + RepeatErrors(ValidOf(rows)) + ExistingErrors(Deduped(rows), existing);
    InsertableSplits(rows, existing);
    if report.BulkError? && insertable != [] {
      var refusals := RefusalErrors(insertable, report.writeErrors);
      var refused := Refused(report.writeErrors);
      forall l ensures l in ErrorLines(refusals) <==>
        exists i :: 0 <= i < |insertable| && i in refused && insertable[i].line == l
      {
        RefusalLines(insertable, report.writeErrors, l);
      }
      WithoutSplits(insertable, refused, ErrorLines(refusals));
      SplitAgain(RowLines(rows), Lines(insertable), ErrorLines(early),
                 Lines(CreatedRows(rows, existing, report)), ErrorLines(refusals));
      ErrorLinesOfSum(early, refusals);
    } else {
      assert early + [] == early;
    }
  }

  /** What is created carries new, pairwise different numbers, each from its first valid row. */
  lemma CreatedAreNewAndFirst(rows: seq<CsvRow>, existing: set<string>, report: StoreReport)
    ensures Distinct(TrackingNumbers(CreatedRows(rows, existing, report)))
    ensures forall row :: row in CreatedRows(rows, existing, report) ==>
              && row.trackingNumber !in existing
              && IsFirstValid(ValidOf(rows), row)
  {
    var deduped, insertable := Deduped(rows), Insertable(rows, existing);
    var created := CreatedRows(rows, existing, report);
    FirstsAreDistinct(ValidOf(rows));
    WithoutKeepsDistinct(deduped, Taken(deduped, existing));
    if created != insertable { WithoutKeepsDistinct(insertable, Refused(report.writeErrors)); }
    forall row | row in created
      ensures row.trackingNumber !in existing
      ensures IsFirstValid(ValidOf(rows), row)
    {
      if created != insertable { WithoutKeeps(insertable, Refused(report.writeErrors), row); }
      InsertableIsNewAndFirst(rows, existing, row);
    }
  }

  lemma InsertableIsNewAndFirst(rows: seq<CsvRow>, existing: set<string>, row: ValidRow)
    requires row in Insertable(rows, existing)
    ensures row.trackingNumber !in existing
    ensures IsFirstValid(ValidOf(rows), row)
  {
    var deduped := Deduped(rows);
    WithoutKeeps(deduped, Taken(deduped, existing), row);
    var i :| 0 <= i < |deduped| && i !in Taken(deduped, existing) && deduped[i] == row;
    FirstsAreFirst(ValidOf(rows), row);
  }

  lemma SortKeepsLines(errors: seq<RowError>)
    ensures Members(ErrorLines(SortByLine(errors))) == Members(ErrorLines(errors))
    ensures SortedByLine(SortByLine(errors)) && multiset(SortByLine(errors)) == multiset(errors)
  {
    StableSort.SortSorts(errors, (e: RowError) => e.line);
    StableSort.SortPermutes(errors, (e: RowError) => e.line);
    var sorted := SortByLine(errors);
    forall l ensures l in ErrorLines(sorted) <==> l in ErrorLines(errors) {
      if l in ErrorLines(sorted) {
        var i :| 0 <= i < |sorted| && ErrorLines(sorted)[i] == l;
        assert sorted[i] in multiset(errors);
        var j :| 0 <= j < |errors| && errors[j] == sorted[i];
        assert ErrorLines(errors)[j] == l;
      }
      if l in ErrorLines(errors) {
        var i :| 0 <= i < |errors| && ErrorLines(errors)[i] == l;
        assert errors[i] in multiset(sorted);
        var j :| 0 <= j < |sorted| && sorted[j] == errors[i];
        assert ErrorLines(sorted)[j] == l;
      }
    }
  }

  // ------------------------------------------------------------------------ the service

  class BulkDeliveryService {
    constructor () {}

    method ValidateRows(rows: seq<CsvRow>) returns (valid: seq<ValidRow>, errors: seq<RowError>)
      ensures valid == ValidOf(rows) && errors == IssuesOf(rows)
    {
      valid, errors := [], [];
      for i := 0 to |rows|
        invariant valid == ValidOf(rows[..i]) && errors == IssuesOf(rows[..i])
      {
        assert rows[..i + 1][..i] == rows[..i];
        match rows[i].parsed
        case Good(trackingNumber) =>
          valid := valid + [ValidRow(rows[i].line, trackingNumber)];
        case Bad(_) =>
          errors := errors + IssueErrors(rows[i]);
      }
      assert rows[..|rows|] == rows;
    }

    /** `seen` maps each number to the line of its first row. */
    method RejectDuplicateTrackingNumbers(rows: seq<ValidRow>, errors: seq<RowError>)
      returns (unique: seq<ValidRow>, allErrors: seq<RowError>)
      ensures unique == Firsts(rows) && allErrors == errors + RepeatErrors(rows)
    {
      var seen: map<string, nat> := map[];
      unique, allErrors := [], errors;
      for i := 0 to |rows|
        invariant unique == Firsts(rows[..i]) && allErrors == errors + RepeatErrors(rows[..i])
        invariant forall t :: t in seen <==> Has(rows[..i], t)
        invariant forall t :: t in seen ==> seen[t] == FirstLine(rows[..i], t)
      {
        var trackingNumber := rows[i].trackingNumber;
        assert rows[..i + 1][..i] == rows[..i];
        assert rows[..i + 1] == rows[..i] + [rows[i]];
        forall t ensures Has(rows[..i + 1], t) <==> Has(rows[..i], t) || t == trackingNumber {
          SnocHas(rows[..i], rows[i], t);
        }
        forall t | Has(rows[..i + 1], t)
          ensures FirstLine(rows[..i + 1], t) == if Has(rows[..i], t) then FirstLine(rows[..i], t) else rows[i].line
        {
          SnocHas(rows[..i], rows[i], t);
          SnocFirstLine(rows[..i], rows[i], t);
        }
        if trackingNumber in seen {
          allErrors := allErrors + [RowError(rows[i].line, Some(trackingNumber), Some("trackingNumber"),
                                             DuplicateInFile(seen[trackingNumber]))];
        } else {
          seen := seen[trackingNumber := rows[i].line];
          unique := unique + [rows[i]];
        }
      }
      assert rows[..|rows|] == rows;
    }

    method RejectExisting(rows: seq<ValidRow>, existing: set<string>, errors: seq<RowError>)
      returns (insertable: seq<ValidRow>, allErrors: seq<RowError>)
      ensures insertable == Without(rows, Taken(rows, existing))
      ensures allErrors == errors + ExistingErrors(rows, existing)
    {
      insertable, allErrors := [], errors;
      for i := 0 to |rows|
        invariant insertable == Without(rows[..i], Taken(rows, existing))
        invariant allErrors == errors + ExistingErrors(rows[..i], existing)
      {
        assert rows[..i + 1][..i] == rows[..i];
        if rows[i].trackingNumber in existing {
          allErrors := allErrors
            + [RowError(rows[i].line, Some(rows[i].trackingNumber), Some("trackingNumber"), AlreadyExists)];
        } else {
          insertable := insertable + [rows[i]];
        }
      }
      assert rows[..|rows|] == rows;
    }

    /** The unordered insert; a bulk error without write errors is passed on. */
    method Insert(rows: seq<ValidRow>, report: StoreReport, errors: seq<RowError>)
      returns (created: Result<seq<string>, ImportError>, allErrors: seq<RowError>)
      ensures created == Err(WriteFailed) <==> rows != [] && report.BulkError? && report.writeErrors == []
      ensures created.Err? ==> created.error == WriteFailed
      ensures created.Ok? ==>
                if rows == [] then created.value == [] && allErrors == errors
                else
                  match report
                  case Inserted(docs) => created.value == docs && allErrors == errors
                  case BulkError(docs, writeErrors) =>
                    created.value == docs && allErrors == errors + RefusalErrors(rows, writeErrors)
    {
      allErrors := errors;
      if rows == [] { return Ok([]), errors; }
      match report
      case Inserted(docs) => created := Ok(docs);
      case BulkError(docs, writeErrors) =>
        if writeErrors == [] { return Err(WriteFailed), errors; }
        created := Ok(docs);
        for i := 0 to |writeErrors|
          invariant allErrors == errors + RefusalErrors(rows, writeErrors)[..i]
        {
          var w := writeErrors[i];
          var message := if w.duplicateKey then AlreadyExists else Text(w.message);
          allErrors := allErrors
            + [if w.index < |rows|
               then RowError(rows[w.index].line, Some(rows[w.index].trackingNumber), None, message)
               else RowError(0, None, None, message)];
        }
    }

    /**
     * The import. Given distinct line numbers and a store that reports exactly what it
     * did not insert, every row is counted once, as created or as failed.
     */
    method ImportFromCsv(headers: seq<string>, rows: seq<CsvRow>, existing: set<string>, report: StoreReport)
      returns (result: Result<ImportResult, ImportError>)
      requires Parses(rows)
      ensures result.Err? && result.error.MissingColumns? <==> exists c :: c in REQUIRED_COLUMNS && c !in headers
      ensures result.Err? && result.error.MissingColumns? ==>
                forall c :: c in result.error.columns <==> c in REQUIRED_COLUMNS && c !in headers
      ensures result == Err(WriteFailed) <==>
                && (forall c :: c in REQUIRED_COLUMNS ==> c in headers)
                && Insertable(rows, existing) != [] && report.BulkError? && report.writeErrors == []
      ensures result.Ok? ==>
                && result.value.totalRows == |rows|
                && result.value.successCount == |result.value.created|
                && result.value.errors == SortByLine(AllErrors(rows, existing, report))
                && result.value.failureCount == |Members(ErrorLines(result.value.errors))|
      ensures result.Ok? ==>
                && SortedByLine(result.value.errors)
                && multiset(result.value.errors) == multiset(AllErrors(rows, existing, report))
      ensures result.Ok? && Distinct(RowLines(rows)) && ReportsExactly(report, Insertable(rows, existing)) ==>
                && result.value.created == TrackingNumbers(CreatedRows(rows, existing, report))
                && result.value.successCount + result.value.failureCount == result.value.totalRows
                && Distinct(result.value.created)
                && (forall t :: t in result.value.created ==> t !in existing)
                && (forall row :: row in CreatedRows(rows, existing, report) ==>
                     row.line !in ErrorLines(result.value.errors))
    {
      var missing: seq<string> := [];
      for i := 0 to |REQUIRED_COLUMNS|
        invariant forall c :: c in missing <==> c in REQUIRED_COLUMNS[..i] && c !in headers
      {
        if REQUIRED_COLUMNS[i] !in headers { missing := missing + [REQUIRED_COLUMNS[i]]; }
      }
      if missing != [] {
        assert missing[0] in missing;
        return Err(MissingColumns(missing));
      }
      var valid, errors := ValidateRows(rows);
      var deduped;
      deduped, errors := RejectDuplicateTrackingNumbers(valid, errors);
      var insertable;
      insertable, errors := RejectExisting(deduped, existing, errors);
      var created;
      created, errors := Insert(insertable, report, errors);
      if created.Err? { return Err(created.error); }
      assert errors == AllErrors(rows, existing, report);
      SortKeepsLines(errors);
      var failedLines := set i | 0 <= i < |errors| :: errors[i].line;
      FailedLines(errors, failedLines);
      result := Ok(ImportResult(|rows|, |created.value|, |failedLines|, created.value, SortByLine(errors)));
      if Distinct(RowLines(rows)) && ReportsExactly(report, insertable) {
        Accounting(rows, existing, report);
      }
    }
  }

  lemma FailedLines(errors: seq<RowError>, lines: set<nat>)
    requires lines == set i | 0 <= i < |errors| :: errors[i].line
    ensures lines == Members(ErrorLines(errors))
  {
    forall l ensures l in lines <==> l in ErrorLines(errors) {
      if l in lines {
        var i :| 0 <= i < |errors| && errors[i].line == l;
        assert ErrorLines(errors)[i] == l;
      }
    }
  }

  /** The accounting the import promises. */
  lemma Accounting(rows: seq<CsvRow>, existing: set<string>, report: StoreReport)
    requires Parses(rows) && Distinct(RowLines(rows))
    requires ReportsExactly(report, Insertable(rows, existing))
    ensures var created := TrackingNumbers(CreatedRows(rows, existing, report));
            var failed := Members(ErrorLines(SortByLine(AllErrors(rows, existing, report))));
            && |created| + |failed| == |rows|
            && Distinct(created)
            && (forall t :: t in created ==> t !in existing)
            && (forall row :: row in CreatedRows(rows, existing, report) ==> row.line !in failed)
  {
    var rowsCreated := CreatedRows(rows, existing, report);
    ImportSplits(rows, existing, report);
    SplitCounts(RowLines(rows), Lines(rowsCreated), ErrorLines(AllErrors(rows, existing, report)));
    SortKeepsLines(AllErrors(rows, existing, report));
    CreatedAreNewAndFirst(rows, existing, report);
    forall t | t in TrackingNumbers(rowsCreated) ensures t !in existing {
      var i :| 0 <= i < |rowsCreated| && TrackingNumbers(rowsCreated)[i] == t;
      assert rowsCreated[i] in rowsCreated;
    }
    forall row | row in rowsCreated ensures row.line in Lines(rowsCreated) {
      var i :| 0 <= i < |rowsCreated| && rowsCreated[i] == row;
      assert Lines(rowsCreated)[i] == row.line;
    }
  }

  lemma SnocHas(rows: seq<ValidRow>, row: ValidRow, t: string)
    ensures Has(rows + [row], t) <==> Has(rows, t) || t == row.trackingNumber
  {
    if t == row.trackingNumber { assert (rows + [row])[|rows|].trackingNumber == t; }
    if i :| 0 <= i < |rows| && rows[i].trackingNumber == t { assert (rows + [row])[i].trackingNumber == t; }
  }

  lemma {:induction false} SnocFirstLine(rows: seq<ValidRow>, row: ValidRow, t: string)
    requires Has(rows + [row], t)
    ensures FirstLine(rows + [row], t) == if Has(rows, t) then FirstLine(rows, t) else row.line
  {
    if rows != [] && rows[0].trackingNumber != t {
      assert (rows + [row])[1..] == rows[1..] + [row];
      var i :| 0 <= i < |rows + [row]| && (rows + [row])[i].trackingNumber == t;
      assert (rows[1..] + [row])[i - 1].trackingNumber == t;
      SnocFirstLine(rows[1..], row, t);
      if Has(rows, t) {
        var j :| 0 <= j < |rows| && rows[j].trackingNumber == t;
        assert rows[1..][j - 1].trackingNumber == t;
      }
      if Has(rows[1..], t) {
        var j :| 0 <= j < |rows[1..]| && rows[1..][j].trackingNumber == t;
        assert rows[j + 1].trackingNumber == t;
      }
    }
  }
}
