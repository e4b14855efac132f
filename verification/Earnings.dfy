/** A driver's earnings: released escrows grouped into periods, rounded, and summed up. */
module Earnings {
  import opened Common
  import opened Rounding
  import opened Text

  type Time = int

  /** A period label; labels are ordered like the strings they stand for. */
  type Label = int

  datatype GroupBy = Day | Week | Month

  /** An escrow joined with its delivery; `driverId` is None if there is no delivery. */
  datatype Escrow = Escrow(released: bool, driverId: Option<string>, amount: real, releasedAt: Option<Time>, updatedAt: Time)

  datatype Query = Query(driverId: string, groupBy: Option<string>, start: Option<Time>, end: Option<Time>)

  datatype QueryError = DriverIdRequired | UnknownGroupBy | StartAfterEnd

  datatype Period = Period(tag: Label, totalAmount: real, deliveryCount: nat)

  datatype Summary = Summary(totalAmount: real, totalDeliveries: nat)

  datatype Ledger = Ledger(periods: seq<Period>, summary: Summary)

  /** The label of a date under a grouping. */
  type Labelling = (GroupBy, Time) -> Label

  predicate InRange(at: Option<Time>, start: Option<Time>, end: Option<Time>) {
    (start.None? && end.None?) ||
    (at.Some? && (start.Some? ==> start.value <= at.value) && (end.Some? ==> at.value <= end.value))
  }

  predicate Matches(e: Escrow, q: Query) {
    e.released && e.driverId == Some(q.driverId) && InRange(e.releasedAt, q.start, q.end)
  }

  function Select(escrows: seq<Escrow>, q: Query): seq<Escrow> {
    if escrows == [] then []
    else (if Matches(escrows[0], q) then [escrows[0]] else []) + Select(escrows[1..], q)
  }

  function DateOf(e: Escrow): Time {
    if e.releasedAt.Some? then e.releasedAt.value else e.updatedAt
  }

  // ------------------------------------------------------------------------ grouping

  /** One more escrow in the rows, which are kept in the order of their labels. */
  function AddTo(rows: seq<Period>, tag: Label, amount: real): seq<Period> {
    if rows == [] || tag < rows[0].tag then [Period(tag, amount, 1)] + rows
    else if tag == rows[0].tag
    then [Period(tag, rows[0].totalAmount + amount, rows[0].deliveryCount + 1)] + rows[1..]
    else [rows[0]] + AddTo(rows[1..], tag, amount)
  }

  /** The rows of the aggregation. */
  function Group(escrows: seq<Escrow>, groupBy: GroupBy, tag: Labelling): seq<Period> {
    if escrows == [] then []
    else AddTo(Group(escrows[1..], groupBy, tag), tag(groupBy, DateOf(escrows[0])), escrows[0].amount)
  }

  ghost predicate StrictlyOrdered(rows: seq<Period>) {
    forall i, j :: 0 <= i < j < |rows| ==> rows[i].tag < rows[j].tag
  }

  function ExactSum(escrows: seq<Escrow>): real {
    if escrows == [] then 0.0 else escrows[0].amount + ExactSum(escrows[1..])
  }

  /** The escrows that fall into one period. */
  function InPeriod(escrows: seq<Escrow>, groupBy: GroupBy, tag: Labelling, l: Label): seq<Escrow> {
    if escrows == [] then []
    else
      (if tag(groupBy, DateOf(escrows[0])) == l then [escrows[0]] else []) + InPeriod(escrows[1..], groupBy, tag, l)
  }

  function AmountOf(rows: seq<Period>): real {
    if rows == [] then 0.0 else rows[0].totalAmount + AmountOf(rows[1..])
  }

  function CountOf(rows: seq<Period>): nat {
    if rows == [] then 0 else rows[0].deliveryCount + CountOf(rows[1..])
  }

  lemma {:induction false} AddToConserves(rows: seq<Period>, tag: Label, amount: real)
    ensures AmountOf(AddTo(rows, tag, amount)) == AmountOf(rows) + amount
    ensures CountOf(AddTo(rows, tag, amount)) == CountOf(rows) + 1
  {
    if rows == [] || tag < rows[0].tag {
      assert ([Period(tag, amount, 1)] + rows)[1..] == rows;
    } else if tag == rows[0].tag {
    } else {
      AddToConserves(rows[1..], tag, amount);
    }
  }

  lemma {:induction false} AddToOrders(rows: seq<Period>, tag: Label, amount: real)
    requires StrictlyOrdered(rows)
    ensures StrictlyOrdered(AddTo(rows, tag, amount))
    ensures forall r :: r in AddTo(rows, tag, amount) ==> r.tag == tag || exists q :: q in rows && q.tag == r.tag
  {
    if rows != [] && tag > rows[0].tag {
      var tail := AddTo(rows[1..], tag, amount);
      AddToOrders(rows[1..], tag, amount);
      forall i | 0 <= i < |tail| ensures tail[i].tag > rows[0].tag {
        assert tail[i] in tail;
      }
    }
  }

  /** Grouping loses nothing, whatever the periods. */
  lemma {:induction false} GroupingConserves(escrows: seq<Escrow>, groupBy: GroupBy, tag: Labelling)
    ensures AmountOf(Group(escrows, groupBy, tag)) == ExactSum(escrows)
    ensures CountOf(Group(escrows, groupBy, tag)) == |escrows|
  {
    if escrows != [] {
      GroupingConserves(escrows[1..], groupBy, tag);
      var rows := Group(escrows[1..], groupBy, tag);
      AddToConserves(rows, tag(groupBy, DateOf(escrows[0])), escrows[0].amount);
    }
  }

  /** What the rows say about one label. */
  function RowOf(rows: seq<Period>, l: Label): (real, nat) {
    if rows == [] then (0.0, 0)
    else if rows[0].tag == l then (rows[0].totalAmount, rows[0].deliveryCount)
    else RowOf(rows[1..], l)
  }

  lemma {:induction false} AddToRow(rows: seq<Period>, tag: Label, amount: real, l: Label)
    requires StrictlyOrdered(rows)
    ensures var was := RowOf(rows, l);
            RowOf(AddTo(rows, tag, amount), l)
            == if l == tag then (was.0 + amount, was.1 + 1) else was
  {
    if rows == [] || tag < rows[0].tag {
      var added := [Period(tag, amount, 1)] + rows;
      assert added[1..] == rows;
      if l == tag { AbsentRow(rows, l); }
    } else if tag == rows[0].tag {
    } else {
      AddToRow(rows[1..], tag, amount, l);
      assert ([rows[0]] + AddTo(rows[1..], tag, amount))[1..] == AddTo(rows[1..], tag, amount);
    }
  }

  lemma {:induction false} AbsentRow(rows: seq<Period>, l: Label)
    requires forall i :: 0 <= i < |rows| ==> rows[i].tag != l
    ensures RowOf(rows, l) == (0.0, 0)
  {
    if rows != [] { AbsentRow(rows[1..], l); }
  }

  lemma {:induction false} GroupIsOrdered(escrows: seq<Escrow>, groupBy: GroupBy, tag: Labelling)
    ensures StrictlyOrdered(Group(escrows, groupBy, tag))
  {
    if escrows != [] {
      GroupIsOrdered(escrows[1..], groupBy, tag);
      AddToOrders(Group(escrows[1..], groupBy, tag), tag(groupBy, DateOf(escrows[0])), escrows[0].amount);
    }
  }

  lemma SumOfCons(e: Escrow, rest: seq<Escrow>)
    ensures ExactSum([e] + rest) == e.amount + ExactSum(rest)
  {
    assert ([e] + rest)[1..] == rest;
  }

  /** Each period has the sum and the number of exactly the escrows with its label. */
  lemma {:induction false} RowsHoldTheirEscrows(escrows: seq<Escrow>, groupBy: GroupBy, tag: Labelling, l: Label)
    ensures RowOf(Group(escrows, groupBy, tag), l).0 == ExactSum(InPeriod(escrows, groupBy, tag, l))
    ensures RowOf(Group(escrows, groupBy, tag), l).1 == |InPeriod(escrows, groupBy, tag, l)|
  {
    if escrows != [] {
      var e, rest := escrows[0], escrows[1..];
      var own := tag(groupBy, DateOf(e));
      GroupIsOrdered(rest, groupBy, tag);
      RowsHoldTheirEscrows(rest, groupBy, tag, l);
      AddToRow(Group(rest, groupBy, tag), own, e.amount, l);
      assert Group(escrows, groupBy, tag) == AddTo(Group(rest, groupBy, tag), own, e.amount);
      if own == l {
        SumOfCons(e, InPeriod(rest, groupBy, tag, l));
        assert InPeriod(escrows, groupBy, tag, l) == [e] + InPeriod(rest, groupBy, tag, l);
      } else {
        assert InPeriod(escrows, groupBy, tag, l) == [] + InPeriod(rest, groupBy, tag, l);
        assert [] + InPeriod(rest, groupBy, tag, l) == InPeriod(rest, groupBy, tag, l);
      }
    }
  }

  // ------------------------------------------------------------------------- summary

  function Rounded(rows: seq<Period>): seq<Period> {
    seq(|rows|, i requires 0 <= i < |rows| => rows[i].(totalAmount := Round2(rows[i].totalAmount)))
  }

  /** The fold over the periods, which rounds again at every step. */
  function Fold(periods: seq<Period>): Summary {
    if periods == [] then Summary(0.0, 0)
    else
      var acc := Fold(periods[..|periods| - 1]);
      var p := periods[|periods| - 1];
      Summary(Round2(acc.totalAmount + p.totalAmount), acc.totalDeliveries + p.deliveryCount)
  }

  lemma {:induction false} SumsOfSnoc(rows: seq<Period>)
    requires rows != []
    ensures var n := |rows| - 1;
            && AmountOf(rows) == AmountOf(rows[..n]) + rows[n].totalAmount
            && CountOf(rows) == CountOf(rows[..n]) + rows[n].deliveryCount
  {
    if |rows| > 1 {
      SumsOfSnoc(rows[1..]);
      assert rows[1..][..|rows| - 2] == rows[..|rows| - 1][1..];
    }
  }

  /** The re-rounding inside the fold changes nothing: the summary is the sum of the periods. */
  lemma {:induction false} FoldIsPlainSum(rows: seq<Period>)
    ensures Fold(Rounded(rows)).totalAmount == AmountOf(Rounded(rows))
    ensures Fold(Rounded(rows)).totalDeliveries == CountOf(rows)
    ensures IsCents(AmountOf(Rounded(rows)))
  {
    if rows == [] {
      assert 0.0 == Cents(0);
    } else {
      var n := |rows| - 1;
      FoldIsPlainSum(rows[..n]);
      assert Rounded(rows)[..n] == Rounded(rows[..n]);
      SumsOfSnoc(Rounded(rows));
      SumsOfSnoc(rows);
      RoundedIsCents(rows[n].totalAmount);
      CentsAreFixed(AmountOf(Rounded(rows[..n])), Round2(rows[n].totalAmount));
    }
  }

  lemma {:induction false} RoundingErrorsAddUp(rows: seq<Period>)
    ensures AmountOf(rows) - 0.005 * |rows| as real <= AmountOf(Rounded(rows))
    ensures AmountOf(Rounded(rows)) <= AmountOf(rows) + 0.005 * |rows| as real
  {
    if rows != [] {
      var n := |rows| - 1;
      RoundingErrorsAddUp(rows[..n]);
      assert Rounded(rows)[..n] == Rounded(rows[..n]);
      SumsOfSnoc(Rounded(rows));
      SumsOfSnoc(rows);
      RoundingError(rows[n].totalAmount);
    }
  }

  function BuildLedger(escrows: seq<Escrow>, q: Query, groupBy: GroupBy, tag: Labelling): Ledger {
    var periods := Rounded(Group(Select(escrows, q), groupBy, tag));
    Ledger(periods, Fold(periods))
  }

  /** The grouping asked for; days if none is named. */
  function ParseGroupBy(name: Option<string>): Option<GroupBy> {
    match name
    case None => Some(Day)
    case Some("day") => Some(Day)
    case Some("week") => Some(Week)
    case Some("month") => Some(Month)
    case Some(_) => None
  }

  /** The validation, then the ledger of the matching escrows. */
  function GetDriverEarnings(escrows: seq<Escrow>, q: Query, tag: Labelling): Result<Ledger, QueryError> {
    if Trim(q.driverId) == "" then Err(DriverIdRequired)
    else if ParseGroupBy(q.groupBy).None? then Err(UnknownGroupBy)
    else if q.start.Some? && q.end.Some? && q.start.value > q.end.value then Err(StartAfterEnd)
    else Ok(BuildLedger(escrows, q, ParseGroupBy(q.groupBy).value, tag))
  }

  /**
   * The summary counts every matching escrow and is off the exact sum by at most half a
   * hundredth for each period.
   */
  lemma SummaryIsClose(escrows: seq<Escrow>, q: Query, tag: Labelling)
    requires GetDriverEarnings(escrows, q, tag).Ok?
    ensures var ledger := GetDriverEarnings(escrows, q, tag).value;
            var exact := ExactSum(Select(escrows, q));
            && ledger.summary.totalDeliveries == |Select(escrows, q)|
            && ledger.summary.totalAmount == AmountOf(ledger.periods)
            && exact - 0.005 * |ledger.periods| as real <= ledger.summary.totalAmount
            && ledger.summary.totalAmount <= exact + 0.005 * |ledger.periods| as real
  {
    var rows := Group(Select(escrows, q), ParseGroupBy(q.groupBy).value, tag);
    GroupingConserves(Select(escrows, q), ParseGroupBy(q.groupBy).value, tag);
    FoldIsPlainSum(rows);
    RoundingErrorsAddUp(rows);
  }

  /** Two groupings of the same escrows differ by at most half a hundredth for each period of either. */
  lemma GroupingsAgree(escrows: seq<Escrow>, q: Query, tag: Labelling, first: Option<string>, second: Option<string>)
    requires GetDriverEarnings(escrows, q.(groupBy := first), tag).Ok?
    requires GetDriverEarnings(escrows, q.(groupBy := second), tag).Ok?
    ensures var a := GetDriverEarnings(escrows, q.(groupBy := first), tag).value;
            var b := GetDriverEarnings(escrows, q.(groupBy := second), tag).value;
            var slack := 0.005 * (|a.periods| + |b.periods|) as real;
            && a.summary.totalDeliveries == b.summary.totalDeliveries
            && a.summary.totalAmount - slack <= b.summary.totalAmount <= a.summary.totalAmount + slack
  {
    SelectIgnoresGrouping(escrows, q, first);
    SelectIgnoresGrouping(escrows, q, second);
    SummaryIsClose(escrows, q.(groupBy := first), tag);
    SummaryIsClose(escrows, q.(groupBy := second), tag);
  }

  lemma {:induction false} SelectIgnoresGrouping(escrows: seq<Escrow>, q: Query, groupBy: Option<string>)
    ensures Select(escrows, q.(groupBy := groupBy)) == Select(escrows, q)
  {
    if escrows != [] { SelectIgnoresGrouping(escrows[1..], q, groupBy); }
  }
}
