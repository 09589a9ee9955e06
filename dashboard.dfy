/** The dashboard's row-level logic: the overall-statistics tally of
    validation statuses across all rows, and the Previous/Next cursor over
    the rows of the loaded table. */
module Dashboard {
  import opened Values
  import opened DataModels
  import opened Validations

  /** The fields the overall statistics cover: every validated field except
      `handwritten_notes`. */
  const Columns: seq<string> := [
    "text_quality_score", "courier_partner", "awb_number", "recipient_name",
    "recipient_address", "recipient_signature", "recipient_stamp", "delivery_date"
  ]

  /** The JSON cell of one row: empty (NaN), not parseable as an
      `ImageMaster`, or parsed. */
  datatype Row = Blank | Malformed | Parsed(doc: ImageMaster)

  /** One line of the overall statistics table (its integer columns). */
  datatype Tally = Tally(field: string, totalCount: nat, totalMatch: nat, totalNull: nat, hallucinationCount: nat)

  /** The counters of one column. */
  datatype Buckets = Buckets(matched: nat, nulls: nat, hallucinated: nat)

  /** A row is validated when its JSON parsed and both its structured info
      and its reference info are truthy. */
  predicate Validated(row: Row)
  {
    row.Parsed? && row.doc.structuredInfo.Present?
    && row.doc.referenceInfo.Present? && row.doc.referenceInfo.value != []
  }

  /** The status a validated row gives a column. */
  function StatusOf(row: Row, column: string): Status
    requires Validated(row)
  {
    FieldResultFor(row.doc.structuredInfo.value, row.doc.referenceInfo, column).status
  }

  /** The counters after the rows in order: each validated row adds one to
      the bucket of its status, every other row is skipped. */
  function CountRows(rows: seq<Row>, column: string): (b: Buckets)
    ensures b.matched + b.nulls + b.hallucinated <= |rows|
    ensures (forall k | 0 <= k < |rows| :: !Validated(rows[k])) ==> b == Buckets(0, 0, 0)
  {
    if rows == [] then Buckets(0, 0, 0)
    else
      var b := CountRows(rows[..|rows| - 1], column);
      var row := rows[|rows| - 1];
      if !Validated(row) then b
      else match StatusOf(row, column)
        case Match => b.(matched := b.matched + 1)
        case Hallucination => b.(hallucinated := b.hallucinated + 1)
        case Null => b.(nulls := b.nulls + 1)
  }

  /** The line of the statistics table for one column. */
  function ColumnTally(rows: seq<Row>, column: string): Tally
  {
    var b := CountRows(rows, column);
    Tally(column, |rows|, b.matched, b.nulls, b.hallucinated)
  }

  /** The number of validated rows. */
  function ValidatedRows(rows: seq<Row>): nat
  {
    if rows == [] then 0
    else ValidatedRows(rows[..|rows| - 1]) + (if Validated(rows[|rows| - 1]) then 1 else 0)
  }

  /** Computes the overall statistics: for each column, every row is
      validated afresh and its status counted. */
  method OverallStatistics(rows: seq<Row>, threshold: int) returns (overallData: seq<Tally>)
    ensures |overallData| == |Columns|
    ensures forall c :: 0 <= c < |Columns| ==> overallData[c] == ColumnTally(rows, Columns[c])
  {
    overallData := [];
    for c := 0 to |Columns|
      invariant |overallData| == c
      invariant forall d :: 0 <= d < c ==> overallData[d] == ColumnTally(rows, Columns[d])
    {
      var column := Columns[c];
      var totalCount := |rows|;
      var totalNull, hallucinationCount, totalMatch := 0, 0, 0;
      for r := 0 to |rows|
        invariant CountRows(rows[..r], column) == Buckets(totalMatch, totalNull, hallucinationCount)
      {
        assert rows[..r + 1][..r] == rows[..r];
        var row := rows[r];
        if row.Parsed? {
          var imageMaster := row.doc;
          if imageMaster.structuredInfo.Present? && imageMaster.referenceInfo.Present? && imageMaster.referenceInfo.value != [] {
            var fieldResults := ValidateStructuredInfo(imageMaster.structuredInfo.value, imageMaster.referenceInfo, threshold);
            if column in fieldResults {
              var status := fieldResults[column].status;
              if status == Match {
                totalMatch := totalMatch + 1;
              } else if status == Hallucination {
                hallucinationCount := hallucinationCount + 1;
              } else {
                totalNull := totalNull + 1;
              }
            } else {
              totalNull := totalNull + 1;
            }
          }
        }
      }
      assert rows[..|rows|] == rows;
      overallData := overallData + [Tally(column, totalCount, totalMatch, totalNull, hallucinationCount)];
    }
  }

  /** Each validated row lands in exactly one bucket and every other row in
      none, so the three counts add up to the validated rows, never more
      than the total. */
  lemma {:induction false} BucketsCountValidatedRows(rows: seq<Row>, column: string)
    ensures var b := CountRows(rows, column);
            b.matched + b.nulls + b.hallucinated == ValidatedRows(rows) <= |rows|
  {
    if rows != [] {
      BucketsCountValidatedRows(rows[..|rows| - 1], column);
    }
  }

  /** The statistics line of a column never counts more than the rows. */
  lemma TallyBounded(rows: seq<Row>, column: string)
    ensures var t := ColumnTally(rows, column);
            t.totalMatch + t.totalNull + t.hallucinationCount <= t.totalCount == |rows|
  {
    BucketsCountValidatedRows(rows, column);
  }

  /** When every row is validated the three counts add up to the total. */
  lemma {:induction false} AllValidatedFillsTally(rows: seq<Row>, column: string)
    requires forall k | 0 <= k < |rows| :: Validated(rows[k])
    ensures var t := ColumnTally(rows, column);
            t.totalMatch + t.totalNull + t.hallucinationCount == t.totalCount
  {
    BucketsCountValidatedRows(rows, column);
    AllValidatedCounted(rows);
  }

  lemma {:induction false} AllValidatedCounted(rows: seq<Row>)
    requires forall k | 0 <= k < |rows| :: Validated(rows[k])
    ensures ValidatedRows(rows) == |rows|
  {
    if rows != [] {
      AllValidatedCounted(rows[..|rows| - 1]);
    }
  }

  /** Every tallied column is a validated field, and `handwritten_notes`,
      though validated, is never tallied. */
  lemma ColumnsAreValidatedFields()
    ensures forall c | c in Columns :: c in Fields
    ensures "handwritten_notes" in Fields && "handwritten_notes" !in Columns
  {
  }

  /** `max(0, i - 1)`, where Previous moves the cursor. */
  function PreviousIndex(i: int): int
  {
    if i - 1 > 0 then i - 1 else 0
  }

  /** `min(n - 1, i + 1)`, where Next moves the cursor over `n` rows. */
  function NextIndex(i: int, n: nat): int
  {
    if n - 1 < i + 1 then n - 1 else i + 1
  }

  /** For a non-empty table a cursor on a row stays on a row: Previous moves
      one row back except on the first row, Next one row on except on the
      last. Next also brings a cursor left past the end back to the last row. */
  lemma CursorStaysInRange(i: int, n: nat)
    requires n > 0
    ensures 0 <= i < n ==> 0 <= PreviousIndex(i) < n && 0 <= NextIndex(i, n) < n
    ensures 0 <= i < n ==> PreviousIndex(i) == (if i == 0 then 0 else i - 1)
    ensures 0 <= i < n ==> NextIndex(i, n) == (if i == n - 1 then n - 1 else i + 1)
    ensures i >= n - 1 ==> NextIndex(i, n) == n - 1
  {
  }

  /** The row cursor kept in the session state. */
  class Viewer {
    /** `len(df)` */
    const rowCount: nat
    var selectedIndex: int

    constructor (rowCount: nat)
      ensures this.rowCount == rowCount && selectedIndex == 0
    {
      this.rowCount := rowCount;
      selectedIndex := 0;
    }

    ghost predicate OnRow()
      reads this
    {
      0 <= selectedIndex < rowCount
    }

    /** The Previous button. */
    method Previous()
      modifies this
      ensures selectedIndex == PreviousIndex(old(selectedIndex))
      ensures old(OnRow()) ==> OnRow()
    {
      selectedIndex := if 0 > selectedIndex - 1 then 0 else selectedIndex - 1;
    }

    /** The Next button. */
    method Next()
      modifies this
      ensures selectedIndex == NextIndex(old(selectedIndex), rowCount)
      ensures old(OnRow()) ==> OnRow()
    {
      selectedIndex := if rowCount - 1 < selectedIndex + 1 then rowCount - 1 else selectedIndex + 1;
    }

    /** The row picked in the sidebar's select box, one of the table's row labels. */
    method Select(index: int)
      requires 0 <= index < rowCount
      modifies this
      ensures selectedIndex == index && OnRow()
    {
      selectedIndex := index;
    }
  }
}
