/**
 * The messy-data cleanup game: a small table of weekly values in which a
 * missing value and an outlier can each be fixed with one click, and a
 * counter of the rows still to clean.
 */
module DataCleanup {
  import opened Wrappers
  import opened Counting
  import opened Strings

  datatype Status = Ok | Missing | Outlier

  /** A table row; `value` is `None` where the source holds `null`. */
  datatype Row = Row(id: int, week: string, value: Option<int>, status: Status)

  /** The value a fixed missing row receives. */
  const MissingFill := 145
  /** The value a fixed outlier row receives. */
  const OutlierFill := 150

  function InitialRows(): seq<Row> {
    [ Row(1, "Week 1", Some(120), Ok),
      Row(2, "Week 2", Some(138), Ok),
      Row(3, "Week 3", None, Missing),
      Row(4, "Week 4", Some(860), Outlier),
      Row(5, "Week 5", Some(160), Ok) ]
  }

  function IsClean(r: Row): bool { r.status == Ok }

  /** One row under a fix of `id`: a missing or outlier row with that id gets its fill value and becomes clean. */
  function FixRow(r: Row, id: int): (r': Row)
    ensures r.id != id || r.status == Ok ==> r' == r
    ensures r.id == id && r.status == Missing ==> r' == r.(value := Some(MissingFill), status := Ok)
    ensures r.id == id && r.status == Outlier ==> r' == r.(value := Some(OutlierFill), status := Ok)
  {
    if r.id != id then r
    else match r.status
      case Missing => r.(value := Some(MissingFill), status := Ok)
      case Outlier => r.(value := Some(OutlierFill), status := Ok)
      case Ok => r
  }

  /** Fix the row(s) with the given id, leaving the table's length and order and every other row as they are. */
  function HandleFix(rows: seq<Row>, id: int): (rows': seq<Row>)
    ensures |rows'| == |rows|
    ensures forall i :: 0 <= i < |rows| ==> rows'[i] == FixRow(rows[i], id)
  {
    if rows == [] then [] else [FixRow(rows[0], id)] + HandleFix(rows[1..], id)
  }

  /** The number of rows whose status is not `ok`. */
  function DirtyLeft(rows: seq<Row>): (n: nat)
    ensures n <= |rows|
    ensures n == 0 <==> forall i :: 0 <= i < |rows| ==> rows[i].status == Ok
  {
    CountBy(rows, IsClean, false)
  }

  /** The line under the table. */
  function ProgressLine(rows: seq<Row>): (line: string)
    ensures DirtyLeft(rows) == 0 <==> line == "Done! Dataset is ready for analysis."
  {
    var n := DirtyLeft(rows);
    if n == 0 then "Done! Dataset is ready for analysis."
    else
      var line := NatToString(n) + " rows left to clean";
      assert IsDigit(line[0]);
      line
  }

  /** A row offers the Fix button exactly when it is dirty, and then fixing it cleans it. */
  lemma FixCleansDirtyRow(r: Row)
    ensures r.status != Ok ==> FixRow(r, r.id).status == Ok && FixRow(r, r.id).value.Some?
    ensures FixRow(r, r.id).id == r.id && FixRow(r, r.id).week == r.week
  {
  }

  /** Fixing twice is fixing once. */
  lemma HandleFixIdempotent(rows: seq<Row>, id: int)
    ensures HandleFix(HandleFix(rows, id), id) == HandleFix(rows, id)
  {
  }

  /** A fix never dirties a row: the dirty count drops by the number of dirty rows carrying the id. */
  lemma {:induction false} HandleFixDirtyLeft(rows: seq<Row>, id: int)
    ensures DirtyLeft(HandleFix(rows, id)) == DirtyLeft(rows) - CountBy(rows, DirtyId, Some(id))
  {
    if rows != [] {
      HandleFixDirtyLeft(rows[1..], id);
      assert HandleFix(rows, id)[1..] == HandleFix(rows[1..], id);
    }
  }

  /** The id of a dirty row; `None` for a clean one. */
  function DirtyId(r: Row): Option<int> {
    if r.status == Ok then None else Some(r.id)
  }

  /** With unique ids, fixing a dirty row lowers the dirty count by exactly one. */
  lemma FixDirtyRowDecrements(rows: seq<Row>, i: nat)
    requires i < |rows| && rows[i].status != Ok
    requires forall j, k :: 0 <= j < k < |rows| ==> rows[j].id != rows[k].id
    ensures DirtyLeft(HandleFix(rows, rows[i].id)) == DirtyLeft(rows) - 1
  {
    var id := rows[i].id;
    var f := HandleFix(rows, id);
    assert f == rows[i := FixRow(rows[i], id)];
    CountByUpdate(rows, i, FixRow(rows[i], id), IsClean, false);
  }

  /** The starting table: five weeks, one missing value and one outlier. */
  lemma InitialRowsShape()
    ensures |InitialRows()| == 5
    ensures DirtyLeft(InitialRows()) == 2
    ensures forall j, k :: 0 <= j < k < |InitialRows()| ==> InitialRows()[j].id != InitialRows()[k].id
  {
    var rs := InitialRows();
    CountBySix(rs + [rs[0]], IsClean, false);
    CountBySnoc(rs, rs[0], IsClean, false);
  }

  /** Fixing the two dirty rows of the starting table finishes the game. */
  lemma InitialRowsCleanInTwoFixes()
    ensures DirtyLeft(HandleFix(HandleFix(InitialRows(), 3), 4)) == 0
  {
    var rs := HandleFix(HandleFix(InitialRows(), 3), 4);
    assert forall i :: 0 <= i < 5 ==> rs[i].status == Ok;
  }
}
