/**
 * Session snapshots and their CSV export: one header row, then one row per
 * recorded point, each row holding the snapshot's summary fields followed by
 * the point's fields. CSV text is abstracted to rows of cells; a cell keeps
 * the value written into it, and a missing value is an empty cell.
 */
module SessionArtifacts {
  import opened Wrappers

  /** `SessionPoint`; floating-point fields are real numbers. */
  datatype SessionPoint = SessionPoint(
    stepLabel: string,
    tLabel: string,
    expectedPowerWatts: int,
    actualPowerWatts: Option<int>,
    expectedCadenceRpm: real,
    actualCadenceRpm: Option<real>,
    powerInZone: Option<bool>,
    cadenceInZone: Option<bool>)

  /** `SessionSnapshot`: the session summary and its points in recording order. */
  datatype SessionSnapshot = SessionSnapshot(
    snapshotId: string,
    startedAtUtc: string,
    endedAtUtc: string,
    workoutName: string,
    targetMode: string,
    ftpWatts: int,
    completed: bool,
    plannedDurationSec: int,
    elapsedDurationSec: int,
    distanceKm: real,
    avgPowerWatts: Option<real>,
    avgCadenceRpm: Option<real>,
    avgSpeedKmh: Option<real>,
    powerCompliancePct: Option<real>,
    rpmCompliancePct: Option<real>,
    bothCompliancePct: Option<real>,
    points: seq<SessionPoint>)

  /** A CSV cell: the value written into it, or nothing for `None`. */
  datatype Cell = Text(s: string) | Whole(i: int) | Flag(b: bool) | Decimal(r: real) | Empty

  function IntCell(v: Option<int>): Cell { if v.Some? then Whole(v.value) else Empty }
  function RealCell(v: Option<real>): Cell { if v.Some? then Decimal(v.value) else Empty }
  function BoolCell(v: Option<bool>): Cell { if v.Some? then Flag(v.value) else Empty }

  /** `save_snapshot` writes `<snapshot_id>.json` in the target directory. */
  function SnapshotFileName(snapshotId: string): (f: string)
    ensures |f| == |snapshotId| + 5 && f[..|snapshotId|] == snapshotId && f[|snapshotId|..] == ".json"
  {
    snapshotId + ".json"
  }

  /** `export_snapshot_csv` writes `<snapshot_id>.csv` in the target directory. */
  function CsvFileName(snapshotId: string): (f: string)
    ensures |f| == |snapshotId| + 4 && f[..|snapshotId|] == snapshotId && f[|snapshotId|..] == ".csv"
  {
    snapshotId + ".csv"
  }

  /** The JSON and CSV files of one snapshot never share a name, and distinct snapshots never share one either. */
  lemma FileNamesDistinct(id1: string, id2: string)
    ensures SnapshotFileName(id1) != CsvFileName(id2)
    ensures SnapshotFileName(id1) == SnapshotFileName(id2) <==> id1 == id2
    ensures CsvFileName(id1) == CsvFileName(id2) <==> id1 == id2
  {
    var j1, c2 := SnapshotFileName(id1), CsvFileName(id2);
    assert j1[|j1| - 1] == 'n' && c2[|c2| - 1] == 'v';
    if SnapshotFileName(id1) == SnapshotFileName(id2) {
      assert id1 == SnapshotFileName(id1)[..|id1|];
    }
    if CsvFileName(id1) == CsvFileName(id2) {
      assert id1 == CsvFileName(id1)[..|id1|];
    }
  }

  /** The column names of the header row, in the order they are written. */
  const HeaderNames: seq<string> := [
    "snapshot_id", "workout_name", "started_at_utc", "ended_at_utc",
    "target_mode", "ftp_watts", "completed", "planned_duration_sec",
    "elapsed_duration_sec", "distance_km", "avg_power_watts", "avg_cadence_rpm",
    "avg_speed_kmh", "power_compliance_pct", "rpm_compliance_pct", "both_compliance_pct",
    "t_label", "step_label", "expected_power_watts", "actual_power_watts",
    "expected_cadence_rpm", "actual_cadence_rpm", "power_in_zone", "cadence_in_zone"]

  /** The header row: every column name as a text cell. */
  function HeaderRow(): (row: seq<Cell>)
    ensures |row| == |HeaderNames|
    ensures forall k :: 0 <= k < |row| ==> row[k] == Text(HeaderNames[k])
  {
    seq(|HeaderNames|, k requires 0 <= k < |HeaderNames| => Text(HeaderNames[k]))
  }

  /** The header has 24 columns, `t_label` at index 16 and `step_label` at index 17. */
  lemma HeaderLayout()
    ensures |HeaderRow()| == 24
    ensures HeaderRow()[16] == Text("t_label") && HeaderRow()[17] == Text("step_label")
  {
  }

  /** No column name appears twice, so a name picks one column. */
  lemma HeaderNamesDistinct()
    ensures forall i, j :: 0 <= i < j < |HeaderNames| ==> HeaderNames[i] != HeaderNames[j]
  {
  }

  /** The first sixteen cells of every data row: the snapshot's summary. */
  function SnapshotCells(s: SessionSnapshot): seq<Cell>
  {
    [Text(s.snapshotId), Text(s.workoutName), Text(s.startedAtUtc), Text(s.endedAtUtc),
     Text(s.targetMode), Whole(s.ftpWatts), Flag(s.completed), Whole(s.plannedDurationSec),
     Whole(s.elapsedDurationSec), Decimal(s.distanceKm), RealCell(s.avgPowerWatts), RealCell(s.avgCadenceRpm),
     RealCell(s.avgSpeedKmh), RealCell(s.powerCompliancePct), RealCell(s.rpmCompliancePct), RealCell(s.bothCompliancePct)]
  }

  /** The last eight cells of a data row: the point, its time label before its step label. */
  function PointCells(p: SessionPoint): seq<Cell>
  {
    [Text(p.tLabel), Text(p.stepLabel), Whole(p.expectedPowerWatts), IntCell(p.actualPowerWatts),
     Decimal(p.expectedCadenceRpm), RealCell(p.actualCadenceRpm), BoolCell(p.powerInZone), BoolCell(p.cadenceInZone)]
  }

  /** The data row written for one point of a snapshot. */
  function DataRow(s: SessionSnapshot, p: SessionPoint): (row: seq<Cell>)
    ensures |row| == |HeaderNames|
  {
    SnapshotCells(s) + PointCells(p)
  }

  /**
   * The value a field name stands for: the snapshot's fields, and the point's
   * under their own names; nothing for any other name.
   */
  function FieldNamed(s: SessionSnapshot, p: SessionPoint, name: string): Option<Cell>
  {
    match name
    case "snapshot_id" => Some(Text(s.snapshotId))
    case "started_at_utc" => Some(Text(s.startedAtUtc))
    case "ended_at_utc" => Some(Text(s.endedAtUtc))
    case "workout_name" => Some(Text(s.workoutName))
    case "target_mode" => Some(Text(s.targetMode))
    case "ftp_watts" => Some(Whole(s.ftpWatts))
    case "completed" => Some(Flag(s.completed))
    case "planned_duration_sec" => Some(Whole(s.plannedDurationSec))
    case "elapsed_duration_sec" => Some(Whole(s.elapsedDurationSec))
    case "distance_km" => Some(Decimal(s.distanceKm))
    case "avg_power_watts" => Some(RealCell(s.avgPowerWatts))
    case "avg_cadence_rpm" => Some(RealCell(s.avgCadenceRpm))
    case "avg_speed_kmh" => Some(RealCell(s.avgSpeedKmh))
    case "power_compliance_pct" => Some(RealCell(s.powerCompliancePct))
    case "rpm_compliance_pct" => Some(RealCell(s.rpmCompliancePct))
    case "both_compliance_pct" => Some(RealCell(s.bothCompliancePct))
    case "step_label" => Some(Text(p.stepLabel))
    case "t_label" => Some(Text(p.tLabel))
    case "expected_power_watts" => Some(Whole(p.expectedPowerWatts))
    case "actual_power_watts" => Some(IntCell(p.actualPowerWatts))
    case "expected_cadence_rpm" => Some(Decimal(p.expectedCadenceRpm))
    case "actual_cadence_rpm" => Some(RealCell(p.actualCadenceRpm))
    case "power_in_zone" => Some(BoolCell(p.powerInZone))
    case "cadence_in_zone" => Some(BoolCell(p.cadenceInZone))
    case _ => None
  }

  /** The first eight summary columns: identity, mode and durations of the session. */
  lemma SessionColumns(s: SessionSnapshot, p: SessionPoint)
    ensures forall k :: 0 <= k < 8 ==> FieldNamed(s, p, HeaderNames[k]) == Some(SnapshotCells(s)[k])
  {
  }

  /** The next eight summary columns: elapsed time, distance and the averages. */
  lemma AverageColumns(s: SessionSnapshot, p: SessionPoint)
    ensures forall k :: 8 <= k < 16 ==> FieldNamed(s, p, HeaderNames[k]) == Some(SnapshotCells(s)[k])
  {
  }

  /** The point columns: each of the last eight cells holds the point field its header names. */
  lemma PointColumns(s: SessionSnapshot, p: SessionPoint)
    ensures forall k :: 0 <= k < 8 ==> FieldNamed(s, p, HeaderNames[16 + k]) == Some(PointCells(p)[k])
  {
  }

  /** Every cell of a data row holds the field its column's header names. */
  lemma RowMatchesHeader(s: SessionSnapshot, p: SessionPoint)
    ensures forall k :: 0 <= k < |HeaderNames| ==> FieldNamed(s, p, HeaderNames[k]) == Some(DataRow(s, p)[k])
  {
    SessionColumns(s, p);
    AverageColumns(s, p);
    PointColumns(s, p);
    var row := DataRow(s, p);
    forall k | 0 <= k < |HeaderNames|
      ensures FieldNamed(s, p, HeaderNames[k]) == Some(row[k])
    {
      if k < 16 {
        assert row[k] == SnapshotCells(s)[k];
      } else {
        assert row[k] == PointCells(p)[k - 16];
      }
    }
  }

  /** Data rows of one snapshot agree on their first sixteen cells; the rest is the point's. */
  lemma RowsShareSummary(s: SessionSnapshot, p: SessionPoint, q: SessionPoint)
    ensures DataRow(s, p)[..16] == DataRow(s, q)[..16]
    ensures DataRow(s, p)[16] == Text(p.tLabel) && DataRow(s, p)[17] == Text(p.stepLabel)
  {
    assert DataRow(s, p)[..16] == SnapshotCells(s);
    assert DataRow(s, q)[..16] == SnapshotCells(s);
  }

  /** The whole file: the header, then each point's row in order. */
  function CsvRows(s: SessionSnapshot): (rows: seq<seq<Cell>>)
    ensures |rows| == |s.points| + 1 && rows[0] == HeaderRow()
    ensures forall k :: 0 <= k < |s.points| ==> rows[k + 1] == DataRow(s, s.points[k])
  {
    [HeaderRow()] + seq(|s.points|, k requires 0 <= k < |s.points| => DataRow(s, s.points[k]))
  }

  /** Each written row, header and data alike, has one cell per column. */
  lemma RowsRectangular(s: SessionSnapshot)
    ensures forall k :: 0 <= k < |CsvRows(s)| ==> |CsvRows(s)[k]| == 24
  {
    var rows := CsvRows(s);
    forall k | 0 <= k < |rows|
      ensures |rows[k]| == 24
    {
      if k > 0 {
        assert rows[k] == DataRow(s, s.points[k - 1]);
      }
    }
  }

  /** The rows a CSV writer has received so far. */
  class CsvWriter {
    var rows: seq<seq<Cell>>

    /** Opening the file for writing starts it empty. */
    constructor()
      ensures rows == []
    {
      rows := [];
    }

    /** `writer.writerow`: one more row at the end. */
    method WriteRow(row: seq<Cell>)
      modifies this
      ensures rows == old(rows) + [row]
    {
      rows := rows + [row];
    }
  }

  /**
   * `export_snapshot_csv`: opens `<snapshot_id>.csv`, writes the header and then
   * one row per point; the writer ends up holding exactly the rows of the file.
   */
  method ExportSnapshotCsv(s: SessionSnapshot) returns (fileName: string, writer: CsvWriter)
    ensures fileName == CsvFileName(s.snapshotId)
    ensures fresh(writer) && writer.rows == CsvRows(s)
  {
    fileName := CsvFileName(s.snapshotId);
    writer := new CsvWriter();
    writer.WriteRow(HeaderRow());
    for i := 0 to |s.points|
      invariant |writer.rows| == i + 1 && writer.rows[0] == HeaderRow()
      invariant forall k :: 0 <= k < i ==> writer.rows[k + 1] == DataRow(s, s.points[k])
    {
      writer.WriteRow(DataRow(s, s.points[i]));
    }
    RowsOfFile(s, writer.rows);
  }

  /** Rows holding the header and then each point's row, in order, are the rows of the file. */
  lemma RowsOfFile(s: SessionSnapshot, rows: seq<seq<Cell>>)
    requires |rows| == |s.points| + 1 && rows[0] == HeaderRow()
    requires forall k :: 0 <= k < |s.points| ==> rows[k + 1] == DataRow(s, s.points[k])
    ensures rows == CsvRows(s)
  {
    var file := CsvRows(s);
    forall k | 0 <= k < |rows|
      ensures rows[k] == file[k]
    {
      if k > 0 {
        assert rows[k] == DataRow(s, s.points[k - 1]);
      }
    }
  }

  /** The exported rows read back as the test of one point expects: cell 17 of row 1 is its step label. */
  lemma ExportExample(s: SessionSnapshot, p: SessionPoint)
    requires s.points == [p] && p.stepLabel == "Warmup"
    ensures |CsvRows(s)| == 2 && CsvRows(s)[1][17] == Text("Warmup")
    ensures CsvRows(s)[0][16] == Text("t_label") && CsvRows(s)[0][17] == Text("step_label")
  {
    HeaderLayout();
  }
}
