/**
 * The session history: a store of one line per finished or stopped session,
 * appended to at the end of a ride and read back newest first. The store's
 * text is abstracted to its lines, each blank, undecodable, or the record it
 * decodes to.
 */
module SessionStore {
  import opened Wrappers

  /** `SessionRecord`; floating-point fields are real numbers. */
  datatype SessionRecord = SessionRecord(
    startedAtUtc: string,
    endedAtUtc: string,
    workoutName: string,
    targetMode: string,
    ftpWatts: int,
    completed: bool,
    plannedDurationSec: int,
    elapsedDurationSec: int,
    distanceKm: real,
    avgPowerWatts: Option<real>,
    avgCadenceRpm: Option<real>,
    avgSpeedKmh: Option<real>,
    powerCompliancePct: Option<real>,
    rpmCompliancePct: Option<real>,
    bothCompliancePct: Option<real>)

  /** A line of the store: blank, not a record, or the record written on it. */
  datatype Line = Blank | Malformed | Entry(record: SessionRecord)

  /** The record a line contributes: none for a blank or malformed line. */
  function RecordOf(line: Line): (r: seq<SessionRecord>)
    ensures |r| <= 1
    ensures r != [] <==> line.Entry?
  {
    if line.Entry? then [line.record] else []
  }

  /** Every record of the lines, the last line's first. */
  function NewestFirst(lines: seq<Line>): seq<SessionRecord>
  {
    if lines == [] then [] else RecordOf(lines[|lines| - 1]) + NewestFirst(lines[..|lines| - 1])
  }

  /** The records of lines put one after the other: the later lines' records come first. */
  lemma {:induction false} NewestFirstAppend(a: seq<Line>, b: seq<Line>)
    ensures NewestFirst(a + b) == NewestFirst(b) + NewestFirst(a)
    decreases |b|
  {
    if b == [] {
      assert a + b == a;
    } else {
      var n := |b| - 1;
      assert (a + b)[..|a + b| - 1] == a + b[..n];
      assert (a + b)[|a + b| - 1] == b[n];
      NewestFirstAppend(a, b[..n]);
    }
  }

  /** Blank and malformed lines contribute nothing; an entry contributes its record first. */
  lemma NewestFirstLast(lines: seq<Line>, line: Line)
    ensures NewestFirst(lines + [line]) == RecordOf(line) + NewestFirst(lines)
  {
    assert (lines + [line])[..|lines|] == lines;
  }

  /** Every record read back comes from an entry line. */
  lemma {:induction false} NewestFirstFromEntries(lines: seq<Line>)
    ensures forall r :: r in NewestFirst(lines) ==> Entry(r) in lines
  {
    if lines != [] {
      var n := |lines| - 1;
      NewestFirstFromEntries(lines[..n]);
      assert forall l :: l in lines[..n] ==> l in lines;
      assert lines[n] in lines;
    }
  }

  /** At most `limit` records, but at least one is taken when there are any. */
  function Cap(limit: int): (c: nat)
    ensures c >= 1 && c >= limit
  {
    if limit >= 1 then limit else 1
  }

  /** The first records of a sequence, as many as the limit allows (one when it is zero or negative). */
  function TakeCap(records: seq<SessionRecord>, limit: int): (r: seq<SessionRecord>)
    ensures |r| == if |records| < Cap(limit) then |records| else Cap(limit)
    ensures r == records[..|r|]
  {
    if |records| < Cap(limit) then records else records[..Cap(limit)]
  }

  /** `load_recent_sessions` on a present store: the newest records first, capped by the limit. */
  function RecentSessions(lines: seq<Line>, limit: int): seq<SessionRecord>
  {
    TakeCap(NewestFirst(lines), limit)
  }

  /** The record appended last is the first read back, whatever the limit. */
  lemma LastAppendedFirst(lines: seq<Line>, record: SessionRecord, limit: int)
    ensures |RecentSessions(lines + [Entry(record)], limit)| >= 1
    ensures RecentSessions(lines + [Entry(record)], limit)[0] == record
  {
    assert NewestFirst(lines + [Entry(record)]) == [record] + NewestFirst(lines) by {
      NewestFirstLast(lines, Entry(record));
    }
  }

  /** Blank and malformed lines change nothing that is read back. */
  lemma SkippedLines(lines: seq<Line>, limit: int)
    ensures RecentSessions(lines + [Blank], limit) == RecentSessions(lines, limit)
    ensures RecentSessions(lines + [Malformed], limit) == RecentSessions(lines, limit)
  {
    assert NewestFirst(lines + [Blank]) == NewestFirst(lines) by {
      NewestFirstLast(lines, Blank);
    }
    assert NewestFirst(lines + [Malformed]) == NewestFirst(lines) by {
      NewestFirstLast(lines, Malformed);
    }
  }

  /** Two sessions appended to an empty store are read back the later first. */
  lemma TwoSessionsExample(r1: SessionRecord, r2: SessionRecord)
    ensures RecentSessions([Entry(r1), Entry(r2)], 5) == [r2, r1]
  {
    assert NewestFirst([Entry(r1)]) == [r1] by {
      assert [Entry(r1)][..0] == [];
    }
    assert NewestFirst([Entry(r1), Entry(r2)]) == [r2, r1] by {
      assert [Entry(r1), Entry(r2)][..1] == [Entry(r1)];
    }
  }

  /** The store: whether it exists, and its lines. */
  class SessionFile {
    var present: bool
    var lines: seq<Line>

    constructor(present: bool, lines: seq<Line>)
      ensures this.present == present && this.lines == lines
    {
      this.present := present;
      this.lines := lines;
    }

    /** `append_session`: creates the store if needed and adds one line holding the record. */
    method AppendSession(record: SessionRecord)
      modifies this
      ensures present
      ensures lines == (if old(present) then old(lines) else []) + [Entry(record)]
    {
      if !present {
        present := true;
        lines := [];
      }
      lines := lines + [Entry(record)];
    }

    /**
     * `load_recent_sessions`: nothing from a missing store; otherwise the lines
     * from the last backwards, skipping blank and malformed ones, stopping once
     * `limit` records are collected.
     */
    method LoadRecentSessions(limit: int) returns (out: seq<SessionRecord>)
      ensures !present ==> out == []
      ensures present ==> out == RecentSessions(lines, limit)
    {
      if !present {
        return [];
      }
      out := [];
      var k := |lines|;
      while k > 0
        invariant 0 <= k <= |lines|
        invariant out == NewestFirst(lines[k..])
        invariant |out| < Cap(limit)
      {
        var raw := lines[k - 1];
        ReadOneMore(lines, k);
        k := k - 1;
        if raw.Blank? {
          continue;
        }
        if raw.Malformed? {
          continue;
        }
        out := out + [raw.record];
        if |out| >= limit {
          break;
        }
      }
      ReadPrefix(lines, k, limit);
    }
  }

  /** Reading one line further back adds its record, if it has one, at the end. */
  lemma ReadOneMore(lines: seq<Line>, k: nat)
    requires 0 < k <= |lines|
    ensures lines[k - 1].Entry? ==> NewestFirst(lines[k - 1..]) == NewestFirst(lines[k..]) + [lines[k - 1].record]
    ensures !lines[k - 1].Entry? ==> NewestFirst(lines[k - 1..]) == NewestFirst(lines[k..])
  {
    assert lines[k - 1..] == [lines[k - 1]] + lines[k..];
    NewestFirstAppend([lines[k - 1]], lines[k..]);
    assert NewestFirst([lines[k - 1]]) == RecordOf(lines[k - 1]) by {
      assert [lines[k - 1]][..0] == [];
    }
  }

  /**
   * Reading stops with the records of the last lines: all of them, short of
   * the cap, or exactly the cap; either way those are the first capped records.
   */
  lemma ReadPrefix(lines: seq<Line>, k: nat, limit: int)
    requires k <= |lines|
    requires (k == 0 && |NewestFirst(lines[k..])| < Cap(limit)) || |NewestFirst(lines[k..])| == Cap(limit)
    ensures NewestFirst(lines[k..]) == RecentSessions(lines, limit)
  {
    assert lines == lines[..k] + lines[k..];
    NewestFirstAppend(lines[..k], lines[k..]);
  }
}
