/** The audit log of the safe-state protocol: idempotent inserts keep one row per event. */
module SafeStateAudit {
  import opened SafeState

  /** No two rows share a hash, and all hashes have been drawn. */
  ghost predicate UniqueRows(log: seq<Row>, nextHash: nat) {
    && (forall i :: 0 <= i < |log| ==> log[i].hash < nextHash)
    && (forall i, j :: 0 <= i < j < |log| ==> log[i].hash != log[j].hash)
  }

  /** If the hash of `row` is in the log, it is the hash of `row` itself. */
  ghost predicate Genuine(log: seq<Row>, row: Row, nextHash: nat) {
    row.hash < nextHash && forall i :: 0 <= i < |log| && log[i].hash == row.hash ==> log[i] == row
  }

  /** A write that landed leaves the row in the log; no write ever removes or duplicates a row. */
  lemma RecordKeepsLog(log: seq<Row>, row: Row, w: Write, nextHash: nat)
    requires UniqueRows(log, nextHash) && Genuine(log, row, nextHash)
    ensures UniqueRows(Record(log, row, w), nextHash) && log <= Record(log, row, w)
    ensures !w.LostAndThrows? ==> row in Record(log, row, w)
    ensures Genuine(Record(log, row, w), row, nextHash)
  {
    if exists i :: 0 <= i < |log| && log[i].hash == row.hash {
    } else {
      assert (log + [row])[|log|] == row;
    }
  }

  lemma RecordKeepsOthers(log: seq<Row>, row: Row, w: Write, nextHash: nat, other: Row)
    requires Genuine(log, other, nextHash) && other.hash != row.hash
    ensures Genuine(Record(log, row, w), other, nextHash)
  {}

  lemma RecordKeepsMember(log: seq<Row>, row: Row, w: Write, other: Row)
    requires other in log
    ensures other in Record(log, row, w)
  {}

  // ----- counting ENTERED rows -----

  ghost function CountEntered(log: seq<Row>): nat {
    if log == [] then 0
    else CountEntered(log[..|log| - 1]) + if log[|log| - 1].transition.Entered? then 1 else 0
  }

  lemma CountRecorded(log: seq<Row>, row: Row, w: Write, nextHash: nat)
    requires Genuine(log, row, nextHash)
    ensures CountEntered(Record(log, row, w)) == CountEntered(log) +
      if row.transition.Entered? && row !in log && row in Record(log, row, w) then 1 else 0
  {
    assert (log + [row])[..|log|] == log;
    if exists i :: 0 <= i < |log| && log[i].hash == row.hash {
      var i :| 0 <= i < |log| && log[i].hash == row.hash;
      assert row == log[i];
    } else {
      assert row !in log;
      assert (log + [row])[|log|] == row;
    }
  }
}
