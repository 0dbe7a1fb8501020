/**
 * The import ledger as the importer sees it: the `last.sql` query returns the
 * most recently written row for a table, the current version is that row's
 * version or 0, and the version to load next is one more (Java `int`).
 */
module Ledger {

  import opened Model

  /**
   * The row `last.sql` returns for `table`: the latest ledger row written for
   * it, or none. Rows are only ever appended, so the latest is the last one in
   * the log.
   */
  function LatestRow(log: seq<Write>, table: string): (r: Option<ImportRow>)
    ensures r.Some? ==> r.value.table == table && RecordImport(r.value) in log
    ensures r.None? <==>
      forall i :: 0 <= i < |log| ==> !(log[i].RecordImport? && log[i].row.table == table)
    ensures r.Some? ==>
      exists i :: 0 <= i < |log| && log[i] == RecordImport(r.value) &&
        forall j :: i < j < |log| ==> !(log[j].RecordImport? && log[j].row.table == table)
    decreases |log|
  {
    if log == [] then None
    else
      var last := log[|log| - 1];
      if last.RecordImport? && last.row.table == table then Some(last.row)
      else LatestRow(log[..|log| - 1], table)
  }

  /** The version recorded for `table`, 0 when the ledger has no row for it (lines 47-50). */
  function CurrentVersion(log: seq<Write>, table: string): Int32
  {
    match LatestRow(log, table)
    case None => 0
    case Some(row) => row.version
  }

  /**
   * The current version is 0 when the ledger holds no row for the table, and
   * otherwise the version of the table's latest ledger row.
   */
  lemma CurrentVersionRecorded(log: seq<Write>, table: string)
    ensures (forall i :: 0 <= i < |log| ==> !(log[i].RecordImport? && log[i].row.table == table)) ==>
      CurrentVersion(log, table) == 0
    ensures (exists i :: 0 <= i < |log| && log[i].RecordImport? && log[i].row.table == table) ==>
      exists i :: 0 <= i < |log| && log[i].RecordImport? && log[i].row.table == table &&
        log[i].row.version == CurrentVersion(log, table) &&
        forall j :: i < j < |log| ==> !(log[j].RecordImport? && log[j].row.table == table)
  {
  }

  /** `version++` on the current version: the version the next import loads (line 52). */
  function NextVersion(log: seq<Write>, table: string): (v: Int32)
    ensures LatestRow(log, table).None? ==> v == 1
    ensures LatestRow(log, table).Some? && LatestRow(log, table).value.version < IntMax ==>
      v == LatestRow(log, table).value.version + 1
    ensures CurrentVersion(log, table) == IntMax ==> v == IntMin
  {
    Wrap32(CurrentVersion(log, table) + 1)
  }

  /** Inserting entities and links never changes what the ledger query returns. */
  lemma {:induction false} LatestRowIgnoresEntityWrites(log: seq<Write>, w: seq<Write>, table: string)
    requires EntityWritesOnly(w)
    ensures LatestRow(log + w, table) == LatestRow(log, table)
    decreases |w|
  {
    if w != [] {
      var front := w[..|w| - 1];
      assert (log + w)[..|log + w| - 1] == log + front;
      LatestRowIgnoresEntityWrites(log, front, table);
    } else {
      assert log + w == log;
    }
  }

  /** Appending a ledger row makes it the latest for its table and leaves the other tables alone. */
  lemma LatestRowAfterRecord(log: seq<Write>, row: ImportRow, table: string)
    ensures LatestRow(log + [RecordImport(row)], table) ==
      if row.table == table then Some(row) else LatestRow(log, table)
  {
    assert (log + [RecordImport(row)])[..|log|] == log;
  }

  /**
   * A committed import: entity writes followed by the ledger row for
   * `NextVersion`. Afterwards the table's current version is the version that
   * was loaded (one more than before, below `IntMax`), and no other table's
   * version moved.
   */
  lemma {:induction false} CommitAdvancesVersion(
    log: seq<Write>, w: seq<Write>, id: Uuid, table: string, date: Timestamp, other: string)
    requires EntityWritesOnly(w)
    ensures var after := log + w + [RecordImport(ImportRow(id, table, NextVersion(log, table), date))];
      && CurrentVersion(after, table) == NextVersion(log, table)
      && (CurrentVersion(log, table) < IntMax ==> CurrentVersion(after, table) == CurrentVersion(log, table) + 1)
      && (other != table ==> CurrentVersion(after, other) == CurrentVersion(log, other))
  {
    var row := ImportRow(id, table, NextVersion(log, table), date);
    LatestRowAfterRecord(log + w, row, table);
    LatestRowAfterRecord(log + w, row, other);
    LatestRowIgnoresEntityWrites(log, w, table);
    LatestRowIgnoresEntityWrites(log, w, other);
  }
}
