/**
 * The relational store the importer is handed (`com.students.db.repo.Database`
 * and the repositories over it), seen only through what it accepts: an
 * append-only log of writes. The SQL itself is not modelled; the ledger query
 * returns the latest ledger row for a table.
 */
module Store {

  import opened Model
  import opened Ledger

  class Database {
    /** Every write the store has committed, oldest first, ledger rows included. */
    var log: seq<Write>
    /** How many round trips the store has served. */
    var roundTrips: nat
    /**
     * Which round trips throw `SQLException` (lost connection, constraint
     * violation, ...): the store's failures are an oracle the model does not explain.
     */
    const fails: nat -> bool

    constructor (log: seq<Write>, fails: nat -> bool)
      ensures this.log == log && this.fails == fails && roundTrips == 0
    {
      this.log := log;
      this.fails := fails;
      roundTrips := 0;
    }

    /** `database.query(Import.class, last, table)`: the table's latest ledger row, if any. */
    method QueryLast(table: string) returns (r: Result<Option<ImportRow>>)
      modifies this
      ensures log == old(log) && roundTrips == old(roundTrips) + 1
      ensures fails(old(roundTrips)) ==> r == Failure(SqlError)
      ensures !fails(old(roundTrips)) ==> r == Success(LatestRow(log, table))
    {
      if fails(roundTrips) {
        r := Failure(SqlError);
      } else {
        r := Success(LatestRow(log, table));
      }
      roundTrips := roundTrips + 1;
    }

    /**
     * One insert (`database.execute(insert, ...)`, `repo.insert`,
     * `repo.moveStudent`): committed on its own, or rejected with nothing written.
     */
    method Execute(w: Write) returns (ok: bool)
      modifies this
      ensures roundTrips == old(roundTrips) + 1
      ensures ok == !fails(old(roundTrips))
      ensures log == if ok then old(log) + [w] else old(log)
    {
      ok := !fails(roundTrips);
      if ok {
        log := log + [w];
      }
      roundTrips := roundTrips + 1;
    }
  }
}
