/**
 * `SqlImporter`: for one logical table per call, read the ledger, pick the
 * next version, look up that version's snapshot, insert its records in order
 * and then append a ledger row for the version.
 */
module Importer {

  import opened Model
  import opened Ledger
  import opened Snapshot
  import opened Writes
  import opened Store

  /** What `makeImport` yields for a snapshot path: no resource, a decoded list, or `IOException`. */
  function Load<T>(decode: Document -> Option<seq<T>>, resources: Resources, path: string): (r: Result<Option<seq<T>>>)
    ensures r == Success(None) <==> path !in resources
    ensures r.Failure? ==> r.error == IoError && path in resources && decode(resources[path]).None?
    ensures r.Success? && r.value.Some? ==> path in resources && decode(resources[path]) == Some(r.value.value)
  {
    if path !in resources then Success(None)
    else match decode(resources[path])
      case None => Failure(IoError)
      case Some(data) => Success(Some(data))
  }

  /** The snapshot path a call for `table` looks up when the ledger is `log` (lines 45-53). */
  function PathFor(log: seq<Write>, table: string): (p: string)
    ensures LatestRow(log, table).None? ==> p == ResourcePath(1, table)
    ensures LatestRow(log, table).Some? && LatestRow(log, table).value.version < IntMax ==>
      p == ResourcePath(LatestRow(log, table).value.version + 1, table)
  {
    ResourcePath(NextVersion(log, table), table)
  }

  /** What one import call sets out to do once the ledger has been read. */
  datatype Plan =
    | UpToDate                  // no snapshot for the next version: nothing to do
    | Broken(error: Error)      // the snapshot does not decode
    | Apply(writes: seq<Write>) // the inserts, then the ledger row

  /**
   * The writes of a plan: entity and link inserts, then exactly one ledger
   * row, last, for `table` at `version`, dated `date`.
   */
  predicate CommitsLast(w: seq<Write>, table: string, version: Int32, date: Timestamp)
  {
    && |w| > 0
    && EntityWritesOnly(w[..|w| - 1])
    && w[|w| - 1].RecordImport?
    && w[|w| - 1].row.table == table
    && w[|w| - 1].row.version == version
    && w[|w| - 1].row.date == date
  }

  /** The ledger row `saveImport` appends. */
  function Commit(table: string, version: Int32, id: Uuid, date: Timestamp): Write
  {
    RecordImport(ImportRow(id, table, version, date))
  }

  /**
   * A ledger prefix of a plan: the entity writes done before a failure leave
   * the ledger as it was, so the next call loads the same version again.
   */
  lemma EntityPrefixKeepsLedger(log: seq<Write>, w: seq<Write>, n: nat, table: string)
    requires n <= |w| && EntityWritesOnly(w)
    ensures LatestRow(log + w[..n], table) == LatestRow(log, table)
  {
    assert EntityWritesOnly(w[..n]);
    LatestRowIgnoresEntityWrites(log, w[..n], table);
  }

  /**
   * How one import call that started with ledger `log0` at round trip `rt0`
   * ended, with ledger `log` after round trip `rt - 1`: it stops at its first
   * failing round trip and throws `SQLException` exactly then. Without a plan
   * it ends after the ledger read. With a plan `w` (the inserts, then the
   * ledger row) it spends round trip `rt0 + 1 + j` on write `j` of `w`, except
   * that `saveImport` reads the ledger once more just before the row; every
   * write sent before the failing round trip stays committed, and the call
   * completes exactly when the whole of `w` is committed.
   */
  ghost predicate Ended(log0: seq<Write>, rt0: nat, plan: Plan, r: Status,
                        log: seq<Write>, rt: nat, fails: nat -> bool)
  {
    && rt0 < rt
    && (forall k :: rt0 <= k < rt - 1 ==> !fails(k))
    && (r == Fail(SqlError) <==> fails(rt - 1))
    && (fails(rt0) ==> r == Fail(SqlError) && log == log0)
    && (!fails(rt0) ==>
          match plan
          case UpToDate => r == Done && log == log0 && rt == rt0 + 1
          case Broken(e) => r == Fail(e) && log == log0 && rt == rt0 + 1
          case Apply(w) =>
            && r != Fail(IoError)
            && log0 <= log && log <= log0 + w
            && (r == Done <==> log == log0 + w)
            && SpentOn(|w|, |log| - |log0|, rt - rt0))
  }

  /**
   * The round trips a call with a plan of `size` writes has spent when
   * `committed` of them are in and it has stopped: the ledger read, one per
   * write sent (the failing one included), and `saveImport`'s second read once
   * every insert is in.
   */
  predicate SpentOn(size: nat, committed: int, spent: int)
  {
    && (committed + 1 < size ==> spent == committed + 2)
    && (committed + 1 == size ==> spent == size + 1 || spent == size + 2)
    && (committed == size ==> spent == size + 2)
  }

  /**
   * Given the store's failures, a call's plan decides how it ends: its
   * outcome, the committed writes and the round trips it spent.
   */
  lemma EndedUnique(log0: seq<Write>, rt0: nat, plan: Plan, fails: nat -> bool,
                    r1: Status, log1: seq<Write>, rt1: nat, r2: Status, log2: seq<Write>, rt2: nat)
    requires Ended(log0, rt0, plan, r1, log1, rt1, fails)
    requires Ended(log0, rt0, plan, r2, log2, rt2, fails)
    ensures r1 == r2 && log1 == log2 && rt1 == rt2
  {
    EndedSpent(log0, rt0, plan, fails, r1, log1, rt1, r2, log2, rt2);
    EndedSpent(log0, rt0, plan, fails, r2, log2, rt2, r1, log1, rt1);
    if !fails(rt0) && plan.Apply? {
      var w := plan.writes;
      var k1, k2 := |log1| - |log0|, |log2| - |log0|;
      // both end at the same round trip, which failed for both or for neither
      StatusCases(r1);
      StatusCases(r2);
      if r1 == Done {
        assert log1 == log0 + w == log2;
      } else {
        assert k1 == k2;
        assert log1 == (log0 + w)[..|log0| + k1];
        assert log2 == (log0 + w)[..|log0| + k2];
      }
    }
  }

  /** One half of `EndedUnique`: a call cannot have ended before another that met no earlier failure. */
  lemma EndedSpent(log0: seq<Write>, rt0: nat, plan: Plan, fails: nat -> bool,
                   r1: Status, log1: seq<Write>, rt1: nat, r2: Status, log2: seq<Write>, rt2: nat)
    requires Ended(log0, rt0, plan, r1, log1, rt1, fails)
    requires Ended(log0, rt0, plan, r2, log2, rt2, fails)
    ensures rt1 <= rt2
  {
    if fails(rt0) {
      assert rt1 == rt0 + 1;
    } else if plan.Apply? {
      var w := plan.writes;
      StatusCases(r2);
      if r2 == Done {
        assert |log1| <= |log0| + |w|;
      } else {
        assert fails(rt2 - 1);
      }
    }
  }

  /** A call returns, or throws one of the two exceptions its methods declare. */
  lemma StatusCases(r: Status)
    ensures r == Done || r == Fail(SqlError) || r == Fail(IoError)
  {
    match r
    case Done =>
    case Fail(e) =>
      match e
      case SqlError =>
      case IoError =>
  }

  /** A call that ended at the ledger read or the snapshot lookup: nothing written. */
  lemma EndedBeforeInserts(log0: seq<Write>, rt0: nat, plan: Plan, r: Status, fails: nat -> bool)
    requires fails(rt0) ==> r == Fail(SqlError)
    requires !fails(rt0) ==>
      || (plan == UpToDate && r == Done)
      || (plan.Broken? && plan.error == IoError && r == Fail(IoError))
    ensures Ended(log0, rt0, plan, r, log0, rt0 + 1, fails)
  {
  }

  /** A call whose `n`th insert failed: the first `n` writes of the plan stay committed. */
  lemma EndedDuringInserts(log0: seq<Write>, rt0: nat, w: seq<Write>, c: Write, n: nat, fails: nat -> bool)
    requires n < |w|
    requires forall k :: rt0 <= k < rt0 + 1 + n ==> !fails(k)
    requires fails(rt0 + 1 + n)
    ensures Ended(log0, rt0, Apply(w + [c]), Fail(SqlError), log0 + w[..n], rt0 + 2 + n, fails)
  {
    assert (log0 + (w + [c]))[..|log0| + n] == log0 + w[..n];
  }

  /**
   * How `saveImport` ended, having started with ledger `logS` at round trip
   * `rtS` and the UUID generator at `idS`: it throws at its ledger read with
   * nothing drawn or written, or it draws one id and sends the row `c`, which
   * goes in exactly when that round trip does not fail.
   */
  ghost predicate Saved(logS: seq<Write>, rtS: nat, idS: nat, c: Write, r: Status,
                        log: seq<Write>, rt: nat, id: nat, fails: nat -> bool)
  {
    && (fails(rtS) ==> r == Fail(SqlError) && log == logS && rt == rtS + 1 && id == idS)
    && (!fails(rtS) ==>
          && rt == rtS + 2 && id == idS + 1
          && (r == Done <==> !fails(rtS + 1))
          && (r != Done ==> r == Fail(SqlError))
          && log == if r == Done then logS + [c] else logS)
  }

  /** A call whose inserts all went in and that then ran `saveImport`. */
  lemma EndedInSave(log0: seq<Write>, rt0: nat, w: seq<Write>, c: Write, r: Status,
                    idS: nat, log: seq<Write>, rt: nat, id: nat, fails: nat -> bool)
    requires forall k :: rt0 <= k < rt0 + 1 + |w| ==> !fails(k)
    requires Saved(log0 + w, rt0 + 1 + |w|, idS, c, r, log, rt, id, fails)
    ensures Ended(log0, rt0, Apply(w + [c]), r, log, rt, fails)
  {
    assert log0 + w + [c] == log0 + (w + [c]);
    assert (log0 + (w + [c]))[..|log0| + |w|] == log0 + w;
  }

  /**
   * Whatever way a call with a plan ended, a failed call left every table's
   * ledger as it was, so the next call loads the same version again; a
   * completed call made its ledger row the table's latest.
   */
  lemma {:induction false} EndedLedger(log0: seq<Write>, rt0: nat, w: seq<Write>, row: ImportRow, r: Status,
                                       log: seq<Write>, rt: nat, fails: nat -> bool)
    requires EntityWritesOnly(w)
    requires Ended(log0, rt0, Apply(w + [RecordImport(row)]), r, log, rt, fails)
    ensures r.Fail? ==> forall t :: LatestRow(log, t) == LatestRow(log0, t)
    ensures r == Done ==> LatestRow(log, row.table) == Some(row)
  {
    var plan := w + [RecordImport(row)];
    if r == Done {
      assert log == (log0 + w) + [RecordImport(row)];
      LatestRowAfterRecord(log0 + w, row, row.table);
    } else if !fails(rt0) {
      var n := |log| - |log0|;
      assert log == log0 + plan[..n];
      assert log != log0 + plan;
      assert n < |plan|;
      assert plan[..n] == w[..n];
      forall t | true ensures LatestRow(log, t) == LatestRow(log0, t) {
        EntityPrefixKeepsLedger(log0, w, n, t);
      }
    }
  }

  /** `Finish` after a failed insert: the call throws, and no table's ledger moved. */
  lemma InsertFailEnds(log0: seq<Write>, rt0: nat, w: seq<Write>, c: Write, n: nat,
                       log: seq<Write>, rt: nat, fails: nat -> bool)
    requires EntityWritesOnly(w) && c.RecordImport? && !fails(rt0)
    requires Inserted(log0, rt0 + 1, w, false, n, log, rt, fails)
    ensures Ended(log0, rt0, Apply(w + [c]), Fail(SqlError), log, rt, fails)
    ensures forall t :: LatestRow(log, t) == LatestRow(log0, t)
  {
    EndedDuringInserts(log0, rt0, w, c, n, fails);
    EndedLedger(log0, rt0, w, c.row, Fail(SqlError), log, rt, fails);
  }

  /**
   * `Finish` after `saveImport`: the call ends as `Ended` says, a throw leaves
   * every ledger as it was, completion makes the row its table's latest, and
   * the row's id joins the ids the call drew.
   */
  lemma SaveEnds(log0: seq<Write>, rt0: nat, w: seq<Write>, c: Write, id0: nat, idS: nat, r: Status,
                 log: seq<Write>, rt: nat, id: nat, fails: nat -> bool)
    requires EntityWritesOnly(w) && c.RecordImport? && c.row.id == Uuid(idS)
    requires forall k :: rt0 <= k < rt0 + 1 + |w| ==> !fails(k)
    requires Saved(log0 + w, rt0 + 1 + |w|, idS, c, r, log, rt, id, fails)
    requires id0 <= idS && DrawnSince(log0, log0 + w, id0, idS)
    ensures Ended(log0, rt0, Apply(w + [c]), r, log, rt, fails)
    ensures r.Fail? ==> forall t :: LatestRow(log, t) == LatestRow(log0, t)
    ensures r == Done ==> LatestRow(log, c.row.table) == Some(c.row)
    ensures id0 <= id && DrawnSince(log0, log, id0, id)
  {
    EndedInSave(log0, rt0, w, c, r, idS, log, rt, id, fails);
    EndedLedger(log0, rt0, w, c.row, r, log, rt, fails);
    if r == Done {
      DrawnSinceOne(log0 + w, c, idS, idS + 1);
      DrawnSinceTrans(log0, log0 + w, log, id0, idS, id);
    } else {
      DrawnSinceStay(log0 + w, idS, id);
      DrawnSinceTrans(log0, log0 + w, log, id0, idS, id);
    }
  }

  /**
   * The ids drawn from the UUID generator that a call wrote, the writes that
   * took the ledger from `log0` to `log`, all lie in `[lo, hi)`.
   */
  predicate DrawnSince(log0: seq<Write>, log: seq<Write>, lo: nat, hi: nat)
  {
    log0 <= log && DrawnWithin(log[|log0|..], lo, hi)
  }

  /** Nothing written: nothing drawn appears. */
  lemma DrawnSinceStay(log: seq<Write>, lo: nat, hi: nat)
    ensures DrawnSince(log, log, lo, hi)
  {
    assert log[|log|..] == [];
  }

  /** One more write, whose drawn id, if any, lies in `[lo, hi)`. */
  lemma DrawnSinceOne(log: seq<Write>, x: Write, lo: nat, hi: nat)
    requires x.MoveStudent? ==> lo <= x.linkId.bits < hi
    requires x.RecordImport? ==> lo <= x.row.id.bits < hi
    ensures DrawnSince(log, log + [x], lo, hi)
  {
    assert (log + [x])[|log|..] == [x];
  }

  /** A group's insert, which draws nothing, then its links, which draw from `[idB, id)`. */
  lemma GroupDrawn(log0: seq<Write>, logB: seq<Write>, g: Group, log: seq<Write>, id0: nat, idB: nat, id: nat)
    requires id0 <= idB <= id
    requires DrawnSince(log0, logB, id0, idB)
    requires DrawnSince(logB + [InsertGroup(g)], log, idB, id)
    ensures DrawnSince(log0, log, id0, id)
  {
    DrawnSinceOne(logB, InsertGroup(g), idB, idB);
    DrawnSinceTrans(log0, logB, logB + [InsertGroup(g)], id0, idB, idB);
    DrawnSinceTrans(log0, logB + [InsertGroup(g)], log, id0, idB, id);
  }

  /** A prefix of writes that carry no drawn id. */
  lemma DrawnSinceNothing(log0: seq<Write>, w: seq<Write>, n: nat, x: nat)
    requires n <= |w| && DrawsNothing(w)
    ensures DrawnSince(log0, log0 + w[..n], x, x)
  {
    assert (log0 + w[..n])[|log0|..] == w[..n];
  }

  /**
   * Two stretches of writes in a row, the first drawing from `[lo, mid)` and
   * the second from `[mid, hi)`: together they draw from `[lo, hi)`.
   */
  lemma DrawnSinceTrans(a: seq<Write>, b: seq<Write>, c: seq<Write>, lo: nat, mid: nat, hi: nat)
    requires lo <= mid <= hi
    requires DrawnSince(a, b, lo, mid) && DrawnSince(b, c, mid, hi)
    ensures DrawnSince(a, c, lo, hi)
  {
    var x: seq<Write> := b[|a|..];
    var y: seq<Write> := c[|b|..];
    var z: seq<Write> := x + y;
    assert c[|a|..] == z;
    forall j | 0 <= j < |z|
      ensures z[j].MoveStudent? ==> lo <= z[j].linkId.bits < hi
      ensures z[j].RecordImport? ==> lo <= z[j].row.id.bits < hi
    {
      if j < |x| {
        assert z[j] == x[j];
      } else {
        assert z[j] == y[j - |x|];
      }
    }
  }

  /**
   * An insert loop that started with ledger `log0` at round trip `rt0` and
   * was to send `w`: it sent the first `n` writes one round trip each, all
   * committed, and either finished (`ok`) or stopped at the round trip that
   * failed, with nothing of it written.
   */
  ghost predicate Inserted(log0: seq<Write>, rt0: nat, w: seq<Write>, ok: bool, n: nat,
                           log: seq<Write>, rt: nat, fails: nat -> bool)
  {
    && n <= |w|
    && log == log0 + w[..n]
    && (forall k :: rt0 <= k < rt0 + n ==> !fails(k))
    && (ok ==> n == |w| && rt == rt0 + n)
    && (!ok ==> n < |w| && fails(rt0 + n) && rt == rt0 + n + 1)
  }

  /** Midway through a loop meant to send `w`: the first `at` writes are committed, one round trip each. */
  ghost predicate Committed(log0: seq<Write>, rt0: nat, w: seq<Write>, at: nat,
                            log: seq<Write>, rt: nat, fails: nat -> bool)
  {
    && at <= |w|
    && log == log0 + w[..at]
    && rt == rt0 + at
    && forall k :: rt0 <= k < rt ==> !fails(k)
  }

  /** The next round trip fails: the loop stops there with nothing more written. */
  lemma CommittedStop(log0: seq<Write>, rt0: nat, w: seq<Write>, at: nat,
                      log: seq<Write>, rt: nat, fails: nat -> bool)
    requires Committed(log0, rt0, w, at, log, rt, fails) && at < |w| && fails(rt)
    ensures Inserted(log0, rt0, w, false, at, log, rt + 1, fails)
  {
  }

  /** The next round trip succeeds: one more write of `w` is committed. */
  lemma CommittedNext(log0: seq<Write>, rt0: nat, w: seq<Write>, at: nat,
                      log: seq<Write>, rt: nat, fails: nat -> bool)
    requires Committed(log0, rt0, w, at, log, rt, fails) && at < |w| && !fails(rt)
    ensures Committed(log0, rt0, w, at + 1, log + [w[at]], rt + 1, fails)
  {
    assert w[..at + 1] == w[..at] + [w[at]];
  }

  /** Every write of `w` is committed: the loop finishes. */
  lemma CommittedAll(log0: seq<Write>, rt0: nat, w: seq<Write>, log: seq<Write>, rt: nat, fails: nat -> bool)
    requires Committed(log0, rt0, w, |w|, log, rt, fails)
    ensures Inserted(log0, rt0, w, true, |w|, log, rt, fails)
  {
    assert w[..|w|] == w;
  }

  /**
   * A run of `w` at `at` sent by an inner loop: the outer loop stops where the
   * inner one stopped, or has now committed that run too.
   */
  lemma CommittedThen(log0: seq<Write>, rt0: nat, w: seq<Write>, at: nat, run: seq<Write>,
                      logB: seq<Write>, rtB: nat, ok: bool, m: nat, log: seq<Write>, rt: nat, fails: nat -> bool)
    requires at + |run| <= |w| && w[at..at + |run|] == run
    requires Committed(log0, rt0, w, at, logB, rtB, fails)
    requires Inserted(logB, rtB, run, ok, m, log, rt, fails)
    ensures !ok ==> Inserted(log0, rt0, w, false, at + m, log, rt, fails)
    ensures ok ==> Committed(log0, rt0, w, at + |run|, log, rt, fails)
  {
    assert run[..m] == w[at..at + m];
    assert w[..at] + w[at..at + m] == w[..at + m];
  }

  /**
   * A block of `w` at `at`: its head write went through, then an inner loop
   * sent the rest; the outer loop stops where the inner one stopped, or has
   * now committed the whole block.
   */
  lemma BlockStep(log0: seq<Write>, rt0: nat, w: seq<Write>, at: nat, head: Write, run: seq<Write>,
                  logB: seq<Write>, rtB: nat, ok: bool, m: nat, log: seq<Write>, rt: nat, fails: nat -> bool)
    requires at + 1 + |run| <= |w| && w[at..at + 1 + |run|] == [head] + run
    requires Committed(log0, rt0, w, at, logB, rtB, fails) && !fails(rtB)
    requires Inserted(logB + [head], rtB + 1, run, ok, m, log, rt, fails)
    ensures !ok ==> Inserted(log0, rt0, w, false, at + 1 + m, log, rt, fails)
    ensures ok ==> Committed(log0, rt0, w, at + 1 + |run|, log, rt, fails)
  {
    assert w[at] == head;
    CommittedNext(log0, rt0, w, at, logB, rtB, fails);
    assert w[at + 1..at + 1 + |run|] == run;
    CommittedThen(log0, rt0, w, at + 1, run, logB + [head], rtB + 1, ok, m, log, rt, fails);
  }

  /** Before the group loop: nothing committed yet. */
  lemma GroupsBegin(log0: seq<Write>, rt0: nat, gs: seq<LinkedGroup>, first: nat, fails: nat -> bool)
    ensures Committed(log0, rt0, GroupWrites(gs, first), BlockStart(gs, 0), log0, rt0, fails)
    ensures MemberCount(gs[..0]) == 0
  {
    assert gs[..0] == [];
    assert GroupWrites(gs, first)[..0] == [];
  }

  /** After the group loop: every group's block is committed. */
  lemma GroupsEnd(log0: seq<Write>, rt0: nat, gs: seq<LinkedGroup>, first: nat,
                  log: seq<Write>, rt: nat, fails: nat -> bool)
    requires Committed(log0, rt0, GroupWrites(gs, first), BlockStart(gs, |gs|), log, rt, fails)
    ensures Inserted(log0, rt0, GroupWrites(gs, first), true, |GroupWrites(gs, first)|, log, rt, fails)
    ensures MemberCount(gs[..|gs|]) == MemberCount(gs)
  {
    assert gs[..|gs|] == gs;
    GroupWritesLength(gs, first);
    CommittedAll(log0, rt0, GroupWrites(gs, first), log, rt, fails);
  }

  /** Group `i`'s insert fails: the group loop stops before its block. */
  lemma GroupStop(log0: seq<Write>, rt0: nat, gs: seq<LinkedGroup>, first: nat, i: nat,
                  log: seq<Write>, rt: nat, fails: nat -> bool)
    requires i < |gs| && fails(rt)
    requires Committed(log0, rt0, GroupWrites(gs, first), BlockStart(gs, i), log, rt, fails)
    ensures Inserted(log0, rt0, GroupWrites(gs, first), false, BlockStart(gs, i), log, rt + 1, fails)
  {
    GroupBlock(gs, first, i);
    CommittedStop(log0, rt0, GroupWrites(gs, first), BlockStart(gs, i), log, rt, fails);
  }

  /**
   * Group `i`'s insert went through and its link loop ran: the group loop
   * stops where the link loop stopped, or has committed group `i`'s block.
   */
  lemma GroupStep(log0: seq<Write>, rt0: nat, gs: seq<LinkedGroup>, first: nat, i: nat,
                  logB: seq<Write>, rtB: nat, ok: bool, m: nat, log: seq<Write>, rt: nat, fails: nat -> bool)
    requires i < |gs| && !fails(rtB)
    requires Committed(log0, rt0, GroupWrites(gs, first), BlockStart(gs, i), logB, rtB, fails)
    requires Inserted(logB + [InsertGroup(gs[i].group)], rtB + 1,
                      LinkWrites(gs[i].students, gs[i].group.id, first + MemberCount(gs[..i])), ok, m, log, rt, fails)
    ensures !ok ==> Inserted(log0, rt0, GroupWrites(gs, first), false, BlockStart(gs, i) + 1 + m, log, rt, fails)
    ensures ok ==> Committed(log0, rt0, GroupWrites(gs, first), BlockStart(gs, i + 1), log, rt, fails)
  {
    GroupBlock(gs, first, i);
    BlockStartNext(gs, i);
    BlockStep(log0, rt0, GroupWrites(gs, first), BlockStart(gs, i), InsertGroup(gs[i].group),
              LinkWrites(gs[i].students, gs[i].group.id, first + MemberCount(gs[..i])),
              logB, rtB, ok, m, log, rt, fails);
  }

  class SqlImporter {
    const salt: string
    const saltPosition: Int32
    /** `Hash.hash`, an external collaborator. */
    const hash: Hasher
    /** The class-path snapshot resources (`Extractor.openStream`). */
    const resources: Resources
    const database: Database
    /** The UUID generator: the next `UUID.randomUUID()` is `Uuid(issued)`. */
    var issued: nat
    /** Every snapshot path looked up so far, in order. */
    ghost var lookups: seq<string>

    constructor (salt: string, saltPosition: Int32, database: Database,
                 hash: Hasher, resources: Resources, issued: nat)
      ensures this.salt == salt && this.saltPosition == saltPosition && this.database == database
      ensures this.hash == hash && this.resources == resources && this.issued == issued
      ensures lookups == []
    {
      this.salt := salt;
      this.saltPosition := saltPosition;
      this.database := database;
      this.hash := hash;
      this.resources := resources;
      this.issued := issued;
      lookups := [];
    }

    /**
     * What `importTeachers` sets out to do from ledger `log`, when the next
     * UUID to be drawn is `Uuid(firstId)`: the hashed inserts, then the ledger row.
     */
    function TeacherPlan(log: seq<Write>, firstId: nat, now: Timestamp): (p: Plan)
      ensures p.UpToDate? <==> PathFor(log, "teacher") !in resources
      ensures p.Broken? ==> p.error == IoError
      ensures p.Apply? ==> CommitsLast(p.writes, "teacher", NextVersion(log, "teacher"), now)
      ensures p.Apply? ==> p.writes[|p.writes| - 1].row.id == Uuid(firstId)
    {
      var v := NextVersion(log, "teacher");
      match Load(DecodeTeachers, resources, PathFor(log, "teacher"))
      case Failure(e) => Broken(e)
      case Success(None) => UpToDate
      case Success(Some(ts)) =>
        var w := TeacherWrites(ts, salt, saltPosition, hash);
        TeacherWritesAreEntityWrites(ts, salt, saltPosition, hash);
        assert (w + [Commit("teacher", v, Uuid(firstId), now)])[..|w|] == w;
        Apply(w + [Commit("teacher", v, Uuid(firstId), now)])
    }

    /** What `importStudents` sets out to do from ledger `log`: the inserts, then the ledger row. */
    function StudentPlan(log: seq<Write>, firstId: nat, now: Timestamp): (p: Plan)
      ensures p.UpToDate? <==> PathFor(log, "student") !in resources
      ensures p.Broken? ==> p.error == IoError
      ensures p.Apply? ==> CommitsLast(p.writes, "student", NextVersion(log, "student"), now)
      ensures p.Apply? ==> p.writes[|p.writes| - 1].row.id == Uuid(firstId)
    {
      var v := NextVersion(log, "student");
      match Load(DecodeStudents, resources, PathFor(log, "student"))
      case Failure(e) => Broken(e)
      case Success(None) => UpToDate
      case Success(Some(ss)) =>
        var w := StudentWrites(ss);
        StudentWritesAreEntityWrites(ss);
        assert (w + [Commit("student", v, Uuid(firstId), now)])[..|w|] == w;
        Apply(w + [Commit("student", v, Uuid(firstId), now)])
    }

    /**
     * What `importGroups` sets out to do from ledger `log`: the group and link
     * inserts, the links drawing UUIDs from `firstId` on, then the ledger row
     * with the next UUID after them.
     */
    function GroupPlan(log: seq<Write>, firstId: nat, now: Timestamp): (p: Plan)
      ensures p.UpToDate? <==> PathFor(log, "groups") !in resources
      ensures p.Broken? ==> p.error == IoError
      ensures p.Apply? ==> CommitsLast(p.writes, "groups", NextVersion(log, "groups"), now)
      ensures p.Apply? ==>
        && firstId <= p.writes[|p.writes| - 1].row.id.bits
        && LinkIdsWithin(p.writes[..|p.writes| - 1], firstId, p.writes[|p.writes| - 1].row.id.bits)
    {
      var v := NextVersion(log, "groups");
      match Load(DecodeGroups, resources, PathFor(log, "groups"))
      case Failure(e) => Broken(e)
      case Success(None) => UpToDate
      case Success(Some(gs)) =>
        var w := GroupWrites(gs, firstId);
        GroupWritesAreEntityWrites(gs, firstId);
        GroupLinkIdsIncrease(gs, firstId);
        assert (w + [Commit("groups", v, Uuid(firstId + MemberCount(gs)), now)])[..|w|] == w;
        Apply(w + [Commit("groups", v, Uuid(firstId + MemberCount(gs)), now)])
    }

    /** `UUID.randomUUID()`. */
    method RandomUuid() returns (u: Uuid)
      modifies this`issued
      ensures u == Uuid(old(issued)) && issued == old(issued) + 1
    {
      u := Uuid(issued);
      issued := issued + 1;
    }

    /**
     * `makeImport` (lines 44-61): one ledger read, then one lookup, of the path
     * for the next version only, and the decoded snapshot if it is there.
     */
    method MakeImport<T>(decode: Document -> Option<seq<T>>, table: string) returns (r: Result<Option<seq<T>>>)
      modifies database, this`lookups
      ensures database.log == old(database.log)
      ensures database.roundTrips == old(database.roundTrips) + 1
      ensures database.fails(old(database.roundTrips)) ==> r == Failure(SqlError) && lookups == old(lookups)
      ensures !database.fails(old(database.roundTrips)) ==>
        && lookups == old(lookups) + [PathFor(old(database.log), table)]
        && r == Load(decode, resources, PathFor(old(database.log), table))
    {
      var lastImport := database.QueryLast(table);
      if lastImport.Failure? {
        return Failure(SqlError);
      }
      var version: Int32 := 0;
      if lastImport.value.Some? {
        version := lastImport.value.value.version;
      }
      version := Wrap32(version + 1);
      var path := ResourcePath(version, table);
      lookups := lookups + [path];
      if path !in resources {
        return Success(None);
      }
      var data := decode(resources[path]);
      if data.None? {
        return Failure(IoError);
      }
      return Success(Some(data.value));
    }

    /**
     * `saveImport` (lines 63-76): reads the ledger again and appends a row for
     * one more than what it finds, with a fresh id and the given time.
     */
    method SaveImport(table: string, now: Timestamp) returns (r: Status)
      modifies database, this`issued
      ensures Saved(old(database.log), old(database.roundTrips), old(issued),
                    Commit(table, NextVersion(old(database.log), table), Uuid(old(issued)), now),
                    r, database.log, database.roundTrips, issued, database.fails)
    {
      var lastImport := database.QueryLast(table);
      if lastImport.Failure? {
        return Fail(SqlError);
      }
      var version: Int32 := 0;
      if lastImport.value.Some? {
        version := lastImport.value.value.version;
      }
      var id := RandomUuid();
      var ok := database.Execute(RecordImport(ImportRow(id, table, Wrap32(version + 1), now)));
      r := if ok then Done else Fail(SqlError);
    }

    /**
     * `importTeachers` (lines 78-93): each teacher of the next snapshot, in
     * order, gets its password hash set and is inserted; then the ledger row.
     */
    method ImportTeachers(now: Timestamp) returns (r: Status)
      modifies this, database
      ensures Ended(old(database.log), old(database.roundTrips), TeacherPlan(old(database.log), old(issued), now), r,
                    database.log, database.roundTrips, database.fails)
      ensures lookups == old(lookups) + (if database.fails(old(database.roundTrips)) then [] else [PathFor(old(database.log), "teacher")])
      ensures r.Fail? ==> forall t :: LatestRow(database.log, t) == LatestRow(old(database.log), t)
      ensures r == Done && TeacherPlan(old(database.log), old(issued), now).Apply? ==>
        CurrentVersion(database.log, "teacher") == NextVersion(old(database.log), "teacher")
      ensures old(issued) <= issued && DrawnSince(old(database.log), database.log, old(issued), issued)
    {
      ghost var log0, rt0, id0, fails := database.log, database.roundTrips, issued, database.fails;
      ghost var plan := TeacherPlan(log0, id0, now);
      var loaded := MakeImport(DecodeTeachers, "teacher");
      if loaded.Failure? || loaded.value.None? {
        r := if loaded.Failure? then Fail(loaded.error) else Done;
        EndedBeforeInserts(log0, rt0, plan, r, fails);
        DrawnSinceStay(log0, id0, id0);
        return;
      }
      var data := loaded.value.value;
      ghost var w := TeacherWrites(data, salt, saltPosition, hash);
      ghost var c := Commit("teacher", NextVersion(log0, "teacher"), Uuid(id0), now);
      assert plan == Apply(w + [c]);
      TeacherWritesAreEntityWrites(data, salt, saltPosition, hash);
      var ok, n := InsertTeachers(data);
      DrawnSinceNothing(log0, w, n, id0);
      r := Finish("teacher", now, ok, log0, rt0, id0, w, c, n);
    }

    /** The loop of `importTeachers` (lines 85-90): hash, then insert, one teacher at a time. */
    method InsertTeachers(ts: seq<Teacher>) returns (ok: bool, ghost n: nat)
      modifies database
      ensures Inserted(old(database.log), old(database.roundTrips), TeacherWrites(ts, salt, saltPosition, hash),
                       ok, n, database.log, database.roundTrips, database.fails)
    {
      ghost var log0, rt0, fails := database.log, database.roundTrips, database.fails;
      ghost var w := TeacherWrites(ts, salt, saltPosition, hash);
      var i := 0;
      while i < |ts|
        invariant 0 <= i <= |ts|
        invariant Committed(log0, rt0, w, i, database.log, database.roundTrips, fails)
      {
        var t := ts[i];
        var auth := t.auth.(passwordHash := hash(t.auth.password, salt, saltPosition));
        ghost var logB, rtB := database.log, database.roundTrips;
        TeacherWriteAt(ts, salt, saltPosition, hash, i);
        ok := database.Execute(InsertTeacher(t.(auth := auth)));
        if !ok {
          CommittedStop(log0, rt0, w, i, logB, rtB, fails);
          return false, i;
        }
        CommittedNext(log0, rt0, w, i, logB, rtB, fails);
        i := i + 1;
      }
      CommittedAll(log0, rt0, w, database.log, database.roundTrips, fails);
      return true, i;
    }

    /** `importStudents` (lines 95-107): each student of the next snapshot, in order; then the ledger row. */
    method ImportStudents(now: Timestamp) returns (r: Status)
      modifies this, database
      ensures Ended(old(database.log), old(database.roundTrips), StudentPlan(old(database.log), old(issued), now), r,
                    database.log, database.roundTrips, database.fails)
      ensures lookups == old(lookups) + (if database.fails(old(database.roundTrips)) then [] else [PathFor(old(database.log), "student")])
      ensures r.Fail? ==> forall t :: LatestRow(database.log, t) == LatestRow(old(database.log), t)
      ensures r == Done && StudentPlan(old(database.log), old(issued), now).Apply? ==>
        CurrentVersion(database.log, "student") == NextVersion(old(database.log), "student")
      ensures old(issued) <= issued && DrawnSince(old(database.log), database.log, old(issued), issued)
    {
      ghost var log0, rt0, id0, fails := database.log, database.roundTrips, issued, database.fails;
      ghost var plan := StudentPlan(log0, id0, now);
      var loaded := MakeImport(DecodeStudents, "student");
      if loaded.Failure? || loaded.value.None? {
        r := if loaded.Failure? then Fail(loaded.error) else Done;
        EndedBeforeInserts(log0, rt0, plan, r, fails);
        DrawnSinceStay(log0, id0, id0);
        return;
      }
      var data := loaded.value.value;
      ghost var w := StudentWrites(data);
      ghost var c := Commit("student", NextVersion(log0, "student"), Uuid(id0), now);
      assert plan == Apply(w + [c]);
      StudentWritesAreEntityWrites(data);
      var ok, n := InsertStudents(data);
      DrawnSinceNothing(log0, w, n, id0);
      r := Finish("student", now, ok, log0, rt0, id0, w, c, n);
    }

    /** The loop of `importStudents` (lines 102-104): one insert per student, in order. */
    method InsertStudents(ss: seq<Student>) returns (ok: bool, ghost n: nat)
      modifies database
      ensures Inserted(old(database.log), old(database.roundTrips), StudentWrites(ss),
                       ok, n, database.log, database.roundTrips, database.fails)
    {
      ghost var log0, rt0, fails := database.log, database.roundTrips, database.fails;
      ghost var w := StudentWrites(ss);
      var i := 0;
      while i < |ss|
        invariant 0 <= i <= |ss|
        invariant Committed(log0, rt0, w, i, database.log, database.roundTrips, fails)
      {
        ghost var logB, rtB := database.log, database.roundTrips;
        ok := database.Execute(InsertStudent(ss[i]));
        if !ok {
          CommittedStop(log0, rt0, w, i, logB, rtB, fails);
          return false, i;
        }
        CommittedNext(log0, rt0, w, i, logB, rtB, fails);
        i := i + 1;
      }
      CommittedAll(log0, rt0, w, database.log, database.roundTrips, fails);
      return true, i;
    }

    /**
     * `importGroups` (lines 121-137): each group of the next snapshot, in
     * order, is inserted and then linked to each of its member students, each
     * link with a new id; then the ledger row.
     */
    method ImportGroups(now: Timestamp) returns (r: Status)
      modifies this, database
      ensures Ended(old(database.log), old(database.roundTrips), GroupPlan(old(database.log), old(issued), now), r,
                    database.log, database.roundTrips, database.fails)
      ensures lookups == old(lookups) + (if database.fails(old(database.roundTrips)) then [] else [PathFor(old(database.log), "groups")])
      ensures r.Fail? ==> forall t :: LatestRow(database.log, t) == LatestRow(old(database.log), t)
      ensures r == Done && GroupPlan(old(database.log), old(issued), now).Apply? ==>
        CurrentVersion(database.log, "groups") == NextVersion(old(database.log), "groups")
      ensures old(issued) <= issued && DrawnSince(old(database.log), database.log, old(issued), issued)
    {
      ghost var log0, rt0, id0, fails := database.log, database.roundTrips, issued, database.fails;
      ghost var plan := GroupPlan(log0, id0, now);
      var loaded := MakeImport(DecodeGroups, "groups");
      if loaded.Failure? || loaded.value.None? {
        r := if loaded.Failure? then Fail(loaded.error) else Done;
        EndedBeforeInserts(log0, rt0, plan, r, fails);
        DrawnSinceStay(log0, id0, id0);
        return;
      }
      var data := loaded.value.value;
      ghost var w := GroupWrites(data, id0);
      ghost var c := Commit("groups", NextVersion(log0, "groups"), Uuid(id0 + MemberCount(data)), now);
      assert plan == Apply(w + [c]);
      GroupWritesAreEntityWrites(data, id0);
      var ok, n := InsertGroups(data);
      r := Finish("groups", now, ok, log0, rt0, id0, w, c, n);
    }

    /**
     * The loops of `importGroups` (lines 128-134): a group's insert, then its
     * member links, group after group.
     */
    method InsertGroups(gs: seq<LinkedGroup>) returns (ok: bool, ghost n: nat)
      modifies database, this`issued
      ensures Inserted(old(database.log), old(database.roundTrips), GroupWrites(gs, old(issued)),
                       ok, n, database.log, database.roundTrips, database.fails)
      ensures ok ==> issued == old(issued) + MemberCount(gs)
      ensures old(issued) <= issued && DrawnSince(old(database.log), database.log, old(issued), issued)
    {
      ghost var log0, rt0, id0, fails := database.log, database.roundTrips, issued, database.fails;
      var i := 0;
      GroupsBegin(log0, rt0, gs, id0, fails);
      DrawnSinceStay(log0, id0, id0);
      while i < |gs|
        invariant 0 <= i <= |gs|
        invariant Committed(log0, rt0, GroupWrites(gs, id0), BlockStart(gs, i), database.log, database.roundTrips, fails)
        invariant issued == id0 + MemberCount(gs[..i])
        invariant DrawnSince(log0, database.log, id0, issued)
      {
        var g := gs[i];
        ghost var logB, rtB := database.log, database.roundTrips;
        ok := database.Execute(InsertGroup(g.group));
        if !ok {
          GroupStop(log0, rt0, gs, id0, i, logB, rtB, fails);
          return false, BlockStart(gs, i);
        }
        ghost var idB := issued;
        ghost var m;
        ok, m := LinkMembers(g);
        GroupStep(log0, rt0, gs, id0, i, logB, rtB, ok, m, database.log, database.roundTrips, fails);
        GroupDrawn(log0, logB, g.group, database.log, id0, idB, issued);
        if !ok {
          return false, BlockStart(gs, i) + 1 + m;
        }
        BlockStartNext(gs, i);
        i := i + 1;
      }
      GroupsEnd(log0, rt0, gs, id0, database.log, database.roundTrips, fails);
      return true, |GroupWrites(gs, id0)|;
    }

    /**
     * The inner loop of `importGroups` (lines 131-133): one `moveStudent` per
     * member id, in list order, each with a fresh link id.
     */
    method LinkMembers(g: LinkedGroup) returns (ok: bool, ghost n: nat)
      modifies database, this`issued
      ensures Inserted(old(database.log), old(database.roundTrips), LinkWrites(g.students, g.group.id, old(issued)),
                       ok, n, database.log, database.roundTrips, database.fails)
      ensures ok ==> issued == old(issued) + |g.students|
      ensures old(issued) <= issued && DrawnSince(old(database.log), database.log, old(issued), issued)
    {
      ghost var log0, rt0, id0, fails := database.log, database.roundTrips, issued, database.fails;
      ghost var w := LinkWrites(g.students, g.group.id, id0);
      var j := 0;
      DrawnSinceStay(log0, id0, id0);
      while j < |g.students|
        invariant 0 <= j <= |g.students|
        invariant Committed(log0, rt0, w, j, database.log, database.roundTrips, fails)
        invariant issued == id0 + j
        invariant DrawnSince(log0, database.log, id0, issued)
      {
        ghost var logB, rtB := database.log, database.roundTrips;
        var linkId := RandomUuid();
        LinkWriteAt(g.students, g.group.id, id0, j);
        ok := database.Execute(MoveStudent(linkId, g.students[j], g.group.id));
        if !ok {
          CommittedStop(log0, rt0, w, j, logB, rtB, fails);
          DrawnSinceStay(logB, issued - 1, issued);
          DrawnSinceTrans(log0, logB, logB, id0, issued - 1, issued);
          return false, j;
        }
        DrawnSinceOne(logB, MoveStudent(linkId, g.students[j], g.group.id), issued - 1, issued);
        DrawnSinceTrans(log0, logB, database.log, id0, issued - 1, issued);
        CommittedNext(log0, rt0, w, j, logB, rtB, fails);
        j := j + 1;
      }
      CommittedAll(log0, rt0, w, database.log, database.roundTrips, fails);
      return true, j;
    }

    /**
     * What follows the loop: on a failed insert the call throws; otherwise
     * `saveImport` appends the ledger row (lines 92, 106, 136).
     */
    method Finish(table: string, now: Timestamp, ok: bool, ghost log0: seq<Write>, ghost rt0: nat,
                  ghost id0: nat, ghost w: seq<Write>, ghost c: Write, ghost n: nat) returns (r: Status)
      requires EntityWritesOnly(w) && !database.fails(rt0)
      requires c.RecordImport? && c.row.table == table
      requires ok ==> c == Commit(table, NextVersion(log0, table), Uuid(issued), now)
      requires Inserted(log0, rt0 + 1, w, ok, n, database.log, database.roundTrips, database.fails)
      requires id0 <= issued && DrawnSince(log0, database.log, id0, issued)
      modifies database, this`issued
      ensures Ended(log0, rt0, Apply(w + [c]), r, database.log, database.roundTrips, database.fails)
      ensures r.Fail? ==> forall t :: LatestRow(database.log, t) == LatestRow(log0, t)
      ensures r == Done ==> CurrentVersion(database.log, table) == NextVersion(log0, table)
      ensures id0 <= issued && DrawnSince(log0, database.log, id0, issued)
    {
      if !ok {
        InsertFailEnds(log0, rt0, w, c, n, database.log, database.roundTrips, database.fails);
        return Fail(SqlError);
      }
      ghost var idS := issued;
      assert w[..n] == w;
      LatestRowIgnoresEntityWrites(log0, w, table);
      assert database.log == log0 + w && database.roundTrips == rt0 + 1 + |w|;
      assert c == Commit(table, NextVersion(database.log, table), Uuid(issued), now);
      r := SaveImport(table, now);
      SaveEnds(log0, rt0, w, c, id0, idS, r, database.log, database.roundTrips, issued, database.fails);
    }
  }
}
