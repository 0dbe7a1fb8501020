# SqlImporter: versioned snapshot import

This Dafny project models `SqlImporter`, the component of the StudentPerfomance
data layer that loads seed data in versions. Each public call handles one logical
table (`"teacher"`, `"student"` or `"groups"`):

- it reads the import ledger for that table and takes the recorded version, or 0;
- it adds one, with Java `int` wrap-around;
- it looks up the snapshot resource `sql/import/v{version}/{table}.json`;
- if there is no such resource, it returns having written nothing;
- otherwise it inserts the snapshot's records in order (teachers get their
  password hash set first; each group is followed by one `moveStudent` link per
  member, each with a fresh UUID);
- finally `saveImport` reads the ledger again and appends a row for that version
  plus one.

The model is imperative, as the Java is:

- `Store.Database` is a class holding an append-only log of writes. Ledger rows
  and entity inserts share that one log, so "the ledger row comes after every
  insert" is a fact about the order of one trace.
- Which round trips throw `SQLException` is an oracle (`fails`), indexed by the
  database's round-trip counter.
- `Importer.SqlImporter` is a class with the salt and position, the hash, the
  resources and a UUID counter.
- Each Java loop is a `while` loop with invariants, proved against a
  specification function: `TeacherWrites`, `StudentWrites`, `GroupWrites`.
- How a whole call ends is stated by the predicate `Importer.Ended`. It covers
  the plan computed from the ledger before the call, the round trips used, the
  first failure, and the prefix of the plan that is committed. The number of
  round trips spent pins that prefix to the failing round trip
  (`Importer.SpentOn`), so the outcome, the committed writes and the round
  trips are determined by the plan and the failures (`Importer.EndedUnique`).
- Every UUID a call writes (link ids and the ledger row's id) is drawn during
  that call: it lies between the generator's counter before and after the call
  (`Importer.DrawnSince`).

Modules, one per file:

- `Model` (model.dfy): values, the Java `int` type and the writes.
- `Decimal` (decimal.dfy): `%d` and its inverse.
- `Ledger` (ledger.dfy): the latest row and the version arithmetic.
- `Snapshot` (snapshot.dfy): resource keys and documents.
- `Writes` (writes.dfy): the write sequence of each table.
- `Store` (database.dfy): the database.
- `Importer` (importer.dfy): the importer.

## Model

| member | source | states |
|---|---|---|
| Model.Wrap32 | data/src/main/java/com/students/db/sql/SqlImporter.java:52 | Java `int` increment. It is the identity inside the `int` range, `IntMax + 1` wraps to `IntMin`, and the result is always congruent to the input modulo 2^32 |
| Decimal.Format | data/src/main/java/com/students/db/sql/SqlImporter.java:53 | `%d` of an `int` under a locale whose zero digit is `'0'`: non-empty, only a minus sign and digits, the sign exactly for negatives, and no leading zero unless the number is 0 |
| Decimal.FormatRoundTrip | data/src/main/java/com/students/db/sql/SqlImporter.java:53 | parsing what `%d` printed gives back the number |
| Decimal.FormatInjective | data/src/main/java/com/students/db/sql/SqlImporter.java:53 | two different versions never print the same |
| Snapshot.ResourcePath | data/src/main/java/com/students/db/sql/SqlImporter.java:53 | the snapshot key is the prefix, the decimal version, `/`, the table and `.json`, and nothing else |
| Snapshot.ResourcePathInjective | data/src/main/java/com/students/db/sql/SqlImporter.java:53 | a key names exactly one (version, table): equal keys mean equal versions and equal tables |
| Ledger.LatestRow | data/src/main/java/com/students/db/sql/SqlImporter.java:45 | the `last` query's answer. It is none exactly when no ledger row for the table was ever written; otherwise it is a row for the table, and no later row for that table exists |
| Ledger.NextVersion | data/src/main/java/com/students/db/sql/SqlImporter.java:45-52 | the version to load: 1 with no ledger row; the last version plus one below `IntMax`; `IntMin` after `IntMax` |
| Ledger.LatestRowIgnoresEntityWrites | data/src/main/java/com/students/db/sql/SqlImporter.java:63-70 | entity and link inserts never change the ledger query's answer. So `saveImport`'s second read sees the row `makeImport` saw |
| Ledger.LatestRowAfterRecord | data/src/main/java/com/students/db/sql/SqlImporter.java:74 | an appended ledger row becomes its table's latest, and other tables keep theirs |
| Ledger.CommitAdvancesVersion | data/src/main/java/com/students/db/sql/SqlImporter.java:63-74 | after inserts and the ledger row, the table's version is the version loaded. That is one more than before when below `IntMax`, and no other table's version moves |
| Writes.TeacherWrites | data/src/main/java/com/students/db/sql/SqlImporter.java:85-89 | one insert per teacher, in snapshot order. Each carries that teacher's id, attributes and password, and `passwordHash == hash(password, salt, saltPosition)` |
| Writes.TeacherWriteAt | data/src/main/java/com/students/db/sql/SqlImporter.java:86-89 | teacher `k`'s insert is exactly teacher `k` with its hash set |
| Writes.TeacherWritesAreEntityWrites | data/src/main/java/com/students/db/sql/SqlImporter.java:85-90 | the teacher loop writes no ledger row |
| Writes.StudentWrites | data/src/main/java/com/students/db/sql/SqlImporter.java:102-104 | one insert per student, in snapshot order, each carrying the student unchanged |
| Writes.StudentWritesAreEntityWrites | data/src/main/java/com/students/db/sql/SqlImporter.java:102-104 | the student loop writes no ledger row |
| Writes.LinkWrites | data/src/main/java/com/students/db/sql/SqlImporter.java:131-133 | one `moveStudent` per member id |
| Writes.LinkWriteAt | data/src/main/java/com/students/db/sql/SqlImporter.java:131-133 | link `k` of a group moves member `k` into that group's id, with the `k`th id drawn after `first` |
| Writes.LinkWritesShape | data/src/main/java/com/students/db/sql/SqlImporter.java:131-133 | the same as `LinkWriteAt`, for every link of a group |
| Writes.GroupWritesLength | data/src/main/java/com/students/db/sql/SqlImporter.java:128-134 | the group loops send one write per group plus one per member id |
| Writes.GroupWritesAreEntityWrites | data/src/main/java/com/students/db/sql/SqlImporter.java:128-134 | the group loops write no ledger row |
| Writes.MemberCountAppend | data/src/main/java/com/students/db/sql/SqlImporter.java:131 | member ids of two runs of groups add up |
| Writes.GroupWritesSplit | data/src/main/java/com/students/db/sql/SqlImporter.java:128-134 | the writes for two runs of groups are the first run's, then the second's. The second's link ids start after the first run's members |
| Writes.GroupBlock | data/src/main/java/com/students/db/sql/SqlImporter.java:128-133 | parent before child: group `i`'s writes are its insert, then its member links, starting at `BlockStart(gs, i)` |
| Writes.BlockStartNext | data/src/main/java/com/students/db/sql/SqlImporter.java:128-133 | group `i + 1`'s block starts right after group `i`'s insert and links |
| Writes.GroupLinkIdsIncrease | data/src/main/java/com/students/db/sql/SqlImporter.java:131-133 | every link id is newly drawn: all lie in `[first, first + members)` and strictly increase, so no two links share an id |
| Store.Database.constructor | data/src/main/java/com/students/db/sql/SqlImporter.java:26-27 | a database over a given log and failure oracle, with no round trips yet |
| Store.Database.QueryLast | data/src/main/java/com/students/db/sql/SqlImporter.java:45 | one round trip. It throws `SQLException` when that round trip fails, and otherwise returns the latest ledger row; it changes no data |
| Store.Database.Execute | data/src/main/java/com/students/db/sql/SqlImporter.java:74 | one round trip. It appends the write exactly when the round trip does not fail, and otherwise leaves the log unchanged |
| Importer.Load | data/src/main/java/com/students/db/sql/SqlImporter.java:53-59 | no resource gives "nothing to do"; a resource that does not decode gives `IOException`; otherwise the decoded list, as is |
| Importer.PathFor | data/src/main/java/com/students/db/sql/SqlImporter.java:45-53 | the key a call looks up: version 1's with no ledger row for the table, the recorded version plus one's below `IntMax` |
| Snapshot.DecodeTeachers | data/src/main/java/com/students/db/sql/SqlImporter.java:58-59 | `readValue` with the teacher list type: it succeeds exactly on a teacher array, and yields its records unchanged |
| Snapshot.DecodeStudents | data/src/main/java/com/students/db/sql/SqlImporter.java:58-59 | the same for the student list type |
| Snapshot.DecodeGroups | data/src/main/java/com/students/db/sql/SqlImporter.java:58-59 | the same for the linked-group list type |
| Ledger.CurrentVersionRecorded | data/src/main/java/com/students/db/sql/SqlImporter.java:47-50 | the version a table stands at is 0 when it has no ledger row; otherwise it is the version of the table's latest ledger row, the one with no later row for that table |
| Writes.Hashed | data/src/main/java/com/students/db/sql/SqlImporter.java:86-88 | `setPasswordHash` on a teacher: the hash is `hash(password, salt, saltPosition)`, and the id, the password and every other field stay as they were |
| Importer.SqlImporter.TeacherPlan | data/src/main/java/com/students/db/sql/SqlImporter.java:78-92 | what `importTeachers` does after its ledger read: nothing exactly when the next version's key is absent; an `IOException` for a bad snapshot; otherwise entity inserts with the ledger row last, for `"teacher"` at `NextVersion` and the clock's time, with the next UUID drawn |
| Importer.SqlImporter.StudentPlan | data/src/main/java/com/students/db/sql/SqlImporter.java:95-106 | the same for `importStudents` and `"student"` |
| Importer.SqlImporter.GroupPlan | data/src/main/java/com/students/db/sql/SqlImporter.java:121-136 | the same for `importGroups` and `"groups"`. Every link id lies between the first UUID drawn and the ledger row's id, which comes after them |
| Importer.EndedUnique | data/src/main/java/com/students/db/sql/SqlImporter.java:78-92 | two runs of one plan against the same failures end the same way: same outcome, same committed writes, same round trips |
| Importer.EndedSpent | data/src/main/java/com/students/db/sql/SqlImporter.java:78-92 | a run cannot have stopped before another run of the same plan against the same failures |
| Importer.EntityPrefixKeepsLedger | data/src/main/java/com/students/db/sql/SqlImporter.java:85-92 | inserts committed before a failure leave every table's ledger row as it was |
| Importer.EndedBeforeInserts | data/src/main/java/com/students/db/sql/SqlImporter.java:80-82 | a call that throws at the ledger read, or finds no snapshot or a bad one, has written nothing |
| Importer.EndedDuringInserts | data/src/main/java/com/students/db/sql/SqlImporter.java:85-90 | a call whose `n`th insert throws has committed exactly the first `n` writes and no ledger row, throws `SQLException`, and spent `n + 2` round trips: the ledger read, `n` inserts and the failing one |
| Importer.EndedInSave | data/src/main/java/com/students/db/sql/SqlImporter.java:91-92 | a call that got through its inserts ends as `saveImport` ends. It completes exactly when the ledger row is appended after all the inserts |
| Importer.InsertFailEnds | data/src/main/java/com/students/db/sql/SqlImporter.java:85-92 | after a failed insert the call throws `SQLException` as `Ended` states, and no table's ledger moved |
| Importer.SaveEnds | data/src/main/java/com/students/db/sql/SqlImporter.java:91-92 | after `saveImport` the call ends as `Ended` states; a throw leaves every ledger as it was; completion makes the new row its table's latest; the row's id joins the ids drawn during the call |
| Importer.DrawnSinceTrans | data/src/main/java/com/students/db/sql/SqlImporter.java:128-136 | two stretches of writes in a row whose ids were drawn from consecutive ranges together draw from the union of the ranges |
| Importer.DrawnSinceOne | data/src/main/java/com/students/db/sql/SqlImporter.java:132 | a write whose drawn id lies in a range keeps the writes drawn from that range |
| Importer.GroupDrawn | data/src/main/java/com/students/db/sql/SqlImporter.java:128-133 | a group's insert draws nothing, so the group and its links draw only the link ids |
| Importer.EndedLedger | data/src/main/java/com/students/db/sql/SqlImporter.java:78-92 | a call that threw leaves every table's ledger as it was, so the next call retries the same version. A call that completed made its row the table's latest |
| Importer.CommittedNext | data/src/main/java/com/students/db/sql/SqlImporter.java:85-90 | a successful insert extends the committed prefix of the planned writes by one, using one round trip |
| Importer.CommittedStop | data/src/main/java/com/students/db/sql/SqlImporter.java:85-90 | a failed insert stops the loop with the prefix committed so far |
| Importer.BlockStep | data/src/main/java/com/students/db/sql/SqlImporter.java:128-133 | a group's insert followed by its link loop commits the group's whole block, or stops where the link loop stopped |
| Importer.GroupStep | data/src/main/java/com/students/db/sql/SqlImporter.java:128-133 | after group `i`'s insert and links, the committed writes are the planned writes up to group `i + 1`'s block |
| Importer.SqlImporter.constructor | data/src/main/java/com/students/db/sql/SqlImporter.java:26-31 | the importer keeps its salt, salt position and database as given |
| Importer.SqlImporter.RandomUuid | data/src/main/java/com/students/db/sql/SqlImporter.java:132 | each draw yields an id not drawn before by this importer |
| Importer.SqlImporter.MakeImport | data/src/main/java/com/students/db/sql/SqlImporter.java:44-61 | one ledger read, then exactly one lookup of the path for `NextVersion`, and `Load` of it. If the read throws, there is no lookup; no data is written |
| Importer.SqlImporter.SaveImport | data/src/main/java/com/students/db/sql/SqlImporter.java:63-76 | ends as `Saved` states: it throws at its ledger read having drawn and written nothing; otherwise it draws one id and appends the row for the table, `NextVersion`, that id and the clock's time, exactly when that round trip does not throw |
| Importer.SqlImporter.ImportTeachers | data/src/main/java/com/students/db/sql/SqlImporter.java:78-93 | ends as `Ended` states for the teacher plan. It looks up only the next version's key; a throw leaves every ledger row unchanged; completion makes the teacher version the version loaded. The UUID counter only grows, and every id the call wrote was drawn during the call |
| Importer.SqlImporter.InsertTeachers | data/src/main/java/com/students/db/sql/SqlImporter.java:85-90 | commits the hashed teacher inserts in order, one round trip each, up to the first failure |
| Importer.SqlImporter.ImportStudents | data/src/main/java/com/students/db/sql/SqlImporter.java:95-107 | the same as `ImportTeachers`, for the student plan |
| Importer.SqlImporter.InsertStudents | data/src/main/java/com/students/db/sql/SqlImporter.java:102-104 | commits the student inserts in order, one round trip each, up to the first failure |
| Importer.SqlImporter.ImportGroups | data/src/main/java/com/students/db/sql/SqlImporter.java:121-137 | the same as `ImportTeachers`, for the group plan. The ledger row's id is drawn after all link ids |
| Importer.SqlImporter.InsertGroups | data/src/main/java/com/students/db/sql/SqlImporter.java:128-134 | commits `GroupWrites` in order, each group before its links, up to the first failure. On completion, exactly one id is drawn per member; every link id written was drawn during the loop |
| Importer.SqlImporter.LinkMembers | data/src/main/java/com/students/db/sql/SqlImporter.java:131-133 | commits the group's `LinkWrites` in order, one fresh id per member, up to the first failure; every link id written was drawn during the loop |
| Importer.SqlImporter.Finish | data/src/main/java/com/students/db/sql/SqlImporter.java:92 | after the loop: a failed insert ends the call with no ledger row; otherwise `saveImport` runs. A completed call leaves the table at the loaded version; the ids drawn stay within the call's range |

## Left out

- **JSON decoding.** Jackson decoding and `TypeReference` are not modelled. A resource is an already-decoded `Document`, or `Malformed`, which is `IOException`. A resource whose JSON is the literal `null` makes `readValue` return null (line 59), so the call returns at line 80 as if the resource were absent; a `Document` cannot express that case, so the model does not capture it.
- **Resource I/O.** `Extractor.openStream` and `Extractor.readText` are reduced to a lookup in the `Resources` map. The stream's try-with-resources release is not modelled.
- **SQL text.** The text of `last.sql` and `insert.sql` is not modelled. `last` is taken to return the latest ledger row for the table.
- **Row mapper.** The `Mapping` row-mapper registration (lines 32-41) is JDBC decoding and is not modelled.
- **Repository internals.** `TeacherRepository`, `StudentRepository`, `GroupRepository` and the internals of `com.students.db.repo.Database` are not part of this model; `Store.Database` stands for what the importer sees of it. Each `insert`, `moveStudent` and `execute` is taken to be one round trip that commits on its own or throws with nothing written.
- **Hash.** `Hash.hash` is an uninterpreted function value (`hash`). Nothing about one-wayness is claimed.
- **UUIDs.** `UUID.randomUUID()` is a counter: `Uuid(issued)`, then the counter moves on. The model captures freshness, not randomness.
- **Clock.** `Dates.now()` is the `now` parameter of each import.
- **Debug output.** The `System.out.println` calls (lines 64-75) are not modelled.
- **Null fields.** A missing `auth` or `students` field would throw `NullPointerException` in the Java, which does not validate teacher credentials or group members. Decoded records here always have these fields.
- **In-place teacher updates.** `auth.setPasswordHash` mutates a record of the transient decoded list. It is modelled as a value update (`Writes.Hashed`); no other reference to that record is observable.
- **Concurrency.** Other writers to the ledger between `makeImport`'s read and `saveImport`'s read are not modelled. The model's database is touched only by the importer during a call.
- **Plaintext password.** The Java leaves the plaintext `password` on the teacher it inserts (line 88 sets only the hash). The model follows it, and `Writes.TeacherWrites` states that the password is forwarded.
- **Second ledger read.** `saveImport` reads the ledger a second time (line 65). The model keeps that round trip, which can fail, and `Ledger.LatestRowIgnoresEntityWrites` shows it returns the row the first read returned.
- **Helper methods.** The loops of `importTeachers`, `importStudents` and `importGroups` are in helper methods (`InsertTeachers`, `InsertStudents`, `InsertGroups`, `LinkMembers`, `Finish`). The Java writes them inline; the order of round trips is the same.
- Writes.LinkWrites: its own contract gives only the length; the contents of each link are stated by `Writes.LinkWriteAt` and `Writes.LinkWritesShape`.
- Writes.GroupWrites: carries no contract of its own; its length, its block structure and its link ids are stated by `Writes.GroupWritesLength`, `Writes.GroupBlock`, `Writes.GroupWritesSplit` and `Writes.GroupLinkIdsIncrease`.
- Ledger.CurrentVersion: carries no contract of its own; `Ledger.CurrentVersionRecorded` states it is 0 with no ledger row and otherwise the latest row's version.
- Decimal.Format: `formatted` on line 53 formats `%d` with the default format locale, whose zero digit replaces `'0'`. The model assumes a locale whose zero digit is `'0'`, so it prints ASCII digits. Under a locale with other digits (Thai or Arabic digits, say) the Java looks up a key no ASCII-named resource has, and every import returns as if up to date. `Snapshot.ResourcePath` and `Importer.PathFor` inherit this assumption.
