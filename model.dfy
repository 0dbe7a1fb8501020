/**
 * Values shared by the snapshot importer: identifiers, Java's 32-bit `int`,
 * the entities carried by a snapshot, the rows of the import ledger and the
 * writes the importer issues against the store.
 */
module Model {

  datatype Option<T> = None | Some(value: T)

  /** The two checked exceptions `SqlImporter`'s methods declare. */
  datatype Error =
    | SqlError   // java.sql.SQLException: any failed store round trip
    | IoError    // java.io.IOException: the snapshot could not be read or decoded

  /** Outcome of one public import call: it returns normally or throws. */
  datatype Status = Done | Fail(error: Error)

  datatype Result<T> = Success(value: T) | Failure(error: Error)

  /** A UUID; the model only needs to tell identifiers apart. */
  datatype Uuid = Uuid(bits: nat)

  /** An opaque instant, as produced by the clock (`Dates.now()`). */
  type Timestamp = nat

  const IntMin: int := -0x8000_0000
  const IntMax: int := 0x7FFF_FFFF

  /** Java's `int`. */
  type Int32 = x: int | IntMin <= x <= IntMax

  /** Two's-complement wrap-around of Java `int` arithmetic. */
  function Wrap32(x: int): (r: Int32)
    ensures IntMin <= x <= IntMax ==> r == x
    ensures x == IntMax + 1 ==> r == IntMin
    ensures (r - x) % 0x1_0000_0000 == 0
  {
    (x - IntMin) % 0x1_0000_0000 + IntMin
  }

  /** The serialised columns of an entity that the importer forwards untouched. */
  type Attributes = map<string, string>

  /** A teacher's credentials; `passwordHash` is what the importer fills in. */
  datatype Auth = Auth(password: string, passwordHash: string, other: Attributes)

  datatype Teacher = Teacher(id: Uuid, auth: Auth, other: Attributes)

  datatype Student = Student(id: Uuid, other: Attributes)

  datatype Group = Group(id: Uuid, other: Attributes)

  /** `SqlImporter.LinkedGroup`: a group plus the ids of its member students, in list order. */
  datatype LinkedGroup = LinkedGroup(group: Group, students: seq<Uuid>)

  /** One row of the import ledger (`com.students.db.model.Import`). */
  datatype ImportRow = ImportRow(id: Uuid, table: string, version: Int32, date: Timestamp)

  /**
   * A write the importer sends to the store. `RecordImport` is the ledger
   * insert done by `saveImport`; the others go through the entity repositories.
   */
  datatype Write =
    | InsertTeacher(teacher: Teacher)
    | InsertStudent(student: Student)
    | InsertGroup(group: Group)
    | MoveStudent(linkId: Uuid, studentId: Uuid, groupId: Uuid)
    | RecordImport(row: ImportRow)

  /** True when `w` holds no ledger row: only entity and link inserts. */
  predicate EntityWritesOnly(w: seq<Write>)
  {
    forall i :: 0 <= i < |w| ==> !w[i].RecordImport?
  }
}
