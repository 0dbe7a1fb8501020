/**
 * Snapshot resources: the class-path key `sql/import/v{version}/{table}.json`
 * and the already-read documents behind those keys. Decoding a document as a
 * list of one entity kind either yields that list, in document order, or fails.
 */
module Snapshot {

  import opened Model
  import Decimal

  /**
   * A resource's content. JSON text is not modelled: a document is an array
   * of one entity kind, or content that does not decode.
   */
  datatype Document =
    | TeacherArray(teachers: seq<Teacher>)
    | StudentArray(students: seq<Student>)
    | GroupArray(groups: seq<LinkedGroup>)
    | Malformed

  /** The class-path resources, by path; an absent key is `openStream` returning null. */
  type Resources = map<string, Document>

  const Prefix: string := "sql/import/v"
  const Suffix: string := ".json"

  /** `"sql/import/v%d/%s.json".formatted(version, table)` (line 53). */
  function ResourcePath(version: int, table: string): (p: string)
    ensures |p| == |Prefix| + |Decimal.Format(version)| + 1 + |table| + |Suffix|
  {
    Prefix + Decimal.Format(version) + "/" + table + Suffix
  }

  /**
   * A path names exactly one (version, table): the key built for one version
   * is never the key of another version or of another table.
   */
  lemma ResourcePathInjective(v1: int, t1: string, v2: int, t2: string)
    requires ResourcePath(v1, t1) == ResourcePath(v2, t2)
    ensures v1 == v2 && t1 == t2
  {
    var p := ResourcePath(v1, t1);
    var d1, d2 := Decimal.Format(v1), Decimal.Format(v2);
    var n := |Prefix|;
    assert p[n + |d1|] == '/';
    assert p[n + |d2|] == '/';
    // a decimal never contains '/', so the first '/' after the prefix ends both
    assert |d1| == |d2|;
    assert d1 == p[n..n + |d1|] == d2;
    Decimal.FormatInjective(v1, v2);
    assert t1 == p[n + |d1| + 1..|p| - |Suffix|] == t2;
  }

  /** `ObjectMapper.readValue` with `TypeReference<List<Teacher>>`. */
  function DecodeTeachers(d: Document): (r: Option<seq<Teacher>>)
    ensures r.Some? <==> d.TeacherArray?
    ensures r.Some? ==> r.value == d.teachers
  {
    match d
    case TeacherArray(ts) => Some(ts)
    case _ => None
  }

  /** `ObjectMapper.readValue` with `TypeReference<List<Student>>`. */
  function DecodeStudents(d: Document): (r: Option<seq<Student>>)
    ensures r.Some? <==> d.StudentArray?
    ensures r.Some? ==> r.value == d.students
  {
    match d
    case StudentArray(ss) => Some(ss)
    case _ => None
  }

  /** `ObjectMapper.readValue` with `TypeReference<List<LinkedGroup>>`. */
  function DecodeGroups(d: Document): (r: Option<seq<LinkedGroup>>)
    ensures r.Some? <==> d.GroupArray?
    ensures r.Some? ==> r.value == d.groups
  {
    match d
    case GroupArray(gs) => Some(gs)
    case _ => None
  }
}
