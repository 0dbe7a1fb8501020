/**
 * The writes one successful import issues for a snapshot, in order, before its
 * ledger row: what the loops of `importTeachers`, `importStudents` and
 * `importGroups` send to the repositories.
 */
module Writes {

  import opened Model

  /** `Hash.hash(password, salt, saltPosition)`: an external keyed hash, left uninterpreted. */
  type Hasher = (string, string, Int32) -> string

  /** The teacher after `auth.setPasswordHash(Hash.hash(auth.getPassword(), salt, saltPosition))`. */
  function Hashed(t: Teacher, salt: string, saltPosition: Int32, hash: Hasher): (h: Teacher)
    ensures h.auth.passwordHash == hash(t.auth.password, salt, saltPosition)
    ensures h.id == t.id && h.other == t.other
    ensures h.auth.password == t.auth.password && h.auth.other == t.auth.other
  {
    t.(auth := t.auth.(passwordHash := hash(t.auth.password, salt, saltPosition)))
  }

  /**
   * One insert per teacher, in snapshot order, each carrying the hash of that
   * teacher's password under the importer's salt and position; every other
   * field, the plaintext password included, is forwarded as decoded.
   */
  function TeacherWrites(ts: seq<Teacher>, salt: string, saltPosition: Int32, hash: Hasher): (w: seq<Write>)
    ensures |w| == |ts|
    ensures forall k :: 0 <= k < |ts| ==>
      && w[k].InsertTeacher?
      && w[k].teacher.id == ts[k].id
      && w[k].teacher.other == ts[k].other
      && w[k].teacher.auth.password == ts[k].auth.password
      && w[k].teacher.auth.other == ts[k].auth.other
      && w[k].teacher.auth.passwordHash == hash(ts[k].auth.password, salt, saltPosition)
  {
    if ts == [] then []
    else [InsertTeacher(Hashed(ts[0], salt, saltPosition, hash))] + TeacherWrites(ts[1..], salt, saltPosition, hash)
  }

  /** Teacher `k`'s insert carries exactly the hashed teacher. */
  lemma TeacherWriteAt(ts: seq<Teacher>, salt: string, saltPosition: Int32, hash: Hasher, k: nat)
    requires k < |ts|
    ensures TeacherWrites(ts, salt, saltPosition, hash)[k] == InsertTeacher(Hashed(ts[k], salt, saltPosition, hash))
  {
    var w := TeacherWrites(ts, salt, saltPosition, hash);
    assert w[k].teacher.auth == Hashed(ts[k], salt, saltPosition, hash).auth;
  }

  /** One insert per student, in snapshot order, each carrying the student as decoded. */
  function StudentWrites(ss: seq<Student>): (w: seq<Write>)
    ensures |w| == |ss|
    ensures forall k :: 0 <= k < |ss| ==> w[k] == InsertStudent(ss[k])
  {
    if ss == [] then [] else [InsertStudent(ss[0])] + StudentWrites(ss[1..])
  }

  /** The number of member ids over all groups of a snapshot. */
  function MemberCount(gs: seq<LinkedGroup>): nat
  {
    if gs == [] then 0 else |gs[0].students| + MemberCount(gs[1..])
  }

  /**
   * The `moveStudent` calls for one group: one per member id, in list order,
   * each with the group's id and the next link id from the generator, which
   * stands at `first` when the first link is made.
   */
  function LinkWrites(members: seq<Uuid>, groupId: Uuid, first: nat): (w: seq<Write>)
    ensures |w| == |members|
  {
    if members == [] then []
    else [MoveStudent(Uuid(first), members[0], groupId)] + LinkWrites(members[1..], groupId, first + 1)
  }

  /** Link `k` of a group: member `k`, the group's id, and the `k`th id drawn from `first`. */
  lemma {:induction false} LinkWriteAt(members: seq<Uuid>, groupId: Uuid, first: nat, k: nat)
    requires k < |members|
    ensures LinkWrites(members, groupId, first)[k] == MoveStudent(Uuid(first + k), members[k], groupId)
    decreases k
  {
    if k > 0 {
      LinkWriteAt(members[1..], groupId, first + 1, k - 1);
    }
  }

  /** Every link of a group, pointwise. */
  lemma LinkWritesShape(members: seq<Uuid>, groupId: Uuid, first: nat)
    ensures forall k :: 0 <= k < |members| ==>
      LinkWrites(members, groupId, first)[k] == MoveStudent(Uuid(first + k), members[k], groupId)
  {
    forall k | 0 <= k < |members|
      ensures LinkWrites(members, groupId, first)[k] == MoveStudent(Uuid(first + k), members[k], groupId)
    {
      LinkWriteAt(members, groupId, first, k);
    }
  }

  /** Each group's insert followed by its member links; link ids are drawn from `first` on. */
  function GroupWrites(gs: seq<LinkedGroup>, first: nat): seq<Write>
  {
    if gs == [] then []
    else
      [InsertGroup(gs[0].group)]
      + LinkWrites(gs[0].students, gs[0].group.id, first)
      + GroupWrites(gs[1..], first + |gs[0].students|)
  }

  /** The teacher inserts never touch the ledger and carry no id drawn by the importer. */
  lemma TeacherWritesAreEntityWrites(ts: seq<Teacher>, salt: string, saltPosition: Int32, hash: Hasher)
    ensures EntityWritesOnly(TeacherWrites(ts, salt, saltPosition, hash))
    ensures DrawsNothing(TeacherWrites(ts, salt, saltPosition, hash))
  {
  }

  /** The student inserts never touch the ledger and carry no id drawn by the importer. */
  lemma StudentWritesAreEntityWrites(ss: seq<Student>)
    ensures EntityWritesOnly(StudentWrites(ss))
    ensures DrawsNothing(StudentWrites(ss))
  {
  }

  /** One insert per group and one link per member id. */
  lemma {:induction false} GroupWritesLength(gs: seq<LinkedGroup>, first: nat)
    ensures |GroupWrites(gs, first)| == |gs| + MemberCount(gs)
    decreases |gs|
  {
    if gs != [] {
      GroupWritesLength(gs[1..], first + |gs[0].students|);
    }
  }

  /** Group inserts and links never touch the ledger. */
  lemma {:induction false} GroupWritesAreEntityWrites(gs: seq<LinkedGroup>, first: nat)
    ensures EntityWritesOnly(GroupWrites(gs, first))
    decreases |gs|
  {
    if gs != [] {
      LinkWritesShape(gs[0].students, gs[0].group.id, first);
      GroupWritesAreEntityWrites(gs[1..], first + |gs[0].students|);
    }
  }

  /** Member ids add up over consecutive runs of groups. */
  lemma {:induction false} MemberCountAppend(a: seq<LinkedGroup>, b: seq<LinkedGroup>)
    ensures MemberCount(a + b) == MemberCount(a) + MemberCount(b)
    decreases |a|
  {
    if a == [] {
      assert a + b == b;
    } else {
      assert (a + b)[1..] == a[1..] + b;
      MemberCountAppend(a[1..], b);
    }
  }

  /** Where group `i`'s block starts among the writes: after every earlier group and its links. */
  function BlockStart(gs: seq<LinkedGroup>, i: nat): nat
    requires i <= |gs|
  {
    i + MemberCount(gs[..i])
  }

  /** The writes for one group: its insert, then its member links. */
  function Block(g: LinkedGroup, firstLink: nat): seq<Write>
  {
    [InsertGroup(g.group)] + LinkWrites(g.students, g.group.id, firstLink)
  }

  /** The writes for a run of groups split where the run does. */
  lemma {:induction false} GroupWritesSplit(a: seq<LinkedGroup>, b: seq<LinkedGroup>, first: nat)
    ensures GroupWrites(a + b, first) == GroupWrites(a, first) + GroupWrites(b, first + MemberCount(a))
    decreases |a|
  {
    if a == [] {
      assert a + b == b;
      assert GroupWrites(a, first) + GroupWrites(b, first) == GroupWrites(b, first);
    } else {
      GroupWritesSplit(a[1..], b, first + |a[0].students|);
      GroupWritesSplitStep(a, b, first);
    }
  }

  /** The inductive step of `GroupWritesSplit`: one more group in front. */
  lemma GroupWritesSplitStep(a: seq<LinkedGroup>, b: seq<LinkedGroup>, first: nat)
    requires a != []
    requires var n := |a[0].students|;
      GroupWrites(a[1..] + b, first + n) ==
        GroupWrites(a[1..], first + n) + GroupWrites(b, first + n + MemberCount(a[1..]))
    ensures GroupWrites(a + b, first) == GroupWrites(a, first) + GroupWrites(b, first + MemberCount(a))
  {
    var n := |a[0].students|;
    GroupWritesConsAppend(a, b, first);
    assert first + MemberCount(a) == first + n + MemberCount(a[1..]);
    Regroup(GroupWrites(a + b, first), Block(a[0], first), GroupWrites(a[1..] + b, first + n),
            GroupWrites(a[1..], first + n), GroupWrites(b, first + MemberCount(a)), GroupWrites(a, first));
  }

  /** The first group of `a + b` is the first group of `a`. */
  lemma GroupWritesConsAppend(a: seq<LinkedGroup>, b: seq<LinkedGroup>, first: nat)
    requires a != []
    ensures GroupWrites(a + b, first) == Block(a[0], first) + GroupWrites(a[1..] + b, first + |a[0].students|)
  {
    assert (a + b)[0] == a[0] && (a + b)[1..] == a[1..] + b;
  }

  /** `h + (x + y)` regrouped as `(h + x) + y`. */
  lemma Regroup(all: seq<Write>, h: seq<Write>, rest: seq<Write>, x: seq<Write>, y: seq<Write>, front: seq<Write>)
    requires all == h + rest && rest == x + y && front == h + x
    ensures all == front + y
  {
  }

  /** The middle part of a three-part concatenation. */
  lemma SliceMiddle(a: seq<Write>, b: seq<Write>, c: seq<Write>)
    ensures (a + (b + c))[|a|..|a| + |b|] == b
  {
  }

  /**
   * Parent before child: the writes for group `i` sit, contiguous, at
   * `BlockStart(gs, i)`: the group's insert and then exactly one link per
   * member id, in list order, numbered on from the links of earlier groups.
   */
  lemma GroupBlock(gs: seq<LinkedGroup>, first: nat, i: nat)
    requires i < |gs|
    ensures BlockStart(gs, i) + 1 + |gs[i].students| <= |GroupWrites(gs, first)|
    ensures GroupWrites(gs, first)[BlockStart(gs, i)..BlockStart(gs, i) + 1 + |gs[i].students|] ==
      Block(gs[i], first + MemberCount(gs[..i]))
  {
    var f := first + MemberCount(gs[..i]);
    var front := GroupWrites(gs[..i], first);
    var block := Block(gs[i], f);
    var back := GroupWrites(gs[i + 1..], f + |gs[i].students|);
    assert gs[..i] + gs[i..] == gs;
    GroupWritesSplit(gs[..i], gs[i..], first);
    assert gs[i..][0] == gs[i] && gs[i..][1..] == gs[i + 1..];
    assert GroupWrites(gs[i..], f) == block + back;
    GroupWritesLength(gs[..i], first);
    assert |front| == BlockStart(gs, i);
    SliceMiddle(front, block, back);
  }

  /** The next block starts right after group `i`'s links. */
  lemma BlockStartNext(gs: seq<LinkedGroup>, i: nat)
    requires i < |gs|
    ensures BlockStart(gs, i + 1) == BlockStart(gs, i) + 1 + |gs[i].students|
    ensures MemberCount(gs[..i + 1]) == MemberCount(gs[..i]) + |gs[i].students|
  {
    assert gs[..i + 1] == gs[..i] + [gs[i]];
    MemberCountAppend(gs[..i], [gs[i]]);
    assert MemberCount([gs[i]]) == |gs[i].students| + MemberCount([]);
  }

  /**
   * Every id among `w` that the importer draws from its generator, link ids
   * and ledger-row ids, lies in `[lo, hi)`.
   */
  predicate DrawnWithin(w: seq<Write>, lo: nat, hi: nat)
  {
    forall j :: 0 <= j < |w| ==>
      && (w[j].MoveStudent? ==> lo <= w[j].linkId.bits < hi)
      && (w[j].RecordImport? ==> lo <= w[j].row.id.bits < hi)
  }

  /** `w` carries no id drawn by the importer: only the snapshot's own ids. */
  predicate DrawsNothing(w: seq<Write>)
  {
    forall j :: 0 <= j < |w| ==> !w[j].MoveStudent? && !w[j].RecordImport?
  }

  /** Every link id among `w` lies in `[lo, hi)`. */
  predicate LinkIdsWithin(w: seq<Write>, lo: nat, hi: nat)
  {
    forall j :: 0 <= j < |w| && w[j].MoveStudent? ==> lo <= w[j].linkId.bits < hi
  }

  /** Link ids strictly increase along `w`: no two links share an id. */
  predicate LinkIdsIncreasing(w: seq<Write>)
  {
    forall j1, j2 :: 0 <= j1 < j2 < |w| && w[j1].MoveStudent? && w[j2].MoveStudent? ==>
      w[j1].linkId.bits < w[j2].linkId.bits
  }

  /**
   * Link ids are fresh: they are drawn from `first` up, and strictly increase
   * along the writes, so no two `moveStudent` calls share one.
   */
  lemma {:induction false} GroupLinkIdsIncrease(gs: seq<LinkedGroup>, first: nat)
    ensures LinkIdsWithin(GroupWrites(gs, first), first, first + MemberCount(gs))
    ensures LinkIdsIncreasing(GroupWrites(gs, first))
    decreases |gs|
  {
    if gs != [] {
      var g := gs[0];
      var n := |g.students|;
      var links := LinkWrites(g.students, g.group.id, first);
      var rest := GroupWrites(gs[1..], first + n);
      var w := GroupWrites(gs, first);
      GroupLinkIdsIncrease(gs[1..], first + n);
      LinkWritesShape(g.students, g.group.id, first);
      assert w == [InsertGroup(g.group)] + links + rest;
      assert MemberCount(gs) == n + MemberCount(gs[1..]);
      assert !w[0].MoveStudent?;
      forall j | 0 <= j < |w| && w[j].MoveStudent?
        ensures first <= w[j].linkId.bits < first + MemberCount(gs)
      {
        if j <= n {
          assert w[j] == links[j - 1];
        } else {
          assert w[j] == rest[j - 1 - n];
        }
      }
      forall j1, j2 | 0 <= j1 < j2 < |w| && w[j1].MoveStudent? && w[j2].MoveStudent?
        ensures w[j1].linkId.bits < w[j2].linkId.bits
      {
        if j2 <= n {
          assert w[j1] == links[j1 - 1] && w[j2] == links[j2 - 1];
        } else if j1 <= n {
          assert w[j1] == links[j1 - 1] && w[j2] == rest[j2 - 1 - n];
        } else {
          assert w[j1] == rest[j1 - 1 - n] && w[j2] == rest[j2 - 1 - n];
        }
      }
    }
  }
}
