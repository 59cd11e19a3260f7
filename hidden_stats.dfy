/**
 * The hidden-instructor statistics of the admin page (src/pages/AdminDashboard.tsx,
 * lines 230-235 and 509): the joined `hidden_instructors` rows grouped by instructor in
 * order of first appearance, each group listing the hiding members' names, and the table
 * rows ordered by group size, largest first.
 */
module HiddenStats {
  import opened Wrappers
  import opened Records

  /** `info` of one instructor: the display name and the names of the members hiding them. */
  datatype Group = Group(instructorId: Id, name: string, users: seq<string>)

  const Unknown: string := "未知"

  /** `x?.full_name || '未知'`: a missing join, a missing name and the empty name all read as '未知'. */
  function NameOrUnknown(name: Option<string>): (r: string)
    ensures r != []
    ensures name.Some? && name.value != [] ==> r == name.value
    ensures name.None? || name.value == [] ==> r == Unknown
  {
    if name.None? || name.value == [] then Unknown else name.value
  }

  /** `acc[iid]`: the position of the instructor's group, or -1. */
  function FindGroup(gs: seq<Group>, iid: Id): (r: int)
    ensures -1 <= r < |gs|
    ensures r >= 0 ==> gs[r].instructorId == iid
    ensures r >= 0 ==> forall j :: 0 <= j < r ==> gs[j].instructorId != iid
    ensures r == -1 <==> forall j :: 0 <= j < |gs| ==> gs[j].instructorId != iid
  {
    if gs == [] then -1
    else if gs[0].instructorId == iid then 0
    else var k := FindGroup(gs[1..], iid); if k == -1 then -1 else k + 1
  }

  /** One step of the reduce: create the group on the first record, then push the member's name. */
  function AddRecord(gs: seq<Group>, h: HiddenInstructor): seq<Group> {
    var k := FindGroup(gs, h.instructorId);
    if k == -1 then gs + [Group(h.instructorId, NameOrUnknown(h.instructorName), [NameOrUnknown(h.userName)])]
    else gs[k := gs[k].(users := gs[k].users + [NameOrUnknown(h.userName)])]
  }

  /** The groups after reducing over every record. */
  function GroupsOf(records: seq<HiddenInstructor>): seq<Group> {
    if records == [] then [] else AddRecord(GroupsOf(records[..|records| - 1]), records[|records| - 1])
  }

  /** `hiddenByInstructor`: the reduce, with the accumulator updated in place. */
  method HiddenByInstructor(records: seq<HiddenInstructor>) returns (gs: seq<Group>)
    ensures gs == GroupsOf(records)
  {
    gs := [];
    var i := 0;
    while i < |records|
      invariant 0 <= i <= |records|
      invariant gs == GroupsOf(records[..i])
    {
      assert records[..i + 1][..i] == records[..i];
      var h := records[i];
      var name := NameOrUnknown(h.userName);
      var k := FindGroup(gs, h.instructorId);
      if k == -1 {
        // the group is created empty, then the name is pushed onto it
        ghost var created := gs + [Group(h.instructorId, NameOrUnknown(h.instructorName), [name])];
        gs := gs + [Group(h.instructorId, NameOrUnknown(h.instructorName), [])];
        k := |gs| - 1;
        assert gs[k].users + [name] == [name];
        assert gs[k := gs[k].(users := gs[k].users + [name])] == created;
      }
      gs := gs[k := gs[k].(users := gs[k].users + [name])];
      i := i + 1;
    }
    assert records[..i] == records;
  }

  /** The names of the members who hid `iid`, in record order. */
  function UsersOf(records: seq<HiddenInstructor>, iid: Id): seq<string> {
    if records == [] then []
    else
      var h := records[|records| - 1];
      UsersOf(records[..|records| - 1], iid) + (if h.instructorId == iid then [NameOrUnknown(h.userName)] else [])
  }

  /** The first record naming `iid`, if any. */
  function FirstRecordOf(records: seq<HiddenInstructor>, iid: Id): Option<HiddenInstructor> {
    if records == [] then None
    else
      var f := FirstRecordOf(records[..|records| - 1], iid);
      if f.None? && records[|records| - 1].instructorId == iid then Some(records[|records| - 1]) else f
  }

  /** Adding a group for another instructor, or growing another instructor's group, does not move `iid`. */
  lemma FindGroupOther(gs: seq<Group>, gs2: seq<Group>, iid: Id)
    requires |gs| <= |gs2|
    requires forall j :: 0 <= j < |gs| ==> gs2[j].instructorId == gs[j].instructorId
    requires forall j :: |gs| <= j < |gs2| ==> gs2[j].instructorId != iid
    ensures FindGroup(gs2, iid) == FindGroup(gs, iid)
  {
    var a := FindGroup(gs, iid);
    var b := FindGroup(gs2, iid);
    if a >= 0 {
      assert gs2[a].instructorId == iid;
    }
    if b >= 0 {
      assert gs[b].instructorId == iid;
    }
  }

  /**
   * Each instructor's group holds exactly the names from that instructor's records, in
   * record order, under the name from its first record; an instructor without records
   * has no group.
   */
  lemma {:induction false} GroupContents(records: seq<HiddenInstructor>, iid: Id)
    ensures var gs := GroupsOf(records); var k := FindGroup(gs, iid);
            (k == -1 <==> UsersOf(records, iid) == [])
            && (FirstRecordOf(records, iid).None? <==> UsersOf(records, iid) == [])
            && (k >= 0 ==> gs[k].users == UsersOf(records, iid)
                           && FirstRecordOf(records, iid).Some?
                           && gs[k].name == NameOrUnknown(FirstRecordOf(records, iid).value.instructorName))
  {
    if records != [] {
      var init := records[..|records| - 1];
      var h := records[|records| - 1];
      GroupContents(init, iid);
      var gs := GroupsOf(init);
      var gs2 := GroupsOf(records);
      var kh := FindGroup(gs, h.instructorId);
      if h.instructorId != iid {
        FindGroupOther(gs, gs2, iid);
      } else if kh >= 0 {
        FindGroupOther(gs, gs2, iid);
      } else {
        FindGroupOther(gs, gs, iid);
        assert gs2[|gs|].instructorId == iid;
        assert FindGroup(gs2, iid) == |gs|;
      }
    }
  }

  /** The instructor ids of the groups are distinct. */
  predicate DistinctKeys(gs: seq<Group>) {
    forall i, j :: 0 <= i < j < |gs| ==> gs[i].instructorId != gs[j].instructorId
  }

  lemma {:induction false} GroupKeysDistinct(records: seq<HiddenInstructor>)
    ensures DistinctKeys(GroupsOf(records))
  {
    if records != [] {
      GroupKeysDistinct(records[..|records| - 1]);
    }
  }

  /** The number of hiding members over all groups. */
  function TotalSize(gs: seq<Group>): nat {
    if gs == [] then 0 else TotalSize(gs[..|gs| - 1]) + |gs[|gs| - 1].users|
  }

  lemma {:induction false} TotalSizeAppend(gs: seq<Group>, g: Group)
    ensures TotalSize(gs + [g]) == TotalSize(gs) + |g.users|
  {
    assert (gs + [g])[..|gs|] == gs;
  }

  lemma {:induction false} TotalSizeUpdate(gs: seq<Group>, k: nat, g: Group)
    requires k < |gs|
    ensures TotalSize(gs[k := g]) == TotalSize(gs) - |gs[k].users| + |g.users|
  {
    var last := |gs| - 1;
    if k < last {
      TotalSizeUpdate(gs[..last], k, g);
      assert gs[k := g][..last] == gs[..last][k := g];
    } else {
      assert gs[k := g][..last] == gs[..last];
    }
  }

  /** Each record adds exactly one name: the group sizes sum to the number of records. */
  lemma {:induction false} SizesSumToRecords(records: seq<HiddenInstructor>)
    ensures TotalSize(GroupsOf(records)) == |records|
  {
    if records != [] {
      var init := records[..|records| - 1];
      var h := records[|records| - 1];
      SizesSumToRecords(init);
      var gs := GroupsOf(init);
      var k := FindGroup(gs, h.instructorId);
      if k == -1 {
        TotalSizeAppend(gs, Group(h.instructorId, NameOrUnknown(h.instructorName), [NameOrUnknown(h.userName)]));
      } else {
        TotalSizeUpdate(gs, k, gs[k].(users := gs[k].users + [NameOrUnknown(h.userName)]));
      }
    }
  }

  function Size(g: Group): nat {
    |g.users|
  }

  predicate SortedBySize(gs: seq<Group>) {
    forall i, j :: 0 <= i < j < |gs| ==> Size(gs[i]) >= Size(gs[j])
  }

  /** Inserts `g` before the first group that is not larger, so it precedes equal-sized later groups. */
  function InsertBySize(g: Group, s: seq<Group>): (r: seq<Group>)
    requires SortedBySize(s)
    ensures SortedBySize(r)
    ensures multiset(r) == multiset([g] + s)
  {
    if s == [] || Size(g) >= Size(s[0]) then [g] + s
    else
      var rest := InsertBySize(g, s[1..]);
      InsertBelowHead(g, s, rest);
      [s[0]] + rest
  }

  lemma InsertBelowHead(g: Group, s: seq<Group>, rest: seq<Group>)
    requires s != [] && SortedBySize(s) && Size(g) < Size(s[0])
    requires SortedBySize(rest) && multiset(rest) == multiset([g] + s[1..])
    ensures SortedBySize([s[0]] + rest)
    ensures multiset([s[0]] + rest) == multiset([g] + s)
  {
    assert s == [s[0]] + s[1..];
    forall j | 0 <= j < |rest| ensures Size(s[0]) >= Size(rest[j]) {
      assert rest[j] in multiset([g] + s[1..]);
      assert rest[j] == g || rest[j] in s[1..];
    }
  }

  /**
   * `.sort((a, b) => b.users.length - a.users.length)`: `Array.prototype.sort` is stable, so
   * this is the ordering by size, largest first, with ties in their original order.
   */
  function SortBySize(gs: seq<Group>): (r: seq<Group>)
    ensures SortedBySize(r)
    ensures multiset(r) == multiset(gs)
  {
    if gs == [] then []
    else
      assert gs == [gs[0]] + gs[1..];
      InsertBySize(gs[0], SortBySize(gs[1..]))
  }

  /** The groups of size `n`, in order. */
  function OfSize(gs: seq<Group>, n: nat): seq<Group> {
    if gs == [] then []
    else (if Size(gs[0]) == n then [gs[0]] else []) + OfSize(gs[1..], n)
  }

  lemma {:induction false} InsertKeepsTies(g: Group, s: seq<Group>, n: nat)
    requires SortedBySize(s)
    ensures OfSize(InsertBySize(g, s), n) == OfSize([g] + s, n)
  {
    if s != [] && Size(g) < Size(s[0]) {
      InsertKeepsTies(g, s[1..], n);
      assert ([g] + s)[1..] == s;
      assert ([g] + s[1..])[1..] == s[1..];
      var rest := InsertBySize(g, s[1..]);
      assert ([s[0]] + rest)[1..] == rest;
    }
  }

  /** The sort is stable: groups of equal size keep their relative order. */
  lemma {:induction false} SortKeepsTies(gs: seq<Group>, n: nat)
    ensures OfSize(SortBySize(gs), n) == OfSize(gs, n)
  {
    if gs != [] {
      SortKeepsTies(gs[1..], n);
      InsertKeepsTies(gs[0], SortBySize(gs[1..]), n);
      assert ([gs[0]] + SortBySize(gs[1..]))[1..] == SortBySize(gs[1..]);
    }
  }

  /** The rows of the statistics table. */
  method StatsRows(records: seq<HiddenInstructor>) returns (rows: seq<Group>)
    ensures rows == SortBySize(GroupsOf(records))
    ensures SortedBySize(rows) && multiset(rows) == multiset(GroupsOf(records))
  {
    var gs := HiddenByInstructor(records);
    rows := SortBySize(gs);
  }
}
