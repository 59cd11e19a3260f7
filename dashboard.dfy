/**
 * The member dashboard (src/pages/Dashboard.tsx): the favourite and hidden-instructor
 * lists built from joined rows, unhiding an instructor, the role-dependent panels and
 * label, and the invite-code upgrade, a sequence of store calls that stops at the first
 * failure. The store is a value passed in and returned.
 */
module Dashboard {
  import opened Wrappers
  import opened Records
  import opened Seqs

  /** Line 28: the favourite courses, dropping favourites whose course join is null. */
  function FavoriteCourses(joins: seq<Option<Course>>): (r: seq<Course>)
    ensures |r| <= |joins|
    ensures forall c :: c in r <==> Some(c) in joins
    ensures |r| == |Filter(joins, IsSome)|
    ensures forall i :: 0 <= i < |r| ==> Some(r[i]) == Filter(joins, IsSome)[i]
  {
    Present(joins)
  }

  /** Line 35: the favourite instructors, dropping null joins. */
  function FavoriteInstructors(joins: seq<Option<Profile>>): (r: seq<Profile>)
    ensures |r| <= |joins|
    ensures forall p :: p in r <==> Some(p) in joins
    ensures |r| == |Filter(joins, IsSome)|
    ensures forall i :: 0 <= i < |r| ==> Some(r[i]) == Filter(joins, IsSome)[i]
  {
    Present(joins)
  }

  /** A hidden-instructor row with its joined instructor profile (null when the join found none). */
  datatype HiddenRow = HiddenRow(id: Id, instructor: Option<Profile>)

  /** `{ ...h.instructor, hidden_id: h.id }`: the instructor's fields, absent when the join is null. */
  datatype HiddenEntry = HiddenEntry(id: Option<Id>, fullName: Option<string>, hiddenId: Id)

  function EntryOf(h: HiddenRow): HiddenEntry {
    if h.instructor.Some? then HiddenEntry(Some(h.instructor.value.id), h.instructor.value.fullName, h.id)
    else HiddenEntry(None, None, h.id)
  }

  /**
   * Line 42 as written: the spread always builds an object, and an object is truthy, so
   * `.filter(Boolean)` removes nothing; a null join yields an entry without an id.
   */
  function HiddenEntriesAsWritten(rows: seq<HiddenRow>): (r: seq<HiddenEntry>)
    ensures |r| == |rows|
    ensures forall i :: 0 <= i < |rows| ==> r[i] == EntryOf(rows[i])
  {
    Map(rows, EntryOf)
  }

  /** A row whose instructor join is null shows up as an entry with no instructor id. */
  lemma NullJoinKeptAsWritten(rows: seq<HiddenRow>, i: nat)
    requires i < |rows| && rows[i].instructor.None?
    ensures exists e :: e in HiddenEntriesAsWritten(rows) && e.id.None? && e.hiddenId == rows[i].id
  {
    assert HiddenEntriesAsWritten(rows)[i].id.None?;
  }

  predicate HasInstructor(h: HiddenRow) {
    h.instructor.Some?
  }

  /**
   * Line 42 as intended: the entries of the rows whose instructor join is present,
   * position by position, so in order and with repetitions kept.
   */
  function HiddenEntries(rows: seq<HiddenRow>): (r: seq<HiddenEntry>)
    ensures |r| <= |rows|
    ensures forall e :: e in r ==> e.id.Some?
    ensures forall i :: 0 <= i < |rows| && rows[i].instructor.Some? ==> EntryOf(rows[i]) in r
    ensures forall e :: e in r ==> exists i :: 0 <= i < |rows| && rows[i].instructor.Some? && e == EntryOf(rows[i])
    ensures |r| == |Filter(rows, HasInstructor)|
    ensures forall i :: 0 <= i < |r| ==> r[i] == EntryOf(Filter(rows, HasInstructor)[i])
  {
    var present := Filter(rows, HasInstructor);
    forall e | e in Map(present, EntryOf)
      ensures exists i :: 0 <= i < |rows| && rows[i].instructor.Some? && e == EntryOf(rows[i])
    {
      var k :| 0 <= k < |present| && e == EntryOf(present[k]);
      assert present[k] in present;
      var i :| 0 <= i < |rows| && rows[i] == present[k];
    }
    forall i | 0 <= i < |rows| && rows[i].instructor.Some?
      ensures EntryOf(rows[i]) in Map(present, EntryOf)
    {
      assert rows[i] in present;
      var k :| 0 <= k < |present| && present[k] == rows[i];
    }
    Map(present, EntryOf)
  }

  /**
   * Line 50: drop every entry whose id is the button's instructor id, keep the rest in
   * order. The id is `undefined` (None) on an entry built from a null join, and then
   * every such entry goes.
   */
  function Unhide(entries: seq<HiddenEntry>, instructorId: Option<Id>): (r: seq<HiddenEntry>)
    ensures forall e :: e in r <==> e in entries && e.id != instructorId
    ensures IsSubsequence(r, entries)
  {
    FilterIsSubsequence(entries, (e: HiddenEntry) => e.id != instructorId);
    Filter(entries, (e: HiddenEntry) => e.id != instructorId)
  }

  /** Unhiding twice is unhiding once. */
  lemma UnhideIdempotent(entries: seq<HiddenEntry>, instructorId: Option<Id>)
    ensures Unhide(Unhide(entries, instructorId), instructorId) == Unhide(entries, instructorId)
  {
    FilterIdempotent(entries, (e: HiddenEntry) => e.id != instructorId);
  }

  /** Unhiding an instructor who is not listed leaves the list unchanged. */
  lemma {:induction false} UnhideAbsent(entries: seq<HiddenEntry>, instructorId: Option<Id>)
    requires forall i :: 0 <= i < |entries| ==> entries[i].id != instructorId
    ensures Unhide(entries, instructorId) == entries
  {
    FilterKeepsAll(entries, (e: HiddenEntry) => e.id != instructorId);
  }

  /** Line 130: the invite-code panel is shown only to a 'student'. */
  predicate InvitePanelShown(role: Option<string>) {
    role == Some("student")
  }

  /** Line 280: the course-management link for every role but 'student', a missing profile included. */
  predicate ManagementLinkShown(role: Option<string>) {
    role != Some("student")
  }

  /** Line 290: the admin link only for 'admin'. */
  predicate AdminLinkShown(role: Option<string>) {
    role == Some("admin")
  }

  /** Line 112. */
  function RoleLabel(role: Option<string>): (text: string)
    ensures role == Some("admin") <==> text == "管理員"
    ensures role == Some("instructor") <==> text == "講師"
    ensures role != Some("admin") && role != Some("instructor") <==> text == "學員"
  {
    if role == Some("admin") then "管理員" else if role == Some("instructor") then "講師" else "學員"
  }

  /**
   * Exactly one of the invite panel and the management link is shown; the admin link
   * comes with the management link.
   */
  lemma PanelsPartition(role: Option<string>)
    ensures InvitePanelShown(role) != ManagementLinkShown(role)
    ensures AdminLinkShown(role) ==> ManagementLinkShown(role) && !InvitePanelShown(role)
    ensures InvitePanelShown(role) ==> RoleLabel(role) == "學員"
  {
  }

  /** An invitation-code row. */
  datatype CodeRow = CodeRow(code: string, role: string, isUsed: bool)

  /** The part of the store the upgrade touches: each profile's role and the invitation codes. */
  datatype Store = Store(roles: map<Id, string>, codes: seq<CodeRow>)

  /**
   * How each store call ends apart from the data. `lookup`, `roleUpdate` and `markUsed`
   * mean the call returned an error. `roleRefused` and `markRefused` mean the row-level
   * access policy filtered the update out: the call returns no error and changes no row.
   */
  datatype Failures = Failures(lookup: bool, roleUpdate: bool, roleRefused: bool, markUsed: bool, markRefused: bool)

  datatype InviteOutcome = Upgraded | InvalidCode | RoleUpdateFailed | MarkUsedFailed

  /** Lines 59-64: the unused rows with this code; `.single()` succeeds only for exactly one. */
  function UnusedMatches(codes: seq<CodeRow>, code: string): (r: seq<CodeRow>)
    ensures forall k :: k in r <==> k in codes && k.code == code && !k.isUsed
  {
    Filter(codes, (k: CodeRow) => k.code == code && !k.isUsed)
  }

  /** Lines 59-68: the lookup succeeds when the call does and exactly one unused row carries the code. */
  predicate LookupSucceeds(store: Store, code: string, f: Failures) {
    !f.lookup && |UnusedMatches(store.codes, code)| == 1
  }

  /** Line 79: every row with this code is marked used. */
  function MarkUsed(codes: seq<CodeRow>, code: string): (r: seq<CodeRow>)
    ensures |r| == |codes|
    ensures forall i :: 0 <= i < |codes| ==> r[i] == if codes[i].code == code then codes[i].(isUsed := true) else codes[i]
  {
    Map(codes, (k: CodeRow) => if k.code == code then k.(isUsed := true) else k)
  }

  /** After marking, the code matches no unused row, so it cannot be redeemed again. */
  lemma {:induction false} MarkedCodeIsSpent(codes: seq<CodeRow>, code: string)
    ensures UnusedMatches(MarkUsed(codes, code), code) == []
  {
    if codes != [] {
      MarkedCodeIsSpent(codes[1..], code);
      assert MarkUsed(codes, code)[1..] == MarkUsed(codes[1..], code);
    }
  }

  /**
   * `handleInviteCode` (lines 53-89) as written. After the lookup finds exactly one unused
   * row, the profile's role is set to 'instructor' whatever role the code carries; then the
   * code is marked used. Each step runs only if the previous call returned no error. A
   * refused update is not an error, so it changes nothing and the steps go on.
   */
  predicate RedeemedAsWritten(store: Store, profileId: Id, code: string, f: Failures,
                              after: Store, outcome: InviteOutcome)
  {
    var found := LookupSucceeds(store, code, f);
    var roles := if f.roleRefused then store.roles else store.roles[profileId := "instructor"];
    && (outcome == InvalidCode <==> !found)
    && (outcome == RoleUpdateFailed <==> found && f.roleUpdate)
    && (outcome == MarkUsedFailed <==> found && !f.roleUpdate && f.markUsed)
    && (outcome == InvalidCode || outcome == RoleUpdateFailed ==> after == store)
    && (outcome == MarkUsedFailed ==> after == Store(roles, store.codes))
    && (outcome == Upgraded ==>
          after == Store(roles, if f.markRefused then store.codes else MarkUsed(store.codes, code)))
  }

  method RedeemInviteAsWritten(store: Store, profileId: Id, code: string, f: Failures)
    returns (after: Store, outcome: InviteOutcome)
    requires profileId in store.roles  // the form shows only for a loaded 'student' profile (line 130)
    ensures RedeemedAsWritten(store, profileId, code, f, after, outcome)
  {
    var found := UnusedMatches(store.codes, code);
    if f.lookup || |found| != 1 {
      return store, InvalidCode;
    }
    if f.roleUpdate {
      return store, RoleUpdateFailed;
    }
    after := store;
    if !f.roleRefused {
      after := after.(roles := store.roles[profileId := "instructor"]);
    }
    if f.markUsed {
      return after, MarkUsedFailed;
    }
    if !f.markRefused {
      after := after.(codes := MarkUsed(after.codes, code));
    }
    outcome := Upgraded;
  }

  /** An admin code (the admin page issues them) redeemed as written yields an instructor, not an admin. */
  method AdminCodeGrantsInstructor() returns (roleAfter: string)
    ensures roleAfter == "instructor" && roleAfter != "admin"
  {
    var store := Store(map["p1" := "student"], [CodeRow("ABCD1234", "admin", false)]);
    assert UnusedMatches(store.codes, "ABCD1234") == [CodeRow("ABCD1234", "admin", false)];
    var after, outcome := RedeemInviteAsWritten(store, "p1", "ABCD1234", Failures(false, false, false, false, false));
    roleAfter := after.roles["p1"];
  }

  /**
   * As written, a role update the access policy refuses still reports success: the
   * student stays a student and the code is spent.
   */
  method RefusedRoleUpdateReportsSuccess() returns (roleAfter: string, outcome: InviteOutcome, spent: bool)
    ensures outcome == Upgraded && roleAfter == "student" && spent
  {
    var store := Store(map["p1" := "student"], [CodeRow("ABCD1234", "instructor", false)]);
    assert UnusedMatches(store.codes, "ABCD1234") == [CodeRow("ABCD1234", "instructor", false)];
    var after;
    after, outcome := RedeemInviteAsWritten(store, "p1", "ABCD1234", Failures(false, false, true, false, false));
    roleAfter := after.roles["p1"];
    spent := UnusedMatches(after.codes, "ABCD1234") == [];
    MarkedCodeIsSpent(store.codes, "ABCD1234");
  }

  /**
   * The upgrade as intended: the same sequence, granting the role the code carries, and
   * treating an update that changed no row as a failure, as the course manager's publish
   * toggle does. Success grants that role and spends the code; a failed lookup or role
   * update changes nothing; a failed mark leaves the role granted and the code unspent.
   */
  method RedeemInvite(store: Store, profileId: Id, code: string, f: Failures)
    returns (after: Store, outcome: InviteOutcome)
    requires profileId in store.roles
    ensures outcome == InvalidCode <==> !LookupSucceeds(store, code, f)
    ensures outcome == RoleUpdateFailed <==> LookupSucceeds(store, code, f) && (f.roleUpdate || f.roleRefused)
    ensures outcome == MarkUsedFailed <==>
              LookupSucceeds(store, code, f) && !f.roleUpdate && !f.roleRefused && (f.markUsed || f.markRefused)
    ensures outcome == InvalidCode || outcome == RoleUpdateFailed ==> after == store
    ensures outcome == MarkUsedFailed ==>
              after == Store(store.roles[profileId := UnusedMatches(store.codes, code)[0].role], store.codes)
    ensures outcome == Upgraded ==>
              after == Store(store.roles[profileId := UnusedMatches(store.codes, code)[0].role], MarkUsed(store.codes, code))
    ensures outcome == Upgraded ==> UnusedMatches(after.codes, code) == []
  {
    var found := UnusedMatches(store.codes, code);
    if f.lookup || |found| != 1 {
      return store, InvalidCode;
    }
    if f.roleUpdate || f.roleRefused {
      return store, RoleUpdateFailed;
    }
    after := store.(roles := store.roles[profileId := found[0].role]);
    if f.markUsed || f.markRefused {
      return after, MarkUsedFailed;
    }
    after := after.(codes := MarkUsed(after.codes, code));
    MarkedCodeIsSpent(store.codes, code);
    outcome := Upgraded;
  }

  /** With the intended upgrade, an admin code yields an admin, and the code cannot be used twice. */
  method AdminCodeGrantsAdmin() returns (roleAfter: string, second: InviteOutcome)
    ensures roleAfter == "admin" && second == InvalidCode
  {
    var store := Store(map["p1" := "student", "p2" := "student"], [CodeRow("ABCD1234", "admin", false)]);
    assert UnusedMatches(store.codes, "ABCD1234") == [CodeRow("ABCD1234", "admin", false)];
    var ok := Failures(false, false, false, false, false);
    var after, outcome := RedeemInvite(store, "p1", "ABCD1234", ok);
    roleAfter := after.roles["p1"];
    var again;
    again, second := RedeemInvite(after, "p2", "ABCD1234", ok);
  }

  /** The dashboard's state used by the modelled handlers. */
  class DashboardPage {
    var hiddenInstructors: seq<HiddenEntry>
    var loading: bool
    var outcome: Option<InviteOutcome>

    /** The page after `fetchData` answered with the hidden-instructor rows (line 42 as written). */
    constructor (rows: seq<HiddenRow>)
      ensures hiddenInstructors == HiddenEntriesAsWritten(rows) && !loading && outcome.None?
    {
      hiddenInstructors, loading, outcome := HiddenEntriesAsWritten(rows), false, None;
    }

    /**
     * `unhideInstructor` (lines 47-51) with the clicked entry's id: nothing without a user;
     * otherwise the local list drops the entries with that id.
     */
    method UnhideClicked(user: Option<Id>, instructorId: Option<Id>)
      modifies this`hiddenInstructors
      ensures user.None? ==> hiddenInstructors == old(hiddenInstructors)
      ensures user.Some? ==> hiddenInstructors == Unhide(old(hiddenInstructors), instructorId)
    {
      if user.None? {
        return;
      }
      hiddenInstructors := Unhide(hiddenInstructors, instructorId);
    }

    /**
     * The form submit (lines 53-89): the steps run as written, their outcome is shown and
     * `loading` is cleared whatever happened.
     */
    method SubmitInvite(store: Store, profileId: Id, code: string, f: Failures) returns (after: Store)
      requires profileId in store.roles
      modifies this`loading, this`outcome
      ensures !loading && outcome.Some?
      ensures RedeemedAsWritten(store, profileId, code, f, after, outcome.value)
    {
      loading := true;
      outcome := None;
      var o;
      after, o := RedeemInviteAsWritten(store, profileId, code, f);
      outcome := Some(o);
      loading := false;
    }
  }
}
