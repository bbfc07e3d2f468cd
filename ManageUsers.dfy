/** The user admin page: each user's shown role, a case-insensitive search over the profiles, and the
    role change, which deletes the user's role rows and then inserts one. The `user_roles` table is
    kept as a list of rows in the order a full read returns them. */
module ManageUsers {
  import opened Wrappers
  import opened Domain
  import Text
  import Seqs

  datatype RoleRow = RoleRow(userId: string, role: AppRole)

  datatype UserProfile = UserProfile(userId: string, fullName: string, email: string)

  /** `ROLES`: the options of the role select. */
  const Roles: seq<AppRole> := [Student, CafeteriaAdmin, SuperAdmin]

  lemma RolesComplete()
    ensures forall r: AppRole :: r in Roles
    ensures |Roles| == 3 && Roles[0] != Roles[1] && Roles[1] != Roles[2] && Roles[0] != Roles[2]
  {
    forall r: AppRole ensures r in Roles {
      match r
      case Student => assert Roles[0] == r;
      case CafeteriaAdmin => assert Roles[1] == r;
      case SuperAdmin => assert Roles[2] == r;
    }
  }

  /** `allRoles.find(r => r.user_id === userId)?.role || 'student'`. */
  function GetUserRole(rows: seq<RoleRow>, userId: string): AppRole {
    if rows == [] then Student
    else if rows[0].userId == userId then rows[0].role
    else GetUserRole(rows[1..], userId)
  }

  /** Row `k` is the user's first row in the table. */
  predicate IsFirstRowOf(rows: seq<RoleRow>, userId: string, k: int) {
    0 <= k < |rows| && rows[k].userId == userId && forall j :: 0 <= j < k ==> rows[j].userId != userId
  }

  /** The role shown is the one on the user's first row, and `student` when the user has no row. */
  lemma {:induction false} GetUserRoleSpec(rows: seq<RoleRow>, userId: string)
    ensures (forall i :: 0 <= i < |rows| ==> rows[i].userId != userId) ==> GetUserRole(rows, userId) == Student
    ensures forall k :: IsFirstRowOf(rows, userId, k) ==> GetUserRole(rows, userId) == rows[k].role
  {
    if rows != [] && rows[0].userId != userId {
      GetUserRoleSpec(rows[1..], userId);
      forall k | IsFirstRowOf(rows, userId, k) ensures GetUserRole(rows, userId) == rows[k].role {
        FirstRowInTail(rows, userId, k);
      }
      if forall i :: 0 <= i < |rows| ==> rows[i].userId != userId {
        NoRowInTail(rows, userId);
      }
    }
  }

  lemma FirstRowInTail(rows: seq<RoleRow>, userId: string, k: int)
    requires rows != [] && rows[0].userId != userId && IsFirstRowOf(rows, userId, k)
    ensures IsFirstRowOf(rows[1..], userId, k - 1) && rows[1..][k - 1] == rows[k]
  {
    var t := rows[1..];
    forall j | 0 <= j < k - 1 ensures t[j].userId != userId {
      assert t[j] == rows[j + 1];
    }
  }

  lemma NoRowInTail(rows: seq<RoleRow>, userId: string)
    requires rows != [] && forall i :: 0 <= i < |rows| ==> rows[i].userId != userId
    ensures forall i :: 0 <= i < |rows[1..]| ==> rows[1..][i].userId != userId
  {
    var t := rows[1..];
    forall i | 0 <= i < |t| ensures t[i].userId != userId {
      assert t[i] == rows[i + 1];
    }
  }

  /** `p.full_name.toLowerCase().includes(q) || p.email.toLowerCase().includes(q)`, `q` lower-cased. */
  function MatchesSearch(query: string): UserProfile -> bool {
    (p: UserProfile) => Text.LowerIncludes(p.fullName, query) || Text.LowerIncludes(p.email, query)
  }

  /** `filtered`: the profiles matching the search box, in their fetched order. */
  function SearchProfiles(profiles: seq<UserProfile>, query: string): (r: seq<UserProfile>)
    ensures forall p :: p in r <==>
      (p in profiles && (Text.LowerIncludes(p.fullName, query) || Text.LowerIncludes(p.email, query)))
  {
    Seqs.Filter(profiles, MatchesSearch(query))
  }

  /** An empty search box shows every profile; any search keeps the fetched order. */
  lemma SearchProps(profiles: seq<UserProfile>, query: string)
    ensures SearchProfiles(profiles, "") == profiles
    ensures Seqs.IsSubsequence(SearchProfiles(profiles, query), profiles)
  {
    forall p | p in profiles ensures MatchesSearch("")(p) {
      Text.LowerIncludesProps(p.fullName, "");
    }
    Seqs.FilterKeepsAll(profiles, MatchesSearch(""));
    Seqs.FilterIsSubsequence(profiles, MatchesSearch(query));
  }

  function IsOtherUser(userId: string): RoleRow -> bool {
    (r: RoleRow) => r.userId != userId
  }

  function IsRowOf(userId: string): RoleRow -> bool {
    (r: RoleRow) => r.userId == userId
  }

  /** The table after `updateRole(userId, role)`. The delete's outcome is not checked: when it fails the
      old rows stay. When the insert fails, nothing is added. */
  function UpdatedRoles(rows: seq<RoleRow>, userId: string, role: AppRole, deleteFails: bool, insertFails: bool)
    : seq<RoleRow>
  {
    var afterDelete := if deleteFails then rows else Seqs.Filter(rows, IsOtherUser(userId));
    if insertFails then afterDelete else afterDelete + [RoleRow(userId, role)]
  }

  /** When both writes succeed the user has exactly one role row, holding the new role, which is then
      the role shown; other users' rows are untouched. */
  lemma UpdateRoleSucceeds(rows: seq<RoleRow>, userId: string, role: AppRole, other: string)
    requires other != userId
    ensures var r := UpdatedRoles(rows, userId, role, false, false);
      && Seqs.Filter(r, IsRowOf(userId)) == [RoleRow(userId, role)]
      && GetUserRole(r, userId) == role
      && Seqs.Filter(r, IsRowOf(other)) == Seqs.Filter(rows, IsRowOf(other))
  {
    var kept := Seqs.Filter(rows, IsOtherUser(userId));
    var r := kept + [RoleRow(userId, role)];
    Seqs.FilterAppend(kept, [RoleRow(userId, role)], IsRowOf(userId));
    assert Seqs.Filter(kept, IsRowOf(userId)) == [] by {
      NoRowsOf(kept, userId);
    }
    assert [RoleRow(userId, role)][1..] == [];
    assert Seqs.Filter([RoleRow(userId, role)], IsRowOf(userId)) == [RoleRow(userId, role)];
    assert r[|kept|] == RoleRow(userId, role);
    assert forall j :: 0 <= j < |kept| ==> r[j] == kept[j] && kept[j] in kept;
    GetUserRoleSpec(r, userId);
    assert IsFirstRowOf(r, userId, |kept|);
    Seqs.FilterAppend(kept, [RoleRow(userId, role)], IsRowOf(other));
    assert Seqs.Filter([RoleRow(userId, role)], IsRowOf(other)) == [];
    FilterOtherUser(rows, userId, other);
  }

  lemma {:induction false} NoRowsOf(rows: seq<RoleRow>, userId: string)
    requires forall x :: x in rows ==> x.userId != userId
    ensures Seqs.Filter(rows, IsRowOf(userId)) == []
  {
    if rows != [] {
      assert rows[0] in rows;
      assert forall x :: x in rows[1..] ==> x in rows;
      NoRowsOf(rows[1..], userId);
    }
  }

  /** Deleting one user's rows leaves another user's rows as they were, in order. */
  lemma {:induction false} FilterOtherUser(rows: seq<RoleRow>, userId: string, other: string)
    requires other != userId
    ensures Seqs.Filter(Seqs.Filter(rows, IsOtherUser(userId)), IsRowOf(other)) == Seqs.Filter(rows, IsRowOf(other))
  {
    if rows != [] {
      FilterOtherUser(rows[1..], userId, other);
      var rest := Seqs.Filter(rows[1..], IsOtherUser(userId));
      if rows[0].userId != userId {
        assert Seqs.Filter(rows, IsOtherUser(userId)) == [rows[0]] + rest;
        assert ([rows[0]] + rest)[1..] == rest;
      }
    }
  }

  /** When the delete fails but the insert goes through, a user who already had a role row keeps
      showing the old role, although the change is reported as done. */
  lemma FailedDeleteHidesNewRole(rows: seq<RoleRow>, userId: string, role: AppRole)
    requires exists i :: 0 <= i < |rows| && rows[i].userId == userId
    ensures GetUserRole(UpdatedRoles(rows, userId, role, true, false), userId) == GetUserRole(rows, userId)
  {
    var r := rows + [RoleRow(userId, role)];
    FirstRowOf(rows, userId);
    var k :| IsFirstRowOf(rows, userId, k);
    assert r[k] == rows[k] && forall j :: 0 <= j < k ==> r[j] == rows[j];
    assert IsFirstRowOf(r, userId, k);
    GetUserRoleSpec(rows, userId);
    GetUserRoleSpec(r, userId);
  }

  lemma {:induction false} FirstRowOf(rows: seq<RoleRow>, userId: string)
    requires exists i :: 0 <= i < |rows| && rows[i].userId == userId
    ensures exists k :: IsFirstRowOf(rows, userId, k)
  {
    if rows[0].userId != userId {
      var t := rows[1..];
      var i :| 0 <= i < |rows| && rows[i].userId == userId;
      assert t[i - 1] == rows[i];
      FirstRowOf(t, userId);
      var k :| IsFirstRowOf(t, userId, k);
      assert rows[k + 1] == t[k];
      forall j | 0 <= j < k + 1 ensures rows[j].userId != userId {
        if j > 0 { assert rows[j] == t[j - 1]; }
      }
      assert IsFirstRowOf(rows, userId, k + 1);
    } else {
      assert IsFirstRowOf(rows, userId, 0);
    }
  }

  class RoleTable {
    var rows: seq<RoleRow>

    constructor (initial: seq<RoleRow>)
      ensures rows == initial
    {
      rows := initial;
    }

    /** `updateRole(userId, role)`: delete the user's rows, then insert one. `deleteFails` and
        `insertFails` say which of the two remote writes reports an error; `ok` is false exactly when
        the insert failed (the error toast). */
    method UpdateRole(userId: string, role: AppRole, deleteFails: bool, insertFails: bool) returns (ok: bool)
      modifies this
      ensures rows == UpdatedRoles(old(rows), userId, role, deleteFails, insertFails)
      ensures ok <==> !insertFails
    {
      if !deleteFails {
        rows := Seqs.Filter(rows, IsOtherUser(userId));
      }
      if !insertFails {
        rows := rows + [RoleRow(userId, role)];
      }
      ok := !insertFails;
    }
  }
}
