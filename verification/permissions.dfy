/**
 * The object-level permission classes of core/projects/permissions.py and
 * the membership facts every view is scoped by.
 */
module Permissions {
  import opened Wrappers
  import opened ProjectModels
  import opened Db

  /** `IsAuthenticated`: the request carries a known user. */
  predicate Authenticated(s: Store, caller: Id) {
    caller in s.users.rows
  }

  /** The site-wide superuser flag, distinct from any workspace role. */
  predicate IsSuperuser(s: Store, caller: Id) {
    caller in s.users.rows && s.users.rows[caller].isSuperuser
  }

  /** `IsWorkspaceMember`: a membership row for (user, workspace) exists. */
  predicate IsWorkspaceMember(s: Store, user: Id, workspace: Id) {
    exists m :: m in s.members.rows && s.members.rows[m].user == user && s.members.rows[m].workspace == workspace
  }

  /** `IsWorkspaceAdmin`: a membership row for (user, workspace) with role
      ADMIN exists; so every workspace admin is a workspace member. */
  predicate IsWorkspaceAdmin(s: Store, user: Id, workspace: Id): (r: bool)
    ensures r ==> IsWorkspaceMember(s, user, workspace)
  {
    exists m :: m in s.members.rows && s.members.rows[m].user == user
      && s.members.rows[m].workspace == workspace && s.members.rows[m].role == Admin
  }

  /** The membership rows of (user, workspace). */
  function MembershipRows(s: Store, user: Id, workspace: Id): (rows: set<Id>)
    ensures rows != {} <==> IsWorkspaceMember(s, user, workspace)
  {
    var rows := set m | m in s.members.rows && s.members.rows[m].user == user && s.members.rows[m].workspace == workspace;
    assert IsWorkspaceMember(s, user, workspace) ==> rows != {} by {
      if IsWorkspaceMember(s, user, workspace) {
        var m :| m in s.members.rows && s.members.rows[m].user == user && s.members.rows[m].workspace == workspace;
        assert m in rows;
      }
    }
    rows
  }

  /** The unique constraint leaves at most one row per (user, workspace). */
  lemma {:induction false} AtMostOneMembershipRow(s: Store, user: Id, workspace: Id)
    requires UniqueMembership(s.members.rows)
    ensures |MembershipRows(s, user, workspace)| <= 1
  {
    var rows := MembershipRows(s, user, workspace);
    if rows != {} {
      var m :| m in rows;
      assert rows == {m};
    }
  }

  /** A member enrolled with role MEMBER passes the member check and fails
      the admin check. */
  lemma PlainMemberIsNotAdmin(s: Store, m: Id)
    requires UniqueMembership(s.members.rows)
    requires m in s.members.rows && s.members.rows[m].role == Member
    ensures IsWorkspaceMember(s, s.members.rows[m].user, s.members.rows[m].workspace)
    ensures !IsWorkspaceAdmin(s, s.members.rows[m].user, s.members.rows[m].workspace)
  {
  }

  /** Membership in a workspace reached by a walk that may have found none. */
  predicate IsMemberOf(s: Store, user: Id, workspace: Option<Id>) {
    workspace.Some? && IsWorkspaceMember(s, user, workspace.value)
  }

  /** Two users hold memberships in one and the same workspace. */
  ghost predicate ShareWorkspace(s: Store, a: Id, b: Id) {
    exists w :: IsWorkspaceMember(s, a, w) && IsWorkspaceMember(s, b, w)
  }

  /** The self-join `user__workspacemember__workspace__workspacemember__user`:
      a membership row of `a` and one of `b` name the same workspace. It holds
      exactly when the two users share a workspace. */
  predicate MembershipsMeet(s: Store, a: Id, b: Id): (r: bool)
    ensures r <==> ShareWorkspace(s, a, b)
  {
    var r := exists m1, m2 ::
      (m1 in s.members.rows && m2 in s.members.rows
       && s.members.rows[m1].user == a && s.members.rows[m2].user == b
       && s.members.rows[m1].workspace == s.members.rows[m2].workspace);
    assert ShareWorkspace(s, a, b) ==> r by {
      if ShareWorkspace(s, a, b) {
        var w :| IsWorkspaceMember(s, a, w) && IsWorkspaceMember(s, b, w);
        var m1 :| m1 in s.members.rows && s.members.rows[m1].user == a && s.members.rows[m1].workspace == w;
        var m2 :| m2 in s.members.rows && s.members.rows[m2].user == b && s.members.rows[m2].workspace == w;
      }
    }
    assert r ==> ShareWorkspace(s, a, b) by {
      if r {
        var m1, m2 :| m1 in s.members.rows && m2 in s.members.rows
          && s.members.rows[m1].user == a && s.members.rows[m2].user == b
          && s.members.rows[m1].workspace == s.members.rows[m2].workspace;
        assert IsWorkspaceMember(s, a, s.members.rows[m1].workspace);
        assert IsWorkspaceMember(s, b, s.members.rows[m1].workspace);
      }
    }
    r
  }
}
