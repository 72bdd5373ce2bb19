/**
 * The admin page: the user list, the guard that keeps the only admin from revoking their own
 * rights, the row update after a successful PATCH, and the redirect of visitors who are not
 * admins.
 */
module Admin {
  import opened Wrappers
  import Auth

  datatype UserRow = UserRow(id: int, email: string, displayName: Option<string>, isAdmin: bool)

  /** User ids are the backend's primary keys: no two rows share one. */
  predicate UniqueIds(users: seq<UserRow>) {
    forall i, j :: 0 <= i < j < |users| ==> users[i].id != users[j].id
  }

  /** `users.filter((x) => x.is_admin).length`. */
  function AdminCount(users: seq<UserRow>): (n: nat)
    ensures n <= |users|
    ensures n == 0 <==> forall i :: 0 <= i < |users| ==> !users[i].isAdmin
  {
    if users == [] then 0
    else
      var rest := AdminCount(users[1..]);
      assert forall i :: 1 <= i < |users| ==> users[i] == users[1..][i - 1];
      (if users[0].isAdmin then 1 else 0) + rest
  }

  /** `u.id === user?.id`: without a signed-in user no row is the user's own. */
  predicate IsSelf(u: UserRow, current: Option<Auth.User>) {
    current.Some? && u.id == current.value.id
  }

  /** The button's `cannotRevokeSelf`: an admin row of the user themself while at most one admin is listed. */
  predicate CannotRevokeSelf(u: UserRow, current: Option<Auth.User>, adminCount: nat) {
    u.isAdmin && IsSelf(u, current) && adminCount <= 1
  }

  /** The early return of toggleAdmin, written as the handler computes it from the new flag. */
  predicate ToggleRefused(u: UserRow, current: Option<Auth.User>, adminCount: nat) {
    var newAdmin := !u.isAdmin;
    !newAdmin && IsSelf(u, current) && adminCount <= 1
  }

  /** The disabled button and the handler's guard refuse the same rows. */
  lemma GuardMatchesButton(u: UserRow, current: Option<Auth.User>, adminCount: nat)
    ensures ToggleRefused(u, current, adminCount) <==> CannotRevokeSelf(u, current, adminCount)
  {
  }

  /** `prev.map((x) => x.id === id ? { ...x, is_admin: flag } : x)`. */
  function SetAdminFlag(users: seq<UserRow>, id: int, flag: bool): (r: seq<UserRow>)
    ensures |r| == |users|
    ensures forall i :: 0 <= i < |users| ==> r[i] == if users[i].id == id then users[i].(isAdmin := flag) else users[i]
  {
    seq(|users|, i requires 0 <= i < |users| => if users[i].id == id then users[i].(isAdmin := flag) else users[i])
  }

  /** With unique ids the update touches exactly the row at `k`; order and every other row stay. */
  lemma SetAdminFlagOneRow(users: seq<UserRow>, k: nat, flag: bool)
    requires UniqueIds(users) && k < |users|
    ensures var r := SetAdminFlag(users, users[k].id, flag);
      r[k] == users[k].(isAdmin := flag) && forall i :: 0 <= i < |users| && i != k ==> r[i] == users[i]
  {
  }

  /** An update of an id no row has changes nothing. */
  lemma SetAdminFlagAbsent(users: seq<UserRow>, id: int, flag: bool)
    requires forall i :: 0 <= i < |users| ==> users[i].id != id
    ensures SetAdminFlag(users, id, flag) == users
  {
  }

  /** The update moves the admin count by the change of the one row it touches. */
  lemma {:induction false} SetAdminFlagCount(users: seq<UserRow>, k: nat, flag: bool)
    requires UniqueIds(users) && k < |users|
    ensures AdminCount(SetAdminFlag(users, users[k].id, flag))
      == AdminCount(users) - (if users[k].isAdmin then 1 else 0) + (if flag then 1 else 0)
  {
    var id := users[k].id;
    var r := SetAdminFlag(users, id, flag);
    assert r[1..] == SetAdminFlag(users[1..], id, flag);
    if k == 0 {
      SetAdminFlagAbsent(users[1..], id, flag);
    } else {
      assert users[1..][k - 1] == users[k];
      SetAdminFlagCount(users[1..], k - 1, flag);
    }
  }

  /**
   * When the signed-in user is a listed admin, no toggle the guard lets through leaves the list
   * without an admin.
   */
  lemma NoToggleLeavesZeroAdmins(users: seq<UserRow>, k: nat, current: Auth.User)
    requires UniqueIds(users) && k < |users|
    requires exists s :: 0 <= s < |users| && users[s].id == current.id && users[s].isAdmin
    requires !ToggleRefused(users[k], Some(current), AdminCount(users))
    ensures AdminCount(SetAdminFlag(users, users[k].id, !users[k].isAdmin)) >= 1
  {
    var s :| 0 <= s < |users| && users[s].id == current.id && users[s].isAdmin;
    var r := SetAdminFlag(users, users[k].id, !users[k].isAdmin);
    SetAdminFlagCount(users, k, !users[k].isAdmin);
    if s != k {
      SetAdminFlagOneRow(users, k, !users[k].isAdmin);
      assert r[s].isAdmin;
    } else {
      assert AdminCount(users) >= 2;
    }
  }

  /** Where the page sends a visitor once auth has loaded: '/sign-in' without a user, '/' for a non-admin. */
  function AdminRedirect(loading: bool, current: Option<Auth.User>): (r: Option<string>)
    ensures r == Some("/sign-in") <==> !loading && current.None?
    ensures r == Some("/") <==> !loading && current.Some? && !current.value.isAdmin
    ensures r.None? <==> loading || (current.Some? && current.value.isAdmin)
  {
    if !loading && current.None? then Some("/sign-in")
    else if !loading && current.Some? && !current.value.isAdmin then Some("/")
    else None
  }

  /** The answer of GET /api/admin/users: a parsed body's `users`, a non-OK status, or a thrown request. */
  datatype UsersOutcome = UsersLoaded(users: Option<seq<UserRow>>) | UsersNotOk | UsersThrew(message: string)

  /** The answer of the PATCH: the status and the body's `error`, or a request or body that threw. */
  datatype PatchOutcome = Patched(ok: bool, error: Option<string>) | PatchThrew

  class AdminPage {
    var users: seq<UserRow>
    var usersLoading: bool
    var error: Option<string>
    var updatingId: Option<int>

    constructor()
      ensures users == [] && usersLoading && error == None && updatingId == None
    {
      users := [];
      usersLoading := true;
      error := None;
      updatingId := None;
    }

    /** fetchUsers: only for an admin; the list or the error, and loading off at the end. */
    method FetchUsers(current: Option<Auth.User>, outcome: UsersOutcome) returns (requested: bool)
      modifies this
      ensures requested <==> current.Some? && current.value.isAdmin
      ensures !requested ==> users == old(users) && usersLoading == old(usersLoading) && error == old(error)
      ensures requested ==> !usersLoading
      ensures requested && outcome.UsersLoaded? ==>
        users == (if outcome.users.Some? then outcome.users.value else []) && error == old(error)
      ensures requested && outcome.UsersNotOk? ==> users == old(users) && error == Some("Failed to load users")
      ensures requested && outcome.UsersThrew? ==> users == old(users) && error == Some(outcome.message)
      ensures updatingId == old(updatingId)
    {
      requested := current.Some? && current.value.isAdmin;
      if !requested {
        return;
      }
      usersLoading := true;
      match outcome {
        case UsersLoaded(list) =>
          users := if list.Some? then list.value else [];
        case UsersNotOk =>
          error := Some("Failed to load users");
        case UsersThrew(message) =>
          error := Some(message);
      }
      usersLoading := false;
    }

    /**
     * toggleAdmin up to its request: refused while another update is in flight or when the guard
     * applies; otherwise the error is cleared, the row marked as updating and the new flag sent.
     */
    method StartToggle(u: UserRow, current: Option<Auth.User>) returns (sent: Option<bool>)
      modifies this
      ensures sent.Some? <==> old(updatingId).None? && !ToggleRefused(u, current, AdminCount(old(users)))
      ensures sent.None? ==> updatingId == old(updatingId) && error == old(error)
      ensures sent.Some? ==> sent.value == !u.isAdmin && error == None && updatingId == Some(u.id)
      ensures users == old(users) && usersLoading == old(usersLoading)
    {
      if updatingId.Some? {
        return None;
      }
      var newAdmin := !u.isAdmin;
      var adminCount := AdminCount(users);
      var isSelf := IsSelf(u, current);
      if !newAdmin && isSelf && adminCount <= 1 {
        return None;
      }
      error := None;
      updatingId := Some(u.id);
      sent := Some(newAdmin);
    }

    /**
     * toggleAdmin once the PATCH settles: an OK answer flips the row (and refetches auth for the
     * user's own row), a non-OK answer sets the error, and the update marker is always cleared.
     */
    method FinishToggle(u: UserRow, current: Option<Auth.User>, outcome: PatchOutcome) returns (refetch: bool)
      modifies this
      ensures updatingId == None
      ensures outcome.Patched? && outcome.ok ==> users == SetAdminFlag(old(users), u.id, !u.isAdmin) && error == old(error)
      ensures outcome.Patched? && !outcome.ok ==> users == old(users) && error == Some(OrElse(outcome.error, "Update failed"))
      ensures outcome.PatchThrew? ==> users == old(users) && error == old(error)
      ensures refetch <==> outcome.Patched? && outcome.ok && IsSelf(u, current)
      ensures usersLoading == old(usersLoading)
    {
      refetch := false;
      match outcome {
        case PatchThrew =>
        case Patched(ok, message) =>
          if !ok {
            error := Some(OrElse(message, "Update failed"));
          } else {
            users := SetAdminFlag(users, u.id, !u.isAdmin);
            refetch := IsSelf(u, current);
          }
      }
      updatingId := None;
    }
  }
}
