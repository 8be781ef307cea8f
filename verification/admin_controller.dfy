/**
 Admin management (backend/controllers/AdminControllers.js): list, create,
 update and delete admin accounts, and the dashboard counts. Every handler
 runs behind `protect` and `adminOnly`.
 */
module AdminController {
  import opened Js
  import opened Options
  import opened Seqs
  import opened Http
  import opened UserModel

  /** The `{ _id, name, email, role }` object the create and update handlers answer with. */
  datatype AdminView = AdminView(id: string, name: Value, email: Value, role: Role)

  function View(u: User): AdminView {
    AdminView(u.id, u.name, u.email, u.role)
  }

  predicate IsAdmin(u: User) { u.role == AdminRole }
  predicate IsMember(u: User) { u.role == UserRole }

  /** `getAllAdmins`: exactly the admins, in stored order, without passwords. */
  function GetAllAdmins(users: seq<User>): (r: seq<PublicUser>)
    ensures forall x | x in r :: x.role == AdminRole
    ensures forall u | u in users :: u.role == AdminRole <==> Public(u) in r
    ensures forall x | x in r :: exists u | u in users :: Public(u) == x
    ensures |r| == Count(users, IsAdmin)
  {
    PublicAll(Filter(users, IsAdmin))
  }

  const UserExists := "User already exists"
  const EmailInUse := "Email already in use"
  const AdminNotFound := "Admin not found"
  const CannotDeleteSelf := "Cannot delete your own admin account"
  const AdminDeleted := "Admin deleted successfully"

  /** `createAdmin`: refuses an email some user already has; otherwise stores
      a new account whose role is always admin. The User schema's own
      validation and password hashing are not part of this model. */
  function CreateAdmin(users: seq<User>, name: Value, email: Value, password: Value, newId: string, now: int)
    : (h: Handled<AdminView, seq<User>>)
    ensures FindOneByEmail(users, email).Some? ==> h == Handled(Fail(BadRequest, UserExists), users)
    ensures FindOneByEmail(users, email).None? ==>
              && h.reply.Created?
              && h.store == users + [User(newId, name, email, password, AdminRole, Undefined, Undefined, Undefined, now, [])]
              && h.reply.value == AdminView(newId, name, email, AdminRole)
  {
    if FindOneByEmail(users, email).Some? then Handled(Fail(BadRequest, UserExists), users)
    else
      var admin := User(newId, name, email, password, AdminRole, Undefined, Undefined, Undefined, now, []);
      Handled(Created(View(admin)), users + [admin])
  }

  /** A created account is an admin, and an existing email never yields a second account. */
  lemma CreateAdminOutcome(users: seq<User>, name: Value, email: Value, password: Value, newId: string, now: int)
    ensures var h := CreateAdmin(users, name, email, password, newId, now);
      && (h.reply.Success() ==> h.reply.value.role == AdminRole && h.store[|users|].role == AdminRole)
      && (h.reply.Success() ==> h.store[..|users|] == users && |h.store| == |users| + 1)
      && (!h.reply.Success() ==> h.store == users && h.reply.Code() == 400)
      && ((exists i :: 0 <= i < |users| && users[i].email == email) ==> !h.reply.Success())
  {
    if exists i :: 0 <= i < |users| && users[i].email == email {
      var i :| 0 <= i < |users| && users[i].email == email;
      assert EmailMatches(users[i].email, email) || email == Undefined;
    }
  }

  /** `updateAdmin`. The target must be a stored admin; a changed email must
      be free (without an email in the body the filter is `{}`, which finds
      some user whenever one exists); then name and email are overwritten only
      by truthy inputs. */
  function UpdateAdmin(users: seq<User>, id: string, name: Value, email: Value): (h: Handled<AdminView, seq<User>>)
    ensures CastId(id).None? ==> h == Handled(Fail(ServerError, CastError), users)
    ensures !h.reply.Success() ==> h.store == users
    ensures h.reply.Success() ==> h.reply.Ok?
    ensures h.reply.Ok? ==>
      var f := FindById(users, UserId, id);
      && f.Found?
      && f.value.role == AdminRole
      && (email != f.value.email ==> FindOneByEmail(users, email).None?)
      && h.store == ReplaceAt(users, f.index, f.value.(name := Or(name, f.value.name), email := Or(email, f.value.email)))
      && h.reply.value == View(h.store[f.index])
  {
    match FindById(users, UserId, id)
    case Malformed => Handled(Fail(ServerError, CastError), users)
    case Absent => Handled(Fail(NotFound, AdminNotFound), users)
    case Found(i, admin) =>
      if admin.role != AdminRole then Handled(Fail(NotFound, AdminNotFound), users)
      else if email != admin.email && FindOneByEmail(users, email).Some? then Handled(Fail(BadRequest, EmailInUse), users)
      else
        var updated := admin.(name := Or(name, admin.name), email := Or(email, admin.email));
        Handled(Ok(View(updated)), ReplaceAt(users, i, updated))
  }

  /** The failure cases of `updateAdmin`, in the order they are checked, and
      what a successful update leaves alone: the role, the id, every other
      field and every other user. */
  lemma UpdateAdminOutcome(users: seq<User>, id: string, name: Value, email: Value)
    requires CastId(id).Some?
    ensures var h := UpdateAdmin(users, id, name, email);
      var f := FindById(users, UserId, id);
      if !f.Found? then h == Handled(Fail(NotFound, AdminNotFound), users)
      else
        var i := f.index;
        var admin := f.value;
        if admin.role != AdminRole then h == Handled(Fail(NotFound, AdminNotFound), users)
        else if email != admin.email && FindOneByEmail(users, email).Some? then
          h == Handled(Fail(BadRequest, EmailInUse), users)
        else
          && h.reply.Ok?
          && |h.store| == |users|
          && (forall j :: 0 <= j < |users| && j != i ==> h.store[j] == users[j])
          && h.store[i].role == AdminRole && h.store[i].id == admin.id
          && h.store[i].password == admin.password && h.store[i].phone == admin.phone
          && h.store[i].address == admin.address && h.store[i].bio == admin.bio
          && h.store[i].savedPaymentMethods == admin.savedPaymentMethods
          && (Truthy(name) ==> h.store[i].name == name) && (!Truthy(name) ==> h.store[i].name == admin.name)
          && (Truthy(email) ==> h.store[i].email == email) && (!Truthy(email) ==> h.store[i].email == admin.email)
  {
  }

  /** Leaving the email out of the body always fails for an admin that has
      an email: the filter `{ email: undefined }` finds some user. */
  lemma UpdateAdminWithoutEmail(users: seq<User>, id: string, name: Value)
    requires FindById(users, UserId, id).Found?
    requires FindById(users, UserId, id).value.role == AdminRole
    requires FindById(users, UserId, id).value.email != Undefined
    ensures UpdateAdmin(users, id, name, Undefined) == Handled(Fail(BadRequest, EmailInUse), users)
  {
  }

  /** `deleteAdmin` as written: the self check compares the raw route
      parameter with the caller's id string, before the parameter is cast. */
  function DeleteAdminAsWritten(users: seq<User>, callerId: string, id: string): (h: Handled<string, seq<User>>)
    ensures id == callerId ==> h == Handled(Fail(BadRequest, CannotDeleteSelf), users)
    ensures h.reply.Success() ==>
      var f := FindById(users, UserId, id);
      f.Found? && f.value.role == AdminRole && h.store == RemoveAt(users, f.index)
    ensures id != callerId ==> Outcome(users, id, h)
  {
    if id == callerId then Handled(Fail(BadRequest, CannotDeleteSelf), users)
    else DeleteFound(users, id)
  }

  /** What `deleteAdmin` answers once the self check has passed: a malformed
      id throws the cast error, an id naming no admin is a 404, and a stored
      admin is removed. */
  ghost predicate Outcome(users: seq<User>, id: string, h: Handled<string, seq<User>>) {
    var f := FindById(users, UserId, id);
    && (f.Malformed? ==> h == Handled(Fail(ServerError, CastError), users))
    && (f.Absent? ==> h == Handled(Fail(NotFound, AdminNotFound), users))
    && (f.Found? && f.value.role != AdminRole ==> h == Handled(Fail(NotFound, AdminNotFound), users))
    && (f.Found? && f.value.role == AdminRole ==> h == Handled(Ok(AdminDeleted), RemoveAt(users, f.index)))
  }

  /** The lookup and removal both versions of `deleteAdmin` share. */
  function DeleteFound(users: seq<User>, id: string): (h: Handled<string, seq<User>>)
    ensures h.reply.Success() ==>
      var f := FindById(users, UserId, id);
      f.Found? && f.value.role == AdminRole && h.store == RemoveAt(users, f.index) && h.reply == Ok(AdminDeleted)
    ensures !h.reply.Success() ==> h.store == users
    ensures Outcome(users, id, h)
  {
    match FindById(users, UserId, id)
    case Malformed => Handled(Fail(ServerError, CastError), users)
    case Absent => Handled(Fail(NotFound, AdminNotFound), users)
    case Found(i, admin) =>
      if admin.role != AdminRole then Handled(Fail(NotFound, AdminNotFound), users)
      else Handled(Ok(AdminDeleted), RemoveAt(users, i))
  }

  /** The upper-case spelling of an admin's own id passes the self check of
      `deleteAdmin` as written, and the cast then finds, and deletes, the caller. */
  lemma DeleteAdminSelfCheckBypass()
    ensures var callerId := seq(24, _ => 'a');
      var spelled := seq(24, _ => 'A');
      var caller := User(callerId, Str("root"), Str("root@pethub"), Str("hash"), AdminRole, Undefined, Undefined, Undefined, 0, []);
      var h := DeleteAdminAsWritten([caller], callerId, spelled);
      h.reply.Success() && h.store == []
  {
    var callerId := seq(24, _ => 'a');
    var spelled := seq(24, _ => 'A');
    assert spelled != callerId by { assert spelled[0] != callerId[0]; }
    assert Lower(spelled) == callerId;
    assert CastId(spelled) == Some(callerId);
  }

  /** `deleteAdmin` with the self check made on the cast id: an admin can
      never delete their own account, whatever spelling of the id is used. */
  function DeleteAdmin(users: seq<User>, callerId: string, id: string): (h: Handled<string, seq<User>>)
    ensures CastId(id) == Some(callerId) || id == callerId ==> h == Handled(Fail(BadRequest, CannotDeleteSelf), users)
    ensures h.reply.Success() ==>
      var f := FindById(users, UserId, id);
      f.Found? && f.value.role == AdminRole && f.value.id != callerId && h.store == RemoveAt(users, f.index)
    ensures !h.reply.Success() ==> h.store == users
    ensures CastId(id) != Some(callerId) && id != callerId ==> Outcome(users, id, h)
  {
    if id == callerId || CastId(id) == Some(callerId) then Handled(Fail(BadRequest, CannotDeleteSelf), users)
    else DeleteFound(users, id)
  }

  /** After a successful deletion the caller is still stored, and exactly
      one account, an admin, is gone. */
  lemma DeleteAdminKeepsCaller(users: seq<User>, callerId: string, id: string)
    requires UniqueKeys(users, UserId)
    requires exists k :: 0 <= k < |users| && users[k].id == callerId
    ensures var h := DeleteAdmin(users, callerId, id);
      && (exists k :: 0 <= k < |h.store| && h.store[k].id == callerId)
      && (h.reply.Success() ==> |h.store| == |users| - 1)
  {
    var h := DeleteAdmin(users, callerId, id);
    var k :| 0 <= k < |users| && users[k].id == callerId;
    if h.reply.Success() {
      match FindById(users, UserId, id)
      case Found(i, admin) =>
        assert i != k;
        if k < i {
          assert h.store[k] == users[k];
        } else {
          assert h.store[k - 1] == users[k];
        }
      case _ =>
    }
  }

  /** `getDashboardStats`: the numbers of plain users and of admins, and the
      five newest plain users without passwords. */
  datatype Stats = Stats(totalUsers: nat, totalAdmins: nat, recentUsers: seq<PublicUser>)

  function CreatedAt(u: User): int { u.createdAt }

  function GetDashboardStats(users: seq<User>): (r: Stats)
    ensures r.totalUsers == Count(users, IsMember) && r.totalAdmins == Count(users, IsAdmin)
    ensures |r.recentUsers| <= 5 && |r.recentUsers| <= r.totalUsers
    ensures forall x | x in r.recentUsers :: x.role == UserRole
    ensures forall i, j :: 0 <= i < j < |r.recentUsers| ==> r.recentUsers[i].createdAt >= r.recentUsers[j].createdAt
    ensures forall x | x in r.recentUsers :: exists u | u in users && u.role == UserRole :: x == Public(u)
    ensures UniqueKeys(users, UserId) ==> UniqueKeys(r.recentUsers, PublicId)
  {
    var recent := Take(SortDesc(Filter(users, IsMember), CreatedAt), 5);
    NewestFirstShape(Filter(users, IsMember), CreatedAt, 5);
    RecentUsersStored(users, recent);
    RecentUsersDistinct(users, recent);
    Stats(Count(users, IsMember), Count(users, IsAdmin), PublicAll(recent))
  }

  /** The listed users are stored plain users. */
  lemma RecentUsersStored(users: seq<User>, recent: seq<User>)
    requires recent == Take(SortDesc(Filter(users, IsMember), CreatedAt), 5)
    ensures forall x | x in PublicAll(recent) :: exists u | u in users && u.role == UserRole :: x == Public(u)
  {
    var members := Filter(users, IsMember);
    var r := PublicAll(recent);
    NewestFirstShape(members, CreatedAt, 5);
    forall x | x in r
      ensures exists u | u in users && u.role == UserRole :: x == Public(u)
    {
      var k :| 0 <= k < |r| && r[k] == x;
      assert recent[k] in members;
    }
  }

  /** With unique ids in the collection, no user is listed twice. */
  lemma RecentUsersDistinct(users: seq<User>, recent: seq<User>)
    requires recent == Take(SortDesc(Filter(users, IsMember), CreatedAt), 5)
    ensures UniqueKeys(users, UserId) ==> UniqueKeys(PublicAll(recent), PublicId)
  {
    var members := Filter(users, IsMember);
    var r := PublicAll(recent);
    if UniqueKeys(users, UserId) {
      FilterSubMultiset(users, IsMember);
      TakeSubMultiset(SortDesc(members, CreatedAt), 5);
      UniqueKeysSubMultiset(users, recent, UserId);
      assert forall k :: 0 <= k < |r| ==> PublicId(r[k]) == UserId(recent[k]);
    }
  }

  /** The recent users are the newest: any plain user not listed is no newer
      than every listed one, and with fewer than five plain users all are listed. */
  lemma RecentUsersAreNewest(users: seq<User>)
    ensures var r := GetDashboardStats(users);
      forall u | u in users && u.role == UserRole && Public(u) !in r.recentUsers ::
        |r.recentUsers| == 5 && forall x | x in r.recentUsers :: x.createdAt >= u.createdAt
  {
    var members := Filter(users, IsMember);
    var recent := Take(SortDesc(members, CreatedAt), 5);
    NewestFirstLimit(members, CreatedAt, 5);
    forall u | u in users && u.role == UserRole && Public(u) !in PublicAll(recent)
      ensures |recent| == 5 && forall x | x in PublicAll(recent) :: x.createdAt >= u.createdAt
    {
      assert u in members;
      forall k | 0 <= k < |recent|
        ensures recent[k] != u
      {
        assert PublicAll(recent)[k] == Public(recent[k]);
      }
      forall x | x in PublicAll(recent)
        ensures x.createdAt >= u.createdAt
      {
        var k :| 0 <= k < |recent| && PublicAll(recent)[k] == x;
        assert recent[k] in recent;
      }
    }
  }
}
