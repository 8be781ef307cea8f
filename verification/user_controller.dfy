/**
 Self-service account handlers (backend/controllers/UserController.js):
 profile update, password change, account deletion and user search. Every
 handler runs behind `protect`, so the caller's id is given.
 */
module UserController {
  import opened Js
  import opened Options
  import opened Seqs
  import opened Http
  import opened UserModel

  /** The fields `updateProfile` reads from the body. */
  datatype ProfileInput = ProfileInput(name: Value, email: Value, phone: Value, address: Value, bio: Value)

  /** The `user` object `updateProfile` answers with. */
  datatype ProfileView = ProfileView(id: string, name: Value, email: Value, role: Role, phone: Value, address: Value, bio: Value)

  const EmailInUse := "Email already in use"
  const WrongPassword := "Current password is incorrect"
  const PasswordUpdated := "Password updated successfully"
  const AccountDeleted := "Account deleted successfully"

  /** Each field keeps its previous value unless the input is truthy. */
  function Merge(u: User, body: ProfileInput): User {
    u.(name := Or(body.name, u.name), email := Or(body.email, u.email), phone := Or(body.phone, u.phone),
       address := Or(body.address, u.address), bio := Or(body.bio, u.bio))
  }

  /** `updateProfile`. A caller who vanished after `protect` makes `user.email`
      throw. An email other than the stored one must be free; then each field
      is overwritten only by a truthy input. */
  function UpdateProfile(users: seq<User>, callerId: string, body: ProfileInput): (h: Handled<ProfileView, seq<User>>)
    ensures !h.reply.Success() ==> h.store == users
    ensures h.reply.Success() ==> h.reply.Ok?
    ensures FindCaller(users, callerId).Absent? ==> h.reply == Fail(ServerError, TypeError)
    ensures FindCaller(users, callerId).Found? ==>
              (h.reply.Ok? <==> body.email == FindCaller(users, callerId).value.email || FindOneByEmail(users, body.email).None?)
    ensures FindCaller(users, callerId).Found? && !h.reply.Ok? ==> h == Handled(Fail(BadRequest, EmailInUse), users)
    ensures h.reply.Ok? ==> FindCaller(users, callerId).Found?
    ensures h.reply.Ok? ==>
      && (body.email != FindCaller(users, callerId).value.email ==> FindOneByEmail(users, body.email).None?)
      && h.store == ReplaceAt(users, FindCaller(users, callerId).index, Merge(FindCaller(users, callerId).value, body))
      && h.reply.value.id == callerId && h.reply.value.role == FindCaller(users, callerId).value.role
    ensures h.reply.Ok? ==>
      var v := h.store[FindCaller(users, callerId).index];
      h.reply.value == ProfileView(v.id, v.name, v.email, v.role, v.phone, v.address, v.bio)
  {
    match FindCaller(users, callerId)
    case Found(i, u) =>
      if body.email != u.email && FindOneByEmail(users, body.email).Some? then Handled(Fail(BadRequest, EmailInUse), users)
      else
        var v := Merge(u, body);
        Handled(Ok(ProfileView(v.id, v.name, v.email, v.role, v.phone, v.address, v.bio)), ReplaceAt(users, i, v))
    case _ => Handled(Fail(ServerError, TypeError), users)
  }

  /** What a successful profile update changes: the five profile fields, each
      taken from a truthy input or kept (so `""` never clears a field); the
      id, role, password, cards and every other user stay as they were. */
  lemma UpdateProfileFields(users: seq<User>, callerId: string, body: ProfileInput)
    requires UpdateProfile(users, callerId, body).reply.Success()
    ensures var h := UpdateProfile(users, callerId, body);
      var i := FindCaller(users, callerId).index;
      var u := users[i];
      && |h.store| == |users|
      && (forall j :: 0 <= j < |users| && j != i ==> h.store[j] == users[j])
      && h.store[i].id == u.id && h.store[i].role == u.role && h.store[i].password == u.password
      && h.store[i].createdAt == u.createdAt && h.store[i].savedPaymentMethods == u.savedPaymentMethods
      && (Truthy(body.name) ==> h.store[i].name == body.name)
      && (!Truthy(body.name) ==> h.store[i].name == u.name)
      && (!Truthy(body.email) ==> h.store[i].email == u.email)
      && (!Truthy(body.phone) ==> h.store[i].phone == u.phone)
      && (!Truthy(body.address) ==> h.store[i].address == u.address)
      && (!Truthy(body.bio) ==> h.store[i].bio == u.bio)
      && (Truthy(body.email) ==> h.store[i].email == body.email)
      && (Truthy(body.phone) ==> h.store[i].phone == body.phone)
      && (Truthy(body.address) ==> h.store[i].address == body.address)
      && (Truthy(body.bio) ==> h.store[i].bio == body.bio)
  {
  }

  /** Taking another user's email is refused and changes nothing. */
  lemma UpdateProfileEmailTaken(users: seq<User>, callerId: string, body: ProfileInput, k: nat)
    requires FindCaller(users, callerId).Found?
    requires k < |users| && users[k].email == body.email && body.email != FindCaller(users, callerId).value.email
    ensures UpdateProfile(users, callerId, body) == Handled(Fail(BadRequest, EmailInUse), users)
  {
    assert EmailMatches(users[k].email, body.email) || body.email == Undefined;
  }

  /** A body without an email is refused whenever the caller has one, because
      the filter `{ email: undefined }` finds some user. */
  lemma UpdateProfileWithoutEmail(users: seq<User>, callerId: string, body: ProfileInput)
    requires body.email == Undefined
    requires FindCaller(users, callerId).Found? && FindCaller(users, callerId).value.email != Undefined
    ensures UpdateProfile(users, callerId, body) == Handled(Fail(BadRequest, EmailInUse), users)
  {
  }

  /** `updatePassword`. `comparePassword(stored)(candidate)` is the schema's
      `comparePassword`; the stored value's hashing is not part of this model. */
  function UpdatePassword(users: seq<User>, callerId: string, currentPassword: Value, newPassword: Value, comparePassword: Value -> Value -> bool)
    : (h: Handled<string, seq<User>>)
    ensures !h.reply.Success() ==> h.store == users
    ensures FindCaller(users, callerId).Absent? ==> h.reply == Fail(ServerError, TypeError)
    ensures FindCaller(users, callerId).Found? && !comparePassword(FindCaller(users, callerId).value.password)(currentPassword) ==>
              h.reply == Fail(Unauthorized, WrongPassword)
    ensures FindCaller(users, callerId).Found? && comparePassword(FindCaller(users, callerId).value.password)(currentPassword) ==>
              h.reply == Ok(PasswordUpdated)
    ensures h.reply.Success() ==>
      var f := FindCaller(users, callerId);
      && f.Found?
      && comparePassword(f.value.password)(currentPassword)
      && h.store == ReplaceAt(users, f.index, f.value.(password := newPassword))
      && h.reply == Ok(PasswordUpdated)
  {
    match FindCaller(users, callerId)
    case Found(i, u) =>
      if !comparePassword(u.password)(currentPassword) then Handled(Fail(Unauthorized, WrongPassword), users)
      else Handled(Ok(PasswordUpdated), ReplaceAt(users, i, u.(password := newPassword)))
    case _ => Handled(Fail(ServerError, TypeError), users)
  }

  /** A password change touches nothing but the caller's password: the
      other fields of the record and every other user stay as they were, and
      the new password is stored as given (hashing is not part of this model). */
  lemma UpdatePasswordOnlyPassword(users: seq<User>, callerId: string, currentPassword: Value, newPassword: Value,
                                   comparePassword: Value -> Value -> bool)
    requires UpdatePassword(users, callerId, currentPassword, newPassword, comparePassword).reply.Success()
    ensures var h := UpdatePassword(users, callerId, currentPassword, newPassword, comparePassword);
      var i := FindCaller(users, callerId).index;
      && |h.store| == |users|
      && (forall j :: 0 <= j < |users| && j != i ==> h.store[j] == users[j])
      && h.store[i].password == newPassword
      && h.store[i].(password := users[i].password) == users[i]
      && Public(h.store[i]) == Public(users[i])
  {
  }

  /** The cookie `deleteAccount` sets: `jwt` emptied, HTTP-only, expiring at the epoch. */
  datatype SetCookie = SetCookie(name: string, value: string, httpOnly: bool, expires: int)

  /** The answer and collection of `deleteAccount`, with the cookie it sets. */
  datatype Deletion = Deletion(handled: Handled<string, seq<User>>, cookie: SetCookie)

  /** `deleteAccount`: removes every record with the caller's id (one, in a
      valid collection) and expires the session cookie. */
  function DeleteAccount(users: seq<User>, callerId: string): (r: Deletion)
    ensures r.handled.reply == Ok(AccountDeleted)
    ensures r.cookie == SetCookie("jwt", "", true, 0)
    ensures forall u | u in r.handled.store :: u.id != callerId
    ensures forall u | u in users :: u in r.handled.store <==> u.id != callerId
  {
    Deletion(Handled(Ok(AccountDeleted), Filter(users, (u: User) => u.id != callerId)), SetCookie("jwt", "", true, 0))
  }

  /** In a valid collection exactly the caller's record is gone and the
      others keep their order. */
  lemma DeleteAccountRemovesCaller(users: seq<User>, callerId: string)
    requires UniqueKeys(users, UserId)
    requires FindCaller(users, callerId).Found?
    ensures DeleteAccount(users, callerId).handled.store == RemoveAt(users, FindCaller(users, callerId).index)
  {
    var i := FindCaller(users, callerId).index;
    FilterOutKey(users, UserId, (u: User) => u.id != callerId, i);
  }

  /** `searchUsers`: without a query, nobody; otherwise the first ten users,
      in stored order, whose name or email contains the query ignoring case.
      The query is read as a literal string. */
  predicate MatchesQuery(u: User, q: string) {
    (u.name.Str? && ContainsIgnoringCase(u.name.s, q)) || (u.email.Str? && ContainsIgnoringCase(u.email.s, q))
  }

  function SearchUsers(users: seq<User>, query: string): (r: seq<PublicUser>)
    ensures query == "" ==> r == []
    ensures |r| <= 10
    ensures forall x | x in r :: exists u | u in users :: Public(u) == x && MatchesQuery(u, query)
    ensures query != "" && Count(users, (u: User) => MatchesQuery(u, query)) <= 10 ==>
              forall u | u in users && MatchesQuery(u, query) :: Public(u) in r
    ensures query != "" ==>
      |r| == if Count(users, (u: User) => MatchesQuery(u, query)) < 10 then Count(users, (u: User) => MatchesQuery(u, query)) else 10
    ensures forall k :: 0 <= k < |r| ==> r[k] == Public(Filter(users, (u: User) => MatchesQuery(u, query))[k])
  {
    if query == "" then []
    else
      var hits := Filter(users, (u: User) => MatchesQuery(u, query));
      var top := Take(hits, 10);
      assert |hits| <= 10 ==> top == hits;
      PublicAll(top)
  }

  /** Search lists each stored user at most once: with unique ids in the
      collection, the ids of the result are unique too. */
  lemma SearchUsersDistinct(users: seq<User>, query: string)
    requires UniqueKeys(users, UserId)
    ensures UniqueKeys(SearchUsers(users, query), PublicId)
  {
    if query != "" {
      var hits := Filter(users, (u: User) => MatchesQuery(u, query));
      var top := Take(hits, 10);
      FilterSubMultiset(users, (u: User) => MatchesQuery(u, query));
      TakeSubMultiset(hits, 10);
      UniqueKeysSubMultiset(users, top, UserId);
      var r := SearchUsers(users, query);
      assert forall k :: 0 <= k < |r| ==> PublicId(r[k]) == UserId(top[k]);
    }
  }
}
