/**
 The User record as the controllers read and write it: account fields, role,
 and the embedded list of saved payment methods. The User schema itself
 (backend/models/User.js) is not part of this model, so field values are kept
 as the request supplied them and the password is an opaque stored value.
 */
module UserModel {
  import opened Js
  import opened Options
  import opened Http

  datatype Role = UserRole | AdminRole

  /** A saved payment method: masked card metadata only, with its own sub-document id. */
  datatype Card = Card(id: string, brand: Value, last4: Value, expMonth: Value, expYear: Value, cardLabel: Value)

  datatype User = User(
    id: string,
    name: Value,
    email: Value,
    password: Value,
    role: Role,
    phone: Value,
    address: Value,
    bio: Value,
    createdAt: int,
    savedPaymentMethods: seq<Card>)

  /** A user loaded with `.select('-password')`: every field but the password. */
  datatype PublicUser = PublicUser(
    id: string,
    name: Value,
    email: Value,
    role: Role,
    phone: Value,
    address: Value,
    bio: Value,
    createdAt: int,
    savedPaymentMethods: seq<Card>)

  function Public(u: User): PublicUser {
    PublicUser(u.id, u.name, u.email, u.role, u.phone, u.address, u.bio, u.createdAt, u.savedPaymentMethods)
  }

  function PublicAll(s: seq<User>): (r: seq<PublicUser>)
    ensures |r| == |s|
    ensures forall i :: 0 <= i < |s| ==> r[i] == Public(s[i])
    ensures forall u | u in s :: Public(u) in r
  {
    var r := seq(|s|, i requires 0 <= i < |s| => Public(s[i]));
    assert forall i :: 0 <= i < |s| ==> r[i] == Public(s[i]);
    r
  }

  /** Two users with the same public view differ at most in their password. */
  lemma PublicForgetsOnlyPassword(u: User, v: User)
    ensures Public(u) == Public(v) <==> u.(password := v.password) == v
  {
  }

  function UserId(u: User): string { u.id }
  function PublicId(x: PublicUser): string { x.id }
  function CardId(c: Card): string { c.id }

  /** The users collection as the database keeps it: stored ids, no id twice,
      and no card id twice within one user's list. */
  ghost predicate ValidUsers(users: seq<User>) {
    && UniqueKeys(users, UserId)
    && (forall i :: 0 <= i < |users| ==> IsId(users[i].id))
    && (forall i :: 0 <= i < |users| ==> UniqueKeys(users[i].savedPaymentMethods, CardId))
  }

  /** Whether a stored email satisfies the filter `{ email: q }`; `null`
      also matches a record that has no email. */
  predicate EmailMatches(stored: Value, q: Value) {
    if q == Null then stored == Null || stored == Undefined else stored == q
  }

  /** `User.findOne({ email })`. Mongoose drops a filter key whose value is
      `undefined`, so without an email the filter is `{}` and matches any user. */
  function FindOneByEmail(users: seq<User>, email: Value): (r: Option<User>)
    ensures email == Undefined ==> (r.Some? <==> |users| > 0)
    ensures email != Undefined ==> (r.Some? <==> exists i :: 0 <= i < |users| && EmailMatches(users[i].email, email))
    ensures r.Some? ==> r.value in users
    ensures r.Some? && email != Undefined ==> EmailMatches(r.value.email, email)
  {
    if |users| == 0 then None
    else if email == Undefined || EmailMatches(users[0].email, email) then Some(users[0])
    else
      var rest := FindOneByEmail(users[1..], email);
      assert forall i :: 1 <= i < |users| ==> users[i] == users[1..][i - 1];
      rest
  }

  /** The stored user a caller's id names, for handlers that run after `protect`. */
  function FindCaller(users: seq<User>, callerId: string): (r: Lookup<User>)
    ensures !r.Malformed?
    ensures r.Found? ==> r.index < |users| && users[r.index] == r.value && r.value.id == callerId
    ensures r.Absent? ==> forall i :: 0 <= i < |users| ==> users[i].id != callerId
  {
    FindKey(users, UserId, callerId)
  }
}
