/**
 The two gates in front of protected routes: `protect`, which turns the `jwt`
 cookie into the acting user, and `adminOnly`, which admits admins only.
 Token verification is a parameter: it either fails (bad signature, expired,
 malformed) or yields the payload's `userId`.
 */
module AuthMiddleware {
  import opened Js
  import opened Options
  import opened Http
  import opened UserModel

  /** `jwt.verify(token, secret)`: throws, or decodes the payload's `userId`. */
  datatype Verified = Invalid | Valid(userId: Value)

  /** What a gate does with a request: call `next()` with the user attached
      to the request, or answer with a failure and stop. */
  datatype Decision = Next(user: PublicUser) | Deny(failure: Failure, message: string)

  const NoToken := "Not authorized, no token"
  const UserNotFound := "Not authorized, user not found"
  const TokenFailed := "Not authorized, token failed"
  const AdminOnlyMessage := "Access denied. Admin only."

  /** `req.cookies.jwt` is present and truthy. */
  predicate HasToken(cookie: Option<string>) {
    cookie.Some? && |cookie.value| > 0
  }

  /** The user a verified token names, if it is stored. */
  ghost predicate Names(cookie: Option<string>, verify: string -> Verified, users: seq<User>, u: User) {
    && HasToken(cookie)
    && verify(cookie.value).Valid?
    && verify(cookie.value).userId.Str?
    && u in users
    && CastId(verify(cookie.value).userId.s) == Some(u.id)
  }

  /** `protect` */
  function Protect(cookie: Option<string>, verify: string -> Verified, users: seq<User>): (d: Decision)
    ensures d.Deny? ==> d.failure == Unauthorized
    ensures !HasToken(cookie) ==> d == Deny(Unauthorized, NoToken)
    ensures HasToken(cookie) && verify(cookie.value).Invalid? ==> d == Deny(Unauthorized, TokenFailed)
    ensures d.Next? ==> exists u :: Names(cookie, verify, users, u) && d.user == Public(u)
    ensures (exists u :: Names(cookie, verify, users, u)) ==> d.Next?
    ensures HasToken(cookie) && verify(cookie.value).Valid? && FindByValue(users, UserId, verify(cookie.value).userId).Absent? ==>
              d == Deny(Unauthorized, UserNotFound)
    ensures HasToken(cookie) && verify(cookie.value).Valid? && FindByValue(users, UserId, verify(cookie.value).userId).Malformed? ==>
              d == Deny(Unauthorized, TokenFailed)
    ensures d.Deny? && d.message == UserNotFound ==>
              HasToken(cookie) && verify(cookie.value).Valid? && !exists u :: Names(cookie, verify, users, u)
  {
    if !HasToken(cookie) then Deny(Unauthorized, NoToken)
    else match verify(cookie.value)
      case Invalid => Deny(Unauthorized, TokenFailed)
      case Valid(uid) =>
        match FindByValue(users, UserId, uid)
        case Malformed => Deny(Unauthorized, TokenFailed)
        case Absent => Deny(Unauthorized, UserNotFound)
        case Found(i, u) =>
          assert Names(cookie, verify, users, u);
          Next(Public(u))
  }

  /** `adminOnly`: proceeds exactly when a user is attached and is an admin. */
  function AdminOnly(user: Option<PublicUser>): (d: Decision)
    ensures d.Next? <==> user.Some? && user.value.role == AdminRole
    ensures d.Next? ==> d.user == user.value
    ensures d.Deny? ==> d == Deny(Forbidden, AdminOnlyMessage)
  {
    if user.Some? && user.value.role == AdminRole then Next(user.value) else Deny(Forbidden, AdminOnlyMessage)
  }

  /** `router.use(protect, adminOnly)`: `adminOnly` runs only after `protect` admitted the request. */
  function AdminGate(cookie: Option<string>, verify: string -> Verified, users: seq<User>): (d: Decision)
    ensures Protect(cookie, verify, users).Deny? ==> d == Protect(cookie, verify, users)
    ensures d.Next? <==> Protect(cookie, verify, users).Next? && Protect(cookie, verify, users).user.role == AdminRole
    ensures d.Next? ==> d == Protect(cookie, verify, users)
    ensures Protect(cookie, verify, users).Next? && d.Deny? ==> d == Deny(Forbidden, AdminOnlyMessage)
  {
    match Protect(cookie, verify, users)
    case Next(u) => AdminOnly(Some(u))
    case denied => denied
  }

  /** An admin route admits a request exactly when the token names a stored
      admin; an authentication failure always wins over the role check. */
  lemma AdminGateDecision(cookie: Option<string>, verify: string -> Verified, users: seq<User>)
    requires UniqueKeys(users, UserId)
    ensures AdminGate(cookie, verify, users).Next? <==>
              exists u :: Names(cookie, verify, users, u) && u.role == AdminRole
    ensures AdminGate(cookie, verify, users).Next? ==> AdminGate(cookie, verify, users) == Protect(cookie, verify, users)
    ensures Protect(cookie, verify, users).Deny? ==> AdminGate(cookie, verify, users) == Protect(cookie, verify, users)
    ensures Protect(cookie, verify, users).Next? && AdminGate(cookie, verify, users).Deny? ==>
              AdminGate(cookie, verify, users).failure == Forbidden
  {
    var p := Protect(cookie, verify, users);
    if p.Next? {
      var u :| Names(cookie, verify, users, u) && p.user == Public(u);
      forall v | Names(cookie, verify, users, v)
        ensures v == u
      {
        NamedUserUnique(cookie, verify, users, u, v);
      }
    }
  }

  /** In a collection with unique ids a token names at most one user. */
  lemma NamedUserUnique(cookie: Option<string>, verify: string -> Verified, users: seq<User>, u: User, v: User)
    requires UniqueKeys(users, UserId)
    requires Names(cookie, verify, users, u) && Names(cookie, verify, users, v)
    ensures u == v
  {
    var i :| 0 <= i < |users| && users[i] == u;
    var j :| 0 <= j < |users| && users[j] == v;
    assert UserId(users[i]) == UserId(users[j]);
  }
}
