/** `user_controller`: the JWT gate every protected route goes through, the
    role gate of the admin routes, registration, and reading, updating and
    deleting one user. JWT decoding is a parameter `decode` (the `user_id`
    claim of a good token, None for a bad one) and password hashing a
    parameter `hash`. A request field is None when it is absent. */
module UserController {
  import opened Common
  import opened Text
  import opened UserModel
  import opened Store
  import UserService

  /** `request.headers['Authorization'].split(" ")[1]` when the header is
      there: the second space-separated word, which a header without a space
      does not have. */
  function Token(headers: map<string, string>): (r: Result<Option<string>>)
    ensures "Authorization" !in headers ==> r == Ok(None)
    ensures r.Raise? <==> "Authorization" in headers && ' ' !in headers["Authorization"]
    ensures r.Raise? ==> r.exc == IndexError
    ensures r.Ok? && r.value.Some? ==> ' ' !in r.value.value
  {
    if "Authorization" !in headers then Ok(None)
    else
      var words := Split(headers["Authorization"], ' ');
      if |words| < 2 then Raise(IndexError) else Ok(Some(words[1]))
  }

  /** A header `<scheme> <token>` yields the token, whatever the scheme
      word is. */
  lemma BearerToken(headers: map<string, string>, scheme: string, t: string)
    requires ' ' !in scheme && ' ' !in t
    requires "Authorization" in headers && headers["Authorization"] == scheme + " " + t
    ensures Token(headers) == Ok(Some(t))
  {
    assert scheme + " " + t == scheme + [' '] + t;
    SplitAfter(scheme, ' ', t);
    SplitNoSep(t, ' ');
  }

  /** What `token_required` decides: refuse with 401, or call the route with
      the user the token names, which is None when that user no longer
      exists (`get_user_by_id` does not raise for a missing row). */
  datatype Auth = Refused | Authenticated(user: Option<User>)

  /** `token_required`. A header without a space raises before the
      `try`; a missing or empty token and a token that does not decode are
      refused. */
  function TokenRequired(db: Database, headers: map<string, string>, decode: string -> Option<int>)
    : (r: Result<Auth>)
    reads db`users
    ensures r.Raise? <==> Token(headers).Raise?
    ensures r.Raise? ==> r.exc == IndexError
    ensures r == Ok(Refused) <==>
              Token(headers).Ok?
              && (!GivenText(Token(headers).value) || decode(Token(headers).value.value).None?)
    ensures r.Ok? && r.value.Authenticated? ==>
              GivenText(Token(headers).value) && decode(Token(headers).value.value).Some?
              && r.value.user == db.FindUser(decode(Token(headers).value.value).value)
  {
    var token := Token(headers);
    if token.Raise? then Raise(token.exc)
    else if !GivenText(token.value) then Ok(Refused)
    else
      var claim := decode(token.value.value);
      if claim.None? then Ok(Refused) else Ok(Authenticated(db.FindUser(claim.value)))
  }

  /** A request with no Authorization header is refused. */
  lemma NoHeaderRefused(db: Database, headers: map<string, string>, decode: string -> Option<int>)
    requires "Authorization" !in headers
    ensures TokenRequired(db, headers, decode) == Ok(Refused)
  {
  }

  /** A well-formed header whose token decodes reaches the route with the
      user the claim names. */
  lemma GoodTokenAuthenticates(db: Database, headers: map<string, string>, decode: string -> Option<int>,
                               scheme: string, t: string)
    requires ' ' !in scheme && ' ' !in t && t != ""
    requires "Authorization" in headers && headers["Authorization"] == scheme + " " + t
    requires decode(t).Some?
    ensures TokenRequired(db, headers, decode) == Ok(Authenticated(db.FindUser(decode(t).value)))
  {
    BearerToken(headers, scheme, t);
  }

  /** `role_required(roles)`: the route runs only for a role in `roles`;
      reading the role of a missing user raises. */
  function RoleRequired(user: Option<User>, roles: seq<string>): (r: Result<Guard>)
    reads AsSet(user)
    ensures r.Raise? <==> user.None?
    ensures r.Raise? ==> r.exc == AttributeError
    ensures r == Ok(Pass) <==> user.Some? && user.value.role in roles
    ensures r.Ok? && r.value.Deny? ==> r.value.code == FORBIDDEN
  {
    if user.None? then Raise(AttributeError)
    else if user.value.role in roles then Ok(Pass)
    else Ok(Deny(FORBIDDEN))
  }

  /** The gates of an admin-only route, `@token_required` then
      `@role_required(['admin'])`: it runs exactly for an admin a good token
      names. */
  lemma AdminRouteAdmitsOnlyAdmins(db: Database, headers: map<string, string>, decode: string -> Option<int>)
    requires TokenRequired(db, headers, decode).Ok?
    requires TokenRequired(db, headers, decode).value.Authenticated?
    ensures RoleRequired(TokenRequired(db, headers, decode).value.user, [ADMIN]) == Ok(Pass) <==>
              var claim := decode(Token(headers).value.value).value;
              db.FindUser(claim).Some? && db.FindUser(claim).value.role == ADMIN
  {
  }

  /** The rule of `get_user` and `update_user`: an admin may act on any
      user, anyone else only on their own record. */
  predicate MayActOn(current: User, userId: int)
    reads current
  {
    current.role == ADMIN || current.id == userId
  }

  /** `get_user`: the permission check comes before the lookup, so a
      non-admin asking for someone else is refused whether or not that
      user exists. */
  function GetUser(db: Database, current: Option<User>, userId: int): (r: Result<nat>)
    reads db`users, AsSet(current)
    ensures r.Raise? <==> current.None?
    ensures r.Raise? ==> r.exc == AttributeError
    ensures r == Ok(FORBIDDEN) <==> current.Some? && !MayActOn(current.value, userId)
    ensures r == Ok(OK) <==> current.Some? && MayActOn(current.value, userId) && db.FindUser(userId).Some?
    ensures r.Ok? ==> r.value in {OK, FORBIDDEN, NOT_FOUND}
  {
    if current.None? then Raise(AttributeError)
    else if !MayActOn(current.value, userId) then Ok(FORBIDDEN)
    else if db.FindUser(userId).None? then Ok(NOT_FOUND)
    else Ok(OK)
  }

  /** A non-admin only ever reads their own record. */
  lemma NonAdminReadsOnlySelf(db: Database, current: User, userId: int)
    requires current.role != ADMIN
    requires GetUser(db, Some(current), userId) == Ok(OK)
    ensures userId == current.id
  {
  }

  /** Some user holds email address `email`: `get_user_by_email` finds a row. */
  predicate EmailTaken(users: seq<User>, email: string)
    reads users
  {
    exists i :: 0 <= i < |users| && users[i].email == email
  }

  /** A user other than `userId` holds `email`. */
  predicate EmailTakenByOther(users: seq<User>, email: string, userId: int)
    reads users
  {
    exists i :: 0 <= i < |users| && users[i].email == email && users[i].id != userId
  }

  /** The unique constraint on `users.email`. */
  predicate UniqueEmails(users: seq<User>)
    reads users
  {
    forall i, j :: 0 <= i < j < |users| ==> users[i].email != users[j].email
  }

  /** `register_user`: email and password are required (400) and the email
      must be new (409). The role is the one asked for (any text) or client.
      A missing name reaches the NOT NULL column and the commit fails. */
  method RegisterUser(db: Database, name: Option<string>, email: Option<string>, password: Option<string>,
                      role: Option<string>, hash: string -> string, now: nat)
    returns (r: Result<nat>)
    requires db.Valid()
    modifies db`users, db`nextId
    ensures db.Valid()
    ensures r == Ok(BAD_REQUEST) <==> !GivenText(email) || !GivenText(password)
    ensures r == Ok(CONFLICT) <==>
              GivenText(email) && GivenText(password) && EmailTaken(old(db.users), email.value)
    ensures r.Raise? <==>
              GivenText(email) && GivenText(password) && !EmailTaken(old(db.users), email.value) && name.None?
    ensures r.Raise? ==> r.exc == DatabaseError
    ensures r.Ok? ==> r.value in {CREATED, BAD_REQUEST, CONFLICT}
    ensures r != Ok(CREATED) ==> db.users == old(db.users) && db.nextId == old(db.nextId)
    ensures r == Ok(CREATED) ==>
              |db.users| == |old(db.users)| + 1 && db.users[..|old(db.users)|] == old(db.users)
              && fresh(db.users[|old(db.users)|])
              && db.users[|old(db.users)|].id == old(db.nextId)
              && db.users[|old(db.users)|].name == name.value
              && db.users[|old(db.users)|].email == email.value
              && db.users[|old(db.users)|].password == hash(password.value)
              && db.users[|old(db.users)|].role == (if role.Some? then role.value else CLIENT)
              && db.users[|old(db.users)|].isActive
    ensures old(UniqueEmails(db.users)) ==> UniqueEmails(db.users)
  {
    if !GivenText(email) || !GivenText(password) {
      return Ok(BAD_REQUEST);
    }
    if EmailTaken(db.users, email.value) {
      return Ok(CONFLICT);
    }
    if name.None? {
      return Raise(DatabaseError);
    }
    var u := new User(db.nextId, name.value, email.value, hash(password.value), now,
                      if role.Some? then role.value else CLIENT);
    db.AddUser(u);
    return Ok(CREATED);
  }

  /** `update_user`: after the permission check (403) and the lookup (404),
      each field given overwrites the stored one, the password as its
      hash, and the role only when the caller is an admin. An email that
      another user holds makes the commit fail its unique constraint; the
      session is rolled back and nothing is changed. */
  method UpdateUser(db: Database, current: Option<User>, userId: int, name: Option<string>,
                    email: Option<string>, password: Option<string>, role: Option<string>,
                    hash: string -> string)
    returns (r: Result<nat>)
    requires db.Valid()
    modifies AsSet(db.FindUser(userId))`name, AsSet(db.FindUser(userId))`email
    modifies AsSet(db.FindUser(userId))`password, AsSet(db.FindUser(userId))`role
    ensures r.Raise? <==>
              current.None?
              || (old(MayActOn(current.value, userId)) && db.FindUser(userId).Some?
                  && GivenText(email) && old(EmailTakenByOther(db.users, email.value, userId)))
    ensures r.Raise? ==> r.exc == (if current.None? then AttributeError else DatabaseError)
    ensures r == Ok(FORBIDDEN) <==> current.Some? && old(!MayActOn(current.value, userId))
    ensures r == Ok(NOT_FOUND) <==>
              current.Some? && old(MayActOn(current.value, userId)) && db.FindUser(userId).None?
    ensures r.Ok? ==> r.value in {OK, FORBIDDEN, NOT_FOUND}
    ensures r != Ok(OK) ==> unchanged(AsSet(db.FindUser(userId)))
    ensures r == Ok(OK) ==>
              db.FindUser(userId).Some?
              && db.FindUser(userId).value.name ==
                   (if GivenText(name) then name.value else old(db.FindUser(userId).value.name))
              && db.FindUser(userId).value.email ==
                   (if GivenText(email) then email.value else old(db.FindUser(userId).value.email))
              && db.FindUser(userId).value.password ==
                   (if GivenText(password) then hash(password.value)
                    else old(db.FindUser(userId).value.password))
              && db.FindUser(userId).value.role ==
                   (if old(current.value.role) == ADMIN && GivenText(role) then role.value
                    else old(db.FindUser(userId).value.role))
    ensures current.Some? && old(current.value.role) != ADMIN && db.FindUser(userId).Some? ==>
              db.FindUser(userId).value.role == old(db.FindUser(userId).value.role)
    ensures old(UniqueEmails(db.users)) ==> UniqueEmails(db.users)
  {
    if current.None? {
      return Raise(AttributeError);
    }
    if !MayActOn(current.value, userId) {
      return Ok(FORBIDDEN);
    }
    var user := db.FindUser(userId);
    if user.None? {
      return Ok(NOT_FOUND);
    }
    if GivenText(email) && EmailTakenByOther(db.users, email.value, userId) {
      return Raise(DatabaseError);
    }
    ApplyUpdate(db, user.value, current.value.role == ADMIN, name, email, password, role, hash);
    return Ok(OK);
  }

  /** The field writes of `update_user` on the row `u`, once the commit is
      known to succeed: the unique email constraint still holds. */
  method ApplyUpdate(db: Database, u: User, byAdmin: bool, name: Option<string>, email: Option<string>,
                     password: Option<string>, role: Option<string>, hash: string -> string)
    requires db.Valid() && db.FindUser(u.id) == Some(u)
    requires GivenText(email) ==> !EmailTakenByOther(db.users, email.value, u.id)
    modifies u`name, u`email, u`password, u`role
    ensures u.name == if GivenText(name) then name.value else old(u.name)
    ensures u.email == if GivenText(email) then email.value else old(u.email)
    ensures u.password == if GivenText(password) then hash(password.value) else old(u.password)
    ensures u.role == if byAdmin && GivenText(role) then role.value else old(u.role)
    ensures old(UniqueEmails(db.users)) ==> UniqueEmails(db.users)
  {
    OnlyOneRowWithId(db, u);
    ghost var users := db.users;
    ghost var before := seq(|users|, i requires 0 <= i < |users| reads users => users[i].email);
    ghost var unique := UniqueEmails(db.users);
    ApplyProfile(u, byAdmin, name, password, role, hash);
    if GivenText(email) {
      u.email := email.value;
    }
    if unique {
      forall i, j | 0 <= i < j < |db.users|
        ensures db.users[i].email != db.users[j].email
      {
        assert before[i] != before[j];
        if db.users[i] == u || db.users[j] == u {
          assert db.users[i] != db.users[j];
        }
      }
    }
  }

  /** The writes of `update_user` that leave the email alone. */
  method ApplyProfile(u: User, byAdmin: bool, name: Option<string>, password: Option<string>,
                      role: Option<string>, hash: string -> string)
    modifies u`name, u`password, u`role
    ensures u.name == if GivenText(name) then name.value else old(u.name)
    ensures u.password == if GivenText(password) then hash(password.value) else old(u.password)
    ensures u.role == if byAdmin && GivenText(role) then role.value else old(u.role)
  {
    if GivenText(name) {
      u.name := name.value;
    }
    if GivenText(password) {
      u.password := hash(password.value);
    }
    if byAdmin && GivenText(role) {
      u.role := role.value;
    }
  }

  /** Under distinct keys, the row `FindUser` returns is the only one with
      its key. */
  lemma OnlyOneRowWithId(db: Database, u: User)
    requires db.Valid() && db.FindUser(u.id) == Some(u)
    ensures forall i :: 0 <= i < |db.users| && db.users[i].id == u.id ==> db.users[i] == u
  {
    forall i | 0 <= i < |db.users| && db.users[i].id == u.id
      ensures db.users[i] == u
    {
      var j :| 0 <= j < |db.users| && db.users[j] == u;
      assert i == j;
    }
  }

  /** `delete_user`, an admin-only route: 404 for a missing user, otherwise
      the deletion of the user service, whose failure escapes. */
  method DeleteUser(db: Database, current: Option<User>, userId: int) returns (r: Result<nat>)
    requires db.Valid()
    modifies db`users, db`bookings, db`payments, db`reviews, db`news
    ensures db.Valid()
    ensures current.None? <==> r == Raise(AttributeError)
    ensures r == Ok(FORBIDDEN) <==> current.Some? && current.value.role != ADMIN
    ensures r == Ok(NOT_FOUND) <==>
              current.Some? && current.value.role == ADMIN && old(db.FindUser(userId)).None?
    ensures r == Ok(OK) ==> db.FindUser(userId).None?
    ensures r.Raise? ==> r.exc in {AttributeError, DatabaseError}
    ensures r == Raise(DatabaseError) <==>
              current.Some? && current.value.role == ADMIN && old(db.FindUser(userId)).Some?
              && exists i :: 0 <= i < |old(db.payments)|
                   && UserService.BlocksDelete(old(db.payments)[i], userId, UserService.BookingIdsOf(old(db.bookings), userId))
    ensures r == Ok(OK) <==>
              current.Some? && current.value.role == ADMIN && old(db.FindUser(userId)).Some?
              && !exists i :: 0 <= i < |old(db.payments)|
                   && UserService.BlocksDelete(old(db.payments)[i], userId, UserService.BookingIdsOf(old(db.bookings), userId))
    ensures r == Ok(OK) ==>
              db.users == Keep(old(db.users), UserService.OtherUser(userId))
              && db.bookings == Keep(old(db.bookings), UserService.OthersBooking(userId))
              && db.payments == Keep(old(db.payments), UserService.PaymentOfKept(UserService.BookingIdsOf(old(db.bookings), userId)))
              && db.reviews == Keep(old(db.reviews), UserService.OthersReview(userId))
              && db.news == Keep(old(db.news), UserService.OthersNews(userId))
    ensures r != Ok(OK) ==>
              db.users == old(db.users) && db.bookings == old(db.bookings) && db.payments == old(db.payments)
              && db.reviews == old(db.reviews) && db.news == old(db.news)
  {
    var gate := RoleRequired(current, [ADMIN]);
    if gate.Raise? {
      return Raise(gate.exc);
    }
    if gate.value.Deny? {
      return Ok(gate.value.code);
    }
    if db.FindUser(userId).None? {
      return Ok(NOT_FOUND);
    }
    var deleted := UserService.DeleteUser(db, userId);
    if deleted.Raise? {
      return Raise(deleted.exc);
    }
    assert deleted.Ok?;
    assert deleted.value;
    return Ok(OK);
  }
}
