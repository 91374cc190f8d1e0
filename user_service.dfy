/** `UserService`: role changes limited to the three roles, activation,
    password changes, the per-role counts and deleting a user with the rows
    that belong to it. Every operation on a missing user reports failure
    and changes nothing. Password hashing (werkzeug) is a parameter. */
module UserService {
  import opened Common
  import opened UserModel
  import opened BookingModel
  import opened PaymentModel
  import opened ReviewModel
  import opened NewsModel
  import opened Store

  /** `change_user_role`: only admin, client or vip can be written, and only
      to an existing user. */
  method ChangeUserRole(db: Database, userId: int, newRole: string) returns (ok: bool)
    modifies AsSet(db.FindUser(userId))`role
    ensures ok <==> db.FindUser(userId).Some? && newRole in ROLES
    ensures ok ==> db.FindUser(userId).value.role == newRole
    ensures !ok ==> unchanged(AsSet(db.FindUser(userId)))
  {
    var user := db.FindUser(userId);
    if user.Some? && newRole in ROLES {
      user.value.role := newRole;
      return true;
    }
    return false;
  }

  /** `deactivate_user`: the user stays but is marked inactive. */
  method DeactivateUser(db: Database, userId: int) returns (ok: bool)
    modifies AsSet(db.FindUser(userId))`isActive
    ensures ok <==> db.FindUser(userId).Some?
    ensures ok ==> !db.FindUser(userId).value.isActive
  {
    var user := db.FindUser(userId);
    if user.None? {
      return false;
    }
    user.value.isActive := false;
    return true;
  }

  /** `activate_user`: the reverse of `deactivate_user`. */
  method ActivateUser(db: Database, userId: int) returns (ok: bool)
    modifies AsSet(db.FindUser(userId))`isActive
    ensures ok <==> db.FindUser(userId).Some?
    ensures ok ==> db.FindUser(userId).value.isActive
  {
    var user := db.FindUser(userId);
    if user.None? {
      return false;
    }
    user.value.isActive := true;
    return true;
  }

  /** `update_password`: the stored password becomes the hash of the new
      one. */
  method UpdatePassword(db: Database, userId: int, newPassword: string, hash: string -> string)
    returns (ok: bool)
    modifies AsSet(db.FindUser(userId))`password
    ensures ok <==> db.FindUser(userId).Some?
    ensures ok ==> db.FindUser(userId).value.password == hash(newPassword)
  {
    var user := db.FindUser(userId);
    if user.None? {
      return false;
    }
    user.value.password := hash(newPassword);
    return true;
  }

  /** `filter_by(role=...).count()`: none exactly when no user has the
      role. */
  function CountRole(users: seq<User>, role: string): (n: nat)
    reads users
    ensures n <= |users|
    ensures n == 0 <==> forall i :: 0 <= i < |users| ==> users[i].role != role
    decreases |users|
  {
    if users == [] then 0
    else (if users[0].role == role then 1 else 0) + CountRole(users[1..], role)
  }

  /** The dictionary `count_users_by_role` returns. */
  datatype RoleCounts = RoleCounts(admin: nat, client: nat, vip: nat, total: nat)

  /** `count_users_by_role`: the three counts and their sum, which leaves
      out users whose role is none of the three. */
  function CountUsersByRole(db: Database): (r: RoleCounts)
    reads db, db.users
    ensures r.admin == CountRole(db.users, ADMIN) && r.client == CountRole(db.users, CLIENT)
            && r.vip == CountRole(db.users, VIP)
    ensures r.total == r.admin + r.client + r.vip
    ensures r.total <= |db.users|
    ensures r.total == |db.users| <==> forall i :: 0 <= i < |db.users| ==> db.users[i].role in ROLES
  {
    RoleCountsCover(db.users);
    var a := CountRole(db.users, ADMIN);
    var c := CountRole(db.users, CLIENT);
    var v := CountRole(db.users, VIP);
    RoleCounts(a, c, v, a + c + v)
  }

  /** The three role counts add up to at most the number of users, and to
      exactly that number when every role is one of the three. */
  lemma {:induction false} RoleCountsCover(users: seq<User>)
    ensures CountRole(users, ADMIN) + CountRole(users, CLIENT) + CountRole(users, VIP) <= |users|
    ensures CountRole(users, ADMIN) + CountRole(users, CLIENT) + CountRole(users, VIP) == |users| <==>
              forall i :: 0 <= i < |users| ==> users[i].role in ROLES
    decreases |users|
  {
    if users != [] {
      RoleCountsCover(users[1..]);
      assert forall i :: 1 <= i < |users| ==> users[i] == users[1..][i - 1];
      if users[0].role !in ROLES {
        assert !(forall i :: 0 <= i < |users| ==> users[i].role in ROLES);
      }
    }
  }

  /** The keys of the bookings a deleted user takes with it. */
  function BookingIdsOf(bookings: seq<Booking>, userId: int): (s: set<int>)
    ensures forall i :: 0 <= i < |bookings| && bookings[i].userId == userId ==> bookings[i].id in s
    ensures forall k :: k in s ==> exists i :: 0 <= i < |bookings| && bookings[i].userId == userId && bookings[i].id == k
  {
    set i | 0 <= i < |bookings| && bookings[i].userId == userId :: bookings[i].id
  }

  /** A payment row that would still point at the deleted user: one made by
      the user on a booking that is not the user's own. */
  predicate BlocksDelete(p: Payment, userId: int, gone: set<int>)
  {
    p.userId == userId && p.bookingId !in gone
  }

  /** The rows deleting user `userId` keeps, table by table. */
  function OtherUser(userId: int): User -> bool
  {
    (u: User) => u.id != userId
  }

  function OthersBooking(userId: int): Booking -> bool
  {
    (b: Booking) => b.userId != userId
  }

  function PaymentOfKept(gone: set<int>): Payment -> bool
  {
    (p: Payment) => p.bookingId !in gone
  }

  function OthersReview(userId: int): Review -> bool
  {
    (v: Review) => v.userId != userId
  }

  function OthersNews(userId: int): News -> bool
  {
    (n: News) => n.authorId != Some(userId)
  }

  /** `delete_user`. A missing user is reported and nothing changes. The user
      goes with its bookings (and their payments), its reviews and its news
      items, the cascades of the `User` and `Booking` relationships; a
      payment the user made on someone else's booking still references the
      user, so the commit fails its foreign key and nothing is deleted. */
  method DeleteUser(db: Database, userId: int) returns (r: Result<bool>)
    requires db.Valid()
    modifies db`users, db`bookings, db`payments, db`reviews, db`news
    ensures db.Valid()
    ensures r == Ok(false) <==> old(db.FindUser(userId)).None?
    ensures r.Raise? <==>
              old(db.FindUser(userId)).Some?
              && exists i :: 0 <= i < |old(db.payments)|
                   && BlocksDelete(old(db.payments)[i], userId, BookingIdsOf(old(db.bookings), userId))
    ensures r.Raise? ==> r.exc == DatabaseError
    ensures r != Ok(true) ==>
              db.users == old(db.users) && db.bookings == old(db.bookings) && db.payments == old(db.payments)
              && db.reviews == old(db.reviews) && db.news == old(db.news)
    ensures r == Ok(true) ==>
              db.users == Keep(old(db.users), OtherUser(userId))
              && db.bookings == Keep(old(db.bookings), OthersBooking(userId))
              && db.payments == Keep(old(db.payments), PaymentOfKept(BookingIdsOf(old(db.bookings), userId)))
              && db.reviews == Keep(old(db.reviews), OthersReview(userId))
              && db.news == Keep(old(db.news), OthersNews(userId))
    ensures r == Ok(true) ==>
              db.FindUser(userId).None?
              && (forall i :: 0 <= i < |db.bookings| ==> db.bookings[i].userId != userId)
              && (forall i :: 0 <= i < |db.payments| ==> db.payments[i].userId != userId)
              && (forall i :: 0 <= i < |db.reviews| ==> db.reviews[i].userId != userId)
  {
    if db.FindUser(userId).None? {
      return Ok(false);
    }
    var gone := BookingIdsOf(db.bookings, userId);
    if exists i :: 0 <= i < |db.payments| && BlocksDelete(db.payments[i], userId, gone) {
      return Raise(DatabaseError);
    }
    db.Remove(OtherUser(userId), OthersBooking(userId), PaymentOfKept(gone), OthersReview(userId),
              OthersNews(userId));
    r := Ok(true);
  }
}
