/** The database the services share: one sequence of rows per table, in
    insertion order, and the identity counter that hands out primary keys.
    Lookups by key are `Model.query.filter_by(id=k).first()`. The state of
    a `Database` is what is committed; a request that fails before its
    commit leaves it as it was. */
module Store {
  import opened Common
  import opened UserModel
  import opened PackageModel
  import opened BookingModel
  import opened PaymentModel
  import opened ReviewModel
  import opened NewsModel

  class Database {
    var users: seq<User>
    var packages: seq<Package>
    var bookings: seq<Booking>
    var payments: seq<Payment>
    var reviews: seq<Review>
    var news: seq<News>
    /** The key the next inserted row receives. */
    var nextId: nat

    /** Keys are unique within each table and below `nextId`. Keys are
        constant fields, so changing a row's other columns keeps this. */
    ghost predicate Valid()
      reads this
    {
      KeysBelow(users, UserKey, nextId)
      && KeysBelow(bookings, BookingKey, nextId)
      && KeysBelow(payments, PaymentKey, nextId)
      && KeysBelow(reviews, ReviewKey, nextId)
      && KeysBelow(news, NewsKey, nextId)
    }

    /** An empty database. */
    constructor ()
      ensures users == [] && packages == [] && bookings == []
      ensures payments == [] && reviews == [] && news == []
      ensures nextId == 1
      ensures Valid()
    {
      users, packages, bookings := [], [], [];
      payments, reviews, news := [], [], [];
      nextId := 1;
    }

    function FindUser(id: int): (r: Option<User>)
      reads this`users
      ensures r.Some? ==> r.value in users && r.value.id == id
      ensures r.None? <==> forall i :: 0 <= i < |users| ==> users[i].id != id
    {
      FirstWithId(users, id, (u: User) => u.id)
    }

    function FindPackage(id: int): (r: Option<Package>)
      reads this`packages
      ensures r.Some? ==> r.value in packages && r.value.id == id
      ensures r.None? <==> forall i :: 0 <= i < |packages| ==> packages[i].id != id
    {
      FirstWithId(packages, id, (p: Package) => p.id)
    }

    function FindBooking(id: int): (r: Option<Booking>)
      reads this`bookings
      ensures r.Some? ==> r.value in bookings && r.value.id == id
      ensures r.None? <==> forall i :: 0 <= i < |bookings| ==> bookings[i].id != id
    {
      FirstWithId(bookings, id, (b: Booking) => b.id)
    }

    function FindPayment(id: int): (r: Option<Payment>)
      reads this`payments
      ensures r.Some? ==> r.value in payments && r.value.id == id
      ensures r.None? <==> forall i :: 0 <= i < |payments| ==> payments[i].id != id
    {
      FirstWithId(payments, id, (p: Payment) => p.id)
    }

    function FindReview(id: int): (r: Option<Review>)
      reads this`reviews
      ensures r.Some? ==> r.value in reviews && r.value.id == id
      ensures r.None? <==> forall i :: 0 <= i < |reviews| ==> reviews[i].id != id
    {
      FirstWithId(reviews, id, (v: Review) => v.id)
    }

    function FindNews(id: int): (r: Option<News>)
      reads this`news
      ensures r.Some? ==> r.value in news && r.value.id == id
      ensures r.None? <==> forall i :: 0 <= i < |news| ==> news[i].id != id
    {
      FirstWithId(news, id, (n: News) => n.id)
    }

    /** `db_session.add(user)` and commit: the row gets the next key. */
    method AddUser(u: User)
      requires Valid() && u.id == nextId
      modifies this`users, this`nextId
      ensures users == old(users) + [u] && nextId == old(nextId) + 1
      ensures Valid()
    {
      users := users + [u];
      nextId := nextId + 1;
    }

    method AddPackage(p: Package)
      requires Valid() && p.id == nextId
      modifies this`packages, this`nextId
      ensures packages == old(packages) + [p] && nextId == old(nextId) + 1
      ensures Valid()
    {
      packages := packages + [p];
      nextId := nextId + 1;
    }

    method AddBooking(b: Booking)
      requires Valid() && b.id == nextId
      modifies this`bookings, this`nextId
      ensures bookings == old(bookings) + [b] && nextId == old(nextId) + 1
      ensures Valid()
    {
      bookings := bookings + [b];
      nextId := nextId + 1;
    }

    method AddPayment(p: Payment)
      requires Valid() && p.id == nextId
      modifies this`payments, this`nextId
      ensures payments == old(payments) + [p] && nextId == old(nextId) + 1
      ensures Valid()
    {
      payments := payments + [p];
      nextId := nextId + 1;
    }

    method AddReview(v: Review)
      requires Valid() && v.id == nextId
      modifies this`reviews, this`nextId
      ensures reviews == old(reviews) + [v] && nextId == old(nextId) + 1
      ensures Valid()
    {
      reviews := reviews + [v];
      nextId := nextId + 1;
    }

    method AddNews(n: News)
      requires Valid() && n.id == nextId
      modifies this`news, this`nextId
      ensures news == old(news) + [n] && nextId == old(nextId) + 1
      ensures Valid()
    {
      news := news + [n];
      nextId := nextId + 1;
    }

    /** One commit of deletions: each table keeps the rows its filter
        keeps. Keys stay distinct and below the counter. */
    method Remove(keepUser: User -> bool, keepBooking: Booking -> bool, keepPayment: Payment -> bool,
                  keepReview: Review -> bool, keepNews: News -> bool)
      requires Valid()
      modifies this`users, this`bookings, this`payments, this`reviews, this`news
      ensures users == Keep(old(users), keepUser) && bookings == Keep(old(bookings), keepBooking)
      ensures payments == Keep(old(payments), keepPayment) && reviews == Keep(old(reviews), keepReview)
      ensures news == Keep(old(news), keepNews)
      ensures Valid()
    {
      KeepUsers(keepUser);
      KeepBookings(keepBooking);
      KeepPayments(keepPayment);
      KeepReviews(keepReview);
      KeepNews(keepNews);
    }

    method KeepUsers(keep: User -> bool)
      requires Valid()
      modifies this`users
      ensures users == Keep(old(users), keep) && Valid()
    {
      KeepKeysBelow(users, keep, UserKey, nextId);
      users := Keep(users, keep);
    }

    method KeepBookings(keep: Booking -> bool)
      requires Valid()
      modifies this`bookings
      ensures bookings == Keep(old(bookings), keep) && Valid()
    {
      KeepKeysBelow(bookings, keep, BookingKey, nextId);
      bookings := Keep(bookings, keep);
    }

    method KeepPayments(keep: Payment -> bool)
      requires Valid()
      modifies this`payments
      ensures payments == Keep(old(payments), keep) && Valid()
    {
      KeepKeysBelow(payments, keep, PaymentKey, nextId);
      payments := Keep(payments, keep);
    }

    method KeepReviews(keep: Review -> bool)
      requires Valid()
      modifies this`reviews
      ensures reviews == Keep(old(reviews), keep) && Valid()
    {
      KeepKeysBelow(reviews, keep, ReviewKey, nextId);
      reviews := Keep(reviews, keep);
    }

    method KeepNews(keep: News -> bool)
      requires Valid()
      modifies this`news
      ensures news == Keep(old(news), keep) && Valid()
    {
      KeepKeysBelow(news, keep, NewsKey, nextId);
      news := Keep(news, keep);
    }
  }

  /** The first row whose key is `id`. */
  function FirstWithId<T>(rows: seq<T>, id: int, key: T -> nat): (r: Option<T>)
    ensures r.Some? ==> r.value in rows && key(r.value) == id
    ensures r.None? <==> forall i :: 0 <= i < |rows| ==> key(rows[i]) != id
    decreases |rows|
  {
    if rows == [] then None
    else if key(rows[0]) == id then Some(rows[0])
    else
      var r := FirstWithId(rows[1..], id, key);
      assert forall i :: 1 <= i < |rows| ==> rows[i] == rows[1..][i - 1];
      r
  }

  /** `DELETE ... WHERE NOT keep`: the rows that stay, in their order. */
  function Keep<T>(rows: seq<T>, keep: T -> bool): (r: seq<T>)
    ensures |r| <= |rows|
    ensures forall i :: 0 <= i < |r| ==> r[i] in rows && keep(r[i])
    ensures forall i :: 0 <= i < |rows| && keep(rows[i]) ==> rows[i] in r
    decreases |rows|
  {
    if rows == [] then []
    else
      var rest := Keep(rows[1..], keep);
      assert forall i :: 1 <= i < |rows| ==> rows[i] == rows[1..][i - 1];
      if keep(rows[0]) then [rows[0]] + rest else rest
  }

  /** No two rows share a key. */
  predicate DistinctKeys<T>(rows: seq<T>, key: T -> nat)
  {
    forall i, j :: 0 <= i < j < |rows| ==> key(rows[i]) != key(rows[j])
  }

  /** The primary key of each table. */
  function UserKey(u: User): nat { u.id }
  function BookingKey(b: Booking): nat { b.id }
  function PaymentKey(p: Payment): nat { p.id }
  function ReviewKey(v: Review): nat { v.id }
  function NewsKey(n: News): nat { n.id }

  /** The keys of a table: distinct, and all below `bound`. */
  predicate KeysBelow<T>(rows: seq<T>, key: T -> nat, bound: nat)
  {
    DistinctKeys(rows, key) && forall i :: 0 <= i < |rows| ==> key(rows[i]) < bound
  }

  /** Deleting rows keeps the keys of the rest distinct and bounded. */
  lemma KeepKeysBelow<T>(rows: seq<T>, keep: T -> bool, key: T -> nat, bound: nat)
    requires KeysBelow(rows, key, bound)
    ensures KeysBelow(Keep(rows, keep), key, bound)
  {
    KeepDistinct(rows, keep, key);
  }

  /** Deleting rows keeps the remaining keys distinct. */
  lemma {:induction false} KeepDistinct<T>(rows: seq<T>, keep: T -> bool, key: T -> nat)
    requires DistinctKeys(rows, key)
    ensures DistinctKeys(Keep(rows, keep), key)
    decreases |rows|
  {
    if rows != [] {
      var tail := rows[1..];
      assert forall i :: 0 <= i < |tail| ==> tail[i] == rows[i + 1];
      KeepDistinct(tail, keep, key);
      var rest := Keep(tail, keep);
      if keep(rows[0]) {
        forall j | 0 <= j < |rest|
          ensures key(rows[0]) != key(rest[j])
        {
          var m :| 0 <= m < |tail| && tail[m] == rest[j];
          assert rows[m + 1] == rest[j];
        }
        var r := [rows[0]] + rest;
        assert r == Keep(rows, keep);
        forall i, j | 0 <= i < j < |r|
          ensures key(r[i]) != key(r[j])
        {
          if i > 0 {
            assert r[i] == rest[i - 1] && r[j] == rest[j - 1];
          } else {
            assert r[j] == rest[j - 1];
          }
        }
      }
    }
  }
}
