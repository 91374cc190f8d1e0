# Travel agency backend — a Dafny model

This project models the core of a Flask and SQLAlchemy backend for a travel agency. The data model covers:

- users with the roles `admin`, `client` and `vip`;
- travel packages and the bookings made for them on a travel date;
- payments against a booking;
- reviews of a package, which go through moderation;
- news items.

The model covers the services that read and change these records and the HTTP handlers on top of them:

- payments, refunds, reviews and package management;
- the JWT and role gates;
- registration and user management.

Design of the model:

- **Records are classes.** Each mapped entity is a Dafny `class` whose fields the services update in place. The session is `Store.Database`, which holds one sequence per table in insertion order, plus the counter that stands in for autoincrement ids.
- **Lookups scan by id.** `filter_by(id=...).first()` becomes a scan for the first row with that id.
- **Queries are functions.** A query is a function over the tables. `order_by` is a sort on a key, and `limit` is a prefix.
- **Handlers return status codes.** A handler returns its HTTP status code (`Result<nat>`), or the exception it raises (`Raise(...)`: `AttributeError`, `TypeError`, `IndexError`, `ValueError` or `DatabaseError`).
- **A failed handler changes nothing.** A rejected or failed handler leaves the database as it was, because the teardown at `app.py:26-28` discards uncommitted work.

Rules about values:

- **Money and averages are `real`.**
- **Dates and clock readings are parameters.** Dates are day numbers (`int`); clock readings are seconds (`nat`) and are passed in as parameters.
- **Missing request fields are `None`.** A request field the JSON body lacks is `None`. The source tests a field by its truth value, so the empty string, 0 and 0.0 count as missing (`Common.GivenText`, `GivenInt`, `GivenReal`).
- **No autoflush.** The session is modelled with autoflush off, so the `SUM` queries see the committed rows only.
- **Unchecked constraints.** Foreign keys and `NOT NULL` columns are checked at commit, which fails with `DatabaseError`.

Properties that hold across the model:

- **Ids stay well formed.** `Database.Valid()`, which every state-changing operation preserves, says that ids are distinct within each table and below the counter.
- **Paid amounts and booking status.**
  - The paid amount of a booking is `PaymentModel.PaidTotal` over its completed payments.
  - A booking is confirmed by a payment exactly when that payment completes its price, and sent back to pending by a refund exactly when the rest falls short.
- **Reviews.**
  - One review per user and package, and ratings within 1..5, are invariants of review creation and update.
  - Moderation decides which listing shows a review.
- **Listings.**
  - Each listing holds every matching row as often as the table holds it, and no other row. A listing with `order_by` is in that order; a query without one promises no order.
  - A limit cuts only rows not newer than the ones it keeps.

## Model

| member | source | states |
|---|---|---|
| BookingModel.BookingNumber | backend/models/booking.py:41-44 | the number is "BK" followed by the decimal digits of the creation second, and those digits read back as that second |
| BookingModel.BookingNumberSameSecond | backend/models/booking.py:41-44 | two bookings get the same number exactly when they are created in the same second (so the "unique" number is not unique within a second) |
| BookingModel.Booking.constructor | backend/models/booking.py:28-39 | a new booking carries the given fields, the defaults, the creation time, the number generated from that time and no total price |
| BookingModel.Booking.CalculateTotalPrice | backend/models/booking.py:46-48 | the total is the unit price times the number of travellers, and it is stored in the booking |
| BookingModel.LinePrice | backend/models/booking.py:46-48 | one traveller pays the unit price, none pays nothing, and the price is never negative when neither factor is |
| BookingModel.Booking.IsFullyPaid | backend/models/booking.py:50-55 | without payments the booking is not fully paid; with payments it is exactly when the completed amounts reach the total; comparing with an unset total raises TypeError |
| BookingModel.OnlyCompletedPay | backend/models/booking.py:50-55 | payments that are not completed never make a booking with a positive price fully paid |
| PaymentModel.Payment.constructor | backend/models/payment.py:25-35 | a new payment carries the given fields and the current time as its date |
| PaymentModel.Payment.CompletePayment | backend/models/payment.py:37-40 | the payment becomes completed with the given transaction id |
| PaymentModel.Payment.RefundPayment | backend/models/payment.py:42-46 | only a completed payment is refunded, and then it becomes refunded; otherwise nothing changes and false is returned |
| PaymentModel.PaidTotalAppend | backend/services/payment_service.py:98-103 | adding a payment adds its amount to the booking's paid total exactly when it is a completed payment of that booking |
| PaymentModel.Contribution | backend/services/payment_service.py:98-101 | a payment adds nothing to a booking's paid total unless it is a completed payment of that booking, and never a negative amount when its own is not |
| PaymentModel.PaidTotalOnlyCompleted | backend/services/payment_service.py:98-101 | payments that are not completed payments of the booking contribute nothing to its paid total |
| PaymentModel.PaidTotalNonNegative | backend/services/payment_service.py:98-101 | with non-negative amounts the paid total is never negative |
| PaymentModel.PaidTotal | backend/services/payment_service.py:98-101 | a booking without payments has paid nothing |
| PaymentModel.PaidTotalExceptAbsent | backend/services/payment_service.py:136-141 | leaving out a payment that is not in the table leaves the paid total unchanged |
| PaymentModel.PaidTotalSplit | backend/services/payment_service.py:136-141 | the paid total is the total without one payment plus that payment's contribution |
| ReviewModel.Review.constructor | backend/models/review.py:22-28 | a new review carries the given fields, the given date or now, and the given approval state |
| ReviewModel.Ratings | backend/models/package.py:64-67 | one rating per review of the package, taken in order from `ReviewsOf`; empty exactly when the package has no review |
| ReviewModel.ReviewsOf | backend/models/package.py:65-67 | every review of the package (approved only, when asked) as often as the table holds it, and no other |
| NewsModel.News.constructor | backend/models/news.py:25-37 | a new item carries the given fields, the given date or now, and no views |
| NewsModel.News.IncrementViews | backend/models/news.py:39-40 | the view count goes up by one |
| NewsModel.News.GetPreview | backend/models/news.py:58-62 | content no longer than the limit is returned whole; longer content is cut to the limit and followed by "..." |
| PackageModel.ImageList | backend/models/package.py:53 | no images or an empty string give no names; otherwise the comma-separated names, at least one |
| PackageModel.Package.constructor | backend/models/package.py:32-43 | a new package carries the given fields, no difficulty or season, and the creation time |
| PackageModel.Package.GetAverageRating | backend/models/package.py:64-67 | 0 when the package has no review; otherwise the sum of its ratings divided by the number of its reviews, which lies in [1, 5] when every rating does |
| PackageModel.RatingsMeanWithin | backend/models/package.py:64-67 | the mean rating of a reviewed package lies within the 1..5 bounds its ratings keep |
| UserModel.User.constructor | backend/models/user.py:25-33 | a new user is active, has never logged in, and carries the given fields and the role |
| Store.Database.FindUser | backend/services/user_service.py:19-24 | the user with that id, or None exactly when no row has it |
| Store.Database.FindPackage | backend/services/package_service.py:25-30 | the package with that id, or None exactly when no row has it |
| Store.Database.FindBooking | backend/services/booking_service.py:19-24 | the booking with that id, or None exactly when no row has it |
| Store.Database.FindPayment | backend/services/payment_service.py:20-25 | the payment with that id, or None exactly when no row has it |
| Store.Database.FindReview | backend/services/review_service.py:17-22 | the review with that id, or None exactly when no row has it |
| Store.Database.FindNews | backend/services/news_service.py:17-22 | the item with that id, or None exactly when no row has it |
| Store.Database.AddBooking | backend/services/booking_service.py:47-61 | the booking is appended under a fresh id and the ids stay distinct |
| Store.Database.AddPayment | backend/services/payment_service.py:41-49 | the payment is appended under a fresh id and the ids stay distinct |
| Store.Database.AddReview | backend/services/review_service.py:51-59 | the review is appended under a fresh id and the ids stay distinct |
| Store.Database.AddUser | backend/services/user_service.py:33-41 | the user is appended under a fresh id and the ids stay distinct |
| Store.Database.AddPackage | backend/services/package_service.py:32-40 | the package is appended under a fresh id |
| Store.Database.AddNews | backend/services/news_service.py:45-50 | the item is appended under a fresh id and the ids stay distinct |
| Store.Database.Remove | backend/services/user_service.py:55-60 | each table keeps exactly the rows the filters keep, and the ids stay distinct |
| Store.KeepDistinct | backend/services/user_service.py:55-60 | deleting rows never makes two remaining rows share an id |
| BookingService.OccupancyAppend | backend/services/booking_service.py:102-104 | a new booking adds its travellers to the occupancy of its package and date exactly when it is pending or confirmed |
| BookingService.OccupancyIgnoresCancelled | backend/services/booking_service.py:102-104 | cancelled bookings take no places |
| BookingService.Occupancy | backend/services/booking_service.py:102-104 | the places taken on the date are never negative when no party is |
| BookingService.CheckAvailability | backend/services/booking_service.py:107-114 | an unknown package, an unavailable one, or a date whose occupancy reaches the maximum is not available |
| BookingService.OneFreePlaceAdmitsAnyParty | backend/services/booking_service.py:107-114 | with one place free the date is available, and a pending booking of any size is then accepted and overfills the package (the check ignores the party size) |
| BookingService.GetAvailableDates | backend/services/booking_service.py:118-137 | exactly the days of the range on which the package is available, in increasing order; none for an unknown or unavailable package |
| BookingService.UpdateBookingStatus | backend/services/booking_service.py:85-96 | the status is set exactly when the booking exists and the status is one of the three; otherwise nothing changes |
| BookingService.CreateBooking | backend/services/booking_service.py:47-61 | DatabaseError, with nothing stored, exactly when the package or the user is missing or the booking number is already taken (the unique column); otherwise the booking is stored under the next id with the price filled in from the package when it had none; distinct booking numbers stay distinct |
| BookingService.TraveledIff | backend/services/booking_service.py:183-196 | the user has travelled with the package exactly when some confirmed booking of theirs for it has a travel date before today |
| BookingService.HasUserTraveled | backend/services/booking_service.py:183-196 | true exactly when some confirmed booking of the user for the package has a travel date before today |
| BookingService.UpcomingRows | backend/services/booking_service.py:142-148 | each row is keyed by its booking's travel date |
| BookingService.UpcomingRowsKeep | backend/services/booking_service.py:142-148 | the rows hold every upcoming non-cancelled booking (of the user, when one is named) as often as the table holds it, and no other |
| BookingService.UpcomingMembers | backend/services/booking_service.py:139-152 | every listed booking is an upcoming one from the table, and every upcoming booking is listed |
| BookingService.GetUpcomingBookings | backend/services/booking_service.py:139-152 | soonest first; every upcoming booking as often as the table holds it, and no other |
| BookingService.CountCreated | backend/services/booking_service.py:157-165 | counts the bookings created inside the window, at most all of them and all without a window |
| BookingService.RevenueCreated | backend/services/booking_service.py:157-165 | the summed price of the bookings created in the window is 0 when none is, and never negative when no price is |
| BookingService.CountStatus | backend/services/booking_service.py:170-173 | the bookings with that status, none exactly when no booking has it |
| BookingService.GetBookingStats | backend/services/booking_service.py:154-181 | the total and the revenue are those of the bookings created in the window; the three status counts are over every booking whatever the window; the total is all bookings without a window; the status counts reach the total exactly when every status is one of the three |
| BookingService.StatusCountsCover | backend/services/booking_service.py:170-173 | the pending, confirmed and cancelled counts add up to at most the number of bookings, and to all of them exactly when every status is one of the three |
| PaymentService.PaymentError | backend/services/payment_service.py:95-109 | processing fails exactly when the booking is missing (the commit breaks its key) or has no price (TypeError) |
| PaymentService.StatusAfterPayment | backend/services/payment_service.py:106-107 | the booking becomes confirmed exactly when it was pending and the paid total reaches its price; no other status changes |
| PaymentService.ProcessPayment | backend/services/payment_service.py:73-119 | on success a completed payment is stored and the paid total grows by the amount, and the booking is confirmed exactly when that completes its price; on failure nothing is stored |
| PaymentService.RecordPayment | backend/services/payment_service.py:81-107 | the payment row is appended with the next id, the paid total grows by the amount, and the booking's status follows the new total |
| PaymentService.StatusAfterRefund | backend/services/payment_service.py:134-144 | the booking goes back to pending exactly when it was confirmed and the remaining paid total falls short of its price |
| PaymentService.RefundPayment | backend/services/payment_service.py:121-151 | only a completed payment is refunded; the booking's paid total then drops by its amount and a confirmed booking falls back to pending when the rest is short; an unset price raises TypeError and changes nothing |
| PaymentService.RefundRow | backend/services/payment_service.py:130-144 | the payment becomes refunded and the paid total drops by its amount |
| PaymentService.CheckBookingPaymentStatus | backend/services/payment_service.py:194-217 | None for an unknown booking; TypeError for a booking without price; otherwise the price, the paid amount, the rest as pending, the fully-paid flag, and for a positive price the percentage paid over price times 100 |
| PaymentService.PercentageReachesHundred | backend/services/payment_service.py:213-214 | for a positive price the percentage reaches 100 exactly when the booking is fully paid |
| PaymentService.FullyPaidAgrees | backend/services/payment_service.py:213 | when the booking has payments, the status report and `Booking.is_fully_paid` agree on whether it is paid |
| PaymentService.FullyPaidDisagreesWithoutPayments | backend/models/booking.py:50-52 | a booking without payments and with price 0 is fully paid for the status report but not for `Booking.is_fully_paid` |
| PaymentService.CountCompleted | backend/services/payment_service.py:156-164 | counts the completed payments inside the window, at most all payments, and none exactly when no payment is completed inside the window |
| PaymentService.AmountCompleted | backend/services/payment_service.py:156-164 | the summed amount of the completed payments in the window is 0 when there are none, and never negative when no amount is |
| PaymentService.MethodTotals | backend/services/payment_service.py:170-184 | each method grouped counts at least one payment, and its amount is never negative when no amount is |
| PaymentService.CountByMethod | backend/services/payment_service.py:170-184 | the number of completed payments made with the method, at most all completed payments, and 0 exactly when none uses it |
| PaymentService.AmountByMethod | backend/services/payment_service.py:170-184 | the summed amount of the completed payments made with the method, 0 when none uses it |
| PaymentService.MethodGroup | backend/services/payment_service.py:170-184 | the group of a method, when there is one, is the number and the total amount of the completed payments with that method; a method without a group has no completed payment |
| PaymentService.MethodTotalsAreGroups | backend/services/payment_service.py:170-184 | every group of the breakdown is the number and the total amount of the completed payments with its method, and a method with no group has none |
| PaymentService.GetPaymentStats | backend/services/payment_service.py:153-192 | the count and the amount are those of the completed payments in the window; each group is the number and the total amount of the completed payments with that method (`CountByMethod`, `AmountByMethod`); the methods listed are exactly those of some completed payment |
| PaymentService.StatsIgnoreNotCompleted | backend/services/payment_service.py:156-178 | a payment that is not completed changes none of the statistics |
| PaymentService.WindowNarrowsCount | backend/services/payment_service.py:161-164 | a date window never counts more payments than no window |
| PaymentService.MethodTotalsKeys | backend/services/payment_service.py:170-178 | a method is grouped exactly when some completed payment uses it |
| PaymentService.MethodCountsBounded | backend/services/payment_service.py:180-184 | each method's count is at least one and at most the number of completed payments |
| UserService.ChangeUserRole | backend/services/user_service.py:131-142 | the role is set exactly when the user exists and the role is one of the three; otherwise nothing changes |
| UserService.DeactivateUser | backend/services/user_service.py:105-116 | the user becomes inactive exactly when it exists |
| UserService.ActivateUser | backend/services/user_service.py:118-129 | the user becomes active exactly when it exists |
| UserService.UpdatePassword | backend/services/user_service.py:65-76 | the stored password becomes the hash of the new one exactly when the user exists |
| UserService.CountUsersByRole | backend/services/user_service.py:144-156 | each of the admin, client and vip counts is the number of users with that role (`CountRole`); the total is the sum of the three role counts, and equals the number of users exactly when every role is one of the three |
| UserService.CountRole | backend/services/user_service.py:147-149 | the users with that role, none exactly when no user has it |
| UserService.RoleCountsCover | backend/services/user_service.py:147-156 | the three role counts add up to at most the number of users, and to all of them exactly when every role is one of the three |
| UserService.BookingIdsOf | backend/services/user_service.py:55-60 | exactly the ids of the user's bookings |
| UserService.DeleteUser | backend/services/user_service.py:52-63 | an unknown user gives false; otherwise the user and their bookings, those bookings' payments, their reviews and their news items go, and the commit fails with DatabaseError and changes nothing exactly when a payment of another booking still names the user |
| UserController.Token | backend/controllers/user_controller.py:19-23 | no header gives no token; a header without a space raises IndexError; otherwise the second space-separated word |
| UserController.BearerToken | backend/controllers/user_controller.py:19-23 | a "scheme token" header yields the token |
| UserController.TokenRequired | backend/controllers/user_controller.py:15-33 | refused with 401 exactly when there is no token or it does not decode; otherwise the user named by the token, which may be None |
| UserController.NoHeaderRefused | backend/controllers/user_controller.py:25-26 | a request without the header is refused |
| UserController.GoodTokenAuthenticates | backend/controllers/user_controller.py:27-29 | a decodable token authenticates the user it names |
| UserController.RoleRequired | backend/controllers/user_controller.py:36-44 | passes exactly when the user's role is listed; otherwise 403; a None user raises AttributeError |
| UserController.AdminRouteAdmitsOnlyAdmins | backend/controllers/user_controller.py:36-44 | behind both gates, an admin route admits exactly the authenticated admins |
| UserController.GetUser | backend/controllers/user_controller.py:121-139 | 403 for a non-admin reading someone else, 404 for an unknown user, 200 otherwise; a None caller raises AttributeError |
| UserController.NonAdminReadsOnlySelf | backend/controllers/user_controller.py:129-130 | a caller who is not an admin may read only themselves |
| UserController.RegisterUser | backend/controllers/user_controller.py:46-70 | 400 without email or password, 409 for a taken email, otherwise a new active user with the hashed password and the role asked for, or client (DatabaseError when the name is missing); email uniqueness is preserved |
| UserController.UpdateUser | backend/controllers/user_controller.py:142-171 | 403 for a non-admin acting on someone else, 404 for an unknown user; otherwise the given fields change, with the role only by an admin, and a taken email makes the commit fail and changes nothing; email uniqueness is preserved |
| UserController.ApplyUpdate | backend/controllers/user_controller.py:156-163 | each given field replaces the stored one, the password hashed and the role only by an admin; email uniqueness is preserved |
| UserController.OnlyOneRowWithId | backend/controllers/user_controller.py:156-163 | with distinct ids, a user found by id is the only row with that id |
| UserController.DeleteUser | backend/controllers/user_controller.py:174-184 | admins only (403 otherwise); 404 for an unknown user; DatabaseError, with nothing changed, exactly when a payment of another booking still names the user; otherwise 200, after which the user, their bookings, those bookings' payments, their reviews and their news items are gone and every other row stays; no other exception |
| PaymentController.ChargeFor | backend/controllers/payment_controller.py:48-55 | the base is price times travellers, a VIP gets a tenth off, and the amount plus the discount is the base |
| PaymentController.ChargeOrder | backend/controllers/payment_controller.py:48-55 | for a positive base a VIP pays strictly less than the base and more than nothing; everyone else pays the base |
| PaymentController.PositiveLinePrice | backend/controllers/payment_controller.py:48 | a positive price and party give a positive base |
| PaymentController.Receipt | backend/controllers/payment_controller.py:116-118 | the receipt shows the amount and the discount, and its base minus the discount is its total |
| PaymentController.ReceiptRestoresBase | backend/controllers/payment_controller.py:116-118 | the receipt's base equals the base the charge was computed from |
| PaymentController.Requested | backend/controllers/payment_controller.py:30 | the booking the request names, if any |
| PaymentController.PaymentGate | backend/controllers/payment_controller.py:26-45 | 400 without booking or method, 404 for an unknown booking or package, 403 for someone else's booking, 400 when already paid; AttributeError for a None caller; otherwise pass |
| PaymentController.PaidBookingRefused | backend/controllers/payment_controller.py:39-40 | a booking that is already paid is never charged again |
| PaymentController.ProcessPaymentAsWritten | backend/controllers/payment_controller.py:20-71 | as written: the gate's error or refusal, and TypeError for every request that passes the gate, because `Payment(...)` is given the keywords `payment_date` and `discount_applied`, which `models/payment.py:23-24` does not declare; never 201 |
| PaymentController.ProcessPayment | backend/controllers/payment_controller.py:20-87 | corrected: 201 exactly when the gate passes; a completed payment of the charged amount is then stored and the booking confirmed; otherwise nothing is stored |
| PaymentController.ChargeAndConfirm | backend/controllers/payment_controller.py:58-78 | one completed payment is appended and the booking becomes confirmed |
| PaymentController.VipFirstPaymentConfirmsUnderpaid | backend/controllers/payment_controller.py:76-78 | a VIP's first payment confirms a booking although the paid amount stays below its price |
| PaymentController.ControllerRefundsUncompleted | backend/controllers/payment_controller.py:228-238 | the handler refunds a payment that was never completed, which the service refuses |
| PaymentController.RefundPayment | backend/controllers/payment_controller.py:218-240 | admins only; 404 for an unknown payment, 400 for one already refunded; otherwise the payment is refunded and its booking cancelled; a missing booking raises AttributeError |
| PaymentController.SpacesIgnored | backend/controllers/payment_controller.py:271-272 | a card number is valid exactly when it is without its spaces |
| PaymentController.AcceptedCardShape | backend/controllers/payment_controller.py:271-272 | an accepted card number is digits and spaces only and at least 15 characters long |
| PaymentController.ValidCardNumber | backend/controllers/payment_controller.py:271-272 | an accepted card number is at least 15 characters, all digits or spaces |
| PaymentController.CardGate | backend/controllers/payment_controller.py:267-273 | passes exactly when every field is given and the card number without spaces is 15 or 16 digits; otherwise 400 |
| PaymentController.ProcessCardPaymentAsWritten | backend/controllers/payment_controller.py:261-280 | as written: a refused card gives 400, an accepted one raises TypeError |
| PaymentController.CardPaymentNeverCharges | backend/controllers/payment_controller.py:277-280 | as written, an accepted card never reaches the charge |
| PaymentController.ProcessCardPayment | backend/controllers/payment_controller.py:261-280 | corrected: 400 for a refused card; 201 exactly when the card passes and the payment route passes with method "credit_card", and then a completed credit-card payment is stored and the booking confirmed |
| PaymentView.ViewPaymentGate | backend/views/payment_view.py:14-36 | 400 without booking, amount or method; 404 for an unknown booking; 403 for someone else's; 400 for a cancelled booking; 500 when the caller is None; otherwise pass |
| PaymentView.CancelledBookingOnlyViewRefuses | backend/views/payment_view.py:35-36 | the view refuses a cancelled booking that the controller route would charge |
| PaymentView.ProcessPayment | backend/views/payment_view.py:8-56 | 201 exactly when the gate passes and the service succeeds, and then exactly the service's payment; a service failure becomes 500 and changes nothing |
| PaymentView.RefundPayment | backend/views/payment_view.py:161-178 | admins only; 200 exactly when the service refunds; 400 when it refuses; 500 when it raises |
| ReviewService.ApproveReview | backend/services/review_service.py:83-94 | the review becomes approved exactly when it exists |
| ReviewService.RejectReview | backend/services/review_service.py:96-107 | the review becomes rejected exactly when it exists |
| ReviewService.SelectedRows | backend/services/review_service.py:27-30 | each row is keyed by its review's date, and the rows hold every review in the state (of the package, when one is named) as often as the table holds it, and no other |
| ReviewService.Listing | backend/services/review_service.py:27-30 | newest first; every selected review as often as the table holds it, and no other |
| ReviewService.GetPackageReviews | backend/services/review_service.py:24-32 | newest first; every approved review of the package as often as the table holds it, and no other |
| ReviewService.GetPendingReviews | backend/services/review_service.py:109-114 | newest first; every pending review as often as the table holds it, and no other |
| ReviewService.ModerationDecidesListing | backend/services/review_service.py:83-114 | an approved review is listed with its package and not pending; a rejected one is in neither listing; a pending one only among the pending |
| ReviewService.FindUserPackageReview | backend/services/review_service.py:41-49 | a review by the user of the package, or None exactly when there is none |
| ReviewService.GetReviewStats | backend/services/review_service.py:116-142 | the number of reviews; their average as SQL Server's `AVG` gives it over the integer rating column, the sum divided by the count and truncated to a whole number, 0 without reviews; the count for each rating 1..5, and the count in each approval state |
| ReviewService.CountRating | backend/services/review_service.py:124-126 | the reviews with that rating, none exactly when no review gives it |
| ReviewService.CountApproval | backend/services/review_service.py:129-133 | the reviews in that approval state, none exactly when no review is in it |
| ReviewService.DistributionCovers | backend/services/review_service.py:129-133 | the five rating counts add up to at most the number of reviews, and to all of them exactly when every rating is in 1..5 |
| ReviewService.ApprovalCovers | backend/services/review_service.py:123-126 | the three approval counts add up to at most the number of reviews, and to all of them exactly when every state is 0, 1 or 2 |
| ReviewService.AverageRatingWithin | backend/controllers/review_controller.py:68-71 | the exact mean rating is 0 without reviews and lies in [1, 5] when every rating does |
| ReviewService.StatsAverageWithin | backend/services/review_service.py:119-120 | with ratings in 1..5 the statistics' average is 0 without reviews and otherwise a whole number in [1, 5], at most the exact mean and less than one below it |
| Queries.IntAverage | backend/services/review_service.py:120 | 0 for no values; otherwise the whole number `q` with `q * n <= sum < (q + 1) * n` for a non-negative sum, rounded toward zero for a negative one |
| Queries.IntAverageTruncates | backend/services/review_service.py:120 | for a non-negative sum the SQL average is at most the exact mean and less than one below it, and equal to it exactly when the count divides the sum |
| ReviewController.ReviewGate | backend/controllers/review_controller.py:18-37 | 400 without package, comment or rating, or for a rating outside 1..5; 403 for a non-admin who has not travelled with the package; 409 when they already reviewed it; AttributeError for a None caller; otherwise pass |
| ReviewController.SecondReviewConflicts | backend/controllers/review_controller.py:34-37 | anyone who already reviewed a package gets 409 on a second review, when they get past the other checks |
| ReviewController.CreateReview | backend/controllers/review_controller.py:13-50 | 201 exactly when the gate passes and the package exists; then one approved review dated now is stored; one review per user and package and ratings in 1..5 are preserved |
| ReviewController.UpdateGate | backend/controllers/review_controller.py:127-138 | 404 for an unknown review, 403 for a non-admin who did not write it, 400 for a rating outside 1..5; AttributeError for a None caller |
| ReviewController.UpdateReview | backend/controllers/review_controller.py:123-148 | 200 exactly when the gate passes, then the given comment and rating replace the stored ones; otherwise nothing changes; ratings in 1..5 are preserved |
| ReviewController.PackageAverageRating | backend/controllers/review_controller.py:68-71 | 0 when the package has no approved review; otherwise the sum of their ratings divided by their number |
| ReviewController.PackageAverageWithin | backend/controllers/review_controller.py:68-71 | with ratings in 1..5 the average is 0 exactly when there is no approved review, and otherwise lies in [1, 5] |
| ReviewController.CommentPreview | backend/controllers/review_controller.py:176 | a comment of at most 100 characters is shown whole; a longer one as its first 100 characters and "..." |
| ReviewController.PreviewIdempotent | backend/controllers/review_controller.py:176 | previewing a preview changes nothing |
| NewsService.IncrementViews | backend/services/news_service.py:91-102 | one more view exactly when the item exists |
| NewsService.ToggleFeatured | backend/services/news_service.py:142-153 | the featured flag flips exactly when the item exists |
| NewsService.ToggleExclusive | backend/services/news_service.py:155-166 | the exclusive flag flips exactly when the item exists |
| NewsService.MatchingRows | backend/services/news_service.py:114-118 | each row is keyed by its item's date, and the rows hold every matching item as often as the table holds it, and no other |
| NewsService.Listing | backend/services/news_service.py:114-118 | newest first; every matching item as often as the table holds it, and no other |
| NewsService.NewestMatching | backend/services/news_service.py:114-130 | at most `limit` matching items, newest first; a matching item is left out only when `limit` items were kept, all at least as new |
| NewsService.LimitCutsOnlyOlder | backend/services/news_service.py:118 | over a newest-first listing, the limit cuts only items not newer than every one it keeps |
| NewsService.LimitKeepsNewest | backend/services/news_service.py:118 | an item cut by the limit comes after all `limit` kept ones |
| NewsService.GetRecentNews | backend/services/news_service.py:111-120 | newest first, none exclusive when asked; an item left out (not exclusive, when asked) only when `limit` items were kept, all at least as new |
| NewsService.GetRelatedNews | backend/services/news_service.py:122-132 | other items of the category, newest first; one such item left out only when `limit` items were kept, all at least as new |
| NewsService.ListingsAgree | backend/services/news_service.py:111-132 | an item is never related to itself, and a non-exclusive item missing from the recent news is older than all of them |
| NewsService.LimitedListingsArePrefixes | backend/services/news_service.py:111-132 | each limited listing is the first `limit` items of the full listing, or all of it when that is shorter |
| PackageService.ToggleAvailability | backend/services/package_service.py:64-75 | the availability flips exactly when the package exists |
| PackageService.Select | backend/services/package_service.py:77-124 | every package that satisfies the query as often as the table holds it, and no other; no order is promised |
| PackageService.SelectMembers | backend/services/package_service.py:77-124 | no more rows than the table; every selected package satisfies the query, and every satisfying package is selected |
| PackageService.SearchPackages | backend/services/package_service.py:77-102 | every package whose destination or description contains the text, ignoring case, and that meets every given filter, as often as the table holds it, and no other |
| PackageService.SearchNarrows | backend/services/package_service.py:86-98 | adding filters never adds results |
| PackageService.SelectNarrows | backend/services/package_service.py:86-98 | a stronger query selects a subset of the rows, never more |
| PackageService.GetPackagesByPriceRange | backend/services/package_service.py:104-113 | every available package with price in the range, as often as the table holds it, and no other; none when the range is empty |
| PackageService.GetPackagesByDuration | backend/services/package_service.py:115-124 | every available package with duration in the range, as often as the table holds it, and no other |
| PackageService.GetSimilarPackages | backend/services/package_service.py:196-212 | none for an unknown package; otherwise at most `limit` other available packages within 3 days and 30% of the price, and a similar package is left out only when `limit` were kept |
| PackageService.SimilarTake | backend/services/package_service.py:198-208 | the first `limit` selected packages are other available packages within 3 days and 30% of the price, and a similar package is left out only when `limit` were kept |
| PackageService.SimilarIsSelectPrefix | backend/services/package_service.py:198-208 | the similar packages are the first `limit` rows of the full selection, or all of it when that is shorter |
| PackageService.NotSimilarToItself | backend/services/package_service.py:206 | a package is never listed as similar to itself |
| PackageService.BookingCount | backend/services/package_service.py:155-160 | the number of the package's bookings that are not cancelled |
| PackageService.BookingCountAppend | backend/services/package_service.py:155-160 | a new booking adds one to its package's count exactly when it is not cancelled |
| PackageService.CancellingLowersCount | backend/services/package_service.py:155-160 | cancelling bookings never raises a package's count |
| PackageService.CountedRows | backend/services/package_service.py:155-160 | each row is a package of the table keyed by its count of bookings, which is positive |
| PackageService.CountedRowsKeepBooked | backend/services/package_service.py:155-160 | the rows hold every package with bookings as often as the table holds it, and no other |
| PackageService.RankedByCount | backend/services/package_service.py:155-167 | packages of the table with bookings, by count from highest |
| PackageService.RankedKeepsBooked | backend/services/package_service.py:155-167 | every package with bookings is ranked, as often as the table holds it, and no other |
| PackageService.GetMostBookedPackages | backend/services/package_service.py:149-172 | at most `limit` packages that have bookings, by count from highest |
| PackageService.MostBookedCutsOnlyLess | backend/services/package_service.py:149-172 | a package with bookings is left out only when `limit` were kept, each with at least as many bookings |
| PackageService.MostBookedIsRankedPrefix | backend/services/package_service.py:149-172 | the most booked packages are the first `limit` of the ranking, or all of it when that is shorter |
| PackageController.AllowedFile | backend/controllers/booking_controller.py:184-187 | a file name is allowed exactly when it has a dot and the part after its last dot is png, jpg, jpeg or gif, ignoring case |
| PackageController.AllowedFileIff | backend/controllers/booking_controller.py:184-187 | a name is allowed exactly when its extension, lower-cased, is listed; a name without a dot never is |
| PackageController.UniqueName | backend/controllers/booking_controller.py:31 | the stored name is never empty and has no comma when its parts have none |
| PackageController.StoredNames | backend/controllers/booking_controller.py:24-34 | one non-empty, comma-free name per allowed file; none when no file is allowed |
| PackageController.CollectImages | backend/controllers/booking_controller.py:24-34 | the loop collects exactly the stored names of the allowed files |
| PackageController.ImagesRoundTrip | backend/models/package.py:53 | the saved image names read back as the same list |
| PackageController.CreatePackage | backend/controllers/booking_controller.py:14-49 | admins only; 400 when a required field is missing; ValueError for a bad number; no other exception; 201 exactly when an admin gives every required field and both numbers parse, and then a new available package with 20 places and the stored image names |
| PackageController.FormBoolAsWritten | backend/controllers/booking_controller.py:141-142 | as written: any non-empty form value reads as true |
| PackageController.FalseAvailabilityReadsTrue | backend/controllers/booking_controller.py:141-142 | as written, "false", "0" and "False" all make the package available |
| PackageController.FormFlag | backend/app.py:15 | corrected: a form value is true exactly when it is "true", "1" or "t", ignoring case |
| PackageController.FormFlagReadsText | backend/app.py:15 | corrected: "false", "0", "" and "False" read false; "true", "1", "t" and "TRUE" read true; case does not matter |
| PackageController.UpdatePackage | backend/controllers/booking_controller.py:114-165 | as written: admins only; 404 for an unknown package; ValueError for a bad number and nothing changes; no other exception; 200 exactly when an admin names a stored package and every given number parses, and then the given fields replace the stored ones, the availability read with `bool(...)`, so "false" stores true, and new images only when files were sent |
| PackageController.UpdatePackageCorrected | backend/controllers/booking_controller.py:114-165 | corrected: the same outcomes, 200 exactly when an admin names a stored package and every given number parses, and then the given fields replace the stored ones, with the availability read as a flag, so "false" stores false |
| PackageController.UpdatePackageReading | backend/controllers/booking_controller.py:114-165 | the handler for a given reading of the availability text: admins only, 404 for an unknown package, ValueError for a bad number with nothing changed, no other exception; 200 exactly when an admin names a stored package and every given number parses, and then the given fields replace the stored ones and nothing else changes |
| PackageController.ReadAvailability | backend/controllers/booking_controller.py:141-142 | the availability is read only when the form gives it, and then by the given reading |
| PackageController.ApplyPackageUpdate | backend/controllers/booking_controller.py:126-161 | each given field replaces the stored one, the availability with the value read; the images change only when files were sent; nothing else changes |
| PackageController.StoreImages | backend/controllers/booking_controller.py:152-161 | the image column lists exactly the accepted uploads |
| UserController.ApplyProfile | backend/controllers/user_controller.py:156-163 | the given name and the hashed password replace the stored ones, and the role only when an admin asks |
| Text.JoinSplit | backend/controllers/booking_controller.py:86 | joining the pieces of a split gives back the text |
| Text.SplitJoin | backend/controllers/booking_controller.py:86 | splitting a join of comma-free pieces gives back the pieces |

## Left out

- **Database layer**
  - The database engine itself (SQL Server over ODBC), transactions and concurrency are out of model; an operation runs alone. Autoflush is taken as off, and the request teardown discards whatever a failed handler did not commit.
  - `LIKE` and `ILIKE`: `%` wildcards in the user's text are not modelled. `LIKE` on the `season` filter is case-sensitive `Contains`, although a default SQL Server collation would ignore case there too.
  - `Store.Database.Valid` (distinct ids) covers users, bookings, payments, reviews and news; package ids come from the same counter but are not covered.
- **Values**
  - `round(x, 1)` in the controller's rating averages is not modelled; those averages are exact `real`s. Floating-point rounding is out of model. The average of `get_review_stats` is SQL Server's integer `AVG` (`Queries.IntAverage`).
  - Strings are sequences of characters with ASCII-only lower-casing.
  - `datetime` values are day numbers or seconds given as parameters.
  - `str.isdigit` is modelled by `Text.IsDigits`, which accepts only the ASCII digits 0 to 9. Python also accepts other Unicode digits, so `PaymentController.ValidCardNumber` and `CardGate` refuse some card numbers the source accepts.
- PackageController.StoredNames: one time stamp is taken per request, where the source reads the clock once per uploaded file (`booking_controller.py:31` and `:156`). Two files saved in different seconds get different prefixes in the source.
- **Parameters standing in for I/O and unseen code**
  - The clock, `uuid4`, JWT decoding, password hashing, `secure_filename`, the upload time stamp and `float`/`int` parsing of form text are parameters. Saving or deleting files on disk is out of model.
  - `payment_service.is_booking_paid`, which the service file does not define, is a parameter.
  - `views/user_view.py` calls the controller functions after `token_required` has already wrapped them, passing `current_user` on top, so those routes raise TypeError as `process_card_payment` does. The views of users are outside this model.
  - `controllers/__init__.py` is not part of this model; its `token_required` and `role_required` are taken to be those of `user_controller.py`.
- **Requests and responses**
  - JSON and form bodies are maps from field to optional value. An explicit JSON `null` is not told apart from an absent field, and a request body that is not JSON is not modelled.
  - The JSON shape of responses and the PDF receipt (`generate_payment_receipt`, `pdf_generator.py`) are out of model; the receipt's amounts are modelled (`PaymentController.Receipt`).
- **Operations not covered**
  - Listing handlers that only serialise rows (`get_all_*`, `get_user_payments`, `get_package`'s body, `get_booking_payments`).
  - `delete_review`, `get_user_reviews`, `get_recent_reviews` and `get_top_rated_reviews`. They are plain filtered or limited listings, of the same shape as the listings modelled.
  - `get_top_rated_packages`, `get_package_average_rating` (SQL `AVG` over approved reviews) and `booking_service.get_most_active_users`: grouped aggregates with a join; the grouped count is modelled for the most-booked packages.
  - `login_user` and `update_last_login`: they need the clock and token encoding.
  - `package_service.get_package_reviews` (`package_service.py:173-181`) is the same query as `ReviewService.GetPackageReviews`.
  - The average rating in `get_package` (`booking_controller.py:105-110`) is computed the same way, over the same query, as `ReviewController.PackageAverageRating`, so it is not modelled separately.
  - PaymentController.ProcessPayment: this is the corrected handler of the Findings row for `payment_controller.py:61-71`. As written, that call raises TypeError on every request past the gate (`ProcessPaymentAsWritten`), so the payment it stores is the row the `Payment` constructor can build, and the discount goes to the receipt directly.
  - `PaymentView.ProcessPayment`: the `Exception` raised by the service is caught as 500; its message is not modelled.

- **Facts stated as lemmas**
  - PackageService.GetSimilarPackages: that the result is a prefix of the full selection is the lemma `SimilarIsSelectPrefix`, not an ensures.
  - NewsService.NewestMatching: that the result is a prefix of the full listing, of length `min(limit, matching)`, is the lemma `LimitedListingsArePrefixes`, not an ensures. The same holds for `GetRecentNews` and `GetRelatedNews`.
  - PackageService.RankedByCount: that every package with bookings is ranked is the lemma `RankedKeepsBooked`, not an ensures.
  - PackageService.GetMostBookedPackages: the cut and the prefix are the lemmas `MostBookedCutsOnlyLess` and `MostBookedIsRankedPrefix`, not ensures.
  - BookingService.UpcomingRows: which rows are kept is the lemma `UpcomingRowsKeep`, not an ensures.
  - PackageService.CountedRows: which packages get a row is the lemma `CountedRowsKeepBooked`, not an ensures.
  - PackageService.Select: queries without `order_by` return the rows in table order in the model, but no order is promised, as SQL promises none. The same holds for `SearchPackages`, `GetPackagesByPriceRange`, `GetPackagesByDuration` and `GetSimilarPackages`.

## Findings

| source | as written | input that shows it | evidently intended | confidence | as-written member | corrected member |
|---|---|---|---|---|---|---|
| backend/controllers/payment_controller.py:277-280 | `process_card_payment` ends by calling `process_payment(current_user)`. That name is the route after `token_required` has wrapped it, so the call passes the user as an extra positional argument and raises TypeError. | any request with a valid 16-digit card and all fields present | the card route ends with the same charge as the generic payment route, with method "credit_card" | medium, not executed | PaymentController.CardPaymentNeverCharges | PaymentController.ProcessCardPayment |
| backend/controllers/payment_controller.py:61-71 | `Payment(...)` is called with `payment_date=` and `discount_applied=`, keywords the constructor at `models/payment.py:23-24` does not declare and does not accept through `**kwargs`, so it raises TypeError before the row exists | any request that passes the gate: a booking of the caller's, not yet paid, with an existing package and a payment method | a completed payment of the charged amount is stored and the booking confirmed | high, not executed | PaymentController.ProcessPaymentAsWritten | PaymentController.ProcessPayment |
| backend/controllers/booking_controller.py:141-142 | the form value is read with `bool(...)`, which is true for every non-empty string | `availability=false` in the form | the text "false" or "0" makes the package unavailable, read the way `app.py:15` reads its DEBUG flag | high, not executed | PackageController.UpdatePackage | PackageController.UpdatePackageCorrected |
