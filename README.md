# Drip-haven car-wash back end: a Dafny model

This project models the service layer of Drip-haven, a NestJS back end for an
on-demand car-wash marketplace. A user registers cars and books a washer's
service. The washer accepts or declines the booking and marks it completed.
The user approves the completed wash, which opens a Paystack transaction.
Once the payment is verified, the booking is paid and the user may review the
washer. Every review recomputes the washer's average rating.

All tables live in one `Store.Database` object. It holds one map per TypeORM
entity (users, washers, service menus, cars, bookings, transactions, reviews,
notifications) and the serial counter that hands out primary keys. Each
service operation is a method over that object. Its `modifies` clause names
exactly the tables the TypeScript code writes. Its `ensures` clauses give:

- every error the code throws (NestJS exceptions become the `Err` datatype);
- the complete new state of each table it writes. The exceptions are the scenario methods `BookTwice`, `ResetPasswordTwice`, `DeliverTwice` and `ApproveChargesAnotherService`. They state only the scenario's outcome; the operations they call state the new tables.

Two invariants are kept by every booking operation:

- `BookingService.OneActivePerCar`: at most one active booking per car.
- `BookingService.PaymentConsistent`: a booking is `paid` exactly when its
  payment is `authorized`.

Two more are kept by every review operation:

- `ReviewService.RatingsAccurate`: each washer row carries the average and
  count of its reviews.
- `ReviewService.RatingsInRange`: every rating lies between 1 and 5.

The request DTOs are modelled as validators over JSON values, with the rules
their class-validator decorators impose. Each validator is proved to accept
exactly the well-formed bodies. The role guard is a pure function.

Inputs that the code gets from the outside world are parameters of the model:

- the clock (`now`, in milliseconds);
- random tokens and salts;
- whether a mail was sent;
- the Paystack HTTP replies (a function from request to reply);
- the distance function;
- the database's timestamp comparison.

Bcrypt, SHA-256 and HMAC are injective symbolic encodings (module `Crypto`),
because the services only ever compare their outputs for equality.

A TypeScript `TypeError` from dereferencing a relation that was not loaded
surfaces as a 500 and is modelled as `InternalServerError`. TypeORM drops a
`where` condition whose value is `undefined`, and the model does the same.
Where this behaviour makes an operation fail or misbehave, the model has two
members:

- an `...AsWritten` member for the code as written;
- a member for the evidently intended behaviour, which the rest of the model
  uses.

Both are listed under "## Findings".

## Model

| member | source | states |
|---|---|---|
| RolesGuard.CanActivate | src/auth/guards/role.guard.ts:11-22 | no role metadata or an empty role list admits everyone; otherwise admitted exactly when there is a user whose role is listed |
| RolesGuard.NoUserNoAccess | src/auth/guards/role.guard.ts:16-21 | a route with required roles never admits an unauthenticated request |
| RolesGuard.MoreRolesNeverDeny | src/auth/guards/role.guard.ts:16-21 | adding a role to a non-empty list never locks out an admitted user |
| RolesGuard.FirstRoleCloses | src/auth/guards/role.guard.ts:14-21 | an empty role list admits every request, with or without a user; a one-role list admits exactly the users holding that role |
| CreateBookingDto.Validate | src/booking/dto/create-booking.dto.ts:19-72 | accepts exactly positive integer car and service ids, an ISO 8601 scheduled time and latitude/longitude within ±90/±180; otherwise BadRequest; an accepted body re-encodes to itself |
| CreateBookingDto.AcceptsEveryWellFormedBooking | src/booking/dto/create-booking.dto.ts:19-72 | every booking request within the decorated bounds round-trips through validation unchanged |
| SearchBookingsDto.WithDefault | src/booking/dto/searchBooking.dto.ts:90-118 | a missing page or limit takes its declared default; a supplied value is kept |
| SearchBookingsDto.PositiveOrNone | src/booking/dto/searchBooking.dto.ts:64-88 | an absent optional id is None; a present one is the positive integer sent |
| SearchBookingsDto.Validate | src/booking/dto/searchBooking.dto.ts:28-118 | accepts exactly the queries the decorators allow; page ≥ 1, 1 ≤ limit ≤ 100, defaults 1 and 10, paymentStatus in the PaymentStatus enum, positive user and washer ids, status passed through unvalidated |
| SearchBookingsDto.AcceptsEveryPageAndLimitInRange | src/booking/dto/searchBooking.dto.ts:90-118 | every page ≥ 1 and limit in 1..100 is accepted as sent |
| SearchBookingsDto.RefusesOutOfRange | src/booking/dto/searchBooking.dto.ts:90-118 | page 0 or a limit above 100 is a BadRequest |
| CreateReviewDto.Validate | src/review/dto/create-review.dto.ts:12-27 | accepts exactly an integer rating in 1..5 and an absent comment or a string of 1..500 characters; otherwise BadRequest |
| CreateReviewDto.AcceptsEveryWellFormedReview | src/review/dto/create-review.dto.ts:12-27 | every review within the decorated bounds is accepted unchanged |
| CreateReviewDto.RefusesFractionAndEmptyComment | src/review/dto/create-review.dto.ts:12-27 | a fractional rating and an empty comment are both refused |
| ResetPasswordDto.IsPasswordMatching | src/auth/dto/reset-password.dto.ts:14-18 | the constraint holds exactly when the value strictly equals the named sibling property |
| ResetPasswordDto.Validate | src/auth/dto/reset-password.dto.ts:25-33 | accepts exactly a password of at least 4 characters whose confirmation is the same string; otherwise BadRequest |
| ResetPasswordDto.RefusesMismatch | src/auth/dto/reset-password.dto.ts:31-33 | differing password and confirmation are refused |
| ResetPasswordDto.AcceptsConfirmedPassword | src/auth/dto/reset-password.dto.ts:26-33 | a long enough password sent twice is accepted |
| UserService.ApplyProfile | src/user/user.service.ts:259-285 | the supplied non-null profile fields replace the old ones and nothing else changes |
| UserService.Create | src/user/user.service.ts:26-232 | a failed mail is BadRequest before saving; a taken email violates the unique index; otherwise one new unverified user with the requested role or `user`, a bcrypt hash matching the password and a one-hour verification token |
| UserService.NewUser | src/user/user.service.ts:26-41 | the saved row: the dto's name and email, the requested role or `user`, a hash only the given password verifies against, unverified with the fresh token expiring one hour from now, no reset token |
| UserService.FindOne | src/user/user.service.ts:242-245 | finds the user with that email exactly when there is one, and emails are unique |
| UserService.UpdateMyProfile | src/user/user.service.ts:259-285 | unknown user is BadRequest; a new, non-empty email held by another account is Conflict; an empty email another account holds fails at the unique index (500); a field sent as an explicit null (the validators skip null, the email check treats it as falsy) fails at the NOT NULL column (500) unless the Conflict comes first; it succeeds exactly when no field is null and no other account would share the patched email, and then only that user row changes, by the patch |
| UserService.UpdatePassword | src/user/user.service.ts:287-309 | unknown email is BadRequest, a missing password a 500; otherwise exactly that row is replaced by PasswordReplaced: the new password verifies, the reset token and expiry are cleared and passwordChangedAt is now |
| UserService.PasswordReplaced | src/user/user.service.ts:292-304 | the new row only the new password verifies against, reset token and expiry cleared, passwordChangedAt now, every other field kept |
| UserService.UpdateResetToken | src/user/user.service.ts:311-329 | fails exactly for an unknown email; otherwise only the reset token and expiry of that user change |
| UserService.FindByResetToken | src/user/user.service.ts:331-342 | succeeds exactly when some user holds that token unexpired, and returns that user |
| UserService.FindByVerificationToken | src/user/user.service.ts:344-354 | succeeds exactly when some user holds that verification token unexpired |
| UserService.FindById | src/user/user.service.ts:375-379 | the row with that key, or None exactly when there is none |
| UserService.RemoveProfilePicture | src/user/user.service.ts:405-420 | NotFound exactly for a missing user or picture id; otherwise both picture fields become null and nothing else changes |
| AuthService.Signup | src/auth/auth.service.ts:25-34 | a taken email or failed mail is BadRequest with no row saved; otherwise exactly the new user is added |
| AuthService.VerifyEmail | src/auth/auth.service.ts:36-53 | a missing token is BadRequest; a live matching token verifies its user and clears the token; any other token fails without change |
| AuthService.ValidateUser | src/auth/auth.service.ts:55-70 | succeeds exactly when some user has that email and the password matches its hash; otherwise Unauthorized |
| AuthService.Login | src/auth/auth.service.ts:72-87 | an unverified user is Unauthorized; otherwise the JWT payload carries email, id and role |
| AuthService.PasswordChangeCheck | src/auth/auth.service.ts:89-121 | mismatched confirmation or an unchanged password is BadRequest; success needs the current password to match the stored hash |
| AuthService.UpdatePassword | src/auth/auth.service.ts:89-121 | unknown email is BadRequest; for the caller's row it succeeds exactly when PasswordChangeCheck passes with a new password, fails with that check's error otherwise (a 500 for a missing new password); on success only the caller's row is replaced by PasswordReplaced |
| AuthService.ForgotPassword | src/auth/auth.service.ts:123-169 | missing or unknown email is BadRequest; otherwise the SHA-256 of the token is stored with a ten-minute expiry, and cleared again when the mail fails |
| AuthService.ResetPassword | src/auth/auth.service.ts:171-198 | BadRequest without a live reset token or with a differing confirmation; succeeds whenever both hold, and then exactly the token holder's row is replaced by PasswordReplaced; when no other user holds that token it is gone from every row |
| AuthService.ResetPasswordTwice | src/auth/auth.service.ts:171-198 | when no other user holds the same hashed token, a second reset with it is BadRequest whatever the passwords and the time |
| NotificationService.UnreadOf | src/notification/notification.service.ts:92-97 | a user's unread notifications are among that user's notifications |
| NotificationService.NotifyUser | src/notification/notification.service.ts:21-37 | unknown user is NotFound and nothing changes; otherwise exactly one new row under the next key, and that user's unread count grows by one |
| NotificationService.ListUserNotifications | src/notification/notification.service.ts:84-89 | exactly the user's notifications, newest first, with their rows |
| NotificationService.UnreadCount | src/notification/notification.service.ts:92-97 | the number of unread notifications the user has, at most the inbox size |
| NotificationService.MarkAsRead | src/notification/notification.service.ts:100-107 | NotFound unless the notification is the user's; otherwise only that row becomes read; marking a read row changes nothing |
| NotificationService.MarkAllAsRead | src/notification/notification.service.ts:110-116 | afterwards the user has no unread notification |
| NotificationService.MarkAllReadClearsOnlyThatUser | src/notification/notification.service.ts:110-116 | marking all read empties the user's unread set, keeps the inbox and leaves every other user's unread set as it was |
| NotificationService.DeliveredStep | src/notification/notification.service.ts:119-134 | one more notifyUser keeps the "one new row per admin so far, no other change" invariant |
| NotificationService.NotifyAdmins | src/notification/notification.service.ts:119-134 | without findByRole nothing is sent; otherwise each admin gets exactly one new row with the title and message, and no earlier row changes |
| WasherService.GetWasherById | src/washer/washer.service.ts:134-142 | the washer profile of that user, NotFound exactly when it has none |
| WasherService.RegisterAsWasher | src/washer/washer.service.ts:43-75 | unknown user NotFound, existing profile BadRequest; otherwise one new pending profile for that user |
| WasherService.NewProfileStaysOneToOne | src/washer/washer.service.ts:43-75 | a new profile for a user without one keeps the one-to-one washer.user relation unique |
| WasherService.Decide | src/washer/washer.service.ts:79-131 | shared by approve and reject: NotFound without a profile; otherwise the KYC status and the user's role change, and one notification is added |
| WasherService.ApproveWasher | src/washer/washer.service.ts:79-104 | approved KYC, role washer, one notification; NotFound without a profile |
| WasherService.RejectWasherAsWritten | src/washer/washer.service.ts:108-131 | every call fails: NotFound without a profile, otherwise a 500 |
| WasherService.RejectWasher | src/washer/washer.service.ts:108-131 | rejected KYC, role back to user, one notification; NotFound without a profile |
| WasherService.Patched | src/washer/washer.service.ts:159-177 | the patch's location and availability replace the old ones, nothing else changes |
| WasherService.UpdateWasherProfile | src/washer/washer.service.ts:159-177 | NotFound exactly without a profile; otherwise only that profile changes, by the patch |
| WasherService.Round2 | src/washer/washer.service.ts:213 | two-decimal rounding stays within 0.005 and keeps non-negative values non-negative |
| WasherService.InsertByDistance | src/washer/washer.service.ts:231 | inserting keeps the multiset and the ascending distance order |
| WasherService.SortByDistance | src/washer/washer.service.ts:231 | the result is a permutation of the input, sorted by distance |
| WasherService.SortedCons | src/washer/washer.service.ts:231 | prepending an entry no farther than the rest keeps the order |
| WasherService.SameWashers | src/washer/washer.service.ts:231 | sorting changes neither the washers nor the entries present |
| WasherService.ScanSkip | src/washer/washer.service.ts:194-229 | skipping a washer that is not nearby keeps the scan invariant |
| WasherService.ScanAdd | src/washer/washer.service.ts:194-229 | adding a nearby washer's entry keeps the scan invariant |
| WasherService.ScanWashers | src/washer/washer.service.ts:185-227 | a 500 exactly when a kept washer has no user row; otherwise one correct entry per kept washer, exactly the kept washers, each once |
| WasherService.FindNearby | src/washer/washer.service.ts:179-232 | NotFound exactly when no approved, available washer with an active service lies within the radius; otherwise exactly those washers, each once and described correctly, sorted by distance |
| ServiceMenuService.NewService | src/service-menu/service-menu.service.ts:41-44 | the saved service belongs to the washer and is active only when the body says so |
| ServiceMenuService.CreateService | src/service-menu/service-menu.service.ts:25-53 | NotFound without a washer profile, BadRequest for a taken name; otherwise one new service owned by the caller's profile; unique names are kept |
| ServiceMenuService.CreateServiceAsWritten | src/service-menu/service-menu.service.ts:25-53 | every call fails; a valid one still stores exactly the one new owned service and then reports a 500; every other outcome leaves the services unchanged, and no notification is written |
| ServiceMenuService.ListServices | src/service-menu/service-menu.service.ts:56-63 | exactly the services whose washer is the user; NotFound when there are none |
| ServiceMenuService.GetService | src/service-menu/service-menu.service.ts:66-77 | an active service with that key, or any active one when the key is undefined; NotFound otherwise, so an undefined key is NotFound exactly when the active listing is empty |
| ServiceMenuService.ApplyServiceUpdate | src/service-menu/service-menu.service.ts:101-128 | the supplied fields replace the old ones; the owner never changes |
| ServiceMenuService.UpdateService | src/service-menu/service-menu.service.ts:101-128 | NotFound, 500 for a service without washer, Forbidden for another washer's; otherwise only that service changes |
| ServiceMenuService.DeleteService | src/service-menu/service-menu.service.ts:131-150 | NotFound or Forbidden unless the caller owns it; otherwise exactly that service is removed |
| ServiceMenuService.SetActiveStatus | src/service-menu/service-menu.service.ts:153-166 | NotFound or Forbidden unless owned; otherwise only isActive changes, and the active listing gains or loses exactly that service |
| ServiceMenuService.ListAllActiveServices | src/service-menu/service-menu.service.ts:169-187 | exactly the active services |
| CarService.NewCar | src/car/car.service.ts:24-47 | the saved car belongs to the caller, has the body's plate, type SEDAN and no picture |
| CarService.AddCar | src/car/car.service.ts:24-47 | unknown user NotFound, taken plate BadRequest; otherwise exactly one new car; plates stay unique |
| CarService.GetCarsByUser | src/car/car.service.ts:49-57 | exactly the user's cars; NotFound when there are none |
| CarService.GetCar | src/car/car.service.ts:60-70 | the car exactly when both key and owner match |
| CarService.ApplyCarUpdate | src/car/car.service.ts:73-97 | the supplied fields replace the old ones, nothing else changes |
| CarService.UpdateCar | src/car/car.service.ts:73-97 | NotFound unless owned; a new plate held by another car is BadRequest; resending the own plate succeeds; an empty duplicate plate fails at the unique index |
| CarService.DeleteCar | src/car/car.service.ts:100-107 | removes exactly the caller's car, NotFound otherwise |
| CarService.RemoveCarPicture | src/car/car.service.ts:136-151 | NotFound unless owned with a picture id; otherwise only the picture fields become null |
| TransactionService.ClassifyInitError | src/transaction/transaction.service.ts:132-169 | gateway 401 is Unauthorized, 400 BadRequest, 5xx and unanswered or non-HTTP errors 500 |
| TransactionService.NewTransaction | src/transaction/transaction.service.ts:174-197 | the saved row carries the gateway's reference, link, amount and date, the service key, status notPaid |
| TransactionService.InitializeTransaction | src/transaction/transaction.service.ts:47-198 | NotFound for an unknown user or an inactive or missing service, else the gateway is asked for the service price on the user's email; a thrown call is classified, status false is BadRequest, a reply without data a 500; a reply with status and data always succeeds, saving exactly one notPaid transaction and one notification; a failure changes no table |
| TransactionService.ApplyGatewayStatus | src/transaction/transaction.service.ts:257-270 | status becomes paid exactly when the gateway says success, notPaid otherwise; a gateway status that is present is stored, and an undefined one leaves the stored transactionStatus as it was (save skips undefined properties); nothing else changes |
| TransactionService.ApplyGatewayStatusIdempotent | src/transaction/transaction.service.ts:257-270 | applying the same gateway status twice is the same as once |
| TransactionService.FindByReference | src/transaction/transaction.service.ts:340-344 | finds a transaction exactly when one matches the reference |
| TransactionService.VerifyTransaction | src/transaction/transaction.service.ts:200-271 | NotFound exactly when no transaction matches; otherwise the matching row goes through `ApplyGatewayStatus` with the reply's status (a reply without `data.status` keeps the stored transactionStatus and sets notPaid), or nothing changes when the gateway call fails |
| TransactionService.TimingSafeEqual | src/transaction/transaction.service.ts:298-301 | throws (None) exactly on different lengths; otherwise equality |
| TransactionService.SignatureHeader | src/transaction/transaction.controller.ts:53-56 | a missing header becomes the string "undefined" |
| TransactionService.HandleWebhook | src/transaction/transaction.service.ts:273-334 | no data is false, missing secret NotFound, a bad signature false; true exactly with a valid signature and a matching transaction, which then goes through `ApplyGatewayStatus` with the event's status (an event without `data.status` keeps the stored transactionStatus and sets notPaid) |
| TransactionService.WebhookStatus | src/transaction/transaction.controller.ts:58-60 | 200 exactly for a handled event, 400 for a refused one, the exception's status otherwise |
| TransactionService.DeliverTwice | src/transaction/transaction.service.ts:273-334 | delivering the same event twice answers the same both times and leaves the state of one delivery |
| BookingService.StaysSingle | src/booking/booking.service.ts:90-269 | rewriting a booking without changing its car or newly activating it keeps one active booking per car |
| BookingService.InsertStaysSingle | src/booking/booking.service.ts:45-56 | inserting a booking for a car with no active booking keeps one active booking per car |
| BookingService.NewBooking | src/booking/booking.service.ts:63-74 | the new booking is the caller's, for the given car and service, assigned, payment none, no reference |
| BookingService.CreateBooking | src/booking/booking.service.ts:34-87 | NotFound for a car not the caller's or a service not offered, Conflict for a car with an active booking; otherwise exactly the new booking, readable by its owner, added to the user's history; both booking invariants kept |
| BookingService.BookTwice | src/booking/booking.service.ts:45-56 | booking the same car twice in a row: once the first succeeds, the second is a Conflict |
| BookingService.RespondCheck | src/booking/booking.service.ts:90-138 | a washer may respond exactly to an assigned booking of its own service; missing service 500, another washer Forbidden, any other status Conflict |
| BookingService.Respond | src/booking/booking.service.ts:90-138 | the shared accept/decline body: succeeds exactly when RespondCheck does, then only status and washerResponse change |
| BookingService.WasherAcceptBooking | src/booking/booking.service.ts:90-120 | own assigned booking becomes accepted; errors as RespondCheck; invariants kept |
| BookingService.WasherDeclineBooking | src/booking/booking.service.ts:123-138 | own assigned booking becomes declined; a service without washer is a 500; invariants kept |
| BookingService.CompleteBooking | src/booking/booking.service.ts:140-169 | the service's washer completes an accepted booking; any other status answers without change; invariants kept |
| BookingService.Approve | src/booking/booking.service.ts:171-198 | NotFound, Forbidden, nothing for a booking not completed, a 500 for a missing service row; the gateway is called whenever a service can be looked up; it approves exactly when the gateway accepts, adding exactly one transaction and one notification and recording the reference on the booking; gateway errors as initializeTransaction; a failure changes no table |
| BookingService.ApproveBookingAsWritten | src/booking/booking.service.ts:171-198 | as written the transaction is for whatever active service the lookup returns; approves exactly when the gateway accepts, with exactly one new transaction and one notification |
| BookingService.ApproveChargesAnotherService | src/booking/booking.service.ts:183-186 | a completed booking whose own service is inactive, while another service is active and the gateway accepts, is approved and charged for a different service |
| BookingService.ApproveBooking | src/booking/booking.service.ts:171-198 | as intended: the transaction is for the booking's own service, an inactive one is NotFound; approves exactly when the gateway accepts, with exactly one new transaction and one notification |
| BookingService.MarkPaid | src/booking/booking.service.ts:210-218 | status paid and payment authorized, nothing else changes |
| BookingService.VerifyPayment | src/booking/booking.service.ts:200-229 | NotFound exactly when no booking or no transaction has the reference; Unauthorized unless settled; otherwise only that booking is marked paid |
| BookingService.VerifyTwice | src/booking/booking.service.ts:200-229 | verifying the same reference twice answers the same and leaves the state of one verification |
| BookingService.SaveCancellation | src/booking/booking.service.ts:232-246 | NotFound, Forbidden, Conflict outside assigned/accepted; otherwise only that booking becomes cancelled |
| BookingService.CancelBookingAsWritten | src/booking/booking.service.ts:232-269 | every call fails; an allowed one saves the cancellation and then reports a 500 |
| BookingService.CancelBooking | src/booking/booking.service.ts:232-269 | as intended: the cancellation is saved and the service's washer, if any, gets one notification naming the car model or "car" |
| BookingService.NotifyCancellation | src/booking/booking.service.ts:248-258 | one new notification for the service's washer user when there is one, none otherwise |
| BookingService.CancelMessage | src/booking/booking.service.ts:256 | the washer's message starts "Booking for ", then the car model, " on " and the scheduled time text (the stored string, not a JavaScript Date rendering), then the fixed closing words |
| BookingService.GetBookingById | src/booking/booking.service.ts:380-410 | NotFound for a missing booking; readable exactly by an admin, its user, or its service's washer; Forbidden otherwise |
| BookingService.AssignWasher | src/booking/booking.service.ts:564-597 | NotFound for a missing booking or washer profile, BadRequest unless approved and available, a 500 when the booking's service row is gone; success exactly otherwise, and the save changes no table |
| BookingService.WithStatus | src/booking/booking.service.ts:653-771 | the bookings of a set that have a given status form a subset of it |
| BookingService.StatusCounts | src/booking/booking.service.ts:653-771 | two distinct statuses never count more bookings than there are |
| BookingService.BookingAnalytics | src/booking/booking.service.ts:641-771 | BadRequest exactly without a role; per role, each count is the number of that party's bookings in that status, and totals bound the parts |
| BookingService.Ceil | src/booking/booking.service.ts:374 | Math.ceil: the least integer not below x |
| BookingService.TotalPages | src/booking/booking.service.ts:374 | limit 0 gives NaN or Infinity as JavaScript does; otherwise ceil(total / limit) |
| BookingService.PageCount | src/booking/booking.service.ts:374 | with limit ≥ 1 the page count p is the least with p·limit ≥ total |
| BookingService.RowOnExactlyOnePage | src/booking/booking.service.ts:347-374 | with skip = (page − 1)·limit, each row lies on exactly one page, and that page is within totalPages |
| BookingService.Paginate | src/booking/booking.service.ts:366-376 | total is the number of matches and totalPages is derived from it |
| BookingService.WasherBookings | src/booking/booking.service.ts:338-377 | exactly the bookings of the washer's services, filtered by status when one is given |
| BookingService.WasherBookingsByStatus | src/booking/booking.service.ts:338-362 | the washer's listing is all of the washer's bookings without a status or with an empty one, exactly those in one status for its name, and nothing for any other text |
| BookingService.BookingHistory | src/booking/booking.service.ts:600-638 | exactly the user's bookings, filtered by status when one is given |
| BookingService.BookingHistoryByStatus | src/booking/booking.service.ts:600-622 | the history is all of the user's bookings without a status or with an empty one, exactly those in one status for its name, and nothing for any other text |
| BookingService.HistoryAfterInsert | src/booking/booking.service.ts:62-87 | a saved booking joins its user's unfiltered history and its own status's listing, and nothing else joins |
| BookingService.StatusFilter | src/booking/booking.service.ts:358-360 | no status or an empty one keeps every booking; a status's name keeps exactly the bookings in that status; any other text keeps none |
| BookingService.StatusNameInjective | src/booking/booking.service.ts:358-360 | no two statuses have the same name and none is empty, so a status filter picks exactly one status |
| BookingService.SearchBookings | src/booking/booking.service.ts:482-561 | exactly the bookings that pass every supplied filter |
| BookingService.SearchMatches | src/booking/booking.service.ts:510-535 | a match passes the status filter, belongs to the given user and to the given washer's service; a named payment status matches nothing; a query without filters matches every booking |
| BookingService.SearchByPaymentStatusFindsNothing | src/booking/booking.service.ts:517-521 | a search naming a validated payment status finds no booking |
| BookingService.SearchPagesAreFinite | src/booking/booking.service.ts:550 | a validated search never yields an infinite page count |
| ReviewService.CountIsCardinality | src/review/review.service.ts:243-270 | the running count equals the number of the washer's reviews below the bound |
| ReviewService.CountIsReviewsOf | src/review/review.service.ts:243-270 | counting to the serial bound counts all the washer's reviews |
| ReviewService.AgreeingReviews | src/review/review.service.ts:243-270 | tables that agree on the washer's reviews give the same count and sum |
| ReviewService.PastTheKeys | src/review/review.service.ts:243-270 | raising the bound past every key changes neither count nor sum |
| ReviewService.Rated | src/review/review.service.ts:243-270 | the recomputed washer has the review count and the rounded mean, nothing else changed |
| ReviewService.OthersStayAccurate | src/review/review.service.ts:243-270 | changing one washer's reviews keeps every other washer's aggregate accurate |
| ReviewService.SumBounds | src/review/review.service.ts:253-266 | with ratings in 1..5, the sum lies between the count and five times it |
| ReviewService.Round2Within | src/review/review.service.ts:265 | rounding a value in [1, 5] keeps it in [1, 5] |
| ReviewService.MeanWithin | src/review/review.service.ts:265 | the mean of ratings in 1..5 lies in [1, 5] |
| ReviewService.AverageInRange | src/review/review.service.ts:253-266 | the stored average is 0 without reviews and in [1, 5] otherwise |
| ReviewService.UpdateWasherRating | src/review/review.service.ts:243-270 | NotFound for a missing washer; otherwise its count and average are those of its reviews and every other washer stays accurate |
| ReviewService.ServiceWasherKey | src/review/review.service.ts:63-65 | the washer row the booking's service leads to, or None exactly when there is none |
| ReviewService.CreateReview | src/review/review.service.ts:26-84 | errors in the code's order; Ok exactly when the paid booking is the caller's, unreviewed and has a washer; then one new review, the washers table changes only in that washer's row, which becomes `Rated` over the new reviews, so its count grows by one, and both review invariants are kept |
| ReviewService.SaveReview | src/review/review.service.ts:67-80 | inserts the review under a fresh key; the washers table afterwards is the old one with only the review's washer replaced by its recomputed row (`Rated`) |
| ReviewService.InsertReview | src/review/review.service.ts:67-75 | a stored review joins its washer's reviews, one more of them, and no other washer's reviews change |
| ReviewService.Patched | src/review/review.service.ts:205-211 | the supplied rating and comment replace the old ones, nothing else changes |
| ReviewService.UpdateReviewAsWritten | src/review/review.service.ts:188-220 | every call fails: NotFound for a missing review, a 500 otherwise |
| ReviewService.UpdateReview | src/review/review.service.ts:188-220 | as intended: NotFound, BadRequest for another user's review; otherwise the patch is saved, and the washers table changes only in the review's washer, whose row becomes `Rated` over the new reviews |
| ReviewService.DeleteReviewAsWritten | src/review/review.service.ts:222-241 | every call fails: NotFound for a missing review, a 500 otherwise; nothing is removed |
| ReviewService.DeleteReview | src/review/review.service.ts:222-241 | as intended: exactly that review is removed; the washers table changes only in the review's washer, whose row becomes `Rated` over the remaining reviews, so its count drops by one; invariants kept |
| ReviewService.CanUserReviewBookingNeverHolds | src/review/review.service.ts:272-304 | the check as written (completed and authorized) never holds while paid means authorized; the copy in src/booking/booking.service.ts:715-747 asks the same |
| ReviewService.CanUserReviewBooking | src/review/review.service.ts:272-304 | as written: holds only for the caller's own unreviewed booking, and never while paid means authorized |
| ReviewService.CanUserReviewBookingIntended | src/review/review.service.ts:272-304 | as intended: the caller's own unreviewed booking that is paid, which the as-written test never accepts at the same time; while paid means authorized every such booking qualifies |
| ReviewService.ReviewableIsAccepted | src/review/review.service.ts:272-304 | the intended check agrees with createReview: every accepted review was reviewable, and a reviewable booking with a washer is accepted |

## Left out

- Controllers, modules, `main.ts` and interceptors are not modelled. The one exception is the webhook 400 rule (`TransactionService.WebhookStatus`).
- Cloudinary uploads, mail sending and Firebase push (`sendPush`) are external I/O and are not modelled. Whether a mail was sent is a parameter; pushes are dropped.
- `uploadCarPicture` and `updateProfilePicture` are not modelled: they consist of Cloudinary calls.
- `showCurrentUser`, `saveUser` and `deleteProfile` are not modelled: they are thin repository wrappers outside the booking and review flow.
- `getAllWasher`, `listAllServices`, `getAllBooking`, `getUserBooking` and `getBookingStats` are not modelled. They are admin listings whose content is ORM projection and ordering.
- `getReviewById`, `getReviewsByWasher` and `getReviewsByUser` are not modelled: they only project rows into response DTOs.
- `findMany` on transactions is not modelled: it returns the table unchanged.
- Rows that a page returns and their ORDER BY are not modelled. For listings and searches the model states which bookings match, the total and the pagination arithmetic.
- Revenue and rate figures in the analytics are not modelled. Only the booking counts are.
- The distance function (`getDistance`) and the database's timestamp BETWEEN are parameters.
- Foreign-key constraints between tables are not enforced. Operations cope with dangling keys as the code does: NotFound, or a 500 on a null relation.
- Requests are not concurrent in this model. Each operation runs alone.
- Primary keys come from one counter shared by all tables, not from one serial per table. Contracts that name the next key (a new transaction, then its notification) speak of that counter.
- ISO 8601 and date-string checks accept a simplified form: `YYYY-MM-DD` with an optional time part.
- The PaymentStatus enum and the Paystack constants come from files that are not part of this model (`paystack.dto.ts`, `constants.ts`). They are taken as `{paid, notPaid}` and `"success"`.
- The Booking entity has no `review` property, and the Washer entity has no `averageRating`, `totalReviews` or `reviews`. The services use them anyway, and the model assumes they exist. It reads `booking.review` (src/review/review.service.ts:60, :299; src/booking/booking.service.ts:742) as "some review row names this booking" (`ReviewService.HasReview`), the one-to-one reading. Under a one-to-many inverse the property would be an array, and an empty array is truthy in JavaScript, so every booking would count as reviewed; the model does not take that reading.
- `JSON.stringify(dto)` in the webhook is the parameter `WebhookDto.json`.
- A page or limit query string that parses to NaN is not modelled.
- A non-string status in a search query is not modelled.
- A booking whose user or car row has been deleted is not modelled.
- `WasherService.Round2`: `toFixed(2)` is modelled as round-half-up on real numbers, not on binary floating point.
- `ReviewService.UpdateReview`: the body is typed `Partial<CreateReviewDto>`, which no validator checks. The model takes any integer rating, so `RatingsInRange` is not promised after an update. Non-integer ratings are not modelled.
- `TransactionService.ApplyGatewayStatus`: a gateway status sent as an explicit JSON `null` is not told apart from an absent one. TypeORM would write that null to the column, while the model keeps the stored transactionStatus for both.
- `BookingService.CancelMessage`: the time in the washer's message is the booking's scheduledTime string as the request sent it. In the source, `scheduledTime` is a `Date` column, and the template prints `Date.prototype.toString()` (for example "Wed Oct 14 2026 10:00:00 GMT+0000 (…)"). That date text form is not modelled.
- `ServiceMenuService.CreateService`: the admin message is abbreviated to "Washer created service: " and the service name. The washer's user name and the price text are left out, because JavaScript number formatting is not modelled.
- `NotificationService.NotifyUser`: the notification type the caller passes is dropped, as the code drops it. The row gets the column default.

## Findings

| source | as written | input that shows it | evidently intended | confidence | as-written member | corrected member |
|---|---|---|---|---|---|---|
| src/washer/washer.service.ts:108-131 | the profile is loaded without its `user` relation, then `washer.user.id` is read | any user who has a washer profile | reject the KYC, reset the role to user, notify | high, not executed | WasherService.RejectWasherAsWritten | WasherService.RejectWasher |
| src/service-menu/service-menu.service.ts:25-53 | `getWasherById` loads only `services`, yet `washer.user.name` builds the admin message after the save | a washer creating a service with a new name | store the service and notify the admins | high, not executed | ServiceMenuService.CreateServiceAsWritten | ServiceMenuService.CreateService |
| src/booking/booking.service.ts:232-269 | the booking is loaded with `user` only, and `booking.service.washer.user.id` is read after the save | the owner cancelling an assigned booking | save the cancellation and notify the washer and the admins | high, not executed | BookingService.CancelBookingAsWritten | BookingService.CancelBooking |
| src/booking/booking.service.ts:183-186 | `initializeTransaction(userId, booking.service.id)` passes a number where a dto is expected, so `dto.serviceId` is undefined and the lookup returns any active service | a completed booking whose own service is inactive while another is active | charge for the booking's own service, NotFound if it is inactive | medium, not executed | BookingService.ApproveChargesAnotherService | BookingService.ApproveBooking |
| src/review/review.service.ts:188-220 | loaded with `washer` only, then `review.user.id` is read | editing any existing review | check ownership, save the patch, recompute the rating | high, not executed | ReviewService.UpdateReviewAsWritten | ReviewService.UpdateReview |
| src/review/review.service.ts:222-241 | loaded with `washer` only, then `review.user.id` is read | deleting any existing review | check ownership, remove it, recompute the rating | high, not executed | ReviewService.DeleteReviewAsWritten | ReviewService.DeleteReview |
| src/review/review.service.ts:272-304 | asks for status `completed` with payment `authorized`, but verifyPayment sets both `paid` and `authorized` together | a paid booking that createReview accepts | the same condition as createReview: `paid` and `authorized`, not yet reviewed | high, not executed | ReviewService.CanUserReviewBookingNeverHolds | ReviewService.ReviewableIsAccepted |
