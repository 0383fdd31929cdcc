/** BookingService: the booking lifecycle (create, washer accept / decline /
    complete, user approve, payment verification, cancel), the read
    authorization of a single booking, the admin assign call, the dashboard
    counts and the pagination arithmetic of the listings.

    Two invariants of the bookings table are kept by every transition:
    no car has two active bookings (OneActivePerCar), and a booking is `paid`
    exactly when its payment is `authorized` (PaymentConsistent). */
module BookingService {
  import opened Wrappers
  import opened Entities
  import opened Store
  import CV = ClassValidator
  import CS = CarService
  import SMS = ServiceMenuService
  import TS = TransactionService
  import NS = NotificationService
  import WS = WasherService
  import DTO = CreateBookingDto
  import SDTO = SearchBookingsDto
  import Sets

  // ---------------------------------------------------------------------
  // Invariants of the bookings table

  /** The statuses in which a car counts as booked. */
  const ActiveStatuses: set<BookingStatus> := {Pending, Assigned, Accepted, InProgress}

  /** The statuses from which a user may cancel. */
  const CancellableStatuses: set<BookingStatus> := {Assigned, Accepted}

  predicate Active(b: Booking) {
    b.status in ActiveStatuses
  }

  predicate HasActiveBooking(bookings: map<Id, Booking>, carId: Id) {
    exists k :: k in bookings && bookings[k].car == carId && Active(bookings[k])
  }

  /** The double-booking guard's purpose: at most one active booking per car. */
  predicate OneActivePerCar(bookings: map<Id, Booking>) {
    forall a, b :: (&& a in bookings && b in bookings && a != b && bookings[a].car == bookings[b].car
                    && Active(bookings[a])) ==> !Active(bookings[b])
  }

  /** `paid` and `authorized` are only ever set together. */
  predicate PaymentConsistent(bookings: map<Id, Booking>) {
    forall k :: k in bookings ==> (bookings[k].status == Paid <==> bookings[k].paymentStatus == Authorized)
  }

  /** Rewriting one booking without making it active, or keeping an active
      booking on the same car, keeps one active booking per car. */
  lemma StaysSingle(bookings: map<Id, Booking>, k: Id, v: Booking)
    requires OneActivePerCar(bookings) && k in bookings
    requires v.car == bookings[k].car
    requires Active(v) ==> Active(bookings[k])
    ensures OneActivePerCar(bookings[k := v])
  {
    var m := bookings[k := v];
    forall a, b | a in m && b in m && a != b && m[a].car == m[b].car && Active(m[a])
      ensures !Active(m[b])
    {
      assert Active(bookings[a]);
    }
  }

  /** Inserting an active booking on a car that had none keeps the invariant. */
  lemma InsertStaysSingle(bookings: map<Id, Booking>, k: Id, v: Booking)
    requires OneActivePerCar(bookings) && k !in bookings
    requires !HasActiveBooking(bookings, v.car)
    ensures OneActivePerCar(bookings[k := v])
  {
    var m := bookings[k := v];
    assert forall a :: a in m && a != k ==> m[a] == bookings[a];
  }

  // ---------------------------------------------------------------------
  // createBooking

  /** The row createBooking saves: owned by the caller, `assigned`, payment
      `none`, no washer response and no payment reference yet. */
  function NewBooking(userId: Id, dto: DTO.CreateBooking): (b: Booking)
    ensures b.user == userId && b.car == dto.carId && b.service == dto.serviceId
    ensures b.status == Assigned && b.paymentStatus == PayNone
    ensures b.washerResponse == None && b.paymentReference == None
  {
    Booking(userId, dto.carId, dto.serviceId, dto.scheduledTime, dto.latitude, dto.longitude,
            Assigned, PayNone, None, None)
  }

  /** createBooking: NotFound unless the caller owns the car, NotFound unless
      the service exists and is active, Conflict when the car already has a
      pending, assigned, accepted or in-progress booking; otherwise one new
      `assigned` booking. The service is loaded without its washer's user, so
      the washer notification is never sent. */
  method CreateBooking(db: Database, userId: Id, dto: DTO.CreateBooking) returns (r: Result<Id>)
    requires db.Valid()
    modifies db`bookings, db`nextId
    ensures db.Valid()
    ensures !CS.Owns(db.cars, dto.carId, userId) ==> r == Fail(NotFound)
    ensures !SMS.Offered(db.services, dto.serviceId) ==> r == Fail(NotFound)
    ensures (&& CS.Owns(db.cars, dto.carId, userId) && SMS.Offered(db.services, dto.serviceId)
             && HasActiveBooking(old(db.bookings), dto.carId)) ==> r == Fail(Conflict)
    ensures r.Ok? <==> (&& CS.Owns(db.cars, dto.carId, userId) && SMS.Offered(db.services, dto.serviceId)
                        && !HasActiveBooking(old(db.bookings), dto.carId))
    ensures r.Fail? ==> db.bookings == old(db.bookings)
    ensures r.Ok? ==> r.value !in old(db.bookings)
    ensures r.Ok? ==> db.bookings == old(db.bookings)[r.value := NewBooking(userId, dto)]
    ensures r.Ok? ==> HasActiveBooking(db.bookings, dto.carId)
    ensures r.Ok? ==> GetBookingById(db, r.value, RoleUser, userId) == Ok(NewBooking(userId, dto))
    ensures r.Ok? ==> BookingHistory(db, userId, None) == old(BookingHistory(db, userId, None)) + {r.value}
    ensures r.Ok? ==> r.value in BookingHistory(db, userId, Some(StatusName(Assigned)))
    ensures OneActivePerCar(old(db.bookings)) ==> OneActivePerCar(db.bookings)
    ensures PaymentConsistent(old(db.bookings)) ==> PaymentConsistent(db.bookings)
  {
    var car := CS.GetCar(db, dto.carId, userId);
    if car.Fail? {
      return Fail(NotFound);
    }
    var service := SMS.GetService(db, Some(dto.serviceId));
    if service.Fail? {
      return Fail(NotFound);
    }
    if k :| k in db.bookings && db.bookings[k].car == dto.carId && db.bookings[k].status in ActiveStatuses {
      assert Active(db.bookings[k]);
      return Fail(Conflict);
    }
    var id := SaveBooking(db, userId, dto);
    r := Ok(id);
  }

  /** The save of createBooking, for a car without an active booking. */
  method SaveBooking(db: Database, userId: Id, dto: DTO.CreateBooking) returns (id: Id)
    requires db.Valid() && !HasActiveBooking(db.bookings, dto.carId)
    modifies db`bookings, db`nextId
    ensures db.Valid()
    ensures id !in old(db.bookings) && db.bookings == old(db.bookings)[id := NewBooking(userId, dto)]
    ensures HasActiveBooking(db.bookings, dto.carId)
    ensures BookingHistory(db, userId, None) == old(BookingHistory(db, userId, None)) + {id}
    ensures id in BookingHistory(db, userId, Some(StatusName(Assigned)))
    ensures OneActivePerCar(old(db.bookings)) ==> OneActivePerCar(db.bookings)
    ensures PaymentConsistent(old(db.bookings)) ==> PaymentConsistent(db.bookings)
  {
    ghost var history := BookingHistory(db, userId, None);
    id := db.NewId();
    ghost var before := db.bookings;
    var b := NewBooking(userId, dto);
    if OneActivePerCar(before) {
      InsertStaysSingle(before, id, b);
    }
    db.bookings := db.bookings[id := b];
    assert db.bookings[id].car == dto.carId && Active(db.bookings[id]);
    HistoryAfterInsert(db, before, id, b, history);
  }

  /** A booking added to the table joins its user's unfiltered history and
      no other booking does. */
  lemma HistoryAfterInsert(db: Database, before: map<Id, Booking>, k: Id, b: Booking, history: set<Id>)
    requires k !in before && db.bookings == before[k := b]
    requires history == set j | j in before && before[j].user == b.user
    ensures BookingHistory(db, b.user, None) == history + {k}
    ensures k in BookingHistory(db, b.user, Some(StatusName(b.status)))
  {
  }

  /** Booking the same car again while the first booking is active conflicts. */
  method BookTwice(db: Database, userId: Id, dto: DTO.CreateBooking) returns (first: Result<Id>, second: Result<Id>)
    requires db.Valid()
    modifies db`bookings, db`nextId
    ensures first.Ok? ==> second == Fail(Conflict)
  {
    first := CreateBooking(db, userId, dto);
    second := CreateBooking(db, userId, dto);
  }

  // ---------------------------------------------------------------------
  // Washer transitions

  /** The result of accept and decline on a loaded booking, in the order the
      checks are made. `washerGuard` is accept's null check on
      `booking.service.washer`; decline has none, so there a missing washer
      is a TypeError. */
  function RespondCheck(link: WasherLink, status: BookingStatus, washerUserId: Id, washerGuard: bool): (r: Result<()>)
    ensures link.NoService? ==> r == Fail(InternalServerError)
    ensures link.NoWasher? ==> r == Fail(if washerGuard then Conflict else InternalServerError)
    ensures link.WasherUser? && link.userId != washerUserId ==> r == Fail(Forbidden)
    ensures link == WasherUser(washerUserId) && status != Assigned ==> r == Fail(Conflict)
    ensures r.Ok? <==> link == WasherUser(washerUserId) && status == Assigned
  {
    match link
    case NoService => Fail(InternalServerError)
    case NoWasher => if washerGuard then Fail(Conflict) else Fail(InternalServerError)
    case WasherUser(u) =>
      if u != washerUserId then Fail(Forbidden)
      else if status != Assigned then Fail(Conflict)
      else Ok(())
  }

  /** The shared body of accept and decline. */
  method Respond(db: Database, bookingId: Id, washerUserId: Id, washerGuard: bool,
                 status: BookingStatus, response: WasherResponse) returns (r: Result<Booking>)
    requires db.Valid()
    requires status !in ActiveStatuses || status == Accepted
    requires status != Paid
    modifies db`bookings
    ensures db.Valid()
    ensures bookingId !in old(db.bookings) ==> r == Fail(NotFound)
    ensures bookingId in old(db.bookings) ==>
              var check := RespondCheck(db.ServiceWasher(old(db.bookings)[bookingId].service),
                                        old(db.bookings)[bookingId].status, washerUserId, washerGuard);
              check.Fail? ==> r == Fail(check.err)
    ensures r.Ok? <==> && bookingId in old(db.bookings)
                       && RespondCheck(db.ServiceWasher(old(db.bookings)[bookingId].service),
                                       old(db.bookings)[bookingId].status, washerUserId, washerGuard).Ok?
    ensures r.Fail? ==> db.bookings == old(db.bookings)
    ensures r.Ok? ==> r.value == old(db.bookings)[bookingId].(status := status, washerResponse := Some(response))
    ensures r.Ok? ==> db.bookings == old(db.bookings)[bookingId := r.value]
    ensures OneActivePerCar(old(db.bookings)) ==> OneActivePerCar(db.bookings)
    ensures PaymentConsistent(old(db.bookings)) ==> PaymentConsistent(db.bookings)
  {
    if bookingId !in db.bookings {
      return Fail(NotFound);
    }
    var b := db.bookings[bookingId];
    var check := RespondCheck(db.ServiceWasher(b.service), b.status, washerUserId, washerGuard);
    if check.Fail? {
      return Fail(check.err);
    }
    var v := b.(status := status, washerResponse := Some(response));
    if OneActivePerCar(db.bookings) {
      StaysSingle(db.bookings, bookingId, v);
    }
    db.bookings := db.bookings[bookingId := v];
    r := Ok(v);
  }

  /** washerAcceptBooking: NotFound, then Conflict for a service without a
      washer, Forbidden for another washer, Conflict unless `assigned`;
      otherwise `accepted` with response ACCEPTED. The booking's user is not
      loaded, so no notification is sent. */
  method WasherAcceptBooking(db: Database, bookingId: Id, washerUserId: Id) returns (r: Result<Booking>)
    requires db.Valid()
    modifies db`bookings
    ensures db.Valid()
    ensures bookingId !in old(db.bookings) ==> r == Fail(NotFound)
    ensures bookingId in old(db.bookings) ==>
              var check := RespondCheck(db.ServiceWasher(old(db.bookings)[bookingId].service),
                                        old(db.bookings)[bookingId].status, washerUserId, true);
              check.Fail? ==> r == Fail(check.err)
    ensures r.Ok? <==> && bookingId in old(db.bookings)
                       && db.ServiceWasher(old(db.bookings)[bookingId].service) == WasherUser(washerUserId)
                       && old(db.bookings)[bookingId].status == Assigned
    ensures r.Fail? ==> db.bookings == old(db.bookings)
    ensures r.Ok? ==> r.value == old(db.bookings)[bookingId].(status := Accepted, washerResponse := Some(ResponseAccepted))
    ensures r.Ok? ==> db.bookings == old(db.bookings)[bookingId := r.value]
    ensures OneActivePerCar(old(db.bookings)) ==> OneActivePerCar(db.bookings)
    ensures PaymentConsistent(old(db.bookings)) ==> PaymentConsistent(db.bookings)
  {
    r := Respond(db, bookingId, washerUserId, true, Accepted, ResponseAccepted);
  }

  /** washerDeclineBooking: as accept, but with no null check on the washer,
      so a service without one fails with a TypeError (a 500) rather than a
      Conflict; on success `declined` with response DECLINED. */
  method WasherDeclineBooking(db: Database, bookingId: Id, washerUserId: Id) returns (r: Result<Booking>)
    requires db.Valid()
    modifies db`bookings
    ensures db.Valid()
    ensures bookingId !in old(db.bookings) ==> r == Fail(NotFound)
    ensures bookingId in old(db.bookings) ==>
              var check := RespondCheck(db.ServiceWasher(old(db.bookings)[bookingId].service),
                                        old(db.bookings)[bookingId].status, washerUserId, false);
              check.Fail? ==> r == Fail(check.err)
    ensures bookingId in old(db.bookings) && db.ServiceWasher(old(db.bookings)[bookingId].service).NoWasher? ==>
              r == Fail(InternalServerError)
    ensures r.Ok? <==> && bookingId in old(db.bookings)
                       && db.ServiceWasher(old(db.bookings)[bookingId].service) == WasherUser(washerUserId)
                       && old(db.bookings)[bookingId].status == Assigned
    ensures r.Fail? ==> db.bookings == old(db.bookings)
    ensures r.Ok? ==> r.value == old(db.bookings)[bookingId].(status := Declined, washerResponse := Some(ResponseDeclined))
    ensures r.Ok? ==> db.bookings == old(db.bookings)[bookingId := r.value]
    ensures OneActivePerCar(old(db.bookings)) ==> OneActivePerCar(db.bookings)
    ensures PaymentConsistent(old(db.bookings)) ==> PaymentConsistent(db.bookings)
  {
    r := Respond(db, bookingId, washerUserId, false, Declined, ResponseDeclined);
  }

  /** What completeBooking answers when it changes something, and when not. */
  datatype CompleteOutcome = CompletedBooking(booking: Booking) | NotCompletable

  /** completeBooking: NotFound, Conflict for a service without a washer,
      Forbidden for another washer; an `accepted` booking becomes
      `completed`; from any other status the call answers with a message and
      changes nothing. */
  method CompleteBooking(db: Database, bookingId: Id, washerUserId: Id) returns (r: Result<CompleteOutcome>)
    requires db.Valid()
    modifies db`bookings
    ensures db.Valid()
    ensures bookingId !in old(db.bookings) ==> r == Fail(NotFound)
    ensures bookingId in old(db.bookings) ==> var link := db.ServiceWasher(old(db.bookings)[bookingId].service);
              && (link.NoService? ==> r == Fail(InternalServerError))
              && (link.NoWasher? ==> r == Fail(Conflict))
              && (link.WasherUser? && link.userId != washerUserId ==> r == Fail(Forbidden))
    ensures r.Ok? <==> bookingId in old(db.bookings)
                       && db.ServiceWasher(old(db.bookings)[bookingId].service) == WasherUser(washerUserId)
    ensures r.Ok? && old(db.bookings)[bookingId].status == Accepted ==>
              && r.value == CompletedBooking(old(db.bookings)[bookingId].(status := Completed))
              && db.bookings == old(db.bookings)[bookingId := r.value.booking]
    ensures r.Ok? && old(db.bookings)[bookingId].status != Accepted ==> r.value == NotCompletable
    ensures r.Fail? || r.value.NotCompletable? ==> db.bookings == old(db.bookings)
    ensures OneActivePerCar(old(db.bookings)) ==> OneActivePerCar(db.bookings)
    ensures PaymentConsistent(old(db.bookings)) ==> PaymentConsistent(db.bookings)
  {
    if bookingId !in db.bookings {
      return Fail(NotFound);
    }
    var b := db.bookings[bookingId];
    match db.ServiceWasher(b.service) {
      case NoService => r := Fail(InternalServerError);
      case NoWasher => r := Fail(Conflict);
      case WasherUser(u) =>
        if u != washerUserId {
          return Fail(Forbidden);
        }
        if b.status == Accepted {
          var v := b.(status := Completed);
          if OneActivePerCar(db.bookings) {
            StaysSingle(db.bookings, bookingId, v);
          }
          db.bookings := db.bookings[bookingId := v];
          r := Ok(CompletedBooking(v));
        } else {
          r := Ok(NotCompletable);
        }
    }
  }

  // ---------------------------------------------------------------------
  // approveBooking

  /** What approveBooking answers: the booking and its new transaction, or
      nothing at all (the method falls off its end). */
  datatype ApproveOutcome = Approved(booking: Booking, transaction: Id) | NothingToApprove

  /** The shared body of approveBooking. `passServiceId` says whether the
      booking's service key reaches initializeTransaction: as written it is
      passed where a dto is expected, so `dto.serviceId` is undefined. */
  method Approve(db: Database, bookingId: Id, userId: Id, passServiceId: bool, callbackUrl: Option<string>,
                 gateway: TS.InitRequest -> TS.Call<TS.InitReply>)
    returns (r: Result<ApproveOutcome>, ghost request: Option<TS.InitRequest>)
    requires db.Valid()
    modifies db`bookings, db`transactions, db`nextId, db`notifications
    ensures db.Valid()
    ensures bookingId !in old(db.bookings) ==> r == Fail(NotFound)
    ensures bookingId in old(db.bookings) && old(db.bookings)[bookingId].user != userId ==> r == Fail(Forbidden)
    ensures (&& bookingId in old(db.bookings) && old(db.bookings)[bookingId].user == userId
             && old(db.bookings)[bookingId].status != Completed) ==> r == Ok(NothingToApprove)
    ensures (&& passServiceId && bookingId in old(db.bookings) && old(db.bookings)[bookingId].user == userId
             && old(db.bookings)[bookingId].status == Completed
             && old(db.bookings)[bookingId].service in db.services
             && !SMS.Offered(db.services, old(db.bookings)[bookingId].service)) ==> r == Fail(NotFound)
    ensures (&& bookingId in old(db.bookings) && old(db.bookings)[bookingId].user == userId
             && old(db.bookings)[bookingId].status == Completed
             && old(db.bookings)[bookingId].service !in db.services) ==> r == Fail(InternalServerError)
    ensures (&& bookingId in old(db.bookings) && old(db.bookings)[bookingId].user == userId
             && old(db.bookings)[bookingId].status == Completed
             && old(db.bookings)[bookingId].service in db.services && userId in db.users
             && (passServiceId ==> SMS.Offered(db.services, old(db.bookings)[bookingId].service))
             && (!passServiceId ==> exists s :: SMS.Offered(db.services, s))) ==> request.Some?
    ensures request.Some? ==> && userId in db.users && SMS.Offered(db.services, request.value.serviceId)
                              && request.value.userId == userId && request.value.email == db.users[userId].email
                              && request.value.amount == db.services[request.value.serviceId].price
    ensures request.Some? ==> (r.Ok? && r.value.Approved? <==> TS.Accepts(gateway, request.value))
    ensures request.Some? && gateway(request.value).Threw? ==>
              r == Fail(TS.ClassifyInitError(gateway(request.value).failure))
    ensures request.Some? && gateway(request.value).Replied? && !gateway(request.value).reply.status ==>
              r == Fail(BadRequest)
    ensures (&& request.Some? && gateway(request.value).Replied? && gateway(request.value).reply.status
             && gateway(request.value).reply.data.None?) ==> r == Fail(InternalServerError)
    ensures r.Fail? || r.value.NothingToApprove? ==> db.bookings == old(db.bookings)
    ensures r.Fail? || r.value.NothingToApprove? ==> && db.transactions == old(db.transactions)
                                                     && db.notifications == old(db.notifications)
                                                     && db.nextId == old(db.nextId)
    ensures r.Ok? && r.value.Approved? ==>
              && request.Some? && TS.Accepts(gateway, request.value)
              && r.value.transaction == old(db.nextId) && db.nextId == old(db.nextId) + 2
              && db.transactions == old(db.transactions)[r.value.transaction :=
                   TS.NewTransaction(gateway(request.value).reply.data.value, request.value.serviceId)]
              && old(db.nextId) + 1 !in old(db.notifications)
              && db.notifications == old(db.notifications)[old(db.nextId) + 1 :=
                   NewNotification(userId, TS.InitializedTitle, TS.InitializedMessage)]
    ensures r.Ok? && r.value.Approved? ==>
              && bookingId in old(db.bookings)
              && old(db.bookings)[bookingId].user == userId
              && old(db.bookings)[bookingId].status == Completed
              && r.value.transaction !in old(db.transactions)
              && r.value.transaction in db.transactions
              && request.Some?
              && db.transactions[r.value.transaction].serviceId == request.value.serviceId
              && SMS.Offered(db.services, request.value.serviceId)
              && (passServiceId ==> request.value.serviceId == old(db.bookings)[bookingId].service)
              && r.value.booking == old(db.bookings)[bookingId].(
                   paymentReference := db.transactions[r.value.transaction].transactionReference)
              && db.bookings == old(db.bookings)[bookingId := r.value.booking]
    ensures OneActivePerCar(old(db.bookings)) ==> OneActivePerCar(db.bookings)
    ensures PaymentConsistent(old(db.bookings)) ==> PaymentConsistent(db.bookings)
  {
    request := None;
    if bookingId !in db.bookings {
      return Fail(NotFound), request;
    }
    var b := db.bookings[bookingId];
    if b.user != userId {
      return Fail(Forbidden), request;
    }
    if b.status != Completed {
      return Ok(NothingToApprove), request;
    }
    if b.service !in db.services {
      // booking.service is null: reading .id throws
      return Fail(InternalServerError), request;
    }
    var tx;
    tx, request := TS.InitializeTransaction(db, userId, if passServiceId then Some(b.service) else None,
                                            callbackUrl, gateway);
    if tx.Fail? {
      return Fail(tx.err), request;
    }
    var v := b.(paymentReference := db.transactions[tx.value].transactionReference);
    if OneActivePerCar(db.bookings) {
      StaysSingle(db.bookings, bookingId, v);
    }
    db.bookings := db.bookings[bookingId := v];
    r := Ok(Approved(v, tx.value));
  }

  /** approveBooking as written: the transaction is initialized for whatever
      active service the lookup with an undefined key returns, not for the
      booking's own service. */
  method ApproveBookingAsWritten(db: Database, bookingId: Id, userId: Id, callbackUrl: Option<string>,
                                 gateway: TS.InitRequest -> TS.Call<TS.InitReply>)
    returns (r: Result<ApproveOutcome>, ghost request: Option<TS.InitRequest>)
    requires db.Valid()
    modifies db`bookings, db`transactions, db`nextId, db`notifications
    ensures db.Valid()
    ensures bookingId !in old(db.bookings) ==> r == Fail(NotFound)
    ensures bookingId in old(db.bookings) && old(db.bookings)[bookingId].user != userId ==> r == Fail(Forbidden)
    ensures (&& bookingId in old(db.bookings) && old(db.bookings)[bookingId].user == userId
             && old(db.bookings)[bookingId].status != Completed) ==> r == Ok(NothingToApprove)
    ensures (&& bookingId in old(db.bookings) && old(db.bookings)[bookingId].user == userId
             && old(db.bookings)[bookingId].status == Completed
             && old(db.bookings)[bookingId].service in db.services && userId in db.users
             && exists s :: SMS.Offered(db.services, s)) ==> request.Some?
    ensures request.Some? ==> (r.Ok? && r.value.Approved? <==> TS.Accepts(gateway, request.value))
    ensures r.Fail? || r.value.NothingToApprove? ==> && db.bookings == old(db.bookings)
                                                     && db.transactions == old(db.transactions)
                                                     && db.notifications == old(db.notifications)
    ensures r.Ok? && r.value.Approved? ==>
              && request.Some? && SMS.Offered(db.services, request.value.serviceId)
              && db.transactions == old(db.transactions)[r.value.transaction :=
                   TS.NewTransaction(gateway(request.value).reply.data.value, request.value.serviceId)]
              && db.notifications == old(db.notifications)[old(db.nextId) + 1 :=
                   NewNotification(userId, TS.InitializedTitle, TS.InitializedMessage)]
              && r.value.booking == old(db.bookings)[bookingId].(
                   paymentReference := gateway(request.value).reply.data.value.reference)
              && db.bookings == old(db.bookings)[bookingId := r.value.booking]
    ensures OneActivePerCar(old(db.bookings)) ==> OneActivePerCar(db.bookings)
    ensures PaymentConsistent(old(db.bookings)) ==> PaymentConsistent(db.bookings)
  {
    r, request := Approve(db, bookingId, userId, false, callbackUrl, gateway);
  }

  /** A completed booking whose own service has since been deactivated is
      still approved, and the user is charged for another service. */
  method ApproveChargesAnotherService(db: Database, bookingId: Id, userId: Id, callbackUrl: Option<string>,
                                      gateway: TS.InitRequest -> TS.Call<TS.InitReply>)
    returns (r: Result<ApproveOutcome>, ghost request: Option<TS.InitRequest>)
    requires db.Valid()
    requires bookingId in db.bookings && db.bookings[bookingId].user == userId
    requires db.bookings[bookingId].status == Completed
    requires db.bookings[bookingId].service in db.services
    requires !db.services[db.bookings[bookingId].service].isActive
    requires userId in db.users && exists s :: SMS.Offered(db.services, s)
    requires forall req :: TS.Accepts(gateway, req)
    modifies db`bookings, db`transactions, db`nextId, db`notifications
    ensures r.Ok? && r.value.Approved?
    ensures r.value.transaction in db.transactions
    ensures db.transactions[r.value.transaction].serviceId != old(db.bookings)[bookingId].service
    ensures && bookingId in db.bookings
            && db.bookings[bookingId].paymentReference == db.transactions[r.value.transaction].transactionReference
  {
    r, request := ApproveBookingAsWritten(db, bookingId, userId, callbackUrl, gateway);
  }

  /** approveBooking as intended: the transaction is for the booking's own
      service, so an inactive or deleted service is a NotFound. */
  method ApproveBooking(db: Database, bookingId: Id, userId: Id, callbackUrl: Option<string>,
                        gateway: TS.InitRequest -> TS.Call<TS.InitReply>)
    returns (r: Result<ApproveOutcome>, ghost request: Option<TS.InitRequest>)
    requires db.Valid()
    modifies db`bookings, db`transactions, db`nextId, db`notifications
    ensures db.Valid()
    ensures bookingId !in old(db.bookings) ==> r == Fail(NotFound)
    ensures bookingId in old(db.bookings) && old(db.bookings)[bookingId].user != userId ==> r == Fail(Forbidden)
    ensures (&& bookingId in old(db.bookings) && old(db.bookings)[bookingId].user == userId
             && old(db.bookings)[bookingId].status != Completed) ==> r == Ok(NothingToApprove)
    ensures (&& bookingId in old(db.bookings) && old(db.bookings)[bookingId].user == userId
             && old(db.bookings)[bookingId].status == Completed
             && old(db.bookings)[bookingId].service in db.services
             && !SMS.Offered(db.services, old(db.bookings)[bookingId].service)) ==> r == Fail(NotFound)
    ensures (&& bookingId in old(db.bookings) && old(db.bookings)[bookingId].user == userId
             && old(db.bookings)[bookingId].status == Completed
             && old(db.bookings)[bookingId].service !in db.services) ==> r == Fail(InternalServerError)
    ensures (&& bookingId in old(db.bookings) && old(db.bookings)[bookingId].user == userId
             && old(db.bookings)[bookingId].status == Completed && userId in db.users
             && SMS.Offered(db.services, old(db.bookings)[bookingId].service)) ==> request.Some?
    ensures request.Some? ==> (r.Ok? && r.value.Approved? <==> TS.Accepts(gateway, request.value))
    ensures r.Fail? || r.value.NothingToApprove? ==> && db.bookings == old(db.bookings)
                                                     && db.transactions == old(db.transactions)
                                                     && db.notifications == old(db.notifications)
    ensures r.Ok? && r.value.Approved? ==>
              && bookingId in old(db.bookings) && request.Some?
              && request.value.serviceId == old(db.bookings)[bookingId].service
              && db.transactions == old(db.transactions)[r.value.transaction :=
                   TS.NewTransaction(gateway(request.value).reply.data.value, old(db.bookings)[bookingId].service)]
              && db.notifications == old(db.notifications)[old(db.nextId) + 1 :=
                   NewNotification(userId, TS.InitializedTitle, TS.InitializedMessage)]
              && r.value.booking == old(db.bookings)[bookingId].(
                   paymentReference := gateway(request.value).reply.data.value.reference)
              && db.bookings == old(db.bookings)[bookingId := r.value.booking]
    ensures OneActivePerCar(old(db.bookings)) ==> OneActivePerCar(db.bookings)
    ensures PaymentConsistent(old(db.bookings)) ==> PaymentConsistent(db.bookings)
  {
    r, request := Approve(db, bookingId, userId, true, callbackUrl, gateway);
  }

  // ---------------------------------------------------------------------
  // verifyPayment

  /** A booking the lookup `where: { paymentReference: ref }` can return; an
      undefined reference drops the condition. */
  predicate PaymentRefMatches(b: Booking, ref: Option<string>) {
    ref.None? || b.paymentReference == ref
  }

  predicate HasPaymentRef(bookings: map<Id, Booking>, ref: Option<string>) {
    exists k :: k in bookings && PaymentRefMatches(bookings[k], ref)
  }

  /** A transaction verifyPayment accepts. */
  predicate Settled(t: Transaction) {
    t.transactionStatus == Some(TS.SuccessStatus) && t.status == TxPaid
  }

  /** What a verified payment writes on the booking. */
  function MarkPaid(b: Booking): (v: Booking)
    ensures v.status == Paid && v.paymentStatus == Authorized
    ensures v.(status := b.status, paymentStatus := b.paymentStatus) == b
  {
    b.(paymentStatus := Authorized, status := Paid)
  }

  /** verifyPayment: NotFound when no booking carries the reference, then
      when no transaction does; a transaction that is `success` and `paid`
      makes the booking `paid` and `authorized`, whatever its status was
      (even `cancelled`); any other transaction is an Unauthorized. */
  method VerifyPayment(db: Database, ref: Option<string>) returns (r: Result<Id>)
    requires db.Valid()
    modifies db`bookings
    ensures db.Valid()
    ensures !HasPaymentRef(old(db.bookings), ref) ==> r == Fail(NotFound)
    ensures HasPaymentRef(old(db.bookings), ref) && !TS.HasRef(db.transactions, ref) ==> r == Fail(NotFound)
    ensures (&& HasPaymentRef(old(db.bookings), ref)
             && (forall t :: t in db.transactions && TS.RefMatches(db.transactions[t], ref) ==> Settled(db.transactions[t]))
             && TS.HasRef(db.transactions, ref)) ==> r.Ok?
    ensures (&& TS.HasRef(db.transactions, ref)
             && forall t :: t in db.transactions && TS.RefMatches(db.transactions[t], ref) ==> !Settled(db.transactions[t]))
            ==> r.Fail?
    ensures r.Fail? ==> r.err in {NotFound, Unauthorized} && db.bookings == old(db.bookings)
    ensures r == Fail(NotFound) <==> !HasPaymentRef(old(db.bookings), ref) || !TS.HasRef(db.transactions, ref)
    ensures r.Fail? && r.err == Unauthorized ==>
              exists t :: t in db.transactions && TS.RefMatches(db.transactions[t], ref) && !Settled(db.transactions[t])
    ensures r.Ok? ==> exists t :: t in db.transactions && TS.RefMatches(db.transactions[t], ref) && Settled(db.transactions[t])
    ensures r.Ok? ==> r.value in old(db.bookings) && PaymentRefMatches(old(db.bookings)[r.value], ref)
    ensures r.Ok? ==> db.bookings == old(db.bookings)[r.value := MarkPaid(old(db.bookings)[r.value])]
    ensures OneActivePerCar(old(db.bookings)) ==> OneActivePerCar(db.bookings)
    ensures PaymentConsistent(old(db.bookings)) ==> PaymentConsistent(db.bookings)
  {
    var found: Option<Id> := None;
    if k :| k in db.bookings && (ref.None? || db.bookings[k].paymentReference == ref) {
      found := Some(k);
    }
    if found.None? {
      return Fail(NotFound);
    }
    var k := found.value;
    var t := TS.FindByReference(db, ref);
    if t.None? {
      return Fail(NotFound);
    }
    var tx := db.transactions[t.value];
    if tx.transactionStatus == Some(TS.SuccessStatus) && tx.status == TxPaid {
      var v := MarkPaid(db.bookings[k]);
      if OneActivePerCar(db.bookings) {
        StaysSingle(db.bookings, k, v);
      }
      db.bookings := db.bookings[k := v];
      r := Ok(k);
    } else {
      r := Fail(Unauthorized);
    }
  }

  /** Verifying the same payment twice, when the reference picks a single
      booking and a single transaction, answers the same and leaves the state
      of one verification. */
  method VerifyTwice(db: Database, ref: Option<string>) returns (first: Result<Id>, second: Result<Id>)
    requires db.Valid()
    requires ref.Some?
    requires forall a, b :: (&& a in db.bookings && b in db.bookings
                             && db.bookings[a].paymentReference == ref && db.bookings[b].paymentReference == ref) ==> a == b
    requires forall a, b :: (&& a in db.transactions && b in db.transactions
                             && db.transactions[a].transactionReference == ref
                             && db.transactions[b].transactionReference == ref) ==> a == b
    modifies db`bookings
    ensures first == second
    ensures first.Ok? ==> first.value in old(db.bookings)
    ensures first.Ok? ==> db.bookings == old(db.bookings)[first.value := MarkPaid(old(db.bookings)[first.value])]
    ensures first.Fail? ==> db.bookings == old(db.bookings)
  {
    first := VerifyPayment(db, ref);
    ghost var mid := db.bookings;
    second := VerifyPayment(db, ref);
    if first.Ok? {
      var k := first.value;
      assert mid[k].paymentReference == old(db.bookings)[k].paymentReference;
      assert HasPaymentRef(mid, ref);
      assert second.Ok?;
      assert mid[second.value].paymentReference == ref;
      assert MarkPaid(mid[k]) == mid[k];
    }
  }

  // ---------------------------------------------------------------------
  // cancelBooking

  const CancelledTitle := "Booking Cancelled"

  /** The washer's message: the car's model (or "car") and the time. The time
      is the stored scheduledTime text; the ISO string stands for the Date
      column, whose rendering in a template is not modelled. */
  function CancelMessage(carModel: string, scheduledTime: string): (m: string)
    ensures |m| == |carModel| + |scheduledTime| + 43
    ensures m[..12] == "Booking for " && m[12..12 + |carModel|] == carModel
    ensures m[12 + |carModel|..16 + |carModel|] == " on "
    ensures m[16 + |carModel|..16 + |carModel| + |scheduledTime|] == scheduledTime
  {
    "Booking for " + carModel + " on " + scheduledTime + " was cancelled by the user."
  }

  /** The checks and the save of cancelBooking: NotFound, Forbidden for
      another user, Conflict unless `assigned` or `accepted`; otherwise the
      booking is saved as `cancelled`. */
  method SaveCancellation(db: Database, bookingId: Id, userId: Id) returns (r: Result<Booking>)
    requires db.Valid()
    modifies db`bookings
    ensures db.Valid()
    ensures bookingId !in old(db.bookings) ==> r == Fail(NotFound)
    ensures bookingId in old(db.bookings) && old(db.bookings)[bookingId].user != userId ==> r == Fail(Forbidden)
    ensures (&& bookingId in old(db.bookings) && old(db.bookings)[bookingId].user == userId
             && old(db.bookings)[bookingId].status !in CancellableStatuses) ==> r == Fail(Conflict)
    ensures r.Ok? <==> (&& bookingId in old(db.bookings) && old(db.bookings)[bookingId].user == userId
                        && old(db.bookings)[bookingId].status in CancellableStatuses)
    ensures r.Fail? ==> db.bookings == old(db.bookings)
    ensures r.Ok? ==> r.value == old(db.bookings)[bookingId].(status := Cancelled)
    ensures r.Ok? ==> db.bookings == old(db.bookings)[bookingId := r.value]
    ensures OneActivePerCar(old(db.bookings)) ==> OneActivePerCar(db.bookings)
    ensures PaymentConsistent(old(db.bookings)) ==> PaymentConsistent(db.bookings)
  {
    if bookingId !in db.bookings {
      return Fail(NotFound);
    }
    var b := db.bookings[bookingId];
    if b.user != userId {
      return Fail(Forbidden);
    }
    if b.status !in CancellableStatuses {
      return Fail(Conflict);
    }
    var v := b.(status := Cancelled);
    if OneActivePerCar(db.bookings) {
      StaysSingle(db.bookings, bookingId, v);
    }
    db.bookings := db.bookings[bookingId := v];
    r := Ok(v);
  }

  /** cancelBooking as written: the booking is loaded with its user only, so
      after the save `booking.service.washer` reads a property of undefined.
      Every cancellation that passes the checks is stored and answered with
      a 500. */
  method CancelBookingAsWritten(db: Database, bookingId: Id, userId: Id) returns (r: Result<Booking>)
    requires db.Valid()
    modifies db`bookings
    ensures db.Valid()
    ensures r.Fail?
    ensures bookingId !in old(db.bookings) ==> r == Fail(NotFound)
    ensures bookingId in old(db.bookings) && old(db.bookings)[bookingId].user != userId ==> r == Fail(Forbidden)
    ensures (&& bookingId in old(db.bookings) && old(db.bookings)[bookingId].user == userId
             && old(db.bookings)[bookingId].status !in CancellableStatuses) ==> r == Fail(Conflict)
    ensures (&& bookingId in old(db.bookings) && old(db.bookings)[bookingId].user == userId
             && old(db.bookings)[bookingId].status in CancellableStatuses) ==>
              && r == Fail(InternalServerError)
              && db.bookings == old(db.bookings)[bookingId := old(db.bookings)[bookingId].(status := Cancelled)]
    ensures r.err != InternalServerError ==> db.bookings == old(db.bookings)
  {
    r := SaveCancellation(db, bookingId, userId);
    if r.Ok? {
      // booking.service is undefined: reading .washer throws
      r := Fail(InternalServerError);
    }
  }

  /** cancelBooking as intended: after the save the service's washer, when
      there is one, gets one notification naming the car and the time; the
      admin notification is a no-op (see NotificationService.NotifyAdmins). */
  method CancelBooking(db: Database, bookingId: Id, userId: Id) returns (r: Result<Booking>)
    requires db.Valid()
    modifies db`bookings, db`notifications, db`nextId
    ensures db.Valid()
    ensures bookingId !in old(db.bookings) ==> r == Fail(NotFound)
    ensures bookingId in old(db.bookings) && old(db.bookings)[bookingId].user != userId ==> r == Fail(Forbidden)
    ensures (&& bookingId in old(db.bookings) && old(db.bookings)[bookingId].user == userId
             && old(db.bookings)[bookingId].status !in CancellableStatuses) ==> r == Fail(Conflict)
    ensures r.Ok? <==> (&& bookingId in old(db.bookings) && old(db.bookings)[bookingId].user == userId
                        && old(db.bookings)[bookingId].status in CancellableStatuses)
    ensures r.Fail? ==> db.bookings == old(db.bookings) && db.notifications == old(db.notifications)
    ensures r.Ok? ==> r.value == old(db.bookings)[bookingId].(status := Cancelled)
    ensures r.Ok? ==> db.bookings == old(db.bookings)[bookingId := r.value]
    ensures r.Ok? ==> var link := db.ServiceWasher(r.value.service);
              link.WasherUser? && link.userId in db.users ==>
                exists n: Id :: n !in old(db.notifications) &&
                  db.notifications == old(db.notifications)[n := NewNotification(link.userId, CancelledTitle,
                    CancelMessage(if r.value.car in db.cars then db.cars[r.value.car].model else "car",
                                  r.value.scheduledTime))]
    ensures r.Ok? ==> var link := db.ServiceWasher(r.value.service);
              !(link.WasherUser? && link.userId in db.users) ==> db.notifications == old(db.notifications)
    ensures OneActivePerCar(old(db.bookings)) ==> OneActivePerCar(db.bookings)
    ensures PaymentConsistent(old(db.bookings)) ==> PaymentConsistent(db.bookings)
  {
    r := SaveCancellation(db, bookingId, userId);
    if r.Fail? {
      return;
    }
    NotifyCancellation(db, r.value);
    ghost var admins := NS.NotifyAdmins(db, "Booking cancelled", "A user cancelled a booking.",
                                        NS.UserServiceHasFindByRole);
  }

  /** The washer's notification after a cancellation: one new row when the
      booking's service leads to a washer user, no change otherwise. */
  method NotifyCancellation(db: Database, b: Booking)
    requires db.Valid()
    modifies db`notifications, db`nextId
    ensures db.Valid()
    ensures var link := db.ServiceWasher(b.service);
              link.WasherUser? && link.userId in db.users ==>
                exists n: Id :: n !in old(db.notifications) &&
                  db.notifications == old(db.notifications)[n := NewNotification(link.userId, CancelledTitle,
                    CancelMessage(if b.car in db.cars then db.cars[b.car].model else "car", b.scheduledTime))]
    ensures var link := db.ServiceWasher(b.service);
              !(link.WasherUser? && link.userId in db.users) ==> db.notifications == old(db.notifications)
  {
    var link := db.ServiceWasher(b.service);
    if link.WasherUser? && link.userId in db.users {
      var model := if b.car in db.cars then db.cars[b.car].model else "car";
      var sent := NS.NotifyUser(db, link.userId, CancelledTitle, CancelMessage(model, b.scheduledTime));
      if sent.Fail? {
        assert false;
      }
    }
  }

  // ---------------------------------------------------------------------
  // Reads

  /** Who may read a booking: a user only their own, a washer only the
      bookings of their own services, an admin any. */
  predicate MayRead(db: Database, b: Booking, role: Role, callerId: Id)
    reads db
  {
    && (role == RoleUser ==> b.user == callerId)
    && (role == RoleWasher ==> db.ServiceWasher(b.service) == WasherUser(callerId))
  }

  /** getBookingById: NotFound, then the role checks (Forbidden); a washer
      reading a booking whose service is gone fails on `booking.service.washer`. */
  function GetBookingById(db: Database, bookingId: Id, role: Role, callerId: Id): (r: Result<Booking>)
    reads db
    ensures bookingId !in db.bookings ==> r == Fail(NotFound)
    ensures r.Ok? <==> bookingId in db.bookings && MayRead(db, db.bookings[bookingId], role, callerId)
    ensures r.Ok? ==> r.value == db.bookings[bookingId]
    ensures r.Fail? && bookingId in db.bookings ==>
              r.err == (if role == RoleWasher && db.ServiceWasher(db.bookings[bookingId].service).NoService?
                        then InternalServerError else Forbidden)
    ensures role == RoleAdmin && bookingId in db.bookings ==> r.Ok?
  {
    if bookingId !in db.bookings then Fail(NotFound)
    else
      var b := db.bookings[bookingId];
      if role == RoleUser && b.user != callerId then Fail(Forbidden)
      else if role == RoleWasher then
        match db.ServiceWasher(b.service)
        case NoService => Fail(InternalServerError)
        case NoWasher => Fail(Forbidden)
        case WasherUser(u) => if u != callerId then Fail(Forbidden) else Ok(b)
      else Ok(b)
  }

  /** assignWasher: NotFound for an unknown booking or a user without a
      washer profile, BadRequest for a washer not approved or not available;
      a booking whose service row is gone is a 500, since the washer is set on
      a null relation; otherwise success is reported, but the washer is set on
      the booking's service relation, which is not cascaded, so nothing is
      stored. The method therefore changes no table. */
  method AssignWasher(db: Database, bookingId: Id, washerUserId: Id) returns (r: Result<Id>)
    requires db.Valid()
    ensures bookingId !in db.bookings ==> r == Fail(NotFound)
    ensures !WS.HasProfile(db.washers, washerUserId) ==> r == Fail(NotFound)
    ensures r.Fail? ==> r.err in {NotFound, BadRequest, InternalServerError}
    ensures r.Ok? <==> && bookingId in db.bookings
                       && (exists w :: && w in db.washers && db.washers[w].user == washerUserId
                                       && db.washers[w].kycStatus == KycApproved && db.washers[w].isAvailable)
                       && db.bookings[bookingId].service in db.services
    ensures (&& bookingId in db.bookings && db.bookings[bookingId].service !in db.services
             && exists w :: && w in db.washers && db.washers[w].user == washerUserId
                            && db.washers[w].kycStatus == KycApproved && db.washers[w].isAvailable)
            ==> r == Fail(InternalServerError)
    ensures r.Ok? ==> r.value == bookingId
  {
    var washer := WS.GetWasherById(db, washerUserId);
    if bookingId !in db.bookings {
      return Fail(NotFound);
    }
    if washer.Fail? {
      return Fail(NotFound);
    }
    var w := db.washers[washer.value];
    if w.kycStatus != KycApproved {
      return Fail(BadRequest);
    }
    if !w.isAvailable {
      return Fail(BadRequest);
    }
    if db.bookings[bookingId].service !in db.services {
      // booking.service is null: setting .washer on it throws
      return Fail(InternalServerError);
    }
    r := Ok(bookingId);
  }

  // ---------------------------------------------------------------------
  // Dashboard counts

  function BookingsOfUser(bookings: map<Id, Booking>, userId: Id): set<Id> {
    set k | k in bookings && bookings[k].user == userId
  }

  function BookingsOfWasher(db: Database, washerUserId: Id): set<Id>
    reads db
  {
    set k | k in db.bookings && db.ServiceWasher(db.bookings[k].service) == WasherUser(washerUserId)
  }

  function WithStatus(bookings: map<Id, Booking>, ks: set<Id>, s: BookingStatus): (r: set<Id>)
    ensures r <= ks
  {
    set k | k in ks && k in bookings && bookings[k].status == s
  }

  /** The counts of the three dashboards; the rates and revenue are left out. */
  datatype Analytics =
    | UserAnalytics(total: nat, completed: nat, cancelled: nat)
    | WasherAnalytics(total: nat, completed: nat, accepted: nat)
    | AdminAnalytics(total: nat, pending: nat, completed: nat)

  /** Two different statuses pick disjoint parts of the same bookings. */
  lemma StatusCounts(bookings: map<Id, Booking>, ks: set<Id>, s: BookingStatus, t: BookingStatus)
    requires s != t
    ensures |WithStatus(bookings, ks, s)| + |WithStatus(bookings, ks, t)| <= |ks|
  {
    Sets.DisjointCounts(WithStatus(bookings, ks, s), WithStatus(bookings, ks, t), ks);
  }

  /** getBookingAnalytics: the user, washer or admin dashboard by role;
      BadRequest for any other role (None here). Each pair of status counts
      fits within the total. */
  function BookingAnalytics(db: Database, userId: Id, role: Option<Role>): (r: Result<Analytics>)
    reads db
    ensures r.Fail? <==> role.None?
    ensures r.Fail? ==> r.err == BadRequest
    ensures role == Some(RoleUser) ==>
              && r.Ok? && r.value.UserAnalytics?
              && r.value.total == |BookingsOfUser(db.bookings, userId)|
              && r.value.completed == |WithStatus(db.bookings, BookingsOfUser(db.bookings, userId), Completed)|
              && r.value.cancelled == |WithStatus(db.bookings, BookingsOfUser(db.bookings, userId), Cancelled)|
              && r.value.completed + r.value.cancelled <= r.value.total
    ensures role == Some(RoleWasher) ==>
              && r.Ok? && r.value.WasherAnalytics?
              && r.value.total == |BookingsOfWasher(db, userId)|
              && r.value.completed == |WithStatus(db.bookings, BookingsOfWasher(db, userId), Completed)|
              && r.value.accepted == |WithStatus(db.bookings, BookingsOfWasher(db, userId), Accepted)|
              && r.value.completed + r.value.accepted <= r.value.total
    ensures role == Some(RoleAdmin) ==>
              && r.Ok? && r.value.AdminAnalytics?
              && r.value.total == |db.bookings.Keys|
              && r.value.pending == |WithStatus(db.bookings, db.bookings.Keys, Pending)|
              && r.value.completed == |WithStatus(db.bookings, db.bookings.Keys, Completed)|
              && r.value.pending + r.value.completed <= r.value.total
  {
    match role
    case None => Fail(BadRequest)
    case Some(RoleUser) =>
      var mine := BookingsOfUser(db.bookings, userId);
      StatusCounts(db.bookings, mine, Completed, Cancelled);
      Ok(UserAnalytics(|mine|, |WithStatus(db.bookings, mine, Completed)|,
                       |WithStatus(db.bookings, mine, Cancelled)|))
    case Some(RoleWasher) =>
      var mine := BookingsOfWasher(db, userId);
      StatusCounts(db.bookings, mine, Completed, Accepted);
      Ok(WasherAnalytics(|mine|, |WithStatus(db.bookings, mine, Completed)|,
                         |WithStatus(db.bookings, mine, Accepted)|))
    case Some(RoleAdmin) =>
      var all := db.bookings.Keys;
      StatusCounts(db.bookings, all, Pending, Completed);
      Ok(AdminAnalytics(|all|, |WithStatus(db.bookings, all, Pending)|,
                        |WithStatus(db.bookings, all, Completed)|))
  }

  // ---------------------------------------------------------------------
  // Pagination of getWasherBookings, searchBookings and getBookingHistory

  /** The text of each status, as stored and as compared by the filters. */
  function StatusName(s: BookingStatus): string {
    match s
    case Pending => "pending"
    case Assigned => "assigned"
    case Accepted => "accepted"
    case Declined => "declined"
    case InProgress => "in-progress"
    case Approve => "approve"
    case Dispute => "dispute"
    case Paid => "paid"
    case Completed => "completed"
    case Cancelled => "cancelled"
  }

  function PaymentName(p: BookingPayment): string {
    match p
    case PayNone => "none"
    case Authorized => "authorized"
    case Captured => "captured"
    case Refunded => "refunded"
    case PayFailed => "failed"
  }

  /** skip = (page - 1) * limit. */
  function Skip(page: int, limit: int): int {
    (page - 1) * limit
  }

  /** Math.ceil on a real. */
  function Ceil(x: real): (c: int)
    ensures c as real >= x && (c as real) - 1.0 < x
  {
    -((-x).Floor)
  }

  /** totalPages = Math.ceil(total / limit) on JS numbers: a zero limit
      divides by zero (Infinity, or NaN when there is nothing to count). */
  function TotalPages(total: nat, limit: int): (n: CV.Num)
    ensures limit == 0 ==> n == (if total == 0 then CV.NaN else CV.PosInfinity)
    ensures limit != 0 ==> n.Finite? && n.value == Ceil(total as real / limit as real) as real
  {
    if limit == 0 then (if total == 0 then CV.NaN else CV.PosInfinity)
    else CV.Finite(Ceil(total as real / limit as real) as real)
  }

  /** With a positive limit the page count p is the least p with p * limit >= total. */
  lemma PageCount(total: nat, limit: int) returns (p: nat)
    requires limit >= 1
    ensures TotalPages(total, limit) == CV.Finite(p as real)
    ensures p * limit >= total && (p - 1) * limit < total
  {
    var l := limit as real;
    p := Ceil(total as real / l);
    AtLeastTimes(p as real, total as real, l);
    BelowTimes((p - 1) as real, total as real, l);
    CastMul(p, limit);
    CastMul(p - 1, limit);
  }

  /** a >= t / l means a * l >= t, for a positive l. */
  lemma AtLeastTimes(a: real, t: real, l: real)
    requires l > 0.0 && a >= t / l
    ensures a * l >= t
  {
    assert (a - t / l) * l >= 0.0;
  }

  /** a < t / l means a * l < t, for a positive l. */
  lemma BelowTimes(a: real, t: real, l: real)
    requires l > 0.0 && a < t / l
    ensures a * l < t
  {
    assert (t / l - a) * l > 0.0;
  }

  lemma CastMul(a: int, b: int)
    ensures (a * b) as real == (a as real) * (b as real)
  {
  }

  lemma MulMono(a: int, b: int, l: int)
    requires a <= b && l >= 0
    ensures a * l <= b * l
  {
    assert (b - a) * l >= 0;
  }

  /** With positive page sizes every row index lies on exactly one page, and
      that page is within totalPages. */
  lemma {:induction false} RowOnExactlyOnePage(total: nat, limit: int, i: nat)
    requires limit >= 1 && i < total
    ensures exists page: int :: 1 <= page && Skip(page, limit) <= i < Skip(page, limit) + limit
    ensures forall p, q :: (&& Skip(p, limit) <= i < Skip(p, limit) + limit
                            && Skip(q, limit) <= i < Skip(q, limit) + limit) ==> p == q
    ensures forall p :: Skip(p, limit) <= i < Skip(p, limit) + limit ==>
                        1 <= p && TotalPages(total, limit).value >= p as real
  {
    var pages := PageCount(total, limit);
    var page := i / limit + 1;
    assert Skip(page, limit) == (i / limit) * limit;
    assert Skip(page, limit) <= i < Skip(page, limit) + limit;
    forall p, q | Skip(p, limit) <= i < Skip(p, limit) + limit && Skip(q, limit) <= i < Skip(q, limit) + limit
      ensures p == q
    {
      if p < q {
        MulMono(p, q - 1, limit);
        assert false;
      } else if q < p {
        MulMono(q, p - 1, limit);
        assert false;
      }
    }
    forall p | Skip(p, limit) <= i < Skip(p, limit) + limit
      ensures 1 <= p && TotalPages(total, limit).value >= p as real
    {
      if p < 1 {
        MulMono(p, 0, limit);
        assert false;
      }
      if p > pages {
        MulMono(pages, p - 1, limit);
        assert false;
      }
    }
  }

  /** The pagination block of the three listings. */
  datatype Pagination = Pagination(page: int, limit: int, total: nat, totalPages: CV.Num)

  function Paginate(matches: set<Id>, page: int, limit: int): (p: Pagination)
    ensures p.total == |matches| && p.totalPages == TotalPages(|matches|, limit)
  {
    Pagination(page, limit, |matches|, TotalPages(|matches|, limit))
  }

  /** The optional status filter: only applied when the text is truthy. */
  predicate StatusFilter(b: Booking, status: Option<string>): (r: bool)
    ensures status.None? || status == Some("") ==> r
    ensures forall s :: status == Some(StatusName(s)) ==> (r <==> b.status == s)
    ensures status.Some? && status.value != "" && (forall s :: StatusName(s) != status.value) ==> !r
  {
    StatusNameInjective(b.status);
    status.None? || status.value == "" || StatusName(b.status) == status.value
  }

  /** getWasherBookings: the bookings of the washer's services, optionally
      with one status. */
  function WasherBookings(db: Database, washerUserId: Id, status: Option<string>): (r: set<Id>)
    reads db
    ensures r <= BookingsOfWasher(db, washerUserId)
    ensures forall k :: k in r <==> (&& k in db.bookings
                                     && db.ServiceWasher(db.bookings[k].service) == WasherUser(washerUserId)
                                     && StatusFilter(db.bookings[k], status))
  {
    set k | k in db.bookings && db.ServiceWasher(db.bookings[k].service) == WasherUser(washerUserId)
                             && StatusFilter(db.bookings[k], status)
  }

  /** getBookingHistory: the user's bookings, optionally with one status. */
  function BookingHistory(db: Database, userId: Id, status: Option<string>): (r: set<Id>)
    reads db
    ensures r <= BookingsOfUser(db.bookings, userId)
    ensures forall k :: k in r <==> k in db.bookings && db.bookings[k].user == userId && StatusFilter(db.bookings[k], status)
  {
    set k | k in db.bookings && db.bookings[k].user == userId && StatusFilter(db.bookings[k], status)
  }

  /** getWasherBookings' filter: without a status, or with an empty one, all
      of the washer's bookings; with a status's name, exactly those in that
      status; with any other text, none. */
  lemma {:induction false} WasherBookingsByStatus(db: Database, washerUserId: Id, s: BookingStatus, text: string)
    requires text != "" && forall t :: StatusName(t) != text
    ensures WasherBookings(db, washerUserId, None) == BookingsOfWasher(db, washerUserId)
    ensures WasherBookings(db, washerUserId, Some("")) == BookingsOfWasher(db, washerUserId)
    ensures WasherBookings(db, washerUserId, Some(StatusName(s)))
            == WithStatus(db.bookings, BookingsOfWasher(db, washerUserId), s)
    ensures WasherBookings(db, washerUserId, Some(text)) == {}
  {
    StatusNameInjective(s);
  }

  /** getBookingHistory's filter, in the same terms over the user's bookings. */
  lemma {:induction false} BookingHistoryByStatus(db: Database, userId: Id, s: BookingStatus, text: string)
    requires text != "" && forall t :: StatusName(t) != text
    ensures BookingHistory(db, userId, None) == BookingsOfUser(db.bookings, userId)
    ensures BookingHistory(db, userId, Some("")) == BookingsOfUser(db.bookings, userId)
    ensures BookingHistory(db, userId, Some(StatusName(s))) == WithStatus(db.bookings, BookingsOfUser(db.bookings, userId), s)
    ensures BookingHistory(db, userId, Some(text)) == {}
  {
    StatusNameInjective(s);
  }

  /** No two statuses share a name, and no name is empty. */
  lemma StatusNameInjective(s: BookingStatus)
    ensures StatusName(s) != ""
    ensures forall t :: StatusName(t) == StatusName(s) ==> t == s
  {
  }

  /** The truthy text of the search's unconstrained status parameter. */
  function SearchStatus(v: CV.JsValue): Option<string> {
    if v.Str? && v.s != "" then Some(v.s) else None
  }

  /** One booking against searchBookings' filters. `inRange(t, start, end)` is
      the database's BETWEEN on timestamps. */
  predicate SearchMatches(db: Database, k: Id, q: SDTO.SearchBookings, inRange: (string, string, string) -> bool): (r: bool)
    reads db
    requires k in db.bookings
    ensures r ==> StatusFilter(db.bookings[k], SearchStatus(q.status))
    ensures r && q.userId.Some? && q.userId.value != 0 ==> db.bookings[k].user == q.userId.value
    ensures r && q.washerId.Some? && q.washerId.value != 0 ==>
              && q.washerId.value in db.washers
              && db.ServiceWasher(db.bookings[k].service) == WasherUser(db.washers[q.washerId.value].user)
    ensures q.paymentStatus.Some? && q.paymentStatus.value in SDTO.PaymentStatusValues ==> !r
    ensures (&& SearchStatus(q.status).None? && q.paymentStatus.None? && q.startDate.None?
             && q.userId.None? && q.washerId.None?) ==> r
  {
    var b := db.bookings[k];
    && StatusFilter(b, SearchStatus(q.status))
    && (q.paymentStatus.None? || q.paymentStatus.value == "" || PaymentName(b.paymentStatus) == q.paymentStatus.value)
    && (q.startDate.None? || q.endDate.None? || q.startDate.value == "" || q.endDate.value == ""
        || inRange(b.scheduledTime, q.startDate.value, q.endDate.value))
    && (q.userId.None? || q.userId.value == 0 || b.user == q.userId.value)
    && (q.washerId.None? || q.washerId.value == 0
        || (&& b.service in db.services && db.services[b.service].washer == Some(q.washerId.value)
            && q.washerId.value in db.washers))
  }

  function SearchBookings(db: Database, q: SDTO.SearchBookings, inRange: (string, string, string) -> bool): (r: set<Id>)
    reads db
    ensures r <= db.bookings.Keys
    ensures forall k :: k in r <==> k in db.bookings && SearchMatches(db, k, q, inRange)
  {
    set k | k in db.bookings && SearchMatches(db, k, q, inRange)
  }

  /** The search filters paymentStatus against the transaction module's
      values (paid, notPaid), which no booking's paymentStatus ever takes:
      a search that names a payment status finds nothing. */
  lemma SearchByPaymentStatusFindsNothing(db: Database, q: SDTO.SearchBookings, inRange: (string, string, string) -> bool)
    requires q.paymentStatus.Some? && q.paymentStatus.value in SDTO.PaymentStatusValues
    ensures SearchBookings(db, q, inRange) == {}
    ensures Paginate(SearchBookings(db, q, inRange), q.page, q.limit).total == 0
  {
  }

  /** A validated search query never divides by zero. */
  lemma SearchPagesAreFinite(q: SDTO.SearchBookings, total: nat)
    requires q.limit >= 1
    ensures TotalPages(total, q.limit).Finite?
  {
  }
}
