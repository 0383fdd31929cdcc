/** The PostgreSQL database behind the TypeORM repositories: one table per entity,
    each a map from primary key to row, and the serial counter that hands out new
    keys. The services are written as methods over one Database, each framing the
    tables it writes. */
module Store {
  import opened Wrappers
  import opened Entities

  /** Every key of a table was handed out by the serial counter. */
  predicate KeysBelow<T>(m: map<Id, T>, n: Id) {
    forall k :: k in m ==> k < n
  }

  /** The unique index on car.plateNumber. */
  predicate UniquePlates(cars: map<Id, Car>) {
    forall a, b :: a in cars && b in cars && a != b ==> cars[a].plateNumber != cars[b].plateNumber
  }

  /** The unique index on user.email. */
  predicate UniqueEmails(users: map<Id, User>) {
    forall a, b :: a in users && b in users && a != b ==> users[a].email != users[b].email
  }

  /** The unique join column of the one-to-one washer.user relation. */
  predicate OneProfilePerUser(washers: map<Id, Washer>) {
    forall a, b :: a in washers && b in washers && a != b ==> washers[a].user != washers[b].user
  }

  /** What `booking.service.washer.user` resolves to once the relations are joined:
      the service row may be gone, its washer relation may be null, or it leads
      to the washer's user. */
  datatype WasherLink = NoService | NoWasher | WasherUser(userId: Id)

  class Database {
    var users: map<Id, User>
    var washers: map<Id, Washer>
    var services: map<Id, ServiceMenu>
    var cars: map<Id, Car>
    var bookings: map<Id, Booking>
    var transactions: map<Id, Transaction>
    var reviews: map<Id, Review>
    var notifications: map<Id, Notification>
    var nextId: Id

    /** The constraints the database itself enforces. */
    ghost predicate Valid()
      reads this
    {
      && KeysBelow(users, nextId) && KeysBelow(washers, nextId)
      && KeysBelow(services, nextId) && KeysBelow(cars, nextId)
      && KeysBelow(bookings, nextId) && KeysBelow(transactions, nextId)
      && KeysBelow(reviews, nextId) && KeysBelow(notifications, nextId)
      && UniquePlates(cars) && UniqueEmails(users) && OneProfilePerUser(washers)
    }

    /** An empty database. */
    constructor ()
      ensures Valid()
      ensures users == map[] && washers == map[] && services == map[] && cars == map[]
      ensures bookings == map[] && transactions == map[] && reviews == map[]
      ensures notifications == map[]
    {
      users, washers, services, cars := map[], map[], map[], map[];
      bookings, transactions, reviews, notifications := map[], map[], map[], map[];
      nextId := 1;
    }

    /** The primary key an INSERT receives: unused in every table. */
    method NewId() returns (id: Id)
      requires Valid()
      modifies this`nextId
      ensures Valid() && id == old(nextId) && nextId == id + 1
      ensures id !in users && id !in washers && id !in services && id !in cars
      ensures id !in bookings && id !in transactions && id !in reviews && id !in notifications
    {
      id := nextId;
      nextId := nextId + 1;
    }

    /** The washer user a service leads to. */
    function ServiceWasher(serviceId: Id): WasherLink
      reads this`services, this`washers
    {
      if serviceId !in services then NoService
      else match services[serviceId].washer
        case None => NoWasher
        case Some(w) => if w in washers then WasherUser(washers[w].user) else NoWasher
    }
  }
}
