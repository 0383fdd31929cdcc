/** ServiceMenuService: the wash services a washer offers, their owner checks
    and their active flag. */
module ServiceMenuService {
  import opened Wrappers
  import opened Entities
  import opened Store
  import WS = WasherService
  import NS = NotificationService

  /** The validated body of a new service. */
  datatype CreateServiceDto = CreateServiceDto(
    name: string, price: real, description: Option<string>, isActive: Option<bool>)

  /** The partial body of an update: only supplied fields are copied. */
  datatype UpdateServiceDto = UpdateServiceDto(
    name: Option<string>, price: Option<real>, description: Option<string>, isActive: Option<bool>)

  /** No two services share a name, as createService checks (the table has no
      such index). */
  predicate UniqueServiceNames(services: map<Id, ServiceMenu>) {
    forall a, b :: a in services && b in services && a != b ==> services[a].name != services[b].name
  }

  predicate NameTaken(services: map<Id, ServiceMenu>, name: string) {
    exists s :: s in services && services[s].name == name
  }

  /** The row createService saves: the caller's washer, and inactive unless
      the body says otherwise. */
  function NewService(washer: Id, dto: CreateServiceDto): (s: ServiceMenu)
    ensures s.washer == Some(washer) && s.name == dto.name && s.price == dto.price
    ensures s.isActive <==> dto.isActive == Some(true)
  {
    ServiceMenu(Some(washer), dto.name, dto.price, dto.description,
                if dto.isActive.Some? then dto.isActive.value else false)
  }

  /** createService as intended: NotFound without a washer profile, BadRequest
      when any service already has that name; otherwise one new service on the
      caller's menu. The admin message is abbreviated to the service name: the
      source also names the washer's user and the price as rendered by
      JavaScript, and number formatting is not modelled. */
  method CreateService(db: Database, userId: Id, dto: CreateServiceDto) returns (r: Result<Id>)
    requires db.Valid()
    modifies db`services, db`nextId, db`notifications
    ensures db.Valid()
    ensures !WS.HasProfile(db.washers, userId) ==> r == Fail(NotFound)
    ensures WS.HasProfile(db.washers, userId) && NameTaken(old(db.services), dto.name) ==> r == Fail(BadRequest)
    ensures r.Ok? <==> WS.HasProfile(db.washers, userId) && !NameTaken(old(db.services), dto.name)
    ensures r.Fail? ==> db.services == old(db.services)
    ensures r.Ok? ==> r.value !in old(db.services)
    ensures r.Ok? ==> exists w :: w in db.washers && db.washers[w].user == userId &&
                        db.services == old(db.services)[r.value := NewService(w, dto)]
    ensures UniqueServiceNames(old(db.services)) ==> UniqueServiceNames(db.services)
    ensures db.notifications == old(db.notifications)
  {
    var washer := WS.GetWasherById(db, userId);
    if washer.Fail? {
      return Fail(NotFound);
    }
    if s :| s in db.services && db.services[s].name == dto.name {
      return Fail(BadRequest);
    }
    var id := db.NewId();
    db.services := db.services[id := NewService(washer.value, dto)];
    ghost var sent := NS.NotifyAdmins(db, "New service created", "Washer created service: " + dto.name,
                                      NS.UserServiceHasFindByRole);
    r := Ok(id);
  }

  /** createService as written: the washer comes from getWasherById, which
      does not load its user, so building the admin message reads
      `washer.user.name` on undefined. That happens after the save: the service
      is stored and the caller gets a 500. */
  method CreateServiceAsWritten(db: Database, userId: Id, dto: CreateServiceDto) returns (r: Result<Id>)
    requires db.Valid()
    modifies db`services, db`nextId, db`notifications
    ensures db.Valid()
    ensures r.Fail?
    ensures !WS.HasProfile(db.washers, userId) ==> r == Fail(NotFound)
    ensures WS.HasProfile(db.washers, userId) && NameTaken(old(db.services), dto.name) ==> r == Fail(BadRequest)
    ensures WS.HasProfile(db.washers, userId) && !NameTaken(old(db.services), dto.name) ==>
              r == Fail(InternalServerError) && |db.services| == |old(db.services)| + 1
    ensures r.err != InternalServerError ==> db.services == old(db.services)
    ensures r.err == InternalServerError ==> exists k: Id, w: Id :: && k !in old(db.services)
                                                          && w in db.washers && db.washers[w].user == userId
                                                          && db.services == old(db.services)[k := NewService(w, dto)]
    ensures db.notifications == old(db.notifications)
  {
    r := CreateService(db, userId, dto);
    if r.Ok? {
      r := Fail(InternalServerError);
    }
  }

  /** listServices: the services whose washer belongs to the user; NotFound
      when there are none. */
  function ListServices(db: Database, userId: Id): (r: Result<set<Id>>)
    reads db
    ensures r.Fail? ==> r.err == NotFound
    ensures r.Ok? ==> r.value != {}
    ensures r.Ok? ==> forall s :: s in r.value <==> s in db.services && db.ServiceWasher(s) == WasherUser(userId)
    ensures r.Fail? ==> forall s :: s in db.services ==> db.ServiceWasher(s) != WasherUser(userId)
  {
    var mine := set s | s in db.services && db.ServiceWasher(s) == WasherUser(userId);
    assert forall s :: s in db.services && db.ServiceWasher(s) == WasherUser(userId) ==> s in mine;
    if mine == {} then Fail(NotFound) else Ok(mine)
  }

  /** A service getService can return. */
  predicate Offered(services: map<Id, ServiceMenu>, s: Id) {
    s in services && services[s].isActive
  }

  /** getService: an active service with that key, else NotFound. With an
      undefined key the WHERE clause drops the id condition, so any active
      service may come back. */
  method GetService(db: Database, serviceId: Option<Id>) returns (r: Result<Id>)
    requires db.Valid()
    ensures serviceId.Some? ==> (r.Ok? <==> Offered(db.services, serviceId.value))
    ensures serviceId.None? ==> (r.Ok? <==> exists s :: Offered(db.services, s))
    ensures r.Fail? ==> r.err == NotFound
    ensures r.Ok? ==> Offered(db.services, r.value)
    ensures r.Ok? && serviceId.Some? ==> r.value == serviceId.value
    ensures serviceId.None? ==> (r == Fail(NotFound) <==> ListAllActiveServices(db) == {})
    ensures r.Ok? ==> r.value in ListAllActiveServices(db)
  {
    match serviceId {
      case Some(id) =>
        r := if Offered(db.services, id) then Ok(id) else Fail(NotFound);
      case None =>
        if s :| s in db.services && db.services[s].isActive {
          assert Offered(db.services, s);
          r := Ok(s);
        } else {
          r := Fail(NotFound);
        }
    }
  }

  /** Object.assign(service, dto) over the selected columns. */
  function ApplyServiceUpdate(s: ServiceMenu, dto: UpdateServiceDto): (v: ServiceMenu)
    ensures v.name == (if dto.name.Some? then dto.name.value else s.name)
    ensures v.price == (if dto.price.Some? then dto.price.value else s.price)
    ensures v.description == (if dto.description.Some? then dto.description else s.description)
    ensures v.isActive == (if dto.isActive.Some? then dto.isActive.value else s.isActive)
    ensures v.washer == s.washer
  {
    ServiceMenu(s.washer,
                if dto.name.Some? then dto.name.value else s.name,
                if dto.price.Some? then dto.price.value else s.price,
                if dto.description.Some? then dto.description else s.description,
                if dto.isActive.Some? then dto.isActive.value else s.isActive)
  }

  /** updateService: NotFound for an unknown id; a service without a washer
      fails on `service.washer.user.id`; Forbidden unless the caller owns it;
      otherwise the supplied fields are copied. No name check is made. */
  method UpdateService(db: Database, id: Id, userId: Id, dto: UpdateServiceDto) returns (r: Result<ServiceMenu>)
    requires db.Valid()
    modifies db`services
    ensures db.Valid()
    ensures id !in old(db.services) ==> r == Fail(NotFound)
    ensures id in old(db.services) && db.ServiceWasher(id) == NoWasher ==> r == Fail(InternalServerError)
    ensures db.ServiceWasher(id).WasherUser? && db.ServiceWasher(id).userId != userId ==> r == Fail(Forbidden)
    ensures r.Ok? <==> old(db.ServiceWasher(id)) == WasherUser(userId)
    ensures r.Fail? ==> db.services == old(db.services)
    ensures r.Ok? ==> r.value == ApplyServiceUpdate(old(db.services)[id], dto)
    ensures r.Ok? ==> db.services == old(db.services)[id := r.value]
  {
    if id !in db.services {
      return Fail(NotFound);
    }
    match db.ServiceWasher(id) {
      case NoService => r := Fail(NotFound);
      case NoWasher => r := Fail(InternalServerError);
      case WasherUser(owner) =>
        if owner != userId {
          return Fail(Forbidden);
        }
        var v := ApplyServiceUpdate(db.services[id], dto);
        db.services := db.services[id := v];
        r := Ok(v);
    }
  }

  /** The null-safe owner check of deleteService and setActiveStatus. */
  predicate OwnedBy(db: Database, id: Id, userId: Id)
    reads db
  {
    db.ServiceWasher(id) == WasherUser(userId)
  }

  /** deleteService: NotFound for an unknown id, Forbidden unless the caller
      owns it (a service without a washer is nobody's); otherwise that one row
      goes. */
  method DeleteService(db: Database, id: Id, userId: Id) returns (r: Result<Id>)
    requires db.Valid()
    modifies db`services
    ensures db.Valid()
    ensures id !in old(db.services) ==> r == Fail(NotFound)
    ensures id in old(db.services) && !old(OwnedBy(db, id, userId)) ==> r == Fail(Forbidden)
    ensures r.Ok? <==> old(OwnedBy(db, id, userId))
    ensures r.Fail? ==> db.services == old(db.services)
    ensures r.Ok? ==> r.value == id && db.services == old(db.services) - {id}
  {
    if id !in db.services {
      return Fail(NotFound);
    }
    if !OwnedBy(db, id, userId) {
      return Fail(Forbidden);
    }
    db.services := db.services - {id};
    r := Ok(id);
  }

  /** setActiveStatus: the same checks as deleteService, then only isActive
      changes. */
  method SetActiveStatus(db: Database, id: Id, userId: Id, isActive: bool) returns (r: Result<ServiceMenu>)
    requires db.Valid()
    modifies db`services
    ensures db.Valid()
    ensures id !in old(db.services) ==> r == Fail(NotFound)
    ensures id in old(db.services) && !old(OwnedBy(db, id, userId)) ==> r == Fail(Forbidden)
    ensures r.Ok? <==> old(OwnedBy(db, id, userId))
    ensures r.Fail? ==> db.services == old(db.services)
    ensures r.Ok? ==> r.value == old(db.services)[id].(isActive := isActive)
    ensures r.Ok? ==> db.services == old(db.services)[id := r.value]
    ensures r.Ok? ==> (Offered(db.services, id) <==> isActive)
    ensures r.Ok? ==> ListAllActiveServices(db) == if isActive then old(ListAllActiveServices(db)) + {id}
                                                   else old(ListAllActiveServices(db)) - {id}
  {
    if id !in db.services {
      return Fail(NotFound);
    }
    if !OwnedBy(db, id, userId) {
      return Fail(Forbidden);
    }
    var v := db.services[id].(isActive := isActive);
    db.services := db.services[id := v];
    r := Ok(v);
  }

  /** listAllActiveServices: exactly the active services. */
  function ListAllActiveServices(db: Database): (r: set<Id>)
    reads db
    ensures forall s :: s in r <==> Offered(db.services, s)
  {
    set s | s in db.services && db.services[s].isActive
  }
}
