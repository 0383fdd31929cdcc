/** CarService: the cars a user registers for washing. Plate numbers carry a
    unique index (Store.UniquePlates), which every operation keeps. Picture
    upload to Cloudinary is not part of this model. */
module CarService {
  import opened Wrappers
  import opened Entities
  import opened Store
  import US = UserService

  datatype CreateCarDto = CreateCarDto(make: string, model: string, color: string, plateNumber: string)

  /** UpdateCarDto: every field optional. */
  datatype UpdateCarDto = UpdateCarDto(
    make: Option<string>, model: Option<string>, color: Option<string>, plateNumber: Option<string>)

  predicate PlateTaken(cars: map<Id, Car>, plate: string) {
    exists c :: c in cars && cars[c].plateNumber == plate
  }

  /** The caller's own car with that key. */
  predicate Owns(cars: map<Id, Car>, carId: Id, userId: Id) {
    carId in cars && cars[carId].user == userId
  }

  /** The row addCar saves: the body's fields, the default type SEDAN, no picture. */
  function NewCar(userId: Id, dto: CreateCarDto): (c: Car)
    ensures c.user == userId && c.plateNumber == dto.plateNumber && c.carType == Sedan
    ensures c.pictureUrl == None && c.picturePublicId == None
  {
    Car(userId, dto.make, dto.model, dto.color, dto.plateNumber, Sedan, None, None)
  }

  /** addCar: NotFound for an unknown user, BadRequest for a plate already in
      use; otherwise one new car owned by the caller. */
  method AddCar(db: Database, userId: Id, dto: CreateCarDto) returns (r: Result<Id>)
    requires db.Valid()
    modifies db`cars, db`nextId
    ensures db.Valid()
    ensures userId !in db.users ==> r == Fail(NotFound)
    ensures userId in db.users && PlateTaken(old(db.cars), dto.plateNumber) ==> r == Fail(BadRequest)
    ensures r.Ok? <==> userId in db.users && !PlateTaken(old(db.cars), dto.plateNumber)
    ensures r.Fail? ==> db.cars == old(db.cars)
    ensures r.Ok? ==> r.value !in old(db.cars) && db.cars == old(db.cars)[r.value := NewCar(userId, dto)]
  {
    var user := US.FindById(db, userId);
    if user.None? {
      return Fail(NotFound);
    }
    if c :| c in db.cars && db.cars[c].plateNumber == dto.plateNumber {
      return Fail(BadRequest);
    }
    var id := db.NewId();
    db.cars := db.cars[id := NewCar(userId, dto)];
    r := Ok(id);
  }

  /** getCarsByUser: the user's cars; NotFound when there are none. */
  function GetCarsByUser(db: Database, userId: Id): (r: Result<set<Id>>)
    reads db
    ensures r.Fail? ==> r.err == NotFound && forall c :: c in db.cars ==> db.cars[c].user != userId
    ensures r.Ok? ==> r.value != {} && forall c :: c in r.value <==> Owns(db.cars, c, userId)
  {
    var mine := set c | c in db.cars && db.cars[c].user == userId;
    assert forall c :: c in db.cars && db.cars[c].user == userId ==> c in mine;
    if mine == {} then Fail(NotFound) else Ok(mine)
  }

  /** getCar: the car only when both its key and its owner match. */
  function GetCar(db: Database, carId: Id, userId: Id): (r: Result<Car>)
    reads db
    ensures r.Ok? <==> Owns(db.cars, carId, userId)
    ensures r.Fail? ==> r.err == NotFound
    ensures r.Ok? ==> r.value == db.cars[carId] && r.value.user == userId
  {
    if Owns(db.cars, carId, userId) then Ok(db.cars[carId]) else Fail(NotFound)
  }

  /** Object.assign(car, dto). */
  function ApplyCarUpdate(c: Car, dto: UpdateCarDto): (v: Car)
    ensures v.make == (if dto.make.Some? then dto.make.value else c.make)
    ensures v.model == (if dto.model.Some? then dto.model.value else c.model)
    ensures v.color == (if dto.color.Some? then dto.color.value else c.color)
    ensures v.plateNumber == (if dto.plateNumber.Some? then dto.plateNumber.value else c.plateNumber)
    ensures v.(make := c.make, model := c.model, color := c.color, plateNumber := c.plateNumber) == c
  {
    c.(make := if dto.make.Some? then dto.make.value else c.make,
       model := if dto.model.Some? then dto.model.value else c.model,
       color := if dto.color.Some? then dto.color.value else c.color,
       plateNumber := if dto.plateNumber.Some? then dto.plateNumber.value else c.plateNumber)
  }

  /** Another car already carries this plate. */
  predicate PlateTakenByOther(cars: map<Id, Car>, carId: Id, plate: string) {
    exists c :: c in cars && c != carId && cars[c].plateNumber == plate
  }

  /** updateCar: NotFound unless the caller owns the car; BadRequest when a new
      non-empty plate is already in use; the car's own plate may be sent again.
      An empty plate skips the check, so if another car has it the unique index
      rejects the save (a 500). */
  method UpdateCar(db: Database, carId: Id, userId: Id, dto: UpdateCarDto) returns (r: Result<Car>)
    requires db.Valid()
    modifies db`cars
    ensures db.Valid()
    ensures !Owns(old(db.cars), carId, userId) ==> r == Fail(NotFound)
    ensures (&& Owns(old(db.cars), carId, userId) && dto.plateNumber.Some? && dto.plateNumber.value != ""
             && PlateTakenByOther(old(db.cars), carId, dto.plateNumber.value)) ==> r == Fail(BadRequest)
    ensures (&& Owns(old(db.cars), carId, userId) && dto.plateNumber == Some("")
             && PlateTakenByOther(old(db.cars), carId, "")) ==> r == Fail(InternalServerError)
    ensures Owns(old(db.cars), carId, userId) && dto.plateNumber == Some(old(db.cars)[carId].plateNumber) ==> r.Ok?
    ensures Owns(old(db.cars), carId, userId) && dto.plateNumber.None? ==> r.Ok?
    ensures r.Fail? ==> db.cars == old(db.cars)
    ensures r.Ok? ==> Owns(old(db.cars), carId, userId)
    ensures r.Ok? ==> r.value == ApplyCarUpdate(old(db.cars)[carId], dto)
    ensures r.Ok? ==> db.cars == old(db.cars)[carId := r.value]
  {
    if !Owns(db.cars, carId, userId) {
      return Fail(NotFound);
    }
    var car := db.cars[carId];
    if dto.plateNumber.Some? && dto.plateNumber.value != "" && dto.plateNumber.value != car.plateNumber {
      if c :| c in db.cars && db.cars[c].plateNumber == dto.plateNumber.value {
        return Fail(BadRequest);
      }
    }
    var v := ApplyCarUpdate(car, dto);
    if c :| c in db.cars && c != carId && db.cars[c].plateNumber == v.plateNumber {
      // the unique index on plateNumber refuses the UPDATE
      return Fail(InternalServerError);
    }
    db.cars := db.cars[carId := v];
    r := Ok(v);
  }

  /** deleteCar: NotFound unless the caller owns the car; otherwise only that
      car is removed. */
  method DeleteCar(db: Database, carId: Id, userId: Id) returns (r: Result<Car>)
    requires db.Valid()
    modifies db`cars
    ensures db.Valid()
    ensures r.Ok? <==> Owns(old(db.cars), carId, userId)
    ensures r.Fail? ==> r.err == NotFound && db.cars == old(db.cars)
    ensures r.Ok? ==> r.value == old(db.cars)[carId] && db.cars == old(db.cars) - {carId}
  {
    var car := GetCar(db, carId, userId);
    if car.Fail? {
      return Fail(NotFound);
    }
    db.cars := db.cars - {carId};
    r := car;
  }

  /** removeCarPicture: NotFound unless the caller owns the car and the car has
      a (non-empty) picture id; otherwise both picture fields become null. The
      Cloudinary delete is not part of this model. */
  method RemoveCarPicture(db: Database, carId: Id, userId: Id) returns (r: Result<Car>)
    requires db.Valid()
    modifies db`cars
    ensures db.Valid()
    ensures r.Ok? <==> Owns(old(db.cars), carId, userId)
                       && old(db.cars)[carId].picturePublicId.Some?
                       && old(db.cars)[carId].picturePublicId.value != ""
    ensures r.Fail? ==> r.err == NotFound && db.cars == old(db.cars)
    ensures r.Ok? ==> r.value == old(db.cars)[carId].(pictureUrl := None, picturePublicId := None)
    ensures r.Ok? ==> db.cars == old(db.cars)[carId := r.value]
  {
    var car := GetCar(db, carId, userId);
    if car.Fail? {
      return Fail(NotFound);
    }
    if car.value.picturePublicId == None || car.value.picturePublicId == Some("") {
      return Fail(NotFound);
    }
    var v := car.value.(pictureUrl := None, picturePublicId := None);
    db.cars := db.cars[carId := v];
    r := Ok(v);
  }
}
