/** CreateBookingDto: the body of a booking request, validated field by field. */
module CreateBookingDto {
  import opened Wrappers
  import opened ClassValidator

  /** The request body as the validators see it; `unknownKeys` are the
      properties the DTO does not declare. */
  datatype Body = Body(
    carId: JsValue,
    serviceId: JsValue,
    scheduledTime: JsValue,
    latitude: JsValue,
    longitude: JsValue,
    unknownKeys: set<string>)

  /** A body that passed validation. */
  datatype CreateBooking = CreateBooking(
    carId: nat,
    serviceId: nat,
    scheduledTime: string,
    latitude: real,
    longitude: real)

  /** The constraints on carId and on serviceId: @IsInt, @IsNotEmpty, @Min(1). */
  predicate ValidId(v: JsValue) {
    IsInt(v) && IsNotEmpty(v) && Min(v, 1.0)
  }

  /** @IsDateString, @IsNotEmpty. */
  predicate ValidScheduledTime(v: JsValue) {
    IsDateString(v) && IsNotEmpty(v)
  }

  /** @IsNumber, @IsNotEmpty, @Min(-bound), @Max(bound). */
  predicate ValidCoordinate(v: JsValue, bound: real) {
    IsNumber(v) && IsNotEmpty(v) && Min(v, -bound) && Max(v, bound)
  }

  predicate Acceptable(b: Body) {
    && b.unknownKeys == {}
    && ValidId(b.carId) && ValidId(b.serviceId)
    && ValidScheduledTime(b.scheduledTime)
    && ValidCoordinate(b.latitude, 90.0) && ValidCoordinate(b.longitude, 180.0)
  }

  /** The ValidationPipe: a 400 unless every constraint holds. */
  function Validate(b: Body): (r: Result<CreateBooking>)
    ensures r.Ok? <==> Acceptable(b)
    ensures r.Fail? ==> r.err == BadRequest
    ensures r.Ok? ==>
      && r.value.carId >= 1 && r.value.serviceId >= 1
      && |r.value.scheduledTime| > 0 && IsIso8601(r.value.scheduledTime)
      && -90.0 <= r.value.latitude <= 90.0
      && -180.0 <= r.value.longitude <= 180.0
    ensures r.Ok? ==> Encode(r.value) == b
  {
    if Acceptable(b) then
      DateStringNotEmpty(b.scheduledTime);
      Ok(CreateBooking(
        b.carId.n.value.Floor, b.serviceId.n.value.Floor, b.scheduledTime.s,
        b.latitude.n.value, b.longitude.n.value))
    else
      Fail(BadRequest)
  }

  /** The JSON body a client sends for a booking. */
  function Encode(d: CreateBooking): Body {
    Body(Number(Finite(d.carId as real)), Number(Finite(d.serviceId as real)),
         Str(d.scheduledTime), Number(Finite(d.latitude)), Number(Finite(d.longitude)), {})
  }

  /** Every booking within the documented ranges is accepted unchanged. */
  lemma AcceptsEveryWellFormedBooking(d: CreateBooking)
    requires d.carId >= 1 && d.serviceId >= 1 && IsIso8601(d.scheduledTime)
    requires -90.0 <= d.latitude <= 90.0 && -180.0 <= d.longitude <= 180.0
    ensures Validate(Encode(d)) == Ok(d)
  {
    assert (d.carId as real).Floor == d.carId;
    assert (d.serviceId as real).Floor == d.serviceId;
    DateStringNotEmpty(Str(d.scheduledTime));
  }
}
