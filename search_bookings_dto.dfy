/** SearchBookingsDto: the admin search query, with its literal defaults and bounds. */
module SearchBookingsDto {
  import opened Wrappers
  import opened ClassValidator

  /** The transaction module's PaymentStatus values, which @IsEnum checks
      paymentStatus against (not the booking's own payment states). */
  const PaymentStatusValues: set<string> := {"paid", "notPaid"}

  const DefaultPage: nat := 1
  const DefaultLimit: nat := 10
  const MaxLimit: nat := 100

  /** The query string as the validators see it. userId, washerId, page and
      limit carry @Type(() => Number), so they arrive as numbers. */
  datatype Query = Query(
    status: JsValue,
    paymentStatus: JsValue,
    startDate: JsValue,
    endDate: JsValue,
    userId: JsValue,
    washerId: JsValue,
    page: JsValue,
    limit: JsValue,
    unknownKeys: set<string>)

  /** A query that passed validation, defaults applied. */
  datatype SearchBookings = SearchBookings(
    status: JsValue,
    paymentStatus: Option<string>,
    startDate: Option<string>,
    endDate: Option<string>,
    userId: Option<nat>,
    washerId: Option<nat>,
    page: nat,
    limit: nat)

  /** An absent page or limit takes the property initialiser's value. */
  function WithDefault(v: JsValue, d: nat): (r: JsValue)
    ensures v == Undefined ==> r == Number(Finite(d as real))
    ensures v != Undefined ==> r == v
  {
    if v == Undefined then Number(Finite(d as real)) else v
  }

  /** @IsOptional, @IsInt, @Min(1). */
  predicate OptionalPositiveInt(v: JsValue) {
    Absent(v) || (IsInt(v) && Min(v, 1.0))
  }

  predicate Acceptable(q: Query) {
    && q.unknownKeys == {}
    && (Absent(q.paymentStatus) || IsEnum(q.paymentStatus, PaymentStatusValues))
    && (Absent(q.startDate) || IsDateString(q.startDate))
    && (Absent(q.endDate) || IsDateString(q.endDate))
    && OptionalPositiveInt(q.userId)
    && OptionalPositiveInt(q.washerId)
    && OptionalPositiveInt(WithDefault(q.page, DefaultPage))
    && (var limit := WithDefault(q.limit, DefaultLimit);
        Absent(limit) || (IsInt(limit) && Min(limit, 1.0) && Max(limit, MaxLimit as real)))
  }

  /** An optional positive integer that passed validation. */
  function PositiveOrNone(v: JsValue): (r: Option<nat>)
    requires OptionalPositiveInt(v)
    ensures r.None? <==> Absent(v)
    ensures r.Some? ==> r.value >= 1 && v == Number(Finite(r.value as real))
  {
    if Absent(v) then None else Some(v.n.value.Floor)
  }

  function StringOrNone(v: JsValue): Option<string> {
    if v.Str? then Some(v.s) else None
  }

  /** The ValidationPipe on the search query. A page or limit sent as null is
      skipped by @IsOptional and then read as the default. */
  function Validate(q: Query): (r: Result<SearchBookings>)
    ensures r.Ok? <==> Acceptable(q)
    ensures r.Fail? ==> r.err == BadRequest
    ensures r.Ok? ==> r.value.page >= 1 && 1 <= r.value.limit <= MaxLimit
    ensures r.Ok? && q.page == Undefined ==> r.value.page == DefaultPage
    ensures r.Ok? && q.limit == Undefined ==> r.value.limit == DefaultLimit
    ensures r.Ok? && r.value.paymentStatus.Some? ==> r.value.paymentStatus.value in PaymentStatusValues
    ensures r.Ok? && r.value.userId.Some? ==> r.value.userId.value >= 1
    ensures r.Ok? && r.value.washerId.Some? ==> r.value.washerId.value >= 1
    ensures r.Ok? ==> r.value.status == q.status
  {
    if !Acceptable(q) then Fail(BadRequest)
    else
      var page := WithDefault(q.page, DefaultPage);
      var limit := WithDefault(q.limit, DefaultLimit);
      Ok(SearchBookings(
        q.status,
        StringOrNone(q.paymentStatus),
        StringOrNone(q.startDate),
        StringOrNone(q.endDate),
        PositiveOrNone(q.userId),
        PositiveOrNone(q.washerId),
        if Absent(page) then DefaultPage else page.n.value.Floor,
        if Absent(limit) then DefaultLimit else limit.n.value.Floor))
  }

  /** Every page and every limit in [1, 100] is accepted and kept. */
  lemma AcceptsEveryPageAndLimitInRange(page: nat, limit: nat)
    requires page >= 1 && 1 <= limit <= MaxLimit
    ensures var r := Validate(Query(Undefined, Undefined, Undefined, Undefined, Undefined, Undefined,
                                    Number(Finite(page as real)), Number(Finite(limit as real)), {}));
            r.Ok? && r.value.page == page && r.value.limit == limit
  {
    assert (page as real).Floor == page;
    assert (limit as real).Floor == limit;
  }

  /** A limit above 100, or a page of 0, is refused. */
  lemma RefusesOutOfRange(page: nat, limit: nat)
    requires page == 0 || limit > MaxLimit
    ensures Validate(Query(Undefined, Undefined, Undefined, Undefined, Undefined, Undefined,
                           Number(Finite(page as real)), Number(Finite(limit as real)), {})) == Fail(BadRequest)
  {
  }
}
