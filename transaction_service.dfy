/** TransactionService: the payment ledger kept against the Paystack gateway.
    The gateway's HTTP calls are function parameters that return either a
    reply or the error the HTTP client throws; the webhook's HMAC is
    Crypto.HmacHex. */
module TransactionService {
  import opened Wrappers
  import opened Entities
  import opened Store
  import opened Crypto
  import US = UserService
  import NS = NotificationService
  import SMS = ServiceMenuService

  /** The gateway status that confirms a payment. */
  const SuccessStatus := "success"

  const InitializedTitle := "Payment initialized"
  const InitializedMessage := "Your payment has been initialized. Complete the payment to proceed."

  /** The body of the initialize call: the user's email, the service price and
      the metadata ids. */
  datatype InitRequest = InitRequest(
    email: string, amount: real, callbackUrl: Option<string>, userId: Id, serviceId: Id)

  datatype InitData = InitData(
    reference: Option<string>, authorizationUrl: Option<string>, amount: Option<real>, transactionDate: Option<string>)

  datatype InitReply = InitReply(status: bool, message: Option<string>, data: Option<InitData>)

  datatype VerifyData = VerifyData(status: Option<string>)
  datatype VerifyReply = VerifyReply(data: Option<VerifyData>)

  /** An HTTP error response from the gateway. */
  datatype HttpError = HttpError(status: int, message: Option<string>)

  /** What the HTTP client throws: an axios error with or without a response
      (and, without one, whether the request went out), or anything else. */
  datatype GatewayFailure =
    | AxiosError(response: Option<HttpError>, requestSent: bool)
    | OtherError

  datatype Call<T> = Replied(reply: T) | Threw(failure: GatewayFailure)

  /** The exception initializeTransaction raises for a failed gateway call. */
  function ClassifyInitError(f: GatewayFailure): (e: Err)
    ensures f.AxiosError? && f.response.Some? && f.response.value.status == 401 ==> e == Unauthorized
    ensures f.AxiosError? && f.response.Some? && f.response.value.status == 400 ==> e == BadRequest
    ensures f.AxiosError? && f.response.Some? && f.response.value.status >= 500 ==> e == InternalServerError
    ensures (&& f.AxiosError? && f.response.Some? && f.response.value.status !in {400, 401}
             && f.response.value.status < 500) ==> e == BadRequest
    ensures f.AxiosError? && f.response.None? ==> e == InternalServerError
    ensures f.OtherError? ==> e == InternalServerError
    ensures e in {Unauthorized, BadRequest, InternalServerError}
  {
    match f
    case AxiosError(Some(resp), _) =>
      if resp.status == 401 then Unauthorized
      else if resp.status == 400 then BadRequest
      else if resp.status >= 500 then InternalServerError
      else BadRequest
    // no response received, or the request could not be set up
    case AxiosError(None, _) => InternalServerError
    case OtherError => InternalServerError
  }

  /** The row saved for a successful initialization: the gateway's reference,
      link, amount and date, the service id, status at its default notPaid. */
  function NewTransaction(data: InitData, serviceId: Id): (t: Transaction)
    ensures t.transactionReference == data.reference && t.paymentLink == data.authorizationUrl
    ensures t.amount == data.amount && t.transactionDate == data.transactionDate
    ensures t.serviceId == serviceId && t.status == TxNotPaid && t.transactionStatus == None
  {
    Transaction(data.reference, data.authorizationUrl, None, TxNotPaid, data.transactionDate, data.amount, serviceId)
  }

  /** A gateway that initializes the payment asked for: a reply with status
      true that carries data. */
  predicate Accepts(gateway: InitRequest -> Call<InitReply>, req: InitRequest) {
    gateway(req).Replied? && gateway(req).reply.status && gateway(req).reply.data.Some?
  }

  /** The success path of initializeTransaction: one new notPaid row, then
      the user's "payment initialized" notification. */
  method SaveInitialized(db: Database, userId: Id, data: InitData, serviceId: Id) returns (id: Id)
    requires db.Valid() && userId in db.users
    modifies db`transactions, db`nextId, db`notifications
    ensures db.Valid()
    ensures id == old(db.nextId) && db.nextId == old(db.nextId) + 2 && id !in old(db.transactions)
    ensures db.transactions == old(db.transactions)[id := NewTransaction(data, serviceId)]
    ensures old(db.nextId) + 1 !in old(db.notifications)
    ensures db.notifications == old(db.notifications)[old(db.nextId) + 1 :=
              NewNotification(userId, InitializedTitle, InitializedMessage)]
  {
    id := db.NewId();
    db.transactions := db.transactions[id := NewTransaction(data, serviceId)];
    var sent := NS.NotifyUser(db, userId, InitializedTitle, InitializedMessage);
    if sent.Fail? {
      assert false;
    }
  }

  /** initializeTransaction: NotFound for a missing or inactive service, then
      for a missing user, before the gateway is called. The gateway is asked
      for the service's price on the user's email. A thrown call is
      classified; a reply with status true saves one notPaid row and notifies
      the user; any other reply is a BadRequest. `request` is the call made,
      if any. */
  method InitializeTransaction(db: Database, userId: Id, serviceId: Option<Id>, callbackUrl: Option<string>,
                               gateway: InitRequest -> Call<InitReply>)
    returns (r: Result<Id>, ghost request: Option<InitRequest>)
    requires db.Valid()
    modifies db`transactions, db`nextId, db`notifications
    ensures db.Valid()
    ensures serviceId.Some? && !SMS.Offered(db.services, serviceId.value) ==> r == Fail(NotFound)
    ensures userId !in db.users ==> r == Fail(NotFound)
    ensures request.None? ==> r == Fail(NotFound) && db.transactions == old(db.transactions)
    ensures request.Some? ==> && userId in db.users
                              && SMS.Offered(db.services, request.value.serviceId)
                              && request.value.amount == db.services[request.value.serviceId].price
                              && request.value.email == db.users[userId].email
                              && request.value.userId == userId
                              && (serviceId.Some? ==> request.value.serviceId == serviceId.value)
    ensures request.Some? && gateway(request.value).Threw? ==>
              r == Fail(ClassifyInitError(gateway(request.value).failure))
    ensures request.Some? && gateway(request.value).Replied? && !gateway(request.value).reply.status ==>
              r == Fail(BadRequest)
    ensures (&& userId in db.users
             && (serviceId.Some? ==> SMS.Offered(db.services, serviceId.value))
             && (serviceId.None? ==> exists s :: SMS.Offered(db.services, s))) ==> request.Some?
    ensures request.Some? && gateway(request.value).Replied? && gateway(request.value).reply.status ==>
              (r.Ok? <==> gateway(request.value).reply.data.Some?)
    ensures (&& request.Some? && gateway(request.value).Replied? && gateway(request.value).reply.status
             && gateway(request.value).reply.data.None?) ==> r == Fail(InternalServerError)
    ensures r.Fail? ==> && db.transactions == old(db.transactions)
                        && db.notifications == old(db.notifications) && db.nextId == old(db.nextId)
    ensures r.Ok? ==> request.Some? && gateway(request.value).Replied?
    ensures r.Ok? ==> var reply := gateway(request.value).reply;
                      reply.status && reply.data.Some? && r.value !in old(db.transactions) &&
                      db.transactions == old(db.transactions)[r.value := NewTransaction(reply.data.value, request.value.serviceId)]
    ensures r.Ok? ==> && r.value == old(db.nextId) && db.nextId == old(db.nextId) + 2
                      && old(db.nextId) + 1 !in old(db.notifications)
                      && db.notifications == old(db.notifications)[old(db.nextId) + 1 :=
                           NewNotification(userId, InitializedTitle, InitializedMessage)]
  {
    request := None;
    var service := SMS.GetService(db, serviceId);
    if service.Fail? {
      return Fail(NotFound), request;
    }
    var user := US.FindById(db, userId);
    if user.None? {
      return Fail(NotFound), request;
    }
    var sid := service.value;
    var callback := if callbackUrl.Some? && callbackUrl.value != "" then callbackUrl else None;
    var req := InitRequest(user.value.email, db.services[sid].price, callback, userId, sid);
    request := Some(req);
    match gateway(req) {
      case Threw(f) =>
        r := Fail(ClassifyInitError(f));
      case Replied(reply) =>
        if !reply.status {
          return Fail(BadRequest), request;
        }
        if reply.data.None? {
          // data.reference on undefined
          return Fail(InternalServerError), request;
        }
        var id := SaveInitialized(db, userId, reply.data.value, sid);
        r := Ok(id);
    }
  }

  /** The gateway status mapping of verifyTransaction and of the webhook:
      paid exactly when the gateway says "success"; a status the gateway sends
      is stored, and an undefined one is left out of the save, so the stored
      transactionStatus stays; nothing else touched. A paid row can go back to
      notPaid. */
  function ApplyGatewayStatus(t: Transaction, gatewayStatus: Option<string>): (v: Transaction)
    ensures v.status == TxPaid <==> gatewayStatus == Some(SuccessStatus)
    ensures gatewayStatus.Some? ==> v.transactionStatus == gatewayStatus
    ensures gatewayStatus.None? ==> v.transactionStatus == t.transactionStatus
    ensures v.(status := t.status, transactionStatus := t.transactionStatus) == t
  {
    t.(status := if gatewayStatus == Some(SuccessStatus) then TxPaid else TxNotPaid,
       transactionStatus := if gatewayStatus.Some? then gatewayStatus else t.transactionStatus)
  }

  /** Applying the same gateway status twice is applying it once. */
  lemma {:induction false} ApplyGatewayStatusIdempotent(t: Transaction, s: Option<string>)
    ensures ApplyGatewayStatus(ApplyGatewayStatus(t, s), s) == ApplyGatewayStatus(t, s)
  {
    var once := ApplyGatewayStatus(t, s);
    assert once.status == ApplyGatewayStatus(once, s).status;
  }

  /** A row the lookup `where: { transactionReference: ref }` can return; an
      undefined reference drops the condition. */
  predicate RefMatches(t: Transaction, ref: Option<string>) {
    ref.None? || t.transactionReference == ref
  }

  predicate HasRef(txs: map<Id, Transaction>, ref: Option<string>) {
    exists k :: k in txs && RefMatches(txs[k], ref)
  }

  /** findByRefrence: a row with that reference, if any. */
  method FindByReference(db: Database, refId: Option<string>) returns (t: Option<Id>)
    requires db.Valid()
    ensures t.None? <==> !HasRef(db.transactions, refId)
    ensures t.Some? ==> t.value in db.transactions && RefMatches(db.transactions[t.value], refId)
    ensures t.Some? && refId.Some? ==> db.transactions[t.value].transactionReference == refId
  {
    if k :| k in db.transactions && RefMatches(db.transactions[k], refId) {
      t := Some(k);
    } else {
      t := None;
    }
  }

  /** verifyTransaction: NotFound for an unknown reference; a failed gateway
      call returns null and changes nothing; otherwise the status mapping is
      saved. */
  method VerifyTransaction(db: Database, reference: Option<string>, gateway: Option<string> -> Call<VerifyReply>)
    returns (r: Result<Option<Id>>)
    requires db.Valid()
    modifies db`transactions
    ensures db.Valid()
    ensures r.Fail? <==> !HasRef(old(db.transactions), reference)
    ensures r.Fail? ==> r.err == NotFound
    ensures r.Ok? && r.value.None? ==> db.transactions == old(db.transactions)
    ensures r.Ok? && r.value.None? ==> exists k :: k in old(db.transactions) && RefMatches(old(db.transactions)[k], reference)
                                                   && gateway(old(db.transactions)[k].transactionReference).Threw?
    ensures r.Ok? && r.value.Some? ==> var k := r.value.value;
              && k in old(db.transactions) && RefMatches(old(db.transactions)[k], reference)
              && var reply := gateway(old(db.transactions)[k].transactionReference);
              && reply.Replied?
              && var status := if reply.reply.data.Some? then reply.reply.data.value.status else None;
              db.transactions == old(db.transactions)[k := ApplyGatewayStatus(old(db.transactions)[k], status)]
    ensures r.Fail? ==> db.transactions == old(db.transactions)
  {
    var found := FindByReference(db, reference);
    if found.None? {
      return Fail(NotFound);
    }
    var k := found.value;
    var t := db.transactions[k];
    match gateway(t.transactionReference) {
      case Threw(_) =>
        r := Ok(None);
      case Replied(reply) =>
        var status := if reply.data.Some? then reply.data.value.status else None;
        db.transactions := db.transactions[k := ApplyGatewayStatus(t, status)];
        r := Ok(Some(k));
    }
  }

  datatype WebhookData = WebhookData(reference: Option<string>, status: Option<string>)
  /** The webhook body, with `json` the text JSON.stringify gives for it. */
  datatype WebhookDto = WebhookDto(event: string, data: Option<WebhookData>, json: string)

  /** crypto.timingSafeEqual on the two strings' buffers: it throws (None
      here) when the lengths differ. */
  function TimingSafeEqual(a: string, b: string): (r: Option<bool>)
    ensures r.None? <==> |a| != |b|
    ensures r.Some? ==> (r.value <==> a == b)
  {
    if |a| != |b| then None else Some(a == b)
  }

  /** The header value the controller passes: `${headers[key]}`, so a
      missing header is the text "undefined". */
  function SignatureHeader(h: Option<string>): (s: string)
    ensures h.Some? ==> s == h.value
    ensures h.None? ==> s == "undefined"
  {
    if h.Some? then h.value else "undefined"
  }

  /** handlePaystackWebhook: false without data; NotFound without a secret
      key; false unless the signature equals the HMAC of the body; NotFound
      for an unknown reference; otherwise the status mapping is saved and
      the result is true. */
  method HandleWebhook(db: Database, dto: WebhookDto, signature: string, secret: Option<string>)
    returns (r: Result<bool>)
    requires db.Valid()
    modifies db`transactions
    ensures db.Valid()
    ensures dto.data.None? ==> r == Ok(false)
    ensures dto.data.Some? && (secret.None? || secret == Some("")) ==> r == Fail(NotFound)
    ensures dto.data.Some? && secret.Some? && secret.value != "" && signature != HmacHex(secret.value, dto.json) ==>
              r == Ok(false)
    ensures r == Ok(true) ==> secret.Some? && signature == HmacHex(secret.value, dto.json) && dto.data.Some?
    ensures r == Ok(true) <==> && dto.data.Some? && secret.Some? && secret.value != ""
                               && signature == HmacHex(secret.value, dto.json)
                               && HasRef(old(db.transactions), dto.data.value.reference)
    ensures (&& dto.data.Some? && secret.Some? && secret.value != "" && signature == HmacHex(secret.value, dto.json)
             && !HasRef(old(db.transactions), dto.data.value.reference)) ==> r == Fail(NotFound)
    ensures r != Ok(true) ==> db.transactions == old(db.transactions)
    ensures r == Ok(true) ==> exists k :: k in old(db.transactions)
                                 && RefMatches(old(db.transactions)[k], dto.data.value.reference)
                                 && db.transactions == old(db.transactions)[k := ApplyGatewayStatus(old(db.transactions)[k], dto.data.value.status)]
  {
    if dto.data.None? {
      return Ok(false);
    }
    var isValidEvent := false;
    if secret.None? || secret == Some("") {
      return Fail(NotFound);
    }
    var hash := HmacHex(secret.value, dto.json);
    if hash != "" && signature != "" {
      var same := TimingSafeEqual(hash, signature);
      if same.None? {
        // timingSafeEqual threw: caught, false
        return Ok(false);
      }
      isValidEvent := same.value;
    }
    if !isValidEvent {
      return Ok(false);
    }
    var found := FindByReference(db, dto.data.value.reference);
    if found.None? {
      return Fail(NotFound);
    }
    var k := found.value;
    db.transactions := db.transactions[k := ApplyGatewayStatus(db.transactions[k], dto.data.value.status)];
    r := Ok(true);
  }

  /** The webhook controller's HTTP status: 200 for true, 400 for false, the
      exception's status otherwise. */
  function WebhookStatus(r: Result<bool>): (code: int)
    ensures code == 200 <==> r == Ok(true)
    ensures r == Ok(false) ==> code == 400
    ensures r.Fail? ==> code == StatusCode(r.err)
  {
    match r
    case Ok(b) => if b then 200 else 400
    case Fail(e) => StatusCode(e)
  }

  /** Delivering the same signed webhook twice leaves the state of one
      delivery when the reference picks a single row. */
  method DeliverTwice(db: Database, dto: WebhookDto, signature: string, secret: Option<string>)
    returns (first: Result<bool>, second: Result<bool>)
    requires db.Valid()
    requires dto.data.Some? && dto.data.value.reference.Some?
    requires forall a, b :: (&& a in db.transactions && b in db.transactions
                             && db.transactions[a].transactionReference == dto.data.value.reference
                             && db.transactions[b].transactionReference == dto.data.value.reference) ==> a == b
    modifies db`transactions
    ensures first == second
    ensures first == Ok(true) ==>
              exists k :: k in old(db.transactions) && db.transactions == old(db.transactions)[k := ApplyGatewayStatus(old(db.transactions)[k], dto.data.value.status)]
  {
    first := HandleWebhook(db, dto, signature, secret);
    ghost var mid := db.transactions;
    second := HandleWebhook(db, dto, signature, secret);
    if first == Ok(true) {
      ghost var k :| k in old(db.transactions) && RefMatches(old(db.transactions)[k], dto.data.value.reference)
               && mid == old(db.transactions)[k := ApplyGatewayStatus(old(db.transactions)[k], dto.data.value.status)];
      assert RefMatches(mid[k], dto.data.value.reference);
      assert HasRef(mid, dto.data.value.reference);
      ghost var k2 :| k2 in mid && RefMatches(mid[k2], dto.data.value.reference)
                && db.transactions == mid[k2 := ApplyGatewayStatus(mid[k2], dto.data.value.status)];
      assert k2 == k;
      ApplyGatewayStatusIdempotent(old(db.transactions)[k], dto.data.value.status);
    }
  }
}
