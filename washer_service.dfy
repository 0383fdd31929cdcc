/** WasherService: washer profiles, their KYC review, and the nearby search.
    The distance function (haversine in the source) is a parameter. */
module WasherService {
  import opened Wrappers
  import opened Entities
  import opened Store
  import US = UserService
  import NS = NotificationService

  const ApprovedTitle := "KYC Approved"
  const ApprovedMessage := "Your washer account has been approved. You can now accept jobs."
  const RejectedTitle := "KYC Rejected"
  const RejectedMessage := "Your washer verification was rejected. Please resubmit your documents."

  /** The one-to-one relation seen from the user side. */
  predicate HasProfile(washers: map<Id, Washer>, userId: Id) {
    exists k :: k in washers && washers[k].user == userId
  }

  /** getWasherById: the profile of a USER id (not of a washer id); NotFound
      when that user has none. */
  method GetWasherById(db: Database, userId: Id) returns (r: Result<Id>)
    requires db.Valid()
    ensures r.Fail? <==> !HasProfile(db.washers, userId)
    ensures r.Fail? ==> r.err == NotFound
    ensures r.Ok? ==> r.value in db.washers && db.washers[r.value].user == userId
    ensures r.Ok? ==> forall k :: k in db.washers && db.washers[k].user == userId ==> k == r.value
  {
    if k :| k in db.washers && db.washers[k].user == userId {
      r := Ok(k);
    } else {
      r := Fail(NotFound);
    }
  }

  /** A new profile for a user without one keeps the one-to-one relation. */
  lemma NewProfileStaysOneToOne(washers: map<Id, Washer>, id: Id, w: Washer)
    requires OneProfilePerUser(washers) && id !in washers && !HasProfile(washers, w.user)
    ensures OneProfilePerUser(washers[id := w])
  {
  }

  /** registerAsWasher: NotFound for an unknown user, BadRequest when the user
      already has a profile; otherwise one new pending profile. The admin
      notification is a no-op (see NotificationService.NotifyAdmins). */
  method RegisterAsWasher(db: Database, userId: Id, idPhotoUrl: Option<string>) returns (r: Result<Id>)
    requires db.Valid()
    modifies db`washers, db`nextId, db`notifications
    ensures db.Valid()
    ensures userId !in db.users ==> r == Fail(NotFound)
    ensures userId in db.users && HasProfile(old(db.washers), userId) ==> r == Fail(BadRequest)
    ensures r.Ok? <==> userId in db.users && !HasProfile(old(db.washers), userId)
    ensures r.Fail? ==> db.washers == old(db.washers)
    ensures r.Ok? ==> r.value !in old(db.washers)
    ensures r.Ok? ==> db.washers == old(db.washers)[r.value := NewWasher(userId, idPhotoUrl)]
    ensures r.Ok? ==> db.washers[r.value].kycStatus == KycPending
    ensures db.notifications == old(db.notifications)
  {
    var user := US.FindById(db, userId);
    if user.None? {
      return Fail(NotFound);
    }
    var existing := GetWasherById(db, userId);
    if existing.Ok? {
      return Fail(BadRequest);
    }
    var id := db.NewId();
    NewProfileStaysOneToOne(db.washers, id, NewWasher(userId, idPhotoUrl));
    db.washers := db.washers[id := NewWasher(userId, idPhotoUrl)];
    ghost var sent := NS.NotifyAdmins(db, "New washer registration",
                                      "User " + user.value.name + " submitted KYC and is awaiting approval.",
                                      NS.UserServiceHasFindByRole);
    r := Ok(id);
  }

  /** The KYC decision: the profile's status, the user's new role and one
      notification to the user. The user relation is loaded, so a profile
      whose user row is gone fails on `washer.user.id`. */
  method Decide(db: Database, userId: Id, status: KycStatus, role: Role, title: string, message: string)
    returns (r: Result<Id>)
    requires db.Valid()
    modifies db`washers, db`users, db`notifications, db`nextId
    ensures db.Valid()
    ensures !HasProfile(old(db.washers), userId) ==> r == Fail(NotFound)
    ensures HasProfile(old(db.washers), userId) && userId in old(db.users) ==> r.Ok?
    ensures r.Fail? ==> r.err != NotFound ==> r.err == InternalServerError && userId !in old(db.users)
    ensures r.Fail? ==> db.washers == old(db.washers) && db.users == old(db.users)
    ensures r.Fail? ==> db.notifications == old(db.notifications)
    ensures r.Ok? ==> r.value in old(db.washers) && old(db.washers)[r.value].user == userId && userId in old(db.users)
    ensures r.Ok? ==> db.washers == old(db.washers)[r.value := old(db.washers)[r.value].(kycStatus := status)]
    ensures r.Ok? ==> db.users == old(db.users)[userId := old(db.users)[userId].(role := role)]
    ensures r.Ok? ==> exists n: Id :: n !in old(db.notifications) &&
                        db.notifications == old(db.notifications)[n := NewNotification(userId, title, message)]
  {
    var found := GetWasherById(db, userId);
    if found.Fail? {
      return Fail(NotFound);
    }
    var k := found.value;
    var w := db.washers[k];
    if w.user !in db.users {
      return Fail(InternalServerError);
    }
    var dto := US.UpdateUserDto(None, None, Some(Some(role)));
    var updated := US.UpdateMyProfile(db, w.user, dto);
    if updated.Fail? {
      assert false;
    }
    assert updated.value == old(db.users)[userId].(role := role);
    db.washers := db.washers[k := w.(kycStatus := status)];
    var sent := NS.NotifyUser(db, w.user, title, message);
    if sent.Fail? {
      assert false;
    }
    r := Ok(k);
  }

  /** approveWasher: kycStatus approved, the user's role washer. */
  method ApproveWasher(db: Database, userId: Id) returns (r: Result<Id>)
    requires db.Valid()
    modifies db`washers, db`users, db`notifications, db`nextId
    ensures db.Valid()
    ensures !HasProfile(old(db.washers), userId) ==> r == Fail(NotFound)
    ensures HasProfile(old(db.washers), userId) && userId in old(db.users) ==> r.Ok?
    ensures r.Fail? ==> db.washers == old(db.washers) && db.users == old(db.users)
    ensures r.Ok? ==> r.value in old(db.washers) && old(db.washers)[r.value].user == userId
    ensures r.Ok? ==> db.washers == old(db.washers)[r.value := old(db.washers)[r.value].(kycStatus := KycApproved)]
    ensures r.Ok? ==> userId in old(db.users)
    ensures r.Ok? ==> db.users == old(db.users)[userId := old(db.users)[userId].(role := RoleWasher)]
    ensures r.Ok? ==> exists n: Id :: n !in old(db.notifications) &&
                        db.notifications == old(db.notifications)[n := NewNotification(userId, ApprovedTitle, ApprovedMessage)]
  {
    r := Decide(db, userId, KycApproved, RoleWasher, ApprovedTitle, ApprovedMessage);
  }

  /** rejectWasher as written: the profile is loaded without its user relation,
      so `washer.user.id` is a TypeError and the call fails before anything is
      saved. Every call either finds no profile or is a 500. */
  method RejectWasherAsWritten(db: Database, userId: Id) returns (r: Result<Id>)
    requires db.Valid()
    ensures r.Fail?
    ensures r.err == NotFound <==> !HasProfile(db.washers, userId)
    ensures r.err != NotFound ==> r.err == InternalServerError
  {
    var found := GetWasherById(db, userId);
    if found.Fail? {
      return Fail(NotFound);
    }
    // washer.user is undefined here: reading .id throws
    r := Fail(InternalServerError);
  }

  /** rejectWasher as intended: kycStatus rejected, the user's role back to user. */
  method RejectWasher(db: Database, userId: Id) returns (r: Result<Id>)
    requires db.Valid()
    modifies db`washers, db`users, db`notifications, db`nextId
    ensures db.Valid()
    ensures !HasProfile(old(db.washers), userId) ==> r == Fail(NotFound)
    ensures HasProfile(old(db.washers), userId) && userId in old(db.users) ==> r.Ok?
    ensures r.Fail? ==> db.washers == old(db.washers) && db.users == old(db.users)
    ensures r.Ok? ==> r.value in old(db.washers) && old(db.washers)[r.value].user == userId
    ensures r.Ok? ==> db.washers == old(db.washers)[r.value := old(db.washers)[r.value].(kycStatus := KycRejected)]
    ensures r.Ok? ==> userId in old(db.users)
    ensures r.Ok? ==> db.users == old(db.users)[userId := old(db.users)[userId].(role := RoleUser)]
    ensures r.Ok? ==> exists n: Id :: n !in old(db.notifications) &&
                        db.notifications == old(db.notifications)[n := NewNotification(userId, RejectedTitle, RejectedMessage)]
  {
    r := Decide(db, userId, KycRejected, RoleUser, RejectedTitle, RejectedMessage);
  }

  /** The fields updateWasherProfile copies when they are not undefined;
      latitude and longitude may be set to null. */
  datatype WasherPatch = WasherPatch(
    latitude: Option<Option<real>>, longitude: Option<Option<real>>, isAvailable: Option<bool>)

  function Patched(w: Washer, p: WasherPatch): (v: Washer)
    ensures v.latitude == (if p.latitude.Some? then p.latitude.value else w.latitude)
    ensures v.longitude == (if p.longitude.Some? then p.longitude.value else w.longitude)
    ensures v.isAvailable == (if p.isAvailable.Some? then p.isAvailable.value else w.isAvailable)
    ensures v.(latitude := w.latitude, longitude := w.longitude, isAvailable := w.isAvailable) == w
  {
    w.(latitude := if p.latitude.Some? then p.latitude.value else w.latitude,
       longitude := if p.longitude.Some? then p.longitude.value else w.longitude,
       isAvailable := if p.isAvailable.Some? then p.isAvailable.value else w.isAvailable)
  }

  /** updateWasherProfile: NotFound without a profile; otherwise only the
      supplied location and availability fields change. */
  method UpdateWasherProfile(db: Database, userId: Id, patch: WasherPatch) returns (r: Result<Washer>)
    requires db.Valid()
    modifies db`washers
    ensures db.Valid()
    ensures r.Fail? <==> !HasProfile(old(db.washers), userId)
    ensures r.Fail? ==> r.err == NotFound && db.washers == old(db.washers)
    ensures r.Ok? ==> exists k :: k in old(db.washers) && old(db.washers)[k].user == userId &&
                        r.value == Patched(old(db.washers)[k], patch) && db.washers == old(db.washers)[k := r.value]
  {
    var found := GetWasherById(db, userId);
    if found.Fail? {
      return Fail(NotFound);
    }
    var k := found.value;
    var w := Patched(db.washers[k], patch);
    db.washers := db.washers[k := w];
    r := Ok(w);
  }

  /** JavaScript truthiness of a nullable number: null and 0 are skipped. */
  predicate Truthy(x: Option<real>) {
    x.Some? && x.value != 0.0
  }

  /** parseFloat(d.toFixed(2)): two decimals, halves away from zero. */
  function Round2(d: real): (r: real)
    ensures d >= 0.0 ==> r >= 0.0
    ensures -0.005 <= d - r <= 0.005
  {
    if d >= 0.0 then ((d * 100.0 + 0.5).Floor as real) / 100.0
    else -(((-d) * 100.0 + 0.5).Floor as real) / 100.0
  }

  /** The active services on a washer's menu. */
  function ActiveServicesOf(services: map<Id, ServiceMenu>, washer: Id): set<Id> {
    set s | s in services && services[s].washer == Some(washer) && services[s].isActive
  }

  type Distance = (real, real, real, real) -> real

  /** A washer the nearby search keeps. */
  predicate Nearby(db: Database, k: Id, lat: real, lng: real, radiusKm: real, dist: Distance)
    reads db
  {
    && k in db.washers
    && var w := db.washers[k];
    && w.isAvailable && w.kycStatus == KycApproved
    && Truthy(w.latitude) && Truthy(w.longitude)
    && dist(lat, lng, w.latitude.value, w.longitude.value) <= radiusKm
    && ActiveServicesOf(db.services, k) != {}
  }

  function NearbySet(db: Database, lat: real, lng: real, radiusKm: real, dist: Distance): set<Id>
    reads db
  {
    set k | k in db.washers && Nearby(db, k, lat, lng, radiusKm, dist)
  }

  /** One entry of the result: the washer key, its user's name, the rounded
      distance and its active services. */
  datatype NearbyWasher = NearbyWasher(washer: Id, name: string, distance: real, services: set<Id>)

  /** The entry the search builds for washer k. */
  predicate Describes(db: Database, e: NearbyWasher, lat: real, lng: real, dist: Distance)
    reads db
  {
    && e.washer in db.washers
    && var w := db.washers[e.washer];
    && w.user in db.users && w.latitude.Some? && w.longitude.Some?
    && e.name == db.users[w.user].name
    && e.distance == Round2(dist(lat, lng, w.latitude.value, w.longitude.value))
    && e.services == ActiveServicesOf(db.services, e.washer)
  }

  predicate SortedByDistance(s: seq<NearbyWasher>) {
    forall i, j :: 0 <= i < j < |s| ==> s[i].distance <= s[j].distance
  }

  function WasherIds(s: seq<NearbyWasher>): set<Id> {
    set i | 0 <= i < |s| :: s[i].washer
  }

  /** Every entry is at least `d` away. */
  predicate AllAtLeast(s: seq<NearbyWasher>, d: real) {
    forall i :: 0 <= i < |s| ==> s[i].distance >= d
  }

  lemma SortedCons(x: NearbyWasher, t: seq<NearbyWasher>)
    requires SortedByDistance(t) && AllAtLeast(t, x.distance)
    ensures SortedByDistance([x] + t)
  {
    forall i, j | 0 <= i < j < |[x] + t| ensures ([x] + t)[i].distance <= ([x] + t)[j].distance {
      if i > 0 {
        assert ([x] + t)[i] == t[i - 1] && ([x] + t)[j] == t[j - 1];
      } else {
        assert ([x] + t)[j] == t[j - 1];
      }
    }
  }

  /** Prepending an entry at least `d` away keeps every entry at least `d` away. */
  lemma ConsAtLeast(x: NearbyWasher, t: seq<NearbyWasher>)
    ensures forall d :: AllAtLeast(t, d) && x.distance >= d ==> AllAtLeast([x] + t, d)
  {
    assert forall i :: 0 < i < |[x] + t| ==> ([x] + t)[i] == t[i - 1];
  }

  /** The tail of a sequence keeps its lower bounds, and of a sorted one the
      head's distance is a lower bound of the tail. */
  lemma TailAtLeast(s: seq<NearbyWasher>)
    requires s != []
    ensures forall d :: AllAtLeast(s, d) ==> AllAtLeast(s[1..], d)
    ensures SortedByDistance(s) ==> SortedByDistance(s[1..]) && AllAtLeast(s[1..], s[0].distance)
  {
    assert forall i :: 0 <= i < |s[1..]| ==> s[1..][i] == s[i + 1];
  }

  /** Insert after every entry that is not farther, which keeps equal
      distances in their original order. */
  function InsertByDistance(s: seq<NearbyWasher>, e: NearbyWasher): (r: seq<NearbyWasher>)
    ensures multiset(r) == multiset(s) + multiset{e}
    ensures SortedByDistance(s) ==> SortedByDistance(r)
    ensures forall d :: AllAtLeast(s, d) && e.distance >= d ==> AllAtLeast(r, d)
    decreases |s|
  {
    if s == [] then [e]
    else if e.distance < s[0].distance then
      ConsAtLeast(e, s);
      if SortedByDistance(s) then SortedCons(e, s); [e] + s else [e] + s
    else
      var rest := InsertByDistance(s[1..], e);
      assert s == [s[0]] + s[1..];
      TailAtLeast(s);
      ConsAtLeast(s[0], rest);
      if SortedByDistance(s) then SortedCons(s[0], rest); [s[0]] + rest
      else [s[0]] + rest
  }

  /** results.sort((a, b) => a.distance - b.distance), a stable sort. */
  function SortByDistance(s: seq<NearbyWasher>): (r: seq<NearbyWasher>)
    ensures multiset(r) == multiset(s)
    ensures SortedByDistance(r)
    decreases |s|
  {
    if s == [] then []
    else
      assert s == s[..|s| - 1] + [s[|s| - 1]];
      InsertByDistance(SortByDistance(s[..|s| - 1]), s[|s| - 1])
  }

  lemma SameWashers(a: seq<NearbyWasher>, b: seq<NearbyWasher>)
    requires multiset(a) == multiset(b)
    ensures WasherIds(a) == WasherIds(b)
    ensures forall x :: x in a <==> x in b
  {
    assert forall x :: x in a <==> x in multiset(a);
    forall w | w in WasherIds(a) ensures w in WasherIds(b) {
      var i :| 0 <= i < |a| && a[i].washer == w;
      assert a[i] in multiset(b);
      var j :| 0 <= j < |b| && b[j] == a[i];
    }
    forall w | w in WasherIds(b) ensures w in WasherIds(a) {
      var j :| 0 <= j < |b| && b[j].washer == w;
      assert b[j] in multiset(a);
      var i :| 0 <= i < |a| && a[i] == b[j];
    }
  }

  /** The kept washers with a key below k. */
  function NearbyBelow(db: Database, k: Id, lat: real, lng: real, radiusKm: real, dist: Distance): set<Id>
    reads db
  {
    set j | j in db.washers && j < k && Nearby(db, j, lat, lng, radiusKm, dist)
  }

  /** What the loop has built after visiting the keys below k. */
  ghost predicate Scanned(db: Database, results: seq<NearbyWasher>, k: Id,
                          lat: real, lng: real, radiusKm: real, dist: Distance)
    reads db
  {
    && (forall i :: 0 <= i < |results| ==> Describes(db, results[i], lat, lng, dist))
    && WasherIds(results) == NearbyBelow(db, k, lat, lng, radiusKm, dist)
    && |results| == |NearbyBelow(db, k, lat, lng, radiusKm, dist)|
    && (forall j :: j in NearbyBelow(db, k, lat, lng, radiusKm, dist) ==> db.washers[j].user in db.users)
  }

  lemma ScanSkip(db: Database, results: seq<NearbyWasher>, k: Id,
                 lat: real, lng: real, radiusKm: real, dist: Distance)
    requires Scanned(db, results, k, lat, lng, radiusKm, dist)
    requires !(k in db.washers && Nearby(db, k, lat, lng, radiusKm, dist))
    ensures Scanned(db, results, k + 1, lat, lng, radiusKm, dist)
  {
    assert NearbyBelow(db, k + 1, lat, lng, radiusKm, dist) == NearbyBelow(db, k, lat, lng, radiusKm, dist);
  }

  lemma ScanAdd(db: Database, results: seq<NearbyWasher>, k: Id, e: NearbyWasher,
                lat: real, lng: real, radiusKm: real, dist: Distance)
    requires Scanned(db, results, k, lat, lng, radiusKm, dist)
    requires k in db.washers && Nearby(db, k, lat, lng, radiusKm, dist)
    requires e.washer == k && Describes(db, e, lat, lng, dist)
    ensures Scanned(db, results + [e], k + 1, lat, lng, radiusKm, dist)
  {
    var below := NearbyBelow(db, k, lat, lng, radiusKm, dist);
    var below' := NearbyBelow(db, k + 1, lat, lng, radiusKm, dist);
    var results' := results + [e];
    assert below' == below + {k};
    assert k !in below;
    assert |below'| == |below| + 1;
    WasherIdsSnoc(results, e);
    forall i | 0 <= i < |results'| ensures Describes(db, results'[i], lat, lng, dist) {
      if i < |results| {
        assert results'[i] == results[i];
      }
    }
  }

  lemma WasherIdsSnoc(s: seq<NearbyWasher>, e: NearbyWasher)
    ensures WasherIds(s + [e]) == WasherIds(s) + {e.washer}
  {
    assert forall i :: 0 <= i < |s| ==> (s + [e])[i] == s[i];
    assert (s + [e])[|s|] == e;
  }

  /** The loop of findNearbyWashersWithServices: one entry per kept washer,
      in key order; a kept washer whose user row is gone fails on
      `washer.user.name`. */
  method ScanWashers(db: Database, lat: real, lng: real, radiusKm: real, dist: Distance)
    returns (r: Result<seq<NearbyWasher>>)
    requires db.Valid()
    ensures r.Fail? <==> exists k :: k in NearbySet(db, lat, lng, radiusKm, dist) && db.washers[k].user !in db.users
    ensures r.Fail? ==> r.err == InternalServerError
    ensures r.Ok? ==> WasherIds(r.value) == NearbySet(db, lat, lng, radiusKm, dist)
    ensures r.Ok? ==> |r.value| == |NearbySet(db, lat, lng, radiusKm, dist)|
    ensures r.Ok? ==> forall i :: 0 <= i < |r.value| ==> Describes(db, r.value[i], lat, lng, dist)
  {
    var results: seq<NearbyWasher> := [];
    var k := 0;
    assert NearbyBelow(db, 0, lat, lng, radiusKm, dist) == {};
    while k < db.nextId
      invariant k <= db.nextId
      invariant Scanned(db, results, k, lat, lng, radiusKm, dist)
    {
      if k in db.washers && Nearby(db, k, lat, lng, radiusKm, dist) {
        var w := db.washers[k];
        if w.user !in db.users {
          assert k in NearbySet(db, lat, lng, radiusKm, dist);
          return Fail(InternalServerError);
        }
        var e := NearbyWasher(k, db.users[w.user].name,
                              Round2(dist(lat, lng, w.latitude.value, w.longitude.value)),
                              ActiveServicesOf(db.services, k));
        ScanAdd(db, results, k, e, lat, lng, radiusKm, dist);
        results := results + [e];
      } else {
        ScanSkip(db, results, k, lat, lng, radiusKm, dist);
      }
      k := k + 1;
    }
    assert NearbySet(db, lat, lng, radiusKm, dist) == NearbyBelow(db, k, lat, lng, radiusKm, dist);
    r := Ok(results);
  }

  /** findNearbyWashersWithServices: every available, approved washer with
      non-zero coordinates within the radius and at least one active service,
      nearest first; NotFound when there is none. */
  method FindNearby(db: Database, lat: real, lng: real, radiusKm: real, dist: Distance)
    returns (r: Result<seq<NearbyWasher>>)
    requires db.Valid()
    ensures r == Fail(NotFound) <==> NearbySet(db, lat, lng, radiusKm, dist) == {}
    ensures r == Fail(InternalServerError) <==>
              exists k :: k in NearbySet(db, lat, lng, radiusKm, dist) && db.washers[k].user !in db.users
    ensures r.Fail? ==> r.err == NotFound || r.err == InternalServerError
    ensures r.Ok? ==> SortedByDistance(r.value)
    ensures r.Ok? ==> WasherIds(r.value) == NearbySet(db, lat, lng, radiusKm, dist)
    ensures r.Ok? ==> |r.value| == |NearbySet(db, lat, lng, radiusKm, dist)|
    ensures r.Ok? ==> forall i :: 0 <= i < |r.value| ==> Describes(db, r.value[i], lat, lng, dist)
  {
    var scan := ScanWashers(db, lat, lng, radiusKm, dist);
    if scan.Fail? {
      return scan;
    }
    var results := scan.value;
    if |results| < 1 {
      return Fail(NotFound);
    }
    assert results[0].washer in WasherIds(results);
    var sorted := SortByDistance(results);
    SameWashers(sorted, results);
    assert |sorted| == |multiset(sorted)| == |multiset(results)| == |results|;
    forall i | 0 <= i < |sorted| ensures Describes(db, sorted[i], lat, lng, dist) {
      assert sorted[i] in results;
    }
    r := Ok(sorted);
  }
}
