/** The danger-zone routes: listing the active zones and seeding a test zone. */
module DangerZoneRoutes {
  import opened Base
  import opened ZoneModel

  /** `GET /`, `DangerZone.find({ isActive: true })`: the active zones, in
      storage order. */
  function ActiveZones(zones: seq<DangerZone>): (r: seq<DangerZone>)
    ensures forall z :: z in r <==> z in zones && z.isActive
    ensures |r| <= |zones|
  {
    if zones == [] then []
    else (if zones[0].isActive then [zones[0]] else []) + ActiveZones(zones[1..])
  }

  /** Listing distributes over concatenation, so the listing keeps the
      storage order of the zones it returns. */
  lemma {:induction false} ActiveZonesAppend(a: seq<DangerZone>, b: seq<DangerZone>)
    ensures ActiveZones(a + b) == ActiveZones(a) + ActiveZones(b)
  {
    if a != [] {
      assert (a + b)[1..] == a[1..] + b;
      ActiveZonesAppend(a[1..], b);
    } else {
      assert a + b == b;
    }
  }

  /** When every zone is active the listing is the whole collection, in order. */
  lemma {:induction false} ActiveZonesAllActive(zones: seq<DangerZone>)
    requires forall k :: 0 <= k < |zones| ==> zones[k].isActive
    ensures ActiveZones(zones) == zones
  {
    if zones != [] {
      ActiveZonesAllActive(zones[1..]);
      assert [zones[0]] + zones[1..] == zones;
    }
  }

  /** Defaults of the seeding request when a field is omitted. */
  const DefaultTestName: string := "Test Danger Zone"
  const DefaultTestDescription: string := "A simulated unsafe area for testing."
  const DefaultTestSeverity: string := "high"

  /** The fixed boundary of the test zone: a small square whose first point
      is repeated at the end. */
  const TestCoordinates: seq<Point> := [
    Point(16.3420, 80.4430),
    Point(16.3420, 80.4440),
    Point(16.3430, 80.4440),
    Point(16.3430, 80.4430),
    Point(16.3420, 80.4430)
  ]

  /** Some stored zone already has this name. */
  predicate NameTaken(zones: seq<DangerZone>, name: string) {
    exists k :: 0 <= k < |zones| && zones[k].name == name
  }

  /** `POST /add-test-zone`. Omitted fields take the request defaults
      (severity `'high'`). A name already stored is refused with 400 and
      nothing is added. An empty name or a severity outside low, medium and
      high fails validation on save: 500, nothing added. Otherwise exactly
      one zone is appended: active, with the fixed closed five-point
      boundary. */
  method AddTestZone(db: ZoneCollection, name: Option<string>, description: Option<string>,
                     severity: Option<string>, now: Time)
    returns (status: Status, zone: Option<DangerZone>)
    requires db.Valid()
    modifies db
    ensures db.Valid()
    ensures NameTaken(old(db.zones), name.GetOr(DefaultTestName)) ==>
      status == BadRequest && zone == None && unchanged(db)
    ensures !NameTaken(old(db.zones), name.GetOr(DefaultTestName))
            && (name.GetOr(DefaultTestName) == "" || ParseSeverity(severity.GetOr(DefaultTestSeverity)).None?) ==>
      status == ServerError && zone == None && unchanged(db)
    ensures status == OK <==>
      && !NameTaken(old(db.zones), name.GetOr(DefaultTestName))
      && name.GetOr(DefaultTestName) != ""
      && ParseSeverity(severity.GetOr(DefaultTestSeverity)).Some?
    ensures status == OK ==>
      && zone.Some?
      && db.zones == old(db.zones) + [zone.value]
      && zone.value.name == name.GetOr(DefaultTestName)
      && zone.value.description == description.GetOr(DefaultTestDescription)
      && SeverityName(zone.value.severity) == severity.GetOr(DefaultTestSeverity)
      && zone.value.isActive
      && zone.value.coordinates == TestCoordinates
      && |zone.value.coordinates| == 5 && Closed(zone.value.coordinates)
      && zone.value.createdAt == now
    ensures status == OK && severity.None? ==> zone.value.severity == High
  {
    var n := name.GetOr(DefaultTestName);
    var d := description.GetOr(DefaultTestDescription);
    var s := severity.GetOr(DefaultTestSeverity);
    if NameTaken(db.zones, n) {
      return BadRequest, None;
    }
    var created := CreateZone(n, TestCoordinates, Some(d), Some(s), Some(true), now);
    if created.None? {
      return ServerError, None;
    }
    db.zones := db.zones + [created.value];
    status, zone := OK, created;
  }
}
