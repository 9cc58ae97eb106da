/** The `DangerZone` document of the danger-zones collection: record shape,
    the severity enumeration, the schema defaults, the validation `save()`
    runs, and the collection with its unique-name index. */
module ZoneModel {
  import opened Base

  /** One `[latitude, longitude]` pair of a zone's boundary. */
  datatype Point = Point(latitude: real, longitude: real)

  datatype Severity = Low | Medium | High

  /** A stored danger zone. */
  datatype DangerZone = DangerZone(
    name: string,
    coordinates: seq<Point>,
    description: string,
    severity: Severity,
    isActive: bool,
    createdAt: Time)

  /** The schema's default for `description`. */
  const DefaultDescription: string := "Area identified as potentially unsafe."

  /** The string the schema stores for each severity. */
  function SeverityName(s: Severity): string {
    match s
    case Low => "low"
    case Medium => "medium"
    case High => "high"
  }

  /** The `enum: ['low', 'medium', 'high']` validator: the severity a string
      names, or `None` when validation rejects it. */
  function ParseSeverity(s: string): (r: Option<Severity>)
    ensures r.Some? ==> SeverityName(r.value) == s
    ensures r.None? ==> s != "low" && s != "medium" && s != "high"
  {
    if s == "low" then Some(Low)
    else if s == "medium" then Some(Medium)
    else if s == "high" then Some(High)
    else None
  }

  /** The enumeration and its string names are in one-to-one correspondence. */
  lemma SeverityRoundTrip(v: Severity, s: string)
    ensures ParseSeverity(SeverityName(v)) == Some(v)
    ensures ParseSeverity(s).Some? ==> SeverityName(ParseSeverity(s).value) == s
  {
  }

  /** A closed polygon repeats its first point as its last. The schema only
      documents this intent; nothing checks it. */
  predicate Closed(ps: seq<Point>) {
    |ps| > 0 && ps[0] == ps[|ps| - 1]
  }

  /** What validation guarantees of a stored zone: a non-empty name. */
  ghost predicate ZoneValid(z: DangerZone) {
    z.name != ""
  }

  /** The unique index on `name`, plus validity of every zone. */
  ghost predicate ZonesInvariant(zones: seq<DangerZone>) {
    && (forall k :: 0 <= k < |zones| ==> ZoneValid(zones[k]))
    && (forall i, j :: 0 <= i < j < |zones| ==> zones[i].name != zones[j].name)
  }

  /** `new DangerZone({...})` followed by the validation of `save()`. A
      missing `description`, `severity` or `isActive` takes the schema
      default; the zone is stored only when `name` is non-empty and the
      severity, if given, is one of the enumeration's strings. */
  function CreateZone(name: string, coordinates: seq<Point>, description: Option<string>,
                      severity: Option<string>, isActive: Option<bool>, now: Time): (r: Option<DangerZone>)
    ensures r.Some? <==> name != "" && (severity.None? || ParseSeverity(severity.value).Some?)
    ensures r.Some? ==> ZoneValid(r.value) && r.value.name == name && r.value.coordinates == coordinates
    ensures r.Some? && description.None? ==> r.value.description == DefaultDescription
    ensures r.Some? && description.Some? ==> r.value.description == description.value
    ensures r.Some? && severity.None? ==> r.value.severity == Medium
    ensures r.Some? && severity.Some? ==> SeverityName(r.value.severity) == severity.value
    ensures r.Some? ==> r.value.isActive == (isActive != Some(false)) && r.value.createdAt == now
  {
    var sev := if severity.None? then Some(Medium) else ParseSeverity(severity.value);
    if name != "" && sev.Some? then
      Some(DangerZone(name, coordinates, description.GetOr(DefaultDescription), sev.value,
                      isActive.GetOr(true), now))
    else
      None
  }

  /** Closure is not enforced: validation accepts an open boundary. */
  lemma OpenBoundaryAccepted()
    ensures var z := CreateZone("open", [Point(0.0, 0.0), Point(1.0, 1.0)], None, None, None, 0);
            z.Some? && !Closed(z.value.coordinates)
  {
  }

  /** The danger-zones collection, in storage order. */
  class ZoneCollection {
    var zones: seq<DangerZone>

    ghost predicate Valid()
      reads this
    {
      ZonesInvariant(zones)
    }

    constructor ()
      ensures Valid() && zones == []
    {
      zones := [];
    }
  }
}
