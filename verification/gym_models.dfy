/** The records of the GymLocation feature: gym categories, search errors,
    search results (`NearbyGym`) and saved gyms (`GymDetails`). */
module GymModels {
  import opened Base

  /** Foundation's `UUID`, abstracted to a number. */
  type Id = nat

  /** A `Date` or `TimeInterval`, in seconds. */
  type Instant = real

  datatype Coordinate = Coordinate(latitude: real, longitude: real)

  /** `CLAuthorizationStatus`. */
  datatype AuthorizationStatus =
    NotDetermined | Restricted | Denied | AuthorizedAlways | AuthorizedWhenInUse

  /** `GymType`, a string-backed, case-iterable enumeration. */
  datatype GymType = Fitness | Crossfit | Yoga | MartialArts | Other

  /** The raw value each case is encoded as; decoding it gives the case
      back. */
  function RawValue(t: GymType): (s: string)
    ensures FromRawValue(s) == Some(t)
  {
    match t
    case Fitness => "Fitness Center"
    case Crossfit => "CrossFit"
    case Yoga => "Yoga Studio"
    case MartialArts => "Martial Arts"
    case Other => "Other"
  }

  /** `GymType.allCases`, in declaration order. */
  const AllGymTypes: seq<GymType> := [Fitness, Crossfit, Yoga, MartialArts, Other]

  /** `GymType(rawValue:)`, the decoding direction of the raw value. */
  function FromRawValue(s: string): (r: Option<GymType>)
    ensures r.Some? <==> s in {"Fitness Center", "CrossFit", "Yoga Studio", "Martial Arts", "Other"}
  {
    if s == "Fitness Center" then Some(Fitness)
    else if s == "CrossFit" then Some(Crossfit)
    else if s == "Yoga Studio" then Some(Yoga)
    else if s == "Martial Arts" then Some(MartialArts)
    else if s == "Other" then Some(Other)
    else None
  }

  /** Every case is listed once, and encoding and decoding are inverse:
      decoding a case's raw value gives that case back, and a decoded string
      is the raw value of what it decodes to. */
  lemma GymTypeRawValues(t: GymType, s: string)
    ensures |AllGymTypes| == 5
    ensures t in AllGymTypes
    ensures forall i, j | 0 <= i < j < |AllGymTypes| :: AllGymTypes[i] != AllGymTypes[j]
    ensures FromRawValue(RawValue(t)) == Some(t)
    ensures FromRawValue(s).Some? ==> RawValue(FromRawValue(s).value) == s
  {
  }

  /** `LocationError`, thrown by the search. */
  datatype LocationError = LocationNotAvailable | SearchFailed | PermissionDenied

  /** `LocationError.localizedDescription`. */
  function Description(e: LocationError): (m: string)
    ensures |m| > 0
    // The permission message is word for word the one the older service
    // reports when location access is refused, and no other error uses it.
    ensures m == Text(LocationAccessRequiredForSearch) <==> e == PermissionDenied
  {
    match e
    case LocationNotAvailable => "Location not available. Please enable location services."
    case SearchFailed => "Failed to search for nearby gyms."
    case PermissionDenied =>
      "Location access is required to find nearby gyms. Please enable location services in Settings."
  }

  /** Distinct errors are described by distinct messages. */
  lemma DescriptionsDistinct(a: LocationError, b: LocationError)
    ensures Description(a) == Description(b) <==> a == b
  {
    if a != b {
      assert Description(a)[0] != Description(b)[0] || Description(a)[1] != Description(b)[1]
        || |Description(a)| != |Description(b)|;
    }
  }

  /** A search result. */
  datatype NearbyGym = NearbyGym(
    id: Id,
    name: string,
    coordinate: Coordinate,
    address: string,
    distance: Option<real>,
    gymType: Option<GymType>)

  /** The hand-written `==` of `NearbyGym`: identifier, name, both coordinate
      components, address, distance and type all agree. */
  predicate SameNearbyGym(a: NearbyGym, b: NearbyGym) {
    && a.id == b.id
    && a.name == b.name
    && a.coordinate.latitude == b.coordinate.latitude
    && a.coordinate.longitude == b.coordinate.longitude
    && a.address == b.address
    && a.distance == b.distance
    && a.gymType == b.gymType
  }

  /** The hand-written equality is exactly structural equality. */
  lemma SameNearbyGymIsEquality(a: NearbyGym, b: NearbyGym)
    ensures SameNearbyGym(a, b) <==> a == b
  {
  }

  /** A gym the user has saved. */
  datatype GymDetails = GymDetails(
    id: Id,
    name: string,
    gymType: GymType,
    latitude: real,
    longitude: real,
    address: string,
    geofenceRadius: real,
    visits: seq<Instant>)
  {
    function Coord(): Coordinate {
      Coordinate(latitude, longitude)
    }
  }

  /** `GymDetails.visitsThisWeek`, where `cutoff` is the instant one week
      before now (`Calendar` arithmetic is a parameter). */
  function VisitsThisWeek(d: GymDetails, cutoff: Instant): (n: nat)
    ensures n <= |d.visits|
    ensures n == |d.visits| <==> forall i | 0 <= i < |d.visits| :: d.visits[i] >= cutoff
  {
    |Keep(d.visits, (t: Instant) => t >= cutoff)|
  }

  /** Recording one more visit raises the weekly count by one exactly when the
      visit is not older than the cutoff. */
  lemma VisitsThisWeekAppend(d: GymDetails, t: Instant, cutoff: Instant)
    ensures VisitsThisWeek(d.(visits := d.visits + [t]), cutoff)
         == VisitsThisWeek(d, cutoff) + (if t >= cutoff then 1 else 0)
  {
    KeepAppend(d.visits, [t], (x: Instant) => x >= cutoff);
  }

  /** The filter `removeAll { $0.id == id }` keeps: gyms with another id. */
  function OtherThan(id: Id): GymDetails -> bool {
    (g: GymDetails) => g.id != id
  }

  /** Removing the one gym with an identifier from the middle of a list
      leaves the gyms before and after it, in order. */
  lemma KeepOtherThanMiddle(before: seq<GymDetails>, gym: GymDetails, after: seq<GymDetails>)
    requires forall i | 0 <= i < |before| :: before[i].id != gym.id
    requires forall i | 0 <= i < |after| :: after[i].id != gym.id
    ensures Keep(before + [gym] + after, OtherThan(gym.id)) == before + after
  {
    var p := OtherThan(gym.id);
    var front := before + [gym];
    KeepNoneWithId(before, gym.id);
    KeepNoneWithId(after, gym.id);
    KeepOnlyWithId(gym);
    KeepAppend(before, [gym], p);
    assert Keep(front, p) == before;
    KeepAppend(front, after, p);
    assert Keep(front + after, p) == before + after;
  }

  lemma KeepNoneWithId(gyms: seq<GymDetails>, id: Id)
    requires forall i | 0 <= i < |gyms| :: gyms[i].id != id
    ensures Keep(gyms, OtherThan(id)) == gyms
  {
    var p := OtherThan(id);
    assert forall i | 0 <= i < |gyms| :: p(gyms[i]);
  }

  lemma KeepOnlyWithId(gym: GymDetails)
    ensures Keep([gym], OtherThan(gym.id)) == []
  {
    assert [gym][1..] == [];
  }
}
