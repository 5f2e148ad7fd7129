/** `LocationTrackingService`: the current position fix and the retry counter
    driven by the location manager's callbacks. What the service asks of the
    location manager is returned as a `Command`; the denied-access message is
    a parameter because the older monolithic service words it differently. */
module LocationTracking {
  import opened Base
  import opened GymModels

  const MaxRetries: nat := 3

  /** Fixes less accurate than this many metres are ignored. */
  const AccuracyThreshold: real := 100.0

  /** A `CLLocation`: where, and how accurate (metres). */
  datatype Sample = Sample(coordinate: Coordinate, horizontalAccuracy: real)

  /** What the service asks of the location manager. */
  datatype Command = StartUpdating | RequestWhenInUse | NoCommand

  datatype Tracking = Tracking(
    currentLocation: Option<Coordinate>,
    authorizationStatus: AuthorizationStatus,
    retries: nat,
    reports: seq<Report>)

  datatype Step = Step(state: Tracking, command: Command)

  /** The retry counter never passes the limit. */
  predicate Valid(s: Tracking) {
    s.retries <= MaxRetries
  }

  function Authorized(status: AuthorizationStatus): bool {
    status == AuthorizedWhenInUse || status == AuthorizedAlways
  }

  /** `locationManagerDidChangeAuthorization`: the new status is always
      published; an authorized one starts updates and clears the retries, a
      refusal is reported, an undetermined one asks for permission. */
  function DidChangeAuthorization(s: Tracking, status: AuthorizationStatus, denied: Report): (r: Step)
    ensures r.state.authorizationStatus == status
    ensures r.state.currentLocation == s.currentLocation
    ensures Authorized(status) ==> r.command == StartUpdating && r.state.retries == 0 && r.state.reports == s.reports
    ensures (status == Denied || status == Restricted) ==>
      r.command == NoCommand && r.state.retries == s.retries && r.state.reports == s.reports + [denied]
    ensures status == NotDetermined ==>
      r.command == RequestWhenInUse && r.state.retries == s.retries && r.state.reports == s.reports
  {
    var s1 := s.(authorizationStatus := status);
    match status
    case AuthorizedWhenInUse => Step(s1.(retries := 0), StartUpdating)
    case AuthorizedAlways => Step(s1.(retries := 0), StartUpdating)
    case Denied => Step(s1.(reports := s1.reports + [denied]), NoCommand)
    case Restricted => Step(s1.(reports := s1.reports + [denied]), NoCommand)
    case NotDetermined => Step(s1, RequestWhenInUse)
  }

  /** `didUpdateLocations`: only the last sample of the batch is looked at,
      and it is taken only if it is accurate to 100 metres or better. */
  function DidUpdateLocations(s: Tracking, locations: seq<Sample>): (r: Tracking)
    ensures |locations| > 0 && locations[|locations| - 1].horizontalAccuracy <= AccuracyThreshold ==>
      r == s.(currentLocation := Some(locations[|locations| - 1].coordinate), retries := 0)
    ensures (|locations| == 0 || locations[|locations| - 1].horizontalAccuracy > AccuracyThreshold) ==>
      r == s
  {
    if |locations| == 0 then s
    else
      var last := locations[|locations| - 1];
      if last.horizontalAccuracy <= AccuracyThreshold
      then s.(currentLocation := Some(last.coordinate), retries := 0)
      else s
  }

  /** Samples before the last one never matter. */
  lemma OnlyLastSampleCounts(s: Tracking, earlier: seq<Sample>, other: seq<Sample>, last: Sample)
    ensures DidUpdateLocations(s, earlier + [last]) == DidUpdateLocations(s, other + [last])
  {
  }

  /** `didFailWithError`: retry while fewer than three retries were spent,
      otherwise hand the error to the error handler. */
  function DidFail(s: Tracking, error: string): (r: Step)
    ensures s.retries < MaxRetries ==>
      r == Step(s.(retries := s.retries + 1), StartUpdating)
    ensures s.retries >= MaxRetries ==>
      r == Step(s.(reports := s.reports + [ProviderError(error)]), NoCommand)
  {
    if s.retries < MaxRetries then Step(s.(retries := s.retries + 1), StartUpdating)
    else Step(s.(reports := s.reports + [ProviderError(error)]), NoCommand)
  }

  /** `startUpdatingLocation()`, given the location manager's status. */
  function StartUpdatingLocation(s: Tracking, status: AuthorizationStatus, denied: Report): (r: Step)
    ensures Authorized(status) ==> r == Step(s, StartUpdating)
    ensures status == NotDetermined ==> r == Step(s, RequestWhenInUse)
    ensures (status == Denied || status == Restricted) ==>
      r == Step(s.(reports := s.reports + [denied]), NoCommand)
  {
    match status
    case AuthorizedWhenInUse => Step(s, StartUpdating)
    case AuthorizedAlways => Step(s, StartUpdating)
    case NotDetermined => Step(s, RequestWhenInUse)
    case Denied => Step(s.(reports := s.reports + [denied]), NoCommand)
    case Restricted => Step(s.(reports := s.reports + [denied]), NoCommand)
  }

  /** One callback of the location manager. */
  datatype Event =
    | AuthorizationChanged(status: AuthorizationStatus)
    | LocationsUpdated(locations: seq<Sample>)
    | Failed(error: string)

  function Handle(s: Tracking, e: Event, denied: Report): Tracking {
    match e
    case AuthorizationChanged(status) => DidChangeAuthorization(s, status, denied).state
    case LocationsUpdated(locations) => DidUpdateLocations(s, locations)
    case Failed(error) => DidFail(s, error).state
  }

  /** The state after a whole sequence of callbacks. */
  function Run(s: Tracking, events: seq<Event>, denied: Report): Tracking
    decreases |events|
  {
    if |events| == 0 then s else Run(Handle(s, events[0], denied), events[1..], denied)
  }

  /** Whatever the callbacks, the retry counter stays between 0 and 3. */
  lemma {:induction false} RetriesBounded(s: Tracking, events: seq<Event>, denied: Report)
    requires Valid(s)
    ensures Valid(Run(s, events, denied))
    decreases |events|
  {
    if |events| > 0 {
      RetriesBounded(Handle(s, events[0], denied), events[1..], denied);
    }
  }

  /** `n` failures in a row from a fresh counter: the first three are retried,
      every later one is reported, and the counter ends at min(n, 3). */
  lemma {:induction false} ConsecutiveFailures(s: Tracking, n: nat, error: string, denied: Report)
    requires s.retries == 0
    ensures var r := Run(s, seq(n, _ => Failed(error)), denied);
            && r.retries == (if n <= MaxRetries then n else MaxRetries)
            && |r.reports| == |s.reports| + (if n <= MaxRetries then 0 else n - MaxRetries)
            && r.currentLocation == s.currentLocation
  {
    FailuresFrom(s, n, error, denied);
  }

  lemma {:induction false} FailuresFrom(s: Tracking, n: nat, error: string, denied: Report)
    requires s.retries <= MaxRetries
    ensures var r := Run(s, seq(n, _ => Failed(error)), denied);
            && r.retries == (if s.retries + n <= MaxRetries then s.retries + n else MaxRetries)
            && |r.reports| == |s.reports| + (if s.retries + n <= MaxRetries then 0 else s.retries + n - MaxRetries)
            && r.currentLocation == s.currentLocation
    decreases n
  {
    if n > 0 {
      var events := seq(n, _ => Failed(error));
      assert events[0] == Failed(error);
      assert events[1..] == seq(n - 1, _ => Failed(error));
      FailuresFrom(Handle(s, events[0], denied), n - 1, error, denied);
    }
  }
}
