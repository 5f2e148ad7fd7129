/** Shared vocabulary of the location engine: optional values, the shape of a
    UserDefaults entry once JSON-decoded, the outcome of encoding a list before
    it is written back, the messages handed to the app's error handler, and
    order-preserving filtering of lists. */
module Base {

  /** Swift's `Optional`. */
  datatype Option<+T> = None | Some(value: T) {
    function GetOr(default: T): T {
      match this
      case Some(v) => v
      case None => default
    }
  }

  /** What `UserDefaults.data(forKey:)` followed by `JSONDecoder.decode` yields:
      no data under the key, data that does not decode, or a decoded list. */
  datatype Blob<T> = Absent | Undecodable(reason: string) | Stored(items: seq<T>)

  /** Outcome of `JSONEncoder.encode` on a list about to be written. */
  datatype Encoding = Encodes | EncodeFails(reason: string)

  /** A message handed to the shared error handler (`ErrorHandling.handle`).
      Cases carrying `detail` stand for messages that embed a platform
      error's `localizedDescription`. */
  datatype Report =
    | MaxRegionsReached
    | AlwaysAccessRequired
    | MonitoringFailed(detail: string)
    | LocationAccessRequired
    | LocationAccessRequiredForSearch
    | ProviderError(detail: string)
    | DuplicateGym
    | SaveFailed(detail: string)
    | DeleteFailed(detail: string)
    | LoadFailed(detail: string)
    | VisitUpdateFailed(detail: string)

  /** The text the error handler publishes for a report. */
  function Text(r: Report): string {
    match r
    case MaxRegionsReached => "Maximum number of monitored regions reached"
    case AlwaysAccessRequired => "Always allow location access to track gym visits."
    case MonitoringFailed(d) => "Failed to monitor region: " + d
    case LocationAccessRequired =>
      "Location access is required. Please enable location services in Settings."
    case LocationAccessRequiredForSearch =>
      "Location access is required to find nearby gyms. Please enable location services in Settings."
    case ProviderError(d) => d
    case DuplicateGym => "A gym already exists at this location"
    case SaveFailed(d) => "Failed to save gym location: " + d
    case DeleteFailed(d) => "Failed to delete gym location: " + d
    case LoadFailed(d) => "Failed to load saved gyms: " + d
    case VisitUpdateFailed(d) => "Failed to update gym visits: " + d
  }

  /** Swift's `filter`: the elements satisfying `p`, in their original order. */
  function Keep<T>(s: seq<T>, p: T -> bool): (r: seq<T>)
    ensures |r| <= |s|
    ensures forall i | 0 <= i < |r| :: r[i] in s && p(r[i])
    ensures forall i | 0 <= i < |s| && p(s[i]) :: s[i] in r
    ensures (forall i | 0 <= i < |s| :: p(s[i])) ==> r == s
    ensures |r| == |s| ==> forall i | 0 <= i < |s| :: p(s[i])
  {
    if |s| == 0 then []
    else (if p(s[0]) then [s[0]] else []) + Keep(s[1..], p)
  }

  /** Filtering distributes over concatenation, so it never reorders. */
  lemma {:induction false} KeepAppend<T>(a: seq<T>, b: seq<T>, p: T -> bool)
    ensures Keep(a + b, p) == Keep(a, p) + Keep(b, p)
  {
    if |a| == 0 {
      assert a + b == b;
    } else {
      assert (a + b)[0] == a[0];
      assert (a + b)[1..] == a[1..] + b;
      KeepAppend(a[1..], b, p);
    }
  }

  /** Index of the first element satisfying `p` (Swift's `firstIndex(where:)`). */
  function FirstIndex<T>(s: seq<T>, p: T -> bool): (r: Option<nat>)
    ensures r.None? <==> forall i | 0 <= i < |s| :: !p(s[i])
    ensures r.Some? ==> r.value < |s| && p(s[r.value])
    ensures r.Some? ==> forall i | 0 <= i < r.value :: !p(s[i])
  {
    if |s| == 0 then None
    else if p(s[0]) then Some(0)
    else match FirstIndex(s[1..], p)
      case None => None
      case Some(i) => Some(i + 1)
  }
}
