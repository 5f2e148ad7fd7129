/** `GymVisitTrackingService`: geofences for saved gyms and the single
    "current visit" slot driven by region enter and exit events. The location
    manager's own count of monitored regions is a parameter of
    `StartMonitoring`; posted notifications are the `notice` of a `Step`. */
module VisitTracking {
  import opened Base
  import opened GymModels
  import opened VisitModels

  /** The platform's limit on simultaneously monitored regions. */
  const MaxRegions: nat := 20

  datatype Tracker = Tracker(
    currentVisit: Option<GymVisit>,
    monitoredGyms: seq<GymDetails>,
    monitoredRegions: set<Id>,
    reports: seq<Report>)

  /** The identifiers of a list of gyms. */
  function Ids(gyms: seq<GymDetails>): set<Id> {
    set i | 0 <= i < |gyms| :: gyms[i].id
  }

  predicate DistinctIds(gyms: seq<GymDetails>) {
    forall i, j | 0 <= i < j < |gyms| :: gyms[i].id != gyms[j].id
  }

  /** The gym list and the identifier set describe the same gyms, each once. */
  predicate Valid(t: Tracker) {
    DistinctIds(t.monitoredGyms) && Ids(t.monitoredGyms) == t.monitoredRegions
  }

  /** `startMonitoring(_:)`. `providerRegions` is the location manager's count
      of regions it monitors. */
  function StartMonitoring(t: Tracker, gym: GymDetails, providerRegions: nat): (r: Tracker)
    // Already monitored: nothing happens.
    ensures gym.id in t.monitoredRegions ==> r == t
    // At capacity: an error is reported and nothing else changes.
    ensures gym.id !in t.monitoredRegions && providerRegions >= MaxRegions ==>
      r == t.(reports := t.reports + [MaxRegionsReached])
    // Otherwise the gym joins both the set and the end of the list.
    ensures gym.id !in t.monitoredRegions && providerRegions < MaxRegions ==>
      && r.monitoredRegions == t.monitoredRegions + {gym.id}
      && r.monitoredGyms == t.monitoredGyms + [gym]
      && r.currentVisit == t.currentVisit && r.reports == t.reports
  {
    if gym.id in t.monitoredRegions then t
    else if providerRegions >= MaxRegions then t.(reports := t.reports + [MaxRegionsReached])
    else t.(monitoredRegions := t.monitoredRegions + {gym.id}, monitoredGyms := t.monitoredGyms + [gym])
  }

  /** `stopMonitoring(_:)`: the identifier and every gym carrying it go; the
      rest stay in order. */
  function StopMonitoring(t: Tracker, gym: GymDetails): (r: Tracker)
    ensures r.monitoredRegions == t.monitoredRegions - {gym.id}
    ensures forall i | 0 <= i < |r.monitoredGyms| ::
      r.monitoredGyms[i].id != gym.id && r.monitoredGyms[i] in t.monitoredGyms
    ensures forall i | 0 <= i < |t.monitoredGyms| && t.monitoredGyms[i].id != gym.id ::
      t.monitoredGyms[i] in r.monitoredGyms
    ensures gym.id !in Ids(t.monitoredGyms) ==> r.monitoredGyms == t.monitoredGyms
    // `removeAll` keeps the remaining gyms in their order.
    ensures r.monitoredGyms == Keep(t.monitoredGyms, OtherThan(gym.id))
    ensures r.currentVisit == t.currentVisit && r.reports == t.reports
  {
    t.(monitoredRegions := t.monitoredRegions - {gym.id},
       monitoredGyms := Keep(t.monitoredGyms, OtherThan(gym.id)))
  }

  /** `stopMonitoringAll()`. */
  function StopMonitoringAll(t: Tracker): (r: Tracker)
    ensures forall g: GymDetails :: !IsMonitoring(r, g)
    ensures r.monitoredGyms == []
    ensures Valid(r)
    ensures r.currentVisit == t.currentVisit && r.reports == t.reports
  {
    t.(monitoredRegions := {}, monitoredGyms := [])
  }

  /** `isMonitoring(_:)`: asked of the identifier set; under the invariant
      it holds exactly for the gyms on the list. */
  function IsMonitoring(t: Tracker, gym: GymDetails): (r: bool)
    ensures Valid(t) ==>
      (r <==> exists i | 0 <= i < |t.monitoredGyms| :: t.monitoredGyms[i].id == gym.id)
  {
    gym.id in t.monitoredRegions
  }

  /** Stopping a gym in the middle of the list closes the gap: the gyms
      before and after it stay, in order. */
  lemma StopKeepsOrder(t: Tracker, before: seq<GymDetails>, gym: GymDetails, after: seq<GymDetails>)
    requires t.monitoredGyms == before + [gym] + after
    requires gym.id !in Ids(before) && gym.id !in Ids(after)
    ensures StopMonitoring(t, gym).monitoredGyms == before + after
  {
    assert forall i | 0 <= i < |before| :: before[i].id in Ids(before);
    assert forall i | 0 <= i < |after| :: after[i].id in Ids(after);
    KeepOtherThanMiddle(before, gym, after);
  }

  /** A filter that removes an identifier absent from the list keeps it whole. */
  lemma KeepAbsent(gyms: seq<GymDetails>, id: Id)
    requires id !in Ids(gyms)
    ensures Keep(gyms, OtherThan(id)) == gyms
  {
    assert forall i | 0 <= i < |gyms| :: gyms[i].id in Ids(gyms);
  }

  /** Starting then stopping a new gym restores the tracker exactly. */
  lemma StartThenStop(t: Tracker, gym: GymDetails, providerRegions: nat)
    requires Valid(t) && gym.id !in t.monitoredRegions && providerRegions < MaxRegions
    ensures StopMonitoring(StartMonitoring(t, gym, providerRegions), gym) == t
  {
    KeepAbsent(t.monitoredGyms, gym.id);
    KeepAppend(t.monitoredGyms, [gym], OtherThan(gym.id));
    assert [gym][1..] == [];
    assert Keep([gym], OtherThan(gym.id)) == [];
    assert (t.monitoredRegions + {gym.id}) - {gym.id} == t.monitoredRegions;
  }

  /** Starting keeps the gym list and identifier set in step. */
  lemma StartPreservesValid(t: Tracker, gym: GymDetails, providerRegions: nat)
    requires Valid(t)
    ensures Valid(StartMonitoring(t, gym, providerRegions))
  {
    if gym.id !in t.monitoredRegions && providerRegions < MaxRegions {
      var gs := t.monitoredGyms + [gym];
      assert gs[|t.monitoredGyms|] == gym;
      assert forall i | 0 <= i < |t.monitoredGyms| :: gs[i] == t.monitoredGyms[i];
      assert forall i | 0 <= i < |t.monitoredGyms| :: t.monitoredGyms[i].id in Ids(t.monitoredGyms);
      assert Ids(gs) == Ids(t.monitoredGyms) + {gym.id};
    }
  }

  /** Stopping keeps the gym list and identifier set in step. */
  lemma StopPreservesValid(t: Tracker, gym: GymDetails)
    requires Valid(t)
    ensures Valid(StopMonitoring(t, gym))
  {
    KeepDistinct(t.monitoredGyms, gym.id);
    IdsOfKept(t.monitoredGyms, gym.id);
  }

  lemma IdsAppend(a: seq<GymDetails>, b: seq<GymDetails>)
    ensures Ids(a + b) == Ids(a) + Ids(b)
  {
    forall x | x in Ids(a + b) ensures x in Ids(a) + Ids(b) {
      var i :| 0 <= i < |a + b| && (a + b)[i].id == x;
      if i < |a| { assert (a + b)[i] == a[i]; } else { assert (a + b)[i] == b[i - |a|]; }
    }
    forall x | x in Ids(a) + Ids(b) ensures x in Ids(a + b) {
      if x in Ids(a) {
        var i :| 0 <= i < |a| && a[i].id == x;
        assert (a + b)[i] == a[i];
      } else {
        var i :| 0 <= i < |b| && b[i].id == x;
        assert (a + b)[|a| + i] == b[i];
      }
    }
  }

  /** Filtering out an identifier removes exactly that identifier. */
  lemma {:induction false} IdsOfKept(gyms: seq<GymDetails>, id: Id)
    ensures Ids(Keep(gyms, OtherThan(id))) == Ids(gyms) - {id}
  {
    if |gyms| == 0 {
      assert Ids(gyms) == {};
    } else {
      var head := if gyms[0].id != id then [gyms[0]] else [];
      IdsOfKept(gyms[1..], id);
      IdsAppend(head, Keep(gyms[1..], OtherThan(id)));
      assert gyms == [gyms[0]] + gyms[1..];
      IdsAppend([gyms[0]], gyms[1..]);
      assert Ids([gyms[0]]) == {gyms[0].id};
    }
  }

  /** Under the invariant, `isMonitoring` holds exactly for the listed gyms. */
  lemma IsMonitoringMatchesList(t: Tracker, gym: GymDetails)
    requires Valid(t)
    ensures IsMonitoring(t, gym) <==> exists i | 0 <= i < |t.monitoredGyms| :: t.monitoredGyms[i].id == gym.id
  {
  }

  lemma {:induction false} KeepDistinct(gyms: seq<GymDetails>, id: Id)
    requires DistinctIds(gyms)
    ensures DistinctIds(Keep(gyms, OtherThan(id)))
  {
    if |gyms| > 0 {
      KeepDistinct(gyms[1..], id);
      var rest := Keep(gyms[1..], OtherThan(id));
      forall i | 0 <= i < |rest| ensures rest[i].id != gyms[0].id {
        var j :| 0 <= j < |gyms[1..]| && gyms[1..][j] == rest[i];
        assert gyms[j + 1] == rest[i];
      }
    }
  }

  /** With the location manager counting exactly the regions this service
      started, the number of monitored gyms never exceeds the limit. */
  lemma CapacityKept(t: Tracker, gym: GymDetails)
    requires |t.monitoredRegions| <= MaxRegions
    ensures |StartMonitoring(t, gym, |t.monitoredRegions|).monitoredRegions| <= MaxRegions
  {
  }

  /** In an identifier-distinct list, the identifier at `k` occurs nowhere
      before or after it. */
  lemma IdOnlyAt(s: seq<GymDetails>, k: nat)
    requires DistinctIds(s) && k < |s|
    ensures s[k].id !in Ids(s[k + 1..]) && s[k].id !in Ids(s[..k])
  {
  }

  /** Stopping the gym at `k` of a rotated, identifier-distinct list removes
      just that gym. */
  lemma RemoveFromRotation(s: seq<GymDetails>, k: nat)
    requires DistinctIds(s) && k < |s|
    ensures Keep(s[k..] + s[..k], OtherThan(s[k].id)) == s[k + 1..] + s[..k]
  {
    var id := s[k].id;
    var p := OtherThan(id);
    var tail := s[k + 1..];
    var head := s[..k];
    var rot := s[k..];
    assert rot == [s[k]] + tail;
    IdOnlyAt(s, k);
    KeepAbsent(tail, id);
    KeepAbsent(head, id);
    assert [s[k]][1..] == [];
    assert Keep([s[k]], p) == [];
    KeepAppend([s[k]], tail, p);
    assert Keep(rot, p) == tail;
    KeepAppend(rot, head, p);
  }

  /** One round of the restart loop: stopping then restarting the gym at `k`
      of the rotated list moves it from the front to the back. */
  lemma RestartRound(t: Tracker, k: nat)
    requires Valid(t) && |t.monitoredRegions| <= MaxRegions && k < |t.monitoredGyms|
    ensures var s := t.monitoredGyms;
            var stopped := StopMonitoring(t.(monitoredGyms := s[k..] + s[..k]), s[k]);
            StartMonitoring(stopped, s[k], |stopped.monitoredRegions|)
              == t.(monitoredGyms := s[k + 1..] + s[..k + 1])
  {
    var s := t.monitoredGyms;
    var g := s[k];
    var stopped := StopMonitoring(t.(monitoredGyms := s[k..] + s[..k]), g);
    assert g.id in Ids(s);
    RemoveFromRotation(s, k);
    assert stopped.monitoredGyms == s[k + 1..] + s[..k];
    assert |stopped.monitoredRegions| < MaxRegions;
    assert s[..k] + [g] == s[..k + 1];
    assert stopped.monitoredRegions + {g.id} == t.monitoredRegions;
  }

  /** `restartMonitoring()`: stop and start again every gym of the list as it
      was when the restart began. With the location manager counting exactly
      the regions this service started, it leaves the tracker as it was —
      same identifiers, same gyms in the same order, no error. */
  method RestartMonitoring(t: Tracker) returns (r: Tracker)
    requires Valid(t) && |t.monitoredRegions| <= MaxRegions
    ensures r == t
  {
    var snapshot := t.monitoredGyms;
    r := t;
    var k := 0;
    while k < |snapshot|
      invariant 0 <= k <= |snapshot|
      invariant r == t.(monitoredGyms := snapshot[k..] + snapshot[..k])
    {
      var g := snapshot[k];
      r := StopMonitoring(r, g);
      r := StartMonitoring(r, g, |r.monitoredRegions|);
      RestartRound(t, k);
      k := k + 1;
    }
    assert snapshot[k..] + snapshot[..k] == snapshot;
  }

  /* ----- Region events ----- */

  /** The tracker after an event, and the visit posted with it, if any. */
  datatype Step = Step(tracker: Tracker, notice: Option<GymVisit>)

  /** `monitoredGyms.first(where:)` by identifier. */
  function FindGym(gyms: seq<GymDetails>, id: Id): (r: Option<GymDetails>)
    ensures r.None? <==> id !in Ids(gyms)
    ensures r.Some? ==> r.value in gyms && r.value.id == id
  {
    if |gyms| == 0 then None
    else if gyms[0].id == id then Some(gyms[0])
    else
      var r := FindGym(gyms[1..], id);
      assert forall i | 0 < i < |gyms| :: gyms[i] == gyms[1..][i - 1];
      r
  }

  /** `didEnterRegion`: for a monitored gym, a new open visit (identifier
      `visitId`, started `now`) takes the slot — replacing any visit already
      there — and is posted as started. Unknown regions are ignored. */
  function DidEnterRegion(t: Tracker, regionId: Id, visitId: Id, now: Instant): (r: Step)
    ensures regionId !in Ids(t.monitoredGyms) ==> r == Step(t, None)
    ensures regionId in Ids(t.monitoredGyms) ==>
      && r.notice == Some(GymVisit(visitId, regionId, now, None))
      && r.tracker == t.(currentVisit := r.notice)
  {
    match FindGym(t.monitoredGyms, regionId)
    case None => Step(t, None)
    case Some(gym) =>
      var visit := GymVisit(visitId, gym.id, now, None);
      Step(t.(currentVisit := Some(visit)), Some(visit))
  }

  /** `didExitRegion`: when the open visit belongs to the monitored gym being
      left, the slot is cleared and the visit, closed `now`, is posted as
      ended. Any other exit changes nothing. */
  function DidExitRegion(t: Tracker, regionId: Id, now: Instant): (r: Step)
    ensures
      (regionId in Ids(t.monitoredGyms) && t.currentVisit.Some? && t.currentVisit.value.gymId == regionId)
      ==> r == Step(t.(currentVisit := None), Some(t.currentVisit.value.(endTime := Some(now))))
    ensures
      !(regionId in Ids(t.monitoredGyms) && t.currentVisit.Some? && t.currentVisit.value.gymId == regionId)
      ==> r == Step(t, None)
  {
    match FindGym(t.monitoredGyms, regionId)
    case None => Step(t, None)
    case Some(gym) =>
      if t.currentVisit.Some? && t.currentVisit.value.gymId == gym.id then
        Step(t.(currentVisit := None), Some(t.currentVisit.value.(endTime := Some(now))))
      else Step(t, None)
  }

  /** `monitoringDidFailFor`: only an error is reported. */
  function MonitoringDidFail(t: Tracker, detail: string): (r: Tracker)
    ensures r.currentVisit == t.currentVisit
    ensures r.monitoredGyms == t.monitoredGyms && r.monitoredRegions == t.monitoredRegions
    ensures r.reports == t.reports + [MonitoringFailed(detail)]
  {
    t.(reports := t.reports + [MonitoringFailed(detail)])
  }

  /** Entering a monitored gym and leaving it `d` seconds later produces one
      closed visit to that gym lasting `d` seconds, and empties the slot. */
  lemma VisitLifecycle(t: Tracker, gym: GymDetails, visitId: Id, start: Instant, d: real)
    requires gym.id in Ids(t.monitoredGyms)
    ensures var entered := DidEnterRegion(t, gym.id, visitId, start);
            var left := DidExitRegion(entered.tracker, gym.id, start + d);
            && entered.notice.Some? && IsActive(entered.notice.value)
            && left.notice.Some?
            && left.notice.value.id == visitId && left.notice.value.gymId == gym.id
            && !IsActive(left.notice.value)
            && Duration(left.notice.value) == Some(d)
            && left.tracker.currentVisit.None?
            && left.tracker.monitoredGyms == t.monitoredGyms
  {
  }

  /** A second entry without an exit does not open a second session: the one
      slot now holds the newer visit. */
  lemma ReentryReplacesVisit(t: Tracker, gym: GymDetails, v1: Id, v2: Id, t1: Instant, t2: Instant)
    requires gym.id in Ids(t.monitoredGyms)
    ensures var first := DidEnterRegion(t, gym.id, v1, t1).tracker;
            DidEnterRegion(first, gym.id, v2, t2).tracker.currentVisit == Some(GymVisit(v2, gym.id, t2, None))
  {
  }

  /* ----- Authorization ----- */

  /** `locationManagerDidChangeAuthorization` and `requestPermissions()`,
      which react the same way: without "always" permission they ask for it,
      and a refusal is reported. The flag says whether "always" permission
      is requested. */
  function AuthorizationChanged(t: Tracker, status: AuthorizationStatus): (r: (Tracker, bool))
    ensures r.1 <==> status == NotDetermined || status == AuthorizedWhenInUse
    ensures (status == Denied || status == Restricted) ==> r.0 == t.(reports := t.reports + [AlwaysAccessRequired])
    ensures !(status == Denied || status == Restricted) ==> r.0 == t
  {
    match status
    case AuthorizedAlways => (t, false)
    case AuthorizedWhenInUse => (t, true)
    case Denied => (t.(reports := t.reports + [AlwaysAccessRequired]), false)
    case Restricted => (t.(reports := t.reports + [AlwaysAccessRequired]), false)
    case NotDetermined => (t, true)
  }
}
