/** `GymVisit` and `VisitStorageManager`: one visit record, and the visit
    history kept as a single JSON-encoded list under one UserDefaults key. */
module VisitModels {
  import opened Base
  import opened GymModels

  datatype GymVisit = GymVisit(id: Id, gymId: Id, startTime: Instant, endTime: Option<Instant>)

  /** `isActive`: the visit has not been closed. */
  predicate IsActive(v: GymVisit) {
    v.endTime.None?
  }

  /** `duration`: only a closed visit has one, and it is the time from start
      to end. */
  function Duration(v: GymVisit): (d: Option<real>)
    ensures d.None? <==> IsActive(v)
    ensures d.Some? ==> v.startTime + d.value == v.endTime.value
  {
    match v.endTime
    case None => None
    case Some(e) => Some(e - v.startTime)
  }

  /** Closing a visit at `t` (what the exit handler does) makes it inactive
      with duration `t - startTime`; nothing else about it changes. */
  lemma CloseVisit(v: GymVisit, t: Instant)
    ensures !IsActive(v.(endTime := Some(t)))
    ensures Duration(v.(endTime := Some(t))) == Some(t - v.startTime)
    ensures v.(endTime := Some(t)).id == v.id && v.(endTime := Some(t)).gymId == v.gymId
  {
  }

  /** `loadVisits()`: missing or undecodable data reads as no visits. */
  function LoadVisits(b: Blob<GymVisit>): (r: seq<GymVisit>)
    ensures b.Stored? ==> r == b.items
    ensures !b.Stored? ==> r == []
  {
    match b
    case Stored(items) => items
    case _ => []
  }

  /** `saveVisit`: load, append, write back. A failed encode writes nothing. */
  function SaveVisit(b: Blob<GymVisit>, v: GymVisit, enc: Encoding): (r: Blob<GymVisit>)
    ensures enc.Encodes? ==>
      && |LoadVisits(r)| == |LoadVisits(b)| + 1
      && LoadVisits(r)[|LoadVisits(b)|] == v
      && LoadVisits(r)[..|LoadVisits(b)|] == LoadVisits(b)
    ensures enc.EncodeFails? ==> r == b
  {
    match enc
    case Encodes => Stored(LoadVisits(b) + [v])
    case EncodeFails(_) => b
  }

  function SameId(v: GymVisit): GymVisit -> bool {
    (w: GymVisit) => w.id == v.id
  }

  /** `updateVisit`: the first stored visit with the same id is replaced and
      the list written back; when no visit has that id nothing is written. */
  function UpdateVisit(b: Blob<GymVisit>, v: GymVisit, enc: Encoding): (r: Blob<GymVisit>)
    ensures (forall i | 0 <= i < |LoadVisits(b)| :: LoadVisits(b)[i].id != v.id) ==> r == b
    ensures enc.EncodeFails? ==> r == b
    ensures (exists i | 0 <= i < |LoadVisits(b)| :: LoadVisits(b)[i].id == v.id) && enc.Encodes? ==>
      && r.Stored?
      && |LoadVisits(r)| == |LoadVisits(b)|
      && exists k | 0 <= k < |LoadVisits(b)| ::
           && LoadVisits(b)[k].id == v.id
           && LoadVisits(r)[k] == v
           && (forall i | 0 <= i < k :: LoadVisits(b)[i].id != v.id)
           && (forall i | 0 <= i < |LoadVisits(b)| && i != k :: LoadVisits(r)[i] == LoadVisits(b)[i])
  {
    var visits := LoadVisits(b);
    match FirstIndex(visits, SameId(v))
    case None => b
    case Some(k) =>
      match enc
      case Encodes => Stored(visits[k := v])
      case EncodeFails(_) => b
  }

  /** `loadVisits(for:)`: the visits to one gym, in stored order. */
  function LoadVisitsFor(b: Blob<GymVisit>, gymId: Id): (r: seq<GymVisit>)
    ensures forall i | 0 <= i < |r| :: r[i].gymId == gymId && r[i] in LoadVisits(b)
    ensures forall i | 0 <= i < |LoadVisits(b)| && LoadVisits(b)[i].gymId == gymId ::
      LoadVisits(b)[i] in r
  {
    Keep(LoadVisits(b), (w: GymVisit) => w.gymId == gymId)
  }

  /** A saved visit shows up last in its gym's history, after that gym's
      earlier visits, and in no other gym's history. */
  lemma SaveThenLoadFor(b: Blob<GymVisit>, v: GymVisit, gymId: Id)
    ensures LoadVisitsFor(SaveVisit(b, v, Encodes), gymId)
         == LoadVisitsFor(b, gymId) + (if v.gymId == gymId then [v] else [])
  {
    KeepAppend(LoadVisits(b), [v], (w: GymVisit) => w.gymId == gymId);
  }

  /** Saving a visit with a new identifier and then updating it with its end
      time leaves the history with the closed visit last. */
  lemma SaveThenClose(b: Blob<GymVisit>, v: GymVisit, t: Instant)
    requires forall i | 0 <= i < |LoadVisits(b)| :: LoadVisits(b)[i].id != v.id
    ensures LoadVisits(UpdateVisit(SaveVisit(b, v, Encodes), v.(endTime := Some(t)), Encodes))
         == LoadVisits(b) + [v.(endTime := Some(t))]
  {
    var closed := v.(endTime := Some(t));
    var saved := LoadVisits(b) + [v];
    assert LoadVisits(SaveVisit(b, v, Encodes)) == saved;
    var k := |LoadVisits(b)|;
    assert saved[k].id == closed.id;
    assert FirstIndex(saved, SameId(closed)) == Some(k);
    assert saved[k := closed] == LoadVisits(b) + [closed];
  }
}
