/** The two figures `GymVisitStats` shows for a gym's visit history: how
    many visits started this week, and when the latest one started. The
    cutoff one week ago is a parameter. */
module VisitStats {
  import opened Base
  import opened GymModels
  import opened VisitModels

  /** `visitsThisWeek`: visits that started at or after the cutoff. */
  function VisitsThisWeek(visits: seq<GymVisit>, cutoff: Instant): (n: nat)
    ensures n <= |visits|
    ensures n == |visits| <==> forall i | 0 <= i < |visits| :: visits[i].startTime >= cutoff
  {
    |Keep(visits, (v: GymVisit) => v.startTime >= cutoff)|
  }

  /** A further visit raises the count by one exactly when it started at or
      after the cutoff. */
  lemma VisitsThisWeekAppend(visits: seq<GymVisit>, v: GymVisit, cutoff: Instant)
    ensures VisitsThisWeek(visits + [v], cutoff)
         == VisitsThisWeek(visits, cutoff) + (if v.startTime >= cutoff then 1 else 0)
  {
    KeepAppend(visits, [v], (w: GymVisit) => w.startTime >= cutoff);
  }

  /** `lastVisit`: the latest start time, none for an empty history. */
  function LastVisit(visits: seq<GymVisit>): (r: Option<Instant>)
    ensures r.None? <==> |visits| == 0
    ensures r.Some? ==> exists i | 0 <= i < |visits| :: visits[i].startTime == r.value
    ensures r.Some? ==> forall i | 0 <= i < |visits| :: visits[i].startTime <= r.value
  {
    if |visits| == 0 then None
    else
      match LastVisit(visits[1..])
      case None => Some(visits[0].startTime)
      case Some(t) =>
        assert forall i | 1 <= i < |visits| :: visits[i] == visits[1..][i - 1];
        Some(if visits[0].startTime >= t then visits[0].startTime else t)
  }
}
