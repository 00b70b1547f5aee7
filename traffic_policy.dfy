/**
 * The table policy of the traffic engine as functions on the slot sequence:
 * admission of a new report (`Traffic_Add`), the expiry sweep
 * (`Traffic_ClearExpired`) and the periodic refresh sweep of `Traffic_loop`,
 * with the properties each of them keeps.
 */
module TrafficPolicy {
  import opened Wrappers
  import opened TrafficTypes

  // ---------------------------------------------------------------------------
  // Admission
  // ---------------------------------------------------------------------------

  /** The gate at the top of Traffic_Add: inside the alarm zone, and passing the altitude filter. */
  predicate Admissible(fo: Traffic, filter: Filter, lim: Limits)
  {
    !(fo.relDistance > lim.zoneNone) &&
    (filter == FilterOff || (filter == Filter500m && -500 < fo.relVertical < 500))
  }

  /** Age test used by admission and by the expiry sweep. */
  predicate Expired(t: Traffic, now: int, lim: Limits)
  {
    now - t.timestamp > lim.expiration
  }

  /** First slot at or after `k` whose ID equals `id` (empty slots included). */
  function IndexOfId(s: seq<Traffic>, id: int, k: nat): (r: Option<nat>)
    requires k <= |s|
    decreases |s| - k
    ensures r.Some? ==> k <= r.value < |s| && s[r.value].id == id
    ensures r.Some? ==> forall j :: k <= j < r.value ==> s[j].id != id
    ensures r.None? <==> forall j :: k <= j < |s| ==> s[j].id != id
  {
    if k == |s| then None
    else if s[k].id == id then Some(k)
    else IndexOfId(s, id, k + 1)
  }

  /** First slot at or after `k` that is expired, whether it is live or not. */
  function FirstExpired(s: seq<Traffic>, now: int, lim: Limits, k: nat): (r: Option<nat>)
    requires k <= |s|
    decreases |s| - k
    ensures r.Some? ==> k <= r.value < |s| && Expired(s[r.value], now, lim)
    ensures r.Some? ==> forall j :: k <= j < r.value ==> !Expired(s[j], now, lim)
    ensures r.None? <==> forall j :: k <= j < |s| ==> !Expired(s[j], now, lim)
  {
    if k == |s| then None
    else if Expired(s[k], now, lim) then Some(k)
    else FirstExpired(s, now, lim, k + 1)
  }

  /** Index of the first slot of greatest distance among s[..k]. */
  function MaxDistanceSlot(s: seq<Traffic>, k: nat): (r: nat)
    requires 1 <= k <= |s|
    ensures r < k
    ensures forall j :: 0 <= j < k ==> s[j].relDistance <= s[r].relDistance
    ensures forall j :: 0 <= j < r ==> s[j].relDistance < s[r].relDistance
  {
    if k == 1 then 0
    else
      var m := MaxDistanceSlot(s, k - 1);
      if s[k - 1].relDistance > s[m].relDistance then k - 1 else m
  }

  /** Index of the first slot of least alarm level among s[..k]. */
  function MinLevelSlot(s: seq<Traffic>, k: nat): (r: nat)
    requires 1 <= k <= |s|
    ensures r < k
    ensures forall j :: 0 <= j < k ==> s[r].alarmLevel <= s[j].alarmLevel
    ensures forall j :: 0 <= j < r ==> s[r].alarmLevel < s[j].alarmLevel
  {
    if k == 1 then 0
    else
      var m := MinLevelSlot(s, k - 1);
      if s[k - 1].alarmLevel < s[m].alarmLevel then k - 1 else m
  }

  /** The record an update by ID stores: the new report, except that the slot keeps
      its alert bits and, when the report's track is unknown, its track and speed. */
  function Merged(prev: Traffic, fo: Traffic): (r: Traffic)
    ensures r.alert == prev.alert
    ensures fo.track == UnknownTrack ==> r.track == prev.track && r.groundSpeed == prev.groundSpeed
    ensures fo.track != UnknownTrack ==> r.track == fo.track && r.groundSpeed == fo.groundSpeed
    ensures r.(alert := fo.alert, track := fo.track, groundSpeed := fo.groundSpeed) == fo
  {
    var r := fo.(alert := prev.alert);
    if fo.track == UnknownTrack then r.(track := prev.track, groundSpeed := prev.groundSpeed) else r
  }

  /** Which of the admission rules applies, in the firmware's order of precedence. */
  datatype Decision =
    | Rejected
    | UpdatedById(slot: nat)
    | ReclaimedExpired(slot: nat)
    | EvictedByLevel(slot: nat)
    | EvictedByDistance(slot: nat)
    | Dropped

  function Decide(s: seq<Traffic>, fo: Traffic, now: int, filter: Filter, lim: Limits): (d: Decision)
    requires |s| > 0
    ensures d == Rejected <==> !Admissible(fo, filter, lim)
    ensures !d.Rejected? && !d.Dropped? ==> d.slot < |s|
  {
    if !Admissible(fo, filter, lim) then Rejected
    else match IndexOfId(s, fo.id, 0)
      case Some(i) => UpdatedById(i)
      case None =>
        match FirstExpired(s, now, lim, 0)
        case Some(i) => ReclaimedExpired(i)
        case None =>
          var m := MinLevelSlot(s, |s|);
          if fo.alarmLevel > s[m].alarmLevel then EvictedByLevel(m)
          else
            var d := MaxDistanceSlot(s, |s|);
            if fo.relDistance < s[d].relDistance && fo.alarmLevel >= s[d].alarmLevel
            then EvictedByDistance(d)
            else Dropped
  }

  /** The table after Traffic_Add has processed the staging report `fo` at time `now`. */
  function Admit(s: seq<Traffic>, fo: Traffic, now: int, filter: Filter, lim: Limits): (r: seq<Traffic>)
    requires |s| > 0
    ensures |r| == |s|
  {
    match Decide(s, fo, now, filter, lim)
    case Rejected => s
    case Dropped => s
    case UpdatedById(i) => s[i := Merged(s[i], fo)]
    case ReclaimedExpired(i) => s[i := fo]
    case EvictedByLevel(i) => s[i := fo]
    case EvictedByDistance(i) => s[i := fo]
  }

  /** A report outside the alarm zone, or filtered out by altitude, changes nothing. */
  lemma AdmitRejects(s: seq<Traffic>, fo: Traffic, now: int, filter: Filter, lim: Limits)
    requires |s| > 0
    requires fo.relDistance > lim.zoneNone
          || filter == FilterOther
          || (filter == Filter500m && !(-500 < fo.relVertical < 500))
    ensures Admit(s, fo, now, filter, lim) == s
  {
  }

  /** A report whose ID is already in the table updates the first slot with that ID and nothing else. */
  lemma AdmitUpdatesById(s: seq<Traffic>, fo: Traffic, now: int, filter: Filter, lim: Limits, k: nat)
    requires Admissible(fo, filter, lim)
    requires k < |s| && s[k].id == fo.id
    requires forall j :: 0 <= j < k ==> s[j].id != fo.id
    ensures Admit(s, fo, now, filter, lim) == s[k := Merged(s[k], fo)]
  {
    var r := IndexOfId(s, fo.id, 0);
    assert r.Some? && r.value == k;
  }

  /** Without an ID match, the first expired slot is reclaimed, whatever the alarm levels and distances. */
  lemma AdmitReclaimsExpired(s: seq<Traffic>, fo: Traffic, now: int, filter: Filter, lim: Limits, k: nat)
    requires Admissible(fo, filter, lim)
    requires forall j :: 0 <= j < |s| ==> s[j].id != fo.id
    requires k < |s| && Expired(s[k], now, lim)
    requires forall j :: 0 <= j < k ==> !Expired(s[j], now, lim)
    ensures Admit(s, fo, now, filter, lim) == s[k := fo]
  {
    var r := FirstExpired(s, now, lim, 0);
    assert r.Some? && r.value == k;
  }

  /** With no ID match and nothing expired, a report of higher alarm level than some slot
      replaces the first slot of least alarm level, however far away the report is. */
  lemma AdmitEvictsByLevel(s: seq<Traffic>, fo: Traffic, now: int, filter: Filter, lim: Limits, m: nat)
    requires Admissible(fo, filter, lim)
    requires forall j :: 0 <= j < |s| ==> s[j].id != fo.id && !Expired(s[j], now, lim)
    requires m < |s| && fo.alarmLevel > s[m].alarmLevel
    requires forall j :: 0 <= j < |s| ==> s[m].alarmLevel <= s[j].alarmLevel
    requires forall j :: 0 <= j < m ==> s[m].alarmLevel < s[j].alarmLevel
    ensures Admit(s, fo, now, filter, lim) == s[m := fo]
  {
    var i := MinLevelSlot(s, |s|);
    assert i == m;
  }

  /** With no ID match, nothing expired and no slot of lower alarm level than the report,
      the report replaces the first farthest slot when it is strictly closer and its level
      is at least that slot's, and is dropped otherwise. */
  lemma AdmitEvictsByDistance(s: seq<Traffic>, fo: Traffic, now: int, filter: Filter, lim: Limits, d: nat)
    requires Admissible(fo, filter, lim)
    requires forall j :: 0 <= j < |s| ==> s[j].id != fo.id && !Expired(s[j], now, lim)
    requires forall j :: 0 <= j < |s| ==> fo.alarmLevel <= s[j].alarmLevel
    requires d < |s|
    requires forall j :: 0 <= j < |s| ==> s[j].relDistance <= s[d].relDistance
    requires forall j :: 0 <= j < d ==> s[j].relDistance < s[d].relDistance
    ensures fo.relDistance < s[d].relDistance && fo.alarmLevel >= s[d].alarmLevel ==>
              Admit(s, fo, now, filter, lim) == s[d := fo]
    ensures !(fo.relDistance < s[d].relDistance && fo.alarmLevel >= s[d].alarmLevel) ==>
              Admit(s, fo, now, filter, lim) == s
  {
    var i := MaxDistanceSlot(s, |s|);
    assert i == d;
  }

  /** A full table of one alarm level with nothing expired: a report of that level closer
      than the farthest target replaces the first farthest one; one at least as far as
      every target is dropped. */
  lemma UniformLevelEviction(s: seq<Traffic>, fo: Traffic, now: int, filter: Filter, lim: Limits, d: nat)
    requires Admissible(fo, filter, lim)
    requires forall j :: 0 <= j < |s| ==> s[j].id != fo.id && !Expired(s[j], now, lim)
    requires forall j :: 0 <= j < |s| ==> s[j].alarmLevel == fo.alarmLevel
    requires d < |s|
    requires forall j :: 0 <= j < |s| ==> s[j].relDistance <= s[d].relDistance
    requires forall j :: 0 <= j < d ==> s[j].relDistance < s[d].relDistance
    ensures fo.relDistance < s[d].relDistance ==> Admit(s, fo, now, filter, lim) == s[d := fo]
    ensures fo.relDistance >= s[d].relDistance ==> Admit(s, fo, now, filter, lim) == s
  {
    AdmitEvictsByDistance(s, fo, now, filter, lim, d);
  }

  /** Admission rewrites at most one slot. */
  lemma AdmitChangesAtMostOneSlot(s: seq<Traffic>, fo: Traffic, now: int, filter: Filter, lim: Limits)
    requires |s| > 0
    ensures forall i, j :: 0 <= i < j < |s| ==>
              Admit(s, fo, now, filter, lim)[i] == s[i] || Admit(s, fo, now, filter, lim)[j] == s[j]
  {
  }

  /** Admission never creates a second live slot with an ID already in the table. */
  lemma AdmitKeepsIdsUnique(s: seq<Traffic>, fo: Traffic, now: int, filter: Filter, lim: Limits)
    requires |s| > 0
    requires UniqueLiveIds(s)
    ensures UniqueLiveIds(Admit(s, fo, now, filter, lim))
  {
    var r := Admit(s, fo, now, filter, lim);
    match Decide(s, fo, now, filter, lim)
    case Rejected =>
    case Dropped =>
    case UpdatedById(k) =>
      assert r[k].id == s[k].id;
      forall i, j | 0 <= i < j < |r| && Live(r[i]) ensures r[i].id != r[j].id {
        assert r[i].id == s[i].id && r[j].id == s[j].id;
      }
    case ReclaimedExpired(k) =>
      assert forall j :: 0 <= j < |s| ==> s[j].id != fo.id;
    case EvictedByLevel(k) =>
      assert forall j :: 0 <= j < |s| ==> s[j].id != fo.id;
    case EvictedByDistance(k) =>
      assert forall j :: 0 <= j < |s| ==> s[j].id != fo.id;
  }

  /** An empty table (all slots `EmptyFO`, timestamp 0) once the clock is past the expiration
      time: a live report goes into slot 0 and the table then holds one live target. */
  lemma AdmitIntoEmptyTable(s: seq<Traffic>, fo: Traffic, now: int, filter: Filter, lim: Limits)
    requires |s| > 0 && forall i :: 0 <= i < |s| ==> s[i] == EmptyFO
    requires Admissible(fo, filter, lim) && Live(fo) && now > lim.expiration
    ensures Admit(s, fo, now, filter, lim) == s[0 := fo]
    ensures LiveCount(Admit(s, fo, now, filter, lim)) == 1
  {
    AdmitReclaimsExpired(s, fo, now, filter, lim, 0);
    OnlyFirstLive(s[0 := fo]);
  }

  lemma {:induction false} OnlyFirstLive(s: seq<Traffic>)
    requires |s| > 0 && Live(s[0])
    requires forall i :: 1 <= i < |s| ==> !Live(s[i])
    ensures LiveCount(s) == 1
  {
    if |s| > 1 {
      OnlyFirstLive(s[..|s| - 1]);
    }
  }

  /** While the clock is within the expiration time of zero, an empty table takes a live report
      of positive alarm level into slot 0 as the least-level eviction victim. */
  lemma EmptyTableEvictsByLevel(s: seq<Traffic>, fo: Traffic, now: int, filter: Filter, lim: Limits)
    requires |s| > 0 && forall i :: 0 <= i < |s| ==> s[i] == EmptyFO
    requires Admissible(fo, filter, lim) && Live(fo) && now <= lim.expiration
    requires fo.alarmLevel > 0
    ensures Admit(s, fo, now, filter, lim) == s[0 := fo]
  {
    AdmitEvictsByLevel(s, fo, now, filter, lim, 0);
  }

  /** While the clock is within the expiration time of zero, an empty table drops a live report
      of alarm level 0 or lower at a non-negative distance: no empty slot is expired, none has
      a lower level, and none is farther. */
  lemma EmptyTableDropsWhileClockEarly(s: seq<Traffic>, fo: Traffic, now: int, filter: Filter, lim: Limits)
    requires |s| > 0 && forall i :: 0 <= i < |s| ==> s[i] == EmptyFO
    requires Admissible(fo, filter, lim) && Live(fo) && now <= lim.expiration
    requires fo.alarmLevel <= 0 && fo.relDistance >= 0
    ensures Admit(s, fo, now, filter, lim) == s
  {
    AdmitEvictsByDistance(s, fo, now, filter, lim, 0);
  }

  // ---------------------------------------------------------------------------
  // Expiry sweep
  // ---------------------------------------------------------------------------

  /** One slot after Traffic_ClearExpired: a live slot past the expiration time is emptied. */
  function Cleared(t: Traffic, now: int, lim: Limits): (r: Traffic)
  {
    if Live(t) && Expired(t, now, lim) then EmptyFO else t
  }

  function ClearExpired(s: seq<Traffic>, now: int, lim: Limits): (r: seq<Traffic>)
    ensures |r| == |s|
    ensures forall i :: 0 <= i < |s| ==> r[i] == Cleared(s[i], now, lim)
  {
    seq(|s|, i requires 0 <= i < |s| => Cleared(s[i], now, lim))
  }

  /** The sweep empties exactly the live slots that are expired and leaves every other slot as it was. */
  lemma ClearExpiredExactly(s: seq<Traffic>, now: int, lim: Limits, i: nat)
    requires i < |s|
    ensures Live(s[i]) && Expired(s[i], now, lim) ==> ClearExpired(s, now, lim)[i] == EmptyFO
    ensures !(Live(s[i]) && Expired(s[i], now, lim)) ==> ClearExpired(s, now, lim)[i] == s[i]
    ensures Live(ClearExpired(s, now, lim)[i]) ==> !Expired(ClearExpired(s, now, lim)[i], now, lim)
  {
  }

  /** Sweeping twice is sweeping once. */
  lemma ClearExpiredIdempotent(s: seq<Traffic>, now: int, lim: Limits)
    ensures ClearExpired(ClearExpired(s, now, lim), now, lim) == ClearExpired(s, now, lim)
  {
  }

  /** If each slot of `r` is either the slot of `s` or empty, `r` has no more live slots than `s`,
      and no two of its live slots share an ID if none of `s`'s did. */
  lemma EmptyingSlotsShrinks(s: seq<Traffic>, r: seq<Traffic>)
    requires |r| == |s|
    requires forall i :: 0 <= i < |s| ==> r[i] == s[i] || r[i] == EmptyFO
    ensures LiveCount(r) <= LiveCount(s)
    ensures UniqueLiveIds(s) ==> UniqueLiveIds(r)
  {
    EmptyingSlotsCount(s, r);
  }

  lemma {:induction false} EmptyingSlotsCount(s: seq<Traffic>, r: seq<Traffic>)
    requires |r| == |s|
    requires forall i :: 0 <= i < |s| ==> r[i] == s[i] || r[i] == EmptyFO
    ensures LiveCount(r) <= LiveCount(s)
  {
    if |s| > 0 {
      var n := |s| - 1;
      EmptyingSlotsCount(s[..n], r[..n]);
    }
  }

  lemma ClearExpiredShrinks(s: seq<Traffic>, now: int, lim: Limits)
    ensures LiveCount(ClearExpired(s, now, lim)) <= LiveCount(s)
    ensures UniqueLiveIds(s) ==> UniqueLiveIds(ClearExpired(s, now, lim))
  {
    EmptyingSlotsShrinks(s, ClearExpired(s, now, lim));
  }

  // ---------------------------------------------------------------------------
  // Periodic refresh (Traffic_loop under GDL90)
  // ---------------------------------------------------------------------------

  /** Traffic_Update: the geodesy collaborator gives distance, bearing and the north/east
      components from the two positions; the vertical separation is exact. */
  function Resolve(t: Traffic, own: OwnShip, geo: (Position, Position) -> Vector): (r: Traffic)
    ensures r.relVertical == t.altitude - own.altitude
    ensures r.(relDistance := t.relDistance, relBearing := t.relBearing, relNorth := t.relNorth,
               relEast := t.relEast, relVertical := t.relVertical) == t
  {
    var v := geo(Position(own.latitude, own.longitude), Position(t.latitude, t.longitude));
    t.(relDistance := v.distance, relBearing := v.bearing, relNorth := v.north, relEast := v.east,
       relVertical := t.altitude - own.altitude)
  }

  /** Recomputing the relative vector of an unchanged target against an unchanged own ship is a no-op. */
  lemma ResolveIdempotent(t: Traffic, own: OwnShip, geo: (Position, Position) -> Vector)
    ensures Resolve(Resolve(t, own, geo), own, geo) == Resolve(t, own, geo)
  {
  }

  /** One slot after the refresh sweep, ages measured against the own ship's fix time. */
  function Swept(t: Traffic, own: OwnShip, lim: Limits, geo: (Position, Position) -> Vector): (r: Traffic)
  {
    var age := own.timestamp - t.timestamp;
    if Live(t) && age <= lim.expiration then
      (if age >= lim.updateInterval then Resolve(t, own, geo) else t)
    else EmptyFO
  }

  function Sweep(s: seq<Traffic>, own: OwnShip, lim: Limits, geo: (Position, Position) -> Vector): (r: seq<Traffic>)
    ensures |r| == |s|
    ensures forall i :: 0 <= i < |s| ==> r[i] == Swept(s[i], own, lim, geo)
  {
    seq(|s|, i requires 0 <= i < |s| => Swept(s[i], own, lim, geo))
  }

  /** The refresh sweep keeps a slot exactly when it is live and not older than the
      expiration time, re-resolves a kept slot exactly when it is at least the update
      interval old, and otherwise empties it. A kept slot keeps its identity and history. */
  lemma SweepSlot(t: Traffic, own: OwnShip, lim: Limits, geo: (Position, Position) -> Vector)
    ensures var age := own.timestamp - t.timestamp;
            var r := Swept(t, own, lim, geo);
            && (!(Live(t) && age <= lim.expiration) ==> r == EmptyFO)
            && (Live(t) && age <= lim.expiration && age < lim.updateInterval ==> r == t)
            && (Live(t) && age <= lim.expiration && age >= lim.updateInterval ==> r == Resolve(t, own, geo))
            && (Live(r) ==> r.id == t.id && r.timestamp == t.timestamp && r.alert == t.alert
                            && own.timestamp - r.timestamp <= lim.expiration)
  {
  }

  /** Each slot after the refresh sweep comes from the same slot before. */
  lemma {:induction false} SweepKeepsIdsUnique(s: seq<Traffic>, own: OwnShip, lim: Limits, geo: (Position, Position) -> Vector)
    requires UniqueLiveIds(s)
    ensures UniqueLiveIds(Sweep(s, own, lim, geo))
    ensures LiveCount(Sweep(s, own, lim, geo)) <= LiveCount(s)
  {
    var r := Sweep(s, own, lim, geo);
    var e := seq(|s|, i requires 0 <= i < |s| => if Live(r[i]) then s[i] else EmptyFO);
    EmptyingSlotsShrinks(s, e);
    assert forall i :: 0 <= i < |s| ==> Live(r[i]) == Live(e[i]) && (Live(r[i]) ==> r[i].id == e[i].id);
    LiveCountDependsOnIds(r, e);
  }

  /** Two tables of the same length that agree on which slots are live have the same live count. */
  lemma {:induction false} LiveCountDependsOnIds(a: seq<Traffic>, b: seq<Traffic>)
    requires |a| == |b|
    requires forall i :: 0 <= i < |a| ==> Live(a[i]) == Live(b[i])
    ensures LiveCount(a) == LiveCount(b)
  {
    if |a| > 0 {
      LiveCountDependsOnIds(a[..|a| - 1], b[..|b| - 1]);
    }
  }
}
