/**
 * The traffic table of the display unit: the fixed array `Container[]` of tracked
 * aircraft, the `traffic[]` buffer of the voice ranking, and the two cadence time
 * markers, with the operations of the firmware that update them in place.
 */
module TrafficEngine {
  import opened Wrappers
  import opened TrafficTypes
  import opened TrafficPolicy
  import opened VoicePhrase
  import opened VoicePolicy
  import opened Ranking

  class Table {
    const limits: Limits
    const container: array<Traffic>   // Container[MAX_TRACKING_OBJECTS]
    const traffic: array<Ranked>      // traffic[MAX_TRACKING_OBJECTS]
    var updateMarker: int             // UpdateTrafficTimeMarker
    var voiceMarker: int              // Traffic_Voice_TimeMarker

    /** The table has its configured size and no two live slots share an ID. */
    ghost predicate Valid()
      reads this, container
    {
      limits.capacity > 0 &&
      container.Length == limits.capacity && traffic.Length == limits.capacity &&
      UniqueLiveIds(container[..])
    }

    /** The statically initialised state: every slot empty, both markers zero. */
    constructor (lim: Limits)
      requires lim.capacity > 0
      ensures Valid() && fresh(container) && fresh(traffic)
      ensures limits == lim
      ensures forall i :: 0 <= i < container.Length ==> container[i] == EmptyFO
      ensures updateMarker == 0 && voiceMarker == 0
    {
      limits := lim;
      container := new Traffic[lim.capacity](_ => EmptyFO);
      traffic := new Ranked[lim.capacity](_ => Ranked(0, 0));
      updateMarker, voiceMarker := 0, 0;
    }

    /** Traffic_setup: both cadences start at the current `millis()`. */
    method Setup(millis: int)
      modifies this`updateMarker, this`voiceMarker
      ensures updateMarker == millis && voiceMarker == millis
    {
      updateMarker := millis;
      voiceMarker := millis;
    }

    /** First loop of Traffic_Add: the first slot whose ID equals `id`. */
    method FindById(id: int) returns (found: Option<nat>)
      ensures found == IndexOfId(container[..], id, 0)
    {
      var i := 0;
      while i < container.Length
        invariant 0 <= i <= container.Length
        invariant forall j :: 0 <= j < i ==> container[j].id != id
      {
        if container[i].id == id {
          return Some(i);
        }
        i := i + 1;
      }
      return None;
    }

    /** Second loop of Traffic_Add: stops at the first expired slot; when there is none it has
        found the first farthest slot and the first slot of least alarm level. */
    method ScanForSlot(now: int) returns (expired: Option<nat>, maxDist: nat, minLevel: nat)
      requires container.Length > 0
      ensures expired == FirstExpired(container[..], now, limits, 0)
      ensures maxDist < container.Length && minLevel < container.Length
      ensures expired.None? ==> maxDist == MaxDistanceSlot(container[..], container.Length)
      ensures expired.None? ==> minLevel == MinLevelSlot(container[..], container.Length)
    {
      ghost var s := container[..];
      var n := container.Length;
      maxDist, minLevel := 0, 0;
      var maxDistance := container[0].relDistance;
      var i := 0;
      while i < n
        invariant 0 <= i <= n
        invariant forall j :: 0 <= j < i ==> !Expired(s[j], now, limits)
        invariant maxDist < n && minLevel < n && (i > 0 ==> maxDist < i && minLevel < i)
        invariant i == 0 ==> maxDist == 0 && minLevel == 0
        invariant maxDistance == s[maxDist].relDistance
        invariant forall j :: 0 <= j < i ==> s[j].relDistance <= maxDistance
        invariant forall j :: 0 <= j < maxDist ==> s[j].relDistance < maxDistance
        invariant forall j :: 0 <= j < i ==> s[minLevel].alarmLevel <= s[j].alarmLevel
        invariant forall j :: 0 <= j < minLevel ==> s[minLevel].alarmLevel < s[j].alarmLevel
      {
        if now - container[i].timestamp > limits.expiration {
          FirstExpiredAt(s, now, limits, i);
          return Some(i), maxDist, minLevel;
        }
        var distance := container[i].relDistance;
        if distance > maxDistance {
          maxDist := i;
          maxDistance := distance;
        }
        if container[i].alarmLevel < container[minLevel].alarmLevel {
          minLevel := i;
        }
        i := i + 1;
      }
      FirstExpiredAt(s, now, limits, n);
      FirstMaxIsMaxDistanceSlot(s, maxDist);
      FirstMinIsMinLevelSlot(s, minLevel);
      return None, maxDist, minLevel;
    }

    /** Traffic_Add: admission of the staging report `fo` at time `now()`. */
    method Add(fo: Traffic, now: int, filter: Filter)
      requires Valid()
      modifies container
      ensures Valid()
      ensures container[..] == Admit(old(container[..]), fo, now, filter, limits)
    {
      ghost var s := container[..];
      if fo.relDistance > limits.zoneNone {
        AdmitRejects(s, fo, now, filter, limits);
      } else if filter == FilterOff || (filter == Filter500m && fo.relVertical > -500 && fo.relVertical < 500) {
        // a report of an ID already tracked refreshes that slot
        var same := FindById(fo.id);
        if same.Some? {
          var i := same.value;
          var alertBak, trackBak, speedBak := container[i].alert, container[i].track, container[i].groundSpeed;
          var t := fo.(alert := alertBak);
          if fo.track == UnknownTrack {
            t := t.(track := trackBak, groundSpeed := speedBak);
          }
          container[i] := t;
          AdmitUpdatesById(s, fo, now, filter, limits, i);
        } else {
          // otherwise reclaim an expired slot, or evict by alarm level, or by distance
          var expired, maxDist, minLevel := ScanForSlot(now);
          if expired.Some? {
            container[expired.value] := fo;
            AdmitReclaimsExpired(s, fo, now, filter, limits, expired.value);
          } else if fo.alarmLevel > container[minLevel].alarmLevel {
            container[minLevel] := fo;
            AdmitEvictsByLevel(s, fo, now, filter, limits, minLevel);
          } else {
            AdmitEvictsByDistance(s, fo, now, filter, limits, maxDist);
            if fo.relDistance < container[maxDist].relDistance && fo.alarmLevel >= container[maxDist].alarmLevel {
              container[maxDist] := fo;
            }
          }
        }
      } else {
        AdmitRejects(s, fo, now, filter, limits);
      }
      AdmitKeepsIdsUnique(s, fo, now, filter, limits);
    }

    /** Traffic_ClearExpired: empty every live slot older than the expiration time. */
    method ClearExpiredSlots(now: int)
      requires Valid()
      modifies container
      ensures Valid()
      ensures container[..] == ClearExpired(old(container[..]), now, limits)
    {
      ghost var s := container[..];
      var i := 0;
      while i < container.Length
        invariant 0 <= i <= container.Length
        invariant forall j :: 0 <= j < i ==> container[j] == Cleared(s[j], now, limits)
        invariant forall j :: i <= j < container.Length ==> container[j] == s[j]
      {
        if container[i].id != 0 && now - container[i].timestamp > limits.expiration {
          container[i] := EmptyFO;
        }
        i := i + 1;
      }
      assert container[..] == ClearExpired(s, now, limits);
      ClearExpiredShrinks(s, now, limits);
    }

    /** Traffic_Count: the number of live slots. */
    method Count() returns (count: nat)
      requires Valid()
      ensures count == LiveCount(container[..])
      ensures count <= limits.capacity
    {
      ghost var s := container[..];
      count := 0;
      var i := 0;
      while i < container.Length
        invariant 0 <= i <= container.Length
        invariant count == LiveCount(s[..i])
      {
        assert s[..i + 1][..i] == s[..i];
        if container[i].id != 0 {
          count := count + 1;
        }
        i := i + 1;
      }
      assert s[..i] == s;
    }

    /** The body of the GDL90 refresh sweep for slot i. */
    method RefreshSlot(i: nat, own: OwnShip, geo: (Position, Position) -> Vector)
      requires i < container.Length
      modifies container
      ensures container[i] == Swept(old(container[i]), own, limits, geo)
      ensures forall j :: 0 <= j < container.Length && j != i ==> container[j] == old(container[j])
    {
      if container[i].id != 0 && own.timestamp - container[i].timestamp <= limits.expiration {
        if own.timestamp - container[i].timestamp >= limits.updateInterval {
          container[i] := Resolve(container[i], own, geo);
        }
      } else {
        container[i] := EmptyFO;
      }
    }

    /** The GDL90 refresh sweep of Traffic_loop, ages taken against `ThisAircraft.timestamp`. */
    method RefreshSweep(own: OwnShip, geo: (Position, Position) -> Vector)
      requires Valid()
      modifies container
      ensures Valid()
      ensures container[..] == Sweep(old(container[..]), own, limits, geo)
    {
      ghost var s := container[..];
      var i := 0;
      while i < container.Length
        invariant 0 <= i <= container.Length
        invariant forall j :: 0 <= j < i ==> container[j] == Swept(s[j], own, limits, geo)
        invariant forall j :: i <= j < container.Length ==> container[j] == s[j]
      {
        RefreshSlot(i, own, geo);
        i := i + 1;
      }
      assert container[..] == Sweep(s, own, limits, geo);
      SweepKeepsIdsUnique(s, own, limits, geo);
    }

    /** First loop of Traffic_Voice: fill traffic[..j] with every live slot seen within the
        voice window, paired with its distance. */
    method BuildView(now: int) returns (j: nat)
      requires traffic.Length == container.Length
      modifies traffic
      ensures j <= traffic.Length
      ensures forall x :: x in traffic[..j] ==> ViewEntry(container[..], x, now, limits)
      ensures forall k :: 0 <= k < container.Length && Eligible(container[k], now, limits) ==>
                Ranked(k, container[k].relDistance) in traffic[..j]
    {
      var n := container.Length;
      var i := 0;
      j := 0;
      while i < n
        invariant 0 <= j <= i <= n
        invariant forall x :: x in traffic[..j] ==> ViewEntry(container[..], x, now, limits)
        invariant forall k :: 0 <= k < i && Eligible(container[k], now, limits) ==>
                    Ranked(k, container[k].relDistance) in traffic[..j]
      {
        if container[i].id != 0 && now - container[i].timestamp <= limits.voiceExpiration {
          ghost var before := traffic[..j];
          traffic[j] := Ranked(i, container[i].relDistance);
          assert traffic[..j + 1] == before + [Ranked(i, container[i].relDistance)];
          j := j + 1;
        }
        i := i + 1;
      }
    }

    /** Second loop of Traffic_Voice: the first view position whose slot has its voice bit clear. */
    method FirstUnannounced(j: nat) returns (p: Option<nat>)
      requires j <= traffic.Length
      requires forall x :: x in traffic[..j] ==> x.slot < container.Length
      ensures p.Some? ==> p.value < j && !Announced(container[traffic[p.value].slot])
      ensures p.Some? ==> forall q :: 0 <= q < p.value ==> Announced(container[traffic[q].slot])
      ensures p.None? ==> forall q :: 0 <= q < j ==> Announced(container[traffic[q].slot])
    {
      var i := 0;
      while i < j
        invariant 0 <= i <= j
        invariant forall q :: 0 <= q < i ==> Announced(container[traffic[q].slot])
      {
        assert traffic[i] in traffic[..j];
        if container[traffic[i].slot].alert & AlertVoice == 0 {
          return Some(i);
        }
        i := i + 1;
      }
      return None;
    }

    /** One announcement: the clock position, distance and altitude phrases of the slot
        `k`, after which the slot carries the voice bit and the time it was spoken. */
    method AnnounceAt(k: nat, distance: int, now: int, own: OwnShip, units: Units) returns (m: Message)
      requires k < container.Length && distance == container[k].relDistance
      modifies container
      ensures container[..] == old(container[..])[k := Marked(old(container[k]), now)]
      ensures m == Announcement(old(container[k]), own.track, units)
    {
      var t := container[k];
      var oclock := ClockSector(t.relBearing, own.track);
      var howFar := DistancePhraseOf(VoiceDistance(units, distance), DistanceUnitOf(units));
      var elev := AltitudePhraseOf(VoiceAltitude(units, t.relVertical), t.relVertical, AltitudeUnitOf(units));
      container[k] := t.(alert := t.alert | AlertVoice, timestamp := now);
      m := Message(oclock, howFar, elev);
    }

    /** Traffic_Voice: rank the recent live targets by distance and announce the first one in
        that order whose voice bit is clear, if any. */
    method Voice(now: int, own: OwnShip, units: Units) returns (said: Option<Message>)
      requires Valid()
      modifies container, traffic
      ensures Valid()
      ensures VoiceStep(old(container[..]), container[..], said, now, own, units, limits)
    {
      ghost var s := container[..];
      var j := BuildView(now);
      said := None;
      if j == 0 {
        return;
      }
      ghost var view := traffic[..j];
      SortByDistance(traffic, j);
      SameMembers(traffic[..j], view);

      // the ranking puts the nearest first; only the first unannounced entry is spoken
      var p := FirstUnannounced(j);
      if p.Some? {
        var i := p.value;
        var k := traffic[i].slot;
        assert traffic[i] in traffic[..j];
        NearestFromRanking(s, traffic[..j], i, k, now, limits);
        var m := AnnounceAt(k, traffic[i].distance, now, own, units);
        said := Some(m);
        assert Speaks(s, container[..], k, m, now, own, units, limits);
        VoiceStepFrame(s, container[..], said, now, own, units, limits);
      } else {
        NothingPendingFromRanking(s, traffic[..j], now, limits);
      }
    }

    /** Traffic_loop: the GDL90 refresh cadence, then the voice cadence. `updateDue` and
        `voiceDue` are the firmware's `isTimeToUpdateTraffic()` and `isTimeToVoice()`. */
    method Loop(now: int, own: OwnShip, gdl90: bool, updateDue: bool, voiceDue: bool, voiceOn: bool,
                units: Units, millis: int, geo: (Position, Position) -> Vector)
      returns (said: Option<Message>)
      requires Valid()
      modifies this`updateMarker, this`voiceMarker, container, traffic
      ensures Valid()
      ensures var mid := if gdl90 && updateDue then Sweep(old(container[..]), own, limits, geo)
                         else old(container[..]);
              if voiceDue && voiceOn then VoiceStep(mid, container[..], said, now, own, units, limits)
              else container[..] == mid && said == None
      ensures updateMarker == if gdl90 && updateDue then millis else old(updateMarker)
      ensures voiceMarker == if voiceDue then millis else old(voiceMarker)
    {
      if gdl90 {
        if updateDue {
          RefreshSweep(own, geo);
          updateMarker := millis;
        }
      }
      said := None;
      if voiceDue {
        if voiceOn {
          said := Voice(now, own, units);
        }
        voiceMarker := millis;
      }
    }
  }

  /** The first slot of greatest distance is the one MaxDistanceSlot names. */
  lemma FirstMaxIsMaxDistanceSlot(s: seq<Traffic>, d: nat)
    requires d < |s|
    requires forall j :: 0 <= j < |s| ==> s[j].relDistance <= s[d].relDistance
    requires forall j :: 0 <= j < d ==> s[j].relDistance < s[d].relDistance
    ensures d == MaxDistanceSlot(s, |s|)
  {
  }

  /** The first slot of least alarm level is the one MinLevelSlot names. */
  lemma FirstMinIsMinLevelSlot(s: seq<Traffic>, m: nat)
    requires m < |s|
    requires forall j :: 0 <= j < |s| ==> s[m].alarmLevel <= s[j].alarmLevel
    requires forall j :: 0 <= j < m ==> s[m].alarmLevel < s[j].alarmLevel
    ensures m == MinLevelSlot(s, |s|)
  {
  }

  /** The first expired slot is k, or there is none when k is the table size. */
  lemma FirstExpiredAt(s: seq<Traffic>, now: int, lim: Limits, k: nat)
    requires k <= |s| && forall j :: 0 <= j < k ==> !Expired(s[j], now, lim)
    requires k < |s| ==> Expired(s[k], now, lim)
    ensures FirstExpired(s, now, lim, 0) == if k < |s| then Some(k) else None
  {
    var r := FirstExpired(s, now, lim, 0);
    if r.Some? {
      assert r.value >= k;
    }
  }

  /** A view entry names a slot that is eligible for voice and carries that slot's distance. */
  predicate ViewEntry(s: seq<Traffic>, x: Ranked, now: int, lim: Limits)
  {
    x.slot < |s| && x.distance == s[x.slot].relDistance && Eligible(s[x.slot], now, lim)
  }

  /** A permutation has the same members. */
  lemma SameMembers(a: seq<Ranked>, b: seq<Ranked>)
    requires multiset(a) == multiset(b)
    ensures forall x :: x in a <==> x in b
  {
    forall x ensures x in a <==> x in b {
      assert x in a <==> x in multiset(a);
      assert x in b <==> x in multiset(b);
    }
  }

  /** A view holding every eligible slot whose entries are all announced leaves nothing pending. */
  lemma NothingPendingFromRanking(s: seq<Traffic>, v: seq<Ranked>, now: int, lim: Limits)
    requires forall j :: 0 <= j < |s| && Eligible(s[j], now, lim) ==> Ranked(j, s[j].relDistance) in v
    requires forall q :: 0 <= q < |v| ==> v[q].slot < |s| && Announced(s[v[q].slot])
    ensures forall j :: 0 <= j < |s| ==> !Pending(s[j], now, lim)
  {
    forall j | 0 <= j < |s| && Eligible(s[j], now, lim) ensures Announced(s[j]) {
      assert Ranked(j, s[j].relDistance) in v;
      var q :| 0 <= q < |v| && v[q] == Ranked(j, s[j].relDistance);
    }
  }

  /** In a view sorted by distance that holds every eligible slot, the first entry whose slot
      is not announced is a nearest pending target. */
  lemma NearestFromRanking(s: seq<Traffic>, v: seq<Ranked>, i: nat, k: nat, now: int, lim: Limits)
    requires SortedByDistance(v)
    requires forall x :: x in v ==> ViewEntry(s, x, now, lim)
    requires forall j :: 0 <= j < |s| && Eligible(s[j], now, lim) ==> Ranked(j, s[j].relDistance) in v
    requires i < |v| && v[i].slot == k && k < |s| && !Announced(s[k])
    requires forall p :: 0 <= p < i ==> v[p].slot < |s| && Announced(s[v[p].slot])
    ensures Nearest(s, k, now, lim)
  {
    assert v[i] in v;
    forall j | 0 <= j < |s| && Pending(s[j], now, lim) ensures s[k].relDistance <= s[j].relDistance {
      var p :| 0 <= p < |v| && v[p] == Ranked(j, s[j].relDistance);
      assert p >= i;
      if p > i {
        assert CompareByDistance(v[i], v[p]) <= 0;
      }
    }
  }
}
