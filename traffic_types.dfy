/**
 * Value types of the traffic engine: the tracked-aircraft record (`traffic_t`),
 * the own-ship record, the engine's compile-time limits and the relative
 * navigation vector delivered by the geodesy collaborator.
 */
module TrafficTypes {
  import opened Wrappers

  /** One tracked aircraft, the fields of `traffic_t` that the engine reads or writes.
      Floating-point quantities of the firmware are integers here. */
  datatype Traffic = Traffic(
    id: int,               // ID; 0 marks an empty slot
    latitude: int,
    longitude: int,
    altitude: int,
    track: int,            // Track; -360 means "unknown"
    groundSpeed: int,
    alarmLevel: int,       // AlarmLevel
    alert: bv8,            // alert flag bits
    timestamp: int,        // time of last report or announcement
    relDistance: int,      // RelativeDistance
    relBearing: int,       // RelativeBearing, already truncated to whole degrees
    relNorth: int,
    relEast: int,
    relVertical: int       // RelativeVertical
  )

  /** The all-zero record `EmptyFO` that empties a slot. */
  const EmptyFO := Traffic(0, 0, 0, 0, 0, 0, 0, 0, 0, 0, 0, 0, 0, 0)

  /** Track value that a report uses when its ground track is unknown. */
  const UnknownTrack := -360

  /** The alert bit recording that a voice announcement was made. */
  const AlertVoice: bv8 := 2

  /** The own-ship record `ThisAircraft`. */
  datatype OwnShip = OwnShip(latitude: int, longitude: int, altitude: int, track: int, timestamp: int)

  datatype Position = Position(latitude: int, longitude: int)

  /** Relative vector computed from two positions by the geodesy collaborator. */
  datatype Vector = Vector(distance: int, bearing: int, north: int, east: int)

  /** Compile-time constants of the engine. */
  datatype Limits = Limits(
    capacity: nat,          // MAX_TRACKING_OBJECTS
    expiration: int,        // ENTRY_EXPIRATION_TIME
    voiceExpiration: int,   // VOICE_EXPIRATION_TIME
    updateInterval: int,    // TRAFFIC_VECTOR_UPDATE_INTERVAL
    zoneNone: int           // ALARM_ZONE_NONE
  )

  /** The altitude filter setting: off, within 500 m, or any other value. */
  datatype Filter = FilterOff | Filter500m | FilterOther

  /** The measurement units setting; any value the switch does not list behaves as `Metric`. */
  datatype Units = Imperial | Mixed | Metric

  predicate Live(t: Traffic) { t.id != 0 }

  predicate Announced(t: Traffic) { t.alert & AlertVoice != 0 }

  /** Number of live slots, counted from the front as the firmware's loop does. */
  function LiveCount(s: seq<Traffic>): (n: nat)
    ensures n <= |s|
    ensures n == 0 <==> forall i :: 0 <= i < |s| ==> !Live(s[i])
    ensures n == |s| <==> forall i :: 0 <= i < |s| ==> Live(s[i])
  {
    if |s| == 0 then 0
    else LiveCount(s[..|s| - 1]) + (if Live(s[|s| - 1]) then 1 else 0)
  }

  /** No two live slots carry the same ID. */
  ghost predicate UniqueLiveIds(s: seq<Traffic>)
  {
    forall i, j :: 0 <= i < j < |s| && Live(s[i]) ==> s[i].id != s[j].id
  }
}
