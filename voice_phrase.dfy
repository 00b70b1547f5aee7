/**
 * The spoken alert of Traffic_Voice: the clock sector of a target relative to
 * the own ground track, the coarse distance and altitude phrases in the
 * configured units, and the text handed to the speech sink.
 */
module VoicePhrase {
  import opened TrafficTypes

  /** Clock sector of a bearing (degrees, relative to the ground track): 30-degree sectors,
      each centred on its hour, 0 meaning "ahead". `%` is Euclidean here, which agrees with
      C's `%` on the non-negative operand the firmware uses. */
  function Sector(bearing: int): (k: int)
  {
    ((bearing % 360 + 15) % 360) / 30
  }

  /** Sector is one of the twelve clock positions, and it is the one whose 30-degree
      window, centred on k * 30 degrees, contains the bearing. */
  lemma SectorWindow(bearing: int)
    ensures 0 <= Sector(bearing) < 12
    ensures var b := bearing % 360;
            var k := Sector(bearing);
            (k == 0 ==> b < 15 || b >= 345) &&
            (k > 0 ==> k * 30 - 15 <= b < k * 30 + 15)
  {
  }

  /** The bearing loop of Traffic_Voice: integer bearing minus ground track, raised by
      whole turns until non-negative, then bucketed. */
  method ClockSector(bearing: int, track: int) returns (oclock: int)
    ensures oclock == Sector(bearing - track)
    ensures 0 <= oclock < 12
  {
    var b := bearing - track;
    while b < 0
      invariant b % 360 == (bearing - track) % 360
      decreases -b
    {
      b := b + 360;
    }
    oclock := ((b + 15) % 360) / 30;
    assert b % 360 + 15 == (b + 15) % 360 || (b + 15) % 360 == b % 360 + 15 - 360;
    SectorWindow(bearing - track);
  }

  /** Name spoken for each clock sector. */
  function WhereName(oclock: int): (name: string)
    requires 0 <= oclock < 12
    ensures name == "ahead" <==> oclock == 0
    ensures 5 <= |name| <= 8
  {
    match oclock
    case 0 => "ahead"
    case 1 => "1oclock"
    case 2 => "2oclock"
    case 3 => "3oclock"
    case 4 => "4oclock"
    case 5 => "5oclock"
    case 6 => "6oclock"
    case 7 => "7oclock"
    case 8 => "8oclock"
    case 9 => "9oclock"
    case 10 => "10oclock"
    case _ => "11oclock"
  }

  /** Different sectors are spoken differently. */
  lemma WhereNamesDistinct(a: int, b: int)
    requires 0 <= a < 12 && 0 <= b < 12 && a != b
    ensures WhereName(a) != WhereName(b)
  {
  }

  datatype DistanceUnit = NauticalMiles | Kms
  datatype AltitudeUnit = Feet | Metres

  function DistanceUnitOf(units: Units): DistanceUnit
  {
    if units == Imperial then NauticalMiles else Kms
  }

  function AltitudeUnitOf(units: Units): AltitudeUnit
  {
    if units == Metric then Metres else Feet
  }

  /** Whole voicing units of a distance in metres: the floor of the firmware's float
      `voc_dist`, with its conversion constants taken as exact decimals
      (nautical miles = metres * 0.00062137112 / 1.15077945, kms = metres / 1000). */
  function VoiceDistance(units: Units, metres: int): (whole: int)
    ensures units == Imperial ==> whole * 115077945000 <= metres * 62137112 < (whole + 1) * 115077945000
    ensures units != Imperial ==> whole * 1000 <= metres < (whole + 1) * 1000
  {
    match units
    case Imperial => (metres * 62137112) / 115077945000
    case Mixed => metres / 1000
    case Metric => metres / 1000
  }

  /** `voc_alt`: the absolute value of the vertical separation truncated to whole feet
      (factor 3.2808399) or metres. */
  function VoiceAltitude(units: Units, vertical: int): (alt: nat)
    ensures var v := if vertical < 0 then -vertical else vertical;
            && (units == Metric ==> alt == v)
            && (units != Metric ==> alt * 10000000 <= v * 32808399 < (alt + 1) * 10000000)
  {
    var v := if vertical < 0 then -vertical else vertical;
    match units
    case Imperial => (v * 32808399) / 10000000
    case Mixed => (v * 32808399) / 10000000
    case Metric => v
  }

  datatype DistancePhrase = DistanceNear | DistanceUnits(count: int, unit: DistanceUnit)

  datatype AltitudePhrase = AltitudeNear | AltitudeHundreds(hundreds: int, unit: AltitudeUnit, above: bool)

  datatype Message = Message(oclock: int, howFar: DistancePhrase, elev: AltitudePhrase)

  /** Distance phrase for `whole` units: "near" under one unit, otherwise the whole count
      capped at 9. `whole` is the floor of the voicing distance, so `whole < 1` is the
      firmware's `voc_dist < 1.0` and the count is `(int) min(voc_dist, 9.0)`. */
  function DistancePhraseOf(whole: int, unit: DistanceUnit): (p: DistancePhrase)
    ensures p.DistanceNear? <==> whole < 1
    ensures p.DistanceUnits? ==> 1 <= p.count <= 9 && p.unit == unit
    ensures p.DistanceUnits? ==> (p.count == whole <==> whole <= 9)
    ensures whole >= 9 ==> p == DistanceUnits(9, unit)
  {
    if whole < 1 then DistanceNear
    else DistanceUnits(if whole > 9 then 9 else whole, unit)
  }

  /** Altitude phrase: "near" under 100, otherwise whole hundreds of the separation capped at
      500, "above" exactly when the target is higher than the own ship. */
  function AltitudePhraseOf(alt: nat, vertical: int, unit: AltitudeUnit): (p: AltitudePhrase)
    ensures p.AltitudeNear? <==> alt < 100
    ensures p.AltitudeHundreds? ==> 1 <= p.hundreds <= 5 && p.unit == unit
    ensures p.AltitudeHundreds? ==> p.hundreds * 100 <= alt && (alt < 500 ==> alt < p.hundreds * 100 + 100)
    ensures p.AltitudeHundreds? ==> (p.above <==> vertical > 0)
    ensures alt >= 500 ==> p.AltitudeHundreds? && p.hundreds == 5
  {
    if alt < 100 then AltitudeNear
    else AltitudeHundreds((if alt > 500 then 500 else alt) / 100, unit, vertical > 0)
  }

  /** The alert for one target, from its cached distance, bearing and vertical separation. */
  function Announcement(t: Traffic, ownTrack: int, units: Units): (m: Message)
    ensures 0 <= m.oclock < 12
  {
    SectorWindow(t.relBearing - ownTrack);
    Message(Sector(t.relBearing - ownTrack),
            DistancePhraseOf(VoiceDistance(units, t.relDistance), DistanceUnitOf(units)),
            AltitudePhraseOf(VoiceAltitude(units, t.relVertical), t.relVertical, AltitudeUnitOf(units)))
  }

  // ---------------------------------------------------------------------------
  // Text of the message
  // ---------------------------------------------------------------------------

  /** Decimal text of a single digit. */
  function Digit(n: int): (s: string)
    requires 0 <= n <= 9
    ensures |s| == 1 && '0' <= s[0] <= '9'
  {
    [('0' as int + n) as char]
  }

  function DistanceUnitName(u: DistanceUnit): string
  {
    match u
    case NauticalMiles => "nautical miles"
    case Kms => "kms"
  }

  function AltitudeUnitName(u: AltitudeUnit): string
  {
    match u
    case Feet => "feet"
    case Metres => "metres"
  }

  /** The unit words of the units switch: imperial speaks nautical miles and feet, mixed
      speaks kms and feet, and metric (the switch's default) speaks kms and metres. */
  lemma UnitWords(units: Units)
    ensures units == Imperial ==>
              DistanceUnitName(DistanceUnitOf(units)) == "nautical miles" &&
              AltitudeUnitName(AltitudeUnitOf(units)) == "feet"
    ensures units == Mixed ==>
              DistanceUnitName(DistanceUnitOf(units)) == "kms" &&
              AltitudeUnitName(AltitudeUnitOf(units)) == "feet"
    ensures units == Metric ==>
              DistanceUnitName(DistanceUnitOf(units)) == "kms" &&
              AltitudeUnitName(AltitudeUnitOf(units)) == "metres"
  {
  }

  /** `how_far`: "near" or "%u %s". */
  function HowFarText(p: DistancePhrase): (s: string)
    requires p.DistanceUnits? ==> 0 <= p.count <= 9
    ensures 4 <= |s| <= 16
    ensures s == "near" <==> p.DistanceNear?
    ensures p.DistanceUnits? ==> s[0] as int == '0' as int + p.count
  {
    match p
    case DistanceNear => "near"
    case DistanceUnits(n, u) => Digit(n) + " " + DistanceUnitName(u)
  }

  /** `elev`: "near" or "%u hundred %s %s". */
  function ElevText(p: AltitudePhrase): (s: string)
    requires p.AltitudeHundreds? ==> 0 <= p.hundreds <= 9
    ensures 4 <= |s| <= 22
    ensures s == "near" <==> p.AltitudeNear?
    ensures p.AltitudeHundreds? ==> 20 <= |s| && s[0] as int == '0' as int + p.hundreds
    ensures p.AltitudeHundreds? ==> (s[|s| - 5..] == "above" <==> p.above)
  {
    match p
    case AltitudeNear => "near"
    case AltitudeHundreds(h, u, above) =>
      Digit(h) + " hundred " + AltitudeUnitName(u) + " " + (if above then "above" else "below")
  }

  /** The text given to the speech sink: "traffic %s distance %s altitude %s". */
  function MessageText(m: Message): (s: string)
    requires 0 <= m.oclock < 12
    requires m.howFar.DistanceUnits? ==> 0 <= m.howFar.count <= 9
    requires m.elev.AltitudeHundreds? ==> 0 <= m.elev.hundreds <= 9
    ensures 8 <= |s| <= 74 && s[..8] == "traffic "
  {
    "traffic " + WhereName(m.oclock) + " distance " + HowFarText(m.howFar) + " altitude " + ElevText(m.elev)
  }

  /** None of the three `snprintf` calls truncates: each phrase fits its 32-byte buffer and the
      message its 80-byte buffer, terminating NUL included. */
  lemma AnnouncementFitsBuffers(t: Traffic, ownTrack: int, units: Units)
    ensures var m := Announcement(t, ownTrack, units);
            && |HowFarText(m.howFar)| < 32
            && |ElevText(m.elev)| < 32
            && |MessageText(m)| < 80
  {
    var m := Announcement(t, ownTrack, units);
    assert |WhereName(m.oclock)| <= 8;
    assert |HowFarText(m.howFar)| <= 16;
    assert |ElevText(m.elev)| <= 22;
  }
}
