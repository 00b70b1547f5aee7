/**
 * What one Traffic_Voice call may do to the table: announce the nearest live,
 * recent target that has not been announced yet, mark it, and nothing else.
 */
module VoicePolicy {
  import opened Wrappers
  import opened TrafficTypes
  import opened VoicePhrase

  /** A slot the ranked view contains: live and seen within the voice window. */
  predicate Eligible(t: Traffic, now: int, lim: Limits)
  {
    Live(t) && now - t.timestamp <= lim.voiceExpiration
  }

  /** An eligible slot whose voice bit is still clear. */
  predicate Pending(t: Traffic, now: int, lim: Limits)
  {
    Eligible(t, now, lim) && !Announced(t)
  }

  /** Slot k is a pending target and no pending target is nearer. */
  ghost predicate Nearest(s: seq<Traffic>, k: nat, now: int, lim: Limits)
  {
    k < |s| && Pending(s[k], now, lim) &&
    forall j :: 0 <= j < |s| && Pending(s[j], now, lim) ==> s[k].relDistance <= s[j].relDistance
  }

  /** The announced slot: voice bit set, timestamp refreshed. */
  function Marked(t: Traffic, now: int): (r: Traffic)
    ensures Announced(r) && r.timestamp == now
    ensures r.(alert := t.alert, timestamp := t.timestamp) == t
    ensures r.alert & !AlertVoice == t.alert & !AlertVoice
  {
    t.(alert := t.alert | AlertVoice, timestamp := now)
  }

  /** One call announcing slot k with message m, taking table s to r. */
  ghost predicate Speaks(s: seq<Traffic>, r: seq<Traffic>, k: nat, m: Message,
                         now: int, own: OwnShip, units: Units, lim: Limits)
  {
    Nearest(s, k, now, lim) && r == s[k := Marked(s[k], now)] &&
    m == Announcement(s[k], own.track, units)
  }

  /** The effect of one Traffic_Voice call: silence exactly when nothing is pending, and
      otherwise one announcement of a nearest pending target. */
  ghost predicate VoiceStep(s: seq<Traffic>, r: seq<Traffic>, said: Option<Message>,
                            now: int, own: OwnShip, units: Units, lim: Limits)
  {
    match said
    case None => r == s && forall j :: 0 <= j < |s| ==> !Pending(s[j], now, lim)
    case Some(m) => exists k :: Speaks(s, r, k, m, now, own, units, lim)
  }

  /** A voice step changes at most one slot, only its alert bits and timestamp, and keeps the
      live count and the uniqueness of IDs. */
  lemma VoiceStepFrame(s: seq<Traffic>, r: seq<Traffic>, said: Option<Message>,
                       now: int, own: OwnShip, units: Units, lim: Limits)
    requires VoiceStep(s, r, said, now, own, units, lim)
    ensures |r| == |s|
    ensures forall i, j :: 0 <= i < j < |s| ==> r[i] == s[i] || r[j] == s[j]
    ensures forall i :: 0 <= i < |s| ==> r[i].(alert := s[i].alert, timestamp := s[i].timestamp) == s[i]
    ensures LiveCount(r) == LiveCount(s)
    ensures UniqueLiveIds(s) ==> UniqueLiveIds(r)
  {
    if said.Some? {
      var k :| Speaks(s, r, k, said.value, now, own, units, lim);
      assert forall i :: 0 <= i < |s| ==> r[i].id == s[i].id;
      SameIdsSameCount(s, r);
    }
  }

  lemma {:induction false} SameIdsSameCount(a: seq<Traffic>, b: seq<Traffic>)
    requires |a| == |b|
    requires forall i :: 0 <= i < |a| ==> a[i].id == b[i].id
    ensures LiveCount(a) == LiveCount(b)
  {
    if |a| > 0 {
      SameIdsSameCount(a[..|a| - 1], b[..|b| - 1]);
    }
  }

  /** A target is never announced twice in a row: after it is spoken, its voice bit is set,
      so the following call announces some other slot or stays silent. */
  lemma NoRepeatAnnouncement(s: seq<Traffic>, r: seq<Traffic>, k: nat, m: Message,
                             r2: seq<Traffic>, k2: nat, m2: Message,
                             now: int, now2: int, own: OwnShip, units: Units, lim: Limits)
    requires Speaks(s, r, k, m, now, own, units, lim)
    requires Speaks(r, r2, k2, m2, now2, own, units, lim)
    ensures k2 != k
  {
    assert Announced(r[k]);
  }

  /** Two pending targets, the first strictly nearer, and nothing else pending: the first call
      speaks of the nearer one, the next call at the same time of the farther one. */
  lemma TwoCyclesAnnounceNearestFirst(s: seq<Traffic>, a: nat, b: nat, now: int, own: OwnShip,
                                      units: Units, lim: Limits,
                                      r1: seq<Traffic>, said1: Option<Message>,
                                      r2: seq<Traffic>, said2: Option<Message>)
    requires a < |s| && b < |s| && a != b
    requires Pending(s[a], now, lim) && Pending(s[b], now, lim)
    requires s[a].relDistance < s[b].relDistance
    requires forall j :: 0 <= j < |s| && j != a && j != b ==> !Pending(s[j], now, lim)
    requires VoiceStep(s, r1, said1, now, own, units, lim)
    requires VoiceStep(r1, r2, said2, now, own, units, lim)
    ensures said1 == Some(Announcement(s[a], own.track, units)) && r1 == s[a := Marked(s[a], now)]
    ensures said2 == Some(Announcement(s[b], own.track, units)) && r2 == r1[b := Marked(s[b], now)]
  {
    assert said1.Some?;
    var k1 :| Speaks(s, r1, k1, said1.value, now, own, units, lim);
    assert k1 == a;
    assert r1[b] == s[b];
    assert said2.Some?;
    var k2 :| Speaks(r1, r2, k2, said2.value, now, own, units, lim);
    assert !Pending(r1[a], now, lim);
    assert forall j :: 0 <= j < |r1| && j != b ==> !Pending(r1[j], now, lim);
    assert k2 == b;
  }
}
