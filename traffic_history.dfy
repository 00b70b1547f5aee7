/**
 * Runs of the traffic engine: any interleaving of admissions, expiry sweeps,
 * refresh sweeps and voice calls. The voice bit of a slot survives every
 * operation for as long as the slot keeps its aircraft, so an aircraft is
 * announced once until its slot is emptied or taken by another report.
 */
module TrafficHistory {
  import opened Wrappers
  import opened TrafficTypes
  import opened TrafficPolicy
  import opened VoicePhrase
  import opened VoicePolicy

  /** Admission keeps the voice bit of an announced live slot that keeps its ID: an update by
      ID keeps the alert bits, and every other write stores a report of an ID not in the table. */
  lemma AdmitKeepsAnnounced(s: seq<Traffic>, fo: Traffic, now: int, filter: Filter, lim: Limits, i: nat)
    requires |s| > 0 && i < |s|
    requires Live(s[i]) && Announced(s[i])
    requires Admit(s, fo, now, filter, lim)[i].id == s[i].id
    ensures Announced(Admit(s, fo, now, filter, lim)[i])
  {
  }

  /** The expiry sweep keeps the voice bit of every slot it does not empty. */
  lemma ClearExpiredKeepsAnnounced(s: seq<Traffic>, now: int, lim: Limits, i: nat)
    requires i < |s|
    requires Live(s[i]) && Announced(s[i])
    requires ClearExpired(s, now, lim)[i].id == s[i].id
    ensures Announced(ClearExpired(s, now, lim)[i])
  {
  }

  /** The refresh sweep keeps the voice bit of every slot it does not empty. */
  lemma SweepKeepsAnnounced(s: seq<Traffic>, own: OwnShip, lim: Limits, geo: (Position, Position) -> Vector, i: nat)
    requires i < |s|
    requires Live(s[i]) && Announced(s[i])
    requires Sweep(s, own, lim, geo)[i].id == s[i].id
    ensures Announced(Sweep(s, own, lim, geo)[i])
  {
    SweepSlot(s[i], own, lim, geo);
  }

  /** A voice call only ever sets the voice bit. */
  lemma VoiceStepKeepsAnnounced(s: seq<Traffic>, r: seq<Traffic>, said: Option<Message>,
                                now: int, own: OwnShip, units: Units, lim: Limits, i: nat)
    requires VoiceStep(s, r, said, now, own, units, lim)
    requires i < |s| && Announced(s[i])
    ensures |r| == |s| && Announced(r[i])
  {
    VoiceStepFrame(s, r, said, now, own, units, lim);
    if said.Some? {
      var k :| Speaks(s, r, k, said.value, now, own, units, lim);
    }
  }

  /** One operation of the engine on the table, with the inputs the firmware takes from its
      globals, settings and clocks. */
  datatype Op =
    | AddOp(fo: Traffic, now: int, filter: Filter)
    | ClearOp(now: int)
    | SweepOp(own: OwnShip, geo: (Position, Position) -> Vector)
    | VoiceOp(now: int, own: OwnShip, units: Units, said: Option<Message>)

  /** Table s becomes r by the operation op. */
  ghost predicate Step(s: seq<Traffic>, r: seq<Traffic>, op: Op, lim: Limits)
  {
    match op
    case AddOp(fo, now, filter) => |s| > 0 && r == Admit(s, fo, now, filter, lim)
    case ClearOp(now) => r == ClearExpired(s, now, lim)
    case SweepOp(own, geo) => r == Sweep(s, own, lim, geo)
    case VoiceOp(now, own, units, said) => VoiceStep(s, r, said, now, own, units, lim)
  }

  /** r has the size of s, and every announced live slot of s that keeps its ID in r is
      still announced in r. */
  ghost predicate KeepsAnnounced(s: seq<Traffic>, r: seq<Traffic>)
  {
    |r| == |s| &&
    forall i :: 0 <= i < |s| && Live(s[i]) && Announced(s[i]) && r[i].id == s[i].id ==> Announced(r[i])
  }

  /** Every operation keeps the table size, and keeps the voice bit of each announced live
      slot whose ID it leaves in place. */
  lemma StepKeepsAnnounced(s: seq<Traffic>, r: seq<Traffic>, op: Op, lim: Limits)
    requires Step(s, r, op, lim)
    ensures KeepsAnnounced(s, r)
  {
    match op
    case AddOp(fo, now, filter) =>
      forall i | 0 <= i < |s| && Live(s[i]) && Announced(s[i]) && r[i].id == s[i].id
        ensures Announced(r[i])
      {
        AdmitKeepsAnnounced(s, fo, now, filter, lim, i);
      }
    case ClearOp(now) =>
      forall i | 0 <= i < |s| && Live(s[i]) && Announced(s[i]) && r[i].id == s[i].id
        ensures Announced(r[i])
      {
        ClearExpiredKeepsAnnounced(s, now, lim, i);
      }
    case SweepOp(own, geo) =>
      forall i | 0 <= i < |s| && Live(s[i]) && Announced(s[i]) && r[i].id == s[i].id
        ensures Announced(r[i])
      {
        SweepKeepsAnnounced(s, own, lim, geo, i);
      }
    case VoiceOp(now, own, units, said) =>
      VoiceStepFrame(s, r, said, now, own, units, lim);
      forall i | 0 <= i < |s| && Announced(s[i])
        ensures Announced(r[i])
      {
        VoiceStepKeepsAnnounced(s, r, said, now, own, units, lim, i);
      }
  }

  /** hist[t + 1] is hist[t] after ops[t], for every t. */
  ghost predicate Run(hist: seq<seq<Traffic>>, ops: seq<Op>, lim: Limits)
  {
    |hist| == |ops| + 1 &&
    forall t :: 0 <= t < |ops| ==> Step(hist[t], hist[t + 1], ops[t], lim)
  }

  /** Operation t is a voice call that announces slot k. */
  ghost predicate Announces(hist: seq<seq<Traffic>>, ops: seq<Op>, lim: Limits, t: nat, k: nat)
    requires Run(hist, ops, lim) && t < |ops|
  {
    ops[t].VoiceOp? && ops[t].said.Some? &&
    Speaks(hist[t], hist[t + 1], k, ops[t].said.value, ops[t].now, ops[t].own, ops[t].units, lim)
  }

  /** Along a run every step keeps the voice bits. */
  lemma RunKeepsAnnounced(hist: seq<seq<Traffic>>, ops: seq<Op>, lim: Limits)
    requires Run(hist, ops, lim)
    ensures forall t :: 0 <= t < |ops| ==> KeepsAnnounced(hist[t], hist[t + 1])
  {
    forall t | 0 <= t < |ops| ensures KeepsAnnounced(hist[t], hist[t + 1]) {
      StepKeepsAnnounced(hist[t], hist[t + 1], ops[t], lim);
    }
  }

  /** An announced live slot stays announced for as long as it keeps its ID, along any sequence
      of tables whose every step keeps the voice bits. */
  lemma {:induction false} AnnouncedWhileIdKept(hist: seq<seq<Traffic>>, a: nat, b: nat, i: nat, id: int)
    requires a <= b < |hist| && id != 0
    requires forall t :: a <= t < b ==> KeepsAnnounced(hist[t], hist[t + 1])
    requires forall t :: a <= t <= b ==> i < |hist[t]| && hist[t][i].id == id
    requires Announced(hist[a][i])
    ensures Announced(hist[b][i])
    decreases b - a
  {
    if a < b {
      AnnouncedWhileIdKept(hist, a, b - 1, i, id);
      assert KeepsAnnounced(hist[b - 1], hist[b]);
    }
  }

  /** One alert per aircraft: once a voice call has announced slot k, no later voice call of
      any run announces it again while the slot keeps that aircraft's ID, whatever admissions
      and sweeps come in between. */
  lemma NoRepeatWhileIdKept(hist: seq<seq<Traffic>>, ops: seq<Op>, lim: Limits, a: nat, b: nat, k: nat)
    requires Run(hist, ops, lim) && a < b < |ops|
    requires Announces(hist, ops, lim, a, k)
    requires forall t :: a < t <= b ==> k < |hist[t]| && hist[t][k].id == hist[a][k].id
    ensures !Announces(hist, ops, lim, b, k)
  {
    assert Step(hist[a], hist[a + 1], ops[a], lim);
    assert hist[a + 1][k] == Marked(hist[a][k], ops[a].now);
    RunKeepsAnnounced(hist, ops, lim);
    AnnouncedWhileIdKept(hist, a + 1, b, k, hist[a][k].id);
  }
}
