/**
 * The distance-ordered view `traffic[]` of Traffic_Voice: pairs of a table slot
 * and its cached distance, ordered nearest first by `traffic_cmp_by_distance`.
 */
module Ranking {

  /** `traffic_by_dist_t`: the slot a view entry refers to, and that slot's distance. */
  datatype Ranked = Ranked(slot: nat, distance: int)

  /** `traffic_cmp_by_distance`: the sign of the comparison of the two distances. */
  function CompareByDistance(a: Ranked, b: Ranked): (c: int)
    ensures c == -1 || c == 0 || c == 1
    ensures c < 0 <==> a.distance < b.distance
    ensures c == 0 <==> a.distance == b.distance
    ensures c > 0 <==> b.distance < a.distance
  {
    if a.distance > b.distance then 1
    else if a.distance == b.distance then 0
    else -1
  }

  ghost predicate SortedByDistance(v: seq<Ranked>)
  {
    forall p, q :: 0 <= p < q < |v| ==> CompareByDistance(v[p], v[q]) <= 0
  }

  /** Exchanges the neighbours at j - 1 and j within the first n entries. */
  method SwapAdjacent(a: array<Ranked>, j: nat, n: nat)
    requires 0 < j < n <= a.Length
    modifies a
    ensures a[j - 1] == old(a[j]) && a[j] == old(a[j - 1])
    ensures forall k :: 0 <= k < a.Length && k != j - 1 && k != j ==> a[k] == old(a[k])
    ensures multiset(a[..n]) == multiset(old(a[..n]))
    ensures a[n..] == old(a[n..])
  {
    ghost var s := a[..n];
    ghost var front, back := s[..j - 1], s[j + 1..];
    assert s == front + [s[j - 1], s[j]] + back;
    a[j - 1], a[j] := a[j], a[j - 1];
    assert a[..n] == front + [s[j], s[j - 1]] + back;
    assert multiset([s[j], s[j - 1]]) == multiset([s[j - 1], s[j]]);
  }

  /** Orders a[..n] nearest first, in place, as the firmware's `qsort` call does. Only the
      order among equal distances may differ from `qsort`'s, and nothing that uses the
      view depends on it. */
  method SortByDistance(a: array<Ranked>, n: nat)
    requires n <= a.Length
    modifies a
    ensures SortedByDistance(a[..n])
    ensures multiset(a[..n]) == multiset(old(a[..n]))
    ensures a[n..] == old(a[n..])
  {
    if n == 0 { return; }
    var i := 1;
    while i < n
      invariant 1 <= i <= n
      invariant forall p, q :: 0 <= p < q < i ==> a[p].distance <= a[q].distance
      invariant multiset(a[..n]) == multiset(old(a[..n]))
      invariant a[n..] == old(a[n..])
    {
      var j := i;
      while j > 0 && a[j - 1].distance > a[j].distance
        invariant 0 <= j <= i
        invariant forall p, q :: 0 <= p < q <= i && p != j && q != j ==> a[p].distance <= a[q].distance
        invariant forall q :: j < q <= i ==> a[j].distance < a[q].distance
        invariant multiset(a[..n]) == multiset(old(a[..n]))
        invariant a[n..] == old(a[n..])
      {
        SwapAdjacent(a, j, n);
        j := j - 1;
      }
      i := i + 1;
    }
  }
}
