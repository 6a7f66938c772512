/** makeSecondsBuckets of watch/metrics.go: histogram buckets are rounded and compacted in place. */
module Buckets {

  /** math.Round: to the nearest integer, halves away from zero. */
  function Round(x: real): (n: int)
    ensures 0.0 <= x ==> n as real - 0.5 <= x < n as real + 0.5
    ensures x <= 0.0 ==> n as real - 0.5 < x <= n as real + 0.5
  {
    if 0.0 <= x then (x + 0.5).Floor else -((0.5 - x).Floor)
  }

  lemma RoundMonotone(x: real, y: real)
    requires x <= y
    ensures Round(x) <= Round(y)
  {
  }

  function Rounded(s: seq<real>): seq<int> {
    seq(|s|, i requires 0 <= i < |s| => Round(s[i]))
  }

  /** The values that exceed all before them, in order. */
  function Maxima(r: seq<int>): seq<int> {
    if r == [] then []
    else
      var m, v := Maxima(r[..|r| - 1]), r[|r| - 1];
      if m == [] || m[|m| - 1] < v then m + [v] else m
  }

  /** Only original values are read, although the loop overwrites the slice that it reads. */
  method Compact(buckets: array<real>) returns (count: nat)
    modifies buckets
    ensures count == |Maxima(Rounded(old(buckets[..])))| <= buckets.Length
    ensures forall k | 0 <= k < count :: buckets[k] == Maxima(Rounded(old(buckets[..])))[k] as real
    ensures forall k | count <= k < buckets.Length :: buckets[k] == old(buckets[k])
  {
    ghost var r := Rounded(buckets[..]);
    count := 0;
    for i := 0 to buckets.Length
      invariant count == |Maxima(r[..i])| <= i
      invariant forall k | 0 <= k < count :: buckets[k] == Maxima(r[..i])[k] as real
      invariant forall k | count <= k < buckets.Length :: buckets[k] == old(buckets[k])
    {
      MaximaOfPrefix(r, i);
      var v := Round(buckets[i]);
      if count == 0 || buckets[count - 1] < v as real {
        buckets[count] := v as real;
        count := count + 1;
      }
    }
    assert r[..buckets.Length] == r;
  }

  lemma MaximaOfPrefix(r: seq<int>, i: nat)
    requires i < |r|
    ensures var m := Maxima(r[..i]);
      Maxima(r[..i + 1]) == if m == [] || m[|m| - 1] < r[i] then m + [r[i]] else m
  {
    assert r[..i + 1][..i] == r[..i];
  }

  ghost predicate Increasing(m: seq<int>) {
    forall i, j | 0 <= i < j < |m| :: m[i] < m[j]
  }

  /** The i-th value exceeds all before it. */
  ghost predicate NewMaximum(r: seq<int>, i: nat) {
    i < |r| && forall j | 0 <= j < i :: r[j] < r[i]
  }

  /** The maxima increase strictly and end in the largest value. */
  lemma {:induction false} MaximaIncrease(r: seq<int>)
    ensures Increasing(Maxima(r)) && (Maxima(r) == [] <==> r == [])
    ensures forall i | 0 <= i < |r| :: r[i] <= Maxima(r)[|Maxima(r)| - 1]
    ensures r != [] ==> Maxima(r)[|Maxima(r)| - 1] in r
  {
    if r != [] {
      var before, v := r[..|r| - 1], r[|r| - 1];
      MaximaIncrease(before);
      IncreasingAppend(Maxima(before), v);
      assert forall i | 0 <= i < |r| - 1 :: r[i] == before[i];
      assert forall x | x in before :: x in r;
    }
  }

  lemma IncreasingAppend(m: seq<int>, v: int)
    requires Increasing(m)
    ensures m == [] || m[|m| - 1] < v ==> Increasing(m + [v])
  {
  }

  lemma {:induction false} MaximaAreNew(r: seq<int>, v: int)
    requires v in Maxima(r)
    ensures exists i: nat :: NewMaximum(r, i) && r[i] == v
  {
    var n, before := |r| - 1, r[..|r| - 1];
    if v in Maxima(before) {
      MaximaAreNew(before, v);
      var i: nat :| NewMaximum(before, i) && before[i] == v;
      assert NewMaximum(r, i);
    } else {
      MaximaIncrease(before);
      assert forall j | 0 <= j < n :: r[j] == before[j];
      assert NewMaximum(r, n);
    }
  }

  lemma {:induction false} NewMaximaAreKept(r: seq<int>, i: nat)
    requires NewMaximum(r, i)
    ensures r[i] in Maxima(r)
    decreases r
  {
    var before := r[..|r| - 1];
    if i < |r| - 1 {
      assert NewMaximum(before, i);
      NewMaximaAreKept(before, i);
    } else {
      MaximaIncrease(before);
    }
  }

  /** A value is among the maxima exactly if it exceeds all before it somewhere. */
  lemma MaximaAreExact(r: seq<int>, v: int)
    ensures v in Maxima(r) <==> exists i: nat :: NewMaximum(r, i) && r[i] == v
  {
    if v in Maxima(r) {
      MaximaAreNew(r, v);
    } else if i: nat :| NewMaximum(r, i) && r[i] == v {
      NewMaximaAreKept(r, i);
    }
  }

  /** For sorted input the buckets are the distinct rounded values, in increasing order. */
  lemma SortedGivesDistinct(s: seq<real>)
    requires forall i, j | 0 <= i < j < |s| :: s[i] <= s[j]
    ensures Increasing(Maxima(Rounded(s))) && forall v :: v in Maxima(Rounded(s)) <==> v in Rounded(s)
  {
    var r := Rounded(s);
    MaximaIncrease(r);
    forall i, j | 0 <= i < j < |r|
      ensures r[i] <= r[j]
    {
      RoundMonotone(s[i], s[j]);
    }
    forall v
      ensures v in Maxima(r) <==> v in r
    {
      MaximaAreExact(r, v);
      if k :| 0 <= k < |r| && r[k] == v {
        FirstOccurrence(r, k);
      }
    }
  }

  lemma {:induction false} FirstOccurrence(r: seq<int>, k: nat)
    requires forall i, j | 0 <= i < j < |r| :: r[i] <= r[j]
    requires k < |r|
    ensures exists i: nat :: NewMaximum(r, i) && r[i] == r[k]
  {
    if k == 0 || r[k - 1] < r[k] {
      assert NewMaximum(r, k);
    } else {
      FirstOccurrence(r, k - 1);
    }
  }
}
