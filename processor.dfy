/** The session-job processor: the price rule charged for a forecast and the
    stub computation that fills in the predicted points. */
module Processor {
  import opened Common
  import opened Models

  /** Price of a job for the number of points it forecasts: 0.005 per point up
      to 100 points; beyond that 0.5 plus 0.006 per point above 100. */
  function CalculatePrice(info: Session): (price: real)
    ensures info.nPred >= 0 ==> price >= 0.0
    ensures 0 <= info.nPred <= 100 ==> price <= 0.5
    ensures info.nPred > 100 ==> price > 0.5
  {
    if info.nPred > 100 then (info.nPred - 100) as real * 0.006 + 0.5
    else info.nPred as real * 0.005
  }

  /** The two tiers of the price rule, in exact thousandths. */
  lemma PriceTiers(info: Session)
    ensures info.nPred <= 100 ==> CalculatePrice(info) * 1000.0 == (5 * info.nPred) as real
    ensures info.nPred > 100 ==> CalculatePrice(info) * 1000.0 == (6 * (info.nPred - 100) + 500) as real
  {
  }

  /** The price depends on the number of forecast points and nothing else. */
  lemma PriceDependsOnlyOnNPred(a: Session, b: Session)
    requires a.nPred == b.nPred
    ensures CalculatePrice(a) == CalculatePrice(b)
  {
  }

  /** The two tiers meet at the breakpoint: 100 points cost 0.5, 101 cost 0.506. */
  lemma PriceAtBreakpoint(info: Session)
    ensures info.nPred == 100 ==> CalculatePrice(info) == 0.5
    ensures info.nPred == 101 ==> CalculatePrice(info) == 0.506
  {
  }

  /** More forecast points never cost less. */
  lemma PriceMonotone(a: Session, b: Session)
    requires a.nPred <= b.nPred
    ensures CalculatePrice(a) <= CalculatePrice(b)
  {
  }

  /** The elements of s in the opposite order. */
  function Reverse<T>(s: seq<T>): seq<T> {
    if s == [] then [] else [s[|s| - 1]] + Reverse(s[..|s| - 1])
  }

  /** Reversing keeps the length and puts element i at position |s|-1-i. */
  lemma {:induction false} ReverseAt<T>(s: seq<T>)
    ensures |Reverse(s)| == |s|
    ensures forall i | 0 <= i < |s| :: Reverse(s)[i] == s[|s| - 1 - i]
  {
    if s != [] {
      ReverseAt(s[..|s| - 1]);
    }
  }

  /** `Array.prototype.reverse`: reverses the array in place. */
  method ReverseArray(a: array<Point>)
    modifies a
    ensures a[..] == Reverse(old(a[..]))
  {
    var lo, hi := 0, a.Length - 1;
    while lo < hi
      invariant 0 <= lo <= a.Length && hi == a.Length - 1 - lo
      invariant forall k | 0 <= k < lo :: a[k] == old(a[a.Length - 1 - k])
      invariant forall k | hi < k < a.Length :: a[k] == old(a[a.Length - 1 - k])
      invariant forall k | lo <= k <= hi :: a[k] == old(a[k])
    {
      a[lo], a[hi] := a[hi], a[lo];
      lo, hi := lo + 1, hi - 1;
    }
    ReverseAt(old(a[..]));
  }

  /** `process`: copies the given points, reverses the copy and stores it as
      the predicted points; everything else in the session is kept. It never
      fails. */
  method Process(info: Session) returns (processed: Session)
    ensures processed == info.(predPoints := processed.predPoints)
    ensures processed.predPoints == Some(Reverse(info.givenPoints))
    ensures |processed.predPoints.value| == |info.givenPoints|
    ensures forall i | 0 <= i < |info.givenPoints| ::
      processed.predPoints.value[i] == info.givenPoints[|info.givenPoints| - 1 - i]
  {
    var given := info.givenPoints;
    var copy := new Point[|given|](i requires 0 <= i < |given| => given[i]);
    assert copy[..] == given;
    ReverseArray(copy);
    processed := info.(predPoints := Some(copy[..]));
    ReverseAt(given);
  }
}
