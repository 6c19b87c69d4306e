/**
 Wrapping sequence numbers and the filter every protocol of the overlay rests on.
 Numbers on the wire are 32 bits wide.  The sender's true counter is unbounded:
 `Wrap` is what the wire keeps of it.
 */
module Sequence {
  import opened Common

  const MODULUS: int := 0x1_0000_0000
  /** Half of the largest 32-bit value, rounded down, as the comparison computes it. */
  const HALF: int := 0xFFFF_FFFF / 2

  type uint32 = x: int | 0 <= x < MODULUS

  function Wrap(n: int): uint32 {
    n % MODULUS
  }

  function CompareSequence(s1: uint32, s2: uint32): int {
    if s1 == s2 then 0
    else if (s1 - s2) % MODULUS < HALF then 1
    else -1
  }

  function Sign(d: int): int {
    if d == 0 then 0 else if d > 0 then 1 else -1
  }

  /** The distances at which the wrapped comparison tells the truth. */
  predicate InWindow(d: int) {
    -0x8000_0001 <= d <= 0x7FFF_FFFE
  }

  /** Wrapped subtraction gives the residue of the true distance. */
  lemma WrapDistance(n1: int, n2: int)
    ensures (Wrap(n1) - Wrap(n2)) % MODULUS == (n1 - n2) % MODULUS
  {
    var k1, k2 := n1 / MODULUS, n2 / MODULUS;
    var d := n1 - n2;
    var w := Wrap(n1) - Wrap(n2);
    assert d == w + (k1 - k2) * MODULUS;
    var j, i := d / MODULUS, w / MODULUS;
    assert d % MODULUS - w % MODULUS == (k1 - k2 + i - j) * MODULUS;
  }

  lemma WrapNext(n: int)
    ensures Wrap(Wrap(n) + 1) == Wrap(n + 1)
  {
  }

  /** Up to one full turn of the counter, the comparison is right exactly inside the window. */
  lemma CompareExact(n1: int, n2: int)
    requires -MODULUS <= n1 - n2 <= MODULUS
    ensures CompareSequence(Wrap(n1), Wrap(n2)) == Sign(n1 - n2) <==> InWindow(n1 - n2)
  {
    WrapDistance(n1, n2);
    assert Wrap(n1) == Wrap(n2) <==> (Wrap(n1) - Wrap(n2)) % MODULUS == 0;
  }

  ghost predicate TrueOn(low: int, high: int) {
    forall n1, n2 :: low <= n1 - n2 <= high ==> CompareSequence(Wrap(n1), Wrap(n2)) == Sign(n1 - n2)
  }

  /** No interval of distances around zero larger than the window is compared correctly. */
  lemma WindowIsMaximal(low: int, high: int)
    requires low <= 0 <= high
    ensures TrueOn(low, high) <==> InWindow(low) && InWindow(high)
  {
    if InWindow(low) && InWindow(high) {
      forall n1, n2 | low <= n1 - n2 <= high
        ensures CompareSequence(Wrap(n1), Wrap(n2)) == Sign(n1 - n2)
      {
        CompareExact(n1, n2);
      }
    } else if TrueOn(low, high) {
      CompareExact(if InWindow(low) then 0x7FFF_FFFF else -0x8000_0002, 0);
    }
  }

  /**
   Swapping the arguments flips the answer except at three distances, where both
   orders say "older".  Section 3.2 of RFC 1982 leaves only the middle one undefined.
   */
  lemma AntisymmetryExact(s1: uint32, s2: uint32)
    ensures CompareSequence(s1, s2) == -CompareSequence(s2, s1)
            <==> !(HALF <= (s1 - s2) % MODULUS <= HALF + 2)
  {
    WrapDistance(s1, s2);
    assert s1 != s2 ==> (s1 - s2) % MODULUS + (s2 - s1) % MODULUS == MODULUS;
  }

  // ----- the filter: accept what is newer than the last accepted number -----

  predicate Accepts(last: Option<uint32>, s: uint32) {
    last.None? || CompareSequence(s, last.value) > 0
  }

  /** The decisions the filter takes on a list of arrivals. */
  function Decide(last: Option<uint32>, arrivals: seq<uint32>): seq<bool>
    decreases arrivals
  {
    if arrivals == [] then []
    else
      var yes := Accepts(last, arrivals[0]);
      [yes] + Decide(if yes then Some(arrivals[0]) else last, arrivals[1..])
  }

  predicate Newer(last: Option<int>, n: int) {
    last.None? || n > last.value
  }

  /** The same filter on the true counters. */
  function DecideTrue(last: Option<int>, arrivals: seq<int>): seq<bool>
    decreases arrivals
  {
    if arrivals == [] then []
    else
      var yes := Newer(last, arrivals[0]);
      [yes] + DecideTrue(if yes then Some(arrivals[0]) else last, arrivals[1..])
  }

  /** The numbers the filter on true counters lets through. */
  function Accepted(last: Option<int>, arrivals: seq<int>): seq<int>
    decreases arrivals
  {
    if arrivals == [] then []
    else if Newer(last, arrivals[0]) then [arrivals[0]] + Accepted(Some(arrivals[0]), arrivals[1..])
    else Accepted(last, arrivals[1..])
  }

  /** Every arrival lies within the window of the number last accepted before it. */
  predicate Windowed(last: Option<int>, arrivals: seq<int>)
    decreases arrivals
  {
    arrivals != [] ==>
      && (last.Some? ==> InWindow(arrivals[0] - last.value))
      && Windowed(if Newer(last, arrivals[0]) then Some(arrivals[0]) else last, arrivals[1..])
  }

  function WrapLast(last: Option<int>): Option<uint32> {
    if last.None? then None else Some(Wrap(last.value))
  }

  function WrapAll(ns: seq<int>): (r: seq<uint32>) {
    if ns == [] then [] else [Wrap(ns[0])] + WrapAll(ns[1..])
  }

  lemma {:induction false} AcceptsRefines(last: Option<int>, n: int)
    requires last.Some? ==> InWindow(n - last.value)
    ensures Accepts(WrapLast(last), Wrap(n)) == Newer(last, n)
  {
    if last.Some? {
      CompareExact(n, last.value);
    }
  }

  /** The filter on 32-bit numbers takes the decisions of the filter on true counters. */
  lemma {:induction false} FilterRefinesCounters(last: Option<int>, arrivals: seq<int>)
    requires Windowed(last, arrivals)
    ensures Decide(WrapLast(last), WrapAll(arrivals)) == DecideTrue(last, arrivals)
    decreases arrivals
  {
    if arrivals != [] {
      AcceptsRefines(last, arrivals[0]);
      var last' := if Newer(last, arrivals[0]) then Some(arrivals[0]) else last;
      FilterRefinesCounters(last', arrivals[1..]);
      assert WrapAll(arrivals)[1..] == WrapAll(arrivals[1..]);
    }
  }

  ghost predicate StrictlyIncreasing(s: seq<int>) {
    forall i, j :: 0 <= i < j < |s| ==> s[i] < s[j]
  }

  /** What passes is strictly increasing from the starting point on, so nothing passes twice. */
  lemma {:induction false} AcceptedIncreases(last: Option<int>, arrivals: seq<int>)
    ensures var a := Accepted(last, arrivals);
            && StrictlyIncreasing(a)
            && forall i :: 0 <= i < |a| ==> Newer(last, a[i]) && a[i] in arrivals
    decreases arrivals
  {
    if arrivals != [] {
      var first, rest := arrivals[0], arrivals[1..];
      AcceptedIncreases(if Newer(last, first) then Some(first) else last, rest);
      var a := Accepted(last, arrivals);
      if Newer(last, first) {
        var tail := Accepted(Some(first), rest);
        forall i | 0 <= i < |a| ensures Newer(last, a[i]) && a[i] in arrivals && (i > 0 ==> first < a[i]) {
          assert i > 0 ==> a[i] == tail[i - 1];
        }
        forall i, j | 0 <= i < j < |a| ensures a[i] < a[j] {
          assert a[j] == tail[j - 1];
        }
      }
    }
  }

  /** The largest of the starting point and the arrivals. */
  function Largest(last: Option<int>, arrivals: seq<int>): Option<int>
    decreases arrivals
  {
    if arrivals == [] then last
    else Largest(if Newer(last, arrivals[0]) then Some(arrivals[0]) else last, arrivals[1..])
  }

  lemma {:induction false} LargestIsMaximum(last: Option<int>, arrivals: seq<int>)
    ensures var m := Largest(last, arrivals);
            && (m.None? <==> last.None? && arrivals == [])
            && (m.Some? ==> (m == last || m.value in arrivals)
                            && (last.Some? ==> last.value <= m.value)
                            && forall i :: 0 <= i < |arrivals| ==> arrivals[i] <= m.value)
    decreases arrivals
  {
    if arrivals != [] {
      LargestIsMaximum(if Newer(last, arrivals[0]) then Some(arrivals[0]) else last, arrivals[1..]);
      assert forall i :: 0 < i < |arrivals| ==> arrivals[i] == arrivals[1..][i - 1];
    }
  }

  /** The filter ends having accepted the maximum, whatever the arrival order. */
  lemma {:induction false} AcceptedEndsInMaximum(last: Option<int>, arrivals: seq<int>)
    ensures var a := Accepted(last, arrivals);
            Largest(last, arrivals) == if a == [] then last else Some(a[|a| - 1])
    decreases arrivals
  {
    if arrivals != [] {
      AcceptedEndsInMaximum(if Newer(last, arrivals[0]) then Some(arrivals[0]) else last, arrivals[1..]);
    }
  }

  // ----- together: what the 32-bit filter lets through and remembers -----

  /** The elements a list of decisions lets through. */
  function Chosen<T>(xs: seq<T>, yes: seq<bool>): seq<T>
    requires |xs| == |yes|
  {
    if xs == [] then []
    else (if yes[0] then [xs[0]] else []) + Chosen(xs[1..], yes[1..])
  }

  /** The numbers the filter on 32-bit numbers lets through. */
  function LetThrough(last: Option<uint32>, arrivals: seq<uint32>): seq<uint32> {
    DecideLength(last, arrivals);
    Chosen(arrivals, Decide(last, arrivals))
  }

  /** The number it has stored after the arrivals. */
  function Stored(last: Option<uint32>, arrivals: seq<uint32>): Option<uint32>
    decreases arrivals
  {
    if arrivals == [] then last
    else Stored(if Accepts(last, arrivals[0]) then Some(arrivals[0]) else last, arrivals[1..])
  }

  lemma {:induction false} DecideLength(last: Option<uint32>, arrivals: seq<uint32>)
    ensures |Decide(last, arrivals)| == |arrivals|
    decreases arrivals
  {
    if arrivals != [] {
      DecideLength(if Accepts(last, arrivals[0]) then Some(arrivals[0]) else last, arrivals[1..]);
    }
  }

  lemma LetThroughStep(last: Option<uint32>, arrivals: seq<uint32>)
    requires arrivals != []
    ensures LetThrough(last, arrivals)
            == if Accepts(last, arrivals[0]) then [arrivals[0]] + LetThrough(Some(arrivals[0]), arrivals[1..])
               else LetThrough(last, arrivals[1..])
  {
    DecideLength(last, arrivals);
    var last' := if Accepts(last, arrivals[0]) then Some(arrivals[0]) else last;
    assert Decide(last, arrivals)[1..] == Decide(last', arrivals[1..]);
  }

  /**
   On arrivals within the window the 32-bit filter lets through what the filter on true
   counters accepts, wrapped, and has the largest number stored, wrapped.
   */
  lemma {:induction false} LetsThroughAccepted(last: Option<int>, arrivals: seq<int>)
    requires Windowed(last, arrivals)
    ensures LetThrough(WrapLast(last), WrapAll(arrivals)) == WrapAll(Accepted(last, arrivals))
    ensures Stored(WrapLast(last), WrapAll(arrivals)) == WrapLast(Largest(last, arrivals))
    decreases arrivals
  {
    if arrivals != [] {
      var last' := if Newer(last, arrivals[0]) then Some(arrivals[0]) else last;
      AcceptsRefines(last, arrivals[0]);
      LetThroughStep(WrapLast(last), WrapAll(arrivals));
      assert WrapAll(arrivals)[1..] == WrapAll(arrivals[1..]);
      LetsThroughAccepted(last', arrivals[1..]);
    }
  }

  /**
   Whatever the starting value and the order of arrival within the window: what the 32-bit
   filter lets through is a strictly increasing list of arrivals, the number it has stored
   at the end is the maximum, and the last number it let through is that one.
   */
  lemma FilterAcceptsUpToMaximum(last: Option<int>, arrivals: seq<int>)
    requires Windowed(last, arrivals)
    ensures var a, m := Accepted(last, arrivals), Largest(last, arrivals);
            && LetThrough(WrapLast(last), WrapAll(arrivals)) == WrapAll(a)
            && StrictlyIncreasing(a) && (forall i :: 0 <= i < |a| ==> Newer(last, a[i]) && a[i] in arrivals)
            && Stored(WrapLast(last), WrapAll(arrivals)) == WrapLast(m)
            && m == (if a == [] then last else Some(a[|a| - 1]))
            && (forall i :: 0 <= i < |arrivals| ==> m.Some? && arrivals[i] <= m.value)
            && (last.Some? ==> m.Some? && last.value <= m.value)
  {
    LetsThroughAccepted(last, arrivals);
    AcceptedIncreases(last, arrivals);
    AcceptedEndsInMaximum(last, arrivals);
    LargestIsMaximum(last, arrivals);
  }
}
