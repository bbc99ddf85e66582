/**
 A counter that is pushed up and down and never falls below zero. The cascade gate keeps two
 of them, the brace depth and the parenthesis depth.
 */
module Clamping {

  function Clamp(x: int): nat {
    if x < 0 then 0 else x
  }

  function Clamped(d: seq<int>): nat {
    if d == [] then 0 else Clamp(Clamped(d[..|d| - 1]) + d[|d| - 1])
  }

  function Sum(d: seq<int>): int {
    if d == [] then 0 else Sum(d[..|d| - 1]) + d[|d| - 1]
  }

  /** How often the counter was stopped at zero. */
  function Clamps(d: seq<int>): nat {
    if d == [] then 0
    else Clamps(d[..|d| - 1]) + (if Clamped(d[..|d| - 1]) + d[|d| - 1] < 0 then 1 else 0)
  }

  /** The largest shortfall of any prefix. */
  function Deficit(d: seq<int>): nat {
    if d == [] then 0
    else var before := Deficit(d[..|d| - 1]); if -Sum(d) > before then -Sum(d) else before
  }

  lemma {:induction false} DeficitIsLargestShortfall(d: seq<int>)
    ensures forall n :: 0 <= n <= |d| ==> -Sum(d[..n]) <= Deficit(d)
    ensures exists n :: 0 <= n <= |d| && -Sum(d[..n]) == Deficit(d)
  {
    assert d[..|d|] == d;
    if d == [] {
      assert -Sum(d[..0]) == Deficit(d);
    } else {
      var init := d[..|d| - 1];
      DeficitIsLargestShortfall(init);
      forall n | 0 <= n <= |d| ensures -Sum(d[..n]) <= Deficit(d) {
        if n < |d| { assert d[..n] == init[..n]; }
      }
      var n :| 0 <= n <= |init| && -Sum(init[..n]) == Deficit(init);
      assert d[..n] == init[..n];
      assert Deficit(d) == Deficit(init) || -Sum(d[..|d|]) == Deficit(d);
    }
  }

  /** The clamped counter is the plain sum raised by the largest shortfall. */
  lemma {:induction false} ClampedIsSumPlusDeficit(d: seq<int>)
    ensures Clamped(d) == Sum(d) + Deficit(d)
  {
    if d != [] {
      ClampedIsSumPlusDeficit(d[..|d| - 1]);
    }
  }

  /** Moving one at a time, the counter is stopped exactly once per unit of shortfall. */
  lemma {:induction false} ClampsAreDeficit(d: seq<int>)
    requires forall i :: 0 <= i < |d| ==> -1 <= d[i] <= 1
    ensures Clamps(d) == Deficit(d)
  {
    if d != [] {
      ClampsAreDeficit(d[..|d| - 1]);
      ClampedIsSumPlusDeficit(d[..|d| - 1]);
    }
  }

  lemma Snoc(d: seq<int>, x: int)
    ensures Clamped(d + [x]) == Clamp(Clamped(d) + x)
    ensures Sum(d + [x]) == Sum(d) + x
  {
    assert (d + [x])[..|d|] == d;
  }

  /** A counter back at zero starts afresh. */
  lemma {:induction false} ClampedAfterZero(a: seq<int>, b: seq<int>)
    requires Clamped(a) == 0
    ensures Clamped(a + b) == Clamped(b)
  {
    if b == [] {
      assert a + b == a;
    } else {
      assert (a + b)[..|a + b| - 1] == a + b[..|b| - 1];
      ClampedAfterZero(a, b[..|b| - 1]);
    }
  }
}
