/** How many threads satisfy a predicate. Thread states are kept in a sequence indexed by thread,
    so a counter that code keeps with atomic increments is compared with such a count. */
module Counting {

  function Count<T>(ts: seq<T>, p: T -> bool): nat {
    if ts == [] then 0 else (if p(ts[0]) then 1 else 0) + Count(ts[1..], p)
  }

  lemma {:induction false} CountUpdate<T>(ts: seq<T>, i: nat, x: T, p: T -> bool)
    requires i < |ts|
    ensures Count(ts[i := x], p) + (if p(ts[i]) then 1 else 0) == Count(ts, p) + (if p(x) then 1 else 0)
  {
    if i == 0 {
      assert ts[i := x][1..] == ts[1..];
    } else {
      CountUpdate(ts[1..], i - 1, x, p);
      assert ts[i := x][1..] == ts[1..][i - 1 := x];
    }
  }

  /** A counted member keeps the count positive. */
  lemma {:induction false} CountPositive<T>(ts: seq<T>, i: nat, p: T -> bool)
    requires i < |ts| && p(ts[i])
    ensures Count(ts, p) > 0
  {
    if i > 0 {
      CountPositive(ts[1..], i - 1, p);
    }
  }

  /** When the count is one and i is counted, nobody else is. */
  lemma {:induction false} CountOnly<T>(ts: seq<T>, i: nat, p: T -> bool)
    requires i < |ts| && p(ts[i]) && Count(ts, p) == 1
    ensures forall j :: 0 <= j < |ts| && j != i ==> !p(ts[j])
  {
    forall j: nat | j < |ts| && j != i
      ensures !p(ts[j])
    {
      if p(ts[j]) {
        CountTwo(ts, i, j, p);
      }
    }
  }

  lemma {:induction false} CountTwo<T>(ts: seq<T>, i: nat, j: nat, p: T -> bool)
    requires i < |ts| && j < |ts| && i != j && p(ts[i]) && p(ts[j])
    ensures Count(ts, p) >= 2
  {
    if i == 0 {
      CountPositive(ts[1..], j - 1, p);
    } else if j == 0 {
      CountPositive(ts[1..], i - 1, p);
    } else {
      CountTwo(ts[1..], i - 1, j - 1, p);
    }
  }

  lemma {:induction false} CountNone<T>(ts: seq<T>, p: T -> bool)
    requires forall i :: 0 <= i < |ts| ==> !p(ts[i])
    ensures Count(ts, p) == 0
  {
    if ts != [] {
      CountNone(ts[1..], p);
    }
  }
}
