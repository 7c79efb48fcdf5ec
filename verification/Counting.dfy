/** How many threads of a state machine are in a place. */
module Counting {

  function Count<T>(s: seq<T>, p: T -> bool): nat {
    if s == [] then 0 else (if p(s[0]) then 1 else 0) + Count(s[1..], p)
  }

  lemma {:induction false} CountMove<T>(s: seq<T>, t: nat, x: T, p: T -> bool)
    requires t < |s|
    ensures Count(s[t := x], p) == Count(s, p) - (if p(s[t]) then 1 else 0) + (if p(x) then 1 else 0)
  {
    if t == 0 {
      assert s[t := x][1..] == s[1..];
    } else {
      assert s[t := x][1..] == s[1..][t - 1 := x];
      CountMove(s[1..], t - 1, x, p);
    }
  }

  lemma {:induction false} CountWitness<T>(s: seq<T>, p: T -> bool) returns (t: nat)
    requires Count(s, p) > 0
    ensures t < |s| && p(s[t])
  {
    if p(s[0]) {
      t := 0;
    } else {
      t := CountWitness(s[1..], p);
      t := t + 1;
    }
  }

  lemma {:induction false} CountMember<T>(s: seq<T>, t: nat, p: T -> bool)
    requires t < |s| && p(s[t])
    ensures Count(s, p) > 0
  {
    if t > 0 {
      CountMember(s[1..], t - 1, p);
    }
  }

  lemma {:induction false} CountNone<T>(s: seq<T>, p: T -> bool)
    requires forall t :: 0 <= t < |s| ==> !p(s[t])
    ensures Count(s, p) == 0
  {
    if s != [] {
      CountNone(s[1..], p);
    }
  }

  lemma {:induction false} CountAppend<T>(s: seq<T>, x: T, p: T -> bool)
    ensures Count(s + [x], p) == Count(s, p) + (if p(x) then 1 else 0)
  {
    if s == [] {
      assert s + [x] == [x];
    } else {
      assert (s + [x])[1..] == s[1..] + [x];
      CountAppend(s[1..], x, p);
    }
  }

  lemma {:induction false} CountSame<T>(s: seq<T>, s': seq<T>, p: T -> bool)
    requires |s| == |s'| && forall i :: 0 <= i < |s| ==> p(s[i]) == p(s'[i])
    ensures Count(s, p) == Count(s', p)
  {
    if s != [] {
      CountSame(s[1..], s'[1..], p);
    }
  }
}
