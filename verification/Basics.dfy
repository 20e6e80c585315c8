/** Small facts about numbers and sets that several modules use. */
module Basics {
  /** `int(x)`. */
  function Truncated(x: real): int {
    if x >= 0.0 then x.Floor else -((-x).Floor)
  }

  /** Rounded toward zero. */
  lemma TruncatedMeaning(x: real)
    ensures var t := Truncated(x);
            if x >= 0.0 then t as real <= x < (t + 1) as real else (t - 1) as real < x <= t as real
  {
    var f := if x >= 0.0 then x.Floor else (-x).Floor;
    assert x >= 0.0 ==> f as real <= x < (f + 1) as real;
    assert x < 0.0 ==> f as real <= -x < (f + 1) as real;
  }

  function Mapped<A, B>(f: A -> B, s: seq<A>): (r: seq<B>)
    ensures |r| == |s| && forall i :: 0 <= i < |r| ==> r[i] == f(s[i])
  {
    seq(|s|, i requires 0 <= i < |s| => f(s[i]))
  }

  lemma MappedAppend<A, B>(f: A -> B, s: seq<A>, t: seq<A>)
    ensures Mapped(f, s + t) == Mapped(f, s) + Mapped(f, t)
  {
  }

  lemma SubsetSize<T>(a: set<T>, b: set<T>)
    requires a <= b
    ensures |a| <= |b|
    ensures |a| == |b| ==> a == b
  {
    assert b == a + (b - a);
    assert |b| == |a| + |b - a|;
  }
}
