/** Sequences up to the order of their elements. */
module Bags {

  /** Where an element is, and what is left without it. */
  lemma Occurrence<T>(b: seq<T>, x: T, rest: seq<T>) returns (i: nat)
    requires multiset(b) == multiset{x} + multiset(rest)
    ensures i < |b| && b[i] == x && multiset(b[..i] + b[i + 1..]) == multiset(rest)
  {
    assert x in multiset(b);
    i :| i < |b| && b[i] == x;
    Without(b, i);
    assert multiset(b) - multiset{x} == multiset(rest);
  }

  lemma Without<T>(b: seq<T>, i: nat)
    requires i < |b|
    ensures b == b[..i] + ([b[i]] + b[i + 1..])
    ensures multiset(b) == multiset{b[i]} + multiset(b[..i] + b[i + 1..])
  {
    assert b == b[..i] + ([b[i]] + b[i + 1..]);
    assert multiset(b) == multiset(b[..i]) + multiset([b[i]] + b[i + 1..]);
  }

  lemma HeadFirst<T>(s: seq<T>)
    requires s != []
    ensures multiset(s) == multiset{s[0]} + multiset(s[1..])
  {
    assert s == [s[0]] + s[1..];
  }

  lemma EmptyBag<T>(b: seq<T>)
    requires multiset(b) == multiset{}
    ensures b == []
  {
    assert |multiset(b)| == |b|;
  }
}
