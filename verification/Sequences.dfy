/** Deleting elements of a sequence, as the repositories delete rows of their tables. */
module Sequences {
  function Without<T>(s: seq<T>, doomed: T -> bool): seq<T> {
    if s == [] then []
    else
      var last := s[|s| - 1];
      Without(s[..|s| - 1], doomed) + if doomed(last) then [] else [last]
  }

  lemma {:induction false} WithoutMembers<T>(s: seq<T>, doomed: T -> bool)
    ensures forall x :: x in Without(s, doomed) <==> x in s && !doomed(x)
  {
    if s != [] {
      WithoutMembers(s[..|s| - 1], doomed);
      assert s == s[..|s| - 1] + [s[|s| - 1]];
    }
  }

  lemma WithoutIsMember<T>(s: seq<T>, doomed: T -> bool, i: nat)
    requires i < |Without(s, doomed)|
    ensures Without(s, doomed)[i] in s
  {
    var x := Without(s, doomed)[i];
    assert x in Without(s, doomed);
    WithoutMembers(s, doomed);
    assert x in s;
  }

  lemma {:induction false} NothingDoomed<T>(s: seq<T>, doomed: T -> bool)
    requires forall x <- s :: !doomed(x)
    ensures Without(s, doomed) == s
  {
    if s != [] {
      assert s == s[..|s| - 1] + [s[|s| - 1]];
      NothingDoomed(s[..|s| - 1], doomed);
    }
  }

  predicate Apart<T>(s: seq<T>, apart: (T, T) -> bool) {
    forall i, j :: 0 <= i < j < |s| ==> apart(s[i], s[j])
  }

  /** Whatever sets each element apart from all later ones still does after some are gone. */
  lemma {:induction false} WithoutKeepsApart<T>(s: seq<T>, doomed: T -> bool, apart: (T, T) -> bool)
    requires Apart(s, apart)
    ensures Apart(Without(s, doomed), apart)
  {
    if s != [] {
      var front := s[..|s| - 1];
      WithoutKeepsApart(front, doomed, apart);
      WithoutMembers(front, doomed);
      var kept := Without(front, doomed);
      forall i | 0 <= i < |kept|
        ensures apart(kept[i], s[|s| - 1])
      {
        WithoutIsMember(front, doomed, i);
        var j :| 0 <= j < |front| && front[j] == kept[i];
        assert apart(s[j], s[|s| - 1]);
      }
    }
  }
}
