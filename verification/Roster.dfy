/** Sequence operations behind an area's occupant roster: the roster is an
    ordered list of player ids, in order of arrival, with no repeats. */
module Roster {

  /** A player's identity as the roster stores it. */
  type PlayerID = string

  /** No element occurs twice in `s`. */
  predicate NoDuplicates(s: seq<PlayerID>) {
    forall i, j :: 0 <= i < j < |s| ==> s[i] != s[j]
  }

  /** `s` with every occurrence of `v` dropped and the other elements kept
      in their original order (the roster filter of a departure). */
  function Without(s: seq<PlayerID>, v: PlayerID): (r: seq<PlayerID>)
    ensures |r| <= |s|
    ensures forall x :: x in r <==> x in s && x != v
    ensures v in s ==> |r| < |s|
  {
    if |s| == 0 then []
    else if s[0] == v then Without(s[1..], v)
    else [s[0]] + Without(s[1..], v)
  }

  /** Dropping a value that is not there changes nothing. */
  lemma {:induction false} WithoutAbsent(s: seq<PlayerID>, v: PlayerID)
    requires v !in s
    ensures Without(s, v) == s
  {
    if |s| > 0 {
      WithoutAbsent(s[1..], v);
      assert s == [s[0]] + s[1..];
    }
  }

  /** Dropping distributes over concatenation. */
  lemma {:induction false} WithoutConcat(a: seq<PlayerID>, b: seq<PlayerID>, v: PlayerID)
    ensures Without(a + b, v) == Without(a, v) + Without(b, v)
  {
    if |a| == 0 {
      assert a + b == b;
    } else {
      assert (a + b)[0] == a[0];
      assert (a + b)[1..] == a[1..] + b;
      WithoutConcat(a[1..], b, v);
    }
  }

  /** In a roster without repeats, dropping the id found at position `i`
      deletes exactly that one entry and keeps everybody else in order. */
  lemma {:induction false} WithoutDeletesAt(s: seq<PlayerID>, i: nat)
    requires NoDuplicates(s)
    requires i < |s|
    ensures Without(s, s[i]) == s[..i] + s[i + 1..]
  {
    assert s == s[..i] + [s[i]] + s[i + 1..];
    assert s[i] !in s[..i];
    assert s[i] !in s[i + 1..];
    WithoutConcat(s[..i] + [s[i]], s[i + 1..], s[i]);
    WithoutConcat(s[..i], [s[i]], s[i]);
    WithoutAbsent(s[..i], s[i]);
    WithoutAbsent(s[i + 1..], s[i]);
    assert Without([s[i]], s[i]) == [];
  }

  /** Dropping an id never introduces a repeat. */
  lemma {:induction false} WithoutKeepsNoDuplicates(s: seq<PlayerID>, v: PlayerID)
    requires NoDuplicates(s)
    ensures NoDuplicates(Without(s, v))
  {
    if v in s {
      var i :| 0 <= i < |s| && s[i] == v;
      WithoutDeletesAt(s, i);
      var r := s[..i] + s[i + 1..];
      forall a, b | 0 <= a < b < |r|
        ensures r[a] != r[b]
      {
        var a' := if a < i then a else a + 1;
        var b' := if b < i then b else b + 1;
        assert r[a] == s[a'] && r[b] == s[b'];
      }
    } else {
      WithoutAbsent(s, v);
    }
  }

  /** Appending an id that is not yet present keeps the roster repeat-free. */
  lemma AppendKeepsNoDuplicates(s: seq<PlayerID>, v: PlayerID)
    requires NoDuplicates(s)
    requires v !in s
    ensures NoDuplicates(s + [v])
  {
  }
}
