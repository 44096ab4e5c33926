/** Case-insensitive substring search, as the gallery's search uses it on
    artist names (`artist.contains(query, ignoreCase = true)`).

    The platform's case folding is modelled character by character over the
    ASCII letters: two characters are equal ignoring case when their folds
    agree. The scan below follows the library's shape: try every start
    position in order and compare the query against the region there,
    character by character. */
module Text {

  /** The case fold of one character: ASCII upper-case letters become
      lower-case, every other character is left as it is. */
  function Fold(c: char): (r: char)
    ensures !('A' <= r <= 'Z')
    ensures r != c ==> 'A' <= c <= 'Z'
  {
    if 'A' <= c <= 'Z' then (c as int - 'A' as int + 'a' as int) as char else c
  }

  /** The string folded character by character: no upper-case letter is
      left, and a string without upper-case letters is its own fold. */
  function Lower(s: string): (r: string)
    ensures forall i :: 0 <= i < |r| ==> !('A' <= r[i] <= 'Z')
    ensures (forall i :: 0 <= i < |s| ==> !('A' <= s[i] <= 'Z')) ==> r == s
  {
    seq(|s|, i requires 0 <= i < |s| => Fold(s[i]))
  }

  /** Two characters have the same fold exactly when they are equal or one
      is the upper-case ASCII letter of the other. */
  lemma FoldSameIff(c: char, d: char)
    ensures Fold(c) == Fold(d) <==>
      c == d ||
      ('A' <= c <= 'Z' && d as int == c as int + 32) ||
      ('A' <= d <= 'Z' && c as int == d as int + 32)
  {
  }

  /** `sub` occurs in `s` as a contiguous block: the reference meaning of
      "contains". */
  ghost predicate IsSubstring(sub: string, s: string)
  {
    exists k :: 0 <= k && OccursAt(sub, s, k)
  }

  /** `sub` occurs in `s` starting at position k. */
  predicate OccursAt(sub: string, s: string, k: nat)
  {
    k + |sub| <= |s| && s[k..k + |sub|] == sub
  }

  /** The characters q[j..] match the region of `s` that starts at offset
      k + j, ignoring case. */
  predicate RegionMatchesFrom(s: string, k: nat, q: string, j: nat)
    requires k + |q| <= |s| && j <= |q|
    decreases |q| - j
  {
    j == |q| || (Fold(s[k + j]) == Fold(q[j]) && RegionMatchesFrom(s, k, q, j + 1))
  }

  /** The region of `s` starting at p matches `q` ignoring case. */
  predicate MatchesAt(s: string, q: string, p: nat)
  {
    p + |q| <= |s| && RegionMatchesFrom(s, p, q, 0)
  }

  /** Some start position p >= k has a region of `s` matching `q`. */
  predicate ContainsFrom(s: string, q: string, k: nat)
    decreases |s| - k
  {
    k + |q| <= |s| && (RegionMatchesFrom(s, k, q, 0) || ContainsFrom(s, q, k + 1))
  }

  /** `s.contains(q, ignoreCase = true)`: a contained query fits inside the
      string, and the empty query is contained in every string. */
  predicate ContainsIgnoreCase(s: string, q: string): (b: bool)
    ensures b ==> |q| <= |s|
    ensures |q| == 0 ==> b
  {
    ContainsFrom(s, q, 0)
  }

  /** A region matches exactly when every remaining pair of characters has
      the same fold. */
  lemma {:induction false} RegionMatchesFromIff(s: string, k: nat, q: string, j: nat)
    requires k + |q| <= |s| && j <= |q|
    ensures RegionMatchesFrom(s, k, q, j) <==> forall i :: j <= i < |q| ==> Fold(s[k + i]) == Fold(q[i])
    decreases |q| - j
  {
    if j < |q| {
      RegionMatchesFromIff(s, k, q, j + 1);
    }
  }

  /** A full region match is equality of the folded region and the folded
      query. */
  lemma RegionMatchesIffLower(s: string, k: nat, q: string)
    requires k + |q| <= |s|
    ensures RegionMatchesFrom(s, k, q, 0) <==> Lower(s)[k..k + |q|] == Lower(q)
  {
    RegionMatchesFromIff(s, k, q, 0);
    if Lower(s)[k..k + |q|] == Lower(q) {
      forall i | 0 <= i < |q| ensures Fold(s[k + i]) == Fold(q[i]) {
        assert Lower(s)[k..k + |q|][i] == Lower(q)[i];
      }
    }
  }

  /** The scan from k succeeds exactly when some start position at or after
      k matches. */
  lemma {:induction false} ContainsFromIff(s: string, q: string, k: nat)
    ensures ContainsFrom(s, q, k) <==>
      exists p :: k <= p && MatchesAt(s, q, p)
    decreases |s| - k
  {
    if k + |q| <= |s| {
      ContainsFromIff(s, q, k + 1);
      if RegionMatchesFrom(s, k, q, 0) {
        assert MatchesAt(s, q, k);
      }
      if exists p :: k <= p && MatchesAt(s, q, p) {
        var p :| k <= p && MatchesAt(s, q, p);
        if p != k {
          assert k + 1 <= p && MatchesAt(s, q, p);
        }
      }
    }
  }

  /** Partner of ContainsIgnoreCase: the scan agrees with the reference
      meaning, "the folded query is a substring of the folded string". */
  lemma ContainsIgnoreCaseIff(s: string, q: string)
    ensures ContainsIgnoreCase(s, q) <==> IsSubstring(Lower(q), Lower(s))
  {
    ContainsFromIff(s, q, 0);
    if ContainsIgnoreCase(s, q) {
      var p :| 0 <= p && MatchesAt(s, q, p);
      RegionMatchesIffLower(s, p, q);
      assert OccursAt(Lower(q), Lower(s), p);
    }
    if IsSubstring(Lower(q), Lower(s)) {
      var p :| 0 <= p && OccursAt(Lower(q), Lower(s), p);
      RegionMatchesIffLower(s, p, q);
      assert MatchesAt(s, q, p);
    }
  }

  /** Two queries that differ only in letter case are contained in exactly
      the same strings. */
  lemma ContainsIgnoresQueryCase(s: string, q1: string, q2: string)
    requires Lower(q1) == Lower(q2)
    ensures ContainsIgnoreCase(s, q1) == ContainsIgnoreCase(s, q2)
  {
    ContainsIgnoreCaseIff(s, q1);
    ContainsIgnoreCaseIff(s, q2);
  }

  /** Two strings that differ only in letter case contain exactly the same
      queries. */
  lemma ContainsIgnoresSubjectCase(s1: string, s2: string, q: string)
    requires Lower(s1) == Lower(s2)
    ensures ContainsIgnoreCase(s1, q) == ContainsIgnoreCase(s2, q)
  {
    ContainsIgnoreCaseIff(s1, q);
    ContainsIgnoreCaseIff(s2, q);
  }

  /** A query whose first character never occurs (ignoring case) is not
      contained. */
  lemma NotContainedWhenFirstAbsent(s: string, q: string)
    requires |q| >= 1
    requires forall i :: 0 <= i < |s| ==> Fold(s[i]) != Fold(q[0])
    ensures !ContainsIgnoreCase(s, q)
  {
    ContainsFromIff(s, q, 0);
    forall p | 0 <= p && p + |q| <= |s|
      ensures !MatchesAt(s, q, p)
    {
      RegionMatchesFromIff(s, p, q, 0);
    }
  }

  /** A query whose first two characters never occur side by side (ignoring
      case) is not contained: the cheap way to rule out a match on a
      concrete string. */
  lemma NotContainedWhenPairAbsent(s: string, q: string)
    requires |q| >= 2
    requires forall i :: 0 <= i < |s| - 1 ==> !(Fold(s[i]) == Fold(q[0]) && Fold(s[i + 1]) == Fold(q[1]))
    ensures !ContainsIgnoreCase(s, q)
  {
    ContainsFromIff(s, q, 0);
    forall p | 0 <= p && p + |q| <= |s|
      ensures !MatchesAt(s, q, p)
    {
      RegionMatchesFromIff(s, p, q, 0);
    }
  }
}
