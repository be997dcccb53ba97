/** Fuzzy hardware matching (server/internal/hardware/match.go). */
module Matching {

  type Hardware = map<string, string>

  /** The components on which two fingerprints agree with a non-empty value. */
  function Agreeing(p: Hardware, q: Hardware): set<string> {
    set k | k in p && k in q && p[k] == q[k] && p[k] != ""
  }

  function Score(p: Hardware, q: Hardware): nat {
    |Agreeing(p, q)|
  }

  /** Looking up an absent component gives the empty string. */
  function Lookup(h: Hardware, k: string): string {
    if k in h then h[k] else ""
  }

  /** The loop visits the map in any order. */
  method FuzzyMatch(prev: Hardware, next: Hardware, threshold: int) returns (matches: bool)
    ensures matches <==> Score(prev, next) >= if threshold <= 0 then 4 else threshold
  {
    var limit := threshold;
    if limit <= 0 {
      limit := 4;
    }
    var score := 0;
    var unseen := prev.Keys;
    ghost var counted: set<string> := {};
    while unseen != {}
      invariant unseen <= prev.Keys
      invariant counted <= Agreeing(prev, next)
      invariant counted !! unseen
      invariant forall k :: k in Agreeing(prev, next) ==> k in counted || k in unseen
      invariant score == |counted|
      decreases |unseen|
    {
      var k :| k in unseen;
      if Lookup(next, k) == prev[k] && prev[k] != "" {
        score := score + 1;
        counted := counted + {k};
      }
      unseen := unseen - {k};
    }
    assert counted == Agreeing(prev, next);
    return score >= limit;
  }

  /** One more component adds one exactly when both sides have it and it is the same, non-empty value. */
  lemma ComponentAddsOneIff(p: Hardware, q: Hardware, k: string, v: string)
    requires k !in p
    ensures Score(p[k := v], q) == Score(p, q) + if k in q && q[k] == v && v != "" then 1 else 0
  {
    if k in q && q[k] == v && v != "" {
      assert Agreeing(p[k := v], q) == Agreeing(p, q) + {k};
    } else {
      assert Agreeing(p[k := v], q) == Agreeing(p, q);
    }
  }

  lemma EmptyScoresNothing(q: Hardware)
    ensures Score(map[], q) == 0
  {
    assert Agreeing(map[], q) == {};
  }

  lemma ScoreIsSymmetric(p: Hardware, q: Hardware)
    ensures Score(p, q) == Score(q, p)
  {
    assert Agreeing(p, q) == Agreeing(q, p);
  }

  lemma SizesAddUp<T>(x: set<T>, y: set<T>)
    ensures |x| + |y| == |x + y| + |x * y|
  {
    assert x + y == x + (y - x) && y == (y - x) + x * y;
  }

  lemma SubsetIsSmaller<T>(x: set<T>, y: set<T>)
    requires x <= y
    ensures |x| <= |y|
  {
    assert y == x + (y - x);
  }

  /** Two fingerprints that both agree with a third agree with each other on all but what the third leaves over. */
  lemma ScoreChains(p: Hardware, n: Hardware, q: Hardware)
    ensures Score(p, q) + |n| >= Score(p, n) + Score(n, q)
  {
    var x, y := Agreeing(p, n), Agreeing(n, q);
    SizesAddUp(x, y);
    SubsetIsSmaller(x + y, n.Keys);
    SubsetIsSmaller(x * y, Agreeing(p, q));
    assert |n| == |n.Keys|;
  }

  /** The sum of what each step of a chain of fingerprints fails to agree on. */
  function Losses(chain: seq<Hardware>): int {
    if |chain| < 2 then 0
    else |chain[|chain| - 2]| - Score(chain[|chain| - 2], chain[|chain| - 1]) + Losses(chain[..|chain| - 1])
  }

  /** Along a chain of any length the first fingerprint loses no more agreement than the steps lose together. */
  lemma {:induction false} LossesBoundDrift(chain: seq<Hardware>)
    requires |chain| >= 2
    ensures Score(chain[0], chain[|chain| - 1]) >= |chain[0]| - Losses(chain)
  {
    var n := |chain| - 1;
    if n > 1 {
      LossesBoundDrift(chain[..n]);
      ScoreChains(chain[0], chain[n - 1], chain[n]);
    }
  }
}
