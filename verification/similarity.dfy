/** similar.go: the registry of fingerprints already seen, with an atomic
    check-and-insert. The mutex is left out: each `Add` is one atomic step,
    and any interleaving of concurrent callers is a sequence of `Add`s. */
module Similarity {

  /** The tree set of hashes; only membership is ever observed. */
  datatype Similar = Similar(hashes: set<string>)

  /** `NewSimilar`: an empty registry. */
  function NewSimilar(): (s: Similar)
    ensures forall h :: h !in s.hashes
  {
    Similar({})
  }

  /** `Similar.Add`: inserts `h` and reports whether the set grew, by
      comparing the sizes before and after the insertion. The result is
      "first sighting": true exactly when `h` was not there before. */
  function Add(s: Similar, h: string): (r: (Similar, bool))
    ensures r.1 <==> h !in s.hashes
    ensures r.0.hashes == s.hashes + {h}
  {
    var before := |s.hashes|;
    var after := s.hashes + {h};
    (Similar(after), |after| > before)
  }

  /** The first `Add` to a fresh registry always succeeds. */
  lemma FirstAddIsNew(h: string)
    ensures Add(NewSimilar(), h).1
  {
  }

  /** Adding the same hash twice in a row: accepted, then rejected, and the
      second call changes nothing. */
  lemma AddTwice(s: Similar, h: string)
    requires h !in s.hashes
    ensures var (s1, b1) := Add(s, h);
            var (s2, b2) := Add(s1, h);
            b1 && !b2 && s2 == s1 && h in s2.hashes
  {
  }

  /** A run of `Add`s, in the order the workers reached the lock: the final
      registry and the answer each call got. A hash is accepted exactly
      when neither the starting registry nor an earlier call held it. */
  function AddAll(s: Similar, hs: seq<string>): (r: (Similar, seq<bool>))
    ensures |r.1| == |hs|
    ensures forall h :: h in r.0.hashes <==> h in s.hashes || h in hs
    ensures forall i :: 0 <= i < |hs| ==> (r.1[i] <==> hs[i] !in s.hashes && hs[i] !in hs[..i])
    decreases |hs|
  {
    if hs == [] then (s, [])
    else
      var first := Add(s, hs[0]);
      var tail := AddAll(first.0, hs[1..]);
      var r := (tail.0, [first.1] + tail.1);
      assert forall h :: h in hs <==> h == hs[0] || h in hs[1..];
      forall i | 1 <= i < |hs|
        ensures r.1[i] <==> hs[i] !in s.hashes && hs[i] !in hs[..i]
      {
        var t := hs[1..];
        assert r.1[i] == tail.1[i - 1];
        assert hs[i] == t[i - 1];
        assert hs[..i] == [hs[0]] + t[..i - 1];
      }
      r
  }

  /** Whatever the interleaving, a hash is accepted at most once, and a hash
      that was new to the registry is accepted exactly once: at its first
      occurrence. */
  lemma {:induction false} AcceptedOnce(s: Similar, hs: seq<string>, i: int, j: int)
    requires 0 <= i < j < |hs| && hs[i] == hs[j]
    ensures !AddAll(s, hs).1[j]
    ensures hs[i] !in s.hashes && hs[i] !in hs[..i] ==> AddAll(s, hs).1[i]
  {
    assert hs[i] in hs[..j];
  }
}
