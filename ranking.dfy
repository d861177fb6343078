/**
 * Ranking by score, shared by the termbank and both CSV exporters:
 * copying a key set into a list, sorting that list in place by descending
 * score, and the longest prefix whose scores reach a threshold.
 * Scores (Java `Number`/`Double`) are modelled as reals.
 */
module Ranking {

  /** Every element of `s` has a score. */
  predicate AllScored<K>(s: seq<K>, score: map<K, real>)
  {
    forall i :: 0 <= i < |s| ==> s[i] in score
  }

  /** Non-increasing by score: what the descending-score comparators guarantee. */
  predicate NonIncreasing<K>(s: seq<K>, score: map<K, real>)
  {
    AllScored(s, score) &&
    forall i, j :: 0 <= i < j < |s| ==> score[s[i]] >= score[s[j]]
  }

  /** `s` lists every key of `score` exactly once, highest score first. */
  predicate RankedKeys<K>(s: seq<K>, score: map<K, real>)
  {
    NonIncreasing(s, score) && multiset(s) == multiset(score.Keys)
  }

  /** `new ArrayList<K>(set)`: the elements of a set, each once, in some order. */
  method ListOfSet<K>(keys: set<K>) returns (r: seq<K>)
    ensures multiset(r) == multiset(keys)
  {
    r := [];
    var rest := keys;
    while rest != {}
      invariant rest <= keys
      invariant multiset(r) + multiset(rest) == multiset(keys)
      decreases |rest|
    {
      var k :| k in rest;
      assert multiset(rest) == multiset(rest - {k}) + multiset{k};
      r := r + [k];
      rest := rest - {k};
    }
  }

  /** Exchanges two neighbouring entries; the contents stay the same multiset. */
  method SwapDown<K>(a: array<K>, j: int)
    requires 0 < j < a.Length
    modifies a
    ensures a[..] == old(a[..])[j - 1 := old(a[j])][j := old(a[j - 1])]
    ensures multiset(a[..]) == old(multiset(a[..]))
  {
    a[j - 1], a[j] := a[j], a[j - 1];
  }

  /** `Collections.sort` with a descending-score comparator, done in place. */
  method SortByDescendingScore<K>(a: array<K>, score: map<K, real>)
    requires AllScored(a[..], score)
    modifies a
    ensures NonIncreasing(a[..], score)
    ensures multiset(a[..]) == old(multiset(a[..]))
  {
    var i := 0;
    while i < a.Length
      invariant 0 <= i <= a.Length
      invariant AllScored(a[..], score)
      invariant NonIncreasing(a[..i], score)
      invariant multiset(a[..]) == old(multiset(a[..]))
    {
      var j := i;
      while j > 0 && score[a[j - 1]] < score[a[j]]
        invariant 0 <= j <= i
        invariant AllScored(a[..], score)
        invariant multiset(a[..]) == old(multiset(a[..]))
        invariant forall p, q :: 0 <= p < q <= i && p != j && q != j ==> score[a[p]] >= score[a[q]]
        invariant forall q :: j < q <= i ==> score[a[j]] > score[a[q]]
      {
        SwapDown(a, j);
        j := j - 1;
      }
      i := i + 1;
    }
  }

  /**
   * `new ArrayList<K>(score.keySet())` followed by `Collections.sort` with a
   * descending-score comparator.
   */
  method SortedKeys<K>(score: map<K, real>) returns (a: array<K>)
    ensures fresh(a)
    ensures RankedKeys(a[..], score)
  {
    var listed := ListOfSet(score.Keys);
    a := new K[|listed|](i requires 0 <= i < |listed| => listed[i]);
    assert a[..] == listed;
    forall i | 0 <= i < a.Length ensures a[..][i] in score {
      assert a[i] in multiset(listed);
    }
    SortByDescendingScore(a, score);
  }

  /**
   * The entries an early-exit threshold loop visits and keeps: walk `s`,
   * stop at the first entry scoring below `threshold`.
   */
  function ScoredPrefix<K>(s: seq<K>, score: map<K, real>, threshold: real): (r: seq<K>)
    requires AllScored(s, score)
    ensures |r| <= |s| && r == s[..|r|]
    ensures forall i :: 0 <= i < |r| ==> score[r[i]] >= threshold
    ensures |r| < |s| ==> score[s[|r|]] < threshold
  {
    if s == [] || score[s[0]] < threshold then []
    else [s[0]] + ScoredPrefix(s[1..], score, threshold)
  }

  /**
   * A loop that kept `s[..n]`, all at or above the threshold, and stopped
   * either at the end or at an entry below it, kept exactly the threshold prefix.
   */
  lemma ScoredPrefixUnique<K>(s: seq<K>, score: map<K, real>, threshold: real, n: nat)
    requires AllScored(s, score) && n <= |s|
    requires forall i :: 0 <= i < n ==> score[s[i]] >= threshold
    requires n < |s| ==> score[s[n]] < threshold
    ensures ScoredPrefix(s, score, threshold) == s[..n]
  {
  }

  /**
   * What an early-exit threshold loop over a ranking of all keys has kept
   * when it ends after `n` entries: the threshold prefix, which holds
   * exactly the keys scoring at least the threshold.
   */
  lemma ThresholdLoopExit<K>(s: seq<K>, score: map<K, real>, threshold: real, n: nat)
    requires RankedKeys(s, score) && n <= |s|
    requires forall i :: 0 <= i < n ==> score[s[i]] >= threshold
    requires n < |s| ==> score[s[n]] < threshold
    ensures s[..n] == ScoredPrefix(s, score, threshold)
    ensures forall k :: k in s[..n] <==> k in score && score[k] >= threshold
  {
    ScoredPrefixUnique(s, score, threshold, n);
    RankedPrefixMembers(s, score, threshold);
  }

  /** The entries of `s` scoring at least `threshold`, in order. */
  function FilterAtLeast<K>(s: seq<K>, score: map<K, real>, threshold: real): (r: seq<K>)
    requires AllScored(s, score)
  {
    if s == [] then []
    else if score[s[0]] >= threshold then [s[0]] + FilterAtLeast(s[1..], score, threshold)
    else FilterAtLeast(s[1..], score, threshold)
  }

  lemma {:induction false} FilterAtLeastMembers<K>(s: seq<K>, score: map<K, real>, threshold: real)
    requires AllScored(s, score)
    ensures forall k :: k in FilterAtLeast(s, score, threshold) <==> k in s && score[k] >= threshold
  {
    if s != [] {
      FilterAtLeastMembers(s[1..], score, threshold);
      assert s == [s[0]] + s[1..];
    }
  }

  lemma {:induction false} AllBelowFiltersEmpty<K>(s: seq<K>, score: map<K, real>, threshold: real)
    requires AllScored(s, score)
    requires forall i :: 0 <= i < |s| ==> score[s[i]] < threshold
    ensures FilterAtLeast(s, score, threshold) == []
  {
    if s != [] {
      AllBelowFiltersEmpty(s[1..], score, threshold);
    }
  }

  /**
   * On a list sorted by descending score, stopping at the first entry below
   * the threshold keeps exactly the entries at or above it.
   */
  lemma {:induction false} PrefixIsFilterWhenSorted<K>(s: seq<K>, score: map<K, real>, threshold: real)
    requires NonIncreasing(s, score)
    ensures ScoredPrefix(s, score, threshold) == FilterAtLeast(s, score, threshold)
  {
    if s != [] {
      assert NonIncreasing(s[1..], score);
      if score[s[0]] < threshold {
        AllBelowFiltersEmpty(s[1..], score, threshold);
      } else {
        PrefixIsFilterWhenSorted(s[1..], score, threshold);
      }
    }
  }

  /**
   * For a ranking of all keys, the threshold prefix holds exactly the keys
   * scoring at least the threshold.
   */
  lemma RankedPrefixMembers<K>(s: seq<K>, score: map<K, real>, threshold: real)
    requires RankedKeys(s, score)
    ensures forall k :: k in ScoredPrefix(s, score, threshold) <==> k in score && score[k] >= threshold
  {
    PrefixIsFilterWhenSorted(s, score, threshold);
    FilterAtLeastMembers(s, score, threshold);
    forall k ensures k in s <==> k in score {
      assert k in s <==> k in multiset(s);
    }
  }
}
