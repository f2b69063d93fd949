/**
 * The order of the feedback list (src/components/FeedbackList.tsx, the
 * comparator handed to `sort`): net votes descending, then newest first.
 */
module Ranking {
  import opened Types

  /**
   * The comparator: negative when `a` belongs before `b`, positive when after,
   * zero when both keys tie.
   */
  function Compare(a: FeedbackWithVotes, b: FeedbackWithVotes): (c: int)
    ensures c <= 0 <==> Precedes(a, b)
    ensures c == 0 <==> SameKey(a, b)
  {
    if b.vote_count != a.vote_count then b.vote_count - a.vote_count
    else b.feedback.created_at - a.feedback.created_at
  }

  /** `a` may stand before `b`: more net votes, or as many and created no earlier. */
  predicate Precedes(a: FeedbackWithVotes, b: FeedbackWithVotes)
  {
    a.vote_count > b.vote_count || (a.vote_count == b.vote_count && a.feedback.created_at >= b.feedback.created_at)
  }

  /** The comparator's sign is the order: it never puts `a` after `b` exactly when `a` precedes `b`. */
  lemma CompareSign(a: FeedbackWithVotes, b: FeedbackWithVotes)
    ensures Compare(a, b) <= 0 <==> Precedes(a, b)
    ensures Compare(a, b) == -Compare(b, a)
    ensures Compare(a, b) == 0 <==> SameKey(a, b)
  {
  }

  /** Both sort keys agree. */
  predicate SameKey(a: FeedbackWithVotes, b: FeedbackWithVotes)
  {
    a.vote_count == b.vote_count && a.feedback.created_at == b.feedback.created_at
  }

  /** `Precedes` is a total preorder whose ties are exactly the equal keys. */
  lemma PrecedesIsTotalPreorder(a: FeedbackWithVotes, b: FeedbackWithVotes, c: FeedbackWithVotes)
    ensures Precedes(a, a)
    ensures Precedes(a, b) || Precedes(b, a)
    ensures Precedes(a, b) && Precedes(b, c) ==> Precedes(a, c)
    ensures Precedes(a, b) && Precedes(b, a) <==> SameKey(a, b)
  {
  }

  /** Every entry may stand before every later one. */
  ghost predicate Ranked(s: seq<FeedbackWithVotes>)
  {
    forall i, j :: 0 <= i < j < |s| ==> Precedes(s[i], s[j])
  }

  /**
   * In a ranked list `vote_count` never increases, and among equal counts
   * `created_at` never increases; with all counts distinct it strictly decreases.
   */
  lemma RankedOrder(s: seq<FeedbackWithVotes>, i: int, j: int)
    requires Ranked(s)
    requires 0 <= i < j < |s|
    ensures s[i].vote_count >= s[j].vote_count
    ensures s[i].vote_count == s[j].vote_count ==> s[i].feedback.created_at >= s[j].feedback.created_at
    ensures s[i].vote_count != s[j].vote_count ==> s[i].vote_count > s[j].vote_count
  {
  }

  /** `s` without its entry at `k`. */
  function Without(s: seq<FeedbackWithVotes>, k: int): (r: seq<FeedbackWithVotes>)
    requires 0 <= k < |s|
    ensures |r| == |s| - 1
    ensures forall i :: 0 <= i < k ==> r[i] == s[i]
    ensures forall i :: k <= i < |r| ==> r[i] == s[i + 1]
    ensures multiset(r) == multiset(s) - multiset{s[k]}
  {
    assert s == s[..k] + [s[k]] + s[k + 1..];
    s[..k] + s[k + 1..]
  }

  /** Dropping one entry from a ranked list leaves it ranked. */
  lemma RankedWithout(s: seq<FeedbackWithVotes>, k: int)
    requires Ranked(s) && 0 <= k < |s|
    ensures Ranked(Without(s, k))
  {
    var t := Without(s, k);
    forall i, j | 0 <= i < j < |t| ensures Precedes(t[i], t[j]) {
      var i' := if i < k then i else i + 1;
      var j' := if j < k then j else j + 1;
      assert t[i] == s[i'] && t[j] == s[j'];
    }
  }

  /** Two rankings of the same entries start with the same keys. */
  lemma FirstKeysAgree(s: seq<FeedbackWithVotes>, t: seq<FeedbackWithVotes>)
    requires Ranked(s) && Ranked(t) && multiset(s) == multiset(t) && |s| > 0
    ensures |t| > 0 && SameKey(s[0], t[0])
  {
    assert s[0] in multiset(t);
    assert t[0] in multiset(s);
    var k :| 0 <= k < |t| && t[k] == s[0];
    var m :| 0 <= m < |s| && s[m] == t[0];
    assert m == 0 || Precedes(s[0], s[m]);
    assert k == 0 || Precedes(t[0], t[k]);
  }

  /** In a ranked list, every entry between two with the same key has that key too. */
  lemma TiedBlock(t: seq<FeedbackWithVotes>, k: int, i: int)
    requires Ranked(t) && 0 <= i <= k < |t| && SameKey(t[0], t[k])
    ensures SameKey(t[i], t[k])
  {
    assert i == 0 || Precedes(t[0], t[i]);
    assert i == k || Precedes(t[i], t[k]);
  }

  /**
   * Any two rankings of the same entries agree on the keys, position by
   * position: the two keys alone fix the order, up to entries that tie on both.
   */
  lemma {:induction false} RankingKeysUnique(s: seq<FeedbackWithVotes>, t: seq<FeedbackWithVotes>)
    requires Ranked(s) && Ranked(t)
    requires multiset(s) == multiset(t)
    ensures |s| == |t|
    ensures forall i :: 0 <= i < |s| ==> SameKey(s[i], t[i])
    decreases |s|
  {
    assert |s| == |multiset(s)| == |t|;
    if |s| == 0 {
      return;
    }
    var x := s[0];
    FirstKeysAgree(s, t);
    assert x in multiset(t);
    var k :| 0 <= k < |t| && t[k] == x;
    var s' := Without(s, 0);
    var t' := Without(t, k);
    RankedWithout(s, 0);
    RankedWithout(t, k);
    RankingKeysUnique(s', t');
    forall i | 0 <= i < |s| ensures SameKey(s[i], t[i]) {
      if i == 0 {
      } else if i <= k {
        // t[i - 1] and t[i] both lie in the block of x's key that starts t.
        TiedBlock(t, k, i);
        TiedBlock(t, k, i - 1);
        assert SameKey(s'[i - 1], t'[i - 1]);
      } else {
        assert SameKey(s'[i - 1], t'[i - 1]);
      }
    }
  }

  /** When no two entries tie on both keys, the ranking of a set of entries is unique. */
  lemma RankingUniqueWithoutTies(s: seq<FeedbackWithVotes>, t: seq<FeedbackWithVotes>)
    requires Ranked(s) && Ranked(t)
    requires multiset(s) == multiset(t)
    requires forall i, j :: 0 <= i < j < |s| ==> !SameKey(s[i], s[j])
    ensures s == t
  {
    RankingKeysUnique(s, t);
    forall i | 0 <= i < |s| ensures s[i] == t[i] {
      assert t[i] in multiset(s);
      var m :| 0 <= m < |s| && s[m] == t[i];
      assert SameKey(s[i], s[m]);
    }
  }

  /**
   * Three entries A (3 votes, created at t1), B (3 votes, created at t2 > t1)
   * and C (5 votes): every ranking of them is [C, B, A].
   */
  lemma ThreeItemScenario(a: FeedbackWithVotes, b: FeedbackWithVotes, c: FeedbackWithVotes, s: seq<FeedbackWithVotes>)
    requires a.vote_count == 3 && b.vote_count == 3 && c.vote_count == 5
    requires a.feedback.created_at < b.feedback.created_at
    requires Ranked(s) && multiset(s) == multiset([a, b, c])
    ensures s == [c, b, a]
  {
    var expected := [c, b, a];
    assert multiset(expected) == multiset([a, b, c]);
    RankingUniqueWithoutTies(expected, s);
  }

  /**
   * `feedbackWithUserVotes.sort(comparator)`, in place. The source leaves the
   * algorithm to the engine; this is a stable insertion sort by adjacent swaps.
   */
  method SortInPlace(a: array<FeedbackWithVotes>)
    modifies a
    ensures Ranked(a[..])
    ensures multiset(a[..]) == multiset(old(a[..]))
  {
    var i := 0;
    while i < a.Length
      invariant 0 <= i <= a.Length
      invariant forall p, q :: 0 <= p < q < i ==> Precedes(a[p], a[q])
      invariant multiset(a[..]) == multiset(old(a[..]))
    {
      InsertInto(a, i);
      i := i + 1;
    }
  }

  /** `s` with the entries at `k - 1` and `k` exchanged. */
  function Swapped(s: seq<FeedbackWithVotes>, k: int): (r: seq<FeedbackWithVotes>)
    requires 0 < k < |s|
    ensures |r| == |s| && r[k - 1] == s[k] && r[k] == s[k - 1]
    ensures forall p :: 0 <= p < |s| && p != k - 1 && p != k ==> r[p] == s[p]
    ensures multiset(r) == multiset(s)
  {
    assert s == s[..k - 1] + [s[k - 1], s[k]] + s[k + 1..];
    assert s[k - 1 := s[k]][k := s[k - 1]] == s[..k - 1] + [s[k], s[k - 1]] + s[k + 1..];
    s[k - 1 := s[k]][k := s[k - 1]]
  }

  /**
   * Midway through one insertion pass over `s[..i + 1]`: the entry being moved
   * sits at `j`, every other pair of the prefix is in order, and the moved entry
   * may stand before everything after it.
   */
  ghost predicate Inserting(s: seq<FeedbackWithVotes>, j: int, i: int)
  {
    && 0 <= j <= i < |s|
    && (forall p, q :: 0 <= p < q <= i && p != j && q != j ==> Precedes(s[p], s[q]))
    && (forall q :: j < q <= i ==> Precedes(s[j], s[q]))
  }

  /** When the comparator puts the moved entry before its left neighbour, swapping them moves the pass one step left. */
  lemma InsertingStep(s: seq<FeedbackWithVotes>, j: int, i: int)
    requires Inserting(s, j, i) && j > 0 && Compare(s[j - 1], s[j]) > 0
    ensures Inserting(Swapped(s, j), j - 1, i)
  {
    CompareSign(s[j - 1], s[j]);
    var r := Swapped(s, j);
    forall q | j - 1 < q <= i ensures Precedes(r[j - 1], r[q]) {
      if q > j {
        PrecedesIsTotalPreorder(s[j], s[j - 1], s[q]);
      }
    }
  }

  /** When the moved entry may stand after its left neighbour, or has reached the front, the prefix is ranked. */
  lemma InsertingDone(s: seq<FeedbackWithVotes>, j: int, i: int)
    requires Inserting(s, j, i) && (j == 0 || Compare(s[j - 1], s[j]) <= 0)
    ensures forall p, q :: 0 <= p < q <= i ==> Precedes(s[p], s[q])
  {
    if j > 0 {
      CompareSign(s[j - 1], s[j]);
      forall p | 0 <= p < j ensures Precedes(s[p], s[j]) {
        if p < j - 1 {
          PrecedesIsTotalPreorder(s[p], s[j - 1], s[j]);
        }
      }
    }
  }

  /**
   * One pass of the insertion sort: `a[i]` moves left, one swap at a time,
   * while the comparator puts it before its neighbour, so that the ranked
   * prefix `a[..i]` grows to the ranked prefix `a[..i + 1]`.
   */
  method InsertInto(a: array<FeedbackWithVotes>, i: int)
    requires 0 <= i < a.Length
    requires forall p, q :: 0 <= p < q < i ==> Precedes(a[p], a[q])
    modifies a
    ensures forall p, q :: 0 <= p < q <= i ==> Precedes(a[p], a[q])
    ensures multiset(a[..]) == multiset(old(a[..]))
    ensures a[i + 1..] == old(a[i + 1..])
  {
    var j := i;
    while j > 0 && Compare(a[j - 1], a[j]) > 0
      invariant Inserting(a[..], j, i)
      invariant multiset(a[..]) == multiset(old(a[..]))
      invariant a[i + 1..] == old(a[i + 1..])
    {
      ghost var before := a[..];
      InsertingStep(before, j, i);
      a[j - 1], a[j] := a[j], a[j - 1];
      assert a[..] == Swapped(before, j);
      j := j - 1;
    }
    InsertingDone(a[..], j, i);
  }
}
