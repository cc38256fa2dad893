/** Ranking of scored candidates (meeting_agent.py, the sort and the top-two
    cut): a stable sort by score, highest first, as Python's `list.sort` with
    `reverse=True` performs it, followed by taking a prefix. */
module Ranking {
  import opened Slots

  /** A candidate with its score; the reasons are not kept. */
  datatype Ranked = Ranked(score: int, slot: Slot)

  function Min(a: int, b: int): int {
    if a <= b then a else b
  }

  /** Highest score first. */
  predicate Descending(s: seq<Ranked>) {
    forall i, j :: 0 <= i < j < |s| ==> s[i].score >= s[j].score
  }

  /** The entries of `s` whose score is `k`, in their order in `s`. A sort keeps
      equal scores in discovery order exactly when it leaves every such list unchanged. */
  function WithScore(s: seq<Ranked>, k: int): seq<Ranked> {
    if |s| == 0 then []
    else (if s[0].score == k then [s[0]] else []) + WithScore(s[1..], k)
  }

  /** Places `x` after every entry scoring at least as much, so a later entry
      never overtakes an earlier one with an equal score. */
  function Insert(x: Ranked, s: seq<Ranked>): (r: seq<Ranked>)
    ensures |r| == |s| + 1
    ensures multiset(r) == multiset(s) + multiset{x}
  {
    if |s| == 0 then [x]
    else if s[0].score >= x.score then
      assert s == [s[0]] + s[1..];
      [s[0]] + Insert(x, s[1..])
    else
      [x] + s
  }

  /** Inserting into a sorted list keeps it sorted. */
  lemma {:induction false} InsertSorted(x: Ranked, s: seq<Ranked>)
    requires Descending(s)
    ensures Descending(Insert(x, s))
  {
    if |s| > 0 {
      if s[0].score >= x.score {
        var rest := Insert(x, s[1..]);
        InsertSorted(x, s[1..]);
        forall y | y in rest
          ensures y.score <= s[0].score
        {
          assert y in multiset(rest);
          if y != x {
            assert y in multiset(s[1..]);
            var j :| 0 <= j < |s[1..]| && s[1..][j] == y;
            assert s[j + 1] == y;
          }
        }
        DescendingCons(s[0], rest);
      } else {
        forall y | y in s
          ensures y.score <= x.score
        {
          var j :| 0 <= j < |s| && s[j] == y;
        }
        DescendingCons(x, s);
      }
    }
  }

  /** Prepending an entry that outscores a sorted list keeps it sorted. */
  lemma DescendingCons(h: Ranked, t: seq<Ranked>)
    requires Descending(t)
    requires forall y :: y in t ==> y.score <= h.score
    ensures Descending([h] + t)
  {
    var r := [h] + t;
    forall i, j | 0 <= i < j < |r|
      ensures r[i].score >= r[j].score
    {
      assert r[j] == t[j - 1];
      if i > 0 {
        assert r[i] == t[i - 1];
      } else {
        assert t[j - 1] in t;
      }
    }
  }

  /** Insertion sort by score, highest first, taking the entries in discovery order. */
  function SortByScore(s: seq<Ranked>): (r: seq<Ranked>)
    ensures |r| == |s|
    ensures multiset(r) == multiset(s)
    ensures Descending(r)
  {
    if |s| == 0 then []
    else
      assert s == s[..|s| - 1] + [s[|s| - 1]];
      var sortedInit := SortByScore(s[..|s| - 1]);
      InsertSorted(s[|s| - 1], sortedInit);
      Insert(s[|s| - 1], sortedInit)
  }

  lemma {:induction false} WithScoreAppend(a: seq<Ranked>, b: seq<Ranked>, k: int)
    ensures WithScore(a + b, k) == WithScore(a, k) + WithScore(b, k)
  {
    if |a| == 0 {
      assert a + b == b;
    } else {
      var head := if a[0].score == k then [a[0]] else [];
      assert (a + b)[0] == a[0];
      assert (a + b)[1..] == a[1..] + b;
      WithScoreAppend(a[1..], b, k);
      assert WithScore(a + b, k) == head + (WithScore(a[1..], k) + WithScore(b, k));
    }
  }

  lemma {:induction false} WithScoreNone(s: seq<Ranked>, k: int)
    requires forall i :: 0 <= i < |s| ==> s[i].score != k
    ensures WithScore(s, k) == []
  {
    if |s| > 0 {
      WithScoreNone(s[1..], k);
    }
  }

  /** Inserting `x` into a sorted list puts it after every equal-scoring entry. */
  lemma {:induction false} InsertStable(x: Ranked, s: seq<Ranked>, k: int)
    requires Descending(s)
    ensures WithScore(Insert(x, s), k) == WithScore(s, k) + (if x.score == k then [x] else [])
  {
    if |s| == 0 {
      assert WithScore([x], k) == (if x.score == k then [x] else []) + WithScore([], k);
    } else if s[0].score >= x.score {
      InsertStable(x, s[1..], k);
      InsertBehind(x, s, k);
    } else {
      InsertInFront(x, s, k);
    }
  }

  /** Inserting behind the head: the head's entry stays first. */
  lemma InsertBehind(x: Ranked, s: seq<Ranked>, k: int)
    requires |s| > 0 && s[0].score >= x.score
    requires WithScore(Insert(x, s[1..]), k) == WithScore(s[1..], k) + (if x.score == k then [x] else [])
    ensures WithScore(Insert(x, s), k) == WithScore(s, k) + (if x.score == k then [x] else [])
  {
    var rest := Insert(x, s[1..]);
    var head := if s[0].score == k then [s[0]] else [];
    var own := if x.score == k then [x] else [];
    assert Insert(x, s) == [s[0]] + rest;
    assert WithScore(s, k) == head + WithScore(s[1..], k);
    WithScoreCons(s[0], rest, k);
    AppendAssoc(head, WithScore(s[1..], k), own);
  }

  lemma AppendAssoc(a: seq<Ranked>, b: seq<Ranked>, c: seq<Ranked>)
    ensures a + (b + c) == (a + b) + c
  {
  }

  lemma WithScoreCons(h: Ranked, t: seq<Ranked>, k: int)
    ensures WithScore([h] + t, k) == (if h.score == k then [h] else []) + WithScore(t, k)
  {
    assert ([h] + t)[1..] == t;
  }

  /** Inserting in front of a sorted list whose entries all score less. */
  lemma InsertInFront(x: Ranked, s: seq<Ranked>, k: int)
    requires Descending(s) && |s| > 0 && s[0].score < x.score
    ensures WithScore(Insert(x, s), k) == WithScore(s, k) + (if x.score == k then [x] else [])
  {
    var own := if x.score == k then [x] else [];
    assert Insert(x, s) == [x] + s;
    WithScoreAppend([x], s, k);
    assert WithScore([x], k) == own + WithScore([], k);
    if x.score == k {
      WithScoreNone(s, k);
    }
  }

  /** The sort is stable: for every score, the entries with that score come out
      in the order they went in. */
  lemma {:induction false} SortStable(s: seq<Ranked>, k: int)
    ensures WithScore(SortByScore(s), k) == WithScore(s, k)
  {
    if |s| > 0 {
      var init := s[..|s| - 1];
      var last := s[|s| - 1];
      var tail := if last.score == k then [last] else [];
      assert WithScore(SortByScore(s), k) == WithScore(init, k) + tail by {
        assert SortByScore(s) == Insert(last, SortByScore(init));
        SortStable(init, k);
        InsertStable(last, SortByScore(init), k);
      }
      assert WithScore(s, k) == WithScore(init, k) + tail by {
        assert WithScore([last], k) == tail + WithScore([], k);
        WithScoreAppend(init, [last], k);
        assert s == init + [last];
      }
    }
  }

  /** The entries picked and the entries passed over. */
  datatype Cut = Cut(top: seq<Ranked>, rest: seq<Ranked>)

  /** The `n` best entries: the first `n` of the stable descending order, and
      the remaining entries. */
  function Best(s: seq<Ranked>, n: nat): (c: Cut)
    ensures |c.top| == Min(n, |s|)
    ensures Descending(c.top)
    ensures multiset(c.top) + multiset(c.rest) == multiset(s)
    ensures forall i, j :: 0 <= i < |c.top| && 0 <= j < |c.rest| ==> c.top[i].score >= c.rest[j].score
  {
    var sorted := SortByScore(s);
    var m := Min(n, |s|);
    CutSorted(sorted, m);
    Cut(sorted[..m], sorted[m..])
  }

  /** Cutting a sorted list in two: both halves stay sorted, nothing is lost,
      and every entry of the first half outscores every entry of the second. */
  lemma CutSorted(sorted: seq<Ranked>, m: nat)
    requires Descending(sorted) && m <= |sorted|
    ensures Descending(sorted[..m])
    ensures multiset(sorted[..m]) + multiset(sorted[m..]) == multiset(sorted)
    ensures forall i, j :: 0 <= i < m && 0 <= j < |sorted| - m ==> sorted[..m][i].score >= sorted[m..][j].score
  {
    var top, rest := sorted[..m], sorted[m..];
    assert sorted == top + rest;
    forall i, j | 0 <= i < j < |top|
      ensures top[i].score >= top[j].score
    {
      assert top[i] == sorted[i] && top[j] == sorted[j];
    }
    forall i, j | 0 <= i < |top| && 0 <= j < |rest|
      ensures top[i].score >= rest[j].score
    {
      assert top[i] == sorted[i] && rest[j] == sorted[m + j];
    }
  }

  /** Every entry is either picked or scores no more than each picked entry. */
  lemma BestCovers(s: seq<Ranked>, n: nat, j: int)
    requires 0 <= j < |s|
    ensures s[j] in Best(s, n).top || forall i :: 0 <= i < |Best(s, n).top| ==> Best(s, n).top[i].score >= s[j].score
  {
    var c := Best(s, n);
    assert s[j] in multiset(s);
    if s[j] !in c.top {
      assert s[j] !in multiset(c.top);
      assert s[j] in multiset(c.rest);
      var q :| 0 <= q < |c.rest| && c.rest[q] == s[j];
    }
  }

  /** Among equal scores the earliest discovered entries are the ones picked:
      for every score, the picked entries with that score are a prefix of all
      the entries with that score, in discovery order. */
  lemma BestPrefersEarliest(s: seq<Ranked>, n: nat, k: int)
    ensures WithScore(Best(s, n).top, k) <= WithScore(s, k)
  {
    var sorted := SortByScore(s);
    var m := Min(n, |s|);
    assert sorted == sorted[..m] + sorted[m..];
    WithScoreAppend(sorted[..m], sorted[m..], k);
    SortStable(s, k);
  }
}
