/** Top-k selection by a numeric score with ties kept in first-occurrence order,
    the selection behind `nlargest`/`nsmallest` with the default `keep='first'`.
    Results are positions into the score sequence. */
module Ranking {

  function Min(a: int, b: int): int {
    if a <= b then a else b
  }

  /** Position `a` is selected before position `b`: a strictly larger score,
      or an equal score at an earlier position. */
  predicate Outranks(scores: seq<real>, a: int, b: int) {
    && 0 <= a < |scores|
    && 0 <= b < |scores|
    && (scores[a] > scores[b] || (scores[a] == scores[b] && a < b))
  }

  /** `r` lists valid positions, each one outranking every later one. */
  predicate Ranked(scores: seq<real>, r: seq<nat>) {
    && (forall j :: 0 <= j < |r| ==> r[j] < |scores|)
    && (forall p, q :: 0 <= p < q < |r| ==> Outranks(scores, r[p], r[q]))
  }

  /** `r` is the top `k` of `scores`: `min(k, |scores|)` positions in ranking order,
      and every position left out is outranked by every position taken. */
  predicate IsTop(scores: seq<real>, k: nat, r: seq<nat>) {
    && |r| == Min(k, |scores|)
    && Ranked(scores, r)
    && (forall x, j :: 0 <= x < |scores| && x !in r && 0 <= j < |r| ==> Outranks(scores, r[j], x))
  }

  /** Insert position `i` into a ranked list, keeping it ranked. */
  function Insert(scores: seq<real>, r: seq<nat>, i: nat): (t: seq<nat>)
    requires i < |scores| && i !in r && Ranked(scores, r)
    ensures |t| == |r| + 1
    ensures forall x: nat :: x in t <==> x in r || x == i
    ensures Ranked(scores, t)
  {
    if r == [] || Outranks(scores, i, r[0]) then
      [i] + r
    else
      var rest := Insert(scores, r[1..], i);
      assert forall q :: 0 <= q < |rest| ==> Outranks(scores, r[0], rest[q]) by {
        forall q | 0 <= q < |rest|
          ensures Outranks(scores, r[0], rest[q])
        {
          if rest[q] != i {
            assert rest[q] in r[1..];
            var p :| 0 <= p < |r[1..]| && r[1..][p] == rest[q];
            assert r[p + 1] == rest[q];
          }
        }
      }
      [r[0]] + rest
  }

  /** Positions `0 .. n-1` in ranking order. */
  function SortedPositions(scores: seq<real>, n: nat): (t: seq<nat>)
    requires n <= |scores|
    ensures |t| == n
    ensures forall x: nat :: x in t <==> x < n
    ensures Ranked(scores, t)
  {
    if n == 0 then [] else Insert(scores, SortedPositions(scores, n - 1), n - 1)
  }

  /** The positions of the `k` best scores, best first. */
  function TopK(scores: seq<real>, k: nat): (r: seq<nat>)
    ensures IsTop(scores, k, r)
  {
    var all := SortedPositions(scores, |scores|);
    var m := Min(k, |scores|);
    var r := all[..m];
    assert forall x, j :: 0 <= x < |scores| && x !in r && 0 <= j < |r| ==> Outranks(scores, r[j], x) by {
      forall x, j | 0 <= x < |scores| && x !in r && 0 <= j < |r|
        ensures Outranks(scores, r[j], x)
      {
        assert x in all;
        var p :| 0 <= p < |all| && all[p] == x;
        forall q | 0 <= q < m
          ensures all[q] != x
        {
          assert r[q] == all[q];
        }
        assert all[j] == r[j];
      }
    }
    r
  }

  /** Two top-k lists agree on every prefix. */
  lemma {:induction false} TopPrefixesAgree(scores: seq<real>, k: nat, a: seq<nat>, b: seq<nat>, n: nat)
    requires IsTop(scores, k, a) && IsTop(scores, k, b)
    requires n <= |a|
    ensures a[..n] == b[..n]
  {
    if n > 0 {
      var j := n - 1;
      TopPrefixesAgree(scores, k, a, b, j);
      NextAgrees(scores, k, a, b, j);
      NextAgrees(scores, k, b, a, j);
      assert a[..n] == a[..j] + [a[j]];
      assert b[..n] == b[..j] + [b[j]];
    }
  }

  /** When two top-k lists agree before position `j`, the entry of `a` at `j`
      is either the entry of `b` there or outranked by it. */
  lemma NextAgrees(scores: seq<real>, k: nat, a: seq<nat>, b: seq<nat>, j: nat)
    requires IsTop(scores, k, a) && IsTop(scores, k, b)
    requires j < |a| && a[..j] == b[..j]
    ensures a[j] == b[j] || Outranks(scores, b[j], a[j])
  {
    var x := a[j];
    if x in b {
      var p :| 0 <= p < |b| && b[p] == x;
      forall q | 0 <= q < j
        ensures b[q] != x
      {
        assert b[q] == b[..j][q] == a[..j][q] == a[q];
        assert Outranks(scores, a[q], a[j]);
      }
      if p > j {
        assert Outranks(scores, b[j], b[p]);
      }
    }
  }

  /** The top-k property determines the list: `TopK` is the only list satisfying it. */
  lemma TopIsUnique(scores: seq<real>, k: nat, r: seq<nat>)
    requires IsTop(scores, k, r)
    ensures r == TopK(scores, k)
  {
    var t := TopK(scores, k);
    TopPrefixesAgree(scores, k, r, t, |r|);
    assert r == r[..|r|] && t == t[..|t|];
  }

  /** The single-pass extremum scan: keep the first position holding the largest
      score. It picks exactly the one position that `TopK(scores, 1)` selects. */
  method FirstBest(scores: seq<real>) returns (b: nat)
    requires |scores| > 0
    ensures b < |scores|
    ensures forall x :: 0 <= x < |scores| && x != b ==> Outranks(scores, b, x)
    ensures TopK(scores, 1) == [b]
  {
    b := 0;
    var i := 1;
    while i < |scores|
      invariant 1 <= i <= |scores|
      invariant b < i
      invariant forall x :: 0 <= x < i && x != b ==> Outranks(scores, b, x)
    {
      if scores[i] > scores[b] {
        forall x | 0 <= x <= i && x != i
          ensures Outranks(scores, i, x)
        {
          if x != b {
            assert Outranks(scores, b, x);
          }
        }
        b := i;
      }
      i := i + 1;
    }
    assert IsTop(scores, 1, [b]);
    TopIsUnique(scores, 1, [b]);
  }
}
