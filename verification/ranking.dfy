/**
 * Ranking of the testing methods: each method is scored in list order, then
 * the list is sorted by score, highest first. The sort is stable, so methods
 * with equal scores keep their list order. The model sorts by insertion;
 * StableSortUnique shows that every stable descending sort gives the same
 * list, whatever algorithm produced it.
 */
module Ranking {
  import opened Grid
  import opened Scoring

  /** The methods under evaluation, in the order they are scored. */
  const TestMethods: seq<string> := ["Метод A", "Метод B", "Метод C"]

  datatype MethodScore = MethodScore(name: string, score: real)

  predicate SortedDesc(s: seq<MethodScore>) {
    forall i, j :: 0 <= i < j < |s| ==> s[i].score >= s[j].score
  }

  /** The elements of s whose score is v, in the order s holds them. */
  function WithScore(s: seq<MethodScore>, v: real): seq<MethodScore> {
    if s == [] then []
    else WithScore(s[..|s| - 1], v) + (if s[|s| - 1].score == v then [s[|s| - 1]] else [])
  }

  /** A stable descending sort of s: sorted, and equal scores in their original order. */
  ghost predicate IsStableSortOf(r: seq<MethodScore>, s: seq<MethodScore>) {
    SortedDesc(r) && forall v :: WithScore(r, v) == WithScore(s, v)
  }

  /**
   * Where x lands when it is inserted into t searching leftwards from
   * position j: it passes every element with a strictly lower score and stops
   * behind the first one whose score is at least its own.
   */
  function InsertPos(t: seq<MethodScore>, x: MethodScore, j: nat): (p: nat)
    requires j <= |t|
    ensures p <= j
    ensures forall k :: p <= k < j ==> t[k].score < x.score
    ensures p > 0 ==> t[p - 1].score >= x.score
  {
    if j == 0 || t[j - 1].score >= x.score then j else InsertPos(t, x, j - 1)
  }

  /**
   * Places x, which comes after every element of t in the input, behind every
   * element whose score is at least x's.
   */
  function Insert(t: seq<MethodScore>, x: MethodScore): seq<MethodScore> {
    var p := InsertPos(t, x, |t|);
    t[..p] + [x] + t[p..]
  }

  /** Stable descending sort by score, inserting the elements one by one from the left. */
  function SortDesc(s: seq<MethodScore>): seq<MethodScore> {
    if s == [] then [] else Insert(SortDesc(s[..|s| - 1]), s[|s| - 1])
  }

  /** Insertion adds exactly x. */
  lemma InsertPermutes(t: seq<MethodScore>, x: MethodScore)
    ensures multiset(Insert(t, x)) == multiset(t) + multiset{x}
  {
    var p := InsertPos(t, x, |t|);
    assert t == t[..p] + t[p..];
  }

  /** Inserting into a descending list keeps it descending. */
  lemma InsertSorted(t: seq<MethodScore>, x: MethodScore)
    requires SortedDesc(t)
    ensures SortedDesc(Insert(t, x))
  {
  }

  lemma {:induction false} WithScoreAppend(a: seq<MethodScore>, b: seq<MethodScore>, v: real)
    ensures WithScore(a + b, v) == WithScore(a, v) + WithScore(b, v)
  {
    if b == [] {
      assert a + b == a;
    } else {
      var n := |b| - 1;
      assert (a + b)[..|a + b| - 1] == a + b[..n];
      WithScoreAppend(a, b[..n], v);
    }
  }

  lemma {:induction false} WithScoreMembers(s: seq<MethodScore>, v: real, y: MethodScore)
    ensures y in WithScore(s, v) <==> y in s && y.score == v
  {
    if s != [] {
      var n := |s| - 1;
      WithScoreMembers(s[..n], v, y);
      assert s == s[..n] + [s[n]];
    }
  }

  /** A list in which no element has score v has nothing to keep for v. */
  lemma NoneWithScore(s: seq<MethodScore>, v: real)
    requires forall k :: 0 <= k < |s| ==> s[k].score != v
    ensures WithScore(s, v) == []
  {
    var w := WithScore(s, v);
    if w != [] {
      WithScoreMembers(s, v, w[0]);
      assert false;
    }
  }

  /** A one-element list whose score is not v has no element of score v. */
  lemma OtherScoreDropped(x: MethodScore, v: real)
    requires x.score != v
    ensures WithScore([x], v) == []
  {
    assert [x][..0] == [];
  }

  lemma SwapEmpty<T>(a: seq<T>, b: seq<T>, c: seq<T>)
    requires b == [] || c == []
    ensures a + b + c == a + c + b
  {
  }

  /**
   * x placed between front and back joins the elements of its score after those
   * of front, provided back holds none of them.
   */
  lemma TiesOfSplit(front: seq<MethodScore>, x: MethodScore, back: seq<MethodScore>, v: real)
    requires x.score == v ==> forall k :: 0 <= k < |back| ==> back[k].score != v
    ensures WithScore(front + [x] + back, v) == WithScore(front + back, v) + WithScore([x], v)
  {
    var wf, wx, wb := WithScore(front, v), WithScore([x], v), WithScore(back, v);
    assert WithScore(front + [x] + back, v) == wf + wx + wb by {
      WithScoreAppend(front + [x], back, v);
      WithScoreAppend(front, [x], v);
    }
    assert WithScore(front + back, v) == wf + wb by {
      WithScoreAppend(front, back, v);
    }
    if x.score == v {
      NoneWithScore(back, v);
    } else {
      OtherScoreDropped(x, v);
    }
    SwapEmpty(wf, wx, wb);
  }

  /** Insertion puts x behind the elements of t that share its score. */
  lemma InsertKeepsTies(t: seq<MethodScore>, x: MethodScore, v: real)
    ensures WithScore(Insert(t, x), v) == WithScore(t, v) + WithScore([x], v)
  {
    var p := InsertPos(t, x, |t|);
    assert t == t[..p] + t[p..];
    TiesOfSplit(t[..p], x, t[p..], v);
  }

  /** The sort is a permutation of its input. */
  lemma {:induction false} SortPermutes(s: seq<MethodScore>)
    ensures multiset(SortDesc(s)) == multiset(s)
  {
    if s != [] {
      var n := |s| - 1;
      SortPermutes(s[..n]);
      InsertPermutes(SortDesc(s[..n]), s[n]);
      assert s == s[..n] + [s[n]];
    }
  }

  /** The sort is a stable descending sort. */
  lemma {:induction false} SortIsStableSort(s: seq<MethodScore>)
    ensures IsStableSortOf(SortDesc(s), s)
  {
    if s != [] {
      var n := |s| - 1;
      SortIsStableSort(s[..n]);
      InsertSorted(SortDesc(s[..n]), s[n]);
      forall v
        ensures WithScore(SortDesc(s), v) == WithScore(s, v)
      {
        InsertKeepsTies(SortDesc(s[..n]), s[n], v);
        assert [s[n]][..0] == [];
      }
    }
  }

  /**
   * Two descending-sorted lists that hold the same elements of each score in the
   * same order are the same list.
   */
  lemma {:induction false} SortedTiesDetermine(a: seq<MethodScore>, b: seq<MethodScore>)
    requires SortedDesc(a) && SortedDesc(b)
    requires forall v :: WithScore(a, v) == WithScore(b, v)
    ensures a == b
    decreases |a| + |b|
  {
    if a == [] && b == [] {
    } else if a == [] {
      var y := b[|b| - 1];
      WithScoreMembers(b, y.score, y);
      assert false;
    } else if b == [] {
      var y := a[|a| - 1];
      WithScoreMembers(a, y.score, y);
      assert false;
    } else {
      var la, lb := a[|a| - 1], b[|b| - 1];
      WithScoreMembers(a, la.score, la);
      WithScoreMembers(b, la.score, la);
      WithScoreMembers(b, lb.score, lb);
      WithScoreMembers(a, lb.score, lb);
      assert la.score == lb.score by {
        var i :| 0 <= i < |b| && b[i] == la;
        var j :| 0 <= j < |a| && a[j] == lb;
        assert la.score >= lb.score;
        assert lb.score >= la.score;
      }
      assert la == lb by {
        assert WithScore(a, la.score)[|WithScore(a, la.score)| - 1] == la;
        assert WithScore(b, la.score)[|WithScore(b, la.score)| - 1] == lb;
      }
      var a', b' := a[..|a| - 1], b[..|b| - 1];
      forall v
        ensures WithScore(a', v) == WithScore(b', v)
      {
        var wa, wb := WithScore(a, v), WithScore(b, v);
        assert wa == wb;
        if la.score == v {
          assert wa == WithScore(a', v) + [la];
          assert wb == WithScore(b', v) + [lb];
          assert WithScore(a', v) == wa[..|wa| - 1];
          assert WithScore(b', v) == wb[..|wb| - 1];
        } else {
          assert WithScore(a', v) + [] == WithScore(a', v);
          assert WithScore(b', v) + [] == WithScore(b', v);
          assert wa == WithScore(a', v);
          assert wb == WithScore(b', v);
        }
      }
      SortedTiesDetermine(a', b');
      assert a == a' + [la] && b == b' + [lb];
    }
  }

  /**
   * Every stable descending sort of s is SortDesc(s): the ranking does not
   * depend on which stable sorting algorithm computes it.
   */
  lemma StableSortUnique(s: seq<MethodScore>, r: seq<MethodScore>)
    requires IsStableSortOf(r, s)
    ensures r == SortDesc(s)
  {
    SortIsStableSort(s);
    SortedTiesDetermine(r, SortDesc(s));
  }

  /** Insert puts x exactly at the position InsertPos finds. */
  lemma InsertLandsAt(t: seq<MethodScore>, x: MethodScore, j: nat)
    requires j <= |t| && InsertPos(t, x, |t|) == InsertPos(t, x, j)
    requires j == 0 || t[j - 1].score >= x.score
    ensures Insert(t, x) == t[..j] + [x] + t[j..]
  {
  }

  /** Swapping x with the element before it moves x one place to the left. */
  lemma SwapLeft(u: seq<MethodScore>, t: seq<MethodScore>, x: MethodScore, rest: seq<MethodScore>, j: nat)
    requires 0 < j <= |t|
    requires u == t[..j] + [x] + t[j..] + rest
    ensures u[j - 1] == t[j - 1]
    ensures u[j - 1 := x][j := t[j - 1]] == t[..j - 1] + [x] + t[j - 1..] + rest
  {
  }

  /**
   * One step of the sort: a[..i] is already sorted, and a[i] is moved left
   * past the strictly lower scores before it.
   */
  method InsertAt(a: array<MethodScore>, i: nat)
    requires i < a.Length
    modifies a
    ensures a[..] == Insert(old(a[..i]), old(a[i])) + old(a[i + 1..])
  {
    ghost var t, rest := a[..i], a[i + 1..];
    var x := a[i];
    var j := i;
    assert a[..] == t[..j] + [x] + t[j..] + rest;
    while j > 0 && a[j - 1].score < x.score
      invariant 0 <= j <= i
      invariant a[..] == t[..j] + [x] + t[j..] + rest
      invariant InsertPos(t, x, j) == InsertPos(t, x, i)
    {
      SwapLeft(a[..], t, x, rest, j);
      a[j - 1], a[j] := a[j], a[j - 1];
      j := j - 1;
    }
    InsertLandsAt(t, x, j);
  }

  /**
   * Sorts the array in place by descending score, keeping equal scores in
   * their order (insertion sort).
   */
  method SortByScoreDesc(a: array<MethodScore>)
    modifies a
    ensures a[..] == SortDesc(old(a[..]))
  {
    ghost var s := a[..];
    var i := 0;
    while i < a.Length
      invariant 0 <= i <= a.Length
      invariant a[..i] == SortDesc(s[..i])
      invariant a[i..] == s[i..]
    {
      InsertAt(a, i);
      assert s[..i + 1][..i] == s[..i];
      assert a[..i + 1] == SortDesc(s[..i + 1]);
      i := i + 1;
    }
    assert s[..a.Length] == s;
  }

  /** The unsorted results: one (method, score) pair per method, in TestMethods order. */
  function Unranked(g: Grid): seq<MethodScore>
    requires WellShaped(g)
  {
    seq(|TestMethods|, k requires 0 <= k < |TestMethods| => MethodScore(TestMethods[k], Total(k, g)))
  }

  /** The results as the endpoint reports and records them. */
  function Ranked(g: Grid): seq<MethodScore>
    requires WellShaped(g)
  {
    SortDesc(Unranked(g))
  }

  /** Scores each method in list order, then sorts the list in place. */
  method RankMethods(g: Grid) returns (results: seq<MethodScore>)
    requires WellShaped(g)
    ensures results == Ranked(g)
  {
    var list: seq<MethodScore> := [];
    var k := 0;
    while k < |TestMethods|
      invariant 0 <= k <= |TestMethods|
      invariant list == Unranked(g)[..k]
    {
      var score := EvaluateMethod(k, g);
      list := list + [MethodScore(TestMethods[k], score)];
      k := k + 1;
    }
    assert list == Unranked(g);
    var a := new MethodScore[|list|](i requires 0 <= i < |list| => list[i]);
    assert a[..] == list;
    SortByScoreDesc(a);
    results := a[..];
  }

  /**
   * The ranked results are the three method scores, each once, highest
   * first, with tied methods in TestMethods order.
   */
  lemma RankedIsStableSort(g: Grid)
    requires WellShaped(g)
    ensures |Ranked(g)| == |TestMethods|
    ensures multiset(Ranked(g)) == multiset(Unranked(g))
    ensures IsStableSortOf(Ranked(g), Unranked(g))
  {
    SortPermutes(Unranked(g));
    SortIsStableSort(Unranked(g));
    assert |Ranked(g)| == |multiset(Ranked(g))|;
  }

  /** A list that is already in descending order is left as it is. */
  lemma SortedIsFixed(s: seq<MethodScore>)
    requires SortedDesc(s)
    ensures SortDesc(s) == s
  {
    StableSortUnique(s, s);
  }

  /**
   * When every method scores the same (the empty form, for one), the ranking
   * is the list order A, B, C.
   */
  lemma {:induction false} TiedScoresKeepListOrder(g: Grid)
    requires WellShaped(g)
    requires Total(0, g) == Total(1, g) == Total(2, g)
    ensures Ranked(g) == Unranked(g)
    ensures [Ranked(g)[0].name, Ranked(g)[1].name, Ranked(g)[2].name] == TestMethods
  {
    SortedIsFixed(Unranked(g));
  }
}
