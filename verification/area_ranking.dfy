/**
 * The ranking step of `identifyContours`: the good contours sorted by area,
 * largest first.
 *
 * The source sorts with the comparator `(int)(o2.getArea() - o1.getArea())`,
 * which truncates the difference and so treats areas less than one unit apart
 * as equal (and is not transitive). This model idealises it to an exact
 * comparison: a stable sort into non-increasing area.
 */
module AreaRanking {
  import opened Geometry

  /** Areas never increase along the sequence. */
  predicate RankedByArea(s: seq<Candidate>) {
    forall i, j :: 0 <= i < j < |s| ==> s[i].targetArea >= s[j].targetArea
  }

  /** Inserts `x` in front of the first element whose area it is not below. */
  function InsertByArea(x: Candidate, s: seq<Candidate>): (r: seq<Candidate>)
    requires RankedByArea(s)
    ensures |r| == |s| + 1
    ensures RankedByArea(r)
    ensures multiset(r) == multiset(s) + multiset{x}
    ensures r[0] == x || (|s| > 0 && r[0] == s[0])
  {
    if s == [] || x.targetArea >= s[0].targetArea then
      [x] + s
    else
      var t := InsertByArea(x, s[1..]);
      assert s == [s[0]] + s[1..];
      ConsRanked(s[0], t);
      [s[0]] + t
  }

  /** Putting an element no smaller than the head in front keeps a sequence ranked. */
  lemma ConsRanked(h: Candidate, t: seq<Candidate>)
    requires RankedByArea(t)
    requires t == [] || h.targetArea >= t[0].targetArea
    ensures RankedByArea([h] + t)
  {
    var r := [h] + t;
    forall i, j | 0 <= i < j < |r|
      ensures r[i].targetArea >= r[j].targetArea
    {
      if i == 0 && j > 1 {
        assert t[0].targetArea >= t[j - 1].targetArea;
      }
    }
  }

  /** Insertion sort into non-increasing area; equal areas keep their input order. */
  function SortByArea(s: seq<Candidate>): (r: seq<Candidate>)
    ensures |r| == |s|
    ensures RankedByArea(r)
    ensures multiset(r) == multiset(s)
  {
    if s == [] then []
    else
      assert s == [s[0]] + s[1..];
      InsertByArea(s[0], SortByArea(s[1..]))
  }

  /** Ranking an already ranked sequence leaves it unchanged, so ranking is idempotent. */
  lemma {:induction false} SortKeepsRanked(s: seq<Candidate>)
    requires RankedByArea(s)
    ensures SortByArea(s) == s
  {
    if s != [] {
      SortKeepsRanked(s[1..]);
      assert s == [s[0]] + s[1..];
    }
  }

  /** Areas strictly decrease along the sequence. */
  predicate StrictlyRankedByArea(s: seq<Candidate>) {
    forall i, j :: 0 <= i < j < |s| ==> s[i].targetArea > s[j].targetArea
  }

  /** Two rankings of the same contours agree when no two areas are equal. */
  lemma {:induction false} RankingIsUnique(a: seq<Candidate>, b: seq<Candidate>)
    requires multiset(a) == multiset(b)
    requires RankedByArea(a) && StrictlyRankedByArea(b)
    ensures a == b
    decreases |a|
  {
    assert |a| == |multiset(a)| == |b|;
    if a != [] {
      SameHead(a, b);
      DropSameHead(a, b);
      RankingIsUnique(a[1..], b[1..]);
      assert a == [a[0]] + a[1..] && b == [b[0]] + b[1..];
    }
  }

  /** Both rankings start with a contour of the largest area, which the strict one holds only once. */
  lemma SameHead(a: seq<Candidate>, b: seq<Candidate>)
    requires multiset(a) == multiset(b) && a != []
    requires RankedByArea(a) && StrictlyRankedByArea(b)
    ensures b != [] && a[0] == b[0]
  {
    assert a[0] in multiset(b) && a[0] in b;
    assert b[0] in multiset(a) && b[0] in a;
    var k :| 0 <= k < |b| && b[k] == a[0];
    var m :| 0 <= m < |a| && a[m] == b[0];
    assert a[0].targetArea >= a[m].targetArea;
    assert b[0].targetArea >= b[k].targetArea;
  }

  /** Removing an equal head keeps the multisets equal. */
  lemma DropSameHead(a: seq<Candidate>, b: seq<Candidate>)
    requires multiset(a) == multiset(b) && a != [] && b != [] && a[0] == b[0]
    ensures multiset(a[1..]) == multiset(b[1..])
  {
    assert a == [a[0]] + a[1..];
    assert b == [b[0]] + b[1..];
    assert multiset(a) == multiset{a[0]} + multiset(a[1..]);
    assert multiset(b) == multiset{a[0]} + multiset(b[1..]);
    forall x
      ensures multiset(a[1..])[x] == multiset(b[1..])[x]
    {
      assert multiset(a)[x] == multiset{a[0]}[x] + multiset(a[1..])[x];
      assert multiset(b)[x] == multiset{a[0]}[x] + multiset(b[1..])[x];
    }
  }

  /** Sorting yields the one strictly ranked arrangement of its input, when it has one. */
  lemma SortGivesStrictRanking(s: seq<Candidate>, t: seq<Candidate>)
    requires multiset(s) == multiset(t) && StrictlyRankedByArea(t)
    ensures SortByArea(s) == t
  {
    RankingIsUnique(SortByArea(s), t);
  }

  /** The first element of a ranking of a non-empty sequence has the largest area in it. */
  lemma RankedHeadIsLargest(s: seq<Candidate>, c: Candidate)
    requires c in s
    ensures SortByArea(s)[0].targetArea >= c.targetArea
  {
    var r := SortByArea(s);
    assert c in multiset(r);
    var j :| 0 <= j < |r| && r[j] == c;
    if j > 0 {
      assert r[0].targetArea >= r[j].targetArea;
    }
  }
}
