/**
 * `identifyContours`: classifies each filtered contour by its rotated
 * rectangle, ranks the good ones by area and picks a left/right pair.
 */
module TargetIdentifier {
  import opened Wrappers
  import opened Geometry
  import opened Seqs
  import opened AreaRanking

  /** Smallest area (exclusive) of a good contour. */
  const MinTargetArea: real := 250.0
  /** Smallest elongation (exclusive) of a good contour. */
  const MinElongation: real := 1.5
  /** Half-width (exclusive) of every angle window, in degrees. */
  const AngleTolerance: real := 22.5
  /** Window centre for contours classified tall, and pairing target beside a wide top contour. */
  const LowAngle: real := 14.5
  /** Window centre for contours classified wide, and pairing target beside a tall top contour. */
  const HighAngle: real := 75.5

  /** Classification: tall unless height over width is below one. */
  predicate ClassifiedTall(r: RotatedRect)
    requires r.width > 0.0 && r.height > 0.0
  {
    !(r.height / r.width < 1.0)
  }

  /** The longer side over the shorter one. */
  function Elongation(r: RotatedRect): real
    requires r.width > 0.0 && r.height > 0.0
  {
    var ratio := r.height / r.width;
    if ratio < 1.0 then 1.0 / ratio else ratio
  }

  /** `||angle| - target| < 22.5`. */
  predicate NearAngle(angle: real, target: real) {
    Abs(Abs(angle) - target) < AngleTolerance
  }

  /** The test a contour must pass to enter the good list. */
  predicate IsGood(c: Candidate)
    requires HasRect(c)
  {
    && c.targetArea > MinTargetArea
    && Elongation(c.rect) > MinElongation
    && (if ClassifiedTall(c.rect) then NearAngle(c.rect.angle, LowAngle)
        else NearAngle(c.rect.angle, HighAngle))
  }

  /**
   * Reference description of a good contour, without division: area above 250,
   * one side more than 1.5 times the other, and an absolute angle below 37
   * degrees when height is at least width, strictly between 53 and 98 degrees
   * otherwise.
   */
  predicate MeetsTargetShape(c: Candidate) {
    var w, h, a := c.rect.width, c.rect.height, Abs(c.rect.angle);
    && c.targetArea > 250.0
    && (h > 1.5 * w || w > 1.5 * h)
    && (if h >= w then a < 37.0 else 53.0 < a < 98.0)
  }

  /** Classified tall exactly when height is at least width. */
  lemma ClassifiedTallIff(r: RotatedRect)
    requires r.width > 0.0 && r.height > 0.0
    ensures ClassifiedTall(r) <==> r.height >= r.width
  {
    QuotientBounds(r.height, r.width, 1.0);
  }

  /** Elongation above 1.5 means one side exceeds 1.5 times the other. */
  lemma ElongationIff(r: RotatedRect)
    requires r.width > 0.0 && r.height > 0.0
    ensures Elongation(r) > MinElongation <==> r.height > 1.5 * r.width || r.width > 1.5 * r.height
  {
    var w, h := r.width, r.height;
    QuotientBounds(h, w, 1.0);
    QuotientBounds(h, w, 1.5);
    if h < w {
      assert 1.0 / (h / w) == w / h;
      QuotientBounds(w, h, 1.5);
    }
  }

  /** The classification test agrees with the division-free reference description. */
  lemma IsGoodIffMeetsTargetShape(c: Candidate)
    requires HasRect(c)
    ensures IsGood(c) <==> MeetsTargetShape(c)
  {
    ClassifiedTallIff(c.rect);
    ElongationIff(c.rect);
  }

  /**
   * The classification test as a total function value. The `HasRect` guard only
   * makes it total: identification requires every contour to have a rectangle.
   */
  predicate GoodCandidate(c: Candidate) {
    HasRect(c) && IsGood(c)
  }

  /** The good list, before sorting. */
  function GoodContours(cs: seq<Candidate>): seq<Candidate> {
    Select(GoodCandidate, cs)
  }

  /** The pairing target angle for the top contour: 75.5 when height exceeds width. */
  function TargetAngle(rr1: RotatedRect): real {
    if rr1.height > rr1.width then HighAngle else LowAngle
  }

  /** A tall top contour wants its partner on its left; a wide one on its right. */
  predicate OnExpectedSide(rr1: RotatedRect, current: RotatedRect) {
    || (rr1.height > rr1.width && current.centerX < rr1.centerX)
    || (rr1.height < rr1.width && current.centerX > rr1.centerX)
  }

  /** The test the pairing scan applies to `current` against the top contour. */
  predicate Matches(top: Candidate, current: Candidate) {
    NearAngle(current.rect.angle, TargetAngle(top.rect)) && OnExpectedSide(top.rect, current.rect)
  }

  /**
   * The pairing scan from index `i`: the first index at or after `i` whose
   * contour matches `ranked[0]`, or 0 when there is none.
   */
  function Partner(ranked: seq<Candidate>, i: nat): (out: nat)
    requires 1 <= i <= |ranked|
    ensures out < |ranked|
    ensures out != 0 ==> i <= out && Matches(ranked[0], ranked[out])
    ensures forall j :: i <= j < |ranked| && (out == 0 || j < out) ==> !Matches(ranked[0], ranked[j])
    decreases |ranked| - i
  {
    if i == |ranked| then 0
    else if Matches(ranked[0], ranked[i]) then i
    else Partner(ranked, i + 1)
  }

  /** `identifyContours`; `None` stands for the source's `null`. */
  function IdentifyContours(cs: seq<Candidate>): (r: Option<seq<Candidate>>)
    requires forall c <- cs :: HasRect(c)
    ensures r.Some? ==> |r.value| == 2
    ensures |GoodContours(cs)| < 2 ==> r.None?
    ensures |GoodContours(cs)| > 2 ==> r.Some?
  {
    var ranked := SortByArea(GoodContours(cs));
    if |ranked| > 2 then
      Some([ranked[0], ranked[Partner(ranked, 1)]])
    else if |ranked| == 2 && OnExpectedSide(ranked[0].rect, ranked[1].rect) then
      Some(ranked)
    else
      None
  }

  /** A found pair consists of input contours that passed classification. */
  lemma IdentifiedAreInputs(cs: seq<Candidate>)
    requires forall c <- cs :: HasRect(c)
    ensures IdentifyContours(cs).Some? ==>
      forall k :: 0 <= k < 2 ==> IdentifyContours(cs).value[k] in cs && GoodCandidate(IdentifyContours(cs).value[k])
  {
    var good := GoodContours(cs);
    var ranked := SortByArea(good);
    var r := IdentifyContours(cs);
    if r.Some? {
      forall k | 0 <= k < 2
        ensures r.value[k] in cs && GoodCandidate(r.value[k])
      {
        assert r.value[k] in ranked;
        assert r.value[k] in multiset(good);
      }
    }
  }

  /** Both contours of a found pair are input contours of the target shape, and the first has the largest area among those. */
  lemma IdentifyPicksLargestGood(cs: seq<Candidate>)
    requires forall c <- cs :: HasRect(c)
    ensures IdentifyContours(cs).Some? ==>
      && (forall k :: 0 <= k < 2 ==> IdentifyContours(cs).value[k] in cs && MeetsTargetShape(IdentifyContours(cs).value[k]))
      && (forall c <- cs :: MeetsTargetShape(c) ==> c.targetArea <= IdentifyContours(cs).value[0].targetArea)
  {
    var good := GoodContours(cs);
    var ranked := SortByArea(good);
    var r := IdentifyContours(cs);
    if r.Some? {
      IdentifiedAreInputs(cs);
      forall k | 0 <= k < 2
        ensures r.value[k] in cs && MeetsTargetShape(r.value[k])
      {
        IsGoodIffMeetsTargetShape(r.value[k]);
      }
      forall c <- cs | MeetsTargetShape(c)
        ensures c.targetArea <= r.value[0].targetArea
      {
        IsGoodIffMeetsTargetShape(c);
        SelectMultiplicity(GoodCandidate, cs, c);
        assert c in multiset(good);
        RankedHeadIsLargest(good, c);
      }
    }
  }

  /** With exactly two good contours of different area, the pair is the larger then the smaller, found iff the position rule holds. */
  lemma IdentifyWithTwoGood(cs: seq<Candidate>, big: Candidate, small: Candidate)
    requires forall c <- cs :: HasRect(c)
    requires multiset(GoodContours(cs)) == multiset{big, small}
    requires big.targetArea > small.targetArea
    ensures IdentifyContours(cs) == if OnExpectedSide(big.rect, small.rect) then Some([big, small]) else None
  {
    var ranked := SortByArea(GoodContours(cs));
    assert |multiset(ranked)| == 2;
    assert ranked == [ranked[0], ranked[1]];
    assert ranked[0] in multiset{big, small} && ranked[1] in multiset{big, small};
    assert ranked[0] == big;
    assert multiset{big, ranked[1]} == multiset{big, small};
    assert ranked[1] == small;
  }

  /**
   * With more than two good contours the result is always a pair: the largest
   * good contour, then the first later contour in ranked order that matches
   * it, or the largest one again when none does.
   */
  lemma IdentifyWithManyGood(cs: seq<Candidate>)
    requires forall c <- cs :: HasRect(c)
    requires |GoodContours(cs)| > 2
    ensures var ranked := SortByArea(GoodContours(cs));
      && IdentifyContours(cs).Some?
      && IdentifyContours(cs).value[0] == ranked[0]
      && ((exists i :: 1 <= i < |ranked| && IdentifyContours(cs).value[1] == ranked[i] && Matches(ranked[0], ranked[i])
             && (forall j :: 1 <= j < i ==> !Matches(ranked[0], ranked[j])))
          || ((forall j :: 1 <= j < |ranked| ==> !Matches(ranked[0], ranked[j])) && IdentifyContours(cs).value[1] == ranked[0]))
  {
    var ranked := SortByArea(GoodContours(cs));
    var out := Partner(ranked, 1);
    if out != 0 {
      assert IdentifyContours(cs).value[1] == ranked[out];
    }
  }

  /** Once the ranking of the good contours is known, the pair is its head and the contour at the scan's index. */
  lemma IdentifyFromRanking(cs: seq<Candidate>, ranked: seq<Candidate>)
    requires forall c <- cs :: HasRect(c)
    requires SortByArea(GoodContours(cs)) == ranked && |ranked| > 2
    ensures IdentifyContours(cs) == Some([ranked[0], ranked[Partner(ranked, 1)]])
  {
  }

  /** On input that is already good and ranked, identification pairs the head with the scan's choice. */
  lemma IdentifyRankedGood(cs: seq<Candidate>)
    requires forall c <- cs :: HasRect(c)
    requires GoodContours(cs) == cs && RankedByArea(cs) && |cs| > 2
    ensures IdentifyContours(cs) == Some([cs[0], cs[Partner(cs, 1)]])
  {
    SortKeepsRanked(cs);
    IdentifyFromRanking(cs, cs);
  }

  /** For a good contour the pairing target is the window centre of the other classification. */
  lemma TargetAngleOpposesClassification(c: Candidate)
    requires HasRect(c) && MeetsTargetShape(c)
    ensures TargetAngle(c.rect) == if ClassifiedTall(c.rect) then HighAngle else LowAngle
  {
    ClassifiedTallIff(c.rect);
  }

  /** A partner the scan finds has the other classification from the top contour, so the angle windows never pick two of one kind. */
  lemma MatchedPartnerHasOtherShape(top: Candidate, current: Candidate)
    requires HasRect(top) && MeetsTargetShape(top) && HasRect(current) && MeetsTargetShape(current)
    requires Matches(top, current)
    ensures ClassifiedTall(top.rect) != ClassifiedTall(current.rect)
  {
    TargetAngleOpposesClassification(top);
    ClassifiedTallIff(current.rect);
  }

  /** When nothing matches, the top contour is paired with itself. */
  lemma SelfPairWhenNoMatch()
    ensures exists cs: seq<Candidate>, c: Candidate ::
      (forall x <- cs :: HasRect(x)) && IdentifyContours(cs) == Some([c, c])
  {
    // Three tall contours on one vertical line: none lies to the left of the largest.
    var a := Candidate(10, 40, 300.0, 100.0, 400.0, 4, 600.0, RotatedRect(100.0, 10.0, 40.0, 10.0), 95.0);
    var cs := [a, a.(targetArea := 500.0), a.(targetArea := 400.0)];
    forall c <- cs
      ensures GoodCandidate(c)
    {
      IsGoodIffMeetsTargetShape(c);
    }
    SelectAll(GoodCandidate, cs);
    assert !Matches(a, cs[1]) && !Matches(a, cs[2]);
    assert Partner(cs, 3) == 0;
    assert Partner(cs, 2) == 0;
    assert Partner(cs, 1) == 0;
    IdentifyRankedGood(cs);
    assert IdentifyContours(cs) == Some([a, a]);
  }
}
