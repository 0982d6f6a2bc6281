/**
 * `process`: the filter, identification and offset stages wired with the
 * constants the robot uses. Colour thresholding and contour extraction are
 * OpenCV calls; the model starts from the extracted, measured contours.
 */
module Pipeline {
  import opened Wrappers
  import opened Geometry
  import opened ContourFilter
  import opened TargetIdentifier
  import opened CenterOffset
  import Seqs

  /** The filter thresholds `process` passes. */
  const ReferenceConfig: FilterConfig := FilterConfig(
    minArea := 100.0,
    minPerimeter := 0.0,
    minWidth := 0.0,
    maxWidth := 1000.0,
    minHeight := 0.0,
    maxHeight := 1000.0,
    solidityLow := 0.0,
    solidityHigh := 100.0,
    maxVertexCount := 1000000.0,
    minVertexCount := 0.0,
    minRatio := 0.0,
    maxRatio := 1000.0)

  /** The column the offset is measured from (half of a 426-pixel-wide image). */
  const ReferenceColumn: int := 213

  /**
   * What `process` leaves in its output fields. `pixelOffset` is `None` when
   * identification found no pair: the source then passes `null` on and fails
   * before assigning the offset.
   */
  datatype Outputs = Outputs(
    filterContoursOutput: seq<Candidate>,
    finalContoursOutput: Option<seq<Candidate>>,
    pixelOffset: Option<real>)

  /**
   * Under the reference thresholds a contour within every bound has a hull of
   * area at least 100, since it has area at least 100 and fills at most its
   * hull. So dropping contours whose hull area is not positive loses nothing.
   */
  lemma ReferenceBoundsNeedHull()
    ensures forall c :: WithinBounds(ReferenceConfig, c) ==> c.hullArea >= 100.0
  {
  }

  /**
   * `process` from the extracted contours on: filter with the reference
   * thresholds, identify a pair among the kept contours, and measure its
   * offset from the reference column. OpenCV's bounding rectangle is at least
   * one pixel high; only the kept contours reach the rotated-rectangle division.
   */
  function Process(contours: seq<Candidate>): (out: Outputs)
    requires forall c <- contours :: c.bbHeight > 0
    requires forall c <- Kept(ReferenceConfig, contours) :: HasRect(c)
    ensures out.filterContoursOutput == Kept(ReferenceConfig, contours)
    ensures forall c <- out.filterContoursOutput :: c in contours && WithinBounds(ReferenceConfig, c)
    ensures forall c <- contours :: WithinBounds(ReferenceConfig, c) ==> c in out.filterContoursOutput
    ensures forall c :: (multiset(out.filterContoursOutput)[c] ==
      if c in contours && WithinBounds(ReferenceConfig, c) then multiset(contours)[c] else 0)
    ensures Seqs.IsSubsequence(out.filterContoursOutput, contours)
    ensures out.finalContoursOutput == IdentifyContours(out.filterContoursOutput)
    ensures out.pixelOffset.Some? <==> out.finalContoursOutput.Some?
    ensures out.finalContoursOutput.Some? ==>
      var pair := out.finalContoursOutput.value;
      && |pair| == 2
      && pair[0] in out.filterContoursOutput && pair[1] in out.filterContoursOutput
      && out.pixelOffset.value == ReferenceColumn as real - (pair[0].rect.centerX + pair[1].rect.centerX) / 2.0
  {
    var filtered := Kept(ReferenceConfig, contours);
    ReferenceBoundsNeedHull();
    KeptWithinBounds(ReferenceConfig, contours);
    KeptComplete(ReferenceConfig, contours);
    KeptMultiplicity(ReferenceConfig, contours);
    Seqs.SelectIsSubsequence(KeepTest(ReferenceConfig), contours);
    var found := IdentifyContours(filtered);
    IdentifiedAreInputs(filtered);
    match found
    case None => Outputs(filtered, None, None)
    case Some(pair) => Outputs(filtered, found, Some(GetCenterOffset(pair, ReferenceColumn)))
  }

  /** Under the reference thresholds, a contour with non-negative measurements is kept iff its area is at least 100, it has at most a million points, it fits in 1000 by 1000, it fills at most its hull and its width is at most 1000 times its height. */
  lemma ReferenceConfigKeeps(c: Candidate)
    requires Filterable(c) && c.perimeter >= 0.0 && c.area >= 0.0
    ensures Keeps(ReferenceConfig, c) <==>
      && c.area >= 100.0
      && c.vertexCount <= 1000000
      && c.bbWidth <= 1000 && c.bbHeight <= 1000
      && c.area <= c.hullArea
      && c.bbWidth <= 1000 * c.bbHeight
  {
    KeepsIffWithinBounds(ReferenceConfig, c);
  }
}

/** Worked frames for the pipeline. */
module PipelineScenarios {
  import opened Wrappers
  import opened Geometry
  import opened ContourFilter
  import opened TargetIdentifier
  import opened Pipeline
  import Seqs
  import AreaRanking

  /** A tall target tilted 16 degrees, centred at x = 280. */
  const TallTarget: Candidate :=
    Candidate(20, 45, 350.0, 100.0, 400.0, 4, 400.0, RotatedRect(280.0, 10.0, 40.0, 16.0), 270.0)

  /** A smaller wide target tilted 76 degrees, centred at x = 150. */
  const WideTarget: Candidate :=
    Candidate(45, 20, 300.0, 100.0, 350.0, 4, 300.0, RotatedRect(150.0, 40.0, 10.0, 76.0), 128.0)

  /** Both targets pass the reference filter and form the pair. */
  lemma TwoTargetsKeptAndPaired()
    ensures Kept(ReferenceConfig, [TallTarget, WideTarget]) == [TallTarget, WideTarget]
    ensures IdentifyContours([TallTarget, WideTarget]) == Some([TallTarget, WideTarget])
  {
    var cs := [TallTarget, WideTarget];
    KeepsIffWithinBounds(ReferenceConfig, TallTarget);
    KeepsIffWithinBounds(ReferenceConfig, WideTarget);
    assert Kept(ReferenceConfig, [WideTarget]) == [WideTarget];
    IsGoodIffMeetsTargetShape(TallTarget);
    IsGoodIffMeetsTargetShape(WideTarget);
    assert GoodContours([WideTarget]) == [WideTarget];
    assert GoodContours(cs) == cs;
    IdentifyWithTwoGood(cs, TallTarget, WideTarget);
  }

  /** Two targets whose midpoint is x = 215 give an offset of 213 - 215. */
  lemma TwoTargetsGiveOffset()
    ensures Process([TallTarget, WideTarget]) ==
      Outputs([TallTarget, WideTarget], Some([TallTarget, WideTarget]), Some(-2.0))
  {
    TwoTargetsKeptAndPaired();
  }

  /** A one-pixel contour: no area, no hull, a degenerate rotated rectangle. */
  const Speck: Candidate :=
    Candidate(1, 1, 0.0, 0.0, 0.0, 1, 0.0, RotatedRect(50.0, 0.0, 0.0, 0.0), 50.0)

  /**
   * A speck beside the two targets is dropped and does not disturb the pair.
   * The source drops it at the area check; the model drops it because its
   * hull area is zero, and `ReferenceBoundsNeedHull` shows the two agree.
   */
  lemma SpeckIsDropped()
    ensures Process([TallTarget, WideTarget, Speck]) ==
      Outputs([TallTarget, WideTarget], Some([TallTarget, WideTarget]), Some(-2.0))
  {
    TwoTargetsKeptAndPaired();
    assert [TallTarget, WideTarget, Speck] == [TallTarget, WideTarget] + [Speck];
    Seqs.SelectAppend(KeepTest(ReferenceConfig), [TallTarget, WideTarget], [Speck]);
    assert Kept(ReferenceConfig, [Speck]) == [];
  }

  /** A frame with no contours yields no pair and no offset. */
  lemma EmptyFrameFindsNothing()
    ensures Process([]) == Outputs([], None, None)
  {
    assert Kept(ReferenceConfig, []) == [];
    assert GoodContours([]) == [];
  }

  /** One qualifying target alone is not a pair. */
  lemma SingleTargetFindsNothing()
    ensures Process([TallTarget]).finalContoursOutput == None
    ensures Process([TallTarget]).pixelOffset == None
  {
    var cs := [TallTarget];
    KeepsIffWithinBounds(ReferenceConfig, TallTarget);
    assert Kept(ReferenceConfig, cs) == cs;
    assert |GoodContours(cs)| <= 1;
  }

  /** The largest of five: tall, at x = 300. */
  const Top: Candidate :=
    Candidate(20, 45, 350.0, 100.0, 400.0, 4, 900.0, RotatedRect(300.0, 10.0, 40.0, 10.0), 290.0)
  /** Second largest: also tall, so its angle is outside the partner window. */
  const TallTwin: Candidate := Top.(targetArea := 800.0, rect := Top.rect.(centerX := 200.0))
  /** Third: wide with a fitting angle, but to the right of the tall top contour. */
  const WrongSide: Candidate := Top.(targetArea := 700.0, rect := RotatedRect(350.0, 40.0, 10.0, 70.0))
  /** Fourth: wide, fitting angle, to the left of the top contour. */
  const LeftPartner: Candidate := WrongSide.(targetArea := 600.0, rect := WrongSide.rect.(centerX := 250.0, angle := 80.0))
  /** Smallest: would also match, but comes later in the ranking. */
  const Smallest: Candidate := LeftPartner.(targetArea := 500.0, rect := LeftPartner.rect.(centerX := 100.0))

  /** The five contours in ranked order. */
  const FiveRanked: seq<Candidate> := [Top, TallTwin, WrongSide, LeftPartner, Smallest]

  /** The same five contours in the order a frame might list them. */
  const FiveShuffled: seq<Candidate> := [Smallest, WrongSide, Top, LeftPartner, TallTwin]

  /** All five pass classification, so the good list is the input itself. */
  lemma FiveAllGood()
    ensures GoodContours(FiveShuffled) == FiveShuffled
  {
    forall c <- FiveShuffled
      ensures GoodCandidate(c)
    {
      IsGoodIffMeetsTargetShape(c);
    }
    Seqs.SelectAll(GoodCandidate, FiveShuffled);
  }

  /** The shuffled list holds the same five contours. */
  lemma FiveSameContours()
    ensures multiset(FiveShuffled) == multiset(FiveRanked)
  {
  }

  /** The five areas, 900 down to 500, strictly decrease in ranked order. */
  lemma FiveStrictlyRanked()
    ensures AreaRanking.StrictlyRankedByArea(FiveRanked)
  {
  }

  /** Ranking the shuffled list restores the ranked order, since the five areas differ. */
  lemma FiveRankInOrder()
    ensures AreaRanking.SortByArea(FiveShuffled) == FiveRanked
  {
    FiveSameContours();
    FiveStrictlyRanked();
    AreaRanking.SortGivesStrictRanking(FiveShuffled, FiveRanked);
  }

  /** The scan rejects the second (wrong angle) and third (wrong side) and stops at the fourth. */
  lemma FiveScanFindsFourth()
    ensures Partner(FiveRanked, 1) == 3
  {
    var cs := FiveRanked;
    assert !Matches(Top, TallTwin);
    assert !Matches(Top, WrongSide);
    assert Matches(Top, LeftPartner);
    assert Partner(cs, 3) == 3;
    assert Partner(cs, 2) == 3;
  }

  /** With five good contours in shuffled order, ranking puts the largest first; the scan skips a wrong angle and a wrong side and pairs the largest with the fourth. */
  lemma ScanSkipsToGeometricPartner()
    ensures (forall c <- FiveShuffled :: HasRect(c)) && IdentifyContours(FiveShuffled) == Some([Top, LeftPartner])
  {
    FiveAllGood();
    FiveRankInOrder();
    FiveScanFindsFourth();
    IdentifyFromRanking(FiveShuffled, FiveRanked);
  }
}
