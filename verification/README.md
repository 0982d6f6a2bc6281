# Vision target pipeline: a Dafny model

This project models the decision logic of the robot's vision pipeline,
`CVVisionPipeline`. The pipeline finds the pair of retro-reflective target
strips in a camera frame. It then reports how far, in pixels, their midpoint
lies from a reference column. Three stages are modelled, plus the wiring that
connects them:

- **Contour filter** (`filterContours`). A contour is kept when it passes
  every check in a chain of closed-range checks. The checks cover bounding-box
  width and height, area, perimeter, solidity (`100·area/hullArea`), vertex
  count and the width/height ratio. Kept contours stay in input order, and the
  output list is cleared before filling.
- **Target identification** (`identifyContours`). Each contour is classified
  by its minimum-area rotated rectangle. A contour is "good" when all of these
  hold:
  - its area is above 250;
  - one side is more than 1.5 times the other;
  - its angle lies inside the window for its shape. A tall contour
    (height/width ≥ 1) uses a window centred on 14.5°. A wide one uses 75.5°.

  Good contours are ranked by area, largest first. A left/right pair is then
  picked:
  - With exactly two good contours, the pair is accepted only if the
    position rule holds. A tall top contour wants its partner on its left, a
    wide one on its right.
  - With more than two, the largest is paired with the first later contour
    that passes two tests: its angle is near the pairing target (75.5° beside
    a top contour whose height exceeds its width, else 14.5°), and it is on
    the expected side.
  - If no contour passes, the largest is paired with itself.

  The result is "none" (`null` in the source) or exactly two contours.
- **Centre offset** (`getCenterOffset`): `center − mean(rotated-rect centre x)`
  of the pair. `process` calls it with reference column 213.

The geometry comes from OpenCV and the robot library: bounding rectangle,
contour area, arc length, convex-hull area, vertex count, the rotated
rectangle, `Contour.getArea` and `Contour.coords`. Each is a measured field of
the `Candidate` datatype, with `real` in place of `double`. Where the source
divides, a precondition requires a positive divisor:
- `Filterable`: the hull area and the bounding height are positive.
  `FilterContours` requires it of every input contour. The selection `Kept`
  drops a contour that lacks it.
- `HasRect`: the rotated rectangle's sides are positive. `IdentifyContours`
  requires it of every input contour.
- `Process` requires a positive bounding height of every contour (OpenCV's
  bounding rectangle is at least one pixel high). It requires `HasRect` only
  of the contours the filter keeps, which are the only ones that reach the
  rotated-rectangle division.

Modules: `Wrappers` (Option), `Seqs` (order-preserving selection and
subsequences), `Geometry`, `ContourFilter`, `AreaRanking`, `TargetIdentifier`,
`CenterOffset`, `Pipeline` and `PipelineScenarios` (worked frames).

Quirks of the code that the model keeps:
- Classification pairs tall (height/width ≥ 1) with the 14.5° window and wide
  with the 75.5° window.
- The pairing stage gives a top contour whose height exceeds its width the
  target 75.5°, and any other top contour 14.5°.
- The left/right swap in `getCenterOffset` compares `Contour.coords.x`, not
  the bounding-box x.

## Model

All source paths are in `src/main/java/frc/robot/vision/CVVisionPipeline.java`.

| member | source | states |
|---|---|---|
| ContourFilter.Keeps | src/main/java/frc/robot/vision/CVVisionPipeline.java:168-185 | One pass of the loop: the contour survives every `continue` check (bounding width, height, area, perimeter, solidity, vertex count, ratio), in source order |
| ContourFilter.Kept | src/main/java/frc/robot/vision/CVVisionPipeline.java:163-186 | The output list: the input contours that `Keeps` accepts, in input order |
| ContourFilter.KeepsIffWithinBounds | src/main/java/frc/robot/vision/CVVisionPipeline.java:167-185 | A contour passes the chain of `continue` checks iff each of these holds, all bounds inclusive and stated without division: bounding width and height in range, area ≥ minArea, perimeter ≥ minPerimeter, solidity·hull between the scaled bounds, vertex count in range, ratio bounds times height around the width |
| ContourFilter.FilterContours | src/main/java/frc/robot/vision/CVVisionPipeline.java:158-188 | The loop, starting from a cleared list, produces the same list whatever the buffer held before. The output is a subsequence of the input in original order. Every output contour is within all bounds. Every input contour within all bounds is in the output |
| ContourFilter.KeptWithinBounds | src/main/java/frc/robot/vision/CVVisionPipeline.java:168-186 | Every kept contour is an input contour satisfying every inclusive bound |
| ContourFilter.KeptComplete | src/main/java/frc/robot/vision/CVVisionPipeline.java:165-186 | Every input contour that has a positive hull area and bounding height and is within every bound is in the output |
| ContourFilter.KeptMultiplicity | src/main/java/frc/robot/vision/CVVisionPipeline.java:163-186 | Each measurable input contour within bounds appears in the output exactly as often as in the input. Any other contour does not appear |
| ContourFilter.KeptMonotone | src/main/java/frc/robot/vision/CVVisionPipeline.java:168-185 | Widening any threshold ranges (lower minimums, higher maximums) never removes a contour: the old output is a subsequence of the new one and no longer |
| AreaRanking.InsertByArea | src/main/java/frc/robot/vision/CVVisionPipeline.java:213 | Inserting into a ranked list keeps it ranked by non-increasing area and adds exactly the one element |
| AreaRanking.SortByArea | src/main/java/frc/robot/vision/CVVisionPipeline.java:213 | The sort returns a permutation of the good list with non-increasing area |
| AreaRanking.SortKeepsRanked | src/main/java/frc/robot/vision/CVVisionPipeline.java:213 | Sorting a list already in non-increasing area order leaves it unchanged, so sorting is idempotent |
| AreaRanking.RankingIsUnique | src/main/java/frc/robot/vision/CVVisionPipeline.java:213 | Two rankings of the same contours are equal when the second has strictly decreasing area |
| AreaRanking.SortGivesStrictRanking | src/main/java/frc/robot/vision/CVVisionPipeline.java:213 | When the input's areas are pairwise different, the sort returns the one arrangement with strictly decreasing area |
| AreaRanking.RankedHeadIsLargest | src/main/java/frc/robot/vision/CVVisionPipeline.java:213-218 | The head of the ranking has the largest area of all its elements |
| TargetIdentifier.IsGood | src/main/java/frc/robot/vision/CVVisionPipeline.java:195-209 | The classification test: area > 250, normalised ratio > 1.5, and the angle within 22.5° of 14.5 when tall or of 75.5 when wide |
| TargetIdentifier.ClassifiedTallIff | src/main/java/frc/robot/vision/CVVisionPipeline.java:198-202 | A rotated rectangle is classified tall exactly when its height is at least its width |
| TargetIdentifier.ElongationIff | src/main/java/frc/robot/vision/CVVisionPipeline.java:198-203 | The normalised ratio exceeds 1.5 exactly when one side is more than 1.5 times the other |
| TargetIdentifier.IsGoodIffMeetsTargetShape | src/main/java/frc/robot/vision/CVVisionPipeline.java:195-209 | A contour enters the good list iff all of these hold: area > 250; one side > 1.5 times the other; absolute angle < 37° when height ≥ width (the 14.5° window), or strictly between 53° and 98° otherwise (the 75.5° window) |
| TargetIdentifier.TargetAngle | src/main/java/frc/robot/vision/CVVisionPipeline.java:219 | The pairing target: 75.5 when the top contour's height exceeds its width, else 14.5 |
| TargetIdentifier.OnExpectedSide | src/main/java/frc/robot/vision/CVVisionPipeline.java:225-233 | The position rule: a top contour with height > width wants the other contour's centre to its left; one with height < width wants it to its right; a square top contour accepts neither |
| TargetIdentifier.Matches | src/main/java/frc/robot/vision/CVVisionPipeline.java:224-233 | The scan's test: the contour's angle is near the pairing target and it lies on the expected side of the top contour |
| TargetIdentifier.Partner | src/main/java/frc/robot/vision/CVVisionPipeline.java:221-235 | The scan returns the first index ≥ 1 whose contour matches the top contour in angle and side. It returns 0 when none matches, so every index before the returned one fails |
| TargetIdentifier.IdentifyContours | src/main/java/frc/robot/vision/CVVisionPipeline.java:190-256 | The result is none or a list of exactly two. It is none when fewer than two contours are good. It is never none when more than two are good |
| TargetIdentifier.IdentifiedAreInputs | src/main/java/frc/robot/vision/CVVisionPipeline.java:192-247 | Both contours of a found pair are input contours that passed classification |
| TargetIdentifier.IdentifyPicksLargestGood | src/main/java/frc/robot/vision/CVVisionPipeline.java:192-244 | Both contours of a pair are input contours of the target shape. The first has the largest area among all input contours of that shape |
| TargetIdentifier.IdentifyWithTwoGood | src/main/java/frc/robot/vision/CVVisionPipeline.java:238-247 | With exactly two good contours of different area, the result is [larger, smaller] if the position rule holds for the larger one, and none otherwise |
| TargetIdentifier.IdentifyWithManyGood | src/main/java/frc/robot/vision/CVVisionPipeline.java:216-237 | With more than two good contours the result is a pair. Its first element is the top-ranked contour. Its second is the first later ranked contour that matches the top one, or the top contour again when none matches |
| TargetIdentifier.IdentifyRankedGood | src/main/java/frc/robot/vision/CVVisionPipeline.java:213-237 | On input that is all good and already ranked, the pair is the head and the contour at the scan's index |
| TargetIdentifier.IdentifyFromRanking | src/main/java/frc/robot/vision/CVVisionPipeline.java:213-237 | With more than two good contours, the pair is the head of the ranking and the contour at the scan's index |
| TargetIdentifier.TargetAngleOpposesClassification | src/main/java/frc/robot/vision/CVVisionPipeline.java:198-219 | For a contour of the target shape (a good one), the pairing target angle is the other classification's window centre: 75.5° for one classified tall, 14.5° for one classified wide |
| TargetIdentifier.MatchedPartnerHasOtherShape | src/main/java/frc/robot/vision/CVVisionPipeline.java:203-225 | Suppose the scan accepts a good contour as partner of a good top contour. Then the two have opposite tall/wide classification |
| TargetIdentifier.SelfPairWhenNoMatch | src/main/java/frc/robot/vision/CVVisionPipeline.java:221-237 | Some input makes the result contain the same contour twice: the `out = 0` fallback |
| CenterOffset.GetCenterOffset | src/main/java/frc/robot/vision/CVVisionPipeline.java:258-277 | For a two-element list the offset is center minus the mean of the two rotated-rect centre x, whichever way the swap went. Any other size gives 0 |
| CenterOffset.OffsetIgnoresOrder | src/main/java/frc/robot/vision/CVVisionPipeline.java:263-274 | Swapping the two contours does not change the offset |
| CenterOffset.OffsetSignConvention | src/main/java/frc/robot/vision/CVVisionPipeline.java:273-274 | The offset is 0 iff the midpoint is on the reference column. Moving both centres right by d lowers the offset by d |
| Pipeline.ReferenceBoundsNeedHull | src/main/java/frc/robot/vision/CVVisionPipeline.java:65-75 | Under the reference thresholds, a contour within every bound has hull area at least 100 (area ≥ 100 and area ≤ hull). So no contour the source keeps is lost by dropping those with zero hull area |
| Pipeline.Process | src/main/java/frc/robot/vision/CVVisionPipeline.java:64-78 | With the reference thresholds and column 213, the filter output is a subsequence of the input. It holds each in-bounds contour exactly as often as the input does, and nothing else. The final contours are the identification of that output. An offset exists iff a pair was found, and it is 213 minus the pair's mean centre x |
| Pipeline.ReferenceConfigKeeps | src/main/java/frc/robot/vision/CVVisionPipeline.java:65-75 | Under the reference thresholds, a contour with non-negative measurements is kept iff all of these hold: area ≥ 100, at most 10^6 vertices, box at most 1000×1000, area ≤ hull area, width ≤ 1000·height |
| PipelineScenarios.TwoTargetsGiveOffset | src/main/java/frc/robot/vision/CVVisionPipeline.java:76-78 | Take a tall target at x = 280 (16°) and a smaller wide one at x = 150 (76°). Both pass the filter, form the pair, and give offset 213 − 215 = −2 |
| PipelineScenarios.TwoTargetsKeptAndPaired | src/main/java/frc/robot/vision/CVVisionPipeline.java:168-255 | The two targets of the worked frame both pass the reference filter and are identified as the pair |
| PipelineScenarios.SpeckIsDropped | src/main/java/frc/robot/vision/CVVisionPipeline.java:171 | A frame with the two targets plus a one-pixel contour (zero area, zero hull, 0×0 rectangle) loses the speck in the filter and still gives the pair and offset −2 |
| PipelineScenarios.EmptyFrameFindsNothing | src/main/java/frc/robot/vision/CVVisionPipeline.java:248-255 | With no contours there is no pair and no offset |
| PipelineScenarios.SingleTargetFindsNothing | src/main/java/frc/robot/vision/CVVisionPipeline.java:248-255 | One qualifying target alone yields no pair |
| PipelineScenarios.ScanSkipsToGeometricPartner | src/main/java/frc/robot/vision/CVVisionPipeline.java:213-237 | Five good contours arrive in shuffled order. Ranking puts the largest first. The scan skips the second (wrong angle) and the third (wrong side) and pairs the largest with the fourth |

## Left out

- Colour thresholding (`hsvThreshold`, lines 115-120) and contour extraction (`findContours`, lines 127-140): thin wrappers over OpenCV. `Process` starts from the extracted contours. The native library load (lines 43-45) is also left out.
- How the geometry is computed: bounding rect, contour and hull area, arc length, convex hull and its reconstruction (lines 173-180), and `Contour`'s rotated rectangle, area and coords. These are foreign calls, so their results are `Candidate` fields.
- IEEE double behaviour: division by zero at lines 181, 184, 198 and 200 gives Infinity or NaN, and comparisons with NaN pass. The model uses reals with `Filterable` and `HasRect` preconditions instead.
- Degenerate hulls: `Kept` drops a contour whose hull area is not positive, instead of reproducing the NaN or +Infinity solidity the source computes at line 181. Under `process`'s thresholds the source drops every such contour too: with area below 100 at line 171, otherwise at line 182 because its solidity exceeds 100. `Pipeline.ReferenceBoundsNeedHull` states this. With other thresholds the two may differ, so `FilterContours` requires a positive hull area instead.
- AreaRanking.SortByArea: the comparator at line 213 truncates the area difference to `int`. That makes areas less than one unit apart compare equal, and the comparator is not transitive. The model sorts exactly, by non-increasing area. Ties keep input order, as Java's stable list sort does, but stability is not stated as a contract.
- TargetIdentifier.IdentifyWithTwoGood: covers only two good contours of different area. With equal areas, which one ranks first depends on the tie order.
- Pipeline.Process: when identification returns `null`, the source dereferences it at line 259 and throws a NullPointerException. The model returns no offset there (`pixelOffset == None`) rather than modelling the exception.
- Mutable output buffers and their getters (lines 37-41, 85-103). The model returns a fresh `Outputs` value.
- The unused locals `r1`, `r2` and `RotatedRectPoints` (lines 268-271). Only the rotated-rect centre x they read is modelled.
- `Robot.java`, `HatchSubsystem.java`, `HatchTestCommand.java`: hardware actuation, command scheduling and controller input. They are not part of this model.
