/**
 * `filterContours`: keeps each contour whose bounding box, area, perimeter,
 * solidity, vertex count and width/height ratio lie within the configured
 * closed ranges, in input order.
 */
module ContourFilter {
  import opened Geometry
  import opened Seqs

  /**
   * The thresholds of `filterContours`, in its parameter order;
   * `solidityLow` and `solidityHigh` are `solidity[0]` and `solidity[1]`.
   * There is no upper bound on area or perimeter.
   */
  datatype FilterConfig = FilterConfig(
    minArea: real,
    minPerimeter: real,
    minWidth: real,
    maxWidth: real,
    minHeight: real,
    maxHeight: real,
    solidityLow: real,
    solidityHigh: real,
    maxVertexCount: real,
    minVertexCount: real,
    minRatio: real,
    maxRatio: real)

  /** Percentage of the convex hull the contour fills. */
  function Solidity(c: Candidate): real
    requires c.hullArea > 0.0
  {
    100.0 * c.area / c.hullArea
  }

  /** Bounding-box width over height. */
  function AspectRatio(c: Candidate): real
    requires c.bbHeight > 0
  {
    c.bbWidth as real / c.bbHeight as real
  }

  /** One pass of the loop: the chain of `continue` checks, in source order. */
  predicate Keeps(cfg: FilterConfig, c: Candidate)
    requires Filterable(c)
  {
    var w, h := c.bbWidth as real, c.bbHeight as real;
    if w < cfg.minWidth || w > cfg.maxWidth then false
    else if h < cfg.minHeight || h > cfg.maxHeight then false
    else if c.area < cfg.minArea then false
    else if c.perimeter < cfg.minPerimeter then false
    else if Solidity(c) < cfg.solidityLow || Solidity(c) > cfg.solidityHigh then false
    else if (c.vertexCount as real) < cfg.minVertexCount || (c.vertexCount as real) > cfg.maxVertexCount then false
    else if AspectRatio(c) < cfg.minRatio || AspectRatio(c) > cfg.maxRatio then false
    else true
  }

  /** The bounds a kept contour meets, all inclusive, stated without division. */
  predicate WithinBounds(cfg: FilterConfig, c: Candidate) {
    var w, h := c.bbWidth as real, c.bbHeight as real;
    && cfg.minWidth <= w <= cfg.maxWidth
    && cfg.minHeight <= h <= cfg.maxHeight
    && c.area >= cfg.minArea
    && c.perimeter >= cfg.minPerimeter
    && cfg.solidityLow * c.hullArea <= 100.0 * c.area <= cfg.solidityHigh * c.hullArea
    && cfg.minVertexCount <= c.vertexCount as real <= cfg.maxVertexCount
    && cfg.minRatio * h <= w <= cfg.maxRatio * h
  }

  /** A contour passes every check exactly when it lies within every bound. */
  lemma KeepsIffWithinBounds(cfg: FilterConfig, c: Candidate)
    requires Filterable(c)
    ensures Keeps(cfg, c) <==> WithinBounds(cfg, c)
  {
    QuotientBounds(100.0 * c.area, c.hullArea, cfg.solidityLow);
    QuotientBounds(100.0 * c.area, c.hullArea, cfg.solidityHigh);
    QuotientBounds(c.bbWidth as real, c.bbHeight as real, cfg.minRatio);
    QuotientBounds(c.bbWidth as real, c.bbHeight as real, cfg.maxRatio);
  }

  /** The loop's test as a total function value. */
  function KeepTest(cfg: FilterConfig): Candidate -> bool {
    c => Filterable(c) && Keeps(cfg, c)
  }

  /** The contours `filterContours` leaves in its output list. */
  function Kept(cfg: FilterConfig, cs: seq<Candidate>): seq<Candidate> {
    Select(KeepTest(cfg), cs)
  }

  /** Every kept contour is an input contour within every bound. */
  lemma KeptWithinBounds(cfg: FilterConfig, cs: seq<Candidate>)
    ensures forall c <- Kept(cfg, cs) :: c in cs && WithinBounds(cfg, c)
  {
    forall c <- Kept(cfg, cs)
      ensures WithinBounds(cfg, c)
    {
      KeepsIffWithinBounds(cfg, c);
    }
  }

  /** Every measurable input contour within every bound is kept. */
  lemma KeptComplete(cfg: FilterConfig, cs: seq<Candidate>)
    ensures forall c <- cs :: Filterable(c) && WithinBounds(cfg, c) ==> c in Kept(cfg, cs)
  {
    forall c <- cs | Filterable(c) && WithinBounds(cfg, c)
      ensures c in Kept(cfg, cs)
    {
      KeepsIffWithinBounds(cfg, c);
      SelectMultiplicity(KeepTest(cfg), cs, c);
    }
  }

  /**
   * The loop of `filterContours`. `stale` is what the output list held before
   * the call; the list is cleared first, so the result does not depend on it.
   */
  method FilterContours(inputContours: seq<Candidate>, cfg: FilterConfig, stale: seq<Candidate>)
    returns (output: seq<Candidate>)
    requires forall c <- inputContours :: Filterable(c)
    ensures output == Kept(cfg, inputContours)
    ensures IsSubsequence(output, inputContours)
    ensures forall c <- output :: WithinBounds(cfg, c)
    ensures forall c <- inputContours :: WithinBounds(cfg, c) ==> c in output
  {
    output := [];
    for i := 0 to |inputContours|
      invariant output == Kept(cfg, inputContours[..i])
    {
      var c := inputContours[i];
      assert inputContours[..i + 1] == inputContours[..i] + [c];
      SelectAppend(KeepTest(cfg), inputContours[..i], [c]);
      if Keeps(cfg, c) {
        output := output + [c];
      }
    }
    assert inputContours[..|inputContours|] == inputContours;
    SelectIsSubsequence(KeepTest(cfg), inputContours);
    KeptWithinBounds(cfg, inputContours);
    KeptComplete(cfg, inputContours);
  }

  /** The output holds each passing contour as often as the input does, and nothing else. */
  lemma KeptMultiplicity(cfg: FilterConfig, cs: seq<Candidate>)
    ensures forall c :: (multiset(Kept(cfg, cs))[c] ==
      if c in cs && Filterable(c) && WithinBounds(cfg, c) then multiset(cs)[c] else 0)
  {
    forall c
      ensures multiset(Kept(cfg, cs))[c] ==
        if c in cs && Filterable(c) && WithinBounds(cfg, c) then multiset(cs)[c] else 0
    {
      SelectMultiplicity(KeepTest(cfg), cs, c);
      if Filterable(c) {
        KeepsIffWithinBounds(cfg, c);
      }
    }
  }

  /** `wide` has every range of `narrow`, or a wider one. */
  predicate Widens(wide: FilterConfig, narrow: FilterConfig) {
    && wide.minArea <= narrow.minArea
    && wide.minPerimeter <= narrow.minPerimeter
    && wide.minWidth <= narrow.minWidth && narrow.maxWidth <= wide.maxWidth
    && wide.minHeight <= narrow.minHeight && narrow.maxHeight <= wide.maxHeight
    && wide.solidityLow <= narrow.solidityLow && narrow.solidityHigh <= wide.solidityHigh
    && wide.minVertexCount <= narrow.minVertexCount && narrow.maxVertexCount <= wide.maxVertexCount
    && wide.minRatio <= narrow.minRatio && narrow.maxRatio <= wide.maxRatio
  }

  /** Widening thresholds never removes a contour: the narrow output is a subsequence of the wide one. */
  lemma KeptMonotone(narrow: FilterConfig, wide: FilterConfig, cs: seq<Candidate>)
    requires Widens(wide, narrow)
    ensures IsSubsequence(Kept(narrow, cs), Kept(wide, cs))
    ensures |Kept(narrow, cs)| <= |Kept(wide, cs)|
    ensures forall c <- Kept(narrow, cs) :: c in Kept(wide, cs)
  {
    forall c | KeepTest(narrow)(c)
      ensures KeepTest(wide)(c)
    {
      KeepsIffWithinBounds(narrow, c);
      KeepsIffWithinBounds(wide, c);
      assert c.hullArea > 0.0 && c.bbHeight > 0;
      assert wide.solidityLow * c.hullArea <= narrow.solidityLow * c.hullArea;
      assert narrow.solidityHigh * c.hullArea <= wide.solidityHigh * c.hullArea;
      assert wide.minRatio * c.bbHeight as real <= narrow.minRatio * c.bbHeight as real;
      assert narrow.maxRatio * c.bbHeight as real <= wide.maxRatio * c.bbHeight as real;
    }
    SelectMonotone(KeepTest(narrow), KeepTest(wide), cs);
    SubsequenceIsSubMultiset(Kept(narrow, cs), Kept(wide, cs));
    forall c <- Kept(narrow, cs)
      ensures c in Kept(wide, cs)
    {
      assert c in multiset(Kept(narrow, cs));
    }
  }
}
