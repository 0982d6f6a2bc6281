/** `getCenterOffset`: how far the midpoint of a pair lies from a reference column. */
module CenterOffset {
  import opened Geometry

  /**
   * Orders the two contours by `coordsX`, then returns `center` minus the mean
   * of their rotated-rectangle centre x. Any list that is not a pair gives 0.
   */
  function GetCenterOffset(contours: seq<Candidate>, center: int): (offset: real)
    ensures |contours| == 2 ==>
      offset == center as real - (contours[0].rect.centerX + contours[1].rect.centerX) / 2.0
    ensures |contours| != 2 ==> offset == 0.0
  {
    if |contours| == 2 then
      var (c1, c2) :=
        if contours[0].coordsX > contours[1].coordsX then (contours[1], contours[0])
        else (contours[0], contours[1]);
      var avg := (c1.rect.centerX + c2.rect.centerX) / 2.0;
      center as real - avg
    else
      0.0
  }

  /** The left/right swap does not change the result. */
  lemma OffsetIgnoresOrder(a: Candidate, b: Candidate, center: int)
    ensures GetCenterOffset([a, b], center) == GetCenterOffset([b, a], center)
  {
  }

  /** Moves a contour's rotated-rectangle centre right by `d`. */
  function ShiftRight(c: Candidate, d: real): Candidate {
    c.(rect := c.rect.(centerX := c.rect.centerX + d))
  }

  /** Offset is zero exactly when the midpoint sits on the reference column, and moving both contours right by `d` lowers it by `d`. */
  lemma OffsetSignConvention(a: Candidate, b: Candidate, center: int, d: real)
    ensures GetCenterOffset([a, b], center) == 0.0 <==> a.rect.centerX + b.rect.centerX == 2.0 * center as real
    ensures GetCenterOffset([ShiftRight(a, d), ShiftRight(b, d)], center) == GetCenterOffset([a, b], center) - d
  {
  }
}
