/** The start gate: whether a horizontal move claims the gesture. */
module StartGate {
  import opened SwipeTypes

  function Abs(a: real): real {
    if a < 0.0 then -a else a
  }

  /** handleMoveShouldSetPanResponder. The gesture started at screen x
      `moveX - dx`; `windowWidth` is the window width the platform reports.
      The `disable` prop is not consulted. */
  function ShouldStartSwipe(p: Props, dx: real, moveX: real, windowWidth: real): (r: bool)
    // the horizontal travel must exceed the minimum in either direction
    ensures r ==> dx > p.swipeStartMinDistance || dx < -p.swipeStartMinDistance
    // a left edge clearance, when set, rejects every start closer to the left edge
    ensures p.swipeStartMinLeftEdgeClearance != 0.0 && moveX - dx < p.swipeStartMinLeftEdgeClearance ==> !r
    // a right edge clearance, when set, rejects every start closer to the right edge
    ensures p.swipeStartMinRightEdgeClearance != 0.0 && moveX - dx > windowWidth - p.swipeStartMinRightEdgeClearance ==> !r
    // with both clearances off, only the distance counts
    ensures p.swipeStartMinLeftEdgeClearance == 0.0 && p.swipeStartMinRightEdgeClearance == 0.0 ==>
              (r <==> dx > p.swipeStartMinDistance || -dx > p.swipeStartMinDistance)
    // a start that travels far enough and clears every edge clearance that is set is accepted
    ensures ((dx > p.swipeStartMinDistance || -dx > p.swipeStartMinDistance)
             && (p.swipeStartMinLeftEdgeClearance == 0.0 || p.swipeStartMinLeftEdgeClearance <= moveX - dx)
             && (p.swipeStartMinRightEdgeClearance == 0.0
                 || moveX - dx + p.swipeStartMinRightEdgeClearance <= windowWidth)) ==> r
  {
    var gestureStartX := moveX - dx;
    Abs(dx) > p.swipeStartMinDistance
    && (p.swipeStartMinLeftEdgeClearance == 0.0 || gestureStartX >= p.swipeStartMinLeftEdgeClearance)
    && (p.swipeStartMinRightEdgeClearance == 0.0 || gestureStartX <= windowWidth - p.swipeStartMinRightEdgeClearance)
  }

  /** The gate reads the same props whether or not `disable` is set. */
  lemma GateIgnoresDisable(p: Props, dx: real, moveX: real, windowWidth: real)
    ensures ShouldStartSwipe(p.(disable := true), dx, moveX, windowWidth)
         == ShouldStartSwipe(p.(disable := false), dx, moveX, windowWidth)
  {
  }

  /** A start 5 units from the left edge never passes a left clearance of
      20, however far it travels. */
  lemma NearLeftEdgeRejected(dx: real, windowWidth: real)
    ensures !ShouldStartSwipe(DefaultProps.(swipeStartMinLeftEdgeClearance := 20.0), dx, 5.0 + dx, windowWidth)
  {
  }
}
