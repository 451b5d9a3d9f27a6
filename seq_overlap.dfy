/**
 * The five-way classification of how a transformed strip's frame interval
 * lies over a target strip's interval (`overlap_description_get`).
 */
module SeqOverlap {
  import opened SeqModel

  datatype OverlapKind =
    | OverlapNone   // no overlap
    | IsFull        // transformed covers the target completely
    | IsInside      // transformed lies strictly inside the target
    | LeftSide      // transformed covers the target's left end
    | RightSide     // transformed covers the target's right end

  /** A strip whose displayed end is not before its displayed start. */
  predicate WellFormed(s: Strip) { s.StartDisp() <= s.EndDisp() }

  /**
   * Tests FULL, then INSIDE, then LEFT, then RIGHT, on closed intervals
   * [startdisp, enddisp]. The ensures clauses state, for each outcome, the
   * exact interval relation that produces it.
   */
  function OverlapDescription(transformed: Strip, target: Strip): (r: OverlapKind)
    ensures r == IsFull <==>
      transformed.StartDisp() <= target.StartDisp() && target.EndDisp() <= transformed.EndDisp()
    ensures r == IsInside <==>
      target.StartDisp() < transformed.StartDisp() && transformed.EndDisp() < target.EndDisp()
    ensures r == LeftSide <==>
      transformed.StartDisp() <= target.StartDisp() <= transformed.EndDisp() < target.EndDisp()
    ensures WellFormed(target) ==> (r == RightSide <==>
      target.StartDisp() < transformed.StartDisp() <= target.EndDisp() <= transformed.EndDisp())
  {
    var ts, te := transformed.StartDisp(), transformed.EndDisp();
    var gs, ge := target.StartDisp(), target.EndDisp();
    if ts <= gs && te >= ge then IsFull
    else if ts > gs && te < ge then IsInside
    else if ts <= gs && gs <= te then LeftSide
    else if ts <= ge && ge <= te then RightSide
    else OverlapNone
  }

  /** The closed intervals of the two strips share no frame. */
  predicate Disjoint(a: Strip, b: Strip)
  {
    a.EndDisp() < b.StartDisp() || b.EndDisp() < a.StartDisp()
  }

  /**
   * For well-formed strips the classification says "none" exactly when the
   * intervals are disjoint.
   */
  lemma NoneIffDisjoint(transformed: Strip, target: Strip)
    requires WellFormed(transformed) && WellFormed(target)
    ensures OverlapDescription(transformed, target) == OverlapNone <==> Disjoint(transformed, target)
  {
  }
}
