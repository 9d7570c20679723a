/**
 * Inferring a line's logical depth from the width of its leading whitespace:
 * a floor match onto the ladder, searched over the depths 0 .. MaxScan - 1.
 */
module DepthInference {
  import opened Ladder

  /** The scan tries the depths d = 0, 1, ..., MaxScan - 1. */
  const MaxScan: nat := 100

  /** Depth `depth` is the floor match of `width`: its rung is the widest one not exceeding `width`. */
  predicate IsFloorDepth(width: nat, depth: nat)
  {
    Spaces(depth) <= width < Spaces(depth + 1)
  }

  /** The floor match of `width`, searched upwards from a depth whose rung does not exceed it. */
  function FloorDepthFrom(width: nat, depth: nat): (r: nat)
    requires Spaces(depth) <= width
    ensures depth <= r && IsFloorDepth(width, r)
    decreases width - Spaces(depth)
  {
    SpacesStep(depth);
    if width < Spaces(depth + 1) then depth else FloorDepthFrom(width, depth + 1)
  }

  /** The unbounded floor match: the depth of the widest rung not exceeding `width`. */
  function FloorDepth(width: nat): (r: nat)
    ensures IsFloorDepth(width, r)
    ensures 2 * r <= width
  {
    FloorDepthFrom(width, 0)
  }

  /** There is exactly one floor match: `FloorDepth(width)` is `d` if and only if `d` matches. */
  lemma FloorDepthUnique(width: nat, d: nat)
    ensures FloorDepth(width) == d <==> IsFloorDepth(width, d)
  {
    var r := FloorDepth(width);
    if IsFloorDepth(width, d) && r != d {
      if r < d {
        SpacesOrder(r + 1, d);
      } else {
        SpacesOrder(d + 1, r);
      }
    }
  }

  /**
   * Some depth the scan tries has a rung wider than `width`; equivalently the floor
   * match lies below MaxScan - 1 (see `WithinScanMeans`).
   */
  predicate WithinScan(width: nat)
  {
    FloorDepth(width) <= MaxScan - 2
  }

  /** `WithinScan` holds exactly when one of the scanned depths has a rung wider than the width. */
  lemma WithinScanMeans(width: nat)
    ensures WithinScan(width) <==> exists d :: 0 <= d < MaxScan && width < Spaces(d)
  {
    var r := FloorDepth(width);
    if d :| 0 <= d < MaxScan && width < Spaces(d) {
      SpacesOrder(d, r);
    }
  }

  /** Equivalently, `WithinScan` holds exactly for the widths below the last scanned rung. */
  lemma WithinScanBelowLastRung(width: nat)
    ensures WithinScan(width) <==> width < Spaces(MaxScan - 1)
  {
    FloorBelowRung(width, MaxScan - 1);
  }

  /** The floor match lies below depth `m` exactly when the width lies below rung `m`. */
  lemma FloorBelowRung(width: nat, m: nat)
    ensures FloorDepth(width) < m <==> width < Spaces(m)
  {
    var r := FloorDepth(width);
    SpacesOrder(r, m);
    SpacesOrder(r + 1, m);
  }

  /**
   * What the bounded scan yields: the floor match when some scanned depth has a rung
   * wider than `width`, and otherwise the initial depth 0.
   */
  function InferredDepth(width: nat): (depth: nat)
    ensures depth <= MaxScan - 2
  {
    if WithinScan(width) then FloorDepth(width) else 0
  }

  /** The first scanned rung wider than `width` sits just above its floor match. */
  lemma FirstWiderRung(width: nat, d: nat)
    requires d < MaxScan && width < Spaces(d)
    requires forall k :: 0 <= k < d ==> Spaces(k) <= width
    ensures d >= 1 && IsFloorDepth(width, d - 1) && InferredDepth(width) == d - 1
  {
    assert Spaces(0) <= width;
    FloorDepthUnique(width, d - 1);
  }

  /**
   * The depth scan of `applyIndentation`: for d = 0 .. MaxScan - 1, the first d whose rung exceeds
   * `width` gives depth d - 1 (clamped at 0) and ends the scan; if none does, the depth
   * keeps its initial value 0.
   */
  method InferDepth(width: nat) returns (depth: nat)
    ensures depth == InferredDepth(width)
    ensures WithinScan(width) ==> IsFloorDepth(width, depth)
    ensures !WithinScan(width) ==> depth == 0
  {
    depth := 0;
    for d := 0 to MaxScan
      invariant depth == 0
      invariant forall k :: 0 <= k < d ==> Spaces(k) <= width
    {
      var w := GetSpacesForDepth(d);
      if w > width {
        var candidate: int := d - 1;
        if candidate < 0 {
          candidate := 0;
        }
        depth := candidate;
        FirstWiderRung(width, d);
        break;
      }
    }
  }

  /** Inference is a left inverse of the ladder up to depth MaxScan - 2; from depth MaxScan - 1 on it yields 0. */
  lemma InferRoundTrip(d: nat)
    ensures InferredDepth(Spaces(d)) == if d <= MaxScan - 2 then d else 0
  {
    SpacesStep(d);
    FloorDepthUnique(Spaces(d), d);
  }

  /** Within the scan, a width between two rungs infers the lower depth, and only that depth. */
  lemma InferBetween(width: nat, d: nat)
    requires WithinScan(width)
    ensures InferredDepth(width) == d <==> IsFloorDepth(width, d)
  {
    FloorDepthUnique(width, d);
  }

  /** A floor match at a depth the scan can report is what the scan reports. */
  lemma InferFromFloor(width: nat, d: nat)
    requires d <= MaxScan - 2 && IsFloorDepth(width, d)
    ensures InferredDepth(width) == d
  {
    FloorDepthUnique(width, d);
  }

  /** A width narrower than the first rung (fewer than 2 columns) infers depth 0. */
  lemma InferBelowFirstRung(width: nat)
    requires width < Spaces(1)
    ensures InferredDepth(width) == 0
  {
  }

  /** Within the scan, a wider run never infers a shallower depth. */
  lemma InferMonotone(v: nat, w: nat)
    requires v <= w && WithinScan(w)
    ensures InferredDepth(v) <= InferredDepth(w)
  {
    var a, b := FloorDepth(v), FloorDepth(w);
    if b < a {
      SpacesOrder(b + 1, a);
    }
  }
}
