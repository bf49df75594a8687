/** The edge adjuster `adjust_xy`: brings an integer grid pair back onto the
    diamond |x - y| <= 3^(level+2) of valid cells, picking one canonical
    representative for the cells on the antimeridian seam. */
module Edge {
  import opened Ternary

  /** The OpenStruct `adjust_xy` returns; `rev` is 1 exactly when the seam
      swap happened (no caller reads it). */
  datatype Adjusted = Adjusted(x: int, y: int, rev: int)

  function Abs(v: int): nat
  {
    if v < 0 then -v else v
  }

  /** Half-width of the valid diamond at a level: `max_hsteps`. */
  function MaxSteps(level: nat): nat
  {
    Pow3(level + 2)
  }

  /** A pair inside the valid diamond. */
  predicate InDiamond(x: int, y: int, level: nat)
  {
    Abs(x - y) <= MaxSteps(level)
  }

  /** The canonical form of an in-diamond pair: on the seam the smaller
      coordinate comes first. */
  predicate Canonical(x: int, y: int, level: nat)
  {
    Abs(x - y) < MaxSteps(level) || (Abs(x - y) == MaxSteps(level) && x < y)
  }

  function AdjustXY(x: int, y: int, level: nat): (r: Adjusted)
    ensures r.x + r.y == x + y
    ensures r.rev == 1 <==> Abs(x - y) == MaxSteps(level) && x > y
  {
    var maxSteps := MaxSteps(level);
    var steps := Abs(x - y);
    if steps == maxSteps && x > y then
      Adjusted(y, x, 1)
    else if steps > maxSteps then
      var dif := steps - maxSteps;
      var difX := dif / 2;
      var difY := dif - difX;
      if x > y then
        // edge := (x - difX, y + difY), swapped, then moved back by (difX, -difY)
        var edgeX := y + difY;
        var edgeY := x - difX;
        Adjusted(edgeX + difX, edgeY - difY, 0)
      else
        // here y > x, since steps > 0
        var edgeX := y - difY;
        var edgeY := x + difX;
        Adjusted(edgeX - difX, edgeY + difY, 0)
    else
      Adjusted(x, y, 0)
  }

  /** Canonical pairs, and only they, come back unchanged. */
  lemma AdjustFixesExactlyCanonical(x: int, y: int, level: nat)
    ensures AdjustXY(x, y, level) == Adjusted(x, y, 0) <==> Canonical(x, y, level)
  {
  }

  /** On the seam with x > y the two coordinates trade places. */
  lemma AdjustSeamSwap(x: int, y: int, level: nat)
    requires Abs(x - y) == MaxSteps(level) && x > y
    ensures AdjustXY(x, y, level) == Adjusted(y, x, 1)
    ensures Canonical(y, x, level)
  {
  }

  /** Outside the diamond the pair is folded back by twice the half-width
      along the line x + y = const. */
  lemma AdjustFold(x: int, y: int, level: nat)
    requires Abs(x - y) > MaxSteps(level)
    ensures var d := Abs(x - y) - MaxSteps(level);
            AdjustXY(x, y, level) ==
              if x > y then Adjusted(y + d, x - d, 0) else Adjusted(y - d, x + d, 0)
    ensures var r := AdjustXY(x, y, level);
            r.x - r.y == if x > y then (x - y) - 2 * MaxSteps(level) else (x - y) + 2 * MaxSteps(level)
  {
  }

  /** Up to three half-widths out, one fold lands on a canonical pair, so a
      second adjustment changes nothing. */
  lemma AdjustIdempotent(x: int, y: int, level: nat)
    requires Abs(x - y) < 3 * MaxSteps(level)
    ensures var r := AdjustXY(x, y, level);
            Canonical(r.x, r.y, level) && AdjustXY(r.x, r.y, level) == Adjusted(r.x, r.y, 0)
  {
    var r := AdjustXY(x, y, level);
    if Abs(x - y) > MaxSteps(level) {
      AdjustFold(x, y, level);
    }
    AdjustFixesExactlyCanonical(r.x, r.y, level);
  }

  /** Pairs whose coordinates each fit level + 3 balanced-ternary digits
      are at most 3^(level+3) - 1 apart, so one call lands them on a
      canonical pair. */
  lemma AdjustLandsCanonical(x: int, y: int, level: nat)
    requires -Bound(level + 3) <= x <= Bound(level + 3) && -Bound(level + 3) <= y <= Bound(level + 3)
    ensures var r := AdjustXY(x, y, level); Canonical(r.x, r.y, level)
  {
    BoundStep(level + 3);
    assert Pow3(level + 3) == 3 * MaxSteps(level);
    AdjustIdempotent(x, y, level);
  }

  /** Further out one fold is not enough: (27, 0) at level 0 folds onto the
      seam pair (18, 9), which a second call swaps again. */
  lemma AdjustNotIdempotentFarOut()
    ensures AdjustXY(27, 0, 0) == Adjusted(18, 9, 0)
    ensures AdjustXY(18, 9, 0) == Adjusted(9, 18, 1)
  {
    assert MaxSteps(0) == 9;
  }

  /** A canonical pair moved by (+M, -M), M the half-width, is folded back
      onto itself. This is what lets the decoder's first-digit remap
      (base-9 digit 5 to 7, 1 to 3) go unnoticed on pairs the encoder did not
      correct. */
  lemma AdjustUndoesHalfTurn(x: int, y: int, level: nat)
    requires Canonical(x, y, level)
    ensures var r := AdjustXY(x + MaxSteps(level), y - MaxSteps(level), level); r.x == x && r.y == y
  {
  }
}
