/**
 * The star-rating example of the desktop viewer: a rating object holding a
 * star count and a maximum, the slots its painter fills, and the editor
 * widget that turns a mouse position into a star count. Pixel geometry is
 * integer: each star takes a square of `PaintingScaleFactor` pixels.
 */
module StarDelegate {
  import opened Common

  datatype EditMode = Editable | ReadOnly

  /** A `QSize`. */
  datatype Size = Size(width: int, height: int)

  /** What `paint` draws in one slot. */
  datatype Slot = Star | Diamond | Empty

  const PaintingScaleFactor := 20

  /** Python's `a // b`: the quotient rounded towards minus infinity. */
  function FloorDiv(a: int, b: int): (q: int)
    requires b != 0
    ensures b > 0 ==> b * q <= a < b * q + b
    ensures b < 0 ==> b * q + b < a <= b * q
  {
    if b > 0 || a % b == 0 then a / b else a / b - 1
  }

  /** The slot `paint` fills at position i of the loop. */
  function SlotAt(i: int, starCount: int, mode: EditMode): Slot
  {
    if i < starCount then Star else if mode == Editable then Diamond else Empty
  }

  class StarRating {
    var starCount: int
    var maxStarCount: int

    /** `StarRating(starCount, maxStarCount)`. */
    constructor(count: int, max: int)
      ensures StarCount() == count && MaxStarCount() == max
    {
      starCount := count;
      maxStarCount := max;
    }

    /** `StarRating()`: one star out of five. */
    constructor Default()
      ensures StarCount() == 1 && MaxStarCount() == 5
    {
      starCount := 1;
      maxStarCount := 5;
    }

    function StarCount(): int
      reads this
    {
      starCount
    }

    function MaxStarCount(): int
      reads this
    {
      maxStarCount
    }

    method SetStarCount(n: int)
      modifies this
      ensures StarCount() == n && MaxStarCount() == old(MaxStarCount())
    {
      starCount := n;
    }

    method SetMaxStarCount(n: int)
      modifies this
      ensures MaxStarCount() == n && StarCount() == old(StarCount())
    {
      maxStarCount := n;
    }

    /** `sizeHint`: one scaled square per possible star, one square high. */
    function SizeHint(): (s: Size)
      reads this
      ensures s.height == PaintingScaleFactor
      ensures maxStarCount != 0 ==> FloorDiv(s.width, maxStarCount) == PaintingScaleFactor
    {
      Size(PaintingScaleFactor * maxStarCount, PaintingScaleFactor)
    }

    /**
     * The slots `paint` fills, left to right: one per possible star; the
     * first `starCount` hold a star, the others a diamond when editing and
     * nothing otherwise.
     */
    method Paint(mode: EditMode) returns (slots: seq<Slot>)
      ensures |slots| == if maxStarCount > 0 then maxStarCount else 0
      ensures forall i :: 0 <= i < |slots| ==> (slots[i] == Star <==> i < starCount)
      ensures forall i :: 0 <= i < |slots| ==> (slots[i] == Diamond <==> starCount <= i && mode == Editable)
      ensures forall i :: 0 <= i < |slots| ==> (slots[i] == Empty <==> starCount <= i && mode == ReadOnly)
    {
      slots := [];
      var i := 0;
      while i < maxStarCount
        invariant 0 <= i <= (if maxStarCount > 0 then maxStarCount else 0) && |slots| == i
        invariant forall k :: 0 <= k < i ==> slots[k] == SlotAt(k, starCount, mode)
      {
        slots := slots + [SlotAt(i, starCount, mode)];
        i := i + 1;
      }
    }
  }

  /**
   * `_starAtPosition(x)` for a rating whose size hint is `width` wide and
   * which allows `max` stars: the 1-based star under x, -1 when that is
   * not a star, None when a division by zero raises.
   */
  function StarAt(x: int, width: int, max: int): (r: Option<int>)
    ensures r.None? <==> max == 0 || FloorDiv(width, max) == 0
    ensures r.Some? ==> r.value == -1 || 1 <= r.value <= max
  {
    if max == 0 || FloorDiv(width, max) == 0 then None
    else
      var star := FloorDiv(x, FloorDiv(width, max)) + 1;
      if star <= 0 || star > max then Some(-1) else Some(star)
  }

  /** A rating's width divided among its stars gives each star one scaled square. */
  lemma {:induction false} ScaledWidth(max: int)
    requires max != 0
    ensures FloorDiv(PaintingScaleFactor * max, max) == PaintingScaleFactor
  {
    if max > 0 {
      assert (20 * max) / max == 20;
    } else {
      assert (20 * max) % max == 0 && (20 * max) / max == 20;
    }
  }

  /**
   * For a rating's own size hint the hit test is by 20-pixel squares: it
   * raises exactly when the rating allows no star, and otherwise finds
   * star k exactly when x lies in the k-th square, -1 when x lies outside
   * all of them.
   */
  lemma {:induction false} StarAtSquares(x: int, max: int)
    ensures var r := StarAt(x, PaintingScaleFactor * max, max);
      && (r.None? <==> max == 0)
      && (r.Some? ==> (r.value == -1 <==> !(0 <= x < PaintingScaleFactor * max)))
      && (forall k :: 1 <= k <= max && r.Some? ==>
            (r.value == k <==> PaintingScaleFactor * (k - 1) <= x < PaintingScaleFactor * k))
  {
    if max != 0 {
      ScaledWidth(max);
      var q := FloorDiv(x, PaintingScaleFactor);
      assert PaintingScaleFactor * q <= x < PaintingScaleFactor * q + PaintingScaleFactor;
      forall k | 1 <= k <= max
        ensures q + 1 == k <==> PaintingScaleFactor * (k - 1) <= x < PaintingScaleFactor * k
      {
        if PaintingScaleFactor * (k - 1) <= x < PaintingScaleFactor * k {
          assert q < k && q > k - 2;
        }
      }
      if 0 <= x < PaintingScaleFactor * max {
        assert 0 <= q < max;
      } else if x < 0 {
        assert q < 0;
      } else {
        assert q >= max;
      }
    }
  }

  /** The editor widget; it edits the rating object it was handed, not a copy. */
  class StarEditor {
    var rating: StarRating

    /** A new editor starts with a default rating of its own. */
    constructor()
      ensures fresh(rating) && rating.StarCount() == 1 && rating.MaxStarCount() == 5
    {
      rating := new StarRating.Default();
    }

    method SetStarRating(r: StarRating)
      modifies this
      ensures StarRatingOf() == r
    {
      rating := r;
    }

    function StarRatingOf(): StarRating
      reads this
    {
      rating
    }

    /** `_starAtPosition(x)` against the edited rating's size hint and maximum. */
    function StarAtPosition(x: int): (r: Option<int>)
      reads this, rating
      ensures r == StarAt(x, PaintingScaleFactor * rating.maxStarCount, rating.maxStarCount)
    {
      StarAt(x, rating.SizeHint().width, rating.MaxStarCount())
    }

    /**
     * `mouseMoveEvent`: a hit on a star other than the current count sets
     * the count to it; a miss leaves the rating alone; `raised` reports the
     * division by zero of a rating that allows no star.
     */
    method MouseMove(x: int) returns (raised: bool)
      modifies rating
      ensures var hit := old(StarAtPosition(x));
        && raised == hit.None?
        && rating.MaxStarCount() == old(rating.MaxStarCount())
        && rating.StarCount() == if hit.Some? && hit.value != -1 then hit.value else old(rating.StarCount())
    {
      var star := StarAtPosition(x);
      raised := star.None?;
      if star.Some? && star.value != rating.StarCount() && star.value != -1 {
        rating.SetStarCount(star.value);
      }
    }
  }
}
