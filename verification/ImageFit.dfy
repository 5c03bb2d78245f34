/** The arithmetic of fitting an image into limits (vstutils/api/validators.py), over the
    rationals instead of floats. */
module ImageFit {
  import opened Common

  datatype Side = Width | Height

  datatype Limit = Limit(min: nat, max: nat)

  /** The limited sides in the order of the dictionary; one or both. */
  datatype Limits = One(side: Side, limit: Limit) | Both(side: Side, limit: Limit, second: Limit)

  /** Dividing by a side of length zero, or scaling to a side that is not a whole number. */
  datatype Error = ZeroDivision | BadSize

  /** What comes out: the size the image is scaled to and the margins around it. */
  datatype Fitted = Fitted(width: int, height: int, left: int, right: int, top: int, bottom: int)
  {
    function Scaled(side: Side): int
    {
      if side.Width? then width else height
    }

    function Margin(side: Side): int
    {
      if side.Width? then left + right else top + bottom
    }

    function Total(side: Side): int
    {
      Scaled(side) + Margin(side)
    }
  }

  function Other(side: Side): Side
  {
    if side.Width? then Height else Width
  }

  /** The limit of a side, if it has one. */
  function LimitOf(limits: Limits, side: Side): Option<Limit>
  {
    match limits
    case One(s, l) => if s == side then Some(l) else None
    case Both(s, l, k) => Some(if s == side then l else k)
  }

  /** Python's round: halves go to the even neighbour. */
  function Round(x: real): (n: int)
    ensures n as real - 0.5 <= x <= n as real + 0.5
    ensures x - n as real == 0.5 || n as real - x == 0.5 ==> n % 2 == 0
  {
    var f := x.Floor;
    var d := x - f as real;
    if d < 0.5 || (d == 0.5 && f % 2 == 0) then f else f + 1
  }

  datatype Size = Size(width: real, height: real)
  {
    function Of(side: Side): real
    {
      if side.Width? then width else height
    }

    function Times(ratio: real): Size
    {
      Size(width * ratio, height * ratio)
    }
  }

  /** Proportionally, the first limited side to its maximum. */
  function ToFirst(size: Size, limits: Limits): Size
    requires size.width > 0.0 && size.height > 0.0
  {
    size.Times(limits.limit.max as real / size.Of(limits.side))
  }

  /** The proportional scaling before rounding: the first limited side at its maximum, and less
      when the other limited side would exceed its own. */
  function Best(size: Size, limits: Limits): Size
    requires size.width > 0.0 && size.height > 0.0 && Divides(limits)
  {
    var best := ToFirst(size, limits);
    FirstReachesItsLimit(size, limits);
    if limits.One? then best else
    var ratio := limits.second.max as real / best.Of(Other(limits.side));
    if ratio <= 1.0 then best.Times(ratio) else best
  }

  lemma FirstReachesItsLimit(size: Size, limits: Limits)
    requires size.width > 0.0 && size.height > 0.0
    ensures ToFirst(size, limits).Of(limits.side) == limits.limit.max as real
    ensures limits.limit.max > 0 ==> ToFirst(size, limits).Of(Other(limits.side)) > 0.0
  {
    var x, y, m := size.Of(limits.side), size.Of(Other(limits.side)), limits.limit.max as real;
    DivideBack(x, m);
    if limits.limit.max > 0 { Positive(y, m / x); }
  }

  lemma Shrink(a: real, b: real, m: real)
    requires a >= 0.0 && b > 0.0 && m >= 0.0
    ensures m / b <= 1.0 ==> b * (m / b) == m && a * (m / b) <= a
    ensures m / b > 1.0 ==> b <= m
  {
    DivideBack(b, m);
    if m / b <= 1.0 { ShrinkIsSmaller(a, m / b); } else { Bigger(b, m / b, m); }
  }

  predicate Divides(limits: Limits)
  {
    limits.Both? ==> limits.limit.max > 0
  }

  predicate Consistent(limits: Limits)
  {
    forall side: Side :: LimitOf(limits, side).Some? ==>
      LimitOf(limits, side).value.min <= LimitOf(limits, side).value.max
  }

  lemma DivideBack(x: real, y: real)
    requires x > 0.0
    ensures x * (y / x) == y
  {
  }

  lemma ShrinkIsSmaller(x: real, ratio: real)
    requires x >= 0.0 && 0.0 <= ratio <= 1.0
    ensures x * ratio <= x
  {
  }

  lemma BestOfBoth(size: Size, limits: Limits)
    requires size.width > 0.0 && size.height > 0.0 && Divides(limits) && limits.Both?
    ensures var best := Best(size, limits);
            var s, o := limits.side, Other(limits.side);
            && best.Of(s) <= limits.limit.max as real && best.Of(o) <= limits.second.max as real
            && (best.Of(s) == limits.limit.max as real || best.Of(o) == limits.second.max as real)
  {
    FirstReachesItsLimit(size, limits);
    var first := ToFirst(size, limits);
    var a, b, m := first.Of(limits.side), first.Of(Other(limits.side)), limits.second.max as real;
    Shrink(a, b, m);
    if m / b <= 1.0 {
      assert Best(size, limits).Of(limits.side) == a * (m / b);
      assert Best(size, limits).Of(Other(limits.side)) == b * (m / b);
    }
  }

  /** Before rounding no limited side exceeds its maximum, and one reaches it. */
  lemma BestReachesALimit(size: Size, limits: Limits)
    requires size.width > 0.0 && size.height > 0.0 && Divides(limits)
    ensures forall side: Side :: LimitOf(limits, side).Some? ==>
              Best(size, limits).Of(side) <= LimitOf(limits, side).value.max as real
    ensures exists side: Side :: LimitOf(limits, side).Some? &&
              Best(size, limits).Of(side) == LimitOf(limits, side).value.max as real
  {
    assert LimitOf(limits, limits.side) == Some(limits.limit);
    if limits.One? {
      FirstReachesItsLimit(size, limits);
    } else {
      assert LimitOf(limits, Other(limits.side)) == Some(limits.second);
      BestOfBoth(size, limits);
    }
  }

  /** The one factor both sides are scaled by. */
  ghost function Factor(size: Size, limits: Limits): (k: real)
    requires size.width > 0.0 && size.height > 0.0 && Divides(limits)
    ensures Best(size, limits) == size.Times(k)
  {
    var k := limits.limit.max as real / size.Of(limits.side);
    FirstReachesItsLimit(size, limits);
    if limits.One? then k else
    var ratio := limits.second.max as real / ToFirst(size, limits).Of(Other(limits.side));
    if ratio <= 1.0 then k * ratio else k
  }

  /** The scaling is proportional, and no larger proportional scaling stays within the maxima. */
  lemma BestIsTheLargestScaling(size: Size, limits: Limits, factor: real)
    requires size.width > 0.0 && size.height > 0.0 && Divides(limits)
    ensures Best(size, limits) == size.Times(Factor(size, limits))
    ensures factor <= Factor(size, limits) <==>
            forall side: Side :: LimitOf(limits, side).Some? ==>
              size.Times(factor).Of(side) <= LimitOf(limits, side).value.max as real
  {
    BestReachesALimit(size, limits);
    ReachedScalingIsLargest(size, Best(size, limits), Factor(size, limits), limits, factor);
  }

  lemma ReachedScalingIsLargest(size: Size, b: Size, k: real, limits: Limits, factor: real)
    requires size.width > 0.0 && size.height > 0.0 && b == size.Times(k)
    requires forall side: Side :: LimitOf(limits, side).Some? ==> b.Of(side) <= LimitOf(limits, side).value.max as real
    requires exists side: Side :: LimitOf(limits, side).Some? && b.Of(side) == LimitOf(limits, side).value.max as real
    ensures factor <= k <==>
            forall side: Side :: LimitOf(limits, side).Some? ==>
              size.Times(factor).Of(side) <= LimitOf(limits, side).value.max as real
  {
    Monotone(size.width, factor, k);
    Monotone(size.height, factor, k);
    LargestWhenReached(size.Times(factor), b, limits, factor <= k);
  }

  lemma LargestWhenReached(a: Size, b: Size, limits: Limits, smaller: bool)
    requires smaller <==> a.width <= b.width
    requires smaller <==> a.height <= b.height
    requires forall side: Side :: LimitOf(limits, side).Some? ==> b.Of(side) <= LimitOf(limits, side).value.max as real
    requires exists side: Side :: LimitOf(limits, side).Some? && b.Of(side) == LimitOf(limits, side).value.max as real
    ensures smaller <==>
            forall side: Side :: LimitOf(limits, side).Some? ==> a.Of(side) <= LimitOf(limits, side).value.max as real
  {
  }

  lemma Monotone(x: real, a: real, b: real)
    requires x > 0.0
    ensures a <= b <==> x * a <= x * b
  {
    if a > b { Positive(x, a - b); }
  }

  lemma Positive(x: real, y: real)
    requires x > 0.0 && y > 0.0
    ensures x * y > 0.0
  {
  }

  lemma Bigger(x: real, ratio: real, y: real)
    requires x > 0.0 && ratio > 1.0 && x * ratio == y
    ensures x <= y
  {
  }

  lemma RoundKeepsBound(x: real, m: int)
    requires x <= m as real
    ensures Round(x) <= m
    ensures x == m as real ==> Round(x) == m
  {
  }

  /** int(n / 2), which cuts towards zero. */
  function Half(n: int): int
  {
    if n >= 0 then n / 2 else -(-n / 2)
  }

  predicate Broken(limits: Limits, side: Side, size: int)
  {
    var l := LimitOf(limits, side);
    l.Some? && !(l.value.min <= size <= l.value.max)
  }

  /** The first limited side, in the order of the dictionary, that breaks its limit. */
  function FindBrokenOrientation(width: int, height: int, limits: Limits): (r: Option<Side>)
    ensures r.Some? ==> Broken(limits, r.value, if r.value.Width? then width else height)
    ensures r.None? ==> !Broken(limits, Width, width) && !Broken(limits, Height, height)
  {
    var s := limits.side;
    if Broken(limits, s, if s.Width? then width else height) then Some(s)
    else if Broken(limits, Other(s), if s.Width? then height else width) then Some(Other(s))
    else None
  }

  method ResizeImageFromTo(width: nat, height: nat, limits: Limits) returns (r: Result<Fitted, Error>)
    requires width > 0 && height > 0
    ensures !Divides(limits) <==> r == Err(ZeroDivision)
    ensures Divides(limits) ==>
              var best := Best(Size(width as real, height as real), limits);
              && (r.Err? <==> Round(best.width) == 0 || Round(best.height) == 0)
              && (r.Ok? ==> r.value.width == Round(best.width) && r.value.height == Round(best.height))
    ensures r.Ok? && Consistent(limits) ==> IsPadding(limits, r.value)
    ensures r.Ok? ==> PadsFirstBroken(limits, r.value)
  {
    if !Divides(limits) {
      return Err(ZeroDivision);
    }
    var size := Size(width as real, height as real);
    var best := size.Times(limits.limit.max as real / size.Of(limits.side));
    FirstReachesItsLimit(size, limits);
    if limits.Both? {
      var ratio := limits.second.max as real / best.Of(Other(limits.side));
      if ratio <= 1.0 {
        best := best.Times(ratio);
      }
    }
    assert best == Best(size, limits);
    var w, h := Round(best.width), Round(best.height);
    if w == 0 || h == 0 {
      return Err(BadSize);
    }
    BestReachesALimit(size, limits);
    RoundedFits(best, limits);
    r := Ok(Padded(w, h, limits));
  }

  /** The margins added to the side that breaks its limit, if any. */
  function Padded(w: int, h: int, limits: Limits): (r: Fitted)
    ensures r.width == w && r.height == h
    ensures Fits(limits, w, h) ==> IsPadding(limits, r)
    ensures PadsFirstBroken(limits, r)
  {
    var broken := FindBrokenOrientation(w, h, limits);
    if broken.None? then Fitted(w, h, 0, 0, 0, 0) else
    var side := broken.value;
    var margin := LimitOf(limits, side).value.min - (if side.Width? then w else h);
    var part := Half(margin);
    if side.Width? then Fitted(w, h, part, margin - part, 0, 0) else Fitted(w, h, 0, 0, part, margin - part)
  }

  /** Consistent or not, the first limited side that breaks its limit gets its minimum, and there are
      no other margins. */
  predicate PadsFirstBroken(limits: Limits, r: Fitted)
  {
    var s, o := limits.side, Other(limits.side);
    if Broken(limits, s, r.Scaled(s)) then r.Total(s) == limits.limit.min && r.Margin(o) == 0
    else if Broken(limits, o, r.Scaled(o)) then r.Total(o) == limits.second.min && r.Margin(s) == 0
    else r.left == r.right == r.top == r.bottom == 0
  }

  /** No limited side is too long, and one is within its limits. */
  ghost predicate Fits(limits: Limits, w: int, h: int)
  {
    && (LimitOf(limits, Width).Some? ==> w <= LimitOf(limits, Width).value.max)
    && (LimitOf(limits, Height).Some? ==> h <= LimitOf(limits, Height).value.max)
    && (!Broken(limits, Width, w) || !Broken(limits, Height, h))
    && Consistent(limits)
  }

  /** Every limit is met, at most one side is padded and only up to its minimum, and the two
      margins of a side differ by at most one. */
  predicate IsPadding(limits: Limits, r: Fitted)
  {
    && (forall side: Side :: LimitOf(limits, side).Some? ==>
          LimitOf(limits, side).value.min <= r.Total(side) <= LimitOf(limits, side).value.max)
    && (r.Margin(Width) == 0 || r.Margin(Height) == 0)
    && (forall side: Side :: r.Margin(side) > 0 ==>
          LimitOf(limits, side).Some? && r.Total(side) == LimitOf(limits, side).value.min)
    && 0 <= r.left <= r.right <= r.left + 1
    && 0 <= r.top <= r.bottom <= r.top + 1
  }

  /** After rounding, at most one side breaks its limit, and by being too small. */
  lemma RoundedFits(best: Size, limits: Limits)
    requires forall side: Side :: LimitOf(limits, side).Some? ==>
               best.Of(side) <= LimitOf(limits, side).value.max as real
    requires exists side: Side ::
               LimitOf(limits, side).Some? && best.Of(side) == LimitOf(limits, side).value.max as real
    ensures Consistent(limits) ==> Fits(limits, Round(best.width), Round(best.height))
  {
    assert best.Of(Width) == best.width && best.Of(Height) == best.height;
    if LimitOf(limits, Width).Some? { RoundKeepsBound(best.width, LimitOf(limits, Width).value.max); }
    if LimitOf(limits, Height).Some? { RoundKeepsBound(best.height, LimitOf(limits, Height).value.max); }
  }
}
