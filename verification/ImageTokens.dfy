/** What an image costs in prompt tokens (countImageTokens, relay/adaptor/openai/token.go). */
module ImageTokens {
  import opened Options
  import Billing

  const LOW_DETAIL_COST := 85
  const HIGH_DETAIL_COST_PER_TILE := 170
  const ADDITIONAL_COST := 85
  const MINI_LOW_DETAIL_COST := 2833
  const MINI_HIGH_DETAIL_COST_PER_TILE := 5667
  const MINI_ADDITIONAL_COST := 2833

  datatype Size = Size(width: nat, height: nat)

  function Max(s: Size): nat { if s.width >= s.height then s.width else s.height }
  function Min(s: Size): nat { if s.width >= s.height then s.height else s.width }

  /** int(float64(side) * ratio) with ratio = target / base, for sides that are not negative. */
  function Scale(side: nat, target: nat, base: nat): (r: nat)
    requires base > 0
  {
    var ratio := target as real / base as real;
    assert ratio >= 0.0 && side as real * ratio >= 0.0;
    (side as real * ratio).Floor
  }

  function Fit(s: Size): Size {
    if s.width > 2048 || s.height > 2048
    then Size(Scale(s.width, 2048, Max(s)), Scale(s.height, 2048, Max(s)))
    else s
  }

  function Shrink(s: Size): Size {
    if s.width > 768 && s.height > 768
    then Size(Scale(s.width, 768, Min(s)), Scale(s.height, 768, Min(s)))
    else s
  }

  function Tiles(s: Size): int {
    Billing.Ceil(s.width as real / 512.0) * Billing.Ceil(s.height as real / 512.0)
  }

  lemma ScaleIs(side: nat, target: nat, base: nat)
    requires base > 0
    ensures Scale(side, target, base) == side * target / base
  {
    var x := side as real * (target as real / base as real);
    var q := side * target / base;
    assert q * base <= side * target < q * base + base;
    assert x * base as real == (side * target) as real by {
      assert (target as real / base as real) * base as real == target as real;
    }
    assert (q as real) * base as real <= x * base as real < (q + 1) as real * base as real;
  }

  /** The side that sets the ratio lands on the target, no side grows, and the longer stays the longer. */
  lemma ScaleBounds(side: nat, target: nat, base: nat)
    requires 0 < target < base
    ensures Scale(base, target, base) == target
    ensures Scale(side, target, base) <= side
    ensures side <= base ==> Scale(side, target, base) <= target
    ensures side >= base ==> Scale(side, target, base) >= target
    ensures Scale(side, target, base) == 0 <==> side * target < base
  {
    ScaleIs(side, target, base);
    ScaleIs(base, target, base);
    Quotient(side * target, base);
    Quotient(base * target, base);
    var q := Scale(side, target, base);
    Below(q, side, target, base);
    Above(q, side, target, base);
    Above(Scale(base, target, base), base, target, base);
    Below(Scale(base, target, base), base, target, base);
  }

  lemma Quotient(n: nat, base: nat)
    requires base > 0
    ensures n / base * base <= n < n / base * base + base
  {
  }

  lemma Below(q: nat, side: nat, target: nat, base: nat)
    requires 0 < target < base && q * base <= side * target
    ensures q <= side
    ensures side <= base ==> q <= target
    ensures side * target < base ==> q == 0
  {
    assert (side + 1) * base == side * base + base && (target + 1) * base == target * base + base;
    if q > side {
      Times(side + 1, q, base);
      Times(target, base, side);
    }
    if side <= base && q > target {
      Times(target + 1, q, base);
      Times(side, base, target);
    }
    if q > 0 { Times(1, q, base); }
  }

  lemma Times(a: nat, b: nat, c: nat)
    requires a <= b
    ensures a * c <= b * c
  {
  }

  lemma Above(q: nat, side: nat, target: nat, base: nat)
    requires 0 < target < base && side * target < q * base + base
    ensures side >= base ==> q >= target
    ensures side * target >= base ==> q > 0
  {
    assert (q + 1) * base == q * base + base;
    if side >= base && q < target {
      Times(q + 1, target, base);
      Times(base, side, target);
    }
  }

  function Rescaled(s: Size): Size { Shrink(Fit(s)) }

  /** Both limits hold after the two truncating stages, and sizes within both are left alone. */
  lemma RescaledBounds(s: Size)
    ensures Max(Rescaled(s)) <= 2048 && Min(Rescaled(s)) <= 768
    ensures Rescaled(s).width <= s.width && Rescaled(s).height <= s.height
    ensures s.width <= s.height ==> Rescaled(s).width <= Rescaled(s).height
    ensures s.height <= s.width ==> Rescaled(s).height <= Rescaled(s).width
    ensures Rescaled(s) == s <==> Max(s) <= 2048 && Min(s) <= 768
  {
    var fit := Fit(s);
    if s != fit {
      ScaleBounds(s.width, 2048, Max(s));
      ScaleBounds(s.height, 2048, Max(s));
    }
    if fit != Rescaled(s) {
      ScaleBounds(fit.width, 768, Min(fit));
      ScaleBounds(fit.height, 768, Min(fit));
    }
  }

  lemma RescalingIsIdempotent(s: Size)
    ensures Rescaled(Rescaled(s)) == Rescaled(s)
  {
    RescaledBounds(s);
    RescaledBounds(Rescaled(s));
  }

  lemma CeilTiles(side: nat)
    ensures Billing.Ceil(side as real / 512.0) == (side + 511) / 512
  {
    var n := Billing.Ceil(side as real / 512.0);
    assert side as real <= n as real * 512.0 < side as real + 512.0;
  }

  /** At most eight tiles for any image. */
  lemma TileBound(s: Size)
    ensures 0 <= Tiles(Rescaled(s)) <= 8
  {
    RescaledBounds(s);
    FewTiles(Rescaled(s));
  }

  lemma FewTiles(r: Size)
    requires Max(r) <= 2048 && Min(r) <= 768
    ensures 0 <= Tiles(r) <= 8
  {
    CeilTiles(r.width);
    CeilTiles(r.height);
    AtMostEight(Billing.Ceil(r.width as real / 512.0), Billing.Ceil(r.height as real / 512.0));
  }

  lemma AtMostEight(w: nat, h: nat)
    requires w <= 4 && h <= 4 && (w <= 2 || h <= 2)
    ensures 0 <= w * h <= 8
  {
    if w <= 2 { Times(w, 2, h); } else { Times(h, 2, w); }
    Times(0, w, h);
  }

  /** An image costs no tile exactly when it is empty or more than 2048 times as long as it is wide. */
  lemma NoTilesIff(s: Size)
    ensures Tiles(Rescaled(s)) == 0 <==> Min(s) == 0 || Max(s) > 2048 * Min(s)
  {
    RescaledBounds(s);
    var r := Rescaled(s);
    CeilTiles(r.width);
    CeilTiles(r.height);
    NoProduct((r.width + 511) / 512, (r.height + 511) / 512);
    EmptyAfterFit(s);
    EmptyAfterShrink(Fit(s));
  }

  lemma NoProduct(w: nat, h: nat)
    ensures w * h == 0 <==> w == 0 || h == 0
  {
  }

  lemma EmptyAfterFit(s: Size)
    ensures Min(Fit(s)) == 0 <==> Min(s) == 0 || Max(s) > 2048 * Min(s)
  {
    if s != Fit(s) {
      ScaleBounds(s.width, 2048, Max(s));
      ScaleBounds(s.height, 2048, Max(s));
    }
  }

  lemma EmptyAfterShrink(s: Size)
    ensures Min(Shrink(s)) == 0 <==> Min(s) == 0
  {
    if s != Shrink(s) {
      ScaleBounds(s.width, 768, Min(s));
      ScaleBounds(s.height, 768, Min(s));
    }
  }

  function Cost(s: Size, mini: bool): int {
    if mini then Tiles(Rescaled(s)) * MINI_HIGH_DETAIL_COST_PER_TILE + MINI_ADDITIONAL_COST
    else Tiles(Rescaled(s)) * HIGH_DETAIL_COST_PER_TILE + ADDITIONAL_COST
  }

  /** The two stages, the tiles and the costs in whole numbers. */
  lemma RescaledIs(s: Size)
    ensures Max(s) <= 2048 ==> Fit(s) == s
    ensures Max(s) > 2048 ==> Fit(s) == Size(s.width * 2048 / Max(s), s.height * 2048 / Max(s))
    ensures Min(s) <= 768 ==> Shrink(s) == s
    ensures Min(s) > 768 ==> Shrink(s) == Size(s.width * 768 / Min(s), s.height * 768 / Min(s))
    ensures Rescaled(s) == Shrink(Fit(s))
    ensures Max(s) == if s.width > s.height then s.width else s.height
    ensures Min(s) == if s.width < s.height then s.width else s.height
  {
    if Max(s) > 2048 {
      ScaleIs(s.width, 2048, Max(s));
      ScaleIs(s.height, 2048, Max(s));
    }
    if Min(s) > 768 {
      ScaleIs(s.width, 768, Min(s));
      ScaleIs(s.height, 768, Min(s));
    }
  }

  lemma CostIs(s: Size, mini: bool)
    ensures var r := Rescaled(s);
      var tiles := ((r.width + 511) / 512) * ((r.height + 511) / 512);
      Cost(s, mini) == if mini then tiles * 5667 + 2833 else tiles * 170 + 85
  {
    CeilTiles(Rescaled(s).width);
    CeilTiles(Rescaled(s).height);
  }

  lemma CostOf(s: Size, mini: bool, r: Size, tiles: int)
    requires r == Rescaled(s) && tiles == ((r.width + 511) / 512) * ((r.height + 511) / 512)
    ensures Cost(s, mini) == if mini then tiles * 5667 + 2833 else tiles * 170 + 85
  {
    CostIs(s, mini);
  }

  /** A size within both limits is left alone: the small image the source mentions, and the largest such one. */
  lemma UnscaledCosts()
    ensures Cost(Size(125, 50), false) == 255
    ensures Cost(Size(2048, 768), false) == 1445 && Cost(Size(2048, 768), true) == 48169
  {
    RescaledBounds(Size(125, 50));
    RescaledBounds(Size(2048, 768));
    CostOf(Size(125, 50), false, Size(125, 50), 1);
    CostOf(Size(2048, 768), false, Size(2048, 768), 8);
    CostOf(Size(2048, 768), true, Size(2048, 768), 8);
  }

  /** A square is shrunk once, a long image twice. */
  lemma ScaledCosts()
    ensures Cost(Size(1024, 1024), false) == 765
    ensures Cost(Size(2048, 4096), false) == 1105
  {
    ScaledSizes();
    CostOf(Size(1024, 1024), false, Size(768, 768), 4);
    CostOf(Size(2048, 4096), false, Size(768, 1536), 6);
  }

  lemma ScaledSizes()
    ensures Rescaled(Size(1024, 1024)) == Size(768, 768)
    ensures Rescaled(Size(2048, 4096)) == Size(768, 1536)
  {
    RescaledIs(Size(1024, 1024));
    RescaledIs(Size(2048, 4096));
    RescaledIs(Size(1024, 2048));
  }

  /** The fetched size is None when the image cannot be read; so is the answer to an invalid request. */
  method CountImageTokens(detail: string, mini: bool, fetched: Option<Size>) returns (tokens: Option<int>)
    ensures tokens.None? <==> detail != "low" && (detail !in {"", "auto", "high"} || fetched.None?)
    ensures detail == "low" ==> tokens == Some(if mini then 2833 else 85)
    ensures detail != "low" && tokens.Some? ==> tokens.value == Cost(fetched.value, mini)
    ensures detail != "low" && tokens.Some? ==>
      var r := Rescaled(fetched.value);
      var tiles := ((r.width + 511) / 512) * ((r.height + 511) / 512);
      tokens.value == if mini then tiles * 5667 + 2833 else tiles * 170 + 85
    ensures tokens.Some? ==> 85 <= tokens.value <= if mini then 48169 else 1445
  {
    var level := detail;
    if level == "" || level == "auto" {
      level := "high";
    }
    if level == "low" {
      return Some(if mini then MINI_LOW_DETAIL_COST else LOW_DETAIL_COST);
    }
    if level != "high" { return None; }
    if fetched.None? { return None; }
    var width, height := fetched.value.width, fetched.value.height;
    if width > 2048 || height > 2048 {
      var longer := if width >= height then width else height;
      width, height := Scale(width, 2048, longer), Scale(height, 2048, longer);
    }
    if width > 768 && height > 768 {
      var shorter := if width >= height then height else width;
      width, height := Scale(width, 768, shorter), Scale(height, 768, shorter);
    }
    assert Size(width, height) == Rescaled(fetched.value);
    TileBound(fetched.value);
    CostIs(fetched.value, mini);
    var numSquares := Tiles(Size(width, height));
    return Some(if mini then numSquares * MINI_HIGH_DETAIL_COST_PER_TILE + MINI_ADDITIONAL_COST
                else numSquares * HIGH_DETAIL_COST_PER_TILE + ADDITIONAL_COST);
  }
}
