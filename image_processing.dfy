/** The image-processing service (`src/lib/services/api/image.ts`): the size a thumbnail
    is drawn at, and the grayscale, sepia and invert filters, which rewrite the red,
    green and blue entries of an RGBA pixel buffer in place. Sizes and channel values are
    exact reals. */
module ImageProcessing {
  const DefaultMaxWidth: real := 400.0
  const DefaultMaxHeight: real := 300.0

  // ---------------------------------------------------------------------------
  // createThumbnail's size

  /** One of createThumbnail's two guarded steps: a side over its limit is set to the
      limit and the other side is scaled by the same factor. */
  function Fit(side: real, other: real, limit: real): (r: (real, real))
    requires 0.0 <= limit
    ensures side <= limit ==> r == (side, other)
    ensures side > limit ==> r.0 == limit
    ensures r.0 <= limit && (0.0 <= side ==> 0.0 <= r.0)
    ensures 0.0 <= other ==> 0.0 <= r.1 <= other
    ensures r.0 * other == r.1 * side
  {
    if side > limit then
      var f := limit / side;
      FactorWithin(limit, side);
      assert f * side == limit;
      assert 0.0 <= other ==> other * f <= other by {
        if 0.0 <= other {
          ProductWithin(other, f);
        }
      }
      (limit, other * f)
    else
      (side, other)
  }

  /** Shrinking a side to a smaller limit scales by a factor in [0, 1]. */
  lemma FactorWithin(limit: real, side: real)
    requires 0.0 <= limit < side
    ensures 0.0 <= limit / side <= 1.0
  {
    var f := limit / side;
    assert f * side == limit;
    if f > 1.0 {
      assert (f - 1.0) * side > 0.0;
    }
  }

  /** The width and height `createThumbnail(url, maxWidth, maxHeight)` draws at: first the
      width is brought within `maxWidth`, then the height within `maxHeight`. */
  function Thumbnail(width: real, height: real, maxWidth: real, maxHeight: real): (r: (real, real))
    requires 0.0 <= maxWidth && 0.0 <= maxHeight
    ensures width <= maxWidth && height <= maxHeight ==> r == (width, height)
    ensures width > maxWidth || height > maxHeight ==> r.0 == maxWidth || r.1 == maxHeight
    ensures 0.0 <= width && 0.0 <= height ==> 0.0 <= r.0 <= maxWidth && 0.0 <= r.1 <= maxHeight
    ensures r.0 * height == r.1 * width
  {
    var byWidth := Fit(width, height, maxWidth);
    var byHeight := Fit(byWidth.1, byWidth.0, maxHeight);
    AspectComposes(width, height, byWidth.0, byWidth.1, byHeight.1, byHeight.0);
    (byHeight.1, byHeight.0)
  }

  /** Two steps that each keep the aspect ratio keep it together; a step that leaves a
      zero height alone keeps it too. */
  lemma AspectComposes(w: real, h: real, w1: real, h1: real, w2: real, h2: real)
    requires w1 * h == h1 * w && h2 * w1 == w2 * h1
    requires h1 == 0.0 ==> h2 == 0.0 && w2 == w1
    ensures w2 * h == h2 * w
  {
    if h1 != 0.0 {
      assert w2 == h2 * w1 / h1;
      assert w2 * h == h2 * (w1 * h) / h1;
      assert w2 * h == h2 * (h1 * w) / h1;
    }
  }

  /** With the default limits a thumbnail is at most 400 by 300. */
  lemma DefaultThumbnailBounds(width: real, height: real)
    requires 0.0 <= width && 0.0 <= height
    ensures var r := Thumbnail(width, height, DefaultMaxWidth, DefaultMaxHeight);
      r.0 <= 400.0 && r.1 <= 300.0
  {
  }

  // ---------------------------------------------------------------------------
  // The channel filters

  datatype Filter = Grayscale | Sepia | Invert

  /** `x * (1 - intensity) + target * intensity`. */
  function Blend(x: real, target: real, intensity: real): real {
    x * (1.0 - intensity) + target * intensity
  }

  /** `r` lies between `a` and `b`, whichever is larger. */
  predicate Between(a: real, b: real, r: real) {
    a <= r <= b || b <= r <= a
  }

  /** Intensity 0 keeps the entry, intensity 1 gives the target, and an intensity in
      between gives a value between the two. */
  lemma BlendBetween(x: real, target: real, intensity: real)
    ensures intensity == 0.0 ==> Blend(x, target, intensity) == x
    ensures intensity == 1.0 ==> Blend(x, target, intensity) == target
    ensures 0.0 <= intensity <= 1.0 ==> Between(x, target, Blend(x, target, intensity))
  {
    BlendAsStep(x, target, intensity);
    if 0.0 <= intensity <= 1.0 {
      StepWithin(x, target, target - x, intensity);
    }
  }

  /** The blend is a step from `x` towards `target`, `intensity` of the way. */
  lemma BlendAsStep(x: real, target: real, intensity: real)
    ensures Blend(x, target, intensity) == x + (target - x) * intensity
  {
  }

  /** A step from `x` by a fraction in [0, 1] of the way `e` to `target` stays between
      the two. */
  lemma StepWithin(x: real, target: real, e: real, t: real)
    requires e == target - x && 0.0 <= t <= 1.0
    ensures Between(x, target, x + e * t)
  {
    ProductWithin(e, t);
  }

  lemma ProductWithin(d: real, t: real)
    requires 0.0 <= t <= 1.0
    ensures 0.0 <= d ==> 0.0 <= d * t <= d
    ensures d <= 0.0 ==> d <= d * t <= 0.0
  {
  }

  /** The value colour entry `k` (0 red, 1 green, 2 blue) of a pixel with channels `r`,
      `g`, `b` is blended towards. */
  function Target(f: Filter, r: real, g: real, b: real, k: int): real {
    match f
    case Grayscale => 0.3 * r + 0.59 * g + 0.11 * b
    case Sepia =>
      if k == 0 then 0.393 * r + 0.769 * g + 0.189 * b
      else if k == 1 then 0.349 * r + 0.686 * g + 0.168 * b
      else 0.272 * r + 0.534 * g + 0.131 * b
    case Invert => 255.0 - (if k == 0 then r else if k == 1 then g else b)
  }

  /** Entry `j` of the buffer after the filter: an alpha entry as it was, a colour entry
      blended towards its target, computed from its own pixel's original channels. */
  function Entry(f: Filter, data: seq<real>, intensity: real, j: int): real
    requires |data| % 4 == 0 && 0 <= j < |data|
  {
    var p := j - j % 4;
    if j % 4 == 3 then data[j]
    else Blend(data[j], Target(f, data[p], data[p + 1], data[p + 2], j % 4), intensity)
  }

  /** The whole buffer after the filter. Every alpha entry (each index `i + 3`) is as it
      was. */
  function Filtered(f: Filter, data: seq<real>, intensity: real): (r: seq<real>)
    requires |data| % 4 == 0
    ensures |r| == |data|
    ensures forall j :: 0 <= j < |data| && j % 4 == 3 ==> r[j] == data[j]
  {
    seq(|data|, j requires 0 <= j < |data| => Entry(f, data, intensity, j))
  }

  /** At intensity 0 no entry changes. */
  lemma FilteredAtZero(f: Filter, data: seq<real>)
    requires |data| % 4 == 0
    ensures Filtered(f, data, 0.0) == data
  {
    var r := Filtered(f, data, 0.0);
    forall j | 0 <= j < |data|
      ensures r[j] == data[j]
    {
      if j % 4 != 3 {
        var p := j - j % 4;
        BlendBetween(data[j], Target(f, data[p], data[p + 1], data[p + 2], j % 4), 0.0);
      }
    }
  }

  /** At intensity 1 inversion maps each colour entry `x` to `255 - x`. */
  lemma InvertAtFull(data: seq<real>)
    requires |data| % 4 == 0
    ensures forall j :: 0 <= j < |data| && j % 4 != 3 ==> Filtered(Invert, data, 1.0)[j] == 255.0 - data[j]
  {
    forall j | 0 <= j < |data| && j % 4 != 3
      ensures Filtered(Invert, data, 1.0)[j] == 255.0 - data[j]
    {
      var p := j - j % 4;
      assert data[p + j % 4] == data[j];
      BlendBetween(data[j], 255.0 - data[j], 1.0);
    }
  }

  /** Full inversion undoes itself. */
  lemma InvertTwice(data: seq<real>)
    requires |data| % 4 == 0
    ensures Filtered(Invert, Filtered(Invert, data, 1.0), 1.0) == data
  {
    var once := Filtered(Invert, data, 1.0);
    var twice := Filtered(Invert, once, 1.0);
    InvertAtFull(data);
    InvertAtFull(once);
    forall j | 0 <= j < |data|
      ensures twice[j] == data[j]
    {
      if j % 4 != 3 {
        assert twice[j] == 255.0 - once[j];
      }
    }
  }

  /** Full grayscale turns every pixel gray, and a gray pixel stays as it is, so applying
      it twice is applying it once. */
  lemma GrayscaleTwice(data: seq<real>)
    requires |data| % 4 == 0
    ensures Filtered(Grayscale, Filtered(Grayscale, data, 1.0), 1.0) == Filtered(Grayscale, data, 1.0)
  {
    var once := Filtered(Grayscale, data, 1.0);
    var twice := Filtered(Grayscale, once, 1.0);
    forall j | 0 <= j < |data| && j % 4 != 3
      ensures twice[j] == once[j]
    {
      PixelOf(j, |data|);
      var p := j - j % 4;
      var gray := Target(Grayscale, data[p], data[p + 1], data[p + 2], 0);
      GrayPixel(data, p);
      assert once[j] == gray;
      assert Target(Grayscale, once[p], once[p + 1], once[p + 2], 0) == gray;
      BlendBetween(once[j], gray, 1.0);
    }
  }

  /** After full grayscale the three colour entries of the pixel at `p` all hold the
      pixel's gray value. */
  lemma GrayPixel(data: seq<real>, p: int)
    requires |data| % 4 == 0 && 0 <= p && p % 4 == 0 && p + 4 <= |data|
    ensures var once := Filtered(Grayscale, data, 1.0);
      var gray := Target(Grayscale, data[p], data[p + 1], data[p + 2], 0);
      once[p] == gray && once[p + 1] == gray && once[p + 2] == gray
  {
    var gray := Target(Grayscale, data[p], data[p + 1], data[p + 2], 0);
    PixelIndices(p);
    BlendBetween(data[p], gray, 1.0);
    BlendBetween(data[p + 1], gray, 1.0);
    BlendBetween(data[p + 2], gray, 1.0);
  }

  /** Every entry is a channel value in 0..255. */
  ghost predicate InRange(data: seq<real>) {
    forall j :: 0 <= j < |data| ==> 0.0 <= data[j] <= 255.0
  }

  /** Grayscale and inversion at an intensity in [0, 1] keep every entry within 0..255
      (sepia's weights add up to more than 1, so it can leave the range). */
  lemma FilteredInRange(f: Filter, data: seq<real>, intensity: real)
    requires |data| % 4 == 0 && InRange(data) && 0.0 <= intensity <= 1.0 && f != Sepia
    ensures InRange(Filtered(f, data, intensity))
  {
    forall j | 0 <= j < |data| && j % 4 != 3
      ensures 0.0 <= Filtered(f, data, intensity)[j] <= 255.0
    {
      PixelOf(j, |data|);
      var p := j - j % 4;
      var target := Target(f, data[p], data[p + 1], data[p + 2], j % 4);
      assert 0.0 <= data[p] <= 255.0 && 0.0 <= data[p + 1] <= 255.0 && 0.0 <= data[p + 2] <= 255.0;
      BlendBetween(data[j], target, intensity);
    }
  }

  // ---------------------------------------------------------------------------
  // The loops over the pixel buffer

  /** `applyGrayscale`: the loop `for (i = 0; i < data.length; i += 4)`. */
  method ApplyGrayscale(data: array<real>, intensity: real)
    requires data.Length % 4 == 0
    modifies data
    ensures data[..] == Filtered(Grayscale, old(data[..]), intensity)
  {
    ghost var before := data[..];
    var i := 0;
    while i < data.Length
      invariant 0 <= i <= data.Length && i % 4 == 0
      invariant forall j :: 0 <= j < i ==> data[j] == Entry(Grayscale, before, intensity, j)
      invariant forall j :: i <= j < data.Length ==> data[j] == before[j]
    {
      NextPixel(i, data.Length);
      var r, g, b := data[i], data[i + 1], data[i + 2];
      var gray := 0.3 * r + 0.59 * g + 0.11 * b;
      data[i] := Blend(r, gray, intensity);
      data[i + 1] := Blend(g, gray, intensity);
      data[i + 2] := Blend(b, gray, intensity);
      i := i + 4;
    }
  }

  /** `applySepia`. */
  method ApplySepia(data: array<real>, intensity: real)
    requires data.Length % 4 == 0
    modifies data
    ensures data[..] == Filtered(Sepia, old(data[..]), intensity)
  {
    ghost var before := data[..];
    var i := 0;
    while i < data.Length
      invariant 0 <= i <= data.Length && i % 4 == 0
      invariant forall j :: 0 <= j < i ==> data[j] == Entry(Sepia, before, intensity, j)
      invariant forall j :: i <= j < data.Length ==> data[j] == before[j]
    {
      NextPixel(i, data.Length);
      var r, g, b := data[i], data[i + 1], data[i + 2];
      var sr := 0.393 * r + 0.769 * g + 0.189 * b;
      var sg := 0.349 * r + 0.686 * g + 0.168 * b;
      var sb := 0.272 * r + 0.534 * g + 0.131 * b;
      data[i] := Blend(r, sr, intensity);
      data[i + 1] := Blend(g, sg, intensity);
      data[i + 2] := Blend(b, sb, intensity);
      i := i + 4;
    }
  }

  /** `applyInvert`: each colour entry is read and rewritten in one statement. */
  method ApplyInvert(data: array<real>, intensity: real)
    requires data.Length % 4 == 0
    modifies data
    ensures data[..] == Filtered(Invert, old(data[..]), intensity)
  {
    ghost var before := data[..];
    var i := 0;
    while i < data.Length
      invariant 0 <= i <= data.Length && i % 4 == 0
      invariant forall j :: 0 <= j < i ==> data[j] == Entry(Invert, before, intensity, j)
      invariant forall j :: i <= j < data.Length ==> data[j] == before[j]
    {
      NextPixel(i, data.Length);
      data[i] := Blend(data[i], 255.0 - data[i], intensity);
      data[i + 1] := Blend(data[i + 1], 255.0 - data[i + 1], intensity);
      data[i + 2] := Blend(data[i + 2], 255.0 - data[i + 2], intensity);
      i := i + 4;
    }
  }

  /** The entries of the pixel starting at `p`, and where each sits in it. */
  lemma PixelIndices(p: int)
    requires p % 4 == 0
    ensures (p + 1) % 4 == 1 && (p + 2) % 4 == 2 && (p + 3) % 4 == 3
    ensures (p + 1) - (p + 1) % 4 == p && (p + 2) - (p + 2) % 4 == p
  {
  }

  /** Entry `j` belongs to the pixel starting at `j - j % 4`, which lies wholly inside
      the buffer. */
  lemma PixelOf(j: int, n: int)
    requires 0 <= j < n && n % 4 == 0
    ensures var p := j - j % 4;
      0 <= p && p % 4 == 0 && p + 4 <= n && j == p + j % 4 && 0 <= j % 4 < 4
  {
  }

  /** The loop index stays on a pixel boundary and the pixel at it is whole. */
  lemma NextPixel(i: int, n: int)
    requires 0 <= i < n && i % 4 == 0 && n % 4 == 0
    ensures i + 4 <= n && (i + 4) % 4 == 0
    ensures (i + 1) % 4 == 1 && (i + 2) % 4 == 2 && (i + 3) % 4 == 3
    ensures (i + 1) - (i + 1) % 4 == i && (i + 2) - (i + 2) % 4 == i
  {
  }
}
