/**
 * The aspect-preserving resize of `detect_vehicles`: the scale is
 * `min(1280 / width, 720 / height, 1.0)` and each new dimension is
 * `int(dimension * scale)`, which truncates. The arithmetic is exact here.
 */
module Imaging {
  const MaxWidth: nat := 1280
  const MaxHeight: nat := 720

  function Min(a: real, b: real): real {
    if a <= b then a else b
  }

  /** The scale factor; it never exceeds 1, so the image is never enlarged. */
  function Scale(width: nat, height: nat): (s: real)
    requires width > 0 && height > 0
    ensures 0.0 < s <= 1.0
    ensures s <= MaxWidth as real / width as real && s <= MaxHeight as real / height as real
    ensures s == 1.0 || s == MaxWidth as real / width as real || s == MaxHeight as real / height as real
  {
    Min(Min(MaxWidth as real / width as real, MaxHeight as real / height as real), 1.0)
  }

  /** `int(x)` for `x >= 0`: the integer part. */
  function Truncate(x: real): (n: nat)
    requires x >= 0.0
    ensures n as real <= x < n as real + 1.0
  {
    x.Floor
  }

  /** The new (width, height) handed to `cv2.resize`. */
  function ResizeDims(width: nat, height: nat): (nat, nat)
    requires width > 0 && height > 0
  {
    var s := Scale(width, height);
    (Truncate(width as real * s), Truncate(height as real * s))
  }

  lemma TruncateMonotone(x: real, n: nat)
    requires 0.0 <= x <= n as real
    ensures Truncate(x) <= n
  {
  }

  /** The image is never enlarged. */
  lemma NeverUpscales(width: nat, height: nat)
    requires width > 0 && height > 0
    ensures ResizeDims(width, height).0 <= width && ResizeDims(width, height).1 <= height
  {
    var s := Scale(width, height);
    SideAtMost(width as real, s, width);
    SideAtMost(height as real, s, height);
  }

  /** A side of `n` pixels scaled by at most 1 truncates to at most `n`. */
  lemma SideAtMost(side: real, s: real, n: nat)
    requires side == n as real && side > 0.0 && 0.0 <= s <= 1.0
    ensures Truncate(side * s) <= n
  {
    MulLe(s, 1.0, side);
    TruncateMonotone(side * s, n);
  }

  /** The result fits within 1280 x 720. */
  lemma FitsBounds(width: nat, height: nat)
    requires width > 0 && height > 0
    ensures ResizeDims(width, height).0 <= MaxWidth && ResizeDims(width, height).1 <= MaxHeight
  {
    var s := Scale(width, height);
    SideFits(width as real, s, MaxWidth);
    SideFits(height as real, s, MaxHeight);
  }

  /** A side scaled by at most `bound / side` truncates to at most `bound`. */
  lemma SideFits(side: real, s: real, bound: nat)
    requires side > 0.0 && 0.0 <= s <= bound as real / side
    ensures Truncate(side * s) <= bound
  {
    var q := bound as real / side;
    MulLe(s, q, side);
    assert q * side == bound as real;
    TruncateMonotone(side * s, bound);
  }

  /** An image already within 1280 x 720 keeps its exact dimensions. */
  lemma SmallImageUnchanged(width: nat, height: nat)
    requires 0 < width <= MaxWidth && 0 < height <= MaxHeight
    ensures ResizeDims(width, height) == (width, height)
  {
    var w, h := width as real, height as real;
    assert MaxWidth as real / w >= 1.0 by {
      assert (MaxWidth as real / w) * w == MaxWidth as real;
    }
    assert MaxHeight as real / h >= 1.0 by {
      assert (MaxHeight as real / h) * h == MaxHeight as real;
    }
    assert Scale(width, height) == 1.0;
  }

  /** A larger image is shrunk until it touches one of the bounds exactly. */
  lemma LargeImageTouchesBound(width: nat, height: nat)
    requires width > 0 && height > 0
    requires width > MaxWidth || height > MaxHeight
    ensures ResizeDims(width, height).0 == MaxWidth || ResizeDims(width, height).1 == MaxHeight
  {
    var s := Scale(width, height);
    var w, h := width as real, height as real;
    assert s < 1.0 by {
      if width > MaxWidth {
        assert (MaxWidth as real / w) * w == MaxWidth as real;
      } else {
        assert (MaxHeight as real / h) * h == MaxHeight as real;
      }
    }
    if s == MaxWidth as real / w {
      assert w * s == MaxWidth as real;
    } else {
      assert h * s == MaxHeight as real;
    }
  }

  lemma MulLe(a: real, b: real, c: real)
    requires a <= b && c > 0.0
    ensures a * c <= b * c
  {
  }

  lemma MulLt(a: real, b: real, c: real)
    requires a < b && c > 0.0
    ensures a * c < b * c
  {
  }

  /**
   * One half of the truncation gap: when `n` is at most `a * s` and `b * s`
   * stays below `m + 1`, the cross product `n * b` stays below `m * a + a`.
   */
  lemma GapSide(a: real, b: real, s: real, n: real, m: real)
    requires a > 0.0 && b > 0.0
    requires n <= a * s && b * s < m + 1.0
    ensures n * b < m * a + a
  {
    calc {
      n * b;
    <= { MulLe(n, a * s, b); }
      (a * s) * b;
    ==
      (b * s) * a;
    < { MulLt(b * s, m + 1.0, a); }
      (m + 1.0) * a;
    ==
      m * a + a;
    }
  }

  /** Truncating both sides of w*s and h*s keeps n*h - m*w strictly between -h and w. */
  lemma TruncationGap(w: real, h: real, s: real, n: real, m: real)
    requires w > 0.0 && h > 0.0
    requires n <= w * s < n + 1.0 && m <= h * s < m + 1.0
    ensures -h < n * h - m * w < w
  {
    GapSide(w, h, s, n, m);
    GapSide(h, w, s, m, n);
  }

  /**
   * The aspect ratio survives up to truncation: new_width / new_height
   * differs from width / height only by the less-than-one-pixel cut on each
   * side, i.e. -height < new_width * height - new_height * width < width.
   */
  lemma AspectPreserved(width: nat, height: nat)
    requires width > 0 && height > 0
    ensures var (nw, nh) := ResizeDims(width, height);
      var w, h := width as real, height as real;
      -h < nw as real * h - nh as real * w < w
  {
    var s := Scale(width, height);
    var (nw, nh) := ResizeDims(width, height);
    TruncationGap(width as real, height as real, s, nw as real, nh as real);
  }

  /** Compares a product with its factor: a * w < w exactly when a < 1. */
  lemma BelowOne(a: real, w: real)
    requires w > 0.0
    ensures a * w < w <==> a < 1.0
  {
    if a < 1.0 {
      MulLt(a, 1.0, w);
    } else {
      MulLe(1.0, a, w);
    }
  }

  /** The truncated `side * s` is 0 exactly when `other / side`'s bound, scaled, falls below 1. */
  lemma SideVanishes(side: real, s: real, bound: real, other: real, r: real)
    requires side >= 1.0 && other > 0.0 && bound > 0.0
    requires s <= bound / other && (s == 1.0 || s == bound / other || s == r)
    requires side * r >= 1.0
    ensures Truncate(side * s) == 0 <==> bound * side < other
  {
    var q := bound / other;
    var a := q * side;
    assert q * other == bound;
    assert a * other == (q * other) * side;
    assert a * other == bound * side;
    BelowOne(a, other);
    if bound * side < other {
      assert a * other < other;
      assert a < 1.0;
      MulLe(s, q, side);
      assert side * s <= q * side;
    } else if s == q {
      assert q * side >= 1.0;
      assert side * s == q * side;
    }
  }

  /**
   * A very elongated image shrinks to a zero dimension, which `cv2.resize`
   * rejects: the height vanishes exactly when width > 1280 * height.
   */
  lemma HeightVanishes(width: nat, height: nat)
    requires width > 0 && height > 0
    ensures ResizeDims(width, height).1 == 0 <==> width > MaxWidth * height
  {
    var w, h := width as real, height as real;
    var r := MaxHeight as real / h;
    assert h * r == MaxHeight as real;
    SideVanishes(h, Scale(width, height), MaxWidth as real, w, r);
  }

  /** Likewise the width vanishes exactly when height > 720 * width. */
  lemma WidthVanishes(width: nat, height: nat)
    requires width > 0 && height > 0
    ensures ResizeDims(width, height).0 == 0 <==> height > MaxHeight * width
  {
    var w, h := width as real, height as real;
    var r := MaxWidth as real / w;
    assert w * r == MaxWidth as real;
    SideVanishes(w, Scale(width, height), MaxHeight as real, h, r);
  }
}
