/** Rasters as sequences of RGB pixels, the per-channel difference of two
    rasters, and the fitness score that `Individuo.get_fitness` derives from
    the summed difference. */
module Raster {

  /** One 8-bit colour channel. */
  type Byte = x: int | 0 <= x < 256

  /** One pixel of an RGB image. */
  datatype Rgb = Rgb(r: Byte, g: Byte, b: Byte)

  function AbsDiff(x: Byte, y: Byte): Byte
  {
    if x >= y then x - y else y - x
  }

  /** A pixel of `ImageChops.difference`: the absolute difference, channel by channel. */
  function PixelDifference(p: Rgb, q: Rgb): (d: Rgb)
    ensures d == Rgb(0, 0, 0) <==> p == q
  {
    Rgb(AbsDiff(p.r, q.r), AbsDiff(p.g, q.g), AbsDiff(p.b, q.b))
  }

  /** The difference image of two rasters of the same size, pixel by pixel. */
  function Difference(img: seq<Rgb>, target: seq<Rgb>): (d: seq<Rgb>)
    requires |img| == |target|
    ensures |d| == |img|
  {
    if img == [] then [] else [PixelDifference(img[0], target[0])] + Difference(img[1..], target[1..])
  }

  /** Pixel `k` of the difference image is the difference of the two pixels `k`. */
  lemma {:induction false} DifferenceAt(img: seq<Rgb>, target: seq<Rgb>, k: nat)
    requires |img| == |target| && k < |img|
    ensures Difference(img, target)[k] == PixelDifference(img[k], target[k])
  {
    if k > 0 {
      DifferenceAt(img[1..], target[1..], k - 1);
    }
  }

  /** The inner `sum` over the channels of one pixel. */
  function ChannelSum(p: Rgb): nat
  {
    p.r + p.g + p.b
  }

  /** `sum(map(sum, data))`: every channel of every pixel added up. */
  function TotalDifference(d: seq<Rgb>): nat
  {
    if d == [] then 0 else ChannelSum(d[0]) + TotalDifference(d[1..])
  }

  /** The largest total difference two rasters of `w` by `h` pixels can have:
      `max_pixels` of the source. */
  function MaxDifference(w: nat, h: nat): nat
  {
    h * w * 3 * 255
  }

  /** No channel differs by more than 255, so the total is bounded by
      255 per channel, three channels per pixel. */
  lemma {:induction false} TotalDifferenceBound(d: seq<Rgb>)
    ensures TotalDifference(d) <= |d| * 3 * 255
  {
    if d != [] {
      TotalDifferenceBound(d[1..]);
    }
  }

  lemma EqualByHead<T>(a: seq<T>, b: seq<T>)
    requires |a| == |b| > 0
    ensures a == b <==> a[0] == b[0] && a[1..] == b[1..]
  {
    if a[0] == b[0] && a[1..] == b[1..] {
      assert a == [a[0]] + a[1..];
      assert b == [b[0]] + b[1..];
    }
  }

  /** The summed difference is zero exactly when the two rasters are identical. */
  lemma {:induction false} TotalDifferenceZero(img: seq<Rgb>, target: seq<Rgb>)
    requires |img| == |target|
    ensures TotalDifference(Difference(img, target)) == 0 <==> img == target
  {
    if img != [] {
      var d := Difference(img, target);
      var rest := Difference(img[1..], target[1..]);
      assert d[0] == PixelDifference(img[0], target[0]);
      assert d[1..] == rest;
      TotalDifferenceZero(img[1..], target[1..]);
      EqualByHead(img, target);
    }
  }

  /** The outcome of `get_fitness`: a score, or the division by zero that
      Python raises when the image has no pixels. */
  datatype Score = Score(value: real) | ZeroDivisionError

  /** `get_fitness` from the summed difference `d` onwards, with `maxPixels` the
      largest possible total: the error is `d / maxPixels` and the fitness is
      1 / (1 + error). It is positive and at most 1, it is 1 exactly when nothing
      differs, and it is at least 1/2 whenever `d` does not exceed `maxPixels`;
      with `maxPixels` zero the division fails. */
  function Fitness(d: nat, maxPixels: nat): (s: Score)
    ensures s.Score? <==> maxPixels > 0
    ensures s.Score? ==> 0.0 < s.value <= 1.0
    ensures s.Score? ==> (s.value == 1.0 <==> d == 0)
    ensures s.Score? && d <= maxPixels ==> 0.5 <= s.value
  {
    if maxPixels == 0 then ZeroDivisionError
    else
      var m := maxPixels as real;
      var erro := (d as real) / m;
      assert erro * m == d as real;
      assert 0.0 <= erro;
      assert d <= maxPixels ==> erro <= 1.0 by {
        assert (1.0 - erro) * m == m - d as real;
      }
      assert erro == 0.0 <==> d == 0;
      var f := 1.0 / (1.0 + erro);
      assert f * (1.0 + erro) == 1.0;
      assert 0.0 < f;
      assert f + f * erro == 1.0;
      assert 0.0 <= f * erro;
      assert f * erro == 0.0 <==> erro == 0.0;
      assert d <= maxPixels ==> 0.5 <= f by {
        assert f * (1.0 - erro) == f - f * erro;
        assert d <= maxPixels ==> 0.0 <= f * (1.0 - erro);
      }
      Score(f)
  }

  /** 1/x is strictly decreasing on the positive reals. */
  lemma ReciprocalDecreasing(x: real, y: real)
    requires 0.0 < x < y
    ensures 1.0 / x > 1.0 / y
  {
    var fx, fy := 1.0 / x, 1.0 / y;
    assert fx * x == 1.0 && fy * y == 1.0;
    assert 0.0 < fy;
    assert fy * (y - x) > 0.0;
    calc {
      fy * x;
      == fy * y - fy * (y - x);
      < fy * y;
      == 1.0;
      == fx * x;
    }
    assert (fx - fy) * x > 0.0;
  }

  /** A larger difference always scores strictly lower: the score is strictly decreasing. */
  lemma FitnessStrictlyDecreasing(d1: nat, d2: nat, maxPixels: nat)
    requires maxPixels > 0
    requires d1 < d2
    ensures Fitness(d1, maxPixels).value > Fitness(d2, maxPixels).value
  {
    var m := maxPixels as real;
    var e1, e2 := (d1 as real) / m, (d2 as real) / m;
    assert e1 * m == d1 as real && e2 * m == d2 as real;
    assert (e2 - e1) * m == (d2 - d1) as real;
    assert 0.0 < e2 - e1;
    assert 0.0 <= e1;
    ReciprocalDecreasing(1.0 + e1, 1.0 + e2);
  }

  /** Equal scores come from equal differences. */
  lemma FitnessInjective(d1: nat, d2: nat, maxPixels: nat)
    requires maxPixels > 0
    requires Fitness(d1, maxPixels) == Fitness(d2, maxPixels)
    ensures d1 == d2
  {
    if d1 < d2 {
      FitnessStrictlyDecreasing(d1, d2, maxPixels);
    } else if d2 < d1 {
      FitnessStrictlyDecreasing(d2, d1, maxPixels);
    }
  }

  /** An image of `w` by `h` pixels, as a list of `h` rows of `w` pixels. */
  ghost predicate IsImage(img: seq<seq<Rgb>>, w: nat, h: nat)
  {
    |img| == h && forall y :: 0 <= y < h ==> |img[y]| == w
  }

  /** `getdata()`: the pixels of an image row by row. */
  function Flatten(img: seq<seq<Rgb>>): seq<Rgb>
  {
    if img == [] then [] else img[0] + Flatten(img[1..])
  }

  lemma {:induction false} FlattenSize(img: seq<seq<Rgb>>, w: nat, h: nat)
    requires IsImage(img, w, h)
    ensures |Flatten(img)| == w * h
  {
    if h > 0 {
      FlattenSize(img[1..], w, h - 1);
    }
  }

  /** Two images of the same size with the same pixel data are the same image. */
  lemma {:induction false} FlattenInjective(a: seq<seq<Rgb>>, b: seq<seq<Rgb>>, w: nat, h: nat)
    requires IsImage(a, w, h) && IsImage(b, w, h)
    requires Flatten(a) == Flatten(b)
    ensures a == b
  {
    if h > 0 {
      FlattenSize(a[1..], w, h - 1);
      FlattenSize(b[1..], w, h - 1);
      assert a[0] == Flatten(a)[..w];
      assert b[0] == Flatten(b)[..w];
      assert Flatten(a[1..]) == Flatten(a)[w..];
      assert Flatten(b[1..]) == Flatten(b)[w..];
      FlattenInjective(a[1..], b[1..], w, h - 1);
      assert a == [a[0]] + a[1..];
      assert b == [b[0]] + b[1..];
    }
  }

  /** Joining rasters pixel-wise commutes with taking their difference. */
  lemma {:induction false} DifferenceAppend(a1: seq<Rgb>, a2: seq<Rgb>, b1: seq<Rgb>, b2: seq<Rgb>)
    requires |a1| == |b1| && |a2| == |b2|
    ensures Difference(a1 + a2, b1 + b2) == Difference(a1, b1) + Difference(a2, b2)
  {
    if a1 != [] {
      assert (a1 + a2)[1..] == a1[1..] + a2;
      assert (b1 + b2)[1..] == b1[1..] + b2;
      DifferenceAppend(a1[1..], a2, b1[1..], b2);
    } else {
      assert a1 + a2 == a2 && b1 + b2 == b2;
    }
  }

  lemma {:induction false} TotalDifferenceAppend(x: seq<Rgb>, y: seq<Rgb>)
    ensures TotalDifference(x + y) == TotalDifference(x) + TotalDifference(y)
  {
    if x != [] {
      assert (x + y)[1..] == x[1..] + y;
      TotalDifferenceAppend(x[1..], y);
    } else {
      assert x + y == y;
    }
  }

  /** Two images with the same number of rows, row for row of the same width. */
  ghost predicate SameShape(img: seq<seq<Rgb>>, target: seq<seq<Rgb>>)
  {
    |img| == |target| && forall y :: 0 <= y < |img| ==> |img[y]| == |target[y]|
  }

  /** The summed difference of one row, pixel by pixel. */
  function RowDistance(a: seq<Rgb>, b: seq<Rgb>): nat
    requires |a| == |b|
  {
    if a == [] then 0 else ChannelSum(PixelDifference(a[0], b[0])) + RowDistance(a[1..], b[1..])
  }

  /** The summed difference of two images, row by row. */
  function ImageDistance(img: seq<seq<Rgb>>, target: seq<seq<Rgb>>): nat
    requires SameShape(img, target)
  {
    if img == [] then 0 else RowDistance(img[0], target[0]) + ImageDistance(img[1..], target[1..])
  }

  /** A row's distance is the sum of the row's difference image. */
  lemma {:induction false} RowDistanceIsTotal(a: seq<Rgb>, b: seq<Rgb>)
    requires |a| == |b|
    ensures RowDistance(a, b) == TotalDifference(Difference(a, b))
  {
    if a != [] {
      var d := Difference(a, b);
      assert d[0] == PixelDifference(a[0], b[0]);
      assert d[1..] == Difference(a[1..], b[1..]);
      RowDistanceIsTotal(a[1..], b[1..]);
    }
  }

  /** The row-by-row distance is `sum(map(sum, difference(img, target).getdata()))`:
      the channel sum over the difference of the two pixel lists. */
  lemma {:induction false} ImageDistanceIsTotal(img: seq<seq<Rgb>>, target: seq<seq<Rgb>>)
    requires SameShape(img, target)
    ensures |Flatten(img)| == |Flatten(target)|
    ensures ImageDistance(img, target) == TotalDifference(Difference(Flatten(img), Flatten(target)))
  {
    if img != [] {
      ImageDistanceIsTotal(img[1..], target[1..]);
      RowDistanceIsTotal(img[0], target[0]);
      DifferenceAppend(img[0], Flatten(img[1..]), target[0], Flatten(target[1..]));
      TotalDifferenceAppend(Difference(img[0], target[0]), Difference(Flatten(img[1..]), Flatten(target[1..])));
    }
  }

  /** `get_fitness` on a whole rendered image of `w` by `h` pixels compared with the
      target: the score lies in [1/2, 1] and is 1 exactly when the image equals
      the target; only an image without pixels yields no score. */
  function ImageFitness(img: seq<seq<Rgb>>, target: seq<seq<Rgb>>, w: nat, h: nat): (s: Score)
    requires IsImage(img, w, h) && IsImage(target, w, h)
    ensures s.Score? <==> w > 0 && h > 0
    ensures s.Score? ==> 0.5 <= s.value <= 1.0
    ensures s.Score? ==> (s.value == 1.0 <==> img == target)
  {
    ImageFitnessFacts(img, target, w, h);
    Fitness(ImageDistance(img, target), MaxDifference(w, h))
  }

  /** What `ImageFitness` needs of the distance: it is at most `max_pixels`, zero
      exactly for equal images, and `max_pixels` is zero only for an empty image. */
  lemma ImageFitnessFacts(img: seq<seq<Rgb>>, target: seq<seq<Rgb>>, w: nat, h: nat)
    requires IsImage(img, w, h) && IsImage(target, w, h)
    ensures SameShape(img, target)
    ensures ImageDistance(img, target) <= MaxDifference(w, h)
    ensures ImageDistance(img, target) == 0 <==> img == target
    ensures MaxDifference(w, h) > 0 <==> w > 0 && h > 0
  {
    var a, b := Flatten(img), Flatten(target);
    FlattenSize(img, w, h);
    FlattenSize(target, w, h);
    ImageDistanceIsTotal(img, target);
    TotalDifferenceBound(Difference(a, b));
    TotalDifferenceZero(a, b);
    assert a == b ==> img == target by {
      if a == b {
        FlattenInjective(img, target, w, h);
      }
    }
    assert |a| * 3 * 255 == MaxDifference(w, h);
    assert MaxDifference(w, h) > 0 <==> w > 0 && h > 0 by {
      if w > 0 && h > 0 {
        assert w * h >= w * 1;
      }
    }
  }
}
