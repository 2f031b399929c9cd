/** The pure geometry helpers of src/utils.ts: fitting a box into a container
    (contain / cover), the aspect-ratio rectangle, clamping, and the minimum
    crop-box size. */
module Utils {

  import opened Types

  datatype ResizeMode = Contain | Cover

  /** The fitted box and the factor it was scaled by. */
  datatype Fit = Fit(width: real, height: real, scale: real)

  function Min(a: real, b: real): real { if a <= b then a else b }
  function Max(a: real, b: real): real { if a >= b then a else b }
  function Abs(a: real): real { if a >= 0.0 then a else -a }

  /** `resize`: scale a `width` x `height` box so that it matches the container
      on one side, choosing the side by the mode. The result is always the
      input scaled by `scale`, so its aspect ratio is the input's. */
  function Resize(mode: ResizeMode, containerWidth: real, containerHeight: real,
                  width: real, height: real): (r: Fit)
    requires width != 0.0 && height != 0.0
    ensures r.width == r.scale * width && r.height == r.scale * height
    ensures r.width == containerWidth || r.height == containerHeight
  {
    var newBoxHeight1 := (containerWidth * height) / width;
    var newBoxWidth2 := (containerHeight * width) / height;
    var isSize := (mode == Contain && newBoxHeight1 <= containerHeight)
               || (mode == Cover && newBoxHeight1 >= containerHeight);
    if isSize then
      ScaleOfWidthMatch(containerWidth, width, height);
      Fit(containerWidth, newBoxHeight1, newBoxHeight1 / height)
    else
      ScaleOfWidthMatch(containerHeight, height, width);
      Fit(newBoxWidth2, containerHeight, newBoxWidth2 / width)
  }

  /** Matching side `a` of a box to `c` scales the box by `c / a`. */
  lemma ScaleOfWidthMatch(c: real, a: real, b: real)
    requires a != 0.0 && b != 0.0
    ensures ((c * b) / a) / b == c / a
    ensures c == (((c * b) / a) / b) * a
  {
    calc {
      ((c * b) / a) / b;
      (c * b) / (a * b);
      c / a;
    }
  }

  /** With positive sizes, `contain` fits inside the container and touches it. */
  lemma ResizeContainFits(containerWidth: real, containerHeight: real, width: real, height: real)
    requires containerWidth > 0.0 && containerHeight > 0.0 && width > 0.0 && height > 0.0
    ensures var r := Resize(Contain, containerWidth, containerHeight, width, height);
      r.width <= containerWidth && r.height <= containerHeight && r.scale > 0.0
  {
    var r := Resize(Contain, containerWidth, containerHeight, width, height);
    var h1 := (containerWidth * height) / width;
    if h1 > containerHeight {
      // the height-matched candidate is taken; its width is at most the container's
      var w2 := (containerHeight * width) / height;
      assert containerWidth * height > containerHeight * width by {
        assert h1 * width == containerWidth * height;
        assert containerHeight * width < h1 * width;
      }
      assert w2 * height == containerHeight * width;
      assert w2 * height < containerWidth * height;
      assert r.width == w2;
    }
  }

  /** With positive sizes, `cover` reaches at least the container on both sides. */
  lemma ResizeCoverCovers(containerWidth: real, containerHeight: real, width: real, height: real)
    requires containerWidth > 0.0 && containerHeight > 0.0 && width > 0.0 && height > 0.0
    ensures var r := Resize(Cover, containerWidth, containerHeight, width, height);
      r.width >= containerWidth && r.height >= containerHeight && r.scale > 0.0
  {
    var r := Resize(Cover, containerWidth, containerHeight, width, height);
    var h1 := (containerWidth * height) / width;
    if h1 < containerHeight {
      var w2 := (containerHeight * width) / height;
      assert containerWidth * height < containerHeight * width by {
        assert h1 * width == containerWidth * height;
        assert h1 * width < containerHeight * width;
      }
      assert w2 * height == containerHeight * width;
      assert w2 * height > containerWidth * height;
      assert r.width == w2;
    }
  }

  /** `contain` picks the LARGEST scale at which the box fits in the container. */
  lemma ResizeContainIsLargest(containerWidth: real, containerHeight: real, width: real, height: real, s: real)
    requires containerWidth > 0.0 && containerHeight > 0.0 && width > 0.0 && height > 0.0
    requires s * width <= containerWidth && s * height <= containerHeight
    ensures s <= Resize(Contain, containerWidth, containerHeight, width, height).scale
  {
    var r := Resize(Contain, containerWidth, containerHeight, width, height);
    ResizeContainFits(containerWidth, containerHeight, width, height);
    if r.width == containerWidth {
      assert s * width <= r.scale * width;
    } else {
      assert s * height <= r.scale * height;
    }
  }

  /** `cover` picks the SMALLEST scale at which the box covers the container. */
  lemma ResizeCoverIsSmallest(containerWidth: real, containerHeight: real, width: real, height: real, s: real)
    requires containerWidth > 0.0 && containerHeight > 0.0 && width > 0.0 && height > 0.0
    requires s * width >= containerWidth && s * height >= containerHeight
    ensures s >= Resize(Cover, containerWidth, containerHeight, width, height).scale
  {
    var r := Resize(Cover, containerWidth, containerHeight, width, height);
    ResizeCoverCovers(containerWidth, containerHeight, width, height);
    if r.width == containerWidth {
      assert s * width >= r.scale * width;
    } else {
      assert s * height >= r.scale * height;
    }
  }

  /** A box that already matches its container on one side and fits it is left
      as it is by `contain`: scale 1, same size. */
  lemma ResizeContainOfFitted(containerWidth: real, containerHeight: real, width: real, height: real)
    requires containerWidth > 0.0 && containerHeight > 0.0 && width > 0.0 && height > 0.0
    requires width <= containerWidth && height <= containerHeight
    requires width == containerWidth || height == containerHeight
    ensures Resize(Contain, containerWidth, containerHeight, width, height) == Fit(width, height, 1.0)
  {
    var r := Resize(Contain, containerWidth, containerHeight, width, height);
    ResizeContainIsLargest(containerWidth, containerHeight, width, height, 1.0);
    ResizeContainFits(containerWidth, containerHeight, width, height);
    if r.width == containerWidth {
      UnitScale(r.scale, width);
    } else {
      assert r.height == containerHeight;
      if width == containerWidth {
        assert false;
      }
      UnitScale(r.scale, height);
    }
  }

  /** A factor that leaves a positive length unchanged is 1. */
  lemma UnitScale(s: real, a: real)
    requires a > 0.0 && s * a == a
    ensures s == 1.0
  {
    assert (s - 1.0) * a == 0.0;
  }

  /** `createAspectRatioRectangle`: a box whose width is the smaller of the two
      sides and whose width / height is `aspectRatio`. */
  function CreateAspectRatioRectangle(width: real, height: real, aspectRatio: real): (r: Size)
    requires aspectRatio != 0.0
    ensures r.width <= width && r.width <= height
    ensures r.width == width || r.width == height
    ensures r.height * aspectRatio == r.width
  {
    if width > height then
      Size(height, height / aspectRatio)
    else
      Size(width, width / aspectRatio)
  }

  /** Only the WIDTH is bounded by the given box: with an aspect ratio below 1
      the height can exceed it (a 100 x 50 box at ratio 1/2 gives 50 x 100). */
  lemma AspectRatioRectangleMayBeTaller()
    ensures CreateAspectRatioRectangle(100.0, 50.0, 0.5) == Size(50.0, 100.0)
  {
  }

  /** `clamp`: `min(max(value, minValue), maxValue)`. */
  function Clamp(value: real, minValue: real, maxValue: real): (r: real)
    ensures minValue <= maxValue ==> minValue <= r <= maxValue
    ensures minValue <= value <= maxValue ==> r == value
    ensures value < minValue <= maxValue ==> r == minValue
    ensures value > maxValue ==> r == maxValue
    ensures minValue > maxValue ==> r == maxValue
    ensures r <= maxValue
  {
    Min(Max(value, minValue), maxValue)
  }

  /** The size the minimum crop box starts from, before the aspect ratio. */
  const BaseCropperSize: real := 100.0

  /** `getMinCropperSize`: 100 units on a portrait screen, scaled by the
      screen's width over (height + status bar) on a landscape one, then
      shaped to the aspect ratio. The status-bar height is a parameter. */
  function MinCropperSize(screenWidth: real, screenHeight: real, statusBarHeight: real, ratio: real): (r: Size)
    requires ratio != 0.0
    requires screenWidth > screenHeight ==> screenHeight + statusBarHeight != 0.0
    ensures r.height * ratio == r.width
    ensures screenWidth <= screenHeight ==> r.width == BaseCropperSize
    ensures screenWidth > screenHeight ==>
      r.width * (screenHeight + statusBarHeight) == BaseCropperSize * screenWidth
  {
    var size := if screenWidth > screenHeight
      then (BaseCropperSize * screenWidth) / (screenHeight + statusBarHeight)
      else BaseCropperSize;
    CreateAspectRatioRectangle(size, size, ratio)
  }

  /** The cases of the utility tests: contain 500 x 250 into 100 x 100, cover
      100 x 100 into 100 x 100, 100 x 50 at ratio 1, and three clamps. */
  lemma UtilsTestCases()
    ensures Resize(Contain, 100.0, 100.0, 500.0, 250.0) == Fit(100.0, 50.0, 0.2)
    ensures Resize(Cover, 100.0, 100.0, 100.0, 100.0) == Fit(100.0, 100.0, 1.0)
    ensures CreateAspectRatioRectangle(100.0, 50.0, 1.0) == Size(50.0, 50.0)
    ensures Clamp(1.0, 0.0, 2.0) == 1.0 && Clamp(3.0, 0.0, 2.0) == 2.0 && Clamp(-1.0, 0.0, 2.0) == 0.0
  {
  }
}
