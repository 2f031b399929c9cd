/** The image of src/components/image/index.tsx: a picture translated and
    scaled about its centre by pan and pinch gestures, re-centred so that it
    keeps covering the crop box, and mapped back through the inverse transform
    to give the crop area in the image's own coordinates. */
module ImageComponent {

  import opened Types
  import opened Utils
  import opened Hooks
  import CropBoxComponent

  // ---------------------------------------------------------------------------
  // The view transform

  /** Where the point at `u` along an image side of length `size` lands on the
      screen when the image is translated by `t` and scaled by `s` about its
      centre, as the view's `translate` then `scale` transform places it. */
  function ScreenPoint(t: real, s: real, size: real, u: real): real
  {
    t + size / 2.0 + s * (u - size / 2.0)
  }

  /** The screen transform is one-to-one along an axis when the scale is not 0. */
  lemma ScreenPointInjective(t: real, s: real, size: real, u: real, v: real)
    requires s != 0.0 && ScreenPoint(t, s, size, u) == ScreenPoint(t, s, size, v)
    ensures u == v
  {
    assert s * (u - size / 2.0) == s * (v - size / 2.0);
    assert s * (u - v) == 0.0;
  }

  /** An interval along one axis. */
  datatype Span = Span(low: real, high: real)

  /** `getCenterImage`: the middle of the unscaled image. */
  function CenterImage(imageLayout: Rect): (c: Vec)
    ensures 2.0 * c.x == imageLayout.width && 2.0 * c.y == imageLayout.height
  {
    Vec(imageLayout.width / 2.0, imageLayout.height / 2.0)
  }

  /** `getApparentX`: where the image's left and right sides are on the screen
      at translation `currentX` and scale `scale`. */
  function ApparentX(imageLayout: Rect, scale: real, currentX: real): (r: Span)
    ensures r.low == ScreenPoint(currentX, scale, imageLayout.width, 0.0)
    ensures r.high == ScreenPoint(currentX, scale, imageLayout.width, imageLayout.width)
    ensures r.high - r.low == imageLayout.width * scale
  {
    var apparentWidth := imageLayout.width * scale;
    var widthDiff := (apparentWidth - imageLayout.width) / 2.0;
    Span(currentX - widthDiff, currentX - widthDiff + imageLayout.width * scale)
  }

  /** `getApparentY`: the same for the top and bottom sides. */
  function ApparentY(imageLayout: Rect, scale: real, currentY: real): (r: Span)
    ensures r.low == ScreenPoint(currentY, scale, imageLayout.height, 0.0)
    ensures r.high == ScreenPoint(currentY, scale, imageLayout.height, imageLayout.height)
    ensures r.high - r.low == imageLayout.height * scale
  {
    var apparentHeight := imageLayout.height * scale;
    var heightDiff := (apparentHeight - imageLayout.height) / 2.0;
    Span(currentY - heightDiff, currentY - heightDiff + imageLayout.height * scale)
  }

  /** `getCropArea`: the crop box taken back through the view transform, in
      the coordinates of the unscaled image. Its corners are exactly the image
      points the view puts under the crop box's corners. */
  function CropArea(imageLayout: Rect, cropBoxLayout: Rect, scale: real, translation: Vec): (r: Rect)
    requires scale != 0.0
    ensures ScreenPoint(translation.x, scale, imageLayout.width, r.x) == cropBoxLayout.x
    ensures ScreenPoint(translation.x, scale, imageLayout.width, r.x + r.width) == cropBoxLayout.x + cropBoxLayout.width
    ensures ScreenPoint(translation.y, scale, imageLayout.height, r.y) == cropBoxLayout.y
    ensures ScreenPoint(translation.y, scale, imageLayout.height, r.y + r.height) == cropBoxLayout.y + cropBoxLayout.height
  {
    var apparentTop := ApparentY(imageLayout, scale, translation.y).low;
    var apparentLeft := ApparentX(imageLayout, scale, translation.x).low;
    var y := (cropBoxLayout.y - apparentTop) / scale;
    var x := (cropBoxLayout.x - apparentLeft) / scale;
    var r := Rect(x, y, cropBoxLayout.width / scale, cropBoxLayout.height / scale);
    UndoScale(cropBoxLayout.x - apparentLeft, cropBoxLayout.width, scale);
    UndoScale(cropBoxLayout.y - apparentTop, cropBoxLayout.height, scale);
    r
  }

  /** Dividing by the scale and scaling back gives the value again. */
  lemma UndoScale(a: real, b: real, s: real)
    requires s != 0.0
    ensures s * (a / s) == a && s * (b / s) == b
    ensures s * (a / s + b / s) == a + b
  {
  }

  // ---------------------------------------------------------------------------
  // Re-centring (`getRecenteredImagePositionValues`)

  /** The smallest scale at which the image covers the crop box. */
  function CoverScale(imageLayout: Rect, cropBoxLayout: Rect): real
    requires imageLayout.width != 0.0 && imageLayout.height != 0.0
  {
    Resize(Cover, cropBoxLayout.width, cropBoxLayout.height, imageLayout.width, imageLayout.height).scale
  }

  /** The scale, translation and apparent rectangle the image is re-centred to. */
  datatype Recentered = Recentered(scale: real, x: real, y: real,
                                   apparentLeft: real, apparentTop: real,
                                   apparentRight: real, apparentBottom: real)
  {
    function Layout(): Edges { Edges(apparentLeft, apparentTop, apparentRight, apparentBottom) }
  }

  /** Re-centring along one axis: if the image side at this scale starts after
      the crop box, its start is moved onto the box's start; else if it ends
      before the crop box, its end is moved onto the box's end; otherwise the
      translation stays. */
  function RecenteredAxis(size: real, scale: real, current: real, boxStart: real, boxSize: real): (r: real)
    ensures var before := Span(ScreenPoint(current, scale, size, 0.0), ScreenPoint(current, scale, size, size));
      && (before.low > boxStart ==> ScreenPoint(r, scale, size, 0.0) == boxStart)
      && (before.low <= boxStart && before.high < boxStart + boxSize ==>
            ScreenPoint(r, scale, size, size) == boxStart + boxSize)
      && (before.low <= boxStart && before.high >= boxStart + boxSize ==> r == current)
  {
    var apparent := size * scale;
    var diff := (apparent - size) / 2.0;
    var low := current - diff;
    var high := low + apparent;
    if low > boxStart then boxStart + diff
    else if high < boxStart + boxSize then boxStart + diff - apparent + boxSize
    else current
  }

  /** `getRecenteredImagePositionValues`: the scale is the current one raised to
      the cover scale and capped at `maxScale`; each axis is re-centred at that
      scale; the apparent rectangle is where the image then is. */
  function RecenteredValues(imageLayout: Rect, cropBoxLayout: Rect, scaleTrack: real, translation: Vec, maxScale: real): (r: Recentered)
    requires imageLayout.width != 0.0 && imageLayout.height != 0.0
    ensures r.scale == Min(maxScale, Max(scaleTrack, CoverScale(imageLayout, cropBoxLayout)))
    ensures CoverScale(imageLayout, cropBoxLayout) <= maxScale ==>
      CoverScale(imageLayout, cropBoxLayout) <= r.scale <= maxScale
    ensures r.x == RecenteredAxis(imageLayout.width, r.scale, translation.x, cropBoxLayout.x, cropBoxLayout.width)
    ensures r.y == RecenteredAxis(imageLayout.height, r.scale, translation.y, cropBoxLayout.y, cropBoxLayout.height)
    ensures Span(r.apparentLeft, r.apparentRight) == ApparentX(imageLayout, r.scale, r.x)
    ensures Span(r.apparentTop, r.apparentBottom) == ApparentY(imageLayout, r.scale, r.y)
  {
    var minScale := CoverScale(imageLayout, cropBoxLayout);
    var clampedScale := Min(maxScale, Max(scaleTrack, minScale));
    var recenteredX := RecenteredAxis(imageLayout.width, clampedScale, translation.x, cropBoxLayout.x, cropBoxLayout.width);
    var recenteredY := RecenteredAxis(imageLayout.height, clampedScale, translation.y, cropBoxLayout.y, cropBoxLayout.height);
    var h := ApparentX(imageLayout, clampedScale, recenteredX);
    var v := ApparentY(imageLayout, clampedScale, recenteredY);
    Recentered(clampedScale, recenteredX, recenteredY, h.low, v.low, h.high, v.high)
  }

  /** When the re-centred scale reaches the cover scale (that is, whenever the
      cover scale is at most `maxScale`), the re-centred image covers the crop
      box on all four sides. */
  lemma RecenterCoversCropBox(imageLayout: Rect, cropBoxLayout: Rect, scaleTrack: real, translation: Vec, maxScale: real)
    requires imageLayout.width > 0.0 && imageLayout.height > 0.0
    requires cropBoxLayout.width > 0.0 && cropBoxLayout.height > 0.0
    requires CoverScale(imageLayout, cropBoxLayout) <= maxScale
    ensures var r := RecenteredValues(imageLayout, cropBoxLayout, scaleTrack, translation, maxScale);
      r.apparentLeft <= cropBoxLayout.x && cropBoxLayout.x + cropBoxLayout.width <= r.apparentRight
      && r.apparentTop <= cropBoxLayout.y && cropBoxLayout.y + cropBoxLayout.height <= r.apparentBottom
  {
    var r := RecenteredValues(imageLayout, cropBoxLayout, scaleTrack, translation, maxScale);
    CoverScaleReaches(imageLayout, cropBoxLayout);
    RecenteredCovers(imageLayout, cropBoxLayout, translation, CoverScale(imageLayout, cropBoxLayout), r);
  }

  /** At scale `cover` the image reaches the crop box's size on both sides. */
  predicate Reaches(imageLayout: Rect, cropBoxLayout: Rect, cover: real)
  {
    cover * imageLayout.width >= cropBoxLayout.width && cover * imageLayout.height >= cropBoxLayout.height
  }

  lemma CoverScaleReaches(imageLayout: Rect, cropBoxLayout: Rect)
    requires imageLayout.width > 0.0 && imageLayout.height > 0.0
    requires cropBoxLayout.width > 0.0 && cropBoxLayout.height > 0.0
    ensures Reaches(imageLayout, cropBoxLayout, CoverScale(imageLayout, cropBoxLayout))
  {
    ResizeCoverCovers(cropBoxLayout.width, cropBoxLayout.height, imageLayout.width, imageLayout.height);
  }

  /** The re-centred values at a scale no smaller than one at which the image
      reaches the crop box on both sides cover the box. */
  lemma RecenteredCovers(imageLayout: Rect, cropBoxLayout: Rect, translation: Vec, cover: real, r: Recentered)
    requires imageLayout.width > 0.0 && imageLayout.height > 0.0 && cover <= r.scale
    requires Reaches(imageLayout, cropBoxLayout, cover)
    requires r.x == RecenteredAxis(imageLayout.width, r.scale, translation.x, cropBoxLayout.x, cropBoxLayout.width)
    requires r.y == RecenteredAxis(imageLayout.height, r.scale, translation.y, cropBoxLayout.y, cropBoxLayout.height)
    requires Span(r.apparentLeft, r.apparentRight) == ApparentX(imageLayout, r.scale, r.x)
    requires Span(r.apparentTop, r.apparentBottom) == ApparentY(imageLayout, r.scale, r.y)
    ensures r.apparentLeft <= cropBoxLayout.x && cropBoxLayout.x + cropBoxLayout.width <= r.apparentRight
    ensures r.apparentTop <= cropBoxLayout.y && cropBoxLayout.y + cropBoxLayout.height <= r.apparentBottom
  {
    RecenteredAxisCovers(imageLayout.width, cover, r.scale, translation.x, cropBoxLayout.x, cropBoxLayout.width);
    RecenteredAxisCovers(imageLayout.height, cover, r.scale, translation.y, cropBoxLayout.y, cropBoxLayout.height);
  }

  /** Along one axis, at a scale no smaller than one at which the image side
      reaches the crop box side, the re-centred image covers the box. */
  lemma RecenteredAxisCovers(size: real, cover: real, scale: real, current: real, boxStart: real, boxSize: real)
    requires size > 0.0 && cover * size >= boxSize && cover <= scale
    ensures var r := RecenteredAxis(size, scale, current, boxStart, boxSize);
      ScreenPoint(r, scale, size, 0.0) <= boxStart
      && boxStart + boxSize <= ScreenPoint(r, scale, size, size)
  {
    ScaledAtLeast(size, cover, scale, boxSize);
    CoveringAxis(size, scale, current, boxStart, boxSize);
  }

  /** A side that reaches `bound` at scale `low` still does at any larger scale. */
  lemma ScaledAtLeast(size: real, low: real, high: real, bound: real)
    requires size > 0.0 && low <= high && low * size >= bound
    ensures size * high >= bound
  {
    assert size * high - size * low == size * (high - low);
  }

  /** Along one axis, an image side at least as long as the crop box side
      covers it once re-centred. */
  lemma CoveringAxis(size: real, scale: real, current: real, boxStart: real, boxSize: real)
    requires size * scale >= boxSize
    ensures var r := RecenteredAxis(size, scale, current, boxStart, boxSize);
      ScreenPoint(r, scale, size, 0.0) <= boxStart
      && boxStart + boxSize <= ScreenPoint(r, scale, size, size)
  {
    var r := RecenteredAxis(size, scale, current, boxStart, boxSize);
    assert ScreenPoint(r, scale, size, size) - ScreenPoint(r, scale, size, 0.0) == size * scale;
  }

  // ---------------------------------------------------------------------------
  // Zooming with the crop box (`pinchToZoom`) and pinching

  /** A scale and a translation of the image. */
  datatype Zoom = Zoom(scale: real, translation: Vec)

  /** `pinchToZoom`'s targets: the crop box's settle similarity applied to the
      image, with the scale capped at `maxScale`. */
  function PinchToZoomTargets(imageLayout: Rect, scaleTrack: real, translation: Vec, ev: CropBoxDoneEvent, maxScale: real): (z: Zoom)
    ensures z.scale == Min(maxScale, scaleTrack * ev.scale)
  {
    var newScale := Min(maxScale, scaleTrack * ev.scale);
    var c := CenterImage(imageLayout);
    var dX := (c.x - ev.focalX + translation.x) * (ev.scale - 1.0);
    var dY := (c.y - ev.focalY + translation.y) * (ev.scale - 1.0);
    Zoom(newScale, Vec(translation.x + dX + ev.translateX, translation.y + dY + ev.translateY))
  }

  /** The cap only limits the scale: the translation `pinchToZoom` targets is
      the one that, at the uncapped scale `scaleTrack * ev.scale`, moves every
      image point as the crop box's settle moves the box. */
  lemma PinchToZoomTranslationIgnoresCap(imageLayout: Rect, scaleTrack: real, translation: Vec, ev: CropBoxDoneEvent,
                                         maxScale: real, u: real, v: real)
    ensures var z := PinchToZoomTargets(imageLayout, scaleTrack, translation, ev, maxScale);
      && ScreenPoint(z.translation.x, scaleTrack * ev.scale, imageLayout.width, u)
         == ev.focalX + ev.scale * (ScreenPoint(translation.x, scaleTrack, imageLayout.width, u) - ev.focalX) + ev.translateX
      && ScreenPoint(z.translation.y, scaleTrack * ev.scale, imageLayout.height, v)
         == ev.focalY + ev.scale * (ScreenPoint(translation.y, scaleTrack, imageLayout.height, v) - ev.focalY) + ev.translateY
  {
    PinchToZoomFollowsCropBox(imageLayout, scaleTrack, translation, ev, scaleTrack * ev.scale, u, v);
  }

  /** Unless the scale is capped, `pinchToZoom` moves every image point as the
      crop box's settle moves the box: scaled by `ev.scale` about the focal
      point, then translated. */
  lemma PinchToZoomFollowsCropBox(imageLayout: Rect, scaleTrack: real, translation: Vec, ev: CropBoxDoneEvent,
                                  maxScale: real, u: real, v: real)
    requires scaleTrack * ev.scale <= maxScale
    ensures var z := PinchToZoomTargets(imageLayout, scaleTrack, translation, ev, maxScale);
      && ScreenPoint(z.translation.x, z.scale, imageLayout.width, u)
         == ev.focalX + ev.scale * (ScreenPoint(translation.x, scaleTrack, imageLayout.width, u) - ev.focalX) + ev.translateX
      && ScreenPoint(z.translation.y, z.scale, imageLayout.height, v)
         == ev.focalY + ev.scale * (ScreenPoint(translation.y, scaleTrack, imageLayout.height, v) - ev.focalY) + ev.translateY
  {
    var z := PinchToZoomTargets(imageLayout, scaleTrack, translation, ev, maxScale);
    SimilarityOfZoom(imageLayout.width / 2.0, translation.x, scaleTrack, ev.scale, ev.focalX, ev.translateX, u);
    SimilarityOfZoom(imageLayout.height / 2.0, translation.y, scaleTrack, ev.scale, ev.focalY, ev.translateY, v);
  }

  /** The algebra of one axis of `pinchToZoom`. */
  lemma SimilarityOfZoom(c: real, t: real, s: real, k: real, f: real, d: real, u: real)
    ensures var t1 := t + (c - f + t) * (k - 1.0) + d;
      t1 + c + (s * k) * (u - c) == f + k * (t + c + s * (u - c) - f) + d
  {
    var t1 := t + (c - f + t) * (k - 1.0) + d;
    assert (c - f + t) * (k - 1.0) == k * (c - f + t) - (c - f + t);
    assert (s * k) * (u - c) == k * (s * (u - c));
    assert k * (t + c + s * (u - c) - f) == k * (c - f + t) + k * (s * (u - c));
  }

  /** Moving the translation from `t` to `t1` moves the image's displayed
      centre as a zoom by `k` about `focal` would. */
  predicate ZoomsCentreAbout(t: Vec, t1: Vec, k: real, focal: Vec, imageLayout: Rect)
  {
    && t1.x + imageLayout.width / 2.0 == focal.x + k * (t.x + imageLayout.width / 2.0 - focal.x)
    && t1.y + imageLayout.height / 2.0 == focal.y + k * (t.y + imageLayout.height / 2.0 - focal.y)
  }

  /** One ACTIVE pinch event: the scale track is multiplied by the event's
      ratio, held at least 0.2 under the cover scale and capped at `maxScale`;
      below the cap the translation moves the image's displayed centre as a
      zoom by the unclamped ratio about the fingers' focal point would, which
      keeps the image point under the focal point where it is unless the floor
      binds; at the cap it stays. */
  function PinchStep(imageLayout: Rect, scaleTrack: real, translation: Vec, scaleFrame: real, focal: Vec,
                     minScale: real, maxScale: real): (z: Zoom)
    ensures z.scale == Min(Max(scaleTrack * scaleFrame, minScale - 0.2), maxScale)
    ensures z.scale >= maxScale ==> z.translation == translation
    ensures z.scale < maxScale ==> ZoomsCentreAbout(translation, z.translation, scaleFrame, focal, imageLayout)
  {
    var c := CenterImage(imageLayout);
    var deltaPinchX := (1.0 - scaleFrame) * (focal.x - translation.x - c.x);
    var deltaPinchY := (1.0 - scaleFrame) * (focal.y - translation.y - c.y);
    var nextScale := Max(scaleTrack * scaleFrame, minScale - 0.2);
    var newScale := Min(nextScale, maxScale);
    if newScale < maxScale then Zoom(newScale, Vec(translation.x + deltaPinchX, translation.y + deltaPinchY))
    else Zoom(newScale, translation)
  }

  /** When neither bound applies, a pinch keeps the image point under the
      focal point where it is. */
  lemma PinchKeepsFocalPointFixed(imageLayout: Rect, scaleTrack: real, translation: Vec, scaleFrame: real, focal: Vec,
                                  minScale: real, maxScale: real, u: real, v: real)
    requires scaleTrack != 0.0
    requires minScale - 0.2 <= scaleTrack * scaleFrame < maxScale
    requires ScreenPoint(translation.x, scaleTrack, imageLayout.width, u) == focal.x
    requires ScreenPoint(translation.y, scaleTrack, imageLayout.height, v) == focal.y
    ensures var z := PinchStep(imageLayout, scaleTrack, translation, scaleFrame, focal, minScale, maxScale);
      ScreenPoint(z.translation.x, z.scale, imageLayout.width, u) == focal.x
      && ScreenPoint(z.translation.y, z.scale, imageLayout.height, v) == focal.y
  {
    FocalAxis(imageLayout.width / 2.0, translation.x, scaleTrack, scaleFrame, focal.x, u);
    FocalAxis(imageLayout.height / 2.0, translation.y, scaleTrack, scaleFrame, focal.y, v);
  }

  /** When the floor binds, the image point under the focal point ends away
      from it, by the difference between the floor and the unclamped scale,
      times the point's distance from the image's centre. */
  lemma PinchAtFloorShiftsFocalPoint(imageLayout: Rect, scaleTrack: real, translation: Vec, scaleFrame: real,
                                     focal: Vec, minScale: real, maxScale: real, u: real, v: real)
    requires scaleTrack * scaleFrame < minScale - 0.2 < maxScale
    requires ScreenPoint(translation.x, scaleTrack, imageLayout.width, u) == focal.x
    requires ScreenPoint(translation.y, scaleTrack, imageLayout.height, v) == focal.y
    ensures var z := PinchStep(imageLayout, scaleTrack, translation, scaleFrame, focal, minScale, maxScale);
      var shift := minScale - 0.2 - scaleTrack * scaleFrame;
      && z.scale == minScale - 0.2
      && ScreenPoint(z.translation.x, z.scale, imageLayout.width, u) == focal.x + shift * (u - imageLayout.width / 2.0)
      && ScreenPoint(z.translation.y, z.scale, imageLayout.height, v) == focal.y + shift * (v - imageLayout.height / 2.0)
  {
    FloorAxis(imageLayout.width / 2.0, translation.x, scaleTrack, scaleFrame, focal.x, u, minScale - 0.2);
    FloorAxis(imageLayout.height / 2.0, translation.y, scaleTrack, scaleFrame, focal.y, v, minScale - 0.2);
  }

  /** The algebra of one axis of a pinch step whose scale is replaced by `f`. */
  lemma FloorAxis(c: real, t: real, s: real, k: real, p: real, u: real, f: real)
    requires t + c + s * (u - c) == p
    ensures (t + (1.0 - k) * (p - t - c)) + c + f * (u - c) == p + (f - s * k) * (u - c)
  {
    FocalAxis(c, t, s, k, p, u);
    assert f * (u - c) == (s * k) * (u - c) + (f - s * k) * (u - c);
  }

  /** When the floor binds, the translation still moves by the unclamped
      ratio's offset, so the image point under the focal point drifts: a
      pinch to half size at the left edge of a 100 x 100 image that must stay
      at scale 0.8 moves the point that was at 0 to -15. */
  lemma PinchAtFloorMovesFocalPoint()
    ensures ScreenPoint(0.0, 1.0, 100.0, 0.0) == 0.0
    ensures var z := PinchStep(Rect(0.0, 0.0, 100.0, 100.0), 1.0, Vec(0.0, 0.0), 0.5, Vec(0.0, 0.0), 1.0, 10.0);
      z.scale == 0.8 && ScreenPoint(z.translation.x, z.scale, 100.0, 0.0) == -15.0
  {
  }

  /** The algebra of one axis of a pinch step. */
  lemma FocalAxis(c: real, t: real, s: real, k: real, p: real, u: real)
    requires t + c + s * (u - c) == p
    ensures (t + (1.0 - k) * (p - t - c)) + c + (s * k) * (u - c) == p
  {
    assert p - t - c == s * (u - c);
    assert (1.0 - k) * (s * (u - c)) == s * (u - c) - k * (s * (u - c));
    assert (s * k) * (u - c) == k * (s * (u - c));
  }

  /** Moving the crop box and the image by the same similarity (scale by
      `ev.scale` about the focal point, then translate) leaves the crop area
      unchanged, unless the image scale is capped. */
  lemma SimilarityKeepsCropArea(imageLayout: Rect, cropBoxLayout: Rect, scaleTrack: real, translation: Vec,
                                ev: CropBoxDoneEvent, maxScale: real)
    requires scaleTrack != 0.0 && ev.scale != 0.0 && scaleTrack * ev.scale <= maxScale
    requires ev.focalX + ev.scale * (cropBoxLayout.x - ev.focalX) + ev.translateX == ev.x
    requires ev.focalX + ev.scale * (cropBoxLayout.x + cropBoxLayout.width - ev.focalX) + ev.translateX == ev.x + ev.width
    requires ev.focalY + ev.scale * (cropBoxLayout.y - ev.focalY) + ev.translateY == ev.y
    requires ev.focalY + ev.scale * (cropBoxLayout.y + cropBoxLayout.height - ev.focalY) + ev.translateY == ev.y + ev.height
    ensures var z := PinchToZoomTargets(imageLayout, scaleTrack, translation, ev, maxScale);
      CropArea(imageLayout, ev.Layout(), z.scale, z.translation) == CropArea(imageLayout, cropBoxLayout, scaleTrack, translation)
  {
    var z := PinchToZoomTargets(imageLayout, scaleTrack, translation, ev, maxScale);
    var before := CropArea(imageLayout, cropBoxLayout, scaleTrack, translation);
    assert z.scale == scaleTrack * ev.scale;
    NonZeroProduct(scaleTrack, ev.scale);
    var after := CropArea(imageLayout, ev.Layout(), z.scale, z.translation);
    // the image points under the old box's corners land under the new box's corners
    PinchToZoomFollowsCropBox(imageLayout, scaleTrack, translation, ev, maxScale, before.x, before.y);
    PinchToZoomFollowsCropBox(imageLayout, scaleTrack, translation, ev, maxScale, before.x + before.width, before.y + before.height);
    ScreenPointInjective(z.translation.x, z.scale, imageLayout.width, after.x, before.x);
    ScreenPointInjective(z.translation.y, z.scale, imageLayout.height, after.y, before.y);
    ScreenPointInjective(z.translation.x, z.scale, imageLayout.width, after.x + after.width, before.x + before.width);
    ScreenPointInjective(z.translation.y, z.scale, imageLayout.height, after.y + after.height, before.y + before.height);
  }

  lemma NonZeroProduct(a: real, b: real)
    requires a != 0.0 && b != 0.0
    ensures a * b != 0.0
  {
  }

  /** The crop box's settle and the image's `pinchToZoom` with the same event
      leave the crop area unchanged, unless the image scale is capped. */
  lemma SettleKeepsCropArea(containerLayout: Rect, box: Edges, imageLayout: Rect, scaleTrack: real, translation: Vec,
                            maxScale: real)
    requires box.Width() != 0.0 && box.Height() != 0.0 && scaleTrack != 0.0
    requires var d := CropBoxComponent.NextBoxBounderies(containerLayout, box);
      d.scale != 0.0 && scaleTrack * d.scale <= maxScale
    ensures var d := CropBoxComponent.NextBoxBounderies(containerLayout, box);
      var z := PinchToZoomTargets(imageLayout, scaleTrack, translation, d, maxScale);
      CropArea(imageLayout, d.Layout(), z.scale, z.translation)
        == CropArea(imageLayout, CropBoxComponent.CurrentBoxBounderies(box), scaleTrack, translation)
  {
    var d := CropBoxComponent.NextBoxBounderies(containerLayout, box);
    var crop := CropBoxComponent.CurrentBoxBounderies(box);
    assert crop.x + crop.width == box.right && crop.y + crop.height == box.bottom;
    SimilarityKeepsCropArea(imageLayout, crop, scaleTrack, translation, d, maxScale);
  }

  // ---------------------------------------------------------------------------
  // Decay animations

  /** `decayValues`: the last translation the animated value's listener saw,
      and whether a decay animation is running on each axis. */
  datatype DecayValues = DecayValues(x: real, y: real, stateX: GestureState, stateY: GestureState)

  /** Which axes an event stopped a running decay on; the host then delivers
      each stopped decay's completion callback (`Image.DecayEnd`). */
  datatype Axes = Axes(x: bool, y: bool)

  /** The listener's stop test along one axis: the image side has reached or
      passed the crop box's start or its end. */
  predicate ReachedCropEdge(side: Span, boxStart: real, boxSize: real)
  {
    side.low >= boxStart || side.high <= boxStart + boxSize
  }

  /** The image spans the crop box on both axes. */
  predicate CoversCropBox(imageLayout: Rect, cropBoxLayout: Rect, scale: real, translation: Vec)
  {
    var h := ApparentX(imageLayout, scale, translation.x);
    var v := ApparentY(imageLayout, scale, translation.y);
    h.low <= cropBoxLayout.x && cropBoxLayout.x + cropBoxLayout.width <= h.high
    && v.low <= cropBoxLayout.y && cropBoxLayout.y + cropBoxLayout.height <= v.high
  }

  // ---------------------------------------------------------------------------
  // The component

  /** The image component's refs: the image and crop-box layouts, the animated
      scale and translation with their logical tracks, the pan and pinch frame
      trackers, and the decay record. An animation is modelled by its end
      state: at completion the animated value equals its target. */
  class Image {
    const maxScale: real
    const panFrame: PanTranslationFrame
    const scaleFrame: ScaleFrame
    var imageLayout: Rect
    var cropBoxLayout: Rect
    /** The animated scale and translation the view shows. */
    var displayScale: real
    var displayTranslation: Vec
    /** The logical scale and translation the geometry reads. */
    var displayScaleTrack: real
    var displayTranslationTrack: Vec
    var decayValues: DecayValues

    /** The scale stays positive, and the decay record holds the last value of
        the animated translation (its listener runs on every change). */
    ghost predicate Valid()
      reads this, panFrame, scaleFrame
    {
      panFrame.Valid() && scaleFrame.Valid() && scaleFrame.prevValue > 0.0
      && maxScale > 0.0 && displayScaleTrack > 0.0
      && decayValues.x == displayTranslation.x && decayValues.y == displayTranslation.y
    }

    /** Re-centring needs the image's size (the cover scale divides by it). */
    predicate Sized()
      reads this
    {
      imageLayout.width != 0.0 && imageLayout.height != 0.0
    }

    /** Where `getRecenteredImagePositionValues` puts the image now. */
    function Recentering(): Recentered
      reads this
      requires Sized()
    {
      RecenteredValues(imageLayout, cropBoxLayout, displayScaleTrack, displayTranslationTrack, maxScale)
    }

    constructor (maxScale: real)
      requires maxScale > 0.0
      ensures Valid() && this.maxScale == maxScale
      ensures imageLayout == Rect(0.0, 0.0, 0.0, 0.0) && cropBoxLayout == Rect(0.0, 0.0, 0.0, 0.0)
      ensures displayScale == 1.0 && displayScaleTrack == 1.0
      ensures displayTranslation == Vec(0.0, 0.0) && displayTranslationTrack == Vec(0.0, 0.0)
      ensures decayValues == DecayValues(0.0, 0.0, End, End)
      ensures fresh(panFrame) && fresh(scaleFrame)
    {
      this.maxScale := maxScale;
      panFrame := new PanTranslationFrame(None, None);
      scaleFrame := new ScaleFrame();
      imageLayout := Rect(0.0, 0.0, 0.0, 0.0);
      cropBoxLayout := Rect(0.0, 0.0, 0.0, 0.0);
      displayScale, displayScaleTrack := 1.0, 1.0;
      displayTranslation, displayTranslationTrack := Vec(0.0, 0.0), Vec(0.0, 0.0);
      decayValues := DecayValues(0.0, 0.0, End, End);
    }

    /** Sets the animated translation; its listener records the value. */
    method MoveTo(v: Vec)
      modifies this
      ensures displayTranslation == v && decayValues == old(decayValues).(x := v.x, y := v.y)
      ensures displayScale == old(displayScale) && displayScaleTrack == old(displayScaleTrack)
      ensures displayTranslationTrack == old(displayTranslationTrack)
      ensures imageLayout == old(imageLayout) && cropBoxLayout == old(cropBoxLayout)
    {
      displayTranslation := v;
      decayValues := decayValues.(x := v.x, y := v.y);
    }

    /** `setCropboxLayout`. */
    method SetCropboxLayout(layout: Rect)
      modifies this
      ensures cropBoxLayout == layout && imageLayout == old(imageLayout)
      ensures displayScale == old(displayScale) && displayScaleTrack == old(displayScaleTrack)
      ensures displayTranslation == old(displayTranslation) && displayTranslationTrack == old(displayTranslationTrack)
      ensures decayValues == old(decayValues)
    {
      cropBoxLayout := layout;
    }

    /** `resetTo`: the image is placed at (x, y) with the given size and scale,
        both animated and logical. */
    method ResetTo(x: real, y: real, scale: real, width: real, height: real)
      requires Valid() && scale > 0.0
      modifies this
      ensures Valid()
      ensures imageLayout == Rect(x, y, width, height) && cropBoxLayout == old(cropBoxLayout)
      ensures displayTranslation == Vec(x, y) && displayTranslationTrack == Vec(x, y)
      ensures displayScale == scale && displayScaleTrack == scale
      ensures decayValues.stateX == old(decayValues).stateX && decayValues.stateY == old(decayValues).stateY
    {
      MoveTo(Vec(x, y));
      displayTranslationTrack := Vec(x, y);
      displayScale, displayScaleTrack := scale, scale;
      imageLayout := Rect(x, y, width, height);
    }

    /** `getCropArea`: the crop box in the unscaled image's coordinates, read
        through the logical transform. */
    function GetCropArea(): (r: Rect)
      reads this, panFrame, scaleFrame
      requires Valid()
      ensures ScreenPoint(displayTranslationTrack.x, displayScaleTrack, imageLayout.width, r.x) == cropBoxLayout.x
      ensures ScreenPoint(displayTranslationTrack.x, displayScaleTrack, imageLayout.width, r.x + r.width)
              == cropBoxLayout.x + cropBoxLayout.width
      ensures ScreenPoint(displayTranslationTrack.y, displayScaleTrack, imageLayout.height, r.y) == cropBoxLayout.y
      ensures ScreenPoint(displayTranslationTrack.y, displayScaleTrack, imageLayout.height, r.y + r.height)
              == cropBoxLayout.y + cropBoxLayout.height
    {
      CropArea(imageLayout, cropBoxLayout, displayScaleTrack, displayTranslationTrack)
    }

    /** `recenterImage`: the scale and the chosen axes go to their re-centred
        values; `onImageDone` receives the re-centred apparent rectangle. With
        both axes, and a cover scale within `maxScale`, the image then covers
        the crop box. */
    method RecenterImage(axisX: bool, axisY: bool) returns (done: Edges)
      requires Valid() && Sized()
      modifies this
      ensures Valid()
      ensures imageLayout == old(imageLayout) && cropBoxLayout == old(cropBoxLayout)
      ensures decayValues.stateX == old(decayValues).stateX && decayValues.stateY == old(decayValues).stateY
      ensures var r := old(Recentering());
        && done == r.Layout()
        && displayScale == r.scale && displayScaleTrack == r.scale
        && displayTranslationTrack
           == Vec(if axisX then r.x else old(displayTranslationTrack).x, if axisY then r.y else old(displayTranslationTrack).y)
        && displayTranslation
           == Vec(if axisX then r.x else old(displayTranslation).x, if axisY then r.y else old(displayTranslation).y)
      ensures axisX && axisY && imageLayout.width > 0.0 && imageLayout.height > 0.0
              && cropBoxLayout.width > 0.0 && cropBoxLayout.height > 0.0
              && CoverScale(imageLayout, cropBoxLayout) <= maxScale
        ==> CoversCropBox(imageLayout, cropBoxLayout, displayScaleTrack, displayTranslationTrack)
    {
      var r := Recentering();
      if axisX && axisY && imageLayout.width > 0.0 && imageLayout.height > 0.0
         && cropBoxLayout.width > 0.0 && cropBoxLayout.height > 0.0
         && CoverScale(imageLayout, cropBoxLayout) <= maxScale {
        RecenterCoversCropBox(imageLayout, cropBoxLayout, displayScaleTrack, displayTranslationTrack, maxScale);
      }
      displayScale := r.scale;
      MoveTo(Vec(if axisX then r.x else displayTranslation.x, if axisY then r.y else displayTranslation.y));
      displayTranslationTrack := Vec(if axisX then r.x else displayTranslationTrack.x,
                                     if axisY then r.y else displayTranslationTrack.y);
      displayScaleTrack := r.scale;
      done := r.Layout();
    }

    /** `panGestureEvent`. BEGAN stops the animations; ACTIVE adds the pan
        frame to the logical translation, shows it and reports a move (the
        logical translation follows the finger); END resets the frame tracker
        and starts a decay on both axes. */
    method PanGestureEvent(state: GestureState, translation: Vec) returns (moved: bool, stopped: Axes)
      requires Valid()
      modifies this, panFrame
      ensures Valid()
      ensures imageLayout == old(imageLayout) && cropBoxLayout == old(cropBoxLayout)
      ensures displayScale == old(displayScale) && displayScaleTrack == old(displayScaleTrack)
      ensures moved <==> state == Active
      ensures stopped == if state == Began then Axes(old(decayValues).stateX == Active, old(decayValues).stateY == Active)
                         else Axes(false, false)
      ensures state == Active ==>
        && panFrame.Readings == old(panFrame.Readings) + [translation] && panFrame.Baseline == old(panFrame.Baseline)
        && displayTranslationTrack == old(displayTranslationTrack).Plus(translation.Minus(old(panFrame.prevValue)))
        && displayTranslation == displayTranslationTrack
        && decayValues.stateX == old(decayValues).stateX && decayValues.stateY == old(decayValues).stateY
      ensures state == End ==>
        && panFrame.Readings == [] && panFrame.prevValue == Vec(0.0, 0.0)
        && displayTranslation == old(displayTranslation) && displayTranslationTrack == old(displayTranslationTrack)
        && decayValues == old(decayValues).(stateX := Active, stateY := Active)
      ensures state != Active && state != End ==>
        && panFrame.Readings == old(panFrame.Readings) && panFrame.prevValue == old(panFrame.prevValue)
        && displayTranslation == old(displayTranslation) && displayTranslationTrack == old(displayTranslationTrack)
        && decayValues == old(decayValues)
    {
      moved, stopped := false, Axes(false, false);
      if state == Began {
        // `stopAllAnimations`: the running decays stop, and the host then
        // delivers their completion callbacks
        stopped := Axes(decayValues.stateX == Active, decayValues.stateY == Active);
      } else if state == Active {
        var frames := panFrame.Update(translation);
        displayTranslationTrack := displayTranslationTrack.Plus(frames);
        MoveTo(displayTranslationTrack);
        moved := true;
      } else if state == End {
        panFrame.Reset(None, None);
        DecayImage();
      }
    }

    /** `decayImage`: both axes' decays start (their physics is not modelled;
        the host delivers their frames and completions). */
    method DecayImage()
      modifies this
      ensures decayValues == old(decayValues).(stateX := Active, stateY := Active)
      ensures imageLayout == old(imageLayout) && cropBoxLayout == old(cropBoxLayout)
      ensures displayScale == old(displayScale) && displayScaleTrack == old(displayScaleTrack)
      ensures displayTranslation == old(displayTranslation) && displayTranslationTrack == old(displayTranslationTrack)
    {
      decayValues := decayValues.(stateX := Active, stateY := Active);
    }

    /** `trackDecayAnimations`, run by the listener on a decay frame that moves
        the translation to `value`: on each axis whose decay runs and whose
        image side (at the logical scale) has reached the crop box's start or
        end, the logical translation takes the value and the decay is stopped. */
    method DecayFrame(value: Vec) returns (stopped: Axes)
      requires Valid()
      modifies this
      ensures Valid()
      ensures imageLayout == old(imageLayout) && cropBoxLayout == old(cropBoxLayout)
      ensures displayScale == old(displayScale) && displayScaleTrack == old(displayScaleTrack)
      ensures displayTranslation == value
      ensures decayValues == old(decayValues).(x := value.x, y := value.y)
      ensures stopped.x <==>
        (old(decayValues).stateX == Active && ReachedCropEdge(ApparentX(imageLayout, displayScaleTrack, value.x), cropBoxLayout.x, cropBoxLayout.width))
      ensures stopped.y <==>
        (old(decayValues).stateY == Active && ReachedCropEdge(ApparentY(imageLayout, displayScaleTrack, value.y), cropBoxLayout.y, cropBoxLayout.height))
      ensures displayTranslationTrack == Vec(if stopped.x then value.x else old(displayTranslationTrack).x,
                                             if stopped.y then value.y else old(displayTranslationTrack).y)
    {
      MoveTo(value);
      var stopY := decayValues.stateY == Active
        && ReachedCropEdge(ApparentY(imageLayout, displayScaleTrack, value.y), cropBoxLayout.y, cropBoxLayout.height);
      if stopY {
        displayTranslationTrack := displayTranslationTrack.(y := value.y);
      }
      var stopX := decayValues.stateX == Active
        && ReachedCropEdge(ApparentX(imageLayout, displayScaleTrack, value.x), cropBoxLayout.x, cropBoxLayout.width);
      if stopX {
        displayTranslationTrack := displayTranslationTrack.(x := value.x);
      }
      stopped := Axes(stopX, stopY);
    }

    /** A decay's completion callback, for the x axis when `axisX` and the y
        axis otherwise: the axis's decay is over, its logical translation takes
        the last value the listener saw, and the image is re-centred on that
        axis. */
    method DecayEnd(axisX: bool) returns (done: Edges)
      requires Valid() && Sized()
      modifies this
      ensures Valid()
      ensures imageLayout == old(imageLayout) && cropBoxLayout == old(cropBoxLayout)
      ensures decayValues.stateX == (if axisX then End else old(decayValues).stateX)
      ensures decayValues.stateY == (if axisX then old(decayValues).stateY else End)
      ensures var settled := if axisX then old(displayTranslationTrack).(x := old(displayTranslation).x)
                             else old(displayTranslationTrack).(y := old(displayTranslation).y);
        var r := RecenteredValues(imageLayout, cropBoxLayout, old(displayScaleTrack), settled, maxScale);
        && done == r.Layout()
        && displayScale == r.scale && displayScaleTrack == r.scale
        && displayTranslationTrack == (if axisX then settled.(x := r.x) else settled.(y := r.y))
        && displayTranslation == (if axisX then old(displayTranslation).(x := r.x) else old(displayTranslation).(y := r.y))
    {
      if axisX {
        decayValues := decayValues.(stateX := End);
        displayTranslationTrack := displayTranslationTrack.(x := decayValues.x);
      } else {
        decayValues := decayValues.(stateY := End);
        displayTranslationTrack := displayTranslationTrack.(y := decayValues.y);
      }
      done := RecenterImage(axisX, !axisX);
    }

    /** `pinchGestureEvent`. BEGAN stops the animations; ACTIVE takes one
        pinch step (scale bounded below by the cover scale less 0.2 and above
        by `maxScale`; below the cap the focal point stays put, the new values
        are shown and a move is reported); END resets the frame tracker and
        re-centres both axes. */
    method PinchGestureEvent(state: GestureState, scale: real, focal: Vec) returns (moved: bool, stopped: Axes, done: Option<Edges>)
      requires Valid() && Sized()
      requires state == Active ==> scale > 0.0
      modifies this, scaleFrame
      ensures Valid()
      ensures imageLayout == old(imageLayout) && cropBoxLayout == old(cropBoxLayout)
      ensures stopped == if state == Began then Axes(old(decayValues).stateX == Active, old(decayValues).stateY == Active)
                         else Axes(false, false)
      ensures done.Some? <==> state == End
      ensures state == Active ==>
        && scaleFrame.Readings == old(scaleFrame.Readings) + [scale]
        && var z := PinchStep(imageLayout, old(displayScaleTrack), old(displayTranslationTrack), scale / old(scaleFrame.prevValue),
                              focal, CoverScale(imageLayout, cropBoxLayout), maxScale);
           && displayScaleTrack == z.scale && displayTranslationTrack == z.translation
           && (moved <==> z.scale < maxScale)
           && (moved ==> displayScale == z.scale && displayTranslation == z.translation)
           && (!moved ==> displayScale == old(displayScale) && displayTranslation == old(displayTranslation))
      ensures state == End ==>
        && scaleFrame.Readings == [] && scaleFrame.prevValue == 1.0 && !moved
        && var r := old(Recentering());
           && done == Some(r.Layout())
           && displayScale == r.scale && displayScaleTrack == r.scale
           && displayTranslation == Vec(r.x, r.y) && displayTranslationTrack == Vec(r.x, r.y)
      ensures state != Active && state != End ==>
        && !moved && scaleFrame.Readings == old(scaleFrame.Readings) && scaleFrame.prevValue == old(scaleFrame.prevValue)
        && displayScale == old(displayScale) && displayScaleTrack == old(displayScaleTrack)
        && displayTranslation == old(displayTranslation) && displayTranslationTrack == old(displayTranslationTrack)
    {
      moved, stopped, done := false, Axes(false, false), None;
      if state == Began {
        // `stopAllAnimations`: the running decays stop, and the host then
        // delivers their completion callbacks
        stopped := Axes(decayValues.stateX == Active, decayValues.stateY == Active);
      } else if state == Active {
        moved := PinchMove(scale, focal);
      } else if state == End {
        scaleFrame.Reset();
        var e := RecenterImage(true, true);
        done := Some(e);
      }
    }

    /** An ACTIVE pinch event: one `PinchStep` with the ratio of the reading to
        the previous one; the displayed values follow only below the cap. */
    method PinchMove(scale: real, focal: Vec) returns (moved: bool)
      requires Valid() && Sized() && scale > 0.0
      modifies this, scaleFrame
      ensures Valid()
      ensures imageLayout == old(imageLayout) && cropBoxLayout == old(cropBoxLayout)
      ensures decayValues.stateX == old(decayValues).stateX && decayValues.stateY == old(decayValues).stateY
      ensures scaleFrame.Readings == old(scaleFrame.Readings) + [scale]
      ensures var z := PinchStep(imageLayout, old(displayScaleTrack), old(displayTranslationTrack), scale / old(scaleFrame.prevValue),
                                 focal, CoverScale(imageLayout, cropBoxLayout), maxScale);
        && displayScaleTrack == z.scale && displayTranslationTrack == z.translation
        && (moved <==> z.scale < maxScale)
        && (moved ==> displayScale == z.scale && displayTranslation == z.translation)
        && (!moved ==> displayScale == old(displayScale) && displayTranslation == old(displayTranslation))
    {
      var minScale := CoverScale(imageLayout, cropBoxLayout);
      var prev := scaleFrame.prevValue;
      var frame := scaleFrame.Update(scale);
      assert frame == scale / prev;
      PositiveRatio(scale, prev, frame, displayScaleTrack);
      var z := PinchStep(imageLayout, displayScaleTrack, displayTranslationTrack, frame, focal, minScale, maxScale);
      displayScaleTrack := z.scale;
      moved := false;
      if z.scale < maxScale {
        displayTranslationTrack := z.translation;
        displayScale := z.scale;
        MoveTo(z.translation);
        moved := true;
      }
    }

    /** `pinchToZoom`, called with the crop box's settle event: the image goes
        through the same similarity as the crop box (scale capped at
        `maxScale`) and is then re-centred on both axes. */
    method PinchToZoom(ev: CropBoxDoneEvent) returns (done: Edges)
      requires Valid() && Sized() && ev.scale > 0.0
      modifies this
      ensures Valid()
      ensures imageLayout == old(imageLayout) && cropBoxLayout == old(cropBoxLayout)
      ensures var z := PinchToZoomTargets(imageLayout, old(displayScaleTrack), old(displayTranslationTrack), ev, maxScale);
        var r := RecenteredValues(imageLayout, cropBoxLayout, z.scale, z.translation, maxScale);
        && done == r.Layout()
        && displayScale == r.scale && displayScaleTrack == r.scale
        && displayTranslation == Vec(r.x, r.y) && displayTranslationTrack == Vec(r.x, r.y)
      ensures imageLayout.width > 0.0 && imageLayout.height > 0.0
              && cropBoxLayout.width > 0.0 && cropBoxLayout.height > 0.0
              && CoverScale(imageLayout, cropBoxLayout) <= maxScale
        ==> CoversCropBox(imageLayout, cropBoxLayout, displayScaleTrack, displayTranslationTrack)
    {
      var z := PinchToZoomTargets(imageLayout, displayScaleTrack, displayTranslationTrack, ev, maxScale);
      PositiveProduct(displayScaleTrack, ev.scale);
      displayScale, displayScaleTrack := z.scale, z.scale;
      MoveTo(z.translation);
      displayTranslationTrack := z.translation;
      done := RecenterImage(true, true);
    }
  }

  /** The pinch ratio of two positive readings keeps the scale positive. */
  lemma PositiveRatio(scale: real, prev: real, frame: real, track: real)
    requires scale > 0.0 && prev > 0.0 && frame * prev == scale && track > 0.0
    ensures frame > 0.0 && track * frame > 0.0
  {
  }

  lemma PositiveProduct(a: real, b: real)
    requires a > 0.0 && b > 0.0
    ensures a * b > 0.0
  {
  }
}
