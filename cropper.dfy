/** The orchestrator of src/components/Cropper.tsx: it chooses the aspect
    ratio and the maximum scale from the props, lays out the crop box and the
    image when the image size is known, refits the crop box when the container
    rotates, wires the crop box's and the image's notifications to each other,
    and converts the crop area to source-image pixels. */
module CropperComponent {

  import opened Types
  import opened Utils
  import opened CropBoxComponent
  import opened ImageComponent

  // ---------------------------------------------------------------------------
  // Props

  /** The `aspectRatio` prop: absent, the string 'original', or a number. */
  datatype AspectRatioProp = Unset | Original | Ratio(value: real)

  /** The props the geometry depends on. */
  datatype Config = Config(aspectRatio: AspectRatioProp, rounded: bool, scaleMax: Option<real>)
  {
    /** A numeric aspect ratio is width over height, so it is not negative. */
    predicate Admissible() { aspectRatio.Ratio? ==> aspectRatio.value >= 0.0 }

    /** JavaScript truthiness of the `aspectRatio` prop: 0 is falsy. */
    predicate AspectRatioGiven() { aspectRatio.Original? || (aspectRatio.Ratio? && aspectRatio.value != 0.0) }
  }

  /** `lockedAspectRatio`: the crop box keeps its aspect ratio when an aspect
      ratio is given ('original' included) or the crop is round. */
  function LockedAspectRatio(c: Config): (r: bool)
    ensures r <==> c.AspectRatioGiven() || c.rounded
  {
    c.AspectRatioGiven() || c.rounded
  }

  /** `getAspectRatio`: the image's own ratio unless a numeric ratio is given;
      a round crop is always square. */
  function GetAspectRatio(c: Config, ratio: real): (r: real)
    ensures c.rounded ==> r == 1.0
    ensures !c.rounded && c.aspectRatio.Ratio? && c.aspectRatio.value != 0.0 ==> r == c.aspectRatio.value
    ensures !c.rounded && (c.aspectRatio.Unset? || c.aspectRatio.Original? || c.aspectRatio == Ratio(0.0)) ==> r == ratio
    ensures ratio != 0.0 ==> r != 0.0
    ensures c.Admissible() && ratio > 0.0 ==> r > 0.0
  {
    var expectedRatio := if c.aspectRatio.Ratio? && c.aspectRatio.value != 0.0 then c.aspectRatio.value else ratio;
    if c.rounded then 1.0 else expectedRatio
  }

  /** An unlocked crop box is laid out at the image's own aspect ratio. */
  lemma UnlockedUsesImageRatio(c: Config, ratio: real)
    requires !LockedAspectRatio(c)
    ensures GetAspectRatio(c, ratio) == ratio
  {
  }

  /** `getscaleMax`: the `scaleMax` prop when it lies in [3, 20], else 10. */
  function GetScaleMax(c: Config): (r: real)
    ensures 3.0 <= r <= MaximumAvailableScale
    ensures c.scaleMax.Some? && 3.0 <= c.scaleMax.value <= MaximumAvailableScale ==> r == c.scaleMax.value
    ensures !(c.scaleMax.Some? && 3.0 <= c.scaleMax.value <= MaximumAvailableScale) ==> r == 10.0
  {
    match c.scaleMax
    case Some(v) => if v != 0.0 && v <= MaximumAvailableScale && v >= 3.0 then v else 10.0
    case None => 10.0
  }

  // ---------------------------------------------------------------------------
  // The initial layout (`initCropper`)

  /** Where `initCropper` puts the crop box and the image, and the scale of
      the image's cover-fit (`originalImageScale`). */
  datatype InitLayout = InitLayout(cropBox: Rect, image: Rect, originalScale: real)

  /** The crop box of `initCropper`: the container's aspect-ratio rectangle,
      contain-fitted into the container and centred. It keeps the aspect
      ratio and fills the container on one side. */
  function InitialCropBox(measures: Rect, ar: real): (r: Rect)
    requires measures.width > 0.0 && measures.height > 0.0 && ar > 0.0
    ensures 0.0 < r.width <= measures.width && 0.0 < r.height <= measures.height
    ensures r.width == measures.width || r.height == measures.height
    ensures 2.0 * r.x + r.width == measures.width && 2.0 * r.y + r.height == measures.height
    ensures r.width == ar * r.height
  {
    var cropBoxSize := FittedAspectRectangle(measures, ar);
    var cropperX := (measures.width - cropBoxSize.width) / 2.0;
    var cropperY := (measures.height - cropBoxSize.height) / 2.0;
    Rect(cropperX, cropperY, cropBoxSize.width, cropBoxSize.height)
  }

  /** The container's aspect-ratio rectangle, contain-fitted into the container. */
  function FittedAspectRectangle(measures: Rect, ar: real): (r: Size)
    requires measures.width > 0.0 && measures.height > 0.0 && ar > 0.0
    ensures 0.0 < r.width <= measures.width && 0.0 < r.height <= measures.height
    ensures r.width == measures.width || r.height == measures.height
    ensures HasRatio(r, ar)
  {
    var aspect := CreateAspectRatioRectangle(measures.width, measures.height, ar);
    AspectRectanglePositive(measures.width, measures.height, ar, aspect);
    var fit := Resize(Contain, measures.width, measures.height, aspect.width, aspect.height);
    ResizeContainFits(measures.width, measures.height, aspect.width, aspect.height);
    ContainedAspectFit(measures, ar, aspect, fit);
    Size(fit.width, fit.height)
  }

  /** The box's width over its height is `ar`. */
  predicate HasRatio(s: Size, ar: real)
  {
    s.width == ar * s.height
  }

  /** A positive box at ratio `ar`, scaled by a positive factor into the
      container, is positive and still at ratio `ar`. */
  lemma ContainedAspectFit(measures: Rect, ar: real, aspect: Size, fit: Fit)
    requires aspect.width > 0.0 && aspect.height > 0.0 && aspect.width == ar * aspect.height
    requires fit.width == fit.scale * aspect.width && fit.height == fit.scale * aspect.height
    requires fit.width == measures.width || fit.height == measures.height
    requires fit.width <= measures.width && fit.height <= measures.height && fit.scale > 0.0
    ensures 0.0 < fit.width <= measures.width && 0.0 < fit.height <= measures.height
    ensures fit.width == measures.width || fit.height == measures.height
    ensures HasRatio(Size(fit.width, fit.height), ar)
  {
    FitKeepsRatio(ar, aspect, fit);
    PositiveProduct(fit.scale, aspect.width);
    PositiveProduct(fit.scale, aspect.height);
  }

  /** The image of `initCropper`: cover-fitted to the crop box and centred in
      the container; `Fit.scale` is the cover-fit's scale. */
  function InitialImage(measures: Rect, cropBox: Rect, imageSize: Size): (r: InitLayout)
    requires cropBox.width > 0.0 && cropBox.height > 0.0 && imageSize.width > 0.0 && imageSize.height > 0.0
    ensures r.cropBox == cropBox
    ensures r.originalScale > 0.0
    ensures r.image.width == r.originalScale * imageSize.width && r.image.height == r.originalScale * imageSize.height
    ensures r.image.width >= cropBox.width && r.image.height >= cropBox.height
    ensures r.image.width == cropBox.width || r.image.height == cropBox.height
    ensures 2.0 * r.image.x + r.image.width == measures.width && 2.0 * r.image.y + r.image.height == measures.height
  {
    var resizedImage := Resize(Cover, cropBox.width, cropBox.height, imageSize.width, imageSize.height);
    ResizeCoverCovers(cropBox.width, cropBox.height, imageSize.width, imageSize.height);
    var imageX := (measures.width - resizedImage.width) / 2.0;
    var imageY := (measures.height - resizedImage.height) / 2.0;
    InitLayout(cropBox, Rect(imageX, imageY, resizedImage.width, resizedImage.height), resizedImage.scale)
  }

  /** The image ratio of a positive image is positive, and so is the aspect
      ratio chosen from it. */
  lemma ChosenRatioPositive(c: Config, imageSize: Size)
    requires c.Admissible() && imageSize.width > 0.0 && imageSize.height > 0.0
    ensures GetAspectRatio(c, imageSize.width / imageSize.height) > 0.0
  {
    assert imageSize.width / imageSize.height > 0.0;
  }

  /** The aspect-ratio rectangle of a positive box at a positive ratio is positive. */
  lemma AspectRectanglePositive(width: real, height: real, ar: real, r: Size)
    requires width > 0.0 && height > 0.0 && ar > 0.0 && r == CreateAspectRatioRectangle(width, height, ar)
    ensures r.width > 0.0 && r.height > 0.0 && r.width == ar * r.height
  {
  }

  /** A box scaled on both sides keeps its ratio. */
  lemma FitKeepsRatio(ar: real, box: Size, fit: Fit)
    requires box.width == ar * box.height
    requires fit.width == fit.scale * box.width && fit.height == fit.scale * box.height
    ensures fit.width == ar * fit.height
  {
    assert fit.scale * (ar * box.height) == ar * (fit.scale * box.height);
  }

  /** A crop box centred in the container starts inside the image, which
      covers it and is centred too. */
  lemma InitialImageContainsCropBox(measures: Rect, cropBox: Rect, imageSize: Size)
    requires cropBox.width > 0.0 && cropBox.height > 0.0 && imageSize.width > 0.0 && imageSize.height > 0.0
    requires 2.0 * cropBox.x + cropBox.width == measures.width && 2.0 * cropBox.y + cropBox.height == measures.height
    ensures var r := InitialImage(measures, cropBox, imageSize);
      r.image.x <= cropBox.x && cropBox.x + cropBox.width <= r.image.x + r.image.width
      && r.image.y <= cropBox.y && cropBox.y + cropBox.height <= r.image.y + r.image.height
    ensures var r := InitialImage(measures, cropBox, imageSize);
      CoversCropBox(r.image, cropBox, 1.0, Vec(r.image.x, r.image.y))
  {
  }

  // ---------------------------------------------------------------------------
  // The crop in source-image pixels (`onFooterDone`)

  /** `onFooterDone`'s conversion: the crop area, measured on the image as
      laid out at its cover-fit, divided by the cover-fit's scale. Scaling the
      result back by that scale gives the crop area again. */
  function ToImagePixels(area: Rect, originalScale: real): (r: Rect)
    requires originalScale != 0.0
    ensures r.x * originalScale == area.x && r.y * originalScale == area.y
    ensures r.width * originalScale == area.width && r.height * originalScale == area.height
  {
    Rect(area.x / originalScale, area.y / originalScale, area.width / originalScale, area.height / originalScale)
  }

  /** With no gesture after `initCropper`, the rectangle `onFooterDone` emits
      lies within the source image, and its size is the crop box's divided by
      the cover-fit's scale. It holds for any crop box `InitialCropBox` can
      produce: positive and centred in the container. */
  lemma DoneAfterInitWithinImage(measures: Rect, cropBox: Rect, imageSize: Size)
    requires cropBox.width > 0.0 && cropBox.height > 0.0 && imageSize.width > 0.0 && imageSize.height > 0.0
    requires 2.0 * cropBox.x + cropBox.width == measures.width && 2.0 * cropBox.y + cropBox.height == measures.height
    ensures var l := InitialImage(measures, cropBox, imageSize);
      var d := ToImagePixels(CropArea(l.image, l.cropBox, 1.0, Vec(l.image.x, l.image.y)), l.originalScale);
      && 0.0 <= d.x && d.x + d.width <= imageSize.width
      && 0.0 <= d.y && d.y + d.height <= imageSize.height
      && d.width * l.originalScale == cropBox.width && d.height * l.originalScale == cropBox.height
  {
    InitialImageContainsCropBox(measures, cropBox, imageSize);
    DoneWithinImage(InitialImage(measures, cropBox, imageSize), imageSize);
  }

  /** The emitted rectangle of a layout whose image, at the cover-fit's scale,
      contains the crop box lies within the source image. */
  lemma DoneWithinImage(l: InitLayout, imageSize: Size)
    requires l.originalScale > 0.0
    requires l.image.width == l.originalScale * imageSize.width && l.image.height == l.originalScale * imageSize.height
    requires l.image.x <= l.cropBox.x && l.cropBox.x + l.cropBox.width <= l.image.x + l.image.width
    requires l.image.y <= l.cropBox.y && l.cropBox.y + l.cropBox.height <= l.image.y + l.image.height
    ensures var d := ToImagePixels(CropArea(l.image, l.cropBox, 1.0, Vec(l.image.x, l.image.y)), l.originalScale);
      && 0.0 <= d.x && d.x + d.width <= imageSize.width
      && 0.0 <= d.y && d.y + d.height <= imageSize.height
      && d.width * l.originalScale == l.cropBox.width && d.height * l.originalScale == l.cropBox.height
  {
    var a := CropArea(l.image, l.cropBox, 1.0, Vec(l.image.x, l.image.y));
    var d := ToImagePixels(a, l.originalScale);
    UnitScreenPoint(l.image.x, l.image.width, a.x, a.width, l.cropBox.x, l.cropBox.width);
    UnitScreenPoint(l.image.y, l.image.height, a.y, a.height, l.cropBox.y, l.cropBox.height);
    WithinAfterScaling(d.x, d.width, l.originalScale, imageSize.width, a.x, a.width, l.image.width);
    WithinAfterScaling(d.y, d.height, l.originalScale, imageSize.height, a.y, a.height, l.image.height);
  }

  /** At scale 1 the view transform is a plain translation. */
  lemma UnitScreenPoint(t: real, size: real, u: real, w: real, boxStart: real, boxSize: real)
    requires ScreenPoint(t, 1.0, size, u) == boxStart && ScreenPoint(t, 1.0, size, u + w) == boxSize + boxStart
    ensures u == boxStart - t && w == boxSize
  {
  }

  /** Dividing an interval inside [0, size * s] by s puts it inside [0, size]. */
  lemma WithinAfterScaling(x: real, w: real, s: real, size: real, ax: real, aw: real, scaled: real)
    requires s > 0.0 && x * s == ax && w * s == aw && scaled == s * size
    requires 0.0 <= ax && ax + aw <= scaled
    ensures 0.0 <= x && x + w <= size
  {
    assert (x + w) * s == ax + aw;
  }

  // ---------------------------------------------------------------------------
  // The settle, end to end

  /** The zoom that follows the settle `ev` from scale `track` is not capped
      by `maxScale`. */
  predicate Uncapped(track: real, ev: CropBoxDoneEvent, maxScale: real)
  {
    track * ev.scale <= maxScale
  }

  /** When the image covers the crop box and the scale is not capped, the
      crop box's settle followed by the image's `pinchToZoom` leaves the image
      covering the settled box, so the re-centring that ends `pinchToZoom`
      changes nothing, and the crop area is what it was before the settle. */
  lemma SettleKeepsCoveredCropArea(containerLayout: Rect, box: Edges, d: CropBoxDoneEvent, imageLayout: Rect,
                                   scaleTrack: real, translation: Vec, maxScale: real)
    requires containerLayout.width > 0.0 && containerLayout.height > 0.0
    requires box.Width() > 0.0 && box.Height() > 0.0 && d == NextBoxBounderies(containerLayout, box)
    requires imageLayout.width > 0.0 && imageLayout.height > 0.0 && scaleTrack > 0.0
    requires Uncapped(scaleTrack, d, maxScale)
    requires CoversCropBox(imageLayout, CurrentBoxBounderies(box), scaleTrack, translation)
    ensures var z := PinchToZoomTargets(imageLayout, scaleTrack, translation, d, maxScale);
      var r := RecenteredValues(imageLayout, d.Layout(), z.scale, z.translation, maxScale);
      && r.scale == z.scale && Vec(r.x, r.y) == z.translation
      && CoversCropBox(imageLayout, d.Layout(), r.scale, Vec(r.x, r.y))
      && CropArea(imageLayout, d.Layout(), r.scale, Vec(r.x, r.y))
         == CropArea(imageLayout, CurrentBoxBounderies(box), scaleTrack, translation)
  {
    SettledBoxMovesCropBox(containerLayout, box);
    CoveredZoomNeedsNoRecenter(imageLayout, CurrentBoxBounderies(box), scaleTrack, translation, d, maxScale);
  }

  /** The similarity of `ev` takes the rectangle `box` onto `ev`'s box. */
  predicate MovesOnto(ev: CropBoxDoneEvent, box: Rect)
  {
    && ev.focalX + ev.scale * (box.x - ev.focalX) + ev.translateX == ev.x
    && ev.focalX + ev.scale * (box.x + box.width - ev.focalX) + ev.translateX == ev.x + ev.width
    && ev.focalY + ev.scale * (box.y - ev.focalY) + ev.translateY == ev.y
    && ev.focalY + ev.scale * (box.y + box.height - ev.focalY) + ev.translateY == ev.y + ev.height
  }

  /** The settle of a positive box inside a positive container is a
      similarity with a positive factor that takes the crop box's rectangle
      onto a positive settled box. */
  lemma SettledBoxMovesCropBox(containerLayout: Rect, box: Edges)
    requires containerLayout.width > 0.0 && containerLayout.height > 0.0
    requires box.Width() > 0.0 && box.Height() > 0.0
    ensures var d := NextBoxBounderies(containerLayout, box);
      && d.scale > 0.0 && d.width > 0.0 && d.height > 0.0
      && MovesOnto(d, CurrentBoxBounderies(box))
  {
    var d := NextBoxBounderies(containerLayout, box);
    SettledBoxFitsContainer(containerLayout, box);
    PositiveProduct(d.scale, box.Width());
    PositiveProduct(d.scale, box.Height());
    var crop := CurrentBoxBounderies(box);
    assert crop.x + crop.width == box.right && crop.y + crop.height == box.bottom;
  }

  /** The same for any similarity that takes the crop box to `ev`'s box. */
  lemma CoveredZoomNeedsNoRecenter(imageLayout: Rect, cropBoxLayout: Rect, scaleTrack: real, translation: Vec,
                                   ev: CropBoxDoneEvent, maxScale: real)
    requires imageLayout.width > 0.0 && imageLayout.height > 0.0 && ev.width > 0.0 && ev.height > 0.0
    requires scaleTrack > 0.0 && ev.scale > 0.0 && Uncapped(scaleTrack, ev, maxScale)
    requires MovesOnto(ev, cropBoxLayout)
    requires CoversCropBox(imageLayout, cropBoxLayout, scaleTrack, translation)
    ensures var z := PinchToZoomTargets(imageLayout, scaleTrack, translation, ev, maxScale);
      var r := RecenteredValues(imageLayout, ev.Layout(), z.scale, z.translation, maxScale);
      && r.scale == z.scale && Vec(r.x, r.y) == z.translation
      && CoversCropBox(imageLayout, ev.Layout(), r.scale, Vec(r.x, r.y))
      && CropArea(imageLayout, ev.Layout(), r.scale, Vec(r.x, r.y))
         == CropArea(imageLayout, cropBoxLayout, scaleTrack, translation)
  {
    var z := PinchToZoomTargets(imageLayout, scaleTrack, translation, ev, maxScale);
    ZoomKeepsCover(imageLayout, cropBoxLayout, scaleTrack, translation, ev, maxScale);
    PositiveProduct(scaleTrack, ev.scale);
    RecenterOfCovering(imageLayout, ev.Layout(), z.scale, z.translation, maxScale);
    SimilarityKeepsCropArea(imageLayout, cropBoxLayout, scaleTrack, translation, ev, maxScale);
  }

  /** Moving the crop box and the image by the same similarity with a positive
      factor keeps the image covering the box. */
  lemma ZoomKeepsCover(imageLayout: Rect, cropBoxLayout: Rect, scaleTrack: real, translation: Vec,
                       ev: CropBoxDoneEvent, maxScale: real)
    requires ev.scale > 0.0 && scaleTrack * ev.scale <= maxScale
    requires ev.focalX + ev.scale * (cropBoxLayout.x - ev.focalX) + ev.translateX == ev.x
    requires ev.focalX + ev.scale * (cropBoxLayout.x + cropBoxLayout.width - ev.focalX) + ev.translateX == ev.x + ev.width
    requires ev.focalY + ev.scale * (cropBoxLayout.y - ev.focalY) + ev.translateY == ev.y
    requires ev.focalY + ev.scale * (cropBoxLayout.y + cropBoxLayout.height - ev.focalY) + ev.translateY == ev.y + ev.height
    requires CoversCropBox(imageLayout, cropBoxLayout, scaleTrack, translation)
    ensures var z := PinchToZoomTargets(imageLayout, scaleTrack, translation, ev, maxScale);
      CoversCropBox(imageLayout, ev.Layout(), z.scale, z.translation)
  {
    var z := PinchToZoomTargets(imageLayout, scaleTrack, translation, ev, maxScale);
    var w, h := imageLayout.width, imageLayout.height;
    PinchToZoomFollowsCropBox(imageLayout, scaleTrack, translation, ev, maxScale, 0.0, 0.0);
    PinchToZoomFollowsCropBox(imageLayout, scaleTrack, translation, ev, maxScale, w, h);
    var hx := ApparentX(imageLayout, scaleTrack, translation.x);
    var hy := ApparentY(imageLayout, scaleTrack, translation.y);
    SimilarityMonotone(ev.focalX, ev.scale, ev.translateX, hx.low, cropBoxLayout.x);
    SimilarityMonotone(ev.focalX, ev.scale, ev.translateX, cropBoxLayout.x + cropBoxLayout.width, hx.high);
    SimilarityMonotone(ev.focalY, ev.scale, ev.translateY, hy.low, cropBoxLayout.y);
    SimilarityMonotone(ev.focalY, ev.scale, ev.translateY, cropBoxLayout.y + cropBoxLayout.height, hy.high);
  }

  /** A similarity with a positive factor keeps the order of points. */
  lemma SimilarityMonotone(f: real, k: real, t: real, a: real, b: real)
    requires k > 0.0 && a <= b
    ensures f + k * (a - f) + t <= f + k * (b - f) + t
  {
    assert k * (b - f) - k * (a - f) == k * (b - a);
  }

  /** Re-centring an image that covers the crop box, at a scale within
      `maxScale`, changes nothing. */
  lemma RecenterOfCovering(imageLayout: Rect, cropBoxLayout: Rect, scale: real, translation: Vec, maxScale: real)
    requires imageLayout.width > 0.0 && imageLayout.height > 0.0
    requires cropBoxLayout.width > 0.0 && cropBoxLayout.height > 0.0
    requires 0.0 < scale <= maxScale
    requires CoversCropBox(imageLayout, cropBoxLayout, scale, translation)
    ensures var r := RecenteredValues(imageLayout, cropBoxLayout, scale, translation, maxScale);
      r.scale == scale && r.x == translation.x && r.y == translation.y
  {
    var cover := CoverScale(imageLayout, cropBoxLayout);
    ResizeCoverIsSmallest(cropBoxLayout.width, cropBoxLayout.height, imageLayout.width, imageLayout.height, scale);
    assert cover <= scale;
  }

  // ---------------------------------------------------------------------------
  // The component

  /** `onContainerLayout`'s rotation test: both sides differ from the last
      recorded size (a missing record differs from every size). */
  predicate Rotated(previous: Option<Size>, layout: Rect)
  {
    previous.None? || (layout.width != previous.value.width && layout.height != previous.value.height)
  }

  /** The cropper's refs and its two children. The children are rendered once
      `initialMeasures` is set (`Mounted`); the source reaches them through
      optional refs, so before that its calls into them do nothing. The host
      delivers the platform's events to the methods below, and each child's
      notifications are routed here as the component's props wire them. */
  class Cropper {
    const config: Config
    const cropBox: CropBox
    const image: Image
    var originalImageScale: real
    var initialOnLayoutWasCalled: bool
    var previousSizes: Option<Size>
    var initialMeasures: Option<Rect>

    ghost function Repr(): set<object>
    {
      {this, image, image.panFrame, image.scaleFrame} + cropBox.Repr()
    }

    /** The children are configured from the props, and `initialMeasures` is
        set exactly when the first layout has been seen. */
    ghost predicate Valid()
      reads Repr()
    {
      cropBox.Valid() && image.Valid() && image.panFrame != cropBox.pan
      && config.Admissible()
      && cropBox.locked == LockedAspectRatio(config) && image.maxScale == GetScaleMax(config)
      && originalImageScale > 0.0
      && (initialMeasures.Some? <==> initialOnLayoutWasCalled)
    }

    predicate Mounted()
      reads this
    {
      initialMeasures.Some?
    }

    /** The image knows where the crop box is. */
    ghost predicate Synced()
      reads this, cropBox, cropBox.top, cropBox.left, cropBox.right, cropBox.bottom, image
    {
      image.cropBoxLayout == CurrentBoxBounderies(cropBox.Values())
    }

    /** The image, as displayed, covers the crop box it knows. */
    ghost predicate Covered()
      reads this, image
    {
      CoversCropBox(image.imageLayout, image.cropBoxLayout, image.displayScaleTrack, image.displayTranslationTrack)
    }

    /** The rectangle `onFooterDone` would emit now. */
    ghost function Emitted(): Rect
      reads this, image
      requires originalImageScale != 0.0 && image.displayScaleTrack != 0.0
    {
      ToImagePixels(CropArea(image.imageLayout, image.cropBoxLayout, image.displayScaleTrack,
                             image.displayTranslationTrack), originalImageScale)
    }

    /** The settle would keep the crop: the image knows the crop box and
        covers it, and the zoom that follows the settle stays within
        `maxScale`. */
    ghost predicate SettleKeepsCrop()
      reads this, cropBox, cropBox.top, cropBox.left, cropBox.right, cropBox.bottom, image
    {
      Synced() && Covered() && image.imageLayout.width > 0.0 && image.imageLayout.height > 0.0
      && cropBox.Values().Width() != 0.0 && cropBox.Values().Height() != 0.0
      && Uncapped(image.displayScaleTrack, NextBoxBounderies(cropBox.containerLayout, cropBox.Values()), image.maxScale)
    }

    /** The settle `ev` keeps the crop as far as the image is concerned: the
        image covers the crop box it knows, `ev`'s similarity takes that box
        onto `ev`'s, and the zoom that follows stays within `maxScale`. */
    ghost predicate ImageFollows(ev: CropBoxDoneEvent)
      reads this, image
    {
      Covered() && image.imageLayout.width > 0.0 && image.imageLayout.height > 0.0
      && image.displayScaleTrack > 0.0 && ev.scale > 0.0 && ev.width > 0.0 && ev.height > 0.0
      && Uncapped(image.displayScaleTrack, ev, image.maxScale) && MovesOnto(ev, image.cropBoxLayout)
    }

    constructor (config: Config)
      requires config.Admissible()
      ensures Valid() && fresh(Repr() - {this})
      ensures this.config == config && !Mounted() && previousSizes == None && originalImageScale == 1.0
    {
      this.config := config;
      cropBox := new CropBox(LockedAspectRatio(config));
      image := new Image(GetScaleMax(config));
      originalImageScale := 1.0;
      initialOnLayoutWasCalled := false;
      previousSizes := None;
      initialMeasures := None;
    }

    /** `onContainerLayout`: the first layout records the measures (which
        renders the children) and asks the host to start `initCropper`, whose
        image size arrives later; a layout whose both sides changed is a
        rotation, and a mounted crop box then settles into the new container,
        the image following it. */
    method OnContainerLayout(layout: Rect, screen: Screen) returns (startInit: bool)
      requires Valid() && screen.Defined()
      requires Mounted() && Rotated(previousSizes, layout) ==>
        layout.width > 0.0 && layout.height > 0.0 && image.Sized()
        && cropBox.Values().Width() > 0.0 && cropBox.Values().Height() > 0.0
      modifies Repr()
      ensures Valid()
      ensures startInit <==> !old(initialOnLayoutWasCalled)
      ensures initialMeasures == if startInit then Some(layout) else old(initialMeasures)
      ensures previousSizes == if Rotated(old(previousSizes), layout) then Some(Size(layout.width, layout.height))
                               else old(previousSizes)
      ensures originalImageScale == old(originalImageScale) && image.imageLayout == old(image.imageLayout)
      ensures old(Mounted()) && Rotated(old(previousSizes), layout) ==>
        var d := NextBoxBounderies(layout, old(cropBox.Values()));
        var z := PinchToZoomTargets(image.imageLayout, old(image.displayScaleTrack),
                                    old(image.displayTranslationTrack), d, image.maxScale);
        var r := RecenteredValues(image.imageLayout, d.Layout(), z.scale, z.translation, image.maxScale);
        && cropBox.containerLayout == layout && cropBox.Values() == SettledEdges(d) && Synced()
        && image.displayScaleTrack == r.scale && image.displayTranslationTrack == Vec(r.x, r.y)
        && cropBox.imageLayout == ClipToContainer(layout, r.Layout())
      ensures !(old(Mounted()) && Rotated(old(previousSizes), layout)) ==>
        unchanged(cropBox, cropBox.top, cropBox.left, cropBox.right, cropBox.bottom, image)
    {
      var wasMounted := initialMeasures.Some?;
      startInit := !initialOnLayoutWasCalled;
      if startInit {
        initialOnLayoutWasCalled := true;
        initialMeasures := Some(layout);
      }
      if Rotated(previousSizes, layout) {
        previousSizes := Some(Size(layout.width, layout.height));
        if wasMounted {
          SettledBoxFitsContainer(layout, cropBox.Values());
          var done := cropBox.UpdateCropperToFitInsideContainer(layout, screen);
          UpdateImageZoomAndBounderis(done);
        }
      }
    }

    /** `initCropper`, once the image size is known: the crop box is the
        aspect-ratio rectangle fitted into the container and centred; the
        image is cover-fitted to the crop box and centred, at scale 1. */
    method InitCropper(measures: Rect, imageSize: Size, screen: Screen)
      requires Valid() && Mounted() && screen.Defined()
      requires measures.width > 0.0 && measures.height > 0.0 && imageSize.width > 0.0 && imageSize.height > 0.0
      modifies Repr()
      ensures Valid() && Mounted() && previousSizes == old(previousSizes)
      ensures var box := InitialCropBox(measures, GetAspectRatio(config, imageSize.width / imageSize.height));
        var l := InitialImage(measures, box, imageSize);
        && cropBox.Values() == Edges(box.x, box.y, box.x + box.width, box.y + box.height)
        && cropBox.containerLayout == measures
        && cropBox.imageLayout == ClipToContainer(measures, Edges(l.image.x, l.image.y, l.image.x + l.image.width,
                                                                  l.image.y + l.image.height))
        && image.cropBoxLayout == box && image.imageLayout == l.image
        && image.displayScaleTrack == 1.0 && image.displayTranslationTrack == Vec(l.image.x, l.image.y)
        && originalImageScale == l.originalScale
      ensures Synced() && Covered()
      ensures var e := Emitted();
        0.0 <= e.x && e.x + e.width <= imageSize.width && 0.0 <= e.y && e.y + e.height <= imageSize.height
    {
      ChosenRatioPositive(config, imageSize);
      var box := InitialCropBox(measures, GetAspectRatio(config, imageSize.width / imageSize.height));
      var l := InitialImage(measures, box, imageSize);
      InitialImageContainsCropBox(measures, box, imageSize);
      DoneAfterInitWithinImage(measures, box, imageSize);
      cropBox.ResetTo(Edges(box.x, box.y, box.x + box.width, box.y + box.height), measures, screen);
      image.SetCropboxLayout(box);
      originalImageScale := l.originalScale;
      UpdateCropboxLayoutBounderies(Edges(l.image.x, l.image.y, l.image.x + l.image.width, l.image.y + l.image.height));
      image.ResetTo(l.image.x, l.image.y, 1.0, l.image.width, l.image.height);
    }

    /** `onFooterDone`: the crop area, divided by the cover-fit's scale: the
        image points under the crop box's corners, in source-image pixels. */
    method OnFooterDone() returns (r: Option<Rect>)
      requires Valid()
      ensures r.Some? <==> Mounted()
      ensures r.Some? ==>
        var s, t, w, h := image.displayScaleTrack, image.displayTranslationTrack, image.imageLayout.width,
                          image.imageLayout.height;
        && ScreenPoint(t.x, s, w, r.value.x * originalImageScale) == image.cropBoxLayout.x
        && ScreenPoint(t.x, s, w, (r.value.x + r.value.width) * originalImageScale)
           == image.cropBoxLayout.x + image.cropBoxLayout.width
        && ScreenPoint(t.y, s, h, r.value.y * originalImageScale) == image.cropBoxLayout.y
        && ScreenPoint(t.y, s, h, (r.value.y + r.value.height) * originalImageScale)
           == image.cropBoxLayout.y + image.cropBoxLayout.height
    {
      if initialMeasures.Some? {
        var area := image.GetCropArea();
        var d := ToImagePixels(area, originalImageScale);
        assert (d.x + d.width) * originalImageScale == area.x + area.width;
        assert (d.y + d.height) * originalImageScale == area.y + area.height;
        r := Some(d);
      } else {
        r := None;
      }
    }

    /** `updateImageBounderies`: the crop box's rectangle is passed to the image. */
    method UpdateImageBounderies(bounderies: Rect)
      requires Valid()
      modifies image
      ensures Valid() && image.cropBoxLayout == bounderies
      ensures image.imageLayout == old(image.imageLayout) && image.displayScaleTrack == old(image.displayScaleTrack)
      ensures image.displayTranslationTrack == old(image.displayTranslationTrack)
    {
      image.SetCropboxLayout(bounderies);
    }

    /** `updateImageZoomAndBounderis`, the crop box's `onCropBoxDone`: the
        image learns the settled box, zooms with it and re-centres, and its
        `onImageDone` passes the new apparent edges back to the crop box. */
    method UpdateImageZoomAndBounderis(ev: CropBoxDoneEvent)
      requires Valid() && image.Sized() && ev.scale > 0.0
      modifies image, cropBox
      ensures Valid()
      ensures image.cropBoxLayout == ev.Layout() && image.imageLayout == old(image.imageLayout)
      ensures var z := PinchToZoomTargets(image.imageLayout, old(image.displayScaleTrack),
                                          old(image.displayTranslationTrack), ev, image.maxScale);
        var r := RecenteredValues(image.imageLayout, ev.Layout(), z.scale, z.translation, image.maxScale);
        && image.displayScaleTrack == r.scale && image.displayTranslationTrack == Vec(r.x, r.y)
        && cropBox.imageLayout == ClipToContainer(cropBox.containerLayout, r.Layout())
      ensures cropBox.containerLayout == old(cropBox.containerLayout) && cropBox.activeHandler == old(cropBox.activeHandler)
      ensures cropBox.minCropperBoxSize == old(cropBox.minCropperBoxSize)
      ensures cropBox.initialCropperSize == old(cropBox.initialCropperSize)
    {
      image.SetCropboxLayout(ev.Layout());
      var done := image.PinchToZoom(ev);
      UpdateCropboxLayoutBounderies(done);
    }

    /** `updateCropboxLayoutBounderies`, the image's `onImageDone`: the crop
        box's drag envelope becomes the image's apparent edges, clipped to the
        container. */
    method UpdateCropboxLayoutBounderies(imageLayout: Edges)
      requires Valid()
      modifies cropBox
      ensures Valid() && cropBox.imageLayout == ClipToContainer(cropBox.containerLayout, imageLayout)
      ensures cropBox.containerLayout == old(cropBox.containerLayout) && cropBox.activeHandler == old(cropBox.activeHandler)
      ensures cropBox.minCropperBoxSize == old(cropBox.minCropperBoxSize)
      ensures cropBox.initialCropperSize == old(cropBox.initialCropperSize)
    {
      cropBox.SetImageLayout(imageLayout);
    }

    /** A drag event on crop-box handle `h`. It is delivered only while the
        handle is enabled (no other handle is active); a release passes the
        box to the image and starts the settle timer. */
    method OnCropBoxHandle(h: Handle, state: GestureState, translation: Vec)
      requires Valid() && h != NoHandler && (cropBox.locked ==> h.IsCorner())
      requires cropBox.locked ==> cropBox.initialCropperSize.width != 0.0 && cropBox.initialCropperSize.height != 0.0
      modifies Repr()
      ensures Valid() && image.imageLayout == old(image.imageLayout)
      ensures image.displayScaleTrack == old(image.displayScaleTrack)
      ensures image.displayTranslationTrack == old(image.displayTranslationTrack)
      ensures !Enabled(old(cropBox.activeHandler), h) ==>
        cropBox.Values() == old(cropBox.Values()) && image.cropBoxLayout == old(image.cropBoxLayout)
        && unchanged(this, image, image.panFrame, image.scaleFrame)
        && unchanged(cropBox, cropBox.top, cropBox.left, cropBox.right, cropBox.bottom, cropBox.pan, cropBox.timer)
      ensures Enabled(old(cropBox.activeHandler), h) && state == End ==> Synced() && cropBox.timer.Pending()
      ensures Enabled(old(cropBox.activeHandler), h) && state != End ==> image.cropBoxLayout == old(image.cropBoxLayout)
    {
      if Enabled(cropBox.activeHandler, h) {
        var bounderies := cropBox.OnHandleGestureEvent(h, state, translation);
        if bounderies.Some? {
          UpdateImageBounderies(bounderies.value);
        }
      }
    }

    /** The crop box's settle timer fires: the box settles into the container,
        the image is told the settled rectangle, then zooms with the box. */
    method OnSettleTimer(handle: nat)
      requires Valid()
      requires handle in cropBox.timer.scheduled ==>
        cropBox.Values().Width() > 0.0 && cropBox.Values().Height() > 0.0 && image.Sized()
        && cropBox.containerLayout.width > 0.0 && cropBox.containerLayout.height > 0.0
      modifies Repr()
      ensures Valid() && image.imageLayout == old(image.imageLayout) && originalImageScale == old(originalImageScale)
      ensures handle !in old(cropBox.timer.scheduled) ==>
        cropBox.Values() == old(cropBox.Values()) && unchanged(image)
      ensures handle in old(cropBox.timer.scheduled) ==>
        var d := NextBoxBounderies(cropBox.containerLayout, old(cropBox.Values()));
        var z := PinchToZoomTargets(image.imageLayout, old(image.displayScaleTrack),
                                    old(image.displayTranslationTrack), d, image.maxScale);
        var r := RecenteredValues(image.imageLayout, d.Layout(), z.scale, z.translation, image.maxScale);
        && cropBox.Values() == SettledEdges(d) && Synced()
        && image.displayScaleTrack == r.scale && image.displayTranslationTrack == Vec(r.x, r.y)
        && cropBox.imageLayout == ClipToContainer(cropBox.containerLayout, r.Layout())
      ensures handle in old(cropBox.timer.scheduled) && old(SettleKeepsCrop())
        ==> Covered() && Emitted() == old(Emitted())
    {
      var fires := handle in cropBox.timer.scheduled;
      ghost var d: CropBoxDoneEvent;
      if fires {
        d := NextBoxBounderies(cropBox.containerLayout, cropBox.Values());
        SettledBoxFitsContainer(cropBox.containerLayout, cropBox.Values());
        if SettleKeepsCrop() {
          SettledBoxMovesCropBox(cropBox.containerLayout, cropBox.Values());
          assert ImageFollows(d);
        }
      }
      var bounderies, done := cropBox.OnTimerFired(handle);
      if done.Some? {
        SettleImage(done.value);
      }
    }

    /** The image's side of the settle timer's callback: `updateImageBounderies`
        with the settled box, then `onCropBoxDone` with the settle. When the
        image followed the settle, it still covers the box and the crop it
        would emit is unchanged. */
    method SettleImage(ev: CropBoxDoneEvent)
      requires Valid() && image.Sized() && ev.scale > 0.0
      modifies image, cropBox
      ensures Valid()
      ensures image.cropBoxLayout == ev.Layout() && image.imageLayout == old(image.imageLayout)
      ensures var z := PinchToZoomTargets(image.imageLayout, old(image.displayScaleTrack),
                                          old(image.displayTranslationTrack), ev, image.maxScale);
        var r := RecenteredValues(image.imageLayout, ev.Layout(), z.scale, z.translation, image.maxScale);
        && image.displayScaleTrack == r.scale && image.displayTranslationTrack == Vec(r.x, r.y)
        && cropBox.imageLayout == ClipToContainer(cropBox.containerLayout, r.Layout())
      ensures cropBox.containerLayout == old(cropBox.containerLayout)
      ensures old(ImageFollows(ev)) ==> Covered() && Emitted() == old(Emitted())
    {
      if ImageFollows(ev) {
        CoveredZoomNeedsNoRecenter(image.imageLayout, image.cropBoxLayout, image.displayScaleTrack,
                                   image.displayTranslationTrack, ev, image.maxScale);
      }
      UpdateImageBounderies(ev.Layout());
      UpdateImageZoomAndBounderis(ev);
    }

    /** The image's `onImageMove`: the crop box holds its settle back. */
    method OnImageMove()
      requires Valid()
      modifies cropBox.timer
      ensures Valid() && cropBox.timer.func == old(cropBox.timer.func)
      ensures cropBox.timer.Pending() <==> cropBox.timer.func.Some?
      ensures old(cropBox.timer.timerId).Some? ==> old(cropBox.timer.timerId).value !in cropBox.timer.scheduled
    {
      cropBox.HoldAnimations();
    }

    /** A pan event on the image; every move holds the crop box's settle back.
        The decays a BEGAN stops are returned; the host then delivers their
        completions to `OnImageDecayEnd`. */
    method OnImagePan(state: GestureState, translation: Vec) returns (stopped: Axes)
      requires Valid()
      modifies Repr()
      ensures Valid() && image.imageLayout == old(image.imageLayout) && image.cropBoxLayout == old(image.cropBoxLayout)
      ensures cropBox.Values() == old(cropBox.Values()) && cropBox.imageLayout == old(cropBox.imageLayout)
      ensures state == Active && old(cropBox.timer.timerId).Some? ==>
        old(cropBox.timer.timerId).value !in cropBox.timer.scheduled
      ensures state == Active ==>
        cropBox.timer.func == old(cropBox.timer.func) && (cropBox.timer.Pending() <==> cropBox.timer.func.Some?)
      ensures state != Active ==> unchanged(cropBox.timer)
    {
      var moved;
      moved, stopped := image.PanGestureEvent(state, translation);
      if moved {
        OnImageMove();
      }
    }

    /** A pinch event on the image; a move holds the crop box's settle back,
        and the release re-centres the image and passes its apparent edges to
        the crop box. */
    method OnImagePinch(state: GestureState, scale: real, focal: Vec) returns (stopped: Axes)
      requires Valid() && image.Sized() && (state == Active ==> scale > 0.0)
      modifies Repr()
      ensures Valid() && image.imageLayout == old(image.imageLayout) && image.cropBoxLayout == old(image.cropBoxLayout)
      ensures cropBox.Values() == old(cropBox.Values())
      ensures state == End ==>
        cropBox.imageLayout == ClipToContainer(cropBox.containerLayout, old(image.Recentering()).Layout())
      ensures state != End ==> cropBox.imageLayout == old(cropBox.imageLayout)
      ensures state != Active ==> unchanged(cropBox.timer)
      ensures state == Active ==> cropBox.timer.func == old(cropBox.timer.func)
      ensures state == Active && image.displayScaleTrack < image.maxScale ==>
        && (cropBox.timer.Pending() <==> cropBox.timer.func.Some?)
        && (old(cropBox.timer.timerId).Some? ==> old(cropBox.timer.timerId).value !in cropBox.timer.scheduled)
      ensures state == Active && image.displayScaleTrack >= image.maxScale ==> unchanged(cropBox.timer)
    {
      var moved, done;
      moved, stopped, done := image.PinchGestureEvent(state, scale, focal);
      if moved {
        OnImageMove();
      }
      if done.Some? {
        UpdateCropboxLayoutBounderies(done.value);
      }
    }

    /** A frame of the image's decay, seen by its translation listener. */
    method OnImageDecayFrame(value: Vec) returns (stopped: Axes)
      requires Valid()
      modifies image
      ensures Valid() && image.imageLayout == old(image.imageLayout) && image.cropBoxLayout == old(image.cropBoxLayout)
      ensures image.displayTranslation == value
      ensures stopped.x ==> image.displayTranslationTrack.x == value.x
      ensures stopped.y ==> image.displayTranslationTrack.y == value.y
    {
      stopped := image.DecayFrame(value);
    }

    /** A decay along one axis completes: the image re-centres along it and
        passes its apparent edges to the crop box. */
    method OnImageDecayEnd(axisX: bool)
      requires Valid() && image.Sized()
      modifies image, cropBox
      ensures Valid() && image.imageLayout == old(image.imageLayout) && image.cropBoxLayout == old(image.cropBoxLayout)
      ensures var settled := if axisX then old(image.displayTranslationTrack).(x := old(image.displayTranslation).x)
                             else old(image.displayTranslationTrack).(y := old(image.displayTranslation).y);
        var r := RecenteredValues(image.imageLayout, image.cropBoxLayout, old(image.displayScaleTrack), settled,
                                  image.maxScale);
        && image.displayScaleTrack == r.scale
        && cropBox.imageLayout == ClipToContainer(cropBox.containerLayout, r.Layout())
    {
      var done := image.DecayEnd(axisX);
      UpdateCropboxLayoutBounderies(done);
    }
  }
}
