/** The crop box of src/components/cropbox/index.tsx: four edge cells moved by
    eight drag handles, the bounds that keep a drag inside the image and above
    the minimum size, and the settle that re-fits the box into the container
    once the user lets go. */
module CropBoxComponent {

  import opened Types
  import opened Utils
  import opened Hooks

  // ---------------------------------------------------------------------------
  // Bounds of a drag (`getClmpedValues`)

  /** `ClampedBoxValues`: the interval an edge may be committed to. */
  datatype Range = Range(min: real, max: real)

  /** `ClampedValues`: one interval per edge. */
  datatype Bounds = Bounds(left: Range, top: Range, right: Range, bottom: Range)

  /** The height of the box, measured from the unmoved horizontal edge to the
      moving one held inside the image (0 when the handle moves neither). */
  function CurrentHeight(img: Edges, e: Edges, h: Handle): real
  {
    if h.MovesBottom() then Min(img.bottom, e.bottom) - e.top
    else if h.MovesTop() then e.bottom - Max(img.top, e.top)
    else 0.0
  }

  /** The width of the box, measured in the same way along x. */
  function CurrentWidth(img: Edges, e: Edges, h: Handle): real
  {
    if h.MovesRight() then Min(img.right, e.right) - e.left
    else if h.MovesLeft() then e.right - Max(img.left, e.left)
    else 0.0
  }

  /** With a locked aspect ratio, the widest the box may get for its current
      height at the initial aspect ratio, and never below the minimum width. */
  function ResizedWidth(img: Edges, e: Edges, minSize: Size, initial: Size, h: Handle): real
    requires initial.height != 0.0
  {
    Max(Max((CurrentHeight(img, e, h) * initial.width) / initial.height, minSize.width), minSize.width)
  }

  /** The tallest the box may get for its current width, likewise. */
  function ResizedHeight(img: Edges, e: Edges, minSize: Size, initial: Size, h: Handle): real
    requires initial.width != 0.0
  {
    Max(Max((CurrentWidth(img, e, h) * initial.height) / initial.width, minSize.height), minSize.height)
  }

  /** `getClmpedValues`: where each edge may go. Every edge keeps at least the
      minimum size from its opposite edge and stays inside the image; with a
      locked aspect ratio a moving edge is also kept from making the box wider
      (taller) than its current height (width) allows at the initial ratio. */
  function ClampedValues(locked: bool, img: Edges, e: Edges, minSize: Size, initial: Size, h: Handle): (b: Bounds)
    requires locked ==> initial.width != 0.0 && initial.height != 0.0
    ensures b.left.max == e.right - minSize.width && b.top.max == e.bottom - minSize.height
    ensures b.right.min == e.left + minSize.width && b.bottom.min == e.top + minSize.height
    ensures img.left <= b.left.min && img.top <= b.top.min
    ensures b.right.max <= img.right && b.bottom.max <= img.bottom
    ensures !locked ==>
      b.left.min == img.left && b.top.min == img.top && b.right.max == img.right && b.bottom.max == img.bottom
    ensures locked ==>
      e.right - b.left.min <= ResizedWidth(img, e, minSize, initial, h) &&
      b.right.max - e.left <= ResizedWidth(img, e, minSize, initial, h)
    ensures locked ==>
      e.bottom - b.top.min <= ResizedHeight(img, e, minSize, initial, h) &&
      b.bottom.max - e.top <= ResizedHeight(img, e, minSize, initial, h)
  {
    if !locked then
      Bounds(Range(img.left, e.right - minSize.width),
             Range(img.top, e.bottom - minSize.height),
             Range(e.left + minSize.width, img.right),
             Range(e.top + minSize.height, img.bottom))
    else
      var resizedWidth := ResizedWidth(img, e, minSize, initial, h);
      var resizedHeight := ResizedHeight(img, e, minSize, initial, h);
      var minTranslationTop := Max(e.bottom - resizedHeight, img.top);
      var maxTranslationBottom := Min(Max(e.top + resizedHeight, e.top + minSize.height), img.bottom);
      var minTranslationLeft := Max(e.right - resizedWidth, img.left);
      var maxTranslationRight := Min(Max(e.left + resizedWidth, e.left + minSize.width), img.right);
      Bounds(Range(minTranslationLeft, e.right - minSize.width),
             Range(minTranslationTop, e.bottom - minSize.height),
             Range(e.left + minSize.width, maxTranslationRight),
             Range(e.top + minSize.height, maxTranslationBottom))
  }

  /** The source's diagnostic: with a locked aspect ratio, the current width or
      height measured for the bounds is exactly 0. */
  predicate ClampDiagnostic(locked: bool, img: Edges, e: Edges, h: Handle)
  {
    locked && (CurrentWidth(img, e, h) == 0.0 || CurrentHeight(img, e, h) == 0.0)
  }

  /** The diagnostic is reachable in an ordinary drag: a locked top-right
      drag of a 100 x 100 box that moves the finger 100 to the left brings the
      logical right edge, which follows the finger unclamped, onto the left
      edge. */
  lemma ClampDiagnosticReachable()
    ensures ClampDiagnostic(true, Edges(0.0, 0.0, 200.0, 200.0),
                            Drag(TopRight, true, 1.0, Edges(50.0, 50.0, 150.0, 150.0), [Vec(-100.0, 0.0)], [Vec(-100.0, 0.0)]),
                            TopRight)
  {
  }

  // ---------------------------------------------------------------------------
  // Edge proposals of the eight handlers (`on*GestureEvent`)

  /** `base` with the edges handle `h` moves taken from `src`. */
  function Moved(h: Handle, base: Edges, src: Edges): Edges
  {
    Edges(if h.MovesLeft() then src.left else base.left,
          if h.MovesTop() then src.top else base.top,
          if h.MovesRight() then src.right else base.right,
          if h.MovesBottom() then src.bottom else base.bottom)
  }

  /** The unclamped next edges of a handler event: a bar adds the frame delta
      along its axis; an unlocked corner adds both deltas; a locked corner lets
      the axis with the larger cumulative translation drive and derives the
      other through the aspect ratio, with the sign flipped for the top-right
      and bottom-left corners. */
  function Proposal(h: Handle, locked: bool, aspectRatio: real, e: Edges, frames: Vec, translation: Vec): (p: Edges)
    requires h != NoHandler && aspectRatio != 0.0
    ensures Moved(h, e, p) == p
    ensures (!locked || !h.IsCorner()) ==>
      p == Moved(h, e, Edges(e.left + frames.x, e.top + frames.y, e.right + frames.x, e.bottom + frames.y))
    ensures locked && h.IsCorner() && Abs(translation.x) > Abs(translation.y) ==>
      (h.MovesLeft() ==> p.left == e.left + frames.x) && (h.MovesRight() ==> p.right == e.right + frames.x)
    ensures locked && h.IsCorner() && Abs(translation.x) <= Abs(translation.y) ==>
      (h.MovesTop() ==> p.top == e.top + frames.y) && (h.MovesBottom() ==> p.bottom == e.bottom + frames.y)
    ensures locked && h.IsCorner() ==>
      p.Width() - e.Width() == aspectRatio * (p.Height() - e.Height())
  {
    if locked && h.IsCorner() then
      var sign := if h == TopRight || h == BottomLeft then -1.0 else 1.0;
      var d := if Abs(translation.x) > Abs(translation.y)
        then Vec(frames.x, (frames.x / aspectRatio) * sign)
        else Vec(frames.y * aspectRatio * sign, frames.y);
      var p := Moved(h, e, Edges(e.left + d.x, e.top + d.y, e.right + d.x, e.bottom + d.y));
      LockedCornerStep(h, aspectRatio, e, d, sign);
      p
    else
      Moved(h, e, Edges(e.left + frames.x, e.top + frames.y, e.right + frames.x, e.bottom + frames.y))
  }

  /** Moving a corner by `d` with `d.x == sign * aspectRatio * d.y` changes the
      width by `aspectRatio` times the change of the height. */
  lemma LockedCornerStep(h: Handle, aspectRatio: real, e: Edges, d: Vec, sign: real)
    requires h.IsCorner() && aspectRatio != 0.0
    requires sign == if h == TopRight || h == BottomLeft then -1.0 else 1.0
    requires d.x == aspectRatio * d.y * sign
    ensures var p := Moved(h, e, Edges(e.left + d.x, e.top + d.y, e.right + d.x, e.bottom + d.y));
      p.Width() - e.Width() == aspectRatio * (p.Height() - e.Height())
  {
  }

  /** The logical edges after a run of ACTIVE events of one handle: each event
      proposes from the edges the previous one left. */
  function Drag(h: Handle, locked: bool, aspectRatio: real, e: Edges, frames: seq<Vec>, translations: seq<Vec>): Edges
    requires h != NoHandler && aspectRatio != 0.0
    requires |frames| == |translations|
  {
    if frames == [] then e
    else
      var n := |frames| - 1;
      Proposal(h, locked, aspectRatio, Drag(h, locked, aspectRatio, e, frames[..n], translations[..n]),
               frames[n], translations[n])
  }

  /** The box's width is `k` times its height. */
  predicate AtAspectRatio(e: Edges, k: real)
  {
    e.Width() == k * e.Height()
  }

  /** One locked corner event keeps a box that is at the locked aspect ratio
      at that ratio. */
  lemma LockedCornerKeepsAspectRatio(h: Handle, aspectRatio: real, e: Edges, frames: Vec, translation: Vec)
    requires h.IsCorner() && aspectRatio != 0.0 && AtAspectRatio(e, aspectRatio)
    ensures AtAspectRatio(Proposal(h, true, aspectRatio, e, frames, translation), aspectRatio)
  {
    var p := Proposal(h, true, aspectRatio, e, frames, translation);
    SameRatioAfterStep(aspectRatio, e.Width(), e.Height(), p.Width(), p.Height());
  }

  /** A box at ratio `k` whose width changes by `k` times the change of its
      height stays at ratio `k`. */
  lemma SameRatioAfterStep(k: real, w0: real, h0: real, w1: real, h1: real)
    requires w0 == k * h0 && w1 - w0 == k * (h1 - h0)
    ensures w1 == k * h1
  {
    assert k * (h1 - h0) == k * h1 - k * h0;
  }

  /** A locked corner drag keeps the box at the locked aspect ratio throughout,
      whatever the finger does. */
  lemma {:induction false} LockedDragKeepsAspectRatio(h: Handle, aspectRatio: real, e: Edges, frames: seq<Vec>, translations: seq<Vec>)
    requires h.IsCorner() && aspectRatio != 0.0 && |frames| == |translations|
    requires AtAspectRatio(e, aspectRatio)
    ensures AtAspectRatio(Drag(h, true, aspectRatio, e, frames, translations), aspectRatio)
  {
    if frames != [] {
      var n := |frames| - 1;
      var before := Drag(h, true, aspectRatio, e, frames[..n], translations[..n]);
      LockedDragKeepsAspectRatio(h, aspectRatio, e, frames[..n], translations[..n]);
      LockedCornerKeepsAspectRatio(h, aspectRatio, before, frames[n], translations[n]);
    }
  }

  /** An unlocked drag moves each of the handle's edges by the sum of the frame
      deltas along its axis, and leaves the other edges alone. */
  lemma {:induction false} UnlockedDragAddsFrames(h: Handle, aspectRatio: real, e: Edges, frames: seq<Vec>, translations: seq<Vec>)
    requires h != NoHandler && aspectRatio != 0.0 && |frames| == |translations|
    ensures var d := Drag(h, false, aspectRatio, e, frames, translations);
      var s := SumFrames(frames);
      d == Moved(h, e, Edges(e.left + s.x, e.top + s.y, e.right + s.x, e.bottom + s.y))
  {
    if frames != [] {
      var n := |frames| - 1;
      UnlockedDragAddsFrames(h, aspectRatio, e, frames[..n], translations[..n]);
    }
  }

  /** With the deltas the pan tracker emits after a reset to (0, 0), an
      unlocked drag moves the handle's edges by exactly the latest cumulative
      translation: the edge follows the finger. */
  lemma UnlockedDragFollowsFinger(h: Handle, aspectRatio: real, e: Edges, readings: seq<Vec>)
    requires h != NoHandler && aspectRatio != 0.0
    ensures var d := Drag(h, false, aspectRatio, e, PanFrames(Vec(0.0, 0.0), readings), readings);
      var t := LatestReading(Vec(0.0, 0.0), readings);
      d == Moved(h, e, Edges(e.left + t.x, e.top + t.y, e.right + t.x, e.bottom + t.y))
  {
    UnlockedDragAddsFrames(h, aspectRatio, e, PanFrames(Vec(0.0, 0.0), readings), readings);
    PanFramesTelescope(Vec(0.0, 0.0), readings);
  }

  // ---------------------------------------------------------------------------
  // Commit on END

  /** The edges an END event commits: the handle's edges clamped into their
      bounds, the others as they are. */
  function ClampedEdges(h: Handle, b: Bounds, p: Edges, e: Edges): (c: Edges)
    ensures Moved(h, e, c) == c
    ensures h.MovesLeft() && b.left.min <= b.left.max ==> b.left.min <= c.left <= b.left.max
    ensures h.MovesTop() && b.top.min <= b.top.max ==> b.top.min <= c.top <= b.top.max
    ensures h.MovesRight() && b.right.min <= b.right.max ==> b.right.min <= c.right <= b.right.max
    ensures h.MovesBottom() && b.bottom.min <= b.bottom.max ==> b.bottom.min <= c.bottom <= b.bottom.max
  {
    Moved(h, e, Edges(Clamp(p.left, b.left.min, b.left.max), Clamp(p.top, b.top.min, b.top.max),
                      Clamp(p.right, b.right.min, b.right.max), Clamp(p.bottom, b.bottom.min, b.bottom.max)))
  }

  /** The box lies inside the drag envelope `img`. */
  predicate Inside(e: Edges, img: Edges)
  {
    img.left <= e.left && img.top <= e.top && e.right <= img.right && e.bottom <= img.bottom
  }

  /** The box is at least the minimum size. */
  predicate AtLeast(e: Edges, minSize: Size)
  {
    e.Width() >= minSize.width && e.Height() >= minSize.height
  }

  /** An END commit keeps the crop box inside the image and at least the
      minimum size. The drag started from `anchor`, a box inside the image and
      at least the minimum size; the ACTIVE events since then have moved only
      the handle's edges, and to anywhere (`e`); `p` is the END proposal. */
  lemma CommitKeepsBoxInsideImage(locked: bool, img: Edges, anchor: Edges, e: Edges, p: Edges,
                                  minSize: Size, initial: Size, h: Handle)
    requires h != NoHandler && (locked ==> h.IsCorner())
    requires locked ==> initial.width != 0.0 && initial.height != 0.0
    requires Inside(anchor, img) && AtLeast(anchor, minSize)
    requires Moved(h, anchor, e) == e
    ensures var c := ClampedEdges(h, ClampedValues(locked, img, e, minSize, initial, h), p, e);
      Inside(c, img) && AtLeast(c, minSize)
  {
    var b := ClampedValues(locked, img, e, minSize, initial, h);
    var c := ClampedEdges(h, b, p, e);
    if locked {
      // the moving edge's interval is non-empty because the resized sides are at least the minimum
      assert ResizedWidth(img, e, minSize, initial, h) >= minSize.width;
      assert ResizedHeight(img, e, minSize, initial, h) >= minSize.height;
    }
  }

  // ---------------------------------------------------------------------------
  // Handler exclusivity (`enabled`)

  /** `allHandlers`, in the source's order. */
  const AllHandlers: seq<Handle> := [Bottom, BottomLeft, BottomRight, Left, Right, Top, TopLeft, TopRight]

  /** `findIndex`: the first index of `h` in `s`, or -1. */
  function FindIndex(s: seq<Handle>, h: Handle): (i: int)
    ensures -1 <= i < |s|
    ensures i == -1 <==> h !in s
    ensures i != -1 ==> s[i] == h && forall k :: 0 <= k < i ==> s[k] != h
  {
    if s == [] then -1
    else if s[0] == h then 0
    else
      var j := FindIndex(s[1..], h);
      if j == -1 then -1 else j + 1
  }

  /** No handler appears twice in `s`. */
  predicate Distinct(s: seq<Handle>)
  {
    forall i, j :: 0 <= i < j < |s| ==> s[i] != s[j]
  }

  /** Removing the element at `i` from a sequence without repetitions leaves
      exactly the other elements. */
  lemma RemoveAt(s: seq<Handle>, i: int, x: Handle)
    requires Distinct(s) && 0 <= i < |s|
    ensures x in s[..i] + s[i + 1..] <==> x in s && x != s[i]
  {
    if x in s && x != s[i] {
      var k :| 0 <= k < |s| && s[k] == x;
      if k < i {
        assert s[..i][k] == x;
      } else {
        assert s[i + 1..][k - i - 1] == x;
      }
    }
  }

  lemma AllHandlersDistinct()
    ensures Distinct(AllHandlers)
    ensures forall h :: h != NoHandler ==> h in AllHandlers
  {
  }

  /** `enabled`: a handler may start unless another one is active. The source
      removes `h` from all handlers and asks whether the active one is among
      the rest. */
  function Enabled(activeHandler: Handle, h: Handle): (r: bool)
    ensures r <==> activeHandler == NoHandler || activeHandler == h
  {
    var index := FindIndex(AllHandlers, h);
    AllHandlersDistinct();
    if index != -1 then
      RemoveAt(AllHandlers, index, activeHandler);
      activeHandler == NoHandler || activeHandler !in AllHandlers[..index] + AllHandlers[index + 1..]
    else
      activeHandler == NoHandler || activeHandler !in AllHandlers
  }

  /** While a handler is active it is the only one enabled. */
  lemma OnlyActiveHandlerEnabled(activeHandler: Handle, h: Handle, g: Handle)
    requires activeHandler != NoHandler
    requires Enabled(activeHandler, h) && Enabled(activeHandler, g)
    ensures h == g == activeHandler
  {
  }

  // ---------------------------------------------------------------------------
  // The settle (`getNextBoxBounderies`)

  /** `getCurrentBoxBounderies`: the box as corner and size. */
  function CurrentBoxBounderies(e: Edges): (r: Rect)
    ensures r.x == e.left && r.y == e.top
    ensures r.x + r.width == e.right && r.y + r.height == e.bottom
  {
    Rect(e.left, e.top, e.right - e.left, e.bottom - e.top)
  }

  /** `getNextBoxBounderies`: the box contain-fitted into the container and
      centred in it, and the similarity that takes it there: scaling by
      `scale` about the box's centre (`focalX`, `focalY`), then translating by
      (`translateX`, `translateY`), maps each old edge onto the new one. */
  function NextBoxBounderies(containerLayout: Rect, e: Edges): (r: CropBoxDoneEvent)
    requires e.Width() != 0.0 && e.Height() != 0.0
    ensures r.width == r.scale * e.Width() && r.height == r.scale * e.Height()
    ensures r.width == containerLayout.width || r.height == containerLayout.height
    ensures 2.0 * r.x + r.width == containerLayout.width && 2.0 * r.y + r.height == containerLayout.height
    ensures 2.0 * r.focalX == e.left + e.right && 2.0 * r.focalY == e.top + e.bottom
    ensures r.focalX + r.scale * (e.left - r.focalX) + r.translateX == r.x
    ensures r.focalX + r.scale * (e.right - r.focalX) + r.translateX == r.x + r.width
    ensures r.focalY + r.scale * (e.top - r.focalY) + r.translateY == r.y
    ensures r.focalY + r.scale * (e.bottom - r.focalY) + r.translateY == r.y + r.height
  {
    var boxWidth := e.right - e.left;
    var boxHeight := e.bottom - e.top;
    var resized := Resize(Contain, containerLayout.width, containerLayout.height, boxWidth, boxHeight);
    var x := (containerLayout.width - resized.width) / 2.0;
    var y := (containerLayout.height - resized.height) / 2.0;
    var focalX := e.left + boxWidth / 2.0;
    var focalY := e.top + boxHeight / 2.0;
    var newFocalX := x + resized.width / 2.0;
    var newFocalY := y + resized.height / 2.0;
    CropBoxDoneEvent(focalX, focalY, newFocalX - focalX, newFocalY - focalY, resized.scale,
                     x, y, resized.width, resized.height)
  }

  /** The edges the settle animates the box to. */
  function SettledEdges(d: CropBoxDoneEvent): (s: Edges)
    ensures CurrentBoxBounderies(s) == d.Layout()
  {
    Edges(d.x, d.y, d.x + d.width, d.y + d.height)
  }

  /** A rectangle clipped to the container: each side inside the container
      stays, each side outside it moves onto the container's edge. */
  function ClipToContainer(containerLayout: Rect, layout: Edges): (r: Edges)
    ensures r.left >= 0.0 && r.top >= 0.0 && r.right <= containerLayout.width && r.bottom <= containerLayout.height
    ensures layout.left >= 0.0 ==> r.left == layout.left
    ensures layout.top >= 0.0 ==> r.top == layout.top
    ensures layout.right <= containerLayout.width ==> r.right == layout.right
    ensures layout.bottom <= containerLayout.height ==> r.bottom == layout.bottom
    ensures layout.left < 0.0 ==> r.left == 0.0
    ensures layout.top < 0.0 ==> r.top == 0.0
    ensures layout.right > containerLayout.width ==> r.right == containerLayout.width
    ensures layout.bottom > containerLayout.height ==> r.bottom == containerLayout.height
  {
    Edges(Max(layout.left, 0.0), Max(layout.top, 0.0),
          Min(layout.right, containerLayout.width), Min(layout.bottom, containerLayout.height))
  }

  /** Clipping twice clips once. */
  lemma ClipIsIdempotent(containerLayout: Rect, layout: Edges)
    requires containerLayout.width >= 0.0 && containerLayout.height >= 0.0
    ensures ClipToContainer(containerLayout, ClipToContainer(containerLayout, layout)) == ClipToContainer(containerLayout, layout)
  {
  }

  /** With a positive box and container, the settled box lies inside the
      container, keeps the box's aspect ratio, and is scaled by a positive
      factor. */
  lemma SettledBoxFitsContainer(containerLayout: Rect, e: Edges)
    requires containerLayout.width > 0.0 && containerLayout.height > 0.0
    requires e.Width() > 0.0 && e.Height() > 0.0
    ensures var d := NextBoxBounderies(containerLayout, e);
      d.scale > 0.0 && Inside(SettledEdges(d), Edges(0.0, 0.0, containerLayout.width, containerLayout.height))
      && d.width * e.Height() == d.height * e.Width()
  {
    ResizeContainFits(containerLayout.width, containerLayout.height, e.Width(), e.Height());
  }

  /** Settling is idempotent: a box that has just settled settles again with
      scale 1, no translation, and at the same place. */
  lemma SettleIsIdempotent(containerLayout: Rect, e: Edges)
    requires containerLayout.width > 0.0 && containerLayout.height > 0.0
    requires e.Width() > 0.0 && e.Height() > 0.0
    ensures var d := NextBoxBounderies(containerLayout, e);
      var again := NextBoxBounderies(containerLayout, SettledEdges(d));
      again.scale == 1.0 && again.translateX == 0.0 && again.translateY == 0.0
      && SettledEdges(again) == SettledEdges(d)
  {
    var d := NextBoxBounderies(containerLayout, e);
    var s := SettledEdges(d);
    SettledBoxFitsContainer(containerLayout, e);
    ResizeContainOfFitted(containerLayout.width, containerLayout.height, s.Width(), s.Height());
  }

  // ---------------------------------------------------------------------------
  // The component

  /** The one function the crop box's timer is started with: the settle that
      runs two seconds after a drag ends (`onDragHandlerEnd`'s callback). */
  datatype SettleTask = Settle

  /** The crop-box component. `locked` is the `lockedAspectRatio` prop. */
  class CropBox {
    const locked: bool
    const top: SharedValue
    const left: SharedValue
    const right: SharedValue
    const bottom: SharedValue
    const pan: PanTranslationFrame
    const timer: Timeout<SettleTask>

    var containerLayout: Rect
    /** The drag envelope: the image's apparent rectangle, clipped to the container. */
    var imageLayout: Edges
    var minCropperBoxSize: Size
    var aspectRatio: real
    var initialCropperSize: Size
    var activeHandler: Handle
    /** Whether the last bound computation raised the diagnostic. */
    ghost var diagnosed: bool

    ghost function Repr(): set<object>
    {
      {this, top, left, right, bottom, pan, timer}
    }

    ghost predicate Valid()
      reads this, top, left, right, bottom, pan, timer
    {
      top != left && top != right && top != bottom && left != right && left != bottom && right != bottom
      && pan.Valid() && timer.Valid() && aspectRatio != 0.0
    }

    /** The logical edges, which the geometry reads. */
    function Values(): Edges
      reads this, top, left, right, bottom
    {
      Edges(left.value, top.value, right.value, bottom.value)
    }

    /** The animated edges, which are drawn. */
    function Animated(): Edges
      reads this, top, left, right, bottom
    {
      Edges(left.animatedValue, top.animatedValue, right.animatedValue, bottom.animatedValue)
    }

    constructor (locked: bool)
      ensures Valid() && fresh(Repr() - {this})
      ensures this.locked == locked && activeHandler == NoHandler && aspectRatio == 1.0
      ensures Values() == Edges(0.0, 0.0, 0.0, 0.0) == Animated() && imageLayout == Edges(0.0, 0.0, 0.0, 0.0)
      ensures !timer.Pending() && timer.func == None
    {
      this.locked := locked;
      containerLayout := Rect(0.0, 0.0, 0.0, 0.0);
      imageLayout := Edges(0.0, 0.0, 0.0, 0.0);
      minCropperBoxSize := Size(0.0, 0.0);
      aspectRatio := 1.0;
      initialCropperSize := Size(0.0, 0.0);
      activeHandler := NoHandler;
      diagnosed := false;
      top := new SharedValue(0.0);
      left := new SharedValue(0.0);
      right := new SharedValue(0.0);
      bottom := new SharedValue(0.0);
      pan := new PanTranslationFrame(None, None);
      timer := new Timeout(SettleDelay);
    }

    /** `setImageLayout`: the drag envelope is the given rectangle clipped to
        the container. */
    method SetImageLayout(layout: Edges)
      modifies this
      ensures imageLayout == ClipToContainer(containerLayout, layout)
      ensures containerLayout == old(containerLayout) && minCropperBoxSize == old(minCropperBoxSize)
      ensures aspectRatio == old(aspectRatio) && initialCropperSize == old(initialCropperSize)
      ensures activeHandler == old(activeHandler) && diagnosed == old(diagnosed)
    {
      imageLayout := Edges(Max(layout.left, 0.0), Max(layout.top, 0.0),
                           Min(layout.right, containerLayout.width), Min(layout.bottom, containerLayout.height));
    }

    /** Sets the logical value of the edges handle `h` moves. */
    method SetMovedValues(h: Handle, target: Edges)
      requires Valid()
      modifies top, left, right, bottom
      ensures Valid()
      ensures Values() == Moved(h, old(Values()), target) && Animated() == old(Animated())
    {
      if h.MovesLeft() { left.SetValue(target.left); }
      if h.MovesTop() { top.SetValue(target.top); }
      if h.MovesRight() { right.SetValue(target.right); }
      if h.MovesBottom() { bottom.SetValue(target.bottom); }
    }

    /** Sets the animated value of the edges handle `h` moves. */
    method SetMovedAnimatedValues(h: Handle, target: Edges)
      requires Valid()
      modifies top, left, right, bottom
      ensures Valid()
      ensures Animated() == Moved(h, old(Animated()), target) && Values() == old(Values())
    {
      if h.MovesLeft() { left.SetAnimatedValue(target.left); }
      if h.MovesTop() { top.SetAnimatedValue(target.top); }
      if h.MovesRight() { right.SetAnimatedValue(target.right); }
      if h.MovesBottom() { bottom.SetAnimatedValue(target.bottom); }
    }

    /** Sets both values of all four edges. */
    method SetAllEdges(target: Edges)
      requires Valid()
      modifies top, left, right, bottom
      ensures Valid()
      ensures Values() == target && Animated() == target
    {
      top.SetAnimatedValue(target.top);
      left.SetAnimatedValue(target.left);
      right.SetAnimatedValue(target.right);
      bottom.SetAnimatedValue(target.bottom);
      top.SetValue(target.top);
      left.SetValue(target.left);
      right.SetValue(target.right);
      bottom.SetValue(target.bottom);
    }

    /** `resetTo`: the box is put at `edges`, both on screen and logically;
        with a locked aspect ratio the ratio becomes the box's; the minimum
        size is recomputed for the ratio, and the box is remembered as the
        initial size. */
    method ResetTo(edges: Edges, layout: Rect, screen: Screen)
      requires Valid() && screen.Defined()
      requires locked ==> edges.Width() != 0.0 && edges.Height() != 0.0
      modifies this, top, left, right, bottom
      ensures Valid()
      ensures Values() == edges && Animated() == edges && containerLayout == layout
      ensures locked ==> AtAspectRatio(edges, aspectRatio)
      ensures !locked ==> aspectRatio == old(aspectRatio)
      ensures minCropperBoxSize == MinCropperSize(screen.width, screen.height, screen.statusBarHeight, aspectRatio)
      ensures initialCropperSize == Size(edges.Width(), edges.Height())
      ensures imageLayout == old(imageLayout) && activeHandler == old(activeHandler)
    {
      containerLayout := layout;
      SetAllEdges(edges);
      if locked {
        aspectRatio := (edges.right - edges.left) / (edges.bottom - edges.top);
      }
      minCropperBoxSize := MinCropperSize(screen.width, screen.height, screen.statusBarHeight, aspectRatio);
      initialCropperSize := Size(edges.right - edges.left, edges.bottom - edges.top);
    }

    /** `scaleRectangleAndFitIntoPosition`: announces the settle and animates
        the four edges to the settled box; the logical values follow when the
        animation completes. */
    method ScaleRectangleAndFitIntoPosition() returns (done: CropBoxDoneEvent)
      requires Valid() && Values().Width() != 0.0 && Values().Height() != 0.0
      modifies top, left, right, bottom
      ensures Valid()
      ensures done == NextBoxBounderies(containerLayout, old(Values()))
      ensures Values() == SettledEdges(done) && Animated() == SettledEdges(done)
    {
      done := NextBoxBounderies(containerLayout, Values());
      SetAllEdges(SettledEdges(done));
    }

    /** `updateCropperToFitInsideContainer`: after a rotation the container and
        the minimum size change and the box settles into the new container. */
    method UpdateCropperToFitInsideContainer(layout: Rect, screen: Screen) returns (done: CropBoxDoneEvent)
      requires Valid() && screen.Defined()
      requires Values().Width() != 0.0 && Values().Height() != 0.0
      modifies this, top, left, right, bottom
      ensures Valid() && containerLayout == layout
      ensures minCropperBoxSize == MinCropperSize(screen.width, screen.height, screen.statusBarHeight, aspectRatio)
      ensures done == NextBoxBounderies(layout, old(Values()))
      ensures Values() == SettledEdges(done) && Animated() == SettledEdges(done)
      ensures imageLayout == old(imageLayout) && aspectRatio == old(aspectRatio)
      ensures initialCropperSize == old(initialCropperSize) && activeHandler == old(activeHandler)
    {
      containerLayout := layout;
      minCropperBoxSize := MinCropperSize(screen.width, screen.height, screen.statusBarHeight, aspectRatio);
      done := ScaleRectangleAndFitIntoPosition();
    }

    /** `holdAnimations`: the image is moving, so the pending settle is pushed
        back by restarting the timer. */
    method HoldAnimations()
      requires Valid()
      modifies timer
      ensures Valid()
      ensures timer.func == old(timer.func) && (timer.Pending() <==> timer.func.Some?)
      ensures old(timer.timerId).Some? ==> old(timer.timerId).value !in timer.scheduled
    {
      timer.ResetTimer();
    }

    /** `onDragHandlerStart`: a drag begins, so the pending settle is cancelled. */
    method OnDragHandlerStart()
      requires Valid()
      modifies timer
      ensures Valid() && !timer.Pending() && timer.func == old(timer.func)
    {
      timer.ClearTimer();
    }

    /** `onDragHandlerEnd`: no handler is active any more, the image learns the
        box, and the settle is scheduled. */
    method OnDragHandlerEnd() returns (bounderies: Rect)
      requires Valid()
      modifies this, timer
      ensures Valid() && activeHandler == NoHandler
      ensures bounderies == CurrentBoxBounderies(Values())
      ensures timer.func == Some(Settle) && timer.Pending()
      ensures imageLayout == old(imageLayout) && containerLayout == old(containerLayout)
      ensures minCropperBoxSize == old(minCropperBoxSize) && aspectRatio == old(aspectRatio)
      ensures initialCropperSize == old(initialCropperSize) && diagnosed == old(diagnosed)
    {
      activeHandler := NoHandler;
      bounderies := CurrentBoxBounderies(Values());
      timer.StartTimer(Settle);
    }

    /** `onDragHandlerCanceled` and `onDragHandlerFailed`: no handler is active
        any more. */
    method OnDragHandlerCanceled()
      modifies this
      ensures activeHandler == NoHandler
      ensures imageLayout == old(imageLayout) && containerLayout == old(containerLayout)
      ensures minCropperBoxSize == old(minCropperBoxSize) && aspectRatio == old(aspectRatio)
      ensures initialCropperSize == old(initialCropperSize) && diagnosed == old(diagnosed)
    {
      activeHandler := NoHandler;
    }

    /** The eight `on*GestureEvent` handlers, for handle `h`. Every event feeds
        the pan tracker and computes the proposal and its bounds. ACTIVE shows
        the clamped edges and keeps the unclamped ones logically; END commits
        the clamped edges, resets the tracker and ends the drag, telling the
        image where the box is; BEGAN makes `h` the active handler and cancels
        the settle; CANCELLED and FAILED end the drag. The bar handles exist
        only while the aspect ratio is unlocked. */
    method OnHandleGestureEvent(h: Handle, state: GestureState, translation: Vec) returns (bounderies: Option<Rect>)
      requires Valid() && h != NoHandler && (locked ==> h.IsCorner())
      requires locked ==> initialCropperSize.width != 0.0 && initialCropperSize.height != 0.0
      modifies this, top, left, right, bottom, pan, timer
      ensures Valid()
      ensures imageLayout == old(imageLayout) && containerLayout == old(containerLayout)
      ensures minCropperBoxSize == old(minCropperBoxSize) && aspectRatio == old(aspectRatio)
      ensures initialCropperSize == old(initialCropperSize)
      ensures var e := old(Values());
        var p := Proposal(h, locked, aspectRatio, e, translation.Minus(old(pan.prevValue)), translation);
        var c := ClampedEdges(h, ClampedValues(locked, imageLayout, e, minCropperBoxSize, initialCropperSize, h), p, e);
        && diagnosed == ClampDiagnostic(locked, imageLayout, e, h)
        && (state == Active ==> Values() == p && Animated() == Moved(h, old(Animated()), c))
        && (state == End ==> Values() == c && Animated() == old(Animated()))
        && (state != Active && state != End ==> Values() == e && Animated() == old(Animated()))
      ensures state == End ==> pan.prevValue == Vec(0.0, 0.0) && pan.Readings == []
      ensures state != End ==> pan.prevValue == translation
      ensures state == Began ==> activeHandler == h && !timer.Pending() && timer.func == old(timer.func)
      ensures state in {End, Cancelled, Failed} ==> activeHandler == NoHandler
      ensures state in {Active, Undetermined} ==> activeHandler == old(activeHandler)
      ensures state == End <==> bounderies.Some?
      ensures state == End ==> bounderies.value == CurrentBoxBounderies(Values())
      ensures state == End ==> timer.func == Some(Settle) && timer.Pending()
      ensures state != End && state != Began ==> unchanged(timer)
    {
      var e := Values();
      var frames := pan.Update(translation);
      var p := Proposal(h, locked, aspectRatio, e, frames, translation);
      var c := ClampedEdges(h, ClampedValues(locked, imageLayout, e, minCropperBoxSize, initialCropperSize, h), p, e);
      diagnosed := ClampDiagnostic(locked, imageLayout, e, h);
      bounderies := None;
      if state == Active {
        SetMovedAnimatedValues(h, c);
        SetMovedValues(h, p);
      } else if state == End {
        SetMovedValues(h, c);
        pan.Reset(None, None);
        var b := OnDragHandlerEnd();
        bounderies := Some(b);
      } else if state == Began {
        activeHandler := h;
        OnDragHandlerStart();
      } else if state == Cancelled || state == Failed {
        OnDragHandlerCanceled();
      }
    }

    /** The runtime fires timer `handle`. If it is the pending settle, the
        image first learns the settled box, then the box settles and the
        settle's similarity is announced. */
    method OnTimerFired(handle: nat) returns (bounderies: Option<Rect>, done: Option<CropBoxDoneEvent>)
      requires Valid()
      requires handle in timer.scheduled ==> Values().Width() != 0.0 && Values().Height() != 0.0
      modifies top, left, right, bottom, timer
      ensures Valid() && handle !in timer.scheduled
      ensures done.Some? <==> handle in old(timer.scheduled)
      ensures bounderies.Some? <==> done.Some?
      ensures done.Some? ==>
        done.value == NextBoxBounderies(containerLayout, old(Values()))
        && bounderies.value == done.value.Layout()
        && Values() == SettledEdges(done.value) && Animated() == SettledEdges(done.value)
      ensures done.None? ==> Values() == old(Values()) && Animated() == old(Animated())
    {
      var callback := timer.Expire(handle);
      bounderies, done := None, None;
      if callback.Some? {
        var next := NextBoxBounderies(containerLayout, Values());
        bounderies := Some(next.Layout());
        var d := ScaleRectangleAndFitIntoPosition();
        done := Some(d);
      }
    }
  }
}
