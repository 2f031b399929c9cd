/** Shared records, enumerations and constants of the cropper
    (src/types.ts and src/config.ts). Coordinates are exact reals. */
module Types {

  datatype Option<+T> = None | Some(value: T)

  /** A point, a translation, or one frame of a pan gesture (x, y). */
  datatype Vec = Vec(x: real, y: real)
  {
    function Plus(other: Vec): Vec { Vec(x + other.x, y + other.y) }
    function Minus(other: Vec): Vec { Vec(x - other.x, y - other.y) }
  }

  /** `LayoutRectangle`: a box by its corner and size. */
  datatype Rect = Rect(x: real, y: real, width: real, height: real)

  /** `PositionLayout`: a box by its four edges. */
  datatype Edges = Edges(left: real, top: real, right: real, bottom: real)
  {
    function Width(): real { right - left }
    function Height(): real { bottom - top }
  }

  datatype Size = Size(width: real, height: real)

  /** The screen's dimensions and the status-bar height, which the source reads
      from the platform (`Dimensions.get('screen')`, `getStatusBarHeight()`). */
  datatype Screen = Screen(width: real, height: real, statusBarHeight: real)
  {
    /** On a landscape screen the minimum crop-box size divides by
        height + status bar, so that sum must not be 0. */
    predicate Defined() { width > height ==> height + statusBarHeight != 0.0 }
  }

  /** `CropBoxDoneEventProps`: where the crop box settles and the similarity
      (scale about the focal point, then translation) that takes it there. */
  datatype CropBoxDoneEvent = CropBoxDoneEvent(
    focalX: real, focalY: real,
    translateX: real, translateY: real,
    scale: real,
    x: real, y: real, width: real, height: real)
  {
    function Layout(): Rect { Rect(x, y, width, height) }
  }

  /** `BoxHandlerTypes`: the eight drag handles of the crop box, or `NoHandler`
      (`BoxHandlerTypes.None`). */
  datatype Handle = NoHandler | TopLeft | TopRight | BottomLeft | BottomRight | Top | Left | Right | Bottom
  {
    predicate IsCorner() { TopLeft? || TopRight? || BottomLeft? || BottomRight? }
    predicate MovesTop() { TopLeft? || TopRight? || Top? }
    predicate MovesBottom() { BottomLeft? || BottomRight? || Bottom? }
    predicate MovesLeft() { TopLeft? || BottomLeft? || Left? }
    predicate MovesRight() { TopRight? || BottomRight? || Right? }
  }

  /** The gesture recogniser's `State`. */
  datatype GestureState = Undetermined | Failed | Began | Cancelled | Active | End

  /** `maximumAvailableScale` of src/config.ts. */
  const MaximumAvailableScale: real := 20.0

  /** The cropper's settle delay (`useTimeout(2000)`), in milliseconds. */
  const SettleDelay: nat := 2000
}
