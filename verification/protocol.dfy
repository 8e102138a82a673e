/**
 * Geometry and pass contexts shared by the layout elements.
 *
 * Coordinate convention: positions are in PDF user space, where y grows
 * upwards. A location's (x, y) is the top-left corner of the region still
 * free in its frame, so content placed lower on the page has a smaller y.
 */
module Protocol {

  datatype Option<+T> = None | Some(value: T)

  /** The horizontal budget offered to an element: at most `max`, and whether to fill it. */
  datatype WidthConstraint = WidthConstraint(max: real, expand: bool)

  /** A resolved size; `height == None` means the height is indeterminate in this pass. */
  datatype ElementSize = ElementSize(width: real, height: Option<real>)

  /** A drawable anchor, reduced to its position (the layer handle is not modelled). */
  datatype Location = Location(x: real, y: real)

  /** The location moved right by `dx`. */
  function ShiftX(l: Location, dx: real): (r: Location)
    ensures r.y == l.y && r.x - l.x == dx
  {
    Location(l.x + dx, l.y)
  }

  /** The location moved down by `dy` (y grows upwards). */
  function Lower(l: Location, dy: real): (r: Location)
    ensures r.x == l.x && l.y - r.y == dy
  {
    Location(l.x, l.y - dy)
  }

  /**
   * The `get_location` callback of a breakable draw: frame index -> location.
   * `Callback` is the callback the surface (or any caller) supplied; `Offset`
   * is the closure a wrapper builds around the callback it was given, which
   * calls it with the same index and moves the answer right by `dx`.
   */
  datatype LocationResolver =
    | Callback(getLocation: nat -> Location)
    | Offset(base: LocationResolver, dx: real)

  /** What calling the resolver for frame `index` returns. */
  function Resolve(r: LocationResolver, index: nat): (l: Location)
    decreases r
  {
    match r
    case Callback(f) => f(index)
    case Offset(base, dx) => ShiftX(Resolve(base, index), dx)
  }

  /** The callback at the bottom of a stack of wrapping closures. */
  function Root(r: LocationResolver): (f: nat -> Location)
    decreases r
  {
    match r
    case Callback(f) => f
    case Offset(base, _) => Root(base)
  }

  /** The sum of the horizontal offsets of all wrapping layers. */
  function TotalOffset(r: LocationResolver): (dx: real)
    decreases r
  {
    match r
    case Callback(_) => 0.0
    case Offset(base, d) => TotalOffset(base) + d
  }

  /**
   * Wrapping layers compose: every frame location is the root callback's
   * location for the same index, moved right by the sum of the layers'
   * offsets and never moved vertically.
   */
  lemma {:induction false} ResolveComposesOffsets(r: LocationResolver, index: nat)
    ensures Resolve(r, index) == Location(Root(r)(index).x + TotalOffset(r), Root(r)(index).y)
    decreases r
  {
    match r
    case Callback(f) =>
    case Offset(base, dx) =>
      ResolveComposesOffsets(base, index);
  }

  /** The breakable part of a draw context. */
  datatype BreakableDraw = BreakableDraw(
    fullHeight: real,
    preferredHeightBreakCount: nat,
    getLocation: LocationResolver)

  /** A draw context; the `pdf` handle is passed separately, as the `Pdf` object that records the pass. */
  datatype DrawCtx = DrawCtx(
    location: Location,
    width: WidthConstraint,
    firstHeight: real,
    preferredHeight: Option<real>,
    breakable: Option<BreakableDraw>)

  /** What a transformer element does to the document during a draw. */
  datatype Event =
    | GetLocation(index: nat)   // the caller's get_location was called for this frame index
    | InnerDraw(ctx: DrawCtx)   // the wrapped element was drawn with this context

  /** The document being drawn into, seen through the events that reach it. */
  class Pdf {
    var log: seq<Event>

    constructor ()
      ensures log == []
    {
      log := [];
    }
  }
}
