/**
 * AlignLocationBottom: draws its content flush with the bottom of the frame
 * the content lands in, either the current frame or, when the content does
 * not fit there, a later frame obtained through the breakable context.
 *
 * This element targets the revision of the element API in which `measure`
 * returns an `ElementSize` and the breakable measure context carries an
 * optional `extra_location_min_height`.
 */
module AlignLocationBottom {
  import opened Protocol

  /** Answer of the cheap "will you use the current frame?" query. */
  datatype FirstLocationUsage = WillUse | WillSkip | NoneHeight

  /**
   * The breakable part of a measure context. The two variables are the slots
   * the caller lends to the element (`&mut` in laser-pdf) for it to report
   * how many frames it needs and how tall the last frame must be.
   */
  class BreakableMeasure {
    const fullHeight: real
    var breakCount: nat
    var extraLocationMinHeight: Option<real>

    constructor (fullHeight: real)
      ensures this.fullHeight == fullHeight
      ensures breakCount == 0 && extraLocationMinHeight == None
    {
      this.fullHeight := fullHeight;
      breakCount := 0;
      extraLocationMinHeight := None;
    }
  }

  datatype MeasureCtx = MeasureCtx(
    width: WidthConstraint,
    firstHeight: real,
    breakable: Option<BreakableMeasure>)

  /** The wrapped element's `measure`, as a deterministic oracle. */
  type Measurer = MeasureCtx -> ElementSize

  /** The decision `layout` takes, shared by the three passes. */
  datatype Layout = Layout(breaks: nat, yOffset: real, size: ElementSize)

  /**
   * The context the content is measured with: never breakable, and with the
   * whole of a fresh frame (or of the current one when there is no breakable
   * context) as its first height.
   */
  function ContentCtx(width: WidthConstraint, firstHeight: real, fullHeight: Option<real>): (c: MeasureCtx)
    ensures c.breakable == None && c.width == width
    ensures fullHeight.Some? ==> c.firstHeight == fullHeight.value
    ensures fullHeight.None? ==> c.firstHeight == firstHeight
  {
    MeasureCtx(width, if fullHeight.Some? then fullHeight.value else firstHeight, None)
  }

  /** The content's natural size, as the wrapped element reports it. */
  function Content(inner: Measurer, width: WidthConstraint, firstHeight: real, fullHeight: Option<real>): ElementSize
  {
    inner(ContentCtx(width, firstHeight, fullHeight))
  }

  /**
   * How many breaks to take and how far to lower the content.
   * Without a known content height or a breakable context nothing breaks;
   * a caller-pinned count is taken verbatim; otherwise exactly one break is
   * taken when the content is taller than the current frame. The content's
   * top is then lowered so that its bottom meets the bottom of the frame it
   * lands in.
   */
  function ComputeLayout(
    inner: Measurer, width: WidthConstraint, firstHeight: real,
    fullHeight: Option<real>, preferredBreaks: nat): (l: Layout)
    ensures l.size == Content(inner, width, firstHeight, fullHeight)
    ensures l.breaks > 0 ==> fullHeight.Some? && l.size.height.Some?
    ensures fullHeight.Some? && l.size.height.Some? && preferredBreaks > 0 ==> l.breaks == preferredBreaks
    ensures preferredBreaks == 0 ==> l.breaks <= 1
    ensures preferredBreaks == 0 ==>
      (l.breaks == 1 <==> fullHeight.Some? && l.size.height.Some? && l.size.height.value > firstHeight)
    ensures l.size.height.Some? && fullHeight.Some? && l.breaks > 0 ==>
      l.yOffset + l.size.height.value == fullHeight.value
    ensures l.size.height.Some? && l.breaks == 0 ==> l.yOffset + l.size.height.value == firstHeight
    ensures l.size.height.None? ==> l.yOffset == 0.0
  {
    var size := inner(ContentCtx(width, firstHeight, fullHeight));
    var (breaks, locationHeight) :=
      if size.height.Some? && fullHeight.Some? then
        var b := if preferredBreaks == 0 && size.height.value > firstHeight then 1 else preferredBreaks;
        (b, if b > 0 then fullHeight.value else firstHeight)
      else
        (0, firstHeight);
    var yOffset := if size.height.Some? then locationHeight - size.height.value else 0.0;
    Layout(breaks, yOffset, size)
  }

  /**
   * The query answer: skip the current frame exactly when the content is
   * taller than it, use it when the content fits, and report an unknown
   * height when the content's height is unknown.
   */
  function FirstLocationUsageOf(
    inner: Measurer, width: WidthConstraint, firstHeight: real, fullHeight: real): (u: FirstLocationUsage)
    ensures var h := Content(inner, width, firstHeight, Some(fullHeight)).height;
      && (u == WillSkip <==> h.Some? && h.value > firstHeight)
      && (u == WillUse <==> h.Some? && h.value <= firstHeight)
      && (u == NoneHeight <==> h.None?)
  {
    var layout := ComputeLayout(inner, width, firstHeight, Some(fullHeight), 0);
    if layout.breaks > 0 then WillSkip
    else if layout.size.height.Some? then WillUse
    else NoneHeight
  }

  function FullHeightOf(breakable: Option<BreakableMeasure>): Option<real>
  {
    if breakable.Some? then Some(breakable.value.fullHeight) else None
  }

  /**
   * The break count `measure` reports: one break exactly when the content
   * has a known height taller than the current frame, none otherwise.
   */
  function MeasuredBreaks(inner: Measurer, width: WidthConstraint, firstHeight: real, fullHeight: real): (n: nat)
    ensures var h := Content(inner, width, firstHeight, Some(fullHeight)).height;
      n == (if h.Some? && h.value > firstHeight then 1 else 0)
  {
    ComputeLayout(inner, width, firstHeight, Some(fullHeight), 0).breaks
  }

  /**
   * The size `measure` reports: the content's width, and the full height of
   * the frame the content lands in (the element claims that whole frame), or
   * no height when the content's height is unknown.
   */
  function MeasuredSize(inner: Measurer, width: WidthConstraint, firstHeight: real, fullHeight: Option<real>): (s: ElementSize)
    ensures var c := Content(inner, width, firstHeight, fullHeight);
      && s.width == c.width
      && (s.height.Some? <==> c.height.Some?)
      && (s.height.Some? && fullHeight.Some? && c.height.value > firstHeight ==> s.height.value == fullHeight.value)
      && (s.height.Some? && (fullHeight.None? || c.height.value <= firstHeight) ==> s.height.value == firstHeight)
  {
    var layout := ComputeLayout(inner, width, firstHeight, fullHeight, 0);
    var height :=
      if layout.breaks > 0 then Some(fullHeight.value)
      else if layout.size.height.Some? then Some(firstHeight)
      else None;
    ElementSize(layout.size.width, height)
  }

  /**
   * The measure pass. It writes the break count only when it breaks, and it
   * always asks, through `extra_location_min_height`, for the last frame to
   * be a full one.
   */
  method Measure(inner: Measurer, ctx: MeasureCtx) returns (size: ElementSize)
    modifies if ctx.breakable.Some? then {ctx.breakable.value} else {}
    ensures size == MeasuredSize(inner, ctx.width, ctx.firstHeight, FullHeightOf(ctx.breakable))
    ensures ctx.breakable.Some? ==>
      var b := ctx.breakable.value;
      var n := MeasuredBreaks(inner, ctx.width, ctx.firstHeight, b.fullHeight);
      && b.breakCount == (if n > 0 then n else old(b.breakCount))
      && b.extraLocationMinHeight == Some(b.fullHeight)
  {
    var layout := ComputeLayout(inner, ctx.width, ctx.firstHeight, FullHeightOf(ctx.breakable), 0);
    var height: Option<real>;
    if layout.breaks > 0 {
      var breakable := ctx.breakable.value;
      breakable.breakCount := layout.breaks;
      height := Some(breakable.fullHeight);
    } else {
      height := if layout.size.height.Some? then Some(ctx.firstHeight) else None;
    }
    if ctx.breakable.Some? {
      var breakable := ctx.breakable.value;
      breakable.extraLocationMinHeight := Some(breakable.fullHeight);
    }
    size := ElementSize(layout.size.width, height);
  }

  function DrawFullHeight(breakable: Option<BreakableDraw>): Option<real>
  {
    if breakable.Some? then Some(breakable.value.fullHeight) else None
  }

  /** The pinned break count of a draw, 0 when the draw is not breakable. */
  function PreferredBreaks(breakable: Option<BreakableDraw>): nat
  {
    if breakable.Some? then breakable.value.preferredHeightBreakCount else 0
  }

  function DrawLayout(inner: Measurer, ctx: DrawCtx): Layout
  {
    ComputeLayout(inner, ctx.width, ctx.firstHeight, DrawFullHeight(ctx.breakable), PreferredBreaks(ctx.breakable))
  }

  /** The frame the content lands in: the current one, or the one after `breaks` breaks. */
  function LandingLocation(ctx: DrawCtx, breaks: nat): Location
    requires breaks > 0 ==> ctx.breakable.Some?
  {
    if breaks > 0 then Resolve(ctx.breakable.value.getLocation, breaks - 1) else ctx.location
  }

  /** The height of the frame the content lands in. */
  function LandingHeight(ctx: DrawCtx, breaks: nat): real
    requires breaks > 0 ==> ctx.breakable.Some?
  {
    if breaks > 0 then ctx.breakable.value.fullHeight else ctx.firstHeight
  }

  /**
   * What the draw pass does to the document: at most one call of
   * `get_location`, for the frame it broke into, then one draw of the
   * content, unbreakable, at the landing frame's position lowered so that the
   * content's bottom meets the frame's bottom.
   */
  function DrawEvents(inner: Measurer, ctx: DrawCtx): (e: seq<Event>)
    ensures var l := DrawLayout(inner, ctx);
      && (l.breaks > 0 ==> ctx.breakable.Some? && |e| == 2 && e[0] == GetLocation(l.breaks - 1))
      && (l.breaks == 0 ==> |e| == 1)
      && e[|e| - 1].InnerDraw?
      && var d := e[|e| - 1].ctx;
      var frame := LandingLocation(ctx, l.breaks);
      && d.breakable == None && d.preferredHeight == None && d.width == ctx.width
      && d.firstHeight == LandingHeight(ctx, l.breaks)
      && d.location.x == frame.x
      && (l.size.height.Some? ==> d.location.y - l.size.height.value == frame.y - d.firstHeight)
      && (l.size.height.None? ==> d.location == frame)
  {
    var layout := DrawLayout(inner, ctx);
    var breaks := layout.breaks;
    var heightAvailable := LandingHeight(ctx, breaks);
    var inner := InnerDraw(DrawCtx(Lower(LandingLocation(ctx, breaks), layout.yOffset), ctx.width, heightAvailable, None, None));
    if breaks > 0 then [GetLocation(breaks - 1), inner] else [inner]
  }

  /**
   * The size `draw` reports: the content's width, and the height of the
   * frame the content lands in, or no height when the content's is unknown.
   */
  function DrawnSize(inner: Measurer, ctx: DrawCtx): (s: ElementSize)
    ensures var l := DrawLayout(inner, ctx);
      && s.width == l.size.width
      && (s.height.Some? <==> l.size.height.Some?)
      && (s.height.Some? ==> s.height.value == LandingHeight(ctx, l.breaks))
  {
    var layout := DrawLayout(inner, ctx);
    var height :=
      if layout.breaks > 0 then Some(ctx.breakable.value.fullHeight)
      else if layout.size.height.Some? then Some(ctx.firstHeight)
      else None;
    ElementSize(layout.size.width, height)
  }

  /** The draw pass; the unwrap of the breakable context is reached only when it is present. */
  method Draw(inner: Measurer, ctx: DrawCtx, pdf: Pdf) returns (size: ElementSize)
    modifies pdf
    ensures pdf.log == old(pdf.log) + DrawEvents(inner, ctx)
    ensures size == DrawnSize(inner, ctx)
  {
    var layout := DrawLayout(inner, ctx);

    var heightAvailable: real;
    var height: Option<real>;
    var location: Location;

    if layout.breaks > 0 {
      var breakable := ctx.breakable.value;
      pdf.log := pdf.log + [GetLocation(layout.breaks - 1)];
      location := Resolve(breakable.getLocation, layout.breaks - 1);
      heightAvailable := breakable.fullHeight;
      height := Some(breakable.fullHeight);
    } else {
      location := ctx.location;
      heightAvailable := ctx.firstHeight;
      height := if layout.size.height.Some? then Some(ctx.firstHeight) else None;
    }

    location := location.(y := location.y - layout.yOffset);

    pdf.log := pdf.log + [InnerDraw(DrawCtx(location, ctx.width, heightAvailable, None, None))];

    size := ElementSize(layout.size.width, height);
  }

  /**
   * Measure and draw agree: when the caller pins no break count, drawing
   * reports the size measuring reports for the same inputs.
   */
  lemma MeasureDrawAgreement(inner: Measurer, ctx: DrawCtx)
    requires PreferredBreaks(ctx.breakable) == 0
    ensures DrawnSize(inner, ctx) == MeasuredSize(inner, ctx.width, ctx.firstHeight, DrawFullHeight(ctx.breakable))
  {
  }

  /**
   * When the caller pins no break count, draw asks for a later frame exactly
   * when measure reported a break, and for the last frame measure counted.
   */
  lemma DrawUsesMeasuredFrame(inner: Measurer, ctx: DrawCtx)
    requires ctx.breakable.Some? && ctx.breakable.value.preferredHeightBreakCount == 0
    ensures var n := MeasuredBreaks(inner, ctx.width, ctx.firstHeight, ctx.breakable.value.fullHeight);
      var e := DrawEvents(inner, ctx);
      && (n > 0 ==> e[0] == GetLocation(n - 1))
      && (n == 0 ==> |e| == 1)
  {
  }

  /**
   * A pinned break count is honoured verbatim when the content's height is
   * known, whatever the content's height is.
   */
  lemma DrawHonoursPreferredBreaks(inner: Measurer, ctx: DrawCtx)
    requires ctx.breakable.Some? && ctx.breakable.value.preferredHeightBreakCount > 0
    requires Content(inner, ctx.width, ctx.firstHeight, Some(ctx.breakable.value.fullHeight)).height.Some?
    ensures DrawEvents(inner, ctx)[0] == GetLocation(ctx.breakable.value.preferredHeightBreakCount - 1)
    ensures DrawnSize(inner, ctx).height == Some(ctx.breakable.value.fullHeight)
  {
  }

  /**
   * Content that respects the height it is measured with stays inside the
   * frame it lands in: it is lowered by a non-negative amount, never below
   * the frame's bottom.
   */
  lemma ContentStaysInFrame(inner: Measurer, ctx: DrawCtx)
    requires forall c: MeasureCtx :: inner(c).height.Some? ==> 0.0 <= inner(c).height.value <= c.firstHeight
    requires 0.0 <= ctx.firstHeight && (ctx.breakable.Some? ==> 0.0 <= ctx.breakable.value.fullHeight)
    ensures var l := DrawLayout(inner, ctx);
      0.0 <= l.yOffset <= LandingHeight(ctx, l.breaks)
  {
  }

  /** A stand-in content of fixed size. */
  function FixedContent(width: real, height: real): Measurer
  {
    c => ElementSize(width, Some(height))
  }

  /**
   * Worked example: three lines of height 5 (15 in all) in a 21-high frame
   * at (11, 29), without a breakable context, are lowered by 6 and drawn at
   * (11, 23); the element reports the whole frame height.
   */
  lemma ExampleUnbreakable()
    ensures var ctx := DrawCtx(Location(11.0, 29.0), WidthConstraint(12.0, true), 21.0, None, None);
      && DrawEvents(FixedContent(3.0, 15.0), ctx)
         == [InnerDraw(DrawCtx(Location(11.0, 23.0), WidthConstraint(12.0, true), 21.0, None, None))]
      && DrawnSize(FixedContent(3.0, 15.0), ctx) == ElementSize(3.0, Some(21.0))
  {
  }

  /**
   * Worked example: five lines (25 in all) do not fit a 21-high first frame,
   * so with 26-high frames one break is taken and the content is lowered by 1
   * inside the frame `get_location(0)` returns.
   */
  lemma ExamplePreBreak(frames: nat -> Location)
    ensures var b := BreakableDraw(26.0, 0, Callback(frames));
      var ctx := DrawCtx(Location(11.0, 29.0), WidthConstraint(12.0, true), 21.0, None, Some(b));
      && DrawEvents(FixedContent(3.0, 25.0), ctx)
         == [GetLocation(0), InnerDraw(DrawCtx(Lower(frames(0), 1.0), WidthConstraint(12.0, true), 26.0, None, None))]
      && MeasuredBreaks(FixedContent(3.0, 25.0), WidthConstraint(12.0, true), 21.0, 26.0) == 1
      && DrawnSize(FixedContent(3.0, 25.0), ctx) == ElementSize(3.0, Some(26.0))
  {
  }

  /** Worked example: a pinned count of 4 breaks lands the content in the frame `get_location(3)` returns. */
  lemma ExamplePreferredHeight(frames: nat -> Location)
    ensures var b := BreakableDraw(26.0, 4, Callback(frames));
      var ctx := DrawCtx(Location(11.0, 29.0), WidthConstraint(12.0, true), 21.0, None, Some(b));
      DrawEvents(FixedContent(3.0, 25.0), ctx)
      == [GetLocation(3), InnerDraw(DrawCtx(Lower(frames(3), 1.0), WidthConstraint(12.0, true), 26.0, None, None))]
  {
  }
}
