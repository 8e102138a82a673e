/**
 * HCenter: centres its content horizontally when the caller asks it to fill
 * the width, and is transparent otherwise.
 *
 * This element targets the revision of the element API in which `measure`
 * and `draw` return `Option<ElementSize>`, the cheap pre-check is
 * `insufficient_first_height`, and `extra_location_min_height` is a plain
 * number.
 */
module HCenter {
  import opened Protocol

  /** Context of the `insufficient_first_height` query. */
  datatype InsufficientFirstHeightCtx = InsufficientFirstHeightCtx(
    width: WidthConstraint,
    firstHeight: real,
    fullHeight: real)

  /** The breakable part of a measure context, with the two slots the element reports through. */
  class BreakableMeasure {
    const fullHeight: real
    var breakCount: nat
    var extraLocationMinHeight: real

    constructor (fullHeight: real)
      ensures this.fullHeight == fullHeight
      ensures breakCount == 0 && extraLocationMinHeight == 0.0
    {
      this.fullHeight := fullHeight;
      breakCount := 0;
      extraLocationMinHeight := 0.0;
    }
  }

  datatype MeasureCtx = MeasureCtx(
    width: WidthConstraint,
    firstHeight: real,
    breakable: Option<BreakableMeasure>)

  /** The wrapped element's three operations, as deterministic oracles. */
  type FirstHeightCheck = InsufficientFirstHeightCtx -> bool
  type Measurer = MeasureCtx -> Option<ElementSize>
  type Drawer = DrawCtx -> Option<ElementSize>

  /**
   * `WidthConstraint::constrain`, which is not part of this model; the only
   * property relied on is `CapsAtMax`.
   */
  type Constrain = (WidthConstraint, real) -> real

  ghost predicate CapsAtMax(constrain: Constrain)
  {
    forall w: WidthConstraint, natural: real :: constrain(w, natural) <= w.max
  }

  /** The same budget, without the request to fill it. */
  function Natural(width: WidthConstraint): (n: WidthConstraint)
    ensures n.max == width.max && !n.expand
  {
    WidthConstraint(width.max, false)
  }

  /** The pre-check, answered by the content under the non-expanding constraint. */
  function InsufficientFirstHeight(inner: FirstHeightCheck, ctx: InsufficientFirstHeightCtx): (r: bool)
    ensures r == inner(InsufficientFirstHeightCtx(Natural(ctx.width), ctx.firstHeight, ctx.fullHeight))
  {
    inner(ctx.(width := ctx.width.(expand := false)))
  }

  /** The pre-check's answer does not depend on whether the caller asked to fill the width. */
  lemma InsufficientFirstHeightIgnoresExpand(inner: FirstHeightCheck, ctx: InsufficientFirstHeightCtx, expand: bool)
    ensures InsufficientFirstHeight(inner, ctx) == InsufficientFirstHeight(inner, ctx.(width := ctx.width.(expand := expand)))
  {
  }

  /**
   * The size HCenter reports for a content size: no size when the content
   * has none, otherwise the content's width re-constrained against the
   * caller's constraint and the content's height unchanged.
   */
  function Reconstrain(constrain: Constrain, width: WidthConstraint, size: Option<ElementSize>): (r: Option<ElementSize>)
    ensures r.None? <==> size.None?
    ensures r.Some? ==> r.value.height == size.value.height
    ensures r.Some? ==> r.value.width == constrain(width, size.value.width)
  {
    if size.Some? then Some(ElementSize(constrain(width, size.value.width), size.value.height)) else None
  }

  /**
   * The measure pass: the content is measured for its natural width, with
   * the caller's first height and the caller's own breakable context (so the
   * content's break count and minimum height reach the caller's slots).
   */
  function Measure(inner: Measurer, constrain: Constrain, ctx: MeasureCtx): (r: Option<ElementSize>)
    ensures var natural := inner(MeasureCtx(Natural(ctx.width), ctx.firstHeight, ctx.breakable));
      && (r.None? <==> natural.None?)
      && (r.Some? ==> r.value.height == natural.value.height)
      && (r.Some? ==> r.value.width == constrain(ctx.width, natural.value.width))
  {
    var width := ctx.width;
    var size := inner(ctx.(width := WidthConstraint(width.max, false)));
    Reconstrain(constrain, width, size)
  }

  /** Whatever the caller's `expand`, the content is consulted the same way. */
  lemma MeasureConsultsContentAlike(inner: Measurer, constrain: Constrain, ctx: MeasureCtx, expand: bool)
    ensures var other := Measure(inner, constrain, ctx.(width := ctx.width.(expand := expand)));
      var mine := Measure(inner, constrain, ctx);
      && (other.None? <==> mine.None?)
      && (other.Some? ==> other.value.height == mine.value.height)
  {
  }

  /** The reported width never exceeds the caller's budget. */
  lemma MeasuredWidthWithinMax(inner: Measurer, constrain: Constrain, ctx: MeasureCtx)
    requires CapsAtMax(constrain)
    ensures var r := Measure(inner, constrain, ctx);
      r.Some? ==> r.value.width <= ctx.width.max
  {
  }

  /** Where and how wide the content is drawn inside the caller's width. */
  datatype Centring = Centring(xOffset: real, elementWidth: real)

  /**
   * Content of a known natural width gets equal margins on both sides of the
   * budget; content without a size is drawn at the left edge across the whole
   * budget.
   */
  function CentringFor(max: real, natural: Option<ElementSize>): (c: Centring)
    ensures natural.Some? ==> c.elementWidth == natural.value.width
    ensures natural.Some? ==> c.xOffset == max - (c.xOffset + c.elementWidth)
    ensures natural.None? ==> c.xOffset == 0.0 && c.elementWidth == max
  {
    if natural.Some? then
      Centring((max - natural.value.width) / 2.0, natural.value.width)
    else
      Centring(0.0, max)
  }

  /** Content no wider than the budget is drawn entirely inside it. */
  lemma CentredContentInsideBudget(max: real, natural: ElementSize)
    requires 0.0 <= natural.width <= max
    ensures var c := CentringFor(max, Some(natural));
      0.0 <= c.xOffset && c.xOffset + c.elementWidth <= max
  {
  }

  /**
   * The context the content is drawn with, given the pre-measure's size.
   * Without `expand` it is the caller's context itself. With `expand`, the
   * first location and every location the content obtains after a break are
   * moved right by the same offset and nothing else; the content is told to
   * fill exactly its natural width; heights, the preferred break count and
   * the frame indices are passed through.
   */
  function InnerDrawCtx(ctx: DrawCtx, natural: Option<ElementSize>): (d: DrawCtx)
    ensures !ctx.width.expand ==> d == ctx
    ensures ctx.width.expand ==>
      var c := CentringFor(ctx.width.max, natural);
      && d.location == ShiftX(ctx.location, c.xOffset)
      && d.width == WidthConstraint(c.elementWidth, true)
      && d.firstHeight == ctx.firstHeight
      && d.preferredHeight == ctx.preferredHeight
      && (d.breakable.Some? <==> ctx.breakable.Some?)
      && (d.breakable.Some? ==>
        && d.breakable.value.fullHeight == ctx.breakable.value.fullHeight
        && d.breakable.value.preferredHeightBreakCount == ctx.breakable.value.preferredHeightBreakCount
        && forall i: nat :: Resolve(d.breakable.value.getLocation, i)
                            == ShiftX(Resolve(ctx.breakable.value.getLocation, i), c.xOffset))
  {
    if !ctx.width.expand then ctx
    else
      var c := CentringFor(ctx.width.max, natural);
      var breakable :=
        if ctx.breakable.Some? then
          var b := ctx.breakable.value;
          Some(BreakableDraw(b.fullHeight, b.preferredHeightBreakCount, Offset(b.getLocation, c.xOffset)))
        else None;
      DrawCtx(ShiftX(ctx.location, c.xOffset), WidthConstraint(c.elementWidth, true),
              ctx.firstHeight, ctx.preferredHeight, breakable)
  }

  /**
   * The draw pass. With `expand` it first measures the content for its
   * natural width, against a throwaway breakable context whose slots are
   * fresh locals (`pre`), so nothing that measurement reports reaches the
   * caller; then it draws the content once, centred. The reported size is
   * re-constrained as in `Measure`.
   */
  method Draw(innerMeasure: Measurer, innerDraw: Drawer, constrain: Constrain, ctx: DrawCtx, pdf: Pdf)
    returns (size: Option<ElementSize>, ghost pre: Option<MeasureCtx>)
    modifies pdf
    ensures pre.Some? <==> ctx.width.expand
    ensures pre.Some? ==>
      var m := pre.value;
      && m.width == Natural(ctx.width)
      && m.firstHeight == ctx.firstHeight
      && (m.breakable.Some? <==> ctx.breakable.Some?)
      && (m.breakable.Some? ==>
        && fresh(m.breakable.value)
        && m.breakable.value.fullHeight == ctx.breakable.value.fullHeight)
    ensures var d := InnerDrawCtx(ctx, if pre.Some? then innerMeasure(pre.value) else None);
      && pdf.log == old(pdf.log) + [InnerDraw(d)]
      && size == Reconstrain(constrain, ctx.width, innerDraw(d))
  {
    var width := ctx.width;
    var inner: DrawCtx;

    if width.expand {
      var counters: Option<BreakableMeasure> := None;
      if ctx.breakable.Some? {
        var local := new BreakableMeasure(ctx.breakable.value.fullHeight);
        counters := Some(local);
      }
      var measureCtx := MeasureCtx(WidthConstraint(width.max, false), ctx.firstHeight, counters);
      pre := Some(measureCtx);
      var elementSize := innerMeasure(measureCtx);

      var xOffset: real;
      var elementWidth: real;
      if elementSize.Some? {
        xOffset := (width.max - elementSize.value.width) / 2.0;
        elementWidth := elementSize.value.width;
      } else {
        xOffset := 0.0;
        elementWidth := ctx.width.max;
      }

      var location := ctx.location;
      location := location.(x := location.x + xOffset);

      var widthConstraint := WidthConstraint(elementWidth, true);

      if ctx.breakable.Some? {
        var breakable := ctx.breakable.value;
        inner := DrawCtx(
          location, widthConstraint, ctx.firstHeight, ctx.preferredHeight,
          Some(BreakableDraw(
            breakable.fullHeight,
            breakable.preferredHeightBreakCount,
            Offset(breakable.getLocation, xOffset))));
      } else {
        inner := ctx.(location := location, width := widthConstraint, breakable := None);
      }
    } else {
      pre := None;
      inner := ctx;
    }

    pdf.log := pdf.log + [InnerDraw(inner)];
    var innerSize := innerDraw(inner);

    size := Reconstrain(constrain, width, innerSize);
  }

  /** The size `draw` reports, for the content size the pre-measure found. */
  function DrawnSize(innerDraw: Drawer, constrain: Constrain, ctx: DrawCtx, natural: Option<ElementSize>): (r: Option<ElementSize>)
    ensures var s := innerDraw(InnerDrawCtx(ctx, natural));
      && (r.None? <==> s.None?)
      && (r.Some? ==> r.value.height == s.value.height && r.value.width == constrain(ctx.width, s.value.width))
  {
    Reconstrain(constrain, ctx.width, innerDraw(InnerDrawCtx(ctx, natural)))
  }

  /** The measure context that corresponds to a draw context, with the given slots. */
  function MeasureView(ctx: DrawCtx, slots: Option<BreakableMeasure>): MeasureCtx
  {
    MeasureCtx(ctx.width, ctx.firstHeight, slots)
  }

  /**
   * When the caller does not ask to fill the width, HCenter's draw reports
   * what its measure reports, for content whose draw reports what its
   * measure reports.
   */
  lemma NonExpandingDrawAgreesWithMeasure(
    innerMeasure: Measurer, innerDraw: Drawer, constrain: Constrain,
    ctx: DrawCtx, slots: Option<BreakableMeasure>, natural: Option<ElementSize>)
    requires !ctx.width.expand
    requires innerDraw(ctx) == innerMeasure(MeasureView(ctx, slots))
    ensures DrawnSize(innerDraw, constrain, ctx, natural) == Measure(innerMeasure, constrain, MeasureView(ctx, slots))
  {
  }

  /**
   * With `expand`, draw does its own work (a pre-measure, a narrower
   * constraint, a shifted location), and still reports what measure reports
   * whenever the content, drawn in the centred context, reports the size it
   * was pre-measured with.
   */
  lemma ExpandingDrawAgreesWithMeasure(
    innerMeasure: Measurer, innerDraw: Drawer, constrain: Constrain,
    ctx: DrawCtx, slots: Option<BreakableMeasure>)
    requires ctx.width.expand
    requires var n := innerMeasure(MeasureCtx(Natural(ctx.width), ctx.firstHeight, slots));
      innerDraw(InnerDrawCtx(ctx, n)) == n
    ensures var n := innerMeasure(MeasureCtx(Natural(ctx.width), ctx.firstHeight, slots));
      DrawnSize(innerDraw, constrain, ctx, n) == Measure(innerMeasure, constrain, MeasureView(ctx, slots))
  {
  }

  /**
   * Centring composes with wrappers further out: every frame the content
   * obtains is the outermost caller's frame for the same index, moved right
   * by this element's offset plus those of the wrappers around it.
   */
  lemma FramesCarryAllOffsets(ctx: DrawCtx, natural: Option<ElementSize>, i: nat)
    requires ctx.width.expand && ctx.breakable.Some?
    ensures var d := InnerDrawCtx(ctx, natural);
      var outer := ctx.breakable.value.getLocation;
      && d.breakable.Some?
      && Resolve(d.breakable.value.getLocation, i)
         == Location(Root(outer)(i).x + TotalOffset(outer) + CentringFor(ctx.width.max, natural).xOffset, Root(outer)(i).y)
  {
    ResolveComposesOffsets(ctx.breakable.value.getLocation, i);
  }

  /** The centring example with a 5-wide image in a 10-wide budget: offset 2.5, on the first frame and after a break. */
  lemma ExampleImage(frames: nat -> Location, i: nat)
    requires forall k: nat :: frames(k).x == 12.0
    ensures var ctx := DrawCtx(Location(12.0, 30.0), WidthConstraint(10.0, true), 1.0, None,
                               Some(BreakableDraw(4.0, 0, Callback(frames))));
      var d := InnerDrawCtx(ctx, Some(ElementSize(5.0, Some(2.0))));
      && d.location.x == 14.5
      && d.width == WidthConstraint(5.0, true)
      && d.breakable.Some?
      && Resolve(d.breakable.value.getLocation, i).x == 14.5
  {
  }

  /** The centring example with a 5-wide text in a 6-wide budget: offset 0.5. */
  lemma ExampleText()
    ensures CentringFor(6.0, Some(ElementSize(5.0, Some(10.0)))) == Centring(0.5, 5.0)
  {
  }

  /**
   * Content that reports a width of 5 but no height, in a 4-wide budget:
   * the offset is -0.5 (a size is reported, so centring still applies),
   * and the reported width stays within the budget.
   */
  lemma ExampleOverdraw(constrain: Constrain, ctx: MeasureCtx)
    requires CapsAtMax(constrain) && ctx.width.max == 4.0
    ensures CentringFor(4.0, Some(ElementSize(5.0, None))).xOffset == -0.5
    ensures var r := Measure(c => Some(ElementSize(5.0, None)), constrain, ctx);
      r.Some? && r.value.width <= 4.0 && r.value.height == None
  {
  }

  /** Content without a size: HCenter reports no size and draws across the whole budget from the left edge. */
  lemma ExampleNoneElement(constrain: Constrain, ctx: DrawCtx)
    requires ctx.width.expand
    ensures var d := InnerDrawCtx(ctx, None);
      d.location == ctx.location && d.width == WidthConstraint(ctx.width.max, true)
    ensures DrawnSize(c => None, constrain, ctx, None) == None
  {
  }
}
