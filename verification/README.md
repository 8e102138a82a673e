# laser-pdf transformer elements, modelled in Dafny

laser-pdf lays out a tree of elements in two passes. `measure` computes an element's size without drawing. `draw` renders it. Both passes are given a width constraint, the height left in the current frame and, when the element may span frames, a breakable context. During draw, the breakable context holds the height of a fresh frame, a pinned break count and a `get_location` callback that returns a later frame's location. During measure, it holds the height of a fresh frame and two slots through which the element reports its break count and `extra_location_min_height`.

This project models the two transformer elements that wrap one inner element:

- **AlignLocationBottom** (`align_location_bottom.dfy`) places its content flush with the bottom of the frame the content lands in. The private `layout` decision decides how many breaks to take and how far to lower the content. `first_location_usage`, `measure` and `draw` are built on it.
- **HCenter** (`h_center.dfy`) centres its content horizontally when the caller asks it to fill the width. It moves the first location and every location returned by the wrapped `get_location` callback by the same offset.

`protocol.dfy` holds the shared types:

- widths, sizes and locations;
- the draw context;
- the `get_location` callback as a `LocationResolver`;
- a `Pdf` object whose `log` records what a draw does to the document.

`Callback(f)` is a callback the element was given. `Offset(base, dx)` is the closure HCenter builds around it.

Modelling choices:

- `f64` is `real`. Break counts (`u32`) are `nat`. They are only compared with 0, and 1 is subtracted only after a positive test.
- The wrapped element is a function-valued parameter: a deterministic oracle for its `measure`, `draw` or pre-check.
- The measure slots are a `BreakableMeasure` class per module, because the two files use different revisions of the element API. In AlignLocationBottom, `extra_location_min_height` is an `Option`. In HCenter it is a plain number.
- `draw` is a method that appends `GetLocation(i)` and `InnerDraw(ctx)` events to `pdf.log`.
- Coordinates are PDF user space: y grows upwards. Bottom alignment therefore subtracts the offset from y.

Two consequences of the code are worth stating:

- **Which frames `draw` requests.** AlignLocationBottom's draw calls only `get_location(breaks - 1)`, so a pinned count of 4 calls `get_location(3)` alone (`ExamplePreferredHeight`).
- **When centring is skipped.** HCenter forces `x_offset` to 0 only when the content's `measure` returns no size at all. Content that reports width 5 and no height in a 4-wide budget is centred with offset -0.5 (`ExampleOverdraw`).

## Model

| member | source | states |
|---|---|---|
| `AlignLocationBottom.ContentCtx` | src/elements/align_location_bottom.rs:107-113 | The content is always measured without a breakable context. Its first height is the full height, or the first height when the caller is not breakable. |
| `AlignLocationBottom.ComputeLayout` | src/elements/align_location_bottom.rs:100-146 | Break decision: without a known height or a full height there are 0 breaks; a pinned count is taken verbatim; with no pinned count there is at most 1 break, taken exactly when the content is taller than the first frame. Offset law: offset + content height is the full height after a break and the first height otherwise; the offset is 0 for unknown height. |
| `AlignLocationBottom.FirstLocationUsageOf` | src/elements/align_location_bottom.rs:6-16 | `WillSkip` iff the content's height is known and exceeds the first height. `WillUse` iff it is known and fits. `NoneHeight` iff it is unknown. |
| `AlignLocationBottom.MeasuredBreaks` | src/elements/align_location_bottom.rs:19-29 | The break count measure computes is 1 exactly when the content is taller than the first frame, and 0 otherwise. |
| `AlignLocationBottom.MeasuredSize` | src/elements/align_location_bottom.rs:18-44 | The reported width is the content's width. A height is reported iff the content's height is known. That height is the full height when the content is too tall for the first frame, and the first height otherwise. |
| `AlignLocationBottom.Measure` | src/elements/align_location_bottom.rs:18-44 | Returns `MeasuredSize`. The break-count slot is written only when a break is taken, and keeps its old value otherwise. `extra_location_min_height` is always set to `Some(full_height)` when a breakable context exists. |
| `AlignLocationBottom.DrawEvents` | src/elements/align_location_bottom.rs:57-83 | After a break, draw calls `get_location(breaks-1)` exactly once, and only then; otherwise it uses the current location. The content is then drawn once with no breakable context, no preferred height, the same width, and first height equal to the landing frame's height. x is unchanged. The content's bottom meets the landing frame's bottom. |
| `AlignLocationBottom.DrawnSize` | src/elements/align_location_bottom.rs:57-88 | The draw result is the content's width. A height is reported iff the content's height is known, and it is the landing frame's height. |
| `AlignLocationBottom.Draw` | src/elements/align_location_bottom.rs:46-89 | Appends `DrawEvents` to the log and returns `DrawnSize`. The breakable context is unwrapped only after a break, and the verifier checks that it is present there. |
| `AlignLocationBottom.MeasureDrawAgreement` | src/elements/align_location_bottom.rs:18-89 | With no pinned break count, or no breakable context, draw reports the size measure reports for the same inputs. |
| `AlignLocationBottom.DrawUsesMeasuredFrame` | src/elements/align_location_bottom.rs:26-64 | With no pinned count, draw requests frame `n-1` when measure reported `n > 0` breaks, and requests no frame when `n = 0`. |
| `AlignLocationBottom.DrawHonoursPreferredBreaks` | src/elements/align_location_bottom.rs:47-67 | When the content's height is known, a pinned count `p > 0` leads to `get_location(p-1)` and a full-height result, however tall the content is. |
| `AlignLocationBottom.ContentStaysInFrame` | src/elements/align_location_bottom.rs:118-139 | Take content that never reports more height than it was measured with, and non-negative frame heights. With or without a pinned break count, its offset lies between 0 and the landing frame's height. |
| `AlignLocationBottom.ExampleUnbreakable` | src/elements/align_location_bottom.rs:155-198 | Height 15 in a 21-high frame at (11, 29) is drawn at (11, 23). The reported height is 21. |
| `AlignLocationBottom.ExamplePreBreak` | src/elements/align_location_bottom.rs:249-296 | Height 25 against first height 21 and full height 26 takes 1 break. It is drawn 1 below `get_location(0)`, and the reported height is 26. |
| `AlignLocationBottom.ExamplePreferredHeight` | src/elements/align_location_bottom.rs:298-346 | A pinned count of 4 draws the content 1 below `get_location(3)`. |
| `Protocol.ResolveComposesOffsets` | src/elements/h_center.rs:78-84 | Take a stack of wrapping closures, each forwarding the index and shifting x. It returns the root callback's location for the same index, with x moved by the sum of the offsets and y unchanged. |
| `HCenter.InsufficientFirstHeight` | src/elements/h_center.rs:6-15 | Forwards the query with `expand` forced to false. `max` and the other fields are unchanged. |
| `HCenter.InsufficientFirstHeightIgnoresExpand` | src/elements/h_center.rs:6-15 | The answer is the same whatever the caller's `expand`. |
| `HCenter.Reconstrain` | src/elements/h_center.rs:99-102 | The result is None iff the content's size is None. Otherwise the width is `constrain(width)` against the caller's constraint and the height is unchanged. |
| `HCenter.Measure` | src/elements/h_center.rs:17-32 | The content is measured with `{max, expand: false}` and the caller's first height and breakable slots. The result is None iff the content's is. Otherwise the width is constrained and the height passed through. |
| `HCenter.MeasureConsultsContentAlike` | src/elements/h_center.rs:20-26 | Flipping the caller's `expand` changes neither whether a size is reported nor its height. |
| `HCenter.MeasuredWidthWithinMax` | src/elements/h_center.rs:28-31 | For a `constrain` that never exceeds `max`, the reported width never exceeds `max`. |
| `HCenter.CentringFor` | src/elements/h_center.rs:54-63 | For a known natural width `w`, the two margins are equal: `x_offset = max - (x_offset + w)`, i.e. `2*x_offset + w = max`. Without a size, `x_offset = 0` and the width is `max`. |
| `HCenter.CentredContentInsideBudget` | src/elements/h_center.rs:54-63 | Content with `0 <= w <= max` is drawn inside `[0, max]`. |
| `HCenter.InnerDrawCtx` | src/elements/h_center.rs:65-96 | Without `expand`, the inner draw gets the caller's context unmodified. With `expand`, the first location's x moves by `x_offset` and y is unchanged. Every later frame `i` is the caller's `get_location(i)` with x moved by `x_offset`. The width is `{max: element_width, expand: true}`. First height, preferred height, full height and the preferred break count are forwarded unchanged. |
| `HCenter.Draw` | src/elements/h_center.rs:34-103 | The pre-measure happens only under `expand`. It uses `{max, expand: false}`, the caller's first height, and freshly allocated slots, so nothing it reports reaches the caller. The content is then drawn exactly once, with `InnerDrawCtx` of the pre-measured size. The result is `Reconstrain` of the inner draw's result. |
| `HCenter.BreakableMeasure.constructor` | src/elements/h_center.rs:38-39 | The throwaway slots start at break count 0 and minimum height 0. |
| `HCenter.DrawnSize` | src/elements/h_center.rs:99-102 | The draw result is None iff the inner draw's is. Otherwise the width is constrained against the caller's original constraint and the height is passed through, as in `Measure`. |
| `HCenter.NonExpandingDrawAgreesWithMeasure` | src/elements/h_center.rs:95-102 | Without `expand`, HCenter's draw size equals its measure size whenever the content's draw and measure agree. |
| `HCenter.ExpandingDrawAgreesWithMeasure` | src/elements/h_center.rs:18-103 | With `expand`, when the content drawn in the centred context reports the size it was pre-measured with, HCenter's draw size equals its measure size for the same width, first height and slots. |
| `HCenter.FramesCarryAllOffsets` | src/elements/h_center.rs:78-84 | Every frame the content obtains is the outermost caller's frame for that index, shifted by this element's offset plus the offsets of the wrappers around it. |
| `HCenter.ExampleImage` | src/elements/h_center.rs:286-336 | Width 5 in a budget of 10 at x = 12 gives x = 14.5 on the first frame and on every frame after a break. The inner draw gets `{5, true}`. |
| `HCenter.ExampleText` | src/elements/h_center.rs:126-184 | Width 5 in a budget of 6 gives offset 0.5. |
| `HCenter.ExampleOverdraw` | src/elements/h_center.rs:246-283 | A reported size of (5, no height) in a budget of 4 gives offset -0.5. The measured width is at most 4 and the height is None. |
| `HCenter.ExampleNoneElement` | src/elements/h_center.rs:115-124 | Content with no size is drawn at the caller's location across the whole budget, and HCenter reports no size. |

## Left out

- `WidthConstraint::constrain` is defined outside the two modelled files. It is a parameter (`Constrain`), and the only property assumed is `CapsAtMax`: the result never exceeds `max`.
- The inner element's own behaviour is an oracle: `FakeText`, `FakeImage`, `RecordPasses`, `NoneElement` and real leaf elements. In particular, what the inner element writes into measure slots it is handed is not modelled. HCenter's measure forwards the caller's own slot object, which is why those writes reach the caller.
- `get_location` is modelled as a pure index-to-location function plus a `GetLocation` event. The pages it adds to the document are not modelled. Calls the inner element makes to the callback it receives are not logged; they are described by `Resolve` on the resolver it receives.
- `AlignLocationBottom.ContentStaysInFrame` assumes non-negative frame heights, a layout invariant that the source does not check.
- `HCenter.ExpandingDrawAgreesWithMeasure`: the content's `measure` is an oracle on a context that includes the identity of the slot object it is handed, so its result may depend on which slot object that is. The lemma therefore links draw, whose pre-measure uses fresh slots, to a measure given those same slots. It does not cover a measure given the caller's slots.
- `HCenter.Draw` does not state the values left in the throwaway pre-measure slots, because the inner element's writes are not modelled.
- The layer handle of `Location` and rendering into layers are not modelled. A location is an (x, y) pair.
- Float rounding is not modelled. The arithmetic is subtraction, comparison and halving over `real`.
- The 32-bit width of break counts is not modelled.
- `src/test_utils.rs` is test scaffolding that builds real PDF documents, and is not part of this model.
- `src/serde_elements.rs` is deserialisation and tagged-union dispatch glue, and is not part of this model.
- `src/elements.rs` is only a list of modules, and is not part of this model.
- The snapshot assertions of the AlignLocationBottom tests are not visible. The worked examples restate the inputs of those tests and what the code computes for them.
