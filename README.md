# Layout engine model

A Dafny model of the layout engine of a SwiftUI-style layout visualiser. The
engine follows the "parent proposes, child chooses" protocol: a parent offers a
`ProposedSize` (each axis a number or unconstrained), and each node answers with
a concrete `Size` according to its kind. A vertical stack passes its proposed
width to its children, lets each child choose its height, stacks them top to
bottom with spacing between them, and centres each one horizontally in the
stack's width: the larger of 0 and its widest child's width. `PerformLayout`
returns a node's size at an origin and, for a vertical stack, its children's
placements moved by that origin.

Files:

- `types.dfy` (module `Types`): the data shapes of `src/core/types.ts` —
  `ProposedSize`, `Size`, `ViewType` and the node tree `LayoutNode` — together
  with two shapes taken from `src/core/layout.ts`: the output `LayoutResult` and
  `Point`, the inline `{ x, y }` type of an origin or a position
  (layout.ts:59, 73 and 125). Absent fields (`null` or `undefined`) are
  `Option.None`. `types.ts` does not declare `LayoutResult` or a Frame's `width`
  and `height`; both are taken from their uses in `layout.ts`.
- `layout.dfy` (module `Layout`): `Resolve`, `SizeThatFits`, the functional
  `LayoutVStack` it calls, and `PerformLayout`. `SizeThatFits` and
  `LayoutVStack` are mutually recursive and terminate on the depth of the
  tree. `LayoutVStackLoop` is the stack algorithm as the source runs it: a loop
  that pushes every child into an array at x = 0 while accumulating the running
  y offset and the widest width, then a pass that overwrites each child's x in
  place. It is proved to return exactly `LayoutVStack`.
- `layout_properties.dfy` (module `LayoutProperties`): the sizing rules per
  kind, the height, width and placement of a vertical stack, the shape of
  `PerformLayout`'s result, and the irrelevance of `color` and `padding`.
- `layout_examples.dfy` (module `LayoutExamples`): the two unit-test scenarios
  and the application's initial tree.

Numbers are `real`: the engine uses only `+`, `-`, `min`, `max`, halving and
the integer product `length * 10` of a Text node's width (layout.ts:23), so
JavaScript numbers are idealised as exact reals. Text length is the number of
characters of the text.

`ViewType` has one constructor beyond the seven the type declaration admits,
`Other(tag)`, standing for a kind string outside that set at run time. Its tag
is an `UnknownTag`, a string that names none of the seven kinds: a node whose
kind string is "VStack" is a `VStack`, as the `switch` of layout.ts:17-53 would
treat it. `Other` keeps the `default:` branch of `sizeThatFits`
(layout.ts:51-52), which typed input cannot reach; `IsDeclaredKind` picks out
the seven.

Behaviour of the code that the model keeps as written:

- `performLayout` does not recurse into children, although its comment at
  layout.ts:62 says that containers lay out their children recursively. A
  vertical stack's children come back with an empty child list, and any other
  kind has no children in its result.
- Resolved sizes are not clamped to be non-negative. Negative sizes arise only
  from negative explicit dimensions, spacing or proposals; `SizeNonNegative`
  proves that sizes are non-negative when none of those are.
- A vertical stack's width is the larger of 0 and its widest child's width
  (`maxWidth`, which starts at 0, layout.ts:111 and 129), so an empty stack,
  or one whose children all have negative widths, is 0 wide. The local
  `finalWidth` (layout.ts:134), which would take the proposed width, is never
  read.

Idempotence of a layout pass needs no lemma: every member of the model that
computes a layout is a function or, like `LayoutVStackLoop`, is proved equal to
one, so equal inputs give equal results.

## Model

| member | source | states |
|---|---|---|
| `Layout.Resolve` | src/core/layout.ts:9-14 | per axis, the proposed value when present, else the default |
| `Layout.SizeThatFits` | src/core/layout.ts:16-54 | no contract of its own: its rule for each kind is stated by `TextSizing`, `FrameSizing`, `ShapeSizing`, `PlaceholderStackSizing`, `UnknownKindSizing`, `VStackHeight` and `VStackWidth` |
| `Layout.ChildSizes` | src/core/layout.ts:105-107 | one size per child, in order |
| `Layout.LayoutVStack` | src/core/layout.ts:93-147 | a stack layout holds one placed result per child |
| `Layout.LayoutVStackLoop` | src/core/layout.ts:93-147 | the loop that pushes children and accumulates `currentY` and `maxWidth`, followed by the in-place centring pass, returns exactly the functional stack layout (size and every child's placement) |
| `Layout.Translate` | src/core/layout.ts:71-74 | one entry per placement; each keeps its id, size and children, and its position moves by exactly the origin on each axis |
| `Layout.TranslateAtOrigin` | src/core/layout.ts:59-74 | moving placements by the default origin (0, 0) leaves them unchanged |
| `Layout.PerformLayout` | src/core/layout.ts:59-83 | the result has the node's id, its sizeThatFits and the origin as position, and one child entry per child for a vertical stack, none for any other kind |
| `Layout.PerformLayoutAtZero` | src/core/layout.ts:59-83 | with the default origin the result sits at (0, 0) and a vertical stack's children are exactly its relative placements; any other kind has none |
| `LayoutProperties.WidestUpToIsMax` | src/core/layout.ts:111-131 | the running `Math.max` starting from 0 is at least 0, bounds every width seen so far, and is 0 or one of them |
| `LayoutProperties.MaxWidthIsMax` | src/core/layout.ts:129-144 | the stack width is the maximum of 0 and all child widths |
| `LayoutProperties.YOffsetClosedForm` | src/core/layout.ts:110-130 | child i's running y offset is the sum of the heights of the i children above it plus spacing times i |
| `LayoutProperties.StackHeightClosedForm` | src/core/layout.ts:130-145 | a non-empty stack's height is the sum of child heights plus spacing times (k - 1) |
| `LayoutProperties.YOffsetMonotone` | src/core/layout.ts:130 | with non-negative heights and spacing, running y offsets are non-negative and never decrease |
| `LayoutProperties.TextSizing` | src/core/layout.ts:18-25 | Text is 20 high; its width is the smaller of 10 per character and the proposed width (1000 when unconstrained); missing text counts as length 0 |
| `LayoutProperties.FrameSizing` | src/core/layout.ts:27-32 | Frame, per axis: explicit dimension, else proposed dimension, else 50 |
| `LayoutProperties.FrameIgnoresProposal` | src/core/layout.ts:27-32 | a Frame with explicit width and height has exactly that size under every proposal |
| `LayoutProperties.ShapeSizing` | src/core/layout.ts:34-37 | Circle and Rectangle take the proposed dimension per axis, else 50; unconstrained gives 50 by 50 |
| `LayoutProperties.PlaceholderStackSizing` | src/core/layout.ts:42-49 | HStack and ZStack take the proposed dimension per axis, else 100 |
| `LayoutProperties.UnknownKindSizing` | src/core/layout.ts:51-52 | a kind outside the declared seven is 50 by 50 under any proposal |
| `LayoutProperties.AxisIndependence` | src/core/layout.ts:16-54 | width depends only on the proposed width; height only on the proposed height, except a vertical stack, whose whole size depends only on the proposed width |
| `LayoutProperties.HeightNonNegative` | src/core/layout.ts:16-54 | with non-negative explicit dimensions, spacing and proposed height, the resolved height is non-negative |
| `LayoutProperties.SizeNonNegative` | src/core/layout.ts:16-54 | with non-negative explicit dimensions, spacing and proposal, both resolved axes are non-negative |
| `LayoutProperties.EmptyVStack` | src/core/layout.ts:97-99 | a stack without children is 0 by 0 and places no children, in `LayoutVStack` and in `PerformLayout` |
| `LayoutProperties.ChildSizing` | src/core/layout.ts:103-107 | each child is sized under (proposed width, unconstrained height): the definition of `ChildSizes` written out for one child |
| `LayoutProperties.VStackHeight` | src/core/layout.ts:94-145 | a non-empty stack is as tall as the sum of its children's heights plus spacing (default 8) times (k - 1) |
| `LayoutProperties.VStackWidth` | src/core/layout.ts:129-144 | the stack width is at least 0, at least every child width, and either 0 or some child's width: it hugs its content |
| `LayoutProperties.VStackIgnoresProposedHeight` | src/core/layout.ts:103 | the whole stack layout, size and placements, is the same for two proposals with the same width |
| `LayoutProperties.VStackPlacement` | src/core/layout.ts:114-141 | child i keeps its id, its size is its own sizeThatFits under the child proposal, it has no children, its y is its running offset, and its x centres it so that 0 <= x and x + width <= stack width |
| `LayoutProperties.VStackChildTop` | src/core/layout.ts:110-130 | child i of a stack has y = (sum of the heights of the children above it) + spacing times i |
| `LayoutProperties.VStackContiguous` | src/core/layout.ts:125-130 | the first child is at y = 0, each next child starts one spacing below the previous child's bottom edge, and the stack ends at the last child's bottom edge |
| `LayoutProperties.VStackVerticalOrder` | src/core/layout.ts:125-130 | with non-negative dimensions, children's y values are ordered and each child lies vertically inside the stack |
| `LayoutProperties.PerformLayoutResult` | src/core/layout.ts:59-83 | the result has the node's id, its sizeThatFits and the origin; a vertical stack lists one entry per child in order, with the child's id, its stack size, no children, and its stack position moved by the origin; any other kind lists no children |
| `LayoutProperties.PerformLayoutChildInBounds` | src/core/layout.ts:66-82 | in absolute coordinates each child of a stack lies horizontally inside the stack's box, and also vertically when dimensions are non-negative |
| `LayoutProperties.CosmeticFieldsIgnored` | src/core/types.ts:25-28 | clearing `color` and `padding` throughout the tree changes no size, no stack layout and no layout result |
| `LayoutProperties.RecolorPreservesLayout` | src/core/types.ts:25-28 | two trees that differ only in `color` and `padding` have the same layout |
| `LayoutExamples.HelloTextExample` | src/core/layout.test.ts:5-10 | Text "Hello" under an unconstrained proposal is 50 by 20 |
| `LayoutExamples.BasicStackExample` | src/core/layout.test.ts:12-33 | two 50 by 50 frames with spacing 10 give a 50 by 110 stack with children at y = 0 and y = 60 |
| `LayoutExamples.InitialTreeExample` | src/components/Canvas.tsx:8-28 | the initial tree in a 300 by 500 container is 140 by 110, with children at x = 15, 20, 0 and y = 0, 30, 90 |

## Left out

- The presentation layer (`src/components/Canvas.tsx`, `src/components/NodeView.tsx`, `src/app/page.tsx`): React state, effects, drag handlers, window listeners, the `Math.max(100, …)` container clamp and rendering. The initial tree and container size of `Canvas.tsx` appear only as a worked example.
- The `sizeThatFits`/`placeSubviews` method signatures on `LayoutNode` and the `ViewDimensions` interface in `types.ts`: they are declared but never implemented or called.
- Real horizontal and overlay stacking: the source has placeholders only, which are modelled as they are.
- IEEE-754 rounding, NaN and infinities: numbers are exact reals.
- Text length: JavaScript counts UTF-16 code units, the model counts Dafny characters (Unicode scalar values); they differ only for characters outside the Basic Multilingual Plane.
- The unused local `finalWidth` (layout.ts:134): it has no observable effect.
- Object identity and aliasing: the result's `position` is the caller's `origin` object and the in-place x pass mutates the pushed objects; the model works on values, except that the pushes and the x pass write an array. The growable JavaScript array is a pre-sized array of one slot per child, filled one slot per iteration.
- The default `origin` parameter of `performLayout` is the separate function `PerformLayoutAtZero`.
