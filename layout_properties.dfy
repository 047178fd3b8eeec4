/** Properties of the layout engine: per-kind sizing rules, the shape of a
    vertical stack, what `PerformLayout` returns, and which node fields the
    engine ignores. */
module LayoutProperties {
  import opened Types
  import opened Layout

  // ---------------------------------------------------------------------
  // Aggregates over a sequence of child sizes
  // ---------------------------------------------------------------------

  /** The widest of the first `k` widths is an upper bound on each of them,
      is at least 0, and is either 0 or one of them. */
  lemma {:induction false} WidestUpToIsMax(sizes: seq<Size>, k: nat)
    requires k <= |sizes|
    ensures 0.0 <= WidestUpTo(sizes, k)
    ensures forall j :: 0 <= j < k ==> sizes[j].width <= WidestUpTo(sizes, k)
    ensures WidestUpTo(sizes, k) == 0.0 || exists j :: 0 <= j < k && WidestUpTo(sizes, k) == sizes[j].width
  {
    if k > 0 {
      WidestUpToIsMax(sizes, k - 1);
    }
  }

  /** `MaxWidth` is the maximum of 0 and all the widths. */
  lemma MaxWidthIsMax(sizes: seq<Size>)
    ensures 0.0 <= MaxWidth(sizes)
    ensures forall j :: 0 <= j < |sizes| ==> sizes[j].width <= MaxWidth(sizes)
    ensures MaxWidth(sizes) == 0.0 || exists j :: 0 <= j < |sizes| && MaxWidth(sizes) == sizes[j].width
  {
    WidestUpToIsMax(sizes, |sizes|);
  }

  /** The top edge of child `i` is the sum of the heights above it plus one
      spacing per child above it. */
  lemma {:induction false} YOffsetClosedForm(sizes: seq<Size>, spacing: real, i: nat)
    requires i <= |sizes|
    ensures YOffset(sizes, spacing, i) == SumHeightsUpTo(sizes, i) + spacing * i as real
  {
    if i > 0 {
      YOffsetClosedForm(sizes, spacing, i - 1);
    }
  }

  /** A non-empty stack is as tall as its children plus a spacing between
      each adjacent pair. */
  lemma StackHeightClosedForm(sizes: seq<Size>, spacing: real)
    requires |sizes| > 0
    ensures StackHeight(sizes, spacing) == SumHeights(sizes) + spacing * (|sizes| - 1) as real
  {
    var k := |sizes| - 1;
    YOffsetClosedForm(sizes, spacing, k);
    assert SumHeights(sizes) == SumHeightsUpTo(sizes, k) + sizes[k].height;
  }

  /** Every height in `sizes` is non-negative. */
  predicate HeightsNonNegative(sizes: seq<Size>) {
    forall j :: 0 <= j < |sizes| ==> 0.0 <= sizes[j].height
  }

  /** With non-negative heights and spacing, top edges never decrease. */
  lemma {:induction false} YOffsetMonotone(sizes: seq<Size>, spacing: real, i: nat, j: nat)
    requires HeightsNonNegative(sizes) && 0.0 <= spacing
    requires i <= j <= |sizes|
    ensures 0.0 <= YOffset(sizes, spacing, i) <= YOffset(sizes, spacing, j)
  {
    if j > i {
      YOffsetMonotone(sizes, spacing, i, j - 1);
    } else if i > 0 {
      YOffsetMonotone(sizes, spacing, i - 1, i - 1);
    }
  }

  // ---------------------------------------------------------------------
  // Sizing of leaves and placeholder containers
  // ---------------------------------------------------------------------

  /** Text: 10 per character up to the proposed width (1000 when none is
      given), always 20 high; a missing text counts as empty. */
  lemma TextSizing(node: LayoutNode, proposal: ProposedSize)
    requires node.kind == Text
    ensures var size := SizeThatFits(node, proposal);
            var length := if node.text.Some? then |node.text.value| else 0;
            var ceiling := if proposal.width.Some? then proposal.width.value else 1000.0;
            && size.height == 20.0
            && size.width <= (length * 10) as real
            && size.width <= ceiling
            && (size.width == (length * 10) as real || size.width == ceiling)
  {
  }

  /** Frame, per axis: the explicit dimension, else the proposed one, else 50. */
  lemma FrameSizing(node: LayoutNode, proposal: ProposedSize)
    requires node.kind == Frame
    ensures var size := SizeThatFits(node, proposal);
            && size.width == (if node.width.Some? then node.width.value
                              else if proposal.width.Some? then proposal.width.value else 50.0)
            && size.height == (if node.height.Some? then node.height.value
                               else if proposal.height.Some? then proposal.height.value else 50.0)
  {
  }

  /** A Frame with both dimensions given ignores the proposal entirely. */
  lemma FrameIgnoresProposal(node: LayoutNode, proposal: ProposedSize, other: ProposedSize)
    requires node.kind == Frame && node.width.Some? && node.height.Some?
    ensures SizeThatFits(node, proposal) == SizeThatFits(node, other) == Size(node.width.value, node.height.value)
  {
  }

  /** Circle and Rectangle take the proposed dimension per axis, else 50. */
  lemma ShapeSizing(node: LayoutNode, proposal: ProposedSize)
    requires node.kind == Circle || node.kind == Rectangle
    ensures SizeThatFits(node, proposal) == Resolve(proposal, Size(50.0, 50.0))
    ensures proposal == Unconstrained ==> SizeThatFits(node, proposal) == Size(50.0, 50.0)
  {
  }

  /** The HStack and ZStack placeholders take the proposed dimension per
      axis, else 100, whatever their children. */
  lemma PlaceholderStackSizing(node: LayoutNode, proposal: ProposedSize)
    requires node.kind == HStack || node.kind == ZStack
    ensures SizeThatFits(node, proposal) == Resolve(proposal, Size(100.0, 100.0))
    ensures proposal == Unconstrained ==> SizeThatFits(node, proposal) == Size(100.0, 100.0)
  {
  }

  /** A kind outside the declared seven is 50 by 50 under any proposal. */
  lemma UnknownKindSizing(node: LayoutNode, proposal: ProposedSize)
    requires !IsDeclaredKind(node.kind)
    ensures SizeThatFits(node, proposal) == Size(50.0, 50.0)
  {
  }

  /** The axes are decided independently: a node's width depends only on the
      proposed width; its height depends only on the proposed height, except
      for a vertical stack, whose height depends on the proposed width only. */
  lemma AxisIndependence(node: LayoutNode, proposal: ProposedSize, other: ProposedSize)
    ensures proposal.width == other.width ==>
              SizeThatFits(node, proposal).width == SizeThatFits(node, other).width
    ensures proposal.height == other.height && node.kind != VStack ==>
              SizeThatFits(node, proposal).height == SizeThatFits(node, other).height
    ensures proposal.width == other.width && node.kind == VStack ==>
              SizeThatFits(node, proposal) == SizeThatFits(node, other)
  {
  }

  // ---------------------------------------------------------------------
  // Non-negative sizes
  // ---------------------------------------------------------------------

  /** Every explicit spacing, width and height in the tree is non-negative. */
  predicate NonNegativeDims(node: LayoutNode)
    decreases node
  {
    && (node.spacing.Some? ==> 0.0 <= node.spacing.value)
    && (node.width.Some? ==> 0.0 <= node.width.value)
    && (node.height.Some? ==> 0.0 <= node.height.value)
    && forall i :: 0 <= i < |node.children| ==> NonNegativeDims(node.children[i])
  }

  /** Heights are never negative when the tree's dimensions and the proposed
      height are not. */
  lemma {:induction false} HeightNonNegative(node: LayoutNode, proposal: ProposedSize)
    requires NonNegativeDims(node)
    requires proposal.height.Some? ==> 0.0 <= proposal.height.value
    ensures 0.0 <= SizeThatFits(node, proposal).height
    decreases node
  {
    if node.kind == VStack && |node.children| > 0 {
      var sizes := ChildSizes(node, ChildProposal(proposal));
      forall j | 0 <= j < |sizes| ensures 0.0 <= sizes[j].height {
        HeightNonNegative(node.children[j], ChildProposal(proposal));
      }
      YOffsetMonotone(sizes, Spacing(node), |sizes| - 1, |sizes| - 1);
    }
  }

  /** Sizes are never negative when the tree's dimensions and the proposal
      are not. */
  lemma SizeNonNegative(node: LayoutNode, proposal: ProposedSize)
    requires NonNegativeDims(node)
    requires proposal.width.Some? ==> 0.0 <= proposal.width.value
    requires proposal.height.Some? ==> 0.0 <= proposal.height.value
    ensures 0.0 <= SizeThatFits(node, proposal).width
    ensures 0.0 <= SizeThatFits(node, proposal).height
  {
    HeightNonNegative(node, proposal);
    if node.kind == VStack && |node.children| > 0 {
      MaxWidthIsMax(ChildSizes(node, ChildProposal(proposal)));
    }
  }

  // ---------------------------------------------------------------------
  // The vertical stack
  // ---------------------------------------------------------------------

  /** A stack without children is 0 by 0 and places nothing. */
  lemma EmptyVStack(node: LayoutNode, proposal: ProposedSize, origin: Point)
    requires node.kind == VStack && node.children == []
    ensures SizeThatFits(node, proposal) == Size(0.0, 0.0)
    ensures LayoutVStack(node, proposal).children == []
    ensures PerformLayout(node, proposal, origin).children == []
  {
  }

  /** Each child is sized under the proposed width and an unconstrained
      height: the definition of `ChildSizes` and `ChildProposal` written out
      as one statement about a single child. */
  lemma ChildSizing(node: LayoutNode, proposal: ProposedSize, i: nat)
    requires i < |node.children|
    ensures ChildSizes(node, ChildProposal(proposal))[i] == SizeThatFits(node.children[i], ProposedSize(proposal.width, None))
  {
  }

  /** A non-empty stack is as tall as its children's heights plus the spacing
      (8 unless set) between each adjacent pair. */
  lemma VStackHeight(node: LayoutNode, proposal: ProposedSize)
    requires node.kind == VStack && |node.children| > 0
    ensures SizeThatFits(node, proposal).height ==
            SumHeights(ChildSizes(node, ChildProposal(proposal))) + node.spacing.GetOr(8.0) * (|node.children| - 1) as real
  {
    StackHeightClosedForm(ChildSizes(node, ChildProposal(proposal)), Spacing(node));
  }

  /** A stack hugs its content: its width is the widest child's width (0 if
      none is positive), not the proposed width. */
  lemma VStackWidth(node: LayoutNode, proposal: ProposedSize)
    requires node.kind == VStack
    ensures var width := SizeThatFits(node, proposal).width;
            var sizes := ChildSizes(node, ChildProposal(proposal));
            && 0.0 <= width
            && (forall i :: 0 <= i < |sizes| ==> sizes[i].width <= width)
            && (width == 0.0 || exists i :: 0 <= i < |sizes| && width == sizes[i].width)
  {
    if |node.children| > 0 {
      MaxWidthIsMax(ChildSizes(node, ChildProposal(proposal)));
    }
  }

  /** The whole stack layout, sizes and placements, ignores the proposed height. */
  lemma VStackIgnoresProposedHeight(node: LayoutNode, proposal: ProposedSize, other: ProposedSize)
    requires proposal.width == other.width
    ensures LayoutVStack(node, proposal) == LayoutVStack(node, other)
  {
  }

  /** Child `i` of a stack keeps its id and its own size, has no placed
      children, sits below the heights and spacings of the children before
      it, and is centred horizontally
      inside the stack's width. */
  lemma VStackPlacement(node: LayoutNode, proposal: ProposedSize, i: nat)
    requires i < |node.children|
    ensures var stack := LayoutVStack(node, proposal);
            var sizes := ChildSizes(node, ChildProposal(proposal));
            var child := stack.children[i];
            && |stack.children| == |node.children|
            && child.nodeId == node.children[i].id
            && child.size == SizeThatFits(node.children[i], ProposedSize(proposal.width, None))
            && child.children == []
            && child.position.y == YOffset(sizes, Spacing(node), i)
            && child.position.x == (stack.size.width - child.size.width) / 2.0
            && 0.0 <= child.position.x
            && child.position.x + child.size.width <= stack.size.width
  {
    var sizes := ChildSizes(node, ChildProposal(proposal));
    var spacing := Spacing(node);
    PlacementsAt(node.children, sizes, spacing, i);
    MaxWidthIsMax(sizes);
  }

  /** The top edge of child `i` of a stack in closed form: the heights of the
      children above it plus one spacing for each of them. */
  lemma VStackChildTop(node: LayoutNode, proposal: ProposedSize, i: nat)
    requires i < |node.children|
    ensures var stack := LayoutVStack(node, proposal);
            && |stack.children| == |node.children|
            && stack.children[i].position.y ==
               SumHeightsUpTo(ChildSizes(node, ChildProposal(proposal)), i) + Spacing(node) * i as real
  {
    VStackPlacement(node, proposal, i);
    YOffsetClosedForm(ChildSizes(node, ChildProposal(proposal)), Spacing(node), i);
  }

  /** Children are stacked without gaps or overlaps: each starts one spacing
      below the previous one's bottom edge, the first at 0, and the stack ends
      at the last one's bottom edge. */
  lemma VStackContiguous(node: LayoutNode, proposal: ProposedSize, i: nat)
    requires i < |node.children|
    ensures var stack := LayoutVStack(node, proposal);
            var k := |node.children|;
            && |stack.children| == k
            && (i == 0 ==> stack.children[i].position.y == 0.0)
            && (i + 1 < k ==>
                  (stack.children[i + 1].position.y ==
                   stack.children[i].position.y + stack.children[i].size.height + Spacing(node)))
            && (i + 1 == k ==>
                  (stack.size.height == stack.children[i].position.y + stack.children[i].size.height))
  {
    var sizes := ChildSizes(node, ChildProposal(proposal));
    PlacementsAt(node.children, sizes, Spacing(node), i);
    if i + 1 < |node.children| {
      PlacementsAt(node.children, sizes, Spacing(node), i + 1);
    }
  }

  /** With non-negative dimensions, children are in top-to-bottom order and
      each lies vertically inside the stack. */
  lemma VStackVerticalOrder(node: LayoutNode, proposal: ProposedSize, i: nat, j: nat)
    requires NonNegativeDims(node)
    requires i <= j < |node.children|
    ensures var stack := LayoutVStack(node, proposal);
            && |stack.children| == |node.children|
            && 0.0 <= stack.children[i].position.y <= stack.children[j].position.y
            && stack.children[i].position.y + stack.children[i].size.height <= stack.size.height
  {
    var sizes := ChildSizes(node, ChildProposal(proposal));
    var spacing := Spacing(node);
    var k := |sizes|;
    forall m | 0 <= m < k ensures 0.0 <= sizes[m].height {
      HeightNonNegative(node.children[m], ChildProposal(proposal));
    }
    PlacementsAt(node.children, sizes, spacing, i);
    PlacementsAt(node.children, sizes, spacing, j);
    YOffsetMonotone(sizes, spacing, i, j);
    if i + 1 < k {
      YOffsetMonotone(sizes, spacing, i + 1, k - 1);
    }
  }

  // ---------------------------------------------------------------------
  // PerformLayout
  // ---------------------------------------------------------------------

  /** The result carries the node's id, its size and the origin; a vertical
      stack lists one entry per child, in order, as the stack placed it but
      moved by the origin and with no children of its own; any other kind
      lists nothing. */
  lemma PerformLayoutResult(node: LayoutNode, proposal: ProposedSize, origin: Point)
    ensures var r := PerformLayout(node, proposal, origin);
            && r.nodeId == node.id
            && r.size == SizeThatFits(node, proposal)
            && r.position == origin
            && (node.kind != VStack ==> r.children == [])
            && (node.kind == VStack ==>
                  var placed := LayoutVStack(node, proposal).children;
                  && |r.children| == |placed| == |node.children|
                  && forall i :: 0 <= i < |r.children| ==>
                       && r.children[i].nodeId == node.children[i].id
                       && r.children[i].size == placed[i].size
                       && r.children[i].children == []
                       && r.children[i].position ==
                            Point(placed[i].position.x + origin.x, placed[i].position.y + origin.y))
  {
    if node.kind == VStack {
      var placed := LayoutVStack(node, proposal).children;
      forall i | 0 <= i < |node.children|
        ensures placed[i].nodeId == node.children[i].id && placed[i].children == []
      {
        VStackPlacement(node, proposal, i);
      }
    }
  }

  /** In absolute coordinates, every child of a laid-out stack lies
      horizontally inside the stack's box, and, with non-negative dimensions,
      vertically too. */
  lemma PerformLayoutChildInBounds(node: LayoutNode, proposal: ProposedSize, origin: Point, i: nat)
    requires node.kind == VStack && i < |node.children|
    ensures var r := PerformLayout(node, proposal, origin);
            var c := r.children[i];
            && |r.children| == |node.children|
            && origin.x <= c.position.x
            && c.position.x + c.size.width <= origin.x + r.size.width
            && (NonNegativeDims(node) ==>
                  origin.y <= c.position.y && c.position.y + c.size.height <= origin.y + r.size.height)
  {
    PerformLayoutResult(node, proposal, origin);
    VStackPlacement(node, proposal, i);
    if NonNegativeDims(node) {
      VStackVerticalOrder(node, proposal, i, i);
    }
  }

  // ---------------------------------------------------------------------
  // Fields the engine never reads
  // ---------------------------------------------------------------------

  /** The node tree with `color` and `padding` cleared everywhere. */
  function StripCosmetic(node: LayoutNode): (r: LayoutNode)
    decreases node
  {
    node.(color := None, padding := None,
          children := seq(|node.children|, i requires 0 <= i < |node.children| => StripCosmetic(node.children[i])))
  }

  /** `color` and `padding`, anywhere in the tree, change no size and no
      position. */
  lemma {:induction false} CosmeticFieldsIgnored(node: LayoutNode, proposal: ProposedSize, origin: Point)
    ensures SizeThatFits(StripCosmetic(node), proposal) == SizeThatFits(node, proposal)
    ensures LayoutVStack(StripCosmetic(node), proposal) == LayoutVStack(node, proposal)
    ensures PerformLayout(StripCosmetic(node), proposal, origin) == PerformLayout(node, proposal, origin)
    decreases node
  {
    var stripped := StripCosmetic(node);
    var cp := ChildProposal(proposal);
    forall i | 0 <= i < |node.children|
      ensures SizeThatFits(stripped.children[i], cp) == SizeThatFits(node.children[i], cp)
      ensures stripped.children[i].id == node.children[i].id
    {
      CosmeticFieldsIgnored(node.children[i], cp, origin);
    }
    assert ChildSizes(stripped, ChildProposal(proposal)) == ChildSizes(node, ChildProposal(proposal));
    if |node.children| > 0 {
      var sizes := ChildSizes(node, ChildProposal(proposal));
      forall i | 0 <= i < |sizes|
        ensures Placements(stripped.children, sizes, Spacing(node))[i] == Placements(node.children, sizes, Spacing(node))[i]
      {
        PlacementsAt(stripped.children, sizes, Spacing(node), i);
        PlacementsAt(node.children, sizes, Spacing(node), i);
      }
      PlacementsAt(node.children, sizes, Spacing(node), 0);
      PlacementsAt(stripped.children, sizes, Spacing(node), 0);
    }
  }

  /** Two trees that differ only in `color` and `padding` lay out identically. */
  lemma RecolorPreservesLayout(a: LayoutNode, b: LayoutNode, proposal: ProposedSize, origin: Point)
    requires StripCosmetic(a) == StripCosmetic(b)
    ensures PerformLayout(a, proposal, origin) == PerformLayout(b, proposal, origin)
  {
    CosmeticFieldsIgnored(a, proposal, origin);
    CosmeticFieldsIgnored(b, proposal, origin);
  }
}
