/** The layout engine: parents propose a size, children choose their own.
    `SizeThatFits` and the functional `LayoutVStack` call each other and
    terminate on the depth of the node tree; `LayoutVStackLoop` is the
    loop-and-array algorithm of the stack, proved to compute `LayoutVStack`. */
module Layout {
  import opened Types

  function Min(a: real, b: real): real { if a <= b then a else b }

  function Max(a: real, b: real): real { if a >= b then a else b }

  /** Takes the proposal per axis, falling back to `defaults` on an
      unconstrained axis. */
  function Resolve(proposal: ProposedSize, defaults: Size): (r: Size)
    ensures proposal.width.Some? ==> r.width == proposal.width.value
    ensures proposal.width.None? ==> r.width == defaults.width
    ensures proposal.height.Some? ==> r.height == proposal.height.value
    ensures proposal.height.None? ==> r.height == defaults.height
  {
    Size(proposal.width.GetOr(defaults.width), proposal.height.GetOr(defaults.height))
  }

  /** Number of characters of a Text node; a missing text counts as empty. */
  function TextLength(node: LayoutNode): nat {
    if node.text.Some? then |node.text.value| else 0
  }

  /** Spacing between stacked children, 8 unless the node sets it. */
  function Spacing(node: LayoutNode): real {
    node.spacing.GetOr(8.0)
  }

  /** A vertical stack passes its proposed width down and leaves the height
      to each child. */
  function ChildProposal(proposal: ProposedSize): ProposedSize {
    ProposedSize(proposal.width, None)
  }

  /** The size a node chooses for a proposal, by kind. */
  function SizeThatFits(node: LayoutNode, proposal: ProposedSize): Size
    decreases node, 2
  {
    match node.kind
    case Text => Size(Min(proposal.width.GetOr(1000.0), (TextLength(node) * 10) as real), 20.0)
    case Frame =>
      Size(node.width.GetOr(proposal.width.GetOr(50.0)),
           node.height.GetOr(proposal.height.GetOr(50.0)))
    case Circle => Resolve(proposal, Size(50.0, 50.0))
    case Rectangle => Resolve(proposal, Size(50.0, 50.0))
    case VStack => LayoutVStack(node, proposal).size
    case HStack => Resolve(proposal, Size(100.0, 100.0))
    case ZStack => Resolve(proposal, Size(100.0, 100.0))
    case Other(_) => Size(50.0, 50.0)
  }

  /** The size each child of `node` chooses under `childProposal`. */
  function ChildSizes(node: LayoutNode, childProposal: ProposedSize): (r: seq<Size>)
    decreases node, 0
    ensures |r| == |node.children|
  {
    seq(|node.children|, i requires 0 <= i < |node.children| =>
      SizeThatFits(node.children[i], childProposal))
  }

  /** Sum of the heights of the first `k` sizes. */
  function SumHeightsUpTo(sizes: seq<Size>, k: nat): real
    requires k <= |sizes|
  {
    if k == 0 then 0.0 else SumHeightsUpTo(sizes, k - 1) + sizes[k - 1].height
  }

  /** Sum of all the heights of `sizes`. */
  function SumHeights(sizes: seq<Size>): real {
    SumHeightsUpTo(sizes, |sizes|)
  }

  /** The larger of 0 and the widths of the first `k` sizes. */
  function WidestUpTo(sizes: seq<Size>, k: nat): real
    requires k <= |sizes|
  {
    if k == 0 then 0.0 else Max(WidestUpTo(sizes, k - 1), sizes[k - 1].width)
  }

  /** The larger of 0 and every width in `sizes`. */
  function MaxWidth(sizes: seq<Size>): real {
    WidestUpTo(sizes, |sizes|)
  }

  /** Top edge of the `i`-th stacked child: the heights of the children above
      it, each followed by one spacing. */
  function YOffset(sizes: seq<Size>, spacing: real, i: nat): real
    requires i <= |sizes|
  {
    if i == 0 then 0.0 else YOffset(sizes, spacing, i - 1) + sizes[i - 1].height + spacing
  }

  /** Height of a non-empty stack: the bottom edge of its last child. */
  function StackHeight(sizes: seq<Size>, spacing: real): real
    requires |sizes| > 0
  {
    YOffset(sizes, spacing, |sizes| - 1) + sizes[|sizes| - 1].height
  }

  /** A stack's own size together with its children's relative placements. */
  datatype StackLayout = StackLayout(size: Size, children: seq<LayoutResult>)

  /** The child, sized `size`, placed at the given relative position. */
  function Placed(child: LayoutNode, size: Size, x: real, y: real): LayoutResult {
    LayoutResult(child.id, size, Point(x, y), [])
  }

  /** The `i`-th child at its place: y is its top edge, x centres it in `width`. */
  function PlacedAt(children: seq<LayoutNode>, sizes: seq<Size>, spacing: real, width: real, i: nat): LayoutResult
    requires |children| == |sizes| && i < |sizes|
  {
    Placed(children[i], sizes[i], (width - sizes[i].width) / 2.0, YOffset(sizes, spacing, i))
  }

  /** The first `k` children at their places. */
  function PlacedPrefix(children: seq<LayoutNode>, sizes: seq<Size>, spacing: real, width: real, k: nat): (r: seq<LayoutResult>)
    requires |children| == |sizes| && k <= |sizes|
    ensures |r| == k
  {
    if k == 0 then [] else PlacedPrefix(children, sizes, spacing, width, k - 1) + [PlacedAt(children, sizes, spacing, width, k - 1)]
  }

  /** Each child with its size, stacked from y = 0 and centred in the widest width. */
  function Placements(children: seq<LayoutNode>, sizes: seq<Size>, spacing: real): (r: seq<LayoutResult>)
    requires |children| == |sizes|
    ensures |r| == |sizes|
  {
    PlacedPrefix(children, sizes, spacing, MaxWidth(sizes), |sizes|)
  }

  /** The vertical stack: children one below the other with spacing between
      them, each centred horizontally in the widest child's width. */
  function LayoutVStack(node: LayoutNode, proposal: ProposedSize): (r: StackLayout)
    decreases node, 1
    ensures |r.children| == |node.children|
  {
    if |node.children| == 0 then StackLayout(Size(0.0, 0.0), [])
    else
      var sizes := ChildSizes(node, ChildProposal(proposal));
      var spacing := Spacing(node);
      StackLayout(Size(MaxWidth(sizes), StackHeight(sizes, spacing)),
                  Placements(node.children, sizes, spacing))
  }

  /** The `j`-th of the first `k` placements. */
  lemma {:induction false} PlacedPrefixAt(children: seq<LayoutNode>, sizes: seq<Size>, spacing: real, width: real, k: nat, j: nat)
    requires |children| == |sizes| && j < k <= |sizes|
    ensures PlacedPrefix(children, sizes, spacing, width, k)[j] == PlacedAt(children, sizes, spacing, width, j)
  {
    if j < k - 1 {
      PlacedPrefixAt(children, sizes, spacing, width, k - 1, j);
    } else if k > 1 {
      PlacedPrefixAt(children, sizes, spacing, width, k - 1, 0);
    }
  }

  /** The `j`-th placement of a stack. */
  lemma PlacementsAt(children: seq<LayoutNode>, sizes: seq<Size>, spacing: real, j: nat)
    requires |children| == |sizes| && j < |sizes|
    ensures Placements(children, sizes, spacing)[j] == PlacedAt(children, sizes, spacing, MaxWidth(sizes), j)
  {
    PlacedPrefixAt(children, sizes, spacing, MaxWidth(sizes), |sizes|, j);
  }

  /** The stack algorithm as written: with no children the stack is empty;
      otherwise the children are sized under the child proposal, one loop
      pushes each at x = 0 while accumulating the running y offset and the
      widest width, and a second pass overwrites each child's x in place to
      centre it in that width. */
  method LayoutVStackLoop(node: LayoutNode, proposal: ProposedSize) returns (res: StackLayout)
    ensures res == LayoutVStack(node, proposal)
  {
    var spacing := Spacing(node);
    var children := node.children;
    if |children| == 0 {
      return StackLayout(Size(0.0, 0.0), []);
    }
    var childProposal := ChildProposal(proposal);
    var childSizes := ChildSizes(node, childProposal);
    var n := |children|;
    var currentY := 0.0;
    var maxWidth := 0.0;
    var positioned := new LayoutResult[n];
    for i := 0 to n
      invariant maxWidth == WidestUpTo(childSizes, i)
      invariant i < n ==> currentY == YOffset(childSizes, spacing, i)
      invariant i == n ==> currentY == StackHeight(childSizes, spacing)
      invariant forall j {:trigger positioned[j]} :: 0 <= j < i ==>
        positioned[j] == Placed(children[j], childSizes[j], 0.0, YOffset(childSizes, spacing, j))
    {
      positioned[i] := Placed(children[i], childSizes[i], 0.0, currentY);
      maxWidth := Max(maxWidth, childSizes[i].width);
      currentY := currentY + childSizes[i].height + (if i < n - 1 then spacing else 0.0);
    }
    for i := 0 to n
      invariant forall j {:trigger positioned[j]} :: 0 <= j < i ==>
        positioned[j] == PlacedAt(children, childSizes, spacing, maxWidth, j)
      invariant forall j {:trigger positioned[j]} :: i <= j < n ==>
        positioned[j] == Placed(children[j], childSizes[j], 0.0, YOffset(childSizes, spacing, j))
    {
      positioned[i] := positioned[i].(position := positioned[i].position.(x := (maxWidth - positioned[i].size.width) / 2.0));
    }
    res := StackLayout(Size(maxWidth, currentY), positioned[..]);
    PlacementsAt(children, childSizes, spacing, 0);
    forall j | 0 <= j < n ensures res.children[j] == Placements(children, childSizes, spacing)[j] {
      PlacementsAt(children, childSizes, spacing, j);
    }
  }

  /** Each placement moved by `origin`: only positions change, each by
      exactly `origin`. */
  function Translate(placements: seq<LayoutResult>, origin: Point): (r: seq<LayoutResult>)
    ensures |r| == |placements|
    ensures forall i :: 0 <= i < |r| ==>
              && r[i].(position := placements[i].position) == placements[i]
              && r[i].position.x - placements[i].position.x == origin.x
              && r[i].position.y - placements[i].position.y == origin.y
  {
    seq(|placements|, i requires 0 <= i < |placements| =>
      placements[i].(position := Point(placements[i].position.x + origin.x, placements[i].position.y + origin.y)))
  }

  /** Moving by the zero origin changes nothing. */
  lemma TranslateAtOrigin(placements: seq<LayoutResult>)
    ensures Translate(placements, Point(0.0, 0.0)) == placements
  {
  }

  /** The node's size at `origin`; a vertical stack also lists its children's
      placements, shifted by `origin`. Children themselves are not laid out. */
  function PerformLayout(node: LayoutNode, proposal: ProposedSize, origin: Point): (r: LayoutResult)
    ensures r.nodeId == node.id && r.size == SizeThatFits(node, proposal) && r.position == origin
    ensures |r.children| == (if node.kind == VStack then |node.children| else 0)
  {
    var size := SizeThatFits(node, proposal);
    var children := if node.kind == VStack then Translate(LayoutVStack(node, proposal).children, origin) else [];
    LayoutResult(node.id, size, origin, children)
  }

  /** `PerformLayout` with the default origin (0, 0): the result sits at the
      origin and a stack's children are exactly its relative placements. */
  function PerformLayoutAtZero(node: LayoutNode, proposal: ProposedSize): (r: LayoutResult)
    ensures r.nodeId == node.id && r.size == SizeThatFits(node, proposal)
    ensures r.position == Point(0.0, 0.0)
    ensures r.children == (if node.kind == VStack then LayoutVStack(node, proposal).children else [])
  {
    TranslateAtOrigin(LayoutVStack(node, proposal).children);
    PerformLayout(node, proposal, Point(0.0, 0.0))
  }
}
