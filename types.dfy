/** Data shapes of the layout engine: proposals, sizes, view nodes and the
    positioned layout tree it produces. */
module Types {

  /** An optional value; `None` plays the part of `null` / an absent field. */
  datatype Option<+T> = None | Some(value: T) {
    /** The value, or `default` when absent (the `??` operator). */
    function GetOr(default: T): T {
      match this
      case Some(v) => v
      case None => default
    }
  }

  /** A size offered by a parent: each axis is either a number or unconstrained. */
  datatype ProposedSize = ProposedSize(width: Option<real>, height: Option<real>)

  /** The proposal that leaves both axes to the child. */
  const Unconstrained := ProposedSize(None, None)

  /** A resolved size: both axes always present. */
  datatype Size = Size(width: real, height: real)

  /** An origin, or a position relative to the enclosing stack or to the
      root's origin. */
  datatype Point = Point(x: real, y: real)

  /** A kind string that names none of the seven declared kinds. */
  type UnknownTag = tag: string | tag !in {"VStack", "HStack", "ZStack", "Text", "Frame", "Circle", "Rectangle"}
    witness "Spacer"

  /** The closed set of seven node kinds, plus `Other` for a kind string outside
      that set (untyped input), which the engine must still size. A string that
      names one of the seven is that kind, never `Other`. */
  datatype ViewType =
    | VStack | HStack | ZStack | Text | Frame | Circle | Rectangle
    | Other(tag: UnknownTag)

  /** The seven kinds the type declaration admits. */
  predicate IsDeclaredKind(k: ViewType) {
    !k.Other?
  }

  /** A view node: the immutable input tree. `width` and `height` are the
      explicit dimensions of a Frame; `color` and `padding` are cosmetic. */
  datatype LayoutNode = LayoutNode(
    id: string,
    kind: ViewType,
    children: seq<LayoutNode> := [],
    text: Option<string> := None,
    color: Option<string> := None,
    spacing: Option<real> := None,
    padding: Option<real> := None,
    width: Option<real> := None,
    height: Option<real> := None)

  /** A positioned node of the output tree. */
  datatype LayoutResult = LayoutResult(
    nodeId: string,
    size: Size,
    position: Point,
    children: seq<LayoutResult>)
}
