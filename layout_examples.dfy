/** Worked examples: the engine's two unit scenarios and the initial tree of
    the application's canvas. */
module LayoutExamples {
  import opened Types
  import opened Layout
  import opened LayoutProperties

  /** A five-character Text node under an unconstrained proposal is 50 by 20. */
  lemma HelloTextExample()
    ensures SizeThatFits(LayoutNode("1", Text, text := Some("Hello")), Unconstrained) == Size(50.0, 20.0)
  {
  }

  /** Two 50 by 50 frames stacked with spacing 10. */
  function BasicStack(): LayoutNode {
    LayoutNode("root", VStack, spacing := Some(10.0), children := [
      LayoutNode("c1", Frame, width := Some(50.0), height := Some(50.0)),
      LayoutNode("c2", Frame, width := Some(50.0), height := Some(50.0))])
  }

  /** The stack of two frames is 50 by 110, with its children at y = 0 and y = 60. */
  lemma BasicStackExample()
    ensures var r := PerformLayoutAtZero(BasicStack(), Unconstrained);
            && r.size == Size(50.0, 110.0)
            && |r.children| == 2
            && r.children[0].position == Point(0.0, 0.0)
            && r.children[1].position == Point(0.0, 60.0)
  {
    var root := BasicStack();
    var sizes := ChildSizes(root, ChildProposal(Unconstrained));
    assert sizes == [Size(50.0, 50.0), Size(50.0, 50.0)];
    assert WidestUpTo(sizes, 1) == 50.0;
    assert YOffset(sizes, 10.0, 1) == 60.0;
    VStackPlacement(root, Unconstrained, 0);
    VStackPlacement(root, Unconstrained, 1);
    PerformLayoutResult(root, Unconstrained, Point(0.0, 0.0));
  }

  /** The canvas's initial tree: two Text nodes around a 100 by 50 frame. */
  function InitialTree(): LayoutNode {
    LayoutNode("root", VStack, spacing := Some(10.0), children := [
      LayoutNode("1", Text, text := Some("Hello World")),
      LayoutNode("2", Frame, width := Some(100.0), height := Some(50.0), color := Some("#F00")),
      LayoutNode("3", Text, text := Some("SwiftUI Layout"))])
  }

  /** Laid out in a 300 by 500 container the stack hugs its content at
      140 by 110, with its children centred at x = 15, 20, 0 and stacked at
      y = 0, 30, 90. */
  lemma InitialTreeExample()
    ensures var r := PerformLayoutAtZero(InitialTree(), ProposedSize(Some(300.0), Some(500.0)));
            && r.size == Size(140.0, 110.0)
            && |r.children| == 3
            && r.children[0].position == Point(15.0, 0.0)
            && r.children[1].position == Point(20.0, 30.0)
            && r.children[2].position == Point(0.0, 90.0)
  {
    var root := InitialTree();
    var proposal := ProposedSize(Some(300.0), Some(500.0));
    var sizes := ChildSizes(root, ChildProposal(proposal));
    assert |"Hello World"| == 11 && |"SwiftUI Layout"| == 14;
    assert sizes == [Size(110.0, 20.0), Size(100.0, 50.0), Size(140.0, 20.0)];
    assert WidestUpTo(sizes, 1) == 110.0;
    assert WidestUpTo(sizes, 2) == 110.0;
    assert WidestUpTo(sizes, 3) == 140.0;
    assert YOffset(sizes, 10.0, 1) == 30.0;
    assert YOffset(sizes, 10.0, 2) == 90.0;
    VStackPlacement(root, proposal, 0);
    VStackPlacement(root, proposal, 1);
    VStackPlacement(root, proposal, 2);
    PerformLayoutResult(root, proposal, Point(0.0, 0.0));
  }
}
