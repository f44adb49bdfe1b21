/** Scroll geometry of the scrollable node and the edge-detection rule that
    decides, for one axis, whether the start and end shadows may show. */
module Geometry {

  /** The axis a shadow controller watches. */
  datatype Orientation = Horizontal | Vertical

  /** The scroll-related properties of the live scrollable node, in whole pixels. */
  datatype Node = Node(
    scrollLeft: int,
    scrollTop: int,
    offsetWidth: int,
    offsetHeight: int,
    scrollWidth: int,
    scrollHeight: int)

  /** The geometry of one axis: how far the viewport is scrolled, how much of
      the content it shows, and how long the content is. */
  datatype Axis = Axis(offset: int, visible: int, total: int)

  /** The pair of flags a controller derives: more content before the viewport
      (start) and more content after it (end). */
  datatype Flags = Flags(canShowStart: bool, canShowEnd: bool)

  /** Both flags off: the value the displayed state and the cache start from. */
  const NoFlags := Flags(false, false)

  /** The geometry of the axis an orientation watches. */
  function AxisOf(node: Node, o: Orientation): Axis
  {
    match o
    case Horizontal => Axis(node.scrollLeft, node.offsetWidth, node.scrollWidth)
    case Vertical => Axis(node.scrollTop, node.offsetHeight, node.scrollHeight)
  }

  /** The edge rule on one axis: start when scrolled away from the start, end
      when the viewport stops strictly short of the content's end. */
  function EdgeFlags(a: Axis): Flags
  {
    Flags(a.offset > 0, a.offset + a.visible < a.total)
  }

  /** The flags `doUpdate` computes, with each flag choosing its own fields by
      orientation the way the component does; the result is the edge rule
      applied to the watched axis. */
  function ComputeFlags(node: Node, o: Orientation): (r: Flags)
    ensures r == EdgeFlags(AxisOf(node, o))
  {
    var canShowStart :=
      if o == Horizontal then node.scrollLeft > 0 else node.scrollTop > 0;
    var canShowEnd :=
      if o == Horizontal
      then node.scrollLeft + node.offsetWidth < node.scrollWidth
      else node.scrollTop + node.offsetHeight < node.scrollHeight;
    Flags(canShowStart, canShowEnd)
  }

  /** Left-to-right or vertical geometry: a non-negative offset and visible
      extent, and an offset that does not run past the content. (Right-to-left
      horizontal scrolling reports offsets of zero and below instead.) */
  predicate WellFormed(a: Axis)
  {
    0 <= a.offset && 0 <= a.visible && a.offset <= a.total
  }

  /** Position `p` of the content (which runs from 0 up to the total extent)
      lies before the viewport. */
  predicate HiddenBefore(a: Axis, p: int)
  {
    0 <= p < a.total && p < a.offset
  }

  /** Position `p` of the content lies at or after the viewport's far edge. */
  predicate HiddenAfter(a: Axis, p: int)
  {
    0 <= p < a.total && a.offset + a.visible <= p
  }

  /** On well-formed geometry the start flag is on exactly when some content
      is hidden before the viewport. */
  lemma StartFlagMeansContentBefore(a: Axis)
    requires WellFormed(a)
    ensures EdgeFlags(a).canShowStart <==> exists p :: HiddenBefore(a, p)
  {
    if a.offset > 0 {
      assert HiddenBefore(a, 0);
    }
  }

  /** On well-formed geometry the end flag is on exactly when some content is
      hidden after the viewport. */
  lemma EndFlagMeansContentAfter(a: Axis)
    requires WellFormed(a)
    ensures EdgeFlags(a).canShowEnd <==> exists p :: HiddenAfter(a, p)
  {
    if a.offset + a.visible < a.total {
      assert HiddenAfter(a, a.offset + a.visible);
    }
  }

  /** Content that fits the viewport, unscrolled, shows no shadow on either end. */
  lemma NoOverflowNoShadows(a: Axis)
    requires a.offset == 0 && a.total <= a.visible
    ensures EdgeFlags(a) == NoFlags
  {
  }

  /** The end comparison is strict: a viewport flush with the content's end
      shows no end shadow, one pixel short of it does. */
  lemma EndFlagIsStrict(a: Axis)
    ensures a.offset + a.visible == a.total ==> !EdgeFlags(a).canShowEnd
    ensures a.offset + a.visible + 1 == a.total ==> EdgeFlags(a).canShowEnd
  {
  }

  /** A controller sees only its own axis: two nodes that agree on that axis's
      fields give it the same flags, whatever the other axis does. */
  lemma FlagsDependOnlyOnOwnAxis(n1: Node, n2: Node, o: Orientation)
    requires o == Horizontal ==>
      n1.scrollLeft == n2.scrollLeft && n1.offsetWidth == n2.offsetWidth && n1.scrollWidth == n2.scrollWidth
    requires o == Vertical ==>
      n1.scrollTop == n2.scrollTop && n1.offsetHeight == n2.offsetHeight && n1.scrollHeight == n2.scrollHeight
    ensures ComputeFlags(n1, o) == ComputeFlags(n2, o)
  {
  }

  /** The horizontal scenarios of a 100-pixel-wide viewport over content 100
      or 200 pixels wide, at the start, the middle and the end. */
  lemma HorizontalScenarios()
    ensures ComputeFlags(Node(scrollLeft := 0, scrollTop := 0, offsetWidth := 100, offsetHeight := 0, scrollWidth := 100, scrollHeight := 0), Horizontal) == Flags(false, false)
    ensures ComputeFlags(Node(scrollLeft := 0, scrollTop := 0, offsetWidth := 100, offsetHeight := 0, scrollWidth := 200, scrollHeight := 0), Horizontal) == Flags(false, true)
    ensures ComputeFlags(Node(scrollLeft := 50, scrollTop := 0, offsetWidth := 100, offsetHeight := 0, scrollWidth := 200, scrollHeight := 0), Horizontal) == Flags(true, true)
    ensures ComputeFlags(Node(scrollLeft := 100, scrollTop := 0, offsetWidth := 100, offsetHeight := 0, scrollWidth := 200, scrollHeight := 0), Horizontal) == Flags(true, false)
  {
  }
}
