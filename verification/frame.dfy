/** The scrollable frame (`ScrollBox`): which shadow controllers the `shadows`
    prop mounts, and the edge shadows each controller's flags drive
    (`ShadowGroup`), each faded in or out by its visibility (`Shadow`). */
module Frame {
  import opened Wrappers
  import opened Geometry
  import opened ShadowState

  /** The `shadows` prop as a caller may pass it: a boolean, or the name of the
      one axis to shade. */
  datatype ShadowsProp = Enabled(on: bool) | HorizontalOnly | VerticalOnly

  /** The value the prop takes when the caller leaves it undefined. */
  const DefaultShadows := Enabled(true)

  /** The prop after the default is applied. */
  function ShadowsValue(p: Option<ShadowsProp>): ShadowsProp
  {
    match p
    case None => DefaultShadows
    case Some(v) => v
  }

  /** JavaScript truthiness of the prop: the two axis names are non-empty
      strings, so only `false` is falsy. */
  predicate Truthy(v: ShadowsProp)
  {
    v != Enabled(false)
  }

  /** The four display modes the prop selects between. */
  datatype Mode = Off | Both | HorizontalAxis | VerticalAxis

  /** The mode a prop value (or its absence) selects. */
  function ModeOf(p: Option<ShadowsProp>): Mode
  {
    match p
    case None => Both
    case Some(Enabled(b)) => if b then Both else Off
    case Some(HorizontalOnly) => HorizontalAxis
    case Some(VerticalOnly) => VerticalAxis
  }

  /** The axes a mode shades. */
  function ModeAxes(m: Mode): set<Orientation>
  {
    match m
    case Off => {}
    case Both => {Horizontal, Vertical}
    case HorizontalAxis => {Horizontal}
    case VerticalAxis => {Vertical}
  }

  /** The controllers the frame mounts, in render order: the prop's
      truthiness gates both, and each is mounted for `true` or its own axis
      name. They are exactly the axes of the selected mode, horizontal first,
      each at most once. */
  function Controllers(p: Option<ShadowsProp>): (r: seq<Orientation>)
    ensures forall o :: o in r <==> o in ModeAxes(ModeOf(p))
    ensures forall i, j | 0 <= i < j < |r| :: r[i] == Horizontal && r[j] == Vertical
  {
    var v := ShadowsValue(p);
    if !Truthy(v) then []
    else
      (if v == Enabled(true) || v == HorizontalOnly then [Horizontal] else []) +
      (if v == Enabled(true) || v == VerticalOnly then [Vertical] else [])
  }

  /** The four edges a shadow can sit on. */
  datatype Edge = Top | Bottom | Left | Right

  /** The axis along which an edge lies at one end. */
  function EdgeAxis(e: Edge): Orientation
  {
    match e
    case Top => Vertical
    case Bottom => Vertical
    case Left => Horizontal
    case Right => Horizontal
  }

  /** Whether an edge is the start of its axis (scroll offset zero side). */
  predicate AtStart(e: Edge)
  {
    e == Top || e == Left
  }

  /** Thickness in pixels of every edge shadow. */
  const ShadowThickness := 10

  /** One rendered edge shadow: where it sits, whether it is shown, how thick
      it is and the colour its gradient fades to. */
  datatype Shadow = Shadow(edge: Edge, visible: bool, thickness: nat, tint: string)

  /** The shadow the flag of `edge` in `shown` drives. */
  function EdgeShadow(edge: Edge, shown: Flags, tint: string): Shadow
  {
    Shadow(edge, if AtStart(edge) then shown.canShowStart else shown.canShowEnd, ShadowThickness, tint)
  }

  /** The pair of shadows one controller renders: the two edges of its axis,
      start first, the start shadow driven by the start flag and the end
      shadow by the end flag. */
  function ShadowGroup(o: Orientation, shown: Flags, tint: string): (r: seq<Shadow>)
    ensures |r| == 2 && AtStart(r[0].edge) && !AtStart(r[1].edge)
    ensures forall sh | sh in r :: EdgeAxis(sh.edge) == o
    ensures forall sh | sh in r :: sh == EdgeShadow(sh.edge, shown, tint)
  {
    match o
    case Vertical => [EdgeShadow(Top, shown, tint), EdgeShadow(Bottom, shown, tint)]
    case Horizontal => [EdgeShadow(Left, shown, tint), EdgeShadow(Right, shown, tint)]
  }

  /** A shadow's opacity: fully opaque when visible, transparent otherwise. */
  function Opacity(visible: bool): (r: int)
    ensures 0 <= r <= 1
    ensures r == 1 <==> visible
  {
    if visible then 1 else 0
  }

  /** The displayed flags of the controller on axis `o`. */
  function FlagsFor(o: Orientation, horizontal: Flags, vertical: Flags): Flags
  {
    if o == Horizontal then horizontal else vertical
  }

  /** The shadow groups of the controllers on `axes`, in order. Every edge of
      a listed axis gets a shadow, driven by that axis's flags, and no other
      edge does. */
  function Groups(axes: seq<Orientation>, tint: string, horizontal: Flags, vertical: Flags): (r: seq<Shadow>)
    ensures |r| == 2 * |axes|
    ensures forall sh | sh in r ::
      EdgeAxis(sh.edge) in axes && sh == EdgeShadow(sh.edge, FlagsFor(EdgeAxis(sh.edge), horizontal, vertical), tint)
    ensures forall e: Edge | EdgeAxis(e) in axes :: exists sh :: sh in r && sh.edge == e
  {
    if axes == [] then []
    else
      var o := axes[0];
      var head := ShadowGroup(o, FlagsFor(o, horizontal, vertical), tint);
      var rest := Groups(axes[1..], tint, horizontal, vertical);
      assert forall e: Edge | EdgeAxis(e) == o :: e == head[0].edge || e == head[1].edge;
      head + rest
  }

  /** One controller is mounted per axis of the selected mode. */
  lemma ControllerCount(p: Option<ShadowsProp>)
    ensures |Controllers(p)| == |ModeAxes(ModeOf(p))|
  {
    match p
    case None =>
    case Some(Enabled(b)) =>
    case Some(HorizontalOnly) =>
    case Some(VerticalOnly) =>
  }

  /** Every shadow the frame renders, given the displayed flags of its
      horizontal and vertical controllers: a shadow on exactly the edges of
      the axes the prop's mode selects, each driven by its own axis's flags. */
  function Render(p: Option<ShadowsProp>, tint: string, horizontal: Flags, vertical: Flags): (r: seq<Shadow>)
    ensures forall sh | sh in r ::
      EdgeAxis(sh.edge) in ModeAxes(ModeOf(p)) &&
      sh == EdgeShadow(sh.edge, FlagsFor(EdgeAxis(sh.edge), horizontal, vertical), tint)
    ensures forall e: Edge | EdgeAxis(e) in ModeAxes(ModeOf(p)) :: exists sh :: sh in r && sh.edge == e
    ensures |r| == 2 * |ModeAxes(ModeOf(p))|
  {
    ControllerCount(p);
    Groups(Controllers(p), tint, horizontal, vertical)
  }

  /** The dispatch cases: `false` mounts nothing, `true` and the default
      mount both axes, and an axis name mounts that axis alone. */
  lemma DispatchCases()
    ensures Controllers(Some(Enabled(false))) == []
    ensures Controllers(Some(Enabled(true))) == [Horizontal, Vertical]
    ensures Controllers(None) == [Horizontal, Vertical]
    ensures Controllers(Some(HorizontalOnly)) == [Horizontal]
    ensures Controllers(Some(VerticalOnly)) == [Vertical]
  {
  }

  /** With `shadows` set to `false` no shadow renders, whatever the flags. */
  lemma ShadowsOffRendersNothing(tint: string, horizontal: Flags, vertical: Flags)
    ensures Render(Some(Enabled(false)), tint, horizontal, vertical) == []
  {
  }

  /** With `shadows` set to `'vertical'` only the top and bottom shadows
      render, whatever the flags. */
  lemma VerticalOnlyRendersNoHorizontalShadow(tint: string, horizontal: Flags, vertical: Flags)
    ensures forall sh | sh in Render(Some(VerticalOnly), tint, horizontal, vertical) ::
      sh.edge == Top || sh.edge == Bottom
  {
  }

  /** At mount, and after any triggers none of which found a node, every
      rendered shadow is transparent. */
  lemma InitiallyNoShadowShows(p: Option<ShadowsProp>, tint: string, events: seq<Option<Node>>)
    requires forall i | 0 <= i < |events| :: events[i].None?
    ensures forall sh | sh in Render(p, tint, Run(Initial, events, Horizontal).next.shown,
                                     Run(Initial, events, Vertical).next.shown) ::
      Opacity(sh.visible) == 0
  {
  }

  /** End to end: after a run of triggers whose last one found node `n`, the
      frame renders a shadow on every edge of a mounted axis, and that shadow
      is opaque exactly when the edge rule on `n`'s geometry for that axis
      says there is more content beyond the edge. */
  lemma EdgeShadowTracksGeometry(
    p: Option<ShadowsProp>, tint: string, events: seq<Option<Node>>, n: Node, e: Edge)
    requires events != [] && events[|events| - 1] == Some(n)
    requires EdgeAxis(e) in Controllers(p)
    ensures
      var r := Render(p, tint, Run(Initial, events, Horizontal).next.shown,
                      Run(Initial, events, Vertical).next.shown);
      && (exists sh :: sh in r && sh.edge == e)
      && forall sh | sh in r && sh.edge == e ::
           Opacity(sh.visible) == 1 <==>
             var a := AxisOf(n, EdgeAxis(e));
             if AtStart(e) then a.offset > 0 else a.offset + a.visible < a.total
  {
    ReachableShowsLatest(events, Horizontal);
    ReachableShowsLatest(events, Vertical);
  }
}
