/**
 * The LayerGroup arrangement tree of Pangolin's GUI: a (possibly nested)
 * arrangement of layers on screen, the combinators that build it with the
 * auto-flatten rewrite, and the identity-based visibility walk.
 *
 * A LayerGroup is a value: its children are owned by value and copied when
 * a group is combined, so it is a datatype here. The layer a leaf shows is a
 * shared object compared by identity; `LayerId` stands for that identity.
 */
module LayerGroups {
  import opened Options
  import Aspect

  /** How the children of a composite group share its area. */
  datatype Grouping =
    | Stacked     // blended over one another
    | Tabbed      // one child shown at a time
    | Horizontal  // share the area side by side
    | Vertical    // share the area one above the other
    | Flex        // a dynamic group that fills the area; children share an aspect

  /** Identity of a shared Layer object (pointer identity in the source). */
  datatype LayerId = LayerId(handle: nat)

  /** Identity of a shared Drawable object. */
  datatype ObjectId = ObjectId(handle: nat)

  datatype LayerGroup = LayerGroup(
    grouping: Grouping,
    children: seq<LayerGroup>,
    layer: Option<LayerId>,
    selectedTab: nat,
    shown: bool,
    widthOverHeight: real)

  /** The default-constructed group: horizontal, no children, no layer, shown. */
  function NewLayerGroup(): (r: LayerGroup)
    ensures r.grouping == Horizontal && r.children == [] && r.layer == None
    ensures r.selectedTab == 0 && r.shown && r.widthOverHeight == 1.0
    ensures !NonEmpty(r)
  {
    LayerGroup(Horizontal, [], None, 0, true, 1.0)
  }

  /**
   * The group that wraps a layer pointer: a leaf carrying the defaults. A
   * null pointer gives the default group, which no combinator accepts.
   */
  function FromLayer(layer: Option<LayerId>): (r: LayerGroup)
    ensures r.layer == layer && r.children == []
    ensures NonEmpty(r) <==> layer.Some?
    ensures layer == None ==> r == NewLayerGroup()
    ensures r.grouping == Horizontal && r.selectedTab == 0 && r.shown && r.widthOverHeight == 1.0
  {
    NewLayerGroup().(layer := layer)
  }

  /** Whether a group may be an operand of a combinator: it has a layer or a child. */
  predicate NonEmpty(g: LayerGroup)
  {
    |g.children| > 0 || g.layer.Some?
  }

  /** The node's own visibility flag (not gated by its ancestors). */
  function IsShown(g: LayerGroup): (b: bool)
    ensures b <==> g.shown
  {
    g.shown
  }

  /** `show(visible)`: sets this node's own flag and nothing else. */
  function WithShown(g: LayerGroup, visible: bool): (r: LayerGroup)
    ensures IsShown(r) == visible
    ensures r.grouping == g.grouping && r.children == g.children && r.layer == g.layer
    ensures r.selectedTab == g.selectedTab && r.widthOverHeight == g.widthOverHeight
  {
    g.(shown := visible)
  }

  //////////////////////////////////////////////////////////////////////
  // Combinators

  /** An operand is spliced into a `join` of grouping `op` when it has that grouping and no layer. */
  predicate Flattens(op: Grouping, g: LayerGroup)
  {
    g.grouping == op && g.layer.None?
  }

  /** What one operand adds to the children of a `join` of grouping `op`. */
  function Contribution(op: Grouping, g: LayerGroup): (cs: seq<LayerGroup>)
    ensures NonEmpty(g) ==> |cs| >= 1
  {
    if Flattens(op, g) then g.children else [g]
  }

  /**
   * `detail::join`: a fresh composite of grouping `op` whose children are the
   * contributions of `lhs` then of `rhs`. Both operands must be non-empty.
   */
  function Join(op: Grouping, lhs: LayerGroup, rhs: LayerGroup): (r: LayerGroup)
    requires NonEmpty(lhs) && NonEmpty(rhs)
    ensures r.grouping == op && r.layer == None
    ensures r.selectedTab == 0 && r.shown && r.widthOverHeight == 1.0
    ensures |r.children| >= 2 && NonEmpty(r)
  {
    var front := Contribution(op, lhs);
    var back := Contribution(op, rhs);
    NewLayerGroup().(grouping := op, children := front + back)
  }

  /**
   * The values the combinators accept: anything `intoLayerGroup` is defined
   * for. The factories the source calls (DrawLayer::Create, DrawnImage::Create,
   * WidgetLayer::Create) are not part of this model: the layer each creates
   * is given as its identity.
   */
  datatype Layoutable =
    | GroupArg(group: LayerGroup)
    | LayerArg(layer: Option<LayerId>)  // a Shared<Layer>, possibly null
    | DrawableArg(drawable: ObjectId, drawLayer: LayerId)
    | ImageArg(width: nat, height: nat, imageLayer: LayerId)
    | VarArg(fullName: string, widgetLayer: LayerId)

  /**
   * `intoLayerGroup`: a group converts to itself; every other value becomes a
   * leaf holding the layer made for it; a null layer pointer gives the
   * empty default group. An image leaf takes the image's
   * aspect ratio, with the zero-height guard (see ImageAspectAsWritten).
   */
  function IntoLayerGroup(x: Layoutable): (r: LayerGroup)
    ensures x.GroupArg? ==> r == x.group
    ensures !x.GroupArg? ==> r.grouping == Horizontal && r.children == [] && r.shown && r.selectedTab == 0
    ensures !x.GroupArg? && x != LayerArg(None) ==> r.layer.Some? && NonEmpty(r) && forall op :: !Flattens(op, r)
    ensures x == LayerArg(None) ==> r == NewLayerGroup() && !NonEmpty(r)
    ensures x.LayerArg? ==> r.layer == x.layer
    ensures x.DrawableArg? ==> r.layer == Some(x.drawLayer)
    ensures x.ImageArg? ==> r.layer == Some(x.imageLayer)
    ensures x.VarArg? ==> r.layer == Some(x.widgetLayer)
    ensures x.ImageArg? && x.height > 0 ==> r.widthOverHeight * (x.height as real) == x.width as real
    ensures x.ImageArg? && x.height == 0 ==> r.widthOverHeight == 1.0
    ensures x.LayerArg? || x.DrawableArg? || x.VarArg? ==> r.widthOverHeight == 1.0
  {
    match x
    case GroupArg(group) => group
    case LayerArg(layer) => FromLayer(layer)
    case DrawableArg(_, drawLayer) => FromLayer(Some(drawLayer))
    case ImageArg(width, height, imageLayer) =>
      FromLayer(Some(imageLayer)).(widthOverHeight := Aspect.WidthOverHeight(width, height))
    case VarArg(_, widgetLayer) => FromLayer(Some(widgetLayer))
  }

  /** A 64-bit floating-point value, as far as a division can produce one. */
  datatype Double = Finite(value: real) | PositiveInfinity | NotANumber

  /**
   * The image overload of `intoLayerGroup` as the source writes it: an
   * unguarded `double(width) / height`, which for a zero height yields
   * +infinity (or NaN for a 0 x 0 image) rather than the 1.0 the image
   * traits use.
   */
  function ImageAspectAsWritten(width: nat, height: nat): (r: Double)
    ensures r.Finite? <==> height > 0
    ensures r.Finite? ==> r.value * (height as real) == width as real
    ensures height == 0 ==> (r == NotANumber <==> width == 0)
  {
    if height > 0 then Finite(width as real / height as real)
    else if width > 0 then PositiveInfinity
    else NotANumber
  }

  /** The binary operators `,` `|` `/` `^`: convert both operands, then `join`. */
  function Combine(op: Grouping, lhs: Layoutable, rhs: Layoutable): (r: LayerGroup)
    requires NonEmpty(IntoLayerGroup(lhs)) && NonEmpty(IntoLayerGroup(rhs))
    ensures r.grouping == op && r.layer == None && |r.children| >= 2
  {
    Join(op, IntoLayerGroup(lhs), IntoLayerGroup(rhs))
  }

  /** `lhs , rhs`: tabs. */
  function Tabs(lhs: Layoutable, rhs: Layoutable): (r: LayerGroup)
    requires NonEmpty(IntoLayerGroup(lhs)) && NonEmpty(IntoLayerGroup(rhs))
    ensures r.grouping == Tabbed && r.layer == None && |r.children| >= 2
  {
    Combine(Tabbed, lhs, rhs)
  }

  /** `lhs | rhs`: side by side. */
  function Beside(lhs: Layoutable, rhs: Layoutable): (r: LayerGroup)
    requires NonEmpty(IntoLayerGroup(lhs)) && NonEmpty(IntoLayerGroup(rhs))
    ensures r.grouping == Horizontal && r.layer == None && |r.children| >= 2
  {
    Combine(Horizontal, lhs, rhs)
  }

  /** `lhs / rhs`: one above the other. */
  function Above(lhs: Layoutable, rhs: Layoutable): (r: LayerGroup)
    requires NonEmpty(IntoLayerGroup(lhs)) && NonEmpty(IntoLayerGroup(rhs))
    ensures r.grouping == Vertical && r.layer == None && |r.children| >= 2
  {
    Combine(Vertical, lhs, rhs)
  }

  /** `lhs ^ rhs`: blended over one another. */
  function Overlay(lhs: Layoutable, rhs: Layoutable): (r: LayerGroup)
    requires NonEmpty(IntoLayerGroup(lhs)) && NonEmpty(IntoLayerGroup(rhs))
    ensures r.grouping == Stacked && r.layer == None && |r.children| >= 2
  {
    Combine(Stacked, lhs, rhs)
  }

  /** The operands `flex` may be given: with two or more, each must convert to a non-empty group. */
  predicate FlexOperands(items: seq<Layoutable>)
  {
    |items| >= 1 &&
    (|items| >= 2 ==> forall i :: 0 <= i < |items| ==> NonEmpty(IntoLayerGroup(items[i])))
  }

  /**
   * The variadic `flex(head, args...)`: a right fold of `join` with the flex
   * grouping; a single argument is only converted.
   */
  function FlexOf(items: seq<Layoutable>): (r: LayerGroup)
    requires FlexOperands(items)
    ensures |items| >= 2 ==> r.grouping == Flex && r.layer == None && NonEmpty(r)
    ensures |items| >= 2 ==> |r.children| >= |items|
    decreases |items|
  {
    if |items| == 1 then IntoLayerGroup(items[0])
    else Join(Flex, IntoLayerGroup(items[0]), FlexOf(items[1..]))
  }

  //////////////////////////////////////////////////////////////////////
  // Visibility

  /**
   * `show(layer_to_show, visible)` as a value: a node whose layer is the
   * target gets its own flag set and its subtree is left alone; any other
   * node passes the call to each of its children. A target of None (a null
   * pointer) matches a node with no layer, such as any composite.
   */
  function ShowLayer(g: LayerGroup, target: Option<LayerId>, visible: bool): (r: LayerGroup)
    ensures r.grouping == g.grouping && r.layer == g.layer && |r.children| == |g.children|
    ensures r.selectedTab == g.selectedTab && r.widthOverHeight == g.widthOverHeight
    ensures g.layer == target ==> r.shown == visible && r.children == g.children
    ensures g.layer != target ==> r.shown == g.shown
    decreases g
  {
    if g.layer == target then WithShown(g, visible)
    else g.(children := seq(|g.children|, i requires 0 <= i < |g.children| =>
                             ShowLayer(g.children[i], target, visible)))
  }

  /**
   * The in-place walk: the children are visited in order and each is
   * replaced by the result of showing within it.
   */
  method Show(g: LayerGroup, target: Option<LayerId>, visible: bool) returns (r: LayerGroup)
    ensures r == ShowLayer(g, target, visible)
    decreases g
  {
    if g.layer == target {
      return WithShown(g, visible);
    }
    var children := g.children;
    var i := 0;
    while i < |children|
      invariant 0 <= i <= |children| == |g.children|
      invariant forall k :: 0 <= k < i ==> children[k] == ShowLayer(g.children[k], target, visible)
      invariant children[i..] == g.children[i..]
    {
      assert children[i] == g.children[i];
      var shownChild := Show(children[i], target, visible);
      children := children[i := shownChild];
      i := i + 1;
    }
    r := g.(children := children);
  }
}
