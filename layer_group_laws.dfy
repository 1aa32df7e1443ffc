/**
 * What the LayerGroup combinators and the visibility walk guarantee:
 * the auto-flatten rule and its ordering, child counts, the flatten law
 * (associativity of same-grouping combination), the shape of `flex`, and
 * that `show` changes only visibility flags, is idempotent and commutes
 * for distinct targets.
 */
module LayerGroupLaws {
  import opened Options
  import opened LayerGroups

  //////////////////////////////////////////////////////////////////////
  // join

  /**
   * Auto-flatten and order: a flattening operand adds its own children in
   * order, any other operand adds itself; the lhs part comes first.
   */
  lemma JoinSplicesOperands(op: Grouping, lhs: LayerGroup, rhs: LayerGroup)
    requires NonEmpty(lhs) && NonEmpty(rhs)
    ensures var cs := Join(op, lhs, rhs).children;
            var n := if Flattens(op, lhs) then |lhs.children| else 1;
            n < |cs| &&
            cs[..n] == (if Flattens(op, lhs) then lhs.children else [lhs]) &&
            cs[n..] == (if Flattens(op, rhs) then rhs.children else [rhs])
  {
    var cs := Join(op, lhs, rhs).children;
    assert cs == Contribution(op, lhs) + Contribution(op, rhs);
  }

  /** The child count of a join, which the non-empty precondition keeps at two or more. */
  lemma JoinChildCount(op: Grouping, lhs: LayerGroup, rhs: LayerGroup)
    requires NonEmpty(lhs) && NonEmpty(rhs)
    ensures |Join(op, lhs, rhs).children| ==
            (if Flattens(op, lhs) then |lhs.children| else 1) +
            (if Flattens(op, rhs) then |rhs.children| else 1)
    ensures |Join(op, lhs, rhs).children| >= 2
  {
    assert Join(op, lhs, rhs).children == Contribution(op, lhs) + Contribution(op, rhs);
  }

  /** Two operands neither of which flattens (leaves, or other groupings) are nested as they are. */
  lemma JoinNests(op: Grouping, lhs: LayerGroup, rhs: LayerGroup)
    requires NonEmpty(lhs) && NonEmpty(rhs)
    requires !Flattens(op, lhs) && !Flattens(op, rhs)
    ensures Join(op, lhs, rhs).children == [lhs, rhs]
  {
    assert Join(op, lhs, rhs).children == [lhs] + [rhs];
  }

  /** A composite whose grouping differs from the operator's is never spliced, even with no layer. */
  lemma JoinKeepsOtherGrouping(op: Grouping, lhs: LayerGroup, rhs: LayerGroup)
    requires NonEmpty(lhs) && NonEmpty(rhs)
    requires lhs.grouping != op
    ensures Join(op, lhs, rhs).children[0] == lhs
  {
    assert Join(op, lhs, rhs).children == [lhs] + Contribution(op, rhs);
  }

  /** The flatten law: `(A op B) op C` and `A op (B op C)` are the same group. */
  lemma JoinFlattenLaw(op: Grouping, a: LayerGroup, b: LayerGroup, c: LayerGroup)
    requires NonEmpty(a) && NonEmpty(b) && NonEmpty(c)
    ensures Join(op, Join(op, a, b), c) == Join(op, a, Join(op, b, c))
  {
    var ab := Join(op, a, b);
    var bc := Join(op, b, c);
    assert Flattens(op, ab) && Flattens(op, bc);
    calc {
      Join(op, ab, c).children;
      ab.children + Contribution(op, c);
      (Contribution(op, a) + Contribution(op, b)) + Contribution(op, c);
      Contribution(op, a) + (Contribution(op, b) + Contribution(op, c));
      Contribution(op, a) + bc.children;
      Join(op, a, bc).children;
    }
  }

  /** The flatten law for the operators themselves, e.g. `(a|b)|c == a|(b|c)`. */
  lemma CombineFlattenLaw(op: Grouping, a: Layoutable, b: Layoutable, c: Layoutable)
    requires NonEmpty(IntoLayerGroup(a)) && NonEmpty(IntoLayerGroup(b)) && NonEmpty(IntoLayerGroup(c))
    ensures Combine(op, GroupArg(Combine(op, a, b)), c) == Combine(op, a, GroupArg(Combine(op, b, c)))
  {
    JoinFlattenLaw(op, IntoLayerGroup(a), IntoLayerGroup(b), IntoLayerGroup(c));
  }

  //////////////////////////////////////////////////////////////////////
  // Chains of one operator, in any bracketing

  /** An expression built from operands with a single binary operator, bracketed any way. */
  datatype Chain = Operand(item: Layoutable) | Apply(lhs: Chain, rhs: Chain)

  /** The operands of a chain, left to right. */
  function Operands(e: Chain): (xs: seq<Layoutable>)
    ensures |xs| >= 1
  {
    match e
    case Operand(x) => [x]
    case Apply(l, r) => Operands(l) + Operands(r)
  }

  predicate OperandsNonEmpty(e: Chain)
  {
    match e
    case Operand(x) => NonEmpty(IntoLayerGroup(x))
    case Apply(l, r) => OperandsNonEmpty(l) && OperandsNonEmpty(r)
  }

  /** Every operand converts to a group the operator `op` does not splice. */
  predicate OperandsAtomic(op: Grouping, e: Chain)
  {
    match e
    case Operand(x) => NonEmpty(IntoLayerGroup(x)) && !Flattens(op, IntoLayerGroup(x))
    case Apply(l, r) => OperandsAtomic(op, l) && OperandsAtomic(op, r)
  }

  /** The group a chain of operator `op` builds (each inner result is converted by identity). */
  function Evaluate(op: Grouping, e: Chain): (r: LayerGroup)
    requires OperandsNonEmpty(e)
    ensures NonEmpty(r)
    ensures e.Apply? ==> r.grouping == op && r.layer == None
  {
    match e
    case Operand(x) => IntoLayerGroup(x)
    case Apply(l, r) => Join(op, Evaluate(op, l), Evaluate(op, r))
  }

  lemma {:induction false} AtomicIsNonEmpty(op: Grouping, e: Chain)
    requires OperandsAtomic(op, e)
    ensures OperandsNonEmpty(e)
  {
    match e
    case Operand(x) =>
    case Apply(l, r) => AtomicIsNonEmpty(op, l); AtomicIsNonEmpty(op, r);
  }

  /**
   * However a chain like `A|B|C|D` is bracketed, it builds one flat group
   * whose children are its operands, converted, in order.
   */
  lemma {:induction false} EvaluateIsFlat(op: Grouping, e: Chain)
    requires e.Apply? && OperandsAtomic(op, e)
    ensures OperandsNonEmpty(e)
    ensures var xs := Operands(e);
            Evaluate(op, e).children == seq(|xs|, i requires 0 <= i < |xs| => IntoLayerGroup(xs[i]))
    decreases e, 0
  {
    AtomicIsNonEmpty(op, e);
    var xs := Operands(e);
    var lc := ChildrenOf(op, e.lhs);
    var rc := ChildrenOf(op, e.rhs);
    var cs := Evaluate(op, e).children;
    assert cs == lc + rc;
    assert xs == Operands(e.lhs) + Operands(e.rhs);
    forall i | 0 <= i < |xs|
      ensures cs[i] == IntoLayerGroup(xs[i])
    {
      if i < |lc| {
        assert cs[i] == lc[i];
      } else {
        assert cs[i] == rc[i - |lc|];
      }
    }
  }

  /** What a sub-chain adds to the flat group: its operand converted, or its own flat children. */
  lemma {:induction false} ChildrenOf(op: Grouping, e: Chain) returns (cs: seq<LayerGroup>)
    requires OperandsAtomic(op, e)
    ensures OperandsNonEmpty(e)
    ensures cs == Contribution(op, Evaluate(op, e))
    ensures var xs := Operands(e);
            cs == seq(|xs|, i requires 0 <= i < |xs| => IntoLayerGroup(xs[i]))
    decreases e, 1
  {
    AtomicIsNonEmpty(op, e);
    match e
    case Operand(x) =>
      cs := [IntoLayerGroup(x)];
    case Apply(l, r) =>
      EvaluateIsFlat(op, e);
      cs := Evaluate(op, e).children;
  }

  //////////////////////////////////////////////////////////////////////
  // flex

  /** `flex(x)` with one argument is `intoLayerGroup(x)`. */
  lemma FlexSingle(x: Layoutable)
    ensures FlexOf([x]) == IntoLayerGroup(x)
  {
  }

  /** The children `flex(x1, ..., xn)` collects: each argument's contribution, in order. */
  function FlexContributions(items: seq<Layoutable>): (cs: seq<LayerGroup>)
  {
    if |items| == 0 then []
    else Contribution(Flex, IntoLayerGroup(items[0])) + FlexContributions(items[1..])
  }

  /**
   * `flex(x1, ..., xn)` with n >= 2 is a single flex group, not a nested
   * chain: the right fold's inner results are always spliced.
   */
  lemma {:induction false} FlexIsFlat(items: seq<Layoutable>)
    requires |items| >= 2 && FlexOperands(items)
    ensures FlexOf(items).grouping == Flex && FlexOf(items).layer == None
    ensures FlexOf(items).children == FlexContributions(items)
    decreases |items|
  {
    var rest := items[1..];
    assert FlexOperands(rest) by {
      forall i | 0 <= i < |rest| ensures NonEmpty(IntoLayerGroup(rest[i])) {
        assert rest[i] == items[i + 1];
      }
    }
    if |rest| == 1 {
      assert FlexContributions(rest) == Contribution(Flex, IntoLayerGroup(rest[0])) + [];
    } else {
      FlexIsFlat(rest);
    }
  }

  /** With leaf arguments, `flex(x1, ..., xn)` has exactly the arguments as children, in order. */
  lemma FlexOfLeaves(items: seq<Layoutable>)
    requires |items| >= 2 && FlexOperands(items)
    requires forall i :: 0 <= i < |items| ==> !items[i].GroupArg?
    ensures FlexOf(items).children == seq(|items|, i requires 0 <= i < |items| => IntoLayerGroup(items[i]))
  {
    FlexIsFlat(items);
    LeafContributions(items);
  }

  lemma {:induction false} LeafContributions(items: seq<Layoutable>)
    requires forall i :: 0 <= i < |items| ==> !items[i].GroupArg?
    ensures FlexContributions(items) == seq(|items|, i requires 0 <= i < |items| => IntoLayerGroup(items[i]))
  {
    if |items| > 0 {
      LeafContributions(items[1..]);
    }
  }

  //////////////////////////////////////////////////////////////////////
  // show

  /** What a group arranges, ignoring every visibility flag. */
  function Layout(g: LayerGroup): (r: LayerGroup)
    ensures r.grouping == g.grouping && r.layer == g.layer && |r.children| == |g.children|
    decreases g
  {
    g.(shown := true,
       children := seq(|g.children|, i requires 0 <= i < |g.children| => Layout(g.children[i])))
  }

  /** `show(target, v)` changes visibility flags only: grouping, children, layers, tabs and ratios stay. */
  lemma {:induction false} ShowLayerKeepsLayout(g: LayerGroup, target: Option<LayerId>, visible: bool)
    ensures Layout(ShowLayer(g, target, visible)) == Layout(g)
    decreases g
  {
    var r := ShowLayer(g, target, visible);
    if g.layer != target {
      forall i | 0 <= i < |g.children|
        ensures Layout(r.children[i]) == Layout(g.children[i])
      {
        ShowLayerKeepsLayout(g.children[i], target, visible);
      }
    }
    assert Layout(r).children == Layout(g).children;
  }

  /** A second `show` of the same target overrides the first; with the same flag it is idempotent. */
  lemma {:induction false} ShowLayerLastWins(g: LayerGroup, target: Option<LayerId>, v: bool, w: bool)
    ensures ShowLayer(ShowLayer(g, target, v), target, w) == ShowLayer(g, target, w)
    decreases g
  {
    if g.layer != target {
      var once := ShowLayer(g, target, v);
      forall i | 0 <= i < |g.children|
        ensures ShowLayer(once.children[i], target, w) == ShowLayer(g.children[i], target, w)
      {
        ShowLayerLastWins(g.children[i], target, v, w);
      }
    }
  }

  lemma ShowLayerIdempotent(g: LayerGroup, target: Option<LayerId>, visible: bool)
    ensures ShowLayer(ShowLayer(g, target, visible), target, visible) == ShowLayer(g, target, visible)
  {
    ShowLayerLastWins(g, target, visible, visible);
  }

  /** Showing or hiding two different layers gives the same tree in either order. */
  lemma {:induction false} ShowLayerCommutes(g: LayerGroup, t1: Option<LayerId>, v1: bool,
                                             t2: Option<LayerId>, v2: bool)
    requires t1 != t2
    ensures ShowLayer(ShowLayer(g, t1, v1), t2, v2) == ShowLayer(ShowLayer(g, t2, v2), t1, v1)
    decreases g
  {
    if g.layer != t1 && g.layer != t2 {
      var a := ShowLayer(g, t1, v1);
      var b := ShowLayer(g, t2, v2);
      forall i | 0 <= i < |g.children|
        ensures ShowLayer(a.children[i], t2, v2) == ShowLayer(b.children[i], t1, v1)
      {
        ShowLayerCommutes(g.children[i], t1, v1, t2, v2);
      }
    }
  }

  /** A path of child indices, each in range, from `g` down to one of its nodes. */
  predicate ValidPath(g: LayerGroup, p: seq<nat>)
    decreases |p|
  {
    |p| == 0 || (p[0] < |g.children| && ValidPath(g.children[p[0]], p[1..]))
  }

  /** The node reached from `g` by following the path `p`. */
  function NodeAt(g: LayerGroup, p: seq<nat>): LayerGroup
    requires ValidPath(g, p)
    decreases |p|
  {
    if |p| == 0 then g else NodeAt(g.children[p[0]], p[1..])
  }

  /** Some node strictly above the end of `p` (the root included) holds the layer `target`. */
  predicate Masked(g: LayerGroup, target: Option<LayerId>, p: seq<nat>)
    requires ValidPath(g, p)
    decreases |p|
  {
    |p| > 0 && (g.layer == target || Masked(g.children[p[0]], target, p[1..]))
  }

  /**
   * What `show(target, v)` does at every depth: a node holding the target
   * with no matching node above it gets the flag `v`; every other node
   * keeps its flag. Paths and layers are unchanged.
   */
  lemma {:induction false} ShowLayerAt(g: LayerGroup, target: Option<LayerId>, visible: bool, p: seq<nat>)
    requires ValidPath(g, p)
    ensures ValidPath(ShowLayer(g, target, visible), p)
    ensures NodeAt(ShowLayer(g, target, visible), p).layer == NodeAt(g, p).layer
    ensures NodeAt(ShowLayer(g, target, visible), p).shown ==
            if NodeAt(g, p).layer == target && !Masked(g, target, p) then visible
            else NodeAt(g, p).shown
    decreases |p|
  {
    var r := ShowLayer(g, target, visible);
    if |p| > 0 {
      var child := g.children[p[0]];
      if g.layer == target {
        assert r.children == g.children;
        assert ValidPath(r, p);
        assert NodeAt(r, p) == NodeAt(g, p);
      } else {
        assert r.children[p[0]] == ShowLayer(child, target, visible);
        ShowLayerAt(child, target, visible, p[1..]);
        assert ValidPath(r, p);
      }
    }
  }

  /** Whether some node of the tree holds the layer `target`. */
  predicate Occurs(target: Option<LayerId>, g: LayerGroup)
    decreases g
  {
    g.layer == target ||
    exists i :: 0 <= i < |g.children| && Occurs(target, g.children[i])
  }

  /** A target no node holds leaves the tree unchanged. */
  lemma {:induction false} ShowLayerAbsent(g: LayerGroup, target: Option<LayerId>, visible: bool)
    requires !Occurs(target, g)
    ensures ShowLayer(g, target, visible) == g
    decreases g
  {
    forall i | 0 <= i < |g.children|
      ensures ShowLayer(g.children[i], target, visible) == g.children[i]
    {
      ShowLayerAbsent(g.children[i], target, visible);
    }
  }

  /**
   * A null target matches the first node with no layer: for a group built
   * by a combinator that is the root, so only the root's flag changes.
   */
  lemma ShowNullTargetOnJoin(op: Grouping, lhs: LayerGroup, rhs: LayerGroup, visible: bool)
    requires NonEmpty(lhs) && NonEmpty(rhs)
    ensures ShowLayer(Join(op, lhs, rhs), None, visible) == WithShown(Join(op, lhs, rhs), visible)
  {
  }

  //////////////////////////////////////////////////////////////////////
  // The image overload's unguarded aspect ratio

  /**
   * For a positive height the unguarded division agrees with the image leaf
   * `intoLayerGroup` builds; for a zero height it is not a finite number,
   * where the leaf has the ratio 1.0.
   */
  lemma ImageAspectAsWrittenDiffers(width: nat, height: nat, imageLayer: LayerId)
    ensures var leaf := IntoLayerGroup(ImageArg(width, height, imageLayer));
            (height > 0 ==> ImageAspectAsWritten(width, height) == Finite(leaf.widthOverHeight)) &&
            (height == 0 ==> !ImageAspectAsWritten(width, height).Finite? && leaf.widthOverHeight == 1.0)
  {
    var leaf := IntoLayerGroup(ImageArg(width, height, imageLayer));
    var r := ImageAspectAsWritten(width, height);
    if height > 0 {
      assert (r.value - leaf.widthOverHeight) * (height as real) == 0.0;
    }
  }
}
