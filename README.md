# Pangolin LayerGroup arrangements in Dafny

This project models the arrangement tree of Pangolin's GUI, `LayerGroup`. A
`LayerGroup` is a possibly nested arrangement of layers (panels) on screen.
Each node has a grouping: stacked, tabbed, horizontal, vertical or flex. It
also has an ordered list of child groups, an optional shared layer, a
selected tab, its own visibility flag and a width-over-height ratio.

The model covers:

- **Construction.** `intoLayerGroup` turns a group, a layer, a drawable, an
  image or a variable into a group. `detail::join` combines two operands with
  the auto-flatten rewrite: an operand with the same grouping and no layer
  has its children spliced in instead of being nested. The operators
  `,` `|` `/` `^` are `join` with a fixed grouping, and the variadic `flex`
  is a right fold of `join`.
- **Visibility.** `show(visible)` sets a node's own flag. `show(layer, visible)`
  walks the tree and compares layers by identity: a node holding the layer
  gets its flag set and its subtree is not visited; any other node passes the
  call to each of its children.
- **Image leaves.** The image traits of drawn_image.h (`LayerTraits<T>::toGroup`
  and `LayerTraits<Shared<DrawnImage>>::toGroup`) wrap an image in a draw
  layer, over a checkerboard, and the leaf takes the image's aspect ratio; a
  zero-height image gets 1.0. The image overload of `intoLayerGroup`
  (layer_group.h:93-99) takes a different path: it goes through the drawable
  overload (layer_group.h:84-90), which puts the drawn image in `.objects`
  with no checker, and its division has no zero guard (see Findings).

Files:

- `options.dfy`: the `Option` type, which stands for nullable pointers.
- `aspect.dfy`: the guarded width-over-height rule.
- `layer_group.dfy`: the tree, the combinators and the visibility walk.
- `layer_group_laws.dfy`: the laws, stated as lemmas.
- `drawn_image.dfy`: the image traits.

`LayerGroup` is a value type: `join` copies its operands and their child
vectors. So it is a datatype here. `show(layer, visible)` updates the tree
in place by looping over the children by reference. Here it is the method
`LayerGroups.Show`: a loop that replaces each child by the result of the
recursive call and returns the updated tree. That method is proved equal to
the specification function `LayerGroups.ShowLayer`, and the lemmas in
`LayerGroupLaws` are about that function.

`join` asserts (`PANGO_ASSERT`, layer_group.h:120-121) that each operand
has a layer or a child, so non-emptiness is a precondition of `Join` and of
everything built on it.

## Model

| member | source | states |
|---|---|---|
| `Aspect.WidthOverHeight` | components/pango_context/include/pangolin/gui/drawn_image.h:71-72 | with a positive height, ratio times height equals width; with a zero height the ratio is 1.0 (no division); the ratio is non-negative |
| `LayerGroups.NewLayerGroup` | components/pango_context/include/pangolin/gui/layer_group.h:51-56 | the default group is horizontal, has no children and no layer, tab 0, is shown, has ratio 1.0, and cannot be a combinator operand |
| `LayerGroups.FromLayer` | components/pango_context/include/pangolin/gui/layer_group.h:30 | wrapping a layer pointer gives a leaf that holds it and keeps every other default; it is non-empty exactly when the pointer is not null, and a null pointer gives the default group, which join's assert rejects |
| `LayerGroups.IsShown` | components/pango_context/include/pangolin/gui/layer_group.h:33 | a node reports its own flag only |
| `LayerGroups.WithShown` | components/pango_context/include/pangolin/gui/layer_group.h:36-38 | `show(visible)` makes `isShown()` return `visible`; grouping, children, layer, tab and ratio are untouched |
| `LayerGroups.Join` | components/pango_context/include/pangolin/gui/layer_group.h:119-141 | with both operands non-empty, the result has grouping `op`, no layer, tab 0, is shown, has ratio 1.0 and at least two children |
| `LayerGroups.IntoLayerGroup` | components/pango_context/include/pangolin/gui/layer_group.h:73-109 | a group converts to itself; a null layer pointer gives the empty default group; a non-null layer, drawable, image or variable becomes a non-empty leaf that holds exactly that layer (or the draw/widget layer made for it) and is spliced by no grouping; an image leaf has ratio width/height, or 1.0 for height 0 (corrected, see Findings) |
| `LayerGroups.ImageAspectAsWritten` | components/pango_context/include/pangolin/gui/layer_group.h:97 | the unguarded `double(width)/height` is finite exactly when the height is positive, and is then width/height; with height 0 it is NaN exactly when the width is 0 (otherwise +infinity) |
| `LayerGroups.Combine` | components/pango_context/include/pangolin/gui/layer_group.h:144-148 | an operator converts both operands and joins them: the result has the operator's grouping, no layer and at least two children |
| `LayerGroups.Tabs` | components/pango_context/include/pangolin/gui/layer_group.h:151 | `,` builds a tabbed group with no layer and at least two children |
| `LayerGroups.Beside` | components/pango_context/include/pangolin/gui/layer_group.h:152 | `\|` builds a horizontal group with no layer and at least two children |
| `LayerGroups.Above` | components/pango_context/include/pangolin/gui/layer_group.h:153 | `/` builds a vertical group with no layer and at least two children |
| `LayerGroups.Overlay` | components/pango_context/include/pangolin/gui/layer_group.h:154 | `^` builds a stacked group with no layer and at least two children |
| `LayerGroups.FlexOf` | components/pango_context/include/pangolin/gui/layer_group.h:158-168 | with two or more operands the result is a non-empty flex group with no layer and at least as many children as operands |
| `LayerGroups.ShowLayer` | components/pango_context/include/pangolin/gui/layer_group.h:41-49 | a node keeps its grouping, layer, child count, tab and ratio; if its layer is the target, its flag becomes `visible` and its children are not visited; otherwise its own flag is unchanged (what happens below the root is `ShowLayerAt`) |
| `LayerGroups.Show` | components/pango_context/include/pangolin/gui/layer_group.h:41-49 | the loop over the children, each replaced by the recursive call's result, yields exactly `ShowLayer` of the input |
| `LayerGroupLaws.JoinSplicesOperands` | components/pango_context/include/pangolin/gui/layer_group.h:126-138 | auto-flatten and order: the lhs part of the children comes first and is the lhs's children if it flattens, else the lhs alone; the rest is the rhs's children or the rhs alone |
| `LayerGroupLaws.JoinChildCount` | components/pango_context/include/pangolin/gui/layer_group.h:119-138 | the child count is (lhs flattens ? its child count : 1) + (rhs flattens ? its child count : 1), and at least 2 |
| `LayerGroupLaws.JoinNests` | components/pango_context/include/pangolin/gui/layer_group.h:126-138 | two operands that do not flatten (leaves, or other groupings) become exactly the children `[lhs, rhs]` |
| `LayerGroupLaws.JoinKeepsOtherGrouping` | components/pango_context/include/pangolin/gui/layer_group.h:126-131 | a composite of a different grouping is nested as the first child, not spliced |
| `LayerGroupLaws.JoinFlattenLaw` | components/pango_context/include/pangolin/gui/layer_group.h:126-138 | `join(G, join(G,A,B), C) == join(G, A, join(G,B,C))` for non-empty A, B, C |
| `LayerGroupLaws.CombineFlattenLaw` | components/pango_context/include/pangolin/gui/layer_group.h:144-154 | the same law for the operators: `(a op b) op c == a op (b op c)` |
| `LayerGroupLaws.Evaluate` | components/pango_context/include/pangolin/gui/layer_group.h:144-154 | a chain of one operator over non-empty operands yields a non-empty group, of that operator's grouping and with no layer when it combines anything |
| `LayerGroupLaws.EvaluateIsFlat` | components/pango_context/include/pangolin/gui/layer_group.h:126-138 | however a chain like `A\|B\|C\|D` of non-flattening operands is bracketed, it builds one group whose children are exactly the converted operands, in order |
| `LayerGroupLaws.FlexSingle` | components/pango_context/include/pangolin/gui/layer_group.h:158-162 | `flex(x) == intoLayerGroup(x)` |
| `LayerGroupLaws.FlexIsFlat` | components/pango_context/include/pangolin/gui/layer_group.h:164-168 | `flex(x1..xn)` with n >= 2 is one flex group with no layer whose children are each argument's contribution, in order |
| `LayerGroupLaws.FlexOfLeaves` | components/pango_context/include/pangolin/gui/layer_group.h:164-168 | with n >= 2 non-group arguments, the children of `flex(x1..xn)` are exactly the converted `x1..xn`, in order |
| `LayerGroupLaws.ShowLayerAt` | components/pango_context/include/pangolin/gui/layer_group.h:41-49 | at every valid path, the root included: a node holding the target with no node holding it above (root included) gets the flag `visible`, every other node keeps its flag, and its layer is unchanged |
| `LayerGroupLaws.ShowLayerKeepsLayout` | components/pango_context/include/pangolin/gui/layer_group.h:41-49 | `show(target, v)` changes visibility flags only: with every flag erased, the tree is unchanged at every depth |
| `LayerGroupLaws.ShowLayerLastWins` | components/pango_context/include/pangolin/gui/layer_group.h:41-49 | showing the same target twice gives the tree of the second call alone |
| `LayerGroupLaws.ShowLayerIdempotent` | components/pango_context/include/pangolin/gui/layer_group.h:41-49 | applying `show(target, v)` twice equals applying it once |
| `LayerGroupLaws.ShowLayerCommutes` | components/pango_context/include/pangolin/gui/layer_group.h:41-49 | showing two different targets gives the same tree in either order |
| `LayerGroupLaws.ShowLayerAbsent` | components/pango_context/include/pangolin/gui/layer_group.h:41-49 | a target that no node holds leaves the tree unchanged |
| `LayerGroupLaws.ShowNullTargetOnJoin` | components/pango_context/include/pangolin/gui/layer_group.h:42 | a null target matches a combinator result's root (it has no layer), so only the root's flag changes |
| `LayerGroupLaws.ImageAspectAsWrittenDiffers` | components/pango_context/include/pangolin/gui/layer_group.h:97 | for a positive height the unguarded ratio equals the image leaf's; for height 0 it is not finite, while the leaf has 1.0 |
| `DrawnImages.ImageToGroup` | components/pango_context/include/pangolin/gui/drawn_image.h:62-74 | the draw layer's `objects_in_camera` is exactly [checker, new drawn image of the image]; the group is a non-empty leaf holding that draw layer, which is also the one returned; the ratio is width/height, or 1.0 for height 0 |
| `DrawnImages.DrawnImageToGroup` | components/pango_context/include/pangolin/gui/drawn_image.h:78-88 | `objects_in_camera` is exactly [checker, the given drawable]; a non-empty leaf holding the draw layer, which is also the one returned; the same guard, applied to the texture's image size |
| `DrawnImages.ImageToGroupViaDrawnImage` | components/pango_context/include/pangolin/gui/drawn_image.h:62-88 | wrapping an image equals wrapping the drawn image made from it: the two traits agree |

## Left out

- LayerGroups.Join: non-emptiness of each operand is a precondition, standing for the `PANGO_ASSERT`s at layer_group.h:120-121; what a failed assertion does at run time is not modelled.
- DrawnImages.ImageToGroup: takes the drawn image that `DrawnImage::Create({.image=image})` (drawn_image.h:67) returns to have a texture whose image size is the image's size; the factory is not part of this model.
- DrawnImages.ImageToGroupViaDrawnImage: holds under two assumptions about code that is not part of this model: the texture-size assumption above, and that `LayerTraits<Shared<DrawLayer>>::toGroup` (drawn_image.h:70) wraps its layer as a leaf exactly as `LayerTraits<Shared<Layer>>::toGroup` (drawn_image.h:81) does.

- `computeLayoutConstraints`, `computeLayoutRegion` and `operator<<` (layer_group.h:170-173) are only declared in the headers; their definitions are not part of this model. Judging from their signatures and the `cached_` field, these passes fill each node's `cached_` layout data (`min_pix`, `parts`, `region`).
- The `cached_` `LayoutInfo` field (layer_group.h:58-65) holds data that only those passes write. No modelled operation reads or writes it, so the datatype does not carry it.
- `LayerGroups.Show`: `show(layer, visible)` updates the tree in place. The model returns the updated tree instead. Children are owned by value, so no other reference can observe the difference. The shared layers are compared but never changed.
- `shared_ptr` ownership and reference counting: a layer or drawable is only an identity (`LayerId`, `ObjectId`) compared by equality.
- `DrawLayer::Create`, `DrawnImage::Create`, `DrawnChecker::Create`, `WidgetLayer::Create`, `LayerTraits<Shared<Layer>>::toGroup` and `LayerTraits<Shared<DrawLayer>>::toGroup` are not part of this model. The objects they create are parameters. Both traits are taken to wrap their layer as a leaf, as `intoLayerGroup` does at layer_group.h:78-80.
- `LayerGroups.IntoLayerGroup`: does not model the variable overload's widget size hint or name, or what the drawable overload puts in its draw layer; these only feed the unseen factories.
- `DrawnImage`'s interpolation, colour transform and colormap fields (drawn_image.h:16-45) do not affect layout and are not modelled.
- `width_over_height` is a `double` in the source and a `real` here: rounding of the division is not modelled.
- 3-D projection matrices, input-event handling and render loops are outside the arrangement tree.

## Findings

| source | as written | input that shows it | evidently intended | confidence | as-written member | corrected member |
|---|---|---|---|---|---|---|
| components/pango_context/include/pangolin/gui/layer_group.h:97 | the image overload of `intoLayerGroup` sets `width_over_height` to `double(width)/height` with no zero check | a 640 x 0 image gives +infinity (a 0 x 0 image gives NaN) | the guard the image traits use for the same ratio at drawn_image.h:71-72 and 84-85: ratio 1.0 for a zero height | medium, not executed | `LayerGroups.ImageAspectAsWritten` (with `LayerGroupLaws.ImageAspectAsWrittenDiffers`) | `LayerGroups.IntoLayerGroup` |
