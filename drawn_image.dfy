/**
 * How images become layout leaves: a draw layer holding a checkerboard and
 * the image, wrapped as a leaf whose aspect ratio is the image's width over
 * height, or 1.0 for an image of zero height.
 *
 * DrawLayer::Create, DrawnChecker::Create and DrawnImage::Create are not
 * part of this model; the objects they create are given by identity.
 */
module DrawnImages {
  import opened Options
  import opened LayerGroups
  import Aspect

  datatype ImageSize = ImageSize(width: nat, height: nat)

  /** A drawable image; `imageSize` is the size of the image in its texture. */
  datatype DrawnImage = DrawnImage(handle: ObjectId, imageSize: ImageSize)

  /** The drawables a draw layer renders in camera space. */
  datatype InCamera = Checker(handle: ObjectId) | Image(image: DrawnImage)

  /** The parameters a draw layer is created with (only `objects_in_camera` is set here). */
  datatype DrawLayerParams = DrawLayerParams(objectsInCamera: seq<InCamera>)

  /** A leaf group together with the draw layer made for it. */
  datatype ImageLeaf = ImageLeaf(group: LayerGroup, drawLayer: LayerId, params: DrawLayerParams)

  /**
   * `LayerTraits<T>::toGroup` for an image value: a new drawn image of that
   * image, drawn over a checker, as a leaf with the image's aspect ratio.
   */
  function ImageToGroup(image: ImageSize, checker: ObjectId, drawnImage: ObjectId,
                        drawLayer: LayerId): (r: ImageLeaf)
    ensures r.params.objectsInCamera == [Checker(checker), Image(DrawnImage(drawnImage, image))]
    ensures r.drawLayer == drawLayer
    ensures r.group.layer == Some(drawLayer) && r.group.children == [] && NonEmpty(r.group)
    ensures image.height > 0 ==> r.group.widthOverHeight * (image.height as real) == image.width as real
    ensures image.height == 0 ==> r.group.widthOverHeight == 1.0
  {
    var params := DrawLayerParams([Checker(checker), Image(DrawnImage(drawnImage, image))]);
    var group := FromLayer(Some(drawLayer));
    ImageLeaf(group.(widthOverHeight := Aspect.WidthOverHeight(image.width, image.height)),
              drawLayer, params)
  }

  /**
   * `LayerTraits<Shared<DrawnImage>>::toGroup`: an existing drawn image,
   * drawn over a checker, as a leaf with its texture's aspect ratio.
   */
  function DrawnImageToGroup(drawable: DrawnImage, checker: ObjectId, drawLayer: LayerId): (r: ImageLeaf)
    ensures r.params.objectsInCamera == [Checker(checker), Image(drawable)]
    ensures r.drawLayer == drawLayer
    ensures r.group.layer == Some(drawLayer) && r.group.children == [] && NonEmpty(r.group)
    ensures var size := drawable.imageSize;
            (size.height > 0 ==> r.group.widthOverHeight * (size.height as real) == size.width as real) &&
            (size.height == 0 ==> r.group.widthOverHeight == 1.0)
  {
    var group := FromLayer(Some(drawLayer));
    var size := drawable.imageSize;
    ImageLeaf(group.(widthOverHeight := Aspect.WidthOverHeight(size.width, size.height)),
              drawLayer, DrawLayerParams([Checker(checker), Image(drawable)]))
  }

  /** Wrapping an image is wrapping the drawn image made from it: the two traits agree. */
  lemma ImageToGroupViaDrawnImage(image: ImageSize, checker: ObjectId, drawnImage: ObjectId,
                                  drawLayer: LayerId)
    ensures ImageToGroup(image, checker, drawnImage, drawLayer) ==
            DrawnImageToGroup(DrawnImage(drawnImage, image), checker, drawLayer)
  {
  }
}
