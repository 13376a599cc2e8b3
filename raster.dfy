/** Points and images of the sticker canvas.

    Pixels are never looked at: an image is the term that records which
    drawing steps produced it. Each constructor stands for a CoreGraphics
    rendering whose code is not part of this model. Two different terms may
    well stand for the same pixels (erasing an area that is already clear
    changes nothing), so no lemma concludes anything from two terms being
    different; the lemmas only say which steps an image records. */
module Raster {
  import opened Wrappers

  /** A location in the image view's coordinate space (`CGPoint`), over the reals. */
  datatype Point = Point(x: real, y: real)

  /** Identity of a photo handed over by the photo picker. */
  type PhotoId = nat

  datatype Image =
      /** The picked photo drawn into a context the size of the image view. */
      Drawn(photo: PhotoId)
      /** The canvas redrawn and a round-capped line of the given width
          stroked with the clear blend mode, from `from` (when there is a
          previous point) to `to`. A missing canvas is a fresh, empty context. */
    | Erase(canvas: Option<Image>, from: Option<Point>, to: Point, width: real)
      /** The square of side `side` centred on `center`, cut out for the
          under-finger magnifier. */
    | Crop(source: Image, center: Point, side: real)
}
