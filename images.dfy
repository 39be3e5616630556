/** The image buffers that filters process.  Only their size is visible to this
    model; the pixel samples are abstract. */
module Images {

  /** The pixel samples of an image. */
  type Pixels(==, !new)

  /** An ImageJ ImageProcessor: a width, a height and its samples. */
  datatype Image = Image(width: nat, height: nat, pixels: Pixels)
}
