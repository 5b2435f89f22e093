/**
 The image-processing collaborators the fog backend calls into (OpenCV and
 NumPy). Their numerics are not modelled: each is a function value supplied by
 the caller, and the model only fixes the shape of what each one returns.
 */
module Vision {

  import opened FogPolicy

  newtype byte = x: int | 0 <= x < 256

  /** An uploaded file, as the raw bytes the backend hands to the decoder. */
  type Bytes = seq<byte>

  /** A variance or a standard deviation: never negative. */
  type NonNeg = r: real | r >= 0.0

  /** The number of bins both routes ask the histogram routine for. */
  const HistogramBins: nat := 256

  /** A 256-bin grey-level histogram: one pixel count per intensity 0..255. */
  type Histogram = h: seq<nat> | |h| == HistogramBins witness seq(256, _ => 0)

  /** The two decoder flags the backend uses. */
  datatype ReadMode = Colour | Grayscale

  /**
   What one call of the decoder can end in: an image, no image (the decoder
   returned None), or a raised library error with its text.
   */
  datatype Decoded<Img> = Image(img: Img) | NoImage | Raised(reason: string)

  /**
   The library routines, as opaque functions over an abstract image type:
   decoding with a mode flag, colour-to-grey conversion, the variance of the
   Laplacian response, the 256-bin histogram and the population standard
   deviation of a histogram's bin counts.
   */
  datatype Library<!Img> = Library(
    decode: (Bytes, ReadMode) -> Decoded<Img>,
    toGray: Img -> Img,
    laplacianVariance: Img -> NonNeg,
    calcHist: Img -> Histogram,
    histStdDev: Histogram -> NonNeg)

  /**
   The analysis step both routes run on a grey-scale image: the variance of
   its Laplacian response and the standard deviation of its histogram.
   */
  function Measure<Img>(cv: Library<Img>, img: Img): (m: Metrics)
    ensures m.laplacianVariance >= 0.0 && m.histStdDev >= 0.0
  {
    Metrics(cv.laplacianVariance(img), cv.histStdDev(cv.calcHist(img)))
  }

  /**
   The list comprehension that turns the histogram's bins into plain floats
   for the response: same length, same values, in order.
   */
  function FloatList(h: seq<nat>): (r: seq<real>)
    ensures |r| == |h|
    ensures forall i :: 0 <= i < |h| ==> r[i] == h[i] as real
  {
    if h == [] then [] else [h[0] as real] + FloatList(h[1..])
  }
}
