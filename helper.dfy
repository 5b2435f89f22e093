/**
 The backend's stand-alone analysis helper: decode the upload as grey scale,
 measure it, and flag fog by the OR rule against the caller's thresholds.
 Every failure is reported in the returned dictionary, never raised.
 */
module ImageHelper {

  import opened Vision
  import opened FogPolicy
  import opened Json

  const DecodeFailure: string := "Failed to decode image"
  const ProcessingErrorPrefix: string := "Error processing image: "

  /** The helper's two dictionary shapes. */
  datatype HelperReply =
    | Failed(error: string)
    | Analysed(laplacianVariance: real, histogramStdDev: real, fogDetected: bool, histogram: seq<real>)
  {
    /** The dictionary as it is returned. */
    function ToObject(): (o: Object)
      ensures Failed? ==> o.Keys == {"error", "histogram"}
      ensures Failed? ==> o["error"] == Str(error) && o["histogram"] == Null
      ensures Analysed? ==>
        o.Keys == {"laplacian_variance", "histogram_std_dev", "fog_detected", "histogram"}
      ensures Analysed? ==> o["fog_detected"] == Bool(fogDetected) && o["histogram"] == Numbers(histogram)
    {
      match this
      case Failed(e) => map["error" := Str(e), "histogram" := Null]
      case Analysed(lap, std, fog, hist) =>
        map["laplacian_variance" := Number(lap), "histogram_std_dev" := Number(std),
            "fog_detected" := Bool(fog), "histogram" := Numbers(hist)]
    }
  }

  /**
   The helper: a grey-scale decode that yields nothing or raises gives an
   error dictionary; otherwise the metrics, the OR-rule fog flag and the
   histogram as floats.
   */
  function DetectFogFromImageBytes<Img>(cv: Library<Img>, imageBytes: Bytes, t: Thresholds): (r: HelperReply)
    ensures r.Failed? <==> !cv.decode(imageBytes, Grayscale).Image?
    ensures cv.decode(imageBytes, Grayscale).NoImage? ==> r.error == DecodeFailure
    ensures cv.decode(imageBytes, Grayscale).Raised? ==>
      r.error == ProcessingErrorPrefix + cv.decode(imageBytes, Grayscale).reason
    ensures r.Analysed? ==>
      var m := Measure(cv, cv.decode(imageBytes, Grayscale).img);
      && r.laplacianVariance == m.laplacianVariance && r.histogramStdDev == m.histStdDev
      && (r.fogDetected <==> r.laplacianVariance < t.laplacian || r.histogramStdDev < t.stdDev)
    ensures r.Analysed? ==>
      |r.histogram| == HistogramBins &&
      forall i :: 0 <= i < |r.histogram| ==>
        r.histogram[i] == cv.calcHist(cv.decode(imageBytes, Grayscale).img)[i] as real
  {
    match cv.decode(imageBytes, Grayscale)
    case Raised(e) => Failed(ProcessingErrorPrefix + e)
    case NoImage => Failed(DecodeFailure)
    case Image(img) =>
      var m := Measure(cv, img);
      Analysed(m.laplacianVariance, m.histStdDev, Below(m, t), FloatList(cv.calcHist(img)))
  }

  /** On any failure the dictionary holds only the error and a null histogram. */
  lemma FailureHasNoVerdict<Img>(cv: Library<Img>, imageBytes: Bytes, t: Thresholds)
    requires !cv.decode(imageBytes, Grayscale).Image?
    ensures var o := DetectFogFromImageBytes(cv, imageBytes, t).ToObject();
      && "fog_detected" !in o && "laplacian_variance" !in o
      && o.Keys == {"error", "histogram"} && o["histogram"] == Null
  {
  }
}
