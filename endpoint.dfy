/**
 The detection endpoint: decode the upload (colour first, grey scale as the
 fallback), measure the grey-scale image, pick a tier by the heavy and base
 cut-offs, and answer with the verdict, the metrics, the thresholds used and
 the histogram. Reading the upload and the clock are inputs here.
 */
module Endpoint {

  import opened Vision
  import opened FogPolicy
  import opened Json
  import ImageHelper

  const UndecodableDetail: string := "Could not decode image file."
  const InternalErrorPrefix: string := "Internal server error: "

  /** The success body of the endpoint. */
  datatype DetectionResponse = DetectionResponse(
    laplacianVariance: real,
    histogramStdDev: real,
    fogDetected: bool,
    intensity: Intensity,
    advice: string,
    message: string,
    timestamp: string,
    laplacianThresholdUsed: real,
    stdDevThresholdUsed: real,
    histogram: seq<real>)
  {
    /** The body as a JSON object. */
    function ToObject(): (o: Object)
      ensures o.Keys == {"laplacian_variance", "histogram_std_dev", "fog_detected", "intensity",
                         "advice", "message", "timestamp", "laplacian_threshold_used",
                         "std_dev_threshold_used", "histogram"}
      ensures o["intensity"] == Str(intensity.Name()) && o["histogram"] == Numbers(histogram)
    {
      map["laplacian_variance" := Number(laplacianVariance),
          "histogram_std_dev" := Number(histogramStdDev),
          "fog_detected" := Bool(fogDetected),
          "intensity" := Str(intensity.Name()),
          "advice" := Str(advice),
          "message" := Str(message),
          "timestamp" := Str(timestamp),
          "laplacian_threshold_used" := Number(laplacianThresholdUsed),
          "std_dev_threshold_used" := Number(stdDevThresholdUsed),
          "histogram" := Numbers(histogram)]
    }
  }

  /** What the client receives: a response body or an HTTP error. */
  datatype Reply = Ok(response: DetectionResponse) | HttpError(status: int, detail: string)
  {
    /** The body sent back; an HTTP error carries only its detail. */
    function ToObject(): (o: Object)
      ensures HttpError? ==> o.Keys == {"detail"} && o["detail"] == Str(detail)
      ensures Ok? ==> o == response.ToObject()
    {
      match this
      case Ok(r) => r.ToObject()
      case HttpError(_, d) => map["detail" := Str(d)]
    }
  }

  /**
   The grey-scale image the endpoint analyses: the colour decode converted to
   grey, or failing that the grey-scale decode. A raise from either decode
   ends the attempt.
   */
  function DecodeForAnalysis<Img>(cv: Library<Img>, contents: Bytes): (d: Decoded<Img>)
    ensures d.NoImage? <==>
      cv.decode(contents, Colour).NoImage? && cv.decode(contents, Grayscale).NoImage?
    ensures cv.decode(contents, Colour).Image? ==>
      d == Image(cv.toGray(cv.decode(contents, Colour).img))
    ensures cv.decode(contents, Colour).Raised? ==> d == cv.decode(contents, Colour)
    ensures cv.decode(contents, Colour).NoImage? ==> d == cv.decode(contents, Grayscale)
  {
    match cv.decode(contents, Colour)
    case Image(c) => Image(cv.toGray(c))
    case Raised(e) => Raised(e)
    case NoImage => cv.decode(contents, Grayscale)
  }

  /** The success body for one measured image. */
  function Respond(m: Metrics, t: Thresholds, hist: Histogram, timestamp: string): (r: DetectionResponse)
    ensures r.laplacianThresholdUsed == t.laplacian && r.stdDevThresholdUsed == t.stdDev
    ensures r.laplacianVariance == m.laplacianVariance && r.histogramStdDev == m.histStdDev
    ensures r.intensity == Tier(m, t) && (r.fogDetected <==> r.intensity != Clear)
    ensures r.advice == AdviceFor(r.intensity) && r.message == MessageFor(r.intensity)
    ensures |r.histogram| == HistogramBins
    ensures forall i :: 0 <= i < HistogramBins ==> r.histogram[i] == hist[i] as real
    ensures r.timestamp == timestamp
  {
    var v := Classify(m, t);
    DetectionResponse(m.laplacianVariance, m.histStdDev, v.fogDetected, v.intensity, v.advice,
                      v.message, timestamp, t.laplacian, t.stdDev, FloatList(hist))
  }

  /**
   The if/elif chain of the endpoint: start from the Clear defaults, overwrite
   with Heavy when either metric undercuts its heavy cut-off, else with Light
   when either undercuts its base threshold.
   */
  method AssessIntensity(laplacianVar: real, histStdDev: real, laplacianThreshold: real, stdDevThreshold: real)
    returns (isFoggy: bool, intensity: Intensity, advice: string, message: string)
    ensures intensity == Tier(Metrics(laplacianVar, histStdDev), Thresholds(laplacianThreshold, stdDevThreshold))
    ensures isFoggy <==> intensity != Clear
    ensures advice == AdviceFor(intensity) && message == MessageFor(intensity)
    ensures Verdict(isFoggy, intensity, advice, message)
         == Classify(Metrics(laplacianVar, histStdDev), Thresholds(laplacianThreshold, stdDevThreshold))
  {
    isFoggy := false;
    intensity := Clear;
    advice := ClearAdvice;
    message := ClearMessage;

    var heavyLapThreshold := laplacianThreshold / 2.5;
    var heavyStdDevThreshold := stdDevThreshold / 2.0;

    if laplacianVar < heavyLapThreshold || histStdDev < heavyStdDevThreshold {
      isFoggy := true;
      intensity := Heavy;
      advice := HeavyAdvice;
      message := HeavyMessage;
    } else if laplacianVar < laplacianThreshold || histStdDev < stdDevThreshold {
      isFoggy := true;
      intensity := Light;
      advice := LightAdvice;
      message := LightMessage;
    }
  }

  /**
   The endpoint. It answers 400 exactly when neither decode yields an image,
   500 when a decode raises, and otherwise the response for the measured
   grey-scale image, echoing the thresholds it was given.
   */
  method DetectFogEndpoint<Img>(cv: Library<Img>, contents: Bytes, laplacianThreshold: real,
                                stdDevThreshold: real, timestamp: string)
    returns (reply: Reply)
    ensures (reply.HttpError? && reply.status == 400) <==>
      cv.decode(contents, Colour).NoImage? && cv.decode(contents, Grayscale).NoImage?
    ensures reply.HttpError? && reply.status == 400 ==> reply.detail == UndecodableDetail
    ensures (reply.HttpError? && reply.status == 500) <==> DecodeForAnalysis(cv, contents).Raised?
    ensures reply.HttpError? && reply.status == 500 ==>
      reply.detail == InternalErrorPrefix + DecodeForAnalysis(cv, contents).reason
    ensures reply.Ok? <==> DecodeForAnalysis(cv, contents).Image?
    ensures reply.Ok? ==>
      var img := DecodeForAnalysis(cv, contents).img;
      reply.response == Respond(Measure(cv, img), Thresholds(laplacianThreshold, stdDevThreshold),
                                cv.calcHist(img), timestamp)
    ensures reply.Ok? ==>
      && reply.response.laplacianThresholdUsed == laplacianThreshold
      && reply.response.stdDevThresholdUsed == stdDevThreshold
      && |reply.response.histogram| == HistogramBins
  {
    var img: Img;
    match cv.decode(contents, Colour) {
      case Raised(e) =>
        return HttpError(500, InternalErrorPrefix + e);
      case NoImage =>
        match cv.decode(contents, Grayscale) {
          case Raised(e) =>
            return HttpError(500, InternalErrorPrefix + e);
          case NoImage =>
            return HttpError(400, UndecodableDetail);
          case Image(g) =>
            img := g;
        }
      case Image(c) =>
        img := cv.toGray(c);
    }

    var laplacianVar := cv.laplacianVariance(img);
    var hist := cv.calcHist(img);
    var histStdDev := cv.histStdDev(hist);

    var isFoggy, intensity, advice, message :=
      AssessIntensity(laplacianVar, histStdDev, laplacianThreshold, stdDevThreshold);

    reply := Ok(DetectionResponse(laplacianVar, histStdDev, isFoggy, intensity, advice, message,
                                  timestamp, laplacianThreshold, stdDevThreshold, FloatList(hist)));
  }

  /** An HTTP error body carries no verdict, no metrics and no histogram. */
  lemma ErrorBodyHasNoResult(reply: Reply)
    requires reply.HttpError?
    ensures var o := reply.ToObject();
      "fog_detected" !in o && "histogram" !in o && "laplacian_variance" !in o
  {
  }

  /**
   Where both routes analyse the same grey-scale decode (the colour decode
   yields nothing), the endpoint answers exactly when the helper does, with
   the same metrics, the same histogram and the same fog flag, whatever the
   thresholds.
   */
  lemma HelperAgreesWithEndpoint<Img>(cv: Library<Img>, contents: Bytes, t: Thresholds, timestamp: string)
    requires cv.decode(contents, Colour).NoImage?
    ensures var h := ImageHelper.DetectFogFromImageBytes(cv, contents, t);
      DecodeForAnalysis(cv, contents).Image? <==> h.Analysed?
    ensures var h := ImageHelper.DetectFogFromImageBytes(cv, contents, t);
      h.Analysed? ==>
        var img := DecodeForAnalysis(cv, contents).img;
        var r := Respond(Measure(cv, img), t, cv.calcHist(img), timestamp);
        && r.fogDetected == h.fogDetected
        && r.laplacianVariance == h.laplacianVariance && r.histogramStdDev == h.histogramStdDev
        && r.histogram == h.histogram
  {
  }

  /**
   A decoded image without any Laplacian response (a uniform frame) is
   answered as heavy fog for every positive Laplacian threshold.
   */
  lemma UniformFrameIsHeavyFog<Img>(cv: Library<Img>, img: Img, t: Thresholds, timestamp: string)
    requires cv.laplacianVariance(img) == 0.0 && t.laplacian > 0.0
    ensures var r := Respond(Measure(cv, img), t, cv.calcHist(img), timestamp);
      r.fogDetected && r.intensity == Heavy && r.message == HeavyMessage
  {
  }
}
