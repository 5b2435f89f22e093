# Fog classification policy of the fog-detection backend

This project models, in Dafny, the decision logic of the fog-detection
backend (`backend/main.py`): how the two image metrics (the variance of the
Laplacian response and the standard deviation of the 256-bin grey-level
histogram) are turned into a fog flag and a three-tier intensity with fixed
advice and message strings, how the detection endpoint falls back from a
colour decode to a grey-scale decode and answers HTTP 400 or 500, and what the
stand-alone helper `detect_fog_from_image_bytes` returns on success and on
failure.

Modules:

- `Vision` (`vision.dfy`): the OpenCV/NumPy routines as opaque function
  values over an abstract image type (`Library<Img>`): decode with a
  colour or grey-scale flag (returning an image, no image, or a raised
  error), colour-to-grey conversion, Laplacian variance, the 256-bin
  histogram and its standard deviation. `Measure` is the analysis step;
  `FloatList` is the comprehension that turns histogram bins into floats.
- `FogPolicy` (`policy.dfy`): thresholds, the heavy cut-offs `L/2.5` and
  `S/2.0`, the OR rule `Below`, the tier chain `Tier`, advice and message
  strings, and the lemmas about them.
- `Json` (`json.dfy`): JSON values and objects, so the key sets of the
  returned dictionaries can be stated.
- `ImageHelper` (`helper.dfy`): `detect_fog_from_image_bytes` as a function.
- `Endpoint` (`endpoint.dfy`): `detect_fog_endpoint` as an imperative method
  (`DetectFogEndpoint`), its if/elif chain over the four locals as the method
  `AssessIntensity`, and the specification functions they are proved against
  (`DecodeForAnalysis`, `Respond`).

Inputs that are I/O in `backend/main.py` become parameters: the uploaded bytes
(`contents`), the timestamp string (`timestamp`) and the library routines
(`cv`). Metrics and thresholds are exact `real`s: float rounding at the exact
comparison boundaries is abstracted away.

Behaviour of the code worth knowing when reading the model:

- The fog rule combines the two conditions with OR: either metric below its
  threshold means fog.
- The tiers use the fixed heavy cut-offs `L/2.5` and `S/2.0`: either metric
  below its heavy cut-off is Heavy, otherwise either metric below its base
  threshold is Light, otherwise Clear.
- The histogram standard deviation is taken over the 256 bin counts, not over
  the pixel intensities, so a uniform image does not give zero there.
  `UniformFrameIsHeavyFog` therefore relies only on the Laplacian variance
  being zero.
- The histogram is returned as floats, and thresholds are not checked to be
  positive. The lemmas state exactly which properties need non-negative
  thresholds or metrics.
- The endpoint never calls the helper. It hard-codes its query defaults
  250.0 and 40.0 rather than reading the environment-derived
  `DEFAULT_*` constants; both use the same default values.

## Model

| member | source | states |
|---|---|---|
| `FogPolicy.Rank` | backend/main.py:188-206 | The severity order Clear < Light < Heavy: rank 0 exactly for Clear, 2 exactly for Heavy. |
| `FogPolicy.HeavyCutoffs` | backend/main.py:194-195 | For non-negative thresholds the heavy cut-offs lie between 0 and the base thresholds; for a negative threshold the heavy cut-off lies strictly between it and 0. |
| `FogPolicy.TierCharacterised` | backend/main.py:188-206 | The tiers are exclusive and exhaustive: Heavy iff some metric is below its heavy cut-off, Light iff none is but some metric is below its base threshold, Clear iff neither holds. |
| `FogPolicy.StringsIdentifyTier` | backend/main.py:189-206 | Different tiers have different advice, different messages and different names, so each of these strings names its tier. |
| `FogPolicy.Classify` | backend/main.py:188-206 | With non-negative thresholds, or with non-negative metrics, the verdict's fog flag equals the helper's OR rule; with non-negative thresholds a Heavy verdict also undercuts the base thresholds. |
| `FogPolicy.AdviceDependsOnlyOnTier` | backend/main.py:189-206 | Two classifications with the same tier have the same fog flag, advice and message, whatever the metrics and thresholds. |
| `FogPolicy.HeavyImpliesBelow` | backend/main.py:194-202 | With non-negative thresholds, undercutting a heavy cut-off implies undercutting the base threshold. |
| `FogPolicy.FogFlagMatchesOrRule` | backend/main.py:130-133 | With non-negative thresholds the endpoint's fog flag (tier not Clear) equals the helper's OR rule. |
| `FogPolicy.FogFlagMatchesOrRuleForRealMetrics` | backend/main.py:130-133 | With non-negative metrics the same equality holds for any thresholds. |
| `FogPolicy.OrRuleDisagreesForNegativeInputs` | backend/main.py:194-206 | A negative metric with a negative threshold gives Heavy while the OR rule says no fog, so the hypotheses above are needed. |
| `FogPolicy.TierMonotoneInThresholds` | backend/main.py:194-206 | Raising either threshold never lowers the tier's rank; lowering either never raises it. |
| `FogPolicy.TierAntitoneInMetrics` | backend/main.py:197-206 | Lowering either metric never lowers the tier's rank. |
| `FogPolicy.DefaultHeavyCutoffs` | backend/main.py:159-160 | The default thresholds 250 and 40 give heavy cut-offs 100 and 20. |
| `FogPolicy.FlatImageIsHeavy` | backend/main.py:197-201 | A zero Laplacian variance is Heavy fog for every positive Laplacian threshold. |
| `Vision.Measure` | backend/main.py:183-185 | The analysis step yields a non-negative Laplacian variance and a non-negative histogram standard deviation. |
| `Vision.FloatList` | backend/main.py:221 | The float list has the histogram's length and, at every index, the value of the bin there. |
| `ImageHelper.HelperReply.ToObject` | backend/main.py:106-109 | The failure dictionary has exactly the keys `error` and `histogram`, with a null histogram; the success dictionary has exactly the four result keys. |
| `ImageHelper.DetectFogFromImageBytes` | backend/main.py:102-148 | The helper fails iff the grey-scale decode gives no image, with "Failed to decode image" when it gives None and "Error processing image: " plus the error text when it raises. On success it carries the measured metrics, fog flag = either metric below its threshold, and the 256 bins as floats. |
| `ImageHelper.FailureHasNoVerdict` | backend/main.py:106-109 | A failed helper call returns only `error` and a null `histogram`, with no `fog_detected` or metric key. |
| `Endpoint.DetectionResponse.ToObject` | backend/main.py:211-222 | The success body has exactly the ten response keys; `intensity` is the tier's name and `histogram` is the float list. |
| `Endpoint.Reply.ToObject` | backend/main.py:238-243 | An HTTP error body carries only its detail. |
| `Endpoint.DecodeForAnalysis` | backend/main.py:171-179 | The analysed image is the colour decode converted to grey when that decode succeeds, otherwise the grey-scale decode. It is missing iff both decodes give no image, and a raise from the colour decode is final. |
| `Endpoint.Respond` | backend/main.py:188-222 | The response echoes both thresholds and both metrics unchanged. Its intensity is the tier and fog is detected iff that tier is not Clear. Advice and message are the tier's strings, the timestamp is the given one, and the histogram has 256 entries equal to the bins. |
| `Endpoint.AssessIntensity` | backend/main.py:188-206 | Starting from the Clear defaults and overwriting in the if/elif chain yields exactly the tier, fog flag = tier not Clear, and that tier's advice and message; the four locals together equal the policy's verdict `Classify` for the same metrics and thresholds. |
| `Endpoint.DetectFogEndpoint` | backend/main.py:171-243 | Status 400 with "Could not decode image file." iff both decodes give no image. Status 500 with "Internal server error: " plus the error text iff the colour decode raises, or it gives no image and the grey-scale decode raises. Otherwise the response for the measured grey image, echoing the thresholds and carrying 256 histogram entries. |
| `Endpoint.ErrorBodyHasNoResult` | backend/main.py:172-177 | An error body has no fog flag, no histogram and no metric. |
| `Endpoint.HelperAgreesWithEndpoint` | backend/main.py:130-133 | When the colour decode gives no image, the helper and the endpoint succeed on exactly the same uploads. They then report the same metrics, the same histogram and the same fog flag for any thresholds. |
| `Endpoint.UniformFrameIsHeavyFog` | backend/main.py:197-201 | An image with zero Laplacian variance is answered as Heavy fog, with fog detected and the heavy message, for every positive Laplacian threshold. |

## Left out

- The OpenCV and NumPy numerics (`cv2.imdecode`, `cv2.cvtColor`, `cv2.Laplacian(...).var()`, `cv2.calcHist`, `cv2.meanStdDev`, `np.std`). They are foreign library calls with floating-point and border handling that is not visible here, so they are opaque function values. The model fixes only their output shapes: 256 bins and non-negative metrics. The helper uses `cv2.meanStdDev` and the endpoint uses `np.std`; both are the population standard deviation of the bins, so one function stands for both.
- Raising from anything other than decoding (upload reading, `cvtColor`, the metric routines): these calls are taken never to raise. Only a raising decode reaches the generic exception branches.
- Floating-point rounding of the metrics, thresholds, `/2.5` and `/2.0`, and float32 histogram counts: all are exact reals, with no NaN or infinity.
- The FastAPI application, CORS middleware, the `/health` endpoint, logging, the pydantic response model (never used as `response_model`), and how FastAPI applies query defaults and serialises an `HTTPException` (modelled as a body holding only `detail`).
- The timestamp (`datetime.now`): an input string.
- The MongoDB connection and the `log_to_db` parameter: connection setup is I/O, and the database logging is commented out.
- Loading thresholds from environment variables: only the defaults 250.0 and 40.0 are modelled.
- `fog_detection_streamlit.py`: a webcam capture loop with a Streamlit UI. Its one decision (Laplacian variance below a slider threshold) is the single-metric base comparison already covered by `FogPolicy.Below`. `fog_detection_streamlit.py` has no request scheduler or in-flight guard.
