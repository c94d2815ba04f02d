/**
 * Homepage slides and the slider settings (internal/models/slider.go).
 */
module SliderModel {
  import opened Wrappers
  import opened Times
  import opened ObjectIds
  import opened Validation
  import ProductModel

  /** A stored slide: an image and its display position. */
  datatype Slider = Slider(
    id: ObjectId,
    imageUrl: string,
    order: int,
    createdBy: ObjectId,
    createdAt: Instant,
    updatedAt: Instant)

  /** What the database keeps of a slide written from memory: its times to the millisecond. */
  function StoredSlider(s: Slider): Slider {
    s.(createdAt := BsonTime(s.createdAt), updatedAt := BsonTime(s.updatedAt))
  }

  /** `SliderResponse`. */
  datatype SliderResponse = SliderResponse(
    id: string,
    imageUrl: string,
    order: int,
    createdAt: Instant,
    updatedAt: Instant)

  /** The stored settings document. */
  datatype SliderSettings = SliderSettings(
    id: ObjectId,
    slideDuration: int,
    autoPlay: bool,
    showIndicators: bool,
    showControls: bool,
    updatedAt: Instant)

  /** What the database keeps of settings written from memory: `updated_at` to the millisecond. */
  function StoredSettings(s: SliderSettings): SliderSettings {
    s.(updatedAt := BsonTime(s.updatedAt))
  }

  /** `UpdateSliderSettingsRequest`: every field optional. */
  datatype UpdateSliderSettingsRequest = UpdateSliderSettingsRequest(
    slideDuration: Option<int>,
    autoPlay: Option<bool>,
    showIndicators: Option<bool>,
    showControls: Option<bool>)

  /** `SliderSettingsResponse`. */
  datatype SliderSettingsResponse = SliderSettingsResponse(
    slideDuration: int,
    autoPlay: bool,
    showIndicators: bool,
    showControls: bool,
    updatedAt: Instant)

  /** `PublicSliderResponse`. */
  datatype PublicSliderResponse = PublicSliderResponse(
    slides: seq<SliderResponse>,
    settings: SliderSettingsResponse,
    totalSlides: int)

  /** `Slider.ToResponse`: every field but the creator, the ID as hexadecimal text. */
  function ToResponse(s: Slider): SliderResponse {
    SliderResponse(Hex(s.id), s.imageUrl, s.order, s.createdAt, s.updatedAt)
  }

  /** `Slider.ToResponseWithBaseURL`: the same, with the image URL made absolute. */
  function ToResponseWithBaseUrl(s: Slider, baseUrl: string): SliderResponse {
    SliderResponse(Hex(s.id), ProductModel.ResolveImageUrl(baseUrl, s.imageUrl), s.order, s.createdAt, s.updatedAt)
  }

  /** With no base URL, the two conversions agree. */
  lemma WithEmptyBaseIsToResponse(s: Slider)
    ensures ToResponseWithBaseUrl(s, "") == ToResponse(s)
  {
  }

  /**
   * The conversion rewrites only the image URL: order, timestamps and the ID
   * come through unchanged, and a relative path gets exactly one '/' after
   * the base URL.
   */
  lemma ConversionKeepsFields(s: Slider, baseUrl: string)
    ensures var r := ToResponseWithBaseUrl(s, baseUrl);
      r.order == s.order && r.createdAt == s.createdAt && r.updatedAt == s.updatedAt &&
      FromHex(r.id) == Some(s.id) &&
      (baseUrl != "" && s.imageUrl != "" && !ProductModel.IsAbsoluteUrl(s.imageUrl) ==>
         r.imageUrl == baseUrl + "/" + ProductModel.WithoutLeadingSlash(s.imageUrl)) &&
      (baseUrl == "" || s.imageUrl == "" || ProductModel.IsAbsoluteUrl(s.imageUrl) ==>
         r.imageUrl == s.imageUrl)
  {
    FromHexOfHex(s.id);
  }

  const MinSlideDuration: int := 1
  const MaxSlideDuration: int := 30

  /**
   * `validator.Struct` on an `UpdateSliderSettingsRequest`: a supplied slide
   * duration is checked against `min=1,max=30`; the other fields carry no tags.
   */
  function SettingsViolations(req: UpdateSliderSettingsRequest): seq<FieldError> {
    if req.slideDuration.None? then []
    else Check("UpdateSliderSettingsRequest", "SlideDuration",
               IntTagFailure(req.slideDuration.value, MinSlideDuration, MaxSlideDuration))
  }

  /** A settings request validates exactly when any supplied duration lies in 1..30. */
  lemma SettingsViolationsEmpty(req: UpdateSliderSettingsRequest)
    ensures SettingsViolations(req) == [] <==>
      (req.slideDuration.Some? ==> 1 <= req.slideDuration.value <= 30)
  {
  }

  /** `SliderSettingsResponse` built from the stored settings, field by field. */
  function SettingsResponse(s: SliderSettings): SliderSettingsResponse {
    SliderSettingsResponse(s.slideDuration, s.autoPlay, s.showIndicators, s.showControls, s.updatedAt)
  }
}
