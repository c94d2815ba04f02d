/**
 * The slider endpoints (internal/handlers/slider.go) over an in-memory
 * `slider` collection and the single document of `slider_settings`.
 */
module SliderHandlers {
  import opened Wrappers
  import opened Text
  import opened Times
  import opened Strconv
  import opened ObjectIds
  import opened Bson
  import opened Validation
  import opened Collections
  import opened Http
  import opened SliderModel
  import opened ProductHandlers

  // ---------------------------------------------------------------------
  // New slides
  // ---------------------------------------------------------------------

  /** A path under which uploaded slides are stored. */
  predicate IsSlidePath(url: string) {
    HasPrefix(url, "/uploads/slider/slider_")
  }

  /** The stored path of an uploaded slide: "/uploads/slider/slider_<unix seconds><extension>". */
  function SliderImageUrl(now: Instant, filename: string): string {
    "/uploads/slider/slider_" + FormatInt(UnixSeconds(now)) + Ext(filename)
  }

  /**
   * The stored path lies under "/uploads/slider/", carries the upload
   * second, and keeps the uploaded file's extension.
   */
  lemma SliderImageUrlShape(now: Instant, filename: string)
    requires IsValidImageType(filename)
    ensures var url := SliderImageUrl(now, filename);
      HasPrefix(url, "/uploads/slider/slider_") && Ext(url) == Ext(filename) && IsValidImageType(url)
  {
    var url := SliderImageUrl(now, filename);
    var e := Ext(filename);
    var stem := "/uploads/slider/slider_" + FormatInt(UnixSeconds(now));
    assert url == stem + e;
    ValidImageHasExtension(filename);
    ExtOfSuffix(stem, e);
    SliderImageUrlIsSlidePath(now, filename);
  }

  /** Whatever the file name, the stored path is a slide path. */
  lemma SliderImageUrlIsSlidePath(now: Instant, filename: string)
    ensures IsSlidePath(SliderImageUrl(now, filename))
  {
    var url := SliderImageUrl(now, filename);
    var rest := FormatInt(UnixSeconds(now)) + Ext(filename);
    assert url == "/uploads/slider/slider_" + rest;
    assert url[..|"/uploads/slider/slider_"|] == "/uploads/slider/slider_";
  }

  /** The position a new slide gets: the number of stored slides, or 0 when counting fails. */
  function NextOrder(slides: seq<Slider>, countOk: bool): (order: nat)
    ensures countOk ==> order == |slides|
    ensures !countOk ==> order == 0
  {
    if countOk then |slides| else 0
  }

  /** With counting working, each upload into a store gets a position one past the previous upload's. */
  lemma ConsecutiveUploadsGetConsecutiveOrders(slides: seq<Slider>, s: Slider)
    ensures NextOrder(slides + [s], true) == NextOrder(slides, true) + 1
  {
  }

  // ---------------------------------------------------------------------
  // Settings
  // ---------------------------------------------------------------------

  /** The settings used when none are stored: 5 seconds, everything switched on. */
  function DefaultSettings(id: ObjectId, now: Instant): (s: SliderSettings)
    ensures s.slideDuration == 5 && s.autoPlay && s.showIndicators && s.showControls
    ensures s.id == id && s.updatedAt == now
  {
    SliderSettings(id, 5, true, true, true, now)
  }

  /** What an upserted settings document holds in the fields its `$set` does not name. */
  function ZeroSettings(id: ObjectId): SliderSettings {
    SliderSettings(id, 0, false, false, false, 0)
  }

  /** The fields a settings `$set` may name. */
  const SettingsKeys: set<string> := {"updated_at", "slide_duration", "auto_play", "show_indicators", "show_controls"}

  /** A settings `$set` that sets `updated_at` to `now` (as a BSON datetime) and exactly the supplied fields, to their values. */
  predicate SetsSuppliedSettings(doc: Document, req: UpdateSliderSettingsRequest, now: Instant) {
    doc.Keys <= SettingsKeys
    && "updated_at" in doc && doc["updated_at"] == Date(BsonTime(now))
    && ("slide_duration" in doc <==> req.slideDuration.Some?)
    && (req.slideDuration.Some? ==> doc["slide_duration"] == Int(req.slideDuration.value))
    && ("auto_play" in doc <==> req.autoPlay.Some?)
    && (req.autoPlay.Some? ==> doc["auto_play"] == Bool(req.autoPlay.value))
    && ("show_indicators" in doc <==> req.showIndicators.Some?)
    && (req.showIndicators.Some? ==> doc["show_indicators"] == Bool(req.showIndicators.value))
    && ("show_controls" in doc <==> req.showControls.Some?)
    && (req.showControls.Some? ==> doc["show_controls"] == Bool(req.showControls.value))
  }

  /** The `$set` of `UpdateSliderSettings`, built field by field. */
  method BuildSettingsUpdate(req: UpdateSliderSettingsRequest, now: Instant) returns (doc: Document)
    ensures SetsSuppliedSettings(doc, req, now)
  {
    doc := map["updated_at" := Date(BsonTime(now))];
    if req.slideDuration.Some? {
      doc := doc["slide_duration" := Int(req.slideDuration.value)];
    }
    if req.autoPlay.Some? {
      doc := doc["auto_play" := Bool(req.autoPlay.value)];
    }
    assert doc.Keys <= SettingsKeys;
    if req.showIndicators.Some? {
      doc := doc["show_indicators" := Bool(req.showIndicators.value)];
    }
    if req.showControls.Some? {
      doc := doc["show_controls" := Bool(req.showControls.value)];
    }
    assert doc.Keys <= SettingsKeys;
  }

  /** A `$set` applied to the settings document: each field it names takes its value. */
  function ApplySettingsSet(s: SliderSettings, doc: Document): SliderSettings {
    s.(slideDuration := if "slide_duration" in doc && doc["slide_duration"].Int? then doc["slide_duration"].i else s.slideDuration,
       autoPlay := if "auto_play" in doc && doc["auto_play"].Bool? then doc["auto_play"].b else s.autoPlay,
       showIndicators := if "show_indicators" in doc && doc["show_indicators"].Bool? then doc["show_indicators"].b else s.showIndicators,
       showControls := if "show_controls" in doc && doc["show_controls"].Bool? then doc["show_controls"].b else s.showControls,
       updatedAt := if "updated_at" in doc && doc["updated_at"].Date? then doc["updated_at"].t else s.updatedAt)
  }

  /** Settings after an update request: supplied fields replaced, `updated_at` set to `now` to the millisecond. */
  function SettingsUpdated(s: SliderSettings, req: UpdateSliderSettingsRequest, now: Instant): SliderSettings {
    s.(slideDuration := req.slideDuration.GetOr(s.slideDuration),
       autoPlay := req.autoPlay.GetOr(s.autoPlay),
       showIndicators := req.showIndicators.GetOr(s.showIndicators),
       showControls := req.showControls.GetOr(s.showControls),
       updatedAt := BsonTime(now))
  }

  /** The settings update document changes exactly the supplied fields and `updated_at`. */
  lemma SettingsUpdateChangesOnlySupplied(s: SliderSettings, doc: Document, req: UpdateSliderSettingsRequest, now: Instant)
    requires SetsSuppliedSettings(doc, req, now)
    ensures ApplySettingsSet(s, doc) == SettingsUpdated(s, req, now)
  {
  }

  /** Stored settings whose slide duration is one the validator accepts (or no settings at all). */
  predicate DurationInRange(settings: Option<SliderSettings>) {
    settings.Some? ==> MinSlideDuration <= settings.value.slideDuration <= MaxSlideDuration
  }

  /**
   * A validated update keeps the duration in range when settings already
   * exist or the request supplies a duration.
   */
  lemma UpdateKeepsDurationInRange(s: SliderSettings, req: UpdateSliderSettingsRequest, now: Instant)
    requires SettingsViolations(req) == []
    requires MinSlideDuration <= s.slideDuration <= MaxSlideDuration || req.slideDuration.Some?
    ensures DurationInRange(Some(SettingsUpdated(s, req, now)))
  {
    SettingsViolationsEmpty(req);
  }

  /**
   * The upsert on an empty collection starts from zero values, not from the
   * defaults: a request that only switches auto-play off stores a zero
   * duration and switches indicators and controls off too.
   */
  lemma UpsertWithoutDurationStoresZero(id: ObjectId, now: Instant)
    ensures var req := UpdateSliderSettingsRequest(None, Some(false), None, None);
      SettingsViolations(req) == [] &&
      var s := SettingsUpdated(ZeroSettings(id), req, now);
      s.slideDuration == 0 && !s.showIndicators && !s.showControls && !DurationInRange(Some(s))
  {
  }

  // ---------------------------------------------------------------------
  // Responses
  // ---------------------------------------------------------------------

  /**
   * The response loops of `GetSliders` and `GetAllSliders`: the same loop as
   * ProductHandlers.ToResponses, over slides.
   */
  method ToSliderResponses(slides: seq<Slider>, baseUrl: string) returns (rs: seq<SliderResponse>)
    ensures |rs| == |slides|
    ensures forall k :: 0 <= k < |slides| ==> rs[k] == ToResponseWithBaseUrl(slides[k], baseUrl)
  {
    rs := [];
    var i := 0;
    while i < |slides|
      invariant 0 <= i <= |slides|
      invariant |rs| == i
      invariant forall k :: 0 <= k < i ==> rs[k] == ToResponseWithBaseUrl(slides[k], baseUrl)
    {
      rs := rs + [ToResponseWithBaseUrl(slides[i], baseUrl)];
      i := i + 1;
    }
  }

  /** The slides in display order: ascending `order`, ties in collection order. */
  function InDisplayOrder(slides: seq<Slider>): (r: seq<Slider>)
    ensures |r| == |slides| && multiset(r) == multiset(slides)
    ensures forall i, j :: 0 <= i < j < |r| ==> r[i].order <= r[j].order
  {
    SortByLength(slides, (s: Slider) => s.order);
    SortBy(slides, (s: Slider) => s.order)
  }

  /** Slides sharing a position are shown in the collection's order. */
  lemma DisplayOrderKeepsTies(slides: seq<Slider>, order: int)
    ensures Filter(InDisplayOrder(slides), (s: Slider) => s.order == order) == Filter(slides, (s: Slider) => s.order == order)
  {
    SortByStable(slides, (s: Slider) => s.order, (s: Slider) => s.order == order);
  }

  /** The JSON bodies of successful slider replies. */
  datatype SliderBody =
    | SlideUploaded(message: string, slider: SliderResponse)
    | PublicSlides(response: PublicSliderResponse)
    | SlideList(sliders: seq<SliderResponse>, totalSlides: int)
    | SlideDeleted(message: string)
    | Settings(settings: SliderSettingsResponse)
    | SettingsSaved(message: string, settings: SliderSettingsResponse)

  /** The positions holding a slide with this ID. */
  function IndexOfSlide(slides: seq<Slider>, id: ObjectId): Option<nat> {
    FirstIndex(slides, (s: Slider) => s.id == id)
  }

  /**
   * What the handlers keep true of the slides: IDs are unique (the
   * database's `_id` index) and every image URL is an uploaded slide.
   */
  ghost predicate ValidSlides(slides: seq<Slider>) {
    (forall i, j :: 0 <= i < j < |slides| ==> slides[i].id != slides[j].id)
    && (forall i :: 0 <= i < |slides| ==> IsSlidePath(slides[i].imageUrl))
  }

  /** Appending a slide with a fresh ID and an uploaded-slide path keeps the slides valid. */
  lemma AppendKeepsValid(slides: seq<Slider>, s: Slider)
    requires ValidSlides(slides) && IndexOfSlide(slides, s.id).None?
    requires IsSlidePath(s.imageUrl)
    ensures ValidSlides(slides + [s])
  {
  }

  /** The slides and the slider settings. */
  class SliderStore {
    var slides: seq<Slider>
    var settings: Option<SliderSettings>

    /** The collection invariant, on the current contents. */
    ghost predicate Valid()
      reads this
    {
      ValidSlides(slides)
    }

    constructor()
      ensures slides == [] && settings == None && Valid()
    {
      slides := [];
      settings := None;
    }

    /**
     * `UploadSliderImage`: admin gate, then the three upload checks; the new
     * slide takes the next position and a path named after the upload
     * second, and is stored with its times to the millisecond (the reply
     * shows it as built). A context without `user_id` makes the handler
     * panic; one whose ID is not hexadecimal gets 400.
     */
    method UploadSliderImage(ctx: Context, upload: Option<Upload>, now: Instant, countOk: bool,
                             newId: ObjectId, request: RequestInfo) returns (reply: Reply<SliderBody>)
      modifies this
      ensures settings == old(settings)
      ensures old(Valid()) ==> Valid()
      ensures !IsAdmin(ctx) ==> reply == AdminRequired()
      ensures IsAdmin(ctx) ==>
        if UploadError(upload).Some? then reply == Fail(StatusBadRequest, UploadError(upload).value)
        else if ctx.userId.None? then reply == Panic
        else if FromHex(ctx.userId.value).None? then reply == Fail(StatusBadRequest, "Invalid user ID")
        else if IndexOfSlide(old(slides), newId).Some? then
          reply == Fail(StatusInternalServerError, "Failed to save slider to database")
        else
          var s := Slider(newId, SliderImageUrl(now, upload.value.filename), NextOrder(old(slides), countOk),
                          FromHex(ctx.userId.value).value, now, now);
          slides == old(slides) + [StoredSlider(s)] &&
          reply == Ok(StatusOK, SlideUploaded("Image uploaded successfully", ToResponseWithBaseUrl(s, BaseUrl(request))))
      ensures !reply.Ok? ==> slides == old(slides)
    {
      if !IsAdmin(ctx) {
        return AdminRequired();
      }
      var err := UploadError(upload);
      if err.Some? {
        return Fail(StatusBadRequest, err.value);
      }
      var imageUrl := SliderImageUrl(now, upload.value.filename);
      SliderImageUrlIsSlidePath(now, upload.value.filename);
      var count := if countOk then |slides| else 0;
      if ctx.userId.None? {
        return Panic;
      }
      var adminId := FromHex(ctx.userId.value);
      if adminId.None? {
        return Fail(StatusBadRequest, "Invalid user ID");
      }
      var slide := Slider(newId, imageUrl, count, adminId.value, now, now);
      if IndexOfSlide(slides, newId).Some? {
        return Fail(StatusInternalServerError, "Failed to save slider to database");
      }
      if old(Valid()) {
        AppendKeepsValid(slides, StoredSlider(slide));
      }
      slides := slides + [StoredSlider(slide)];
      reply := Ok(StatusOK, SlideUploaded("Image uploaded successfully", ToResponseWithBaseUrl(slide, BaseUrl(request))));
    }

    /**
     * `GetSliders`: every slide in display order with the settings, storing
     * the defaults first when there are none (the reply shows them as built,
     * the store keeps their time to the millisecond); the total is the
     * number of slides listed.
     */
    method GetSliders(request: RequestInfo, now: Instant, newSettingsId: ObjectId) returns (reply: Reply<SliderBody>)
      modifies this
      ensures slides == old(slides)
      ensures settings == if old(settings).None? then Some(StoredSettings(DefaultSettings(newSettingsId, now))) else old(settings)
      ensures reply.Ok? && reply.status == StatusOK && reply.body.PublicSlides?
      ensures var r := reply.body.response;
        var shown := InDisplayOrder(slides);
        r.settings == SettingsResponse(if old(settings).None? then DefaultSettings(newSettingsId, now) else old(settings).value) &&
        r.totalSlides == |r.slides| == |slides| &&
        forall k :: 0 <= k < |shown| ==> r.slides[k] == ToResponseWithBaseUrl(shown[k], BaseUrl(request))
    {
      var sorted := InDisplayOrder(slides);
      var current: SliderSettings;
      if settings.None? {
        current := DefaultSettings(newSettingsId, now);
        settings := Some(StoredSettings(current));
      } else {
        current := settings.value;
      }
      var responses := ToSliderResponses(sorted, BaseUrl(request));
      reply := Ok(StatusOK, PublicSlides(PublicSliderResponse(responses, SettingsResponse(current), |responses|)));
    }

    /** `GetAllSliders`: admin gate, then every slide in display order with their number. */
    method GetAllSliders(ctx: Context, request: RequestInfo) returns (reply: Reply<SliderBody>)
      ensures !IsAdmin(ctx) ==> reply == AdminRequired()
      ensures IsAdmin(ctx) ==> reply.Ok? && reply.status == StatusOK && reply.body.SlideList?
      ensures IsAdmin(ctx) ==>
        var shown := InDisplayOrder(slides);
        reply.body.totalSlides == |reply.body.sliders| == |slides| &&
        forall k :: 0 <= k < |shown| ==> reply.body.sliders[k] == ToResponseWithBaseUrl(shown[k], BaseUrl(request))
    {
      if !IsAdmin(ctx) {
        return AdminRequired();
      }
      var sorted := InDisplayOrder(slides);
      var responses := ToSliderResponses(sorted, BaseUrl(request));
      reply := Ok(StatusOK, SlideList(responses, |responses|));
    }

    /** `DeleteSlider`: admin gate, ID check, 404 for an unknown ID, else the slide is removed. */
    method DeleteSlider(ctx: Context, idParam: string) returns (reply: Reply<SliderBody>)
      modifies this
      ensures settings == old(settings)
      ensures old(Valid()) ==> Valid()
      ensures !IsAdmin(ctx) ==> reply == AdminRequired()
      ensures IsAdmin(ctx) ==>
        if FromHex(idParam).None? then reply == Fail(StatusBadRequest, "Invalid slider ID")
        else
          match IndexOfSlide(old(slides), FromHex(idParam).value)
          case None => reply == Fail(StatusNotFound, "Slider not found")
          case Some(i) =>
            slides == old(slides)[..i] + old(slides)[i + 1..] &&
            reply == Ok(StatusOK, SlideDeleted("Slider deleted successfully"))
      ensures !reply.Ok? ==> slides == old(slides)
    {
      if !IsAdmin(ctx) {
        return AdminRequired();
      }
      var id := FromHex(idParam);
      if id.None? {
        return Fail(StatusBadRequest, "Invalid slider ID");
      }
      var i := IndexOfSlide(slides, id.value);
      if i.None? {
        return Fail(StatusNotFound, "Slider not found");
      }
      ghost var before := slides;
      slides := slides[..i.value] + slides[i.value + 1..];
      assert forall k :: 0 <= k < |slides| ==> slides[k] == before[if k < i.value then k else k + 1];
      reply := Ok(StatusOK, SlideDeleted("Slider deleted successfully"));
    }

    /** `GetSliderSettings`: admin gate, then the stored settings, or the defaults (not stored). */
    method GetSliderSettings(ctx: Context, now: Instant) returns (reply: Reply<SliderBody>)
      ensures !IsAdmin(ctx) ==> reply == AdminRequired()
      ensures IsAdmin(ctx) && settings.Some? ==> reply == Ok(StatusOK, Settings(SettingsResponse(settings.value)))
      ensures IsAdmin(ctx) && settings.None? ==>
        reply == Ok(StatusOK, Settings(SliderSettingsResponse(5, true, true, true, now)))
    {
      if !IsAdmin(ctx) {
        return AdminRequired();
      }
      if settings.None? {
        return Ok(StatusOK, Settings(SliderSettingsResponse(5, true, true, true, now)));
      }
      reply := Ok(StatusOK, Settings(SettingsResponse(settings.value)));
    }

    /**
     * `UpdateSliderSettings`: admin gate, payload and validation checks;
     * then an upsert sets the supplied fields and `updated_at`, creating the
     * document (from zero values) when there is none.
     */
    method UpdateSliderSettings(ctx: Context, body: Result<UpdateSliderSettingsRequest, string>, now: Instant,
                                newSettingsId: ObjectId) returns (reply: Reply<SliderBody>)
      modifies this
      ensures slides == old(slides)
      ensures !IsAdmin(ctx) ==> reply == AdminRequired()
      ensures IsAdmin(ctx) ==>
        if body.Failure? then reply == Fail(StatusBadRequest, "Invalid request payload")
        else if SettingsViolations(body.value) != [] then
          reply == Fail(StatusBadRequest, Message(SettingsViolations(body.value)))
        else
          var base := if old(settings).Some? then old(settings).value else ZeroSettings(newSettingsId);
          settings == Some(SettingsUpdated(base, body.value, now)) &&
          reply == Ok(StatusOK, SettingsSaved("Settings updated successfully", SettingsResponse(settings.value)))
      ensures !reply.Ok? ==> settings == old(settings)
      ensures old(DurationInRange(settings)) && (old(settings).Some? || (body.Success? && body.value.slideDuration.Some?))
              ==> DurationInRange(settings)
    {
      if !IsAdmin(ctx) {
        return AdminRequired();
      }
      if body.Failure? {
        return Fail(StatusBadRequest, "Invalid request payload");
      }
      var req := body.value;
      var violations := SettingsViolations(req);
      if violations != [] {
        return Fail(StatusBadRequest, Message(violations));
      }
      var doc := BuildSettingsUpdate(req, now);
      var base := if settings.Some? then settings.value else ZeroSettings(newSettingsId);
      SettingsUpdateChangesOnlySupplied(base, doc, req, now);
      if old(DurationInRange(settings)) && (settings.Some? || req.slideDuration.Some?) {
        UpdateKeepsDurationInRange(base, req, now);
      }
      settings := Some(ApplySettingsSet(base, doc));
      reply := Ok(StatusOK, SettingsSaved("Settings updated successfully", SettingsResponse(settings.value)));
    }
  }
}
