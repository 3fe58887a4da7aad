/**
 * The `/upload` handler: a file (image or text) or a piece of text is
 * embedded and stored as one point with its payload. Embedders, the
 * captioner, image detection, UTF-8 decoding, base64 encoding and the
 * vector-store upsert are oracles; `None` from an oracle means it raised.
 */
module Upload {
  import opened Wrappers
  import opened Payloads
  import opened TextClean
  import opened VectorStore

  const MissingInput: HttpError := HttpError(400, "Either file or text must be provided")
  const CaptionFailed: string := "Image uploaded (caption generation failed)"
  const UploadedMessage: string := "Content uploaded successfully"

  datatype UploadFile = UploadFile(filename: Option<string>, bytes: Bytes)

  datatype Uploaded = Uploaded(id: string, message: string)

  datatype UploadEnv = UploadEnv(
    clipEnabled: bool,                         // ENABLE_CLIP
    isImage: Bytes -> bool,                    // PIL can open and convert the bytes
    clipImage: Bytes -> Option<Vector>,
    caption: (Bytes, string) -> Option<string>,
    clipText: string -> Option<Vector>,
    multiText: string -> Option<Vector>,
    decodeUtf8: Bytes -> string,               // decode("utf-8", errors="ignore")
    base64: Bytes -> string,
    upsert: Point -> Option<string>            // None: stored; Some(e): raised with message e
  )

  /** `file.filename or "uploaded"`. */
  function OriginalName(f: UploadFile): (r: string)
    ensures r != ""
    ensures f.filename.Some? && f.filename.value != "" ==> r == f.filename.value
    ensures f.filename.None? || f.filename.value == "" ==> r == "uploaded"
  {
    if f.filename.Some? && f.filename.value != "" then f.filename.value else "uploaded"
  }

  /** The text argument counts only when it is present and non-empty. */
  predicate HasText(text: Option<string>) {
    text.Some? && text.value != ""
  }

  /** The clip vector of a text: the CLIP text embedding when enabled, zeros when disabled or when it raises. */
  function ClipTextVector(env: UploadEnv, clean: string): (v: Vector)
    ensures !env.clipEnabled ==> v == Zeros(CLIP_DIM)
    ensures env.clipEnabled && env.clipText(clean).None? ==> v == Zeros(CLIP_DIM)
    ensures env.clipEnabled && env.clipText(clean).Some? ==> v == env.clipText(clean).value
  {
    if env.clipEnabled then env.clipText(clean).GetOr(Zeros(CLIP_DIM)) else Zeros(CLIP_DIM)
  }

  /** The multilingual text vector, zeros when the embedder raises. */
  function TextVector(env: UploadEnv, clean: string): (v: Vector)
    ensures env.multiText(clean).None? ==> v == Zeros(TEXT_DIM)
    ensures env.multiText(clean).Some? ==> v == env.multiText(clean).value
  {
    env.multiText(clean).GetOr(Zeros(TEXT_DIM))
  }

  /** The payload every upload starts from: owner, language, timestamp and nothing else. */
  function BasePayload(userId: string, lang: string, now: string): (p: Payload)
    ensures p.userId == Some(userId) && p.lang == Some(lang) && p.timestamp == Some(now)
    ensures p.kind.None? && p.originalName.None? && p.content.None? && p.imageB64.None? && p.score.None?
  {
    EmptyPayload.(userId := Some(userId), lang := Some(lang), timestamp := Some(now))
  }

  /** Every stored point carries the fresh id, the owner, the request language and the timestamp. */
  predicate Stamped(pt: Point, contentId: string, userId: string, lang: string, now: string) {
    && pt.id == contentId
    && pt.payload.userId == Some(userId)
    && pt.payload.lang == Some(lang)
    && pt.payload.timestamp == Some(now)
  }

  /** `payload.update(...)` keeps owner, language and timestamp, and adds no score. */
  predicate Rebased(p: Payload, base: Payload) {
    p.userId == base.userId && p.lang == base.lang && p.timestamp == base.timestamp && p.score == base.score
  }

  /**
   * An image point: type "image", the caption (or its fallback) as content,
   * the file name, the base64 bytes, and the text vector of the cleaned caption.
   */
  predicate ImagePoint(pt: Point, f: UploadFile, lang: string, env: UploadEnv) {
    var caption := env.caption(f.bytes, lang).GetOr(CaptionFailed);
    && pt.payload.kind == Some("image")
    && pt.payload.content == Some(caption)
    && pt.payload.originalName == Some(OriginalName(f))
    && pt.payload.imageB64 == Some(env.base64(f.bytes))
    && pt.vectors.text == TextVector(env, Cleaned(Some(caption)))
    && pt.vectors.clip == (if env.clipEnabled then env.clipImage(f.bytes).GetOr([]) else Zeros(CLIP_DIM))
  }

  /** A point made from text: type "text", the cleaned text as content, and both text vectors. */
  predicate TextPoint(pt: Point, clean: string, env: UploadEnv) {
    && pt.payload.kind == Some("text")
    && pt.payload.content == Some(clean)
    && pt.payload.imageB64.None?
    && pt.vectors == Vectors(ClipTextVector(env, clean), TextVector(env, clean))
  }

  /**
   * `upload_content`. `contentId` and `now` stand for the fresh uuid4 and the
   * ISO timestamp. Returns the response and the point handed to the store,
   * if any.
   */
  method UploadContent(file: Option<UploadFile>, text: Option<string>, userId: string, lang: string,
                       contentId: string, now: string, env: UploadEnv)
    returns (response: Result<Uploaded, HttpError>, stored: Option<Point>)
    // neither input: 400 and nothing is stored
    ensures file.None? && !HasText(text) ==> response == Err(MissingInput) && stored.None?
    ensures stored.Some? ==> Stamped(stored.value, contentId, userId, lang, now)
    ensures stored.Some? ==> stored.value.payload.score.None?
    // a file wins over text; its bytes decide between the image and the text-file path
    ensures stored.Some? && file.Some? && env.isImage(file.value.bytes) ==>
      ImagePoint(stored.value, file.value, lang, env)
    ensures stored.Some? && file.Some? && !env.isImage(file.value.bytes) ==>
      && TextPoint(stored.value, Cleaned(Some(env.decodeUtf8(file.value.bytes))), env)
      && stored.value.payload.originalName == Some(OriginalName(file.value))
    ensures stored.Some? && file.None? ==>
      TextPoint(stored.value, Cleaned(text), env) && stored.value.payload.originalName.None?
    // with CLIP disabled the clip vector is 512 zeros
    ensures stored.Some? && !env.clipEnabled ==> stored.value.vectors.clip == Zeros(CLIP_DIM)
    // something is stored for every request with input, unless the enabled CLIP image embedder raised
    ensures stored.None? <==>
      (file.None? && !HasText(text)) ||
      (file.Some? && env.isImage(file.value.bytes) && env.clipEnabled && env.clipImage(file.value.bytes).None?)
    // success exactly when the store accepted the point, and then the id is the stored id
    ensures response.Ok? <==> stored.Some? && env.upsert(stored.value).None?
    ensures response.Ok? ==> response.value == Uploaded(contentId, UploadedMessage)
    ensures stored.Some? && env.upsert(stored.value).Some? ==>
      response == Err(HttpError(500, "Vector DB error: " + env.upsert(stored.value).value))
    ensures stored.None? && (file.Some? || HasText(text)) ==> response == Err(InternalServerError)
  {
    if file.None? && !HasText(text) {
      return Err(MissingInput), None;
    }
    var base := BasePayload(userId, lang, now);
    var point: Point;
    if file.Some? && env.isImage(file.value.bytes) {
      var done;
      done, point := ImageBranch(file.value, lang, env, contentId, base);
      if !done {
        return Err(InternalServerError), None;
      }
    } else if file.Some? {
      point := TextFileBranch(file.value, env, contentId, base);
    } else {
      point := TextBranch(text, env, contentId, base);
    }
    stored := Some(point);
    var failure := env.upsert(point);
    if failure.Some? {
      response := Err(HttpError(500, "Vector DB error: " + failure.value));
    } else {
      response := Ok(Uploaded(contentId, UploadedMessage));
    }
  }

  /**
   * The image path: CLIP image vector (unguarded when enabled), caption with
   * its fallback, text vector of the cleaned caption. `done` is false when the
   * CLIP image embedder raised.
   */
  method ImageBranch(f: UploadFile, lang: string, env: UploadEnv, contentId: string, base: Payload)
    returns (done: bool, point: Point)
    ensures done <==> !env.clipEnabled || env.clipImage(f.bytes).Some?
    ensures done ==> point.id == contentId && ImagePoint(point, f, lang, env)
    ensures done ==> Rebased(point.payload, base)
  {
    var clipVec: Vector;
    if env.clipEnabled {
      var v := env.clipImage(f.bytes);
      if v.None? {
        // clip_image_embedding is not guarded: the exception escapes the handler
        return false, Point(contentId, Vectors([], []), base);
      }
      clipVec := v.value;
    } else {
      clipVec := Zeros(CLIP_DIM);
    }
    var caption := env.caption(f.bytes, lang).GetOr(CaptionFailed);
    var cleanCaption := CleanText(Some(caption));
    var payload := base.(kind := Some("image"), originalName := Some(OriginalName(f)),
                         content := Some(caption), imageB64 := Some(env.base64(f.bytes)));
    done, point := true, Point(contentId, Vectors(clipVec, TextVector(env, cleanCaption)), payload);
  }

  /** A file that is not an image is read as UTF-8 text, cleaned and embedded. */
  method TextFileBranch(f: UploadFile, env: UploadEnv, contentId: string, base: Payload)
    returns (point: Point)
    requires base.imageB64.None?
    ensures point.id == contentId && TextPoint(point, Cleaned(Some(env.decodeUtf8(f.bytes))), env)
    ensures point.payload.originalName == Some(OriginalName(f))
    ensures Rebased(point.payload, base)
  {
    var raw := env.decodeUtf8(f.bytes);
    var clean := CleanText(Some(raw));
    var payload := base.(kind := Some("text"), originalName := Some(OriginalName(f)), content := Some(clean));
    point := Point(contentId, Vectors(ClipTextVector(env, clean), TextVector(env, clean)), payload);
  }

  /** Plain text is cleaned and embedded; it gets no file name. */
  method TextBranch(text: Option<string>, env: UploadEnv, contentId: string, base: Payload)
    returns (point: Point)
    requires base.originalName.None? && base.imageB64.None?
    ensures point.id == contentId && TextPoint(point, Cleaned(text), env)
    ensures point.payload.originalName.None?
    ensures Rebased(point.payload, base)
  {
    var clean := CleanText(text);
    var payload := base.(kind := Some("text"), content := Some(clean));
    point := Point(contentId, Vectors(ClipTextVector(env, clean), TextVector(env, clean)), payload);
  }
}
