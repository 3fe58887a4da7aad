/**
 * The dictionary the backend stores next to every vector (the Qdrant
 * "payload") and the HTTP errors its handlers raise.
 */
module Payloads {
  import opened Wrappers

  /** Raw request bytes (an uploaded file). */
  type Bytes = seq<bv8>

  /**
   * A payload. Each field is one key of the stored dictionary and `None`
   * means the key is absent, so `None` reads back from `payload.get(key)`.
   * `kind` is the key "type"; `score` is only set on query results.
   */
  datatype Payload = Payload(
    userId: Option<string>,
    lang: Option<string>,
    timestamp: Option<string>,
    kind: Option<string>,
    originalName: Option<string>,
    content: Option<string>,
    imageB64: Option<string>,
    score: Option<real>
  )

  /** `{}`: what a point without a payload is read as. */
  const EmptyPayload: Payload := Payload(None, None, None, None, None, None, None, None)

  /** Python truthiness of an optional string: present and non-empty. */
  predicate Present(v: Option<string>) {
    v.Some? && v.value != ""
  }

  /** A FastAPI `HTTPException`: status code and detail text. */
  datatype HttpError = HttpError(status: nat, detail: string)

  /** What the framework answers when a handler lets an exception escape. */
  const InternalServerError: HttpError := HttpError(500, "Internal Server Error")
}
