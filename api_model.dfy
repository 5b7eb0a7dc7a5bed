/**
 * The request and response envelopes of the REST API (imgchest/src/model.rs):
 * `{data: T}` responses, the `{success, message}` completion response whose
 * `success` travels as the string "true" or "false", and the bulk file update.
 */
module ApiModel {
  import opened Wrappers

  /** One entry of a bulk file update. The description is a plain string, never null. */
  datatype FileUpdate = FileUpdate(id: string, description: string)

  /** The body of a bulk file update: the updates, under `data`. */
  datatype ApiUpdateFilesBulkRequest = ApiUpdateFilesBulkRequest(data: seq<FileUpdate>)

  /** The `{data: T}` envelope of every non-completion response. */
  datatype ApiResponse<T> = ApiResponse(data: T)

  /** The response for when the API completed something. */
  datatype ApiCompletedResponse = ApiCompletedResponse(success: bool, message: Option<string>)

  /**
   * The completion response as its JSON object holds it: `success` is a
   * mandatory string (None when the key is absent), `message` may be absent.
   */
  datatype RawCompletedResponse = RawCompletedResponse(success: Option<string>, message: Option<string>)

  /** `core::str::ParseBoolError`. */
  datatype ParseBoolError = ParseBoolError(input: string)

  /** `from_str_to_str::deserialize` at `bool`, which is `bool::from_str`: exactly "true" or "false". */
  function StrToBool(s: string): (r: Result<bool, ParseBoolError>)
    ensures r.Ok? <==> s == "true" || s == "false"
    ensures r.Ok? ==> (r.value <==> s == "true")
  {
    if s == "true" then Ok(true)
    else if s == "false" then Ok(false)
    else Err(ParseBoolError(s))
  }

  /** `from_str_to_str::serialize` at `bool`, which is `bool::to_string`. */
  function BoolToString(b: bool): (s: string)
    ensures s == "true" || s == "false"
  {
    if b then "true" else "false"
  }

  /** The adapter reads back what it writes, and writes back what it accepts. */
  lemma StrBoolRoundTrip(b: bool, s: string)
    ensures StrToBool(BoolToString(b)) == Ok(b)
    ensures StrToBool(s) == Ok(b) <==> BoolToString(b) == s
  {
  }

  /** serde's derived `Deserialize` for `ApiCompletedResponse`. */
  function DecodeCompleted(raw: RawCompletedResponse): (r: Option<ApiCompletedResponse>)
    ensures r.Some? <==> raw.success.Some? && StrToBool(raw.success.value).Ok?
    ensures r.Some? ==> r.value.message == raw.message
    ensures r.Some? ==> Some(BoolToString(r.value.success)) == raw.success
  {
    match raw.success
    case None => None
    case Some(s) =>
      match StrToBool(s)
      case Err(_) => None
      case Ok(b) => Some(ApiCompletedResponse(b, raw.message))
  }

  /** serde's derived `Serialize` for `ApiCompletedResponse`: decoding it gives the response back. */
  function EncodeCompleted(resp: ApiCompletedResponse): (raw: RawCompletedResponse)
    ensures DecodeCompleted(raw) == Some(resp)
  {
    StrBoolRoundTrip(resp.success, BoolToString(resp.success));
    RawCompletedResponse(Some(BoolToString(resp.success)), resp.message)
  }
}
