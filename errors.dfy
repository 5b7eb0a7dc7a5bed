/**
 * The crate's error type (imgchest/src/lib.rs) and its display strings.
 */
module Errors {
  import opened ScrapedPosts

  /** The HTTP layer's failures, as far as the client tells them apart. */
  datatype ReqwestError =
    | Transport            // the request could not be sent or its body not read
    | Status(code: nat)    // `error_for_status`: a 4xx or 5xx response
    | Decode               // the body is not the JSON the call expects

  /** `imgchest::Error`. */
  datatype Error =
    | Reqwest(cause: ReqwestError)
    | TokioJoin
    | InvalidScrapedPost(post: FromHtmlError)
    | InvalidScrapedPostFile(file: FromElementError)
    | MissingToken
    | MissingImages
    | ApiOperationFailed
    | ApiResponseMissingMessage
    | ApiResponseUnknownMessage(message: string)
    | MissingDescription
    | TitleTooShort

  /**
   * The `#[error]` message of each variant; the causes are not part of it.
   * Only the unknown-message variant starts with its prefix: no fixed
   * message does.
   */
  function Display(e: Error): (s: string)
    ensures s != []
    ensures e.ApiResponseUnknownMessage? <==> UNKNOWN_MESSAGE_PREFIX <= s
  {
    match e
    case Reqwest(_) => "reqwest http error"
    case TokioJoin => "failed to join tokio task"
    case InvalidScrapedPost(_) => "invalid scraped post"
    case InvalidScrapedPostFile(_) => "invalid scraped post file"
    case MissingToken => "missing token"
    case MissingImages => "missing images"
    case ApiOperationFailed => "api operation was not successful"
    case ApiResponseMissingMessage => "api response missing messsage"
    case ApiResponseUnknownMessage(message) => UNKNOWN_MESSAGE_PREFIX + message + "\""
    case MissingDescription => "missing description"
    case TitleTooShort =>
      var m := "title too short, must be at least 3 characters";
      assert m[33] == ' ' && UNKNOWN_MESSAGE_PREFIX[33] == '\"';
      m
  }

  const UNKNOWN_MESSAGE_PREFIX: string := "api response had unknown message \""

  /** The unknown message can be read back from the display string. */
  lemma UnknownMessageReadBack(message: string)
    ensures StripPrefixSuffix(Display(ApiResponseUnknownMessage(message))) == message
  {
    var s := Display(ApiResponseUnknownMessage(message));
    assert s[|UNKNOWN_MESSAGE_PREFIX|..|s| - 1] == message;
  }

  /** The text between the unknown-message prefix and the closing quote. */
  function StripPrefixSuffix(s: string): string {
    if |s| > |UNKNOWN_MESSAGE_PREFIX| then s[|UNKNOWN_MESSAGE_PREFIX|..|s| - 1] else []
  }

  /** The variants whose message does not hide a cause. */
  predicate OwnMessage(e: Error) {
    !(e.Reqwest? || e.InvalidScrapedPost? || e.InvalidScrapedPostFile?)
  }

  /** Errors whose message hides no cause are told apart by their message alone. */
  lemma DisplayInjective(a: Error, b: Error)
    requires OwnMessage(a) && OwnMessage(b)
    requires Display(a) == Display(b)
    ensures a == b
  {
    if a.ApiResponseUnknownMessage? && b.ApiResponseUnknownMessage? {
      UnknownMessageInjective(a.message, b.message);
    }
  }

  /** Two unknown-message errors display alike only when they carry the same message. */
  lemma UnknownMessageInjective(m1: string, m2: string)
    requires Display(ApiResponseUnknownMessage(m1)) == Display(ApiResponseUnknownMessage(m2))
    ensures m1 == m2
  {
    UnknownMessageReadBack(m1);
    UnknownMessageReadBack(m2);
  }
}
