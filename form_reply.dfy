/**
 * What the two client forms do with the answer to their `fetch`: the body is
 * read as JSON when it is labelled so and parses, and as raw text otherwise;
 * a non-ok status or a body without `success` ends in an error whose text is
 * picked by a fallback chain. Both forms show one notice at a time.
 */
module FormReply {
  import opened Wrappers
  import opened JsText

  datatype Lang = En | Ar

  /** The response body as the form reads it: parsed JSON fields, or `{ raw: text }`. */
  datatype ResponseData =
    | Json(message: Option<string>, error: Option<string>, success: bool)
    | Raw(text: string)

  /** `fetch` either rejects (a network failure with its error text) or yields a response. */
  datatype FetchResult = NetworkFailure(reason: string) | Received(ok: bool, data: ResponseData)

  /** A notice text: a literal, or the key of a translation the page looks up. */
  datatype Text = Plain(s: string) | Localized(key: string)

  /** `message.type`: '' | 'success' | 'error' | 'info' */
  datatype NoticeKind = NoNotice | Succeeded | Failed | Pending

  datatype Notice = Notice(text: Text, kind: NoticeKind)

  const NoMessage: Notice := Notice(Plain(""), NoNotice)

  function SubmittingText(lang: Lang): string {
    if lang == Ar then "جاري الإرسال..." else "Submitting..."
  }

  /**
   * The text thrown for a non-ok status: `message`, else `error`, else the raw
   * text when it is not blank, else the form's own fallback.
   */
  function HttpFailureText(data: ResponseData, fallback: string): (r: string)
    ensures fallback != "" ==> r != ""
    ensures data.Json? && Truthy(data.message) ==> r == data.message.value
    ensures data.Json? && !Truthy(data.message) && Truthy(data.error) ==> r == data.error.value
    ensures data.Json? && !Truthy(data.message) && !Truthy(data.error) ==> r == fallback
    ensures data.Raw? && !IsBlank(data.text) ==> r == data.text
    ensures data.Raw? && IsBlank(data.text) ==> r == fallback
  {
    match data
    case Json(message, error, _) => OrElse(message, OrElse(error, fallback))
    case Raw(text) => if IsBlank(text) then fallback else text
  }

  /**
   * How a submission ends once `fetch` settles: `None` when it succeeded, or the
   * text of the error the handler throws and then shows. Success needs both an
   * ok status and a JSON body whose `success` is true.
   */
  function SubmitError(result: FetchResult, httpFallback: string, apiFallback: string): (e: Option<string>)
    ensures e.None? <==> result.Received? && result.ok && result.data.Json? && result.data.success
    ensures result.NetworkFailure? ==> e == Some(result.reason)
    ensures result.Received? && !result.ok ==> e == Some(HttpFailureText(result.data, httpFallback))
    ensures result.Received? && result.ok && e.Some? ==>
              e.value == (if result.data.Json? then OrElse(result.data.message, apiFallback) else apiFallback)
    ensures httpFallback != "" && apiFallback != "" && result.Received? && e.Some? ==> e.value != ""
  {
    match result
    case NetworkFailure(reason) => Some(reason)
    case Received(ok, data) =>
      if !ok then Some(HttpFailureText(data, httpFallback))
      else if data.Json? && data.success then None
      else Some(if data.Json? then OrElse(data.message, apiFallback) else apiFallback)
  }
}
