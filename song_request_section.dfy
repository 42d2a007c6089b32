/**
 * The song-request form: a name and a free-text list of songs. As with the
 * RSVP form, the submit handler is split at its `await` into `Begin` and
 * `Finish`. Its notices are literal texts in the page's language.
 */
module SongRequestSection {
  import opened Wrappers
  import opened JsText
  import opened FormReply

  function FillAllFieldsText(lang: Lang): string {
    if lang == Ar then "الرجاء ملء جميع الحقول" else "Please fill in all fields"
  }

  function HttpFallback(lang: Lang): string {
    if lang == Ar then "فشل إرسال طلب الأغنية" else "Failed to send song request"
  }

  function ApiFallback(lang: Lang): string {
    if lang == Ar then "فشل إرسال الطلب" else "Submission failed"
  }

  function ThanksText(lang: Lang): string {
    if lang == Ar then "شكراً! تم إرسال طلب الأغنية." else "Thank you! Your song request has been sent."
  }

  /** The form data entries, in the order they are appended. */
  function SongEntries(name: string, songs: string): seq<(string, string)> {
    [("type", "song-request"), ("name", Trim(name)), ("songs", Trim(songs))]
  }

  /** A request is sent with both fields trimmed and neither of them blank. */
  lemma SongEntriesShape(name: string, songs: string)
    requires !IsBlank(name) && !IsBlank(songs)
    ensures var e := SongEntries(name, songs);
      && e[0] == ("type", "song-request")
      && e[1].0 == "name" && e[1].1 == Trim(name) && !IsBlank(e[1].1) && Trim(e[1].1) == e[1].1
      && e[2].0 == "songs" && e[2].1 == Trim(songs) && !IsBlank(e[2].1) && Trim(e[2].1) == e[2].1
  {
    TrimIdempotent(name);
    TrimIdempotent(songs);
  }

  class SongRequestForm {
    var name: string
    var songs: string
    var isSubmitting: bool
    var message: Notice

    constructor()
      ensures name == "" && songs == "" && !isSubmitting && message == NoMessage
    {
      name := "";
      songs := "";
      isSubmitting := false;
      message := NoMessage;
    }

    /** The name input's change handler. */
    method EditName(value: string)
      modifies this
      ensures name == value && songs == old(songs)
      ensures isSubmitting == old(isSubmitting) && message == old(message)
    {
      name := value;
    }

    /** The songs text area's change handler. */
    method EditSongs(value: string)
      modifies this
      ensures songs == value && name == old(name)
      ensures isSubmitting == old(isSubmitting) && message == old(message)
    {
      songs := value;
    }

    /**
     * `handleSubmit` up to the `fetch`: with a blank field it asks for both
     * and sends nothing; otherwise it marks the form as submitting and yields
     * the form data to post.
     */
    method Begin(lang: Lang) returns (entries: Option<seq<(string, string)>>)
      modifies this
      ensures entries.Some? <==> !IsBlank(old(name)) && !IsBlank(old(songs))
      ensures entries.None? ==>
                message == Notice(Plain(FillAllFieldsText(lang)), Failed) && isSubmitting == old(isSubmitting)
      ensures entries.Some? ==>
                && entries.value == SongEntries(name, songs)
                && isSubmitting
                && message == Notice(Plain(SubmittingText(lang)), Pending)
      ensures name == old(name) && songs == old(songs)
    {
      if IsBlank(name) || IsBlank(songs) {
        message := Notice(Plain(FillAllFieldsText(lang)), Failed);
        return None;
      }
      isSubmitting := true;
      message := Notice(Plain(SubmittingText(lang)), Pending);
      entries := Some(SongEntries(name, songs));
    }

    /**
     * `handleSubmit` after the `fetch` settles: on success it thanks the guest
     * and clears both fields; on any failure it shows the error text and keeps
     * them. Either way the form stops submitting.
     */
    method Finish(lang: Lang, result: FetchResult)
      modifies this
      ensures !isSubmitting
      ensures SubmitError(result, HttpFallback(lang), ApiFallback(lang)).None? ==>
                message == Notice(Plain(ThanksText(lang)), Succeeded) && name == "" && songs == ""
      ensures SubmitError(result, HttpFallback(lang), ApiFallback(lang)).Some? ==>
                && message == Notice(Plain(SubmitError(result, HttpFallback(lang), ApiFallback(lang)).value), Failed)
                && name == old(name) && songs == old(songs)
    {
      var error := SubmitError(result, HttpFallback(lang), ApiFallback(lang));
      if error.None? {
        message := Notice(Plain(ThanksText(lang)), Succeeded);
        name := "";
        songs := "";
      } else {
        message := Notice(Plain(error.value), Failed);
      }
      isSubmitting := false;
    }
  }

}
