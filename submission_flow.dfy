/**
 * How the pieces meet: the form data a client form posts is what the route
 * reads, and the JSON the route answers with is what the form shows. A valid
 * RSVP or song request passes the route's own checks and its e-mail shows
 * what the guest typed; every answer of the route reaches the guest as its
 * own message, with success exactly when the e-mail went out.
 */
module SubmissionFlow {
  import opened Wrappers
  import opened JsText
  import opened JsNumber
  import opened FormReply
  import opened SendEmail
  import RsvpSection
  import SongRequestSection

  /** `formData.get(key)`: the first entry with that key, if any. */
  function FieldOf(entries: seq<(string, string)>, key: string): Option<string> {
    if entries == [] then None
    else if entries[0].0 == key then Some(entries[0].1)
    else FieldOf(entries[1..], key)
  }

  /** The first entry with a key decides what `get` returns for it. */
  lemma {:induction false} FieldAt(entries: seq<(string, string)>, key: string, i: nat)
    requires i < |entries| && entries[i].0 == key
    requires forall j :: 0 <= j < i ==> entries[j].0 != key
    ensures FieldOf(entries, key) == Some(entries[i].1)
  {
    if i > 0 {
      FieldAt(entries[1..], key, i - 1);
    }
  }

  /** The form the route reads from a body of text entries. */
  function FormOf(entries: seq<(string, string)>): Form {
    Form(FieldOf(entries, "type"), FieldOf(entries, "name"), FieldOf(entries, "songs"),
         FieldOf(entries, "guests"), FieldOf(entries, "attending"), FieldOf(entries, "guestNames"),
         FieldOf(entries, "textMessage"),
         match FieldOf(entries, "image")
         case None => None
         case Some(text) => Some(Text(text)))
  }

  /** A song request the form lets through is accepted by the route, and its e-mail shows both fields. */
  lemma SongRequestAccepted(name: string, songs: string)
    requires !IsBlank(name) && !IsBlank(songs)
    ensures var form := FormOf(SongRequestSection.SongEntries(name, songs));
      && KindOf(form.submissionType) == SongRequest
      && FieldError(form).None?
      && form.name == Some(Trim(name)) && form.songs == Some(Trim(songs))
      && Contains(BodyFor(form), Trim(name))
      && Contains(BodyFor(form), ReplaceNewlines(Trim(songs)))
  {
    var entries := SongRequestSection.SongEntries(name, songs);
    FieldAt(entries, "type", 0);
    FieldAt(entries, "name", 1);
    FieldAt(entries, "songs", 2);
    TrimIdempotent(name);
    TrimIdempotent(songs);
    SongHtmlShows(Trim(name), Trim(songs));
  }

  /** The route reads back each field the RSVP form appends. */
  lemma RsvpFields(name: string, attending: string, guests: string, guestNames: seq<string>)
    ensures var form := FormOf(RsvpSection.RsvpEntries(name, attending, guests, guestNames));
      && form.submissionType == Some("rsvp")
      && form.name == Some(Trim(name))
      && form.attending == Some(attending)
      && form.guests == Some(if attending == "yes" then Trim(guests) else "0")
      && (attending == "yes" ==>
            form.guestNames == Some(Join(RsvpSection.SliceTo(guestNames, ParseIntOrZero(Trim(guests))), ", ")))
  {
    var entries := RsvpSection.RsvpEntries(name, attending, guests, guestNames);
    FieldAt(entries, "name", 0);
    FieldAt(entries, "attending", 1);
    FieldAt(entries, "guests", 2);
    FieldAt(entries, "type", 3);
    if attending == "yes" {
      FieldAt(entries, "guestNames", 4);
    }
  }

  /**
   * An RSVP the form lets through is accepted by the route as an RSVP, with
   * the guest's answer and, when attending, the guest count the form checked.
   */
  lemma RsvpAccepted(name: string, attending: string, guests: string, guestNames: seq<string>)
    requires RsvpSection.CanSubmit(name, attending, guests, guestNames)
    ensures var form := FormOf(RsvpSection.RsvpEntries(name, attending, guests, guestNames));
      && KindOf(form.submissionType) == Rsvp
      && FieldError(form).None?
      && AttendingOf(form) == attending
      && (attending == "yes" ==> GuestsNumberOf(form) == ParseIntOrZero(guests) >= 1)
  {
    RsvpFields(name, attending, guests, guestNames);
    TrimIdempotent(name);
    if attending == "yes" {
      TrimIdempotent(guests);
      ParseIgnoresTrim(guests);
    }
  }

  /**
   * The e-mail of an RSVP the form lets through shows the guest's name and
   * answer; when attending, also the guest count and every guest's name, and
   * when not, neither line.
   */
  lemma RsvpMailShows(name: string, attending: string, guests: string, guestNames: seq<string>)
    requires RsvpSection.CanSubmit(name, attending, guests, guestNames)
    requires ParseIntOrZero(guests) >= 0 ==> |guestNames| == ParseIntOrZero(guests)
    ensures var body := BodyFor(FormOf(RsvpSection.RsvpEntries(name, attending, guests, guestNames)));
      && Contains(body, Trim(name))
      && Contains(body, AttendanceStatus(attending))
      && (attending == "yes" ==>
            && Contains(body, DecimalString(ParseIntOrZero(guests)))
            && forall k :: 0 <= k < |guestNames| ==> Contains(body, guestNames[k]))
      && (attending == "no" ==> body == RsvpHtml(Trim(name), "Not attending", "", ""))
  {
    if attending == "yes" {
      AttendingMail(name, guests, guestNames);
    } else {
      DecliningMail(name, guests, guestNames);
    }
  }

  lemma AttendingMail(name: string, guests: string, guestNames: seq<string>)
    requires RsvpSection.CanSubmit(name, "yes", guests, guestNames)
    requires |guestNames| == ParseIntOrZero(guests)
    ensures var body := BodyFor(FormOf(RsvpSection.RsvpEntries(name, "yes", guests, guestNames)));
      && Contains(body, Trim(name)) && Contains(body, AttendanceStatus("yes"))
      && Contains(body, DecimalString(ParseIntOrZero(guests)))
      && forall k :: 0 <= k < |guestNames| ==> Contains(body, guestNames[k])
  {
    var form := FormOf(RsvpSection.RsvpEntries(name, "yes", guests, guestNames));
    var count := ParseIntOrZero(guests);
    RsvpAccepted(name, "yes", guests, guestNames);
    AttendingFields(name, guests, guestNames);
    AttendingBody(form, Trim(name), count, Join(guestNames, ", "));
    AttendingBodyShows(Trim(name), AttendanceStatus("yes"), count, guestNames);
  }

  /** The route fills the RSVP template of an attending guest with both optional lines. */
  lemma AttendingBody(form: Form, name: string, count: int, joined: string)
    requires KindOf(form.submissionType) == Rsvp && AttendingOf(form) == "yes"
    requires form.name == Some(name) && GuestsNumberOf(form) == count && form.guestNames == Some(joined)
    ensures BodyFor(form) == RsvpHtml(name, AttendanceStatus("yes"), GuestsSection(true, count),
                                      GuestNamesSection(true, joined))
  {
    assert OrElse(form.guestNames, "") == joined;
  }

  /** The name and guest-name fields the route reads from an attending RSVP with one name per guest. */
  lemma AttendingFields(name: string, guests: string, guestNames: seq<string>)
    requires |guestNames| == ParseIntOrZero(guests)
    ensures var form := FormOf(RsvpSection.RsvpEntries(name, "yes", guests, guestNames));
      form.name == Some(Trim(name)) && form.guestNames == Some(Join(guestNames, ", "))
  {
    RsvpFields(name, "yes", guests, guestNames);
    ParseIgnoresTrim(guests);
    assert RsvpSection.SliceTo(guestNames, ParseIntOrZero(Trim(guests))) == guestNames;
  }

  lemma DecliningMail(name: string, guests: string, guestNames: seq<string>)
    requires RsvpSection.CanSubmit(name, "no", guests, guestNames)
    ensures var body := BodyFor(FormOf(RsvpSection.RsvpEntries(name, "no", guests, guestNames)));
      && Contains(body, Trim(name)) && Contains(body, AttendanceStatus("no"))
      && body == RsvpHtml(Trim(name), "Not attending", "", "")
  {
    RsvpFields(name, "no", guests, guestNames);
    RsvpHtmlShows(Trim(name), AttendanceStatus("no"), "", "");
  }

  /** The e-mail of an attending RSVP shows the name, the count and each guest's name. */
  lemma AttendingBodyShows(name: string, status: string, count: int, guestNames: seq<string>)
    requires count >= 1 && |guestNames| == count
    requires !RsvpSection.HasBlankName(guestNames)
    ensures var body := RsvpHtml(name, status, GuestsSection(true, count),
                           GuestNamesSection(true, Join(guestNames, ", ")));
      && Contains(body, name) && Contains(body, status)
      && Contains(body, DecimalString(count))
      && forall k :: 0 <= k < |guestNames| ==> Contains(body, guestNames[k])
  {
    var joined := Join(guestNames, ", ");
    assert !IsBlank(guestNames[0]);
    JoinNotBlank(guestNames, ", ");
    var guestsLine := GuestsSection(true, count);
    var namesLine := GuestNamesSection(true, joined);
    LinesShow(RsvpHtml(name, status, guestsLine, namesLine), name, status, guestsLine, namesLine,
              DecimalString(count), guestNames);
  }

  /** The pieces of the RSVP template, and what the two optional lines show, are shown in it. */
  lemma LinesShow(body: string, name: string, status: string, guestsLine: string, namesLine: string,
                  count: string, guestNames: seq<string>)
    requires body == RsvpHtml(name, status, guestsLine, namesLine)
    requires Contains(guestsLine, count) && Contains(namesLine, Join(guestNames, ", "))
    ensures Contains(body, name) && Contains(body, status) && Contains(body, count)
    ensures forall k :: 0 <= k < |guestNames| ==> Contains(body, guestNames[k])
  {
    RsvpHtmlShows(name, status, guestsLine, namesLine);
    ContainsTrans(body, guestsLine, count);
    ContainsEachName(body, namesLine, guestNames);
  }

  /** A text showing the joined name list shows each name in it. */
  lemma ContainsEachName(text: string, line: string, names: seq<string>)
    requires Contains(text, line) && Contains(line, Join(names, ", "))
    ensures forall k :: 0 <= k < |names| ==> Contains(text, names[k])
  {
    var joined := Join(names, ", ");
    ContainsTrans(text, line, joined);
    forall k | 0 <= k < |names|
      ensures Contains(text, names[k])
    {
      JoinContainsEach(names, ", ", k);
      ContainsTrans(text, joined, names[k]);
    }
  }

  /** The JSON body the route writes for a reply, as the form reads it. */
  function JsonOf(reply: Reply): ResponseData {
    Json(Some(reply.message), if reply.Crashed? then Some(reply.error) else None, reply.Success())
  }

  /** What `fetch` yields for a response of the route. */
  function Fetched(response: Response): FetchResult {
    Received(200 <= response.status < 300, JsonOf(response.reply))
  }

  /**
   * Whatever the route answers, the form shows the route's own message: it
   * reports success exactly for a delivered e-mail, and otherwise shows the
   * route's message rather than its own fallback.
   */
  lemma ServerMessageShown(response: Response, httpFallback: string, apiFallback: string)
    requires response.status in {200, 400, 500}
    requires response.status == 200 <==> response.reply.Success()
    requires response.reply.message != ""
    ensures SubmitError(Fetched(response), httpFallback, apiFallback)
            == if response.reply.Success() then None else Some(response.reply.message)
  {
  }

  /**
   * One RSVP from the guest's click to the notice on the page: the form's
   * checks, the route with its relay, and the form's reading of the answer.
   * The guest sees the relay's own error text when the send fails, and the
   * form is reset only when the e-mail went out.
   */
  method SubmitRsvp(page: RsvpSection.RsvpForm, lang: Lang, env: Env, relay: Relay) returns (calls: seq<RelayCall>)
    requires page.Valid()
    modifies page
    ensures page.Valid()
    // a form the checks stop sends nothing, and only its notice changes
    ensures !RsvpSection.CanSubmit(old(page.name), old(page.attending), old(page.guests), old(page.guestNames)) ==>
              && calls == [] && page.message == Notice(Localized("rsvpError"), Failed)
              && page.isSubmitting == old(page.isSubmitting)
              && page.name == old(page.name) && page.attending == old(page.attending)
              && page.guests == old(page.guests) && page.guestNames == old(page.guestNames)
    ensures RsvpSection.CanSubmit(old(page.name), old(page.attending), old(page.guests), old(page.guestNames)) ==>
              !page.isSubmitting
    // missing credentials: nothing contacted, the route's text shown, the fields kept
    ensures RsvpSection.CanSubmit(old(page.name), old(page.attending), old(page.guests), old(page.guestNames))
            && ConfigError(ResolveCredentials(env)).Some? ==>
              && calls == [] && page.message == Notice(Plain(MissingCredentials), Failed)
              && page.name == old(page.name) && page.attending == old(page.attending)
              && page.guests == old(page.guests) && page.guestNames == old(page.guestNames)
    // a failed verify: the session was opened and verified only, its text shown, the fields kept
    ensures RsvpSection.CanSubmit(old(page.name), old(page.attending), old(page.guests), old(page.guestNames))
            && ConfigError(ResolveCredentials(env)).None? && relay.verifyFault.Some? ==>
              && |calls| == 2
              && page.message == Notice(Plain(VerifyFailureMessage(relay.verifyFault.value)), Failed)
              && page.name == old(page.name) && page.attending == old(page.attending)
              && page.guests == old(page.guests) && page.guestNames == old(page.guestNames)
    // a good verify: one send, whose outcome decides between a full reset and the relay's error
    ensures RsvpSection.CanSubmit(old(page.name), old(page.attending), old(page.guests), old(page.guestNames))
            && ConfigError(ResolveCredentials(env)).None? && relay.verifyFault.None? ==>
              |calls| == 3 && calls[2].SendCall? &&
              match relay.send(calls[2].mail)
              case Returned(_) =>
                && page.message == Notice(Localized("rsvpSuccess"), Succeeded)
                && page.name == "" && page.attending == ""
                && page.guests == RsvpSection.InitialGuests && page.guestNames == [""]
              case Raised(f) =>
                && page.message == Notice(Plain(SendFailureMessage(f)), Failed)
                && page.name == old(page.name) && page.attending == old(page.attending)
                && page.guests == old(page.guests) && page.guestNames == old(page.guestNames)
  {
    ghost var name, attending, guests, guestNames := page.name, page.attending, page.guests, page.guestNames;
    var entries := page.Begin(lang);
    if entries.None? {
      return [];
    }
    RsvpAccepted(name, attending, guests, guestNames);
    var response;
    response, calls := Post(Multipart(FormOf(entries.value)), env, relay);
    ServerMessageShown(response, RsvpSection.HttpFallback, RsvpSection.ApiFallback);
    page.Finish(Fetched(response));
  }

  /**
   * One song request from the guest's click to the notice on the page, as
   * for the RSVP: the route's answer decides the notice, and the fields are
   * cleared only when the e-mail went out.
   */
  method SubmitSongRequest(page: SongRequestSection.SongRequestForm, lang: Lang, env: Env, relay: Relay)
    returns (calls: seq<RelayCall>)
    modifies page
    // a form with a blank field sends nothing, and only its notice changes
    ensures IsBlank(old(page.name)) || IsBlank(old(page.songs)) ==>
              && calls == [] && page.message == Notice(Plain(SongRequestSection.FillAllFieldsText(lang)), Failed)
              && page.isSubmitting == old(page.isSubmitting)
              && page.name == old(page.name) && page.songs == old(page.songs)
    ensures !IsBlank(old(page.name)) && !IsBlank(old(page.songs)) ==> !page.isSubmitting
    // missing credentials: nothing contacted, the route's text shown, the fields kept
    ensures !IsBlank(old(page.name)) && !IsBlank(old(page.songs)) && ConfigError(ResolveCredentials(env)).Some? ==>
              && calls == [] && page.message == Notice(Plain(MissingCredentials), Failed)
              && page.name == old(page.name) && page.songs == old(page.songs)
    // a failed verify: the session was opened and verified only, its text shown, the fields kept
    ensures !IsBlank(old(page.name)) && !IsBlank(old(page.songs))
            && ConfigError(ResolveCredentials(env)).None? && relay.verifyFault.Some? ==>
              && |calls| == 2
              && page.message == Notice(Plain(VerifyFailureMessage(relay.verifyFault.value)), Failed)
              && page.name == old(page.name) && page.songs == old(page.songs)
    // a good verify: one send, whose outcome decides between clearing the form and the relay's error
    ensures !IsBlank(old(page.name)) && !IsBlank(old(page.songs))
            && ConfigError(ResolveCredentials(env)).None? && relay.verifyFault.None? ==>
              |calls| == 3 && calls[2].SendCall? &&
              match relay.send(calls[2].mail)
              case Returned(_) =>
                && page.message == Notice(Plain(SongRequestSection.ThanksText(lang)), Succeeded)
                && page.name == "" && page.songs == ""
              case Raised(f) =>
                && page.message == Notice(Plain(SendFailureMessage(f)), Failed)
                && page.name == old(page.name) && page.songs == old(page.songs)
  {
    ghost var name, songs := page.name, page.songs;
    var entries := page.Begin(lang);
    if entries.None? {
      return [];
    }
    SongRequestAccepted(name, songs);
    var response;
    response, calls := Post(Multipart(FormOf(entries.value)), env, relay);
    ServerMessageShown(response, SongRequestSection.HttpFallback(lang), SongRequestSection.ApiFallback(lang));
    page.Finish(lang, Fetched(response));
  }
}
