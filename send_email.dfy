/**
 * The submission endpoint: `POST` on the e-mail route. One multipart form
 * comes in, its `type` field picks one of three kinds (song request, RSVP,
 * free message), the kind's fields are checked, mail credentials are resolved
 * from the environment, a mail relay session is created, verified and used
 * for at most one send, and one JSON result goes back with an HTTP status.
 *
 * The relay (nodemailer with the "gmail" service profile) is outside the
 * model: a `Relay` value says how its `verify` and `sendMail` calls turn out,
 * and `Post` reports, besides its response, the calls it made on the relay.
 */
module SendEmail {
  import opened Wrappers
  import opened JsText
  import opened JsNumber

  // ---------------------------------------------------------------------------
  // Environment and credentials

  /** The environment variables the route reads; an unset variable is `None`. */
  datatype Env = Env(
    smtpUser: Option<string>,
    gmailUser: Option<string>,
    smtpPass: Option<string>,
    gmailAppPassword: Option<string>,
    googleAppPassword: Option<string>,
    contactEmail: Option<string>)

  datatype Credentials = Credentials(user: string, pass: string, recipient: string)

  /**
   * The three fallback chains: the first set, non-empty variable wins, and the
   * recipient falls back to the resolved user name.
   */
  function ResolveCredentials(env: Env): (c: Credentials)
    ensures Truthy(env.smtpUser) ==> c.user == env.smtpUser.value
    ensures !Truthy(env.smtpUser) && Truthy(env.gmailUser) ==> c.user == env.gmailUser.value
    ensures !Truthy(env.smtpUser) && !Truthy(env.gmailUser) ==> c.user == ""
    ensures Truthy(env.smtpPass) ==> c.pass == env.smtpPass.value
    ensures !Truthy(env.smtpPass) && Truthy(env.gmailAppPassword) ==> c.pass == env.gmailAppPassword.value
    ensures (!Truthy(env.smtpPass) && !Truthy(env.gmailAppPassword) && Truthy(env.googleAppPassword))
              ==> c.pass == env.googleAppPassword.value
    ensures (!Truthy(env.smtpPass) && !Truthy(env.gmailAppPassword) && !Truthy(env.googleAppPassword))
              ==> c.pass == ""
    ensures c.recipient == if Truthy(env.contactEmail) then env.contactEmail.value else c.user
    // once a user name is resolved there is always a recipient
    ensures c.user != "" ==> c.recipient != ""
  {
    var user := OrElse(env.smtpUser, OrElse(env.gmailUser, ""));
    var pass := OrElse(env.smtpPass, OrElse(env.gmailAppPassword, OrElse(env.googleAppPassword, "")));
    Credentials(user, pass, OrElse(env.contactEmail, OrElse(Some(user), "")))
  }

  const MissingCredentials: string := "Email service not configured. Missing SMTP credentials."
  const MissingRecipient: string := "Email service not configured. Missing recipient email."

  /** The two configuration checks, credentials first. */
  function ConfigError(c: Credentials): (e: Option<string>)
    ensures e.None? <==> c.user != "" && c.pass != "" && c.recipient != ""
    ensures c.user == "" || c.pass == "" ==> e == Some(MissingCredentials)
    ensures e.Some? ==> e.value in {MissingCredentials, MissingRecipient}
  {
    if c.user == "" || c.pass == "" then Some(MissingCredentials)
    else if c.recipient == "" then Some(MissingRecipient)
    else None
  }

  /** `Boolean(process.env.X)` for each variable, reported when a message send fails. */
  datatype EnvPresent = EnvPresent(
    smtpUser: bool, smtpPass: bool, gmailUser: bool,
    gmailAppPassword: bool, googleAppPassword: bool, contactEmail: bool)

  function PresenceOf(env: Env): EnvPresent {
    EnvPresent(Truthy(env.smtpUser), Truthy(env.smtpPass), Truthy(env.gmailUser),
               Truthy(env.gmailAppPassword), Truthy(env.googleAppPassword), Truthy(env.contactEmail))
  }

  // ---------------------------------------------------------------------------
  // The submitted form

  /** What `formData.get` returns for a present field: text or an uploaded file. */
  datatype FormValue = Text(text: string) | Upload(bytes: seq<bv8>)

  /** The fields the route reads; an absent field is `None`. */
  datatype Form = Form(
    submissionType: Option<string>,
    name: Option<string>,
    songs: Option<string>,
    guests: Option<string>,
    attending: Option<string>,
    guestNames: Option<string>,
    textMessage: Option<string>,
    image: Option<FormValue>)

  /** The request body: a form, or a body `request.formData()` rejects with the given error text. */
  datatype Request = Multipart(form: Form) | Unreadable(reason: string)

  datatype Kind = SongRequest | Rsvp | Message

  /** Routing in fixed order: `song-request`, then `rsvp`, and every other value (or none) is a message. */
  function KindOf(submissionType: Option<string>): (k: Kind)
    ensures k == SongRequest <==> submissionType == Some("song-request")
    ensures k == Rsvp <==> submissionType == Some("rsvp")
    ensures k == Message <==> submissionType != Some("song-request") && submissionType != Some("rsvp")
  {
    if submissionType == Some("song-request") then SongRequest
    else if submissionType == Some("rsvp") then Rsvp
    else Message
  }

  /** `!v?.trim()`: the field is absent or blank. */
  predicate Missing(v: Option<string>) {
    v.None? || IsBlank(v.value)
  }

  /** `attending` with its default: an absent or empty field counts as "yes". */
  function AttendingOf(form: Form): (a: string)
    ensures a != ""
    ensures Truthy(form.attending) ==> a == form.attending.value
    ensures !Truthy(form.attending) ==> a == "yes"
  {
    OrElse(form.attending, "yes")
  }

  /** `parseInt(guests || '0', 10) || 0` */
  function GuestsNumberOf(form: Form): (n: int)
    ensures !Truthy(form.guests) ==> n == 0
    ensures Truthy(form.guests) ==> n == ParseIntOrZero(form.guests.value)
  {
    assert DecimalString(0) == "0";
    DecimalRoundTrip(0);
    ParseIntOrZero(OrElse(form.guests, "0"))
  }

  const FillAllFields: string := "Please fill in all fields"
  const EnterName: string := "Please enter your name"

  /** The kind's own field check; `Some(message)` means the request is answered 400. */
  function FieldError(form: Form): (e: Option<string>)
    // every kind needs a non-blank name, and its text says which kind refused
    ensures e.None? ==> form.name.Some? && !IsBlank(form.name.value)
    ensures e.Some? ==> e.value == (if KindOf(form.submissionType) == Message then EnterName else FillAllFields)
    // a song request also needs songs, an attending guest a count
    ensures e.None? && KindOf(form.submissionType) == SongRequest ==> form.songs.Some? && !IsBlank(form.songs.value)
    ensures e.None? && KindOf(form.submissionType) == Rsvp && AttendingOf(form) == "yes" ==>
              form.guests.Some? && !IsBlank(form.guests.value)
    // a form with its kind's required fields passes, whatever else it carries
    ensures KindOf(form.submissionType) == SongRequest ==>
              (e.None? <==> !Missing(form.name) && !IsBlank(OrElse(form.songs, "")))
    ensures KindOf(form.submissionType) == Rsvp ==>
              (e.None? <==> !Missing(form.name) && (AttendingOf(form) == "yes" ==> !Missing(form.guests)))
    // a message needs nothing but the name
    ensures KindOf(form.submissionType) == Message ==> (e.None? <==> !Missing(form.name))
  {
    match KindOf(form.submissionType)
    case SongRequest =>
      if Missing(form.name) || IsBlank(OrElse(form.songs, "")) then Some(FillAllFields) else None
    case Rsvp =>
      if Missing(form.name) || (AttendingOf(form) == "yes" && Missing(form.guests)) then Some(FillAllFields) else None
    case Message =>
      if Missing(form.name) then Some(EnterName) else None
  }

  /** A declining RSVP needs only a name: its guest fields are never checked. */
  lemma DecliningRsvpNeedsOnlyName(form: Form)
    requires KindOf(form.submissionType) == Rsvp && AttendingOf(form) != "yes"
    ensures FieldError(form).None? <==> !Missing(form.name)
  {
  }

  /** Truthiness of `formData.get('image')`: any uploaded file, or non-empty text. */
  predicate ImagePresent(image: Option<FormValue>) {
    image.Some? && (image.value.Upload? || image.value.text != "")
  }

  /** `imageFile ? 'drawn' : 'written'` */
  function MessageTypeOf(image: Option<FormValue>): (t: string)
    ensures t == "drawn" <==> ImagePresent(image)
    ensures t == "drawn" || t == "written"
  {
    if ImagePresent(image) then "drawn" else "written"
  }

  /** A message whose `image` field is text: `imageFile.arrayBuffer()` then throws. */
  predicate ImageUnreadable(form: Form) {
    && KindOf(form.submissionType) == Message
    && form.image.Some? && form.image.value.Text? && form.image.value.text != ""
  }

  // ---------------------------------------------------------------------------
  // HTML bodies (user text is interpolated as it is; only newlines become <br>)

  const SongOpen: string := "\n          <div style=\"font-family: Arial, sans-serif; max-width: 600px; margin: 0 auto;\">\n            <h2 style=\"color: #4f46e5;\">Wedding Playlist Song Request</h2>\n            <div style=\"margin: 20px 0; padding: 20px; background: #f9fafb; border-radius: 8px;\">\n              <p><strong>From:</strong> "
  const SongMiddle: string := "</p>\n              <p><strong>Requested songs:</strong></p>\n              <div style=\"white-space: pre-wrap; line-height: 1.6;\">"
  const SongClose: string := "</div>\n            </div>\n            <p style=\"color: #6b7280; font-size: 14px; margin-top: 20px;\">\n              This song request was submitted through the engagement website.\n            </p>\n          </div>\n        "
  const RsvpOpen: string := "\n          <div style=\"font-family: Arial, sans-serif; max-width: 600px; margin: 0 auto;\">\n            <h2 style=\"color: #4f46e5;\">New RSVP Received!</h2>\n            <div style=\"margin: 20px 0; padding: 20px; background: #f9fafb; border-radius: 8px;\">\n              <p><strong>Name:</strong> "
  const RsvpAfterName: string := "</p>\n              <p><strong>Attendance:</strong> "
  const RsvpAfterStatus: string := "</p>\n              "
  const RsvpAfterGuests: string := "\n              "
  const RsvpClose: string := "\n            </div>\n            <p style=\"color: #6b7280; font-size: 14px; margin-top: 20px;\">\n              This RSVP was submitted through the engagement website.\n            </p>\n          </div>\n        "
  const MsgOpen: string := "\n        <div style=\"font-family: Arial, sans-serif; max-width: 600px; margin: 0 auto;\">\n          <h2 style=\"color: #4f46e5;\">You've received a new message!</h2>\n          <p><strong>From:</strong> "
  const MsgAfterName: string := "</p>\n          "
  const MsgClose: string := "\n        </div>\n      "
  const DrawnBeforeRef: string := "<p>Here's the handwritten message:</p>\n              <div style=\"margin: 20px 0; padding: 15px; background: #f9fafb; border-radius: 8px;\">\n                <img src=\""
  const DrawnAfterRef: string := "\" alt=\"Handwritten message\" style=\"max-width: 100%; height: auto;\" />\n              </div>"
  const NoImageLine: string := "<p>No image was attached to this message.</p>"
  const WrittenOpen: string := "<p>Here's the written message:</p>\n              <div style=\"margin: 20px 0; padding: 15px; background: #f9fafb; border-radius: 8px; white-space: pre-wrap; line-height: 1.6;\">\n                "
  const WrittenClose: string := "\n              </div>"
  const NoTextLine: string := "<p>No message text was provided.</p>"
  const ContentId: string := "handwritten-message"
  const GuestsLabel: string := "<p><strong>Number of Guests:</strong> "
  const GuestNamesLabel: string := "<p><strong>Guest Names:</strong> "
  const ParagraphEnd: string := "</p>"

  function SongHtml(name: string, songs: string): string {
    SongOpen + name + SongMiddle + ReplaceNewlines(songs) + SongClose
  }

  /** The song e-mail shows the requester's name and the song list with its line breaks. */
  lemma SongHtmlShows(name: string, songs: string)
    ensures Contains(SongHtml(name, songs), name)
    ensures Contains(SongHtml(name, songs), ReplaceNewlines(songs))
  {
    TemplateShows2(SongOpen, name, SongMiddle, ReplaceNewlines(songs), SongClose);
  }

  /** `isAttending ? 'Attending' : 'Not attending'` */
  function AttendanceStatus(attending: string): (r: string)
    ensures r == "Attending" <==> attending == "yes"
    ensures r == "Attending" || r == "Not attending"
  {
    if attending == "yes" then "Attending" else "Not attending"
  }

  /** The guest-count line: present only for an attending guest with a positive count, and it shows the count. */
  function GuestsSection(isAttending: bool, guestsNumber: int): (r: string)
    ensures r != "" <==> isAttending && guestsNumber > 0
    ensures r != "" ==> Contains(r, DecimalString(guestsNumber))
  {
    if isAttending && guestsNumber > 0 then
      ContainsMiddle(GuestsLabel, DecimalString(guestsNumber), ParagraphEnd);
      GuestsLabel + DecimalString(guestsNumber) + ParagraphEnd
    else ""
  }

  /** The guest-names line: present only for an attending guest who gave names, and it shows them. */
  function GuestNamesSection(isAttending: bool, guestNames: string): (r: string)
    ensures r != "" <==> isAttending && !IsBlank(guestNames)
    ensures r != "" ==> Contains(r, guestNames)
  {
    if isAttending && !IsBlank(guestNames) then
      ContainsMiddle(GuestNamesLabel, guestNames, ParagraphEnd);
      GuestNamesLabel + guestNames + ParagraphEnd
    else ""
  }

  function RsvpHtml(name: string, status: string, guestsSection: string, namesSection: string): string {
    RsvpOpen + name + RsvpAfterName + status + RsvpAfterStatus
      + guestsSection + RsvpAfterGuests + namesSection + RsvpClose
  }

  /** The RSVP e-mail shows the name, the attendance label and both optional lines. */
  lemma RsvpHtmlShows(name: string, status: string, guestsSection: string, namesSection: string)
    ensures var html := RsvpHtml(name, status, guestsSection, namesSection);
      Contains(html, name) && Contains(html, status)
      && Contains(html, guestsSection) && Contains(html, namesSection)
  {
    TemplateShows4(RsvpOpen, name, RsvpAfterName, status, RsvpAfterStatus,
                   guestsSection, RsvpAfterGuests, namesSection, RsvpClose);
  }

  /** The inner template of the message e-mail, with its two nested conditionals. */
  function MessageSection(messageType: string, imagePresent: bool, textMessage: Option<string>): string {
    if messageType == "drawn" then
      (if imagePresent then DrawnBeforeRef + ("cid:" + ContentId) + DrawnAfterRef else NoImageLine)
    else if Truthy(textMessage) then WrittenOpen + ReplaceNewlines(textMessage.value) + WrittenClose
    else NoTextLine
  }

  function MessageHtml(name: string, messageType: string, imagePresent: bool, textMessage: Option<string>): string {
    MsgOpen + name + MsgAfterName + MessageSection(messageType, imagePresent, textMessage) + MsgClose
  }

  /**
   * The message e-mail shows the sender's name; a drawn message embeds the image
   * through its content id, a written one shows the text with its line breaks,
   * and an empty one shows the "no text" placeholder.
   */
  lemma MessageHtmlShows(name: string, image: Option<FormValue>, textMessage: Option<string>)
    ensures var html := MessageHtml(name, MessageTypeOf(image), ImagePresent(image), textMessage);
      && Contains(html, name)
      && (ImagePresent(image) ==> Contains(html, "cid:" + ContentId))
      && (!ImagePresent(image) && Truthy(textMessage) ==> Contains(html, ReplaceNewlines(textMessage.value)))
      && (!ImagePresent(image) && !Truthy(textMessage) ==> Contains(html, NoTextLine))
  {
    var section := MessageSection(MessageTypeOf(image), ImagePresent(image), textMessage);
    TemplateShows2(MsgOpen, name, MsgAfterName, section, MsgClose);
    var inner: string;
    if ImagePresent(image) {
      inner := "cid:" + ContentId;
      ContainsMiddle(DrawnBeforeRef, inner, DrawnAfterRef);
    } else if Truthy(textMessage) {
      inner := ReplaceNewlines(textMessage.value);
      ContainsMiddle(WrittenOpen, inner, WrittenClose);
    } else {
      inner := NoTextLine;
      ContainsMiddle([], inner, []);
      assert [] + inner + [] == inner;
    }
    ContainsWithin(MsgOpen + name + MsgAfterName, section, MsgClose, inner);
  }

  /**
   * The "no image was attached" placeholder is never rendered: the message type
   * is "drawn" only when the image is present.
   */
  lemma NoImagePlaceholderUnreachable(image: Option<FormValue>, textMessage: Option<string>)
    ensures MessageSection(MessageTypeOf(image), ImagePresent(image), textMessage) != NoImageLine
  {
    if !ImagePresent(image) && Truthy(textMessage) {
      assert |WrittenOpen| > |NoImageLine|;
    }
  }

  // ---------------------------------------------------------------------------
  // The mail and the relay

  datatype Attachment = Attachment(filename: string, content: seq<bv8>, cid: string, encoding: string)

  datatype Mail = Mail(from: string, to: string, subject: string, html: string, attachments: seq<Attachment>)

  function Sender(user: string): string {
    "\"Engagement Website\" <" + user + ">"
  }

  function SubjectPrefix(kind: Kind): string {
    match kind
    case SongRequest => "New Song Request from "
    case Rsvp => "New RSVP from "
    case Message => "New Message from "
  }

  /** The kind's e-mail body, computed from the form as the route does. */
  function BodyFor(form: Form): string {
    var name := form.name.GetOr("");
    match KindOf(form.submissionType)
    case SongRequest => SongHtml(name, OrElse(form.songs, ""))
    case Rsvp =>
      var isAttending := AttendingOf(form) == "yes";
      RsvpHtml(name, AttendanceStatus(AttendingOf(form)),
               GuestsSection(isAttending, GuestsNumberOf(form)),
               GuestNamesSection(isAttending, OrElse(form.guestNames, "")))
    case Message =>
      MessageHtml(name, MessageTypeOf(form.image), ImagePresent(form.image), form.textMessage)
  }

  /**
   * The one mail the route sends for a form that passed every check: from the
   * site to the resolved recipient, with the kind's subject and body, and the
   * uploaded image as its only attachment (messages only).
   */
  function MailFor(form: Form, cred: Credentials): (m: Mail)
    ensures m.from == Sender(cred.user) && m.to == cred.recipient
    ensures m.subject == SubjectPrefix(KindOf(form.submissionType)) + form.name.GetOr("")
    ensures m.html == BodyFor(form)
    ensures |m.attachments| <= 1
    ensures m.attachments != [] <==> KindOf(form.submissionType) == Message && form.image.Some? && form.image.value.Upload?
    ensures m.attachments != [] ==>
              m.attachments[0] == Attachment("handwritten-message.png", form.image.value.bytes, ContentId, "base64")
  {
    var attachments :=
      if KindOf(form.submissionType) == Message && form.image.Some? && form.image.value.Upload? then
        [Attachment("handwritten-message.png", form.image.value.bytes, ContentId, "base64")]
      else [];
    Mail(Sender(cred.user), cred.recipient,
         SubjectPrefix(KindOf(form.submissionType)) + form.name.GetOr(""),
         BodyFor(form), attachments)
  }

  /** A value the relay throws: an object (maybe an `Error`), or `null`/`undefined`. */
  datatype Fault =
    | Thrown(isError: bool, message: string, asString: string, code: Option<string>)
    | ThrownFalsy

  datatype Outcome<T> = Returned(value: T) | Raised(fault: Fault)

  /** How the relay answers `verify()` (`None`: it resolves) and `sendMail(mail)` (a message id, or a fault). */
  datatype Relay = Relay(verifyFault: Option<Fault>, send: Mail -> Outcome<string>)

  /** The calls the route makes on the relay, in order. */
  datatype RelayCall =
    | CreateTransport(service: string, user: string, pass: string)
    | VerifyCall
    | SendCall(mail: Mail)

  function SessionStart(cred: Credentials): seq<RelayCall> {
    [CreateTransport("gmail", cred.user, cred.pass), VerifyCall]
  }

  /** `Email service error: ${err instanceof Error ? err.message : 'SMTP verification failed'}` */
  function VerifyFailureMessage(f: Fault): string {
    "Email service error: " + (if f.Thrown? && f.isError then f.message else "SMTP verification failed")
  }

  /**
   * A verify failure is never reported as a missing recipient: both texts
   * begin "Email service ", and the next character is 'e' in the one and 'n'
   * in the other.
   */
  lemma VerifyFailureIsNotMissingRecipient(f: Fault)
    ensures VerifyFailureMessage(f) != MissingRecipient
  {
    assert VerifyFailureMessage(f)[14] == 'e' && MissingRecipient[14] == 'n';
  }

  /** `(err && (err.message || err.toString())) || 'Unknown email error'`: never empty. */
  function SendFailureMessage(f: Fault): (r: string)
    ensures r != ""
    ensures f.Thrown? && f.message != "" ==> r == f.message
  {
    if f.Thrown? && f.message != "" then f.message
    else if f.Thrown? && f.asString != "" then f.asString
    else "Unknown email error"
  }

  /** `err?.code || null` */
  function FaultCode(f: Fault): (c: Option<string>)
    ensures c.Some? <==> f.Thrown? && Truthy(f.code)
    ensures c.Some? ==> c == f.code && c.value != ""
  {
    if f.Thrown? && Truthy(f.code) then f.code else None
  }

  // ---------------------------------------------------------------------------
  // The response

  /** The JSON body of a response. */
  datatype Reply =
    | Delivered(message: string, messageId: string)
    | Rejected(message: string)
    | RelayFailed(message: string, code: Option<string>, provider: string, envPresent: Option<EnvPresent>)
    | Crashed(message: string, error: string)
  {
    /** The `success` field. */
    predicate Success() { Delivered? }
  }

  datatype Response = Response(status: int, reply: Reply)

  function SuccessMessage(kind: Kind): string {
    match kind
    case SongRequest => "Song request submitted successfully!"
    case Rsvp => "RSVP submitted successfully!"
    case Message => "Message sent successfully!"
  }

  const GenericFailure: string := "Failed to send message. Please try again later."
  /**
   * The error text of the TypeError thrown by calling `arrayBuffer` on a text
   * value, as one JavaScript engine words it. The actual wording depends on
   * the runtime and on identifiers the bundler may rename; the model fixes
   * this one text.
   */
  const ImageNotAFile: string := "imageFile.arrayBuffer is not a function"

  /**
   * `POST`: validate, check the configuration, create and verify a relay
   * session, build the kind's mail and send it once. Every failure is turned
   * into a response; nothing is retried.
   */
  method Post(request: Request, env: Env, relay: Relay) returns (response: Response, calls: seq<RelayCall>)
    // a body that is not a form ends in the outer catch, before anything else
    ensures request.Unreadable? ==> response == Response(500, Crashed(GenericFailure, request.reason)) && calls == []
    // 400 exactly when the kind's own fields are missing, and then nothing is contacted
    ensures response.status == 400 <==> request.Multipart? && FieldError(request.form).Some?
    ensures response.status == 400 ==> response.reply == Rejected(FieldError(request.form).value) && calls == []
    // configuration comes next; the missing-recipient answer is never given
    ensures (request.Multipart? && FieldError(request.form).None? && ConfigError(ResolveCredentials(env)).Some?)
              ==> response == Response(500, Rejected(MissingCredentials)) && calls == []
    ensures response.reply != Rejected(MissingRecipient)
    // the session is linear: created and verified once, then at most one send
    ensures calls != [] <==>
              request.Multipart? && FieldError(request.form).None? && ConfigError(ResolveCredentials(env)).None?
    ensures calls != [] ==> 2 <= |calls| <= 3 && calls[..2] == SessionStart(ResolveCredentials(env))
    // a failed verify is reported with its text and nothing is sent
    ensures calls != [] && relay.verifyFault.Some? ==>
              |calls| == 2 && response == Response(500, Rejected(VerifyFailureMessage(relay.verifyFault.value)))
    // after a good verify the only way not to send is an image field holding text
    ensures |calls| == 2 && relay.verifyFault.None? ==>
              request.Multipart? && ImageUnreadable(request.form)
              && response == Response(500, Crashed(GenericFailure, ImageNotAFile))
    // the send carries the kind's mail, and its outcome decides the answer
    ensures |calls| == 3 ==>
              && request.Multipart? && relay.verifyFault.None? && !ImageUnreadable(request.form)
              && calls[2] == SendCall(MailFor(request.form, ResolveCredentials(env)))
    ensures |calls| == 3 && request.Multipart? ==>
              match relay.send(calls[2].mail)
              case Returned(id) =>
                response == Response(200, Delivered(SuccessMessage(KindOf(request.form.submissionType)), id))
              case Raised(f) =>
                response == Response(500, RelayFailed(SendFailureMessage(f), FaultCode(f), "gmail",
                  if KindOf(request.form.submissionType) == Message then Some(PresenceOf(env)) else None))
    // every answer is 200, 400 or 500, success is exactly 200, and its message is never empty
    ensures response.status in {200, 400, 500}
    ensures response.status == 200 <==> response.reply.Success()
    ensures response.reply.message != ""
    // success only comes from a send, with the relay's message id unchanged
    ensures response.reply.Success() ==>
              |calls| == 3 && relay.send(calls[2].mail) == Returned(response.reply.messageId)
  {
    calls := [];
    if request.Unreadable? {
      response := Response(500, Crashed(GenericFailure, request.reason));
      return;
    }
    var form := request.form;
    var cred := ResolveCredentials(env);

    var fieldError := FieldError(form);
    if fieldError.Some? {
      response := Response(400, Rejected(fieldError.value));
      return;
    }
    if cred.user == "" || cred.pass == "" {
      response := Response(500, Rejected(MissingCredentials));
      return;
    }
    if cred.recipient == "" {
      // the recipient falls back to the user name, which was just found non-empty
      assert false;
    }
    response, calls := Session(form, cred, env, relay);
  }

  /**
   * The part of `POST` that talks to the relay, reached once the fields and
   * the configuration are good: create the transport, verify it, and send the
   * kind's mail unless the verify failed or the image cannot be read.
   */
  method Session(form: Form, cred: Credentials, env: Env, relay: Relay) returns (response: Response, calls: seq<RelayCall>)
    requires ConfigError(cred).None?
    ensures 2 <= |calls| <= 3 && calls[..2] == SessionStart(cred)
    ensures relay.verifyFault.Some? ==>
              |calls| == 2 && response == Response(500, Rejected(VerifyFailureMessage(relay.verifyFault.value)))
    ensures |calls| == 2 && relay.verifyFault.None? ==>
              ImageUnreadable(form) && response == Response(500, Crashed(GenericFailure, ImageNotAFile))
    ensures |calls| == 3 ==>
              && relay.verifyFault.None? && !ImageUnreadable(form)
              && calls[2] == SendCall(MailFor(form, cred))
              && match relay.send(calls[2].mail)
                 case Returned(id) =>
                   response == Response(200, Delivered(SuccessMessage(KindOf(form.submissionType)), id))
                 case Raised(f) =>
                   response == Response(500, RelayFailed(SendFailureMessage(f), FaultCode(f), "gmail",
                     if KindOf(form.submissionType) == Message then Some(PresenceOf(env)) else None))
    ensures response.reply != Rejected(MissingRecipient) && response.reply.message != ""
    ensures response.status in {200, 500}
    ensures response.status == 200 <==> response.reply.Success()
  {
    calls := [CreateTransport("gmail", cred.user, cred.pass)];
    calls := calls + [VerifyCall];
    if relay.verifyFault.Some? {
      response := Response(500, Rejected(VerifyFailureMessage(relay.verifyFault.value)));
      VerifyFailureIsNotMissingRecipient(relay.verifyFault.value);
      return;
    }

    var sent: Option<Mail>;
    response, sent := SendPhase(form, cred, env, relay);
    if sent.Some? {
      calls := calls + [SendCall(sent.value)];
    }
  }

  /**
   * The part of `POST` after a good verify: read the image of a drawn message
   * into the one attachment, build the mail, send it and turn the outcome into
   * the response. `sent` is the mail handed to the relay, if any.
   */
  method SendPhase(form: Form, cred: Credentials, env: Env, relay: Relay) returns (response: Response, sent: Option<Mail>)
    ensures ImageUnreadable(form) ==> sent == None && response == Response(500, Crashed(GenericFailure, ImageNotAFile))
    ensures !ImageUnreadable(form) ==> sent == Some(MailFor(form, cred))
    ensures response.reply.message != "" && !response.reply.Rejected?
    ensures response.status in {200, 500}
    ensures response.status == 200 <==> response.reply.Success()
    ensures sent.Some? ==>
              match relay.send(sent.value)
              case Returned(id) =>
                response == Response(200, Delivered(SuccessMessage(KindOf(form.submissionType)), id))
              case Raised(f) =>
                response == Response(500, RelayFailed(SendFailureMessage(f), FaultCode(f), "gmail",
                  if KindOf(form.submissionType) == Message then Some(PresenceOf(env)) else None))
  {
    var kind := KindOf(form.submissionType);
    var attachments: seq<Attachment> := [];
    if kind == Message && ImagePresent(form.image) {
      match form.image.value
      case Text(_) =>
        response, sent := Response(500, Crashed(GenericFailure, ImageNotAFile)), None;
        return;
      case Upload(bytes) =>
        attachments := attachments + [Attachment("handwritten-message.png", bytes, ContentId, "base64")];
    }

    var mail := Mail(Sender(cred.user), cred.recipient, SubjectPrefix(kind) + form.name.GetOr(""),
                     BodyFor(form), attachments);
    assert mail.attachments == MailFor(form, cred).attachments;
    sent := Some(mail);
    var info := relay.send(mail);
    match info
    case Returned(id) =>
      response := Response(200, Delivered(SuccessMessage(kind), id));
    case Raised(f) =>
      response := Response(500, RelayFailed(SendFailureMessage(f), FaultCode(f), "gmail",
                                            if kind == Message then Some(PresenceOf(env)) else None));
  }
}
