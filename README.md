# Wedding site: submissions and countdown, modelled in Dafny

This project models the engagement/wedding website's submission path and its
countdown:

- **The e-mail route** (`POST` on `/api/send-email`). It reads one multipart
  form, and the `type` field picks a song request, an RSVP or a free message.
  It then checks that kind's fields, and resolves the mail credentials from
  the environment through fallback chains. Next it creates a relay session
  (nodemailer, "gmail" profile), verifies it, and sends at most one mail. It
  answers with one JSON body and an HTTP status.
- **The RSVP form**. Its state is the name, the attendance choice, the guest
  count, one name per guest, a submitting flag and a notice. It has a
  guest-count handler that resizes the name list, a guest-name handler, and a
  submit handler. The submit handler validates, posts the form data and reads
  the answer.
- **The song-request form**. Same submit pattern, with texts in English or
  Arabic.
- **The countdown**. The time left to the wedding, split into days, hours,
  minutes and seconds. It is recomputed on every tick but replaced only when a
  value changes, and each value is shown padded to two digits.

## How the model is laid out

- `js_text.dfy` and `js_number.dfy` model the JavaScript primitives the code
  relies on, each with its properties proved:
  - `trim`
  - truthiness and `||`
  - `replace(/\n/g, '<br>')`
  - `join`
  - `padStart`
  - `parseInt(s, 10) || 0`
  - `toString`
- `send_email.dfy` models the route.
  - `Post` is a method. It returns the response and the calls it made on the
    relay, in order.
  - The relay itself is a parameter. It says whether `verify` throws, and what
    `sendMail` does with each mail.
- `form_reply.dfy` covers how a form turns a settled `fetch` into an error
  text or success.
- `rsvp_section.dfy` and `song_request_section.dfy` model the two forms as
  classes whose methods update the form's state.
  - An `async` submit handler is split at its `await`. `Begin` validates and
    yields the form data. `Finish` takes what `fetch` settled to.
- `countdown_timer.dfy` models the countdown:
  - the arithmetic, as functions with lemmas;
  - the component's state, as a class with a `Tick` method;
  - the display helper.
- `submission_flow.dfy` connects the pieces:
  - What a form posts is what the route reads.
  - What the route answers is what the form shows.
  - `SubmitRsvp` and `SubmitSongRequest` run one submission end to end.

Three behaviours of the route follow from its code and are worth stating,
because a reader might expect otherwise:

- **The missing-recipient error is never returned.** The recipient falls back
  to the mail user (app/api/send-email/route.ts:14). The user has already been
  checked to be non-empty just before the recipient check (route.ts:28-39).
  `SendEmail.Post` proves this.
- **The guest-names line of an RSVP e-mail does not depend on the guest
  count.** It is shown whenever the guest attends and the names are not blank
  (route.ts:154-156, `SendEmail.GuestNamesSection`).
- **An empty `attending` value counts as "yes", like an absent one.** The
  route reads the field with `|| 'yes'` (`SendEmail.AttendingOf`).

## Model

| member | source | states |
|---|---|---|
| JsText.TrimStart | components/rsvp-section.tsx:46 | Leading-white-space removal: what it drops is all white space, and what it keeps is empty or starts with a non-space character |
| JsText.TrimStartSuffix | components/rsvp-section.tsx:46 | What leading-space removal keeps is a tail of the original text |
| JsText.TrimEnd | components/rsvp-section.tsx:46 | Trailing-white-space removal: it keeps a prefix of the text, drops only white space, and the prefix ends with a non-space character |
| JsText.Trim | components/rsvp-section.tsx:46 | `s.trim()` is never longer than `s` and leaves no white space at either end. TrimShape adds that it is a contiguous piece of `s`, and TrimIdempotent that trimming again changes nothing |
| JsText.BlankIffAllSpace | app/api/send-email/route.ts:20 | `!s.trim()` holds exactly when every character of `s` is white space |
| JsText.TrimShape | components/rsvp-section.tsx:84 | A trimmed value is a contiguous piece of the original with no white space at either end |
| JsText.TrimIdempotent | app/api/send-email/route.ts:108 | Trimming twice equals trimming once, so a value the form trimmed and found non-blank stays non-blank for the route's own `trim` check |
| JsText.OrElse | app/api/send-email/route.ts:18 | `v \|\| fallback` is the value when it is a non-empty string, else the fallback |
| JsText.ReplaceNewlines | app/api/send-email/route.ts:71 | After `replace(/\n/g, '<br>')` no newline is left |
| JsText.ReplaceNewlinesAppend | app/api/send-email/route.ts:71 | The replacement works piece by piece: it distributes over concatenation |
| JsText.ReplaceNewlinesNoop | app/api/send-email/route.ts:283 | Text without a newline is sent unchanged |
| JsText.TwoLinesRendered | app/api/send-email/route.ts:71 | Two lines `a\nb` are rendered as `a<br>b` |
| JsText.ReplaceNewlinesRoundTrip | app/api/send-email/route.ts:283 | For text without `<`, turning each `<br>` back into a newline restores the text, so the rendering loses nothing |
| JsText.Join | components/rsvp-section.tsx:91-93 | A non-empty list joins to text that starts with its first entry |
| JsText.JoinContainsEach | components/rsvp-section.tsx:91-93 | Every entry of a list appears in its joined text |
| JsText.JoinNotBlank | components/rsvp-section.tsx:91-93 | A list whose first entry is not blank joins to non-blank text |
| JsText.ContainsTrans | app/api/send-email/route.ts:170-171 | Text shown inside a line that is shown in the e-mail is shown in the e-mail |
| JsText.PadStart | components/countdown-timer.tsx:101 | `padStart(width, fill)` has length max(len, width), ends with the original text, and everything before it is the fill character |
| JsNumber.LeadingDigits | components/rsvp-section.tsx:20 | Where `parseInt` stops reading: the longest prefix made only of digits |
| JsNumber.ParseIntOrZero | components/rsvp-section.tsx:62 | `parseInt(s, 10) \|\| 0`: skip leading white space, read an optional sign and the digits after it, and give 0 when there are none. ParseIntOrZeroReads states this reading, and ParseDigits, DecimalRoundTrip and ParseIgnoresTrim state further properties |
| JsNumber.DecimalString | app/api/send-email/route.ts:152 | `n.toString()` is a non-empty digit string without a leading zero |
| JsNumber.DecimalStringValue | app/api/send-email/route.ts:152 | The rendered digits denote `n` |
| JsNumber.DecimalRoundTrip | app/api/send-email/route.ts:152 | `parseInt(n.toString(), 10) \|\| 0 == n` for every whole number |
| JsNumber.ParseDigits | components/rsvp-section.tsx:62 | A non-empty digit string parses to its value |
| JsNumber.ParseIntOrZeroReads | components/rsvp-section.tsx:62 | For text made of leading white space, an optional `+` or `-`, a digit run and anything that does not continue it, `parseInt(s, 10) \|\| 0` gives 0 when there are no digits, the digits' value negated after a `-`, and their value otherwise. What follows the digits is ignored |
| JsNumber.LeadingZeroValue | components/countdown-timer.tsx:101 | A leading `0` does not change the value of a digit run |
| JsNumber.LeadingDigitsOfCut | components/rsvp-section.tsx:90 | Cutting text where no digit follows leaves what `parseInt` reads unchanged |
| JsNumber.ParseIgnoresTrim | components/rsvp-section.tsx:82-90 | `parseInt` reads the same count from the guest field as from the field trimmed, so the form's check and the posted value agree |
| SendEmail.ResolveCredentials | app/api/send-email/route.ts:12-14 | Each of user, password and recipient is the first set, non-empty candidate in its fallback chain. The recipient falls back to the user, so a resolved user always yields a recipient |
| SendEmail.ConfigError | app/api/send-email/route.ts:28-39 | The configuration passes exactly when user, password and recipient are all non-empty. A missing user or password is reported as missing credentials, and that check comes first. No other text is possible |
| SendEmail.AttendingOf | app/api/send-email/route.ts:103 | `attending \|\| 'yes'`: the field when it is a non-empty string, otherwise "yes"; never empty |
| SendEmail.GuestsNumberOf | app/api/send-email/route.ts:106 | `parseInt(guests \|\| '0', 10) \|\| 0`: 0 for an absent or empty field, otherwise the count the field reads as |
| SendEmail.FieldError | app/api/send-email/route.ts:101-113 | The field check for each kind (lines 20, 108 and 205), both ways. A song request passes exactly when the name and songs are not blank. An RSVP passes exactly when the name is not blank and, for an attending guest, the count is not blank. A message passes exactly when the name is not blank. A refusal says "Please enter your name" for a message and "Please fill in all fields" otherwise |
| SendEmail.DecliningRsvpNeedsOnlyName | app/api/send-email/route.ts:108 | An RSVP that does not attend passes exactly when its name is not blank, whatever its guest fields hold |
| SendEmail.KindOf | app/api/send-email/route.ts:17-201 | `type` "song-request" selects the song path and "rsvp" the RSVP path (each if and only if). Anything else, including an absent type, is a message |
| SendEmail.MessageTypeOf | app/api/send-email/route.ts:201-203 | The message is "drawn" exactly when an image is present, otherwise "written" |
| SendEmail.SongHtmlShows | app/api/send-email/route.ts:65-77 | The song e-mail shows the requester's name and the song list with line breaks rendered |
| SendEmail.SongHtml | app/api/send-email/route.ts:65-77 | The song e-mail template. SongHtmlShows states what it shows |
| SendEmail.AttendanceStatus | app/api/send-email/route.ts:150 | The label is "Attending" exactly when `attending` is "yes", and "Not attending" otherwise |
| SendEmail.GuestsSection | app/api/send-email/route.ts:151-153 | The guest-count line is present exactly when attending with a positive count, and then it shows the count in decimal |
| SendEmail.GuestNamesSection | app/api/send-email/route.ts:154-156 | The guest-names line is present exactly when attending with non-blank names, and then it shows them |
| SendEmail.RsvpHtmlShows | app/api/send-email/route.ts:164-177 | The RSVP e-mail shows the name, the attendance label and both optional lines |
| SendEmail.RsvpHtml | app/api/send-email/route.ts:164-177 | The RSVP e-mail template. RsvpHtmlShows states what it shows, and RsvpMailShows what it shows for a form the RSVP section sent |
| SendEmail.MessageHtmlShows | app/api/send-email/route.ts:268-288 | The message e-mail shows the name. With an image it shows the inline-image reference. Without one, it shows the written text with line breaks rendered, or the no-text notice |
| SendEmail.MessageHtml | app/api/send-email/route.ts:268-288 | The message e-mail template. MessageHtmlShows states what it shows, and NoImagePlaceholderUnreachable which branch never renders |
| SendEmail.NoImagePlaceholderUnreachable | app/api/send-email/route.ts:272-278 | The "no image was attached" placeholder can never be rendered, because "drawn" is chosen only when an image is present |
| SendEmail.MailFor | app/api/send-email/route.ts:247-290 | The mail goes from the site's sender to the resolved recipient, with the kind's subject prefix plus the name and the kind's body. It has at most one attachment: the uploaded drawing as `handwritten-message.png`, present exactly for a message with an uploaded image |
| SendEmail.BodyFor | app/api/send-email/route.ts:65-288 | The body for the kind, computed from the form's fields. The song template is at lines 65-77. The RSVP template, at lines 150-177, is filled with the attendance label and the two optional lines. The message template is at lines 268-288. RsvpMailShows and SongRequestAccepted state what it shows |
| SendEmail.SendFailureMessage | app/api/send-email/route.ts:293 | The reported send error is never empty, and it is the error's own message when that is non-empty |
| SendEmail.VerifyFailureMessage | app/api/send-email/route.ts:52-56 | "Email service error: " followed by the error's message, or "SMTP verification failed" when what was thrown is not an Error. VerifyFailureIsNotMissingRecipient states that it never reads as the missing-recipient text |
| SendEmail.VerifyFailureIsNotMissingRecipient | app/api/send-email/route.ts:34-56 | A verify failure's text always differs from the missing-recipient text, so that answer stays unreachable after a verify |
| SendEmail.FaultCode | app/api/send-email/route.ts:92 | `err?.code \|\| null`: present exactly when the thrown error carries a non-empty code, and then it is that code |
| SendEmail.Post | app/api/send-email/route.ts:7-330 | The answer is 400 exactly when the kind's fields are missing. Nothing reaches the relay before the field and credential checks pass, and at most one mail, the kind's own, is sent. Success is exactly 200 and carries the relay's message id. The missing-recipient answer never occurs (details below) |
| SendEmail.Session | app/api/send-email/route.ts:226-245 | The session of every kind: the message branch cited here, the song request at lines 41-58 and the RSVP at lines 129-148. Once the fields and configuration are good, the session is created and verified exactly once, with at most one send. A verify failure is reported with its text. A good verify sends the kind's mail unless the image cannot be read, and the send outcome decides between 200 and 500 |
| SendEmail.SendPhase | app/api/send-email/route.ts:247-317 | The send of every kind: the message branch cited here, the song request at lines 60-97 and the RSVP at lines 150-197. After a good verify, an image field holding text ends in the outer 500 with nothing sent. Otherwise exactly the kind's mail is sent: a returned message id gives 200 with the kind's success text, and a thrown error gives 500 with its message and code, plus the environment-presence report for messages |
| FormReply.HttpFailureText | components/rsvp-section.tsx:118-125 | For a non-ok status the shown text is the body's `message`, else its `error`, else the raw text when not blank, else the form's fallback. It is never empty when the fallback is not |
| FormReply.SubmitError | components/rsvp-section.tsx:118-130 | A submission succeeds exactly when the status is ok and the JSON body has `success` true. A network failure shows its own text, a non-ok status shows the HTTP failure text, and an ok status without success shows `message` or the API fallback |
| RsvpSection.SliceTo | components/rsvp-section.tsx:68-70 | `slice(0, end)` is a prefix of the list, of length `end` clipped to the list, with a negative end counting back from the length |
| RsvpSection.HasBlankName | components/rsvp-section.tsx:68-70 | `.some(n => !n.trim())` over the counted guests. Checked uses it, and AttendingBodyShows shows that without a blank name every name appears in the e-mail |
| RsvpSection.CanSubmit | components/rsvp-section.tsx:45-75 | The submit checks taken together. Checked proves that the early returns in the source's order pass exactly when it holds. RsvpAccepted proves that the route then accepts the form |
| RsvpSection.RsvpEntries | components/rsvp-section.tsx:81-95 | The entries appended to the form data, in order. RsvpEntriesShape states their content, and RsvpFields what the route reads back from them |
| RsvpSection.Checked | components/rsvp-section.tsx:45-75 | The submit checks, made in the source's order, pass exactly when the name is not blank and the answer is "yes" or "no". An attending guest also needs a non-blank count of at least one and no blank name among the first `count` guests |
| RsvpSection.RsvpEntriesShape | components/rsvp-section.tsx:81-95 | A valid RSVP posts the trimmed non-blank name, the answer and the type "rsvp". Declining posts guests "0". Attending posts the trimmed count, which parses to at least one, and a joined name list showing every counted guest |
| RsvpSection.ResizeGuestNames | components/rsvp-section.tsx:21-31 | The name list becomes exactly `count` long, keeping existing names in place and filling new places with empty names. A negative count is refused and leaves the list as it was |
| RsvpSection.RsvpForm.constructor | components/rsvp-section.tsx:11-16 | Initial state: empty name and answer, one guest with one empty name, not submitting, no notice; the guest list matches the count |
| RsvpSection.RsvpForm.EditName | components/rsvp-section.tsx:282 | Only the name changes |
| RsvpSection.RsvpForm.ChooseAttending | components/rsvp-section.tsx:302-314 | Only the answer changes, to "yes" or "no" |
| RsvpSection.RsvpForm.GuestsChange | components/rsvp-section.tsx:18-32 | Stores the value and resizes the name list to the count it parses to, keeping earlier names. Only the guest fields change, and the list always matches the count |
| RsvpSection.RsvpForm.GuestNameChange | components/rsvp-section.tsx:34-40 | Replaces exactly the given guest's name; nothing else changes |
| RsvpSection.RsvpForm.Begin | components/rsvp-section.tsx:42-96 | Yields form data exactly when the checks pass; the data are the RSVP entries. On failure it shows the RSVP error and sends nothing. On success it marks the form submitting with the "Submitting..." notice. The fields never change |
| RsvpSection.RsvpForm.Finish | components/rsvp-section.tsx:97-151 | On success: the success notice and a reset form (one guest, one empty name). On failure: the error text, with the fields kept. Either way the form stops submitting |
| RsvpSection.OneGuest | components/rsvp-section.tsx:13 | The initial and reset guest value "1" counts one guest |
| SongRequestSection.SongEntriesShape | components/song-request-section.tsx:30-33 | A valid request posts type "song-request" with the name and songs trimmed; neither is blank and neither changes under a second trim |
| SongRequestSection.SongEntries | components/song-request-section.tsx:30-33 | The three entries appended to the form data. SongEntriesShape states their content, and SongRequestAccepted what the route makes of them |
| SongRequestSection.SongRequestForm.constructor | components/song-request-section.tsx:10-13 | Initial state: both fields empty, not submitting, no notice |
| SongRequestSection.SongRequestForm.EditName | components/song-request-section.tsx:174 | Only the name changes |
| SongRequestSection.SongRequestForm.EditSongs | components/song-request-section.tsx:194 | Only the songs change |
| SongRequestSection.SongRequestForm.Begin | components/song-request-section.tsx:15-33 | Yields the song entries exactly when neither field is blank, then marks the form submitting. Otherwise it shows "fill in all fields" in the page's language and sends nothing |
| SongRequestSection.SongRequestForm.Finish | components/song-request-section.tsx:35-87 | On success: the thank-you text, with both fields cleared. On failure: the error text (with the language's fallbacks), with the fields kept. Either way the form stops submitting |
| CountdownTimer.Decompose | components/countdown-timer.tsx:31-39 | For a positive difference, hours < 24, minutes < 60 and seconds < 60, and the four values add up to exactly the whole seconds of the difference |
| CountdownTimer.SplitSeconds | components/countdown-timer.tsx:34-38 | Each of the four values depends only on the whole seconds, and they recombine to them |
| CountdownTimer.SameValuesIffSameSecond | components/countdown-timer.tsx:42-50 | Two differences show the same four values if and only if they fall in the same whole second |
| CountdownTimer.CountsDown | components/countdown-timer.tsx:31 | A later clock reading never shows more time left |
| CountdownTimer.Display | components/countdown-timer.tsx:101 | `value.toString().padStart(2, "0")`. DisplayRoundTrip and DisplayDigits state its properties |
| CountdownTimer.DisplayRoundTrip | components/countdown-timer.tsx:101 | `value.toString().padStart(2, "0")` is at least two long, exactly two below 100, and reads back as the value |
| CountdownTimer.DisplayDigits | components/countdown-timer.tsx:101 | The padded display is made of decimal digits only |
| CountdownTimer.ZeroPaddedDigits | components/countdown-timer.tsx:101 | Padding a digit string with zeros to any width keeps it made of digits only |
| CountdownTimer.Countdown.constructor | components/countdown-timer.tsx:19-24 | Starts at zero time left for the given target |
| CountdownTimer.Countdown.Tick | components/countdown-timer.tsx:30-52 | Before the target the state is the decomposition of the time left; from the target on it stays as it was. The state is replaced exactly when a value changes |
| SubmissionFlow.FieldAt | app/api/send-email/route.ts:10-11 | `formData.get(key)` returns the first entry with that key |
| SubmissionFlow.FieldOf | app/api/send-email/route.ts:10-11 | `formData.get(key)`: the value of the first entry with that key, or none. FieldAt states it |
| SubmissionFlow.FormOf | app/api/send-email/route.ts:9-11 | The form the route reads from the entries a component appended. RsvpFields, RsvpAccepted and SongRequestAccepted state what the route reads |
| SubmissionFlow.SongRequestAccepted | app/api/send-email/route.ts:17-25 | A request the song form lets through is routed as a song request, passes the route's field check, and its e-mail shows the trimmed name and songs |
| SubmissionFlow.RsvpFields | components/rsvp-section.tsx:84-94 | The route reads back the name, answer, count and joined guest names that the RSVP form appended |
| SubmissionFlow.RsvpAccepted | app/api/send-email/route.ts:101-113 | An RSVP the form lets through is routed as an RSVP and passes the route's field check. The route reads the same answer and, when attending, the same guest count of at least one |
| SubmissionFlow.RsvpMailShows | app/api/send-email/route.ts:150-177 | The e-mail of a valid RSVP shows the name and answer. When attending it also shows the count and every guest's name; when declining it has neither line |
| SubmissionFlow.AttendingBodyShows | app/api/send-email/route.ts:151-171 | An attending RSVP e-mail with one non-blank name per guest shows the count and each name |
| SubmissionFlow.ServerMessageShown | components/rsvp-section.tsx:118-135 | For every answer the route can give, the form reports success exactly for a delivered e-mail and otherwise shows the route's own message |
| SubmissionFlow.SubmitRsvp | components/rsvp-section.tsx:42-151 | An invalid form sends nothing, shows the RSVP error, and changes no other field. A valid one shows exactly the route's outcome. Missing credentials contact nothing. A failed verify makes only the two session calls. A good verify makes one send: an accepted mail resets the whole form (empty name and answer, one guest with one empty name), and a refused one shows the relay's error text. Every failure keeps all fields, and the form stops submitting (details below) |
| SubmissionFlow.SubmitSongRequest | components/song-request-section.tsx:15-87 | The same end-to-end guarantees as SubmitRsvp, with the song form's texts. A blank field sends nothing and shows "fill in all fields" in the page's language, changing nothing else. Success shows the thank-you text and clears both fields. Every failure keeps both fields, and a failed verify makes only the two session calls |

**SendEmail.Post**
- An unreadable body gives 500 with the generic failure.
- The answer is 400 exactly when the kind's fields are missing. The missing-credentials answer comes next, and the missing-recipient answer never occurs.
- Nothing is sent to the relay before those checks pass. Then the session is created and verified once, and at most one mail is sent: exactly the kind's mail.
- Success happens exactly at status 200, only after a send, and carries the relay's message id.
- Every message is non-empty.

**SubmissionFlow.SubmitRsvp**
- An invalid form sends nothing and shows the RSVP error.
- An invalid form also keeps its fields and its submitting flag.
- Otherwise the form shows exactly the route's outcome, and afterwards it is no longer submitting:
  - the missing-credentials text, with no relay call;
  - the verify error, after exactly the two session calls;
  - success, with the whole form reset, when the relay accepted the mail;
  - the relay's own error text when it refused the mail.
- On every failure all four fields are kept.

## Left out

- The mail relay (nodemailer with its SMTP connection) is not modelled. `Relay` stands in for it: whether `verify` throws, and what `sendMail` returns or throws for each mail.
- Multipart parsing is not modelled. A body either yields the form's fields or is unreadable with an error text. A file under any field other than `image` is not modelled.
- Reading an uploaded image (`arrayBuffer`, `Buffer.from`) is not modelled. Its bytes are given. The base64 transfer encoding is only named in the attachment record.
- Console logging and `response.statusText` are not modelled. They have no effect on state.
- On the client, the `content-type` header, JSON parsing and `response.text()` are not modelled. A settled `fetch` is given as a parsed JSON object, or as raw text. JSON that parses to something other than an object (for example `null`) would make `responseData.success` throw; that case is not modelled.
- Translation lookups `t(key)` are kept as their keys (`Localized("rsvpSuccess")`). The language context is a parameter.
- React rendering and its scheduling are not modelled. This covers state batching, `useMemo`/`useCallback`, and the disabled inputs and button while submitting. Each class method runs to completion on its own, and the `await` in a submit handler is the split between `Begin` and `Finish`.
- RsvpSection.ResizeGuestNames: a negative count makes the source's `length` assignment throw a RangeError inside a state updater. The model reports it as `ok == false` and keeps the list; it does not model the error reaching React. A count beyond the array length limit is not modelled either.
- RsvpSection.RsvpForm.GuestNameChange: it is modelled only for the indexes of the rendered inputs (below the guest count). Writing past the end, which would leave holes in a JavaScript array, is not modelled.
- Numbers are unbounded integers, so precision loss is not modelled. This covers `parseInt` on very long digit strings, and millisecond timestamps past 2^53.
- CountdownTimer.Decompose: `Math.floor` of a floating-point quotient and remainder is modelled as integer division and remainder. These agree for non-negative whole milliseconds.
- The clock and the interval (`Date.now`, `setInterval`, `clearInterval`) are not modelled. The clock reading is the parameter of `Tick`, and each tick is one call.
- The page's other components, the layout, and the message/drawing form that posts to the route's message path are not part of this model. The route's message path is modelled.
