/**
 * The RSVP form on the page: its state (name, attendance, guest count, one name
 * per guest, a submitting flag and the notice shown), the guest-count and
 * guest-name handlers, and the submit handler. The submit handler awaits the
 * server, so it is split at the `await`: `Begin` validates and builds the
 * form data, `Finish` takes what `fetch` settled to and updates the state.
 */
module RsvpSection {
  import opened Wrappers
  import opened JsText
  import opened JsNumber
  import opened FormReply

  const HttpFallback := "Failed to submit RSVP"
  const ApiFallback := "RSVP submission failed"

  /** The guest field's initial and reset value. */
  const InitialGuests := "1"

  /** `names.slice(0, end)`: a negative end counts back from the length. */
  function SliceTo(names: seq<string>, end: int): (r: seq<string>)
    ensures |r| <= |names| && r == names[..|r|]
    ensures 0 <= end ==> |r| == (if end < |names| then end else |names|)
    ensures end < 0 ==> |r| == (if |names| + end < 0 then 0 else |names| + end)
  {
    if end < 0 then (if |names| + end < 0 then [] else names[..|names| + end])
    else if end < |names| then names[..end]
    else names
  }

  /** `names.some((n) => !n.trim())` */
  predicate HasBlankName(names: seq<string>) {
    exists i :: 0 <= i < |names| && IsBlank(names[i])
  }

  /** What an attending RSVP must carry: a guest count of at least one and a name for each guest. */
  predicate GuestDetailsComplete(guests: string, guestNames: seq<string>) {
    && !IsBlank(guests)
    && ParseIntOrZero(guests) >= 1
    && !HasBlankName(SliceTo(guestNames, ParseIntOrZero(guests)))
  }

  /** The checks `handleSubmit` makes before it sends anything. */
  predicate CanSubmit(name: string, attending: string, guests: string, guestNames: seq<string>) {
    && !IsBlank(name)
    && (attending == "yes" || attending == "no")
    && (attending == "yes" ==> GuestDetailsComplete(guests, guestNames))
  }

  /** The form data entries, in the order they are appended. */
  function RsvpEntries(name: string, attending: string, guests: string, guestNames: seq<string>): seq<(string, string)> {
    if attending == "yes" then
      var guestsValue := Trim(guests);
      [("name", Trim(name)), ("attending", attending), ("guests", guestsValue), ("type", "rsvp"),
       ("guestNames", Join(SliceTo(guestNames, ParseIntOrZero(guestsValue)), ", "))]
    else
      [("name", Trim(name)), ("attending", attending), ("guests", "0"), ("type", "rsvp")]
  }

  /** A valid RSVP is sent with a trimmed, non-blank name and, when attending, a name list with every guest in it. */
  lemma RsvpEntriesShape(name: string, attending: string, guests: string, guestNames: seq<string>)
    requires CanSubmit(name, attending, guests, guestNames)
    ensures var e := RsvpEntries(name, attending, guests, guestNames);
      && |e| == (if attending == "yes" then 5 else 4)
      && e[0] == ("name", Trim(name)) && !IsBlank(e[0].1)
      && e[1] == ("attending", attending)
      && e[3] == ("type", "rsvp")
      && (attending == "no" ==> e[2] == ("guests", "0"))
      && (attending == "yes" ==>
            && e[2] == ("guests", Trim(guests))
            && ParseIntOrZero(e[2].1) >= 1
            && e[4].0 == "guestNames"
            && forall k :: 0 <= k < ParseIntOrZero(guests) && k < |guestNames| ==> Contains(e[4].1, guestNames[k]))
  {
    TrimIdempotent(name);
    if attending == "yes" {
      ParseIgnoresTrim(guests);
      var count := ParseIntOrZero(guests);
      var shown := SliceTo(guestNames, count);
      forall k | 0 <= k < count && k < |guestNames|
        ensures Contains(Join(shown, ", "), guestNames[k])
      {
        assert shown[k] == guestNames[k];
        JoinContainsEach(shown, ", ", k);
      }
    }
  }

  /** The checks of `handleSubmit`, in the order it makes them; false as soon as one fails. */
  method Checked(name: string, attending: string, guests: string, guestNames: seq<string>) returns (ok: bool)
    ensures ok <==> CanSubmit(name, attending, guests, guestNames)
  {
    if IsBlank(name) {
      return false;
    }
    if attending != "yes" && attending != "no" {
      return false;
    }
    if attending == "yes" {
      if IsBlank(guests) {
        return false;
      }
      var guestCount := ParseIntOrZero(guests);
      if guestCount < 1 {
        return false;
      }
      if HasBlankName(SliceTo(guestNames, guestCount)) {
        return false;
      }
    }
    return true;
  }

  /**
   * `setGuestNames` after a guest-count change: the list is cut or padded with
   * empty names to `count` entries. A negative count makes the length
   * assignment throw, and the list stays as it was.
   */
  method ResizeGuestNames(prev: seq<string>, count: int) returns (next: seq<string>, ok: bool)
    ensures ok <==> count >= 0
    ensures !ok ==> next == prev
    ensures ok ==> |next| == count
    ensures ok ==> forall i :: 0 <= i < |next| ==> next[i] == (if i < |prev| then prev[i] else "")
  {
    if count < 0 {
      return prev, false;
    }
    next := prev;
    if count > |next| {
      while |next| < count
        invariant |prev| <= |next| <= count
        invariant next[..|prev|] == prev
        invariant forall i :: |prev| <= i < |next| ==> next[i] == ""
        decreases count - |next|
      {
        next := next + [""];
      }
    } else if count < |next| {
      next := next[..count];
    }
    ok := true;
  }

  class RsvpForm {
    var name: string
    var attending: string
    var guests: string
    var guestNames: seq<string>
    var isSubmitting: bool
    var message: Notice

    /** One guest-name entry per guest the guest field counts. */
    ghost predicate Valid()
      reads this
    {
      ParseIntOrZero(guests) >= 0 ==> |guestNames| == ParseIntOrZero(guests)
    }

    constructor()
      ensures Valid()
      ensures name == "" && attending == "" && guests == InitialGuests && guestNames == [""]
      ensures !isSubmitting && message == NoMessage
    {
      name := "";
      attending := "";
      guests := InitialGuests;
      guestNames := [""];
      isSubmitting := false;
      message := NoMessage;
      OneGuest();
    }

    /** The name input's change handler. */
    method EditName(value: string)
      requires Valid()
      modifies this
      ensures Valid()
      ensures name == value
      ensures attending == old(attending) && guests == old(guests) && guestNames == old(guestNames)
      ensures isSubmitting == old(isSubmitting) && message == old(message)
    {
      name := value;
    }

    /** The attending / not-attending buttons. */
    method ChooseAttending(choice: bool)
      requires Valid()
      modifies this
      ensures Valid()
      ensures attending == (if choice then "yes" else "no")
      ensures name == old(name) && guests == old(guests) && guestNames == old(guestNames)
      ensures isSubmitting == old(isSubmitting) && message == old(message)
    {
      attending := if choice then "yes" else "no";
    }

    /** `handleGuestsChange`: stores the value and resizes the name list to the count it parses to. */
    method GuestsChange(value: string)
      modifies this
      ensures Valid()
      ensures guests == value
      ensures ParseIntOrZero(value) >= 0 ==>
                && |guestNames| == ParseIntOrZero(value)
                && forall i :: 0 <= i < |guestNames| ==>
                     guestNames[i] == (if i < |old(guestNames)| then old(guestNames)[i] else "")
      ensures ParseIntOrZero(value) < 0 ==> guestNames == old(guestNames)
      ensures name == old(name) && attending == old(attending)
      ensures isSubmitting == old(isSubmitting) && message == old(message)
    {
      guests := value;
      var count := ParseIntOrZero(value);
      var next, ok := ResizeGuestNames(guestNames, count);
      guestNames := next;
    }

    /** `handleGuestNameChange`, called by the input rendered for guest `index`. */
    method GuestNameChange(index: int, value: string)
      requires Valid() && 0 <= index < ParseIntOrZero(guests)
      modifies this
      ensures Valid()
      ensures guestNames == old(guestNames)[index := value]
      ensures name == old(name) && attending == old(attending) && guests == old(guests)
      ensures isSubmitting == old(isSubmitting) && message == old(message)
    {
      var next := guestNames;
      next := next[index := value];
      guestNames := next;
    }

    /**
     * `handleSubmit` up to the `fetch`: on a failed check it shows the RSVP
     * error and sends nothing; otherwise it marks the form as submitting and
     * yields the form data to post.
     */
    method Begin(lang: Lang) returns (entries: Option<seq<(string, string)>>)
      requires Valid()
      modifies this
      ensures Valid()
      ensures entries.Some? <==> CanSubmit(old(name), old(attending), old(guests), old(guestNames))
      ensures entries.None? ==> message == Notice(Localized("rsvpError"), Failed) && isSubmitting == old(isSubmitting)
      ensures entries.Some? ==>
                && entries.value == RsvpEntries(name, attending, guests, guestNames)
                && isSubmitting
                && message == Notice(Plain(SubmittingText(lang)), Pending)
      ensures name == old(name) && attending == old(attending) && guests == old(guests) && guestNames == old(guestNames)
    {
      var ok := Checked(name, attending, guests, guestNames);
      if !ok {
        message := Notice(Localized("rsvpError"), Failed);
        return None;
      }
      isSubmitting := true;
      message := Notice(Plain(SubmittingText(lang)), Pending);
      entries := Some(RsvpEntries(name, attending, guests, guestNames));
    }

    /**
     * `handleSubmit` after the `fetch` settles: on success the RSVP thanks the
     * guest and the form is reset; on any failure the error text is shown and
     * the fields are kept. Either way the form stops submitting.
     */
    method Finish(result: FetchResult)
      requires Valid()
      modifies this
      ensures Valid() && !isSubmitting
      ensures SubmitError(result, HttpFallback, ApiFallback).None? ==>
                && message == Notice(Localized("rsvpSuccess"), Succeeded)
                && name == "" && attending == "" && guests == InitialGuests && guestNames == [""]
      ensures SubmitError(result, HttpFallback, ApiFallback).Some? ==>
                && message == Notice(Plain(SubmitError(result, HttpFallback, ApiFallback).value), Failed)
                && name == old(name) && attending == old(attending)
                && guests == old(guests) && guestNames == old(guestNames)
    {
      var error := SubmitError(result, HttpFallback, ApiFallback);
      if error.None? {
        message := Notice(Localized("rsvpSuccess"), Succeeded);
        name := "";
        attending := "";
        guests := InitialGuests;
        guestNames := [""];
        OneGuest();
      } else {
        message := Notice(Plain(error.value), Failed);
      }
      isSubmitting := false;
    }
  }

  /** The guest field's initial and reset value counts one guest. */
  lemma OneGuest()
    ensures ParseIntOrZero(InitialGuests) == 1
  {
    assert DecimalString(1) == InitialGuests;
    DecimalRoundTrip(1);
  }
}
