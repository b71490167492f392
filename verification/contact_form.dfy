/**
 * The contact form's submission flow: `handleContactForm` (app.js lines 143-188)
 * and the feedback banner of `showFormFeedback` (app.js lines 101-140).
 *
 * The page state these touch is held by one object: the form's four values,
 * the submit button (its `disabled` flag and its text), the `.form-feedback`
 * nodes in document order, and the completions that accepted submissions have
 * scheduled. Timers are not modelled as time: each delayed callback is a method
 * that the event loop calls later.
 */
module ContactFlow {
  import opened Wrappers
  import opened FormValidation

  /**
   * The button's text while sending: its markup is a spinner icon (which holds
   * no text) followed by " Sending...".
   */
  const SendingLabel := " Sending..."

  const SuccessMessage := "Thank you for your message! I will get back to you soon."

  /**
   * One `.form-feedback` node. `id` tells nodes apart, as object identity does
   * in the page: a removal timer only ever removes its own node.
   */
  datatype Banner = Banner(id: nat, message: string, isError: bool)

  /** The 2000 ms completion that an accepted submission scheduled, with what it captured. */
  datatype PendingSend = PendingSend(originalText: string, data: FormData)

  /** `contactForm.reset()` on one control: back to its default, the empty string. */
  function ResetValue(v: Option<string>): Option<string> {
    if v.Some? then Some("") else None
  }

  /** `contactForm.reset()`: every control the form has is emptied, and none is added. */
  function Cleared(f: FormData): (r: FormData)
    ensures r.name.Some? == f.name.Some? && r.email.Some? == f.email.Some?
    ensures r.subject.Some? == f.subject.Some? && r.message.Some? == f.message.Some?
    ensures Text(r.name) == "" && Text(r.email) == "" && Text(r.subject) == "" && Text(r.message) == ""
  {
    FormData(ResetValue(f.name), ResetValue(f.email), ResetValue(f.subject), ResetValue(f.message))
  }

  /** A cleared form, submitted again, breaks every rule, and says so in field order. */
  lemma ClearedFormFailsEveryRule(f: FormData)
    ensures ValidateForm(Cleared(f)) == Messages
  {
    var c := Cleared(f);
    assert Text(c.name) == "" && Text(c.email) == "" && Text(c.subject) == "" && Text(c.message) == "";
    assert !IsEmailAddress("");
    MessagesDistinct();
  }

  class ContactForm {
    /** The values `new FormData(contactForm)` reads. */
    var fields: FormData
    var buttonDisabled: bool
    /** The submit button's `textContent`. */
    var buttonLabel: string
    /** The `.form-feedback` nodes in the page, in document order. */
    var banners: seq<Banner>
    /** The identity the next banner node gets. */
    var nextBanner: nat
    /** Completions scheduled by accepted submissions, earliest first. */
    var pending: seq<PendingSend>

    /** At most one banner is in the page, and each was made by this object. */
    ghost predicate Valid()
      reads this
    {
      banners == [] || (|banners| == 1 && banners[0].id < nextBanner)
    }

    /** The page as loaded: no banner, an enabled button, nothing scheduled. */
    constructor (fields: FormData, buttonText: string)
      ensures Valid()
      ensures this.fields == fields && !buttonDisabled && buttonLabel == buttonText
      ensures banners == [] && pending == []
    {
      this.fields := fields;
      buttonDisabled := false;
      buttonLabel := buttonText;
      banners := [];
      nextBanner := 0;
      pending := [];
    }

    /**
     * `showFormFeedback`: the existing banner, if any, is removed before the new
     * one is appended, so exactly one banner is in the page afterwards.
     */
    method ShowFormFeedback(message: string, isError: bool)
      requires Valid()
      modifies this
      ensures Valid()
      ensures banners == [Banner(old(nextBanner), message, isError)]
      ensures nextBanner == old(nextBanner) + 1
      ensures fields == old(fields) && pending == old(pending)
      ensures buttonDisabled == old(buttonDisabled) && buttonLabel == old(buttonLabel)
    {
      if banners != [] {
        banners := banners[1..];
      }
      banners := banners + [Banner(nextBanner, message, isError)];
      nextBanner := nextBanner + 1;
    }

    /**
     * The banner's own removal timer (7000 ms, then 300 ms for the exit
     * animation): it removes its node if that node is still in the page, and
     * does nothing if a newer banner has already replaced it.
     */
    method RemoveBanner(id: nat)
      requires Valid()
      modifies this
      ensures Valid()
      ensures banners == if old(banners) != [] && old(banners)[0].id == id then [] else old(banners)
      ensures nextBanner == old(nextBanner)
      ensures fields == old(fields) && pending == old(pending)
      ensures buttonDisabled == old(buttonDisabled) && buttonLabel == old(buttonLabel)
    {
      if banners != [] && banners[0].id == id {
        banners := [];
      }
    }

    /**
     * `handleContactForm`: an invalid form shows only its first error, as an
     * error banner, and changes nothing else; a valid one turns the button into
     * its disabled "Sending..." state and schedules the completion, which keeps
     * the button's text from before.
     */
    method HandleContactForm() returns (accepted: bool)
      requires Valid()
      modifies this
      ensures Valid()
      ensures accepted <==> ValidateForm(fields) == []
      ensures fields == old(fields)
      ensures !accepted ==>
        && banners == [Banner(old(nextBanner), ValidateForm(fields)[0], true)]
        && nextBanner == old(nextBanner) + 1
        && buttonDisabled == old(buttonDisabled) && buttonLabel == old(buttonLabel)
        && pending == old(pending)
      ensures accepted ==>
        && buttonDisabled && buttonLabel == SendingLabel
        && pending == old(pending) + [PendingSend(old(buttonLabel), fields)]
        && banners == old(banners) && nextBanner == old(nextBanner)
    {
      var errors := ValidateForm(fields);
      if |errors| > 0 {
        ShowFormFeedback(errors[0], true);
        return false;
      }
      StartSending();
      accepted := true;
    }

    /**
     * The loading state of an accepted submission: the button is disabled and
     * shows "Sending...", and the completion is scheduled with the button's
     * previous text and the submitted values.
     */
    method StartSending()
      requires Valid()
      modifies this
      ensures Valid()
      ensures buttonDisabled && buttonLabel == SendingLabel
      ensures pending == old(pending) + [PendingSend(old(buttonLabel), fields)]
      ensures fields == old(fields) && banners == old(banners) && nextBanner == old(nextBanner)
    {
      var originalText := buttonLabel;
      buttonLabel := SendingLabel;
      buttonDisabled := true;
      pending := pending + [PendingSend(originalText, fields)];
    }

    /**
     * The completion 2000 ms after an accepted submission: the button is enabled
     * again with the text it had before, the success banner replaces any other,
     * and the form is cleared.
     */
    method CompleteSend()
      requires Valid() && pending != []
      modifies this
      ensures Valid()
      ensures !buttonDisabled && buttonLabel == old(pending[0].originalText)
      ensures banners == [Banner(old(nextBanner), SuccessMessage, false)]
      ensures nextBanner == old(nextBanner) + 1
      ensures fields == Cleared(old(fields))
      ensures pending == old(pending[1..])
    {
      var send := pending[0];
      pending := pending[1..];
      buttonLabel := send.originalText;
      buttonDisabled := false;
      ShowFormFeedback(SuccessMessage, false);
      fields := Cleared(fields);
    }

    /**
     * A submission and, when it is accepted, its completion: either way the
     * button ends up as it was, and the one banner in the page tells the outcome.
     */
    method SubmitAndComplete() returns (accepted: bool)
      requires Valid() && pending == []
      modifies this
      ensures Valid()
      ensures accepted <==> ValidateForm(old(fields)) == []
      ensures buttonDisabled == old(buttonDisabled) || accepted
      ensures accepted ==> !buttonDisabled
      ensures buttonLabel == old(buttonLabel) && pending == []
      ensures |banners| == 1 && banners[0].isError == !accepted
      ensures accepted ==> banners[0].message == SuccessMessage && fields == Cleared(old(fields))
      ensures !accepted ==> banners[0].message == ValidateForm(old(fields))[0] && fields == old(fields)
    {
      accepted := HandleContactForm();
      if accepted {
        CompleteSend();
      }
    }
  }
}
