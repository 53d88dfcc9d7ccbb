/**
 * The contact form. Every submit is intercepted; two checks run in order
 * (no blank field, an '@' in the email field) and only a form that passes
 * both is posted, once, with the submit button disabled until the
 * success or error message has been shown.
 */
module ContactForm {
  import opened Common
  import opened Text

  const SubmitLabel := "SUBMIT"
  const IncompleteLabel := "PLEASE FILL OUT ALL FIELDS"
  const BadEmailLabel := "EMAIL NOT VALID"
  const SendingLabel := "SENDING..."
  const SuccessLabel := "SUCCESS!"
  const FailureLabel := "ERROR PLEASE TRY AGAIN"

  /** How the POST request settled: an OK status, another status, or a thrown network error. */
  datatype Response = Ok | NotOk | NetworkError

  /** The outcome of the two checks. */
  datatype Verdict = Incomplete | BadEmail | Accepted

  /** The submit button's inline background colour: unset, '#ff4444' or '#4caf50'. */
  datatype Colour = Plain | Red | Green

  /** Every field has something other than white space in it. */
  predicate AllFilled(values: seq<string>)
  {
    forall j :: 0 <= j < |values| ==> Trim(values[j]) != ""
  }

  /**
   * The two checks of the submit handler, in order: first that no field is
   * blank, then, when the form has an email input, that it contains '@'.
   */
  function Validate(values: seq<string>, email: Option<nat>): (v: Verdict)
    requires email.Some? ==> email.value < |values|
    ensures v == Incomplete <==> !AllFilled(values)
    ensures v == BadEmail <==> AllFilled(values) && email.Some? && '@' !in values[email.value]
  {
    if !AllFilled(values) then Incomplete
    else if email.Some? && (IncludesChar(values[email.value], '@'); !Includes(values[email.value], "@")) then BadEmail
    else Accepted
  }

  /**
   * The gate, stated without the handler's own helpers: a form is sent iff no
   * field is blank and the email field, if any, contains '@'.
   */
  lemma {:induction false} SentIff(values: seq<string>, email: Option<nat>)
    requires email.Some? ==> email.value < |values|
    ensures Validate(values, email) == Accepted <==>
      (forall j :: 0 <= j < |values| ==> !IsBlank(values[j])) && (email.Some? ==> '@' in values[email.value])
  {
    forall j | 0 <= j < |values| {
      TrimEmptyIffBlank(values[j]);
    }
  }

  /** A single blank field (empty, or nothing but spaces) blocks the form, whatever the email says. */
  lemma BlankFieldBlocks(values: seq<string>, email: Option<nat>, j: nat)
    requires email.Some? ==> email.value < |values|
    requires j < |values| && IsBlank(values[j])
    ensures Validate(values, email) == Incomplete
  {
    TrimEmptyIffBlank(values[j]);
  }

  class Form {
    /** The values of the form's inputs and textareas, in document order. */
    const fields: array<string>
    /** The position among them of the first `input[type="email"]`, if there is one. */
    const emailField: Option<nat>
    var buttonText: string
    var colour: Colour
    var shaking: bool
    var disabled: bool
    /** A POST has been issued and has not settled yet. */
    var inFlight: bool
    /** A post-send timer (3 s) is pending; it re-enables the button. */
    var sendTimerPending: bool
    /** Validation-error timers (2 s) still pending; each resets the button's text. */
    var resetTimers: nat
    /** How many POST requests the form has issued. */
    var requests: nat

    /** The button is disabled exactly while a request is in flight or its message is shown. */
    ghost predicate Valid()
      reads this
    {
      && (emailField.Some? ==> emailField.value < fields.Length)
      && !(inFlight && sendTimerPending)
      && (disabled <==> inFlight || sendTimerPending)
    }

    /** The form as loaded: an enabled "SUBMIT" button, nothing sent. */
    constructor (values: array<string>, email: Option<nat>)
      requires email.Some? ==> email.value < values.Length
      ensures Valid() && fields == values && emailField == email
      ensures buttonText == SubmitLabel && colour == Plain && !shaking && !disabled
      ensures !inFlight && !sendTimerPending && resetTimers == 0 && requests == 0
    {
      fields, emailField := values, email;
      buttonText, colour, shaking := SubmitLabel, Plain, false;
      disabled, inFlight, sendTimerPending := false, false, false;
      resetTimers, requests := 0, 0;
    }

    /** The `allValid` accumulator: one pass over the fields, false as soon as one trims to "". */
    method CheckAllFilled() returns (allValid: bool)
      ensures allValid == AllFilled(fields[..])
    {
      allValid := true;
      for i := 0 to fields.Length
        invariant allValid == forall j :: 0 <= j < i ==> Trim(fields[j]) != ""
      {
        if Trim(fields[i]) == "" {
          allValid := false;
        }
      }
    }

    /**
     * The submit handler up to its `await`. A disabled button cannot submit the
     * form, so then nothing happens; otherwise the first failed check shows its
     * message and sends nothing, and a form that passes both is posted once.
     */
    method Submit()
      requires Valid()
      modifies this
      ensures Valid()
      ensures old(disabled) ==> unchanged(this)
      ensures !old(disabled) ==> !sendTimerPending
      ensures !old(disabled) && Validate(fields[..], emailField) != Accepted ==>
        && buttonText == (if Validate(fields[..], emailField) == Incomplete then IncompleteLabel else BadEmailLabel)
        && colour == Red && shaking && !disabled && !inFlight
        && resetTimers == old(resetTimers) + 1 && requests == old(requests)
      ensures !old(disabled) && Validate(fields[..], emailField) == Accepted ==>
        && buttonText == SendingLabel && disabled && inFlight
        && colour == old(colour) && shaking == old(shaking)
        && resetTimers == old(resetTimers) && requests == old(requests) + 1
    {
      if disabled {
        return;
      }
      var allValid := CheckAllFilled();
      if !allValid {
        shaking, buttonText, colour := true, IncompleteLabel, Red;
        resetTimers := resetTimers + 1;
        return;
      }
      if emailField.Some? && !Includes(fields[emailField.value], "@") {
        shaking, buttonText, colour := true, BadEmailLabel, Red;
        resetTimers := resetTimers + 1;
        return;
      }
      disabled := true;
      buttonText := SendingLabel;
      requests := requests + 1;
      inFlight := true;
    }

    /** `inputs.forEach(field => field.value = '')`. */
    method ClearFields()
      modifies fields
      ensures forall j :: 0 <= j < fields.Length ==> fields[j] == ""
    {
      for i := 0 to fields.Length
        invariant forall j :: 0 <= j < i ==> fields[j] == ""
      {
        fields[i] := "";
      }
    }

    /**
     * The rest of the handler once the request settles: an OK response shows
     * the success message and clears the fields; a non-OK status is thrown and
     * so handled like a network error, which shows the error message and keeps
     * the fields. Either way the button stays disabled until its timer.
     */
    method Settle(response: Response)
      requires Valid() && inFlight
      modifies this, fields
      ensures Valid() && !inFlight && disabled && sendTimerPending
      ensures response == Ok ==>
        && buttonText == SuccessLabel && colour == Green
        && forall j :: 0 <= j < fields.Length ==> fields[j] == ""
      ensures response != Ok ==> buttonText == FailureLabel && colour == Red && fields[..] == old(fields[..])
      ensures requests == old(requests) && resetTimers == old(resetTimers) && shaking == old(shaking)
    {
      inFlight := false;
      if response == Ok {
        buttonText, colour := SuccessLabel, Green;
        ClearFields();
      } else {
        buttonText, colour := FailureLabel, Red;
      }
      sendTimerPending := true;
    }

    /** A validation-error timer fires: the buttonText and colour revert; the button's state is untouched. */
    method ResetTimerFires()
      requires Valid() && resetTimers > 0
      modifies this
      ensures Valid() && resetTimers == old(resetTimers) - 1
      ensures !shaking && buttonText == SubmitLabel && colour == Plain
      ensures disabled == old(disabled) && inFlight == old(inFlight) && requests == old(requests)
      ensures sendTimerPending == old(sendTimerPending)
    {
      shaking, buttonText, colour := false, SubmitLabel, Plain;
      resetTimers := resetTimers - 1;
    }

    /** The post-send timer fires: the buttonText and colour revert and the button is enabled again. */
    method SendTimerFires()
      requires Valid() && sendTimerPending
      modifies this
      ensures Valid() && !sendTimerPending && !disabled
      ensures buttonText == SubmitLabel && colour == Plain
      ensures shaking == old(shaking) && requests == old(requests) && resetTimers == old(resetTimers)
    {
      buttonText, colour, disabled := SubmitLabel, Plain, false;
      sendTimerPending := false;
    }
  }
}
