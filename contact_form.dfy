/**
 * The contact form's component state (src/components/Contact.tsx) and its
 * event handlers: the three `onChange` edits, `handleSubmit` up to its `await`,
 * the continuation once the simulated request resolves, and the timer that
 * clears the success banner. The 900 ms and 4500 ms waits are not modelled as
 * time: the continuation and the timer callback are separate methods.
 */
module ContactSubmit {
  import opened Wrappers
  import opened ContactValidation

  const SentMessage := "Thanks! Your message has been sent."

  class ContactForm {
    var formState: FormValues
    var errors: FieldErrors
    var isSubmitting: bool
    var success: Option<string>
    /** Success-clearing timers scheduled and not yet fired. */
    var pendingClears: nat

    /** The initial state: an empty form, no errors, not submitting, no banner. */
    constructor ()
      ensures formState == EmptyForm && errors == NoErrors
      ensures !isSubmitting && success == None && pendingClears == 0
    {
      formState := EmptyForm;
      errors := NoErrors;
      isSubmitting := false;
      success := None;
      pendingClears := 0;
    }

    /** `setFormState({ ...formState, name: value })`. */
    method EditName(value: string)
      modifies this`formState
      ensures formState == old(formState).(name := value)
    {
      formState := formState.(name := value);
    }

    /** `setFormState({ ...formState, email: value })`. */
    method EditEmail(value: string)
      modifies this`formState
      ensures formState == old(formState).(email := value)
    {
      formState := formState.(email := value);
    }

    /** `setFormState({ ...formState, message: value })`. */
    method EditMessage(value: string)
      modifies this`formState
      ensures formState == old(formState).(message := value)
    {
      formState := formState.(message := value);
    }

    /** `handleSubmit` up to the `await`. The submit button is disabled while a
        request is in flight, so no submission starts then. `sent` says whether
        the simulated request started. On a validation failure the errors are
        shown, the banner is cleared and nothing else happens; otherwise the
        form is marked as submitting. The form values are never touched. */
    method Submit() returns (sent: bool)
      requires !isSubmitting
      modifies this`errors, this`success, this`isSubmitting
      ensures sent <==> ErrorCount(Validate(old(formState))) == 0
      ensures errors == Validate(old(formState)) && unchanged(this`formState)
      ensures success == None
      ensures isSubmitting == sent
      ensures sent ==> errors == NoErrors
    {
      success := None;
      var validation := Validate(formState);
      errors := validation;
      if ErrorCount(validation) > 0 {
        sent := false;
        return;
      }
      isSubmitting := true;
      sent := true;
    }

    /** The continuation after the simulated request resolves: the banner shows
        the thanks message, the form is reset (edits made during the wait are
        discarded), errors are cleared, submitting ends and a timer to clear the
        banner is scheduled. The reset form would fail validation again. */
    method FinishRequest()
      requires isSubmitting
      modifies this
      ensures success == Some(SentMessage)
      ensures formState == EmptyForm && errors == NoErrors
      ensures !isSubmitting
      ensures pendingClears == old(pendingClears) + 1
      ensures Validate(formState) == FieldErrors(Some(NameRequired), Some(EmailRequired), Some(MessageRequired))
    {
      success := Some(SentMessage);
      formState := EmptyForm;
      errors := NoErrors;
      isSubmitting := false;
      pendingClears := pendingClears + 1;
      EmptyFormAllRequired();
    }

    /** One of the scheduled timers fires and clears the banner, whatever it
        shows by then. */
    method ClearSuccess()
      requires pendingClears > 0
      modifies this`success, this`pendingClears
      ensures success == None && pendingClears == old(pendingClears) - 1
    {
      success := None;
      pendingClears := pendingClears - 1;
    }
  }
}
