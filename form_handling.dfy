/**
 * The contact form's submit handler and its simulated submission. A valid
 * submit disables the button, shows a busy label and schedules a completion;
 * the completion clears the form, restores the label the button had when it
 * was scheduled, enables the button and announces success. An invalid submit
 * only announces the first failing rule. Each scheduled completion is an
 * explicit call; they all have the same delay, so they fire in the order in
 * which they were scheduled.
 */
module FormHandling {
  import opened Text
  import opened Validation
  import opened Notifications

  /** The raw values of the four inputs. */
  datatype Fields = Fields(name: string, contact: string, subject: string, message: string)

  /** The inputs after reset(). */
  const EmptyFields := Fields("", "", "", "")

  /** The submit button's label while a submission is under way. */
  const BusyLabel := "<i class=\"fas fa-spinner fa-spin me-2\"></i>Mengirim..."

  /** What the submit handler reads: name, contact and message are trimmed, the subject is not. */
  function Capture(f: Fields): FormData {
    FormData(Trim(f.name), Trim(f.contact), f.subject, Trim(f.message))
  }

  /**
   * The form and its button. `pending` holds, for every scheduled completion
   * that has not fired yet, the label saved when it was scheduled.
   */
  datatype FormState = FormState(fields: Fields, buttonLabel: string, disabled: bool, pending: seq<string>)

  predicate Idle(s: FormState) {
    s.pending == [] && !s.disabled
  }

  /** The form part of the submit handler's effect. */
  function AfterSubmit(s: FormState): FormState {
    if ValidateForm(Capture(s.fields)).Rejected? then s
    else s.(buttonLabel := BusyLabel, disabled := true, pending := s.pending + [s.buttonLabel])
  }

  /** The form part of the completion's effect. */
  function AfterCompletion(s: FormState): FormState
    requires s.pending != []
  {
    FormState(EmptyFields, s.pending[0], false, s.pending[1..])
  }

  /** A rejected submit leaves the inputs, the label, the button and the schedule as they were. */
  lemma RejectedSubmitChangesNothing(s: FormState)
    requires ValidateForm(Capture(s.fields)).Rejected?
    ensures AfterSubmit(s) == s
  {
  }

  /**
   * From an idle form with acceptable input, a submit makes the button busy
   * and disabled, and its completion brings the form back to idle with the
   * original label and every input cleared.
   */
  lemma SubmitThenComplete(s: FormState)
    requires Idle(s) && ValidateForm(Capture(s.fields)) == Accepted
    ensures AfterSubmit(s).disabled && AfterSubmit(s).buttonLabel == BusyLabel
    ensures AfterSubmit(s).fields == s.fields && !Idle(AfterSubmit(s))
    ensures AfterCompletion(AfterSubmit(s)) == FormState(EmptyFields, s.buttonLabel, false, [])
    ensures Idle(AfterCompletion(AfterSubmit(s)))
  {
  }

  /** The input after a completion never passes validation: the name rule fails first. */
  lemma ClearedFormIsRejected()
    ensures ValidateForm(Capture(EmptyFields)) == Rejected(NameRequired)
  {
  }

  /**
   * The state the browser keeps: either idle, or one completion pending with
   * the original label saved and the button disabled and busy.
   */
  predicate Consistent(s: FormState, original: string) {
    || (Idle(s) && s.buttonLabel == original)
    || (s.disabled && s.buttonLabel == BusyLabel && s.pending == [original])
  }

  /**
   * A disabled submit button delivers no submit events, so submits only reach
   * the handler while it is enabled. Under that discipline every submit and
   * every completion keeps the form consistent and the original label is
   * never lost.
   */
  lemma SubmitKeepsConsistent(s: FormState, original: string)
    requires Consistent(s, original) && !s.disabled
    ensures Consistent(AfterSubmit(s), original)
  {
  }

  lemma CompletionKeepsConsistent(s: FormState, original: string)
    requires Consistent(s, original) && s.pending != []
    ensures Consistent(AfterCompletion(s), original)
    ensures AfterCompletion(s).buttonLabel == original
  {
  }

  /**
   * The handler itself does not look at the button: were it to run while a
   * submission is pending, it would save the busy label, and the second
   * completion would leave the enabled button with the busy label.
   */
  lemma SubmitWhileBusySavesBusyLabel(s: FormState)
    requires Idle(s) && ValidateForm(Capture(s.fields)) == Accepted && s.buttonLabel != BusyLabel
    ensures var t := AfterSubmit(AfterSubmit(s));
      && t.pending == [s.buttonLabel, BusyLabel]
      && AfterCompletion(AfterCompletion(t)).buttonLabel == BusyLabel
      && !AfterCompletion(AfterCompletion(t)).disabled
  {
    var t := AfterSubmit(AfterSubmit(s));
    assert AfterSubmit(s).fields == s.fields;
    assert t.pending == [s.buttonLabel] + [BusyLabel];
  }

  class ContactForm {
    var fields: Fields
    var buttonLabel: string
    var disabled: bool
    var pending: seq<string>
    const page: Page

    function State(): FormState
      reads this
    {
      FormState(fields, buttonLabel, disabled, pending)
    }

    /**
     * initFormHandling on a page whose form holds these input values and this
     * submit label; set-up leaves both as they are.
     */
    constructor (initialFields: Fields, initialLabel: string, page: Page)
      ensures State() == FormState(initialFields, initialLabel, false, [])
      ensures this.page == page
    {
      fields := initialFields;
      buttonLabel := initialLabel;
      disabled := false;
      pending := [];
      this.page := page;
    }

    /**
     * The visitor edits the inputs. The handler reads whatever they hold at the
     * moment of the submit; typing changes nothing else.
     */
    method Edit(typed: Fields)
      modifies this
      ensures State() == old(State()).(fields := typed)
    {
      fields := typed;
    }

    /**
     * The submit listener. A rejection appends one error notification naming
     * the failed rule and changes nothing else; acceptance changes the button
     * and schedules a completion, and shows nothing yet.
     */
    method Submit() returns (verdict: Verdict)
      requires page.Valid()
      modifies this, page
      ensures page.Valid()
      ensures verdict == ValidateForm(Capture(old(fields)))
      ensures State() == AfterSubmit(old(State()))
      ensures verdict.Rejected? ==>
        && |page.body| == |old(page.body)| + 1
        && page.body[..|old(page.body)|] == old(page.body)
        && var id := page.body[|old(page.body)|];
           id !in old(page.created)
           && page.created == old(page.created)[id := Notice(RuleFailed(verdict.rule), Danger, ExclamationTriangle)]
      ensures verdict == Accepted ==> page.body == old(page.body) && page.created == old(page.created)
    {
      verdict := ValidateForm(Capture(fields));
      if verdict.Rejected? {
        var id := page.ShowNotification(RuleFailed(verdict.rule), "error");
        assert page.body[..|old(page.body)|] == old(page.body);
        return;
      }
      pending := pending + [buttonLabel];
      buttonLabel := BusyLabel;
      disabled := true;
    }

    /**
     * The earliest scheduled completion fires: success notification, reset
     * of the form, the saved label back on an enabled button.
     */
    method CompleteSubmission()
      requires page.Valid() && pending != []
      modifies this, page
      ensures page.Valid()
      ensures State() == AfterCompletion(old(State()))
      ensures fields == EmptyFields && buttonLabel == old(pending[0]) && !disabled
      ensures |page.body| == |old(page.body)| + 1
      ensures page.body[..|old(page.body)|] == old(page.body)
      ensures var id := page.body[|old(page.body)|];
        id !in old(page.created)
        && page.created == old(page.created)[id := Notice(MessageSent, Success, CheckCircle)]
    {
      var id := page.ShowNotification(MessageSent, "success");
      assert page.body[..|old(page.body)|] == old(page.body);
      fields := EmptyFields;
      buttonLabel := pending[0];
      pending := pending[1..];
      disabled := false;
    }
  }

  /** Input a visitor might type: an e-mail contact and no subject. */
  const FilledIn := Fields("Budi", "user@example.com", "", "Halo")

  lemma FilledInAccepted()
    ensures ValidateForm(Capture(FilledIn)) == Accepted
  {
    TrimUntrimmed(FilledIn.name);
    TrimUntrimmed(FilledIn.contact);
    TrimUntrimmed(FilledIn.message);
    ContactExamples(FilledIn.name, FilledIn.message);
  }

  /**
   * A visitor fills in a freshly set-up form and submits: the submit is
   * accepted, and its completion clears the form and restores the label.
   */
  method AcceptedSubmission(initialLabel: string) returns (verdict: Verdict, afterwards: FormState)
    ensures verdict == Accepted
    ensures afterwards == FormState(EmptyFields, initialLabel, false, [])
  {
    var page := new Page();
    var form := new ContactForm(EmptyFields, initialLabel, page);
    form.Edit(FilledIn);
    FilledInAccepted();
    verdict := form.Submit();
    form.CompleteSubmission();
    afterwards := form.State();
  }
}
