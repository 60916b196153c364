/**
 * validateForm: the ordered, short-circuiting checks on a captured contact
 * form. Instead of raising a notification and answering false, the model
 * answers with the rule that failed first.
 */
module Validation {
  import opened Patterns

  /** The values the submit handler captures (name, contact and message already trimmed). */
  datatype FormData = FormData(name: string, contact: string, subject: string, message: string)

  /** The rules, each with its own error notification. */
  datatype Rule = NameRequired | ContactRequired | MessageRequired | ContactFormat

  datatype Verdict = Accepted | Rejected(rule: Rule)

  /** The rules in the order validateForm checks them. */
  const RuleOrder: seq<Rule> := [NameRequired, ContactRequired, MessageRequired, ContactFormat]

  predicate Satisfies(data: FormData, rule: Rule) {
    match rule
    case NameRequired => data.name != ""
    case ContactRequired => data.contact != ""
    case MessageRequired => data.message != ""
    case ContactFormat => IsEmail(data.contact) || IsPhone(data.contact)
  }

  /**
   * The reference reading of "report the first rule that fails": walk the
   * rules in order and stop at the first one data does not satisfy.
   */
  function FirstFailure(data: FormData, rules: seq<Rule>): (v: Verdict)
    ensures v == Accepted <==> forall i | 0 <= i < |rules| :: Satisfies(data, rules[i])
    ensures v.Rejected? ==> exists k | 0 <= k < |rules| ::
              && rules[k] == v.rule && !Satisfies(data, rules[k])
              && forall i | 0 <= i < k :: Satisfies(data, rules[i])
  {
    if rules == [] then Accepted
    else if !Satisfies(data, rules[0]) then Rejected(rules[0])
    else
      var v := FirstFailure(data, rules[1..]);
      assert v.Rejected? ==> exists k | 1 <= k < |rules| ::
        && rules[k] == v.rule && !Satisfies(data, rules[k])
        && forall i | 0 <= i < k :: Satisfies(data, rules[i]);
      v
  }

  /**
   * validateForm. The result is Accepted exactly when every rule holds; a
   * rejection names a rule that fails while every rule before it holds.
   */
  function ValidateForm(data: FormData): (v: Verdict)
    ensures v == Accepted <==>
      && data.name != "" && data.contact != "" && data.message != ""
      && (IsEmail(data.contact) || IsPhone(data.contact))
    ensures v.Rejected? ==> !Satisfies(data, v.rule)
    ensures v == Rejected(ContactRequired) ==> data.name != ""
    ensures v == Rejected(MessageRequired) ==> data.name != "" && data.contact != ""
    ensures v == Rejected(ContactFormat) ==> data.name != "" && data.contact != "" && data.message != ""
  {
    if data.name == "" then Rejected(NameRequired)
    else if data.contact == "" then Rejected(ContactRequired)
    else if data.message == "" then Rejected(MessageRequired)
    else if !IsEmail(data.contact) && !IsPhone(data.contact) then Rejected(ContactFormat)
    else Accepted
  }

  /** validateForm reports exactly the first failing rule of RuleOrder. */
  lemma ValidateFormIsFirstFailure(data: FormData)
    ensures ValidateForm(data) == FirstFailure(data, RuleOrder)
  {
    var rs := RuleOrder;
    assert rs[1..] == [ContactRequired, MessageRequired, ContactFormat];
    assert rs[2..] == rs[1..][1..] == [MessageRequired, ContactFormat];
    assert rs[3..] == rs[2..][1..] == [ContactFormat];
    assert rs[3..][1..] == [];
    assert FirstFailure(data, rs[3..]) ==
      if !Satisfies(data, ContactFormat) then Rejected(ContactFormat) else Accepted;
    assert FirstFailure(data, rs[2..]) ==
      if !Satisfies(data, MessageRequired) then Rejected(MessageRequired) else FirstFailure(data, rs[3..]);
    assert FirstFailure(data, rs[1..]) ==
      if !Satisfies(data, ContactRequired) then Rejected(ContactRequired) else FirstFailure(data, rs[2..]);
  }

  /** The subject field never influences the verdict. */
  lemma SubjectIgnored(data: FormData, subject: string)
    ensures ValidateForm(data.(subject := subject)) == ValidateForm(data)
  {
  }

  lemma ContactExamples(name: string, message: string)
    requires name != "" && message != ""
    ensures ValidateForm(FormData(name, "user@example.com", "", message)) == Accepted
    ensures ValidateForm(FormData(name, "0812345678901", "", message)) == Accepted
    ensures ValidateForm(FormData(name, "not-an-email", "", message)) == Rejected(ContactFormat)
    ensures ValidateForm(FormData(name, "123", "", message)) == Rejected(ContactFormat)
  {
    EmailExamples();
    PhoneExamples();
    if IsPhone("not-an-email") {
      PhoneShape("not-an-email");
    }
    assert '@' !in "123";
    EmailShape("123");
  }
}
