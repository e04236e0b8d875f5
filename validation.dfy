/**
 * The checks of the contact-form submit handler: required fields, then the phone, then
 * the e-mail when one was given. The first failing check decides the outcome.
 */
module Validation {
  import opened Chars
  import opened Email

  /** The six values read from the form controls on submission. */
  datatype Submission = Submission(
    name: string, phone: string, email: string,
    location: string, service: string, message: string)

  /** What one submission leads to: one of three errors, or acceptance. */
  datatype Outcome = MissingRequired | InvalidPhone | InvalidEmail | Accepted

  /** JavaScript truthiness of a string: only the empty string is falsy. */
  predicate Truthy(s: string) {
    s != []
  }

  predicate RequiredPresent(f: Submission) {
    Truthy(f.name) && Truthy(f.phone) && Truthy(f.location) && Truthy(f.service)
  }

  /** The e-mail is optional: an empty one is never checked. */
  predicate EmailAcceptable(email: string) {
    !Truthy(email) || EmailOk(email)
  }

  /** The validation steps of the submit handler, in their order. */
  function Validate(f: Submission): (o: Outcome)
    ensures o == Accepted <==> RequiredPresent(f) && PhoneOk(f.phone) && EmailAcceptable(f.email)
    ensures o == MissingRequired <==> !RequiredPresent(f)
    ensures o == InvalidPhone <==> RequiredPresent(f) && !PhoneOk(f.phone)
    ensures o == InvalidEmail <==> RequiredPresent(f) && PhoneOk(f.phone) && !EmailAcceptable(f.email)
  {
    if !RequiredPresent(f) then MissingRequired
    else if !PhoneOk(f.phone) then InvalidPhone
    else if Truthy(f.email) && !EmailOk(f.email) then InvalidEmail
    else Accepted
  }

  /** The text each outcome shows. */
  function Message(o: Outcome): string {
    match o
    case MissingRequired => "Please fill in all required fields"
    case InvalidPhone => "Please enter a valid 10-digit phone number"
    case InvalidEmail => "Please enter a valid email address"
    case Accepted => "Thank you! We will contact you soon."
  }

  /** The notification type each outcome shows. */
  function Kind(o: Outcome): string {
    if o == Accepted then "success" else "error"
  }

  /** Each outcome has its own message, and only acceptance is reported as a success. */
  lemma OutcomeReport(o1: Outcome, o2: Outcome)
    ensures o1 != o2 ==> Message(o1) != Message(o2)
    ensures Kind(o1) == "success" <==> o1 == Accepted
  {
    if o1 != o2 {
      assert Message(o1)[21] != Message(o2)[21];
    }
  }

  /** Fail fast: once a check fails, the fields read by later checks cannot change the
      outcome, and the free-text message is never read at all. */
  lemma FailFast(f: Submission, email: string, message: string)
    ensures !RequiredPresent(f) ==> Validate(f.(email := email, message := message)) == MissingRequired
    ensures RequiredPresent(f) && !PhoneOk(f.phone) ==>
      Validate(f.(email := email, message := message)) == InvalidPhone
    ensures Validate(f.(message := message)) == Validate(f)
  {
  }

  /** Any one empty required field is reported as missing, whatever else was typed. */
  lemma EmptyRequiredIsMissing(f: Submission)
    requires f.name == [] || f.phone == [] || f.location == [] || f.service == []
    ensures Validate(f) == MissingRequired
  {
  }

  /** Whitespace-only text is truthy: a blank-looking name is not "missing". */
  lemma WhitespaceNameIsPresent(f: Submission, blank: string)
    requires blank != [] && forall k :: 0 <= k < |blank| ==> IsWs(blank[k])
    requires RequiredPresent(f)
    ensures Validate(f.(name := blank)) != MissingRequired
  {
  }

  /** A missing e-mail never rejects a submission. */
  lemma EmptyEmailNeverRejects(f: Submission)
    ensures Validate(f.(email := "")) != InvalidEmail
    ensures Validate(f.(email := "")) == Accepted <==> RequiredPresent(f) && PhoneOk(f.phone)
  {
  }

  /** Accepted submission from the form: a name, a ten-digit phone, no e-mail. */
  lemma AcceptsScenario()
    ensures Validate(Submission("Asha", "9876543210", "", "Chennai", "Speech Therapy", "")) == Accepted
  {
    PhoneAcceptsDigits();
  }

  /** The same submission without a name is missing a required field. */
  lemma MissingNameScenario()
    ensures Validate(Submission("", "9876543210", "", "Chennai", "Speech Therapy", "")) == MissingRequired
  {
  }

  /** A five-digit phone is an invalid phone. */
  lemma ShortPhoneScenario()
    ensures Validate(Submission("Asha", "98765", "", "Chennai", "Speech Therapy", "")) == InvalidPhone
  {
    PhoneRejectsShort();
  }

  /** A malformed non-empty e-mail is rejected only after the phone has passed. */
  lemma BadEmailScenario()
    ensures Validate(Submission("Asha", "9876543210", "a@bcom", "Chennai", "Speech Therapy", "")) == InvalidEmail
  {
    PhoneAcceptsDigits();
    EmailRejectsNoDot("a@bcom", 1);
  }
}
