/**
 * The contact form and its submit handler: read the six controls, run the checks in
 * order, report the first failure and stop, or report success and reset the form.
 */
module ContactForm {
  import opened Options
  import opened Validation
  import opened Notifications

  class Form {
    /** The current values of the six controls. */
    var name: string
    var phone: string
    var email: string
    var location: string
    var service: string
    var message: string
    /** What `reset()` restores each control to. */
    const defaults: Submission

    /** The values the handler collects into `formData`. */
    function Values(): Submission
      reads this
    {
      Submission(name, phone, email, location, service, message)
    }

    constructor (defaults: Submission)
      ensures Values() == defaults && this.defaults == defaults
    {
      this.defaults := defaults;
      name, phone, email := defaults.name, defaults.phone, defaults.email;
      location, service, message := defaults.location, defaults.service, defaults.message;
    }

    /** `contactForm.reset()`. */
    method Reset()
      modifies this
      ensures Values() == defaults
    {
      name, phone, email := defaults.name, defaults.phone, defaults.email;
      location, service, message := defaults.location, defaults.service, defaults.message;
    }

    /** The submit handler. The outcome is the validator's; exactly one notification is
        shown, carrying the outcome's message and type; the form is reset only on success. */
    method Submit(layer: NotificationLayer) returns (o: Outcome)
      requires layer.Valid()
      modifies this, layer
      ensures layer.Valid()
      ensures o == Validate(old(Values()))
      ensures layer.shown == [Notification(old(layer.nextId), Message(o), Kind(o), false)]
      ensures layer.Current() == Some(Notification(old(layer.nextId), Message(o), Kind(o), false))
      ensures layer.pending == old(layer.pending) + [SlideOut(old(layer.nextId))]
      ensures layer.nextId == old(layer.nextId) + 1
      ensures Values() == if o == Accepted then defaults else old(Values())
    {
      var formData := Values();
      if !RequiredPresent(formData) {
        o := MissingRequired;
        layer.Show("Please fill in all required fields", "error");
        return;
      }
      if !Chars.PhoneOk(formData.phone) {
        o := InvalidPhone;
        layer.Show("Please enter a valid 10-digit phone number", "error");
        return;
      }
      if Truthy(formData.email) {
        if !Email.EmailOk(formData.email) {
          o := InvalidEmail;
          layer.Show("Please enter a valid email address", "error");
          return;
        }
      }
      o := Accepted;
      layer.Show("Thank you! We will contact you soon.", "success");
      Reset();
    }
  }

  /** The notification a submission leaves on screen is green exactly when it was accepted. */
  lemma SubmitColour(f: Submission, id: nat)
    ensures Background(Notification(id, Message(Validate(f)), Kind(Validate(f)), false)) ==
      if Validate(f) == Accepted then SuccessColour else ErrorColour
  {
  }

  /** The user fills in the form and submits it: accepted, thanked in green, and reset. */
  method SubmitScenario(defaults: Submission) returns (o: Outcome, shown: seq<Notification>, after: Submission)
    ensures o == Accepted
    ensures shown == [Notification(0, "Thank you! We will contact you soon.", "success", false)]
    ensures Background(shown[0]) == SuccessColour
    ensures after == defaults
  {
    var form := new Form(defaults);
    form.name := "Asha";
    form.phone := "9876543210";
    form.email := "";
    form.location := "Chennai";
    form.service := "Speech Therapy";
    form.message := "";
    var layer := new NotificationLayer();
    AcceptsScenario();
    o := form.Submit(layer);
    shown, after := layer.shown, form.Values();
  }
}
