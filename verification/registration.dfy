/** User registration: the "contains @" validator, the stub sender and the
    register decision. The mail client is modelled as an outbox, the sequence
    of messages handed to it so far. */
module Registration {
  import opened Wrappers

  /** A mail message: sender, recipient and subject. */
  datatype MailMessage = MailMessage(from: string, to: string, subject: string)

  /** The error raised when registration is refused. */
  datatype ValidationError = ValidationError(message: string)

  /** What the stub sender reports, together with the outbox after the send. */
  datatype SendOutcome = SendOutcome(sent: bool, outbox: seq<MailMessage>)

  const SiteAddress: string := "mysite@nowhere.com"
  const WelcomeSubject: string := "Welcome!"
  const InvalidEmailMessage: string := "Email is not valid"

  /** The default validator: accepts exactly the strings that contain '@'. */
  function ValidateEmail(email: string): (ok: bool)
    ensures ok <==> exists i :: 0 <= i < |email| && email[i] == '@'
  {
    '@' in email
  }

  /** The stub sender hands the message to the client and always reports
      success. */
  function SendEmail(outbox: seq<MailMessage>, message: MailMessage): (r: SendOutcome)
    ensures r.sent
    ensures |r.outbox| == |outbox| + 1
    ensures r.outbox[..|outbox|] == outbox
    ensures r.outbox[|outbox|] == message
  {
    SendOutcome(true, outbox + [message])
  }

  /** Registers `email` with the injected validator: fails with "Email is not
      valid" and sends nothing when the validator refuses, otherwise sends one
      welcome message to `email` and yields the outbox after it. */
  function Register(validator: string -> bool, outbox: seq<MailMessage>, email: string, password: string)
    : (r: Result<seq<MailMessage>, ValidationError>)
    ensures r.Failure? <==> !validator(email)
    ensures r.Failure? ==> r.error.message == "Email is not valid"
    ensures r.Success? ==> |r.value| == |outbox| + 1 && r.value[..|outbox|] == outbox
    ensures r.Success? ==>
      r.value[|outbox|].to == email
      && r.value[|outbox|].from == "mysite@nowhere.com"
      && r.value[|outbox|].subject == "Welcome!"
  {
    if !validator(email) then Failure(ValidationError(InvalidEmailMessage))
    else
      var sendResult := SendEmail(outbox, MailMessage(SiteAddress, email, WelcomeSubject));
      Success(sendResult.outbox)
  }

  /** The decision and its outcome do not depend on the password. */
  lemma RegisterIgnoresPassword(validator: string -> bool, outbox: seq<MailMessage>, email: string, p1: string, p2: string)
    ensures Register(validator, outbox, email, p1) == Register(validator, outbox, email, p2)
  {
  }

  /** With the default validator, registration succeeds exactly for the
      addresses containing '@'. */
  lemma RegisterWithDefaultValidator(outbox: seq<MailMessage>, email: string, password: string)
    ensures Register(ValidateEmail, outbox, email, password).Success?
      <==> exists i :: 0 <= i < |email| && email[i] == '@'
  {
  }
}
