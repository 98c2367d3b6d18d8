/** The provider chain: the mail record is built from the message, SendGrid
    is tried through its own breaker, then SMTP through a second one. The
    transports are oracles: their answers (and the clock readings) come in
    as a `Transports` value. */
module Sender {
  import opened Envelope
  import opened Circuit

  datatype Provider = SendGrid | Smtp

  /** The mail record handed to a transport; an absent field is `None`
      (`undefined` in the record). */
  datatype Mail = Mail(to: Option<Value>, from: string, subject: Option<Value>, text: Value, html: Option<Value>)

  /** The record's `text`: `text_body` when it is truthy, else the empty string. */
  function TextOf(fields: map<string, Value>): Value
  {
    var t := Field(fields, "text_body");
    if t.Some? && Truthy(t.value) then t.value else Str("")
  }

  /** The record `{to, from, subject, text, html}` built from a message. */
  function BuildMail(msg: Message, from: string): (m: Mail)
    ensures m.from == from
    ensures m.to.Some? <==> "to_email" in msg.fields
    ensures m.text == Str("") || (Truthy(m.text) && Field(msg.fields, "text_body") == Some(m.text))
  {
    Mail(Field(msg.fields, "to_email"), from, Field(msg.fields, "subject"),
         TextOf(msg.fields), Field(msg.fields, "html_body"))
  }

  /** A transport failure, opaque to the chain. */
  datatype TransportError = TransportError(detail: string)

  /** What the two transports do when they are invoked, and the clock
      readings (milliseconds) on entry to each breaker. */
  datatype Transports = Transports(
    sendGridAt: int, sendGrid: Attempt<(), TransportError>,
    smtpAt: int, smtp: Attempt<(), TransportError>)

  /** One invocation of a transport with the mail it was given. */
  datatype TransportCall = TransportCall(provider: Provider, mail: Mail)

  /** `{success: true, provider}`. */
  datatype Sent = Sent(success: bool, provider: Provider)

  /** The effect of one `sendEmail`: what it returns or throws, both breakers
      afterwards, and the transport invocations in order. */
  datatype ChainStep = ChainStep(
    result: Outcome<Sent, Fault<TransportError>>,
    sg: Breaker, smtp: Breaker,
    calls: seq<TransportCall>)

  function Invocation(invoked: bool, provider: Provider, mail: Mail): seq<TransportCall>
  {
    if invoked then [TransportCall(provider, mail)] else []
  }

  /** `sendEmail` on breaker values. */
  function Chain(sg: Breaker, smtp: Breaker, msg: Message, from: string, t: Transports): (s: ChainStep)
    ensures CallStep(sg, t.sendGridAt, t.sendGrid).invoked ==>
      |s.calls| >= 1 && s.calls[0] == TransportCall(SendGrid, BuildMail(msg, from))
    ensures |s.calls| <= 2
    ensures s.result.Ok? ==> s.result.value.success
    ensures s.result == Ok(Sent(true, SendGrid)) ==> s.smtp == smtp
    ensures s.result.Err? ==> CallStep(smtp, t.smtpAt, t.smtp).result == Err(s.result.error)
    ensures Consistent(sg) && Consistent(smtp) ==> Consistent(s.sg) && Consistent(s.smtp)
  {
    var mail := BuildMail(msg, from);
    var first := CallStep(sg, t.sendGridAt, t.sendGrid);
    var sgCalls := Invocation(first.invoked, SendGrid, mail);
    if first.result.Ok? then
      ChainStep(Ok(Sent(true, SendGrid)), first.after, smtp, sgCalls)
    else
      var second := CallStep(smtp, t.smtpAt, t.smtp);
      var calls := sgCalls + Invocation(second.invoked, Smtp, mail);
      match second.result
      case Ok(_) => ChainStep(Ok(Sent(true, Smtp)), first.after, second.after, calls)
      case Err(e) => ChainStep(Err(e), first.after, second.after, calls)
  }

  // ----- properties -----

  /** The mail record copies `to_email`, `subject` and `html_body`, takes the
      configured sender, and its `text` is `text_body` if truthy, else "". */
  lemma MailCopiesFields(msg: Message, from: string)
    ensures var m := BuildMail(msg, from);
      && (("to_email" in msg.fields) == m.to.Some?)
      && ("to_email" in msg.fields ==> m.to.value == msg.fields["to_email"])
      && (("subject" in msg.fields) == m.subject.Some?)
      && ("subject" in msg.fields ==> m.subject.value == msg.fields["subject"])
      && (("html_body" in msg.fields) == m.html.Some?)
      && ("html_body" in msg.fields ==> m.html.value == msg.fields["html_body"])
      && m.from == from
      && (if "text_body" in msg.fields && Truthy(msg.fields["text_body"])
          then m.text == msg.fields["text_body"] else m.text == Str(""))
  {
  }

  /** Every transport invocation is given the same mail record, built from
      the message. */
  lemma CallsCarryTheMail(sg: Breaker, smtp: Breaker, msg: Message, from: string, t: Transports)
    ensures var s := Chain(sg, smtp, msg, from, t);
      forall i :: 0 <= i < |s.calls| ==> s.calls[i].mail == BuildMail(msg, from)
  {
  }

  /** SendGrid succeeds: the result names SendGrid, SendGrid is the only
      transport invoked, and the SMTP breaker is untouched. */
  lemma SendGridSuccess(sg: Breaker, smtp: Breaker, msg: Message, from: string, t: Transports)
    requires CallStep(sg, t.sendGridAt, t.sendGrid).result.Ok?
    ensures var s := Chain(sg, smtp, msg, from, t);
      && s.result == Ok(Sent(true, SendGrid))
      && s.smtp == smtp
      && s.sg == CallStep(sg, t.sendGridAt, t.sendGrid).after
      && s.calls == [TransportCall(SendGrid, BuildMail(msg, from))]
  {
  }

  /** Any SendGrid failure, its breaker's fast-fail included, falls through
      to one SMTP attempt through the SMTP breaker. */
  lemma SendGridFailureFallsThrough(sg: Breaker, smtp: Breaker, msg: Message, from: string, t: Transports)
    requires CallStep(sg, t.sendGridAt, t.sendGrid).result.Err?
    ensures var s := Chain(sg, smtp, msg, from, t);
      && s.sg == CallStep(sg, t.sendGridAt, t.sendGrid).after
      && s.smtp == CallStep(smtp, t.smtpAt, t.smtp).after
      && (CallStep(smtp, t.smtpAt, t.smtp).invoked ==>
            s.calls[|s.calls| - 1] == TransportCall(Smtp, BuildMail(msg, from)))
      && |s.calls| <= 2
  {
  }

  /** SendGrid fails and SMTP succeeds: the result names SMTP. */
  lemma SmtpRescues(sg: Breaker, smtp: Breaker, msg: Message, from: string, t: Transports)
    requires CallStep(sg, t.sendGridAt, t.sendGrid).result.Err?
    requires CallStep(smtp, t.smtpAt, t.smtp).result.Ok?
    ensures Chain(sg, smtp, msg, from, t).result == Ok(Sent(true, Smtp))
  {
  }

  /** Both fail: the error thrown is the SMTP breaker's, that is the last
      provider's (its transport error, or its fast-fail). */
  lemma BothFailThrowsLast(sg: Breaker, smtp: Breaker, msg: Message, from: string, t: Transports)
    requires CallStep(sg, t.sendGridAt, t.sendGrid).result.Err?
    requires CallStep(smtp, t.smtpAt, t.smtp).result.Err?
    ensures Chain(sg, smtp, msg, from, t).result == Err(CallStep(smtp, t.smtpAt, t.smtp).result.error)
  {
  }

  /** The chain succeeds exactly when one of the two breaker calls does, and
      then it names the first provider that did. */
  lemma ChainSucceedsIffAProviderDoes(sg: Breaker, smtp: Breaker, msg: Message, from: string, t: Transports)
    ensures var s := Chain(sg, smtp, msg, from, t);
      var first := CallStep(sg, t.sendGridAt, t.sendGrid);
      var second := CallStep(smtp, t.smtpAt, t.smtp);
      && (s.result.Ok? <==> first.result.Ok? || second.result.Ok?)
      && (s.result.Ok? ==>
            s.result.value.success && s.result.value.provider == (if first.result.Ok? then SendGrid else Smtp))
  {
  }

  /** The chain keeps both breakers' invariants. */
  lemma ChainKeepsConsistent(sg: Breaker, smtp: Breaker, msg: Message, from: string, t: Transports)
    requires Consistent(sg) && Consistent(smtp)
    ensures var s := Chain(sg, smtp, msg, from, t);
      Consistent(s.sg) && Consistent(s.smtp)
  {
    CallKeepsConsistent(sg, t.sendGridAt, t.sendGrid);
    CallKeepsConsistent(smtp, t.smtpAt, t.smtp);
  }

  /** The module's two breakers (`sgCircuit`, `smtpCircuit`) and the
      configured sender address. */
  class ProviderChain {
    const sgCircuit: CircuitBreaker
    const smtpCircuit: CircuitBreaker
    const fromEmail: string

    ghost predicate Valid()
      reads this, sgCircuit, smtpCircuit
    {
      sgCircuit != smtpCircuit && sgCircuit.Valid() && smtpCircuit.Valid()
    }

    /** Two default breakers, created at clock reading `now`. */
    constructor (now: int, fromEmail: string)
      ensures Valid() && fresh(sgCircuit) && fresh(smtpCircuit)
      ensures sgCircuit.Snapshot() == Initial(now, DefaultFailureThreshold, DefaultRecoveryTime)
      ensures smtpCircuit.Snapshot() == Initial(now, DefaultFailureThreshold, DefaultRecoveryTime)
      ensures this.fromEmail == fromEmail
    {
      sgCircuit := new CircuitBreaker(now);
      smtpCircuit := new CircuitBreaker(now);
      this.fromEmail := fromEmail;
    }

    /** `sendEmail(msg)`: returns what it returns or throws, and the
        transport invocations it made. */
    method SendEmail(msg: Message, t: Transports) returns (result: Outcome<Sent, Fault<TransportError>>, calls: seq<TransportCall>)
      requires Valid()
      modifies sgCircuit, smtpCircuit
      ensures Valid()
      ensures var s := Chain(old(sgCircuit.Snapshot()), old(smtpCircuit.Snapshot()), msg, fromEmail, t);
        && result == s.result && calls == s.calls
        && sgCircuit.Snapshot() == s.sg && smtpCircuit.Snapshot() == s.smtp
    {
      var mail := BuildMail(msg, fromEmail);
      var sgResult, sgInvoked := sgCircuit.Call(t.sendGridAt, t.sendGrid);
      calls := Invocation(sgInvoked, SendGrid, mail);
      if sgResult.Ok? {
        return Ok(Sent(true, SendGrid)), calls;
      }
      var smtpResult, smtpInvoked := smtpCircuit.Call(t.smtpAt, t.smtp);
      calls := calls + Invocation(smtpInvoked, Smtp, mail);
      match smtpResult
      case Ok(_) =>
        result := Ok(Sent(true, Smtp));
      case Err(e) =>
        result := Err(e);
    }
  }
}
