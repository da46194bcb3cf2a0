/**
 * The XAPPLEPUSHSERVICE processor: registers the device with the daemon and
 * answers the client with the response and a tagged status, or with a failure.
 */
module Processor {
  import opened Packages
  import opened Daemon
  import Resolution

  /** What the processor needs of the IMAP session: the logged-in user. */
  datatype Session = Session(userName: string)

  /** The mailbox registered when the client names none, as the Dovecot plugin does. */
  const DefaultMailbox: string := "INBOX"

  /** getImplementedCapabilities: the one capability, the command's own name. */
  function ImplementedCapabilities(session: Session): (caps: seq<string>)
    ensures caps == [ApplePushServiceCommand.name]
    ensures caps == ["XAPPLEPUSHSERVICE"]
  {
    [ApplePushServiceCommand.name]
  }

  /** resolveUserName: the session's user name as it stands, the value the listener resolves too. */
  function ResolveUserName(session: Session): (name: string)
    ensures name == session.userName
  {
    Resolution.UserName(session.userName)
  }

  /** resolveMailboxNames: each user-facing name through the shared mailbox resolver. */
  function ResolveMailboxNames(session: Session, userFacing: seq<string>): (names: seq<string>)
    ensures |names| == |userFacing|
    ensures forall i :: 0 <= i < |userFacing| ==> names[i] == Resolution.MailboxName(userFacing[i])
  {
    seq(|userFacing|, i requires 0 <= i < |userFacing| => Resolution.MailboxName(userFacing[i]))
  }

  /** The mailboxes doProcess registers before resolution: the request's, or INBOX when it names none. */
  function MailboxesToRegister(request: Request): seq<string> {
    if |request.mailboxes| == 0 then [DefaultMailbox] else request.mailboxes
  }

  /** The one register call doProcess makes for `request` in `session`. */
  function RegistrationFor(request: Request, session: Session): RegisterRequest {
    RegisterRequest(
      request.accountId, request.deviceToken, request.subtopic,
      ResolveUserName(session), ResolveMailboxNames(session, MailboxesToRegister(request)))
  }

  /** The replies doProcess hands to the responder once the register call resolved to `outcome`. */
  function RepliesFor(request: Request, outcome: RegisterOutcome): seq<Reply> {
    match outcome
    case Registered(topic) =>
      [ServiceResponse(Response(request.version, topic)), TaggedOk(request.tag, request.Command(), Completed)]
    case RegisterFailed =>
      [TaggedBad(request.tag, request.Command(), Failed)]
  }

  /** The connection's responder; `replies` is everything handed to it, oldest first. */
  class Responder {
    var replies: seq<Reply>

    constructor ()
      ensures replies == []
    {
      replies := [];
    }

    method Respond(reply: Reply)
      modifies this
      ensures replies == old(replies) + [reply]
    {
      replies := replies + [reply];
    }
  }

  /** ok: the response with the request's version and the daemon's topic, then a tagged OK. */
  method Ok(request: Request, responder: Responder, topic: string)
    modifies responder
    ensures responder.replies == old(responder.replies)
      + [ServiceResponse(Response(request.version, topic)), TaggedOk(request.tag, ApplePushServiceCommand, Completed)]
  {
    responder.Respond(ServiceResponse(Response(request.version, topic)));
    responder.Respond(TaggedOk(request.tag, request.Command(), Completed));
  }

  /** fail: a tagged BAD with the given text, and nothing else. */
  method Fail(request: Request, responder: Responder, text: HumanReadableText)
    modifies responder
    ensures responder.replies == old(responder.replies) + [TaggedBad(request.tag, ApplePushServiceCommand, text)]
  {
    responder.Respond(TaggedBad(request.tag, request.Command(), text));
  }

  /**
   * doProcess: exactly one register call, for the request's mailboxes or INBOX,
   * then the replies for the outcome of that call. Answering BAD does not
   * recover from a failed register call: the failure still ends the returned
   * pipeline, which `failed` reports to the host.
   */
  method DoProcess(request: Request, responder: Responder, session: Session, client: Client, outcome: RegisterOutcome)
    returns (failed: bool)
    modifies responder, client
    ensures client.calls == old(client.calls) + [RegisterCall(RegistrationFor(request, session))]
    ensures responder.replies == old(responder.replies) + RepliesFor(request, outcome)
    ensures failed == outcome.RegisterFailed?
  {
    var mailboxes := request.mailboxes;
    if |mailboxes| == 0 {
      mailboxes := [DefaultMailbox];
    }
    var result := client.Register(
      request.accountId, request.deviceToken, request.subtopic,
      ResolveUserName(session), ResolveMailboxNames(session, mailboxes), outcome);
    match result
    case Registered(topic) =>
      Ok(request, responder, topic);
      failed := false;
    case RegisterFailed =>
      Fail(request, responder, Failed);
      failed := true;
  }

  // ---------------------------------------------------------------------------
  // What the processor promises

  /** Mailbox resolution is the identity: the registered names are the user-facing ones. */
  lemma ResolveMailboxNamesIsIdentity(session: Session, userFacing: seq<string>)
    ensures ResolveMailboxNames(session, userFacing) == userFacing
  {
    var names := ResolveMailboxNames(session, userFacing);
    assert forall i :: 0 <= i < |names| ==> names[i] == userFacing[i];
  }

  /**
   * The register call carries the request's account id, device token and
   * subtopic and the session's user; its mailboxes are exactly ["INBOX"] when
   * the request names none and the request's own list otherwise.
   */
  lemma RegistrationContents(request: Request, session: Session)
    ensures RegistrationFor(request, session).accountId == request.accountId
    ensures RegistrationFor(request, session).deviceToken == request.deviceToken
    ensures RegistrationFor(request, session).subtopic == request.subtopic
    ensures RegistrationFor(request, session).username == session.userName
    ensures |request.mailboxes| == 0 ==> RegistrationFor(request, session).mailboxes == ["INBOX"]
    ensures |request.mailboxes| > 0 ==> RegistrationFor(request, session).mailboxes == request.mailboxes
  {
    ResolveMailboxNamesIsIdentity(session, MailboxesToRegister(request));
  }

  /**
   * The replies end with exactly one tagged status for the request's tag and
   * command; a response, carrying the request's version and the daemon's
   * topic, comes first exactly when the register call succeeded. Success is
   * answered by that response and OK COMPLETED, failure by BAD FAILED alone.
   */
  lemma RepliesShape(request: Request, outcome: RegisterOutcome)
    ensures var rs := RepliesFor(request, outcome);
      && |rs| > 0
      && rs[|rs| - 1].IsTerminal()
      && rs[|rs| - 1].tag == request.tag
      && rs[|rs| - 1].command == ApplePushServiceCommand
      && (forall i :: 0 <= i < |rs| - 1 ==> !rs[i].IsTerminal())
      && (forall i :: 0 <= i < |rs| && rs[i].ServiceResponse? ==> rs[i].response.version == request.version)
      && ((exists i :: 0 <= i < |rs| && rs[i].ServiceResponse?) <==> outcome.Registered?)
      && (outcome.Registered? ==>
            |rs| == 2 && rs[0] == ServiceResponse(Response(request.version, outcome.topic))
            && rs[1].TaggedOk? && rs[1].text == Completed)
      && (outcome.RegisterFailed? ==> |rs| == 1 && rs[0].TaggedBad? && rs[0].text == Failed)
  {
    var rs := RepliesFor(request, outcome);
    if outcome.Registered? {
      assert rs[0].ServiceResponse?;
    }
  }
}
