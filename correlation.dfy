/**
 * Properties that span the components: the daemon matches notifications to
 * registrations by user name and mailbox name alone, and a registration
 * reply echoes the version the decoder accepted.
 */
module Correlation {
  import opened Results
  import opened Packages
  import opened LineReader
  import opened CommandParser
  import opened CommandGrammar
  import opened Daemon
  import opened Processor
  import opened ResponseEncoder
  import opened MailboxListener

  /**
   * An event of the registered user in a registered mailbox (INBOX when the
   * request named none) is notified under the very user name and one of the
   * very mailbox names the register call carried, since both paths resolve
   * names through the same functions.
   */
  lemma {:induction false} NotificationMatchesRegistration(request: Request, session: Session, event: Event)
    requires Classify(event).Some?
    requires event.username == session.userName
    requires event.path.name in MailboxesToRegister(request)
    ensures |NotifyCallsFor(event)| == 1
    ensures NotifyCallsFor(event)[0].notify.username == RegistrationFor(request, session).username
    ensures NotifyCallsFor(event)[0].notify.mailbox in RegistrationFor(request, session).mailboxes
  {
    var names := MailboxesToRegister(request);
    var k :| 0 <= k < |names| && names[k] == event.path.name;
    var registered := RegistrationFor(request, session).mailboxes;
    assert registered == ResolveMailboxNames(session, names);
    assert registered[k] == ResolveMailboxName(event);
  }

  /**
   * A registration that succeeds for a decoded command is answered with a
   * response that reads back as version "2" and the daemon's topic.
   */
  lemma {:induction false} DecodedRegistrationReply(tag: Tag, s: seq<Token>, p: nat, topic: string)
    requires DecodeAt(tag, s, p).Success?
    ensures var request := DecodeAt(tag, s, p).value.value;
      var first := RepliesFor(request, Registered(topic))[0];
      && first.ServiceResponse?
      && ReadResponse(Encoding(first.response)) == Some(Response("2", topic))
  {
    var st := DecodeAt(tag, s, p).value;
    DecodeCharacterized(tag, s, p, st.value, st.next);
    EncodingRoundTrip(Response(st.value.version, topic));
  }

  /**
   * Of the replies doProcess hands over, the response encoder takes exactly
   * the response of a successful registration and none of the tagged statuses,
   * and what it writes reads back as the request's version and the topic.
   */
  lemma {:induction false} EncoderTakesResponseOnly(request: Request, outcome: RegisterOutcome)
    ensures var rs := RepliesFor(request, outcome);
      forall k :: 0 <= k < |rs| ==> (AcceptableMessage(rs[k]) <==> outcome.Registered? && k == 0)
    ensures outcome.Registered? ==>
      ReadResponse(Encoding(RepliesFor(request, outcome)[0].response)) == Some(Response(request.version, outcome.topic))
  {
    if outcome.Registered? {
      EncodingRoundTrip(Response(request.version, outcome.topic));
    }
  }
}
