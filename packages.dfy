/**
 * The value types of the XAPPLEPUSHSERVICE IMAP extension: the command it adds,
 * the request the parser builds, the response the processor produces, and the
 * replies a processor hands to the connection's responder.
 */
module Packages {

  /** Opaque command-correlation identifier chosen by the client. */
  type Tag = string

  /** The states of an IMAP session (RFC 3501 section 3). */
  datatype SessionState = NotAuthenticated | Authenticated | Selected | Logout

  /** An IMAP command: its name and the session states in which it may be issued. */
  datatype ImapCommand = ImapCommand(name: string, validStates: set<SessionState>)

  predicate ValidForState(command: ImapCommand, state: SessionState) {
    state in command.validStates
  }

  /**
   * A command of the authenticated state. Following RFC 3501 section 6.4, such a
   * command stays valid once a mailbox is selected.
   */
  function AuthenticatedStateCommand(name: string): (c: ImapCommand)
    ensures c.name == name
    ensures forall state :: ValidForState(c, state) <==> state == Authenticated || state == Selected
  {
    ImapCommand(name, {Authenticated, Selected})
  }

  const ApplePushServiceCommand: ImapCommand := AuthenticatedStateCommand("XAPPLEPUSHSERVICE")

  /** The command is named XAPPLEPUSHSERVICE and is refused before login and after logout. */
  lemma ApplePushServiceCommandValidity()
    ensures ApplePushServiceCommand.name == "XAPPLEPUSHSERVICE"
    ensures !ValidForState(ApplePushServiceCommand, NotAuthenticated)
    ensures !ValidForState(ApplePushServiceCommand, Logout)
    ensures ValidForState(ApplePushServiceCommand, Authenticated)
  {
  }

  /**
   * A decoded XAPPLEPUSHSERVICE command. Every request is bound to
   * ApplePushServiceCommand; the other fields are stored as the client sent them.
   */
  datatype Request = Request(
    tag: Tag,
    version: string,
    accountId: string,
    deviceToken: string,
    subtopic: string,
    mailboxes: seq<string>)
  {
    function Command(): ImapCommand {
      ApplePushServiceCommand
    }
  }

  /** The untagged XAPPLEPUSHSERVICE reply: the request's version and the topic the daemon returned. */
  datatype Response = Response(version: string, topic: string)

  /** The fixed status texts the processor uses. */
  datatype HumanReadableText = Completed | Failed

  /** A message handed to the connection's responder. */
  datatype Reply =
    | ServiceResponse(response: Response)
    | TaggedOk(tag: Tag, command: ImapCommand, text: HumanReadableText)
    | TaggedBad(tag: Tag, command: ImapCommand, text: HumanReadableText)
  {
    /** Tagged replies end the command they answer. */
    predicate IsTerminal() {
      TaggedOk? || TaggedBad?
    }
  }
}
