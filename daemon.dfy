/**
 * The contract of the push daemon's HTTP API, as this extension uses it: a
 * register call and a notify call, both recorded in a trace. The transport is
 * outside the model; how a register call resolves is given by the caller.
 */
module Daemon {

  /** The payload of POST /register. */
  datatype RegisterRequest = RegisterRequest(
    accountId: string,
    deviceToken: string,
    subtopic: string,
    username: string,
    mailboxes: seq<string>)

  /** The payload of POST /notify. */
  datatype NotifyRequest = NotifyRequest(username: string, mailbox: string, events: seq<string>)

  datatype Call = RegisterCall(register: RegisterRequest) | NotifyCall(notify: NotifyRequest)

  /** How one register call resolved: the topic the daemon returned, or a transport error. */
  datatype RegisterOutcome = Registered(topic: string) | RegisterFailed

  /** The daemon client; `calls` is every call made through it, oldest first. */
  class Client {
    var calls: seq<Call>

    constructor ()
      ensures calls == []
    {
      calls := [];
    }

    /** register: one POST /register, resolving to `outcome`. */
    method Register(
      accountId: string, deviceToken: string, subtopic: string, username: string, mailboxes: seq<string>,
      outcome: RegisterOutcome)
      returns (result: RegisterOutcome)
      modifies this
      ensures calls == old(calls) + [RegisterCall(RegisterRequest(accountId, deviceToken, subtopic, username, mailboxes))]
      ensures result == outcome
    {
      calls := calls + [RegisterCall(RegisterRequest(accountId, deviceToken, subtopic, username, mailboxes))];
      result := outcome;
    }

    /** notifyOfEvents: one POST /notify; its outcome is never looked at. */
    method NotifyOfEvents(username: string, mailbox: string, events: seq<string>)
      modifies this
      ensures calls == old(calls) + [NotifyCall(NotifyRequest(username, mailbox, events))]
    {
      calls := calls + [NotifyCall(NotifyRequest(username, mailbox, events))];
    }
  }
}
