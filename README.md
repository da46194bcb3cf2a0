# XAPPLEPUSHSERVICE for Apache James — a Dafny model

This project models the IMAP extension that lets an Apple mail client register
for push notifications with an `xapsd` daemon, and the mailbox listener that
tells the daemon about mailbox changes. It covers:

- the command value types (`Packages`): the `XAPPLEPUSHSERVICE` command, valid
  in authenticated sessions, the decoded `Request` and the `Response`;
- the decoder (`LineReader`, `CommandParser`, `CommandGrammar`): a cursor over a
  lexed request line, the reader primitives `atom`, `astring`, `mailbox`,
  `nextChar`, `nextWordChar`, `consumeChar` and `eol`, and the `decode` method
  that reads `aps-version V aps-account-id A aps-device-token D aps-subtopic S
  mailboxes ( M* )` and the end of line, accepting version `"2"` only;
- the processor (`Processor`): `doProcess` substitutes `INBOX` for an empty
  mailbox list, makes exactly one register call and answers with the response
  and `OK COMPLETED`, or with `BAD FAILED`; `getImplementedCapabilities`;
- the response encoder (`ResponseEncoder`): the composer calls for one
  response, and `acceptableMessages` as the predicate `AcceptableMessage`;
- the listener (`MailboxListener`): `isHandling`, the classification of added,
  expunged and flag-update events into notification tags, and the notify call;
- the daemon (`Daemon`): its register and notify calls, recorded in a trace; the
  outcome of a register call is a parameter;
- the shared name resolution (`Resolution`) and the cross-component lemmas
  (`Correlation`).

Each imperative operation is a method proved against a specification function
(`Decode` against `DecodeAt`, `DoProcess` against `RegistrationFor` and
`RepliesFor`, `Encode` against `Encoding`, `ReactiveEvent` against `Classify`),
and the promised properties are lemmas about those functions.

The host's source of `ImapCommand.authenticatedStateCommand` is not among the
modelled files; `Packages.AuthenticatedStateCommand` follows RFC 3501 section
6.4, under which a command of the authenticated state stays valid in the
selected state, so the command is refused only before login and after logout.

## Model

| member | source | states |
|---|---|---|
| Packages.AuthenticatedStateCommand | src/main/java/io/rjevski/XAPSDClientExtension/imap/ApplePushServiceImapPackages.java:36 | the command keeps its name and is valid exactly in the authenticated and selected states |
| Packages.ApplePushServiceCommandValidity | src/main/java/io/rjevski/XAPSDClientExtension/imap/ApplePushServiceImapPackages.java:36 | the command is named XAPPLEPUSHSERVICE, is valid once authenticated and invalid before login and after logout |
| CommandParser.ConsumeAtomAndVerify | src/main/java/io/rjevski/XAPSDClientExtension/imap/ApplePushServiceCommandParser.java:55-63 | on the reader, agrees with its specification: an atom equal to the expected key, or a Mismatch error naming the expected and the actual atom; the atom is consumed whether or not it matches |
| CommandParser.ConsumeMailboxes | src/main/java/io/rjevski/XAPSDClientExtension/imap/ApplePushServiceCommandParser.java:71-85 | the loop over the reader collects exactly what the mailbox-list specification yields and leaves the cursor after `)` |
| CommandParser.Decode | src/main/java/io/rjevski/XAPSDClientExtension/imap/ApplePushServiceCommandParser.java:88-126 | on the reader, returns exactly the specification's request or error, with the cursor at the end of line on success |
| CommandGrammar.MailboxItemsCharacterized | src/main/java/io/rjevski/XAPSDClientExtension/imap/ApplePushServiceCommandParser.java:78-81 | the loop succeeds with names ms exactly when ms are astrings in line order followed by `)`, which it does not consume |
| CommandGrammar.DecodeCharacterized | src/main/java/io/rjevski/XAPSDClientExtension/imap/ApplePushServiceCommandParser.java:89-125 | decode succeeds iff the five keys appear in order, the version is "2", the list is parenthesised and the end of line follows; the request holds the tag and every parsed value verbatim |
| CommandGrammar.DecodeRenderRoundTrip | src/main/java/io/rjevski/XAPSDClientExtension/imap/ApplePushServiceCommandParser.java:89-125 | every version-2 request, with any mailbox list including the empty one, decodes back from its rendering |
| CommandGrammar.EmptyMailboxListDecodes | src/main/java/io/rjevski/XAPSDClientExtension/imap/ApplePushServiceCommandParser.java:113-114 | `()` decodes successfully to no mailboxes; the decoder substitutes nothing |
| CommandGrammar.KeyMismatchRejected | src/main/java/io/rjevski/XAPSDClientExtension/imap/ApplePushServiceCommandParser.java:55-62 | the first key atom that differs from the expected literal fails decoding with "Expected key, got actual." and no request |
| CommandGrammar.UnknownVersionRejected | src/main/java/io/rjevski/XAPSDClientExtension/imap/ApplePushServiceCommandParser.java:92-99 | a version other than "2" fails with "Unknown aps-version V, expected 2." whatever follows it |
| CommandGrammar.MissingOpenParenthesisRejected | src/main/java/io/rjevski/XAPSDClientExtension/imap/ApplePushServiceCommandParser.java:74-75 | without `(` after `mailboxes` decoding fails, naming the missing `(` |
| CommandGrammar.TrailingTokenRejected | src/main/java/io/rjevski/XAPSDClientExtension/imap/ApplePushServiceCommandParser.java:116 | anything but the end of line after `)` fails decoding |
| Daemon.Client.Register | src/main/java/io/rjevski/XAPSDClientExtension/xapsd/Client.java:31-35 | one register call is appended to the trace with its five arguments and resolves to the given outcome |
| Daemon.Client.NotifyOfEvents | src/main/java/io/rjevski/XAPSDClientExtension/xapsd/Client.java:48-54 | one notify call is appended to the trace with its three arguments |
| Processor.ImplementedCapabilities | src/main/java/io/rjevski/XAPSDClientExtension/imap/ApplePushServiceProcessor.java:57-60 | the advertised capabilities are exactly the command's name, XAPPLEPUSHSERVICE |
| Processor.ResolveUserName | src/main/java/io/rjevski/XAPSDClientExtension/imap/ApplePushServiceProcessor.java:85-87 | the registered user name is the session's user name as it stands |
| Processor.ResolveMailboxNames | src/main/java/io/rjevski/XAPSDClientExtension/imap/ApplePushServiceProcessor.java:98-100 | every user-facing name goes through the shared mailbox resolver, in order |
| Processor.ResolveMailboxNamesIsIdentity | src/main/java/io/rjevski/XAPSDClientExtension/imap/ApplePushServiceProcessor.java:98-100 | mailbox resolution returns the names it is given |
| Processor.RegistrationContents | src/main/java/io/rjevski/XAPSDClientExtension/imap/ApplePushServiceProcessor.java:114-128 | the register call carries the request's account id, device token and subtopic and the session user; mailboxes are ["INBOX"] for an empty list and the request's list otherwise |
| Processor.RepliesShape | src/main/java/io/rjevski/XAPSDClientExtension/imap/ApplePushServiceProcessor.java:129-165 | exactly one tagged status, last, for the request's tag; a response with the request's version and the topic precedes OK COMPLETED on success; failure is BAD FAILED alone |
| Processor.Ok | src/main/java/io/rjevski/XAPSDClientExtension/imap/ApplePushServiceProcessor.java:141-151 | appends the response (request version, topic) and then the tagged OK COMPLETED |
| Processor.Fail | src/main/java/io/rjevski/XAPSDClientExtension/imap/ApplePushServiceProcessor.java:158-165 | appends one tagged BAD with the given text and nothing else |
| Processor.DoProcess | src/main/java/io/rjevski/XAPSDClientExtension/imap/ApplePushServiceProcessor.java:103-134 | exactly one register call, the request's or the INBOX registration, is added to the trace, the replies for its outcome are added to the responder, and a failed registration is still reported as failed to the host after BAD FAILED |
| ResponseEncoder.Encode | src/main/java/io/rjevski/XAPSDClientExtension/imap/ApplePushServiceResponseEncoder.java:38-50 | appends exactly the encoding of the response to the composer |
| ResponseEncoder.EncodingRoundTrip | src/main/java/io/rjevski/XAPSDClientExtension/imap/ApplePushServiceResponseEncoder.java:38-50 | reading the encoding back yields the response's version and topic |
| ResponseEncoder.EncodingInjective | src/main/java/io/rjevski/XAPSDClientExtension/imap/ApplePushServiceResponseEncoder.java:38-50 | the encoding is determined by, and determines, the version and topic |
| ResponseEncoder.EncodingLayout | src/main/java/io/rjevski/XAPSDClientExtension/imap/ApplePushServiceResponseEncoder.java:39-49 | untagged marker, then the command name, the aps-version pair before the aps-topic pair, and a single terminator at the end |
| ResponseEncoder.AcceptableMessage | src/main/java/io/rjevski/XAPSDClientExtension/imap/ApplePushServiceResponseEncoder.java:33-35 | the encoder takes every reply that is not a tagged status |
| Correlation.EncoderTakesResponseOnly | src/main/java/io/rjevski/XAPSDClientExtension/imap/ApplePushServiceResponseEncoder.java:33-35 | of the replies the processor hands over, the encoder takes only the response of a successful registration, never a tagged status, and writes it so that it reads back as the request's version and the topic |
| MailboxListener.OnlyHandledEventsNotify | src/main/java/io/rjevski/XAPSDClientExtension/listener/ApplePushServiceMailboxListener.java:141-143 | only added, expunged and flag-update events are handled or notified |
| MailboxListener.IsHandling | src/main/java/io/rjevski/XAPSDClientExtension/listener/ApplePushServiceMailboxListener.java:141-143 | added, expunged and flag-update events are handled and every other event is not |
| MailboxListener.ResolveUserName | src/main/java/io/rjevski/XAPSDClientExtension/listener/ApplePushServiceMailboxListener.java:154-156 | the notified user name is the event's user name as it stands |
| MailboxListener.ResolveMailboxName | src/main/java/io/rjevski/XAPSDClientExtension/listener/ApplePushServiceMailboxListener.java:168-170 | the notified mailbox name is the name of the event's mailbox path |
| MailboxListener.AddedClassification | src/main/java/io/rjevski/XAPSDClientExtension/listener/ApplePushServiceMailboxListener.java:78-99 | an added event is notified iff delivery, append or move; MessageNew iff delivery, MessageAppend iff append or move |
| MailboxListener.ExpungedClassification | src/main/java/io/rjevski/XAPSDClientExtension/listener/ApplePushServiceMailboxListener.java:100-107 | an expunge is always notified with exactly MessageExpunge |
| MailboxListener.FlagsUpdatedClassification | src/main/java/io/rjevski/XAPSDClientExtension/listener/ApplePushServiceMailboxListener.java:108-129 | a flag update is notified iff some record changed flags, and then with exactly FlagsSet and FlagsClear |
| MailboxListener.NamesInExact | src/main/java/io/rjevski/XAPSDClientExtension/listener/ApplePushServiceMailboxListener.java:92-98 | the names listed from a tag set over a duplicate-free vocabulary are exactly those of its tags, each once |
| MailboxListener.TagNamesExact | src/main/java/io/rjevski/XAPSDClientExtension/listener/ApplePushServiceMailboxListener.java:92-98 | the event names sent are exactly the names of the collected tags, without duplicates |
| MailboxListener.NotifyCallShape | src/main/java/io/rjevski/XAPSDClientExtension/listener/ApplePushServiceMailboxListener.java:154-191 | at most one notify call per event, carrying the event's user name, its mailbox path name and distinct, non-empty event names |
| MailboxListener.Handle | src/main/java/io/rjevski/XAPSDClientExtension/listener/ApplePushServiceMailboxListener.java:175-192 | appends one notify call with the given user, mailbox and event names |
| MailboxListener.ReactiveEvent | src/main/java/io/rjevski/XAPSDClientExtension/listener/ApplePushServiceMailboxListener.java:72-133 | the trace grows by exactly the notify calls the classification prescribes for the event |
| Correlation.NotificationMatchesRegistration | src/main/java/io/rjevski/XAPSDClientExtension/listener/ApplePushServiceMailboxListener.java:145-170 | an event of the registered user in a registered mailbox is notified under the user name and one of the mailbox names the register call carried |
| Correlation.DecodedRegistrationReply | src/main/java/io/rjevski/XAPSDClientExtension/imap/ApplePushServiceImapPackages.java:77-80 | the response to a decoded command that registered reads back as version "2", the request's version, with the daemon's topic |

## Left out

- Lexing: the host reader's rules for atoms, quoted strings, literals and spaces are not modelled; a line is a sequence of tokens (atom, quoted string, special character, end of line), so `nextWordChar` only has to spot the end of line.
- `mailbox()`: any case normalisation the host reader applies to `INBOX` is not modelled; a mailbox name is read as an astring.
- CommandParser.Decode: where the reader's cursor stands after a failed decode is not stated, because the host discards the rest of the line; the reader primitives leave it in place on failure, and `ConsumeAtomAndVerify` states that it moves past the atom even when the atom is the wrong key.
- DecodeError: the texts of the reader's own errors and the `ILLEGAL_ARGUMENTS` key of the decoding exceptions are not modelled; `CommandParser.Message` gives the two texts the parser formats itself.
- Quoting and the bytes of a reply: the composer's escaping of quoted strings and its line terminator are the host's; the model keeps the sequence of composer calls.
- The daemon's HTTP transport, the JSON bodies of `RegisterRequest` and `NotifyRequest`, and the asynchronous `Mono` pipeline, `ExecutionMode.ASYNCHRONOUS` and fire-and-forget scheduling: concurrency and network I/O; a register call is one recorded call with an outcome given by the caller, a notify call one recorded call.
- MailboxListener.ReactiveEvent: the `Mono` the listener returns, and any failure of the notify call inside it, goes to the host's event bus; the model records the notify call but does not represent what the host does with its outcome.
- Configuration of `xapsd.baseUrl`, logging, the MDC context of the processor, the package wiring by class name and the listener group: no behaviour of the core depends on them.
- `UpdatedFlags.flagsChanged()`: taken as a given boolean per record; how the host compares old and new flags is not modelled.
- Events other than added, expunged and flag updates are one `OtherEvent` case.
- MailboxListener.TagNames: a hash set's iteration order is unspecified; the model lists the tag names in one fixed order, and its lemmas do not depend on it.
- Processor.DoProcess: a register call that completes with no topic (a successful reply with an empty body) makes `ok` send a response with a null topic before OK COMPLETED; `Registered` always carries a topic, so that case is not modelled. A failed register call is modelled as the `failed` result; the error value itself is not.
- User names are plain strings; the host's `Username` type is not modelled.
