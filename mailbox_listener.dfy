/**
 * The mailbox listener: classifies mailbox events into notification tags and
 * forwards each event that yields tags to the daemon's notify call.
 */
module MailboxListener {
  import opened Results
  import opened Daemon
  import Resolution

  /** A mailbox path; only its name is used. */
  datatype MailboxPath = MailboxPath(namespace: string, user: string, name: string)

  /** One message's flag update in a FlagsUpdated event. */
  datatype UpdatedFlags = UpdatedFlags(uid: nat, flagsChanged: bool)

  /** The events the mail store raises, as far as the listener distinguishes them. */
  datatype Event =
    | Added(username: string, path: MailboxPath, isDelivery: bool, isAppended: bool, isMoved: bool)
    | Expunged(username: string, path: MailboxPath)
    | FlagsUpdated(username: string, path: MailboxPath, updatedFlags: seq<UpdatedFlags>)
    | OtherEvent

  /** The notification tags sent to the daemon. */
  datatype EventTag = MessageNew | MessageAppend | MessageExpunge | FlagsSet | FlagsClear

  function TagName(t: EventTag): string {
    match t
    case MessageNew => "MessageNew"
    case MessageAppend => "MessageAppend"
    case MessageExpunge => "MessageExpunge"
    case FlagsSet => "FlagsSet"
    case FlagsClear => "FlagsClear"
  }

  /** Every tag, in the order their names are listed in a notify call. */
  const Vocabulary: seq<EventTag> := [MessageNew, MessageAppend, MessageExpunge, FlagsSet, FlagsClear]

  /** The names of the tags of `vocabulary` that are in `tags`, in vocabulary order. */
  function NamesIn(tags: set<EventTag>, vocabulary: seq<EventTag>): seq<string> {
    if vocabulary == [] then []
    else (if vocabulary[0] in tags then [TagName(vocabulary[0])] else []) + NamesIn(tags, vocabulary[1..])
  }

  /** The array of names built from the collected tag set. */
  function TagNames(tags: set<EventTag>): seq<string> {
    NamesIn(tags, Vocabulary)
  }

  /** isHandling: the listener subscribes to added, expunged and flag-update events only. */
  predicate IsHandling(event: Event): (handled: bool)
    ensures handled <==> !event.OtherEvent?
  {
    event.Added? || event.Expunged? || event.FlagsUpdated?
  }

  /** resolveUserName: the event's user name as it stands, the value the processor resolves too. */
  function ResolveUserName(event: Event): (name: string)
    requires !event.OtherEvent?
    ensures name == event.username
  {
    Resolution.UserName(event.username)
  }

  /** resolveMailboxName: the name of the event's mailbox path, through the shared resolver. */
  function ResolveMailboxName(event: Event): (name: string)
    requires !event.OtherEvent?
    ensures name == event.path.name
  {
    Resolution.MailboxName(event.path.name)
  }

  /** What one event asks the daemon to be told: resolved user and mailbox, and a tag set. */
  datatype Descriptor = Descriptor(username: string, mailbox: string, tags: set<EventTag>)

  /** Tags of an Added event: a delivery is a new message; an append or a move is an appended one. */
  function AddedTags(isDelivery: bool, isAppended: bool, isMoved: bool): set<EventTag> {
    (if isDelivery then {MessageNew} else {}) + (if isAppended || isMoved then {MessageAppend} else {})
  }

  predicate AnyFlagsChanged(updates: seq<UpdatedFlags>) {
    exists i :: 0 <= i < |updates| && updates[i].flagsChanged
  }

  /** The classification the listener implements: which events are forwarded, with which tags. */
  function Classify(event: Event): Option<Descriptor> {
    match event
    case Added(_, _, delivery, appended, moved) =>
      var tags := AddedTags(delivery, appended, moved);
      if tags == {} then None
      else Some(Descriptor(ResolveUserName(event), ResolveMailboxName(event), tags))
    case Expunged(_, _) =>
      Some(Descriptor(ResolveUserName(event), ResolveMailboxName(event), {MessageExpunge}))
    case FlagsUpdated(_, _, updates) =>
      // any changed flag counts as both a set and a clear: the flags are not diffed
      if AnyFlagsChanged(updates)
      then Some(Descriptor(ResolveUserName(event), ResolveMailboxName(event), {FlagsSet, FlagsClear}))
      else None
    case OtherEvent =>
      None
  }

  /** The daemon calls one event leads to. */
  function NotifyCallsFor(event: Event): seq<Call> {
    match Classify(event)
    case Some(d) => [NotifyCall(NotifyRequest(d.username, d.mailbox, TagNames(d.tags)))]
    case None => []
  }

  /** handle: one notify call. */
  method Handle(userName: string, mailboxName: string, eventTypes: seq<string>, client: Client)
    modifies client
    ensures client.calls == old(client.calls) + [NotifyCall(NotifyRequest(userName, mailboxName, eventTypes))]
  {
    client.NotifyOfEvents(userName, mailboxName, eventTypes);
  }

  /** reactiveEvent */
  method ReactiveEvent(event: Event, client: Client)
    modifies client
    ensures client.calls == old(client.calls) + NotifyCallsFor(event)
  {
    match event
    case Added(_, _, delivery, appended, moved) =>
      var mailboxEvents: set<EventTag> := {};
      if delivery {
        mailboxEvents := mailboxEvents + {MessageNew};
      }
      if appended || moved {
        mailboxEvents := mailboxEvents + {MessageAppend};
      }
      assert mailboxEvents == AddedTags(delivery, appended, moved);
      if mailboxEvents != {} {
        Handle(ResolveUserName(event), ResolveMailboxName(event), TagNames(mailboxEvents), client);
      }
    case Expunged(_, _) =>
      ExpungeNames();
      Handle(ResolveUserName(event), ResolveMailboxName(event), ["MessageExpunge"], client);
    case FlagsUpdated(_, _, updates) =>
      var mailboxEvents: set<EventTag> := {};
      for i := 0 to |updates|
        invariant mailboxEvents == if AnyFlagsChanged(updates[..i]) then {FlagsSet, FlagsClear} else {}
      {
        assert updates[..i + 1] == updates[..i] + [updates[i]];
        if updates[i].flagsChanged {
          mailboxEvents := mailboxEvents + {FlagsSet, FlagsClear};
        }
      }
      assert updates[..|updates|] == updates;
      if mailboxEvents != {} {
        Handle(ResolveUserName(event), ResolveMailboxName(event), TagNames(mailboxEvents), client);
      }
    case OtherEvent =>
  }

  // ---------------------------------------------------------------------------
  // What the listener promises

  /** An expunge is reported as the single name MessageExpunge. */
  lemma ExpungeNames()
    ensures TagNames({MessageExpunge}) == ["MessageExpunge"]
  {
  }

  /** The names sent are those of the collected tags, each once. */
  lemma {:induction false} NamesInExact(tags: set<EventTag>, vocabulary: seq<EventTag>)
    requires forall i, j :: 0 <= i < j < |vocabulary| ==> vocabulary[i] != vocabulary[j]
    ensures forall t :: TagName(t) in NamesIn(tags, vocabulary) <==> t in tags && t in vocabulary
    ensures forall n :: n in NamesIn(tags, vocabulary) ==> exists t :: t in tags && TagName(t) == n
    ensures forall i, j :: 0 <= i < j < |NamesIn(tags, vocabulary)| ==> NamesIn(tags, vocabulary)[i] != NamesIn(tags, vocabulary)[j]
  {
    if vocabulary != [] {
      NamesInExact(tags, vocabulary[1..]);
      var head := if vocabulary[0] in tags then [TagName(vocabulary[0])] else [];
      var rest := NamesIn(tags, vocabulary[1..]);
      assert NamesIn(tags, vocabulary) == head + rest;
      assert vocabulary[0] !in vocabulary[1..] by {
        forall k | 0 <= k < |vocabulary| - 1 ensures vocabulary[1..][k] != vocabulary[0] {
          assert vocabulary[1..][k] == vocabulary[k + 1];
        }
      }
      forall t ensures TagName(t) in head + rest <==> t in tags && t in vocabulary {
        assert t in vocabulary <==> t == vocabulary[0] || t in vocabulary[1..];
      }
    }
  }

  /** The names of a tag set: exactly its tags, without duplicates. */
  lemma TagNamesExact(tags: set<EventTag>)
    ensures forall t :: TagName(t) in TagNames(tags) <==> t in tags
    ensures forall n :: n in TagNames(tags) ==> exists t :: t in tags && TagName(t) == n
    ensures forall i, j :: 0 <= i < j < |TagNames(tags)| ==> TagNames(tags)[i] != TagNames(tags)[j]
  {
    NamesInExact(tags, Vocabulary);
    forall t ensures t in Vocabulary {
    }
  }

  /** Only the handled kinds of event lead to a notification. */
  lemma OnlyHandledEventsNotify(event: Event)
    ensures Classify(event).Some? ==> IsHandling(event)
    ensures event.OtherEvent? ==> Classify(event) == None && !IsHandling(event)
  {
  }

  /**
   * An Added event is forwarded exactly when it is a delivery, an append or a
   * move; MessageNew is sent exactly for a delivery and MessageAppend exactly
   * for an append or a move, possibly both.
   */
  lemma AddedClassification(event: Event)
    requires event.Added?
    ensures Classify(event).Some? <==> event.isDelivery || event.isAppended || event.isMoved
    ensures Classify(event).Some? ==>
      && (MessageNew in Classify(event).value.tags <==> event.isDelivery)
      && (MessageAppend in Classify(event).value.tags <==> event.isAppended || event.isMoved)
      && Classify(event).value.tags <= {MessageNew, MessageAppend}
  {
  }

  /** An expunge is always forwarded, with MessageExpunge alone. */
  lemma ExpungedClassification(event: Event)
    requires event.Expunged?
    ensures Classify(event).Some? && Classify(event).value.tags == {MessageExpunge}
  {
  }

  /**
   * A flag update is forwarded exactly when some message's flags changed, and
   * then always with both FlagsSet and FlagsClear.
   */
  lemma FlagsUpdatedClassification(event: Event)
    requires event.FlagsUpdated?
    ensures Classify(event).Some? <==> exists i :: 0 <= i < |event.updatedFlags| && event.updatedFlags[i].flagsChanged
    ensures Classify(event).Some? ==> Classify(event).value.tags == {FlagsSet, FlagsClear}
  {
  }

  /**
   * An event leads to at most one notify call; that call carries the event's
   * user name and its mailbox's name and the distinct names of a non-empty tag set.
   */
  lemma NotifyCallShape(event: Event)
    ensures |NotifyCallsFor(event)| <= 1
    ensures |NotifyCallsFor(event)| == 1 <==> Classify(event).Some?
    ensures |NotifyCallsFor(event)| == 1 ==>
      var n := NotifyCallsFor(event)[0].notify;
      && NotifyCallsFor(event)[0].NotifyCall?
      && n.username == event.username
      && n.mailbox == event.path.name
      && |n.events| > 0
      && (forall i, j :: 0 <= i < j < |n.events| ==> n.events[i] != n.events[j])
  {
    if Classify(event).Some? {
      var d := Classify(event).value;
      TagNamesExact(d.tags);
      var t :| t in d.tags;
      assert TagName(t) in TagNames(d.tags);
    }
  }
}
