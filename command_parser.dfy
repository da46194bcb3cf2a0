/**
 * Decoder of the XAPPLEPUSHSERVICE command arguments:
 *
 *   aps-version V aps-account-id A aps-device-token D aps-subtopic S mailboxes ( M* ) EOL
 *
 * Each `...At` function is the meaning of one step of the decoder on a line `s`
 * with the cursor at `p`; the methods below run the same steps on a
 * RequestLineReader and are proved to agree with them.
 */
module CommandParser {
  import opened Results
  import opened Packages
  import opened LineReader

  /** The only protocol version the parser understands. */
  const ExpectedVersion: string := "2"

  const KeyVersion: string := "aps-version"
  const KeyAccountId: string := "aps-account-id"
  const KeyDeviceToken: string := "aps-device-token"
  const KeySubtopic: string := "aps-subtopic"
  const KeyMailboxes: string := "mailboxes"

  /** The literal key atoms, in the only order the decoder accepts. */
  const Keys: seq<string> := [KeyVersion, KeyAccountId, KeyDeviceToken, KeySubtopic, KeyMailboxes]

  /** The text of the errors the parser raises itself; the reader's own errors carry the reader's text. */
  function Message(e: DecodeError): Option<string> {
    match e
    case Mismatch(expected, actual) => Some("Expected " + expected + ", got " + actual + ".")
    case UnknownVersion(version, expected) => Some("Unknown aps-version " + version + ", expected " + expected + ".")
    case _ => None
  }

  // ---------------------------------------------------------------------------
  // The decoder as functions of the line and the cursor

  function ConsumeAtomAndVerifyAt(s: seq<Token>, p: nat, expected: string): Result<Step<()>, DecodeError> {
    var actual :- AtomAt(s, p);
    if actual.value != expected then Failure(Mismatch(expected, actual.value))
    else Success(Step((), actual.next))
  }

  /** The `while (nextChar() != ')')` loop: mailbox names up to, not including, the closing parenthesis. */
  function MailboxItemsAt(s: seq<Token>, p: nat): Result<Step<seq<string>>, DecodeError>
    decreases |s| - p
  {
    var c :- NextCharAt(s, p);
    if c == Special(')') then Success(Step([], p))
    else
      var name :- AStringAt(s, p);
      var w :- NextWordCharAt(s, name.next);
      var more :- MailboxItemsAt(s, name.next);
      Success(Step([name.value] + more.value, more.next))
  }

  function ConsumeMailboxesAt(s: seq<Token>, p: nat): Result<Step<seq<string>>, DecodeError> {
    var w1 :- NextWordCharAt(s, p);
    var open :- ConsumeCharAt(s, p, '(');
    var w2 :- NextWordCharAt(s, open.next);
    var items :- MailboxItemsAt(s, open.next);
    var close :- ConsumeCharAt(s, items.next, ')');
    Success(Step(items.value, close.next))
  }

  function DecodeAt(tag: Tag, s: seq<Token>, p: nat): Result<Step<Request>, DecodeError> {
    var k1 :- ConsumeAtomAndVerifyAt(s, p, KeyVersion);
    var version :- AStringAt(s, k1.next);
    if version.value != ExpectedVersion then Failure(UnknownVersion(version.value, ExpectedVersion))
    else
      var k2 :- ConsumeAtomAndVerifyAt(s, version.next, KeyAccountId);
      var accountId :- AStringAt(s, k2.next);
      var k3 :- ConsumeAtomAndVerifyAt(s, accountId.next, KeyDeviceToken);
      var deviceToken :- AStringAt(s, k3.next);
      var k4 :- ConsumeAtomAndVerifyAt(s, deviceToken.next, KeySubtopic);
      var subtopic :- AStringAt(s, k4.next);
      var k5 :- ConsumeAtomAndVerifyAt(s, subtopic.next, KeyMailboxes);
      var mailboxes :- ConsumeMailboxesAt(s, k5.next);
      var eol :- EolAt(s, mailboxes.next);
      Success(Step(Request(tag, version.value, accountId.value, deviceToken.value, subtopic.value, mailboxes.value), eol.next))
  }

  // ---------------------------------------------------------------------------
  // The decoder on a reader

  method ConsumeAtomAndVerify(reader: RequestLineReader, expected: string) returns (r: Result<(), DecodeError>)
    modifies reader
    ensures r == Value(ConsumeAtomAndVerifyAt(reader.line, old(reader.pos), expected))
    ensures r.Success? ==> reader.pos == ConsumeAtomAndVerifyAt(reader.line, old(reader.pos), expected).value.next
    ensures reader.pos == After(AtomAt(reader.line, old(reader.pos)), old(reader.pos))
  {
    var actual :- reader.Atom();
    if actual != expected {
      return Failure(Mismatch(expected, actual));
    }
    r := Success(());
  }

  method ConsumeMailboxes(reader: RequestLineReader) returns (r: Result<seq<string>, DecodeError>)
    modifies reader
    ensures r == Value(ConsumeMailboxesAt(reader.line, old(reader.pos)))
    ensures r.Success? ==> reader.pos == ConsumeMailboxesAt(reader.line, old(reader.pos)).value.next
  {
    var mailboxes: seq<string> := [];
    var w :- reader.NextWordChar();
    var open :- reader.ConsumeChar('(');
    w :- reader.NextWordChar();
    ghost var start := reader.pos;
    // nextWordChar has just seen a token here, so nextChar cannot fail
    var peek := reader.NextChar();
    var next := peek.value;
    PrependNothing(MailboxItemsAt(reader.line, start));
    while next != Special(')')
      invariant start <= reader.pos < |reader.line|
      invariant next == reader.line[reader.pos]
      invariant MailboxItemsAt(reader.line, start) == Prepend(mailboxes, MailboxItemsAt(reader.line, reader.pos))
      decreases |reader.line| - reader.pos
    {
      ghost var here := reader.pos;
      var name :- reader.Mailbox();
      w :- reader.NextWordChar();
      PrependStep(mailboxes, name, MailboxItemsAt(reader.line, reader.pos));
      mailboxes := mailboxes + [name];
      peek := reader.NextChar();
      next := peek.value;
    }
    assert mailboxes + [] == mailboxes;
    // the loop stopped on ')', so consuming it cannot fail
    var close := reader.ConsumeChar(')');
    r := Success(mailboxes);
  }

  /** The items of `rest`, preceded by the names already read. */
  function Prepend(names: seq<string>, rest: Result<Step<seq<string>>, DecodeError>): Result<Step<seq<string>>, DecodeError> {
    match rest
    case Success(st) => Success(Step(names + st.value, st.next))
    case Failure(e) => Failure(e)
  }

  lemma PrependNothing(rest: Result<Step<seq<string>>, DecodeError>)
    ensures Prepend([], rest) == rest
  {
    if rest.Success? {
      assert [] + rest.value.value == rest.value.value;
    }
  }

  lemma PrependStep(names: seq<string>, name: string, rest: Result<Step<seq<string>>, DecodeError>)
    ensures Prepend(names, Prepend([name], rest)) == Prepend(names + [name], rest)
  {
    if rest.Success? {
      assert names + ([name] + rest.value.value) == (names + [name]) + rest.value.value;
    }
  }

  /** decode: the arguments of one XAPPLEPUSHSERVICE command, the tag and command name already read. */
  method Decode(reader: RequestLineReader, tag: Tag) returns (r: Result<Request, DecodeError>)
    modifies reader
    ensures r == Value(DecodeAt(tag, reader.line, old(reader.pos)))
    ensures r.Success? ==> reader.pos == DecodeAt(tag, reader.line, old(reader.pos)).value.next
  {
    var k :- ConsumeAtomAndVerify(reader, KeyVersion);
    var version :- reader.AString();
    if version != ExpectedVersion {
      return Failure(UnknownVersion(version, ExpectedVersion));
    }
    k :- ConsumeAtomAndVerify(reader, KeyAccountId);
    var accountId :- reader.AString();
    k :- ConsumeAtomAndVerify(reader, KeyDeviceToken);
    var deviceToken :- reader.AString();
    k :- ConsumeAtomAndVerify(reader, KeySubtopic);
    var subtopic :- reader.AString();
    k :- ConsumeAtomAndVerify(reader, KeyMailboxes);
    var mailboxes :- ConsumeMailboxes(reader);
    // the mailbox list is neither checked for emptiness nor validated here
    var eol :- reader.Eol();
    r := Success(Request(tag, version, accountId, deviceToken, subtopic, mailboxes));
  }
}
