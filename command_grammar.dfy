/**
 * The grammar the XAPPLEPUSHSERVICE decoder accepts, stated declaratively over
 * token positions, and the lemmas that tie CommandParser.DecodeAt to it.
 */
module CommandGrammar {
  import opened Results
  import opened Packages
  import opened LineReader
  import opened CommandParser

  /** `t` is an astring whose text is `v`. */
  predicate IsAStringOf(t: Token, v: string) {
    t.IsAString() && t.text == v
  }

  /** At `p`: the names `ms`, one astring each, then the closing parenthesis. */
  ghost predicate ListAt(s: seq<Token>, p: nat, ms: seq<string>) {
    && p + |ms| < |s|
    && (forall i :: 0 <= i < |ms| ==> IsAStringOf(s[p + i], ms[i]))
    && s[p + |ms|] == Special(')')
  }

  /** At `p`: the key/value pairs and the parenthesised mailbox list of `r`, in the fixed order. */
  ghost predicate ArgumentsAt(s: seq<Token>, p: nat, r: Request) {
    && p + 10 <= |s|
    && s[p] == Atom(KeyVersion) && IsAStringOf(s[p + 1], r.version)
    && s[p + 2] == Atom(KeyAccountId) && IsAStringOf(s[p + 3], r.accountId)
    && s[p + 4] == Atom(KeyDeviceToken) && IsAStringOf(s[p + 5], r.deviceToken)
    && s[p + 6] == Atom(KeySubtopic) && IsAStringOf(s[p + 7], r.subtopic)
    && s[p + 8] == Atom(KeyMailboxes) && s[p + 9] == Special('(')
    && ListAt(s, p + 10, r.mailboxes)
  }

  /** Where the end of line of a command for `r` starting at `p` must be. */
  function EolPosition(p: nat, r: Request): nat {
    p + 11 + |r.mailboxes|
  }

  /** At `p`: the whole argument list of `r`, then the end of the line. */
  ghost predicate CommandAt(s: seq<Token>, p: nat, r: Request) {
    && ArgumentsAt(s, p, r)
    && EolPosition(p, r) < |s|
    && s[EolPosition(p, r)] == Eol
  }

  /** The first `k` key/value pairs are in place, with the supported version. */
  ghost predicate FieldsBefore(s: seq<Token>, p: nat, k: nat)
    requires k <= 4
  {
    && p + 2 * k <= |s|
    && (forall j :: 0 <= j < k ==> s[p + 2 * j] == Atom(Keys[j]) && s[p + 2 * j + 1].IsAString())
    && (k > 0 ==> s[p + 1].IsAString() && s[p + 1].text == ExpectedVersion)
  }

  /** The mailbox loop reads exactly the names before the closing parenthesis, in order. */
  lemma {:induction false} MailboxItemsCharacterized(s: seq<Token>, p: nat, ms: seq<string>, next: nat)
    ensures MailboxItemsAt(s, p) == Success(Step(ms, next)) <==> ListAt(s, p, ms) && next == p + |ms|
    decreases |s| - p
  {
    if MailboxItemsAt(s, p) == Success(Step(ms, next)) {
      if s[p] != Special(')') {
        var more := MailboxItemsAt(s, p + 1).value;
        MailboxItemsCharacterized(s, p + 1, more.value, more.next);
        assert ms == [s[p].text] + more.value;
        forall i | 0 <= i < |ms| ensures IsAStringOf(s[p + i], ms[i]) {
          if i > 0 {
            assert ms[i] == more.value[i - 1];
            assert s[p + i] == s[(p + 1) + (i - 1)];
          }
        }
      }
    }
    if ListAt(s, p, ms) && next == p + |ms| {
      if |ms| > 0 {
        forall i | 0 <= i < |ms| - 1 ensures IsAStringOf(s[(p + 1) + i], ms[1..][i]) {
          assert IsAStringOf(s[p + (i + 1)], ms[i + 1]);
        }
        MailboxItemsCharacterized(s, p + 1, ms[1..], next);
        if |ms| > 1 {
          assert IsAStringOf(s[p + 1], ms[1]);
        }
        assert ms == [ms[0]] + ms[1..];
      }
    }
  }

  /**
   * Decoding succeeds exactly on the lines of the grammar: the five key atoms in
   * order, version "2", the mailbox list in parentheses and then the end of line.
   * The request carries the tag and every parsed value verbatim, and the cursor
   * stops at the end of line.
   */
  lemma {:induction false} DecodeCharacterized(tag: Tag, s: seq<Token>, p: nat, r: Request, next: nat)
    ensures DecodeAt(tag, s, p) == Success(Step(r, next))
        <==> r.tag == tag && r.version == ExpectedVersion && CommandAt(s, p, r) && next == EolPosition(p, r)
  {
    if DecodeAt(tag, s, p) == Success(Step(r, next)) {
      var items := MailboxItemsAt(s, p + 10).value;
      MailboxItemsCharacterized(s, p + 10, items.value, items.next);
    }
    if r.tag == tag && r.version == ExpectedVersion && CommandAt(s, p, r) && next == EolPosition(p, r) {
      MailboxItemsCharacterized(s, p + 10, r.mailboxes, p + 10 + |r.mailboxes|);
      if |r.mailboxes| > 0 {
        assert IsAStringOf(s[p + 10 + 0], r.mailboxes[0]);
      }
    }
  }

  /** Every mailbox name as a quoted string. */
  function QuotedNames(ms: seq<string>): (ts: seq<Token>)
    ensures |ts| == |ms|
    ensures forall i :: 0 <= i < |ms| ==> ts[i] == Quoted(ms[i])
  {
    seq(|ms|, i requires 0 <= i < |ms| => Quoted(ms[i]))
  }

  /** A command line for `r`: atoms for the keys, quoted strings for the values. */
  function RenderCommand(r: Request): seq<Token> {
    [ Atom(KeyVersion), Quoted(r.version),
      Atom(KeyAccountId), Quoted(r.accountId),
      Atom(KeyDeviceToken), Quoted(r.deviceToken),
      Atom(KeySubtopic), Quoted(r.subtopic),
      Atom(KeyMailboxes), Special('(') ]
    + QuotedNames(r.mailboxes) + [Special(')'), Eol]
  }

  /**
   * Decoding a rendered request gives the request back, for every version-2
   * request: no mailbox list (the empty one included) and no name is rejected.
   */
  lemma DecodeRenderRoundTrip(r: Request)
    requires r.version == ExpectedVersion
    ensures DecodeAt(r.tag, RenderCommand(r), 0) == Success(Step(r, EolPosition(0, r)))
  {
    var s := RenderCommand(r);
    assert forall i :: 0 <= i < |r.mailboxes| ==> s[10 + i] == QuotedNames(r.mailboxes)[i];
    assert s[10 + |r.mailboxes|] == Special(')');
    assert CommandAt(s, 0, r);
    DecodeCharacterized(r.tag, s, 0, r, EolPosition(0, r));
  }

  /** An empty list `()` is a successful decode with no mailboxes; nothing is substituted here. */
  lemma EmptyMailboxListDecodes(tag: Tag, s: seq<Token>, p: nat)
    requires p + 12 <= |s| && FieldsBefore(s, p, 4)
    requires s[p + 8] == Atom(KeyMailboxes) && s[p + 9] == Special('(')
    requires s[p + 10] == Special(')') && s[p + 11] == Eol
    ensures DecodeAt(tag, s, p).Success?
    ensures DecodeAt(tag, s, p).value.value.mailboxes == []
  {
    assert s[p + 2 * 0] == Atom(Keys[0]) && s[p + 2 * 0 + 1].IsAString();
    assert s[p + 2 * 1] == Atom(Keys[1]) && s[p + 2 * 1 + 1].IsAString();
    assert s[p + 2 * 2] == Atom(Keys[2]) && s[p + 2 * 2 + 1].IsAString();
    assert s[p + 2 * 3] == Atom(Keys[3]) && s[p + 2 * 3 + 1].IsAString();
    var r := Request(tag, s[p + 1].text, s[p + 3].text, s[p + 5].text, s[p + 7].text, []);
    assert CommandAt(s, p, r);
    DecodeCharacterized(tag, s, p, r, EolPosition(p, r));
  }

  /**
   * The first key atom that differs from the expected literal ends decoding with
   * "Expected <key>, got <actual>." and no request.
   */
  lemma KeyMismatchRejected(tag: Tag, s: seq<Token>, p: nat, k: nat, actual: string)
    requires k <= 4 && FieldsBefore(s, p, k)
    requires p + 2 * k < |s| && s[p + 2 * k] == Atom(actual) && actual != Keys[k]
    ensures DecodeAt(tag, s, p) == Failure(Mismatch(Keys[k], actual))
    ensures Message(DecodeAt(tag, s, p).error) == Some("Expected " + Keys[k] + ", got " + actual + ".")
  {
    if k > 0 { assert s[p + 2 * 0] == Atom(Keys[0]) && s[p + 2 * 0 + 1].IsAString(); }
    if k > 1 { assert s[p + 2 * 1] == Atom(Keys[1]) && s[p + 2 * 1 + 1].IsAString(); }
    if k > 2 { assert s[p + 2 * 2] == Atom(Keys[2]) && s[p + 2 * 2 + 1].IsAString(); }
    if k > 3 { assert s[p + 2 * 3] == Atom(Keys[3]) && s[p + 2 * 3 + 1].IsAString(); }
  }

  /**
   * A version other than "2" ends decoding right after it is read: the result
   * depends on the first two tokens only, so no later field is looked at.
   */
  lemma UnknownVersionRejected(tag: Tag, s: seq<Token>, p: nat)
    requires p + 1 < |s| && s[p] == Atom(KeyVersion) && s[p + 1].IsAString()
    requires s[p + 1].text != ExpectedVersion
    ensures DecodeAt(tag, s, p) == Failure(UnknownVersion(s[p + 1].text, ExpectedVersion))
    ensures Message(DecodeAt(tag, s, p).error) == Some("Unknown aps-version " + s[p + 1].text + ", expected 2.")
  {
    var v := s[p + 1].text;
    assert "Unknown aps-version " + v + ", expected " + ExpectedVersion + "." == "Unknown aps-version " + v + ", expected 2.";
  }

  /** Without the opening parenthesis after `mailboxes` decoding fails. */
  lemma MissingOpenParenthesisRejected(tag: Tag, s: seq<Token>, p: nat)
    requires FieldsBefore(s, p, 4) && p + 9 < |s| && s[p + 8] == Atom(KeyMailboxes)
    requires s[p + 9] != Special('(')
    ensures DecodeAt(tag, s, p).Failure?
    ensures s[p + 9] != Eol ==> DecodeAt(tag, s, p) == Failure(ExpectedChar('('))
  {
    assert s[p + 2 * 0] == Atom(Keys[0]) && s[p + 2 * 0 + 1].IsAString();
    assert s[p + 2 * 1] == Atom(Keys[1]) && s[p + 2 * 1 + 1].IsAString();
    assert s[p + 2 * 2] == Atom(Keys[2]) && s[p + 2 * 2 + 1].IsAString();
    assert s[p + 2 * 3] == Atom(Keys[3]) && s[p + 2 * 3 + 1].IsAString();
  }

  /** After the closing parenthesis only the end of line may follow. */
  lemma TrailingTokenRejected(tag: Tag, s: seq<Token>, p: nat, r: Request)
    requires r.version == ExpectedVersion && ArgumentsAt(s, p, r)
    requires EolPosition(p, r) < |s| && s[EolPosition(p, r)] != Eol
    ensures DecodeAt(tag, s, p) == Failure(ExpectedEol)
  {
    MailboxItemsCharacterized(s, p + 10, r.mailboxes, p + 10 + |r.mailboxes|);
    if |r.mailboxes| > 0 {
      assert IsAStringOf(s[p + 10 + 0], r.mailboxes[0]);
    }
  }
}
