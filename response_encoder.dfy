/**
 * Encoder of the untagged XAPPLEPUSHSERVICE response. The composer is the host's
 * reply writer; the model keeps the sequence of composer calls, not the bytes
 * (quoting and line endings are the composer's business).
 */
module ResponseEncoder {
  import opened Results
  import opened Packages

  /** One call on the reply composer. */
  datatype ComposerToken =
    | Untagged                 // "* "
    | CommandName(name: string)
    | Message(text: string)    // a bare word
    | Quote(text: string)      // a quoted string
    | End                      // the line terminator

  class ResponseComposer {
    var tokens: seq<ComposerToken>

    constructor ()
      ensures tokens == []
    {
      tokens := [];
    }

    method Untagged()
      modifies this
      ensures tokens == old(tokens) + [ComposerToken.Untagged]
    {
      tokens := tokens + [ComposerToken.Untagged];
    }

    method CommandName(command: ImapCommand)
      modifies this
      ensures tokens == old(tokens) + [ComposerToken.CommandName(command.name)]
    {
      tokens := tokens + [ComposerToken.CommandName(command.name)];
    }

    method Message(text: string)
      modifies this
      ensures tokens == old(tokens) + [ComposerToken.Message(text)]
    {
      tokens := tokens + [ComposerToken.Message(text)];
    }

    method Quote(text: string)
      modifies this
      ensures tokens == old(tokens) + [ComposerToken.Quote(text)]
    {
      tokens := tokens + [ComposerToken.Quote(text)];
    }

    method End()
      modifies this
      ensures tokens == old(tokens) + [ComposerToken.End]
    {
      tokens := tokens + [ComposerToken.End];
    }
  }

  /** acceptableMessages: the encoder handles XAPPLEPUSHSERVICE responses and no other reply. */
  predicate AcceptableMessage(reply: Reply): (accepted: bool)
    ensures accepted <==> !reply.IsTerminal()
  {
    reply.ServiceResponse?
  }

  /** The composer calls for one response. */
  function Encoding(response: Response): seq<ComposerToken> {
    [ ComposerToken.Untagged,
      ComposerToken.CommandName(ApplePushServiceCommand.name),
      ComposerToken.Message("aps-version"), ComposerToken.Quote(response.version),
      ComposerToken.Message("aps-topic"), ComposerToken.Quote(response.topic),
      ComposerToken.End ]
  }

  /** encode */
  method Encode(message: Response, composer: ResponseComposer)
    modifies composer
    ensures composer.tokens == old(composer.tokens) + Encoding(message)
  {
    composer.Untagged();
    composer.CommandName(ApplePushServiceCommand);
    composer.Message("aps-version");
    composer.Quote(message.version);
    composer.Message("aps-topic");
    composer.Quote(message.topic);
    composer.End();
  }

  /** How a client reads one XAPPLEPUSHSERVICE reply line back into a response. */
  function ReadResponse(ts: seq<ComposerToken>): Option<Response> {
    if && |ts| == 7
       && ts[0] == ComposerToken.Untagged
       && ts[1] == ComposerToken.CommandName("XAPPLEPUSHSERVICE")
       && ts[2] == ComposerToken.Message("aps-version") && ts[3].Quote?
       && ts[4] == ComposerToken.Message("aps-topic") && ts[5].Quote?
       && ts[6] == ComposerToken.End
    then Some(Response(ts[3].text, ts[5].text))
    else None
  }

  /** Reading an encoded response gives back its version and topic. */
  lemma EncodingRoundTrip(response: Response)
    ensures ReadResponse(Encoding(response)) == Some(response)
  {
  }

  /** Two responses are encoded alike exactly when they are equal. */
  lemma {:induction false} EncodingInjective(a: Response, b: Response)
    ensures Encoding(a) == Encoding(b) <==> a == b
  {
    if Encoding(a) == Encoding(b) {
      EncodingRoundTrip(a);
      EncodingRoundTrip(b);
    }
  }

  /** At `i`: the bare word `key` followed by the quoted `value`. */
  predicate PairAt(e: seq<ComposerToken>, i: nat, key: string, value: string) {
    i + 1 < |e| && e[i] == ComposerToken.Message(key) && e[i + 1] == ComposerToken.Quote(value)
  }

  /**
   * The reply is untagged, names the command, gives the quoted version under
   * aps-version before the quoted topic under aps-topic, and ends with a single
   * terminator.
   */
  lemma EncodingLayout(response: Response)
    ensures var e := Encoding(response);
      && e[0] == ComposerToken.Untagged
      && e[1] == ComposerToken.CommandName("XAPPLEPUSHSERVICE")
      && (exists i: nat, j: nat :: 1 < i < j && j + 1 < |e| - 1
            && PairAt(e, i, "aps-version", response.version) && PairAt(e, j, "aps-topic", response.topic))
      && e[|e| - 1] == ComposerToken.End
      && (forall k :: 0 <= k < |e| - 1 ==> e[k] != ComposerToken.End)
  {
    var e := Encoding(response);
    assert PairAt(e, 2, "aps-version", response.version) && PairAt(e, 4, "aps-topic", response.topic);
  }
}
