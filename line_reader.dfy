/**
 * The request-line reader the command parser consumes, over an already lexed
 * line. The host server's lexer is not part of this model: a line is a sequence
 * of tokens, each one what a single reader primitive sees after skipping spaces.
 */
module LineReader {
  import opened Results

  /**
   * One lexical item of a request line: an atom, a quoted (or literal) string,
   * a single special character such as a parenthesis, or the end of the line.
   */
  datatype Token = Atom(text: string) | Quoted(text: string) | Special(c: char) | Eol
  {
    /** What an astring reads from this token, if it is one. */
    predicate IsAString() {
      Atom? || Quoted?
    }
  }

  /** Why decoding a command line stopped. */
  datatype DecodeError =
    | Mismatch(expected: string, actual: string)        // a literal key atom other than the expected one
    | UnknownVersion(version: string, expected: string) // an aps-version the parser does not support
    | MissingArgument                                   // end of line where an argument was due
    | InvalidCharacter                                  // a token that is not of the kind asked for
    | ExpectedChar(delimiter: char)                     // a delimiter other than the one asked for
    | ExpectedEol                                       // something other than the end of the line
    | EndOfInput                                        // read past the last token

  /** The value a primitive read and the cursor position after it. */
  datatype Step<+T> = Step(value: T, next: nat)

  function Value<T>(r: Result<Step<T>, DecodeError>): Result<T, DecodeError> {
    match r
    case Success(st) => Success(st.value)
    case Failure(e) => Failure(e)
  }

  /** Where the cursor is after a primitive: moved on success, left in place on failure. */
  function After<T>(r: Result<Step<T>, DecodeError>, p: nat): nat {
    if r.Success? then r.value.next else p
  }

  /** nextChar: the token under the cursor, without consuming it. */
  function NextCharAt(s: seq<Token>, p: nat): (r: Result<Token, DecodeError>)
    ensures r.Success? <==> p < |s|
    ensures r.Success? ==> r.value == s[p]
  {
    if p < |s| then Success(s[p]) else Failure(EndOfInput)
  }

  /** nextWordChar: like nextChar, but the end of the line means an argument is missing. */
  function NextWordCharAt(s: seq<Token>, p: nat): (r: Result<Token, DecodeError>)
    ensures r.Success? <==> p < |s| && s[p] != Eol
    ensures r.Success? ==> r.value == s[p]
    ensures p < |s| && s[p] == Eol ==> r == Failure(MissingArgument)
  {
    if p >= |s| then Failure(EndOfInput)
    else if s[p] == Eol then Failure(MissingArgument)
    else Success(s[p])
  }

  /** atom: reads one atom. */
  function AtomAt(s: seq<Token>, p: nat): (r: Result<Step<string>, DecodeError>)
    ensures r.Success? <==> p < |s| && s[p].Atom?
    ensures r.Success? ==> r.value == Step(s[p].text, p + 1)
  {
    var t :- NextWordCharAt(s, p);
    if t.Atom? then Success(Step(t.text, p + 1)) else Failure(InvalidCharacter)
  }

  /** astring: reads an atom or a quoted string and yields its text. */
  function AStringAt(s: seq<Token>, p: nat): (r: Result<Step<string>, DecodeError>)
    ensures r.Success? <==> p < |s| && s[p].IsAString()
    ensures r.Success? ==> r.value == Step(s[p].text, p + 1)
  {
    var t :- NextWordCharAt(s, p);
    if t.IsAString() then Success(Step(t.text, p + 1)) else Failure(InvalidCharacter)
  }

  /** consumeChar: consumes the token under the cursor and fails unless it is the expected character. */
  function ConsumeCharAt(s: seq<Token>, p: nat, expected: char): (r: Result<Step<()>, DecodeError>)
    ensures r.Success? <==> p < |s| && s[p] == Special(expected)
    ensures r.Success? ==> r.value.next == p + 1
  {
    if p >= |s| then Failure(EndOfInput)
    else if s[p] == Special(expected) then Success(Step((), p + 1))
    else Failure(ExpectedChar(expected))
  }

  /** eol: checks that the line ends here, without consuming the end of line. */
  function EolAt(s: seq<Token>, p: nat): (r: Result<Step<()>, DecodeError>)
    ensures r.Success? <==> p < |s| && s[p] == Eol
    ensures r.Success? ==> r.value.next == p
  {
    if p >= |s| then Failure(EndOfInput)
    else if s[p] == Eol then Success(Step((), p))
    else Failure(ExpectedEol)
  }

  /** A cursor over one request line; the primitives advance `pos` only when they succeed. */
  class RequestLineReader {
    const line: seq<Token>
    var pos: nat

    constructor (line: seq<Token>)
      ensures this.line == line && pos == 0
    {
      this.line := line;
      pos := 0;
    }

    method NextChar() returns (r: Result<Token, DecodeError>)
      ensures r == NextCharAt(line, pos)
    {
      if pos < |line| {
        r := Success(line[pos]);
      } else {
        r := Failure(EndOfInput);
      }
    }

    method NextWordChar() returns (r: Result<Token, DecodeError>)
      ensures r == NextWordCharAt(line, pos)
    {
      r := NextChar();
      if r.Success? && r.value == Token.Eol {
        r := Failure(MissingArgument);
      }
    }

    method ConsumeChar(expected: char) returns (r: Result<(), DecodeError>)
      modifies this
      ensures r == Value(ConsumeCharAt(line, old(pos), expected))
      ensures pos == After(ConsumeCharAt(line, old(pos), expected), old(pos))
    {
      var next := NextChar();
      if next.Failure? {
        return Failure(next.error);
      }
      if next.value != Special(expected) {
        return Failure(ExpectedChar(expected));
      }
      pos := pos + 1;
      r := Success(());
    }

    method Atom() returns (r: Result<string, DecodeError>)
      modifies this
      ensures r == Value(AtomAt(line, old(pos)))
      ensures pos == After(AtomAt(line, old(pos)), old(pos))
    {
      var next := NextWordChar();
      if next.Failure? {
        return Failure(next.error);
      }
      if !next.value.Atom? {
        return Failure(InvalidCharacter);
      }
      pos := pos + 1;
      r := Success(next.value.text);
    }

    method AString() returns (r: Result<string, DecodeError>)
      modifies this
      ensures r == Value(AStringAt(line, old(pos)))
      ensures pos == After(AStringAt(line, old(pos)), old(pos))
    {
      var next := NextWordChar();
      if next.Failure? {
        return Failure(next.error);
      }
      match next.value
      case Atom(text) =>
        pos := pos + 1;
        r := Success(text);
      case Quoted(text) =>
        pos := pos + 1;
        r := Success(text);
      case _ =>
        r := Failure(InvalidCharacter);
    }

    /** mailbox: a mailbox name is read as an astring. */
    method Mailbox() returns (r: Result<string, DecodeError>)
      modifies this
      ensures r == Value(AStringAt(line, old(pos)))
      ensures pos == After(AStringAt(line, old(pos)), old(pos))
    {
      r := AString();
    }

    method Eol() returns (r: Result<(), DecodeError>)
      ensures r == Value(EolAt(line, pos))
    {
      var next := NextChar();
      if next.Failure? {
        return Failure(next.error);
      }
      if next.value != Token.Eol {
        return Failure(ExpectedEol);
      }
      r := Success(());
    }
  }
}
