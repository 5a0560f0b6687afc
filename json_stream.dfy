/**
  The streaming JSON reader the indexer drives (Gson's JsonReader), seen only
  through the token kinds it reports and the cursor it advances.
*/
module JsonStream {
  import opened Outcomes

  /**
    One token as `peek()` reports it. `Number` keeps its literal text because
    `nextString()` accepts a number and returns that text. `Malformed` marks the
    place where the lexer throws an IOException (bad syntax, premature end).
  */
  datatype Token =
    | BeginObject
    | EndObject
    | BeginArray
    | EndArray
    | Name(name: string)
    | Str(text: string)
    | Boolean
    | Number(literal: string)
    | Null
    | Malformed
    | EndDocument

  /**
    The token at `pos`, END_DOCUMENT past the end of the sequence. Gson reports
    END_DOCUMENT only at the top level; an input that ends early inside an
    object or array makes it throw EOFException, and a token sequence for such
    an input ends with `Malformed`.
  */
  function At(tokens: seq<Token>, pos: nat): Token {
    if pos < |tokens| then tokens[pos] else EndDocument
  }

  /** What `nextString()` yields at a token: the text of a string or of a number, otherwise a read error. */
  function StringValue(t: Token): Option<string> {
    match t
    case Str(s) => Some(s)
    case Number(lit) => Some(lit)
    case _ => None
  }

  /** A reader over a fixed token sequence with a cursor; every read either consumes one token or fails and consumes nothing. */
  class TokenReader {
    const tokens: seq<Token>
    var pos: nat
    var closed: bool

    ghost predicate Valid()
      reads this
    {
      pos <= |tokens|
    }

    constructor (tokens: seq<Token>)
      ensures Valid() && this.tokens == tokens && pos == 0 && !closed
    {
      this.tokens := tokens;
      pos := 0;
      closed := false;
    }

    /** `peek()`: the kind of the next token, without consuming it. */
    function Peek(): Token
      reads this
    {
      At(tokens, pos)
    }

    /** `nextName()`. */
    method NextName() returns (r: Option<string>)
      requires Valid()
      modifies this`pos
      ensures Valid()
      ensures old(Peek()).Name? ==> r == Some(old(Peek()).name) && pos == old(pos) + 1
      ensures !old(Peek()).Name? ==> r == None && pos == old(pos)
    {
      if Peek().Name? {
        r := Some(Peek().name);
        pos := pos + 1;
      } else {
        r := None;
      }
    }

    /** `nextString()`: accepts a string or a number token. */
    method NextString() returns (r: Option<string>)
      requires Valid()
      modifies this`pos
      ensures Valid()
      ensures r == StringValue(old(Peek()))
      ensures pos == if r.Some? then old(pos) + 1 else old(pos)
    {
      r := StringValue(Peek());
      if r.Some? {
        pos := pos + 1;
      }
    }

    /** Consumes the next token when it is `expected` (beginObject, endObject, beginArray, endArray, nextBoolean). */
    method Consume(expected: Token) returns (ok: bool)
      requires Valid()
      requires expected in {BeginObject, EndObject, BeginArray, EndArray, Boolean}
      modifies this`pos
      ensures Valid()
      ensures ok == (old(Peek()) == expected)
      ensures pos == if ok then old(pos) + 1 else old(pos)
    {
      ok := Peek() == expected;
      if ok {
        pos := pos + 1;
      }
    }

    /** `close()`: releases the underlying file reader. */
    method Close()
      modifies this`closed
      ensures closed
    {
      closed := true;
    }
  }
}
