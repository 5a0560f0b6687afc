/**
  The token walk `index()` runs over one `dataset.json`: it steps over
  structural tokens and STRING and BOOLEAN values (it spins on NUMBER and
  NULL) and hands every NAME, at any depth, to `indexSingleField`, until the
  reader reports END_DOCUMENT.
*/
module DescriptorWalk {
  import opened JsonStream
  import opened FieldExtraction

  /**
    How the walk over one file ended: END_DOCUMENT was reached and the reader
    closed; an IOException escaped a read and was caught around the walk (the
    reader is left open); or the loop stopped making progress and never ends.
  */
  datatype WalkStatus = Finished | Aborted | Hangs

  /** Where the cursor stopped, the pairs appended, and how the walk ended. */
  datatype WalkResult = WalkResult(stop: nat, added: seq<Field>, status: WalkStatus)

  /** Tokens the walk steps over without touching the document. */
  predicate Skipped(t: Token) {
    t in {BeginObject, EndObject, BeginArray, EndArray, Boolean} || t.Str?
  }

  /** The walk from cursor `pos` to its end. */
  function WalkFrom(tokens: seq<Token>, pos: nat): (r: WalkResult)
    requires pos <= |tokens|
    ensures pos <= r.stop <= |tokens|
    ensures forall f | f in r.added :: Recognised(f.name)
    decreases |tokens| - pos
  {
    match At(tokens, pos)
    case EndDocument => WalkResult(pos, [], Finished)
    case Malformed => WalkResult(pos, [], Aborted)
    case Number(_) => WalkResult(pos, [], Hangs)
    case Null => WalkResult(pos, [], Hangs)
    case Name(n) =>
      var e := Extract(tokens, pos + 1, n);
      if e.status == Diverges then WalkResult(e.next, e.added, Hangs)
      else
        var rest := WalkFrom(tokens, e.next);
        WalkResult(rest.stop, e.added + rest.added, rest.status)
    case _ => WalkFrom(tokens, pos + 1)
  }

  /**
    The loop of `index()` over one descriptor and the `reader.close()` after
    it: the cursor, the document and the status are those of `WalkFrom`, and
    the reader is closed exactly when the walk reached END_DOCUMENT.
  */
  method Walk(reader: TokenReader, doc: Document) returns (status: WalkStatus)
    requires reader.Valid() && !reader.closed
    modifies reader, doc
    ensures reader.Valid()
    ensures var w := WalkFrom(reader.tokens, old(reader.pos));
      reader.pos == w.stop && doc.fields == old(doc.fields) + w.added && status == w.status
    ensures reader.closed <==> status == Finished
  {
    ghost var start := reader.pos;
    ghost var before := doc.fields;
    var token := reader.Peek();
    while token != EndDocument
      invariant reader.Valid() && !reader.closed && token == reader.Peek()
      invariant var rest := WalkFrom(reader.tokens, reader.pos);
        var whole := WalkFrom(reader.tokens, start);
        rest.stop == whole.stop && rest.status == whole.status && doc.fields + rest.added == before + whole.added
      decreases |reader.tokens| - reader.pos
    {
      if token == Malformed {
        // peek() throws; the handler around the walk catches it and skips reader.close()
        return Aborted;
      } else if token.Number? || token == Null {
        // no branch of the loop body consumes a NUMBER or NULL, so the loop spins forever
        return Hangs;
      }
      var hung := Advance(reader, doc);
      if hung {
        return Hangs;
      }
      token := reader.Peek();
    }
    reader.Close();
    status := Finished;
  }

  /**
    One pass of the loop body on a NAME, a structural token, a BOOLEAN or a
    STRING: what is left of the walk after it, added to what it appended,
    is the walk from before it; a field whose extraction never ends makes
    the whole walk hang there.
  */
  method Advance(reader: TokenReader, doc: Document) returns (hung: bool)
    requires reader.Valid() && !reader.closed
    requires reader.Peek().Name? || Skipped(reader.Peek())
    modifies reader`pos, doc
    ensures reader.Valid() && !reader.closed
    ensures Stepped(reader.tokens, old(reader.pos), reader.pos, old(doc.fields), doc.fields, hung)
  {
    ghost var start := reader.pos;
    ghost var before := doc.fields;
    var token := reader.Peek();
    if token.Name? {
      var name := reader.NextName();
      ghost var e := Extract(reader.tokens, start + 1, name.value);
      NameStepped(reader.tokens, start, name.value, before);
      var extracted := IndexSingleField(reader, doc, name.value);
      hung := extracted == Diverges;
      assert reader.pos == e.next && doc.fields == before + e.added && hung == (e.status == Diverges);
    } else {
      SkipStepped(reader.tokens, reader.pos, doc.fields);
      if token.Str? {
        var ignored := reader.NextString();
      } else {
        var ok := reader.Consume(token);
      }
      hung := false;
    }
  }

  /**
    One pass of the loop body took the cursor from `start` to `pos` and the
    document from `before` to `after`: what is left of the walk, added to what
    was appended, is the walk from `start`; or the walk hangs right there.
  */
  ghost predicate Stepped(tokens: seq<Token>, start: nat, pos: nat, before: seq<Field>, after: seq<Field>, hung: bool)
    requires start <= |tokens| && pos <= |tokens|
  {
    var whole := WalkFrom(tokens, start);
    if hung then
      whole.status == Hangs && pos == whole.stop && after == before + whole.added
    else
      var rest := WalkFrom(tokens, pos);
      start < pos && rest.stop == whole.stop && rest.status == whole.status && after + rest.added == before + whole.added
  }

  /** The walk on a NAME: the field's extraction, then the rest of the walk unless the extraction diverges. */
  lemma NameStepped(tokens: seq<Token>, start: nat, n: string, before: seq<Field>)
    requires start < |tokens| && tokens[start] == Name(n)
    ensures var e := Extract(tokens, start + 1, n);
      Stepped(tokens, start, e.next, before, before + e.added, e.status == Diverges)
  {
    var e := Extract(tokens, start + 1, n);
    if e.status != Diverges {
      var rest := WalkFrom(tokens, e.next);
      assert before + e.added + rest.added == before + (e.added + rest.added);
    }
  }

  /** The walk on a skipped token is the walk from the next token. */
  lemma SkipStepped(tokens: seq<Token>, start: nat, before: seq<Field>)
    requires start < |tokens| && Skipped(tokens[start])
    ensures Stepped(tokens, start, start + 1, before, before, false)
  {
  }

  // ---- Properties of the walk -----------------------------------------------

  /** A NUMBER or NULL token at the cursor is never consumed: the walk stops there for good. */
  lemma NumberOrNullNeverConsumed(tokens: seq<Token>, pos: nat)
    requires pos < |tokens| && (tokens[pos].Number? || tokens[pos] == Null)
    ensures WalkFrom(tokens, pos) == WalkResult(pos, [], Hangs)
  {
  }

  /**
    A stretch of structural tokens, strings and booleans makes no difference to
    the walk: whatever follows is walked as if the stretch were absent. The
    walk keeps no depth, so a field nested in any number of objects or arrays
    is handled as at the top level.
  */
  lemma {:induction false} SkippedStretch(tokens: seq<Token>, pos: nat, q: nat)
    requires pos <= q <= |tokens|
    requires forall i | pos <= i < q :: Skipped(tokens[i])
    ensures WalkFrom(tokens, pos) == WalkFrom(tokens, q)
    decreases q - pos
  {
    if pos < q {
      SkippedStretch(tokens, pos + 1, q);
    }
  }

  /** A recognised name inside an unrecognised object is still extracted. */
  lemma NestedFieldExtracted()
    ensures WalkFrom([BeginObject, Name("meta"), BeginObject, Name("title"), Str("x"), EndObject, EndObject, EndDocument], 0)
      == WalkResult(7, [Field("title", "x")], Finished)
  {
    var tokens := [BeginObject, Name("meta"), BeginObject, Name("title"), Str("x"), EndObject, EndObject, EndDocument];
    assert !Recognised("meta");
    SkippedStretch(tokens, 5, 7);
    assert WalkFrom(tokens, 3) == WalkResult(7, [Field("title", "x")], Finished);
    SkippedStretch(tokens, 0, 1);
    SkippedStretch(tokens, 2, 3);
  }

  /**
    Where the walk stops tells how it ended: a finished walk stops on
    END_DOCUMENT and an aborted one on the token the lexer failed on.
  */
  lemma {:induction false} WalkStopsOnItsToken(tokens: seq<Token>, pos: nat)
    requires pos <= |tokens|
    ensures var w := WalkFrom(tokens, pos);
      && (w.status == Finished ==> At(tokens, w.stop) == EndDocument)
      && (w.status == Aborted ==> At(tokens, w.stop) == Malformed)
    decreases |tokens| - pos
  {
    match At(tokens, pos)
    case EndDocument =>
    case Malformed =>
    case Number(_) =>
    case Null =>
    case Name(n) =>
      var e := Extract(tokens, pos + 1, n);
      if e.status != Diverges {
        WalkStopsOnItsToken(tokens, e.next);
      }
    case _ =>
      WalkStopsOnItsToken(tokens, pos + 1);
  }

  /** Two token sequences that agree on their first `k` tokens. */
  predicate AgreeUpTo(tokens: seq<Token>, other: seq<Token>, k: nat) {
    k <= |tokens| && k <= |other| && forall i | 0 <= i < k :: tokens[i] == other[i]
  }

  /** The element loop reads no token past the one it stops on. */
  lemma {:induction false} ArrayElementsReadsUpToStop(tokens: seq<Token>, other: seq<Token>, pos: nat, name: string, k: nat)
    requires pos <= |tokens| && AgreeUpTo(tokens, other, k)
    requires ArrayElements(tokens, pos, name).next < k
    ensures ArrayElements(other, pos, name) == ArrayElements(tokens, pos, name)
    decreases |tokens| - pos
  {
    assert At(other, pos) == At(tokens, pos);
    if At(tokens, pos).Str? {
      ArrayElementsReadsUpToStop(tokens, other, pos + 1, name, k);
    }
  }

  /** The extraction of a field reads no token past the one it stops on. */
  lemma ExtractReadsUpToStop(tokens: seq<Token>, other: seq<Token>, pos: nat, name: string, k: nat)
    requires pos <= |tokens| && AgreeUpTo(tokens, other, k)
    requires Extract(tokens, pos, name).next < k
    ensures Extract(other, pos, name) == Extract(tokens, pos, name)
  {
    assert At(other, pos) == At(tokens, pos);
    if name in ARRAY_FIELDS && At(tokens, pos) == BeginArray {
      ArrayElementsReadsUpToStop(tokens, other, pos + 1, name, k);
    }
  }

  /** The walk reads no token past the one it stops on. */
  lemma {:induction false} WalkReadsUpToStop(tokens: seq<Token>, other: seq<Token>, pos: nat, k: nat)
    requires pos <= |tokens| && AgreeUpTo(tokens, other, k)
    requires WalkFrom(tokens, pos).stop < k
    ensures WalkFrom(other, pos) == WalkFrom(tokens, pos)
    decreases |tokens| - pos
  {
    assert At(other, pos) == At(tokens, pos);
    match At(tokens, pos)
    case EndDocument =>
    case Malformed =>
    case Number(_) =>
    case Null =>
    case Name(n) =>
      var e := Extract(tokens, pos + 1, n);
      ExtractReadsUpToStop(tokens, other, pos + 1, n, k);
      if e.status != Diverges {
        WalkReadsUpToStop(tokens, other, e.next, k);
      }
    case _ =>
      WalkReadsUpToStop(tokens, other, pos + 1, k);
  }

  /**
    A lexer failure ends the walk at once: an aborted walk stopped on the
    failing token, and whatever follows that token, the walk, its stop and
    the pairs it appended before the failure are the same.
  */
  lemma FailureEndsWalk(tokens: seq<Token>, pos: nat, rest: seq<Token>)
    requires pos <= |tokens| && WalkFrom(tokens, pos).status == Aborted
    ensures var w := WalkFrom(tokens, pos);
      && w.stop < |tokens| && tokens[w.stop] == Malformed
      && WalkFrom(tokens[..w.stop + 1] + rest, pos) == w
  {
    var w := WalkFrom(tokens, pos);
    WalkStopsOnItsToken(tokens, pos);
    WalkReadsUpToStop(tokens, tokens[..w.stop + 1] + rest, pos, w.stop + 1);
  }

  /** A scalar field read just before a lexer failure: the walk aborts there with that one pair kept. */
  lemma {:induction false} FailureKeepsEarlierPairs(tokens: seq<Token>, pos: nat, name: string, s: string)
    requires pos + 2 < |tokens| && name in SCALAR_FIELDS
    requires tokens[pos] == Name(name) && tokens[pos + 1] == Str(s) && tokens[pos + 2] == Malformed
    ensures WalkFrom(tokens, pos) == WalkResult(pos + 2, [Field(name, s)], Aborted)
  {
    ScalarFieldReadsOneValue(tokens, pos + 1, name);
  }
}
