/**
  `indexSingleField` of the indexer: called right after a NAME token has been
  read, it dispatches on the name, consumes that field's value from the reader
  and appends (name, value) pairs to the Lucene document being built.
*/
module FieldExtraction {
  import opened Outcomes
  import opened JsonStream
  import opened TagSplit

  /** One Lucene field: the JSON field name and one string value. */
  datatype Field = Field(name: string, value: string)

  /** The Lucene document of one dataset, filled in place and only ever appended to. */
  class Document {
    var fields: seq<Field>

    constructor ()
      ensures fields == []
    {
      fields := [];
    }

    /** `document.add(field)`. */
    method Add(f: Field)
      modifies this
      ensures fields == old(fields) + [f]
    {
      fields := fields + [f];
    }
  }

  /** Fields whose value is one string, indexed as one value. */
  const SCALAR_FIELDS: set<string> := {"dataset_id", "title", "description", "author"}
  /** The field whose string value is split at ';', one value per piece. */
  const TAGS_FIELD: string := "tags"
  /** Fields whose value is an array of strings, one value per element. */
  const ARRAY_FIELDS: set<string> := {"classes", "entities", "literals", "properties"}

  /** The nine field names the indexer recognises. */
  predicate Recognised(name: string) {
    name in SCALAR_FIELDS || name == TAGS_FIELD || name in ARRAY_FIELDS
  }

  /** One field per value, all under `name`, in order. */
  function FieldsNamed(name: string, values: seq<string>): (r: seq<Field>)
    ensures |r| == |values|
    ensures forall i | 0 <= i < |r| :: r[i] == Field(name, values[i])
  {
    seq(|values|, i requires 0 <= i < |values| => Field(name, values[i]))
  }

  /**
    How an extraction ended: normally; with an IOException that the handler of
    `indexSingleField` caught (the cursor stays where the failing read left it);
    or in a peek loop that never advances, so the Java call never returns.
  */
  datatype ExtractStatus = Completed | Caught | Diverges

  /** Where the cursor ends, what was appended, and how the extraction ended. */
  datatype Extraction = Extraction(next: nat, added: seq<Field>, status: ExtractStatus)

  /**
    The element loop of an array field, entered just after BEGIN_ARRAY: STRING
    elements are appended one by one; END_ARRAY is consumed and ends the field;
    a token the lexer fails on throws out of `peek()`; any other token is never
    consumed, so the loop spins on it forever.
  */
  function ArrayElements(tokens: seq<Token>, pos: nat, name: string): (r: Extraction)
    requires pos <= |tokens|
    ensures pos <= r.next <= |tokens|
    ensures forall f | f in r.added :: f.name == name
    ensures r.status == Completed ==> r.next > pos && At(tokens, r.next - 1) == EndArray
    decreases |tokens| - pos
  {
    match At(tokens, pos)
    case EndArray => Extraction(pos + 1, [], Completed)
    case Malformed => Extraction(pos, [], Caught)
    case Str(s) =>
      var rest := ArrayElements(tokens, pos + 1, name);
      Extraction(rest.next, [Field(name, s)] + rest.added, rest.status)
    case _ => Extraction(pos, [], Diverges)
  }

  /** What `indexSingleField(reader, document, name)` does with the tokens from `pos` on. */
  function Extract(tokens: seq<Token>, pos: nat, name: string): (r: Extraction)
    requires pos <= |tokens|
    ensures pos <= r.next <= |tokens|
    ensures forall f | f in r.added :: f.name == name
    ensures r.added != [] ==> Recognised(name)
  {
    if name in SCALAR_FIELDS then
      match StringValue(At(tokens, pos))
      case Some(s) => Extraction(pos + 1, [Field(name, s)], Completed)
      case None => Extraction(pos, [], Caught)
    else if name == TAGS_FIELD then
      match StringValue(At(tokens, pos))
      case Some(s) => Extraction(pos + 1, FieldsNamed(TAGS_FIELD, JavaSplit(s)), Completed)
      case None => Extraction(pos, [], Caught)
    else if name in ARRAY_FIELDS then
      if At(tokens, pos) == BeginArray then ArrayElements(tokens, pos + 1, name)
      else Extraction(pos, [], Caught)
    else
      Extraction(pos, [], Completed)
  }

  /**
    `indexSingleField`: the state change is exactly `Extract`: the cursor moves
    to its `next`, and the document gains its pairs at the end and nothing else.
  */
  method IndexSingleField(reader: TokenReader, doc: Document, name: string) returns (status: ExtractStatus)
    requires reader.Valid()
    modifies reader`pos, doc
    ensures reader.Valid()
    ensures var e := Extract(reader.tokens, old(reader.pos), name);
      reader.pos == e.next && doc.fields == old(doc.fields) + e.added && status == e.status
  {
    if name in SCALAR_FIELDS {
      var value := reader.NextString();
      if value.None? {
        return Caught;
      }
      doc.Add(Field(name, value.value));
    } else if name == TAGS_FIELD {
      var value := reader.NextString();
      if value.None? {
        return Caught;
      }
      AddAll(doc, TAGS_FIELD, JavaSplit(value.value));
    } else if name in ARRAY_FIELDS {
      var began := reader.Consume(BeginArray);
      if !began {
        return Caught;
      }
      status := IndexStringElements(reader, doc, name);
      return;
    }
    status := Completed;
  }

  /** The `for (String tag : tagsArray)` loop: one field per value, in order. */
  method AddAll(doc: Document, name: string, values: seq<string>)
    modifies doc
    ensures doc.fields == old(doc.fields) + FieldsNamed(name, values)
  {
    for i := 0 to |values|
      invariant doc.fields == old(doc.fields) + FieldsNamed(name, values[..i])
    {
      assert values[..i + 1] == values[..i] + [values[i]];
      doc.Add(Field(name, values[i]));
    }
    assert values[..|values|] == values;
  }

  /** The `while (reader.peek() != END_ARRAY)` loop of an array field and the `endArray()` after it. */
  method IndexStringElements(reader: TokenReader, doc: Document, name: string) returns (status: ExtractStatus)
    requires reader.Valid()
    modifies reader`pos, doc
    ensures reader.Valid()
    ensures var e := ArrayElements(reader.tokens, old(reader.pos), name);
      reader.pos == e.next && doc.fields == old(doc.fields) + e.added && status == e.status
  {
    ghost var start := reader.pos;
    ghost var before := doc.fields;
    var token := reader.Peek();
    while token != EndArray
      invariant reader.Valid() && token == reader.Peek()
      invariant var rest := ArrayElements(reader.tokens, reader.pos, name);
        var whole := ArrayElements(reader.tokens, start, name);
        rest.next == whole.next && rest.status == whole.status && doc.fields + rest.added == before + whole.added
      decreases |reader.tokens| - reader.pos
    {
      if token == Malformed {
        // peek() throws; the handler of indexSingleField catches it
        return Caught;
      }
      if !token.Str? {
        // the loop body only acts on STRING: nothing changes and the loop spins forever
        return Diverges;
      }
      ghost var rest := ArrayElements(reader.tokens, reader.pos + 1, name);
      ghost var added := doc.fields + [Field(name, token.text)];
      assert ArrayElements(reader.tokens, reader.pos, name).added == [Field(name, token.text)] + rest.added;
      assert added + rest.added == doc.fields + ([Field(name, token.text)] + rest.added);
      var value := reader.NextString();
      doc.Add(Field(name, value.value));
      token := reader.Peek();
    }
    assert ArrayElements(reader.tokens, reader.pos, name) == Extraction(reader.pos + 1, [], Completed);
    var ended := reader.Consume(EndArray);
    status := Completed;
    assert doc.fields + [] == doc.fields;
  }

  // ---- Properties of the extraction ----------------------------------------

  /** A scalar field reads exactly one string (or number) token and appends exactly that one pair. */
  lemma ScalarFieldReadsOneValue(tokens: seq<Token>, pos: nat, name: string)
    requires pos <= |tokens| && name in SCALAR_FIELDS
    ensures var e := Extract(tokens, pos, name);
      match StringValue(At(tokens, pos))
      case Some(s) => e == Extraction(pos + 1, [Field(name, s)], Completed)
      case None => e == Extraction(pos, [], Caught)
  {
  }

  /** An unrecognised name consumes nothing and appends nothing. */
  lemma UnrecognisedFieldIgnored(tokens: seq<Token>, pos: nat, name: string)
    requires pos <= |tokens| && !Recognised(name)
    ensures Extract(tokens, pos, name) == Extraction(pos, [], Completed)
  {
  }

  /** `tags` reads one string and appends one ("tags", piece) pair per piece of `split(";")`, in order. */
  lemma TagsFieldSplits(tokens: seq<Token>, pos: nat, s: string)
    requires pos <= |tokens| && StringValue(At(tokens, pos)) == Some(s)
    ensures var e := Extract(tokens, pos, TAGS_FIELD);
      && e.next == pos + 1 && e.status == Completed
      && |e.added| == |JavaSplit(s)|
      && forall i | 0 <= i < |e.added| :: e.added[i] == Field(TAGS_FIELD, JavaSplit(s)[i])
  {
  }

  /** Tags value "a;;b" gives the three pairs a, "", b. */
  lemma TagsInteriorEmptyKept(tokens: seq<Token>, pos: nat)
    requires pos < |tokens| && tokens[pos] == Str("a;;b")
    ensures Extract(tokens, pos, TAGS_FIELD).added
      == [Field("tags", "a"), Field("tags", ""), Field("tags", "b")]
  {
    SplitKeepsInteriorEmpty();
  }

  /** Appending a string element at the front of the remaining elements. */
  lemma {:induction false} StringElements(tokens: seq<Token>, pos: nat, name: string, elems: seq<string>)
    requires pos + |elems| < |tokens|
    requires forall i | 0 <= i < |elems| :: tokens[pos + i] == Str(elems[i])
    requires tokens[pos + |elems|] == EndArray
    ensures ArrayElements(tokens, pos, name) == Extraction(pos + |elems| + 1, FieldsNamed(name, elems), Completed)
    decreases |elems|
  {
    if elems != [] {
      StringElements(tokens, pos + 1, name, elems[1..]);
      assert FieldsNamed(name, elems) == [Field(name, elems[0])] + FieldsNamed(name, elems[1..]);
    }
  }

  /**
    An array field whose elements are all strings appends one pair per element
    in order and leaves the cursor just past END_ARRAY; `[]` appends none.
  */
  lemma StringArrayField(tokens: seq<Token>, pos: nat, name: string, elems: seq<string>)
    requires name in ARRAY_FIELDS
    requires pos + |elems| + 1 < |tokens|
    requires tokens[pos] == BeginArray
    requires forall i | 0 <= i < |elems| :: tokens[pos + 1 + i] == Str(elems[i])
    requires tokens[pos + 1 + |elems|] == EndArray
    ensures Extract(tokens, pos, name) == Extraction(pos + |elems| + 2, FieldsNamed(name, elems), Completed)
  {
    StringElements(tokens, pos + 1, name, elems);
  }

  /**
    After `k` string elements, an element that is neither a string, END_ARRAY
    nor a lexer failure is never consumed: the extraction diverges there with
    the `k` pairs already appended.
  */
  lemma {:induction false} NonStringElementDiverges(tokens: seq<Token>, pos: nat, name: string, elems: seq<string>)
    requires pos + |elems| < |tokens|
    requires forall i | 0 <= i < |elems| :: tokens[pos + i] == Str(elems[i])
    requires !tokens[pos + |elems|].Str? && tokens[pos + |elems|] !in {EndArray, Malformed}
    ensures ArrayElements(tokens, pos, name) == Extraction(pos + |elems|, FieldsNamed(name, elems), Diverges)
    decreases |elems|
  {
    if elems != [] {
      NonStringElementDiverges(tokens, pos + 1, name, elems[1..]);
      assert FieldsNamed(name, elems) == [Field(name, elems[0])] + FieldsNamed(name, elems[1..]);
    }
  }
}
