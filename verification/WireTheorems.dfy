/** The shape of a request, said without positions, and that the parser accepts exactly that. */
module WireTheorems {
  import opened Options
  import opened Bytes
  import opened Documents
  import opened Wire

  // ---- the shape

  /** All of `bytes` is one document, which says so itself. */
  predicate IsDocument(c: Codec, bytes: seq<Byte>, document: Document) {
    |bytes| >= 5 && I32At(bytes, 0) == |bytes| && c.decode(bytes) == Some(document)
  }

  predicate AreDocuments(c: Codec, bytes: seq<Byte>, documents: seq<Document>)
    decreases |documents|
  {
    if documents == [] then bytes == []
    else
      exists n | 0 < n <= |bytes| ::
        IsDocument(c, bytes[..n], documents[0]) && AreDocuments(c, bytes[n..], documents[1..])
  }

  /** The identifier of a sequence runs to the first zero, at `n`; its documents fill the rest. */
  predicate SequenceEnds(c: Codec, bytes: seq<Byte>, n: int, identifier: string, documents: seq<Document>) {
    && 5 <= n < |bytes| && bytes[n] == 0 && 0 !in bytes[5..n]
    && c.utf8(bytes[5..n]) == Some(identifier)
    && AreDocuments(c, bytes[n + 1..], documents)
  }

  predicate IsSection(c: Codec, bytes: seq<Byte>, section: Section) {
    match section
    case Body(document) => bytes != [] && bytes[0] == 0 && IsDocument(c, bytes[1..], document)
    case Sequence(identifier, documents) =>
      && |bytes| >= 6 && bytes[0] == 1 && I32At(bytes, 1) == |bytes| - 1 && identifier != []
      && exists n | 5 <= n < |bytes| :: SequenceEnds(c, bytes, n, identifier, documents)
  }

  /** The sections lie end to end and fill `bytes`. */
  predicate AreSections(c: Codec, bytes: seq<Byte>, sections: seq<Section>)
    decreases |sections|
  {
    if sections == [] then bytes == []
    else
      exists n | 0 < n <= |bytes| ::
        IsSection(c, bytes[..n], sections[0]) && AreSections(c, bytes[n..], sections[1..])
  }

  function Bodies(sections: seq<Section>): nat {
    if sections == [] then 0 else (if sections[0].Body? then 1 else 0) + Bodies(sections[1..])
  }

  // ---- the parser reads exactly the shape

  lemma {:induction false} DocumentExact(c: Codec, message: seq<Byte>, position: nat, end: nat, d: Document, n: nat)
    requires end <= |message|
    ensures DocumentAt(c, message, position, end) == Ok((d, n))
            <==> position <= n <= end && IsDocument(c, message[position..n], d)
  {
    if position + 4 <= n <= end {
      I32Within(message, position, position, n);
    }
  }

  lemma {:induction false} DocumentsExact(c: Codec, message: seq<Byte>, position: nat, end: nat, docs: seq<Document>)
    requires position <= end <= |message|
    ensures DocumentsAt(c, message, position, end) == Ok(docs) <==> AreDocuments(c, message[position..end], docs)
    decreases |docs|
  {
    hide DocumentAt, IsDocument;
    var bytes := message[position..end];
    if docs != [] {
      if DocumentsAt(c, message, position, end) == Ok(docs) {
        DocumentsThen(c, message, position, end, docs);
      }
      if AreDocuments(c, bytes, docs) {
        var n :| 0 < n <= |bytes| && IsDocument(c, bytes[..n], docs[0]) && AreDocuments(c, bytes[n..], docs[1..]);
        assert bytes[..n] == message[position..position + n] && bytes[n..] == message[position + n..end];
        DocumentExact(c, message, position, end, docs[0], position + n);
        DocumentsExact(c, message, position + n, end, docs[1..]);
        assert docs == [docs[0]] + docs[1..];
      }
    }
  }

  lemma {:induction false} DocumentsThen(c: Codec, message: seq<Byte>, position: nat, end: nat, docs: seq<Document>)
    requires position <= end <= |message| && docs != [] && DocumentsAt(c, message, position, end) == Ok(docs)
    ensures AreDocuments(c, message[position..end], docs)
    decreases |docs|, 0
  {
    hide DocumentAt, IsDocument;
    var bytes := message[position..end];
    var next := DocumentAt(c, message, position, end).value.1;
    var n := next - position;
    assert bytes[..n] == message[position..next] && bytes[n..] == message[next..end];
    DocumentExact(c, message, position, end, docs[0], next);
    DocumentsExact(c, message, next, end, docs[1..]);
  }

  lemma {:induction false} ZeroExact(message: seq<Byte>, from: nat, end: nat, nul: nat)
    requires from <= end <= |message|
    ensures ZeroIn(message, from, end) == Some(nul)
            <==> from <= nul < end && message[nul] == 0 && 0 !in message[from..nul]
  {
  }

  lemma {:induction false} SequenceExact(c: Codec, message: seq<Byte>, start: nat, section: Section, n: nat)
    requires 1 <= start <= |message| && message[start - 1] == 1 && section.Sequence?
    ensures SequenceAt(c, message, start) == Ok((section, n))
            <==> start <= n <= |message| && IsSection(c, message[start - 1..n], section)
  {
    if SequenceAt(c, message, start) == Ok((section, n)) {
      SequenceThen(c, message, start, section, n);
    }
    if start <= n <= |message| && IsSection(c, message[start - 1..n], section) {
      SequenceIf(c, message, start, section, n);
    }
  }

  /** The parts of a sequence, seen from the message and from the section. */
  lemma {:induction false} SequenceParts(message: seq<Byte>, start: nat, nul: nat, n: nat)
    requires 1 <= start && start + 5 <= n <= |message| && start + 4 <= nul < n
    ensures var bytes := message[start - 1..n];
            && I32At(bytes, 1) == I32At(message, start)
            && bytes[nul - start + 1] == message[nul]
            && bytes[5..nul - start + 1] == message[start + 4..nul]
            && bytes[nul - start + 2..] == message[nul + 1..n]
  {
    var bytes := message[start - 1..n];
    I32Within(message, start, start - 1, n);
    Slices(message, start - 1, n, 5, nul - start + 1);
    Slices(message, start - 1, n, nul - start + 2, n - start + 1);
    hide I32At;
    assert bytes[nul - start + 2..] == bytes[nul - start + 2..n - start + 1];
  }

  /** A slice of a slice is a slice. */
  lemma {:induction false} Slices(message: seq<Byte>, from: nat, end: nat, i: nat, j: nat)
    requires from <= end <= |message| && i <= j <= end - from
    ensures message[from..end][i..j] == message[from + i..from + j]
  {
    var part := message[from..end];
    forall k | 0 <= k < j - i
      ensures part[i..j][k] == message[from + i..from + j][k]
    {
      assert part[i..j][k] == part[i + k] == message[from + i + k];
    }
  }

  lemma {:induction false} SequenceThen(c: Codec, message: seq<Byte>, start: nat, section: Section, n: nat)
    requires 1 <= start <= |message| && message[start - 1] == 1
    requires SequenceAt(c, message, start) == Ok((section, n))
    ensures n <= |message| && IsSection(c, message[start - 1..n], section)
  {
    hide DocumentsAt, AreDocuments, ZeroIn;
    var bytes := message[start - 1..n];
    var nul := ZeroIn(message, start + 4, n).value;
    ZeroExact(message, start + 4, n, nul);
    SequenceParts(message, start, nul, n);
    DocumentsExact(c, message, nul + 1, n, section.documents);
    assert SequenceEnds(c, bytes, nul - start + 1, section.identifier, section.documents);
  }

  lemma {:induction false} SequenceIf(c: Codec, message: seq<Byte>, start: nat, section: Section, n: nat)
    requires 1 <= start <= n <= |message| && section.Sequence? && IsSection(c, message[start - 1..n], section)
    ensures SequenceAt(c, message, start) == Ok((section, n))
  {
    hide DocumentsAt, AreDocuments, ZeroIn;
    var bytes := message[start - 1..n];
    var k :| 5 <= k < |bytes| && SequenceEnds(c, bytes, k, section.identifier, section.documents);
    var nul := k + start - 1;
    SequenceParts(message, start, nul, n);
    ZeroExact(message, start + 4, n, nul);
    DocumentsExact(c, message, nul + 1, n, section.documents);
  }

  /** One section at a position, whichever kind it is. */
  function SectionAt(c: Codec, message: seq<Byte>, position: nat): Result<(Section, nat)>
    requires position < |message|
  {
    if message[position] == 1 then SequenceAt(c, message, position + 1)
    else if message[position] == 0 then
      match DocumentAt(c, message, position + 1, |message|)
      case Err(error) => Err(error)
      case Ok((document, next)) => Ok((Body(document), next))
    else Err(UnknownSection(message[position]))
  }

  lemma {:induction false} SectionExact(c: Codec, message: seq<Byte>, position: nat, section: Section, n: nat)
    requires position < |message|
    ensures SectionAt(c, message, position) == Ok((section, n))
            <==> position < n <= |message| && IsSection(c, message[position..n], section)
    ensures SectionAt(c, message, position) == Ok((section, n)) ==> (section.Body? <==> message[position] == 0)
  {
    hide DocumentAt, SequenceAt, IsDocument, AreDocuments, SequenceEnds;
    if section.Sequence? && message[position] == 1 {
      SequenceExact(c, message, position + 1, section, n);
    }
    if section.Body? {
      DocumentExact(c, message, position + 1, |message|, section.document, n);
      if position < n <= |message| {
        assert message[position..n][1..] == message[position + 1..n];
      }
    }
    SequencesOnly(c, message, position);
    if position < n <= |message| {
      assert message[position..n][0] == message[position];
    }
  }

  lemma {:induction false} SequencesOnly(c: Codec, message: seq<Byte>, position: nat)
    ensures SequenceAt(c, message, position + 1).Ok? ==> SequenceAt(c, message, position + 1).value.0.Sequence?
  {
  }

  lemma {:induction false} SectionsUnfold(
      c: Codec, message: seq<Byte>, position: nat, seen: bool, sections: seq<Section>)
    requires position < |message|
    ensures SectionsAt(c, message, position, seen) == Ok(sections) <==>
            && sections != []
            && SectionAt(c, message, position).Ok?
            && SectionAt(c, message, position).value.0 == sections[0]
            && !(seen && message[position] == 0)
            && SectionsAt(c, message, SectionAt(c, message, position).value.1, seen || message[position] == 0)
               == Ok(sections[1..])
  {
    hide DocumentAt, SequenceAt;
    if sections != [] {
      assert sections == [sections[0]] + sections[1..];
    }
  }

  lemma {:induction false} SectionsThen(c: Codec, message: seq<Byte>, position: nat, seen: bool, sections: seq<Section>)
    requires position <= |message| && SectionsAt(c, message, position, seen) == Ok(sections)
    ensures AreSections(c, message[position..], sections) && Bodies(sections) <= if seen then 0 else 1
    decreases |sections|
  {
    if position < |message| {
      SectionsUnfold(c, message, position, seen, sections);
      hide SectionsAt, SectionAt, IsSection;
      var (section, next) := SectionAt(c, message, position).value;
      SectionExact(c, message, position, section, next);
      SectionsThen(c, message, next, seen || section.Body?, sections[1..]);
      var bytes := message[position..];
      assert bytes[..next - position] == message[position..next] && bytes[next - position..] == message[next..];
    }
  }

  lemma {:induction false} SectionsIf(c: Codec, message: seq<Byte>, position: nat, seen: bool, sections: seq<Section>)
    requires position <= |message| && AreSections(c, message[position..], sections)
    requires Bodies(sections) <= if seen then 0 else 1
    ensures SectionsAt(c, message, position, seen) == Ok(sections)
    decreases |sections|
  {
    hide SectionsAt, SectionAt, IsSection;
    if sections == [] {
      NoMoreSections(c, message, position, seen);
    } else {
      var bytes := message[position..];
      var n :| 0 < n <= |bytes| && IsSection(c, bytes[..n], sections[0]) && AreSections(c, bytes[n..], sections[1..]);
      var next := position + n;
      assert bytes[..n] == message[position..next] && bytes[n..] == message[next..];
      SectionExact(c, message, position, sections[0], next);
      SectionsIf(c, message, next, seen || sections[0].Body?, sections[1..]);
      SectionsUnfold(c, message, position, seen, sections);
    }
  }

  /** The parts of an OP_MSG after its header: the flags; sections to the end, exactly one of them a
      body; under `$db` of the command they make, text that is not empty; and beside it at least one
      field, the first of which names the command. */
  predicate IsMessage(c: Codec, message: seq<Byte>, sections: seq<Section>, body: Document, request: Request)
    requires |message| >= 21
  {
    var command := Overlaid(body, sections);
    && (U32At(message, 16) == 0 || U32At(message, 16) == 2)
    && AreSections(c, message[20..], sections) && Bodies(sections) == 1 && Body(body) in sections
    && command.Get("$db") == Some(Text(request.database)) && request.database != []
    && command.Remove("$db").fields != [] && c.encode(command.Remove("$db")) == Some(request.command)
    && request == Request(I32At(message, 4), U32At(message, 16) == 2, false, request.database,
                          command.Remove("$db").fields[0].key, request.command)
  }

  /** A message is accepted as an OP_MSG exactly when its header is right, no flag but the one known is
      set, its bytes from the twentieth on are sections end to end with one body among them, and the
      command they make names a database and itself; and the answer is then just that. */
  lemma {:induction false} AcceptsMessages(c: Codec, message: seq<Byte>, request: Request)
    ensures Parsed(c, message) == Ok(request) && !request.legacy <==>
            && |message| >= 21 && I32At(message, 0) == |message| && I32At(message, 12) == OP_MSG
            && exists sections, body :: IsMessage(c, message, sections, body, request)
  {
    hide MsgOf, QueryOf, I32At, U32At, IsMessage;
    if |message| >= 21 && I32At(message, 0) == |message| {
      QueryLegacy(c, message, I32At(message, 4));
      if MsgOf(c, message, I32At(message, 4)) == Ok(request) {
        MsgNotLegacy(c, message, I32At(message, 4));
        MsgThen(c, message, request);
      }
      forall sections, body | IsMessage(c, message, sections, body, request)
        ensures MsgOf(c, message, I32At(message, 4)) == Ok(request) && !request.legacy
      {
        MsgIf(c, message, sections, body, request);
        MsgNotLegacy(c, message, I32At(message, 4));
      }
    }
  }

  /** The one body among sections, wherever it is. */
  lemma {:induction false} OneBody(sections: seq<Section>)
    ensures BodyOf(sections).Some? <==> Bodies(sections) > 0
    ensures BodyOf(sections).Some? ==> Body(BodyOf(sections).value) in sections
    ensures Bodies(sections) <= 1 ==> forall body :: Body(body) in sections ==> BodyOf(sections) == Some(body)
    decreases |sections|
  {
    if sections != [] {
      OneBody(sections[1..]);
      assert sections == [sections[0]] + sections[1..];
    }
  }

  lemma {:induction false} QueryLegacy(c: Codec, message: seq<Byte>, requestId: I32)
    requires |message| >= 21
    ensures QueryOf(c, message, requestId).Ok? ==> QueryOf(c, message, requestId).value.legacy
  {
    hide ZeroIn, DocumentAt, Dot;
  }

  lemma {:induction false} MsgThen(c: Codec, message: seq<Byte>, request: Request)
    requires |message| >= 21 && MsgOf(c, message, I32At(message, 4)) == Ok(request)
    ensures exists sections, body :: IsMessage(c, message, sections, body, request)
  {
    FlagsKnown(U32At(message, 16));
    hide SectionsAt, AreSections, OtherFlags, MoreToCome, I32At, U32At, Bodies, BodyOf, Overlaid;
    hide Document.Get, Document.Remove;
    var sections := SectionsAt(c, message, 20, false).value;
    SectionsThen(c, message, 20, false, sections);
    OneBody(sections);
    assert IsMessage(c, message, sections, BodyOf(sections).value, request);
  }

  lemma {:induction false} MsgIf(c: Codec, message: seq<Byte>, sections: seq<Section>, body: Document, request: Request)
    requires |message| >= 21 && IsMessage(c, message, sections, body, request)
    ensures MsgOf(c, message, I32At(message, 4)) == Ok(request)
  {
    FlagsKnown(U32At(message, 16));
    hide SectionsAt, AreSections, OtherFlags, MoreToCome, I32At, U32At, Bodies, BodyOf, Overlaid;
    hide Document.Get, Document.Remove;
    SectionsIf(c, message, 20, false, sections);
    OneBody(sections);
  }

  lemma {:induction false} FlagsKnown(flags: nat)
    requires flags < 0x1_0000_0000
    ensures OtherFlags(flags) == 0 <==> flags == 0 || flags == 2
    ensures OtherFlags(flags) == 0 ==> (MoreToCome(flags) <==> flags == 2)
  {
  }

  lemma {:induction false} OnlyQueriesAreLegacy(c: Codec, message: seq<Byte>, requestId: I32)
    requires |message| >= 21
    ensures QueryOf(c, message, requestId).Ok? ==> QueryOf(c, message, requestId).value.legacy
    ensures forall moreToCome, sections ::
              var r := RequestOf(c, requestId, moreToCome, sections);
              r.Ok? ==> !r.value.legacy
  {
    hide ZeroIn, DocumentAt, Overlaid, BodyOf;
  }

  /** The collection a query is sent to: a database with no dot in its name, and `$cmd`. */
  predicate Addresses(collection: string, database: string) {
    database != [] && '.' !in database && collection == database + ".$cmd"
  }

  lemma {:induction false} DotSplits(collection: string, database: string)
    ensures Addresses(collection, database) <==>
            var dot := Dot(collection);
            0 < dot < |collection| && collection[dot + 1..] == "$cmd" && database == collection[..dot]
  {
    var dot := Dot(collection);
    if Addresses(collection, database) {
      assert collection[|database|] == '.';
      assert forall j | 0 <= j < |database| :: collection[j] == database[j];
    }
    if 0 < dot < |collection| {
      assert collection == collection[..dot] + [collection[dot]] + collection[dot + 1..];
    }
  }

  /** The parts of a query, its name ending at `nul`. */
  predicate IsQuery(c: Codec, message: seq<Byte>, nul: int, command: Document, request: Request)
    requires |message| >= 21
  {
    && 20 <= nul && nul + 9 <= |message| && message[nul] == 0 && 0 !in message[20..nul]
    && c.utf8(message[20..nul]).Some? && Addresses(c.utf8(message[20..nul]).value, request.database)
    && IsDocument(c, message[nul + 9..], command) && command.fields != []
    && c.encode(command) == Some(request.command)
    && request == Request(I32At(message, 4), false, true, request.database, command.fields[0].key, request.command)
  }

  /** A message is accepted as an OP_QUERY exactly when its header is right, it is sent to a
      database's `$cmd`, and one document that names a command ends it. */
  lemma {:induction false} AcceptsQueries(c: Codec, message: seq<Byte>, request: Request)
    ensures Parsed(c, message) == Ok(request) && request.legacy <==>
            && |message| >= 21 && I32At(message, 0) == |message| && I32At(message, 12) == OP_QUERY
            && exists nul, command :: IsQuery(c, message, nul, command, request)
  {
    if |message| >= 21 && I32At(message, 0) == |message| {
      OnlyQueriesAreLegacy(c, message, I32At(message, 4));
      hide MsgOf, QueryOf, I32At, U32At, IsQuery;
      MsgNotLegacy(c, message, I32At(message, 4));
      if QueryOf(c, message, I32At(message, 4)) == Ok(request) {
        QueryThen(c, message, request);
      }
      forall nul, command | IsQuery(c, message, nul, command, request)
        ensures QueryOf(c, message, I32At(message, 4)) == Ok(request) && request.legacy
      {
        QueryIf(c, message, nul, command, request);
      }
    }
  }

  lemma {:induction false} MsgNotLegacy(c: Codec, message: seq<Byte>, requestId: I32)
    requires |message| >= 21
    ensures MsgOf(c, message, requestId).Ok? ==> !MsgOf(c, message, requestId).value.legacy
  {
    OnlyQueriesAreLegacy(c, message, requestId);
    hide SectionsAt, RequestOf;
  }

  lemma {:induction false} QueryThen(c: Codec, message: seq<Byte>, request: Request)
    requires |message| >= 21 && QueryOf(c, message, I32At(message, 4)) == Ok(request)
    ensures exists nul, command :: IsQuery(c, message, nul, command, request)
  {
    hide ZeroIn, DocumentAt, Dot, I32At, IsDocument, Addresses;
    var nul := ZeroIn(message, 20, |message|).value;
    ZeroExact(message, 20, |message|, nul);
    var command := DocumentAt(c, message, nul + 9, |message|).value.0;
    DocumentExact(c, message, nul + 9, |message|, command, |message|);
    assert message[nul + 9..|message|] == message[nul + 9..];
    DotSplits(c.utf8(message[20..nul]).value, request.database);
    assert IsQuery(c, message, nul, command, request);
  }

  lemma {:induction false} QueryIf(c: Codec, message: seq<Byte>, nul: int, command: Document, request: Request)
    requires |message| >= 21 && IsQuery(c, message, nul, command, request)
    ensures QueryOf(c, message, I32At(message, 4)) == Ok(request) && request.legacy
  {
    hide ZeroIn, DocumentAt, Dot, I32At, IsDocument, Addresses;
    ZeroExact(message, 20, |message|, nul);
    DocumentExact(c, message, nul + 9, |message|, command, |message|);
    assert message[nul + 9..|message|] == message[nul + 9..];
    DotSplits(c.utf8(message[20..nul]).value, request.database);
  }
}
