/** A request framed by the protocol parses back to what was framed. */
module WireRoundTrip {
  import opened Options
  import opened Bytes
  import opened Documents
  import opened Wire
  import opened WireTheorems

  predicate Encodable(c: Codec, document: Document) { c.encode(document).Some? }

  function DocumentBytes(c: Codec, document: Document): seq<Byte>
    requires Encodable(c, document)
  {
    c.encode(document).value
  }

  function DocumentsBytes(c: Codec, documents: seq<Document>): seq<Byte>
    requires forall d | d in documents :: Encodable(c, d)
  {
    if documents == [] then [] else DocumentBytes(c, documents[0]) + DocumentsBytes(c, documents[1..])
  }

  /** What can be put in a section: text that a zero byte can end, documents that encode, and no
      more of them than a length can say. */
  predicate Framable(c: Codec, section: Section) {
    match section
    case Body(document) => Encodable(c, document)
    case Sequence(identifier, documents) =>
      && identifier != [] && '\0' !in identifier
      && (forall d | d in documents :: Encodable(c, d))
      && 4 + |c.ofText(identifier)| + 1 + |DocumentsBytes(c, documents)| <= I32_MAX
  }

  function SectionBytes(c: Codec, section: Section): seq<Byte>
    requires Framable(c, section)
  {
    match section
    case Body(document) => [0] + DocumentBytes(c, document)
    case Sequence(identifier, documents) =>
      var rest := c.ofText(identifier) + [0] + DocumentsBytes(c, documents);
      [1] + Le32(4 + |rest|) + rest
  }

  function SectionsBytes(c: Codec, sections: seq<Section>): seq<Byte>
    requires forall s | s in sections :: Framable(c, s)
  {
    if sections == [] then [] else SectionBytes(c, sections[0]) + SectionsBytes(c, sections[1..])
  }

  lemma {:induction false} DocumentsShaped(c: Codec, documents: seq<Document>)
    requires c.Lawful() && forall d | d in documents :: Encodable(c, d)
    ensures AreDocuments(c, DocumentsBytes(c, documents), documents)
    decreases |documents|
  {
    if documents != [] {
      DocumentsShaped(c, documents[1..]);
      var bytes := DocumentsBytes(c, documents);
      var n := |DocumentBytes(c, documents[0])|;
      assert bytes[..n] == DocumentBytes(c, documents[0]) && bytes[n..] == DocumentsBytes(c, documents[1..]);
      assert IsDocument(c, bytes[..n], documents[0]);
    }
  }

  lemma {:induction false} SectionShaped(c: Codec, section: Section)
    requires c.Lawful() && Framable(c, section)
    ensures IsSection(c, SectionBytes(c, section), section)
  {
    var bytes := SectionBytes(c, section);
    match section
    case Body(document) => assert bytes[1..] == DocumentBytes(c, document);
    case Sequence(identifier, documents) => SequenceShaped(c, identifier, documents);
  }

  lemma {:induction false} SequenceLaidOut(name: seq<Byte>, docs: seq<Byte>)
    requires 4 + |name| + 1 + |docs| <= I32_MAX
    ensures var rest := name + [0] + docs;
            var bytes := [1] + Le32(4 + |rest|) + rest;
            var n := 5 + |name|;
            && |bytes| == n + 1 + |docs| && bytes[0] == 1 && I32At(bytes, 1) == |bytes| - 1
            && bytes[5..n] == name && bytes[n] == 0 && bytes[n + 1..] == docs
  {
    var rest := name + [0] + docs;
    Le32RoundTrip(4 + |rest|, [1], rest);
    hide Le32, I32At, U32At;
  }

  lemma {:induction false} SequenceShaped(c: Codec, identifier: string, documents: seq<Document>)
    requires c.Lawful() && Framable(c, Sequence(identifier, documents))
    ensures var section := Sequence(identifier, documents);
            IsSection(c, SectionBytes(c, section), section)
  {
    var name, docs := c.ofText(identifier), DocumentsBytes(c, documents);
    SequenceLaidOut(name, docs);
    DocumentsShaped(c, documents);
    assert c.utf8(name) == Some(identifier) && 0 !in name;
    hide DocumentsBytes, AreDocuments, Le32, I32At, Codec.Lawful;
    assert SequenceEnds(c, SectionBytes(c, Sequence(identifier, documents)), 5 + |name|, identifier, documents);
  }

  lemma {:induction false} SectionsShaped(c: Codec, sections: seq<Section>)
    requires c.Lawful() && forall s | s in sections :: Framable(c, s)
    ensures AreSections(c, SectionsBytes(c, sections), sections)
    decreases |sections|
  {
    if sections != [] {
      hide SectionBytes, IsSection, Framable, Codec.Lawful;
      SectionsShaped(c, sections[1..]);
      SectionShaped(c, sections[0]);
      var bytes := SectionsBytes(c, sections);
      SectionNotEmpty(c, sections[0]);
      var n := |SectionBytes(c, sections[0])|;
      assert bytes[..n] == SectionBytes(c, sections[0]) && bytes[n..] == SectionsBytes(c, sections[1..]);
    }
  }

  lemma {:induction false} SectionNotEmpty(c: Codec, section: Section)
    requires Framable(c, section)
    ensures SectionBytes(c, section) != []
  {
  }

  // ---- OP_MSG

  function Flags(moreToCome: bool): I32 { if moreToCome then 2 else 0 }

  predicate MsgFits(c: Codec, sections: seq<Section>) {
    (forall s | s in sections :: Framable(c, s)) && 20 + |SectionsBytes(c, sections)| <= I32_MAX
  }

  function Msg(c: Codec, requestId: I32, responseTo: I32, moreToCome: bool, sections: seq<Section>): seq<Byte>
    requires MsgFits(c, sections)
  {
    var payload := SectionsBytes(c, sections);
    Header(20 + |payload|, requestId, responseTo, OP_MSG) + (Le32(Flags(moreToCome)) + payload)
  }

  lemma {:induction false} MsgLaidOut(c: Codec, requestId: I32, responseTo: I32, more: bool, sections: seq<Section>)
    requires MsgFits(c, sections)
    ensures var message := Msg(c, requestId, responseTo, more, sections);
            && |message| >= 20 && message[20..] == SectionsBytes(c, sections)
            && I32At(message, 0) == |message| && I32At(message, 4) == requestId
            && I32At(message, 12) == OP_MSG && U32At(message, 16) == Flags(more)
  {
    hide SectionsBytes, I32At, U32At, Header, Le32;
    var payload := SectionsBytes(c, sections);
    var flags := Le32(Flags(more));
    var head := Header(20 + |payload|, requestId, responseTo, OP_MSG);
    var message := Msg(c, requestId, responseTo, more, sections);
    HeaderReads(20 + |payload|, requestId, responseTo, OP_MSG, flags + payload);
    assert message == head + flags + payload;
    Le32RoundTrip(Flags(more), head, payload);
  }

  /** Whatever the header, the flag and the order of the sections, with one body anywhere among
      them, the parser answers what the sections mean. */
  lemma {:induction false} MsgRoundTrip(c: Codec, requestId: I32, responseTo: I32, more: bool, sections: seq<Section>)
    requires c.Lawful() && MsgFits(c, sections) && Bodies(sections) == 1
    ensures Parsed(c, Msg(c, requestId, responseTo, more, sections)) == RequestOf(c, requestId, more, sections)
  {
    hide Codec.Lawful, SectionsBytes, AreSections, RequestOf, OtherFlags, MoreToCome, Bodies, SectionsAt, Msg, I32At,
         U32At;
    var message := Msg(c, requestId, responseTo, more, sections);
    MsgLaidOut(c, requestId, responseTo, more, sections);
    SectionsShaped(c, sections);
    FlagsKnown(U32At(message, 16));
    SomethingInside(c, sections);
    SectionsIf(c, message, 20, false, sections);
  }

  lemma {:induction false} SomethingInside(c: Codec, sections: seq<Section>)
    requires (forall s | s in sections :: Framable(c, s)) && Bodies(sections) > 0
    ensures SectionsBytes(c, sections) != []
  {
    SectionNotEmpty(c, sections[0]);
  }

  /** The documents of the last sequence under a name. */
  function LastNamed(sections: seq<Section>, key: string): Option<seq<Document>>
    decreases |sections|
  {
    if sections == [] then None
    else
      var last := sections[|sections| - 1];
      if last.Sequence? && last.identifier == key then Some(last.documents)
      else LastNamed(sections[..|sections| - 1], key)
  }

  /** The overlay keeps the body's keys first and in order, and holds under each key the last
      sequence of that name, or else what the body held. */
  lemma {:induction false} OverlayMeans(body: Document, sections: seq<Section>, key: string)
    requires body.Valid()
    ensures var command := Overlaid(body, sections);
            && command.Valid() && body.Keys() <= command.Keys()
            && command.Get(key) == match LastNamed(sections, key)
                                   case Some(documents) => Some(Docs(documents))
                                   case None => body.Get(key)
    decreases |sections|
  {
    hide Document.Get, Document.Insert, Document.Valid;
    if sections != [] {
      var n := |sections| - 1;
      OverlaidLast(body, sections);
      OverlayMeans(body, sections[..n], key);
      if sections[n].Sequence? {
        Inserted(Overlaid(body, sections[..n]), sections[n].identifier, Docs(sections[n].documents), key);
      }
    }
  }

  /** What a framed request is parsed to, when it names a database and a command. */
  lemma {:induction false} MsgMeans(
      c: Codec, requestId: I32, responseTo: I32, more: bool, sections: seq<Section>,
      body: Document, database: string, key: string)
    requires c.Lawful() && MsgFits(c, sections) && Bodies(sections) == 1 && BodyOf(sections) == Some(body)
    requires Overlaid(body, sections).Get("$db") == Some(Text(database)) && database != []
    requires var command := Overlaid(body, sections).Remove("$db"); command.fields != [] && Encodable(c, command)
    ensures var r := Parsed(c, Msg(c, requestId, responseTo, more, sections));
            && r.Ok? && r.value.requestId == requestId && r.value.moreToCome == more && !r.value.legacy
            && r.value.database == database
            && c.decode(r.value.command).Some?
            && var command := c.decode(r.value.command).value;
               && command == Overlaid(body, sections).Remove("$db")
               && command.fields == WithoutKey(Overlaid(body, sections).fields, "$db")
               && command.fields != [] && r.value.commandName == command.fields[0].key
               && command.Get(key) == if key == "$db" then None
                                      else match LastNamed(sections, key)
                                           case Some(documents) => Some(Docs(documents))
                                           case None => body.Get(key)
  {
    MsgRoundTrip(c, requestId, responseTo, more, sections);
    BodyValid(c, sections);
    hide Msg, MsgFits, LastNamed, Document.Get, Document.Remove, Overlaid;
    OverlayMeans(body, sections, key);
    Removed(Overlaid(body, sections), "$db", key);
  }

  lemma {:induction false} BodyValid(c: Codec, sections: seq<Section>)
    requires c.Lawful() && (forall s | s in sections :: Framable(c, s)) && BodyOf(sections).Some?
    ensures BodyOf(sections).value.Valid()
    decreases |sections|
  {
    if sections[0].Body? {
      assert Framable(c, sections[0]);
    } else {
      BodyValid(c, sections[1..]);
    }
  }

  // ---- OP_QUERY

  function Query(
      c: Codec, requestId: I32, responseTo: I32, flags: I32, database: string, skip: I32, limit: I32, command: Document)
      : seq<Byte>
    requires Encodable(c, command)
    requires 29 + |c.ofText(database + ".$cmd")| + |DocumentBytes(c, command)| <= I32_MAX
  {
    var name, document := c.ofText(database + ".$cmd"), DocumentBytes(c, command);
    Header(29 + |name| + |document|, requestId, responseTo, OP_QUERY)
    + (Le32(flags) + name + [0] + Le32(skip) + Le32(limit) + document)
  }

  lemma {:induction false} QueryLaidOut(
      c: Codec, requestId: I32, responseTo: I32, flags: I32, database: string, skip: I32, limit: I32, command: Document)
    requires Encodable(c, command)
    requires 29 + |c.ofText(database + ".$cmd")| + |DocumentBytes(c, command)| <= I32_MAX
    ensures var name, document := c.ofText(database + ".$cmd"), DocumentBytes(c, command);
            var message := Query(c, requestId, responseTo, flags, database, skip, limit, command);
            var nul := 20 + |name|;
            && |message| == nul + 9 + |document| && message[20..nul] == name && message[nul] == 0
            && message[nul + 9..|message|] == document
            && I32At(message, 0) == |message| && I32At(message, 4) == requestId && I32At(message, 12) == OP_QUERY
  {
    hide I32At, U32At, Header, Le32, DocumentBytes;
    var name, document := c.ofText(database + ".$cmd"), DocumentBytes(c, command);
    HeaderReads(29 + |name| + |document|, requestId, responseTo, OP_QUERY,
                Le32(flags) + name + [0] + Le32(skip) + Le32(limit) + document);
  }

  lemma {:induction false} QueryRoundTrip(
      c: Codec, requestId: I32, responseTo: I32, flags: I32, database: string, skip: I32, limit: I32, command: Document)
    requires c.Lawful() && Encodable(c, command) && command.fields != []
    requires 29 + |c.ofText(database + ".$cmd")| + |DocumentBytes(c, command)| <= I32_MAX
    requires database != [] && '.' !in database && '\0' !in database
    ensures Parsed(c, Query(c, requestId, responseTo, flags, database, skip, limit, command))
            == Ok(Request(requestId, false, true, database, command.fields[0].key, DocumentBytes(c, command)))
  {
    var name, document := c.ofText(database + ".$cmd"), DocumentBytes(c, command);
    var message := Query(c, requestId, responseTo, flags, database, skip, limit, command);
    var nul := 20 + |name|;
    QueryLaidOut(c, requestId, responseTo, flags, database, skip, limit, command);
    DotFound(database);
    hide Query, Dot, DocumentAt, ZeroIn, I32At, U32At;
    assert 0 !in name;
    ZeroExact(message, 20, |message|, nul);
    DocumentShaped(c, command);
    DocumentExact(c, message, nul + 9, |message|, command, |message|);
  }

  lemma {:induction false} DocumentShaped(c: Codec, document: Document)
    requires c.Lawful() && Encodable(c, document)
    ensures IsDocument(c, DocumentBytes(c, document), document)
  {
  }

  lemma {:induction false} DotFound(database: string)
    requires '.' !in database
    ensures var collection := database + ".$cmd";
            && Dot(collection) == |database|
            && collection[..|database|] == database
            && collection[|database| + 1..] == "$cmd"
  {
    var collection := database + ".$cmd";
    assert collection[|database|] == '.';
    assert forall j | 0 <= j < |database| :: collection[j] == database[j];
  }
}
