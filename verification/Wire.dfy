/** The parser of OP_MSG and OP_QUERY requests: what it answers to every byte string, and the loops
    that work it out. */
module Wire {
  import opened Options
  import opened Bytes
  import opened Documents

  const OP_MSG: I32 := 2013
  const OP_QUERY: I32 := 2004

  datatype Request = Request(
    requestId: I32,
    moreToCome: bool,
    legacy: bool,
    database: string,
    commandName: string,
    command: seq<Byte>)

  datatype Error =
    | TooShort | WrongLength | WrongOpCode(code: int) | Truncated
    | UnsupportedFlags(flags: nat) | UnknownSection(kind: Byte) | SecondBody | NoBody
    | BadDocumentLength | DocumentOverruns | BadDocument
    | BadSequenceLength | SequenceOverruns | NoIdentifierEnd | IdentifierNotUtf8 | EmptyIdentifier
    | NoDatabase | DatabaseNotText | NoCommand | Unencodable
    | NoCollectionEnd | CollectionNotUtf8 | NotACommand(collection: string) | EmptyDatabase | SecondDocument

  datatype Result<+T> = Ok(value: T) | Err(error: Error)

  datatype Section = Body(document: Document) | Sequence(identifier: string, documents: seq<Document>)

  // ---- what is at a position

  function ReadI32(bytes: seq<Byte>, offset: nat): Result<I32> {
    if offset + 4 <= |bytes| then Ok(I32At(bytes, offset)) else Err(Truncated)
  }

  /** A document and where it ends. */
  function DocumentAt(c: Codec, message: seq<Byte>, position: nat, end: nat): (r: Result<(Document, nat)>)
    requires end <= |message|
    ensures r.Ok? ==> position + 5 <= r.value.1 <= end
  {
    match ReadI32(message, position)
    case Err(error) => Err(error)
    case Ok(length) =>
      if length < 5 then Err(BadDocumentLength)
      else if position + length > end then Err(DocumentOverruns)
      else
        match c.decode(message[position..position + length])
        case None => Err(BadDocument)
        case Some(document) => Ok((document, position + length))
  }

  /** Documents up to `end`. */
  function DocumentsAt(c: Codec, message: seq<Byte>, position: nat, end: nat): Result<seq<Document>>
    requires end <= |message|
    decreases end - position
  {
    if position >= end then Ok([])
    else
      match DocumentAt(c, message, position, end)
      case Err(error) => Err(error)
      case Ok((document, next)) =>
        match DocumentsAt(c, message, next, end)
        case Err(error) => Err(error)
        case Ok(rest) => Ok([document] + rest)
  }

  /** Where the first zero byte is in a range. */
  function ZeroIn(message: seq<Byte>, from: nat, end: nat): (r: Option<nat>)
    requires from <= end <= |message|
    ensures r.Some? ==> from <= r.value < end && message[r.value] == 0
    ensures forall i | from <= i < (if r.Some? then r.value else end) :: message[i] != 0
    decreases end - from
  {
    if from == end then None
    else if message[from] == 0 then Some(from)
    else ZeroIn(message, from + 1, end)
  }

  /** A document sequence, without its kind byte, and where it ends. */
  function SequenceAt(c: Codec, message: seq<Byte>, start: nat): (r: Result<(Section, nat)>)
    ensures r.Ok? ==> start < r.value.1 <= |message| && r.value.0.Sequence?
  {
    match ReadI32(message, start)
    case Err(error) => Err(error)
    case Ok(length) =>
      if length < 5 then Err(BadSequenceLength)
      else if start + length > |message| then Err(SequenceOverruns)
      else
        var end := start + length;
        match ZeroIn(message, start + 4, end)
        case None => Err(NoIdentifierEnd)
        case Some(nul) =>
          match c.utf8(message[start + 4..nul])
          case None => Err(IdentifierNotUtf8)
          case Some(identifier) =>
            if identifier == [] then Err(EmptyIdentifier)
            else
              match DocumentsAt(c, message, nul + 1, end)
              case Err(error) => Err(error)
              case Ok(documents) => Ok((Sequence(identifier, documents), end))
  }

  /** Sections to the end; `seen` is whether there was a body before. */
  function SectionsAt(c: Codec, message: seq<Byte>, position: nat, seen: bool): Result<seq<Section>>
    decreases |message| - position
  {
    if position >= |message| then Ok([])
    else
      var kind := message[position];
      if kind == 0 && seen then Err(SecondBody)
      else if kind > 1 then Err(UnknownSection(kind))
      else
        var one :=
          if kind == 1 then SequenceAt(c, message, position + 1)
          else
            match DocumentAt(c, message, position + 1, |message|)
            case Err(error) => Err(error)
            case Ok((document, next)) => Ok((Body(document), next));
        match one
        case Err(error) => Err(error)
        case Ok((section, next)) =>
          match SectionsAt(c, message, next, seen || kind == 0)
          case Err(error) => Err(error)
          case Ok(rest) => Ok([section] + rest)
  }

  // ---- what sections mean

  function BodyOf(sections: seq<Section>): Option<Document> {
    if sections == [] then None
    else if sections[0].Body? then Some(sections[0].document)
    else BodyOf(sections[1..])
  }

  /** A sequence is inserted as an array under its identifier. */
  function With(command: Document, section: Section): Document {
    match section
    case Body(_) => command
    case Sequence(identifier, documents) => command.Insert(identifier, Docs(documents))
  }

  /** The body with each sequence inserted, in order. */
  function Overlaid(body: Document, sections: seq<Section>): Document
    decreases |sections|
  {
    if sections == [] then body else Overlaid(With(body, sections[0]), sections[1..])
  }

  function RequestOf(c: Codec, requestId: I32, moreToCome: bool, sections: seq<Section>): Result<Request> {
    match BodyOf(sections)
    case None => Err(NoBody)
    case Some(body) => Addressed(c, requestId, moreToCome, Overlaid(body, sections))
  }

  /** The database taken out of a command, which is then named by its first key. */
  function Addressed(c: Codec, requestId: I32, moreToCome: bool, command: Document): Result<Request> {
    match command.Get("$db")
    case None => Err(NoDatabase)
    case Some(Text(database)) =>
      if database == [] then Err(DatabaseNotText)
      else Named(c, requestId, moreToCome, false, database, command.Remove("$db"))
    case Some(_) => Err(DatabaseNotText)
  }

  function Named(c: Codec, requestId: I32, moreToCome: bool, legacy: bool, database: string, command: Document)
    : Result<Request>
  {
    if command.fields == [] then Err(NoCommand)
    else
      match c.encode(command)
      case None => Err(Unencodable)
      case Some(bytes) => Ok(Request(requestId, moreToCome, legacy, database, command.fields[0].key, bytes))
  }

  function MoreToCome(flags: nat): bool { flags / 2 % 2 == 1 }

  /** All the other bits. */
  function OtherFlags(flags: nat): nat { flags - if MoreToCome(flags) then 2 else 0 }

  function MsgOf(c: Codec, message: seq<Byte>, requestId: I32): Result<Request>
    requires |message| >= 21
  {
    var flags := U32At(message, 16);
    if OtherFlags(flags) != 0 then Err(UnsupportedFlags(flags))
    else
      match SectionsAt(c, message, 20, false)
      case Err(error) => Err(error)
      case Ok(sections) => RequestOf(c, requestId, MoreToCome(flags), sections)
  }

  /** Where the first dot is, or the length. */
  function Dot(s: string): (i: nat)
    ensures i <= |s|
    ensures i < |s| ==> s[i] == '.'
    ensures forall j | 0 <= j < i :: s[j] != '.'
  {
    if s == [] || s[0] == '.' then 0 else 1 + Dot(s[1..])
  }

  function QueryOf(c: Codec, message: seq<Byte>, requestId: I32): Result<Request>
    requires |message| >= 21
  {
    match ZeroIn(message, 20, |message|)
    case None => Err(NoCollectionEnd)
    case Some(nul) =>
      match c.utf8(message[20..nul])
      case None => Err(CollectionNotUtf8)
      case Some(collection) =>
        var dot := Dot(collection);
        if dot == |collection| || collection[dot + 1..] != "$cmd" then Err(NotACommand(collection))
        else if dot == 0 then Err(EmptyDatabase)
        else
          match DocumentAt(c, message, nul + 9, |message|)
          case Err(error) => Err(error)
          case Ok((command, next)) =>
            if next != |message| then Err(SecondDocument)
            else Named(c, requestId, false, true, collection[..dot], command)
  }

  function Parsed(c: Codec, message: seq<Byte>): Result<Request> {
    if |message| < 21 then Err(TooShort)
    else if I32At(message, 0) != |message| then Err(WrongLength)
    else
      var requestId := I32At(message, 4);
      var code := I32At(message, 12);
      if code == OP_MSG then MsgOf(c, message, requestId)
      else if code == OP_QUERY then QueryOf(c, message, requestId)
      else Err(WrongOpCode(code))
  }

  // ---- the parser

  /** Advances `position` past the document it reads. */
  method ReadDocument(c: Codec, message: seq<Byte>, position: nat, end: nat) returns (r: Result<Document>, next: nat)
    requires end <= |message|
    ensures match DocumentAt(c, message, position, end)
            case Err(error) => r == Err(error) && next == position
            case Ok((document, after)) => r == Ok(document) && next == after
  {
    next := position;
    var length := ReadI32(message, position);
    if length.Err? {
      return Err(length.error), next;
    }
    if length.value < 5 {
      return Err(BadDocumentLength), next;
    }
    if position + length.value > end {
      return Err(DocumentOverruns), next;
    }
    var document := c.decode(message[position..position + length.value]);
    if document.None? {
      return Err(BadDocument), next;
    }
    return Ok(document.value), position + length.value;
  }

  method FindZero(message: seq<Byte>, from: nat, end: nat) returns (r: Option<nat>)
    requires from <= end <= |message|
    ensures r == ZeroIn(message, from, end)
  {
    var i := from;
    while i < end
      invariant from <= i <= end
      invariant ZeroIn(message, from, end) == ZeroIn(message, i, end)
    {
      if message[i] == 0 {
        return Some(i);
      }
      i := i + 1;
    }
    return None;
  }

  /** What is read so far, before the rest. */
  function Behind<T>(before: seq<T>, rest: Result<seq<T>>): Result<seq<T>> {
    match rest
    case Err(error) => Err(error)
    case Ok(after) => Ok(before + after)
  }

  lemma {:induction false} NothingBefore<T>(rest: Result<seq<T>>)
    ensures Behind([], rest) == rest
  {
    assert rest.Ok? ==> [] + rest.value == rest.value;
  }

  lemma {:induction false} NoMoreDocuments(c: Codec, message: seq<Byte>, position: nat, end: nat)
    requires position == end <= |message|
    ensures DocumentsAt(c, message, position, end) == Ok([])
  {
  }

  /** One turn of the loop over a sequence's documents. */
  lemma {:induction false} NextDocument(c: Codec, message: seq<Byte>, position: nat, end: nat, before: seq<Document>)
    requires position < end <= |message|
    ensures Behind(before, DocumentsAt(c, message, position, end)) ==
            match DocumentAt(c, message, position, end)
            case Err(error) => Err(error)
            case Ok((document, next)) => Behind(before + [document], DocumentsAt(c, message, next, end))
  {
    var one := DocumentAt(c, message, position, end);
    if one.Ok? {
      var rest := DocumentsAt(c, message, one.value.1, end);
      if rest.Ok? {
        assert before + ([one.value.0] + rest.value) == before + [one.value.0] + rest.value;
      }
    }
  }

  method ReadSequence(c: Codec, message: seq<Byte>, start: nat) returns (r: Result<Section>, next: nat)
    ensures match SequenceAt(c, message, start)
            case Err(error) => r == Err(error)
            case Ok((section, after)) => r == Ok(section) && next == after
  {
    hide DocumentsAt, ZeroIn;
    next := start;
    var length := ReadI32(message, start);
    if length.Err? {
      return Err(length.error), next;
    }
    if length.value < 5 {
      return Err(BadSequenceLength), next;
    }
    var end := start + length.value;
    if end > |message| {
      return Err(SequenceOverruns), next;
    }
    next := next + 4;
    var nul := FindZero(message, next, end);
    if nul.None? {
      return Err(NoIdentifierEnd), next;
    }
    var identifier := c.utf8(message[next..nul.value]);
    if identifier.None? {
      return Err(IdentifierNotUtf8), next;
    }
    if identifier.value == [] {
      return Err(EmptyIdentifier), next;
    }
    next := nul.value + 1;
    var documents, after := ReadDocuments(c, message, next, end);
    if documents.Err? {
      return Err(documents.error), after;
    }
    return Ok(Sequence(identifier.value, documents.value)), after;
  }

  method ReadDocuments(c: Codec, message: seq<Byte>, start: nat, end: nat) returns (r: Result<seq<Document>>, next: nat)
    requires start <= end <= |message|
    ensures r == DocumentsAt(c, message, start, end)
    ensures r.Ok? ==> next == end
  {
    next := start;
    var documents: seq<Document> := [];
    NothingBefore(DocumentsAt(c, message, start, end));
    hide DocumentsAt, DocumentAt;
    while next < end
      invariant next <= end
      invariant DocumentsAt(c, message, start, end) == Behind(documents, DocumentsAt(c, message, next, end))
      decreases end - next
    {
      var document, after := ReadDocument(c, message, next, end);
      NextDocument(c, message, next, end, documents);
      if document.Err? {
        return Err(document.error), next;
      }
      documents := documents + [document.value];
      next := after;
    }
    NoMoreDocuments(c, message, next, end);
    assert documents + [] == documents;
    return Ok(documents), next;
  }

  /** One turn of the loop over sections. */
  lemma {:induction false} NextSection(c: Codec, message: seq<Byte>, position: nat, seen: bool, before: seq<Section>)
    requires position < |message|
    ensures var kind := message[position];
            Behind(before, SectionsAt(c, message, position, seen)) ==
            if kind == 0 then
              if seen then Err(SecondBody)
              else
                match DocumentAt(c, message, position + 1, |message|)
                case Err(error) => Err(error)
                case Ok((document, next)) => Behind(before + [Body(document)], SectionsAt(c, message, next, true))
            else if kind == 1 then
              match SequenceAt(c, message, position + 1)
              case Err(error) => Err(error)
              case Ok((section, next)) => Behind(before + [section], SectionsAt(c, message, next, seen))
            else Err(UnknownSection(kind))
  {
    hide DocumentAt, SequenceAt;
    var all := SectionsAt(c, message, position, seen);
    if all.Ok? {
      assert all.value == [all.value[0]] + all.value[1..];
      assert before + ([all.value[0]] + all.value[1..]) == before + [all.value[0]] + all.value[1..];
    }
  }

  lemma {:induction false} NoMoreSections(c: Codec, message: seq<Byte>, position: nat, seen: bool)
    requires position >= |message|
    ensures SectionsAt(c, message, position, seen) == Ok([])
  {
  }

  lemma {:induction false} SectionAdded(sections: seq<Section>, section: Section)
    ensures BodyOf(sections + [section]) ==
            if BodyOf(sections).Some? then BodyOf(sections)
            else if section.Body? then Some(section.document)
            else None
  {
    if sections != [] {
      assert (sections + [section])[1..] == sections[1..] + [section];
      SectionAdded(sections[1..], section);
    }
  }

  /** The sequences among the sections, in order. */
  function Sequences(sections: seq<Section>): (r: seq<Section>)
    ensures forall i | 0 <= i < |r| :: r[i].Sequence?
    decreases |sections|
  {
    if sections == [] then []
    else
      var last := sections[|sections| - 1];
      Sequences(sections[..|sections| - 1]) + if last.Sequence? then [last] else []
  }

  lemma {:induction false} SequenceAdded(sections: seq<Section>, section: Section)
    ensures Sequences(sections + [section]) == Sequences(sections) + if section.Sequence? then [section] else []
  {
    assert (sections + [section])[..|sections|] == sections;
  }

  lemma {:induction false} OverlaidLast(body: Document, sections: seq<Section>)
    requires sections != []
    ensures var n := |sections| - 1;
            Overlaid(body, sections) == With(Overlaid(body, sections[..n]), sections[n])
    decreases |sections|
  {
    hide With;
    var n := |sections| - 1;
    if n == 0 {
      assert sections[1..] == [] && sections[..0] == [];
    } else {
      OverlaidLast(With(body, sections[0]), sections[1..]);
      assert sections[..n][1..] == sections[1..][..n - 1];
    }
  }

  /** The body has no effect on the overlay. */
  lemma {:induction false} OnlySequences(body: Document, sections: seq<Section>)
    ensures Overlaid(body, Sequences(sections)) == Overlaid(body, sections)
    decreases |sections|
  {
    if sections != [] {
      var n := |sections| - 1;
      OnlySequences(body, sections[..n]);
      OverlaidLast(body, sections);
      if sections[n].Sequence? {
        var kept := Sequences(sections);
        assert kept[..|kept| - 1] == Sequences(sections[..n]);
        OverlaidLast(body, kept);
      } else {
        assert Sequences(sections) == Sequences(sections[..n]);
      }
    }
  }

  method ParseMsg(c: Codec, message: seq<Byte>, requestId: I32) returns (r: Result<Request>)
    requires |message| >= 21
    ensures r == MsgOf(c, message, requestId)
  {
    var flags := U32At(message, 16);
    if OtherFlags(flags) != 0 {
      return Err(UnsupportedFlags(flags));
    }
    var position := 20;
    var body: Option<Document> := None;
    var sequences: seq<Section> := [];
    ghost var sections: seq<Section> := [];
    ghost var all := SectionsAt(c, message, 20, false);
    NothingBefore(all);
    hide SectionsAt, DocumentAt, SequenceAt, BodyOf, Sequences, Overlaid, Addressed;
    NoSections();
    while position < |message|
      invariant body == BodyOf(sections) && sequences == Sequences(sections)
      invariant all == Behind(sections, SectionsAt(c, message, position, body.Some?))
      decreases |message| - position
    {
      NextSection(c, message, position, body.Some?, sections);
      var kind := message[position];
      position := position + 1;
      if kind == 0 {
        if body.Some? {
          return Err(SecondBody);
        }
        var document, next := ReadDocument(c, message, position, |message|);
        if document.Err? {
          return Err(document.error);
        }
        SectionAdded(sections, Body(document.value));
        SequenceAdded(sections, Body(document.value));
        sections := sections + [Body(document.value)];
        body, position := Some(document.value), next;
      } else if kind == 1 {
        var section, next := ReadSequence(c, message, position);
        if section.Err? {
          return Err(section.error);
        }
        SectionAdded(sections, section.value);
        SequenceAdded(sections, section.value);
        sections := sections + [section.value];
        sequences, position := sequences + [section.value], next;
      } else {
        return Err(UnknownSection(kind));
      }
    }
    NoMoreSections(c, message, position, body.Some?);
    assert all == Ok(sections) by { assert sections + [] == sections; }
    if body.None? {
      return Err(NoBody);
    }
    OnlySequences(body.value, sections);
    var command := Overlay(body.value, sequences);
    r := Address(c, requestId, MoreToCome(flags), command);
  }

  lemma {:induction false} NoSections()
    ensures BodyOf([]) == None && Sequences([]) == []
  {
  }

  /** Inserts the sequences in order. */
  method Overlay(body: Document, sequences: seq<Section>) returns (command: Document)
    requires forall i | 0 <= i < |sequences| :: sequences[i].Sequence?
    ensures command == Overlaid(body, sequences)
  {
    command := body;
    assert sequences[0..] == sequences;
    for i := 0 to |sequences|
      invariant Overlaid(command, sequences[i..]) == Overlaid(body, sequences)
    {
      assert sequences[i..][1..] == sequences[i + 1..];
      command := command.Insert(sequences[i].identifier, Docs(sequences[i].documents));
    }
    assert sequences[|sequences|..] == [];
  }

  method Address(c: Codec, requestId: I32, moreToCome: bool, command: Document) returns (r: Result<Request>)
    ensures r == Addressed(c, requestId, moreToCome, command)
  {
    var database := command.Get("$db");
    var rest := command.Remove("$db");
    if database.None? {
      return Err(NoDatabase);
    }
    if !database.value.Text? || database.value.text == [] {
      return Err(DatabaseNotText);
    }
    if |rest.fields| == 0 {
      return Err(NoCommand);
    }
    var bytes := c.encode(rest);
    if bytes.None? {
      return Err(Unencodable);
    }
    return Ok(Request(requestId, moreToCome, false, database.value.text, rest.fields[0].key, bytes.value));
  }

  method ParseQuery(c: Codec, message: seq<Byte>, requestId: I32) returns (r: Result<Request>)
    requires |message| >= 21
    ensures r == QueryOf(c, message, requestId)
  {
    var position := 20;
    var nul := FindZero(message, position, |message|);
    if nul.None? {
      return Err(NoCollectionEnd);
    }
    var collection := c.utf8(message[position..nul.value]);
    if collection.None? {
      return Err(CollectionNotUtf8);
    }
    var dot := Dot(collection.value);
    if dot == |collection.value| || collection.value[dot + 1..] != "$cmd" {
      return Err(NotACommand(collection.value));
    }
    var database := collection.value[..dot];
    if database == [] {
      return Err(EmptyDatabase);
    }
    position := nul.value + 1 + 8;
    var command, next := ReadDocument(c, message, position, |message|);
    if command.Err? {
      return Err(command.error);
    }
    if next != |message| {
      return Err(SecondDocument);
    }
    if command.value.fields == [] {
      return Err(NoCommand);
    }
    var bytes := c.encode(command.value);
    if bytes.None? {
      return Err(Unencodable);
    }
    return Ok(Request(requestId, false, true, database, command.value.fields[0].key, bytes.value));
  }

  method Parse(c: Codec, message: seq<Byte>) returns (r: Result<Request>)
    ensures r == Parsed(c, message)
  {
    if |message| < 21 {
      return Err(TooShort);
    }
    if I32At(message, 0) != |message| {
      return Err(WrongLength);
    }
    var requestId := I32At(message, 4);
    var code := I32At(message, 12);
    if code == OP_MSG {
      r := ParseMsg(c, message, requestId);
    } else if code == OP_QUERY {
      r := ParseQuery(c, message, requestId);
    } else {
      r := Err(WrongOpCode(code));
    }
  }
}
