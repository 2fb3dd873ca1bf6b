/** Which error a message is refused with, and that it is the first that applies. */
module WireRefusals {
  import opened Options
  import opened Bytes
  import opened Documents
  import opened Wire
  import opened WireTheorems

  // ---- the header

  /** Too short, not as long as it says, or of a kind that is not taken, in that order. */
  lemma {:induction false} RefusesHeaders(c: Codec, message: seq<Byte>, code: int)
    ensures var r := Parsed(c, message);
            && (r == Err(TooShort) <==> |message| < 21)
            && (r == Err(WrongLength) <==> |message| >= 21 && I32At(message, 0) != |message|)
            && (r == Err(WrongOpCode(code)) <==>
                  && |message| >= 21 && I32At(message, 0) == |message| && I32At(message, 12) == code
                  && code != 2013 && code != 2004)
  {
    hide I32At, U32At, MsgOf, QueryOf;
    if |message| >= 21 {
      InnerErrors(c, message, I32At(message, 4));
    }
  }

  /** An error of the header's own. */
  predicate OfHeader(error: Error) { error.TooShort? || error.WrongLength? || error.WrongOpCode? }

  lemma {:induction false} InnerErrors(c: Codec, message: seq<Byte>, requestId: I32)
    requires |message| >= 21
    ensures MsgOf(c, message, requestId).Err? ==> !OfHeader(MsgOf(c, message, requestId).error)
    ensures QueryOf(c, message, requestId).Err? ==> !OfHeader(QueryOf(c, message, requestId).error)
  {
    hide MsgOf, QueryOf;
    MsgErrors(c, message, requestId);
    QueryErrors(c, message, requestId);
  }

  lemma {:induction false} MsgErrors(c: Codec, message: seq<Byte>, requestId: I32)
    requires |message| >= 21
    ensures MsgOf(c, message, requestId).Err? ==> !OfHeader(MsgOf(c, message, requestId).error)
  {
    SectionErrors(c, message, 20, false);
    hide SectionsAt, U32At, RequestOf;
    if SectionsAt(c, message, 20, false).Ok? {
      CommandErrors(c, requestId, MoreToCome(U32At(message, 16)), SectionsAt(c, message, 20, false).value);
    }
  }

  lemma {:induction false} QueryErrors(c: Codec, message: seq<Byte>, requestId: I32)
    requires |message| >= 21
    ensures QueryOf(c, message, requestId).Err? ==> !OfHeader(QueryOf(c, message, requestId).error)
  {
    hide DocumentAt, ZeroIn, Dot;
    if ZeroIn(message, 20, |message|).Some? {
      DocumentErrors(c, message, ZeroIn(message, 20, |message|).value + 9, |message|);
    }
  }

  /** An error of a document's own. */
  predicate OfDocuments(error: Error) {
    error.Truncated? || error.BadDocumentLength? || error.DocumentOverruns? || error.BadDocument?
  }

  /** An error of the command that the sections make. */
  predicate OfCommands(error: Error) {
    error.NoBody? || error.NoDatabase? || error.DatabaseNotText? || error.NoCommand? || error.Unencodable?
  }

  lemma {:induction false} DocumentErrors(c: Codec, message: seq<Byte>, position: nat, end: nat)
    requires end <= |message|
    ensures var r := DocumentAt(c, message, position, end);
            r.Err? ==> OfDocuments(r.error)
  {
  }

  lemma {:induction false} DocumentsErrors(c: Codec, message: seq<Byte>, position: nat, end: nat)
    requires end <= |message|
    ensures var r := DocumentsAt(c, message, position, end);
            r.Err? ==> OfDocuments(r.error)
    decreases end - position
  {
    DocumentErrors(c, message, position, end);
    hide DocumentAt;
    if position < end && DocumentAt(c, message, position, end).Ok? {
      DocumentsErrors(c, message, DocumentAt(c, message, position, end).value.1, end);
    }
  }

  /** An error of a section's own. */
  predicate OfSections(error: Error) {
    || OfDocuments(error) || error.SecondBody? || error.UnknownSection?
    || error.BadSequenceLength? || error.SequenceOverruns? || error.NoIdentifierEnd? || error.IdentifierNotUtf8?
    || error.EmptyIdentifier?
  }

  lemma {:induction false} SequenceErrors(c: Codec, message: seq<Byte>, start: nat)
    ensures SequenceAt(c, message, start).Err? ==> OfSections(SequenceAt(c, message, start).error)
  {
    hide DocumentsAt, ZeroIn;
    if start + 4 <= |message| && 5 <= I32At(message, start) && start + I32At(message, start) <= |message| {
      var end := start + I32At(message, start);
      var nul := ZeroIn(message, start + 4, end);
      if nul.Some? {
        DocumentsErrors(c, message, nul.value + 1, end);
      }
    }
  }

  lemma {:induction false} SectionErrors(c: Codec, message: seq<Byte>, position: nat, seen: bool)
    ensures SectionsAt(c, message, position, seen).Err? ==> OfSections(SectionsAt(c, message, position, seen).error)
    decreases |message| - position
  {
    if position < |message| {
      DocumentErrors(c, message, position + 1, |message|);
      SequenceErrors(c, message, position + 1);
      NextSection(c, message, position, seen, []);
      NothingBefore(SectionsAt(c, message, position, seen));
      hide DocumentAt, SequenceAt, SectionsAt;
      var one := SectionAt(c, message, position);
      if one.Ok? {
        SectionErrors(c, message, one.value.1, seen || message[position] == 0);
      }
    }
  }

  // ---- the sections

  /** What is wrong with the section that begins here. */
  predicate FaultAt(c: Codec, message: seq<Byte>, position: nat, seen: bool, error: Error)
    requires position < |message|
  {
    var kind := message[position];
    if kind > 1 then error == UnknownSection(kind)
    else if kind == 0 && seen then error == SecondBody
    else if kind == 0 then DocumentAt(c, message, position + 1, |message|) == Err(error)
    else SequenceAt(c, message, position + 1) == Err(error)
  }

  /** Sections end to end up to `n`, and there the first that is wrong. */
  predicate FirstFault(
      c: Codec, message: seq<Byte>, position: nat, seen: bool, sections: seq<Section>, n: nat, error: Error)
  {
    && position <= n < |message| && AreSections(c, message[position..n], sections)
    && Bodies(sections) <= (if seen then 0 else 1)
    && FaultAt(c, message, n, seen || Bodies(sections) > 0, error)
  }

  lemma {:induction false} FaultThen(c: Codec, message: seq<Byte>, position: nat, seen: bool, error: Error)
    requires SectionsAt(c, message, position, seen) == Err(error)
    ensures exists sections, n: nat :: FirstFault(c, message, position, seen, sections, n, error)
    decreases |message| - position
  {
    hide SectionsAt, SectionAt, FaultAt, FirstFault;
    FaultOrSection(c, message, position, seen, error);
    if FaultAt(c, message, position, seen, error) {
      FaultHere(c, message, position, seen, error);
    } else {
      var (section, next) := SectionAt(c, message, position).value;
      var seen' := seen || message[position] == 0;
      FaultThen(c, message, next, seen', error);
      var rest, n: nat :| FirstFault(c, message, next, seen', rest, n, error);
      FaultOnward(c, message, position, seen, section, next, rest, n, error);
    }
  }

  lemma {:induction false} FaultHere(c: Codec, message: seq<Byte>, position: nat, seen: bool, error: Error)
    requires position < |message| && FaultAt(c, message, position, seen, error)
    ensures FirstFault(c, message, position, seen, [], position, error)
  {
    hide FaultAt;
    assert message[position..position] == [];
  }

  lemma {:induction false} FaultOnward(
      c: Codec, message: seq<Byte>, position: nat, seen: bool, section: Section, next: nat, rest: seq<Section>, n: nat,
      error: Error)
    requires position < |message| && SectionAt(c, message, position) == Ok((section, next))
    requires !(seen && message[position] == 0)
    requires FirstFault(c, message, next, seen || message[position] == 0, rest, n, error)
    ensures FirstFault(c, message, position, seen, [section] + rest, n, error)
  {
    hide FaultAt, AreSections, SectionAt, IsSection;
    SectionBefore(c, message, position, section, next, rest, n);
    SectionExact(c, message, position, section, next);
    assert ([section] + rest)[1..] == rest;
  }

  /** The section here is at fault, or it is read and the fault is further on. */
  lemma {:induction false} FaultOrSection(c: Codec, message: seq<Byte>, position: nat, seen: bool, error: Error)
    requires SectionsAt(c, message, position, seen) == Err(error)
    ensures position < |message|
    ensures !FaultAt(c, message, position, seen, error) ==>
              && SectionAt(c, message, position).Ok? && !(seen && message[position] == 0)
              && position < SectionAt(c, message, position).value.1 <= |message|
              && SectionsAt(c, message, SectionAt(c, message, position).value.1, seen || message[position] == 0)
                 == Err(error)
  {
    if position < |message| {
      NextSection(c, message, position, seen, []);
      NothingBefore(SectionsAt(c, message, position, seen));
      var one := SectionAt(c, message, position);
      if one.Ok? {
        SectionExact(c, message, position, one.value.0, one.value.1);
      }
      hide DocumentAt, SequenceAt, SectionsAt, IsSection;
    } else {
      NoMoreSections(c, message, position, seen);
      hide SectionsAt;
    }
  }

  /** A section in front of others that lie end to end. */
  lemma {:induction false} SectionBefore(
      c: Codec, message: seq<Byte>, position: nat, section: Section, next: nat, rest: seq<Section>, n: nat)
    requires position < |message| && SectionAt(c, message, position) == Ok((section, next))
    requires next <= n <= |message| && AreSections(c, message[next..n], rest)
    ensures position < next && AreSections(c, message[position..n], [section] + rest)
  {
    SectionExact(c, message, position, section, next);
    hide IsSection, SectionAt;
    var bytes := message[position..n];
    Slices(message, position, n, 0, next - position);
    Slices(message, position, n, next - position, n - position);
    assert bytes[..next - position] == message[position..next] && bytes[next - position..] == message[next..n];
    assert ([section] + rest)[1..] == rest;
  }

  lemma {:induction false} FaultIf(
      c: Codec, message: seq<Byte>, position: nat, seen: bool, sections: seq<Section>, n: nat, error: Error)
    requires FirstFault(c, message, position, seen, sections, n, error)
    ensures SectionsAt(c, message, position, seen) == Err(error)
    decreases |sections|
  {
    if sections == [] {
      assert n == position;
      NextSection(c, message, position, seen, []);
      NothingBefore(SectionsAt(c, message, position, seen));
      hide DocumentAt, SequenceAt, SectionsAt;
    } else {
      var next := SectionFirst(c, message, position, sections, n);
      hide AreSections, FaultAt, SectionsAt, SectionAt;
      FaultIf(c, message, next, seen || sections[0].Body?, sections[1..], n, error);
      FaultBeyond(c, message, position, seen, sections[0], next, error);
    }
  }

  /** The first of sections that lie end to end, and where it ends. */
  lemma {:induction false} SectionFirst(c: Codec, message: seq<Byte>, position: nat, sections: seq<Section>, n: nat)
    returns (next: nat)
    requires position <= n <= |message| && sections != [] && AreSections(c, message[position..n], sections)
    ensures position < next <= n && AreSections(c, message[next..n], sections[1..])
    ensures SectionAt(c, message, position) == Ok((sections[0], next))
    ensures sections[0].Body? <==> message[position] == 0
  {
    var bytes := message[position..n];
    var k :| 0 < k <= |bytes| && IsSection(c, bytes[..k], sections[0]) && AreSections(c, bytes[k..], sections[1..]);
    next := position + k;
    Slices(message, position, n, 0, k);
    Slices(message, position, n, k, n - position);
    hide SectionAt, IsSection, AreSections;
    assert bytes[..k] == message[position..next] && bytes[k..] == message[next..n];
    SectionExact(c, message, position, sections[0], next);
  }

  lemma {:induction false} FaultBeyond(
      c: Codec, message: seq<Byte>, position: nat, seen: bool, section: Section, next: nat, error: Error)
    requires position < |message| && SectionAt(c, message, position) == Ok((section, next))
    requires (section.Body? <==> message[position] == 0) && !(seen && section.Body?)
    requires SectionsAt(c, message, next, seen || section.Body?) == Err(error)
    ensures SectionsAt(c, message, position, seen) == Err(error)
  {
    NextSection(c, message, position, seen, []);
    NothingBefore(SectionsAt(c, message, position, seen));
    hide DocumentAt, SequenceAt, SectionsAt;
  }

  // ---- an OP_MSG

  predicate IsMsgHeader(message: seq<Byte>) {
    |message| >= 21 && I32At(message, 0) == |message| && I32At(message, 12) == OP_MSG
  }

  /** Flags first; then the first section that is wrong, with what is wrong with it. */
  lemma {:induction false} RefusesSections(c: Codec, message: seq<Byte>, error: Error)
    requires IsMsgHeader(message)
    ensures var flags := U32At(message, 16);
            && (flags != 0 && flags != 2 ==> Parsed(c, message) == Err(UnsupportedFlags(flags)))
            && (flags == 0 || flags == 2 ==>
                  (Parsed(c, message) == Err(error) && OfSections(error) <==>
                     exists sections, n: nat :: FirstFault(c, message, 20, false, sections, n, error)))
  {
    FlagsKnown(U32At(message, 16));
    SectionErrors(c, message, 20, false);
    hide SectionsAt, OtherFlags, MoreToCome, FirstFault, U32At, I32At, RequestOf, OfSections, OfCommands;
    var read := SectionsAt(c, message, 20, false);
    if read == Err(error) {
      FaultThen(c, message, 20, false, error);
    }
    forall sections, n: nat | FirstFault(c, message, 20, false, sections, n, error)
      ensures read == Err(error)
    {
      FaultIf(c, message, 20, false, sections, n, error);
    }
    if read.Ok? {
      CommandErrors(c, I32At(message, 4), MoreToCome(U32At(message, 16)), read.value);
    }
  }

  lemma {:induction false} CommandErrors(c: Codec, requestId: I32, more: bool, sections: seq<Section>)
    ensures var r := RequestOf(c, requestId, more, sections);
            r.Err? ==> OfCommands(r.error) && !OfSections(r.error)
  {
    hide Overlaid, BodyOf;
  }

  /** With its sections right, what is missing decides: the body, the database, text for it, a command
      beside it, or an encoding of that. */
  lemma {:induction false} RefusesCommands(c: Codec, message: seq<Byte>, sections: seq<Section>, body: Document)
    requires IsMsgHeader(message) && (U32At(message, 16) == 0 || U32At(message, 16) == 2)
    requires AreSections(c, message[20..], sections) && Bodies(sections) <= 1
    ensures var r := Parsed(c, message);
            && (r == Err(NoBody) <==> Bodies(sections) == 0)
            && (Body(body) in sections ==>
                  var command := Overlaid(body, sections);
                  var database := command.Get("$db");
                  var named := database.Some? && database.value.Text? && database.value.text != [];
                  && (r == Err(NoDatabase) <==> database.None?)
                  && (r == Err(DatabaseNotText) <==> database.Some? && !named)
                  && (r == Err(NoCommand) <==> named && command.Remove("$db").fields == [])
                  && (r == Err(Unencodable) <==>
                        named && command.Remove("$db").fields != [] && c.encode(command.Remove("$db")).None?))
  {
    FlagsKnown(U32At(message, 16));
    SectionsIf(c, message, 20, false, sections);
    OneBody(sections);
    hide SectionsAt, AreSections, OtherFlags, MoreToCome, I32At, U32At, Overlaid, BodyOf, Bodies;
    hide Document.Get, Document.Remove;
  }

  // ---- documents and sequences

  /** A document is refused for the first of these: no length to read, a length too short for one, a
      length past the end, bytes that do not decode. */
  lemma {:induction false} RefusesDocuments(c: Codec, message: seq<Byte>, position: nat, end: nat)
    requires end <= |message|
    ensures var r := DocumentAt(c, message, position, end);
            && (r == Err(Truncated) <==> |message| < position + 4)
            && (|message| >= position + 4 ==>
                  var length := I32At(message, position);
                  && (r == Err(BadDocumentLength) <==> length < 5)
                  && (r == Err(DocumentOverruns) <==> length >= 5 && end - position < length)
                  && (r == Err(BadDocument) <==>
                        && 5 <= length <= end - position
                        && forall document :: c.decode(message[position..position + length]) != Some(document)))
  {
  }

  lemma {:induction false} NoZero(message: seq<Byte>, from: nat, end: nat)
    requires from <= end <= |message|
    ensures ZeroIn(message, from, end).None? <==> 0 !in message[from..end]
  {
    var found := ZeroIn(message, from, end);
    if found.Some? {
      assert message[from..end][found.value - from] == 0;
    }
  }

  /** A sequence is refused for its length first. */
  lemma {:induction false} RefusesSequences(c: Codec, message: seq<Byte>, start: nat)
    ensures var r := SequenceAt(c, message, start);
            && (|message| < start + 4 ==> r == Err(Truncated))
            && (|message| >= start + 4 ==>
                  var length := I32At(message, start);
                  && (r == Err(BadSequenceLength) <==> length < 5)
                  && (r == Err(SequenceOverruns) <==> length >= 5 && |message| - start < length)
                  && (5 <= length <= |message| - start ==>
                        (r == Err(NoIdentifierEnd) <==> 0 !in message[start + 4..start + length])))
  {
    hide DocumentsAt, ZeroIn, I32At;
    if start + 4 <= |message| && 5 <= I32At(message, start) <= |message| - start {
      var end := start + I32At(message, start);
      NoZero(message, start + 4, end);
      var nul := ZeroIn(message, start + 4, end);
      if nul.Some? {
        DocumentsErrors(c, message, nul.value + 1, end);
      }
    }
  }

  /** Then for its identifier, which runs to the first zero; and only then for a document in it. */
  lemma {:induction false} RefusesIdentifiers(c: Codec, message: seq<Byte>, start: nat, nul: nat)
    requires start + 4 <= nul < |message| && 5 <= I32At(message, start) <= |message| - start
    requires nul < start + I32At(message, start) && message[nul] == 0 && 0 !in message[start + 4..nul]
    ensures var r, name := SequenceAt(c, message, start), c.utf8(message[start + 4..nul]);
            && (r == Err(IdentifierNotUtf8) <==> name.None?)
            && (r == Err(EmptyIdentifier) <==> name == Some([]))
            && (name.Some? && name.value != [] ==>
                  var documents := DocumentsAt(c, message, nul + 1, start + I32At(message, start));
                  documents.Err? ==> r == Err(documents.error))
  {
    hide SequenceAt, ZeroIn, I32At, DocumentsAt;
    var end := start + I32At(message, start);
    ZeroExact(message, start + 4, end, nul);
    PastIdentifier(c, message, start, nul);
    DocumentsErrors(c, message, nul + 1, end);
  }

  lemma {:induction false} PastIdentifier(c: Codec, message: seq<Byte>, start: nat, nul: nat)
    requires start + 4 <= |message| && 5 <= I32At(message, start) <= |message| - start
    requires ZeroIn(message, start + 4, start + I32At(message, start)) == Some(nul)
    ensures var r, name := SequenceAt(c, message, start), c.utf8(message[start + 4..nul]);
            if name.None? then r == Err(IdentifierNotUtf8)
            else if name.value == [] then r == Err(EmptyIdentifier)
            else
              match DocumentsAt(c, message, nul + 1, start + I32At(message, start))
              case Err(error) => r == Err(error)
              case Ok(_) => r.Ok?
  {
    hide ZeroIn, I32At, DocumentsAt;
  }

  // ---- an OP_QUERY

  predicate IsQueryHeader(message: seq<Byte>) {
    |message| >= 21 && I32At(message, 0) == |message| && I32At(message, 12) == OP_QUERY
  }

  /** The name must end, be text, and be some database's `$cmd`; an empty database is told apart. */
  lemma {:induction false} RefusesNames(c: Codec, message: seq<Byte>, nul: nat, collection: string)
    requires IsQueryHeader(message)
    ensures var r := Parsed(c, message);
            && (r == Err(NoCollectionEnd) <==> 0 !in message[20..])
            && (20 <= nul < |message| && message[nul] == 0 && 0 !in message[20..nul] ==>
                  && (r == Err(CollectionNotUtf8) <==> c.utf8(message[20..nul]).None?)
                  && (r == Err(EmptyDatabase) <==> c.utf8(message[20..nul]) == Some(".$cmd"))
                  && (r == Err(NotACommand(collection)) <==>
                        && c.utf8(message[20..nul]) == Some(collection)
                        && forall database | '.' !in database :: collection != database + ".$cmd"))
  {
    NoZero(message, 20, |message|);
    assert message[20..] == message[20..|message|];
    hide ZeroIn, Dot, DocumentAt, I32At, QueryOf;
    if ZeroIn(message, 20, |message|).Some? {
      NamedErrors(c, message, ZeroIn(message, 20, |message|).value);
    } else {
      NamelessErrors(c, message);
    }
    if 20 <= nul < |message| && message[nul] == 0 && 0 !in message[20..nul] {
      ZeroExact(message, 20, |message|, nul);
      NameErrors(c, message, nul, collection);
    }
  }

  lemma {:induction false} NamelessErrors(c: Codec, message: seq<Byte>)
    requires |message| >= 21 && ZeroIn(message, 20, |message|).None?
    ensures QueryOf(c, message, I32At(message, 4)) == Err(NoCollectionEnd)
  {
    hide ZeroIn, I32At;
  }

  lemma {:induction false} NamedErrors(c: Codec, message: seq<Byte>, nul: nat)
    requires |message| >= 21 && ZeroIn(message, 20, |message|) == Some(nul)
    ensures QueryOf(c, message, I32At(message, 4)) != Err(NoCollectionEnd)
  {
    DocumentErrors(c, message, nul + 9, |message|);
    hide ZeroIn, I32At, Dot, DocumentAt;
  }

  lemma {:induction false} NameErrors(c: Codec, message: seq<Byte>, nul: nat, collection: string)
    requires |message| >= 21 && ZeroIn(message, 20, |message|) == Some(nul)
    ensures var r, name := QueryOf(c, message, I32At(message, 4)), c.utf8(message[20..nul]);
            && (r == Err(CollectionNotUtf8) <==> name.None?)
            && (r == Err(EmptyDatabase) <==> name == Some(".$cmd"))
            && (r == Err(NotACommand(collection)) <==>
                  name == Some(collection) && forall database | '.' !in database :: collection != database + ".$cmd")
  {
    hide QueryOf, ZeroIn, I32At, Dot;
    PastName(c, message, nul);
    if c.utf8(message[20..nul]).Some? {
      SplitsName(c.utf8(message[20..nul]).value);
    }
  }

  /** What the name alone decides. */
  lemma {:induction false} PastName(c: Codec, message: seq<Byte>, nul: nat)
    requires |message| >= 21 && ZeroIn(message, 20, |message|) == Some(nul)
    ensures var r, name := QueryOf(c, message, I32At(message, 4)), c.utf8(message[20..nul]);
            if name.None? then r == Err(CollectionNotUtf8)
            else
              var dot := Dot(name.value);
              if dot == |name.value| || name.value[dot + 1..] != "$cmd" then r == Err(NotACommand(name.value))
              else if dot == 0 then r == Err(EmptyDatabase)
              else r.Err? ==> !r.error.CollectionNotUtf8? && !r.error.NotACommand? && !r.error.EmptyDatabase?
  {
    DocumentErrors(c, message, nul + 9, |message|);
    hide ZeroIn, I32At, Dot, DocumentAt;
  }

  /** When a name is split as the parser splits it. */
  lemma {:induction false} SplitsName(collection: string)
    ensures var dot := Dot(collection);
            && ((dot == |collection| || collection[dot + 1..] != "$cmd") <==>
                  forall database | '.' !in database :: collection != database + ".$cmd")
            && (dot < |collection| && collection[dot + 1..] == "$cmd" && dot == 0 <==> collection == ".$cmd")
  {
    var dot := Dot(collection);
    if dot < |collection| && collection[dot + 1..] == "$cmd" {
      assert collection == collection[..dot] + [collection[dot]] + collection[dot + 1..];
      assert '.' !in collection[..dot] && collection == collection[..dot] + ".$cmd";
    }
    forall database | '.' !in database && collection == database + ".$cmd"
      ensures dot == |database| && collection[dot + 1..] == "$cmd"
    {
      assert collection[|database|] == '.';
      assert forall j | 0 <= j < |database| :: collection[j] == database[j];
    }
    if collection == ".$cmd" {
      assert '.' !in "" && collection == "" + ".$cmd";
    }
  }

  /** Past its name, a query is refused for its document, for anything after it, or for naming no
      command. */
  lemma {:induction false} RefusesQueries(c: Codec, message: seq<Byte>, nul: nat, database: string)
    requires IsQueryHeader(message) && 20 <= nul < |message| && message[nul] == 0 && 0 !in message[20..nul]
    requires c.utf8(message[20..nul]).Some? && Addresses(c.utf8(message[20..nul]).value, database)
    ensures var r, read := Parsed(c, message), DocumentAt(c, message, nul + 9, |message|);
            && (read.Err? ==> r == Err(read.error))
            && (read.Ok? ==>
                  var (command, end) := read.value;
                  && (r == Err(SecondDocument) <==> end < |message|)
                  && (r == Err(NoCommand) <==> end == |message| && command.fields == [])
                  && (r == Err(Unencodable) <==>
                        end == |message| && command.fields != [] && c.encode(command).None?))
  {
    ZeroExact(message, 20, |message|, nul);
    DotSplits(c.utf8(message[20..nul]).value, database);
    hide ZeroIn, Dot, DocumentAt, I32At, Addresses;
  }
}
