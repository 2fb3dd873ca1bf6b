/** The file that says a directory has had its pass. */
module Marker {
  import opened Options

  const RECORD := "embedded-mongodb index repair v1"

  /** A file is readable text, or not readable as text at all. */
  datatype File = Text(text: string) | Garbled

  /** The first line, as `lines` cuts it: to a line feed, with a carriage return before it dropped,
      or to the end. */
  function FirstLine(text: string): Option<string> {
    if text == [] then None
    else
      var n := LineFeed(text);
      if n < |text| && n > 0 && text[n - 1] == '\r' then Some(text[..n - 1]) else Some(text[..n])
  }

  function LineFeed(text: string): (n: nat)
    ensures n <= |text|
    ensures n < |text| ==> text[n] == '\n'
    ensures forall i | 0 <= i < n :: text[i] != '\n'
  {
    if text == [] || text[0] == '\n' then 0 else 1 + LineFeed(text[1..])
  }

  /** Anything but a first line this build writes is no record. */
  predicate Recorded(file: Option<File>) {
    file.Some? && file.value.Text? && FirstLine(file.value.text) == Some(RECORD)
  }

  lemma {:induction false} LineFeedAt(line: string, rest: string)
    requires '\n' !in line
    ensures LineFeed(line + "\n" + rest) == |line| && LineFeed(line) == |line|
  {
    var text := line + "\n" + rest;
    assert text[|line|] == '\n';
    assert forall i | 0 <= i < |line| :: text[i] == line[i];
  }

  /** A line with nothing to confuse it with its end. */
  predicate Plain(line: string) { line != [] && '\n' !in line && '\r' !in line }

  /** The first line of a text is `line` exactly when the text is that alone, or that ended as either
      system ends one and then anything. */
  lemma {:induction false} FirstLineMeans(text: string, line: string)
    requires Plain(line)
    ensures FirstLine(text) == Some(line) <==>
            text == line || (exists rest :: text == line + "\n" + rest) || (exists rest :: text == line + "\r\n" + rest)
  {
    if FirstLine(text) == Some(line) {
      FirstLineThen(text, line);
    }
    if text == line {
      LineFeedAt(line, "");
      assert text[..|line|] == line;
    }
    forall rest | text == line + "\n" + rest
      ensures FirstLine(text) == Some(line)
    {
      LineFeedAt(line, rest);
      assert text[..|line|] == line && text[|line| - 1] == line[|line| - 1];
    }
    forall rest | text == line + "\r\n" + rest
      ensures FirstLine(text) == Some(line)
    {
      assert text == (line + "\r") + "\n" + rest;
      LineFeedAt(line + "\r", rest);
      assert text[..|line|] == line && text[|line|] == '\r';
    }
  }

  lemma {:induction false} FirstLineThen(text: string, line: string)
    requires Plain(line) && FirstLine(text) == Some(line)
    ensures text == line || (exists rest :: text == line + "\n" + rest) || (exists rest :: text == line + "\r\n" + rest)
  {
    var n := LineFeed(text);
    if n == |text| {
      assert text[..n] == text;
    } else if n > 0 && text[n - 1] == '\r' {
      assert text == text[..n - 1] + "\r\n" + text[n + 1..];
    } else {
      assert text == text[..n] + "\n" + text[n + 1..];
    }
  }

  /** So a file is a record exactly when it is readable and its first line is the record's. */
  lemma {:induction false} RecordedMeans(text: string)
    ensures Recorded(Some(Text(text))) <==>
            || text == RECORD || (exists rest :: text == RECORD + "\n" + rest)
            || (exists rest :: text == RECORD + "\r\n" + rest)
    ensures !Recorded(Some(Garbled)) && !Recorded(None)
  {
    RecordIsPlain();
    hide FirstLine;
    FirstLineMeans(text, RECORD);
  }

  /** What is written, `explanation` being any prose. */
  function Full(explanation: string): string { RECORD + "\n" + explanation }

  lemma {:induction false} RecordIsPlain()
    ensures |RECORD| == 32 && '\n' !in RECORD && '\r' !in RECORD
  {
    assert |RECORD| == 32;
  }

  /** What a file cut short reads as. It is a record exactly when the cut is past the first line's
      last letter: the line feed is not needed. So the file must never be read while short. */
  lemma {:induction false} CutShort(explanation: string, n: nat)
    requires n <= |Full(explanation)|
    ensures Recorded(Some(Text(Full(explanation)[..n]))) <==> n >= |RECORD|
  {
    var text := Full(explanation)[..n];
    RecordIsPlain();
    if n <= |RECORD| {
      assert text == RECORD[..n];
      assert '\n' !in text;
      assert LineFeed(text) == n;
      assert text[..n] == text;
      assert n > 0 ==> FirstLine(text) == Some(text);
      assert n == |RECORD| ==> text == RECORD;
      assert n < |RECORD| ==> |text| != |RECORD|;
    } else {
      assert text[|RECORD|] == '\n';
      assert forall i | 0 <= i < |RECORD| :: text[i] == RECORD[i];
      assert LineFeed(text) == |RECORD|;
      assert text[|RECORD| - 1] == RECORD[|RECORD| - 1];
      assert text[..|RECORD|] == RECORD;
    }
  }

  lemma {:induction false} FullIsRecorded(explanation: string)
    ensures Recorded(Some(Text(Full(explanation))))
  {
    CutShort(explanation, |Full(explanation)|);
    assert Full(explanation)[..|Full(explanation)|] == Full(explanation);
  }

  /** Which step of recording the file system fails, if any. */
  datatype Fault = NoFault | CreateFails | WriteFails(written: nat) | SyncFails | RenameFails

  /** The marker and the name it is written under first. */
  class Directory {
    var marker: Option<File>
    var partial: Option<File>

    method State() returns (recorded: bool)
      ensures recorded == Recorded(marker)
    {
      match marker {
        case Some(Text(text)) => recorded := FirstLine(text) == Some(RECORD);
        case _ => recorded := false;
      }
    }

    method WritePartial(explanation: string, fault: Fault) returns (ok: bool)
      modifies this`partial
      ensures ok <==> !(fault.CreateFails? || fault.WriteFails? || fault.SyncFails?)
      ensures ok ==> partial == Some(Text(Full(explanation)))
    {
      if fault.CreateFails? {
        return false;
      }
      partial := Some(Text(""));
      var text := Full(explanation);
      if fault.WriteFails? {
        partial := Some(Text(text[..if fault.written < |text| then fault.written else |text|]));
        return false;
      }
      partial := Some(Text(text));
      return !fault.SyncFails?;
    }

    /** The marker is there, whole, or it is as it was. */
    method Record(explanation: string, fault: Fault, cleans: bool) returns (ok: bool)
      modifies this
      ensures ok <==> fault.NoFault?
      ensures marker == if ok then Some(Text(Full(explanation))) else old(marker)
      ensures Recorded(marker) <==> ok || old(Recorded(marker))
      ensures fault.NoFault? || (cleans && !fault.RenameFails?) ==> partial == None
    {
      FullIsRecorded(explanation);
      ok := WritePartial(explanation, fault);
      if !ok {
        if cleans {
          partial := None;
        }
        return;
      }
      if fault.RenameFails? {
        return false;
      }
      marker, partial := partial, None;
    }
  }
}
