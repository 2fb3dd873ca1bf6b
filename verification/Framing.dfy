/** A byte stream cut into messages, and the frames replies are sent in. */
module Framing {
  import opened Options
  import opened Bytes

  const OP_REPLY: I32 := 1
  const OP_MSG: I32 := 2013
  const HEADER_LENGTH: nat := 16

  // ---- messages out of a stream

  /** The messages a stream holds, what is left over, and whether what is left over can never be
      one. */
  datatype Split = Split(messages: seq<seq<Byte>>, rest: seq<Byte>, bad: bool)

  function SplitAll(bytes: seq<Byte>): Split
    decreases |bytes|
  {
    if |bytes| < 4 then Split([], bytes, false)
    else
      var length := I32At(bytes, 0);
      if length < HEADER_LENGTH then Split([], bytes, true)
      else if |bytes| < length then Split([], bytes, false)
      else
        var more := SplitAll(bytes[length..]);
        more.(messages := [bytes[..length]] + more.messages)
  }

  function Concat(pieces: seq<seq<Byte>>): seq<Byte>
    decreases |pieces|
  {
    if pieces == [] then [] else pieces[0] + Concat(pieces[1..])
  }

  /** A whole message lies at the front. */
  predicate Whole(bytes: seq<Byte>) {
    |bytes| >= 4 && HEADER_LENGTH <= I32At(bytes, 0) <= |bytes|
  }

  lemma {:induction false} SplitOne(bytes: seq<Byte>)
    ensures Whole(bytes) ==>
              var length, more := I32At(bytes, 0), SplitAll(bytes[I32At(bytes, 0)..]);
              && SplitAll(bytes) == more.(messages := [bytes[..length]] + more.messages)
              && I32At(bytes[..length], 0) == length
    ensures !Whole(bytes) ==>
              SplitAll(bytes) == Split([], bytes, |bytes| >= 4 && I32At(bytes, 0) < HEADER_LENGTH)
  {
    if Whole(bytes) {
      I32Within(bytes, 0, 0, I32At(bytes, 0));
    }
  }

  /** Nothing is lost or reordered, and what is left is no whole message. */
  lemma {:induction false} SplitTiles(bytes: seq<Byte>)
    ensures var s := SplitAll(bytes);
            && Concat(s.messages) + s.rest == bytes
            && !Whole(s.rest)
            && (s.bad <==> |s.rest| >= 4 && I32At(s.rest, 0) < HEADER_LENGTH)
    decreases |bytes|
  {
    SplitOne(bytes);
    hide I32At, SplitAll;
    if Whole(bytes) {
      var length := I32At(bytes, 0);
      SplitTiles(bytes[length..]);
      var more := SplitAll(bytes[length..]);
      assert SplitAll(bytes).messages[1..] == more.messages;
      assert bytes == bytes[..length] + (Concat(more.messages) + more.rest);
    }
  }

  /** Each message says its own length. */
  lemma {:induction false} SplitMeasures(bytes: seq<Byte>, i: nat)
    ensures var messages := SplitAll(bytes).messages;
            i < |messages| ==> |messages[i]| >= HEADER_LENGTH && I32At(messages[i], 0) == |messages[i]|
    decreases |bytes|
  {
    SplitOne(bytes);
    hide I32At, SplitAll;
    if Whole(bytes) && i > 0 {
      SplitMeasures(bytes[I32At(bytes, 0)..], i - 1);
    }
  }

  lemma {:induction false} I32Prefix(a: seq<Byte>, b: seq<Byte>)
    requires |a| >= 4
    ensures I32At(a + b, 0) == I32At(a, 0)
  {
  }

  lemma {:induction false} WholeStays(a: seq<Byte>, b: seq<Byte>)
    requires Whole(a)
    ensures var length := I32At(a, 0);
            && Whole(a + b) && I32At(a + b, 0) == length
            && (a + b)[..length] == a[..length] && (a + b)[length..] == a[length..] + b
  {
    I32Prefix(a, b);
  }

  function Onto(before: seq<seq<Byte>>, split: Split): Split { split.(messages := before + split.messages) }

  lemma {:induction false} OntoTwice(one: seq<seq<Byte>>, two: seq<seq<Byte>>, split: Split)
    ensures Onto(one, Onto(two, split)) == Onto(one + two, split)
    ensures Onto([], split) == split
  {
    assert one + (two + split.messages) == one + two + split.messages;
    assert [] + split.messages == split.messages;
  }

  /** Splitting can stop and go on: what arrives later is split together with what was left. */
  lemma {:induction false} SplitMore(a: seq<Byte>, b: seq<Byte>)
    ensures var first := SplitAll(a);
            SplitAll(a + b) == Onto(first.messages, SplitAll(first.rest + b))
    decreases |a|
  {
    SplitOne(a);
    SplitOne(a + b);
    hide I32At, SplitAll, Onto;
    if Whole(a) {
      WholeStays(a, b);
      var length := I32At(a, 0);
      var own := SplitAll(a[length..]);
      hide Whole;
      SplitMore(a[length..], b);
      Unfolded(a);
      Unfolded(a + b);
      OntoTwice([a[..length]], own.messages, SplitAll(own.rest + b));
    } else {
      OntoTwice([], [], SplitAll(a + b));
    }
  }

  lemma {:induction false} Unfolded(bytes: seq<Byte>)
    requires Whole(bytes)
    ensures var length := I32At(bytes, 0);
            SplitAll(bytes) == Onto([bytes[..length]], SplitAll(bytes[length..]))
  {
    SplitOne(bytes);
  }

  /** A connection taking in chunks. */
  class Intake {
    var pending: seq<Byte>
    var messages: seq<seq<Byte>>
    var destroyed: bool

    constructor ()
      ensures pending == [] && messages == [] && !destroyed
    {
      pending, messages, destroyed := [], [], false;
    }

    method OnData(chunk: seq<Byte>)
      modifies this
      ensures var split := SplitAll(old(pending) + chunk);
              && messages == old(messages) + split.messages
              && pending == split.rest
              && destroyed == (old(destroyed) || split.bad)
    {
      pending := if |pending| == 0 then chunk else pending + chunk;
      assert pending == old(pending) + chunk;
      ghost var all := SplitAll(pending);
      ghost var taken: seq<seq<Byte>> := [];
      OntoTwice([], [], all);
      hide SplitAll, I32At, Onto;
      while |pending| >= 4
        invariant messages == old(messages) + taken && destroyed == old(destroyed)
        invariant all == Onto(taken, SplitAll(pending))
        decreases |pending|
      {
        var length := I32At(pending, 0);
        if length < HEADER_LENGTH {
          destroyed := true;
          LeftOver(taken, pending);
          return;
        }
        if |pending| < length {
          break;
        }
        Unfolded(pending);
        OntoTwice(taken, [pending[..length]], SplitAll(pending[length..]));
        taken := taken + [pending[..length]];
        messages := messages + [pending[..length]];
        pending := pending[length..];
      }
      LeftOver(taken, pending);
    }
  }

  lemma {:induction false} LeftOver(taken: seq<seq<Byte>>, pending: seq<Byte>)
    requires !Whole(pending)
    ensures Onto(taken, SplitAll(pending)) ==
            Split(taken, pending, |pending| >= 4 && I32At(pending, 0) < HEADER_LENGTH)
  {
    SplitOne(pending);
    assert taken + [] == taken;
  }

  /** What a connection holds after chunks, one event each. */
  function Fed(chunks: seq<seq<Byte>>): Split
    decreases |chunks|
  {
    if chunks == [] then Split([], [], false)
    else
      var before := Fed(chunks[..|chunks| - 1]);
      var now := SplitAll(before.rest + chunks[|chunks| - 1]);
      Split(before.messages + now.messages, now.rest, before.bad || now.bad)
  }

  lemma {:induction false} ConcatLast(pieces: seq<seq<Byte>>)
    requires pieces != []
    ensures Concat(pieces) == Concat(pieces[..|pieces| - 1]) + pieces[|pieces| - 1]
    decreases |pieces|
  {
    if |pieces| > 1 {
      ConcatLast(pieces[1..]);
      assert pieces[1..][..|pieces| - 2] == pieces[..|pieces| - 1][1..];
    }
  }

  /** However a stream is cut into chunks, the same messages come out of it, the same is left over,
      and it is given up for the same reason. */
  lemma {:induction false} ChunksDoNotMatter(chunks: seq<seq<Byte>>)
    ensures Fed(chunks) == SplitAll(Concat(chunks))
    decreases |chunks|
  {
    if chunks != [] {
      var n := |chunks| - 1;
      ChunksDoNotMatter(chunks[..n]);
      ConcatLast(chunks);
      var before := Concat(chunks[..n]);
      SplitMore(before, chunks[n]);
      BadStaysBad(SplitAll(before).rest, chunks[n]);
      SplitTiles(before);
    }
  }

  lemma {:induction false} BadStaysBad(rest: seq<Byte>, more: seq<Byte>)
    ensures |rest| >= 4 && I32At(rest, 0) < HEADER_LENGTH ==> SplitAll(rest + more) == Split([], rest + more, true)
  {
  }

  // ---- frames for replies

  /** What a reply frame is to hold, whichever kind it is. */
  function Frame(legacy: bool, replyId: I32, requestId: I32, body: seq<Byte>): seq<Byte>
    requires FrameLength(legacy, body) <= I32_MAX
  {
    Header(FrameLength(legacy, body), replyId, requestId, if legacy then OP_REPLY else OP_MSG)
    + ((if legacy then Le32(0) + Le32(0) + Le32(0) + Le32(0) + Le32(1) else Le32(0) + [0]) + body)
  }

  function FrameLength(legacy: bool, body: seq<Byte>): nat {
    HEADER_LENGTH + (if legacy then 20 else 5) + |body|
  }

  lemma {:induction false} FrameReads(legacy: bool, replyId: I32, requestId: I32, body: seq<Byte>)
    requires FrameLength(legacy, body) <= I32_MAX
    ensures var frame := Frame(legacy, replyId, requestId, body);
            && |frame| == FrameLength(legacy, body) && I32At(frame, 0) == |frame|
            && I32At(frame, 4) == replyId && I32At(frame, 8) == requestId
            && I32At(frame, 12) == (if legacy then OP_REPLY else OP_MSG)
            && frame[16..|frame| - |body|] == Words(legacy) && frame[|frame| - |body|..] == body
  {
    var middle := if legacy then Le32(0) + Le32(0) + Le32(0) + Le32(0) + Le32(1) else Le32(0) + [0];
    HeaderReads(FrameLength(legacy, body), replyId, requestId, if legacy then OP_REPLY else OP_MSG, middle + body);
    assert middle == Words(legacy);
    hide Header, I32At, Words, Le32;
    var head := Header(FrameLength(legacy, body), replyId, requestId, if legacy then OP_REPLY else OP_MSG);
    ThreeParts(head, middle, body);
  }

  lemma {:induction false} ThreeParts(head: seq<Byte>, middle: seq<Byte>, body: seq<Byte>)
    ensures var all := head + (middle + body);
            all[|head|..|all| - |body|] == middle && all[|all| - |body|..] == body
  {
  }

  /** What stands between the header and the body: for an OP_REPLY no flags, no cursor, starting from
      nothing, one document; for an OP_MSG no flags and the kind of a body. */
  function Words(legacy: bool): seq<Byte> {
    if legacy then [0, 0, 0, 0] + [0, 0, 0, 0, 0, 0, 0, 0] + [0, 0, 0, 0] + [1, 0, 0, 0] else [0, 0, 0, 0] + [0]
  }

  /** There is a frame if and only if its length and its number fit 32 bits, and it is an OP_REPLY if
      and only if the request was an OP_QUERY. */
  lemma {:induction false} FramedIff(legacy: bool, replyId: nat, requestId: I32, body: seq<Byte>)
    ensures var frame := Framed(legacy, replyId, requestId, body);
            && (frame.Some? <==> |body| + (if legacy then 36 else 21) < 0x8000_0000 && replyId < 0x8000_0000)
            && (frame.Some? ==>
                  && |frame.value| == |body| + (if legacy then 36 else 21)
                  && (I32At(frame.value, 12) == 1 <==> legacy) && (I32At(frame.value, 12) == 2013 <==> !legacy))
  {
    if FrameLength(legacy, body) <= I32_MAX && replyId <= I32_MAX {
      FrameReads(legacy, replyId, requestId, body);
    }
    hide Frame, I32At, Words;
  }

  method WriteInt32LE(frame: array<Byte>, value: I32, offset: nat)
    requires offset + 4 <= frame.Length
    modifies frame
    ensures frame[..] == old(frame[..offset]) + Le32(value) + old(frame[offset + 4..])
  {
    FourBytes(Unsigned(value));
    var bytes := Le32(value);
    frame[offset], frame[offset + 1], frame[offset + 2], frame[offset + 3] := bytes[0], bytes[1], bytes[2], bytes[3];
  }

  method Copy(body: seq<Byte>, frame: array<Byte>, offset: nat)
    requires offset + |body| == frame.Length
    modifies frame
    ensures frame[..] == old(frame[..offset]) + body
  {
    for i := 0 to |body|
      invariant frame[..offset] == old(frame[..offset])
      invariant frame[offset..offset + i] == body[..i]
    {
      frame[offset + i] := body[i];
    }
  }

  /** Writes on behind what is written. */
  method Append(frame: array<Byte>, value: I32, offset: nat, ghost done: seq<Byte>)
    requires 12 <= offset && offset + 4 <= frame.Length && frame[12..offset] == done
    modifies frame
    ensures frame[12..offset + 4] == done + Le32(value)
  {
    WriteInt32LE(frame, value, offset);
    hide Le32;
    ghost var all := frame[..];
    assert all[12..offset] == done;
    assert frame[12..offset + 4] == all[12..offset] + all[offset..offset + 4];
  }

  /** All but the length and the ids, which are filled in afterwards. */
  method MsgFrame(body: seq<Byte>) returns (frame: array<Byte>)
    ensures fresh(frame) && frame.Length == FrameLength(false, body)
    ensures frame[12..] == Le32(OP_MSG) + Le32(0) + [0] + body
  {
    frame := new Byte[HEADER_LENGTH + 5 + |body|];
    hide Le32;
    Append(frame, OP_MSG, 12, []);
    Append(frame, 0, 16, Le32(OP_MSG));
    ghost var done := frame[12..20];
    frame[20] := 0;
    assert frame[12..21] == done + [0];
    ghost var all := frame[..21];
    Copy(body, frame, HEADER_LENGTH + 5);
    assert frame[12..] == all[12..] + body;
  }

  method ReplyFrame(body: seq<Byte>) returns (frame: array<Byte>)
    ensures fresh(frame) && frame.Length == FrameLength(true, body)
    ensures frame[12..] == Le32(OP_REPLY) + Le32(0) + Le32(0) + Le32(0) + Le32(0) + Le32(1) + body
  {
    frame := new Byte[HEADER_LENGTH + 20 + |body|];
    hide Le32;
    Append(frame, OP_REPLY, 12, []);
    Append(frame, 0, 16, Le32(OP_REPLY));
    Append(frame, 0, 20, Le32(OP_REPLY) + Le32(0));
    Append(frame, 0, 24, Le32(OP_REPLY) + Le32(0) + Le32(0));
    Append(frame, 0, 28, Le32(OP_REPLY) + Le32(0) + Le32(0) + Le32(0));
    Append(frame, 1, 32, Le32(OP_REPLY) + Le32(0) + Le32(0) + Le32(0) + Le32(0));
    ghost var all := frame[..36];
    assert all[12..] == frame[12..36];
    Copy(body, frame, HEADER_LENGTH + 20);
    assert frame[12..] == all[12..] + body;
  }

  /** The length and the ids. */
  method FillIn(frame: array<Byte>, replyId: I32, requestId: I32)
    requires 12 <= frame.Length <= I32_MAX
    modifies frame
    ensures frame[..] == Le32(frame.Length) + Le32(replyId) + Le32(requestId) + old(frame[12..])
  {
    hide Le32;
    WriteInt32LE(frame, frame.Length, 0);
    WriteInt32LE(frame, replyId, 4);
    WriteInt32LE(frame, requestId, 8);
  }

  lemma {:induction false} FrameParts(legacy: bool, replyId: I32, requestId: I32, body: seq<Byte>)
    requires FrameLength(legacy, body) <= I32_MAX
    ensures Frame(legacy, replyId, requestId, body) ==
            Le32(FrameLength(legacy, body)) + Le32(replyId) + Le32(requestId)
            + if legacy then Le32(OP_REPLY) + Le32(0) + Le32(0) + Le32(0) + Le32(0) + Le32(1) + body
              else Le32(OP_MSG) + Le32(0) + [0] + body
  {
    hide Le32;
  }

  /** The whole frame; none if its length or its id does not fit the field it goes in. */
  method Answer(legacy: bool, replyId: nat, requestId: I32, body: seq<Byte>) returns (frame: Option<seq<Byte>>)
    ensures frame == Framed(legacy, replyId, requestId, body)
  {
    hide Le32, Frame;
    var buffer: array<Byte>;
    if legacy {
      buffer := ReplyFrame(body);
    } else {
      buffer := MsgFrame(body);
    }
    if buffer.Length > I32_MAX || replyId > I32_MAX {
      return None;
    }
    FrameParts(legacy, replyId, requestId, body);
    FillIn(buffer, replyId, requestId);
    return Some(buffer[..]);
  }

  function Framed(legacy: bool, replyId: nat, requestId: I32, body: seq<Byte>): Option<seq<Byte>> {
    if FrameLength(legacy, body) <= I32_MAX && replyId <= I32_MAX then Some(Frame(legacy, replyId, requestId, body))
    else None
  }
}
