/** One connection served: chunks arrive, messages queue behind one another, the engine answers
    each in its own time, and the socket may be destroyed at any point. */
module Serving {
  import opened Options
  import opened Bytes
  import opened Framing

  /** What the engine makes of a message. */
  datatype Verdict =
    | Refused
    | Reply(requestId: I32, moreToCome: bool, legacy: bool, body: seq<Byte>)

  datatype Handled = Handled(message: seq<Byte>, verdict: Verdict)

  /** `stream` is every chunk there was; `served` the messages answered before the socket was
      destroyed, and `unserved` those answered to nobody, kept to speak about. */
  datatype Connection = Connection(
    intake: Split,
    stream: seq<seq<Byte>>,
    destroyed: bool,
    queue: seq<seq<Byte>>,
    running: Option<seq<Byte>>,
    replyId: nat,
    written: seq<seq<Byte>>,
    served: seq<Handled>,
    unserved: seq<Handled>)

  const INIT := Connection(Split([], [], false), [], false, [], None, 0, [], [], [])

  datatype Step =
    | Data(chunk: seq<Byte>)
    | Begin
    | Answered(verdict: Verdict)
    | Destroy

  predicate Enabled(s: Connection, step: Step) {
    match step
    case Data(_) => true
    case Begin => s.running.None? && s.queue != []
    case Answered(_) => s.running.Some?
    case Destroy => true
  }

  function Apply(s: Connection, step: Step): Connection
    requires Enabled(s, step)
  {
    match step
    case Data(chunk) => TakeIn(s, chunk)
    case Begin => s.(running := Some(s.queue[0]), queue := s.queue[1..])
    case Answered(verdict) => Settle(s, verdict)
    case Destroy => s.(destroyed := true)
  }

  /** Every message the chunk completes goes to the end of the queue; a length that cannot be one
      destroys the socket. */
  function TakeIn(s: Connection, chunk: seq<Byte>): Connection {
    var split := SplitAll(s.intake.rest + chunk);
    s.(intake := Split(s.intake.messages + split.messages, split.rest, s.intake.bad || split.bad),
       stream := s.stream + [chunk],
       queue := s.queue + split.messages,
       destroyed := s.destroyed || split.bad)
  }

  /** The engine is done with the message at the head of the chain. */
  function Settle(s: Connection, verdict: Verdict): Connection
    requires s.running.Some?
  {
    var handled := Handled(s.running.value, verdict);
    var rest := s.(running := None);
    match verdict
    case Refused => rest.(destroyed := true, unserved := s.unserved + [handled])
    case Reply(requestId, moreToCome, legacy, body) =>
      if s.destroyed then rest.(unserved := s.unserved + [handled])
      else if moreToCome then rest.(served := s.served + [handled])
      else
        var replyId := s.replyId + 1;
        match Framed(legacy, replyId, requestId, body)
        case None =>
          rest.(replyId := if FrameLength(legacy, body) <= I32_MAX then replyId else s.replyId,
                destroyed := true, unserved := s.unserved + [handled])
        case Some(frame) => rest.(replyId := replyId, written := s.written + [frame], served := s.served + [handled])
  }

  function Execute(s: Connection, steps: seq<Step>): Connection
    decreases |steps|
  {
    if steps == [] then s else Execute(if Enabled(s, steps[0]) then Apply(s, steps[0]) else s, steps[1..])
  }

  // ---- what a connection keeps

  function Messages(handled: seq<Handled>): seq<seq<Byte>> {
    seq(|handled|, i requires 0 <= i < |handled| => handled[i].message)
  }

  /** The requests that want a reply, in order. */
  function Wanting(handled: seq<Handled>): (r: seq<Handled>)
    ensures forall i | 0 <= i < |r| :: r[i].verdict.Reply?
    decreases |handled|
  {
    if handled == [] then []
    else
      var last := handled[|handled| - 1];
      Wanting(handled[..|handled| - 1]) + if last.verdict.Reply? && !last.verdict.moreToCome then [last] else []
  }

  /** The `i`th frame answers the `i`th request that wants one, and is numbered from one. */
  predicate Answers(written: seq<seq<Byte>>, wanting: seq<Handled>)
    requires forall i | 0 <= i < |wanting| :: wanting[i].verdict.Reply?
  {
    && |written| == |wanting|
    && forall i | 0 <= i < |written| ::
         var v := wanting[i].verdict;
         Framed(v.legacy, i + 1, v.requestId, v.body) == Some(written[i])
  }

  predicate Inv(s: Connection) {
    && s.intake == Fed(s.stream)
    && s.intake.messages ==
       Messages(s.served) + Messages(s.unserved) + (if s.running.Some? then [s.running.value] else []) + s.queue
    && Answers(s.written, Wanting(s.served))
    && (s.unserved != [] || s.intake.bad ==> s.destroyed)
    && (!s.destroyed ==> s.replyId == |s.written|)
  }

  lemma {:induction false} MessagesLast(handled: seq<Handled>, last: Handled)
    ensures Messages(handled + [last]) == Messages(handled) + [last.message]
  {
  }

  lemma {:induction false} KeepsData(s: Connection, chunk: seq<Byte>)
    requires Inv(s)
    ensures Inv(TakeIn(s, chunk))
  {
    hide SplitAll, Answers, Wanting, Messages;
    var stream := s.stream + [chunk];
    assert stream[..|s.stream|] == s.stream;
  }

  lemma {:induction false} WantingLast(handled: seq<Handled>, last: Handled)
    ensures Wanting(handled + [last]) ==
            Wanting(handled) + if last.verdict.Reply? && !last.verdict.moreToCome then [last] else []
  {
    assert (handled + [last])[..|handled|] == handled;
  }

  lemma {:induction false} KeepsSettle(s: Connection, verdict: Verdict)
    requires Inv(s) && s.running.Some?
    ensures Inv(Settle(s, verdict))
  {
    hide Fed, Messages, Wanting, Framed;
    var handled := Handled(s.running.value, verdict);
    MessagesLast(s.served, handled);
    MessagesLast(s.unserved, handled);
    WantingLast(s.served, handled);
    NoMessages();
    var s' := Settle(s, verdict);
    if s'.unserved == s.unserved {
      assert s.unserved == [];
      assert Messages(s.served) + [] + [handled.message] + s.queue
          == Messages(s.served) + [handled.message] + [] + [] + s.queue;
    } else {
      assert Messages(s.served) + Messages(s.unserved) + [handled.message] + s.queue
          == Messages(s.served) + (Messages(s.unserved) + [handled.message]) + [] + s.queue;
    }
  }

  lemma {:induction false} NoMessages()
    ensures Messages([]) == []
  {
  }

  lemma {:induction false} Kept(s: Connection, step: Step)
    requires Inv(s) && Enabled(s, step)
    ensures Inv(Apply(s, step))
  {
    hide Fed, Messages, Wanting, Answers, TakeIn, Settle;
    match step
    case Data(chunk) => KeepsData(s, chunk);
    case Answered(verdict) => KeepsSettle(s, verdict);
    case Begin =>
      var before := Messages(s.served) + Messages(s.unserved);
      assert before + [] + s.queue == before + [s.queue[0]] + s.queue[1..];
    case Destroy =>
  }

  lemma {:induction false} Always(s: Connection, steps: seq<Step>)
    requires Inv(s)
    ensures Inv(Execute(s, steps))
    decreases |steps|
  {
    hide Inv, Apply, Enabled;
    if steps != [] {
      if Enabled(s, steps[0]) {
        Kept(s, steps[0]);
        Always(Apply(s, steps[0]), steps[1..]);
      } else {
        Always(s, steps[1..]);
      }
    }
  }

  lemma {:induction false} Holds(steps: seq<Step>)
    ensures Inv(Execute(INIT, steps))
  {
    hide Execute;
    assert Inv(INIT);
    Always(INIT, steps);
  }

  /** In every run: the messages are those of the stream, however it came; the ones the engine has
      had are the first of them, in order, each once; and the frames written answer, one each and
      in order, exactly the requests wanting a reply in a prefix of them, which is all that the
      engine has answered unless the socket has been destroyed. */
  lemma {:induction false} RepliesAnswerAPrefix(steps: seq<Step>)
    ensures var s := Execute(INIT, steps);
            var messages := SplitAll(Concat(s.stream)).messages;
            && Messages(s.served) + Messages(s.unserved) <= messages
            && Answers(s.written, Wanting(s.served))
            && (s.unserved != [] ==> s.destroyed)
  {
    Holds(steps);
    var s := Execute(INIT, steps);
    hide Execute, SplitAll, Concat, Messages, Wanting, Answers;
    ChunksDoNotMatter(s.stream);
  }

  /** Splitting what was written gives the frames back, and each frame its body, its length and
      the request it answers. */
  lemma {:induction false} OutputSplits(written: seq<seq<Byte>>, wanting: seq<Handled>)
    requires forall i | 0 <= i < |wanting| :: wanting[i].verdict.Reply?
    requires Answers(written, wanting)
    ensures SplitAll(Concat(written)) == Split(written, [], false)
    ensures forall i | 0 <= i < |written| ::
              ReadsAs(written[i], i + 1, wanting[i].verdict)
  {
    hide SplitAll, Frame, I32At, Words;
    forall i | 0 <= i < |written|
      ensures ReadsAs(written[i], i + 1, wanting[i].verdict)
    {
      var v := wanting[i].verdict;
      FrameReads(v.legacy, i + 1, v.requestId, v.body);
    }
    assert forall i | 0 <= i < |written| ::
        |written[i]| >= HEADER_LENGTH && I32At(written[i], 0) == |written[i]|;
    Rejoined(written);
  }

  /** A frame, field by field: its length, its number, the request it answers, an OP_REPLY for an
      OP_QUERY and an OP_MSG for an OP_MSG, what that kind puts before the body, and the body. */
  predicate ReadsAs(frame: seq<Byte>, number: nat, v: Verdict)
    requires v.Reply?
  {
    && |frame| == |v.body| + (if v.legacy then 36 else 21)
    && I32At(frame, 0) == |frame| && I32At(frame, 4) == number && I32At(frame, 8) == v.requestId
    && I32At(frame, 12) == (if v.legacy then 1 else 2013)
    && frame[16..|frame| - |v.body|] == Words(v.legacy) && frame[|frame| - |v.body|..] == v.body
  }

  /** In every run, an answer that wants a reply on a live socket is written if and only if its length
      and number fit 32 bits, and destroys the socket otherwise; any other answer writes nothing; and
      only an engine that refuses, or a frame that does not fit, destroys it. */
  lemma {:induction false} WrittenIff(steps: seq<Step>, verdict: Verdict)
    ensures var s := Execute(INIT, steps);
            Enabled(s, Answered(verdict)) ==>
              var s' := Apply(s, Answered(verdict));
              var wants := verdict.Reply? && !verdict.moreToCome && !s.destroyed;
              var fits := verdict.Reply? && |s.written| + 1 < 0x8000_0000
                          && |verdict.body| + (if verdict.legacy then 36 else 21) < 0x8000_0000;
              && s'.running.None? && s'.queue == s.queue
              && (if wants && fits then
                    && |s'.written| == |s.written| + 1 && s'.written[..|s.written|] == s.written
                    && ReadsAs(s'.written[|s.written|], |s.written| + 1, verdict)
                  else s'.written == s.written)
              && (s'.destroyed <==> s.destroyed || verdict.Refused? || (wants && !fits))
  {
    Holds(steps);
    var s := Execute(INIT, steps);
    hide Execute, Answers, Wanting, Messages, Fed, Frame, Words, I32At;
    if s.running.Some? && verdict.Reply? && !verdict.moreToCome && !s.destroyed {
      var number := s.replyId + 1;
      FramedIff(verdict.legacy, number, verdict.requestId, verdict.body);
      if Framed(verdict.legacy, number, verdict.requestId, verdict.body).Some? {
        FrameReads(verdict.legacy, number, verdict.requestId, verdict.body);
      }
    }
  }

  lemma {:induction false} Rejoined(frames: seq<seq<Byte>>)
    requires forall i | 0 <= i < |frames| :: |frames[i]| >= HEADER_LENGTH && I32At(frames[i], 0) == |frames[i]|
    ensures SplitAll(Concat(frames)) == Split(frames, [], false)
    decreases |frames|
  {
    if frames != [] {
      Rejoined(frames[1..]);
      var bytes := Concat(frames);
      I32Prefix(frames[0], Concat(frames[1..]));
      hide I32At, SplitAll;
      SplitOne(bytes);
      var length := |frames[0]|;
      assert bytes[..length] == frames[0] && bytes[length..] == Concat(frames[1..]);
    }
  }

  /** A chunk can always arrive, and the socket always be destroyed; neither disturbs what the engine
      is at. */
  lemma {:induction false} AlwaysListens(s: Connection, chunk: seq<Byte>)
    ensures Enabled(s, Data(chunk)) && Enabled(s, Destroy)
    ensures var s' := Apply(s, Data(chunk));
            && s'.stream == s.stream + [chunk] && s'.running == s.running && s.queue <= s'.queue
            && s'.written == s.written && (s.destroyed ==> s'.destroyed)
    ensures Apply(s, Destroy) == s.(destroyed := true)
  {
  }

  /** While a message waits, the engine has one, or the first that waits can be given to it; and the
      one it has can be answered whatever the answer. */
  lemma {:induction false} NeverStuck(s: Connection, verdict: Verdict)
    ensures s.running.Some? || s.queue != [] ==> Enabled(s, Begin) || Enabled(s, Answered(verdict))
    ensures Enabled(s, Begin) ==>
              var s' := Apply(s, Begin);
              s'.running == Some(s.queue[0]) && s'.queue == s.queue[1..] && s'.written == s.written
  {
  }

  /** Once destroyed, a socket is never written to again. */
  lemma {:induction false} DestroyedIsSilent(s: Connection, steps: seq<Step>)
    requires s.destroyed
    ensures var s' := Execute(s, steps);
            s'.destroyed && s'.written == s.written
    decreases |steps|
  {
    hide SplitAll, Framed;
    if steps != [] {
      if Enabled(s, steps[0]) {
        DestroyedIsSilent(Apply(s, steps[0]), steps[1..]);
      } else {
        DestroyedIsSilent(s, steps[1..]);
      }
    }
  }
}
