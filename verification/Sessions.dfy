/** A client session of the proxy: a reader that dispatches frames in order, and a writer that
    waits for each request in turn and writes its response back. */
module Sessions {

  import opened ThriftMessage
  import opened Framing
  import opened Requests

  /** The ways a response comes about.  `exc` is the body of the exception, `spare` what follows
      the reply in its buffer. */
  datatype Answer =
    | Replied(frame: Bytes, spare: Bytes)
    | ServiceNotFound(exc: Bytes)
    | WorkerNotFound(exc: Bytes)
    | Failed(exc: Bytes)

  /** A connection only completes a request with a frame whose header it could read. */
  predicate Proper(a: Answer) { a.Replied? ==> Decode(a.frame).Some? }

  /** What the client is sent: the restored reply, or an exception.  `GetThriftException` puts the
      service where the others put the method. */
  function ToClient(f: Fields, a: Answer): Bytes
    requires Proper(a)
  {
    match a
    case Replied(frame, spare) => Restored(frame, spare, f.name, Decode(frame).value.typeId, f.seqId)
    case ServiceNotFound(exc) => Encode(Message(f.name, EXCEPTION, f.seqId, exc))
    case WorkerNotFound(exc) => Encode(Message(f.name, EXCEPTION, f.seqId, exc))
    case Failed(exc) => Encode(Message(f.service, EXCEPTION, f.seqId, exc))
  }

  /** The header written over a reply fits into it. */
  predicate Fits(f: Fields, a: Answer) {
    a.Replied? ==> FIXED_HEADER_LEN + |f.name| <= |a.frame|
  }

  /** On every path the response reads back with the client's own sequence id; a reply too short
      for the method name is the one case in which it does not read back at all. */
  lemma AnswerCarriesClientId(f: Fields, a: Answer)
    requires Proper(a)
    ensures Decode(ToClient(f, a)).Some? <==> Fits(f, a)
    ensures Fits(f, a) ==> Decode(ToClient(f, a)).value.seqId == f.seqId
    ensures !a.Replied? ==>
      Decode(ToClient(f, a)).value.typeId == 3 && Decode(ToClient(f, a)).value.body == a.exc
    ensures a.Replied? && |Decode(a.frame).value.name| == |f.name| ==>
      ToClient(f, a) == Encode(Decode(a.frame).value.(name := f.name, seqId := f.seqId))
  {
    match a
    case Replied(frame, spare) => RestoreCorrectIff(frame, spare, f.name, f.seqId);
    case Failed(exc) => DecodeEncode(Message(f.service, EXCEPTION, f.seqId, exc));
    case _ => DecodeEncode(Message(f.name, EXCEPTION, f.seqId, a.exc));
  }

  /** Every answer names the method called, except a converted error, which names the service. */
  lemma AnswerNamesMethodIff(f: Fields, a: Answer)
    requires Proper(a) && Fits(f, a)
    ensures Decode(ToClient(f, a)).Some?
    ensures Decode(ToClient(f, a)).value.name == f.name <==> !a.Failed? || f.service == f.name
  {
    match a
    case Replied(frame, spare) => RestoreCorrectIff(frame, spare, f.name, f.seqId);
    case Failed(exc) => DecodeEncode(Message(f.service, EXCEPTION, f.seqId, exc));
    case _ => DecodeEncode(Message(f.name, EXCEPTION, f.seqId, a.exc));
  }

  /** An exception names the service if it stands for an error, and else the method. */
  lemma ExceptionNames(f: Fields, a: Answer)
    requires !a.Replied?
    ensures Decode(ToClient(f, a)) == Some(Message(if a.Failed? then f.service else f.name, 3, f.seqId, a.exc))
  {
    DecodeEncode(Message(if a.Failed? then f.service else f.name, 3, f.seqId, a.exc));
  }

  /** A call of "s:m" that fails is answered with an exception named "s". */
  lemma ConvertedErrorNamesService(exc: Bytes)
    ensures var f := DecodeFields(Encode(Message([115, 58, 109], 1, 7, [])));
      f.name == [109] && Decode(ToClient(f, Failed(exc))) == Some(Message([115], 3, 7, exc))
  {
    FieldsOf([115], [109], 1, 7, []);
    assert [115] + [58] + [109] == [115, 58, 109];
    DecodeEncode(Message([115], EXCEPTION, 7, exc));
  }

  // --------------------------------------------------------------- the pipeline

  /** A frame written to the client: the request it is for, and the response as it was then. */
  datatype Written = Written(n: nat, a: Answer)

  function FrameFor(incoming: seq<Bytes>, w: Written): Bytes
    requires w.n < |incoming| && Proper(w.a)
  {
    ToClient(DecodeFields(incoming[w.n]), w.a)
  }

  datatype Reader = Reading | Sending(n: nat) | ReaderDone
  datatype Writer = Ranging | Waiting(n: nat) | Abandoned

  /** Requests are numbered by the frames they came in. */
  datatype State = State(
    incoming: seq<Bytes>,          // what the client sends, frame by frame
    maxPipeline: nat,
    dispatched: nat,
    reader: Reader,
    tasks: seq<nat>,               // the channel
    writer: Writer,
    answers: map<nat, Answer>,     // responses set so far
    outgoing: seq<Written>,        // frames written to the client
    dropped: set<nat>              // tasks recycled after a write error
  )

  datatype Step =
    | Dispatch(direct: Option<Answer>)   // read a frame; the router may answer at once
    | StopReading
    | Enqueue
    | Complete(n: nat, a: Answer)        // a backend connection finishes a request, in any order
    | Take
    | WriteBack
    | Abandon                            // write error: from now on tasks are thrown away
    | Drop                               // a task is recycled, whether it is answered or not

  predicate Enabled(s: State, step: Step) {
    match step
    case Dispatch(direct) => s.reader.Reading? && s.dispatched < |s.incoming| && (direct.Some? ==> Proper(direct.value))
    case StopReading => s.reader.Reading?
    case Enqueue => s.reader.Sending? && |s.tasks| < s.maxPipeline
    case Complete(n, a) => n < s.dispatched && n !in s.answers && Proper(a)
    case Take => s.writer.Ranging? && s.tasks != []
    case WriteBack => s.writer.Waiting? && s.writer.n in s.answers
    case Abandon => s.writer.Waiting? && s.writer.n in s.answers
    case Drop => s.writer.Abandoned? && s.tasks != []
  }

  function Apply(s: State, step: Step): State
    requires Enabled(s, step)
  {
    match step
    case Dispatch(direct) =>
      s.(dispatched := s.dispatched + 1, reader := Sending(s.dispatched),
         answers := if direct.Some? then s.answers[s.dispatched := direct.value] else s.answers)
    case StopReading => s.(reader := ReaderDone)
    case Enqueue => s.(reader := Reading, tasks := s.tasks + [s.reader.n])
    case Complete(n, a) => s.(answers := s.answers[n := a])
    case Take => s.(writer := Waiting(s.tasks[0]), tasks := s.tasks[1..])
    case WriteBack =>
      s.(writer := Ranging, outgoing := s.outgoing + [Written(s.writer.n, s.answers[s.writer.n])])
    case Abandon => s.(writer := Abandoned)
    case Drop => s.(tasks := s.tasks[1..], dropped := s.dropped + {s.tasks[0]})
  }

  predicate Init(s: State) {
    && s.dispatched == 0 && s.reader.Reading? && s.tasks == [] && s.writer.Ranging?
    && s.answers == map[] && s.outgoing == [] && s.dropped == {}
  }

  /** The requests on their way from reader to writer are numbered without a gap, from the first
      one not written back to the last one dispatched. */
  ghost predicate InOrder(s: State) {
    var first := |s.outgoing| + (if s.writer.Ranging? then 0 else 1);
    && (s.writer.Waiting? ==> s.writer.n == |s.outgoing|)
    && (forall i :: 0 <= i < |s.tasks| ==> s.tasks[i] == first + i)
    && s.dispatched == first + |s.tasks| + (if s.reader.Sending? then 1 else 0)
    && (s.reader.Sending? ==> s.reader.n == first + |s.tasks|)
    && s.dispatched <= |s.incoming|
  }

  /** Frame `n` going out is the response to frame `n` that came in. */
  ghost predicate Answered(s: State) {
    && (forall n :: n in s.answers ==> n < s.dispatched && Proper(s.answers[n]))
    && |s.outgoing| <= s.dispatched <= |s.incoming|
    && (forall n :: 0 <= n < |s.outgoing| ==> n in s.answers && s.outgoing[n] == Written(n, s.answers[n]))
    && (s.dropped != {} ==> s.writer.Abandoned?)
  }

  lemma StepKeepsOrder(s: State, step: Step)
    requires InOrder(s) && Enabled(s, step) && !s.writer.Abandoned?
    ensures !step.Abandon? ==> InOrder(Apply(s, step))
  {
  }

  lemma StepKeepsAnswered(s: State, step: Step)
    requires Answered(s) && Enabled(s, step) && (s.writer.Abandoned? || InOrder(s))
    ensures Answered(Apply(s, step))
  {
  }

  ghost predicate Next(s: State, t: State) {
    exists step :: Enabled(s, step) && t == Apply(s, step)
  }

  ghost predicate Run(run: seq<State>) {
    && run != [] && Init(run[0])
    && forall i :: 0 <= i < |run| - 1 ==> Next(run[i], run[i + 1])
  }

  lemma {:induction false} RunKeepsAnswered(run: seq<State>, i: nat)
    requires Run(run) && i < |run|
    ensures Answered(run[i]) && (run[i].writer.Abandoned? || InOrder(run[i]))
    ensures run[i].incoming == run[0].incoming
  {
    if i > 0 {
      RunKeepsAnswered(run, i - 1);
      assert Next(run[i - 1], run[i - 1 + 1]);
      var step :| Enabled(run[i - 1], step) && run[i] == Apply(run[i - 1], step);
      StepKeepsAnswered(run[i - 1], step);
      if !run[i - 1].writer.Abandoned? {
        StepKeepsOrder(run[i - 1], step);
      }
    }
  }

  /** In every run, however completions are ordered: the n-th frame out answers the n-th frame
      in, and reads back with the id the client gave it whenever the header fits. */
  lemma NthOutAnswersNthIn(run: seq<State>, i: nat, n: nat)
    requires Run(run) && i < |run| && n < |run[i].outgoing|
    ensures n < |run[0].incoming| && n in run[i].answers && Proper(run[i].answers[n])
    ensures run[i].outgoing[n] == Written(n, run[i].answers[n])
    ensures var f := DecodeFields(run[0].incoming[n]);
      var out := FrameFor(run[0].incoming, run[i].outgoing[n]);
      Fits(f, run[i].answers[n]) ==>
        && Decode(out).Some? && Decode(out).value.seqId == f.seqId
        && (Decode(run[0].incoming[n]).Some? ==> f.seqId == Decode(run[0].incoming[n]).value.seqId)
  {
    RunKeepsAnswered(run, i);
    AnswerCarriesClientId(DecodeFields(run[0].incoming[n]), run[i].answers[n]);
  }

  /** After a write error, as many drops as there are tasks empty the channel, and recycle exactly
      the tasks in it. */
  lemma {:induction false} DropsAll(s: State) returns (t: State)
    requires s.writer.Abandoned?
    ensures t == Dropping(s, |s.tasks|) && t.tasks == []
    ensures forall n :: n in t.dropped <==> n in s.dropped || n in s.tasks
    ensures t == s.(tasks := [], dropped := t.dropped)
    decreases |s.tasks|
  {
    if s.tasks == [] {
      t := s;
    } else {
      assert s.tasks == [s.tasks[0]] + s.tasks[1..];
      t := DropsAll(Apply(s, Drop));
    }
  }

  /** `s` after `k` drops, or as many as there are tasks. */
  function Dropping(s: State, k: nat): State
    requires s.writer.Abandoned?
    decreases k
  {
    if k == 0 || !Enabled(s, Drop) then s else Dropping(Apply(s, Drop), k - 1)
  }

  // ---------------------------------------------------------------- loopWriter

  /** A task whose `Wait` is over. */
  datatype Task = Task(fields: Fields, answer: Answer)

  function Responses(tasks: seq<Task>): seq<Bytes>
    requires forall i :: 0 <= i < |tasks| ==> Proper(tasks[i].answer)
  {
    seq(|tasks|, i requires 0 <= i < |tasks| => ToClient(tasks[i].fields, tasks[i].answer))
  }

  /** One response is written and flushed, or a part of it is on the wire. */
  method WriteResponse(response: Bytes, t: BufferedFramedTransport, spill: nat, fault: Fault) returns (ok: bool)
    requires t.Valid() && t.buffer == [] && t.writer == []
    modifies t
    ensures ok ==> t.Valid() && t.buffer == [] && t.writer == [] && t.frames == old(t.frames) + [response]
    ensures !ok ==> EncodeFrames(old(t.frames)) <= t.wire <= EncodeFrames(old(t.frames) + [response])
    ensures !ok ==> !fault.NoFault?
  {
    assert t.wire + [] == t.wire;
    t.Write(response);
    assert t.buffer == response;
    ok := t.FlushBuffer(true, false, spill, fault);
  }

  /** The loop of `loopWriter` over the responses as `handleResponse` leaves them, one forced
      flush each.  `done` of them were written before the channel was closed or a write failed. */
  method LoopWriter(responses: seq<Bytes>, t: BufferedFramedTransport, spills: seq<nat>, faults: seq<Fault>)
      returns (done: nat)
    requires t.Valid() && t.buffer == [] && t.writer == [] && |spills| == |faults| == |responses|
    modifies t
    ensures done <= |responses|
    ensures done < |responses| ==>
      && !faults[done].NoFault?
      && EncodeFrames(old(t.frames) + responses[..done]) <= t.wire
      && t.wire <= EncodeFrames(old(t.frames) + responses[..done + 1])
    ensures done == |responses| ==>
      && t.Valid() && t.frames == old(t.frames) + responses
      && t.wire == EncodeFrames(t.frames)
  {
    done := 0;
    while done < |responses|
      invariant done <= |responses| && t.Valid() && t.buffer == [] && t.writer == []
      invariant t.frames == old(t.frames) + responses[..done]
    {
      assert t.frames + [responses[done]] == old(t.frames) + responses[..done + 1];
      var ok := WriteResponse(responses[done], t, spills[done], faults[done]);
      if !ok {
        return;
      }
      done := done + 1;
    }
    assert responses[..done] == responses;
    assert t.wire + [] == t.wire;
  }

  /** The client, reading what the writer put on the wire, gets the responses in task order. */
  lemma ClientReadsResponses(tasks: seq<Task>, wire: Bytes, maxLength: nat)
    requires forall i :: 0 <= i < |tasks| ==> Proper(tasks[i].answer)
    requires wire == EncodeFrames(Responses(tasks)) && Sendable(Responses(tasks), maxLength)
    ensures var (got, error) := ReadFrames(wire, maxLength);
      && error == HeaderIncomplete && |got| == |tasks|
      && forall i :: 0 <= i < |tasks| ==> got[i] == ToClient(tasks[i].fields, tasks[i].answer)
  {
    ReadBackAll(Responses(tasks), maxLength);
  }
}
