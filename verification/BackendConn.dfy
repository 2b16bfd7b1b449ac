/** `BackendConn` / `BackendConnLB` as the object the source has: its channel, its map and its
    counter are fields that the methods reassign.  Each method is what one goroutine does when
    it is not interrupted, proved against a function of the fields; for each such function, a
    lemma shows that the protocol has steps with that very effect, so that everything proved of
    all runs holds of the methods. */
module BackendConnections {

  import opened ThriftMessage
  import opened SeqIds
  import opened Multiplexer
  import opened MultiplexerSafety
  import Framing
  import Requests

  // ------------------------------------------------------------ step sequences

  ghost predicate Executes(s: State, steps: seq<Step>, t: State)
    decreases |steps|
  {
    if steps == [] then s == t
    else Enabled(s, steps[0]) && Executes(Apply(s, steps[0]), steps[1..], t)
  }

  lemma {:induction false} ExecuteThen(s: State, a: seq<Step>, t: State, b: seq<Step>, u: State)
    requires Executes(s, a, t) && Executes(t, b, u)
    ensures Executes(s, a + b, u)
    decreases a
  {
    if a == [] {
      assert a + b == b;
    } else {
      ExecuteThen(Apply(s, a[0]), a[1..], t, b, u);
      assert (a + b)[1..] == a[1..] + b;
    }
  }

  /** Executing steps at the end of a run gives a longer run. */
  lemma {:induction false} ExecutedRun(run: seq<State>, steps: seq<Step>, t: State) returns (longer: seq<State>)
    requires Run(run) && Executes(run[|run| - 1], steps, t)
    ensures Run(longer) && run <= longer && longer[|longer| - 1] == t
    decreases steps
  {
    if steps == [] {
      longer := run;
    } else {
      longer := Extend(run, steps[0]);
      longer := ExecutedRun(longer, steps[1..], t);
    }
  }

  // --------------------------------------------------------------- shared part

  /** What the fields of a connection object show of a protocol state. */
  datatype Shared = Shared(
    kind: Kind, input: seq<Req>, closed: bool, requests: map<int32, Req>, current: SeqId,
    responses: map<Req, Outcome>,        // Response.Data / Response.Err
    dones: seq<Req>,                     // Wait.Done calls, in order
    recycled: set<Req>,                  // requests without data
    adds: seq<Req>,                      // Wait.Add calls, in order
    wire: seq<Out>,                      // what was written, in order
    unflushed: nat,                      // frames written and not flushed
    active: bool)                        // IsConnActive

  function ByReq(pending: map<int32, Entry>): map<int32, Req> {
    map id | id in pending :: pending[id].r
  }

  function View(s: State): Shared {
    Shared(s.kind, s.input, s.closed, ByReq(s.pending), s.current, s.outcomes, s.dones, s.recycled, s.adds,
           s.wire, s.unflushed, s.active)
  }

  /** The requests of `q` that have a WaitGroup, in order. */
  function Waiters(q: seq<Req>): seq<Req> {
    if q == [] then [] else (if q[0].waits then [q[0]] else []) + Waiters(q[1..])
  }

  /** One and the same response for every request of `q`. */
  function ToAll(q: seq<Req>, o: Outcome): map<Req, Outcome> {
    map r | r in q :: o
  }

  /** Setting the response of `r`, then `Wait.Done` if it has a WaitGroup. */
  function Finish(v: Shared, r: Req, o: Outcome): Shared {
    v.(responses := v.responses[r := o], dones := v.dones + if r.waits then [r] else [])
  }

  datatype WriteResult = TimedOut | Blocked | NormalExit | Dropped | Written | Failed

  /** `Response.SeqId` after `ReplaceSeqId(currentSeqId)`. */
  function SeqIdFor(v: Shared, r: Req): int32 {
    if r in v.recycled then NO_SEQ_ID else v.current
  }

  /** What is written for `r`: its frame rewritten for its id, or nothing. */
  function OutFor(v: Shared, r: Req): Out {
    Out(SeqIdFor(v, r), if r in v.recycled then [] else Requests.Rewritten(r.frame, v.kind.ProxyConn?, v.current))
  }

  /** One turn of the writer loop.  `timeout` is whether the heartbeat's timeout is what wakes the
      writer, `stale` the age test on a heartbeat, `timeUp` the age test on the last flush, `fault` a
      write error.  The flush is forced when the queue is empty. */
  function WriteTurn(v: Shared, timeout: bool, stale: bool, timeUp: bool, fault: bool): (WriteResult, Shared) {
    if timeout then (TimedOut, v)
    else if v.input == [] then if v.closed then (NormalExit, v.(active := false)) else (Blocked, v)
    else
      var r, u := v.input[0], v.(input := v.input[1..]);
      if r.heartbeat && stale then (Dropped, u)
      else if fault then (Failed, Finish(u, r, WriteFailed))
      else
        var unflushed := Framing.CountAfterFlush(v.unflushed, u.input == [], timeUp, MAX_BUFFERED);
        (Written, WrittenTo(u, r, OutFor(v, r), unflushed))
  }

  function WrittenTo(v: Shared, r: Req, out: Out, unflushed: nat): Shared {
    v.(requests := v.requests[out.id := r], current := NextId(v.current), wire := v.wire + [out],
       unflushed := unflushed)
  }

  /** The loop that fails what is left in the channel once the writer loop gave up. */
  function DrainAll(v: Shared): Shared
    decreases |v.input|
  {
    if v.input == [] then v else DrainAll(Finish(v.(input := v.input[1..]), v.input[0], Drained))
  }

  /** A worker's STOP makes the connection inactive, a reply that matches nothing changes nothing,
      a heartbeat reply only removes its entry. */
  function AfterReply(v: Shared, frame: Bytes, spare: Bytes): Shared {
    match DecodeTypeIdSeqId(frame)
    case None => v
    case Some((typeId, id)) =>
      if v.kind.LBConn? && typeId == MESSAGE_TYPE_STOP then v.(active := false)
      else if id !in v.requests then v
      else
        var u := v.(requests := v.requests - {id});
        if typeId == MESSAGE_TYPE_HEART_BEAT then u else Finish(u, v.requests[id], Reply(frame, spare))
  }

  /** One round of the flush loop. */
  function FlushOne(v: Shared, r: Req): Shared {
    if v.kind.LBConn? && r.heartbeat then v else Finish(v, r, ReadFailed)
  }

  /** The flush loop over the entries of `taken`, in the order `ids`. */
  function FlushAll(v: Shared, taken: map<int32, Req>, ids: seq<int32>): Shared
    requires forall id :: id in ids ==> id in taken
    decreases |ids|
  {
    if ids == [] then v else FlushAll(FlushOne(v, taken[ids[0]]), taken, ids[1..])
  }

  // ---------------------------------------------------------- closed forms

  /** `v` with every request of `q` finished the same way, in order. */
  function FinishAll(v: Shared, q: seq<Req>, o: Outcome): Shared {
    v.(responses := v.responses + ToAll(q, o), dones := v.dones + Waiters(q))
  }

  lemma FinishAllNone(v: Shared, o: Outcome)
    ensures FinishAll(v, [], o) == v
  {
    assert v.responses + ToAll([], o) == v.responses;
  }

  lemma ToAllCons(m: map<Req, Outcome>, r: Req, q: seq<Req>, o: Outcome)
    ensures m + ToAll([r] + q, o) == m[r := o] + ToAll(q, o)
  {
    assert forall x :: x in [r] + q <==> x == r || x in q;
  }

  lemma FinishAllCons(v: Shared, r: Req, q: seq<Req>, o: Outcome)
    ensures FinishAll(v, [r] + q, o) == FinishAll(Finish(v, r, o), q, o)
  {
    assert ([r] + q)[1..] == q;
    ToAllCons(v.responses, r, q, o);
  }

  /** Every waiter of `q` is there, once for each time it is in `q`, and nobody else. */
  lemma {:induction false} WaitersAre(q: seq<Req>, r: Req)
    ensures multiset(Waiters(q))[r] == if r.waits then multiset(q)[r] else 0
  {
    if q != [] {
      assert q == [q[0]] + q[1..];
      WaitersAre(q[1..], r);
    }
  }

  /** Draining answers exactly the queue, each waiter once and in order. */
  lemma {:induction false} DrainAnswersAll(v: Shared)
    ensures DrainAll(v) == FinishAll(v, v.input, Drained).(input := [])
    decreases |v.input|
  {
    if v.input == [] {
      FinishAllNone(v, Drained);
    } else {
      var u := v.(input := v.input[1..]);
      DrainAnswersAll(Finish(u, v.input[0], Drained));
      FinishAllCons(u, v.input[0], u.input, Drained);
      assert [v.input[0]] + u.input == v.input;
      assert FinishAll(u, v.input, Drained).(input := []) == FinishAll(v, v.input, Drained).(input := []);
    }
  }

  /** The requests a flush over `ids` fails: all but the LB's heartbeats. */
  function Failing(kind: Kind, taken: map<int32, Req>, ids: seq<int32>): seq<Req>
    requires forall id :: id in ids ==> id in taken
  {
    if ids == [] then []
    else
      var r := taken[ids[0]];
      (if kind.LBConn? && r.heartbeat then [] else [r]) + Failing(kind, taken, ids[1..])
  }

  /** Those are the requests at `ids`, each as often as its ids are there. */
  lemma {:induction false} FailingAre(kind: Kind, taken: map<int32, Req>, ids: seq<int32>, r: Req)
    requires forall id :: id in ids ==> id in taken
    ensures r in Failing(kind, taken, ids) <==>
      !(kind.LBConn? && r.heartbeat) && exists id :: id in ids && taken[id] == r
  {
    if ids != [] {
      FailingAre(kind, taken, ids[1..], r);
      assert ids == [ids[0]] + ids[1..];
    }
  }

  lemma {:induction false} FlushAnswersAll(v: Shared, taken: map<int32, Req>, ids: seq<int32>)
    requires forall id :: id in ids ==> id in taken
    ensures FlushAll(v, taken, ids) == FinishAll(v, Failing(v.kind, taken, ids), ReadFailed)
    decreases |ids|
  {
    if ids == [] {
      FinishAllNone(v, ReadFailed);
    } else {
      var r := taken[ids[0]];
      var rest := Failing(v.kind, taken, ids[1..]);
      FlushAnswersAll(FlushOne(v, r), taken, ids[1..]);
      FinishAllCons(v, r, rest, ReadFailed);
      assert [] + rest == rest;
    }
  }

  // -------------------------------------------- the protocol has steps to match

  /** The writer is free to act and at program point `w`. */
  predicate WriterAt(s: State, w: Writer) {
    s.writer == w && TheWriter !in s.completing
  }

  lemma OneStep(s: State, step: Step)
    requires Enabled(s, step)
    ensures Executes(s, [step], Apply(s, step))
  {
    assert Executes(Apply(s, step), [step][1..], Apply(s, step));
  }

  lemma FinishSteps(s: State, a: Agent) returns (steps: seq<Step>, t: State)
    requires a in s.completing && !s.completing[a].answered
    ensures var c := s.completing[a];
      && Executes(s, steps, t) && t.completing == s.completing - {a}
      && View(t) == Finish(View(s), c.r, c.outcome)
      && t.writer == s.writer && t.readers == s.readers
  {
    OneStep(s, Answer(a));
    var u := AnswerApply(s, a);
    OneStep(u, Done(a));
    t := DoneApply(u, a);
    steps := [Answer(a)] + [Done(a)];
    ExecuteThen(s, [Answer(a)], u, [Done(a)], t);
  }

  /** A step, and then the completion it hands to `a`. */
  lemma StepThenFinish(s: State, step: Step, a: Agent) returns (steps: seq<Step>, t: State)
    requires Enabled(s, step) && a !in s.completing
    requires a in Apply(s, step).completing && !Apply(s, step).completing[a].answered
    ensures var u := Apply(s, step);
      && Executes(s, steps, t) && t.completing == u.completing - {a}
      && View(t) == Finish(View(u), u.completing[a].r, u.completing[a].outcome)
      && t.writer == u.writer && t.readers == u.readers
  {
    var u := Apply(s, step);
    OneStep(s, step);
    steps, t := FinishSteps(u, a);
    ExecuteThen(s, [step], u, steps, t);
    steps := [step] + steps;
  }

  datatype PushResult = Queued | Blocks | Panics

  /** `Wait.Add(1)`, if there is a WaitGroup, and the send, which a full channel blocks and a closed
      one answers with a panic. */
  function Pushed(v: Shared, r: Req): (PushResult, Shared) {
    var u := v.(adds := v.adds + if r.waits then [r] else []);
    if v.closed then (Panics, u)
    else if |v.input| >= INPUT_CAPACITY then (Blocks, u)
    else (Queued, u.(input := v.input + [r]))
  }

  lemma PushIsRun(s: State, r: Req) returns (steps: seq<Step>, t: State)
    requires r !in s.offered && r.heartbeat == HeartbeatFrame(r.frame)
    ensures Executes(s, steps, t) && View(t) == Pushed(View(s), r).1
    ensures r in t.pushing <==> !Pushed(View(s), r).0.Queued?
  {
    var offer, send := Produce(Offer(r)), Produce(Send(r));
    OneStep(s, offer);
    steps, t := [offer], Apply(s, offer);
    if Pushed(View(s), r).0.Queued? {
      OneStep(t, send);
      ExecuteThen(s, [offer], t, [send], Apply(t, send));
      steps, t := [offer] + [send], Apply(t, send);
    }
  }

  lemma AbandonIsRun(s: State, r: Req) returns (steps: seq<Step>, t: State)
    requires s.kind.ProxyConn? && r in s.offered && r.waits
    ensures Executes(s, steps, t) && View(t) == View(s).(recycled := s.recycled + {r})
  {
    var step := Produce(Abandon(r));
    OneStep(s, step);
    steps, t := [step], Apply(s, step);
  }

  lemma TwoWriterSteps(s: State, a: WriterStep, b: WriterStep) returns (steps: seq<Step>, t: State)
    requires WriterEnabled(s, a) && WriterEnabled(WriterApply(s, a), b)
    ensures Executes(s, steps, t) && t == WriterApply(WriterApply(s, a), b)
  {
    var u := WriterApply(s, a);
    OneStep(s, WriterDoes(a));
    OneStep(u, WriterDoes(b));
    t := WriterApply(u, b);
    ExecuteThen(s, [WriterDoes(a)], u, [WriterDoes(b)], t);
    steps := [WriterDoes(a)] + [WriterDoes(b)];
  }

  /** Taking the head of the queue and giving it its id. */
  lemma UpToStamp(s: State) returns (steps: seq<Step>, t: State)
    requires WriterAt(s, AtSelect) && s.input != []
    ensures Executes(s, steps, t)
    ensures var r := s.input[0];
      t == s.(writer := Stamped(r, s.input[1..] == [], IdToSend(s, r)), input := s.input[1..])
  {
    var u: State;
    steps, u := TwoWriterSteps(s, Take, Decide);
    OneStep(u, WriterDoes(Stamp));
    t := Apply(u, WriterDoes(Stamp));
    ExecuteThen(s, steps, u, [WriterDoes(Stamp)], t);
    steps := steps + [WriterDoes(Stamp)];
  }

  lemma RegisteredView(s: State, data: Bytes, unflushed: nat)
    requires s.writer.Stamped? && TheWriter !in s.completing
    ensures var t := WriterApply(Multiplexer.Written(s, data, unflushed), Register);
      View(t) == WrittenTo(View(s), s.writer.r, Out(s.writer.id, data), unflushed)
  {
    var t := WriterApply(Multiplexer.Written(s, data, unflushed), Register);
    assert ByReq(t.pending) == ByReq(s.pending)[s.writer.id := s.writer.r];
  }

  lemma DecideThenWrite(s: State, timeUp: bool) returns (steps: seq<Step>, t: State)
    requires WriterAt(s, AtSelect) && s.input != []
    ensures Executes(s, steps, t) && View(t) == WriteTurn(View(s), false, false, timeUp, false).1
    ensures WriterAt(t, AtSelect)
  {
    var u: State, more: seq<Step>;
    steps, u := UpToStamp(s);
    more, t := TwoWriterSteps(u, Write(timeUp), Register);
    ExecuteThen(s, steps, u, more, t);
    steps := steps + more;
    RegisteredView(u, DataToSend(u, u.writer.r, u.writer.id),
                   Framing.CountAfterFlush(u.unflushed, u.writer.flush, timeUp, MAX_BUFFERED));
  }

  lemma DecideThenFail(s: State, timeUp: bool) returns (steps: seq<Step>, t: State)
    requires WriterAt(s, AtSelect) && s.input != []
    ensures Executes(s, steps, t) && View(t) == WriteTurn(View(s), false, false, timeUp, true).1 && WriterAt(t, Leaving)
  {
    var u: State, more: seq<Step>;
    steps, u := UpToStamp(s);
    more, t := StepThenFinish(u, WriterDoes(WriteFail), TheWriter);
    ExecuteThen(s, steps, u, more, t);
    steps := steps + more;
  }

  lemma IdleTurn(s: State) returns (steps: seq<Step>, t: State)
    requires WriterAt(s, AtSelect) && s.input == []
    ensures Executes(s, steps, t) && View(t) == View(s).(active := s.active && !s.closed)
    ensures WriterAt(t, if s.closed then Stopped else AtSelect)
  {
    steps, t := [], s;
    if s.closed {
      OneStep(s, WriterDoes(EndOfInput));
      steps, t := [WriterDoes(EndOfInput)], Apply(s, WriterDoes(EndOfInput));
    }
  }

  lemma TimeoutTurn(s: State) returns (steps: seq<Step>, t: State)
    requires WriterAt(s, AtSelect)
    ensures Executes(s, steps, t) && View(t) == View(s) && WriterAt(t, Leaving)
  {
    OneStep(s, WriterDoes(Timeout));
    steps, t := [WriterDoes(Timeout)], Apply(s, WriterDoes(Timeout));
  }

  lemma DropTurn(s: State) returns (steps: seq<Step>, t: State)
    requires WriterAt(s, AtSelect) && s.input != [] && s.input[0].heartbeat
    ensures Executes(s, steps, t) && View(t) == View(s).(input := s.input[1..]) && WriterAt(t, AtSelect)
  {
    steps, t := TwoWriterSteps(s, Take, DropStale);
  }

  /** Every turn of the writer loop is a run of the protocol, whatever the clock says. */
  lemma WriteTurnIsRun(s: State, timeout: bool, stale: bool, timeUp: bool, fault: bool)
      returns (steps: seq<Step>, t: State)
    requires WriterAt(s, AtSelect)
    ensures Executes(s, steps, t) && View(t) == WriteTurn(View(s), timeout, stale, timeUp, fault).1
    ensures match WriteTurn(View(s), timeout, stale, timeUp, fault).0
      case NormalExit => WriterAt(t, Stopped)
      case Failed => WriterAt(t, Leaving)
      case TimedOut => WriterAt(t, Leaving)
      case _ => WriterAt(t, AtSelect)
  {
    if timeout {
      steps, t := TimeoutTurn(s);
    } else if s.input == [] {
      steps, t := IdleTurn(s);
    } else if s.input[0].heartbeat && stale {
      steps, t := DropTurn(s);
    } else if fault {
      steps, t := DecideThenFail(s, timeUp);
    } else {
      steps, t := DecideThenWrite(s, timeUp);
    }
  }

  lemma {:induction false} DrainIsRun(s: State) returns (steps: seq<Step>, t: State)
    requires WriterAt(s, Draining(|s.input|))
    ensures Executes(s, steps, t) && View(t) == DrainAll(View(s)) && WriterAt(t, Draining(0))
    decreases |s.input|
  {
    if s.input == [] {
      steps, t := [], s;
    } else {
      var u: State, more: seq<Step>;
      steps, u := StepThenFinish(s, WriterDoes(DrainTake), TheWriter);
      more, t := DrainIsRun(u);
      ExecuteThen(s, steps, u, more, t);
      steps := steps + more;
    }
  }

  /** What a writer that gave up does: the connection is inactive, and the queue is drained. */
  lemma GiveUpIsRun(s: State) returns (steps: seq<Step>, t: State)
    requires WriterAt(s, Leaving)
    ensures Executes(s, steps, t) && View(t) == DrainAll(View(s).(active := false)) && WriterAt(t, Draining(0))
  {
    OneStep(s, WriterDoes(StartDrain));
    var u := Apply(s, WriterDoes(StartDrain));
    steps, t := DrainIsRun(u);
    ExecuteThen(s, [WriterDoes(StartDrain)], u, steps, t);
    steps := [WriterDoes(StartDrain)] + steps;
  }

  /** Where a drained connection goes: the proxy's gets a new transport, with a reader of its own and
      nothing unflushed, and is active again; the load balancer's is over. */
  lemma AfterDrainIsRun(s: State, k: nat) returns (steps: seq<Step>, t: State)
    requires WriterAt(s, Draining(0)) && k !in s.readers
    ensures Executes(s, steps, t)
    ensures s.kind.ProxyConn? ==>
      && View(t) == View(s).(active := true, unflushed := 0) && WriterAt(t, AtSelect)
      && t.readers == s.readers[k := Reading]
    ensures s.kind.LBConn? ==> View(t) == View(s) && WriterAt(t, Stopped) && t.readers == s.readers
  {
    var step := WriterDoes(if s.kind.ProxyConn? then Reconnect(k) else Retire);
    OneStep(s, step);
    steps, t := [step], Apply(s, step);
  }

  /** `MarkOffline`: the connection is inactive and takes no more input. */
  lemma CloseIsRun(s: State) returns (steps: seq<Step>, t: State)
    requires s.kind.ProxyConn? && !s.closed
    ensures Executes(s, steps, t) && View(t) == View(s).(closed := true, active := false)
  {
    OneStep(s, Produce(Close));
    steps, t := [Produce(Close)], Apply(s, Produce(Close));
  }

  lemma ReplyMatches(s: State, frame: Bytes, spare: Bytes)
    ensures AfterReply(View(s), frame, spare) ==
      if StopFrame(s.kind, frame) then View(s).(active := false)
      else match Match(s, frame)
        case None => View(s)
        case Some(id) =>
          var u := View(s).(requests := View(s).requests - {id});
          if HeartbeatFrame(frame) then u else Finish(u, s.pending[id].r, Reply(frame, spare))
  {
  }

  lemma MatchedView(s: State, k: nat, id: int32, reply: Outcome, heartbeat: bool, tags: map<Req, nat>)
    requires id in s.pending
    ensures View(Matched(s, k, id, reply, heartbeat, tags)) == View(s).(requests := View(s).requests - {id})
  {
    assert ByReq(s.pending - {id}) == ByReq(s.pending) - {id};
  }

  lemma ReplyIsRun(s: State, k: nat, frame: Bytes, spare: Bytes, to: Option<nat>) returns (steps: seq<Step>, t: State)
    requires ReaderEnabled(s, k, Receive(frame, spare, to))
    ensures Executes(s, steps, t) && View(t) == AfterReply(View(s), frame, spare)
    ensures t.readers == s.readers && t.writer == s.writer
  {
    ReplyMatches(s, frame, spare);
    var step := ReaderDoes(k, Receive(frame, spare, to));
    var id := Match(s, frame);
    if id.Some? {
      var tags := TagsAfter(s, s.pending[id.value].r, to);
      MatchedView(s, k, id.value, Reply(frame, spare), HeartbeatFrame(frame), tags);
      assert Apply(s, step) == Matched(s, k, id.value, Reply(frame, spare), HeartbeatFrame(frame), tags);
    }
    if id.None? || HeartbeatFrame(frame) {
      OneStep(s, step);
      steps, t := [step], Apply(s, step);
    } else {
      steps, t := StepThenFinish(s, step, TheReader(k));
    }
  }

  /** Reader `k` is free to act on entry `id` of its batch. */
  predicate Flushes(s: State, k: nat, id: int32) {
    k in s.readers && TheReader(k) !in s.completing && s.readers[k].Flushing? && id in s.readers[k].batch
  }

  lemma SkipOne(s: State, k: nat, id: int32) returns (steps: seq<Step>, t: State)
    requires Flushes(s, k, id) && Skips(s, s.readers[k].batch[id].r)
    ensures Executes(s, steps, t) && View(t) == View(s)
    ensures t.completing == s.completing && t.readers == s.readers[k := Flushing(s.readers[k].batch - {id})]
  {
    var step := ReaderDoes(k, FlushSkip(id));
    OneStep(s, step);
    steps, t := [step], Apply(s, step);
  }

  lemma FailOne(s: State, k: nat, id: int32) returns (steps: seq<Step>, t: State)
    requires Flushes(s, k, id) && !Skips(s, s.readers[k].batch[id].r)
    ensures Executes(s, steps, t) && View(t) == Finish(View(s), s.readers[k].batch[id].r, ReadFailed)
    ensures t.completing == s.completing && t.readers == s.readers[k := Flushing(s.readers[k].batch - {id})]
  {
    steps, t := StepThenFinish(s, ReaderDoes(k, FlushTake(id)), TheReader(k));
  }

  lemma FlushOneIsRun(s: State, k: nat, id: int32) returns (steps: seq<Step>, t: State)
    requires Flushes(s, k, id)
    ensures Executes(s, steps, t) && View(t) == FlushOne(View(s), s.readers[k].batch[id].r)
    ensures t.completing == s.completing && t.readers == s.readers[k := Flushing(s.readers[k].batch - {id})]
  {
    if Skips(s, s.readers[k].batch[id].r) {
      steps, t := SkipOne(s, k, id);
    } else {
      steps, t := FailOne(s, k, id);
    }
  }

  lemma {:induction false} FlushAllIsRun(s: State, k: nat, taken: map<int32, Req>, ids: seq<int32>)
      returns (steps: seq<Step>, t: State)
    requires k in s.readers && TheReader(k) !in s.completing && s.readers[k].Flushing?
    requires NoDup(ids) && (forall id :: id in ids <==> id in s.readers[k].batch)
    requires forall id :: id in ids ==> id in taken && taken[id] == s.readers[k].batch[id].r
    ensures Executes(s, steps, t) && View(t) == FlushAll(View(s), taken, ids)
    ensures k in t.readers && t.readers[k] == Flushing(map[]) && TheReader(k) !in t.completing
    decreases |ids|
  {
    if ids == [] {
      assert s.readers[k].batch == map[];
      steps, t := [], s;
    } else {
      var u: State, more: seq<Step>;
      steps, u := FlushOneIsRun(s, k, ids[0]);
      assert forall id :: id in ids[1..] <==> id in ids && id != ids[0] by {
        assert ids == [ids[0]] + ids[1..];
      }
      more, t := FlushAllIsRun(u, k, taken, ids[1..]);
      ExecuteThen(s, steps, u, more, t);
      steps := steps + more;
    }
  }

  /** The whole of `flushRequests`, from the read error that starts it. */
  lemma FlushIsRun(s: State, k: nat, order: seq<int32>) returns (steps: seq<Step>, t: State)
    requires ReaderEnabled(s, k, ReadFail) && (s.kind.LBConn? ==> !s.closed)
    requires NoDup(order) && forall id :: id in order <==> id in s.pending
    ensures Executes(s, steps, t)
    ensures View(t) == FlushAll(View(s).(requests := map[], active := false), ByReq(s.pending), order)
                       .(closed := s.closed || s.kind.LBConn?)
  {
    var fail, swap, end := ReaderDoes(k, ReadFail), ReaderDoes(k, Swap), ReaderDoes(k, FlushEnd);
    OneStep(s, fail);
    var broken := Apply(s, fail);
    OneStep(broken, swap);
    var swapped := Apply(broken, swap);
    assert View(swapped) == View(s).(requests := map[], active := false);
    ExecuteThen(s, [fail], broken, [swap], swapped);
    var u: State, more: seq<Step>;
    more, u := FlushAllIsRun(swapped, k, ByReq(s.pending), order);
    ExecuteThen(s, [fail] + [swap], swapped, more, u);
    FlushAnswersAll(View(swapped), ByReq(s.pending), order);
    assert u.kind == View(u).kind == s.kind && u.closed == View(u).closed == s.closed;
    OneStep(u, end);
    t := Apply(u, end);
    steps := [fail] + [swap] + more + [end];
    ExecuteThen(s, [fail] + [swap] + more, u, [end], t);
  }

  // ---------------------------------------------------------------- the object

  class BackendConn {
    const kind: Kind
    var input: seq<Req>
    var inputClosed: bool
    var seqNum2Request: map<int32, Req>
    var currentSeqId: SeqId
    var responses: map<Req, Outcome>
    var waitDone: seq<Req>
    var recycled: set<Req>
    var waitAdd: seq<Req>
    var wire: seq<Out>
    var unflushed: nat
    var isConnActive: bool

    function Fields(): Shared
      reads this
    {
      Shared(kind, input, inputClosed, seqNum2Request, currentSeqId, responses, waitDone, recycled, waitAdd,
             wire, unflushed, isConnActive)
    }

    constructor (kind: Kind)
      ensures Fields() == View(Fresh(kind))
    {
      this.kind := kind;
      input, inputClosed, seqNum2Request, currentSeqId := [], false, map[], BACKEND_CONN_MIN_SEQ_ID;
      responses, waitDone, recycled, waitAdd := map[], [], {}, [];
      wire, unflushed, isConnActive := [], 0, true;
    }

    method PushBack(r: Req) returns (result: PushResult)
      modifies this
      ensures (result, Fields()) == Pushed(old(Fields()), r)
      ensures result.Queued? <==> !inputClosed && |old(input)| < 1024
      ensures result.Panics? <==> inputClosed
      ensures input == if result.Queued? then old(input) + [r] else old(input)
      ensures waitAdd == if r.waits then old(waitAdd) + [r] else old(waitAdd)
    {
      if r.waits {
        waitAdd := waitAdd + [r];
      }
      assert waitAdd == old(waitAdd) + if r.waits then [r] else [];
      if inputClosed {
        return Panics;
      }
      if |input| >= INPUT_CAPACITY {
        return Blocks;
      }
      input := input + [r];
      return Queued;
    }

    /** The request's session recycles it, wherever it is. */
    method Abandon(r: Req)
      modifies this`recycled
      ensures Fields() == old(Fields()).(recycled := old(recycled) + {r})
    {
      recycled := recycled + {r};
    }

    /** A turn in which the writer takes a request takes the head of the queue.  A stale heartbeat
        is dropped, and nothing else is.  On a write error that request fails, and nothing is
        written.  Otherwise one frame goes out, the request's own rewritten for the current id,
        and the request is registered under that id. */
    method WriteNext(timeout: bool, stale: bool, timeUp: bool, fault: bool) returns (result: WriteResult)
      modifies this
      ensures (result, Fields()) == WriteTurn(old(Fields()), timeout, stale, timeUp, fault)
      ensures result.TimedOut? <==> timeout
      ensures result.NormalExit? <==> !timeout && old(input) == [] && inputClosed
      ensures result.Blocked? <==> !timeout && old(input) == [] && !inputClosed
      ensures var took := !timeout && old(input) != [];
        && input == (if took then old(input)[1..] else old(input))
        && (result.Dropped? <==> took && old(input)[0].heartbeat && stale)
        && (result.Failed? <==> took && !result.Dropped? && fault)
        && (result.Written? <==> took && !result.Dropped? && !fault)
      ensures !result.Written? ==>
        && wire == old(wire) && seqNum2Request == old(seqNum2Request) && currentSeqId == old(currentSeqId)
        && unflushed == old(unflushed)
      ensures result.Written? ==>
        var r, bare := old(input)[0], old(input)[0] in recycled;
        var id := if bare then 0 else old(currentSeqId);
        && wire == old(wire) + [Out(id, if bare then [] else Requests.Rewritten(r.frame, kind.ProxyConn?, id))]
        && seqNum2Request == old(seqNum2Request)[id := r]
        && currentSeqId == (if old(currentSeqId) == 100000 then 1 else old(currentSeqId) + 1)
        && unflushed == Framing.CountAfterFlush(old(unflushed), input == [], timeUp, 20)
      ensures if result.Failed? then
                var r := old(input)[0];
                && responses == old(responses)[r := WriteFailed]
                && waitDone == (if r.waits then old(waitDone) + [r] else old(waitDone))
              else responses == old(responses) && waitDone == old(waitDone)
    {
      if timeout {
        return TimedOut;
      }
      if input == [] {
        if inputClosed {
          MarkConnActiveFalse();
          return NormalExit;
        }
        return Blocked;
      }
      var r := input[0];
      input := input[1..];
      if r.heartbeat && stale {
        return Dropped;
      }
      var flush := |input| == 0;
      if fault {
        SetError(r, WriteFailed);
        assert old(waitDone) + [] == old(waitDone);
        return Failed;
      }
      WriteRequest(r, flush, timeUp);
      return Written;
    }

    /** The id goes into the request, the request to the transport, and then it is registered. */
    method WriteRequest(r: Req, flush: bool, timeUp: bool)
      modifies this`wire, this`unflushed, this`currentSeqId, this`seqNum2Request
      ensures Fields() == WrittenTo(old(Fields()), r, OutFor(old(Fields()), r),
                                    Framing.CountAfterFlush(old(unflushed), flush, timeUp, MAX_BUFFERED))
    {
      var out := OutFor(Fields(), r);
      wire := wire + [out];
      unflushed := Framing.CountAfterFlush(unflushed, flush, timeUp, MAX_BUFFERED);
      IncreaseCurrentSeqId();
      seqNum2Request := seqNum2Request[out.id := r];
    }

    method MarkConnActiveFalse()
      modifies this`isConnActive
      ensures !isConnActive
    {
      isConnActive := false;
    }

    method IncreaseCurrentSeqId()
      modifies this`currentSeqId
      ensures currentSeqId == NextId(old(currentSeqId))
    {
      var next := currentSeqId as int + 1;
      if next > BACKEND_CONN_MAX_SEQ_ID {
        next := BACKEND_CONN_MIN_SEQ_ID;
      }
      currentSeqId := next;
    }

    /** `setResponse` without data. */
    method SetError(r: Req, o: Outcome)
      modifies this`responses, this`waitDone
      ensures Fields() == Finish(old(Fields()), r, o)
    {
      responses := responses[r := o];
      if r.waits {
        waitDone := waitDone + [r];
      }
    }

    method Drain()
      modifies this
      ensures Fields() == DrainAll(old(Fields()))
      ensures input == [] && waitDone == old(waitDone) + Waiters(old(input))
      ensures forall r :: r in old(input) ==> r in responses && responses[r] == Drained
      ensures forall r :: r !in old(input) ==> (r in responses <==> r in old(responses))
      ensures forall r :: r !in old(input) && r in responses ==> responses[r] == old(responses)[r]
    {
      DrainAnswersAll(Fields());
      var i := |input|;
      while i != 0
        invariant i == |input| && DrainAll(Fields()) == DrainAll(old(Fields()))
        decreases i
      {
        var r := input[0];
        input := input[1..];
        SetError(r, Drained);
        i := i - 1;
      }
    }

    /** The first call of `MarkOffline`. */
    method MarkOffline()
      modifies this`isConnActive, this`inputClosed
      ensures Fields() == old(Fields()).(closed := true, active := false)
    {
      MarkConnActiveFalse();
      inputClosed := true;
    }

    /** A new transport for a connection that lost its own. */
    method Reconnect()
      modifies this`isConnActive, this`unflushed
      ensures Fields() == old(Fields()).(active := true, unflushed := 0)
    {
      unflushed := 0;
      isConnActive := true;
    }

    /** What `Run` does when the writer loop returned an error. */
    method GiveUp()
      modifies this
      ensures Fields() == DrainAll(old(Fields()).(active := false))
    {
      MarkConnActiveFalse();
      Drain();
    }

    /** `setResponse` with a frame, in a buffer that goes on with `spare`.  The response stands for
        what `RestoreSeqId` makes of the two. */
    method SetResponse(frame: Bytes, spare: Bytes)
      modifies this
      ensures Fields() == AfterReply(old(Fields()), frame, spare)
      ensures match DecodeTypeIdSeqId(frame)
        case None => Fields() == old(Fields())
        case Some((typeId, id)) =>
          if kind.LBConn? && typeId == 21 then Fields() == old(Fields()).(active := false)
          else if id !in old(seqNum2Request) then Fields() == old(Fields())
          else
            && seqNum2Request == old(seqNum2Request) - {id} && input == old(input) && wire == old(wire)
            && isConnActive == old(isConnActive) && currentSeqId == old(currentSeqId)
            && var r := old(seqNum2Request)[id];
               if typeId == 20 then responses == old(responses) && waitDone == old(waitDone)
               else
                 && responses == old(responses)[r := Reply(frame, spare)]
                 && waitDone == (if r.waits then old(waitDone) + [r] else old(waitDone))
    {
      assert old(waitDone) + [] == old(waitDone);
      match DecodeTypeIdSeqId(frame)
      case None =>
      case Some((typeId, seqId)) =>
        if kind.LBConn? && typeId == MESSAGE_TYPE_STOP {
          MarkConnActiveFalse();
          return;
        }
        if seqId in seqNum2Request {
          var r := seqNum2Request[seqId];
          seqNum2Request := seqNum2Request - {seqId};
          if typeId != MESSAGE_TYPE_HEART_BEAT {
            SetError(r, Reply(frame, spare));
          }
        }
    }

    /** The body of the flush loop. */
    method FlushRequest(r: Req)
      modifies this`responses, this`waitDone
      ensures Fields() == FlushOne(old(Fields()), r)
    {
      if !(kind.LBConn? && r.heartbeat) {
        SetError(r, ReadFailed);
      }
    }

    /** The map is swapped for an empty one; its entries fail in whatever order they come. */
    method FlushRequests() returns (ghost order: seq<int32>)
      modifies this
      ensures NoDup(order) && forall id :: id in order <==> id in old(seqNum2Request)
      ensures Fields() == FlushAll(old(Fields()).(requests := map[], active := false), old(seqNum2Request), order)
                          .(closed := old(inputClosed) || kind.LBConn?)
      ensures seqNum2Request == map[] && !isConnActive && (kind.LBConn? ==> inputClosed) && input == old(input)
      ensures waitDone == old(waitDone) + Waiters(Failing(kind, old(seqNum2Request), order))
      ensures responses == old(responses) + ToAll(Failing(kind, old(seqNum2Request), order), ReadFailed)
    {
      order := [];
      MarkConnActiveFalse();
      var taken := seqNum2Request;
      seqNum2Request := map[];
      ghost var start := Fields();
      var left := taken.Keys;
      while left != {}
        invariant left <= taken.Keys
        invariant NoDup(order) && forall id :: id in order <==> id in taken && id !in left
        invariant Fields() == FlushAll(start, taken, order)
        decreases left
      {
        var id :| id in left;
        left := left - {id};
        FlushAppend(start, taken, order, id);
        order := order + [id];
        FlushRequest(taken[id]);
      }
      FlushAnswersAll(start, taken, order);
      if kind.LBConn? {
        inputClosed := true;
      }
    }
  }

  lemma {:induction false} FlushAppend(v: Shared, taken: map<int32, Req>, ids: seq<int32>, id: int32)
    requires id in taken && forall i :: i in ids ==> i in taken
    ensures FlushAll(v, taken, ids).kind == v.kind
    ensures FlushAll(v, taken, ids + [id]) == FlushOne(FlushAll(v, taken, ids), taken[id])
    decreases |ids|
  {
    if ids == [] {
      assert [] + [id] == [id] && [id][1..] == [];
    } else {
      assert (ids + [id])[1..] == ids[1..] + [id];
      FlushAppend(FlushOne(v, taken[ids[0]]), taken, ids[1..], id);
    }
  }
}
