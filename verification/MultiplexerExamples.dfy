/** Runs that show the exceptions of the theorems to be real. */
module MultiplexerExamples {

  import opened ThriftMessage
  import opened SeqIds
  import opened Multiplexer
  import opened MultiplexerSafety
  import opened MultiplexerTheorems
  import opened MultiplexerWakeups
  import Framing

  /** A call of method "m" of service "s". */
  function Call(id: nat): (r: Req)
    ensures !HeartbeatFrame(r.frame)
  {
    DecodeEncode(Message([115, 58, 109], 1, 7, []));
    Req(id, true, false, Encode(Message([115, 58, 109], 1, 7, [])))
  }

  /** `NewPingRequest`. */
  function Ping(id: nat): (r: Req)
    ensures HeartbeatFrame(r.frame)
  {
    DecodeEncode(Message([112, 105, 110, 103], 20, 0, []));
    Req(id, false, true, Encode(Message([112, 105, 110, 103], 20, 0, [])))
  }

  /** The writer takes the head of the queue and sends it. */
  lemma SendHead(run: seq<State>, timeUp: bool) returns (longer: seq<State>)
    requires Run(run)
    requires var s := run[|run| - 1]; s.writer.AtSelect? && TheWriter !in s.completing && s.input != []
    ensures Run(longer)
    ensures var s, t := run[|run| - 1], longer[|longer| - 1];
      && t.writer == Sent(Entry(s.input[0], |s.sends|), IdToSend(s, s.input[0]))
      && t == s.(writer := t.writer, input := s.input[1..], current := NextId(s.current),
                 sends := s.sends + [s.input[0]], wire := t.wire,
                 unflushed := Framing.CountAfterFlush(s.unflushed, s.input[1..] == [], timeUp, MAX_BUFFERED))
  {
    longer := Extend(run, WriterDoes(Take));
    longer := Extend(longer, WriterDoes(Decide));
    longer := Extend(longer, WriterDoes(Stamp));
    longer := Extend(longer, WriterDoes(Write(timeUp)));
  }

  lemma Push(run: seq<State>, r: Req) returns (longer: seq<State>)
    requires Run(run) && r.heartbeat == HeartbeatFrame(r.frame)
    requires var s := run[|run| - 1]; |s.input| < INPUT_CAPACITY && !s.closed && r !in s.offered
    ensures Run(longer)
    ensures var s, t := run[|run| - 1], longer[|longer| - 1];
      t == s.(offered := s.offered + {r}, pushed := s.pushed + {r}, pushing := t.pushing,
              adds := if r.waits then s.adds + [r] else s.adds, input := s.input + [r])
  {
    longer := Extend(run, Produce(Offer(r)));
    longer := Extend(longer, Produce(Send(r)));
  }

  /** A frame can sit unflushed with nothing left to wake the writer.  The first frame on a
      transport is always flushed, as if the last flush was long ago; the second, written at once,
      waits for the heartbeat behind it, which is dropped. */
  lemma StaleHeartbeatLosesWakeup() returns (run: seq<State>)
    ensures Run(run) && Asleep(run[|run| - 1])
    ensures run[|run| - 1].sends == [Call(0), Call(1)] && run[|run| - 1].unflushed == 1
  {
    run := LeaveOneUnflushed();
    run := Extend(run, WriterDoes(Take));
    run := Extend(run, WriterDoes(DropStale));
  }

  lemma LeaveOneUnflushed() returns (run: seq<State>)
    ensures Run(run)
    ensures var s := run[|run| - 1];
      && s.writer.AtSelect? && s.completing == map[] && s.input == [Ping(2)] && s.unflushed == 1
      && s.sends == [Call(0), Call(1)]
  {
    run := Push([Fresh(ProxyConn)], Call(0));
    run := Push(run, Call(1));
    run := Push(run, Ping(2));
    run := SendHead(run, true);
    run := Extend(run, WriterDoes(Register));
    run := SendHead(run, false);
    run := Extend(run, WriterDoes(Register));
  }

  /** The reply to the only request comes before its registration, and the request stays pending
      with its session waiting. */
  lemma EarlyReplyIsDropped(frame: Bytes) returns (run: seq<State>)
    requires DecodeTypeIdSeqId(frame) == Some((2, 1))
    ensures Run(run)
    ensures var s := run[|run| - 1];
      s.pending == map[1 := Entry(Call(0), 0)] && s.completing == map[] && WaitCounter(s, Call(0)) == 1
  {
    run := Push([Fresh(ProxyConn)], Call(0));
    run := SendHead(run, true);
    run := Extend(run, ReaderDoes(0, Receive(frame, [], Some(0))));
    run := Extend(run, WriterDoes(Register));
  }

  /** A request given up by its session while the idle writer's queue is empty. */
  lemma SendAbandoned(run: seq<State>, r: Req) returns (longer: seq<State>)
    requires Run(run) && r.waits && r.heartbeat == HeartbeatFrame(r.frame)
    requires var s := run[|run| - 1];
      && s.kind.ProxyConn? && s.writer.AtSelect? && TheWriter !in s.completing && s.input == [] && !s.closed
      && r !in s.offered
    ensures Run(longer)
    ensures var s, t := run[|run| - 1], longer[|longer| - 1];
      && t.kind.ProxyConn? && t.writer.AtSelect? && t.completing == s.completing && t.input == [] && !t.closed
      && t.offered == s.offered + {r} && t.sends == s.sends + [r]
      && t.pending == s.pending[NO_SEQ_ID := Entry(r, |s.sends|)]
      && t.lost == if NO_SEQ_ID in s.pending then s.lost[s.pending[NO_SEQ_ID].r := Displaced] else s.lost
  {
    longer := Push(run, r);
    longer := Extend(longer, Produce(Abandon(r)));
    longer := SendHead(longer, true);
    longer := Extend(longer, WriterDoes(Register));
  }

  /** Two requests given up before they were written displace each other. */
  lemma AbandonedRequestsCollide() returns (run: seq<State>)
    ensures Run(run)
    ensures var s := run[|run| - 1];
      s.lost == map[Call(0) := Displaced] && s.pending == map[0 := Entry(Call(1), 1)]
  {
    run := SendAbandoned([Fresh(ProxyConn)], Call(0));
    run := SendAbandoned(run, Call(1));
  }

  /** A connection can become active again after it was marked offline: `ensureConn` and
      `loopWriter` do not look at the mark once the socket is open.  Here a write fails, the
      connection goes on to reconnect, and is marked offline meanwhile. */
  lemma ActiveAfterClose() returns (run: seq<State>)
    ensures Run(run) && run[|run| - 1].closed && run[|run| - 1].active
  {
    run := FailedWrite();
    run := Extend(run, WriterDoes(StartDrain));
    run := Extend(run, Produce(Close));
    run := Extend(run, WriterDoes(Reconnect(1)));
  }

  lemma FailedWrite() returns (run: seq<State>)
    ensures Run(run)
    ensures var s := run[|run| - 1];
      && s.kind.ProxyConn? && s.writer == Leaving && s.completing == map[] && s.input == [] && !s.closed
      && s.readers == map[0 := Reading]
  {
    run := Push([Fresh(ProxyConn)], Call(0));
    run := Extend(run, WriterDoes(Take));
    run := Extend(run, WriterDoes(Decide));
    run := Extend(run, WriterDoes(Stamp));
    run := Extend(run, WriterDoes(WriteFail));
    run := Extend(run, Answer(TheWriter));
    run := Extend(run, Done(TheWriter));
  }
}
