/** A call and its reply, all the way: the theorem of `EndToEnd` is about runs that exist. */
module EndToEndExample {

  import opened ThriftMessage
  import opened EndToEnd
  import M = Multiplexer
  import Safety = MultiplexerSafety
  import Theorems = MultiplexerTheorems
  import Examples = MultiplexerExamples
  import Sessions

  lemma Go(run: seq<State>, step: Step) returns (longer: seq<State>)
    requires Run(run) && Enabled(run[|run| - 1], step)
    ensures Run(longer) && longer[|longer| - 1] == Apply(run[|run| - 1], step)
  {
    longer := run + [Apply(run[|run| - 1], step)];
    forall i | 0 <= i < |longer|
      ensures NextAt(longer, i)
    {
      if i < |run| - 1 {
        assert NextAt(run, i) && longer[i] == run[i] && longer[i + 1] == run[i + 1];
      } else if i == |run| - 1 {
        assert Enabled(longer[i], step) && longer[i + 1] == Apply(longer[i], step);
      }
    }
  }

  /** The only connection takes a step. */
  lemma ConnGo(run: seq<State>, m: M.State, step: M.Step) returns (longer: seq<State>)
    requires Run(run) && run[|run| - 1].conns == [m] && M.Enabled(m, step) && !(step.Produce? && step.p.Abandon?)
    ensures Run(longer) && longer[|longer| - 1] == run[|run| - 1].(conns := [M.Apply(m, step)])
  {
    longer := Go(run, ConnDoes(0, step));
    assert [m][0 := M.Apply(m, step)] == [M.Apply(m, step)];
  }

  /** A fresh connection that was just given `r` sends and registers it. */
  lemma Sends(run: seq<State>, r: M.Req) returns (longer: seq<State>, m: M.State)
    requires Run(run) && M.Enabled(Safety.Fresh(M.ProxyConn), M.Produce(M.Offer(r))) && r.waits
    requires run[|run| - 1].conns == [M.Apply(Safety.Fresh(M.ProxyConn), M.Produce(M.Offer(r)))]
    ensures Run(longer) && longer[|longer| - 1] == run[|run| - 1].(conns := [m])
    ensures m.pending == map[1 := M.Entry(r, 0)] && m.completing == map[] && m.readers == map[0 := M.Reading]
    ensures m.kind.ProxyConn? && m.outcomes == map[] && m.adds == [r] && m.dones == []
  {
    m := M.Apply(Safety.Fresh(M.ProxyConn), M.Produce(M.Offer(r)));
    longer := ConnGo(run, m, M.Produce(M.Send(r)));
    m := M.Apply(m, M.Produce(M.Send(r)));
    longer := ConnGo(longer, m, M.WriterDoes(M.Take));
    m := M.Apply(m, M.WriterDoes(M.Take));
    longer := ConnGo(longer, m, M.WriterDoes(M.Decide));
    m := M.Apply(m, M.WriterDoes(M.Decide));
    longer := ConnGo(longer, m, M.WriterDoes(M.Stamp));
    m := M.Apply(m, M.WriterDoes(M.Stamp));
    longer := ConnGo(longer, m, M.WriterDoes(M.Write(false)));
    m := M.Apply(m, M.WriterDoes(M.Write(false)));
    longer := ConnGo(longer, m, M.WriterDoes(M.Register));
    m := M.Apply(m, M.WriterDoes(M.Register));
  }

  /** The reply comes, and completes it. */
  lemma Replies(run: seq<State>, s: M.State, r: M.Req, reply: Bytes) returns (longer: seq<State>, m: M.State)
    requires Run(run) && run[|run| - 1].conns == [s] && DecodeTypeIdSeqId(reply) == Some((2, 1)) && r.waits
    requires s.pending == map[1 := M.Entry(r, 0)] && s.completing == map[] && s.readers == map[0 := M.Reading]
    requires s.kind.ProxyConn? && s.outcomes == map[] && s.adds == [r] && s.dones == []
    ensures Run(longer) && longer[|longer| - 1] == run[|run| - 1].(conns := [m])
    ensures m.outcomes == map[r := M.Reply(reply, [])] && m.adds == [r] && m.dones == [r]
  {
    var receive := M.ReaderDoes(0, M.Receive(reply, [], Some(0)));
    longer := ConnGo(run, s, receive);
    m := M.Apply(s, receive);
    assert m.completing == map[M.TheReader(0) := M.Completion(r, M.Reply(reply, []), false)];
    longer := ConnGo(longer, m, M.Answer(M.TheReader(0)));
    m := M.Apply(m, M.Answer(M.TheReader(0)));
    longer := ConnGo(longer, m, M.Done(M.TheReader(0)));
    m := M.Apply(m, M.Done(M.TheReader(0)));
  }

  /** The session reads its one frame and dispatches it to a new connection. */
  lemma Begins(r: M.Req) returns (run: seq<State>)
    requires r.waits && r.heartbeat == M.HeartbeatFrame(r.frame)
    ensures Run(run) && M.Enabled(Safety.Fresh(M.ProxyConn), M.Produce(M.Offer(r)))
    ensures run[|run| - 1] == State(
      Sessions.State([r.frame], 1, 1, Sessions.Sending(0), [], Sessions.Ranging, map[], [], {}),
      [M.Apply(Safety.Fresh(M.ProxyConn), M.Produce(M.Offer(r)))], map[0 := Route(0, r)])
  {
    var start := Sessions.State([r.frame], 1, 0, Sessions.Reading, [], Sessions.Ranging, map[], [], {});
    run := [State(start, [], map[])];
    run := Go(run, Connect);
    assert run[|run| - 1].conns == [Safety.Fresh(M.ProxyConn)];
    run := Go(run, DispatchTo(0, r));
  }

  /** Once the connection has finished, the session writes the reply back. */
  lemma Ends(run: seq<State>, m: M.State, r: M.Req, reply: Bytes) returns (longer: seq<State>)
    requires Run(run) && Decode(reply).Some?
    requires m.outcomes == map[r := M.Reply(reply, [])] && m.adds == [r] && m.dones == [r]
    requires run[|run| - 1] == State(
      Sessions.State([r.frame], 1, 1, Sessions.Sending(0), [], Sessions.Ranging, map[], [], {}),
      [m], map[0 := Route(0, r)])
    ensures Run(longer) && longer[|longer| - 1].session.incoming == [r.frame]
    ensures longer[|longer| - 1].session.outgoing == [Sessions.Written(0, Sessions.Replied(reply, []))]
  {
    assert Theorems.WaitCounter(m, r) == 0;
    longer := Go(run, Deliver(0, []));
    longer := Go(longer, SessionDoes(Sessions.Enqueue));
    longer := Go(longer, SessionDoes(Sessions.Take));
    longer := Go(longer, SessionDoes(Sessions.WriteBack));
  }

  /** For any ordinary reply to its first call, a run in which the client gets it. */
  lemma RoundTrip(reply: Bytes) returns (run: seq<State>)
    requires DecodeTypeIdSeqId(reply) == Some((2, 1))
    ensures Run(run)
    ensures run[|run| - 1].session.incoming == [Examples.Call(0).frame]
    ensures run[|run| - 1].session.outgoing == [Sessions.Written(0, Sessions.Replied(reply, []))]
  {
    var r := Examples.Call(0);
    run := Begins(r);
    var m: M.State;
    run, m := Sends(run, r);
    run, m := Replies(run, m, r, reply);
    run := Ends(run, m, r, reply);
  }
}
