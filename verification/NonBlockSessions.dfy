/** The load balancer's session: every frame is handled by a goroutine of its own, which sends
    the finished request to the task channel; the channel is closed once all have reported. */
module NonBlockSessions {

  datatype Handler = Running | Sent | Finished

  datatype Main = Reading | Waiting | Closed

  datatype State = State(
    main: Main,
    handlers: seq<Handler>,      // one per frame read
    wait: int,                   // the WaitGroup
    sent: seq<nat>               // sends on the task channel, by frame number
  )

  datatype Step =
    | ReadFrame            // wait.Add(1) and go
    | ReadError
    | Send(i: nat)         // tasks <- r
    | Report(i: nat)       // wait.Done()
    | Close                // wait.Wait() returned

  predicate Enabled(s: State, step: Step) {
    match step
    case ReadFrame => s.main.Reading?
    case ReadError => s.main.Reading?
    case Send(i) => i < |s.handlers| && s.handlers[i].Running?
    case Report(i) => i < |s.handlers| && s.handlers[i].Sent?
    case Close => s.main.Waiting? && s.wait == 0
  }

  function Apply(s: State, step: Step): State
    requires Enabled(s, step)
  {
    match step
    case ReadFrame => s.(handlers := s.handlers + [Running], wait := s.wait + 1)
    case ReadError => s.(main := Waiting)
    case Send(i) => s.(handlers := s.handlers[i := Sent], sent := s.sent + [i])
    case Report(i) => s.(handlers := s.handlers[i := Finished], wait := s.wait - 1)
    case Close => s.(main := Closed)
  }

  /** Handlers that have not reported. */
  function Live(handlers: seq<Handler>): nat {
    if handlers == [] then 0
    else Live(handlers[..|handlers| - 1]) + if handlers[|handlers| - 1].Finished? then 0 else 1
  }

  lemma {:induction false} LiveUpdate(handlers: seq<Handler>, i: nat, h: Handler)
    requires i < |handlers|
    ensures Live(handlers[i := h]) ==
      Live(handlers) - (if handlers[i].Finished? then 0 else 1) + (if h.Finished? then 0 else 1)
  {
    var n := |handlers| - 1;
    if i == n {
      assert handlers[i := h][..n] == handlers[..n];
    } else {
      LiveUpdate(handlers[..n], i, h);
      assert handlers[i := h][..n] == handlers[..n][i := h];
    }
  }

  lemma {:induction false} NoneLive(handlers: seq<Handler>, i: nat)
    requires Live(handlers) == 0 && i < |handlers|
    ensures handlers[i].Finished?
  {
    if i < |handlers| - 1 {
      NoneLive(handlers[..|handlers| - 1], i);
    }
  }

  ghost predicate Inv(s: State) {
    && s.wait == Live(s.handlers)
    && (forall i, j :: 0 <= i < j < |s.sent| ==> s.sent[i] != s.sent[j])
    && (forall i :: i in s.sent <==> 0 <= i < |s.handlers| && !s.handlers[i].Running?)
    && (s.main.Closed? ==> s.wait == 0)
  }

  lemma SendKeepsInv(s: State, i: nat)
    requires Inv(s) && Enabled(s, Send(i))
    ensures Inv(Apply(s, Send(i)))
  {
    LiveUpdate(s.handlers, i, Sent);
    if s.main.Closed? {
      NoneLive(s.handlers, i);
    }
    assert i !in s.sent;
  }

  lemma ReportKeepsInv(s: State, i: nat)
    requires Inv(s) && Enabled(s, Report(i))
    ensures Inv(Apply(s, Report(i)))
  {
    LiveUpdate(s.handlers, i, Finished);
    if s.main.Closed? {
      NoneLive(s.handlers, i);
    }
  }

  lemma ReadKeepsInv(s: State)
    requires Inv(s) && Enabled(s, ReadFrame)
    ensures Inv(Apply(s, ReadFrame))
  {
    assert (s.handlers + [Running])[..|s.handlers|] == s.handlers;
  }

  lemma StepKeepsInv(s: State, step: Step)
    requires Inv(s) && Enabled(s, step)
    ensures Inv(Apply(s, step))
  {
    match step
    case ReadFrame => ReadKeepsInv(s);
    case Send(i) => SendKeepsInv(s, i);
    case Report(i) => ReportKeepsInv(s, i);
    case _ =>
  }

  ghost predicate Next(s: State, t: State) {
    exists step :: Enabled(s, step) && t == Apply(s, step)
  }

  ghost predicate Run(run: seq<State>) {
    && run != [] && run[0] == State(Reading, [], 0, [])
    && forall i :: 0 <= i < |run| - 1 ==> Next(run[i], run[i + 1])
  }

  lemma {:induction false} RunKeepsInv(run: seq<State>, i: nat)
    requires Run(run) && i < |run|
    ensures Inv(run[i])
  {
    if i > 0 {
      RunKeepsInv(run, i - 1);
      assert Next(run[i - 1], run[i - 1 + 1]);
      var step :| Enabled(run[i - 1], step) && run[i] == Apply(run[i - 1], step);
      StepKeepsInv(run[i - 1], step);
    }
  }

  /** For every completion order: nothing is sent on the closed channel, and once it is closed
      every frame read has been sent to it exactly once. */
  lemma NoSendAfterClose(run: seq<State>, i: nat)
    requires Run(run) && i < |run| && run[i].main.Closed?
    ensures forall k :: !Enabled(run[i], Send(k))
    ensures forall k :: 0 <= k < |run[i].handlers| ==> k in run[i].sent
    ensures forall j, k :: 0 <= j < k < |run[i].sent| ==> run[i].sent[j] != run[i].sent[k]
    ensures forall k :: k in run[i].sent ==> k < |run[i].handlers|
  {
    RunKeepsInv(run, i);
    forall k | 0 <= k < |run[i].handlers|
      ensures run[i].handlers[k].Finished?
    {
      NoneLive(run[i].handlers, k);
    }
  }

  // ------------------------------------------------------- every order happens

  ghost predicate Executes(s: State, steps: seq<Step>, t: State)
    decreases |steps|
  {
    if steps == [] then s == t else Enabled(s, steps[0]) && Executes(Apply(s, steps[0]), steps[1..], t)
  }

  lemma {:induction false} ExecuteThen(s: State, a: seq<Step>, t: State, b: seq<Step>, u: State)
    requires Executes(s, a, t) && Executes(t, b, u)
    ensures Executes(s, a + b, u)
    decreases |a|
  {
    if a == [] {
      assert a + b == b;
    } else {
      ExecuteThen(Apply(s, a[0]), a[1..], t, b, u);
      assert (a + b)[1..] == a[1..] + b;
    }
  }

  lemma OneStep(s: State, step: Step)
    requires Enabled(s, step)
    ensures Executes(s, [step], Apply(s, step))
  {
    assert Executes(Apply(s, step), [step][1..], Apply(s, step));
  }

  /** The session reads `n` frames. */
  lemma {:induction false} ReadsFrames(n: nat) returns (steps: seq<Step>, t: State)
    ensures Executes(State(Reading, [], 0, []), steps, t)
    ensures t == State(Reading, seq(n, _ => Running), n, [])
  {
    if n == 0 {
      steps, t := [], State(Reading, [], 0, []);
      assert t.handlers == seq(0, _ => Running);
    } else {
      var u: State;
      steps, u := ReadsFrames(n - 1);
      OneStep(u, ReadFrame);
      t := Apply(u, ReadFrame);
      ExecuteThen(State(Reading, [], 0, []), steps, u, [ReadFrame], t);
      steps := steps + [ReadFrame];
      assert t.handlers == seq(n, _ => Running);
    }
  }

  /** Handlers in `order`, all running and different, send and report one after the other. */
  lemma {:induction false} Serves(s: State, order: seq<nat>) returns (steps: seq<Step>, t: State)
    requires forall i :: 0 <= i < |order| ==> order[i] < |s.handlers| && s.handlers[order[i]].Running?
    requires forall i, j :: 0 <= i < j < |order| ==> order[i] != order[j]
    ensures Executes(s, steps, t) && t.main == s.main && t.sent == s.sent + order && t.wait == s.wait - |order|
    ensures |t.handlers| == |s.handlers|
    decreases |order|
  {
    if order == [] {
      steps, t := [], s;
      assert s.sent + order == s.sent;
    } else {
      var send, report := Send(order[0]), Report(order[0]);
      OneStep(s, send);
      var u := Apply(s, send);
      OneStep(u, report);
      var w := Apply(u, report);
      ExecuteThen(s, [send], u, [report], w);
      steps, t := Serves(w, order[1..]);
      ExecuteThen(s, [send] + [report], w, steps, t);
      steps := [send] + [report] + steps;
      assert s.sent + order == s.sent + [order[0]] + order[1..];
    }
  }

  /** For every order in which the handlers of `n` frames finish, the session gets to close its
      channel, and the frames were sent in that order. */
  lemma EveryOrderHappens(n: nat, order: seq<nat>) returns (steps: seq<Step>, t: State)
    requires |order| == n && forall i :: 0 <= i < n ==> order[i] < n
    requires forall i, j :: 0 <= i < j < n ==> order[i] != order[j]
    ensures Executes(State(Reading, [], 0, []), steps, t)
    ensures t.main == Closed && t.sent == order && |t.handlers| == n
  {
    var start := State(Reading, [], 0, []);
    var u: State, more: seq<Step>;
    steps, u := ReadsFrames(n);
    OneStep(u, ReadError);
    var w := Apply(u, ReadError);
    ExecuteThen(start, steps, u, [ReadError], w);
    steps := steps + [ReadError];
    more, t := Serves(w, order);
    ExecuteThen(start, steps, w, more, t);
    steps := steps + more;
    assert t.sent == order;
    OneStep(t, Close);
    ExecuteThen(start, steps, t, [Close], Apply(t, Close));
    steps, t := steps + [Close], Apply(t, Close);
  }
}
