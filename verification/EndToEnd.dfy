/** A client session on top of any number of multiplexed connections, which it shares with any
    number of others: all interleavings of the session's goroutines and the connections'. */
module EndToEnd {

  import opened ThriftMessage
  import opened Requests
  import M = Multiplexer
  import Safety = MultiplexerSafety
  import Theorems = MultiplexerTheorems
  import Sessions

  /** Where the dispatcher put a request of the session. */
  datatype Route = Route(c: nat, r: M.Req)

  datatype State = State(session: Sessions.State, conns: seq<M.State>, routes: map<nat, Route>)

  datatype Step =
    | Connect                                 // a new backend connection
    | ConnDoes(c: nat, m: M.Step)             // a connection, or another session on it
    | DispatchTo(c: nat, r: M.Req)            // the session's next frame goes to a connection
    | DispatchNone(a: Sessions.Answer)        // there is no such service, or no worker for it
    | Deliver(n: nat, exc: Bytes)             // the session gets past `Wait` for request `n`
    | SessionDoes(t: Sessions.Step)

  /** `handleResponse`: an error becomes an exception, with `exc` for its body. */
  function AnswerOf(o: M.Outcome, exc: Bytes): Sessions.Answer {
    match o
    case Reply(frame, spare) => Sessions.Replied(frame, spare)
    case NotFound => Sessions.WorkerNotFound(exc)
    case _ => Sessions.Failed(exc)
  }

  predicate Routed(s: State, n: nat) {
    n in s.routes && s.routes[n].c < |s.conns|
  }

  /** The connection request `n` went to. */
  function ConnOf(s: State, n: nat): M.State
    requires Routed(s, n)
  {
    s.conns[s.routes[n].c]
  }

  function ReqOf(s: State, n: nat): M.Req
    requires n in s.routes
  {
    s.routes[n].r
  }

  /** The session has recycled request `n`: after writing its response, or without waiting. */
  predicate Released(s: State, n: nat) {
    n in s.session.dropped || n < |s.session.outgoing|
  }

  /** A request is only recycled by the session it belongs to. */
  ghost predicate MayRecycle(s: State, c: nat, step: M.Step) {
    step.Produce? && step.p.Abandon? ==>
      forall n :: n in s.routes && s.routes[n] == Route(c, step.p.r) ==> Released(s, n)
  }

  ghost predicate Enabled(s: State, step: Step) {
    match step
    case Connect => true
    case ConnDoes(c, m) => c < |s.conns| && M.Enabled(s.conns[c], m) && MayRecycle(s, c, m)
    case DispatchTo(c, r) =>
      && c < |s.conns| && M.Enabled(s.conns[c], M.Produce(M.Offer(r))) && r.waits
      && Sessions.Enabled(s.session, Sessions.Dispatch(None))
      && r.frame == s.session.incoming[s.session.dispatched]
    case DispatchNone(a) =>
      (a.ServiceNotFound? || a.WorkerNotFound?) && Sessions.Enabled(s.session, Sessions.Dispatch(Some(a)))
    case Deliver(n, exc) =>
      && Routed(s, n) && Theorems.WaitCounter(ConnOf(s, n), ReqOf(s, n)) == 0
      && ReqOf(s, n) in ConnOf(s, n).outcomes
      && Sessions.Enabled(s.session, Sessions.Complete(n, AnswerOf(ConnOf(s, n).outcomes[ReqOf(s, n)], exc)))
    case SessionDoes(t) => !t.Dispatch? && !t.Complete? && Sessions.Enabled(s.session, t)
  }

  ghost function Apply(s: State, step: Step): State
    requires Enabled(s, step)
  {
    match step
    case Connect => s.(conns := s.conns + [Safety.Fresh(M.ProxyConn)])
    case ConnDoes(c, m) => s.(conns := s.conns[c := M.Apply(s.conns[c], m)])
    case DispatchTo(c, r) => Dispatched(s, c, M.Apply(s.conns[c], M.Produce(M.Offer(r))), r)
    case DispatchNone(a) => s.(session := Sessions.Apply(s.session, Sessions.Dispatch(Some(a))))
    case Deliver(n, exc) =>
      s.(session := Sessions.Apply(s.session,
           Sessions.Complete(n, AnswerOf(ConnOf(s, n).outcomes[ReqOf(s, n)], exc))))
    case SessionDoes(t) => s.(session := Sessions.Apply(s.session, t))
  }

  // --------------------------------------------------------------- connections

  ghost predicate ConnInv(m: M.State) {
    m.kind.ProxyConn? && Safety.Inv(m) && Theorems.OwnReplies(m)
  }

  /** What a connection never takes back. */
  ghost predicate Evolves(m: M.State, t: M.State) {
    && m.pushed <= t.pushed && m.sends <= t.sends && m.wire <= t.wire && t.kind == m.kind
    && forall r :: r in m.outcomes ==> r in t.outcomes && t.outcomes[r] == m.outcomes[r]
  }

  ghost predicate RecyclesOnly(m: M.State, t: M.State, step: M.Step) {
    forall r :: r in t.recycled && r !in m.recycled ==> step == M.Produce(M.Abandon(r))
  }

  lemma ProducerEvolves(m: M.State, p: M.ProducerStep)
    requires M.OnePlace(m) && Safety.Books(m) && M.ProducerEnabled(m, p)
    ensures Evolves(m, M.ProducerApply(m, p)) && RecyclesOnly(m, M.ProducerApply(m, p), M.Produce(p))
  {
    if p.Reject? {
      Safety.NewcomerNotAnswered(m, p.r);
    }
  }

  lemma CompletionEvolves(m: M.State, a: M.Agent)
    requires Safety.Books(m) && a in m.completing
    ensures M.Enabled(m, M.Answer(a)) ==> Evolves(m, M.AnswerApply(m, a)) && m.recycled == M.AnswerApply(m, a).recycled
    ensures M.Enabled(m, M.Done(a)) ==> Evolves(m, M.DoneApply(m, a)) && m.recycled == M.DoneApply(m, a).recycled
  {
  }

  lemma ReaderEvolves(m: M.State, k: nat, d: M.ReaderStep)
    requires Safety.Losses(m) && M.ReaderEnabled(m, k, d)
    ensures Evolves(m, M.ReaderApply(m, k, d)) && m.recycled == M.ReaderApply(m, k, d).recycled
  {
    Safety.ReadersLeaveWriterAlone(m, k, d);
  }

  lemma WriterEvolves(m: M.State, w: M.WriterStep)
    requires M.WriterEnabled(m, w)
    ensures Evolves(m, M.WriterApply(m, w)) && m.recycled == M.WriterApply(m, w).recycled
  {
    Safety.WriterLogs(m, w);
  }

  lemma ConnStep(m: M.State, step: M.Step)
    requires ConnInv(m) && M.Enabled(m, step)
    ensures ConnInv(M.Apply(m, step)) && Aligned(M.Apply(m, step))
    ensures Evolves(m, M.Apply(m, step)) && RecyclesOnly(m, M.Apply(m, step), step)
  {
    ConnEvolves(m, step);
    Safety.StepKeepsInv(m, step);
    Theorems.StepKeepsOwnReplies(m, step);
  }

  lemma ConnEvolves(m: M.State, step: M.Step)
    requires ConnInv(m) && M.Enabled(m, step)
    ensures Evolves(m, M.Apply(m, step)) && RecyclesOnly(m, M.Apply(m, step), step)
  {
    match step
    case Produce(p) => ProducerEvolves(m, p);
    case WriterDoes(w) => WriterEvolves(m, w);
    case ReaderDoes(k, d) => ReaderEvolves(m, k, d);
    case Answer(a) => CompletionEvolves(m, a);
    case Done(a) => CompletionEvolves(m, a);
  }

  // ----------------------------------------------------------------- invariant

  predicate Matches(a: Sessions.Answer, o: M.Outcome) {
    match o
    case Reply(frame, spare) => a == Sessions.Replied(frame, spare)
    case NotFound => a.WorkerNotFound?
    case _ => a.Failed?
  }

  predicate Aligned(m: M.State) { |m.sends| == |m.wire| }

  /** Request `n` is made of frame `n`, went to its connection, and keeps its data until the
      session is done with it. */
  predicate RouteOk(s: State, n: nat) {
    && Routed(s, n) && n < s.session.dispatched <= |s.session.incoming|
    && ReqOf(s, n).waits && ReqOf(s, n) in ConnOf(s, n).pushed && ReqOf(s, n).frame == s.session.incoming[n]
    && (ReqOf(s, n) in ConnOf(s, n).recycled ==> Released(s, n))
  }

  /** A connection has request `n`, or it is answered. */
  predicate Cared(s: State, n: nat) {
    n in s.routes || n in s.session.answers
  }

  /** Response `n` is what the connection left in the request, or the dispatcher's. */
  predicate AnswerOk(s: State, n: nat)
    requires n in s.session.answers
  {
    if n in s.routes then
      && Routed(s, n) && ReqOf(s, n) in ConnOf(s, n).outcomes
      && Matches(s.session.answers[n], ConnOf(s, n).outcomes[ReqOf(s, n)])
    else s.session.answers[n].ServiceNotFound? || s.session.answers[n].WorkerNotFound?
  }

  /** Send number `k` of its connection put frame `n`, rewritten, on the wire, and `reply` bears the
      id to be read there. */
  predicate RepliesTo(s: State, n: nat, k: nat, reply: Bytes) {
    && Routed(s, n) && k < |ConnOf(s, n).sends| == |ConnOf(s, n).wire| && ConnOf(s, n).sends[k] == ReqOf(s, n)
    && Theorems.Answers(ConnOf(s, n), ReqOf(s, n), ConnOf(s, n).wire[k], reply)
  }

  ghost predicate Settled(s: State, n: nat) {
    n in s.routes && n in s.session.answers && s.session.answers[n].Replied? ==>
      exists k :: RepliesTo(s, n, k, s.session.answers[n].frame)
  }

  ghost predicate SessionInv(s: Sessions.State) {
    Sessions.Answered(s) && (s.writer.Abandoned? || Sessions.InOrder(s))
  }

  /** Session and connections agree. */
  ghost predicate Linked(s: State) {
    && (forall c :: 0 <= c < |s.conns| ==> Aligned(s.conns[c]))
    && SessionInv(s.session)
    && (forall n :: n in s.routes ==> RouteOk(s, n))
    && (forall n, m :: n in s.routes && m in s.routes && s.routes[n] == s.routes[m] ==> n == m)
    && (forall n :: 0 <= n < s.session.dispatched ==> Cared(s, n))
    && (forall n :: n in s.session.answers ==> AnswerOk(s, n))
    && (forall n :: 0 <= n < |s.session.outgoing| ==> Settled(s, n))
  }

  ghost predicate Inv(s: State) {
    (forall c :: 0 <= c < |s.conns| ==> ConnInv(s.conns[c])) && Linked(s)
  }

  /** Nothing settled in `s` is unsettled in `t`. */
  ghost predicate Carries(s: State, t: State) {
    && |s.conns| <= |t.conns| && (forall c :: 0 <= c < |s.conns| ==> Evolves(s.conns[c], t.conns[c]))
    && (forall n :: n in s.routes ==> n in t.routes && t.routes[n] == s.routes[n])
    && (forall n :: n in t.routes && n !in s.routes ==> n >= s.session.dispatched)
    && t.session.incoming == s.session.incoming && s.session.dispatched <= t.session.dispatched <= |t.session.incoming|
    && s.session.outgoing <= t.session.outgoing && s.session.dropped <= t.session.dropped
    && (forall n :: n in s.session.answers ==> n in t.session.answers && t.session.answers[n] == s.session.answers[n])
  }

  lemma RepliesToStays(s: State, t: State, n: nat, k: nat, reply: Bytes)
    requires Carries(s, t) && RepliesTo(s, n, k, reply)
    requires forall c :: 0 <= c < |t.conns| ==> Aligned(t.conns[c])
    ensures RepliesTo(t, n, k, reply)
  {
    var m, m' := ConnOf(s, n), ConnOf(t, n);
    assert Evolves(m, m') && Aligned(m');
    assert m'.sends[k] == m.sends[k] && m'.wire[k] == m.wire[k];
  }

  lemma SettledStays(s: State, t: State, n: nat)
    requires Carries(s, t) && SessionInv(s.session) && n < |s.session.outgoing| && Settled(s, n)
    requires forall c :: 0 <= c < |t.conns| ==> Aligned(t.conns[c])
    ensures Settled(t, n)
  {
    if n in s.routes && s.session.answers[n].Replied? {
      var k :| RepliesTo(s, n, k, s.session.answers[n].frame);
      RepliesToStays(s, t, n, k, s.session.answers[n].frame);
    }
  }

  lemma RouteStays(s: State, t: State, n: nat)
    requires Carries(s, t) && n in s.routes && RouteOk(s, n)
    requires ReqOf(t, n) in t.conns[t.routes[n].c].recycled ==> Released(t, n)
    ensures RouteOk(t, n)
  {
    assert Evolves(ConnOf(s, n), ConnOf(t, n));
  }

  lemma AnswerStays(s: State, t: State, n: nat)
    requires Carries(s, t) && n in s.session.answers && AnswerOk(s, n) && n < s.session.dispatched
    ensures AnswerOk(t, n)
  {
    if n in s.routes {
      assert Evolves(ConnOf(s, n), ConnOf(t, n));
    }
  }

  /** What is left to show of a step: the new things. */
  lemma LinkedCarries(s: State, t: State)
    requires Linked(s) && Carries(s, t) && SessionInv(t.session)
    requires forall c :: 0 <= c < |t.conns| ==> Aligned(t.conns[c])
    requires forall n :: n in s.routes && ReqOf(t, n) in t.conns[t.routes[n].c].recycled ==> Released(t, n)
    requires forall n :: n in t.routes && n !in s.routes ==> RouteOk(t, n)
    requires forall n, m :: n in t.routes && m in t.routes && t.routes[n] == t.routes[m] ==> n == m
    requires forall n :: s.session.dispatched <= n < t.session.dispatched ==> Cared(t, n)
    requires forall n :: n in t.session.answers && n !in s.session.answers ==> AnswerOk(t, n)
    requires forall n :: |s.session.outgoing| <= n < |t.session.outgoing| ==> Settled(t, n)
    ensures Linked(t)
  {
    forall n | n in t.routes
      ensures RouteOk(t, n)
    {
      if n in s.routes {
        RouteStays(s, t, n);
      }
    }
    forall n | 0 <= n < t.session.dispatched
      ensures Cared(t, n)
    {
      assert n < s.session.dispatched ==> Cared(s, n);
    }
    forall n | n in t.session.answers
      ensures AnswerOk(t, n)
    {
      if n in s.session.answers {
        AnswerStays(s, t, n);
      }
    }
    forall n | 0 <= n < |t.session.outgoing|
      ensures Settled(t, n)
    {
      if n < |s.session.outgoing| {
        SettledStays(s, t, n);
      }
    }
  }

  // --------------------------------------------------------------------- steps

  lemma SessionKeepsInv(s: Sessions.State, t: Sessions.Step)
    requires SessionInv(s) && Sessions.Enabled(s, t)
    ensures SessionInv(Sessions.Apply(s, t))
  {
    Sessions.StepKeepsAnswered(s, t);
    if !s.writer.Abandoned? {
      Sessions.StepKeepsOrder(s, t);
    }
  }

  /** The session goes on, the connections stand still. */
  ghost predicate SessionGoesOn(s: Sessions.State, t: Sessions.State) {
    && t.incoming == s.incoming && s.dispatched <= t.dispatched <= |t.incoming|
    && s.outgoing <= t.outgoing && s.dropped <= t.dropped
    && forall n :: n in s.answers ==> n in t.answers && t.answers[n] == s.answers[n]
  }

  lemma SessionMonotone(s: Sessions.State, step: Sessions.Step)
    requires SessionInv(s) && Sessions.Enabled(s, step)
    ensures SessionGoesOn(s, Sessions.Apply(s, step))
  {
  }

  lemma SameConnsCarry(s: State, t: State)
    requires Linked(s) && t.conns == s.conns && SessionGoesOn(s.session, t.session)
    requires forall n :: n in s.routes ==> n in t.routes && t.routes[n] == s.routes[n]
    requires forall n :: n in t.routes && n !in s.routes ==> n >= s.session.dispatched
    ensures Carries(s, t)
    ensures forall n :: n in s.routes && ReqOf(t, n) in t.conns[t.routes[n].c].recycled ==> Released(t, n)
  {
    forall n | n in s.routes && ReqOf(t, n) in t.conns[t.routes[n].c].recycled
      ensures Released(t, n)
    {
      assert RouteOk(s, n);
    }
  }

  /** Connection `c` takes a step to `m`. */
  lemma ConnKeepsLinked(s: State, c: nat, m: M.State, step: M.Step)
    requires Linked(s) && c < |s.conns| && Aligned(m) && Evolves(s.conns[c], m)
    requires RecyclesOnly(s.conns[c], m, step) && MayRecycle(s, c, step)
    ensures Linked(s.(conns := s.conns[c := m]))
  {
    var t := s.(conns := s.conns[c := m]);
    forall n | n in s.routes && ReqOf(t, n) in t.conns[t.routes[n].c].recycled
      ensures Released(t, n)
    {
      assert RouteOk(s, n);
    }
    LinkedCarries(s, t);
  }

  lemma ConnectKeepsLinked(s: State, m: M.State)
    requires Linked(s) && Aligned(m)
    ensures Linked(s.(conns := s.conns + [m]))
  {
    var t := s.(conns := s.conns + [m]);
    forall n | n in s.routes && ReqOf(t, n) in t.conns[t.routes[n].c].recycled
      ensures Released(t, n)
    {
      assert RouteOk(s, n);
    }
    LinkedCarries(s, t);
  }

  /** The next frame goes out as `r` to connection `c`, which is `m` then. */
  function Dispatched(s: State, c: nat, m: M.State, r: M.Req): State
    requires c < |s.conns| && Sessions.Enabled(s.session, Sessions.Dispatch(None))
  {
    s.(conns := s.conns[c := m], session := Sessions.Apply(s.session, Sessions.Dispatch(None)),
       routes := s.routes[s.session.dispatched := Route(c, r)])
  }

  lemma RouteKeepsLinked(s: State, c: nat, r: M.Req)
    requires Linked(s) && c < |s.conns| && r in s.conns[c].pushed && r !in s.conns[c].recycled && r.waits
    requires Sessions.Enabled(s.session, Sessions.Dispatch(None))
    requires r.frame == s.session.incoming[s.session.dispatched]
    requires forall n :: n in s.routes ==> s.routes[n] != Route(c, r)
    ensures Linked(Dispatched(s, c, s.conns[c], r))
  {
    var t := Dispatched(s, c, s.conns[c], r);
    SessionKeepsInv(s.session, Sessions.Dispatch(None));
    SessionMonotone(s.session, Sessions.Dispatch(None));
    forall n | n in s.routes
      ensures n < s.session.dispatched
    {
      assert RouteOk(s, n);
    }
    SameConnsCarry(s, t);
    LinkedCarries(s, t);
  }

  lemma DispatchKeepsLinked(s: State, c: nat, m: M.State, r: M.Req)
    requires Linked(s) && c < |s.conns| && Aligned(m) && Evolves(s.conns[c], m)
    requires m.recycled == s.conns[c].recycled && r in m.pushed && r !in s.conns[c].pushed && r !in m.recycled
    requires r.waits && Sessions.Enabled(s.session, Sessions.Dispatch(None))
    requires r.frame == s.session.incoming[s.session.dispatched]
    ensures Linked(Dispatched(s, c, m, r))
  {
    ConnKeepsLinked(s, c, m, M.Produce(M.Offer(r)));
    forall n | n in s.routes
      ensures s.routes[n] != Route(c, r)
    {
      assert RouteOk(s, n);
    }
    var u := s.(conns := s.conns[c := m]);
    assert u.conns[c := m] == u.conns;
    RouteKeepsLinked(u, c, r);
  }

  /** A session step that adds nothing but, perhaps, a response and a frame written back. */
  lemma SessionKeepsLinked(s: State, step: Sessions.Step)
    requires Linked(s) && !step.Dispatch? && Sessions.Enabled(s.session, step)
    requires step.Complete? ==> step.n in s.routes && AnswerOk(s.(session := Sessions.Apply(s.session, step)), step.n)
    requires step.WriteBack? ==> Settled(s, s.session.writer.n)
    ensures Linked(s.(session := Sessions.Apply(s.session, step)))
  {
    var t := s.(session := Sessions.Apply(s.session, step));
    SessionKeepsInv(s.session, step);
    SessionMonotone(s.session, step);
    SameConnsCarry(s, t);
    if step.WriteBack? {
      SettledInSession(s, t, s.session.writer.n);
    }
    LinkedCarries(s, t);
  }

  lemma SettledInSession(s: State, t: State, n: nat)
    requires Settled(s, n) && t == s.(session := t.session) && t.session.answers == s.session.answers
    ensures Settled(t, n)
  {
    if n in s.routes && n in s.session.answers && s.session.answers[n].Replied? {
      var k :| RepliesTo(s, n, k, s.session.answers[n].frame);
      assert RepliesTo(t, n, k, t.session.answers[n].frame);
    }
  }

  lemma DispatchNoneKeepsLinked(s: State, a: Sessions.Answer)
    requires Linked(s) && Enabled(s, DispatchNone(a))
    ensures Linked(Apply(s, DispatchNone(a)))
  {
    var t := Apply(s, DispatchNone(a));
    SessionKeepsInv(s.session, Sessions.Dispatch(Some(a)));
    SessionMonotone(s.session, Sessions.Dispatch(Some(a)));
    forall n | n in s.routes
      ensures n < s.session.dispatched
    {
      assert RouteOk(s, n);
    }
    SameConnsCarry(s, t);
    LinkedCarries(s, t);
  }

  lemma DeliverKeepsLinked(s: State, n: nat, exc: Bytes)
    requires Linked(s) && Enabled(s, Deliver(n, exc))
    ensures Linked(Apply(s, Deliver(n, exc)))
  {
    SessionKeepsLinked(s, Sessions.Complete(n, AnswerOf(ConnOf(s, n).outcomes[ReqOf(s, n)], exc)));
  }

  /** The request the session is about to write back was never recycled. */
  lemma WriteBackKeepsData(s: State)
    requires Linked(s) && Sessions.Enabled(s.session, Sessions.WriteBack) && s.session.writer.n in s.routes
    ensures var n := s.session.writer.n; RouteOk(s, n) && AnswerOk(s, n) && ReqOf(s, n) !in ConnOf(s, n).recycled
  {
    assert RouteOk(s, s.session.writer.n);
  }

  lemma ConnReplies(m: M.State, r: M.Req, frame: Bytes, spare: Bytes) returns (k: nat)
    requires ConnInv(m) && r in m.outcomes && m.outcomes[r] == M.Reply(frame, spare) && r !in m.recycled
    ensures k < |m.sends| == |m.wire| && m.sends[k] == r && Theorems.Answers(m, r, m.wire[k], frame)
  {
    k := Theorems.OwnReplyAnswers(m, r);
  }

  /** So its reply answers what was written for it. */
  lemma WriteBackSettles(s: State)
    requires Inv(s) && Sessions.Enabled(s.session, Sessions.WriteBack)
    ensures Settled(s, s.session.writer.n)
  {
    var n := s.session.writer.n;
    if n in s.routes && s.session.answers[n].Replied? {
      WriteBackKeepsData(s);
      var k := ConnReplies(ConnOf(s, n), ReqOf(s, n), s.session.answers[n].frame, s.session.answers[n].spare);
      assert RepliesTo(s, n, k, s.session.answers[n].frame);
    }
  }

  lemma ConnKeepsInv(s: State, c: nat, step: M.Step)
    requires Inv(s) && Enabled(s, ConnDoes(c, step))
    ensures Inv(Apply(s, ConnDoes(c, step)))
  {
    ConnStep(s.conns[c], step);
    ConnKeepsLinked(s, c, M.Apply(s.conns[c], step), step);
  }

  lemma ConnectKeepsInv(s: State)
    requires Inv(s)
    ensures Inv(Apply(s, Connect))
  {
    Safety.InitHolds(Safety.Fresh(M.ProxyConn));
    ConnectKeepsLinked(s, Safety.Fresh(M.ProxyConn));
  }

  lemma OfferStep(m: M.State, r: M.Req)
    requires ConnInv(m) && M.Enabled(m, M.Produce(M.Offer(r)))
    ensures var t := M.Apply(m, M.Produce(M.Offer(r)));
      && ConnInv(t) && Aligned(t) && Evolves(m, t)
      && t.recycled == m.recycled && r in t.pushed && r !in m.pushed && r !in t.recycled
  {
    ConnStep(m, M.Produce(M.Offer(r)));
  }

  lemma DispatchKeepsInv(s: State, c: nat, r: M.Req)
    requires Inv(s) && Enabled(s, DispatchTo(c, r))
    ensures Inv(Apply(s, DispatchTo(c, r)))
  {
    OfferStep(s.conns[c], r);
    DispatchKeepsLinked(s, c, M.Apply(s.conns[c], M.Produce(M.Offer(r))), r);
  }

  lemma SessionStepKeepsInv(s: State, step: Sessions.Step)
    requires Inv(s) && Enabled(s, SessionDoes(step))
    ensures Inv(Apply(s, SessionDoes(step)))
  {
    if step.WriteBack? {
      WriteBackSettles(s);
    }
    SessionKeepsLinked(s, step);
  }

  lemma StepKeepsInv(s: State, step: Step)
    requires Inv(s) && Enabled(s, step)
    ensures Inv(Apply(s, step))
  {
    match step
    case Connect => ConnectKeepsInv(s);
    case ConnDoes(c, m) => ConnKeepsInv(s, c, m);
    case DispatchTo(c, r) => DispatchKeepsInv(s, c, r);
    case DispatchNone(a) => DispatchNoneKeepsLinked(s, a);
    case Deliver(n, exc) => DeliverKeepsLinked(s, n, exc);
    case SessionDoes(t) => SessionStepKeepsInv(s, t);
  }

  // ------------------------------------------------------------------ theorems

  ghost predicate Next(s: State, t: State) {
    exists step :: Enabled(s, step) && t == Apply(s, step)
  }

  ghost predicate NextAt(run: seq<State>, i: nat) {
    i + 1 < |run| ==> Next(run[i], run[i + 1])
  }

  ghost predicate Run(run: seq<State>) {
    && run != [] && Sessions.Init(run[0].session) && run[0].conns == [] && run[0].routes == map[]
    && forall i :: 0 <= i < |run| ==> NextAt(run, i)
  }

  lemma {:induction false} RunKeepsInv(run: seq<State>, i: nat)
    requires Run(run) && i < |run|
    ensures Inv(run[i])
  {
    if i > 0 {
      RunKeepsInv(run, i - 1);
      assert NextAt(run, i - 1);
      var step :| Enabled(run[i - 1], step) && run[i] == Apply(run[i - 1], step);
      StepKeepsInv(run[i - 1], step);
    }
  }

  lemma PastWait(m: M.State, r: M.Req, exc: Bytes)
    requires ConnInv(m) && r in m.pushed && r.waits && Theorems.WaitCounter(m, r) == 0
    ensures r in m.outcomes && Sessions.Proper(AnswerOf(m.outcomes[r], exc))
  {
    Theorems.ZeroIsAnswered(m, r);
    assert Theorems.OwnReply(m, r, m.outcomes[r]);
  }

  /** As soon as `Wait` is over there is a response, and it is one that can be sent. */
  lemma PastWaitHasResponse(run: seq<State>, i: nat, n: nat, exc: Bytes)
    requires Run(run) && i < |run| && n in run[i].routes && n !in run[i].session.answers
    ensures Routed(run[i], n)
    ensures Theorems.WaitCounter(ConnOf(run[i], n), ReqOf(run[i], n)) == 0 ==> Enabled(run[i], Deliver(n, exc))
  {
    RunKeepsInv(run, i);
    assert RouteOk(run[i], n);
    if Theorems.WaitCounter(ConnOf(run[i], n), ReqOf(run[i], n)) == 0 {
      PastWait(ConnOf(run[i], n), ReqOf(run[i], n), exc);
    }
  }

  /** No frame is forgotten: each is answered, or with a connection, in one place there. */
  lemma EveryFrameIsCaredFor(run: seq<State>, i: nat, n: nat)
    requires Run(run) && i < |run| && n < run[i].session.dispatched && n !in run[i].session.answers
    ensures Routed(run[i], n) && exists p :: M.At(ConnOf(run[i], n), ReqOf(run[i], n), p)
  {
    RunKeepsInv(run, i);
    var s := run[i];
    assert Cared(s, n);
    assert RouteOk(s, n);
    InSomePlace(ConnOf(s, n), ReqOf(s, n));
  }

  lemma InSomePlace(m: M.State, r: M.Req)
    requires ConnInv(m) && r in m.pushed
    ensures exists p :: M.At(m, r, p)
  {
  }

  /** A connection that took a request never reports it "not found". */
  lemma TakenIsFound(m: M.State, r: M.Req)
    requires ConnInv(m) && r in m.pushed && r in m.outcomes
    ensures !m.outcomes[r].NotFound?
  {
  }

  /** In every interleaving, frame `n` out is for frame `n` in.  If it is a reply, some connection
      wrote frame `n`, rewritten for an id, as one of its sends, the reply bore the id to be read
      there, and the client is sent that reply restored for frame `n`: with the client's id, and
      otherwise unchanged if the name has the right length.  If not, the client is sent an
      exception under its id. */
  lemma FrameOutAnswersFrameIn(run: seq<State>, i: nat, n: nat)
    requires Run(run) && i < |run| && n < |run[i].session.outgoing|
    ensures var s, w := run[i], run[i].session.outgoing[n];
      && n < |s.session.incoming| && w.n == n && Sessions.Proper(w.a)
      && (w.a.Replied? ==> n in s.routes && exists k :: RepliesTo(s, n, k, w.a.frame))
      && (n in s.routes ==> RouteOk(s, n) && ReqOf(s, n) in ConnOf(s, n).outcomes
                            && Matches(w.a, ConnOf(s, n).outcomes[ReqOf(s, n)]))
      && var f, out := DecodeFields(s.session.incoming[n]), Sessions.FrameFor(s.session.incoming, w);
         && (w.a.Replied? ==> out == RestoredFor(s.session.incoming[n], w.a.frame, w.a.spare))
         && (Sessions.Fits(f, w.a) ==> Decode(out).Some? && Decode(out).value.seqId == f.seqId)
         && (w.a.Replied? && |Decode(w.a.frame).value.name| == |f.name| ==>
               out == Encode(Decode(w.a.frame).value.(name := f.name, seqId := f.seqId)))
         && (!w.a.Replied? ==> Decode(out).Some? && Decode(out).value.typeId == 3)
         && (!w.a.Replied? ==> Decode(out).value.name == if n in s.routes then f.service else f.name)
  {
    RunKeepsInv(run, i);
    var s, w := run[i], run[i].session.outgoing[n];
    assert AnswerOk(s, n) && Settled(s, n);
    Sessions.AnswerCarriesClientId(DecodeFields(s.session.incoming[n]), w.a);
    if !w.a.Replied? {
      Sessions.ExceptionNames(DecodeFields(s.session.incoming[n]), w.a);
      if n in s.routes {
        TakenIsFound(ConnOf(s, n), ReqOf(s, n));
      }
    }
  }

  // ------------------------------------------------------------- timely replies

  /** Backends reply to sends, with their ids and in time. */
  ghost predicate TimelyNext(s: State, t: State) {
    exists step :: && Enabled(s, step) && t == Apply(s, step)
                   && (step.ConnDoes? ==> Theorems.Timely(s.conns[step.c], step.m))
  }

  ghost predicate TimelyAt(run: seq<State>, i: nat) {
    i + 1 < |run| ==> TimelyNext(run[i], run[i + 1])
  }

  ghost predicate TimelyRun(run: seq<State>) {
    Run(run) && forall i :: 0 <= i < |run| ==> TimelyAt(run, i)
  }

  ghost predicate AllOwn(conns: seq<M.State>) {
    forall c :: 0 <= c < |conns| ==> Theorems.OwnTags(conns[c]) && Theorems.AllTagged(conns[c])
  }

  lemma OwnAt(conns: seq<M.State>, c: nat, m: M.State)
    requires AllOwn(conns) && c < |conns| && Theorems.OwnTags(m) && Theorems.AllTagged(m)
    ensures AllOwn(conns[c := m])
  {
  }

  lemma TimelyStepKeepsOwn(s: State, step: Step)
    requires Inv(s) && AllOwn(s.conns) && Enabled(s, step)
    requires step.ConnDoes? ==> Theorems.Timely(s.conns[step.c], step.m)
    ensures AllOwn(Apply(s, step).conns)
  {
    match step
    case ConnDoes(c, m) =>
      ConnKeepsOwnTags(s.conns[c], m);
      OwnAt(s.conns, c, M.Apply(s.conns[c], m));
    case DispatchTo(c, r) =>
      ConnKeepsOwnTags(s.conns[c], M.Produce(M.Offer(r)));
      OwnAt(s.conns, c, M.Apply(s.conns[c], M.Produce(M.Offer(r))));
    case _ =>
  }

  lemma ConnKeepsOwnTags(m: M.State, step: M.Step)
    requires ConnInv(m) && Theorems.OwnTags(m) && Theorems.AllTagged(m)
    requires M.Enabled(m, step) && Theorems.Timely(m, step)
    ensures Theorems.OwnTags(M.Apply(m, step)) && Theorems.AllTagged(M.Apply(m, step))
  {
    Theorems.StepKeepsOwnTags(m, step);
    Theorems.StepKeepsTagged(m, step);
  }

  lemma TimelyNextKeepsOwn(run: seq<State>, i: nat)
    requires TimelyRun(run) && i + 1 < |run| && AllOwn(run[i].conns)
    ensures AllOwn(run[i + 1].conns)
  {
    RunKeepsInv(run, i);
    assert TimelyAt(run, i);
    var step :| && Enabled(run[i], step) && run[i + 1] == Apply(run[i], step)
                && (step.ConnDoes? ==> Theorems.Timely(run[i].conns[step.c], step.m));
    TimelyStepKeepsOwn(run[i], step);
  }

  lemma {:induction false} TimelyRunKeepsOwn(run: seq<State>, i: nat)
    requires TimelyRun(run) && i < |run|
    ensures AllOwn(run[i].conns)
  {
    if i > 0 {
      TimelyRunKeepsOwn(run, i - 1);
      TimelyNextKeepsOwn(run, i - 1);
    }
  }

  lemma OwnSendIsTheSend(m: M.State, r: M.Req, tag: nat, k: nat)
    requires ConnInv(m) && Theorems.OwnSend(m, r, tag)
    requires k < |m.sends| == |m.wire| && m.sends[k] == r && m.wire[k].id != M.NO_SEQ_ID
    ensures tag == k
  {
  }

  /** In every run in which replies are timely: the reply in frame `n` out was made for the very send
      that put frame `n` in, rewritten, on the wire. */
  lemma ReplyOutWasMadeForFrameIn(run: seq<State>, i: nat, n: nat)
    requires TimelyRun(run) && i < |run| && n < |run[i].session.outgoing|
    requires run[i].session.outgoing[n].a.Replied?
    ensures Routed(run[i], n) && ReqOf(run[i], n) in ConnOf(run[i], n).tags
    ensures var s := run[i]; RepliesTo(s, n, ConnOf(s, n).tags[ReqOf(s, n)], s.session.outgoing[n].a.frame)
  {
    FrameOutAnswersFrameIn(run, i, n);
    TimelyRunKeepsOwn(run, i);
    RunKeepsInv(run, i);
    var s := run[i];
    var k :| RepliesTo(s, n, k, s.session.outgoing[n].a.frame);
    OwnSendIsTheSend(ConnOf(s, n), ReqOf(s, n), ConnOf(s, n).tags[ReqOf(s, n)], k);
  }
}
