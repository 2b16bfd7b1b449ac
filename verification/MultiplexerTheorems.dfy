/** What callers of a backend connection may rely on, in every run. */
module MultiplexerTheorems {

  import opened ThriftMessage
  import opened SeqIds
  import opened Multiplexer
  import opened MultiplexerSafety
  import Requests

  // ------------------------------------------------------- completion happens once

  /** The WaitGroup of `r`: the Adds minus the Dones. */
  ghost function WaitCounter(s: State, r: Req): int {
    multiset(s.adds)[r] as int - multiset(s.dones)[r]
  }

  lemma {:induction false} NoDupCounts<T>(q: seq<T>, x: T)
    requires NoDup(q)
    ensures multiset(q)[x] == if x in q then 1 else 0
  {
    if q != [] {
      var n := |q| - 1;
      assert q == q[..n] + [q[n]];
      NoDupCounts(q[..n], x);
    }
  }

  /** Each dispatched request is in exactly one place; `Wait.Done` runs at most once, and the
      counter is zero exactly when the request has been finished. */
  lemma CompletedAtMostOnce(run: seq<State>, i: nat, r: Req)
    requires Run(run) && i < |run|
    ensures r in run[i].offered <==> exists p :: At(run[i], r, p)
    ensures forall p, q :: At(run[i], r, p) && At(run[i], r, q) ==> p == q
    ensures multiset(run[i].dones)[r] <= 1
    ensures 0 <= WaitCounter(run[i], r) <= 1
    ensures r in run[i].pushed && r.waits ==> (WaitCounter(run[i], r) == 0 <==> r in run[i].finished)
  {
    RunKeepsInv(run, i);
    NoDupCounts(run[i].adds, r);
    NoDupCounts(run[i].dones, r);
  }

  lemma ZeroIsAnswered(s: State, r: Req)
    requires Inv(s) && r in s.offered && r.waits && WaitCounter(s, r) == 0
    ensures r in s.outcomes && multiset(s.answers)[r] == 1
    ensures r in s.pushed <==> !s.outcomes[r].NotFound?
  {
    NoDupCounts(s.adds, r);
    NoDupCounts(s.dones, r);
    NoDupCounts(s.answers, r);
  }

  /** A session gets past `r.Wait.Wait()` only when the response is there, written exactly once:
      by the dispatcher if no connection took the request, else by the connection. */
  lemma PastWaitIsAnswered(run: seq<State>, i: nat, r: Req)
    requires Run(run) && i < |run|
    requires r in run[i].offered && r.waits && WaitCounter(run[i], r) == 0
    ensures r in run[i].outcomes && multiset(run[i].answers)[r] == 1
    ensures r in run[i].pushed <==> !run[i].outcomes[r].NotFound?
  {
    RunKeepsInv(run, i);
    ZeroIsAnswered(run[i], r);
  }

  /** With nothing in flight, everything dispatched was finished or lost. */
  lemma QuietConnectionIsDone(run: seq<State>, i: nat, r: Req)
    requires Run(run) && i < |run|
    requires var s := run[i];
      && s.pushing == {} && s.input == [] && s.pending == map[] && s.completing == map[]
      && !InHand(s.writer) && !s.writer.Sent?
      && forall k :: k in s.readers && s.readers[k].Flushing? ==> s.readers[k].batch == map[]
    requires r in run[i].offered
    ensures r in run[i].finished <==> r !in run[i].lost
  {
    RunKeepsInv(run, i);
    var p :| At(run[i], r, p);
    assert p.Finished? || p.Lost?;
    assert !(At(run[i], r, Finished) && At(run[i], r, Lost));
  }

  // ----------------------------------------------------------------- id reuse

  /** Fewer than 100000 sends came after send `n`. */
  ghost predicate Recent(s: State, n: nat) {
    n < |s.sends| && |s.sends| - 1 - n < BACKEND_CONN_MAX_SEQ_ID
  }

  /** No pending entry has outlived 100000 later sends. */
  ghost predicate Windowed(s: State) {
    forall id :: id in s.pending ==> Recent(s, s.pending[id].send)
  }

  lemma RecentIdsDistinct(s: State, m: nat, n: nat)
    requires Recent(s, m) && Recent(s, n) && Counter(m) == Counter(n)
    ensures m == n
  {
    if m < n {
      CounterWindow(m, n);
    } else if n < m {
      CounterWindow(n, m);
    }
  }

  /** Send `n` went out without an id: its request had been recycled. */
  predicate Bare(s: State, n: nat) {
    n < |s.wire| && s.wire[n].id == NO_SEQ_ID
  }

  /** Sends `m` and `n` went under the same id. */
  predicate Collide(s: State, m: nat, n: nat) {
    if Bare(s, n) then Bare(s, m) else !Bare(s, m) && (n - m) % BACKEND_CONN_MAX_SEQ_ID == 0
  }

  lemma CollideIff(s: State, m: nat, n: nat)
    requires Wires(s) && m < |s.sends| && n < |s.sends|
    ensures Collide(s, m, n) <==> s.wire[m].id == s.wire[n].id
  {
    assert Wired(s, m) && Wired(s, n);
    CounterEqualIff(m, n);
  }

  /** Registering displaces a request exactly when a colliding send is still pending: one a
      multiple of 100000 sends older, or, for a request without an id, another such request. */
  lemma RegisterDisplaces(s: State)
    requires NoTwoPlaces(s) && Sends(s) && Wires(s) && s.writer.Sent?
    ensures var n := s.writer.e.send;
      && (s.writer.id in s.pending <==> exists id :: id in s.pending && Collide(s, s.pending[id].send, n))
      && (s.writer.id in s.pending && !Bare(s, n) ==> s.pending[s.writer.id].send <= n - BACKEND_CONN_MAX_SEQ_ID)
      && (Windowed(s) ==> (s.writer.id in s.pending <==> Bare(s, n) && NO_SEQ_ID in s.pending))
  {
    var id, n := s.writer.id, s.writer.e.send;
    forall k | k in s.pending
      ensures Collide(s, s.pending[k].send, n) <==> k == id
    {
      CollideIff(s, s.pending[k].send, n);
    }
    if id in s.pending {
      var m := s.pending[id].send;
      assert At(s, s.writer.e.r, WriterHand) && At(s, s.pending[id].r, Pending(id));
      assert m != n;
      if !Bare(s, n) {
        CollideIff(s, m, n);
        assert Wired(s, m) && Wired(s, n);
        if n - m < BACKEND_CONN_MAX_SEQ_ID {
          CounterWindow(m, n);
        }
      }
    }
  }

  predicate WasDisplaced(s: State, r: Req) {
    r in s.lost && s.lost[r].Displaced?
  }

  /** From `s` to `t` the writer registers a request under the id `r` is pending under. */
  predicate Displaces(s: State, t: State, r: Req) {
    s.writer.Sent? && t.writer.AtSelect? && s.writer.id in s.pending && s.pending[s.writer.id].r == r
  }

  lemma NotLostYet(s: State, r: Req, p: Place)
    requires NoTwoPlaces(s) && At(s, r, p) && !p.Lost?
    ensures r !in s.lost
  {
    assert At(s, r, Lost) ==> p == Lost;
  }

  lemma MatchedDisplacesNothing(s: State, k: nat, id: int32, reply: Outcome, heartbeat: bool,
                                tags: map<Req, nat>, r: Req)
    requires id in s.pending && s.pending[id].r !in s.lost
    ensures WasDisplaced(Matched(s, k, id, reply, heartbeat, tags), r) <==> WasDisplaced(s, r)
  {
  }

  lemma ReaderDisplacesNothing(s: State, k: nat, d: ReaderStep, r: Req)
    requires NoTwoPlaces(s) && ReaderEnabled(s, k, d)
    ensures WasDisplaced(ReaderApply(s, k, d), r) <==> WasDisplaced(s, r)
  {
    if d.Receive? {
      var id := Match(s, d.frame);
      if id.Some? {
        NotLostYet(s, s.pending[id.value].r, Pending(id.value));
        MatchedDisplacesNothing(s, k, id.value, Reply(d.frame, d.spare), HeartbeatFrame(d.frame),
                                TagsAfter(s, s.pending[id.value].r, d.to), r);
      }
    } else if d.FlushSkip? {
      var m := s.readers[k].batch[d.id].r;
      assert At(s, m, Batch(k, d.id)) && !At(s, m, Lost);
    }
  }

  lemma WriterDisplaces(s: State, w: WriterStep, r: Req)
    requires NoTwoPlaces(s) && WriterEnabled(s, w)
    ensures WasDisplaced(WriterApply(s, w), r) <==> WasDisplaced(s, r) || Displaces(s, WriterApply(s, w), r)
  {
    if w.DropStale? {
      assert At(s, s.writer.r, WriterHand) && !At(s, s.writer.r, Lost);
    }
  }

  lemma StepDisplaces(s: State, step: Step, r: Req)
    requires NoTwoPlaces(s) && Losses(s) && Enabled(s, step)
    ensures WasDisplaced(Apply(s, step), r) <==> WasDisplaced(s, r) || Displaces(s, Apply(s, step), r)
  {
    if step.WriterDoes? {
      WriterDisplaces(s, step.w, r);
    } else {
      OthersLeaveWriterAlone(s, step);
      if step.ReaderDoes? {
        ReaderDisplacesNothing(s, step.k, step.d, r);
      }
    }
  }

  /** In every run, a request is displaced exactly if some registration met it under its id. */
  lemma {:induction false} DisplacedIff(run: seq<State>, i: nat, r: Req)
    requires Run(run) && i < |run|
    ensures WasDisplaced(run[i], r) <==> exists j :: 0 <= j < i && Displaces(run[j], run[j + 1], r)
  {
    if i > 0 {
      DisplacedIff(run, i - 1, r);
      RunKeepsInv(run, i - 1);
      var step := StepAt(run, i - 1);
      StepDisplaces(run[i - 1], step, r);
      assert run[i] == run[i - 1 + 1];
    }
  }

  /** The registration that displaces `r` is of a request without an id, and so was `r`'s. */
  predicate DisplacesBare(s: State, t: State, r: Req) {
    && s.writer.Sent? && t.writer.AtSelect? && Bare(s, s.writer.e.send)
    && NO_SEQ_ID in s.pending && s.pending[NO_SEQ_ID].r == r
  }

  /** If no entry ever outlives 100000 later sends, a request is displaced exactly if its session
      recycled it before it was given an id, and another such request was registered while it was
      pending.  Every other request is safe. */
  lemma WindowedRunDisplacesIff(run: seq<State>, i: nat, r: Req)
    requires Run(run) && i < |run|
    requires forall j :: 0 <= j < i ==> Windowed(run[j])
    ensures WasDisplaced(run[i], r) <==> exists j :: 0 <= j < i && DisplacesBare(run[j], run[j + 1], r)
    ensures WasDisplaced(run[i], r) ==> r in run[i].recycled
  {
    DisplacedIff(run, i, r);
    forall j | 0 <= j < i
      ensures Displaces(run[j], run[j + 1], r) <==> DisplacesBare(run[j], run[j + 1], r)
      ensures Displaces(run[j], run[j + 1], r) ==> r in run[i].recycled
    {
      RunKeepsInv(run, j);
      if run[j].writer.Sent? {
        RegisterDisplaces(run[j]);
        assert Wired(run[j], run[j].writer.e.send);
      }
      if Displaces(run[j], run[j + 1], r) {
        assert Wired(run[j], run[j].pending[NO_SEQ_ID].send);
        RecycledStays(run, j, i);
      }
    }
  }

  lemma RecycledGrows(run: seq<State>, i: nat)
    requires Run(run) && i + 1 < |run|
    ensures run[i].recycled <= run[i + 1].recycled && run[i].kind == run[i + 1].kind
  {
    RunKeepsInv(run, i);
    var step := StepAt(run, i);
    if step.WriterDoes? {
      WriterLogs(run[i], step.w);
    } else {
      OthersLeaveWriterAlone(run[i], step);
    }
  }

  lemma {:induction false} RecycledStays(run: seq<State>, j: nat, i: nat)
    requires Run(run) && j <= i < |run|
    ensures run[j].recycled <= run[i].recycled && run[j].kind == run[i].kind
    decreases i - j
  {
    if j < i {
      RecycledGrows(run, j);
      RecycledStays(run, j + 1, i);
    }
  }

  /** Reader `k` starts completing `r` with this very frame. */
  predicate StartsReply(t: State, k: nat, r: Req, frame: Bytes, spare: Bytes) {
    TheReader(k) in t.completing && t.completing[TheReader(k)] == Completion(r, Reply(frame, spare), false)
  }

  lemma ReceiveOutcome(s: State, k: nat, frame: Bytes, spare: Bytes, to: Option<nat>)
    requires ReaderEnabled(s, k, Receive(frame, spare, to))
    ensures var t, id := ReaderApply(s, k, Receive(frame, spare, to)), Match(s, frame);
      if id.None? || HeartbeatFrame(frame) then t.completing == s.completing
      else StartsReply(t, k, s.pending[id.value].r, frame, spare)
  {
  }

  lemma MatchIsSend(s: State, n: nat, frame: Bytes)
    requires Sends(s) && Wires(s) && Windowed(s) && Recent(s, n) && Match(s, frame).Some?
    requires DecodeTypeIdSeqId(frame).Some? && DecodeTypeIdSeqId(frame).value.1 == Counter(n)
    ensures Match(s, frame).value == Counter(n) && s.pending[Counter(n)] == Entry(s.sends[n], n)
  {
    assert Wired(s, s.pending[Counter(n)].send);
    RecentIdsDistinct(s, s.pending[Counter(n)].send, n);
  }

  /** A reply to send `n` that arrives within the window completes that request or nobody. */
  lemma ReplyCompletesItsRequestOnly(s: State, k: nat, n: nat, frame: Bytes, spare: Bytes, to: Option<nat>)
    requires Sends(s) && Wires(s) && Windowed(s) && Recent(s, n) && ReaderEnabled(s, k, Receive(frame, spare, to))
    requires DecodeTypeIdSeqId(frame).Some? && DecodeTypeIdSeqId(frame).value.1 == Counter(n)
    ensures var t := ReaderApply(s, k, Receive(frame, spare, to));
      t.completing == s.completing || StartsReply(t, k, s.sends[n], frame, spare)
  {
    ReceiveOutcome(s, k, frame, spare, to);
    if Match(s, frame).Some? {
      MatchIsSend(s, n, frame);
    }
  }

  /** Sent, and neither answered, flushed nor lost since. */
  ghost predicate Outstanding(s: State, r: Req) {
    At(s, r, WriterHand) || exists id :: At(s, r, Pending(id))
  }

  predicate OrdinaryReply(s: State, frame: Bytes) {
    var h := DecodeTypeIdSeqId(frame);
    h.Some? && !HeartbeatFrame(frame) && !StopFrame(s.kind, frame)
  }

  /** Replies and exceptions, types 2 and 3, are ordinary on either side. */
  lemma RepliesAreOrdinary(s: State, frame: Bytes)
    requires DecodeTypeIdSeqId(frame).Some? && 2 <= DecodeTypeIdSeqId(frame).value.0 <= 3
    ensures OrdinaryReply(s, frame)
  {
  }

  /** From `s` to `t` reader `k` takes the request under `id` out of the map: a heartbeat, type 20,
      goes no further, and anything else completes the request. */
  predicate TakesOut(s: State, t: State, k: nat, id: int32, typeId: byte, frame: Bytes, spare: Bytes)
    requires id in s.pending
  {
    && t.pending == s.pending - {id} && t.active == s.active && t.outcomes == s.outcomes
    && (if typeId == 20 then t.completing == s.completing && t.lost == s.lost[s.pending[id].r := HeartbeatReply]
        else StartsReply(t, k, s.pending[id].r, frame, spare) && t.lost == s.lost)
  }

  lemma MatchedTakesOut(s: State, k: nat, id: int32, typeId: byte, frame: Bytes, spare: Bytes, tags: map<Req, nat>)
    requires id in s.pending
    ensures TakesOut(s, Matched(s, k, id, Reply(frame, spare), typeId == 20, tags), k, id, typeId, frame, spare)
  {
  }

  lemma MatchIs(s: State, frame: Bytes, typeId: byte, id: int32)
    requires DecodeTypeIdSeqId(frame) == Some((typeId, id))
    ensures StopFrame(s.kind, frame) <==> s.kind.LBConn? && typeId == 21
    ensures HeartbeatFrame(frame) <==> typeId == 20
    ensures Match(s, frame) == if StopFrame(s.kind, frame) || id !in s.pending then None else Some(id)
  {
  }

  /** What a frame does, by its type and id: one of type 2 or 3, or any other that is no signal,
      completes the request pending under its id and takes it out of the map, whoever reads it. */
  lemma FrameEffects(s: State, k: nat, frame: Bytes, spare: Bytes, to: Option<nat>)
    ensures var t := Received(s, k, frame, spare, to);
      match DecodeTypeIdSeqId(frame)
      case None => t == s
      case Some((typeId, id)) =>
        if s.kind.LBConn? && typeId == 21 then t == s.(active := false)
        else if id !in s.pending then t == s
        else TakesOut(s, t, k, id, typeId, frame, spare)
  {
    match DecodeTypeIdSeqId(frame)
    case None =>
    case Some((typeId, id)) =>
      MatchIs(s, frame, typeId, id);
      if Match(s, frame).Some? {
        MatchedTakesOut(s, k, id, typeId, frame, spare, TagsAfter(s, s.pending[id].r, to));
      }
  }

  lemma PendingUnderItsId(s: State, n: nat, id: int32)
    requires Sends(s) && n < |s.sends| && At(s, s.sends[n], Pending(id))
    ensures SentAs(s, s.sends[n], n, id)
  {
  }

  /** The writer registers a request only after the flush that lets the backend answer it.  An
      ordinary, timely reply to an outstanding request completes it exactly when it arrives
      after the registration; before, it is thrown away. */
  lemma ReplyCompletesIffRegistered(s: State, k: nat, n: nat, frame: Bytes, spare: Bytes, to: Option<nat>)
    requires NoTwoPlaces(s) && Sends(s) && Wires(s) && Windowed(s) && Recent(s, n) && !Bare(s, n)
    requires ReaderEnabled(s, k, Receive(frame, spare, to)) && OrdinaryReply(s, frame)
    requires DecodeTypeIdSeqId(frame).value.1 == Counter(n) && Outstanding(s, s.sends[n])
    ensures StartsReply(ReaderApply(s, k, Receive(frame, spare, to)), k, s.sends[n], frame, spare) <==>
            !At(s, s.sends[n], WriterHand)
  {
    var r := s.sends[n];
    assert Wired(s, n);
    forall id | At(s, r, Pending(id))
      ensures id == Counter(n)
    {
      PendingUnderItsId(s, n, id);
    }
    ReceiveOutcome(s, k, frame, spare, to);
    var found := Match(s, frame);
    if found.Some? {
      MatchIsSend(s, n, frame);
      assert At(s, r, Pending(found.value));
    } else {
      assert !At(s, r, Pending(Counter(n)));
    }
  }

  /** The two facts above, in any reachable state. */
  lemma RunMatchesReplies(run: seq<State>, i: nat, k: nat, n: nat, frame: Bytes, spare: Bytes, to: Option<nat>)
    requires Run(run) && i < |run| && Windowed(run[i]) && Recent(run[i], n)
    requires ReaderEnabled(run[i], k, Receive(frame, spare, to))
    requires DecodeTypeIdSeqId(frame).Some? && DecodeTypeIdSeqId(frame).value.1 == Counter(n)
    ensures var t := ReaderApply(run[i], k, Receive(frame, spare, to));
      && (t.completing == run[i].completing || StartsReply(t, k, run[i].sends[n], frame, spare))
      && (OrdinaryReply(run[i], frame) && Outstanding(run[i], run[i].sends[n]) && !Bare(run[i], n) ==>
            (StartsReply(t, k, run[i].sends[n], frame, spare) <==> !At(run[i], run[i].sends[n], WriterHand)))
  {
    RunKeepsInv(run, i);
    ReplyCompletesItsRequestOnly(run[i], k, n, frame, spare, to);
    if OrdinaryReply(run[i], frame) && Outstanding(run[i], run[i].sends[n]) && !Bare(run[i], n) {
      ReplyCompletesIffRegistered(run[i], k, n, frame, spare, to);
    }
  }

  // ------------------------------------------------------------ whose reply it is

  /** `frame` bears the id that was written for `r`. */
  ghost predicate SentUnder(s: State, r: Req, frame: Bytes) {
    var h := DecodeTypeIdSeqId(frame);
    h.Some? && exists n: nat :: SentAs(s, r, n, h.value.1)
  }

  /** Heartbeats, which are of type 20, and a worker's STOP, of type 21, are no replies. */
  predicate NoSignal(kind: Kind, frame: Bytes) {
    var h := DecodeTypeIdSeqId(frame);
    h.Some? && h.value.0 != 20 && (kind.LBConn? ==> h.value.0 != 21)
  }

  ghost predicate OwnReply(s: State, r: Req, o: Outcome) {
    o.Reply? ==> SentUnder(s, r, o.frame) && NoSignal(s.kind, o.frame)
  }

  /** Every reply a request is, or is being, completed with bears an id it was sent under. */
  ghost predicate OwnReplies(s: State) {
    && (forall a :: a in s.completing ==> OwnReply(s, s.completing[a].r, s.completing[a].outcome))
    && (forall r :: r in s.outcomes ==> OwnReply(s, r, s.outcomes[r]))
  }

  lemma OwnReplyStays(s: State, t: State, r: Req, o: Outcome)
    requires OwnReply(s, r, o) && s.sends <= t.sends && s.wire <= t.wire && |t.wire| == |t.sends| && t.kind == s.kind
    ensures OwnReply(t, r, o)
  {
    if o.Reply? {
      var n: nat :| SentAs(s, r, n, DecodeTypeIdSeqId(o.frame).value.1);
      assert t.sends[n] == s.sends[n] && t.wire[n] == s.wire[n];
      assert SentAs(t, r, n, DecodeTypeIdSeqId(o.frame).value.1);
    }
  }

  /** What is new in `t` is one completion and one outcome, at most, and both are all right. */
  lemma OwnRepliesStay(s: State, t: State)
    requires OwnReplies(s) && s.sends <= t.sends && s.wire <= t.wire && |t.wire| == |t.sends| && t.kind == s.kind
    requires forall a :: a in t.completing ==>
      || (a in s.completing && t.completing[a].r == s.completing[a].r
          && t.completing[a].outcome == s.completing[a].outcome)
      || OwnReply(t, t.completing[a].r, t.completing[a].outcome)
    requires forall r :: r in t.outcomes ==>
      (r in s.outcomes && t.outcomes[r] == s.outcomes[r]) || OwnReply(s, r, t.outcomes[r])
    ensures OwnReplies(t)
  {
    forall a | a in t.completing
      ensures OwnReply(t, t.completing[a].r, t.completing[a].outcome)
    {
      if a in s.completing {
        OwnReplyStays(s, t, s.completing[a].r, s.completing[a].outcome);
      }
    }
    forall r | r in t.outcomes
      ensures OwnReply(t, r, t.outcomes[r])
    {
      OwnReplyStays(s, t, r, t.outcomes[r]);
    }
  }

  lemma MatchIsOwn(s: State, frame: Bytes)
    requires Sends(s) && Match(s, frame).Some?
    ensures SentUnder(s, s.pending[Match(s, frame).value].r, frame)
    ensures HeartbeatFrame(frame) || NoSignal(s.kind, frame)
  {
    var id := Match(s, frame).value;
    assert SentAs(s, s.pending[id].r, s.pending[id].send, id);
  }

  lemma ReceiveKeepsOwnReplies(s: State, k: nat, frame: Bytes, spare: Bytes, to: Option<nat>)
    requires Sends(s) && OwnReplies(s)
    ensures OwnReplies(Received(s, k, frame, spare, to))
  {
    var id := Match(s, frame);
    if id.Some? {
      MatchIsOwn(s, frame);
      MatchedKeepsOwnReplies(s, k, id.value, Reply(frame, spare), HeartbeatFrame(frame),
                             TagsAfter(s, s.pending[id.value].r, to));
    } else {
      OwnRepliesStay(s, s.(active := false));
    }
  }

  lemma ReaderKeepsOwnReplies(s: State, k: nat, d: ReaderStep)
    requires Sends(s) && OwnReplies(s) && ReaderEnabled(s, k, d)
    ensures OwnReplies(ReaderApply(s, k, d))
  {
    if d.Receive? {
      ReceiveKeepsOwnReplies(s, k, d.frame, d.spare, d.to);
    } else {
      OwnRepliesStay(s, ReaderApply(s, k, d));
    }
  }

  lemma MatchedKeepsOwnReplies(s: State, k: nat, id: int32, reply: Outcome, heartbeat: bool, tags: map<Req, nat>)
    requires OwnReplies(s) && |s.wire| == |s.sends| && id in s.pending
    requires heartbeat || OwnReply(s, s.pending[id].r, reply)
    ensures OwnReplies(Matched(s, k, id, reply, heartbeat, tags))
  {
    var t := Matched(s, k, id, reply, heartbeat, tags);
    if !heartbeat {
      OwnReplyStays(s, t, s.pending[id].r, reply);
    }
    OwnRepliesStay(s, t);
  }

  lemma WriterKeepsOwnReplies(s: State, w: WriterStep)
    requires OwnReplies(s) && |s.wire| == |s.sends| && WriterEnabled(s, w)
    ensures OwnReplies(WriterApply(s, w))
  {
    OwnRepliesStay(s, WriterApply(s, w));
  }

  lemma CompletionKeepsOwnReplies(s: State, a: Agent)
    requires OwnReplies(s) && |s.wire| == |s.sends| && a in s.completing
    ensures OwnReplies(AnswerApply(s, a)) && OwnReplies(DoneApply(s, a))
  {
    OwnRepliesStay(s, AnswerApply(s, a));
    OwnRepliesStay(s, DoneApply(s, a));
  }

  lemma ProducerKeepsOwnReplies(s: State, p: ProducerStep)
    requires OwnReplies(s) && |s.wire| == |s.sends| && ProducerEnabled(s, p)
    ensures OwnReplies(ProducerApply(s, p))
  {
    OwnRepliesStay(s, ProducerApply(s, p));
  }

  lemma StepKeepsOwnReplies(s: State, step: Step)
    requires Sends(s) && OwnReplies(s) && Enabled(s, step)
    ensures OwnReplies(Apply(s, step))
  {
    match step
    case ReaderDoes(k, d) => ReaderKeepsOwnReplies(s, k, d);
    case Produce(p) => ProducerKeepsOwnReplies(s, p);
    case WriterDoes(w) => WriterKeepsOwnReplies(s, w);
    case Answer(a) => CompletionKeepsOwnReplies(s, a);
    case Done(a) => CompletionKeepsOwnReplies(s, a);
  }

  lemma {:induction false} RunKeepsOwnReplies(run: seq<State>, i: nat)
    requires Run(run) && i < |run|
    ensures OwnReplies(run[i])
  {
    if i > 0 {
      RunKeepsOwnReplies(run, i - 1);
      RunKeepsInv(run, i - 1);
      var step := StepAt(run, i - 1);
      StepKeepsOwnReplies(run[i - 1], step);
    }
  }

  /** `out` is what went on the wire for `r`, whole and legible, and `reply` answers to its id. */
  predicate Answers(s: State, r: Req, out: Out, reply: Bytes) {
    && out.id != NO_SEQ_ID && out.frame == Requests.Rewritten(r.frame, s.kind.ProxyConn?, out.id)
    && (|r.frame| >= FIXED_HEADER_LEN ==>
          DecodeTypeIdSeqId(out.frame).Some? && DecodeTypeIdSeqId(out.frame).value.1 == out.id)
    && DecodeTypeIdSeqId(reply).Some? && DecodeTypeIdSeqId(reply).value.1 == out.id
  }

  /** A reply a request was completed with bears the id written for that request, in its one and
      only send.  Unless the request was recycled meanwhile, that id is the one to be read in the
      frame that was put on the wire for it, which is its own frame rewritten. */
  lemma OwnReplyAnswers(s: State, r: Req) returns (n: nat)
    requires Sends(s) && Wires(s) && OwnReplies(s) && r in s.outcomes && s.outcomes[r].Reply?
    ensures DecodeTypeIdSeqId(s.outcomes[r].frame).Some?
    ensures SentAs(s, r, n, DecodeTypeIdSeqId(s.outcomes[r].frame).value.1)
    ensures forall m :: 0 <= m < |s.sends| && s.sends[m] == r ==> m == n
    ensures r !in s.recycled ==> Answers(s, r, s.wire[n], s.outcomes[r].frame)
  {
    assert OwnReply(s, r, s.outcomes[r]);
    n :| SentAs(s, r, n, DecodeTypeIdSeqId(s.outcomes[r].frame).value.1);
    assert Wired(s, n);
    Requests.RewrittenBearsId(r.frame, s.kind.ProxyConn?, Counter(n));
  }

  /** And so in every run, windowed or not. */
  lemma RepliesAnswerTheirRequests(run: seq<State>, i: nat, r: Req) returns (n: nat)
    requires Run(run) && i < |run| && r in run[i].outcomes && run[i].outcomes[r].Reply?
    ensures DecodeTypeIdSeqId(run[i].outcomes[r].frame).Some?
    ensures SentAs(run[i], r, n, DecodeTypeIdSeqId(run[i].outcomes[r].frame).value.1)
    ensures forall m :: 0 <= m < |run[i].sends| && run[i].sends[m] == r ==> m == n
    ensures r !in run[i].recycled ==> Answers(run[i], r, run[i].wire[n], run[i].outcomes[r].frame)
    ensures NoSignal(run[i].kind, run[i].outcomes[r].frame)
  {
    RunKeepsInv(run, i);
    RunKeepsOwnReplies(run, i);
    n := OwnReplyAnswers(run[i], r);
    assert OwnReply(run[i], r, run[i].outcomes[r]);
  }

  // ------------------------------------------------------------- timely replies

  /** A frame can be the reply to send number `m` if it bears the id that send went under. */
  predicate MadeFor(s: State, frame: Bytes, m: nat) {
    var h := DecodeTypeIdSeqId(frame);
    m < |s.wire| && h.Some? && h.value.1 == s.wire[m].id
  }

  /** A reply made for a send bears its id and comes before 100000 later sends, while no older entry
      is pending. */
  ghost predicate InTime(s: State, frame: Bytes, to: Option<nat>) {
    to.Some? ==> MadeFor(s, frame, to.value) && Windowed(s) && Recent(s, to.value)
  }

  /** The backend makes replies to sends only, and makes them in time; other frames match nothing. */
  ghost predicate Timely(s: State, step: Step) {
    step.ReaderDoes? && step.d.Receive? ==>
      InTime(s, step.d.frame, step.d.to) && (Match(s, step.d.frame).Some? ==> step.d.to.Some?)
  }

  /** `r` was sent without an id. */
  ghost predicate SentBare(s: State, r: Req) {
    exists k: nat :: SentAs(s, r, k, NO_SEQ_ID)
  }

  /** `m` is the number of the send of `r`, unless that went without an id. */
  ghost predicate OwnSend(s: State, r: Req, m: nat) {
    m < |s.sends| && (s.sends[m] == r || SentBare(s, r))
  }

  /** The reply a request got was made for that request's own send. */
  ghost predicate OwnTags(s: State) {
    forall r :: r in s.tags ==> OwnSend(s, r, s.tags[r])
  }

  lemma OwnSendStays(s: State, t: State, r: Req, m: nat)
    requires OwnSend(s, r, m) && s.sends <= t.sends && s.wire <= t.wire && |t.wire| == |t.sends|
    ensures OwnSend(t, r, m)
  {
    if SentBare(s, r) {
      var k: nat :| SentAs(s, r, k, NO_SEQ_ID);
      assert t.sends[k] == s.sends[k] && t.wire[k] == s.wire[k];
      assert SentAs(t, r, k, NO_SEQ_ID);
    }
  }

  lemma OwnTagsStay(s: State, t: State)
    requires OwnTags(s) && s.sends <= t.sends && s.wire <= t.wire && |t.wire| == |t.sends|
    requires forall r :: r in t.tags ==> (r in s.tags && s.tags[r] == t.tags[r]) || OwnSend(s, r, t.tags[r])
    ensures OwnTags(t)
  {
    forall r | r in t.tags
      ensures OwnSend(t, r, t.tags[r])
    {
      OwnSendStays(s, t, r, t.tags[r]);
    }
  }

  lemma MatchHitsOwnSend(s: State, frame: Bytes, m: nat)
    requires Sends(s) && Wires(s) && Windowed(s) && Recent(s, m) && MadeFor(s, frame, m) && Match(s, frame).Some?
    ensures OwnSend(s, s.pending[Match(s, frame).value].r, m)
  {
    var id := Match(s, frame).value;
    if id == NO_SEQ_ID {
      assert SentAs(s, s.pending[id].r, s.pending[id].send, NO_SEQ_ID);
    } else {
      assert Wired(s, m);
      MatchIsSend(s, m, frame);
    }
  }

  lemma ReceiveKeepsOwnTags(s: State, k: nat, frame: Bytes, spare: Bytes, to: Option<nat>)
    requires Sends(s) && Wires(s) && OwnTags(s)
    requires InTime(s, frame, to)
    ensures OwnTags(Received(s, k, frame, spare, to))
  {
    var id := Match(s, frame);
    if id.Some? {
      if to.Some? {
        MatchHitsOwnSend(s, frame, to.value);
      }
      MatchedKeepsOwnTags(s, k, id.value, Reply(frame, spare), HeartbeatFrame(frame), to);
    } else {
      OwnTagsStay(s, s.(active := false));
    }
  }

  lemma MatchedKeepsOwnTags(s: State, k: nat, id: int32, reply: Outcome, heartbeat: bool, to: Option<nat>)
    requires OwnTags(s) && id in s.pending && |s.wire| == |s.sends|
    requires to.Some? ==> OwnSend(s, s.pending[id].r, to.value)
    ensures OwnTags(Matched(s, k, id, reply, heartbeat, TagsAfter(s, s.pending[id].r, to)))
  {
    OwnTagsStay(s, Matched(s, k, id, reply, heartbeat, TagsAfter(s, s.pending[id].r, to)));
  }

  lemma FlushKeepsTags(s: State, k: nat, d: ReaderStep)
    requires ReaderEnabled(s, k, d) && !d.Receive?
    ensures ReaderApply(s, k, d).tags == s.tags
  {
  }

  lemma ReaderKeepsOwnTags(s: State, k: nat, d: ReaderStep)
    requires Sends(s) && Wires(s) && Losses(s) && OwnTags(s) && ReaderEnabled(s, k, d) && Timely(s, ReaderDoes(k, d))
    ensures OwnTags(ReaderApply(s, k, d))
  {
    if d.Receive? {
      ReceiveKeepsOwnTags(s, k, d.frame, d.spare, d.to);
    } else {
      FlushKeepsTags(s, k, d);
      ReadersLeaveWriterAlone(s, k, d);
      OwnTagsStay(s, ReaderApply(s, k, d));
    }
  }

  lemma StepKeepsOwnTags(s: State, step: Step)
    requires Sends(s) && Wires(s) && Losses(s) && OwnTags(s) && Enabled(s, step) && Timely(s, step)
    ensures OwnTags(Apply(s, step))
  {
    match step
    case ReaderDoes(k, d) => ReaderKeepsOwnTags(s, k, d);
    case WriterDoes(w) => WriterKeepsOwnTags(s, w);
    case _ => OthersKeepOwnTags(s, step);
  }

  lemma WriterKeepsOwnTags(s: State, w: WriterStep)
    requires OwnTags(s) && |s.wire| == |s.sends| && WriterEnabled(s, w)
    ensures OwnTags(WriterApply(s, w))
  {
    WriterLogs(s, w);
    OwnTagsStay(s, WriterApply(s, w));
  }

  lemma OthersKeepOwnTags(s: State, step: Step)
    requires Losses(s) && OwnTags(s) && |s.wire| == |s.sends|
    requires Enabled(s, step) && !step.WriterDoes? && !step.ReaderDoes?
    ensures OwnTags(Apply(s, step))
  {
    OthersLeaveWriterAlone(s, step);
    OwnTagsStay(s, Apply(s, step));
  }

  /** Every reply that completes, or completed, a request was made for some send. */
  ghost predicate AllTagged(s: State) {
    && (forall a :: a in s.completing && s.completing[a].outcome.Reply? ==> s.completing[a].r in s.tags)
    && (forall r :: r in s.outcomes && s.outcomes[r].Reply? ==> r in s.tags)
  }

  lemma MatchedTags(s: State, k: nat, id: int32, reply: Outcome, heartbeat: bool, to: Option<nat>)
    requires AllTagged(s) && id in s.pending && to.Some?
    ensures AllTagged(Matched(s, k, id, reply, heartbeat, TagsAfter(s, s.pending[id].r, to)))
  {
  }

  lemma ReceiveTags(s: State, k: nat, frame: Bytes, spare: Bytes, to: Option<nat>)
    requires AllTagged(s) && (Match(s, frame).Some? ==> to.Some?)
    ensures AllTagged(Received(s, k, frame, spare, to))
  {
    var id := Match(s, frame);
    if id.Some? {
      MatchedTags(s, k, id.value, Reply(frame, spare), HeartbeatFrame(frame), to);
    }
  }

  lemma FlushTags(s: State, k: nat, d: ReaderStep)
    requires AllTagged(s) && ReaderEnabled(s, k, d) && !d.Receive?
    ensures AllTagged(ReaderApply(s, k, d))
  {
  }

  lemma WriterTags(s: State, w: WriterStep)
    requires AllTagged(s) && WriterEnabled(s, w)
    ensures AllTagged(WriterApply(s, w))
  {
  }

  lemma CompletionTags(s: State, a: Agent)
    requires AllTagged(s) && a in s.completing
    ensures AllTagged(AnswerApply(s, a)) && AllTagged(DoneApply(s, a))
  {
  }

  lemma ProducerTags(s: State, p: ProducerStep)
    requires AllTagged(s) && ProducerEnabled(s, p)
    ensures AllTagged(ProducerApply(s, p))
  {
  }

  lemma StepKeepsTagged(s: State, step: Step)
    requires AllTagged(s) && Enabled(s, step) && Timely(s, step)
    ensures AllTagged(Apply(s, step))
  {
    match step
    case ReaderDoes(k, d) =>
      if d.Receive? {
        ReceiveTags(s, k, d.frame, d.spare, d.to);
      } else {
        FlushTags(s, k, d);
      }
    case WriterDoes(w) => WriterTags(s, w);
    case Produce(p) => ProducerTags(s, p);
    case Answer(a) => CompletionTags(s, a);
    case Done(a) => CompletionTags(s, a);
  }

  // ------------------------------------------------------ what each send put out

  /** From `s` to `t` the request in hand is given its id: none exactly if it has been recycled. */
  predicate Stamps(s: State, t: State) {
    && s.writer.Decided? && t.writer.Stamped? && t.writer.r == s.writer.r && t.sends == s.sends
    && (t.writer.id == NO_SEQ_ID <==> s.writer.r in s.recycled)
  }

  lemma WriterStamps(s: State, w: WriterStep)
    requires WriterEnabled(s, w) && WriterApply(s, w).writer.Stamped?
    ensures Stamps(s, WriterApply(s, w))
  {
  }

  lemma BeforeStamped(run: seq<State>, i: nat)
    requires Run(run) && i + 1 < |run| && run[i + 1].writer.Stamped?
    ensures Stamps(run[i], run[i + 1]) || (run[i + 1].writer == run[i].writer && run[i + 1].sends == run[i].sends)
  {
    RunKeepsInv(run, i);
    var step := StepAt(run, i);
    if step.WriterDoes? {
      WriterStamps(run[i], step.w);
    } else {
      OthersLeaveWriterAlone(run[i], step);
    }
  }

  lemma {:induction false} StampedEarlier(run: seq<State>, i: nat) returns (j: nat)
    requires Run(run) && i < |run| && run[i].writer.Stamped?
    ensures j < i && Stamps(run[j], run[j + 1]) && run[j + 1].writer == run[i].writer && run[j].sends == run[i].sends
  {
    BeforeStamped(run, i - 1);
    if Stamps(run[i - 1], run[i]) {
      j := i - 1;
    } else {
      j := StampedEarlier(run, i - 1);
    }
  }

  /** From `s` to `t` send number `n` is made: `out` goes on the wire, the data the request has at
      that moment. */
  predicate WritesSend(s: State, t: State, n: nat, out: Out) {
    && s.writer.Stamped? && t.writer.Sent? && |s.sends| == n && t.sends == s.sends + [s.writer.r]
    && out == Out(s.writer.id, DataToSend(s, s.writer.r, s.writer.id))
  }

  lemma LogGrows(run: seq<State>, i: nat)
    requires Run(run) && i + 1 < |run|
    ensures var s, t := run[i], run[i + 1];
      && |s.wire| == |s.sends| && |t.wire| == |t.sends|
      && (|| (t.sends == s.sends && t.wire == s.wire)
          || (|t.wire| == |s.wire| + 1 && s.wire <= t.wire && WritesSend(s, t, |s.sends|, t.wire[|s.wire|])))
  {
    RunKeepsInv(run, i);
    RunKeepsInv(run, i + 1);
    var step := StepAt(run, i);
    if step.WriterDoes? {
      WriterLogs(run[i], step.w);
    } else {
      OthersLeaveWriterAlone(run[i], step);
    }
  }

  lemma {:induction false} LogStays(run: seq<State>, j: nat, i: nat)
    requires Run(run) && j <= i < |run|
    ensures run[j].wire <= run[i].wire && run[j].sends <= run[i].sends
    decreases i - j
  {
    if j < i {
      LogGrows(run, j);
      LogStays(run, j + 1, i);
    }
  }

  /** Between `j` and `i`, the step that made send number `n`. */
  lemma {:induction false} WriteOf(run: seq<State>, j: nat, i: nat, n: nat) returns (write: nat)
    requires Run(run) && j <= i < |run| && |run[j].sends| <= n < |run[i].sends|
    ensures write < i && |run[write].sends| == n && |run[write + 1].sends| == n + 1
    decreases i - j
  {
    LogGrows(run, j);
    if n < |run[j + 1].sends| {
      write := j;
    } else {
      write := WriteOf(run, j + 1, i, n);
    }
  }

  /** Each send has its moments in the run: at `stamp` the request was given its id, zero exactly
      if it had been recycled by then; at `write` its frame went out, rewritten for that id, or an
      empty one if it had been recycled by then. */
  lemma SendHistory(run: seq<State>, i: nat, n: nat) returns (stamp: nat, write: nat)
    requires Run(run) && i < |run| && n < |run[i].sends|
    ensures n < |run[i].wire| && stamp < write < i
    ensures Stamps(run[stamp], run[stamp + 1]) && run[stamp].writer.r == run[i].sends[n] && |run[stamp].sends| == n
    ensures WritesSend(run[write], run[write + 1], n, run[i].wire[n])
    ensures Bare(run[i], n) <==> run[i].sends[n] in run[stamp].recycled
  {
    write := WriteOf(run, 0, i, n);
    LogGrows(run, write);
    LogStays(run, write + 1, i);
    stamp := StampedEarlier(run, write);
    assert run[i].sends[n] == run[write + 1].sends[n] && run[i].wire[n] == run[write + 1].wire[n];
  }
}
