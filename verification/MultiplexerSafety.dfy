/** What every run of the connection protocol keeps. */
module MultiplexerSafety {

  import opened ThriftMessage
  import opened SeqIds
  import opened Multiplexer
  import Requests

  // ------------------------------------------------------------- bookkeeping

  ghost predicate Answering(s: State, r: Req) {
    exists a :: a in s.completing && s.completing[a].r == r && s.completing[a].answered
  }

  /** Responses are written once, and `Wait.Done` follows the write. */
  ghost predicate Books(s: State) {
    && NoDup(s.answers) && NoDup(s.dones)
    && s.pushed <= s.offered
    && (forall r :: r in s.answers <==> r in s.outcomes)
    && (forall r :: r in s.finished ==> r in s.answers)
    && (forall r :: r in s.answers ==> r in s.finished || Answering(s, r))
    && (forall a :: a in s.completing ==> (s.completing[a].r in s.answers <==> s.completing[a].answered))
    && (forall a :: a in s.completing ==> !s.completing[a].outcome.NotFound?)
    && (forall r :: r in s.dones <==> r in s.finished && r in s.pushed && r.waits)
    && (forall r :: r in s.offered && r !in s.pushed <==> r in s.outcomes && s.outcomes[r].NotFound?)
    && (forall r :: r in s.offered && r !in s.pushed ==> r in s.finished)
  }

  predicate SameBooks(s: State, t: State) {
    && t.offered == s.offered && t.pushed == s.pushed && t.completing == s.completing && t.outcomes == s.outcomes
    && t.answers == s.answers && t.dones == s.dones && t.finished == s.finished
  }

  lemma SameBooksKeep(s: State, t: State)
    requires Books(s) && SameBooks(s, t)
    ensures Books(t)
  {
    forall r | r in t.answers
      ensures r in t.finished || Answering(t, r)
    {
      assert r in s.finished || Answering(s, r);
    }
  }

  /** An agent picks up a request that was somewhere else. */
  lemma PickUpKeepsBooks(s: State, t: State, a: Agent, r: Req, outcome: Outcome, from: Place)
    requires OnePlace(s) && Books(s) && a !in s.completing
    requires At(s, r, from) && !from.Finished? && !from.Completing?
    requires !outcome.NotFound?
    requires SameBooks(s.(completing := s.completing[a := Completion(r, outcome, false)]), t)
    ensures Books(t)
  {
    assert At(s, r, Finished) ==> from == Finished;
    forall b | b in s.completing
      ensures s.completing[b].r != r
    {
      assert At(s, s.completing[b].r, Completing(b));
    }
    assert r !in s.answers;
    forall q | q in t.answers
      ensures q in t.finished || Answering(t, q)
    {
      if q !in s.finished {
        var b :| b in s.completing && s.completing[b].r == q && s.completing[b].answered;
        assert b in t.completing && t.completing[b] == s.completing[b];
      }
    }
  }

  /** No request is being completed twice, or again. */
  lemma OneCompletion(s: State, a: Agent)
    requires OnePlace(s) && a in s.completing
    ensures s.completing[a].r !in s.finished
    ensures forall b :: b in s.completing && b != a ==> s.completing[b].r != s.completing[a].r
    ensures s.completing[a].r in s.offered
  {
    assert At(s, s.completing[a].r, Completing(a));
    assert !At(s, s.completing[a].r, Finished);
    forall b | b in s.completing && b != a
      ensures s.completing[b].r != s.completing[a].r
    {
      assert At(s, s.completing[b].r, Completing(b));
    }
  }

  lemma AnswerBooks(s: State, a: Agent)
    requires Books(s) && Enabled(s, Answer(a)) && s.completing[a].r in s.pushed
    requires forall b :: b in s.completing && b != a ==> s.completing[b].r != s.completing[a].r
    ensures Books(AnswerApply(s, a))
  {
    var t := AnswerApply(s, a);
    var c := s.completing[a];
    forall q | q in t.answers
      ensures q in t.finished || Answering(t, q)
    {
      if q == c.r {
        assert a in t.completing && t.completing[a].answered;
      } else if q !in s.finished {
        var b :| b in s.completing && s.completing[b].r == q && s.completing[b].answered;
        assert b in t.completing && t.completing[b] == s.completing[b];
      }
    }
  }

  lemma AnswerKeepsBooks(s: State, a: Agent)
    requires OnePlace(s) && Books(s) && Enabled(s, Answer(a))
    ensures Books(AnswerApply(s, a))
  {
    OneCompletion(s, a);
    AnswerBooks(s, a);
  }

  lemma DoneKeepsBooks(s: State, a: Agent)
    requires OnePlace(s) && Books(s) && Enabled(s, Done(a))
    ensures Books(DoneApply(s, a))
  {
    var t := DoneApply(s, a);
    var c := s.completing[a];
    OneCompletion(s, a);
    forall q | q in t.answers
      ensures q in t.finished || Answering(t, q)
    {
      if q != c.r && q !in s.finished {
        var b :| b in s.completing && s.completing[b].r == q && s.completing[b].answered;
        assert b in t.completing && t.completing[b] == s.completing[b];
      }
    }
  }

  lemma NewcomerNotAnswered(s: State, r: Req)
    requires OnePlace(s) && Books(s) && r !in s.offered
    ensures r !in s.answers && r !in s.finished && forall a :: a in s.completing ==> s.completing[a].r != r
  {
    assert !At(s, r, Finished);
    forall a | a in s.completing
      ensures s.completing[a].r != r
    {
      assert At(s, s.completing[a].r, Completing(a));
    }
  }

  lemma NewcomerBooks(s: State, p: ProducerStep)
    requires Books(s) && ProducerEnabled(s, p) && (p.Offer? || p.Reject?)
    requires p.r !in s.answers && p.r !in s.finished && forall a :: a in s.completing ==> s.completing[a].r != p.r
    ensures Books(ProducerApply(s, p))
  {
    var t := ProducerApply(s, p);
    forall q | q in t.answers
      ensures q in t.finished || Answering(t, q)
    {
      assert q in s.answers ==> q in s.finished || Answering(s, q);
    }
  }

  lemma ProducerKeepsBooks(s: State, p: ProducerStep)
    requires OnePlace(s) && Books(s) && ProducerEnabled(s, p)
    ensures Books(ProducerApply(s, p))
  {
    if p.Offer? || p.Reject? {
      NewcomerNotAnswered(s, p.r);
      NewcomerBooks(s, p);
    } else {
      SameBooksKeep(s, ProducerApply(s, p));
    }
  }

  lemma WriterKeepsBooks(s: State, w: WriterStep)
    requires OnePlace(s) && Books(s) && WriterEnabled(s, w)
    ensures Books(WriterApply(s, w))
  {
    var t := WriterApply(s, w);
    if w.WriteFail? {
      assert At(s, s.writer.r, WriterHand);
      PickUpKeepsBooks(s, t, TheWriter, s.writer.r, WriteFailed, WriterHand);
    } else if w.DrainTake? {
      assert At(s, s.input[0], Queue);
      PickUpKeepsBooks(s, t, TheWriter, s.input[0], Drained, Queue);
    } else {
      SameBooksKeep(s, t);
    }
  }

  lemma MatchedKeepsBooks(s: State, k: nat, id: int32, reply: Outcome, heartbeat: bool, tags: map<Req, nat>)
    requires OnePlace(s) && Books(s) && id in s.pending && TheReader(k) !in s.completing && reply.Reply?
    ensures Books(Matched(s, k, id, reply, heartbeat, tags))
  {
    var t := Matched(s, k, id, reply, heartbeat, tags);
    if heartbeat {
      SameBooksKeep(s, t);
    } else {
      assert At(s, s.pending[id].r, Pending(id));
      PickUpKeepsBooks(s, t, TheReader(k), s.pending[id].r, reply, Pending(id));
    }
  }

  lemma ReceiveKeepsBooks(s: State, k: nat, frame: Bytes, spare: Bytes, to: Option<nat>)
    requires OnePlace(s) && Books(s) && ReaderEnabled(s, k, Receive(frame, spare, to))
    ensures Books(ReaderApply(s, k, Receive(frame, spare, to)))
  {
    var id := Match(s, frame);
    if id.Some? {
      MatchedKeepsBooks(s, k, id.value, Reply(frame, spare), HeartbeatFrame(frame),
                        TagsAfter(s, s.pending[id.value].r, to));
    } else {
      SameBooksKeep(s, s.(active := false));
    }
  }

  lemma ReaderKeepsBooks(s: State, k: nat, d: ReaderStep)
    requires OnePlace(s) && Books(s) && ReaderEnabled(s, k, d)
    ensures Books(ReaderApply(s, k, d))
  {
    if d.Receive? {
      ReceiveKeepsBooks(s, k, d.frame, d.spare, d.to);
    } else if d.FlushTake? {
      var r := s.readers[k].batch[d.id].r;
      assert At(s, r, Batch(k, d.id));
      PickUpKeepsBooks(s, ReaderApply(s, k, d), TheReader(k), r, ReadFailed, Batch(k, d.id));
    } else {
      SameBooksKeep(s, ReaderApply(s, k, d));
    }
  }

  lemma StepKeepsBooks(s: State, step: Step)
    requires OnePlace(s) && Books(s) && Enabled(s, step)
    ensures Books(Apply(s, step))
  {
    match step
    case Produce(p) => ProducerKeepsBooks(s, p);
    case WriterDoes(w) => WriterKeepsBooks(s, w);
    case ReaderDoes(k, d) => ReaderKeepsBooks(s, k, d);
    case Answer(a) => AnswerKeepsBooks(s, a);
    case Done(a) => DoneKeepsBooks(s, a);
  }

  // ------------------------------------------------------------------- sends

  /** `r` went out as send number `n` and `id` is the id written for it. */
  predicate SentAs(s: State, r: Req, n: nat, id: int32) {
    n < |s.sends| == |s.wire| && s.sends[n] == r && s.wire[n].id == id
  }

  /** The writer is between taking a request and having written it. */
  predicate InHand(w: Writer) { w.Taken? || w.Decided? || w.Stamped? }

  /** What the writer knows: the closed form of its counter, that no request is sent twice, and
      the send behind each entry. */
  ghost predicate Sends(s: State) {
    && s.current == Counter(|s.sends|)
    && NoDup(s.sends) && |s.wire| == |s.sends|
    && (forall r :: r in s.sends ==> r in s.offered && r !in s.pushing && r !in s.input)
    && (InHand(s.writer) ==> s.writer.r !in s.sends)
    && (s.writer.Sent? ==> s.writer.e.send == |s.sends| - 1 && SentAs(s, s.writer.e.r, s.writer.e.send, s.writer.id))
    && (forall id :: id in s.pending ==> SentAs(s, s.pending[id].r, s.pending[id].send, id))
  }

  /** Send number `n` went out under its counter value, with the request's own frame rewritten for
      that id.  A request without data goes out as an empty frame, under no id if the data was
      gone when the id was to be written. */
  predicate Wired(s: State, n: nat)
    requires n < |s.sends| == |s.wire|
  {
    var r, out := s.sends[n], s.wire[n];
    && (out.id == Counter(n) || (out.id == NO_SEQ_ID && out.frame == []))
    && (out.frame == Requests.Rewritten(r.frame, s.kind.ProxyConn?, Counter(n)) || (out.frame == [] && r in s.recycled))
    && (out.id == NO_SEQ_ID ==> r in s.recycled)
  }

  ghost predicate Wires(s: State) {
    && |s.wire| == |s.sends|
    && (forall n :: 0 <= n < |s.sends| ==> Wired(s, n))
    && (s.writer.Stamped? ==> s.writer.id == s.current || (s.writer.id == NO_SEQ_ID && s.writer.r in s.recycled))
  }

  /** Nothing waits in the transport's buffer unnoticed: a frame left unflushed means that the
      queue was seen non-empty after the item was taken, and only the writer shortens the queue. */
  ghost predicate Batching(s: State) {
    && s.unflushed < MAX_BUFFERED
    && ((s.writer.Decided? || s.writer.Stamped?) && !s.writer.flush ==> s.input != [])
    && (s.writer.Sent? && s.unflushed > 0 ==> s.input != [])
    && (s.writer.AtSelect? && s.unflushed > 0 && !s.skipped ==> s.input != [])
    && (s.writer.Draining? ==> s.writer.left <= |s.input|)
  }

  /** Only heartbeats are dropped by the writer and by the LB flush. */
  ghost predicate Losses(s: State) {
    forall r :: r in s.lost ==>
      && (s.lost[r].StaleHeartbeat? ==> r.heartbeat)
      && (s.lost[r].HeartbeatFlushed? ==> r.heartbeat && s.kind.LBConn?)
  }

  /** The writer's view is untouched, except that pending entries may have gone; nothing is answered
      yet. */
  ghost predicate SameForWriter(s: State, t: State) {
    && t.kind == s.kind && t.offered == s.offered && t.pushed == s.pushed && t.adds == s.adds
    && t.pushing == s.pushing && t.input == s.input && t.outcomes == s.outcomes
    && t.writer == s.writer && t.current == s.current && t.sends == s.sends
    && t.unflushed == s.unflushed && t.skipped == s.skipped && t.recycled == s.recycled && t.wire == s.wire
    && forall id :: id in t.pending ==> id in s.pending && t.pending[id] == s.pending[id]
  }

  lemma MatchLeavesWriterAlone(s: State, k: nat, id: int32, reply: Outcome, heartbeat: bool, tags: map<Req, nat>)
    requires id in s.pending && Losses(s)
    ensures var t := Matched(s, k, id, reply, heartbeat, tags); SameForWriter(s, t) && Losses(t)
  {
  }

  lemma FlushLeavesWriterAlone(s: State, k: nat, d: ReaderStep)
    requires ReaderEnabled(s, k, d) && Losses(s) && !d.Receive?
    ensures SameForWriter(s, ReaderApply(s, k, d)) && Losses(ReaderApply(s, k, d))
  {
  }

  lemma ReceiveLeavesWriterAlone(s: State, k: nat, frame: Bytes, spare: Bytes, to: Option<nat>)
    requires Losses(s)
    ensures var t := Received(s, k, frame, spare, to); SameForWriter(s, t) && Losses(t)
  {
    var id := Match(s, frame);
    if id.Some? {
      MatchLeavesWriterAlone(s, k, id.value, Reply(frame, spare), HeartbeatFrame(frame),
                             TagsAfter(s, s.pending[id.value].r, to));
    }
  }

  lemma ReadersLeaveWriterAlone(s: State, k: nat, d: ReaderStep)
    requires ReaderEnabled(s, k, d) && Losses(s)
    ensures SameForWriter(s, ReaderApply(s, k, d)) && Losses(ReaderApply(s, k, d))
  {
    if d.Receive? {
      ReceiveLeavesWriterAlone(s, k, d.frame, d.spare, d.to);
    } else {
      FlushLeavesWriterAlone(s, k, d);
    }
  }

  lemma ProducerKeepsSends(s: State, p: ProducerStep)
    requires OnePlace(s) && Sends(s) && Batching(s) && Losses(s) && ProducerEnabled(s, p)
    ensures Sends(ProducerApply(s, p)) && Batching(ProducerApply(s, p)) && Losses(ProducerApply(s, p))
  {
    if p.Send? {
      assert At(s, p.r, Pushing);
    }
  }

  lemma WriterKeepsSends(s: State, w: WriterStep)
    requires OnePlace(s) && Sends(s) && WriterEnabled(s, w)
    ensures Sends(WriterApply(s, w))
  {
    if w.Write? {
      WrittenKeepsSends(s, DataToSend(s, s.writer.r, s.writer.id), WriterApply(s, w).unflushed);
    } else if w.Take? || w.DrainTake? {
      TakeKeepsSends(s, w);
    } else {
      OtherWriterStepsKeepSends(s, w);
    }
  }

  lemma TakeKeepsSends(s: State, w: WriterStep)
    requires OnePlace(s) && Sends(s) && WriterEnabled(s, w) && (w.Take? || w.DrainTake?)
    ensures Sends(WriterApply(s, w))
  {
    QueueHead(s.input);
  }

  lemma OtherWriterStepsKeepSends(s: State, w: WriterStep)
    requires Sends(s) && WriterEnabled(s, w) && !w.Write? && !w.Take? && !w.DrainTake?
    ensures Sends(WriterApply(s, w))
  {
  }

  lemma WrittenKeepsSends(s: State, data: Bytes, unflushed: nat)
    requires OnePlace(s) && Sends(s) && s.writer.Stamped?
    ensures Sends(Written(s, data, unflushed))
  {
    assert At(s, s.writer.r, WriterHand);
    assert !At(s, s.writer.r, Pushing) && !At(s, s.writer.r, Queue);
  }

  lemma WriterKeepsBatching(s: State, w: WriterStep)
    requires Batching(s) && Losses(s) && WriterEnabled(s, w)
    ensures Batching(WriterApply(s, w)) && Losses(WriterApply(s, w))
  {
  }

  lemma WriteKeepsWires(s: State, timeUp: bool)
    requires Sends(s) && Wires(s) && WriterEnabled(s, Write(timeUp))
    ensures Wires(WriterApply(s, Write(timeUp)))
  {
    var t := WriterApply(s, Write(timeUp));
    forall n | 0 <= n < |t.sends|
      ensures Wired(t, n)
    {
      if n < |s.sends| {
        assert Wired(s, n);
      }
    }
  }

  /** Nothing but a write touches the log, and what is recycled stays so. */
  lemma SameWires(s: State, t: State)
    requires Wires(s) && t.sends == s.sends && t.wire == s.wire && t.kind == s.kind && s.recycled <= t.recycled
    requires t.writer.Stamped? ==>
      t.current == s.current && (t.writer == s.writer || t.writer.id == IdToSend(s, t.writer.r))
    ensures Wires(t)
  {
    forall n | 0 <= n < |t.sends|
      ensures Wired(t, n)
    {
      assert Wired(s, n);
    }
  }

  lemma WriterKeepsWires(s: State, w: WriterStep)
    requires Sends(s) && Wires(s) && WriterEnabled(s, w)
    ensures Wires(WriterApply(s, w))
  {
    if w.Write? {
      WriteKeepsWires(s, w.timeUp);
    } else {
      SameWires(s, WriterApply(s, w));
    }
  }

  lemma ReaderKeepsWires(s: State, k: nat, d: ReaderStep)
    requires Wires(s) && Losses(s) && ReaderEnabled(s, k, d)
    ensures Wires(ReaderApply(s, k, d))
  {
    ReadersLeaveWriterAlone(s, k, d);
    SameWires(s, ReaderApply(s, k, d));
  }

  lemma ProducerKeepsWires(s: State, p: ProducerStep)
    requires Wires(s) && ProducerEnabled(s, p)
    ensures Wires(ProducerApply(s, p))
  {
    SameWires(s, ProducerApply(s, p));
  }

  lemma StepKeepsWires(s: State, step: Step)
    requires Sends(s) && Wires(s) && Losses(s) && Enabled(s, step)
    ensures Wires(Apply(s, step))
  {
    match step
    case Produce(p) => ProducerKeepsWires(s, p);
    case WriterDoes(w) => WriterKeepsWires(s, w);
    case ReaderDoes(k, d) => ReaderKeepsWires(s, k, d);
    case Answer(a) => SameWires(s, AnswerApply(s, a));
    case Done(a) => SameWires(s, DoneApply(s, a));
  }

  lemma StepKeepsWriterInvariants(s: State, step: Step)
    requires OnePlace(s) && Sends(s) && Batching(s) && Losses(s) && Enabled(s, step)
    ensures Sends(Apply(s, step)) && Batching(Apply(s, step)) && Losses(Apply(s, step))
  {
    match step
    case Produce(p) => ProducerKeepsSends(s, p);
    case WriterDoes(w) =>
      WriterKeepsSends(s, w);
      WriterKeepsBatching(s, w);
    case ReaderDoes(k, d) => ReadersLeaveWriterAlone(s, k, d);
    case Answer(a) => assert SameForWriter(s, AnswerApply(s, a).(outcomes := s.outcomes));
    case Done(a) => assert SameForWriter(s, DoneApply(s, a));
  }

  // ------------------------------------------------------------ what steps leave

  /** Nothing the writer alone keeps has changed; others may add input and recycle requests. */
  predicate WriterUntouched(s: State, t: State) {
    && t.kind == s.kind && t.writer == s.writer && t.current == s.current && t.sends == s.sends && t.wire == s.wire
    && t.unflushed == s.unflushed && t.skipped == s.skipped && s.recycled <= t.recycled && s.input <= t.input
  }

  lemma ProducersLeaveWriterAlone(s: State, p: ProducerStep)
    requires ProducerEnabled(s, p)
    ensures var t := ProducerApply(s, p); WriterUntouched(s, t) && t.lost == s.lost && t.tags == s.tags
  {
  }

  lemma CompletionsLeaveWriterAlone(s: State, a: Agent)
    requires a in s.completing
    ensures var t := AnswerApply(s, a); WriterUntouched(s, t) && t.lost == s.lost && t.tags == s.tags
    ensures var t := DoneApply(s, a); WriterUntouched(s, t) && t.lost == s.lost && t.tags == s.tags
  {
  }

  lemma OthersLeaveWriterAlone(s: State, step: Step)
    requires Losses(s) && Enabled(s, step) && !step.WriterDoes?
    ensures WriterUntouched(s, Apply(s, step))
    ensures !step.ReaderDoes? ==> Apply(s, step).lost == s.lost && Apply(s, step).tags == s.tags
  {
    match step
    case Produce(p) => ProducersLeaveWriterAlone(s, p);
    case ReaderDoes(k, d) => ReadersLeaveWriterAlone(s, k, d);
    case Answer(a) => CompletionsLeaveWriterAlone(s, a);
    case Done(a) => CompletionsLeaveWriterAlone(s, a);
  }

  /** The writer adds to its log what a write puts out, or nothing. */
  lemma WriterLogs(s: State, w: WriterStep)
    requires WriterEnabled(s, w)
    ensures var t := WriterApply(s, w);
      && t.kind == s.kind && t.recycled == s.recycled && t.tags == s.tags && s.sends <= t.sends
      && (if w.Write? then t.wire == s.wire + [Out(s.writer.id, DataToSend(s, s.writer.r, s.writer.id))]
          else t.sends == s.sends && t.wire == s.wire)
  {
  }

  // -------------------------------------------------------------------- runs

  /** `Wait.Add` runs once for each request pushed that has a WaitGroup; only what was dispatched is
      recycled. */
  ghost predicate Adds(s: State) {
    && NoDup(s.adds) && (forall r :: r in s.adds <==> r in s.pushed && r.waits)
    && s.recycled <= s.offered
  }

  lemma ProducerKeepsAdds(s: State, p: ProducerStep)
    requires Adds(s) && s.pushed <= s.offered && ProducerEnabled(s, p)
    ensures Adds(ProducerApply(s, p))
  {
    if p.Offer? {
      assert p.r !in s.adds;
    }
  }

  lemma WriterAddsNothing(s: State, w: WriterStep)
    requires WriterEnabled(s, w)
    ensures var t := WriterApply(s, w);
      t.adds == s.adds && t.pushed == s.pushed && t.recycled == s.recycled && t.offered == s.offered
  {
  }

  lemma StepKeepsAdds(s: State, step: Step)
    requires Adds(s) && s.pushed <= s.offered && Losses(s) && Enabled(s, step)
    ensures Adds(Apply(s, step))
  {
    match step
    case Produce(p) => ProducerKeepsAdds(s, p);
    case WriterDoes(w) => WriterAddsNothing(s, w);
    case ReaderDoes(k, d) => ReadersLeaveWriterAlone(s, k, d);
    case Answer(a) => assert AnswerApply(s, a).adds == s.adds;
    case Done(a) => assert DoneApply(s, a).adds == s.adds;
  }

  ghost predicate Inv(s: State) {
    OnePlace(s) && Books(s) && Adds(s) && Sends(s) && Wires(s) && Batching(s) && Losses(s)
  }

  ghost predicate Next(s: State, t: State) {
    exists step :: Enabled(s, step) && t == Apply(s, step)
  }

  ghost predicate NextAt(run: seq<State>, i: nat) {
    i + 1 < |run| ==> Next(run[i], run[i + 1])
  }

  /** A run: any interleaving, of any length, from a fresh connection. */
  ghost predicate Run(run: seq<State>) {
    && run != []
    && Init(run[0])
    && forall i :: 0 <= i < |run| ==> NextAt(run, i)
  }

  lemma InitHolds(s: State)
    requires Init(s)
    ensures Inv(s)
  {
  }

  lemma StepKeepsInv(s: State, step: Step)
    requires Inv(s) && Enabled(s, step)
    ensures Inv(Apply(s, step))
  {
    StepKeepsOnePlace(s, step);
    StepKeepsBooks(s, step);
    StepKeepsAdds(s, step);
    StepKeepsWires(s, step);
    StepKeepsWriterInvariants(s, step);
  }

  lemma StepAt(run: seq<State>, i: nat) returns (step: Step)
    requires Run(run) && i + 1 < |run|
    ensures Enabled(run[i], step) && run[i + 1] == Apply(run[i], step)
  {
    assert NextAt(run, i);
    step :| Enabled(run[i], step) && run[i + 1] == Apply(run[i], step);
  }

  /** Every state of every run satisfies the invariant. */
  lemma {:induction false} RunKeepsInv(run: seq<State>, i: nat)
    requires Run(run) && i < |run|
    ensures Inv(run[i])
  {
    if i == 0 {
      InitHolds(run[0]);
    } else {
      RunKeepsInv(run, i - 1);
      var step := StepAt(run, i - 1);
      StepKeepsInv(run[i - 1], step);
    }
  }

  lemma Extend(run: seq<State>, step: Step) returns (longer: seq<State>)
    requires Run(run) && Enabled(run[|run| - 1], step)
    ensures longer == run + [Apply(run[|run| - 1], step)] && Run(longer)
  {
    longer := run + [Apply(run[|run| - 1], step)];
    forall i | 0 <= i < |longer|
      ensures NextAt(longer, i)
    {
      if i < |run| - 1 {
        assert NextAt(run, i) && longer[i] == run[i] && longer[i + 1] == run[i + 1];
      } else if i == |run| - 1 {
        assert Enabled(longer[i], step) && longer[i + 1] == Apply(longer[i], step);
      }
    }
  }

  function Fresh(kind: Kind): (s: State)
    ensures Init(s)
  {
    State(kind, {}, {}, [], {}, [], false, AtSelect, BACKEND_CONN_MIN_SEQ_ID, [], [], map[], map[0 := Reading], map[],
          map[], [], [], {}, map[], 0, false, {}, true, map[])
  }
}
