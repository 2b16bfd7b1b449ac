/** The protocol of one backend connection (`BackendConn`, `BackendConnLB`) as a transition
    system.  Producers, the writer loop, any number of readers (one per transport the
    connection ever had) and the flush of a broken reader interleave freely; a step is one
    channel operation, one locked map operation, or one write of a request's response. */
module Multiplexer {

  import opened ThriftMessage
  import opened SeqIds
  import Framing
  import Requests

  const INPUT_CAPACITY: nat := 1024
  const MAX_BUFFERED: nat := 20

  datatype Kind = ProxyConn | LBConn

  /** A request and the frame it was made of.  `waits` is `Wait != nil`; `heartbeat` is
      `TypeId == MESSAGE_TYPE_HEART_BEAT`. */
  datatype Req = Req(id: nat, waits: bool, heartbeat: bool, frame: Bytes)

  /** One successful write: the id the request goes under, and the frame put on the wire. */
  datatype Out = Out(id: int32, frame: Bytes)

  /** A value of `seqNum2Request`, with the number of the send that registered it. */
  datatype Entry = Entry(r: Req, send: nat)

  /** What ends up in `Response.Data` / `Response.Err`, by the path that puts it there.  A reply is
      the frame as it was read and what followed it in its buffer: what `RestoreSeqId` works on. */
  datatype Outcome = Reply(frame: Bytes, spare: Bytes) | WriteFailed | Drained | ReadFailed | NotFound

  /** The ways a request can leave the connection without being completed. */
  datatype Loss = StaleHeartbeat | HeartbeatReply | HeartbeatFlushed | Displaced

  datatype Agent = TheWriter | TheReader(k: nat)

  /** An agent between picking a request to complete and its `Wait.Done`. */
  datatype Completion = Completion(r: Req, outcome: Outcome, answered: bool)

  datatype Writer =
    | AtSelect
    | Taken(r: Req)
    | Decided(r: Req, flush: bool)
    | Stamped(r: Req, flush: bool, id: int32)
    | Sent(e: Entry, id: int32)
    | Leaving
    | Draining(left: nat)
    | Stopped

  datatype Reader = Reading | Broken | Flushing(batch: map<int32, Entry>) | Gone

  datatype State = State(
    kind: Kind,
    offered: set<Req>,                   // dispatched so far
    pushed: set<Req>,                    // of those, the ones given to PushBack
    adds: seq<Req>,                      // every Wait.Add(1)
    pushing: set<Req>,                   // blocked on `bc.input <- r`
    input: seq<Req>,
    closed: bool,
    writer: Writer,
    current: SeqId,                      // currentSeqId
    sends: seq<Req>,                     // requests written successfully, in order
    wire: seq<Out>,                      // what each of those writes put on the wire
    pending: map<int32, Entry>,          // seqNum2Request
    readers: map<nat, Reader>,
    completing: map<Agent, Completion>,
    outcomes: map<Req, Outcome>,         // responses as set
    answers: seq<Req>,                   // every write of a response
    dones: seq<Req>,                     // every Wait.Done
    finished: set<Req>,
    lost: map<Req, Loss>,
    unflushed: nat,                      // nbuffered of the current transport
    skipped: bool,                       // the last item the writer took was a dropped heartbeat
    recycled: set<Req>,                  // recycled by their session: Request.Data is nil
    active: bool,                        // IsConnActive
    tags: map<Req, nat>                  // the send a request's reply was made for, if for any
  )

  datatype ProducerStep = Offer(r: Req) | Send(r: Req) | Reject(r: Req) | Close | Abandon(r: Req)

  datatype WriterStep =
    | Take | DropStale | Decide | Stamp | Write(timeUp: bool) | Register | WriteFail
    | Timeout | EndOfInput | StartDrain | DrainTake | Reconnect(k: nat) | Retire

  datatype ReaderStep =
    | Receive(frame: Bytes, spare: Bytes, to: Option<nat>)
    | ReadFail | Swap | FlushTake(id: int32) | FlushSkip(id: int32) | FlushEnd

  datatype Step =
    | Produce(p: ProducerStep)
    | WriterDoes(w: WriterStep)
    | ReaderDoes(k: nat, d: ReaderStep)
    | Answer(a: Agent)                   // the agent sets the response
    | Done(a: Agent)                     // and then runs Wait.Done

  predicate Init(s: State) {
    && s.offered == s.pushed == s.pushing == {} && s.adds == [] && s.input == [] && !s.closed && s.active
    && s.writer == AtSelect && s.current == BACKEND_CONN_MIN_SEQ_ID && s.sends == [] && s.wire == []
    && s.pending == map[] && s.readers == map[0 := Reading] && s.completing == map[]
    && s.outcomes == map[] && s.answers == [] && s.dones == [] && s.finished == {} && s.lost == map[]
    && s.unflushed == 0 && !s.skipped && s.recycled == {} && s.tags == map[]
  }

  // ---------------------------------------------------------------- producers

  predicate HeartbeatFrame(frame: Bytes) {
    var h := DecodeTypeIdSeqId(frame);
    h.Some? && h.value.0 == MESSAGE_TYPE_HEART_BEAT
  }

  predicate ProducerEnabled(s: State, p: ProducerStep) {
    match p
    case Offer(r) => r !in s.offered && r.heartbeat == HeartbeatFrame(r.frame)
    case Send(r) => r in s.pushing && |s.input| < INPUT_CAPACITY && !s.closed
    case Reject(r) => r !in s.offered
    case Close => s.kind.ProxyConn? && !s.closed
    case Abandon(r) => s.kind.ProxyConn? && r in s.offered && r.waits
  }

  function ProducerApply(s: State, p: ProducerStep): State
    requires ProducerEnabled(s, p)
  {
    match p
    case Offer(r) =>
      s.(offered := s.offered + {r}, pushed := s.pushed + {r}, pushing := s.pushing + {r},
         adds := if r.waits then s.adds + [r] else s.adds)
    case Send(r) => s.(pushing := s.pushing - {r}, input := s.input + [r])
    case Reject(r) =>
      s.(offered := s.offered + {r}, outcomes := s.outcomes[r := NotFound],
         answers := s.answers + [r], finished := s.finished + {r})
    case Close => s.(closed := true, active := false)
    case Abandon(r) => s.(recycled := s.recycled + {r})
  }

  // ------------------------------------------------------------------- writer

  /** A session whose client is gone recycles its requests without waiting for them.  Without
      data, `ReplaceSeqId` does nothing, and the request goes under the id it has: zero. */
  const NO_SEQ_ID: int32 := 0

  function IdToSend(s: State, r: Req): int32 {
    if r in s.recycled then NO_SEQ_ID else s.current
  }

  /** `Request.Data` once `ReplaceSeqId` has been through with `id`. */
  function DataToSend(s: State, r: Req, id: int32): Bytes {
    if r in s.recycled then [] else Requests.Rewritten(r.frame, s.kind.ProxyConn?, id)
  }

  predicate WriterEnabled(s: State, w: WriterStep) {
    && TheWriter !in s.completing
    && match w
       case Take => s.writer.AtSelect? && s.input != []
       case DropStale => s.writer.Taken? && s.writer.r.heartbeat
       case Decide => s.writer.Taken?
       case Stamp => s.writer.Decided?
       case Write(_) => s.writer.Stamped?
       case Register => s.writer.Sent?
       case WriteFail => s.writer.Stamped?
       case Timeout => s.writer.AtSelect?
       case EndOfInput => s.writer.AtSelect? && s.closed && s.input == []
       case StartDrain => s.writer.Leaving?
       case DrainTake => s.writer.Draining? && s.writer.left > 0 && s.input != []
       case Reconnect(k) => s.kind.ProxyConn? && s.writer == Draining(0) && k !in s.readers
       case Retire => s.writer == Draining(0)
  }

  /** `data` was written for the request in hand, which leaves `unflushed` frames waiting. */
  function Written(s: State, data: Bytes, unflushed: nat): State
    requires s.writer.Stamped?
  {
    s.(writer := Sent(Entry(s.writer.r, |s.sends|), s.writer.id), current := NextId(s.current),
       sends := s.sends + [s.writer.r], wire := s.wire + [Out(s.writer.id, data)], unflushed := unflushed)
  }

  function WriterApply(s: State, w: WriterStep): State
    requires WriterEnabled(s, w)
  {
    match w
    case Take => s.(writer := Taken(s.input[0]), input := s.input[1..])
    case DropStale => s.(writer := AtSelect, lost := s.lost[s.writer.r := StaleHeartbeat], skipped := true)
    case Decide => s.(writer := Decided(s.writer.r, s.input == []))
    case Stamp => s.(writer := Stamped(s.writer.r, s.writer.flush, IdToSend(s, s.writer.r)))
    case Write(timeUp) =>
      Written(s, DataToSend(s, s.writer.r, s.writer.id),
              Framing.CountAfterFlush(s.unflushed, s.writer.flush, timeUp, MAX_BUFFERED))
    case Register =>
      s.(writer := AtSelect, skipped := false, pending := s.pending[s.writer.id := s.writer.e],
         lost := if s.writer.id in s.pending then s.lost[s.pending[s.writer.id].r := Displaced] else s.lost)
    case WriteFail =>
      s.(writer := Leaving, completing := s.completing[TheWriter := Completion(s.writer.r, WriteFailed, false)])
    case Timeout => s.(writer := Leaving)
    case EndOfInput => s.(writer := Stopped, active := false)
    case StartDrain => s.(writer := Draining(|s.input|), active := false)
    case DrainTake =>
      s.(writer := Draining(s.writer.left - 1), input := s.input[1..],
         completing := s.completing[TheWriter := Completion(s.input[0], Drained, false)])
    case Reconnect(k) =>
      s.(writer := AtSelect, readers := s.readers[k := Reading], unflushed := 0, skipped := false,
         active := true)
    case Retire => s.(writer := Stopped)
  }

  // ------------------------------------------------------------------ readers

  /** The loop of `flushRequests` skips heartbeats on the LB side only. */
  predicate Skips(s: State, r: Req) { s.kind.LBConn? && r.heartbeat }

  predicate ReaderEnabled(s: State, k: nat, d: ReaderStep) {
    && k in s.readers && TheReader(k) !in s.completing
    && match d
       case Receive(_, _, _) => s.readers[k].Reading?
       case ReadFail => s.readers[k].Reading?
       case Swap => s.readers[k].Broken?
       case FlushTake(id) => s.readers[k].Flushing? && id in s.readers[k].batch && !Skips(s, s.readers[k].batch[id].r)
       case FlushSkip(id) => s.readers[k].Flushing? && id in s.readers[k].batch && Skips(s, s.readers[k].batch[id].r)
       case FlushEnd => s.readers[k] == Flushing(map[]) && (s.kind.LBConn? ==> !s.closed)
  }

  /** The key a reply takes out of `seqNum2Request`, if any: an unreadable header, a STOP from
      a worker and an unknown id take nothing. */
  function Match(s: State, frame: Bytes): (id: Option<int32>)
    ensures id.Some? ==> id.value in s.pending && DecodeTypeIdSeqId(frame).Some? &&
                         DecodeTypeIdSeqId(frame).value.1 == id.value
  {
    match DecodeTypeIdSeqId(frame)
    case None => None
    case Some((_, id)) => if StopFrame(s.kind, frame) || id !in s.pending then None else Some(id)
  }

  /** A worker's announcement that it wants no more requests. */
  predicate StopFrame(kind: Kind, frame: Bytes) {
    var h := DecodeTypeIdSeqId(frame);
    kind.LBConn? && h.Some? && h.value.0 == MESSAGE_TYPE_STOP
  }

  /** The reply that took `r` out of the map was made for send number `to`, or for none. */
  function TagsAfter(s: State, r: Req, to: Option<nat>): map<Req, nat> {
    if to.Some? then s.tags[r := to.value] else s.tags
  }

  /** The entry leaves the map; a heartbeat reply stops there, any other completes the request. */
  function Matched(s: State, k: nat, id: int32, reply: Outcome, heartbeat: bool, tags: map<Req, nat>): State
    requires id in s.pending
  {
    var r := s.pending[id].r;
    if heartbeat then s.(pending := s.pending - {id}, lost := s.lost[r := HeartbeatReply], tags := tags)
    else
      s.(pending := s.pending - {id}, tags := tags,
         completing := s.completing[TheReader(k) := Completion(r, reply, false)])
  }

  function Received(s: State, k: nat, frame: Bytes, spare: Bytes, to: Option<nat>): State {
    if StopFrame(s.kind, frame) then s.(active := false)
    else match Match(s, frame)
      case None => s
      case Some(id) =>
        Matched(s, k, id, Reply(frame, spare), HeartbeatFrame(frame), TagsAfter(s, s.pending[id].r, to))
  }

  function ReaderApply(s: State, k: nat, d: ReaderStep): State
    requires ReaderEnabled(s, k, d)
  {
    match d
    case Receive(frame, spare, to) => Received(s, k, frame, spare, to)
    case ReadFail => s.(readers := s.readers[k := Broken], active := false)
    case Swap => s.(readers := s.readers[k := Flushing(s.pending)], pending := map[])
    case FlushTake(id) =>
      s.(readers := s.readers[k := Flushing(s.readers[k].batch - {id})],
         completing := s.completing[TheReader(k) := Completion(s.readers[k].batch[id].r, ReadFailed, false)])
    case FlushSkip(id) =>
      s.(readers := s.readers[k := Flushing(s.readers[k].batch - {id})],
         lost := s.lost[s.readers[k].batch[id].r := HeartbeatFlushed])
    case FlushEnd => s.(readers := s.readers[k := Gone], closed := s.closed || s.kind.LBConn?)
  }

  // -------------------------------------------------------------- completions

  predicate Enabled(s: State, step: Step) {
    match step
    case Produce(p) => ProducerEnabled(s, p)
    case WriterDoes(w) => WriterEnabled(s, w)
    case ReaderDoes(k, d) => ReaderEnabled(s, k, d)
    case Answer(a) => a in s.completing && !s.completing[a].answered
    case Done(a) => a in s.completing && s.completing[a].answered
  }

  function AnswerApply(s: State, a: Agent): State
    requires a in s.completing
  {
    var c := s.completing[a];
    s.(outcomes := s.outcomes[c.r := c.outcome], answers := s.answers + [c.r],
       completing := s.completing[a := c.(answered := true)])
  }

  function DoneApply(s: State, a: Agent): State
    requires a in s.completing
  {
    var c := s.completing[a];
    s.(completing := s.completing - {a}, finished := s.finished + {c.r},
       dones := if c.r.waits then s.dones + [c.r] else s.dones)
  }

  function Apply(s: State, step: Step): State
    requires Enabled(s, step)
  {
    match step
    case Produce(p) => ProducerApply(s, p)
    case WriterDoes(w) => WriterApply(s, w)
    case ReaderDoes(k, d) => ReaderApply(s, k, d)
    case Answer(a) => AnswerApply(s, a)
    case Done(a) => DoneApply(s, a)
  }

  // ------------------------------------------------------------------- places

  /** Where a dispatched request can be. */
  datatype Place =
    | Pushing | Queue | WriterHand | Pending(id: int32) | Batch(k: nat, id: int32)
    | Completing(a: Agent) | Finished | Lost

  ghost predicate At(s: State, r: Req, p: Place) {
    match p
    case Pushing => r in s.pushing
    case Queue => r in s.input
    case WriterHand =>
      || (s.writer.Taken? && s.writer.r == r) || (s.writer.Decided? && s.writer.r == r)
      || (s.writer.Stamped? && s.writer.r == r) || (s.writer.Sent? && s.writer.e.r == r)
    case Pending(id) => id in s.pending && s.pending[id].r == r
    case Batch(k, id) =>
      k in s.readers && s.readers[k].Flushing? && id in s.readers[k].batch && s.readers[k].batch[id].r == r
    case Completing(a) => a in s.completing && s.completing[a].r == r
    case Finished => r in s.finished
    case Lost => r in s.lost
  }

  predicate NoDup<T(==)>(q: seq<T>) {
    forall i, j :: 0 <= i < j < |q| ==> q[i] != q[j]
  }

  ghost predicate NoTwoPlaces(s: State) {
    forall r, p, q :: At(s, r, p) && At(s, r, q) ==> p == q
  }

  /** Every dispatched request is in exactly one place, once, and nothing else is anywhere. */
  ghost predicate OnePlace(s: State) {
    && (forall r :: r in s.offered ==> exists p :: At(s, r, p))
    && (forall r, p :: At(s, r, p) ==> r in s.offered)
    && NoTwoPlaces(s)
    && NoDup(s.input)
  }

  /** From `s` to `t`, request `m` leaves `from` for `to` and nothing else moves. */
  ghost predicate Relocates(s: State, t: State, m: Req, from: Place, to: Place) {
    && t.offered == s.offered
    && At(s, m, from) && At(t, m, to) && !At(t, m, from)
    && forall r, p :: r != m || (p != from && p != to) ==> (At(t, r, p) <==> At(s, r, p))
  }

  ghost predicate MovesNothing(s: State, t: State) {
    && t.offered == s.offered
    && forall r, p :: At(t, r, p) <==> At(s, r, p)
  }

  lemma RelocationKeepsOnePlace(s: State, t: State, m: Req, from: Place, to: Place)
    requires OnePlace(s) && Relocates(s, t, m, from, to) && NoDup(t.input)
    ensures OnePlace(t)
  {
    forall r | r in t.offered
      ensures exists p :: At(t, r, p)
    {
      var p :| At(s, r, p);
      assert At(t, r, if r == m then to else p);
    }
  }

  lemma NoMoveKeepsOnePlace(s: State, t: State)
    requires OnePlace(s) && MovesNothing(s, t) && NoDup(t.input)
    ensures OnePlace(t)
  {
    forall r | r in t.offered
      ensures exists p :: At(t, r, p)
    {
      var p :| At(s, r, p);
      assert At(t, r, p);
    }
  }

  /** A newly dispatched request arrives at `home`. */
  lemma ArrivalKeepsOnePlace(s: State, t: State, m: Req, home: Place)
    requires OnePlace(s) && m !in s.offered && t.offered == s.offered + {m} && NoDup(t.input)
    requires forall r, p :: At(t, r, p) <==> At(s, r, p) || (r == m && p == home)
    ensures OnePlace(t)
  {
    forall r | r in t.offered
      ensures exists p :: At(t, r, p)
    {
      if r == m {
        assert At(t, r, home);
      } else {
        var p :| At(s, r, p);
        assert At(t, r, p);
      }
    }
  }

  lemma ProducerMoves(s: State, p: ProducerStep)
    requires ProducerEnabled(s, p)
    ensures var t := ProducerApply(s, p);
      match p
      case Offer(m) => forall r, q :: At(t, r, q) <==> At(s, r, q) || (r == m && q == Pushing)
      case Reject(m) => forall r, q :: At(t, r, q) <==> At(s, r, q) || (r == m && q == Finished)
      case Send(m) => Relocates(s, t, m, Pushing, Queue)
      case Close => MovesNothing(s, t)
      case Abandon(_) => MovesNothing(s, t)
  {
  }

  lemma ProducerKeepsOnePlace(s: State, p: ProducerStep)
    requires OnePlace(s) && ProducerEnabled(s, p)
    ensures OnePlace(ProducerApply(s, p))
  {
    var t := ProducerApply(s, p);
    ProducerMoves(s, p);
    match p
    case Offer(m) => ArrivalKeepsOnePlace(s, t, m, Pushing);
    case Reject(m) => ArrivalKeepsOnePlace(s, t, m, Finished);
    case Send(m) =>
      assert At(s, m, Pushing) && !At(s, m, Queue);
      RelocationKeepsOnePlace(s, t, m, Pushing, Queue);
    case Close => NoMoveKeepsOnePlace(s, t);
    case Abandon(_) => NoMoveKeepsOnePlace(s, t);
  }

  lemma QueueHead(q: seq<Req>)
    requires q != [] && NoDup(q)
    ensures forall r :: r in q[1..] <==> r in q && r != q[0]
    ensures NoDup(q[1..])
  {
    assert q == [q[0]] + q[1..];
  }

  /** A stale heartbeat is lost, a failed write is to be reported. */
  lemma WriterGivesUp(s: State, w: WriterStep)
    requires WriterEnabled(s, w) && (w.DropStale? || w.WriteFail?)
    ensures Relocates(s, WriterApply(s, w), s.writer.r, WriterHand,
                      if w.DropStale? then Lost else Completing(TheWriter))
  {
  }

  lemma WriterMovesNothing(s: State, w: WriterStep)
    requires WriterEnabled(s, w)
    requires w.Decide? || w.Stamp? || w.Timeout? || w.EndOfInput? || w.StartDrain? || w.Reconnect? || w.Retire?
    ensures MovesNothing(s, WriterApply(s, w))
  {
  }

  lemma WrittenMovesNothing(s: State, data: Bytes, unflushed: nat)
    requires s.writer.Stamped?
    ensures MovesNothing(s, Written(s, data, unflushed))
  {
  }

  lemma TakeMoves(s: State, w: WriterStep)
    requires WriterEnabled(s, w) && NoDup(s.input)
    requires w.Take? || w.DrainTake?
    ensures Relocates(s, WriterApply(s, w), s.input[0], Queue, if w.Take? then WriterHand else Completing(TheWriter))
    ensures NoDup(WriterApply(s, w).input)
  {
    QueueHead(s.input);
  }

  /** Registering under an id in use first displaces the request found there. */
  lemma RegisterMoves(s: State)
    requires WriterEnabled(s, Register)
    ensures var t := WriterApply(s, Register);
      var u := s.(pending := s.pending - {s.writer.id}, lost := t.lost);
      && (s.writer.id in s.pending ==> Relocates(s, u, s.pending[s.writer.id].r, Pending(s.writer.id), Lost))
      && (s.writer.id !in s.pending ==> u == s)
      && Relocates(u, t, s.writer.e.r, WriterHand, Pending(s.writer.id))
  {
  }

  lemma RegisterKeepsOnePlace(s: State)
    requires OnePlace(s) && WriterEnabled(s, Register)
    ensures OnePlace(WriterApply(s, Register))
  {
    var t := WriterApply(s, Register);
    var u := s.(pending := s.pending - {s.writer.id}, lost := t.lost);
    RegisterMoves(s);
    if s.writer.id in s.pending {
      RelocationKeepsOnePlace(s, u, s.pending[s.writer.id].r, Pending(s.writer.id), Lost);
    }
    RelocationKeepsOnePlace(u, t, s.writer.e.r, WriterHand, Pending(s.writer.id));
  }

  lemma WriterKeepsOnePlace(s: State, w: WriterStep)
    requires OnePlace(s) && WriterEnabled(s, w)
    ensures OnePlace(WriterApply(s, w))
  {
    var t := WriterApply(s, w);
    if w.Register? {
      RegisterKeepsOnePlace(s);
    } else if w.Take? || w.DrainTake? {
      TakeMoves(s, w);
      RelocationKeepsOnePlace(s, t, s.input[0], Queue, if w.Take? then WriterHand else Completing(TheWriter));
    } else if w.Write? {
      WrittenMovesNothing(s, DataToSend(s, s.writer.r, s.writer.id), t.unflushed);
      NoMoveKeepsOnePlace(s, t);
    } else if w.DropStale? || w.WriteFail? {
      WriterGivesUp(s, w);
      RelocationKeepsOnePlace(s, t, s.writer.r, WriterHand, if w.DropStale? then Lost else Completing(TheWriter));
    } else {
      WriterMovesNothing(s, w);
      NoMoveKeepsOnePlace(s, t);
    }
  }

  lemma MatchedMoves(s: State, k: nat, id: int32, reply: Outcome, heartbeat: bool, tags: map<Req, nat>)
    requires id in s.pending && TheReader(k) !in s.completing
    ensures Relocates(s, Matched(s, k, id, reply, heartbeat, tags), s.pending[id].r, Pending(id),
                      if heartbeat then Lost else Completing(TheReader(k)))
  {
  }

  lemma FlushMoves(s: State, k: nat, d: ReaderStep)
    requires ReaderEnabled(s, k, d)
    requires d.FlushTake? || d.FlushSkip?
    ensures Relocates(s, ReaderApply(s, k, d), s.readers[k].batch[d.id].r, Batch(k, d.id),
                      if d.FlushSkip? then Lost else Completing(TheReader(k)))
  {
  }

  /** Everything pending goes to the batch of the flushing reader. */
  lemma SwapKeepsOnePlace(s: State, k: nat)
    requires OnePlace(s) && ReaderEnabled(s, k, Swap)
    ensures OnePlace(ReaderApply(s, k, Swap))
  {
    var t := ReaderApply(s, k, Swap);
    assert forall r, p :: At(t, r, p) <==>
      if p.Pending? then false else if p.Batch? && p.k == k then At(s, r, Pending(p.id)) else At(s, r, p);
    forall r | r in t.offered
      ensures exists p :: At(t, r, p)
    {
      var p :| At(s, r, p);
      assert At(t, r, if p.Pending? then Batch(k, p.id) else p);
    }
  }

  lemma ReceiveKeepsOnePlace(s: State, k: nat, frame: Bytes, spare: Bytes, to: Option<nat>)
    requires OnePlace(s) && ReaderEnabled(s, k, Receive(frame, spare, to))
    ensures OnePlace(ReaderApply(s, k, Receive(frame, spare, to)))
  {
    var id := Match(s, frame);
    if id.Some? {
      var reply, beat := Reply(frame, spare), HeartbeatFrame(frame);
      var r, tags := s.pending[id.value].r, TagsAfter(s, s.pending[id.value].r, to);
      MatchedMoves(s, k, id.value, reply, beat, tags);
      RelocationKeepsOnePlace(s, Matched(s, k, id.value, reply, beat, tags), r, Pending(id.value),
                              if beat then Lost else Completing(TheReader(k)));
    } else {
      NoMoveKeepsOnePlace(s, s.(active := false));
    }
  }

  lemma ReadEndMovesNothing(s: State, k: nat, d: ReaderStep)
    requires ReaderEnabled(s, k, d) && (d.ReadFail? || d.FlushEnd?)
    ensures MovesNothing(s, ReaderApply(s, k, d))
  {
  }

  lemma ReaderKeepsOnePlace(s: State, k: nat, d: ReaderStep)
    requires OnePlace(s) && ReaderEnabled(s, k, d)
    ensures OnePlace(ReaderApply(s, k, d))
  {
    match d
    case Receive(frame, spare, to) => ReceiveKeepsOnePlace(s, k, frame, spare, to);
    case Swap => SwapKeepsOnePlace(s, k);
    case FlushTake(id) =>
      FlushMoves(s, k, d);
      RelocationKeepsOnePlace(s, ReaderApply(s, k, d), s.readers[k].batch[id].r, Batch(k, id),
                              Completing(TheReader(k)));
    case FlushSkip(id) =>
      FlushMoves(s, k, d);
      RelocationKeepsOnePlace(s, ReaderApply(s, k, d), s.readers[k].batch[id].r, Batch(k, id), Lost);
    case _ =>
      ReadEndMovesNothing(s, k, d);
      NoMoveKeepsOnePlace(s, ReaderApply(s, k, d));
  }

  lemma AnswerMovesNothing(s: State, a: Agent)
    requires a in s.completing
    ensures MovesNothing(s, AnswerApply(s, a))
  {
    var t := AnswerApply(s, a);
    forall r, p
      ensures At(t, r, p) <==> At(s, r, p)
    {
      match p
      case Completing(b) => assert b == a || (b in t.completing <==> b in s.completing);
      case _ =>
    }
  }

  lemma DoneMoves(s: State, a: Agent)
    requires a in s.completing
    ensures Relocates(s, DoneApply(s, a), s.completing[a].r, Completing(a), Finished)
  {
  }

  lemma StepKeepsOnePlace(s: State, step: Step)
    requires OnePlace(s) && Enabled(s, step)
    ensures OnePlace(Apply(s, step))
  {
    match step
    case Produce(p) => ProducerKeepsOnePlace(s, p);
    case WriterDoes(w) => WriterKeepsOnePlace(s, w);
    case ReaderDoes(k, d) => ReaderKeepsOnePlace(s, k, d);
    case Answer(a) =>
      AnswerMovesNothing(s, a);
      NoMoveKeepsOnePlace(s, AnswerApply(s, a));
    case Done(a) =>
      DoneMoves(s, a);
      RelocationKeepsOnePlace(s, DoneApply(s, a), s.completing[a].r, Completing(a), Finished);
  }
}
