/** Batching: the writer may leave frames in the transport's buffer only if it will come back. */
module MultiplexerWakeups {

  import opened Multiplexer
  import opened MultiplexerSafety

  /** At the writer's loop head, unflushed frames mean more input to come, or that the item
      taken last was a heartbeat too old to send. */
  lemma NoLostWakeup(run: seq<State>, i: nat)
    requires Run(run) && i < |run|
    requires run[i].writer.AtSelect? && run[i].unflushed > 0
    ensures run[i].input != [] || run[i].skipped
    ensures run[i].unflushed < 20
  {
    RunKeepsInv(run, i);
  }

  /** Frames wait for a flush, and nothing is there to make the writer flush them. */
  predicate Asleep(s: State) {
    s.writer.AtSelect? && s.unflushed > 0 && s.input == []
  }

  lemma WriterFallsAsleepIff(s: State, w: WriterStep)
    requires Batching(s) && WriterEnabled(s, w)
    ensures Asleep(WriterApply(s, w)) <==> w == DropStale && s.unflushed > 0 && s.input == []
  {
  }

  /** The exact condition: the writer falls asleep by dropping a stale heartbeat with frames
      unflushed and the queue empty, and in no other way. */
  lemma StepFallsAsleepIff(s: State, step: Step)
    requires Batching(s) && Losses(s) && Enabled(s, step) && !Asleep(s)
    ensures Asleep(Apply(s, step)) <==> step == WriterDoes(DropStale) && s.unflushed > 0 && s.input == []
  {
    if step.WriterDoes? {
      WriterFallsAsleepIff(s, step.w);
    } else {
      OthersLeaveWriterAlone(s, step);
    }
  }

  // -------------------------------------------------------------------- runs

  /** From `s` to `t` the writer goes back to its loop head from the heartbeat it holds, which
      only the drop of a stale one does, although frames wait and the queue is empty. */
  predicate FallsAsleep(s: State, t: State) {
    s.writer.Taken? && s.writer.r.heartbeat && t.writer.AtSelect? && s.unflushed > 0 && s.input == []
  }

  predicate Undisturbed(s: State, t: State) {
    t.writer == s.writer && t.input == s.input
  }

  lemma WriterWakes(s: State, w: WriterStep)
    requires WriterEnabled(s, w)
    ensures s.writer.AtSelect? ==> !WriterApply(s, w).writer.AtSelect?
    ensures s.writer.Taken? ==> (WriterApply(s, w).writer.AtSelect? <==> w == DropStale)
  {
  }

  lemma NextAsleepIff(run: seq<State>, i: nat)
    requires Run(run) && i + 1 < |run|
    ensures var s, t := run[i], run[i + 1];
      Asleep(t) <==> FallsAsleep(s, t) || (Asleep(s) && Undisturbed(s, t))
  {
    RunKeepsInv(run, i);
    var step := StepAt(run, i);
    if step.WriterDoes? {
      WriterFallsAsleepIff(run[i], step.w);
      WriterWakes(run[i], step.w);
    } else {
      OthersLeaveWriterAlone(run[i], step);
    }
  }

  /** Nothing happens to the writer or its queue from `j` to `i`. */
  ghost predicate Quiet(run: seq<State>, j: nat, i: nat)
    requires j <= i < |run|
  {
    forall k :: j <= k < i ==> Undisturbed(run[k], run[k + 1])
  }

  lemma {:induction false} AsleepSince(run: seq<State>, i: nat) returns (j: nat)
    requires Run(run) && i < |run| && Asleep(run[i])
    ensures j < i && FallsAsleep(run[j], run[j + 1]) && Quiet(run, j + 1, i)
  {
    NextAsleepIff(run, i - 1);
    if FallsAsleep(run[i - 1], run[i]) {
      j := i - 1;
    } else {
      j := AsleepSince(run, i - 1);
    }
  }

  lemma {:induction false} AsleepUntil(run: seq<State>, j: nat, i: nat)
    requires Run(run) && j <= i < |run| && Asleep(run[j]) && Quiet(run, j, i)
    ensures Asleep(run[i])
    decreases i - j
  {
    if j < i {
      NextAsleepIff(run, j);
      AsleepUntil(run, j + 1, i);
    }
  }

  /** In every run, frames are stuck exactly if a stale heartbeat was dropped while they waited
      and the queue was empty, and nothing came in since. */
  lemma AsleepIff(run: seq<State>, i: nat)
    requires Run(run) && i < |run|
    ensures Asleep(run[i]) <==> exists j :: 0 <= j < i && FallsAsleep(run[j], run[j + 1]) && Quiet(run, j + 1, i)
  {
    if Asleep(run[i]) {
      var j := AsleepSince(run, i);
    }
    forall j | 0 <= j < i && FallsAsleep(run[j], run[j + 1]) && Quiet(run, j + 1, i)
      ensures Asleep(run[i])
    {
      NextAsleepIff(run, j);
      AsleepUntil(run, j + 1, i);
    }
  }
}
