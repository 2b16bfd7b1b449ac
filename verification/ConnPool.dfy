/** The proxy's pool of active connections: an array with swap-remove in which every connection
    knows its own index, and a round-robin cursor. */
module ConnPool {

  const INVALID_ARRAY_INDEX: int := -1

  /** `activeConns`, and the `Index` field of every connection the service created. */
  datatype Pool<C> = Pool(conns: seq<C>, index: map<C, int>)

  /** Back-pointers and array agree, and `Index` is -1 exactly off the array. */
  ghost predicate WellFormed<C>(p: Pool<C>) {
    && (forall i :: 0 <= i < |p.conns| ==> p.conns[i] in p.index && p.index[p.conns[i]] == i)
    && (forall c :: c in p.index && c !in p.conns ==> p.index[c] == INVALID_ARRAY_INDEX)
  }

  ghost function Members<C>(p: Pool<C>): set<C> {
    set c | c in p.conns
  }

  /** Removal from slot `i`: the last element fills the hole. */
  function SwapOut<C>(conns: seq<C>, i: nat): (r: seq<C>)
    requires i < |conns|
    ensures |r| == |conns| - 1
  {
    var last := |conns| - 1;
    if i != last then conns[i := conns[last]][..last] else conns[..last]
  }

  /** Swapping out slot `at` of distinct entries removes that entry alone. */
  lemma SwapOutMembers<C>(conns: seq<C>, at: nat)
    requires at < |conns|
    requires forall i, j :: 0 <= i < j < |conns| ==> conns[i] != conns[j]
    ensures forall c :: c in SwapOut(conns, at) <==> c in conns && c != conns[at]
  {
    var after := SwapOut(conns, at);
    forall c | c in conns && c != conns[at]
      ensures c in after
    {
      var i :| 0 <= i < |conns| && conns[i] == c;
      assert after[if i == |conns| - 1 then at else i] == c;
    }
  }

  /** The last entry takes the place of the one removed; the others stay where they are. */
  lemma SwapOutPlaces<C>(conns: seq<C>, at: nat, j: nat)
    requires at < |conns| && j < |conns| - 1
    ensures SwapOut(conns, at)[j] == if j == at then conns[|conns| - 1] else conns[j]
  {
  }

  /** The index of `c` is unset or names a slot. */
  predicate InRange<C>(p: Pool<C>, c: C) {
    c in p.index && (p.index[c] == INVALID_ARRAY_INDEX || 0 <= p.index[c] < |p.conns|)
  }

  /** The array after a notification for `c`, which thinks it is at `i`. */
  function ConnsAfter<C>(conns: seq<C>, c: C, i: int, active: bool): seq<C>
    requires i == INVALID_ARRAY_INDEX || 0 <= i < |conns|
  {
    if active then if i == INVALID_ARRAY_INDEX then conns + [c] else conns
    else if i == INVALID_ARRAY_INDEX then conns else SwapOut(conns, i)
  }

  /** `StateChanged`, which looks at the flag once it has the lock. */
  function StateChanged<C>(p: Pool<C>, c: C, active: bool): (q: Pool<C>)
    requires InRange(p, c)
  {
    var i := p.index[c];
    Pool(ConnsAfter(p.conns, c, i, active),
         if active then if i == INVALID_ARRAY_INDEX then p.index[c := |p.conns|] else p.index
         else if i == INVALID_ARRAY_INDEX then p.index
         else p.index[p.conns[|p.conns| - 1] := i][c := INVALID_ARRAY_INDEX])
  }

  /** The last element fills the hole. */
  lemma SwapRemove<C>(p: Pool<C>, c: C)
    requires WellFormed(p) && c in p.conns
    ensures var q := StateChanged(p, c, false);
      && WellFormed(q) && q.index.Keys == p.index.Keys
      && Members(q) == Members(p) - {c} && |q.conns| == |p.conns| - 1
  {
    var q := StateChanged(p, c, false);
    var i, last := p.index[c], |p.conns| - 1;
    var moved := p.conns[last];
    assert |q.conns| == last && forall j :: 0 <= j < last ==> q.conns[j] == if j == i then moved else p.conns[j];
    assert forall d :: d in p.index ==>
      q.index[d] == if d == c then INVALID_ARRAY_INDEX else if d == moved then i else p.index[d];
    assert c !in q.conns;
    forall d | d in p.conns && d != c
      ensures d in q.conns
    {
      assert q.conns[if d == moved then i else p.index[d]] == d;
    }
  }

  /** The array refines a set: a notification adds or removes the connection, if it is not
      already so, and keeps entries distinct and indices right. */
  lemma StateChangedRefinesSet<C>(p: Pool<C>, c: C, active: bool)
    requires WellFormed(p) && c in p.index
    ensures var q := StateChanged(p, c, active);
      && WellFormed(q) && q.index.Keys == p.index.Keys
      && Members(q) == (if active then Members(p) + {c} else Members(p) - {c})
      && (q.index[c] == INVALID_ARRAY_INDEX <==> !active)
      && |q.conns| == |p.conns| + (if active && c !in p.conns then 1 else 0)
                                - (if !active && c in p.conns then 1 else 0)
  {
    assert c in p.conns <==> p.index[c] != INVALID_ARRAY_INDEX;
    if !active && c in p.conns {
      SwapRemove(p, c);
    }
  }

  lemma WellFormedIsDistinct<C>(p: Pool<C>)
    requires WellFormed(p)
    ensures forall i, j :: 0 <= i < j < |p.conns| ==> p.conns[i] != p.conns[j]
    ensures forall c :: c in p.index ==> (p.index[c] == INVALID_ARRAY_INDEX <==> c !in Members(p))
  {
  }

  /** Any sequence of notifications, repeated ones included. */
  function Notified<C>(p: Pool<C>, calls: seq<(C, bool)>): Pool<C>
    requires WellFormed(p) && forall k :: 0 <= k < |calls| ==> calls[k].0 in p.index
    decreases |calls|
  {
    if calls == [] then p
    else
      StateChangedRefinesSet(p, calls[0].0, calls[0].1);
      Notified(StateChanged(p, calls[0].0, calls[0].1), calls[1..])
  }

  ghost function SetAfter<C>(s: set<C>, calls: seq<(C, bool)>): set<C>
    decreases |calls|
  {
    if calls == [] then s
    else SetAfter(if calls[0].1 then s + {calls[0].0} else s - {calls[0].0}, calls[1..])
  }

  lemma {:induction false} NotifiedRefinesSet<C>(p: Pool<C>, calls: seq<(C, bool)>)
    requires WellFormed(p) && forall k :: 0 <= k < |calls| ==> calls[k].0 in p.index
    ensures var q := Notified(p, calls);
      && WellFormed(q) && Members(q) == SetAfter(Members(p), calls)
      && (forall i, j :: 0 <= i < j < |q.conns| ==> q.conns[i] != q.conns[j])
      && (forall c :: c in q.index ==> (q.index[c] == INVALID_ARRAY_INDEX <==> c !in Members(q)))
    decreases |calls|
  {
    WellFormedIsDistinct(p);
    if calls != [] {
      StateChangedRefinesSet(p, calls[0].0, calls[0].1);
      NotifiedRefinesSet(StateChanged(p, calls[0].0, calls[0].1), calls[1..]);
    }
  }

  // ------------------------------------------------------------- round robin

  /** `NextBackendConn` on a pool of `n`: the slot picked, and the cursor left behind. */
  function Pick(cursor: nat, n: nat): (r: (nat, nat))
    requires n > 0
    ensures r.0 < n && r.1 == r.0 + 1
    ensures r.0 == 0 || r.0 == cursor
    ensures cursor < n ==> r.0 == cursor
  {
    var slot := if cursor >= n then 0 else cursor;
    (slot, slot + 1)
  }

  function CursorAfter(cursor: nat, n: nat, picks: nat): nat
    requires n > 0
  {
    if picks == 0 then cursor else Pick(CursorAfter(cursor, n, picks - 1), n).1
  }

  /** The slot of pick number `k`, counting from 0. */
  function PickAt(cursor: nat, n: nat, k: nat): (slot: nat)
    requires n > 0
    ensures slot < n
  {
    Pick(CursorAfter(cursor, n, k), n).0
  }

  lemma {:induction false} PicksGoRound(cursor: nat, n: nat, first: nat, d: nat)
    requires d < n
    ensures var p := PickAt(cursor, n, first);
      PickAt(cursor, n, first + d) == if p + d < n then p + d else p + d - n
  {
    if d > 0 {
      PicksGoRound(cursor, n, first, d - 1);
      assert CursorAfter(cursor, n, first + d) == PickAt(cursor, n, first + d - 1) + 1;
    }
  }

  /** Fairness: whatever the cursor, even one left past the end by a removal, any `n`
      consecutive picks on an unchanged pool of `n` choose every slot exactly once. */
  lemma RoundRobinFair(cursor: nat, n: nat, first: nat, slot: nat) returns (k: nat)
    requires slot < n
    ensures first <= k < first + n && PickAt(cursor, n, k) == slot
    ensures forall j :: first <= j < first + n && PickAt(cursor, n, j) == slot ==> j == k
  {
    var p := PickAt(cursor, n, first);
    k := first + if slot >= p then slot - p else slot + n - p;
    PicksGoRound(cursor, n, first, k - first);
    forall j | first <= j < first + n && PickAt(cursor, n, j) == slot
      ensures j == k
    {
      PicksGoRound(cursor, n, first, j - first);
    }
  }

  // ------------------------------------------------------ flags and notifications

  /** Setting `IsConnActive` and notifying the service are separate steps, taken by any number
      of goroutines. */
  datatype Phase = Idle | Checked(c: nat) | MustNotify(c: nat)

  datatype Flagged = Flagged(flags: map<nat, bool>, pool: Pool<nat>, agents: map<nat, Phase>)

  datatype FlagStep =
    | SetActive(a: nat, c: nat)      // MarkConnActiveOK sets the flag
    | CheckActive(a: nat, c: nat)    // MarkConnActiveFalse finds it set
    | ClearActive(a: nat)            // and clears it
    | Notify(a: nat)                 // delegate.StateChanged

  ghost predicate FlagEnabled(s: Flagged, step: FlagStep) {
    match step
    case SetActive(a, c) => a in s.agents && s.agents[a].Idle? && c in s.flags
    case CheckActive(a, c) => a in s.agents && s.agents[a].Idle? && c in s.flags && s.flags[c]
    case ClearActive(a) => a in s.agents && s.agents[a].Checked? && s.agents[a].c in s.flags
    case Notify(a) =>
      && a in s.agents && s.agents[a].MustNotify? && s.agents[a].c in s.flags
      && s.agents[a].c in s.pool.index && WellFormed(s.pool)
  }

  ghost function FlagApply(s: Flagged, step: FlagStep): Flagged
    requires FlagEnabled(s, step)
  {
    match step
    case SetActive(a, c) => s.(flags := s.flags[c := true], agents := s.agents[a := MustNotify(c)])
    case CheckActive(a, c) => s.(agents := s.agents[a := Checked(c)])
    case ClearActive(a) =>
      s.(flags := s.flags[s.agents[a].c := false], agents := s.agents[a := MustNotify(s.agents[a].c)])
    case Notify(a) =>
      s.(pool := StateChanged(s.pool, s.agents[a].c, s.flags[s.agents[a].c]), agents := s.agents[a := Idle])
  }

  ghost predicate Outstanding(s: Flagged, c: nat) {
    exists a :: a in s.agents && s.agents[a] == MustNotify(c)
  }

  ghost predicate FlagInv(s: Flagged) {
    && WellFormed(s.pool) && s.pool.index.Keys == s.flags.Keys
    && (forall a :: a in s.agents && !s.agents[a].Idle? ==> s.agents[a].c in s.flags)
    && (forall c :: c in s.flags && !Outstanding(s, c) ==> (c in s.pool.conns <==> s.flags[c]))
  }

  /** A flag set or cleared makes a notification outstanding. */
  lemma FlagChangeKeepsInv(s: Flagged, a: nat, c: nat, flag: bool)
    requires FlagInv(s) && a in s.agents && c in s.flags && !s.agents[a].MustNotify?
    ensures FlagInv(s.(flags := s.flags[c := flag], agents := s.agents[a := MustNotify(c)]))
  {
    var t := s.(flags := s.flags[c := flag], agents := s.agents[a := MustNotify(c)]);
    assert a in t.agents && t.agents[a] == MustNotify(c);
    forall d | d in t.flags && !Outstanding(t, d)
      ensures d in t.pool.conns <==> t.flags[d]
    {
      OutstandingFrame(s, t, a, t.agents[a], d);
    }
  }

  /** The notification brings pool and flag of its connection together. */
  lemma NotifyKeepsInv(s: Flagged, a: nat, c: nat, q: Pool<nat>)
    requires FlagInv(s) && a in s.agents && s.agents[a] == MustNotify(c)
    requires WellFormed(q) && q.index.Keys == s.pool.index.Keys
    requires Members(q) == if s.flags[c] then Members(s.pool) + {c} else Members(s.pool) - {c}
    ensures FlagInv(s.(pool := q, agents := s.agents[a := Idle]))
  {
    var t := s.(pool := q, agents := s.agents[a := Idle]);
    assert forall d :: d in q.conns <==> d in Members(q);
    assert forall d :: d in s.pool.conns <==> d in Members(s.pool);
    forall d | d in t.flags && d != c && !Outstanding(t, d)
      ensures d in t.pool.conns <==> t.flags[d]
    {
      OutstandingFrame(s, t, a, t.agents[a], d);
    }
  }

  lemma OutstandingFrame(s: Flagged, t: Flagged, a: nat, p: Phase, d: nat)
    requires a in s.agents && s.agents[a] != MustNotify(d) && t.agents == s.agents[a := p]
    ensures Outstanding(s, d) ==> Outstanding(t, d)
  {
    if Outstanding(s, d) {
      var b :| b in s.agents && s.agents[b] == MustNotify(d);
      assert b in t.agents && t.agents[b] == MustNotify(d);
    }
  }

  lemma CheckKeepsInv(s: Flagged, a: nat, c: nat)
    requires FlagInv(s) && a in s.agents && s.agents[a].Idle? && c in s.flags
    ensures FlagInv(s.(agents := s.agents[a := Checked(c)]))
  {
    var t := s.(agents := s.agents[a := Checked(c)]);
    forall d | d in t.flags && !Outstanding(t, d)
      ensures d in t.pool.conns <==> t.flags[d]
    {
      OutstandingFrame(s, t, a, t.agents[a], d);
    }
  }

  lemma FlagStepKeepsInv(s: Flagged, step: FlagStep)
    requires FlagInv(s) && FlagEnabled(s, step)
    ensures FlagInv(FlagApply(s, step))
  {
    match step
    case SetActive(a, c) => FlagChangeKeepsInv(s, a, c, true);
    case CheckActive(a, c) => CheckKeepsInv(s, a, c);
    case ClearActive(a) => FlagChangeKeepsInv(s, a, s.agents[a].c, false);
    case Notify(a) =>
      var c := s.agents[a].c;
      StateChangedRefinesSet(s.pool, c, s.flags[c]);
      NotifyKeepsInv(s, a, c, StateChanged(s.pool, c, s.flags[c]));
  }

  ghost predicate FlagRun(run: seq<Flagged>) {
    && run != []
    && (run[0].pool.conns == [] && WellFormed(run[0].pool) && run[0].pool.index.Keys == run[0].flags.Keys)
    && (forall c :: c in run[0].flags ==> !run[0].flags[c])
    && (forall a :: a in run[0].agents ==> run[0].agents[a].Idle?)
    && forall i :: 0 <= i < |run| - 1 ==> FlagNext(run[i], run[i + 1])
  }

  ghost predicate FlagNext(s: Flagged, t: Flagged) {
    exists step :: FlagEnabled(s, step) && t == FlagApply(s, step)
  }

  /** In every run, a connection with no notification outstanding is pooled exactly when its
      flag is set. */
  lemma {:induction false} PoolFollowsFlags(run: seq<Flagged>, i: nat)
    requires FlagRun(run) && i < |run|
    ensures FlagInv(run[i])
    ensures forall c :: c in run[i].flags && !Outstanding(run[i], c) ==>
      (c in Members(run[i].pool) <==> run[i].flags[c])
  {
    if i > 0 {
      PoolFollowsFlags(run, i - 1);
      assert FlagNext(run[i - 1], run[i - 1 + 1]);
      var step :| FlagEnabled(run[i - 1], step) && run[i] == FlagApply(run[i - 1], step);
      FlagStepKeepsInv(run[i - 1], step);
    }
  }

  /** The pool and the active connections, as one goroutine left to itself sees them. */
  ghost function FlagView(s: Flagged): Service<nat> {
    Service(s.pool, set c | c in s.flags && s.flags[c], {})
  }

  /** Setting the flag and notifying is `MarkConnActiveOK`. */
  lemma ActivateIsMarkActiveOK(s: Flagged, a: nat, c: nat)
    requires FlagInv(s) && a in s.agents && s.agents[a].Idle? && c in s.flags
    ensures FlagEnabled(s, SetActive(a, c)) && FlagEnabled(FlagApply(s, SetActive(a, c)), Notify(a))
    ensures var t := FlagApply(FlagApply(s, SetActive(a, c)), Notify(a));
      FlagView(t) == MarkActiveOK(FlagView(s), c) && t.agents == s.agents
  {
    var t := FlagApply(FlagApply(s, SetActive(a, c)), Notify(a));
    assert FlagView(t).active == FlagView(s).active + {c};
    assert s.agents[a := MustNotify(c)][a := Idle] == s.agents;
  }

  /** Finding the flag set, clearing it and notifying is `MarkConnActiveFalse`; finding it clear is, too. */
  lemma DeactivateIsMarkActiveFalse(s: Flagged, a: nat, c: nat)
    requires FlagInv(s) && a in s.agents && s.agents[a].Idle? && c in s.flags
    ensures s.flags[c] <==> FlagEnabled(s, CheckActive(a, c))
    ensures !s.flags[c] ==> MarkActiveFalse(FlagView(s), c) == FlagView(s)
    ensures s.flags[c] ==> var u := FlagApply(s, CheckActive(a, c));
      && FlagEnabled(u, ClearActive(a)) && FlagEnabled(FlagApply(u, ClearActive(a)), Notify(a))
      && var t := FlagApply(FlagApply(u, ClearActive(a)), Notify(a));
         FlagView(t) == MarkActiveFalse(FlagView(s), c) && t.agents == s.agents
  {
    if s.flags[c] {
      var u := FlagApply(s, CheckActive(a, c));
      var t := FlagApply(FlagApply(u, ClearActive(a)), Notify(a));
      assert FlagView(t).active == FlagView(s).active - {c};
      assert t.agents == s.agents;
    }
  }

  ghost predicate FlagSteps(run: seq<Flagged>, steps: seq<FlagStep>, i: nat) {
    i < |steps| && i + 1 < |run| ==> FlagStepsTo(run[i], steps[i], run[i + 1])
  }

  ghost predicate FlagStepsTo(s: Flagged, step: FlagStep, t: Flagged) {
    FlagEnabled(s, step) && t == FlagApply(s, step)
  }

  /** A run, and the steps that make it. */
  ghost predicate FlagRunBy(run: seq<Flagged>, steps: seq<FlagStep>) {
    && |run| == |steps| + 1
    && (run[0].pool.conns == [] && WellFormed(run[0].pool) && run[0].pool.index.Keys == run[0].flags.Keys)
    && (forall c :: c in run[0].flags ==> !run[0].flags[c])
    && (forall a :: a in run[0].agents ==> run[0].agents[a].Idle?)
    && forall i :: 0 <= i < |steps| ==> FlagSteps(run, steps, i)
  }

  /** The last of the first `i` steps that changed the flag of `c` set it. */
  ghost predicate LastSet(run: seq<Flagged>, steps: seq<FlagStep>, i: nat, c: nat)
    requires i <= |steps| < |run|
  {
    if i == 0 then false
    else match steps[i - 1]
      case SetActive(_, d) => d == c || LastSet(run, steps, i - 1, c)
      case ClearActive(a) =>
        !(a in run[i - 1].agents && run[i - 1].agents[a] == Checked(c)) && LastSet(run, steps, i - 1, c)
      case _ => LastSet(run, steps, i - 1, c)
  }

  lemma FlagRunByIsRun(run: seq<Flagged>, steps: seq<FlagStep>)
    requires FlagRunBy(run, steps)
    ensures FlagRun(run)
  {
    forall i | 0 <= i < |run| - 1
      ensures FlagNext(run[i], run[i + 1])
    {
      assert FlagSteps(run, steps, i);
    }
  }

  lemma {:induction false} FlagIsLastSet(run: seq<Flagged>, steps: seq<FlagStep>, i: nat, c: nat)
    requires FlagRunBy(run, steps) && i < |run| && c in run[0].flags
    ensures c in run[i].flags && (run[i].flags[c] <==> LastSet(run, steps, i, c))
  {
    if i > 0 {
      FlagIsLastSet(run, steps, i - 1, c);
      assert FlagSteps(run, steps, i - 1);
    }
  }

  /** In every run, a connection with no notification outstanding is pooled exactly if the last
      change of its flag was a `MarkConnActiveOK`. */
  lemma PoolFollowsLastChange(run: seq<Flagged>, steps: seq<FlagStep>, i: nat, c: nat)
    requires FlagRunBy(run, steps) && i < |run| && c in run[0].flags && !Outstanding(run[i], c)
    ensures c in Members(run[i].pool) <==> LastSet(run, steps, i, c)
  {
    FlagRunByIsRun(run, steps);
    PoolFollowsFlags(run, i);
    FlagIsLastSet(run, steps, i, c);
  }

  // -------------------------------------------------------------------- Stop

  /** A service and the flags of its connections, seen by one goroutine. */
  datatype Service<C> = Service(pool: Pool<C>, active: set<C>, offline: set<C>)

  function MarkActiveOK<C>(s: Service<C>, c: C): Service<C>
    requires InRange(s.pool, c)
  {
    s.(pool := StateChanged(s.pool, c, true), active := s.active + {c})
  }

  function MarkActiveFalse<C>(s: Service<C>, c: C): Service<C>
    requires InRange(s.pool, c)
  {
    if c in s.active then s.(pool := StateChanged(s.pool, c, false), active := s.active - {c}) else s
  }

  function MarkOffline<C>(s: Service<C>, c: C): Service<C>
    requires InRange(s.pool, c)
  {
    if c in s.offline then s else MarkActiveFalse(s.(offline := s.offline + {c}), c)
  }

  ghost predicate Removable<C>(s: Service<C>, c: C) { c in s.active && c !in s.offline }

  /** What marking `c` offline does to the three sets. */
  ghost predicate Offlined<C>(s: Service<C>, c: C, t: Service<C>) {
    && WellFormed(t.pool)
    && Members(t.pool) == (if Removable(s, c) then Members(s.pool) - {c} else Members(s.pool))
    && t.active == (if Removable(s, c) then s.active - {c} else s.active)
    && t.offline == s.offline + {c}
  }

  lemma MarkOfflineSets<C>(s: Service<C>, c: C)
    requires WellFormed(s.pool) && c in s.pool.index
    ensures Offlined(s, c, MarkOffline(s, c))
    ensures |MarkOffline(s, c).pool.conns| == |s.pool.conns| - if Removable(s, c) && c in s.pool.conns then 1 else 0
  {
    StateChangedRefinesSet(s.pool, c, false);
  }

  /** The state after `n` turns of the loop of `Stop`. */
  function StopTurns<C>(s: Service<C>, n: nat): Service<C>
    requires WellFormed(s.pool)
    decreases n
  {
    if n == 0 || s.pool.conns == [] then s
    else
      MarkOfflineSets(s, s.pool.conns[0]);
      StopTurns(MarkOffline(s, s.pool.conns[0]), n - 1)
  }

  lemma TurnKeepsStuck<C>(s: Service<C>, head: C, t: Service<C>, c: C)
    requires Offlined(s, head, t) && c in s.pool.conns && !Removable(s, c)
    ensures c in t.pool.conns && !Removable(t, c)
  {
    assert c in Members(s.pool);
    assert c in Members(t.pool);
  }

  lemma TurnKeepsRemovable<C>(s: Service<C>, head: C, t: Service<C>)
    requires Offlined(s, head, t) && Removable(s, head)
    requires forall c :: c in s.pool.conns ==> Removable(s, c)
    ensures forall c :: c in t.pool.conns ==> Removable(t, c)
  {
    forall c | c in t.pool.conns
      ensures Removable(t, c)
    {
      assert c in Members(t.pool);
      assert c in Members(s.pool);
    }
  }

  /** A pooled connection that the loop cannot remove stays for good. */
  lemma {:induction false} StuckStays<C>(s: Service<C>, c: C, n: nat)
    requires WellFormed(s.pool) && c in s.pool.conns && !Removable(s, c)
    ensures c in StopTurns(s, n).pool.conns
    decreases n
  {
    if n > 0 {
      var t := MarkOffline(s, s.pool.conns[0]);
      MarkOfflineSets(s, s.pool.conns[0]);
      TurnKeepsStuck(s, s.pool.conns[0], t, c);
      StuckStays(t, c, n - 1);
    }
  }

  lemma {:induction false} RemovableAllGo<C>(s: Service<C>, n: nat)
    requires WellFormed(s.pool) && n >= |s.pool.conns|
    requires forall c :: c in s.pool.conns ==> Removable(s, c)
    ensures StopTurns(s, n).pool.conns == []
    decreases n
  {
    if s.pool.conns != [] {
      var t := MarkOffline(s, s.pool.conns[0]);
      MarkOfflineSets(s, s.pool.conns[0]);
      TurnKeepsRemovable(s, s.pool.conns[0], t);
      RemovableAllGo(t, n - 1);
    }
  }

  /** The loop of `Stop`, left to itself, ends exactly when every pooled connection is active and
      not offline. */
  lemma StopTerminatesIff<C>(s: Service<C>)
    requires WellFormed(s.pool)
    ensures (exists n: nat :: StopTurns(s, n).pool.conns == []) <==> forall c :: c in s.pool.conns ==> Removable(s, c)
  {
    if forall c :: c in s.pool.conns ==> Removable(s, c) {
      RemovableAllGo(s, |s.pool.conns|);
      assert StopTurns(s, |s.pool.conns|).pool.conns == [];
    } else {
      var c :| c in s.pool.conns && !Removable(s, c);
      forall n: nat
        ensures StopTurns(s, n).pool.conns != []
      {
        StuckStays(s, c, n);
      }
    }
  }

  /** A connection at the head that the loop cannot remove keeps it from all the others. */
  lemma {:induction false} StuckHeadStalls<C>(s: Service<C>, n: nat)
    requires WellFormed(s.pool) && s.pool.conns != [] && s.pool.conns[0] in s.offline
    ensures StopTurns(s, n) == s
  {
    if n > 0 {
      MarkOfflineSets(s, s.pool.conns[0]);
      StuckHeadStalls(s, n - 1);
    }
  }

  /** What `MarkConnActiveOK` and `MarkConnActiveFalse` do to the sets. */
  lemma MarkActiveSets<C>(s: Service<C>, c: C)
    requires WellFormed(s.pool) && c in s.pool.index
    ensures var t := MarkActiveOK(s, c);
      && WellFormed(t.pool) && t.active == s.active + {c} && t.offline == s.offline
      && Members(t.pool) == Members(s.pool) + {c}
    ensures var t := MarkActiveFalse(s, c);
      && WellFormed(t.pool) && t.active == s.active - {c} && t.offline == s.offline
      && Members(t.pool) == if c in s.active then Members(s.pool) - {c} else Members(s.pool)
  {
    StateChangedRefinesSet(s.pool, c, true);
    StateChangedRefinesSet(s.pool, c, false);
  }

  /** How the loop can find another: a connection marked offline while its socket is being opened
      still reports itself active.  It then stays pooled, whatever the loop does, until its own
      goroutine notices that the input is closed. */
  lemma ConnectedAfterOffline<C>(s: Service<C>, c: C)
    requires WellFormed(s.pool) && c in s.pool.index
    ensures WellFormed(MarkOffline(s, c).pool) && c in MarkOffline(s, c).pool.index
    ensures var t := MarkActiveOK(MarkOffline(s, c), c);
      && WellFormed(t.pool) && c in t.pool.conns && c in t.active && c in t.offline && c in t.pool.index
      && (forall n: nat :: StopTurns(t, n).pool.conns != [])
      && c !in MarkActiveFalse(t, c).pool.conns
  {
    MarkOfflineSets(s, c);
    var u := MarkOffline(s, c);
    StateChangedRefinesSet(u.pool, c, true);
    var t := MarkActiveOK(u, c);
    assert c in Members(t.pool);
    StateChangedRefinesSet(t.pool, c, false);
    assert c !in Members(MarkActiveFalse(t, c).pool);
    forall n: nat
      ensures StopTurns(t, n).pool.conns != []
    {
      StuckStays(t, c, n);
    }
  }
}
