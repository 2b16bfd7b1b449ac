/** The load balancer's pool.  Its `StateChanged` forgets to reset `Index` when the removed
    connection is the last one, so a second removal would go by a stale index. */
module BackServicesLB {

  import opened ConnPool

  /** `Panics` is a Go slice index out of range. */
  datatype Result<T> = Panics | Ok(value: T)

  /** Each pooled connection knows its slot; the index of the others may be anything. */
  ghost predicate Indexed<C>(p: Pool<C>) {
    forall i :: 0 <= i < |p.conns| ==> p.conns[i] in p.index && p.index[p.conns[i]] == i
  }

  /** `StateChanged` for a connection found inactive. */
  function Remove<C>(p: Pool<C>, c: C): Result<Pool<C>>
    requires c in p.index
  {
    var i, last := p.index[c], |p.conns| - 1;
    if i == INVALID_ARRAY_INDEX then Ok(p)
    else if last != i then
      if last < 0 || !(0 <= i < |p.conns|) then Panics
      else Ok(Pool(SwapOut(p.conns, i), p.index[p.conns[last] := i][c := INVALID_ARRAY_INDEX]))
    else if last < 0 then Panics
    else Ok(p.(conns := p.conns[..last]))
  }

  /** What `run` does with an accepted connection. */
  function Append<C>(p: Pool<C>, c: C): Pool<C> {
    Pool(p.conns + [c], p.index[c := |p.conns|])
  }

  /** `Remove` takes out `c`, and only `c`, exactly when `c` is pooled or its index is unset. */
  lemma RemoveCorrectIff<C>(p: Pool<C>, c: C)
    requires Indexed(p) && c in p.index
    ensures (Remove(p, c).Ok? && Indexed(Remove(p, c).value) && Members(Remove(p, c).value) == Members(p) - {c})
            <==> c in p.conns || p.index[c] == INVALID_ARRAY_INDEX
  {
    var i := p.index[c];
    if c in p.conns {
      RemovePooled(p, c);
    } else if i != INVALID_ARRAY_INDEX && Remove(p, c).Ok? {
      var q := Remove(p, c).value;
      assert p.conns[i] in Members(p) && p.conns[i] != c;
      assert p.conns[i] !in q.conns && p.conns[i] !in Members(q);
    }
  }

  lemma RemovePooled<C>(p: Pool<C>, c: C)
    requires Indexed(p) && c in p.index && c in p.conns
    ensures Remove(p, c).Ok? && Indexed(Remove(p, c).value) && Remove(p, c).value.index.Keys == p.index.Keys
    ensures Remove(p, c).value.conns == SwapOut(p.conns, p.index[c])
    ensures Members(Remove(p, c).value) == Members(p) - {c}
    ensures forall d :: d in p.index && d !in p.conns ==> Remove(p, c).value.index[d] == p.index[d]
  {
    var q := Remove(p, c).value;
    var i, last := p.index[c], |p.conns| - 1;
    assert forall j :: 0 <= j < last ==> q.conns[j] == if j == i then p.conns[last] else p.conns[j];
    forall d | d in p.conns && d != c
      ensures d in q.conns
    {
      assert q.conns[if p.index[d] == last then i else p.index[d]] == d;
    }
  }

  lemma RemovedConns<C>(p: Pool<C>, c: C)
    requires Indexed(p) && c in p.index && c in p.conns
    ensures Remove(p, c).Ok? && forall d :: d in Remove(p, c).value.conns <==> d in p.conns && d != c
  {
    RemovePooled(p, c);
    assert forall d :: d in p.conns <==> d in Members(p);
    assert forall d :: d in Remove(p, c).value.conns <==> d in Members(Remove(p, c).value);
  }

  // -------------------------------------------------------------------- runs

  /** The connections entered in the pool so far, those still active, and what each goroutine is
      about to do: finding the flag set, clearing it and notifying are separate steps. */
  datatype Balancer = Balancer(pool: Pool<nat>, registered: set<nat>, active: set<nat>, agents: map<nat, Phase>)

  datatype Step =
    | Create(c: nat)           // NewBackendConnLB: active, Index -1
    | Register(c: nat)         // run: append and set Index
    | Check(a: nat, c: nat)    // MarkConnActiveFalse finds the flag set
    | Clear(a: nat)            // clears it
    | Tell(a: nat)             // and calls StateChanged

  predicate Enabled(s: Balancer, step: Step) {
    match step
    case Create(c) => c !in s.pool.index
    case Register(c) => c in s.pool.index && c !in s.registered
    case Check(a, c) => a in s.agents && s.agents[a].Idle? && c in s.pool.index && c in s.active
    case Clear(a) => a in s.agents && s.agents[a].Checked?
    case Tell(a) => a in s.agents && s.agents[a].MustNotify? && s.agents[a].c in s.pool.index
  }

  function Apply(s: Balancer, step: Step): Result<Balancer>
    requires Enabled(s, step)
  {
    match step
    case Create(c) => Ok(s.(pool := s.pool.(index := s.pool.index[c := INVALID_ARRAY_INDEX]), active := s.active + {c}))
    case Register(c) => Ok(s.(pool := Append(s.pool, c), registered := s.registered + {c}))
    case Check(a, c) => Ok(s.(agents := s.agents[a := Checked(c)]))
    case Clear(a) => Ok(s.(active := s.active - {s.agents[a].c}, agents := s.agents[a := MustNotify(s.agents[a].c)]))
    case Tell(a) =>
      if s.agents[a].c in s.active then Ok(s.(agents := s.agents[a := Idle]))
      else match Remove(s.pool, s.agents[a].c)
        case Panics => Panics
        case Ok(p) => Ok(s.(pool := p, agents := s.agents[a := Idle]))
  }

  ghost predicate Outstanding(s: Balancer, c: nat) {
    exists a :: a in s.agents && s.agents[a] == MustNotify(c)
  }

  /** The pool holds exactly the registered connections that are still active, or about to be
      taken out; and each is taken out by one goroutine. */
  ghost predicate Inv(s: Balancer) {
    && Indexed(s.pool)
    && s.registered <= s.pool.index.Keys && s.active <= s.pool.index.Keys
    && (forall c :: c in s.pool.conns <==> c in s.registered && (c in s.active || Outstanding(s, c)))
    && (forall a :: a in s.agents && !s.agents[a].Idle? ==> s.agents[a].c in s.pool.index)
    && (forall a :: a in s.agents && s.agents[a].MustNotify? ==> s.agents[a].c !in s.active)
    && (forall a, b :: a in s.agents && b in s.agents && s.agents[a].MustNotify? && s.agents[a] == s.agents[b] ==>
          a == b)
    && (forall c :: c in s.pool.index && c !in s.registered ==> s.pool.index[c] == INVALID_ARRAY_INDEX)
  }

  /** A connection is registered while it is active, or before its removal is through; and nobody
      clears a flag that is cleared. */
  ghost predicate OneShot(s: Balancer, step: Step) {
    match step
    case Register(c) => c in s.active || Outstanding(s, c)
    case Clear(a) => a in s.agents && s.agents[a].Checked? && s.agents[a].c in s.active
    case _ => true
  }

  /** `a` goes to phase `p`, the others stay. */
  lemma OutstandingFrame(s: Balancer, t: Balancer, a: nat, p: Phase)
    requires a in s.agents && t.agents == s.agents[a := p]
    ensures forall d :: s.agents[a] != MustNotify(d) && p != MustNotify(d) ==>
      (Outstanding(t, d) <==> Outstanding(s, d))
    ensures forall d :: p == MustNotify(d) ==> Outstanding(t, d)
  {
    forall d | s.agents[a] != MustNotify(d) && p != MustNotify(d)
      ensures Outstanding(t, d) <==> Outstanding(s, d)
    {
      if Outstanding(s, d) {
        var b :| b in s.agents && s.agents[b] == MustNotify(d);
        assert b in t.agents && t.agents[b] == MustNotify(d);
      }
    }
    forall d | p == MustNotify(d)
      ensures Outstanding(t, d)
    {
      assert a in t.agents && t.agents[a] == MustNotify(d);
    }
  }

  lemma ClearKeepsInv(s: Balancer, a: nat)
    requires Inv(s) && Enabled(s, Clear(a)) && OneShot(s, Clear(a))
    ensures Inv(Apply(s, Clear(a)).value)
  {
    OutstandingFrame(s, Apply(s, Clear(a)).value, a, MustNotify(s.agents[a].c));
  }

  lemma CheckKeepsInv(s: Balancer, a: nat, c: nat)
    requires Inv(s) && Enabled(s, Check(a, c))
    ensures Inv(Apply(s, Check(a, c)).value)
  {
    OutstandingFrame(s, Apply(s, Check(a, c)).value, a, Checked(c));
  }

  lemma NotifyKeepsInv(s: Balancer, a: nat)
    requires Inv(s) && Enabled(s, Tell(a))
    ensures Apply(s, Tell(a)).Ok? && Inv(Apply(s, Tell(a)).value)
  {
    var c := s.agents[a].c;
    assert Outstanding(s, c);
    if c in s.registered {
      RemovePooled(s.pool, c);
      RemovedConns(s.pool, c);
    }
    var t := Apply(s, Tell(a)).value;
    OutstandingFrame(s, t, a, Idle);
    assert !Outstanding(t, c);
  }

  /** The order matters: a registration is exact if and only if the connection is still active, or
      its removal is still to come. */
  lemma RegisterExactIff(s: Balancer, c: nat)
    requires Inv(s) && Enabled(s, Register(c))
    ensures Inv(Apply(s, Register(c)).value) <==> c in s.active || Outstanding(s, c)
  {
    var t := Apply(s, Register(c)).value;
    assert c in t.pool.conns && forall d :: d in t.pool.conns <==> d in s.pool.conns || d == c;
    assert forall d :: Outstanding(t, d) <==> Outstanding(s, d);
  }

  lemma CreateKeepsInv(s: Balancer, c: nat)
    requires Inv(s) && Enabled(s, Create(c))
    ensures Inv(Apply(s, Create(c)).value)
  {
    var t := Apply(s, Create(c)).value;
    assert forall d :: Outstanding(t, d) <==> Outstanding(s, d);
  }

  /** No such step panics, and it keeps the pool exact, in spite of stale indices. */
  lemma OneShotStepKeepsInv(s: Balancer, step: Step)
    requires Inv(s) && Enabled(s, step) && OneShot(s, step)
    ensures Apply(s, step).Ok? && Inv(Apply(s, step).value)
  {
    match step
    case Create(c) => CreateKeepsInv(s, c);
    case Register(c) => RegisterExactIff(s, c);
    case Check(a, c) => CheckKeepsInv(s, a, c);
    case Clear(a) => ClearKeepsInv(s, a);
    case Tell(a) => NotifyKeepsInv(s, a);
  }

  predicate Start(s: Balancer) {
    && s.pool == Pool([], map[]) && s.registered == s.active == {}
    && forall a :: a in s.agents ==> s.agents[a].Idle?
  }

  predicate StepsTo(s: Balancer, step: Step, t: Balancer) {
    Enabled(s, step) && Apply(s, step) == Ok(t)
  }

  ghost predicate Run(run: seq<Balancer>, steps: seq<Step>) {
    |run| == |steps| + 1 && Start(run[0]) && forall i :: 0 <= i < |steps| ==> StepsTo(run[i], steps[i], run[i + 1])
  }

  /** Over any one-shot run of additions and removals by any number of goroutines, the pool holds
      the registered, still active connections, and those whose removal is under way. */
  lemma {:induction false} OneShotRunKeepsInv(run: seq<Balancer>, steps: seq<Step>, i: nat)
    requires Run(run, steps) && i < |run| && forall j :: 0 <= j < i ==> OneShot(run[j], steps[j])
    ensures Inv(run[i])
    ensures forall c :: !Outstanding(run[i], c) ==>
      (c in run[i].pool.conns <==> c in run[i].registered && c in run[i].active)
  {
    if i > 0 {
      OneShotRunKeepsInv(run, steps, i - 1);
      OneShotStepKeepsInv(run[i - 1], steps[i - 1]);
      assert StepsTo(run[i - 1], steps[i - 1], run[i - 1 + 1]);
    }
  }

  // ------------------------------------------------------- repeated removals

  /** The pool is right, apart from connections whose removal is under way, by however many. */
  ghost predicate Exact(s: Balancer) {
    && Indexed(s.pool)
    && s.registered <= s.pool.index.Keys && s.active <= s.pool.index.Keys
    && (forall c :: c in s.pool.conns ==> c in s.registered && (c in s.active || Outstanding(s, c)))
    && (forall c :: c in s.registered && c in s.active ==> c in s.pool.conns)
    && (forall a :: a in s.agents && !s.agents[a].Idle? ==> s.agents[a].c in s.pool.index)
    && (forall a :: a in s.agents && s.agents[a].MustNotify? ==> s.agents[a].c !in s.active)
    && (forall c :: c in s.pool.index && c !in s.registered ==> s.pool.index[c] == INVALID_ARRAY_INDEX)
  }

  /** What the code needs: a connection that is told about is pooled or its index unset, and a
      registration comes before the removal is through. */
  ghost predicate Orderly(s: Balancer, step: Step) {
    match step
    case Register(c) => c in s.active || Outstanding(s, c)
    case Tell(a) => a in s.agents && s.agents[a].MustNotify? && Findable(s.pool, s.agents[a].c)
    case _ => true
  }

  predicate Findable(p: Pool<nat>, c: nat) {
    c in p.index && (c in p.conns || p.index[c] == INVALID_ARRAY_INDEX)
  }

  /** A notification takes out the connection it is about, and no other, exactly if it is orderly. */
  lemma TellExactIff(s: Balancer, a: nat)
    requires Exact(s) && Enabled(s, Tell(a))
    ensures var c, t := s.agents[a].c, Apply(s, Tell(a));
      (t.Ok? && Indexed(t.value.pool) && Members(t.value.pool) == Members(s.pool) - {c}) <==> Orderly(s, Tell(a))
  {
    RemoveCorrectIff(s.pool, s.agents[a].c);
  }

  lemma TellKeepsExact(s: Balancer, a: nat)
    requires Exact(s) && Enabled(s, Tell(a)) && Orderly(s, Tell(a))
    ensures Apply(s, Tell(a)).Ok? && Exact(Apply(s, Tell(a)).value)
  {
    var c := s.agents[a].c;
    if c in s.pool.conns {
      RemovePooled(s.pool, c);
      RemovedConns(s.pool, c);
    }
    OutstandingFrame(s, Apply(s, Tell(a)).value, a, Idle);
  }

  lemma OrderlyStepKeepsExact(s: Balancer, step: Step)
    requires Exact(s) && Enabled(s, step) && Orderly(s, step)
    ensures Apply(s, step).Ok? && Exact(Apply(s, step).value)
  {
    match step
    case Tell(a) => TellKeepsExact(s, a);
    case Check(a, c) => OutstandingFrame(s, Apply(s, step).value, a, Checked(c));
    case Clear(a) => ClearKeepsExact(s, a);
    case _ => assert forall d :: Outstanding(Apply(s, step).value, d) <==> Outstanding(s, d);
  }

  lemma ClearKeepsExact(s: Balancer, a: nat)
    requires Exact(s) && Enabled(s, Clear(a))
    ensures Exact(Apply(s, Clear(a)).value)
  {
    OutstandingFrame(s, Apply(s, Clear(a)).value, a, MustNotify(s.agents[a].c));
  }

  /** Over any orderly run, repeated removals included, nothing panics and a connection with no
      removal under way is pooled exactly if it is registered and active. */
  lemma {:induction false} OrderlyRunKeepsExact(run: seq<Balancer>, steps: seq<Step>, i: nat)
    requires Run(run, steps) && i < |run| && forall j :: 0 <= j < i ==> Orderly(run[j], steps[j])
    ensures Exact(run[i])
    ensures forall c :: !Outstanding(run[i], c) ==>
      (c in run[i].pool.conns <==> c in run[i].registered && c in run[i].active)
  {
    if i > 0 {
      OrderlyRunKeepsExact(run, steps, i - 1);
      OrderlyStepKeepsExact(run[i - 1], steps[i - 1]);
      assert StepsTo(run[i - 1], steps[i - 1], run[i - 1 + 1]);
    }
  }

  /** Clearing a flag once only is one way to be orderly. */
  lemma OneShotIsOrderly(s: Balancer, step: Step)
    requires Inv(s) && Enabled(s, step) && OneShot(s, step)
    ensures Exact(s) && Orderly(s, step)
  {
    if step.Tell? {
      assert Outstanding(s, s.agents[step.a].c);
    }
  }

  // ---------------------------------------------------------------- examples

  lemma Extend(run: seq<Balancer>, steps: seq<Step>, step: Step) returns (run': seq<Balancer>, steps': seq<Step>)
    requires Run(run, steps) && Enabled(run[|steps|], step) && Apply(run[|steps|], step).Ok?
    ensures Run(run', steps') && run'[|steps'|] == Apply(run[|steps|], step).value
  {
    run', steps' := run + [Apply(run[|steps|], step).value], steps + [step];
    forall i | 0 <= i < |steps'|
      ensures StepsTo(run'[i], steps'[i], run'[i + 1])
    {
      if i < |steps| {
        assert StepsTo(run[i], steps[i], run[i + 1]);
      }
    }
  }

  /** A new connection, pooled. */
  lemma Add(run: seq<Balancer>, steps: seq<Step>, c: nat) returns (run': seq<Balancer>, steps': seq<Step>)
    requires Run(run, steps) && c !in run[|steps|].pool.index && c !in run[|steps|].registered
    ensures Run(run', steps')
    ensures var s := run[|steps|];
      run'[|steps'|] == s.(pool := Append(s.pool, c), registered := s.registered + {c}, active := s.active + {c})
  {
    run', steps' := Extend(run, steps, Create(c));
    run', steps' := Extend(run', steps', Register(c));
  }

  /** Goroutines 0 and 1 both find the flag of `c` set and clear it. */
  lemma ClearTwice(run: seq<Balancer>, steps: seq<Step>, c: nat) returns (run': seq<Balancer>, steps': seq<Step>)
    requires Run(run, steps) && c in run[|steps|].pool.index && c in run[|steps|].active
    requires run[|steps|].agents == map[0 := Idle, 1 := Idle]
    ensures Run(run', steps')
    ensures var s := run[|steps|];
      run'[|steps'|] == s.(active := s.active - {c}, agents := map[0 := MustNotify(c), 1 := MustNotify(c)])
  {
    run', steps' := Extend(run, steps, Check(0, c));
    run', steps' := Extend(run', steps', Check(1, c));
    run', steps' := Extend(run', steps', Clear(0));
    run', steps' := Extend(run', steps', Clear(1));
  }

  /** Writer and reader of connection 2 both find its flag set.  The first takes it out of the last
      slot, which leaves its index as it was; a new connection moves in there; the second takes
      out the new one, active though it is, and nothing will bring it back. */
  lemma SecondRemovalTakesAnother() returns (run: seq<Balancer>, steps: seq<Step>)
    ensures Run(run, steps)
    ensures var s := run[|steps|];
      s.pool.conns == [1] && 3 in s.registered && 3 in s.active && s.agents == map[0 := Idle, 1 := Idle]
  {
    run, steps := [Balancer(Pool([], map[]), {}, {}, map[0 := Idle, 1 := Idle])], [];
    run, steps := Add(run, steps, 1);
    run, steps := Add(run, steps, 2);
    run, steps := ClearTwice(run, steps, 2);
    run, steps := Extend(run, steps, Tell(0));
    assert run[|steps|].pool.conns == [1] && run[|steps|].pool.index[2] == 1;
    run, steps := Add(run, steps, 3);
    run, steps := Extend(run, steps, Tell(1));
  }

  /** A connection that dies before it is registered stays pooled. */
  lemma DeadConnectionStaysPooled() returns (run: seq<Balancer>, steps: seq<Step>)
    ensures Run(run, steps)
    ensures var s := run[|steps|]; s.pool.conns == [1] && s.active == {} && s.agents == map[0 := Idle]
  {
    run, steps := [Balancer(Pool([], map[]), {}, {}, map[0 := Idle])], [];
    run, steps := Extend(run, steps, Create(1));
    run, steps := Extend(run, steps, Check(0, 1));
    run, steps := Extend(run, steps, Clear(0));
    run, steps := Extend(run, steps, Tell(0));
    run, steps := Extend(run, steps, Register(1));
  }

  // ----------------------------------------------------------------- objects

  class ConnLB {
    var index: int
    var active: bool

    constructor ()
      ensures index == INVALID_ARRAY_INDEX && active
    {
      index, active := INVALID_ARRAY_INDEX, true;
    }
  }

  class BackServiceLB {
    var activeConns: seq<ConnLB>
    var currentConnIndex: nat
    ghost var known: set<ConnLB>         // every connection ever created for this service
    ghost var registered: set<ConnLB>

    ghost function PoolView(): Pool<ConnLB>
      reads this`activeConns, this`known, known`index
    {
      Pool(activeConns, map c | c in known :: c.index)
    }

    /** Exactly the registered, active connections are pooled, each in the slot it thinks. */
    ghost predicate Valid()
      reads this, known
    {
      && registered <= known
      && (forall i :: 0 <= i < |activeConns| ==> activeConns[i] in registered && activeConns[i].index == i)
      && (forall c :: c in registered ==> (c in activeConns <==> c.active))
      && (forall c :: c in known && c !in registered ==> c.index == INVALID_ARRAY_INDEX)
    }

    constructor ()
      ensures Valid() && activeConns == [] && known == registered == {}
    {
      activeConns, currentConnIndex, known, registered := [], 0, {}, {};
    }

    method NewConn() returns (conn: ConnLB)
      requires Valid()
      modifies this`known
      ensures Valid() && fresh(conn) && conn.active && conn.index == INVALID_ARRAY_INDEX && known == old(known) + {conn}
    {
      conn := new ConnLB();
      known := known + {conn};
    }

    /** What `run` does with an accepted connection; exact only if it is still active. */
    method Register(conn: ConnLB)
      requires Valid() && conn in known && conn !in registered
      modifies this`activeConns, this`registered, conn`index
      ensures registered == old(registered) + {conn} && PoolView() == Append(old(PoolView()), conn)
      ensures Valid() <==> conn.active
    {
      conn.index := |activeConns|;
      activeConns := activeConns + [conn];
      registered := registered + {conn};
      assert conn in activeConns && forall c :: c in old(activeConns) ==> c in activeConns;
    }

    /** Round robin over the pool; `null` when it is empty. */
    method NextBackendConn() returns (conn: ConnLB?)
      modifies this`currentConnIndex
      ensures activeConns == [] ==> conn == null && currentConnIndex == old(currentConnIndex)
      ensures activeConns != [] ==>
        && conn == activeConns[Pick(old(currentConnIndex), |activeConns|).0]
        && currentConnIndex == Pick(old(currentConnIndex), |activeConns|).1
    {
      conn := null;
      if |activeConns| > 0 {
        if currentConnIndex >= |activeConns| {
          currentConnIndex := 0;
        }
        conn := activeConns[currentConnIndex];
        currentConnIndex := currentConnIndex + 1;
      }
    }

    /** A stale index may be out of range, where Go panics. */
    method StateChanged(conn: ConnLB)
      requires conn in known && (conn.active || Remove(PoolView(), conn).Ok?)
      requires forall c :: c in activeConns ==> c in known
      modifies this`activeConns, known`index
      ensures if conn.active then PoolView() == old(PoolView()) else Ok(PoolView()) == Remove(old(PoolView()), conn)
    {
      ghost var before := PoolView();
      if !conn.active && conn.index != INVALID_ARRAY_INDEX {
        var lastIndex := |activeConns| - 1;
        if lastIndex != conn.index {
          var lastConn := activeConns[lastIndex];
          assert lastConn in activeConns;
          activeConns := activeConns[conn.index := lastConn];
          lastConn.index := conn.index;
          conn.index := INVALID_ARRAY_INDEX;
        }
        activeConns := activeConns[..lastIndex];
        assert Remove(before, conn).value.conns == activeConns;
        assert Remove(before, conn).value.index == PoolView().index;
      }
    }

    lemma ValidIsIndexed()
      requires Valid()
      ensures Indexed(PoolView())
    {
    }

    /** One-way: the second call, and every later one, does nothing. */
    method MarkConnActiveFalse(conn: ConnLB)
      requires Valid() && conn in known
      modifies this`activeConns, known`index, conn`active
      ensures Valid() && !conn.active
      ensures if old(conn.active) then Ok(PoolView()) == Remove(old(PoolView()), conn)
              else PoolView() == old(PoolView())
    {
      if conn.active {
        ghost var before := PoolView();
        ValidIsIndexed();
        if conn in registered {
          RemovePooled(before, conn);
          RemovedConns(before, conn);
        }
        conn.active := false;
        StateChanged(conn);
        assert forall c :: c in known ==> c.index == PoolView().index[c];
      }
    }
  }
}
