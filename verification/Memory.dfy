/** The two-class buffer pool and who owns a buffer.  Slices are values that name the
    allocation they point into, so the same functions serve heap buffers and the ownership
    protocol below. */
module Memory {

  import opened ThriftMessage

  const DEFAULT_SLICE_LEN: nat := 1024
  const LARGE_SLICE_LEN: nat := 2048
  const POOL_SIZE: nat := 1000

  /** A Go slice: allocation, offset into it, length and capacity.  `NoSlice` is nil. */
  datatype Slice<B> = NoSlice | Slice(buf: B, off: nat, len: nat, cap: nat)

  /** `memoryBuffer1024` and `memoryBuffer2048`, as the FIFO channels they are. */
  datatype Pool<B> = Pool(small: seq<Slice<B>>, large: seq<Slice<B>>)

  /** The pool classes hold only the capacities they are named after. */
  predicate Sorted<B>(p: Pool<B>) {
    && |p.small| <= POOL_SIZE && |p.large| <= POOL_SIZE
    && (forall i :: 0 <= i < |p.small| ==> p.small[i].Slice? && p.small[i].cap == DEFAULT_SLICE_LEN)
    && (forall i :: 0 <= i < |p.large| ==> p.large[i].Slice? && p.large[i].cap == LARGE_SLICE_LEN)
  }

  /** What `getSlice` hands out: a pooled slice with its length reset, or the size of a fresh one. */
  datatype Grant<B> = Pooled(s: Slice<B>, rest: Pool<B>) | Fresh(len: nat, cap: nat)

  function GetSlice<B>(p: Pool<B>, initSize: nat, capacity: nat): (g: Grant<B>)
    requires initSize <= capacity && Sorted(p)
    ensures g.Pooled? ==> g.s.Slice? && g.s.len == initSize && g.s.cap >= capacity && Sorted(g.rest)
    ensures g.Fresh? ==> g.len == initSize && g.cap >= capacity
  {
    if capacity < DEFAULT_SLICE_LEN then
      if p.small == [] then Fresh(initSize, DEFAULT_SLICE_LEN)
      else Pooled(p.small[0].(len := initSize), p.(small := p.small[1..]))
    else if capacity < LARGE_SLICE_LEN then
      if p.large == [] then Fresh(initSize, LARGE_SLICE_LEN)
      else Pooled(p.large[0].(len := initSize), p.(large := p.large[1..]))
    else Fresh(initSize, capacity)
  }

  predicate Accepts<B>(p: Pool<B>, s: Slice<B>) {
    && s.Slice?
    && ((s.cap == DEFAULT_SLICE_LEN && |p.small| < POOL_SIZE) || (s.cap == LARGE_SLICE_LEN && |p.large| < POOL_SIZE))
  }

  function ReturnSlice<B>(p: Pool<B>, s: Slice<B>): (q: Pool<B>)
    ensures Sorted(p) ==> Sorted(q)
  {
    if !Accepts(p, s) then p
    else if s.cap == DEFAULT_SLICE_LEN then p.(small := p.small + [s])
    else p.(large := p.large + [s])
  }

  // ----------------------------------------------------------- request buffers

  /** The slices a request holds: `Request.Data`, `Request.DataOrig` and `Response.Data`. */
  datatype Buffers<B> = Buffers(data: Slice<B>, dataOrig: Slice<B>, response: Slice<B>)

  /** What `ReplaceSeqId` does to the slices: a non-zero `start` shifts `Data` and keeps the
      original aside. */
  function Shift<B>(b: Buffers<B>, start: nat): Buffers<B>
    requires b.data.Slice? && start <= b.data.len <= b.data.cap
  {
    b.(data := Slice(b.data.buf, b.data.off + start, b.data.len - start, b.data.cap - start),
       dataOrig := if start > 0 then b.data else b.dataOrig)
  }

  /** The slice that stands for the request's allocation. */
  function RequestSlice<B>(b: Buffers<B>): Slice<B> {
    if b.dataOrig.Slice? then b.dataOrig else b.data
  }

  /** `getSliceId` compares data pointers. */
  predicate SamePointer<B(==)>(s: Slice<B>, t: Slice<B>) {
    s.Slice? && t.Slice? && s.buf == t.buf && s.off == t.off
  }

  /** `Recycle`. */
  function Recycle<B(==)>(p: Pool<B>, b: Buffers<B>): (Pool<B>, Buffers<B>) {
    var mine := RequestSlice(b);
    var q := ReturnSlice(p, mine);
    (if SamePointer(mine, b.response) then q else ReturnSlice(q, b.response),
     Buffers(NoSlice, NoSlice, NoSlice))
  }

  lemma RecycleTwice<B>(p: Pool<B>, b: Buffers<B>)
    ensures var (q, c) := Recycle(p, b); Recycle(q, c) == (q, c)
  {
  }

  // ----------------------------------------------------------------- ownership

  /** Allocations are numbered in the order they were made. */
  datatype State = State(pool: Pool<nat>, requests: map<nat, Buffers<nat>>, made: nat)

  datatype Step =
    | Receive(rid: nat, size: nat)                  // ReadFrame for a new request, or for a frame nobody will claim
    | Replace(rid: nat, start: nat)                 // ReplaceSeqId
    | Respond(rid: nat, size: nat)                  // ReadFrame for its response
    | RespondElsewhere(rid: nat, len: nat, cap: nat)  // an exception built outside the pool
    | Release(rid: nat)                             // Recycle

  predicate Enabled(s: State, step: Step) {
    match step
    case Receive(rid, _) => rid !in s.requests
    case Replace(rid, start) =>
      rid in s.requests && s.requests[rid].data.Slice? && start <= s.requests[rid].data.len <= s.requests[rid].data.cap
    case Respond(rid, _) => rid in s.requests
    case RespondElsewhere(rid, len, cap) => rid in s.requests && len <= cap
    case Release(rid) => rid in s.requests
  }

  /** The slice obtained and the state of the pool and the allocator after. */
  function Obtain(s: State, size: nat): (r: (Slice<nat>, State))
    requires Sorted(s.pool)
    ensures r.0.Slice? && r.0.len == size && r.0.cap >= size && Sorted(r.1.pool) && r.1.requests == s.requests
  {
    match GetSlice(s.pool, size, size)
    case Pooled(b, rest) => (b, s.(pool := rest))
    case Fresh(len, cap) => (Slice(s.made, 0, len, cap), s.(made := s.made + 1))
  }

  function Apply(s: State, step: Step): (t: State)
    requires Enabled(s, step) && Sorted(s.pool)
    ensures Sorted(t.pool)
  {
    match step
    case Receive(rid, size) =>
      var (b, t) := Obtain(s, size);
      t.(requests := s.requests[rid := Buffers(b, NoSlice, NoSlice)])
    case Replace(rid, start) =>
      s.(requests := s.requests[rid := Shift(s.requests[rid], start)])
    case Respond(rid, size) =>
      var (b, t) := Obtain(s, size);
      t.(requests := s.requests[rid := s.requests[rid].(response := b)])
    case RespondElsewhere(rid, len, cap) =>
      s.(requests := s.requests[rid := s.requests[rid].(response := Slice(s.made, 0, len, cap))],
         made := s.made + 1)
    case Release(rid) =>
      var (p, b) := Recycle(s.pool, s.requests[rid]);
      s.(pool := p, requests := s.requests[rid := b])
  }

  datatype Holder = InSmall(i: nat) | InLarge(i: nat) | ByRequest(rid: nat) | ByResponse(rid: nat)

  predicate Points(s: Slice<nat>, b: nat) { s.Slice? && s.buf == b }

  /** Who has a slice into allocation `b`. */
  predicate Holds(s: State, h: Holder, b: nat) {
    match h
    case InSmall(i) => i < |s.pool.small| && Points(s.pool.small[i], b)
    case InLarge(i) => i < |s.pool.large| && Points(s.pool.large[i], b)
    case ByRequest(rid) => rid in s.requests && (Points(s.requests[rid].data, b) || Points(s.requests[rid].dataOrig, b))
    case ByResponse(rid) => rid in s.requests && Points(s.requests[rid].response, b)
  }

  ghost predicate SoleOwner(s: State) {
    && (forall b: nat, h, g :: Holds(s, h, b) && Holds(s, g, b) ==> h == g)
    && (forall b: nat, h :: Holds(s, h, b) ==> b < s.made)
  }

  ghost predicate Inv(s: State) {
    Sorted(s.pool) && SoleOwner(s)
  }

  /** Holders of `t` go back to holders of `s` one to one, up to an allocation `s` did not have. */
  ghost predicate Inherits(s: State, t: State, from: Holder -> Holder, newcomer: Holder) {
    && s.made <= t.made
    && (forall h, b :: Holds(t, h, b) ==>
          Holds(s, from(h), b) || (h == newcomer && b == s.made < t.made))
    && (forall h, g, b :: Holds(t, h, b) && Holds(t, g, b) && from(h) == from(g) ==> h == g)
  }

  lemma InheritKeepsSole(s: State, t: State, from: Holder -> Holder, newcomer: Holder)
    requires SoleOwner(s) && Inherits(s, t, from, newcomer)
    ensures SoleOwner(t)
  {
  }

  /** `b` came out of `s` into state `u`; in `t`, `newcomer` has it and nobody else got anything. */
  ghost predicate Granted(s: State, b: Slice<nat>, u: State, newcomer: Holder, t: State) {
    && (newcomer.ByRequest? || newcomer.ByResponse?)
    && t.pool == u.pool && t.made == u.made
    && forall h: Holder, a: nat :: h.ByRequest? || h.ByResponse? ==>
         (Holds(t, h, a) ==> if h == newcomer then Points(b, a) else Holds(s, h, a))
  }

  lemma PoolHeadKeepsSole(s: State, size: nat, newcomer: Holder, t: State)
    requires Inv(s) && Granted(s, Obtain(s, size).0, Obtain(s, size).1, newcomer, t)
    requires GetSlice(s.pool, size, size).Pooled?
    ensures SoleOwner(t)
  {
    if size < DEFAULT_SLICE_LEN {
      InheritKeepsSole(s, t,
        h => if h == newcomer then InSmall(0) else if h.InSmall? then InSmall(h.i + 1) else h, newcomer);
    } else {
      InheritKeepsSole(s, t,
        h => if h == newcomer then InLarge(0) else if h.InLarge? then InLarge(h.i + 1) else h, newcomer);
    }
  }

  /** Taking the head of a pool class, or allocating, moves a buffer to `newcomer` only. */
  lemma ObtainKeepsSole(s: State, size: nat, newcomer: Holder, t: State)
    requires Inv(s) && Granted(s, Obtain(s, size).0, Obtain(s, size).1, newcomer, t)
    ensures SoleOwner(t)
  {
    if GetSlice(s.pool, size, size).Pooled? {
      PoolHeadKeepsSole(s, size, newcomer, t);
    } else {
      InheritKeepsSole(s, t, h => h, newcomer);
    }
  }

  /** A slice given back moves from its holder to the end of a class, or nowhere. */
  lemma ReturnKeepsSole(s: State, t: State, who: Holder, slice: Slice<nat>)
    requires Inv(s) && (who.ByRequest? || who.ByResponse?)
    requires slice.Slice? ==> Holds(s, who, slice.buf)
    requires t.pool == ReturnSlice(s.pool, slice) && t.made == s.made
    requires forall h: Holder, a: nat :: h.ByRequest? || h.ByResponse? ==>
      (Holds(t, h, a) ==> h != who && Holds(s, h, a))
    ensures SoleOwner(t)
  {
    InheritKeepsSole(s, t,
      h => if h == InSmall(|s.pool.small|) || h == InLarge(|s.pool.large|) then who else h, who);
  }

  lemma ReleaseKeepsSole(s: State, rid: nat)
    requires Inv(s) && rid in s.requests
    ensures SoleOwner(Apply(s, Release(rid)))
  {
    var b := s.requests[rid];
    var mine := RequestSlice(b);
    var u := s.(pool := ReturnSlice(s.pool, mine),
                requests := s.requests[rid := Buffers(NoSlice, NoSlice, b.response)]);
    ReturnKeepsSole(s, u, ByRequest(rid), mine);
    assert !SamePointer(mine, b.response) by {
      if mine.Slice? && b.response.Slice? && mine.buf == b.response.buf {
        assert Holds(s, ByRequest(rid), mine.buf) && Holds(s, ByResponse(rid), mine.buf);
      }
    }
    ReturnKeepsSole(u, Apply(s, Release(rid)), ByResponse(rid), b.response);
  }

  lemma StepKeepsInv(s: State, step: Step)
    requires Inv(s) && Enabled(s, step)
    ensures Inv(Apply(s, step))
  {
    var t := Apply(s, step);
    match step
    case Receive(rid, size) => ObtainKeepsSole(s, size, ByRequest(rid), t);
    case Replace(rid, _) => InheritKeepsSole(s, t, h => h, ByRequest(rid));
    case Respond(rid, size) => ObtainKeepsSole(s, size, ByResponse(rid), t);
    case RespondElsewhere(rid, _, _) => InheritKeepsSole(s, t, h => h, ByResponse(rid));
    case Release(rid) => ReleaseKeepsSole(s, rid);
  }

  ghost predicate Run(run: seq<State>) {
    && run != []
    && run[0] == State(Pool([], []), map[], 0)
    && forall i :: 0 <= i < |run| - 1 ==> Next(run[i], run[i + 1])
  }

  ghost predicate Next(s: State, t: State) {
    Sorted(s.pool) && exists step :: Enabled(s, step) && t == Apply(s, step)
  }

  /** Over any run no buffer is both pooled and in use, pooled twice, or shared by two requests
      or by a request and a response, and the classes stay sorted by capacity. */
  lemma {:induction false} RunKeepsOwnership(run: seq<State>, i: nat)
    requires Run(run) && i < |run|
    ensures Sorted(run[i].pool)
    ensures forall b: nat, h, g :: Holds(run[i], h, b) && Holds(run[i], g, b) ==> h == g
    ensures SoleOwner(run[i])
  {
    if i > 0 {
      RunKeepsOwnership(run, i - 1);
      assert Next(run[i - 1], run[i - 1 + 1]);
      var step :| Enabled(run[i - 1], step) && run[i] == Apply(run[i - 1], step);
      StepKeepsInv(run[i - 1], step);
    }
  }

  // ------------------------------------------------- what comes back to the pool

  /** Buffers are made in two sizes, or as large as asked for. */
  lemma FreshCapacity(size: nat)
    ensures GetSlice<nat>(Pool([], []), size, size) ==
      Fresh(size, if size < 1024 then 1024 else if size < 2048 then 2048 else size)
  {
  }

  /** First in, first out: what is returned to a class is got again for any size of that class, after
      what was there before. */
  lemma ReturnThenGet(p: Pool<nat>, s: Slice<nat>, size: nat)
    requires Sorted(p) && s.Slice?
    ensures s.cap == 1024 && size < 1024 && |p.small| < 1000 ==>
      GetSlice(ReturnSlice(p, s), size, size) ==
        if p.small == [] then Pooled(s.(len := size), p)
        else Pooled(p.small[0].(len := size), p.(small := p.small[1..] + [s]))
    ensures s.cap == 2048 && 1024 <= size < 2048 && |p.large| < 1000 ==>
      GetSlice(ReturnSlice(p, s), size, size) ==
        if p.large == [] then Pooled(s.(len := size), p)
        else Pooled(p.large[0].(len := size), p.(large := p.large[1..] + [s]))
    ensures (s.cap != 1024 || |p.small| >= 1000) && (s.cap != 2048 || |p.large| >= 1000) ==> ReturnSlice(p, s) == p
  {
  }

  /** The request slice stays the one that was read into, however much of the service is stripped. */
  lemma ReplaceKeepsRequestSlice(b: Buffers<nat>, start: nat)
    requires b.data.Slice? && b.dataOrig.NoSlice? && start <= b.data.len <= b.data.cap
    ensures RequestSlice(Shift(b, start)) == b.data
    ensures var d := Shift(b, start).data;
      && d.Slice? && d.buf == b.data.buf && d.off == b.data.off + start
      && d.off + d.len == b.data.off + b.data.len && d.off + d.cap == b.data.off + b.data.cap
  {
  }

  /** A request's buffer, read into, stripped of its service and released, is pooled again as it was
      got, if its class has room. */
  lemma BufferComesBack(s: State, rid: nat, size: nat, start: nat)
    requires Inv(s) && rid !in s.requests && start <= size
    ensures Enabled(Apply(s, Receive(rid, size)), Replace(rid, start))
    ensures Enabled(Apply(Apply(s, Receive(rid, size)), Replace(rid, start)), Release(rid))
    ensures var b, p := Obtain(s, size).0, Obtain(s, size).1.pool;
      var released := Apply(Apply(Apply(s, Receive(rid, size)), Replace(rid, start)), Release(rid));
      && released.requests[rid] == Buffers(NoSlice, NoSlice, NoSlice)
      && (b.cap == 1024 && |p.small| < 1000 ==> released.pool == p.(small := p.small + [b]))
      && (b.cap == 2048 && |p.large| < 1000 ==> released.pool == p.(large := p.large + [b]))
  {
    var received := Apply(s, Receive(rid, size));
    ReplaceKeepsRequestSlice(received.requests[rid], start);
  }

  /** So is the response's, if there is still room. */
  lemma ResponseComesBack(s: State, rid: nat)
    requires Inv(s) && rid in s.requests && s.requests[rid].response.Slice?
    ensures var b, p := s.requests[rid].response, Apply(s, Release(rid)).pool;
      && (b.cap == 1024 && |s.pool.small| < 999 ==> b in p.small)
      && (b.cap == 2048 && |s.pool.large| < 999 ==> b in p.large)
  {
    var b := s.requests[rid];
    var mine := RequestSlice(b);
    if mine.Slice? && mine.buf == b.response.buf {
      assert Holds(s, ByRequest(rid), mine.buf) && Holds(s, ByResponse(rid), mine.buf);
      assert false;
    }
    ReturnedIn(ReturnSlice(s.pool, mine), b.response);
  }

  lemma ReturnedIn(p: Pool<nat>, s: Slice<nat>)
    ensures Accepts(p, s) && s.cap == 1024 ==> s in ReturnSlice(p, s).small
    ensures Accepts(p, s) && s.cap == 2048 ==> s in ReturnSlice(p, s).large
  {
  }

  /** Slices from the start of their allocation. */
  predicate WholePool(p: Pool<nat>) {
    && (forall i :: 0 <= i < |p.small| ==> p.small[i].Slice? && p.small[i].off == 0)
    && (forall i :: 0 <= i < |p.large| ==> p.large[i].Slice? && p.large[i].off == 0)
  }

  predicate FromStart(s: Slice<nat>) { s.Slice? ==> s.off == 0 }

  predicate WholeBuffers(b: Buffers<nat>) {
    FromStart(RequestSlice(b)) && FromStart(b.response)
  }

  predicate Whole(s: State) {
    WholePool(s.pool) && forall rid :: rid in s.requests ==> WholeBuffers(s.requests[rid])
  }

  /** A request is stripped of its service once: it is written once. */
  predicate StripsOnce(s: State, step: Step) {
    step.Replace? && step.start > 0 ==> step.rid in s.requests && s.requests[step.rid].dataOrig.NoSlice?
  }

  lemma ReturnKeepsWhole(p: Pool<nat>, s: Slice<nat>)
    requires WholePool(p) && FromStart(s)
    ensures WholePool(ReturnSlice(p, s))
  {
  }

  lemma ReleaseKeepsWhole(p: Pool<nat>, b: Buffers<nat>)
    requires WholePool(p) && WholeBuffers(b)
    ensures WholePool(Recycle(p, b).0)
  {
    ReturnKeepsWhole(p, RequestSlice(b));
    ReturnKeepsWhole(ReturnSlice(p, RequestSlice(b)), b.response);
  }

  lemma ObtainWhole(s: State, size: nat)
    requires Sorted(s.pool) && WholePool(s.pool)
    ensures FromStart(Obtain(s, size).0) && WholePool(Obtain(s, size).1.pool)
  {
  }

  lemma StepKeepsWhole(s: State, step: Step)
    requires Inv(s) && Whole(s) && Enabled(s, step) && StripsOnce(s, step)
    ensures Whole(Apply(s, step))
  {
    match step
    case Receive(_, size) => ObtainWhole(s, size);
    case Respond(_, size) => ObtainWhole(s, size);
    case Release(rid) => ReleaseKeepsWhole(s.pool, s.requests[rid]);
    case Replace(rid, start) => assert RequestSlice(Shift(s.requests[rid], 0)).Slice?;
    case _ =>
  }

  ghost predicate NextOnce(s: State, t: State) {
    Sorted(s.pool) && exists step :: Enabled(s, step) && StripsOnce(s, step) && t == Apply(s, step)
  }

  /** In every run in which requests are stripped once, every pooled slice is a whole buffer. */
  lemma {:induction false} RunPoolsWholeBuffers(run: seq<State>, i: nat)
    requires Run(run) && i < |run| && forall j :: 0 <= j < |run| - 1 ==> NextOnce(run[j], run[j + 1])
    ensures Whole(run[i]) && WholePool(run[i].pool)
  {
    if i > 0 {
      RunPoolsWholeBuffers(run, i - 1);
      RunKeepsOwnership(run, i - 1);
      assert NextOnce(run[i - 1], run[i - 1 + 1]);
      var step :| Enabled(run[i - 1], step) && StripsOnce(run[i - 1], step) && run[i] == Apply(run[i - 1], step);
      StepKeepsWhole(run[i - 1], step);
    }
  }

  // -------------------------------------------------------------- where it ends

  predicate PoolHolds(p: Pool<nat>, h: Holder, b: nat) {
    Holds(State(p, map[], 0), h, b)
  }

  ghost predicate PooledTwice(p: Pool<nat>, b: nat) {
    exists h, g :: h != g && PoolHolds(p, h, b) && PoolHolds(p, g, b)
  }

  /** Without the separate allocation the pointer test of `Recycle` is not enough: it pools one
      allocation twice exactly when request and response start at different addresses of it and
      both have a pooled capacity. */
  lemma RecycleAliased(p: Pool<nat>, b: Buffers<nat>)
    requires Sorted(p) && RequestSlice(b).Slice? && b.response.Slice? && b.response.buf == RequestSlice(b).buf
    requires forall h :: !PoolHolds(p, h, b.response.buf)
    ensures PooledTwice(Recycle(p, b).0, b.response.buf)
            <==> RequestSlice(b).off != b.response.off && Accepts(p, RequestSlice(b))
                 && Accepts(ReturnSlice(p, RequestSlice(b)), b.response)
  {
    var mine, x := RequestSlice(b), b.response.buf;
    var q := ReturnSlice(p, mine);
    var r := Recycle(p, b).0;
    ReturnAdds(p, mine, x);
    ReturnAdds(q, b.response, x);
    if mine.off != b.response.off && Accepts(p, mine) && Accepts(q, b.response) {
      assert PoolHolds(r, Slot(p, mine), x) && PoolHolds(r, Slot(q, b.response), x);
    }
  }

  /** Where `ReturnSlice` puts a slice it accepts. */
  function Slot(p: Pool<nat>, s: Slice<nat>): Holder
    requires Accepts(p, s)
  {
    if s.cap == DEFAULT_SLICE_LEN then InSmall(|p.small|) else InLarge(|p.large|)
  }

  lemma ReturnAdds(p: Pool<nat>, s: Slice<nat>, b: nat)
    requires Points(s, b)
    ensures forall h :: PoolHolds(ReturnSlice(p, s), h, b) <==> PoolHolds(p, h, b) || (Accepts(p, s) && h == Slot(p, s))
  {
  }

  // ------------------------------------------------------- a server's response

  /** `bytes.Buffer` over `slice` after `size` bytes were written to it: in place while they fit,
      else in a new allocation of some larger capacity. */
  function Grown(slice: Slice<nat>, size: nat, elsewhere: nat, capacity: nat): Slice<nat>
    requires slice.Slice?
  {
    if size <= slice.cap then slice.(len := size) else Slice(elsewhere, 0, size, capacity)
  }

  /** `ThriftRpcServer.Dispatch`, from `getSlice(0, 1024)` to the test on the response's capacity.
      `p` is the pool it takes its buffer from, `later` the pool when the processor is done. */
  function DispatchSlice(p: Pool<nat>, unused: nat): (s: Slice<nat>)
    requires Sorted(p)
    ensures s.Slice? && s.cap == LARGE_SLICE_LEN
  {
    match GetSlice(p, 0, DEFAULT_SLICE_LEN)
    case Pooled(s, _) => s
    case Fresh(len, cap) => Slice(unused, 0, len, cap)
  }

  function PoolAfterDispatch(later: Pool<nat>, slice: Slice<nat>, response: Slice<nat>): Pool<nat>
    requires response.Slice?
  {
    if response.cap != DEFAULT_SLICE_LEN then ReturnSlice(later, slice) else later
  }

  /** The test takes any capacity but 1024 for a reallocation, and the buffer it got has capacity
      2048.  So the pool ends up with the buffer the response is in, if and only if the response
      is at most 2048 bytes long and the pool has room. */
  lemma DispatchPoolsLiveBufferIff(p: Pool<nat>, unused: nat, later: Pool<nat>, size: nat,
                                   elsewhere: nat, capacity: nat)
    requires Sorted(p) && Sorted(later) && size <= capacity
    requires var slice := DispatchSlice(p, unused);
      elsewhere != slice.buf && forall h :: !PoolHolds(later, h, slice.buf) && !PoolHolds(later, h, elsewhere)
    ensures var slice := DispatchSlice(p, unused);
      var response := Grown(slice, size, elsewhere, capacity);
      (exists h :: PoolHolds(PoolAfterDispatch(later, slice, response), h, response.buf)) <==>
      size <= LARGE_SLICE_LEN && |later.large| < POOL_SIZE
  {
    var slice := DispatchSlice(p, unused);
    var response := Grown(slice, size, elsewhere, capacity);
    var q := ReturnSlice(later, slice);
    assert PoolAfterDispatch(later, slice, response) == q;
    ReturnAdds(later, slice, slice.buf);
    if size <= LARGE_SLICE_LEN && Accepts(later, slice) {
      assert PoolHolds(q, Slot(later, slice), response.buf);
    }
    if size > LARGE_SLICE_LEN {
      forall h
        ensures !PoolHolds(q, h, elsewhere)
      {
        assert !PoolHolds(later, h, elsewhere);
      }
    }
  }

  /** A short response from an empty pool is such a case. */
  lemma DispatchPoolsLiveBuffer()
    ensures var slice := DispatchSlice(Pool([], []), 0);
      var response := Grown(slice, 100, 1, 100);
      PoolHolds(PoolAfterDispatch(Pool([], []), slice, response), InLarge(0), response.buf)
  {
  }

  // -------------------------------------------------------------- heap buffers

  /** A slice of heap memory is in bounds of its array, and its capacity runs to the end. */
  predicate InBounds(s: Slice<array<byte>>) {
    s.Slice? ==> s.len <= s.cap && s.off + s.cap == s.buf.Length
  }

  class BufferPool {
    var small: seq<Slice<array<byte>>>
    var large: seq<Slice<array<byte>>>

    function Contents(): Pool<array<byte>>
      reads this
    {
      Pool(small, large)
    }

    ghost predicate Valid()
      reads this
    {
      && Sorted(Contents())
      && (forall s :: s in small ==> InBounds(s))
      && (forall s :: s in large ==> InBounds(s))
    }

    constructor ()
      ensures Valid() && Contents() == Pool([], [])
    {
      small, large := [], [];
    }

    /** The source panics when `initSize > capacity`. */
    method Get(initSize: nat, capacity: nat) returns (s: Slice<array<byte>>)
      requires Valid() && initSize <= capacity
      modifies this
      ensures Valid() && s.Slice? && InBounds(s) && s.len == initSize && s.cap >= capacity
      ensures match old(GetSlice(Contents(), initSize, capacity))
        case Pooled(t, rest) => s == t && Contents() == rest
        case Fresh(_, cap) => fresh(s.buf) && s.off == 0 && s.cap == cap && Contents() == old(Contents())
    {
      if capacity < DEFAULT_SLICE_LEN && small != [] {
        assert small[0] in small && forall t :: t in small[1..] ==> t in small;
        s := small[0].(len := initSize);
        small := small[1..];
      } else if DEFAULT_SLICE_LEN <= capacity < LARGE_SLICE_LEN && large != [] {
        assert large[0] in large && forall t :: t in large[1..] ==> t in large;
        s := large[0].(len := initSize);
        large := large[1..];
      } else {
        var cap := if capacity < DEFAULT_SLICE_LEN then DEFAULT_SLICE_LEN
                   else if capacity < LARGE_SLICE_LEN then LARGE_SLICE_LEN else capacity;
        var buf := new byte[cap](_ => 0);
        s := Slice(buf, 0, initSize, cap);
      }
    }

    method Return(s: Slice<array<byte>>) returns (ok: bool)
      requires Valid() && InBounds(s)
      modifies this
      ensures Valid() && Contents() == ReturnSlice(old(Contents()), s) && ok == old(Accepts(Contents(), s))
    {
      ok := false;
      if s.Slice? {
        if s.cap == DEFAULT_SLICE_LEN {
          if |small| < POOL_SIZE {
            small := small + [s];
            ok := true;
          }
        } else if s.cap == LARGE_SLICE_LEN {
          if |large| < POOL_SIZE {
            large := large + [s];
            ok := true;
          }
        }
      }
    }
  }
}
