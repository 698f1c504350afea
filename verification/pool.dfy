/**
 * The resource pool of pool/pool.go: a cache of closable resources.
 *
 * Idle resources wait in a buffered channel whose capacity is fixed when the
 * pool is made. Acquire takes the oldest idle resource or, when there is
 * none, calls the factory. Release puts a resource back, or closes it when the
 * pool is closed or the buffer is full. Close is terminal: it marks the pool
 * closed and closes every idle resource.
 *
 * The model has two layers. PoolState and the step functions AcquireStep,
 * ReleaseStep and CloseStep say what each operation does to the abstract
 * state; the lemmas about them (and about whole traces of operations) are the
 * properties of the pool. The class Pool keeps the channel as a ring buffer in
 * an array and its methods are proved to change the abstract state exactly as
 * the step functions say.
 */
module ResourcePool {

  /** A resource is known by its identity; all the pool ever does to one is keep it or call its Close. */
  type Resource = nat

  datatype PoolError =
    | ErrPoolClosed          // Acquire on a closed, drained pool
    | ErrPoolSize            // New with size 0
    | FactoryError(code: nat) // whatever error the caller's factory returned

  datatype Result<T> = Ok(value: T) | Err(error: PoolError)

  /**
   * The abstract state of a pool:
   *  - capacity: the size of the buffered channel, fixed by New;
   *  - idle: the resources in the channel, oldest first;
   *  - closed: the closed flag;
   *  - shed: every resource whose Close has been called, in call order;
   *  - factoryCalls: how many times the factory has been called.
   */
  datatype PoolState = PoolState(
    capacity: nat,
    idle: seq<Resource>,
    closed: bool,
    shed: seq<Resource>,
    factoryCalls: nat)

  /** What every reachable pool state satisfies. */
  predicate Inv(s: PoolState) {
    0 < s.capacity && |s.idle| <= s.capacity && (s.closed ==> s.idle == [])
  }

  /** The state New gives a pool of the given (positive) size. */
  function Fresh(size: nat): PoolState {
    PoolState(size, [], false, [], 0)
  }

  /**
   * Acquire: a non-blocking receive on the channel. A buffered resource is
   * returned first; a closed and empty channel yields ErrPoolClosed; otherwise
   * the factory is called once and its answer `factory` returned unchanged.
   */
  function AcquireStep(s: PoolState, factory: Result<Resource>): (out: (PoolState, Result<Resource>))
    ensures Inv(s) ==> Inv(out.0)
    ensures out.0.capacity == s.capacity && out.0.closed == s.closed && out.0.shed == s.shed
    // a hit hands out the oldest idle resource and removes it; the factory is not called
    ensures s.idle != [] ==>
              out.1 == Ok(s.idle[0]) && out.0.idle == s.idle[1..] && out.0.factoryCalls == s.factoryCalls
    // a miss leaves the idle storage alone; a closed pool answers ErrPoolClosed,
    // an open one the factory's resource or error, unchanged
    ensures s.idle == [] ==> out.0.idle == []
    ensures s.idle == [] ==> out.1 == (if s.closed then Err(ErrPoolClosed) else factory)
    // the factory is called exactly when the pool is open and holds nothing idle
    ensures out.0.factoryCalls == s.factoryCalls + (if s.idle == [] && !s.closed then 1 else 0)
    // nothing is lost from the idle storage: it is either still there or handed out
    ensures out.1.Ok? && s.idle != [] ==> multiset(s.idle) == multiset(out.0.idle) + multiset{out.1.value}
  {
    if s.idle != [] then
      assert s.idle == [s.idle[0]] + s.idle[1..];
      (s.(idle := s.idle[1..]), Ok(s.idle[0]))
    else if s.closed then
      (s, Err(ErrPoolClosed))
    else
      (s.(factoryCalls := s.factoryCalls + 1), factory)
  }

  /**
   * Release: a closed pool closes the resource; an open pool enqueues it when
   * the channel has room and closes it otherwise.
   */
  function ReleaseStep(s: PoolState, r: Resource): (t: PoolState)
    ensures Inv(s) ==> Inv(t)
    ensures t.capacity == s.capacity && t.closed == s.closed && t.factoryCalls == s.factoryCalls
    // kept or closed, never both and never neither
    ensures multiset(t.idle) + multiset(t.shed) == multiset(s.idle) + multiset(s.shed) + multiset{r}
    ensures !s.closed && |s.idle| < s.capacity ==> t.idle == s.idle + [r] && t.shed == s.shed
    ensures s.closed || |s.idle| >= s.capacity ==> t.idle == s.idle && t.shed == s.shed + [r]
  {
    if s.closed then
      s.(shed := s.shed + [r])
    else if |s.idle| < s.capacity then
      s.(idle := s.idle + [r])
    else
      s.(shed := s.shed + [r])
  }

  /** Close: the first call closes the pool and every idle resource, once each; later calls do nothing. */
  function CloseStep(s: PoolState): (t: PoolState)
    ensures Inv(s) ==> Inv(t) && t.idle == []
    ensures t.closed && t.capacity == s.capacity && t.factoryCalls == s.factoryCalls
    ensures multiset(t.idle) + multiset(t.shed) == multiset(s.idle) + multiset(s.shed)
    ensures !s.closed ==> t.shed == s.shed + s.idle
    ensures s.closed ==> t == s
  {
    if s.closed then s
    else s.(closed := true, idle := [], shed := s.shed + s.idle)
  }

  /** Close is idempotent. */
  lemma CloseIdempotent(s: PoolState)
    ensures CloseStep(CloseStep(s)) == CloseStep(s)
  {
  }

  /** On a closed pool Acquire fails with ErrPoolClosed and changes nothing: the factory is not called. */
  lemma AcquireAfterClose(s: PoolState, factory: Result<Resource>)
    requires Inv(s) && s.closed
    ensures AcquireStep(s, factory) == (s, Err(ErrPoolClosed))
  {
  }

  /** Releasing three resources into a pool of capacity two keeps two and closes the third once. */
  lemma ReleaseThreeIntoTwo(a: Resource, b: Resource, c: Resource)
    ensures ReleaseStep(ReleaseStep(ReleaseStep(Fresh(2), a), b), c)
         == PoolState(2, [a, b], false, [c], 0)
  {
  }

  // ---------------------------------------------------------------------------
  // Traces: any sequence of calls on one pool

  datatype Op = Acquire(factory: Result<Resource>) | Release(r: Resource) | Close

  function Step(s: PoolState, op: Op): PoolState {
    match op
    case Acquire(f) => AcquireStep(s, f).0
    case Release(r) => ReleaseStep(s, r)
    case Close => CloseStep(s)
  }

  /** The state after the calls `ops`, in order. */
  function Apply(s: PoolState, ops: seq<Op>): PoolState
    decreases |ops|
  {
    if ops == [] then s else Apply(Step(s, ops[0]), ops[1..])
  }

  /** What one call hands out from idle storage. */
  function Hit(s: PoolState, op: Op): seq<Resource> {
    if op.Acquire? && s.idle != [] then [s.idle[0]] else []
  }

  /** The resources the calls `ops` hand out from idle storage (cache hits), in order. */
  function Taken(s: PoolState, ops: seq<Op>): seq<Resource>
    decreases |ops|
  {
    if ops == [] then []
    else
      Hit(s, ops[0]) + Taken(Step(s, ops[0]), ops[1..])
  }

  /** The resources released by the calls `ops`, in order. */
  function Released(ops: seq<Op>): seq<Resource>
    decreases |ops|
  {
    if ops == [] then []
    else (if ops[0].Release? then [ops[0].r] else []) + Released(ops[1..])
  }

  /** Every reachable state keeps the capacity bound, and a closed pool holds nothing idle. */
  lemma {:induction false} InvAlways(s: PoolState, ops: seq<Op>)
    requires Inv(s)
    ensures Inv(Apply(s, ops)) && Apply(s, ops).capacity == s.capacity
    decreases |ops|
  {
    if ops != [] {
      InvAlways(Step(s, ops[0]), ops[1..]);
    }
  }

  /**
   * Once closed, a pool stays closed, holds nothing idle, hands nothing out
   * from idle storage and never calls the factory again.
   */
  lemma {:induction false} ClosedIsTerminal(s: PoolState, ops: seq<Op>)
    requires Inv(s) && s.closed
    ensures Apply(s, ops).closed && Apply(s, ops).idle == []
    ensures Apply(s, ops).factoryCalls == s.factoryCalls
    ensures Taken(s, ops) == []
    decreases |ops|
  {
    if ops != [] {
      ClosedIsTerminal(Step(s, ops[0]), ops[1..]);
    }
  }

  /** Two conservation laws in a row make one. */
  lemma Chain<T>(a: multiset<T>, b: multiset<T>, c: multiset<T>,
                 in1: multiset<T>, in2: multiset<T>, out1: multiset<T>, out2: multiset<T>)
    requires a + in1 == b + out1
    requires b + in2 == c + out2
    ensures a + (in1 + in2) == c + (out1 + out2)
  {
    forall x ensures (a + (in1 + in2))[x] == (c + (out1 + out2))[x] {
      assert (a + in1)[x] == (b + out1)[x];
      assert (b + in2)[x] == (c + out2)[x];
    }
  }

  /** The conservation law for one call. */
  lemma StepConserves(s: PoolState, op: Op)
    ensures multiset(s.idle) + multiset(s.shed) + multiset(Released([op]))
         == multiset(Step(s, op).idle) + multiset(Step(s, op).shed) + multiset(Hit(s, op))
  {
  }

  /**
   * No resource is lost or invented: what was idle or closed before, plus
   * what was released, is exactly what is idle or closed after, plus what
   * was handed out from idle storage.
   */
  lemma {:induction false} Conservation(s: PoolState, ops: seq<Op>)
    ensures multiset(s.idle) + multiset(s.shed) + multiset(Released(ops))
         == multiset(Apply(s, ops).idle) + multiset(Apply(s, ops).shed) + multiset(Taken(s, ops))
    decreases |ops|
  {
    if ops != [] {
      var t, rest := Step(s, ops[0]), ops[1..];
      var u := Apply(t, rest);
      Unfold(s, ops);
      Conservation(t, rest);
      StepConserves(s, ops[0]);
      Chain(multiset(s.idle) + multiset(s.shed), multiset(t.idle) + multiset(t.shed),
            multiset(u.idle) + multiset(u.shed),
            multiset(Released([ops[0]])), multiset(Released(rest)),
            multiset(Hit(s, ops[0])), multiset(Taken(t, rest)));
    }
  }

  /** A nonempty trace is its first call followed by the rest. */
  lemma Unfold(s: PoolState, ops: seq<Op>)
    requires ops != []
    ensures Apply(s, ops) == Apply(Step(s, ops[0]), ops[1..])
    ensures Taken(s, ops) == Hit(s, ops[0]) + Taken(Step(s, ops[0]), ops[1..])
    ensures Released(ops) == Released([ops[0]]) + Released(ops[1..])
  {
    ReleasedOne(ops[0]);
  }

  lemma ReleasedOne(op: Op)
    ensures Released([op]) == if op.Release? then [op.r] else []
  {
    assert [op][1..] == [];
  }

  /**
   * Every resource handed out from idle storage of a new pool was released
   * into that pool before: at every point of a trace, what has been handed
   * out so far is contained in what has been released so far.
   */
  lemma TakenWereReleased(size: nat, ops: seq<Op>)
    ensures forall i :: 0 <= i <= |ops| ==>
              multiset(Taken(Fresh(size), ops[..i])) <= multiset(Released(ops[..i]))
  {
    forall i | 0 <= i <= |ops|
      ensures multiset(Taken(Fresh(size), ops[..i])) <= multiset(Released(ops[..i]))
    {
      var pre := ops[..i];
      Conservation(Fresh(size), pre);
      var t := Apply(Fresh(size), pre);
      assert multiset(Released(pre)) == multiset(t.idle) + multiset(t.shed) + multiset(Taken(Fresh(size), pre));
    }
  }

  // ---------------------------------------------------------------------------
  // The pool object: the channel as a ring buffer in an array

  class Pool {
    // the channel's buffer: `count` resources starting at `head`, wrapping around
    var buf: array<Resource>
    var head: nat
    var count: nat
    var closed: bool

    // the abstract view
    ghost var Idle: seq<Resource>
    ghost var Shed: seq<Resource>
    ghost var FactoryCalls: nat

    /** The slot of the buffer that holds the i-th idle resource. */
    function Slot(i: nat): nat
      reads this
    {
      if head + i < buf.Length then head + i else head + i - buf.Length
    }

    /** The ring buffer holds exactly Idle, oldest first. */
    ghost predicate Ring()
      reads this, buf
    {
      0 < buf.Length && head < buf.Length && count <= buf.Length && |Idle| == count &&
      forall i :: 0 <= i < count ==> Slot(i) < buf.Length && Idle[i] == buf[Slot(i)]
    }

    ghost predicate Valid()
      reads this, buf
    {
      Ring() && (closed ==> count == 0)
    }

    ghost function State(): PoolState
      reads this
    {
      PoolState(buf.Length, Idle, closed, Shed, FactoryCalls)
    }

    constructor (size: nat)
      requires 0 < size
      ensures Valid() && fresh(buf)
      ensures State() == Fresh(size)
    {
      buf := new Resource[size];
      head, count := 0, 0;
      closed := false;
      Idle, Shed, FactoryCalls := [], [], 0;
    }

    /** Takes the oldest idle resource out of the ring buffer. */
    method Dequeue() returns (r: Resource)
      requires Ring() && count > 0
      modifies this
      ensures Ring() && buf == old(buf) && closed == old(closed)
      ensures r == old(Idle)[0] && Idle == old(Idle)[1..]
      ensures Shed == old(Shed) && FactoryCalls == old(FactoryCalls)
    {
      r := buf[head];
      head, count := if head + 1 == buf.Length then 0 else head + 1, count - 1;
      Idle := Idle[1..];
    }

    /**
     * Acquire. `factory` is what the caller's factory returns if it is
     * called; it is called (FactoryCalls grows) only when nothing is idle.
     */
    method Acquire(factory: Result<Resource>) returns (r: Result<Resource>)
      requires Valid()
      modifies this
      ensures Valid() && buf == old(buf)
      ensures (State(), r) == AcquireStep(old(State()), factory)
    {
      if count > 0 {
        var x := Dequeue();
        r := Ok(x);
      } else if closed {
        r := Err(ErrPoolClosed);
      } else {
        FactoryCalls := FactoryCalls + 1;
        r := factory;
      }
    }

    /** Release: enqueue when open and not full, otherwise close the resource. */
    method Release(r: Resource)
      requires Valid()
      modifies this, buf
      ensures Valid() && buf == old(buf)
      ensures State() == ReleaseStep(old(State()), r)
    {
      if closed {
        Shed := Shed + [r];
      } else if count < buf.Length {
        buf[Slot(count)] := r;
        count := count + 1;
        Idle := Idle + [r];
      } else {
        Shed := Shed + [r];
      }
    }

    /** Close: mark closed, then drain the buffer, closing each resource once. */
    method Close()
      requires Valid()
      modifies this
      ensures Valid() && buf == old(buf)
      ensures State() == CloseStep(old(State()))
    {
      if closed {
        return;
      }
      closed := true;
      while count > 0
        invariant Ring() && buf == old(buf) && closed
        invariant Shed + Idle == old(Shed) + old(Idle)
        invariant FactoryCalls == old(FactoryCalls)
        decreases count
      {
        var x := Dequeue();
        Shed := Shed + [x];
      }
    }
  }

  /** A live pool's abstract state satisfies Inv, so the lemmas about traces apply to it. */
  lemma ValidInv(p: Pool)
    requires p.Valid()
    ensures Inv(p.State())
  {
  }

  /** New: size 0 is refused with ErrPoolSize; otherwise an open pool with empty idle storage of that capacity. */
  method New(size: nat) returns (r: Result<Pool>)
    ensures r.Err? <==> size == 0
    ensures r.Err? ==> r.error == ErrPoolSize
    ensures r.Ok? ==> fresh(r.value) && fresh(r.value.buf) && r.value.Valid()
                      && r.value.State() == Fresh(size)
  {
    if size == 0 {
      return Err(ErrPoolSize);
    }
    var p := new Pool(size);
    r := Ok(p);
  }
}
