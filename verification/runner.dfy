/**
 * The sequential part of the task runner of runner/runner.go.
 *
 * A runner holds an ordered list of tasks, each a function of its own index,
 * and a one-slot interrupt channel. Its run loop calls the tasks in index
 * order; before each task it looks (without waiting) at the interrupt slot,
 * and if a signal is there it consumes it, stops further delivery and gives
 * up with ErrInterrupt.
 *
 * Signal delivery is an explicit input here: Run takes the set of check
 * positions k at which a signal arrives before the check that precedes task
 * k (a signal that arrives while task k - 1 is running is seen at that same
 * check). The calls the loop makes are recorded in the ghost log Log.
 */
module TaskRunner {
  import opened Options

  datatype RunnerError =
    | ErrTimeout    // the deadline elapsed first (only Start returns it)
    | ErrInterrupt  // an interrupt was seen between two tasks

  /** What run returns: nil, or an error. */
  datatype Outcome = Completed | Failed(err: RunnerError)

  /** One invocation `task(index)`. */
  datatype Call<Task> = Call(task: Task, index: nat)

  /** The invocations of the first k tasks, each given its own index, in index order. */
  function Calls<Task>(tasks: seq<Task>, k: nat): (cs: seq<Call<Task>>)
    requires k <= |tasks|
    ensures |cs| == k
    ensures forall i :: 0 <= i < k ==> cs[i] == Call(tasks[i], i)
  {
    if k == 0 then [] else Calls(tasks, k - 1) + [Call(tasks[k - 1], k - 1)]
  }

  /**
   * Whether the slot is full at the check before task j of a run that
   * started with the slot `pending`: a signal pending from before the run
   * is seen at the first check; one delivered at position j (delivery only
   * while not stopped) is seen at the check before task j.
   */
  predicate FullAt(j: nat, pending: bool, stopped: bool, arrivals: set<nat>) {
    (j == 0 && pending) || (!stopped && j in arrivals)
  }

  /** The first check, from position k to n - 1, that finds the slot full, if any. */
  function FirstInterrupt(n: nat, k: nat, pending: bool, stopped: bool, arrivals: set<nat>): (r: Option<nat>)
    ensures r.Some? ==> k <= r.value < n
    decreases n - k
  {
    if n <= k then None
    else if FullAt(k, pending, stopped, arrivals) then Some(k)
    else FirstInterrupt(n, k + 1, pending, stopped, arrivals)
  }

  /** The loop stops at m exactly when m is the first check, from k on, that finds the slot full. */
  lemma {:induction false} FirstInterruptIsFirst(n: nat, k: nat, pending: bool, stopped: bool,
                                                 arrivals: set<nat>, m: nat)
    ensures FirstInterrupt(n, k, pending, stopped, arrivals) == Some(m) <==>
              k <= m < n && FullAt(m, pending, stopped, arrivals) &&
              forall j :: k <= j < m ==> !FullAt(j, pending, stopped, arrivals)
    decreases n - k
  {
    if k < n && !FullAt(k, pending, stopped, arrivals) {
      FirstInterruptIsFirst(n, k + 1, pending, stopped, arrivals, m);
    }
  }

  /** The loop runs to the end exactly when no check from k to n - 1 finds the slot full. */
  lemma {:induction false} NoInterruptIffQuiet(n: nat, k: nat, pending: bool, stopped: bool, arrivals: set<nat>)
    ensures FirstInterrupt(n, k, pending, stopped, arrivals) == None <==>
              forall j :: k <= j < n ==> !FullAt(j, pending, stopped, arrivals)
    decreases n - k
  {
    if k < n && !FullAt(k, pending, stopped, arrivals) {
      NoInterruptIffQuiet(n, k + 1, pending, stopped, arrivals);
    }
  }

  /** An interrupted run never calls task k or any later one: every call it made has a smaller index. */
  lemma CallsBefore<Task>(tasks: seq<Task>, k: nat)
    requires k <= |tasks|
    ensures forall c :: c in Calls(tasks, k) ==> c.index < k
  {
  }

  class Runner<Task> {
    var tasks: seq<Task>
    var pending: bool  // the one-slot interrupt channel holds a signal
    var stopped: bool  // signal.Stop has been called: nothing more is delivered
    ghost var Log: seq<Call<Task>>

    /** New: no tasks, an empty interrupt slot. */
    constructor ()
      ensures tasks == [] && !pending && !stopped && Log == []
    {
      tasks, pending, stopped := [], false, false;
      Log := [];
    }

    /** Add: the given tasks go after the existing ones, in the given order. */
    method Add(more: seq<Task>)
      modifies this
      ensures tasks == old(tasks) + more
      ensures pending == old(pending) && stopped == old(stopped) && Log == old(Log)
    {
      tasks := tasks + more;
    }

    /** Delivery of one interrupt: a non-blocking send into the one-slot channel; a full slot drops it. */
    method Signal()
      modifies this
      ensures pending == (old(pending) || !old(stopped))
      ensures tasks == old(tasks) && stopped == old(stopped) && Log == old(Log)
    {
      if !stopped && !pending {
        pending := true;
      }
    }

    /** gotInterrupt: a pending signal is consumed and delivery stopped; otherwise nothing changes. */
    method GotInterrupt() returns (got: bool)
      modifies this
      ensures got == old(pending)
      ensures !pending && stopped == (old(stopped) || got)
      ensures tasks == old(tasks) && Log == old(Log)
    {
      if pending {
        pending := false;
        stopped := true;
        return true;
      }
      return false;
    }

    /**
     * run: for each task in index order, check the interrupt slot and either
     * give up with ErrInterrupt or call the task with its index.
     * `arrivals` is the set of check positions at which a signal is delivered.
     */
    method Run(arrivals: set<nat>) returns (res: Outcome)
      modifies this
      ensures tasks == old(tasks)
      ensures match FirstInterrupt(|tasks|, 0, old(pending), old(stopped), arrivals)
              case None =>
                res == Completed && Log == old(Log) + Calls(tasks, |tasks|) &&
                pending == (old(pending) && |tasks| == 0) && stopped == old(stopped)
              case Some(k) =>
                res == Failed(ErrInterrupt) && Log == old(Log) + Calls(tasks, k) &&
                !pending && stopped
    {
      var id := 0;
      while id < |tasks|
        invariant id <= |tasks| && tasks == old(tasks) && stopped == old(stopped)
        invariant Log == old(Log) + Calls(tasks, id)
        invariant pending == (id == 0 && old(pending))
        invariant FirstInterrupt(|tasks|, 0, old(pending), old(stopped), arrivals)
               == FirstInterrupt(|tasks|, id, old(pending), old(stopped), arrivals)
      {
        if id in arrivals {
          Signal();
        }
        var got := GotInterrupt();
        if got {
          return Failed(ErrInterrupt);
        }
        Log := Log + [Call(tasks[id], id)];  // task(id)
        id := id + 1;
      }
      return Completed;
    }
  }
}
