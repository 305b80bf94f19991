/** The thread pool, as a step relation over any number of workers and callers. Jobs are numbered in the order in which
    they are pushed. */
module ThreadPool {

  datatype Pc =
    // callers
    | Free                          // not in the pool's code
    | Posting                       // jobqueue_push: job linked, rwmutex held, about to post
    | Locking                       // thpool_wait: about to take thcount_lock
    | ReadingLen                    // thpool_wait: lock held, about to read len
    | ReadingWorking(pushed: nat)   // thpool_wait: len was 0 when `pushed` jobs had been pushed, about to read working
    | Parked                        // thpool_wait: asleep on threads_all_idle
    | Returned(pushed: nat)         // thpool_wait has returned
    // workers
    | Checking                      // bsem_wait: about to test the semaphore
    | Blocked                       // bsem_wait: asleep on the semaphore
    | Woken                         // semaphore taken, about to count itself as working
    | Counted                       // working incremented, about to pull
    | Reposting(job: nat)           // jobqueue_pull: job unlinked, rwmutex held, about to post
    | Running(job: nat)             // executing the job
    | Finishing                     // about to decrement working

  /** `done` are the jobs whose execution has ended; `pushed` counts all jobs ever pushed. */
  datatype State = State(queue: seq<nat>, pushed: nat, sem: bool, working: int, done: set<nat>, pcs: seq<Pc>)

  // ----- Who holds what -----

  /** The thread is inside jobqueue_push or jobqueue_pull with rwmutex held. */
  predicate Linking(pc: Pc) {
    pc.Posting? || pc.Reposting?
  }

  predicate Watching(pc: Pc) {
    pc.ReadingLen? || pc.ReadingWorking?
  }

  predicate LinkAt(s: State, t: int) {
    0 <= t < |s.pcs| && Linking(s.pcs[t])
  }

  predicate WatchAt(s: State, t: int) {
    0 <= t < |s.pcs| && Watching(s.pcs[t])
  }

  ghost predicate QueueFree(s: State) {
    forall t :: !LinkAt(s, t)
  }

  ghost predicate CountFree(s: State) {
    forall t :: !WatchAt(s, t)
  }

  /** The worker is counted in num_threads_working. */
  predicate Busy(pc: Pc) {
    pc.Counted? || pc.Reposting? || pc.Running? || pc.Finishing?
  }

  /** The job a worker has pulled and not finished. */
  predicate Has(pc: Pc, j: nat) {
    (pc.Reposting? || pc.Running?) && pc.job == j
  }

  // ----- Steps -----

  /** bsem_post, and whom it wakes */
  ghost predicate Post(s: State, s': State, t: nat, next: Pc, w: nat)
    requires t < |s.pcs|
  {
    if exists u :: 0 <= u < |s.pcs| && s.pcs[u] == Blocked
    then w < |s.pcs| && s.pcs[w] == Blocked && s' == s.(sem := true, pcs := s.pcs[t := next][w := Checking])
    else s' == s.(sem := true, pcs := s.pcs[t := next])
  }

  /** The last worker to finish signals threads_all_idle, which wakes one waiter. */
  ghost predicate Finish(s: State, s': State, t: nat, w: nat)
    requires t < |s.pcs|
  {
    if s.working == 1 && exists u :: ParkedAt(s, u)
    then ParkedAt(s, w) && s' == s.(working := 0, pcs := s.pcs[t := Checking][w := Locking])
    else s' == s.(working := s.working - 1, pcs := s.pcs[t := Checking])
  }

  predicate ParkedAt(s: State, t: int) {
    0 <= t < |s.pcs| && s.pcs[t] == Parked
  }

  /** jobqueue_push and thpool_wait; a waiter may also wake without a signal. */
  ghost predicate CallerStep(s: State, s': State, t: nat, w: nat)
    requires t < |s.pcs|
  {
    match s.pcs[t]
    case Free =>
      || (QueueFree(s) && s' == s.(queue := s.queue + [s.pushed], pushed := s.pushed + 1, pcs := s.pcs[t := Posting]))
      || s' == s.(pcs := s.pcs[t := Locking])
    case Posting => Post(s, s', t, Free, w)
    case Locking => CountFree(s) && s' == s.(pcs := s.pcs[t := ReadingLen])
    case ReadingLen => s' == s.(pcs := s.pcs[t := if |s.queue| != 0 then Parked else ReadingWorking(s.pushed)])
    case ReadingWorking(n) => s' == s.(pcs := s.pcs[t := if s.working != 0 then Parked else Returned(n)])
    case Parked => s' == s.(pcs := s.pcs[t := Locking])
    case Returned(_) => s' == s.(pcs := s.pcs[t := Free])
    case _ => false
  }

  /** The body of thread_do */
  ghost predicate WorkerStep(s: State, s': State, t: nat, w: nat)
    requires t < |s.pcs|
  {
    match s.pcs[t]
    case Checking => s' == s.(sem := false, pcs := s.pcs[t := if s.sem then Woken else Blocked])
    case Blocked => s' == s.(pcs := s.pcs[t := Checking])
    case Woken => CountFree(s) && s' == s.(working := s.working + 1, pcs := s.pcs[t := Counted])
    case Counted => QueueFree(s) && Pull(s, s', t)
    case Reposting(j) => Post(s, s', t, Running(j), w)
    case Running(j) => s' == s.(done := s.done + {j}, pcs := s.pcs[t := Finishing])
    case Finishing => CountFree(s) && Finish(s, s', t, w)
    case _ => false
  }

  /** jobqueue_pull: nothing, the only job, or the first of several, which is then posted again */
  predicate Pull(s: State, s': State, t: nat)
    requires t < |s.pcs|
  {
    if |s.queue| == 0 then s' == s.(pcs := s.pcs[t := Finishing])
    else if |s.queue| == 1 then s' == s.(queue := [], pcs := s.pcs[t := Running(s.queue[0])])
    else s' == s.(queue := s.queue[1..], pcs := s.pcs[t := Reposting(s.queue[0])])
  }

  ghost predicate Step(s: State, s': State, t: nat, w: nat)
    requires t < |s.pcs|
  {
    CallerStep(s, s', t, w) || WorkerStep(s, s', t, w)
  }

  ghost predicate Next(s: State, s': State) {
    exists t: nat, w: nat :: t < |s.pcs| && Step(s, s', t, w)
  }

  ghost predicate Init(s: State) {
    && s.queue == [] && s.pushed == 0 && !s.sem && s.working == 0 && s.done == {}
    && forall t :: 0 <= t < |s.pcs| ==> s.pcs[t] == Free || s.pcs[t] == Checking
  }

  // ----- Counting workers -----

  function CountBusy(pcs: seq<Pc>): nat {
    if pcs == [] then 0 else (if Busy(pcs[0]) then 1 else 0) + CountBusy(pcs[1..])
  }

  lemma {:induction false} CountMoved(pcs: seq<Pc>, t: nat, pc: Pc)
    requires t < |pcs|
    ensures CountBusy(pcs[t := pc]) == CountBusy(pcs) - (if Busy(pcs[t]) then 1 else 0) + (if Busy(pc) then 1 else 0)
  {
    if t > 0 {
      CountMoved(pcs[1..], t - 1, pc);
      assert pcs[t := pc][1..] == pcs[1..][t - 1 := pc];
    } else {
      assert pcs[t := pc][1..] == pcs[1..];
    }
  }

  lemma {:induction false} CountZero(pcs: seq<Pc>, t: nat)
    requires t < |pcs| && CountBusy(pcs) == 0
    ensures !Busy(pcs[t])
  {
    if t > 0 { CountZero(pcs[1..], t - 1); }
  }

  // ----- Invariant -----

  /** Jobs taken off the queue so far. */
  function Taken(s: State): int {
    s.pushed - |s.queue|
  }

  /** Worker `t` has job `j`. */
  predicate Holds(s: State, t: int, j: nat) {
    0 <= t < |s.pcs| && Has(s.pcs[t], j)
  }

  /** Jobs leave the queue in the order they were pushed, and each is run once: it is on the queue, or with exactly one
      worker, or done. */
  ghost predicate Fifo(s: State) {
    && |s.queue| <= s.pushed
    && (forall i :: 0 <= i < |s.queue| ==> s.queue[i] == Taken(s) + i)
    && (forall j :: j in s.done ==> 0 <= j < Taken(s))
    && (forall t, j: nat :: Holds(s, t, j) ==> j < Taken(s) && j !in s.done)
    && (forall t, u, j: nat :: Holds(s, t, j) && Holds(s, u, j) ==> t == u)
    && (forall j: nat :: j < Taken(s) && j !in s.done ==> exists t :: Holds(s, t, j))
  }

  /** Somebody will get to a job that waits: the semaphore is up, a worker is past it, or one is about to post it. */
  ghost predicate Served(s: State) {
    s.queue != [] ==> s.sem || exists t :: Coming(s, t)
  }

  predicate Coming(s: State, t: int) {
    0 <= t < |s.pcs| && (s.pcs[t].Woken? || s.pcs[t].Counted? || Linking(s.pcs[t]))
  }

  /** While the semaphore is up and a worker sleeps on it, a worker is about to test it. */
  ghost predicate Awake(s: State) {
    s.sem && (exists t :: 0 <= t < |s.pcs| && s.pcs[t] == Blocked) ==>
      exists t :: 0 <= t < |s.pcs| && s.pcs[t] == Checking
  }

  /** What a waiter has seen. */
  ghost predicate Seen(s: State) {
    && (forall t :: 0 <= t < |s.pcs| && s.pcs[t].ReadingWorking? ==> s.pcs[t].pushed <= Taken(s))
    && (forall t :: 0 <= t < |s.pcs| && s.pcs[t].Returned? ==> AllDone(s, s.pcs[t].pushed))
  }

  ghost predicate AllDone(s: State, n: nat) {
    forall j: nat :: j < n ==> j in s.done
  }

  /** The mutexes exclude. */
  ghost predicate Locks(s: State) {
    && (forall t, u :: LinkAt(s, t) && LinkAt(s, u) ==> t == u)
    && (forall t, u :: WatchAt(s, t) && WatchAt(s, u) ==> t == u)
  }

  ghost predicate Inv(s: State) {
    Fifo(s) && Served(s) && Awake(s) && Seen(s) && Locks(s) && s.working == CountBusy(s.pcs)
  }

  // ----- Every step keeps it -----

  /** Threads other than the one that steps and the one it wakes stay where they are. */
  lemma {:induction false} Others(s: State, s': State, t: nat, w: nat)
    requires t < |s.pcs| && Step(s, s', t, w)
    ensures |s'.pcs| == |s.pcs|
    ensures forall u :: 0 <= u < |s.pcs| && u != t ==>
      || s'.pcs[u] == s.pcs[u]
      || (u == w && s.pcs[u] == Blocked && s'.pcs[u] == Checking && s'.sem)
      || (u == w && s.pcs[u] == Parked && s'.pcs[u] == Locking)
  {
  }

  lemma {:induction false} QuietFifo(s: State, s': State)
    requires Fifo(s) && s'.queue == s.queue && s'.pushed == s.pushed && s'.done == s.done
    requires forall u, j: nat :: Holds(s', u, j) <==> Holds(s, u, j)
    ensures Fifo(s')
  {
    forall j: nat | j < Taken(s') && j !in s'.done ensures exists t :: Holds(s', t, j) {
      var t :| Holds(s, t, j);
      assert Holds(s', t, j);
    }
  }

  lemma {:induction false} PushFifo(s: State, s': State, t: nat)
    requires Fifo(s) && t < |s.pcs| && s.pcs[t] == Free
    requires s' == s.(queue := s.queue + [s.pushed], pushed := s.pushed + 1, pcs := s.pcs[t := Posting])
    ensures Fifo(s')
  {
    forall u, j: nat ensures Holds(s', u, j) <==> Holds(s, u, j) { }
    forall j: nat | j < Taken(s') && j !in s'.done ensures exists u :: Holds(s', u, j) {
      var u :| Holds(s, u, j);
      assert Holds(s', u, j);
    }
  }

  lemma {:induction false} PullFifo(s: State, s': State, t: nat)
    requires Fifo(s) && t < |s.pcs| && s.pcs[t] == Counted && Pull(s, s', t)
    ensures Fifo(s')
  {
    if |s.queue| == 0 {
      QuietFifo(s, s');
    } else {
      var first := s.queue[0];
      forall u, j: nat ensures Holds(s', u, j) <==> Holds(s, u, j) || (u == t && j == first) { }
      forall j: nat | j < Taken(s') && j !in s'.done ensures exists u :: Holds(s', u, j) {
        if j < Taken(s) {
          var u :| Holds(s, u, j);
          assert Holds(s', u, j);
        } else {
          assert Holds(s', t, j);
        }
      }
    }
  }

  lemma {:induction false} RunFifo(s: State, s': State, t: nat)
    requires Fifo(s) && t < |s.pcs| && s.pcs[t].Running?
    requires s' == s.(done := s.done + {s.pcs[t].job}, pcs := s.pcs[t := Finishing])
    ensures Fifo(s')
  {
    var job := s.pcs[t].job;
    assert Holds(s, t, job);
    forall u, j: nat ensures Holds(s', u, j) <==> Holds(s, u, j) && j != job { }
    forall j: nat | j < Taken(s') && j !in s'.done ensures exists u :: Holds(s', u, j) {
      var u :| Holds(s, u, j);
      assert Holds(s', u, j);
    }
  }

  lemma {:induction false} FifoKept(s: State, s': State, t: nat, w: nat)
    requires Fifo(s) && t < |s.pcs| && Step(s, s', t, w)
    ensures Fifo(s')
  {
    hide Fifo;
    var pc := s.pcs[t];
    if pc == Counted {
      PullFifo(s, s', t);
    } else if pc.Running? {
      RunFifo(s, s', t);
    } else if pc == Free && s'.pushed != s.pushed {
      PushFifo(s, s', t);
    } else {
      Others(s, s', t, w);
      forall u, j: nat ensures Holds(s', u, j) <==> Holds(s, u, j) { }
      QuietFifo(s, s');
    }
  }

  lemma {:induction false} ServedKept(s: State, s': State, t: nat, w: nat)
    requires Served(s) && t < |s.pcs| && Step(s, s', t, w)
    ensures Served(s')
  {
    Others(s, s', t, w);
    if s'.queue != [] && !s'.sem {
      if u :| Coming(s, u) && u != t {
        assert Coming(s', u);
      } else {
        assert Coming(s', t);
      }
    }
  }

  lemma {:induction false} AwakeKept(s: State, s': State, t: nat, w: nat)
    requires Awake(s) && t < |s.pcs| && Step(s, s', t, w)
    ensures Awake(s')
  {
    Others(s, s', t, w);
    if s'.sem && exists u :: 0 <= u < |s'.pcs| && s'.pcs[u] == Blocked {
      var u :| 0 <= u < |s'.pcs| && s'.pcs[u] == Blocked;
      assert s.pcs[u] == Blocked || u == t;
      if Linking(s.pcs[t]) {
        assert s'.pcs[w] == Checking;
      } else if s.pcs[t] == Blocked {
        assert s'.pcs[t] == Checking;
      } else {
        assert s.sem;
        var v :| 0 <= v < |s.pcs| && s.pcs[v] == Checking;
        assert s'.pcs[v] == Checking;
      }
    }
  }

  lemma {:induction false} LocksKept(s: State, s': State, t: nat, w: nat)
    requires Locks(s) && t < |s.pcs| && Step(s, s', t, w)
    ensures Locks(s')
  {
    Others(s, s', t, w);
    Acquires(s, s', t, w);
    forall u ensures LinkAt(s', u) && u != t ==> LinkAt(s, u) { }
    forall u ensures WatchAt(s', u) && u != t ==> WatchAt(s, u) { }
  }

  /** A mutex is taken only while it is free. */
  lemma {:induction false} Acquires(s: State, s': State, t: nat, w: nat)
    requires t < |s.pcs| && Step(s, s', t, w)
    ensures LinkAt(s', t) ==> LinkAt(s, t) || QueueFree(s)
    ensures WatchAt(s', t) ==> WatchAt(s, t) || CountFree(s)
  {
    hide QueueFree, CountFree;
  }

  lemma {:induction false} WorkingKept(s: State, s': State, t: nat, w: nat)
    requires s.working == CountBusy(s.pcs) && t < |s.pcs| && Step(s, s', t, w)
    ensures s'.working == CountBusy(s'.pcs)
  {
    hide CountBusy;
    Others(s, s', t, w);
    CountMoved(s.pcs, t, s'.pcs[t]);
    var pcs := s.pcs[t := s'.pcs[t]];
    if w < |s.pcs| && w != t && s'.pcs[w] != s.pcs[w] {
      CountMoved(pcs, w, s'.pcs[w]);
      assert s'.pcs == pcs[w := s'.pcs[w]];
    } else {
      assert s'.pcs == pcs;
    }
  }

  /** Nobody counted means nobody has a job, so all jobs taken off the queue are done. */
  lemma {:induction false} IdleDone(s: State, n: nat)
    requires Fifo(s) && s.working == CountBusy(s.pcs) == 0 && n <= Taken(s)
    ensures AllDone(s, n)
  {
    forall j: nat | j < n ensures j in s.done {
      if j !in s.done {
        var t :| Holds(s, t, j);
        CountZero(s.pcs, t);
      }
    }
  }

  lemma {:induction false} SeenKept(s: State, s': State, t: nat, w: nat)
    requires Inv(s) && t < |s.pcs| && Step(s, s', t, w)
    ensures Seen(s')
  {
    hide CountBusy, Served, Awake, Locks, CallerStep, WorkerStep, Fifo;
    Others(s, s', t, w);
    Grows(s, s', t, w);
    Observes(s, s', t, w);
    if s.pcs[t].ReadingWorking? && s.working == 0 {
      IdleDone(s, s.pcs[t].pushed);
    }
    forall u | 0 <= u < |s'.pcs| && s'.pcs[u].Returned? ensures AllDone(s', s'.pcs[u].pushed) {
      if u != t { assert AllDone(s, s.pcs[u].pushed); }
    }
  }

  lemma {:induction false} Grows(s: State, s': State, t: nat, w: nat)
    requires t < |s.pcs| && Step(s, s', t, w)
    ensures Taken(s') >= Taken(s) && s.done <= s'.done
  {
  }

  /** What the two reads of thpool_wait tell. */
  lemma {:induction false} Observes(s: State, s': State, t: nat, w: nat)
    requires t < |s.pcs| && Step(s, s', t, w)
    ensures t < |s'.pcs|
    ensures s'.pcs[t].ReadingWorking? ==> s.queue == [] && s'.pcs[t].pushed == s.pushed
    ensures s'.pcs[t].Returned? ==> s.pcs[t] == ReadingWorking(s'.pcs[t].pushed) && s.working == 0
  {
  }

  lemma {:induction false} Keeps(s: State, s': State)
    requires Inv(s) && Next(s, s')
    ensures Inv(s') && |s'.pcs| == |s.pcs|
  {
    hide Fifo, Served, Awake, Seen, Locks, CountBusy, CallerStep, WorkerStep;
    var t: nat, w: nat :| t < |s.pcs| && Step(s, s', t, w);
    Others(s, s', t, w);
    FifoKept(s, s', t, w);
    ServedKept(s, s', t, w);
    AwakeKept(s, s', t, w);
    SeenKept(s, s', t, w);
    LocksKept(s, s', t, w);
    WorkingKept(s, s', t, w);
  }

  lemma {:induction false} Starts(s: State)
    requires Init(s)
    ensures Inv(s)
  {
    forall t, j: nat ensures !Holds(s, t, j) { }
    NoneBusy(s.pcs);
  }

  lemma {:induction false} NoneBusy(pcs: seq<Pc>)
    requires forall t :: 0 <= t < |pcs| ==> !Busy(pcs[t])
    ensures CountBusy(pcs) == 0
  {
    if pcs != [] { NoneBusy(pcs[1..]); }
  }

  // ----- Safety over whole runs -----

  ghost predicate IsRun(run: seq<State>) {
    run != [] && Init(run[0]) && forall i :: 0 <= i < |run| - 1 ==> Next(run[i], run[i + 1])
  }

  lemma {:induction false} RunInv(run: seq<State>, i: nat)
    requires IsRun(run) && i < |run|
    ensures Inv(run[i])
  {
    if i == 0 {
      Starts(run[0]);
    } else {
      RunInv(run, i - 1);
      Keeps(run[i - 1], run[i]);
    }
  }

  /** First in, first out, and no job is run twice or lost: at any time the queue holds the most recently pushed jobs in
      order, and each job before them is done or with one worker. */
  lemma {:induction false} JobsInOrder(run: seq<State>, i: nat, j: nat)
    requires IsRun(run) && i < |run| && j < run[i].pushed
    ensures var s := run[i];
      if j >= Taken(s) then
        |s.queue| <= s.pushed && s.queue[j - Taken(s)] == j && j !in s.done && forall t :: !Holds(s, t, j)
      else if j in s.done then forall t :: !Holds(s, t, j)
      else exists t :: Holds(s, t, j) && forall u :: Holds(s, u, j) ==> u == t
  {
    hide CountBusy;
    RunInv(run, i);
  }

  /** A job on the queue is never forgotten. */
  lemma {:induction false} QueueServed(run: seq<State>, i: nat)
    requires IsRun(run) && i < |run| && run[i].queue != []
    ensures run[i].sem || exists t :: Coming(run[i], t)
  {
    RunInv(run, i);
  }

  /** When thpool_wait returns, every job pushed before it last looked at the queue has finished. */
  lemma {:induction false} WaitIsComplete(run: seq<State>, i: nat, t: nat)
    requires IsRun(run) && i < |run| && t < |run[i].pcs| && run[i].pcs[t].Returned?
    ensures forall j: nat :: j < run[i].pcs[t].pushed ==> j in run[i].done
  {
    RunInv(run, i);
  }

  /** The job a worker starts is the oldest one not yet started. */
  lemma {:induction false} StartsOldest(run: seq<State>, i: nat, t: nat, j: nat)
    requires IsRun(run) && i + 1 < |run| && Holds(run[i + 1], t, j) && !Holds(run[i], t, j)
    ensures j == Taken(run[i]) && Taken(run[i + 1]) == j + 1
  {
    hide Fifo, Served, Awake, Seen, Locks, CountBusy, CallerStep, WorkerStep;
    RunInv(run, i);
    var s, s' := run[i], run[i + 1];
    assert Next(s, s');
    var x: nat, w: nat :| x < |s.pcs| && Step(s, s', x, w);
    Others(s, s', x, w);
    PullsOldest(s, s', x, w, j);
  }

  lemma {:induction false} PullsOldest(s: State, s': State, t: nat, w: nat, j: nat)
    requires Fifo(s) && t < |s.pcs| && Step(s, s', t, w) && Holds(s', t, j) && !Holds(s, t, j)
    ensures j == Taken(s) && Taken(s') == j + 1
  {
    assert s.pcs[t] == Counted;
  }

  // ----- Waiters that are left asleep -----

  /** Nothing to do and nobody at work: what thpool_wait waits for. */
  predicate Idle(s: State) {
    s.queue == [] && s.working == 0
  }

  /** While the pool stays idle no waiter goes to sleep, and each one asleep was so before. */
  lemma {:induction false} NoneParks(s: State, s': State, t: nat, w: nat, u: int)
    requires Inv(s) && t < |s.pcs| && Step(s, s', t, w) && Idle(s') && ParkedAt(s', u)
    ensures ParkedAt(s, u)
  {
    hide Fifo, Served, Awake, Seen, Locks, CountBusy;
    Others(s, s', t, w);
  }

  /** The pool becomes idle only when the last worker finishes. */
  lemma {:induction false} BecomesIdle(s: State, s': State, t: nat, w: nat)
    requires Inv(s) && t < |s.pcs| && Step(s, s', t, w) && !Idle(s) && Idle(s')
    ensures s.pcs[t] == Finishing && Finish(s, s', t, w) && s.working == 1
  {
    hide Fifo, Served, Awake, Seen, Locks;
    if s.pcs[t] == Counted { CountSome(s.pcs, t); }
  }

  lemma {:induction false} CountSome(pcs: seq<Pc>, t: nat)
    requires t < |pcs| && Busy(pcs[t])
    ensures CountBusy(pcs) > 0
  {
    if CountBusy(pcs) == 0 { CountZero(pcs, t); }
  }

  /** When the pool becomes idle the signal wakes one waiter: one is left asleep exactly when two were. */
  lemma {:induction false} LeftAsleep(s: State, s': State, t: nat, w: nat)
    requires Inv(s) && t < |s.pcs| && Step(s, s', t, w) && !Idle(s) && Idle(s')
    ensures (exists u :: ParkedAt(s', u)) <==> exists u, v :: u != v && ParkedAt(s, u) && ParkedAt(s, v)
    ensures forall u :: ParkedAt(s', u) ==> u != w && ParkedAt(s, w) && !ParkedAt(s', w)
  {
    hide Inv, Step;
    BecomesIdle(s, s', t, w);
    if u, v :| u != v && ParkedAt(s, u) && ParkedAt(s, v) {
      var x := if u == w then v else u;
      assert ParkedAt(s', x);
    }
    if u :| ParkedAt(s', u) {
      assert ParkedAt(s, u) && ParkedAt(s, w);
    }
  }

  /** In an idle pool nobody wakes a waiter. */
  lemma {:induction false} StaysAsleep(s: State, s': State, t: nat, w: nat, u: nat)
    requires Inv(s) && t < |s.pcs| && Step(s, s', t, w) && Idle(s) && ParkedAt(s, u) && t != u
    ensures ParkedAt(s', u)
  {
    hide Fifo, Served, Awake, Seen, Locks, CountBusy;
    Others(s, s', t, w);
  }

  /** In every run, a waiter asleep on an idle pool has slept since the pool became idle, and the signal went to
      another one. */
  lemma {:induction false} SignalWentElsewhere(run: seq<State>, i: nat, u: int) returns (k: nat, v: int)
    requires IsRun(run) && i < |run| && Idle(run[i]) && ParkedAt(run[i], u)
    ensures k < i && !Idle(run[k]) && (forall j :: k < j <= i ==> Idle(run[j])) && forall j :: k <= j <= i ==>
      ParkedAt(run[j], u)
    ensures v != u && ParkedAt(run[k], v) && !ParkedAt(run[k + 1], v)
  {
    hide Inv, Step, Init;
    if i == 0 { NobodyParked(run[0], u); }
    var s, s' := run[i - 1], run[i];
    RunInv(run, i - 1);
    assert Next(s, s');
    var t: nat, w: nat :| t < |s.pcs| && Step(s, s', t, w);
    NoneParks(s, s', t, w, u);
    if Idle(s) {
      k, v := SignalWentElsewhere(run, i - 1, u);
    } else {
      LeftAsleep(s, s', t, w);
      k, v := i - 1, w;
    }
  }

  lemma {:induction false} NobodyParked(s: State, u: int)
    requires Init(s)
    ensures !ParkedAt(s, u)
  {
  }

  /** So with never more than one waiter asleep, none sleeps on an idle pool. */
  lemma {:induction false} OneWaiterWakes(run: seq<State>, i: nat, u: int)
    requires IsRun(run) && i < |run| && Idle(run[i])
    requires forall j, x, y :: 0 <= j < |run| && ParkedAt(run[j], x) && ParkedAt(run[j], y) ==> x == y
    ensures !ParkedAt(run[i], u)
  {
    if ParkedAt(run[i], u) {
      var k, v := SignalWentElsewhere(run, i, u);
    }
  }

  lemma {:induction false} Extend(run: seq<State>, s: State, t: nat, w: nat) returns (run': seq<State>)
    requires IsRun(run) && run != [] && t < |run[|run| - 1].pcs| && Step(run[|run| - 1], s, t, w)
    ensures run' == run + [s] && IsRun(run')
  {
    run' := run + [s];
    assert Next(run[|run| - 1], s);
  }

  /** Thread `t` has seen that a job is being executed and has gone to sleep. */
  lemma {:induction false} GoesToSleep(run: seq<State>, t: nat) returns (run': seq<State>)
    requires IsRun(run) && run != [] && t < |run[|run| - 1].pcs| && run[|run| - 1].pcs[t] == Free
    requires CountFree(run[|run| - 1])
    requires run[|run| - 1].queue == [] && run[|run| - 1].working != 0
    ensures IsRun(run') && run' != [] && run'[|run'| - 1] == run[|run| - 1].(pcs := run[|run| - 1].pcs[t := Parked])
  {
    var s := run[|run| - 1];
    var s1 := s.(pcs := s.pcs[t := Locking]);
    run' := Extend(run, s1, t, 0);
    forall u ensures !WatchAt(s1, u) {
      assert !WatchAt(s, u);
    }
    assert s1.pcs[t := ReadingLen] == s.pcs[t := ReadingLen];
    run' := Extend(run', s.(pcs := s.pcs[t := ReadingLen]), t, 0);
    run' := Extend(run', s.(pcs := s.pcs[t := ReadingWorking(s.pushed)]), t, 0);
    run' := Extend(run', s.(pcs := s.pcs[t := Parked]), t, 0);
  }

  /** One worker and one job. */
  lemma {:induction false} JobPosted() returns (run: seq<State>)
    ensures IsRun(run) && run != [] && run[|run| - 1] == State([0], 1, true, 0, {}, [Checking, Free, Free])
  {
    run := [State([], 0, false, 0, {}, [Checking, Free, Free])];
    run := Extend(run, State([0], 1, false, 0, {}, [Checking, Posting, Free]), 1, 0);
    run := Extend(run, State([0], 1, true, 0, {}, [Checking, Free, Free]), 1, 0);
  }

  lemma {:induction false} JobRunning() returns (run: seq<State>)
    ensures IsRun(run) && run != [] && run[|run| - 1] == State([], 1, false, 1, {}, [Running(0), Free, Free])
  {
    hide IsRun;
    run := JobPosted();
    run := Extend(run, State([0], 1, false, 0, {}, [Woken, Free, Free]), 0, 0);
    run := Extend(run, State([0], 1, false, 1, {}, [Counted, Free, Free]), 0, 0);
    run := Extend(run, State([], 1, false, 1, {}, [Running(0), Free, Free]), 0, 0);
  }

  lemma {:induction false} OneWoken() returns (run: seq<State>)
    ensures IsRun(run) && run != [] && run[|run| - 1] == State([], 1, false, 0, {0}, [Checking, Locking, Parked])
  {
    hide IsRun;
    run := JobRunning();
    run := GoesToSleep(run, 1);
    run := GoesToSleep(run, 2);
    run := Extend(run, State([], 1, false, 1, {0}, [Finishing, Parked, Parked]), 0, 0);
    assert ParkedAt(run[|run| - 1], 1);
    run := Extend(run, State([], 1, false, 0, {0}, [Checking, Locking, Parked]), 0, 1);
  }

  /** Two waiters: the first returns, and the second sleeps on although all is done and the worker sleeps. */
  lemma {:induction false} SecondSleepsOn() returns (run: seq<State>)
    ensures IsRun(run) && run != [] && run[|run| - 1] == State([], 1, false, 0, {0}, [Blocked, Returned(1), Parked])
  {
    hide IsRun;
    run := OneWoken();
    run := Extend(run, State([], 1, false, 0, {0}, [Blocked, Locking, Parked]), 0, 0);
    run := Extend(run, State([], 1, false, 0, {0}, [Blocked, ReadingLen, Parked]), 1, 0);
    run := Extend(run, State([], 1, false, 0, {0}, [Blocked, ReadingWorking(1), Parked]), 1, 0);
    run := Extend(run, State([], 1, false, 0, {0}, [Blocked, Returned(1), Parked]), 1, 0);
  }

  // ----- A waiting job can always be taken -----

  /** The thread is a worker. */
  predicate Worker(pc: Pc) {
    pc.Checking? || pc.Blocked? || pc.Woken? || Busy(pc)
  }

  ghost predicate HasWorker(s: State) {
    exists t :: 0 <= t < |s.pcs| && Worker(s.pcs[t])
  }

  ghost predicate IsPath(path: seq<State>) {
    path != [] && forall i :: 0 <= i < |path| - 1 ==> Next(path[i], path[i + 1])
  }

  /** `path` leads from `s` to `s'` without touching the queue, and all is well there. */
  ghost predicate Leads(path: seq<State>, s: State, s': State) {
    IsPath(path) && path[0] == s && path[|path| - 1] == s' && Inv(s') && HasWorker(s') && s'.queue == s.queue
  }

  lemma {:induction false} WorkersStay(s: State, s': State, t: nat, w: nat)
    requires t < |s.pcs| && Step(s, s', t, w) && HasWorker(s)
    ensures HasWorker(s')
  {
    hide QueueFree, CountFree;
    Others(s, s', t, w);
    var u :| 0 <= u < |s.pcs| && Worker(s.pcs[u]);
    assert Worker(s'.pcs[u]);
  }

  lemma {:induction false} StepNext(s: State, s': State, t: nat, w: nat)
    requires t < |s.pcs| && Step(s, s', t, w)
    ensures Next(s, s')
  {
  }

  lemma {:induction false} OnePoint(s: State)
    requires Inv(s) && HasWorker(s)
    ensures Leads([s], s, s)
  {
  }

  lemma {:induction false} Goes(path: seq<State>, s: State, s1: State, s2: State, t: nat, w: nat)
    requires Leads(path, s, s1) && t < |s1.pcs| && Step(s1, s2, t, w) && s2.queue == s1.queue
    ensures Leads(path + [s2], s, s2)
  {
    hide Inv, Step, HasWorker;
    StepNext(s1, s2, t, w);
    Keeps(s1, s2);
    WorkersStay(s1, s2, t, w);
    var path' := path + [s2];
    forall i | 0 <= i < |path'| - 1 ensures Next(path'[i], path'[i + 1]) {
      if i < |path| - 1 { assert Next(path[i], path[i + 1]); }
    }
  }

  /** A caller of thpool_wait that holds thcount_lock gives it up. */
  lemma {:induction false} CountReleased(path: seq<State>, s: State, s1: State) returns (path': seq<State>, s2: State)
    requires Leads(path, s, s1)
    ensures Leads(path', s, s2) && CountFree(s2)
  {
    path', s2 := path, s1;
    if t :| WatchAt(s1, t) {
      if s1.pcs[t].ReadingLen? {
        path', s2 := LenRead(path, s, s1, t);
      }
      if WatchAt(s2, t) {
        var s3 := s2.(pcs := s2.pcs[t := if s2.working != 0 then Parked else Returned(s2.pcs[t].pushed)]);
        Goes(path', s, s2, s3, t, 0);
        OnlyWatcher(s2, s3, t);
        path', s2 := path' + [s3], s3;
      } else {
        OnlyWatcher(s1, s2, t);
      }
    }
  }

  lemma {:induction false} LenRead(path: seq<State>, s: State, s1: State, t: nat) returns (path': seq<State>, s2: State)
    requires Leads(path, s, s1) && t < |s1.pcs| && s1.pcs[t].ReadingLen?
    ensures Leads(path', s, s2) && |s2.pcs| == |s1.pcs| && s2.pcs == s1.pcs[t := s2.pcs[t]]
    ensures s2.pcs[t].Parked? || s2.pcs[t].ReadingWorking?
  {
    hide Inv;
    s2 := s1.(pcs := s1.pcs[t := if |s1.queue| != 0 then Parked else ReadingWorking(s1.pushed)]);
    Goes(path, s, s1, s2, t, 0);
    path' := path + [s2];
  }

  lemma {:induction false} OnlyWatcher(s: State, s': State, t: nat)
    requires Locks(s) && WatchAt(s, t) && |s'.pcs| == |s.pcs| && s'.pcs == s.pcs[t := s'.pcs[t]] && !WatchAt(s', t)
    ensures CountFree(s')
  {
    forall u ensures !WatchAt(s', u) {
      assert u != t && WatchAt(s', u) ==> WatchAt(s, u);
    }
  }

  /** A thread that holds rwmutex posts and gives it up. */
  lemma {:induction false} QueueReleased(path: seq<State>, s: State, s1: State) returns (path': seq<State>, s2: State)
    requires Leads(path, s, s1) && CountFree(s1)
    ensures Leads(path', s, s2) && CountFree(s2) && QueueFree(s2)
  {
    hide Inv, CountFree, QueueFree;
    path', s2 := path, s1;
    if t :| LinkAt(s1, t) {
      var w;
      w, s2 := Posted(s1, t);
      Goes(path, s, s1, s2, t, w);
      LinksDone(s1, s2, t, w);
      path' := path + [s2];
    } else {
      NoLinks(s1);
    }
  }

  lemma {:induction false} NoLinks(s: State)
    requires forall t :: !LinkAt(s, t)
    ensures QueueFree(s)
  {
  }

  lemma {:induction false} Posted(s: State, t: nat) returns (w: nat, s': State)
    requires LinkAt(s, t)
    ensures Step(s, s', t, w) && s'.queue == s.queue && |s'.pcs| == |s.pcs| && !LinkAt(s', t) && !WatchAt(s', t)
  {
    var next := if s.pcs[t].Posting? then Free else Running(s.pcs[t].job);
    w := 0;
    s' := s.(sem := true, pcs := s.pcs[t := next]);
    if u :| 0 <= u < |s.pcs| && s.pcs[u] == Blocked {
      w := u;
      s' := s.(sem := true, pcs := s.pcs[t := next][w := Checking]);
    }
    assert Post(s, s', t, next, w);
  }

  lemma {:induction false} LinksDone(s: State, s': State, t: nat, w: nat)
    requires Inv(s) && CountFree(s) && LinkAt(s, t) && Step(s, s', t, w) && !LinkAt(s', t) && !WatchAt(s', t)
    ensures CountFree(s') && QueueFree(s')
  {
    hide Step, Fifo, Served, Awake, Seen, CountBusy;
    Others(s, s', t, w);
    forall u ensures !LinkAt(s', u) && !WatchAt(s', u) {
      assert u != t && LinkAt(s', u) ==> LinkAt(s, u);
      assert u != t && WatchAt(s', u) ==> WatchAt(s, u);
    }
  }

  /** A worker that is past the semaphore takes the oldest job. */
  lemma {:induction false} TakenBy(path: seq<State>, s: State, s1: State, t: nat) returns (path': seq<State>)
    requires Leads(path, s, s1) && CountFree(s1) && QueueFree(s1) && s1.queue != []
    requires t < |s1.pcs| && (s1.pcs[t].Woken? || s1.pcs[t].Counted?)
    ensures Takes(path', s)
  {
    hide Inv;
    path' := path;
    var s2 := s1;
    if s1.pcs[t].Woken? {
      s2 := s1.(working := s1.working + 1, pcs := s1.pcs[t := Counted]);
      Goes(path, s, s1, s2, t, 0);
      path' := path + [s2];
      forall u ensures !LinkAt(s2, u) { assert !LinkAt(s1, u); }
    }
    var job := s2.queue[0];
    var s3 := if |s2.queue| == 1 then s2.(queue := [], pcs := s2.pcs[t := Running(job)])
              else s2.(queue := s2.queue[1..], pcs := s2.pcs[t := Reposting(job)]);
    assert Pull(s2, s3, t);
    StepNext(s2, s3, t, 0);
    assert Holds(s3, t, job);
    TakesNext(path', s, s2, s3, t);
    path' := path' + [s3];
  }

  /** `path` leads from `s` to a state where a worker has the job that was the oldest. */
  ghost predicate Takes(path: seq<State>, s: State) {
    && IsPath(path) && path[0] == s && s.queue != [] && path[|path| - 1].queue == s.queue[1..]
    && WithSomeone(path[|path| - 1], s.queue[0])
  }

  ghost predicate WithSomeone(s: State, j: nat) {
    exists t :: Holds(s, t, j)
  }

  lemma {:induction false} TakesNext(path: seq<State>, s: State, s2: State, s3: State, t: nat)
    requires Leads(path, s, s2) && Next(s2, s3) && s2.queue != [] && s3.queue == s2.queue[1..]
    requires Holds(s3, t, s2.queue[0])
    ensures Takes(path + [s3], s)
  {
    hide Inv, Next, HasWorker;
    var path' := path + [s3];
    forall i | 0 <= i < |path'| - 1 ensures Next(path'[i], path'[i + 1]) {
      if i < |path| - 1 { assert Next(path[i], path[i + 1]); }
    }
  }

  /** With the semaphore up, a worker that is about to test it goes past it. */
  lemma {:induction false} CheckerTakes(path: seq<State>, s: State, s1: State, t: nat) returns (path': seq<State>)
    requires Leads(path, s, s1) && CountFree(s1) && QueueFree(s1) && s1.queue != [] && s1.sem
    requires t < |s1.pcs| && s1.pcs[t].Checking?
    ensures Takes(path', s)
  {
    hide Inv;
    var s2 := s1.(sem := false, pcs := s1.pcs[t := Woken]);
    Goes(path, s, s1, s2, t, 0);
    forall u ensures !LinkAt(s2, u) { assert !LinkAt(s1, u); }
    forall u ensures !WatchAt(s2, u) { assert !WatchAt(s1, u); }
    path' := TakenBy(path + [s2], s, s2, t);
  }

  /** A worker that executes a job comes back to the semaphore. */
  lemma {:induction false} BackToCheck(path: seq<State>, s: State, s1: State, t: nat)
    returns (path': seq<State>, s2: State)
    requires Leads(path, s, s1) && CountFree(s1) && QueueFree(s1) && s1.sem
    requires t < |s1.pcs| && (s1.pcs[t].Running? || s1.pcs[t].Finishing?)
    ensures Leads(path', s, s2) && CountFree(s2) && QueueFree(s2) && s2.sem && t < |s2.pcs| && s2.pcs[t].Checking?
  {
    hide Inv;
    path', s2 := path, s1;
    if s1.pcs[t].Running? {
      s2 := s1.(done := s1.done + {s1.pcs[t].job}, pcs := s1.pcs[t := Finishing]);
      Goes(path, s, s1, s2, t, 0);
      path' := path + [s2];
      forall u ensures !LinkAt(s2, u) { assert !LinkAt(s1, u); }
      forall u ensures !WatchAt(s2, u) { assert !WatchAt(s1, u); }
    }
    var w, s3 := Finished(s2, t);
    Goes(path', s, s2, s3, t, w);
    Others(s2, s3, t, w);
    forall u ensures !LinkAt(s3, u) && !WatchAt(s3, u) { assert !LinkAt(s2, u) && !WatchAt(s2, u); }
    path', s2 := path' + [s3], s3;
  }

  lemma {:induction false} Finished(s: State, t: nat) returns (w: nat, s': State)
    requires t < |s.pcs| && s.pcs[t].Finishing? && CountFree(s)
    ensures Step(s, s', t, w) && s'.queue == s.queue && s'.sem == s.sem && |s'.pcs| == |s.pcs| && s'.pcs[t].Checking?
  {
    w := 0;
    s' := s.(working := s.working - 1, pcs := s.pcs[t := Checking]);
    if s.working == 1 {
      if u :| ParkedAt(s, u) {
        w := u;
        s' := s.(working := 0, pcs := s.pcs[t := Checking][w := Locking]);
      }
    }
    assert Finish(s, s', t, w);
  }

  /** From every state that a run can reach with a job waiting and at least one worker, some continuation takes the
      oldest job. */
  lemma {:induction false} CanTakeOldest(s: State) returns (path: seq<State>)
    requires Inv(s) && s.queue != [] && HasWorker(s)
    ensures Takes(path, s)
  {
    hide CountFree, QueueFree, IsPath, CountBusy, Fifo, Seen, Locks;
    OnePoint(s);
    var s1, s2;
    path, s1 := CountReleased([s], s, s);
    path, s2 := QueueReleased(path, s, s1);
    if t :| 0 <= t < |s2.pcs| && (s2.pcs[t].Woken? || s2.pcs[t].Counted?) {
      path := TakenBy(path, s, s2, t);
    } else {
      NoLinksHere(s2);
      assert s2.sem;
      var t :| 0 <= t < |s2.pcs| && Worker(s2.pcs[t]);
      if s2.pcs[t].Checking? {
        path := CheckerTakes(path, s, s2, t);
      } else if s2.pcs[t].Blocked? {
        var u :| 0 <= u < |s2.pcs| && s2.pcs[u] == Checking;
        path := CheckerTakes(path, s, s2, u);
      } else {
        var s3;
        path, s3 := BackToCheck(path, s, s2, t);
        path := CheckerTakes(path, s, s3, t);
      }
    }
  }

  lemma {:induction false} NoLinksHere(s: State)
    requires QueueFree(s)
    ensures forall t :: 0 <= t < |s.pcs| ==> !Linking(s.pcs[t])
  {
    forall t | 0 <= t < |s.pcs| ensures !Linking(s.pcs[t]) { assert !LinkAt(s, t); }
  }

  /** The same for every state of a run. */
  lemma {:induction false} JobCanBeTaken(run: seq<State>, i: nat) returns (path: seq<State>)
    requires IsRun(run) && i < |run| && run[i].queue != [] && HasWorker(run[i])
    ensures Takes(path, run[i])
  {
    RunInv(run, i);
    path := CanTakeOldest(run[i]);
  }

  /** thpool_wait returns in three steps of its own once the pool is idle and nobody holds thcount_lock. */
  lemma {:induction false} WaiterCanReturn(run: seq<State>, i: nat, t: nat) returns (s1: State, s2: State, s3: State)
    requires IsRun(run) && i < |run| && t < |run[i].pcs| && run[i].pcs[t] == Locking
    requires CountFree(run[i]) && run[i].queue == [] && run[i].working == 0
    ensures Next(run[i], s1) && Next(s1, s2) && Next(s2, s3)
    ensures t < |s3.pcs| && s3.pcs[t] == Returned(run[i].pushed) && AllDone(s3, run[i].pushed)
  {
    hide Fifo, Served, Awake, Seen, Locks, CountBusy;
    var s := run[i];
    s1 := s.(pcs := s.pcs[t := ReadingLen]);
    s2 := s1.(pcs := s1.pcs[t := ReadingWorking(s.pushed)]);
    s3 := s2.(pcs := s2.pcs[t := Returned(s.pushed)]);
    StepNext(s, s1, t, 0);
    StepNext(s1, s2, t, 0);
    StepNext(s2, s3, t, 0);
    RunInv(run, i);
    Keeps(s, s1);
    Keeps(s1, s2);
    Keeps(s2, s3);
    ReturnedDone(s3, t);
  }

  lemma {:induction false} ReturnedDone(s: State, t: nat)
    requires Inv(s) && t < |s.pcs| && s.pcs[t].Returned?
    ensures AllDone(s, s.pcs[t].pushed)
  {
  }
}
