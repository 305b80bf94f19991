/** The futex mutex, as a step relation over any number of threads. */
module Futex {

  /** Where a thread is. */
  datatype Pc =
    | Idle                  // not using the mutex
    | Spinning(i: nat)      // lock: about to exchange the locked byte, i tries done
    | Exchanging            // lock: about to exchange the whole word with 257
    | Waiting               // lock: about to call FUTEX_WAIT
    | Asleep                // lock: asleep in FUTEX_WAIT
    | Trying                // trylock: about to exchange the locked byte
    | Holding               // has the lock
    | Unlocking             // unlock: about to read the word for zero
    | Testing               // unlock: about to read the word for 1
    | Swapping              // unlock: about to compare-and-swap 1 with 0
    | Releasing             // unlock: about to clear the locked byte
    | Watching(j: nat)      // unlock: about to read the locked byte, j reads done
    | Uncontending          // unlock: about to clear the contended byte
    | Waking                // unlock: about to call FUTEX_WAKE

  datatype State = State(locked: bool, contended: bool, pcs: seq<Pc>)

  const SPINS: nat := 100
  const WATCHES: nat := 200

  ghost predicate Init(s: State) {
    !s.locked && !s.contended && forall t :: 0 <= t < |s.pcs| ==> s.pcs[t] == Idle
  }

  /** Thread `t` moves to `pc`, with the two bytes as given. */
  predicate Goes(s: State, s': State, t: nat, pc: Pc, locked: bool, contended: bool)
    requires t < |s.pcs|
  {
    s' == State(locked, contended, s.pcs[t := pc])
  }

  // ----- One atomic step of thread t -----

  /** userfs_mutex_lock and userfs_mutex_trylock */
  predicate LockStep(s: State, s': State, t: nat)
    requires t < |s.pcs|
  {
    match s.pcs[t]
    case Idle =>
      Goes(s, s', t, Spinning(0), s.locked, s.contended) || Goes(s, s', t, Trying, s.locked, s.contended)
    case Spinning(i) =>
      Goes(s, s', t, if !s.locked then Holding else if i + 1 < SPINS then Spinning(i + 1) else Exchanging, true,
           s.contended)
    case Trying =>
      Goes(s, s', t, if !s.locked then Holding else Idle, true, s.contended)
    case Exchanging =>
      Goes(s, s', t, if s.locked then Waiting else Holding, true, true)
    case Waiting =>
      // FUTEX_WAIT sleeps only if the word is still 257
      Goes(s, s', t, if s.locked && s.contended then Asleep else Exchanging, s.locked, s.contended)
    case Asleep =>
      // woken for no reason
      Goes(s, s', t, Exchanging, s.locked, s.contended)
    case _ => false
  }

  /** userfs_mutex_unlock, up to the wake-up */
  predicate UnlockStep(s: State, s': State, t: nat)
    requires t < |s.pcs|
  {
    match s.pcs[t]
    case Holding =>
      Goes(s, s', t, Unlocking, s.locked, s.contended)
    case Unlocking =>
      // returning EPERM leaves the caller with what it had
      Goes(s, s', t, if !s.locked && !s.contended then Holding else Testing, s.locked, s.contended)
    case Testing =>
      Goes(s, s', t, if s.locked && !s.contended then Swapping else Releasing, s.locked, s.contended)
    case Swapping =>
      if s.locked && !s.contended then Goes(s, s', t, Idle, false, false)
      else Goes(s, s', t, Releasing, s.locked, s.contended)
    case Releasing =>
      Goes(s, s', t, Watching(0), false, s.contended)
    case Watching(j) =>
      Goes(s, s', t, if s.locked then Idle else if j + 1 < WATCHES then Watching(j + 1) else Uncontending, s.locked,
           s.contended)
    case Uncontending =>
      Goes(s, s', t, Waking, s.locked, false)
    case _ => false
  }

  /** FUTEX_WAKE wakes one sleeper, whichever the kernel picks, or nobody when none sleeps. */
  ghost predicate WakeStep(s: State, s': State, t: nat, w: nat)
    requires t < |s.pcs|
  {
    && s.pcs[t] == Waking
    && if exists v :: 0 <= v < |s.pcs| && s.pcs[v] == Asleep
       then w < |s.pcs| && s.pcs[w] == Asleep && s' == s.(pcs := s.pcs[t := Idle][w := Exchanging])
       else s' == s.(pcs := s.pcs[t := Idle])
  }

  ghost predicate Next(s: State, s': State) {
    exists t: nat, w: nat :: t < |s.pcs| && Step(s, s', t, w)
  }

  ghost predicate Step(s: State, s': State, t: nat, w: nat)
    requires t < |s.pcs|
  {
    LockStep(s, s', t) || UnlockStep(s, s', t) || WakeStep(s, s', t, w)
  }

  // ----- What every reachable state satisfies -----

  /** What a thread is to the others: it has the lock (from acquiring it to the store that gives it up), it gave it up
      and watches, it is about to wake someone, it sleeps, or it is about to mark the lock as contended. */
  datatype Role = Owner | Watcher | Waker | Sleeper | Marker | Other

  function RoleOf(pc: Pc): Role {
    match pc
    case Holding | Unlocking | Testing | Swapping | Releasing => Owner
    case Watching(_) | Uncontending => Watcher
    case Waking => Waker
    case Asleep => Sleeper
    case Exchanging => Marker
    case _ => Other
  }

  predicate Is(s: State, t: int, r: Role) {
    0 <= t < |s.pcs| && RoleOf(s.pcs[t]) == r
  }

  ghost predicate Any(s: State, r: Role) {
    exists t :: Is(s, t, r)
  }

  /** At most one thread has the lock. */
  ghost predicate Exclusive(s: State) {
    forall t, u :: Is(s, t, Owner) && Is(s, u, Owner) ==> t == u
  }

  ghost predicate Inv(s: State) {
    && Exclusive(s)
    && (s.locked <==> Any(s, Owner))
    && (!s.locked && s.contended ==> Any(s, Watcher))
    && (Any(s, Sleeper) ==> s.contended || Any(s, Waker) || Any(s, Marker))
  }

  /** What moving one thread does to the roles. */
  lemma {:induction false} Moved(s: State, s': State, t: nat, r: Role)
    requires t < |s.pcs| == |s'.pcs| && forall u :: 0 <= u < |s.pcs| && u != t ==> s'.pcs[u] == s.pcs[u]
    ensures (Is(s', t, r) ==> Any(s', r)) && (Is(s, t, r) ==> Any(s, r))
    ensures !Is(s', t, r) && !Any(s, r) ==> !Any(s', r)
    ensures Any(s, r) && !Is(s, t, r) ==> Any(s', r)
    ensures Any(s', r) && !Is(s', t, r) ==> Any(s, r)
  {
    if Any(s, r) && !Is(s, t, r) {
      var u :| Is(s, u, r);
      assert Is(s', u, r);
    }
    if Any(s', r) && !Is(s', t, r) {
      var u :| Is(s', u, r);
      assert Is(s, u, r);
    }
  }

  lemma {:induction false} LockKeeps(s: State, s': State, t: nat)
    requires Inv(s) && t < |s.pcs| && LockStep(s, s', t)
    ensures Inv(s')
  {
    hide Any;
    Moved(s, s', t, Owner);
    Moved(s, s', t, Watcher);
    Moved(s, s', t, Waker);
    Moved(s, s', t, Sleeper);
    Moved(s, s', t, Marker);
    OwnerMoves(s, s', t);
  }

  /** The lock changes hands only while it is free. */
  lemma {:induction false} OwnerMoves(s: State, s': State, t: nat)
    requires Inv(s) && t < |s.pcs| == |s'.pcs| && forall u :: 0 <= u < |s.pcs| && u != t ==> s'.pcs[u] == s.pcs[u]
    requires Is(s', t, Owner) ==> Is(s, t, Owner) || !s.locked
    ensures Exclusive(s')
  {
    forall a, b | Is(s', a, Owner) && Is(s', b, Owner) ensures a == b {
      assert a != t ==> Is(s, a, Owner);
      assert b != t ==> Is(s, b, Owner);
    }
  }

  /** The owner alone decides whether the lock is held. */
  lemma {:induction false} OwnerLeaves(s: State, s': State, t: nat)
    requires Inv(s) && t < |s.pcs| == |s'.pcs| && forall u :: 0 <= u < |s.pcs| && u != t ==> s'.pcs[u] == s.pcs[u]
    requires Is(s, t, Owner) && !Is(s', t, Owner)
    ensures !Any(s', Owner)
  {
    if Any(s', Owner) {
      var u :| Is(s', u, Owner);
      assert Is(s, u, Owner);
    }
  }

  lemma {:induction false} UnlockKeeps(s: State, s': State, t: nat)
    requires Inv(s) && t < |s.pcs| && UnlockStep(s, s', t)
    ensures Inv(s')
  {
    hide Any;
    Moved(s, s', t, Owner);
    Moved(s, s', t, Watcher);
    Moved(s, s', t, Waker);
    Moved(s, s', t, Sleeper);
    Moved(s, s', t, Marker);
    OwnerMoves(s, s', t);
    if Is(s, t, Owner) && !Is(s', t, Owner) { OwnerLeaves(s, s', t); }
  }

  lemma {:induction false} WakeKeeps(s: State, s': State, t: nat, w: nat)
    requires Inv(s) && t < |s.pcs| && WakeStep(s, s', t, w)
    ensures Inv(s')
  {
    var s1 := s.(pcs := s.pcs[t := Idle]);
    Moved(s, s1, t, Owner);
    Moved(s, s1, t, Watcher);
    Moved(s, s1, t, Sleeper);
    OwnerMoves(s, s1, t);
    if exists v :: 0 <= v < |s.pcs| && s.pcs[v] == Asleep {
      Moved(s1, s', w, Owner);
      Moved(s1, s', w, Watcher);
      Moved(s1, s', w, Marker);
      assert Exclusive(s') by {
        forall a, b | Is(s', a, Owner) && Is(s', b, Owner) ensures a == b {
          assert Is(s1, a, Owner) && Is(s1, b, Owner);
        }
      }
    } else {
      forall u ensures !Is(s1, u, Sleeper) { }
    }
  }

  lemma {:induction false} Keeps(s: State, s': State)
    requires Inv(s) && Next(s, s')
    ensures Inv(s') && |s'.pcs| == |s.pcs|
  {
    hide Inv;
    var t: nat, w: nat :| t < |s.pcs| && Step(s, s', t, w);
    if LockStep(s, s', t) {
      LockKeeps(s, s', t);
    } else if UnlockStep(s, s', t) {
      UnlockKeeps(s, s', t);
    } else {
      WakeKeeps(s, s', t, w);
    }
  }

  lemma {:induction false} Starts(s: State)
    requires Init(s)
    ensures Inv(s)
  {
    forall t, r | r != Other ensures !Is(s, t, r) { }
  }

  // ----- Safety over whole runs -----

  /** A run of the mutex: any interleaving of any number of threads. */
  ghost predicate IsRun(run: seq<State>) {
    run != [] && Init(run[0]) && forall i :: 0 <= i < |run| - 1 ==> Next(run[i], run[i + 1])
  }

  lemma {:induction false} RunInv(run: seq<State>, i: nat)
    requires IsRun(run) && i < |run|
    ensures Inv(run[i])
  {
    if i == 0 {
      Starts(run[0]);
    } else {
      RunInv(run, i - 1);
      Keeps(run[i - 1], run[i]);
    }
  }

  /** Mutual exclusion, and the locked byte tells the truth. */
  lemma {:induction false} MutualExclusion(run: seq<State>, i: nat, t: nat, u: nat)
    requires IsRun(run) && i < |run|
    requires Is(run[i], t, Owner) && Is(run[i], u, Owner)
    ensures t == u && run[i].locked
  {
    RunInv(run, i);
  }

  /** No wake-up is lost: while the lock is free and some thread sleeps, an unlocker has yet to look or to wake, or a
      thread is about to take or mark the lock. */
  lemma {:induction false} NoLostWakeup(run: seq<State>, i: nat)
    requires IsRun(run) && i < |run| && !run[i].locked && Any(run[i], Sleeper)
    ensures Any(run[i], Watcher) || Any(run[i], Waker) || Any(run[i], Marker)
  {
    RunInv(run, i);
  }

  /** While the lock is held and some thread sleeps, the owner's unlock cannot take the fast path past the sleeper
      unless a wake-up is already on its way. */
  lemma {:induction false} FastPathIsSafe(run: seq<State>, i: nat)
    requires IsRun(run) && i < |run| && run[i].locked && !run[i].contended && Any(run[i], Sleeper)
    ensures Any(run[i], Waker) || Any(run[i], Marker)
  {
    RunInv(run, i);
  }

  /** The owner's unlock never reports EPERM. */
  lemma {:induction false} NoEperm(run: seq<State>, i: nat, t: nat)
    requires IsRun(run) && i < |run| && t < |run[i].pcs| && run[i].pcs[t] == Unlocking
    ensures run[i].locked
  {
    RunInv(run, i);
    assert Is(run[i], t, Owner);
  }

  // ----- What lock, trylock and unlock do -----

  /** About to exchange the byte or the word. */
  predicate Grabbing(pc: Pc) {
    pc.Spinning? || pc.Exchanging? || pc.Trying?
  }

  /** In unlock, with the lock not yet given up. */
  predicate Giving(pc: Pc) {
    pc.Unlocking? || pc.Testing? || pc.Swapping? || pc.Releasing?
  }

  predicate InUnlock(pc: Pc) {
    Giving(pc) || pc.Watching? || pc.Uncontending? || pc.Waking?
  }

  ghost predicate StepOf(s: State, s': State, t: nat) {
    t < |s.pcs| && exists w: nat :: Step(s, s', t, w)
  }

  /** The `i`-th step of the run is one of thread `t`. */
  ghost predicate Moves(run: seq<State>, i: nat, t: nat) {
    i + 1 < |run| && StepOf(run[i], run[i + 1], t)
  }

  lemma {:induction false} SameThreads(run: seq<State>, i: nat)
    requires IsRun(run) && i < |run|
    ensures |run[i].pcs| == |run[0].pcs|
  {
    if i > 0 {
      SameThreads(run, i - 1);
      RunInv(run, i - 1);
      Keeps(run[i - 1], run[i]);
    }
  }

  lemma {:induction false} StepTakes(s: State, s': State, u: nat, t: nat)
    requires StepOf(s, s', u) && t < |s.pcs|
    ensures t < |s'.pcs|
    ensures !Is(s, t, Owner) && s'.pcs[t] == Holding <==> t == u && Grabbing(s.pcs[t]) && !s.locked
    ensures u == t && s.pcs[t] == Trying && s.locked ==> s' == s.(pcs := s.pcs[t := Idle])
  {
    var w: nat :| Step(s, s', u, w);
    if WakeStep(s, s', u, w) {
      assert s'.pcs[t] in {s.pcs[t], Idle, Exchanging};
    } else if t != u {
      assert s'.pcs[t] == s.pcs[t];
    } else if LockStep(s, s', u) {
      assert s'.pcs[t] == Holding <==> Grabbing(s.pcs[t]) && !s.locked;
    } else {
      assert Is(s, t, Owner) || s'.pcs[t] != Holding;
    }
  }

  /** Only the owner can give the lock up, and then it is free. */
  lemma {:induction false} StepGives(s: State, s': State, u: nat)
    requires StepOf(s, s', u)
    ensures |s'.pcs| == |s.pcs| && forall t :: Is(s, t, Owner) && !Is(s', t, Owner) ==> t == u && !s'.locked
  {
    var w: nat :| Step(s, s', u, w);
    if WakeStep(s, s', u, w) {
      forall t | Is(s, t, Owner) ensures Is(s', t, Owner) { }
    }
  }

  lemma {:induction false} StepEnds(s: State, s': State, u: nat, t: nat)
    requires StepOf(s, s', u) && t < |s.pcs| && InUnlock(s.pcs[t]) && (s.pcs[t] == Unlocking ==> s.locked)
    ensures t < |s'.pcs| && (s'.pcs[t] == Idle || InUnlock(s'.pcs[t]))
    ensures if u == t then Left(s'.pcs[t]) < Left(s.pcs[t]) else s'.pcs[t] == s.pcs[t]
  {
    hide Left;
    var w: nat :| Step(s, s', u, w);
    if WakeStep(s, s', u, w) {
      assert u != t ==> s'.pcs[t] == s.pcs[t];
      assert u == t ==> s'.pcs[t] == Idle;
      WakeLeft();
    } else if u != t {
      assert s'.pcs[t] == s.pcs[t];
    } else {
      OwnStepEnds(s, s', t);
    }
  }

  lemma {:induction false} WakeLeft()
    ensures Left(Idle) < Left(Waking)
  {
  }

  lemma {:induction false} OwnStepEnds(s: State, s': State, t: nat)
    requires t < |s.pcs| && InUnlock(s.pcs[t]) && (s.pcs[t] == Unlocking ==> s.locked)
    requires LockStep(s, s', t) || UnlockStep(s, s', t)
    ensures t < |s'.pcs| && (s'.pcs[t] == Idle || InUnlock(s'.pcs[t])) && Left(s'.pcs[t]) < Left(s.pcs[t])
  {
  }

  lemma {:induction false} SomeThread(run: seq<State>, i: nat) returns (u: nat)
    requires IsRun(run) && i + 1 < |run|
    ensures Moves(run, i, u)
  {
    assert Next(run[i], run[i + 1]);
    var t: nat, w: nat :| t < |run[i].pcs| && Step(run[i], run[i + 1], t, w);
    u := t;
  }

  /** A thread comes to have the lock exactly when it exchanges the byte or the word while the lock is free; one that
      does so while it is held does not get it. */
  lemma {:induction false} TakenExactly(run: seq<State>, i: nat, t: nat)
    requires IsRun(run) && i + 1 < |run| && t < |run[i].pcs|
    ensures t < |run[i + 1].pcs|
    ensures !Is(run[i], t, Owner) && run[i + 1].pcs[t] == Holding <==>
      Moves(run, i, t) && Grabbing(run[i].pcs[t]) && !run[i].locked
    ensures Moves(run, i, t) && run[i].pcs[t] == Trying && run[i].locked ==>
      run[i + 1] == run[i].(pcs := run[i].pcs[t := Idle])
  {
    hide StepOf, IsRun, Is;
    var u := SomeThread(run, i);
    StepTakes(run[i], run[i + 1], u, t);
    if Moves(run, i, t) { StepTakes(run[i], run[i + 1], t, t); }
  }

  /** The lock becomes free exactly when its owner gives it up. */
  lemma {:induction false} GivenExactly(run: seq<State>, i: nat)
    requires IsRun(run) && i + 1 < |run|
    ensures run[i].locked && !run[i + 1].locked <==> exists t :: Is(run[i], t, Owner) && !Is(run[i + 1], t, Owner)
  {
    hide StepOf, IsRun, Is, Exclusive;
    RunInv(run, i);
    RunInv(run, i + 1);
    var u := SomeThread(run, i);
    StepGives(run[i], run[i + 1], u);
    if run[i].locked && !run[i + 1].locked {
      var t :| Is(run[i], t, Owner);
      assert !Is(run[i + 1], t, Owner);
    }
  }

  /** How many of its own steps a thread is from the end of unlock, at most. */
  function Left(pc: Pc): nat {
    match pc
    case Unlocking => WATCHES + 6
    case Testing => WATCHES + 5
    case Swapping => WATCHES + 4
    case Releasing => WATCHES + 3
    case Watching(j) => if j < WATCHES then WATCHES + 2 - j else 3
    case Uncontending => 2
    case Waking => 1
    case _ => 0
  }

  /** Every step of a thread in unlock brings it nearer to the end, which is never with the lock in hand. */
  lemma {:induction false} UnlockEnds(run: seq<State>, i: nat, t: nat)
    requires IsRun(run) && i + 1 < |run| && t < |run[i].pcs| && InUnlock(run[i].pcs[t])
    ensures t < |run[i + 1].pcs|
    ensures run[i + 1].pcs[t] == Idle || InUnlock(run[i + 1].pcs[t])
    ensures if Moves(run, i, t) then Left(run[i + 1].pcs[t]) < Left(run[i].pcs[t])
      else run[i + 1].pcs[t] == run[i].pcs[t]
  {
    hide StepOf, IsRun, InUnlock, Left;
    if run[i].pcs[t] == Unlocking { NoEperm(run, i, t); }
    var u := SomeThread(run, i);
    StepEnds(run[i], run[i + 1], u, t);
    if Moves(run, i, t) { StepEnds(run[i], run[i + 1], t, t); }
  }

  /** A thread that is about to give the lock up at `i` and has left unlock at `j` gave it up in between, in a step of
      its own after which the lock was free. */
  lemma {:induction false} UnlockReleases(run: seq<State>, i: nat, j: nat, t: nat) returns (k: nat)
    requires IsRun(run) && i < j < |run| && t < |run[i].pcs| == |run[j].pcs|
    requires Giving(run[i].pcs[t]) && !InUnlock(run[j].pcs[t])
    ensures i <= k < j && Moves(run, k, t) && run[k].locked && !run[k + 1].locked
    ensures Is(run[k], t, Owner) && !Is(run[k + 1], t, Owner)
    decreases j - i
  {
    hide IsRun, StepOf, Left;
    UnlockEnds(run, i, t);
    SameThreads(run, i);
    SameThreads(run, i + 1);
    if Giving(run[i + 1].pcs[t]) {
      k := UnlockReleases(run, i + 1, j, t);
    } else {
      k := i;
      GivenExactly(run, i);
      assert Is(run[i], t, Owner) && !Is(run[i + 1], t, Owner);
    }
  }

  // ----- Progress -----

  /** A path of steps from `s` to a state where some thread has the lock. */
  ghost predicate Path(s: State, path: seq<State>) {
    && path != [] && path[0] == s && path[|path| - 1].locked
    && forall i :: 0 <= i < |path| - 1 ==> Next(path[i], path[i + 1])
  }

  /** How many of its own steps a thread is from the lock while nobody else moves. */
  function Rank(pc: Pc): nat {
    match pc
    case Exchanging => 0
    case Waking => 1
    case Uncontending => 2
    case Watching(j) => if j < WATCHES then 3 + WATCHES - j else 3
    case _ => 0
  }

  lemma {:induction false} Extend(s: State, s': State, path: seq<State>)
    requires Next(s, s') && Path(s', path)
    ensures Path(s, [s] + path)
  {
    var p := [s] + path;
    forall i | 0 <= i < |p| - 1 ensures Next(p[i], p[i + 1]) {
      if i > 0 { assert Next(path[i - 1], path[i]); }
    }
  }

  lemma {:induction false} Lead(s: State, t: nat) returns (path: seq<State>)
    requires t < |s.pcs| && !s.locked && Any(s, Sleeper)
    requires s.pcs[t].Exchanging? || s.pcs[t].Waking? || s.pcs[t].Uncontending? || s.pcs[t].Watching?
    ensures Path(s, path)
    decreases Rank(s.pcs[t])
  {
    var pc := s.pcs[t];
    var u :| Is(s, u, Sleeper);
    if pc.Exchanging? {
      var s' := State(true, true, s.pcs[t := Holding]);
      assert LockStep(s, s', t) && Step(s, s', t, 0);
      Extend(s, s', [s']);
      path := [s] + [s'];
    } else if pc.Waking? {
      var s' := s.(pcs := s.pcs[t := Idle][u := Exchanging]);
      assert WakeStep(s, s', t, u) && Step(s, s', t, u);
      var s'' := State(true, true, s'.pcs[u := Holding]);
      assert LockStep(s', s'', u) && Step(s', s'', u, 0);
      Extend(s', s'', [s'']);
      Extend(s, s', [s'] + [s'']);
      path := [s] + ([s'] + [s'']);
    } else {
      var next := if pc.Uncontending? then Waking
        else if pc.j + 1 < WATCHES then Watching(pc.j + 1) else Uncontending;
      var s' := State(false, if pc.Uncontending? then false else s.contended, s.pcs[t := next]);
      assert UnlockStep(s, s', t) && Step(s, s', t, 0);
      assert Is(s', u, Sleeper);
      var rest := Lead(s', t);
      Extend(s, s', rest);
      path := [s] + rest;
    }
  }

  /** No deadlock: from every reachable state where the lock is free and a thread sleeps, steps of the threads at work
      on it lead to the lock being taken. */
  lemma {:induction false} NoDeadlock(run: seq<State>, i: nat) returns (path: seq<State>)
    requires IsRun(run) && i < |run| && !run[i].locked && Any(run[i], Sleeper)
    ensures Path(run[i], path)
  {
    NoLostWakeup(run, i);
    var s := run[i];
    var r := if Any(s, Watcher) then Watcher else if Any(s, Waker) then Waker else Marker;
    var t: nat :| Is(s, t, r);
    path := Lead(s, t);
  }
}
