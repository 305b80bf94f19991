/** The linked job queue of the thread pool and its binary semaphore flag, as changed with rwmutex held. */
module JobQueue {
  import opened Basics

  class JobQueue {
    var front: Option<nat>
    var rear: Option<nat>
    var len: nat
    /** The `prev` field of each job: the job pushed after it. */
    var prev: map<nat, Option<nat>>
    /** The value of has_jobs. */
    var sem: bool
    ghost var jobs: seq<nat>

    ghost predicate Valid()
      reads this
    {
      && len == |jobs|
      && front == At(jobs, 0) && (len > 0 ==> rear == At(jobs, len - 1))
      && (forall i, j :: 0 <= i < j < |jobs| ==> jobs[i] != jobs[j])
      && (forall i :: 0 <= i < |jobs| ==> jobs[i] in prev && prev[jobs[i]] == At(jobs, i + 1))
    }

    static function At(s: seq<nat>, i: int): Option<nat> {
      if 0 <= i < |s| then Some(s[i]) else None
    }

    constructor ()
      ensures Valid() && jobs == [] && !sem
    {
      front, rear, len, prev, sem, jobs := None, None, 0, map[], false, [];
    }

    /** jobqueue_push */
    method Push(job: nat)
      requires Valid() && job !in jobs
      modifies this
      ensures Valid() && jobs == old(jobs) + [job] && sem
    {
      prev := prev[job := None];
      if len == 0 {
        front, rear := Some(job), Some(job);
      } else {
        prev := prev[rear.value := Some(job)];
        rear := Some(job);
      }
      len := len + 1;
      jobs := jobs + [job];
      sem := true;
    }

    /** jobqueue_pull: the oldest job, and the semaphore is posted again when more are left. */
    method Pull() returns (job: Option<nat>)
      requires Valid()
      modifies this
      ensures Valid()
      ensures if old(jobs) == [] then job == None && jobs == [] else job == Some(old(jobs)[0]) && jobs == old(jobs)[1..]
      ensures sem == (old(sem) || jobs != [])
    {
      job := front;
      if len == 0 {
      } else if len == 1 {
        front, rear, len := None, None, 0;
        jobs := [];
      } else {
        front := prev[job.value];
        len := len - 1;
        jobs := jobs[1..];
        sem := true;
      }
    }
  }
}
