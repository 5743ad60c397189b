/** The bounded queue shared between the submission handler and the search
    worker. Only the producer side, a non-blocking put, is used by the handlers. */
module JobQueues {
  import opened Records

  /** A queue of at least one slot. Python's `queue.Queue` with a maximum
      size of 0 is unbounded and never full; that queue is not this class. */
  class JobQueue {
    const capacity: nat
    /** Queued jobs, oldest first. */
    var jobs: seq<Job>

    ghost predicate Valid()
      reads this
    {
      |jobs| <= capacity
    }

    constructor (capacity: nat)
      requires capacity > 0
      ensures Valid()
      ensures this.capacity == capacity && jobs == []
    {
      this.capacity := capacity;
      jobs := [];
    }

    predicate HasRoom()
      reads this
    {
      |jobs| < capacity
    }

    /** A put that never blocks: a full queue refuses the job (`queue.Full`)
        and stays as it was; otherwise the job joins the end. */
    method PutNowait(job: Job) returns (accepted: bool)
      requires Valid()
      modifies this
      ensures Valid()
      ensures accepted == old(HasRoom())
      ensures jobs == if accepted then old(jobs) + [job] else old(jobs)
    {
      accepted := |jobs| < capacity;
      if accepted {
        jobs := jobs + [job];
      }
    }
  }
}
