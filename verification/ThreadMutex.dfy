/** foothread's mutex: a semaphore, and beside it the owner's thread id and a status word that are
    written and tested outside the semaphore's protection. */
module ThreadMutex {

  datatype Mutex = Mutex(sem: int, tid: int, status: int)

  /** The accesses of foothread_mutex_lock, then those of foothread_mutex_unlock. */
  datatype Access =
    | Take         // P(semaphore)
    | SetOwner     // tid = gettid()
    | SetStatus    // status = 1
    | TestOwner    // tid != gettid() ends the process
    | TestStatus   // status == 0 ends the process
    | Give         // V(semaphore)
    | ClearOwner   // tid = -1
    | ClearStatus  // status = 0

  predicate CanAccess(m: Mutex, c: Access) { c.Take? ==> m.sem > 0 }

  /** The two tests of unlock that call exit(EXIT_FAILURE). */
  predicate Fails(m: Mutex, who: int, c: Access) {
    (c.TestOwner? && m.tid != who) || (c.TestStatus? && m.status == 0)
  }

  function Accessed(m: Mutex, who: int, c: Access): Mutex {
    match c
    case Take => m.(sem := m.sem - 1)
    case SetOwner => m.(tid := who)
    case SetStatus => m.(status := 1)
    case TestOwner => m
    case TestStatus => m
    case Give => m.(sem := m.sem + 1)
    case ClearOwner => m.(tid := -1)
    case ClearStatus => m.(status := 0)
  }

  function Next(c: Access): Access {
    match c
    case Take => SetOwner
    case SetOwner => SetStatus
    case SetStatus => TestOwner
    case TestOwner => TestStatus
    case TestStatus => Give
    case Give => ClearOwner
    case ClearOwner => ClearStatus
    case ClearStatus => Take
  }

  predicate Unlocking(c: Access) { c.TestOwner? || c.TestStatus? || c.Give? || c.ClearOwner? || c.ClearStatus? }

  /** From the P to the V. */
  predicate Inside(c: Access) { !c.Take? && !c.ClearOwner? && !c.ClearStatus? }

  /** Accesses left before the next lock. */
  function Left(c: Access): nat {
    match c
    case Take => 8
    case SetOwner => 7
    case SetStatus => 6
    case TestOwner => 5
    case TestStatus => 4
    case Give => 3
    case ClearOwner => 2
    case ClearStatus => 1
  }

  /** Before access c: what `who` has written is still there. */
  predicate OwnerOk(m: Mutex, who: int, c: Access) {
    && (c.SetStatus? || c.TestOwner? || c.TestStatus? || c.Give? ==> m.tid == who)
    && (c.TestOwner? || c.TestStatus? || c.Give? ==> m.status != 0)
  }

  /** Used by one thread at a time, from lock to the end of unlock, the mutex never ends the process. */
  lemma OwnAccess(m: Mutex, who: int, c: Access)
    requires OwnerOk(m, who, c)
    ensures !Fails(m, who, c) && OwnerOk(Accessed(m, who, c), who, Next(c))
  {
  }
}
