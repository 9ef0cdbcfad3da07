# Operating-systems assignments: models and proofs

The repository holds five small concurrent or stateful systems whose behaviour goes beyond one function. This
project models each of them in Dafny and proves what it is for, over every input, every schedule and every run.

## The five models

**Topological sort by processes** (`Graphs`, `TopoProtocol`, `TopoSafety`, `TopoVerdict`, `TopoChecker`,
`TopoCompletion`, `TopoBoard`, `Shuffle`, `GraphGenerator`). Boss and workers form a state machine whose step is one semaphore
operation or one access to a shared word; the critical section is four such steps, with the read and the write
of `(*idx)++` apart. `Board` holds the shared arrays and performs the same steps in place. Main results: a vertex
is listed only after all its in-neighbours; every run has at most `n(2n+6)+n+1` steps; with no step left the boss
has finished if and only if the graph is acyclic; it then finds a permutation, a free mutex and idle workers, and
prints "valid" if and only if the diagonal is clear. The in-degree check accepts a permutation if and only if
every edge goes forward in it.

**Directory synchroniser** (`SyncSpec`, `SyncTool`). A tree is a map from paths to items. `Syncer` performs the
mutual recursion of `sync_directories` and `sync_items` on the destination tree and a report log that grows. What
`readdir` yields is a sequence of names in any order: the second scan may or may not list names that changed after
it was opened, once or several times. `S_ISDIR` of the `stat` buffer of a missing path is an arbitrary boolean. Main
results: the destination mirrors the source at the end if and only if no file of the source stands against a
directory of the destination and the destination root is not a file; whenever the run does not give up, all that is
not at or below such a directory is synced, the directory is left as it was, and the log has each report that is due
exactly once and no other `+`, `-`, `o` or `t`, children before the directory that is removed and after the directory
that is made; a second run changes and reports nothing.

**Event heap and clinic** (`EventHeap`, `Clinic`, `Handshake`). `EventQueue` is the array heap, with its
comparator that answers -1 both ways on a tie of two visitors; `Assistant` is the event loop over it, run on
`Desk`, the value of the session's globals together with a record of arrivals, calls and clock readings.
`Handshake` is the state machine of assistant, doctor and visitor threads around the four flags, where one step is
one flag or one read of `current_time`. Main results: each heap operation keeps heap order and contents, draining
sorts; the event loop ends with every arrival taken in order, and then the visitors called are exactly the first 25
patients, the first 3 sales representatives, and all reporters or, if both quotas were filled, those that came by the
end of the last consultation; each is called once, in class and token order; a consultation starts at the end of the
one before or, if that is later, when the first of those still to be called comes, never later; at most one visitor is
in its round, and the interval it prints is the time of the last event before its call and that time plus the duration
it was created with.

**Role-swapping command pair** (`CommandPair`). Two processes and two byte pipes. `Process` runs the turns of the
loops; the state machine interleaves two of them. Main results: never two processes in input mode; two in execute
mode mean exactly one `swaprole` in flight, last in its pipe, and the swap completes by the follower's reads alone; the
two histories are prefix-related and differ by the lines in flight, which the reader's `fgets` rule cuts out of the
byte stream as they were written.

**Tree sum over hand-made barriers** (`Trees`, `ThreadMutex`, `TreeSum`, `TreeSumProgress`, `TreeSumAbort`,
`TreeSumMemory`, `TreeGenerator`). Main and one thread a node form a state machine; a step is one P, one V, or one
access to `sum`, to `reached`, to `main`'s join count or to the mutex's `tid` and `status` words, and a failed test
in `foothread_mutex_unlock` ends the process. `Memory` performs the steps in place. Main results: a node past its sum
holds the total of the leaf values below it; main reads the total over all leaves, after every node thread has exited;
every run is bounded and ends either so or with an abort; some run aborts if and only if the tree has two inner nodes,
so with at most one every run ends with the total. The generator ends for every outcome of `rand()` with one tree
rooted at `PERM[0]`, whose parents have exactly the numbers of children that `rand()` says; the shapes that come out
are characterised exactly; from seven nodes on each such tree can abort.

`Counting` has the facts on finite sets and sequences that these share.

## What is taken as given

- Topological sort: each id 0..n-1 is started once, `n <= 100` (the fixed counter array of the boss), the boss
  has initialised everything before the first worker attaches. Matrix entries and the diagonal are arbitrary.
- Synchroniser: the two trees are disjoint, the source root is a directory, and a system call fails only where the
  tree makes it fail: `remove` of a non-empty directory, opening a directory for writing, opening a file as a
  directory. A failure that the code answers with `exit` makes the methods return `false`.
- Clinic: durations are at least 1, arrivals are of class R, P or S, and there are at most 127 of them (the queue
  has 128 cells, one for the D event). The events read from `ARRIVAL.txt` are the input.
- Command pair: each typed line with its newline fits the buffer (98 bytes), holds no NUL, and there is no end of
  file. What `fgets` returns for it is the parameter `line`; the state machine also admits chunks of 98 bytes with
  no newline.
- Tree sum: each call of `foothread` has its own pair of `sembuf` records (in the code `pop` and `vop` are globals),
  each barrier is used once, and the tree has fewer nodes than the thread table has entries.
- `rand()` and the coin of the graph generator are parameters, so a statement holds for every outcome.

## Where a promise needs a condition

- The synchroniser does not mirror a source file over a destination directory: it gives up, or keeps the directory
  when size and time happen to agree. `SyncTool.Syncer.Synchronise` has the exact condition, which a caller can
  check beforehand, and says what becomes of all other paths when the run goes on.
- The tree sum can end in `exit(EXIT_FAILURE)`: `foothread_mutex_unlock` resets `tid` and `status` after its V, when
  the next thread may own the mutex, and that thread then fails the owner test of its own unlock.
  `TreeSumAbort.OwnerErased` is such a run, `TreeSumAbort.AbortsIffTwoInnerNodes` the exact condition,
  `TreeSumAbort.OneInnerEndsWithTheTotal` the case that is safe.
- The boss's check counts the diagonal, which the workers skip, so a finished run over an acyclic graph with a
  self-loop is reported as invalid: `TopoCompletion.VerdictOnCompletion`, `TopoCompletion.FinishesIffAcyclic`.
- The check itself never asks whether `T` is a permutation: with two vertices or more it accepts some `T` that is none
  exactly when some vertex has no edge into it (`TopoChecker.OnlyPermutationsAccepted`). On permutations it is exact,
  and the boss never passes it anything else (`TopoCompletion.Complete`).
- Not every tree that is filled in order with at most five children a node can be generated: a parent that is not the
  last node placed never gets five children nor all that is left. `TreeGenerator.ShapesThatComeOut` has the exact
  shapes.
- The event comparator is not antisymmetric: `EventHeap.CmpDecidesOrder` says exactly when it answers -1 both ways.

## Model

| member | source | states |
|---|---|---|
| `TopoSafety.InitInv` | Assignment_05/LA5/boss.c:90-107 | what the boss sets up meets the protocol's invariant, whatever `T` holds |
| `TopoSafety.StepSync` | Assignment_05/LA5/worker.c:65-82 | how one step of any actor changes semaphore j: a P by j on an in-neighbour, a V by an in-neighbour to j, nothing else |
| `TopoSafety.StepBalanced` | Assignment_05/LA5/worker.c:65-82 | every step keeps: `sync[j]` plus the P's done by j is the number of in-neighbours that have signalled j, and `sync[j]` is not negative |
| `TopoSafety.StepExclusive` | Assignment_05/LA5/worker.c:72-75 | every step keeps mutual exclusion, and the mutex is 0 only while some worker is inside |
| `TopoSafety.StepListed` | Assignment_05/LA5/worker.c:73-74 | every step keeps `T[..*idx]` a duplicate-free list of exactly the workers past `(*idx)++`, and T grows at its end only |
| `TopoSafety.AllPredecessorsListed` | Assignment_05/LA5/worker.c:65-75 | a worker in the critical section finds all its in-neighbours already listed |
| `TopoSafety.StepInv` | Assignment_05/LA5/worker.c:65-85 | the whole invariant is kept by every step of every worker and of the boss |
| `TopoSafety.RunInv` | Assignment_05/LA5/worker.c:65-85 | the invariant holds at the end of every run, for every interleaving |
| `TopoSafety.TopologicalSafety` | Assignment_05/LA5/worker.c:65-82 | in every state of every run, a listed vertex v has every u with `A[u][v] == 1`, u other than v, at a smaller index |
| `TopoSafety.AllDone` | Assignment_05/LA5/boss.c:109-112 | after n P's on the notify semaphore every worker has finished |
| `TopoCompletion.StepMeasure` | Assignment_05/LA5/worker.c:65-85 | each step lowers the number of operations left by exactly one |
| `TopoCompletion.RunMeasure` | Assignment_05/LA5/worker.c:65-85 | the operations left after a run are the total less the steps done |
| `TopoCompletion.BlockedByBlocked` | Assignment_05/LA5/worker.c:65-69 | when nobody can step, an unfinished worker waits for an in-neighbour that is itself unfinished |
| `TopoCompletion.NoDeadlock` | Assignment_05/LA5/worker.c:65-85 | with an acyclic graph a reachable state without a next step is the finished one |
| `TopoCompletion.Complete` | Assignment_05/LA5/boss.c:109-119 | once the boss has its n notifications: no worker steps again, the mutex is free, `*idx` is n, T is a permutation in topological order |
| `TopoCompletion.VerdictOnCompletion` | Assignment_05/LA5/boss.c:121-126 | the check accepts a finished T if and only if no vertex has a self-loop |
| `TopoCompletion.FinishesIffAcyclic` | Assignment_05/LA5/boss.c:109-126 | runs are bounded; a run with no step left has ended in the boss's verdict if and only if the graph is acyclic, always after the same number of steps |
| `TopoCompletion.FinishedCells` | Assignment_05/LA5/boss.c:109-126 | in terms of the matrix: a finished run has a permutation in which every 1 off the diagonal goes forward, no cycle exists, and "valid" is printed if and only if the diagonal has no 1 |
| `Graphs.AcyclicCells` | Assignment_05/LA5/worker.c:66-66 | acyclic means no cycle of cells that hold 1, the diagonal left out |
| `TopoChecker.PlaceTest` | Assignment_05/LA5/boss.c:37-46 | the counter of `T[i]` is zero at place i if and only if all heads of edges into it stand before i |
| `TopoChecker.CheckerDecidesOrder` | Assignment_05/LA5/boss.c:23-49 | for every matrix and permutation T the check accepts if and only if every cell `A[T[p]][T[q]] == 1` has p before q |
| `TopoChecker.OnlyPermutationsAccepted` | Assignment_05/LA5/boss.c:23-49 | the check accepts permutations only if and only if there is at most one vertex or every vertex has an edge into it |
| `TopoChecker.SourceRepeated` | Assignment_05/LA5/boss.c:36-48 | a vertex without edges into it, n times over, is accepted |
| `TopoChecker.CountRow` | Assignment_05/LA5/boss.c:28-34 | after row i the counters are the in-degrees from rows 0..i |
| `TopoChecker.ScanPlace` | Assignment_05/LA5/boss.c:41-45 | after place i the counters are the in-degrees less the edges from places 0..i |
| `TopoChecker.CountInDegrees` | Assignment_05/LA5/boss.c:27-34 | the first pass leaves every vertex's in-degree in its counter |
| `TopoChecker.ScanOrder` | Assignment_05/LA5/boss.c:36-48 | the second pass returns 1 exactly when `Accepts` holds of T |
| `TopoChecker.IsTopologicalSortValid` | Assignment_05/LA5/boss.c:23-49 | the loops over the counter array return 1 exactly when `Accepts` holds of T |
| `TopoBoard.Board.constructor` | Assignment_05/LA5/boss.c:90-107 | the freshly initialised memory is an initial state of the protocol |
| `TopoBoard.Board.HasArc` | Assignment_05/LA5/worker.c:66-66 | the cell test of both worker loops is the arc of the graph |
| `TopoBoard.Board.WaitStep` | Assignment_05/LA5/worker.c:65-72 | in place, a turn of the P loop or the P on the mutex is the protocol's step |
| `TopoBoard.Board.SectionStep` | Assignment_05/LA5/worker.c:73-75 | in place, each access of the critical section and its V is the protocol's step |
| `TopoBoard.Board.SignalStep` | Assignment_05/LA5/worker.c:78-85 | in place, a turn of the V loop or the notification is the protocol's step |
| `TopoBoard.Board.WorkerStep` | Assignment_05/LA5/worker.c:65-85 | a worker's next action is the protocol's step and keeps the invariant |
| `TopoBoard.Board.BossStep` | Assignment_05/LA5/boss.c:110-126 | the boss's next action, the check included, is the protocol's step and keeps the invariant |
| `TopoBoard.Board.CanStep` | Assignment_05/LA5/worker.c:65-72 | whether an actor can go on is decided by the words it reads |
| `Shuffle.Shuffled` | Assignment_05/LA5/gengraph.c:17-21 | after every swap PERM is a permutation |
| `Shuffle.Permute` | Assignment_05/LA5/gengraph.c:16-21 | the in-place shuffle yields that permutation |
| `Shuffle.OneMoreDraw` | Assignment_05/LA5/gengraph.c:19-20 | drawing j exchanges the values at places i and j and no others |
| `Shuffle.EveryOrderComesOut` | Assignment_05/LA5/gengraph.c:17-21 | every permutation of 0..n-1 is the outcome of some draws |
| `GraphGenerator.FillRow` | Assignment_05/LA5/gengraph.c:23-27 | one turn writes row and column of the next vertex in PERM and disturbs no cell written before |
| `GraphGenerator.Generate` | Assignment_05/LA5/gengraph.c:14-28 | for every outcome of `rand()`: each cell is written and is 0 or 1, the diagonal is 0, the coin decides exactly the pairs forward in PERM, the graph is acyclic |
| `Graphs.OrderedIsAcyclic` | Assignment_05/LA5/gengraph.c:22-28 | a graph all of whose edges go forward in some order has no closed walk |
| `SyncSpec.SyncedMirrors` | Assignment_09/code.c:35-208 | a synced tree has the source's paths and kinds, sizes and times if and only if no source file stood against a directory; bytes differ only where size and time already agreed; syncing makes and removes no such clash |
| `SyncSpec.WhatMirrors` | Assignment_09/code.c:35-208 | mirroring field by field: same paths, directories for directories, files with the source's length and modification time |
| `SyncSpec.WhatIsReported` | Assignment_09/code.c:118-207 | at a path not kept: `+`, `-`, `o` and `t` are in the log exactly under these conditions on what was there, `o` when length or modification time differed; the path then equals the source's; no report twice |
| `SyncSpec.WhatIsKept` | Assignment_09/code.c:188-189 | nothing at or below a directory that stands against a source file is changed or reported |
| `SyncSpec.WhenReported` | Assignment_09/code.c:274-311 | by places in the log: below a directory, removals come before its own and creations after it; what stands in its place is removed before |
| `SyncSpec.SyncedIsFixed` | Assignment_09/code.c:143-207 | syncing a synced tree leaves it as it is and owes no report |
| `SyncSpec.ReportsAccountForPaths` | Assignment_09/code.c:118-207 | the paths at the end are those of the start less `-` plus `+`; `o` names exactly changed files present on both sides |
| `SyncTool.SecondVisit` | Assignment_09/code.c:79-105 | the second visit of a common entry changes nothing and owes nothing |
| `SyncTool.KeptBelow` | Assignment_09/code.c:79-105 | visiting names changes nothing about what lies at or below a clash |
| `SyncTool.ClashLeft` | Assignment_09/code.c:188-189 | a directory that agrees with the source file in size and time is left alone and not reported |
| `SyncTool.VisitStep` | Assignment_09/code.c:79-105 | one turn of a readdir loop, on a new or an already visited name, extends the synced part, the due reports and their order |
| `SyncTool.AllVisited` | Assignment_09/code.c:79-105 | when both scans are over everything below the directory is synced |
| `SyncTool.Syncer.Remove` | Assignment_09/code.c:133-134 | removes a file or an empty directory, and fails without effect otherwise |
| `SyncTool.Syncer.RemoveDirectory` | Assignment_09/code.c:263-314 | removes exactly the directory and all below it, one `-` a path, children before their directory, for every order of readdir; -1 and no effect on anything else |
| `SyncTool.Syncer.RemoveEntry` | Assignment_09/code.c:289-300 | the same for one entry, file or directory |
| `SyncTool.Syncer.CopyFile` | Assignment_09/code.c:210-239 | the block loop writes all bytes of the source and touches no other path; fails on a directory |
| `SyncTool.Syncer.SetTime` | Assignment_09/code.c:171-174 | gives the copied file the source's modification time and leaves its bytes |
| `SyncTool.Syncer.RemoveLoose` | Assignment_09/code.c:39-46 | where the source is missing, removes what `remove` can and reports it only then |
| `SyncTool.Syncer.MakeDirectory` | Assignment_09/code.c:48-60 | makes an empty directory and reports it |
| `SyncTool.Syncer.SyncDirectories` | Assignment_09/code.c:35-109 | if it does not give up, everything at and below the path that is not at or below a clash is synced, nothing else changes, and the reports are exact and in order; without a clash it does not give up; what happens with a missing source or a file in either place |
| `SyncTool.Syncer.Readdir` | Assignment_09/code.c:93-93 | what a stream opened before the changes yields: every unchanged name, others or not, in any order and number |
| `SyncTool.Syncer.SyncListings` | Assignment_09/code.c:79-105 | both scans together, when the second may or may not list the names the first created or removed, even twice |
| `SyncTool.Syncer.SyncNames` | Assignment_09/code.c:79-91 | one scan, over any sequence of names |
| `SyncTool.Syncer.DropItem` | Assignment_09/code.c:118-141 | what the source lacks goes, with all below it, one `-` a path |
| `SyncTool.Syncer.SyncDirItem` | Assignment_09/code.c:143-165 | a file in the place of a directory goes first; the outcome does not depend on the unset `dst_stat` |
| `SyncTool.Syncer.SyncFileItem` | Assignment_09/code.c:158-207 | a missing file is created, one whose length or modification time differs overwritten, any other left alone |
| `SyncTool.Syncer.SyncItems` | Assignment_09/code.c:111-208 | if it does not give up, all at and below the path is synced or kept, nothing else changes, reports are exact and in order; without a clash it does not give up |
| `SyncTool.Syncer.Synchronise` | Assignment_09/code.c:21-33 | the destination ends with the source's paths and kinds and every file's length and modification time if and only if no source file stood against a directory and the destination root was no file; a run that does not give up syncs everything not at or below such a directory, with an exact log in order |
| `SyncTool.Syncer.SynchroniseAgain` | Assignment_09/code.c:21-33 | a run right after a run that did not give up changes nothing and reports nothing, unless it gives up at a kept directory |
| `EventHeap.CmpDecidesOrder` | Assignment_06/event.c:5-16 | how the comparator relates to the order on time and class, ties that answer -1 both ways included |
| `EventHeap.ClassOrder` | Assignment_06/event.c:7-15 | the order and the comparator letter by letter: by time, then R, P, S, D |
| `EventHeap.SmallerChild` | Assignment_06/event.c:47-49 | the child that sift-down picks is not after the other one, ties included |
| `EventHeap.SwapDown` | Assignment_06/event.c:47-52 | a sift-down swap with the smaller child moves the one misplaced node down |
| `EventHeap.SwapUp` | Assignment_06/event.c:68-71 | a sift-up swap with the parent moves the one misplaced node up |
| `EventHeap.RootIsMinimum` | Assignment_06/event.c:98-102 | in a heap no event is before the root |
| `EventHeap.EventQueue.constructor` | Assignment_06/event.c:31-56 | the bottom-up build makes a heap of exactly the events read |
| `EventHeap.EventQueue.SiftDown` | Assignment_06/event.c:46-53 | ends, heaps the subarray and keeps its contents |
| `EventHeap.EventQueue.SiftUp` | Assignment_06/event.c:66-72 | ends, heaps the array and keeps its contents |
| `EventHeap.EventQueue.AddEvent` | Assignment_06/event.c:59-75 | a heap with one event more |
| `EventHeap.EventQueue.DelEvent` | Assignment_06/event.c:77-96 | a heap less its root; nothing on the empty queue |
| `EventHeap.EventQueue.NextEvent` | Assignment_06/event.c:98-102 | a minimum of the queue, or the end marker |
| `EventHeap.EventQueue.EmptyQ` | Assignment_06/event.c:18-21 | true exactly when no event is queued |
| `EventHeap.EventQueue.Drain` | Assignment_06/session.c:93-98 | taking events until none is left gives a sorted permutation of the queue |
| `Clinic.JoinKeeps` | Assignment_06/session.c:124-211 | an arrival of a class takes the next token and is let in exactly while the session is open and the quota not full, reporters without quota; waiting plus called is still the number let in, and its slot is stored under its token |
| `Clinic.ArriveLetIn` | Assignment_06/session.c:135-209 | the number let in, counted over the arrivals taken while the session was open, grows by one exactly then |
| `Clinic.ArriveKeeps` | Assignment_06/session.c:118-214 | taking the first queued arrival keeps the accounting, the record of calls and the order of time |
| `Clinic.StartKeeps` | Assignment_06/session.c:218-241 | beginning a round keeps them; a session found over has nobody waiting, both quotas called and its end at the end of the last consultation |
| `Clinic.AdvanceKeeps` | Assignment_06/session.c:251-258 | calling the next of a class calls its lowest token not called yet, with its own duration and not before it arrived |
| `Clinic.CallServed` | Assignment_06/session.c:251-281 | a call of a class leaves nobody of a class before it who had arrived by then uncalled |
| `Clinic.CallKeeps` | Assignment_06/session.c:249-296 | a call keeps all of it, starts now, and D comes back at its end, at time 1 or later |
| `Clinic.IdleKeeps` | Assignment_06/session.c:283-286 | an idle round moves D to the next arrival's time, where the tie rule takes an arrival first |
| `Clinic.RoundWork` | Assignment_06/session.c:249-281 | a round lowers the work left by one if somebody waits and leaves everything alone otherwise |
| `Clinic.ArriveWork` | Assignment_06/session.c:118-214 | taking an arrival lowers the work left |
| `Clinic.ClosedIffFilled` | Assignment_06/session.c:224-224 | the loop has set `session_done` exactly when 25 patients and 3 sales representatives came |
| `Clinic.WhoWasLetIn` | Assignment_06/session.c:135-209 | over all arrivals: the first 25 patients, the first 3 sales representatives, and the reporters that came by the end of the last consultation or, with a quota unfilled, all of them |
| `Clinic.EveryoneCalledOnce` | Assignment_06/session.c:124-285 | at the end an arrival has been called if and only if it is one of those; once, under its number in its class, not before it came and for its own duration |
| `Clinic.CallsNeverOverlap` | Assignment_06/session.c:249-296 | of any two consultations of the session the later starts at or after the end of the earlier |
| `Clinic.CallPrompt` | Assignment_06/session.c:251-281 | a call when D comes up is in time for everybody let in and not yet called |
| `Clinic.NoneSooner` | Assignment_06/session.c:249-296 | no call of the session could have been sooner: it starts by the end of the one before or the coming of any visitor still to be called |
| `Clinic.StartTime` | Assignment_06/session.c:249-296 | a consultation starts exactly at the end of the one before, time 0 for the first, or when the first of those still to be called comes, whichever is later |
| `Clinic.ClassesInOrder` | Assignment_06/session.c:251-281 | a reporter that had come when a patient was called was called before, and reporters and patients before sales representatives |
| `Clinic.CallsInTokenOrder` | Assignment_06/session.c:251-281 | within a class calls go out in token order |
| `Clinic.Assistant.constructor` | Assignment_06/session.c:27-53 | the initial globals meet the invariant |
| `Clinic.Assistant.TakeArrival` | Assignment_06/session.c:122-211 | the three branches in place are the arrival step |
| `Clinic.Assistant.Peek` | Assignment_06/session.c:118-120 | the top is D when every arrival is later, and otherwise a first arrival |
| `Clinic.Assistant.TakeArrivals` | Assignment_06/session.c:118-214 | the inner loop ends with D on top and every arrival left later than it |
| `Clinic.Assistant.BeginRound` | Assignment_06/session.c:218-241 | D is taken off and the end of the session noticed |
| `Clinic.Assistant.Consult` | Assignment_06/session.c:249-281 | in place the call step; the time stays 0 if and only if nobody is called |
| `Clinic.Assistant.Settle` | Assignment_06/session.c:249-296 | exactly one D event is queued again, at the end of the consultation or at the next arrival, or the queue is empty and nobody waits |
| `Clinic.Assistant.Round` | Assignment_06/session.c:216-296 | a round makes progress or puts D behind an arrival; it stops only when all is over |
| `Clinic.Assistant.Run` | Assignment_06/session.c:111-305 | the event loop ends, having taken every arrival in order, with nobody waiting, the accounting intact, every call in time, and the session closed by the loop exactly when both quotas had been called |
| `Handshake.OnlyOnCallMoves` | Assignment_06/session.c:357-385 | no visitor but the one just called can take a step |
| `Handshake.StepInv` | Assignment_06/session.c:243-445 | every step of assistant, doctor or a visitor keeps the flags and the threads' positions matched |
| `Handshake.RunInv` | Assignment_06/session.c:243-445 | so they are in every reachable state |
| `Handshake.OneVisitorPerRound` | Assignment_06/session.c:366-382 | at most one visitor is past `doctor_enter` and not acknowledged, and it is the one just called |
| `Handshake.PrintedSlot` | Assignment_06/session.c:357-385 | over every run with its actions: the i-th visitor created of a class, once it has left, was the i-th of its class called, and printed the time of the last event before that call and that time plus the duration it was created with |
| `Handshake.LeftWithSlot` | Assignment_06/session.c:373-377 | between rounds all called visitors have left, the others wait |
| `Handshake.CalledInClassOrder` | Assignment_06/session.c:251-281 | a class is called only when all created of the classes before it have been called |
| `Handshake.TimeStandsStill` | Assignment_06/session.c:283-296 | from the call to `doctor_done` the current time is the visitor's start |
| `Handshake.AckAfterLeaving` | Assignment_06/session.c:287-294 | the assistant sees `doctor_done` only after the visitor has left |
| `CommandPair.FgetsReturnsChunk` | Assignment_03/CSE.c:219-220 | reading from a pipe that begins with a written line returns that line |
| `CommandPair.CutFlat` | Assignment_03/CSE.c:219-220 | cutting the byte stream by the reader's rule gives back the writer's lines |
| `CommandPair.StripKeepsWords` | Assignment_03/CSE.c:222-239 | the reader, after stripping the newline, finds a word if and only if the writer found it before |
| `CommandPair.OneRead` | Assignment_03/CSE.c:219-220 | a read stops after the first newline, after 98 characters or at the end of the stream |
| `CommandPair.WordsInALine` | Assignment_03/CSE.c:116-122 | `exit` anywhere in a line ends the process, else `swaprole` anywhere changes the role, else the role stays |
| `CommandPair.SwapInTheMiddle` | Assignment_03/CSE.c:120-122 | so does `swaprole` between any two texts without `exit` |
| `CommandPair.TypeKeeps` | Assignment_03/CSE.c:105-125 | an input turn keeps the relation of the two sides |
| `CommandPair.ReadKeeps` | Assignment_03/CSE.c:212-280 | an execute turn keeps it, or turns it round with both pipes empty |
| `CommandPair.StepInv` | Assignment_03/CSE.c:104-298 | every turn of either process keeps it |
| `CommandPair.RunInv` | Assignment_03/CSE.c:104-298 | it holds at the end of every run |
| `CommandPair.OneInput` | Assignment_03/CSE.c:104-298 | never both in input mode; a process in input mode has nothing left to read |
| `CommandPair.HistoriesAgree` | Assignment_03/CSE.c:104-298 | the histories are prefix-related and differ by exactly the lines in flight |
| `CommandPair.OneSwapInFlight` | Assignment_03/CSE.c:188-190 | two in execute mode mean one `swaprole` in flight, the last line of its pipe |
| `CommandPair.HandOver` | Assignment_03/CSE.c:105-125 | a `swaprole` line leaves both sides executing, any other line without `exit` the roles as they are |
| `CommandPair.SwapCompletes` | Assignment_03/CSE.c:104-298 | from there the follower's reads alone lead to its taking input, with both pipes empty and equal histories |
| `CommandPair.SomebodyCanMove` | Assignment_03/CSE.c:104-298 | some process can go on until both have left, and nobody writes to one that has left |
| `CommandPair.StripNewline` | Assignment_03/CSE.c:136-143 | the loop leaves the line without its newline as the C string in the buffer |
| `CommandPair.Process.constructor` | Assignment_03/CSE.c:103-103 | the first child starts in input mode, the second in execute mode |
| `CommandPair.Process.InputTurn` | Assignment_03/CSE.c:105-125 | in place, an input turn of either process |
| `CommandPair.Process.ExecuteTurn` | Assignment_03/CSE.c:133-190 | in place, an execute turn of either process |
| `Trees.ThroughOneKid` | Assignment_07/computesum.c:111-115 | a node below i lies below exactly one child of i |
| `Trees.TotalFromKids` | Assignment_07/computesum.c:110-115 | own value plus the children's totals is the total of the leaf values below |
| `Trees.TotalOfLeaves` | Assignment_07/computesum.c:110-127 | a node's total is the sum of the numbers typed at those nodes that are nobody's parent and from which following parents leads to it |
| `Trees.TotalOfAllLeaves` | Assignment_07/computesum.c:35-38 | the leaf total is the sum of the numbers typed at the nodes that are nobody's parent |
| `TreeSum.CountKeeps` | Assignment_07/foothread.c:347-354 | counting in keeps the barrier closed; the one who completes the count, and only that one, will open it |
| `TreeSum.ReleaseKeeps` | Assignment_07/foothread.c:354-358 | V by count opens the barrier for exactly as many as have been counted |
| `TreeSum.BlockKeeps` | Assignment_07/foothread.c:361-365 | passing keeps: tokens left plus members passed is the count |
| `TreeSum.StepBarriers` | Assignment_07/foothread.c:342-367 | every step of any thread keeps every barrier either closed with nobody through or open with everybody counted |
| `TreeSum.KidsSettled` | Assignment_07/computesum.c:104-115 | a node past its own barrier finds its children's totals in place |
| `TreeSum.StepSums` | Assignment_07/computesum.c:106-132 | every step keeps: a node in its loop holds the part already added, a node past it its total |
| `TreeSum.AllGone` | Assignment_07/foothread.c:157-246 | once main is past its join every node thread has exited |
| `TreeSum.StepSafe` | Assignment_07/computesum.c:87-145 | every step keeps barriers, sums and join accounting |
| `TreeSum.RunSafe` | Assignment_07/computesum.c:87-145 | they hold at the end of every run |
| `TreeSum.LeafHoldsInput` | Assignment_07/computesum.c:127-127 | a node that is nobody's parent holds, once past its store, the number typed for it |
| `TreeSum.NodeHoldsTotal` | Assignment_07/computesum.c:104-134 | under every schedule, aborted or not, a node that has summed holds the sum of the numbers typed at those nodes that are nobody's parent and from which following parents leads to it |
| `TreeSum.MainPrintsLeafTotal` | Assignment_07/computesum.c:66-78 | main prints the sum of the numbers typed at the nodes that are nobody's parent, and only after every node thread has exited |
| `TreeSumProgress.MutualExclusion` | Assignment_07/foothread.c:265-293 | never two holders of the barriers' mutex, or of the sum mutex between P and V, main included |
| `TreeSumProgress.BlockedByDeeper` | Assignment_07/foothread.c:361-366 | when nobody can step, save threads held before their printing, a thread blocked at a barrier waits for a thread blocked deeper in the tree |
| `TreeSumProgress.OnlyHeld` | Assignment_07/foothread.c:342-367 | then every thread has exited or is held before its printing, and the mutex is free |
| `TreeSumProgress.NoDeadlock` | Assignment_07/computesum.c:87-145 | a reachable state without a next step is one where main has printed or the process has aborted |
| `TreeSumProgress.StepMeasure` | Assignment_07/computesum.c:87-145 | every step lowers the operations left |
| `TreeSumProgress.RunMeasure` | Assignment_07/computesum.c:28-84 | every run of n nodes has at most `Bound(n)`, that is `n(n+32)+n+12`, steps |
| `TreeSumProgress.EveryRunEnds` | Assignment_07/computesum.c:28-84 | every run is bounded, and it has no step left exactly when main has finished with the sum of the numbers typed at the nodes that are nobody's parent, or the process has aborted |
| `ThreadMutex.OwnAccess` | Assignment_07/foothread.c:265-293 | a mutex used by one thread at a time never fails the tests of unlock |
| `TreeSumAbort.ThreadOwners` | Assignment_07/foothread.c:265-293 | with at most one inner node every thread's step leaves the marks of whoever is between lock and unlock |
| `TreeSumAbort.MainOwners` | Assignment_07/computesum.c:66-78 | so does every step of main, in any tree |
| `TreeSumAbort.OneInnerEndsWithTheTotal` | Assignment_07/computesum.c:28-84 | with at most one inner node no run aborts, and one with no step left has main holding the total |
| `TreeSumAbort.BothAtPrint` | Assignment_07/computesum.c:134-137 | any two inner nodes can be brought to the lock before their printing together, unless the process has aborted already |
| `TreeSumAbort.OwnerErased` | Assignment_07/foothread.c:281-292 | from there: one gives the mutex back, the other locks it, the first clears the owner, the other's unlock ends the process |
| `TreeSumAbort.AbortsIffTwoInnerNodes` | Assignment_07/foothread.c:276-293 | for every tree, some run aborts if and only if it has two inner nodes |
| `TreeSumAbort.TwoParents` | Assignment_07/computesum.c:170-173 | two inner nodes are there exactly when two nodes other than the root have different parents |
| `TreeSumAbort.GeneratedTreesMayAbort` | Assignment_07/gentree.c:21-35 | every generated tree of seven nodes or more has such a run |
| `TreeSumMemory.Memory.constructor` | Assignment_07/computesum.c:33-50 | the memory main sets up is an initial state: the number typed at a leaf, 0 at an inner node |
| `TreeSumMemory.Memory.BarrierStep` | Assignment_07/foothread.c:342-367 | in place, each action of `foothread_barrier_wait` is the protocol's step |
| `TreeSumMemory.Memory.MutexAccess` | Assignment_07/foothread.c:265-293 | in place, each access of lock and unlock, the tests that end the process included |
| `TreeSumMemory.Memory.LockStep` | Assignment_07/computesum.c:106-140 | a node thread's access of the mutex is the protocol's step |
| `TreeSumMemory.Memory.SumStep` | Assignment_07/computesum.c:110-127 | in place, each access of the summing code is the protocol's step |
| `TreeSumMemory.Memory.ThreadStep` | Assignment_07/computesum.c:87-145 | a node thread's next action is the protocol's step and keeps the invariant |
| `TreeSumMemory.Memory.MainStep` | Assignment_07/computesum.c:54-78 | so is main's |
| `TreeGenerator.AddKids` | Assignment_07/gentree.c:30-33 | hangs exactly t new nodes below the next parent and disturbs no node placed before |
| `TreeGenerator.Generate` | Assignment_07/gentree.c:14-35 | for every outcome of `rand()` and n >= 1 the loop ends; every node hangs below the one before it in PERM that the draws give it, parents in order, at most five children each |
| `TreeGenerator.ChildrenPerParent` | Assignment_07/gentree.c:24-34 | with m the nodes left after the children of the places before, capped at 5, the parent at place p gets `rand(p) % m` children, and one more exactly when it is the last node placed |
| `TreeGenerator.ShapesThatComeOut` | Assignment_07/gentree.c:24-34 | the shapes that some outcome gives are exactly those where each parent's turn is within these bounds |
| `TreeGenerator.ParentsBefore` | Assignment_07/gentree.c:22-35 | only PERM[0] is its own parent; any other node's parent has a smaller place in PERM |
| `TreeGenerator.ReadLines` | Assignment_07/computesum.c:166-178 | the reading loop finds the root and counts each node's children |
| `TreeGenerator.InitializeTree` | Assignment_07/computesum.c:148-181 | reading the generator's file gives a valid tree rooted at PERM[0] with the right child counts |
| `TreeGenerator.ReachesRoot` | Assignment_07/gentree.c:22-35 | following parents from any node reaches the root |

## Left out

- Topological sort: attaching and removing shared memory and semaphores, keys, printing, reading `graph.txt`.
- Synchroniser: permission bits and `p` reports (they compare with an unset `stat` buffer), symbolic and special
  files, timestamps of directories, access times, paths longer than 1024 characters, failures of system calls
  other than those named above. Entries `.` and `..` are no entries of the model.
- Synchroniser: when the program gives up, the model says that the clash stays and that nothing outside the visited
  path changed, not which of the other entries had been synced by then.
- Clinic: liveness of the threads and the shutdown after the loop, where signals are sent without the waiter's
  mutex and the flag that the doctor waits for is cleared; `Handshake` proves safety with condition waits as guards.
- Clinic: the waiting arrays are sequences of fixed length held in fields, so an index out of bounds is excluded by
  the invariant but aliasing of the arrays is not modelled; the visitor threads' side is the value-level state
  machine of `Handshake`, which has no class beside it.
- Clinic: 32-bit overflow of times, and the printing of times of day.
- Command pair: `fork`, `execvp`, `strtok`, prompts, terminals, signals, end of file and NUL bytes. A typed line longer
  than the buffer that names `swaprole` in its first part leaves its rest in the stdio buffer, which the program
  would then read as a command: outside the model's assumption on typed lines.
- Tree sum: reuse of a barrier for a second round, where `reached` is reset after the mutex is released.
- Tree sum: the sections of `foothread_create` and `foothread_exit` under the thread-table mutex are single steps,
  and so are `++reached` and its test, which that barrier's mutex protects. All barriers share one mutex semaphore,
  as one initialising thread derives one key for all of them.
- Tree sum: overflow of `int` sums, `malloc` and stacks, and the variant `csum.c`, where threads initialise the
  barriers.
- `Assignment_08` (memory management unit, scheduler, master) and `Assignment_04/prodcons.c`: the code does not
  establish the order and checksum properties that one would state.
- `Assignment_01`, `Assignment_02` and the samples for `dup`, `pipe`, `clone` and threads: system-call demonstrations.
