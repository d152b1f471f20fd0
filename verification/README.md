# Verified models of MINIX 3 kernel and command code

A Dafny project about the parts of MINIX 3 that are hardest to get right:

- **Message passing** (`kernel/proc.c`, `kernel/system.c`, `kernel/system/do_fork.c`): SEND, RECEIVE, SENDREC,
  NOTIFY, SENDNB and SENDA, fork and exit, as functions of the process table (`IpcState`, `IpcClear`, `IpcFork`), the
  invariant they keep (`IpcInvariant`, `IpcSteps`, `IpcCalls`), runs of any length (`IpcRuns`), what becomes of messages
  and pending bits (`IpcDelivery`, `IpcPending`), what a RECEIVE takes (`IpcReceive`), the order of the queues
  (`IpcOrder`), the flag of a pending reply (`IpcReply`), send and trap masks (`IpcRights`), exits (`IpcExit`) and
  generations of endpoints (`IpcGenerations`), and the linked caller queues as a class that refines all this
  (`IpcKernel`, `Links`). `WaitGraph` is the theory of the deadlock walk.
- **Scheduling** (`kernel/proc.c`, `kernel/system.c`, `kernel/debug.c`): the run queues as values (`SchedState`,
  `SchedRuns`), their order (`SchedOrder`), as linked lists (`SchedQueues`), and the kernel's own consistency check
  proved to decide the invariant (`SchedCheck`).
- **compress** (`commands/compress/compress.c`): bit buffers, hash table, encoder and decoder, proved against a decoder
  that keeps whole strings (`LzwSpec`) and an encoder on values (`LzwEncode`); when the table is cleared and
  how wide codes are (`LzwPolicy`).
- **decomp16** (`commands/decomp16/decomp16.c`): the pipeline of five passes, their pipes and their bit reader.
- **Regular expressions** (`commands/cawf/regexp.c`): the patterns accepted (`RegexGrammar`), the two-pass compiler and
  the backtracking interpreter, against the language of the pattern (`RegexMeaning`) and the order of preference among
  matches (`RegexOrder`).
- **cron** (`commands/cron/tab.c`): the texts that are fields (`CronGrammar`), reading them (`CronFields`), the search for
  the next minute (`CronSearch`), and all together (`CronTab`).
- **Shared interrupt lines** (`kernel/interrupt.c`).

Code that updates things in place is modelled by classes and methods with loops; each is proved equal to a function of
the old state, and the lemmas are about these functions. Check everything with `dafny verify dfyconfig.toml`.

Where the code does not do what its comments or assertions say, the model follows the code. The lemma named says when
it does, as an exact condition or, for compress and decomp16, as a sufficient one with an input that fails:

- A RECEIVE that names the caller itself blocks it for good when no notification of its own is pending; `deadlock`
  does not see it (`CallKeepsIff`).
- `clear_ipc` unlinks a sender without resetting its `p_q_link`, against the assertion in `mini_send`
  (`ClearEndpointStale`, `ExitTidy`, `StaleLink`). Runs assume that assertion.
- `do_fork` copies the head of the parent's caller queue (`ForkKeepsIff`, `ForkShares`). Runs fork quiet parents only.
- `sched_proc` admits the priority NR_SCHED_QUEUES, for which there is no queue (`AssignKeeps`), and on the current
  process it may leave a better process waiting (`SchedCurrentIff`).
- compress stores key 0 as 0, and takes a slot that holds 0 for a free one; so the string of two zero bytes can be
  forgotten and learnt again. The output is right all the same, and only strings that begin with it are ever sent in
  shorter pieces than necessary (`Compress`). That happens (`ZeroForgotten`), but not to inputs without two zero bytes in
  a row (`GreedyTruly`).
- With a limit of nine bits compress goes to ten, decomp16 does not (`WidensTogether`). A file that fills the
  dictionary can come out different (`NineBitsDiffer`); all others come out the same (`Decodes`).
- `rm_irq_handler` removes by id, not by hook (`RemoveExact`, `RemovesAnother`).
- MF_REPLY_PEND, for a reply that is pending, stays set when a SENDREC fails to send, when an asynchronous message
  answers it, and when the process awaited exits (`SendRecLeaves`, `StrayStep`, `StrayRun`). Its owner's next plain SEND
  is then reported to the receiver as a SENDREC (`SendToldAsSendRec`); without these three causes the call reported is
  the call made (`SentTruly`, `ToldTruly`).

## Model

| member | source | states |
|---|---|---|
| IpcInvariant.DeadlockExact | usr/src/minix/kernel/proc.c:638-702 | outside the exempted SEND/RECEIVE pair, the walk reports a deadlock if and only if the chain of blocked processes starting at the named one leads back to the caller |
| IpcInvariant.WalkExact | usr/src/minix/kernel/proc.c:656-701 | the same for a walk begun anywhere along the chain, by induction on its length |
| IpcInvariant.GroupSize | usr/src/minix/kernel/proc.c:638-702 | a reported group never has more than NR_TASKS + NR_PROCS members |
| IpcInvariant.BlockSend | usr/src/minix/kernel/proc.c:868-889 | blocking in a send that `deadlock` let through keeps the invariant: queues exact, no missed rendezvous, no wait cycle |
| IpcInvariant.BlockReceive | usr/src/minix/kernel/proc.c:1024-1035 | the same for blocking in a receive when nothing acceptable is pending |
| WaitGraph.AddEdge | usr/src/minix/kernel/proc.c:638-702 | a wait edge from c to e closes no cycle if c is not reached from e: the reason why one walk before blocking is enough |
| WaitGraph.Tight | usr/src/minix/kernel/proc.c:638-702 | in an acyclic wait graph every walk stops within one step fewer than there are processes |
| IpcSteps.NotifyKeeps | usr/src/minix/kernel/proc.c:1049-1094 | `mini_notify` keeps the invariant, changes no process but the destination, and leaves idle processes idle |
| IpcSteps.SendKeeps | usr/src/minix/kernel/proc.c:804-896 | `mini_send` keeps the invariant in all its outcomes |
| IpcSteps.SendAsyncKeeps | usr/src/minix/kernel/proc.c:1145-1268 | one entry of an asynchronous send table keeps the invariant |
| IpcSteps.TryOneKeeps | usr/src/minix/kernel/proc.c:1333-1436 | fetching from one asynchronous sender keeps the invariant; the receiver gets a message from exactly that sender, or only its pending bits change |
| IpcSteps.TryAsyncKeeps | usr/src/minix/kernel/proc.c:1290-1327 | the scan over all pending asynchronous senders keeps the invariant; it delivers from some sender or only changes the receiver's bits |
| IpcSteps.TakeKeeps | usr/src/minix/kernel/proc.c:982-1021 | taking any caller off the queue, wherever it stands, keeps the invariant |
| IpcSteps.ReceiveKeeps | usr/src/minix/kernel/proc.c:901-1044 | `mini_receive` keeps the invariant for every source and every content of the asynchronous tables |
| IpcCalls.ReplyAfterSend | usr/src/minix/kernel/proc.c:503-519 | in a SENDREC whose message was delivered at once, the receive half returns OK: the caller has a message from the endpoint it sent to, or waits for one |
| IpcCalls.ReplyWhileSending | usr/src/minix/kernel/proc.c:503-519 | in a SENDREC whose send half blocked, the receive half finds no deadlock and keeps the invariant |
| IpcCalls.SendRecKeeps | usr/src/minix/kernel/proc.c:503-519 | SENDREC returns what its send half returned: once that is OK the receive half cannot fail, and the caller has, or awaits, a message from that endpoint only |
| IpcCalls.SelfWaitCycles | usr/src/minix/kernel/proc.c:414-532 | a RECEIVE naming the caller itself with nothing pending returns OK and leaves the process waiting for itself |
| IpcCalls.CallKeepsIff | usr/src/minix/kernel/proc.c:414-532 | any system call keeps the invariant if and only if it is not such a RECEIVE: a condition on the arguments and the pending bits before the call |
| IpcRights.Forbidden | usr/src/minix/kernel/proc.c:440-501 | a call that the masks do not permit changes nothing; EINVAL, EDEADSRCDST, ECALLDENIED and ETRAPDENIED are each returned exactly if the test of that name is the first that fails, in this order |
| IpcRights.OnlyPermitted | usr/src/minix/kernel/proc.c:440-501 | so whatever returns OK or changes anything had the call in the trap mask and a live destination in the send mask, and was no SEND, SENDNB or NOTIFY to a task |
| IpcRights.SendResult | usr/src/minix/kernel/proc.c:804-896 | the exact condition for each result of `mini_send` |
| IpcRights.Results | usr/src/minix/kernel/proc.c:503-532 | the exact condition for each result of a permitted call |
| IpcRights.EntryResult | usr/src/minix/kernel/proc.c:1145-1268 | the exact condition for each result of an asynchronous entry; one that fails changes nothing |
| IpcRights.ForbiddenNothing | usr/src/minix/kernel/proc.c:440-501 | every run ends as it would without its forbidden calls |
| IpcRights.EntitledStep | usr/src/minix/kernel/proc.c:414-1268 | every event keeps it so that whatever is queued or pending was allowed |
| IpcRights.EntitledRun | usr/src/minix/kernel/proc.c:414-1268 | over every run no message is queued, and no notification or asynchronous message pending, from a process whose masks forbid the call that would bring it there |
| IpcRights.BootEntitled | usr/src/minix/kernel/proc.c:118-158 | and at boot there is none |
| IpcClear.ClearIpcKeeps | usr/src/minix/kernel/system.c:493-519 | `clear_ipc` keeps the invariant and unblocks just that process |
| IpcClear.CancelLess | usr/src/minix/kernel/proc.c:1441-1521 | each round of `cancel_async` clears the bit it was called for and sets none in that map: the loop of `clear_ipc_refs` ends |
| IpcClear.CancelAllKeeps | usr/src/minix/kernel/system.c:565-568 | the whole loop keeps the invariant and leaves no asynchronous sender pending |
| IpcClear.ScanKeeps | usr/src/minix/kernel/system.c:570-585 | the scan of the process table keeps the invariant and leaves nobody blocked on the process and no bit naming it |
| IpcClear.ClearEndpointDeparts | usr/src/minix/kernel/system.c:524-552 | after `clear_endpoint` nobody is blocked on the process, it is on no caller queue, its own queue is empty, and no notify or asynchronous bit names it |
| IpcClear.ClearProcKeeps | usr/src/minix/kernel/system/do_clear.c:48-57 | the slot can be freed then: the invariant still holds |
| IpcClear.EndpointFirst | usr/src/minix/kernel/system.c:534-544 | setting RTS_NO_ENDPOINT before or after `clear_ipc` gives the same state |
| IpcClear.ClearEndpointStale | usr/src/minix/kernel/system.c:493-586 | exactly which processes are left with a stale `p_q_link`: the exiting one if somebody stood behind it in a queue, and each of its callers behind which a caller of a higher slot stood |
| IpcFork.ForkKeepsIff | usr/src/minix/kernel/system/do_fork.c:26-132 | `do_fork`, which copies `p_caller_q` and the flags with the rest of struct proc, keeps the invariant if and only if nobody is queued at the parent and the parent is not still sending |
| IpcGenerations.ForkResult | usr/src/minix/kernel/system/do_fork.c:41-55 | a fork goes through if and only if the parent is live and blocked in a receive and the slot is free; else EINVAL and nothing changes |
| IpcGenerations.ForkGives | usr/src/minix/kernel/system/do_fork.c:60-132 | the child has the next generation of its slot, past the last one the first, so that its endpoint is live and the former one dead; it is no system process, and has the masks of user processes if its parent was one, else those of its parent, never with itself; it has no pending bits; in all else it is its parent, and no other process changes |
| IpcGenerations.Generations | usr/src/minix/kernel/system/do_fork.c:60-72 | over every run the generation of a slot is the one it had, moved on once for each fork into it, and a free slot stays free until the first |
| IpcGenerations.StaysDead | usr/src/minix/kernel/system/do_fork.c:60-72 | the endpoint of a process that has exited is live again after a run if and only if the forks into its slot since were whole rounds of all generations, and the last child is there; the generation of boot never |
| IpcRuns.StepKeeps | usr/src/minix/kernel/proc.c:414-532 | every event keeps the invariant: system calls, asynchronous entries, kernel sends and notifications, copy-out, fork, exit |
| IpcRuns.RunKeeps | usr/src/minix/kernel/proc.c:414-532 | so does every run, of any length and interleaving, of events that meet the kernel's assertions, in which nobody receives from itself with nothing there and only quiet processes are forked |
| IpcRuns.AlwaysSafe | usr/src/minix/kernel/proc.c:638-1094 | from boot, in every reachable state: no process waits for itself along any chain (ANY excluded); a process blocked in receive has no sender and, unless it awaits a reply, no notification it would accept; a process is sending exactly if it is queued once, at the process it sends to |
| IpcDelivery.SendArrives | usr/src/minix/kernel/proc.c:804-896 | a send that returns OK has its message, unchanged but for the source, with the receiver, or its caller at the end of the receiver's queue; one that fails changes nothing; ELOCKED means that the receiver waits for the caller |
| IpcDelivery.SenderKept | usr/src/minix/kernel/proc.c:804-1044 | over every event, a blocked sender keeps its message and its destination until that destination receives just this message, or one of the two exits |
| IpcDelivery.SendRecStep | usr/src/minix/kernel/proc.c:849-1043 | over every event, a process awaiting the reply of a SENDREC goes on awaiting it until the process it sent to sends it a message, which is what it gets, or one of the two exits; no notification completes it |
| IpcDelivery.SendRecRun | usr/src/minix/kernel/proc.c:849-1043 | the same over every run |
| IpcDelivery.OldestFirst | usr/src/minix/kernel/proc.c:981-1021 | with nothing else pending, a RECEIVE from ANY takes the longest-waiting caller, delivers its message unchanged but for the source, and touches nobody else |
| IpcReceive.NotificationFirst | usr/src/minix/kernel/proc.c:935-964 | a RECEIVE takes the wanted notification of the lowest slot before anything else, clears that bit only, and changes nothing else |
| IpcReceive.EntryNext | usr/src/minix/kernel/proc.c:967-978 | without one, the asynchronous message of the lowest wanted sender that has any, unchanged but for the source, told as SENDA; the caller queue stays |
| IpcReceive.TryAsyncPicks | usr/src/minix/kernel/proc.c:1290-1327 | the scan stops at that sender |
| IpcReceive.SenderTold | usr/src/minix/kernel/proc.c:1333-1436 | its sender gets the notification of ASYNCM, or has it pending, if it asked for it; nobody else changes |
| IpcReceive.CallerLast | usr/src/minix/kernel/proc.c:981-1021 | without either, the wanted caller that has waited longest: its message unchanged but for the source; it alone leaves the queue and is no longer sending |
| IpcReceive.NothingThere | usr/src/minix/kernel/proc.c:1024-1038 | with nothing there the caller waits for just the endpoint it named, or has ELOCKED if and only if the chain of blocked processes leads back to it |
| IpcOrder.TurnServesHead | usr/src/minix/kernel/proc.c:981-1021 | every RECEIVE from ANY that takes from the queue takes its head, and nobody else leaves |
| IpcOrder.Nearer | usr/src/minix/kernel/proc.c:804-1044 | no event puts anybody ahead of a process that waits to send, and each such turn of its receiver brings it one nearer |
| IpcOrder.ServedInTurn | usr/src/minix/kernel/proc.c:804-1044 | first come, first served over every run: a sender waits for at most as many turns of its receiver as there were callers before it |
| IpcDelivery.ExitTidy | usr/src/minix/kernel/system.c:493-586 | an exit leaves no stale `p_q_link` if and only if nobody stands behind the exiting process in a queue and its own callers stand in falling order of slots |
| IpcDelivery.ExitOthers | usr/src/minix/kernel/system.c:524-586 | an exit fails those who were sending to the process or awaiting its reply with EDEADSRCDST, and leaves the messages of all others alone |
| IpcExit.CancelEach | usr/src/minix/kernel/system.c:565-568 | the loop over the pending asynchronous senders tells exactly those whose tables ask for it, each once |
| IpcExit.OthersExactly | usr/src/minix/kernel/system.c:524-586 | every other process after an exit, exactly |
| IpcExit.ExitOutcome | usr/src/minix/kernel/system.c:524-586 | one that waited for the exiting process goes on with EDEADSRCDST and without a message; one that is to be told has the notification or has it pending; all others keep all but their bits for it |
| IpcExit.ExitOwn | usr/src/minix/kernel/system/do_clear.c:48-57 | the exiting process leaves a free slot that waits for nobody, with the endpoint it had |
| IpcExit.ExitQueues | usr/src/minix/kernel/system.c:493-519 | its own queue is empty, and from any other it alone is gone, the order kept |
| IpcPending.NotifyArrives | usr/src/minix/kernel/proc.c:1049-1094 | a notification is either delivered, as a notification from the caller, or pending at the destination; no other bit is lost |
| IpcPending.AsyncArrives | usr/src/minix/kernel/proc.c:1145-1268 | an accepted asynchronous entry is either delivered or announced at the destination; no other bit is lost |
| IpcPending.PendingKept | usr/src/minix/kernel/proc.c:901-1436 | over every event, a pending notification stays pending until its receiver gets just that one in a RECEIVE, and an announced sender stays announced until a receive of that process finds its table empty, or one of the two exits |
| IpcReply.SendRecLeaves | usr/src/minix/kernel/proc.c:503-519 | a SENDREC that is not refused leaves MF_REPLY_PEND set on a process that waits for nothing if and only if its send half fails, a condition on the state before the call |
| IpcReply.StrayStep | usr/src/minix/kernel/proc.c:414-1268 | for every event and process: the flag is set afterwards without a reply being awaited if and only if the process's own SENDREC failed to send, an asynchronous message answered it, the process it awaited exited, or the flag was so before and the process made no RECEIVE or SENDREC that was let through |
| IpcReply.StrayRun | usr/src/minix/kernel/proc.c:414-1268 | the same over every run, from these causes alone |
| IpcReply.ProperRun | usr/src/minix/kernel/proc.h:231 | in runs without the three causes the flag is set only on processes that await a reply |
| IpcReply.SentAs | usr/src/minix/kernel/proc.c:845-850 | the receiver of a message it was waiting for is told of a SENDREC if the sender's flag is astray, and else of the call made |
| IpcReply.KernelTold | usr/src/minix/kernel/proc.c:835-841 | and that it is from the kernel exactly if it is |
| IpcReply.TakenAs | usr/src/minix/kernel/proc.c:995-1005 | the receiver of a message it takes from its queue is told of the call made if and only if the sender's flag was not astray |
| IpcReply.MadeRun | usr/src/minix/kernel/proc.c:503-519 | over every run, a process on a queue awaits a reply exactly if its last call was SENDREC |
| IpcReply.SentTruly | usr/src/minix/kernel/proc.c:845-850 | after every run without the three causes the call told with a message that is waited for is the call made |
| IpcReply.ToldTruly | usr/src/minix/kernel/proc.c:995-1005 | and so is the call told with a message taken from the queue |
| IpcExamples.ReceiveFromSelf | usr/src/minix/kernel/proc.c:414-532 | a concrete first call after which the invariant is gone |
| IpcExamples.StaleLink | usr/src/minix/kernel/system.c:493-519 | a concrete run of three events after which a process has a stale `p_q_link` |
| IpcExamples.ForkShares | usr/src/minix/kernel/system/do_fork.c:63 | a concrete run after which a fork puts one caller on two queues |
| IpcExamples.SendToldAsSendRec | usr/src/minix/kernel/proc.c:503-850 | a concrete run of three events after which the receiver of a plain SEND is told of a SENDREC |
| IpcKernel.FindBit | usr/src/minix/kernel/proc.c:735-770 | the loop over the bitmap returns the lowest set bit |
| IpcKernel.Pending | usr/src/minix/kernel/proc.c:707-772 | `has_pending`: the named source if its bit is set, or for ANY the lowest set bit |
| IpcKernel.Kernel.constructor | usr/src/minix/kernel/proc.c:119-159 | a table with empty caller queues |
| IpcKernel.Kernel.Deadlock | usr/src/minix/kernel/proc.c:638-702 | the walk from process to process, without a bound, returns what `Deadlock` says, and ends, because the wait graph is acyclic |
| IpcKernel.Kernel.Append | usr/src/minix/kernel/proc.c:885-889 | walking the links to the end and hanging the caller there appends it to the queue |
| IpcKernel.Kernel.MiniSend | usr/src/minix/kernel/proc.c:804-896 | on linked queues, refines the function `MiniSend` |
| IpcKernel.Kernel.MiniNotify | usr/src/minix/kernel/proc.c:1049-1094 | refines the function `MiniNotify` |
| IpcKernel.Kernel.SendAsync | usr/src/minix/kernel/proc.c:1145-1268 | refines the function `SendAsync` |
| IpcKernel.Kernel.TryOne | usr/src/minix/kernel/proc.c:1333-1436 | refines the function `TryOne` |
| IpcKernel.Kernel.TryAsync | usr/src/minix/kernel/proc.c:1290-1327 | the loop refines the recursive `TryAsync` |
| IpcKernel.Kernel.FindCaller | usr/src/minix/kernel/proc.c:981-1021 | finds the first acceptable caller and its predecessor in the list |
| IpcKernel.Kernel.Unlink | usr/src/minix/kernel/proc.c:1016-1017 | unlinking it leaves lists for exactly the remaining queues |
| IpcKernel.Kernel.TakeFrom | usr/src/minix/kernel/proc.c:982-1021 | refines the function `TakeFrom` |
| IpcKernel.Kernel.FromQueue | usr/src/minix/kernel/proc.c:980-1038 | refines the function `FromQueue` |
| IpcKernel.Kernel.FromAsync | usr/src/minix/kernel/proc.c:967-978 | refines the function `FromAsync` |
| IpcKernel.Kernel.MiniReceive | usr/src/minix/kernel/proc.c:901-1044 | on linked queues, refines the function `MiniReceive` |
| IpcKernel.Kernel.SendRec | usr/src/minix/kernel/proc.c:503-519 | refines the function `SendRec` |
| IpcKernel.Kernel.DoSyncIpc | usr/src/minix/kernel/proc.c:414-532 | refines the function `DoSyncIpc`, refusals and results included; what returns OK or changes anything is in the trap mask, and a send goes to a live process of the send mask |
| IpcKernel.Kernel.Fork | usr/src/minix/kernel/system/do_fork.c:26-132 | on linked queues, refines the function `Fork`; says exactly when it succeeds; the child has the next generation, and the slot's former endpoint is dead; the invariant holds afterwards exactly if the parent was quiet |
| IpcKernel.Kernel.ClearIpc | usr/src/minix/kernel/system.c:493-519 | on linked queues, refines the function `ClearIpc`; the own link is left as it is |
| IpcKernel.Kernel.CancelAsync | usr/src/minix/kernel/proc.c:1441-1521 | refines the function `CancelAsync` |
| IpcKernel.Kernel.CancelAll | usr/src/minix/kernel/system.c:565-568 | the loop refines `CancelAll` and ends |
| IpcKernel.Kernel.DropRef | usr/src/minix/kernel/system.c:570-585 | refines the function `DropRef` |
| IpcKernel.Kernel.ClearIpcRefs | usr/src/minix/kernel/system.c:557-586 | refines the function `ClearIpcRefs` |
| IpcKernel.Kernel.ClearEndpoint | usr/src/minix/kernel/system.c:524-552 | refines the function `ClearEndpoint`, and the process has departed then |
| SchedState.DequeueKeeps | usr/src/minix/kernel/proc.c:1647-1709 | taking out a process that is no longer runnable restores the invariant and takes out nobody else |
| SchedState.SetKeeps | usr/src/minix/kernel/proc.h:203-210 | RTS_SET keeps the invariant: the queues hold exactly the runnable processes, once each, at their own priority |
| SchedRuns.EnqueueKeeps | usr/src/minix/kernel/proc.c:1526-1590 | `enqueue` restores it for a process that just became runnable, with the nested `dequeue` of a preempted current process |
| SchedRuns.UnsetKeeps | usr/src/minix/kernel/proc.h:213-221 | RTS_UNSET keeps it |
| SchedRuns.ReturnKeeps | usr/src/minix/kernel/proc.c:256-265 | putting a preempted process back, at the head or at the tail, keeps it |
| SchedRuns.PickBest | usr/src/minix/kernel/proc.c:1714-1742 | `pick_proc` returns a runnable process of the best priority there is, and none only if nobody is runnable |
| SchedRuns.SwitchKeeps | usr/src/minix/kernel/proc.c:177-278 | choosing the next process, or the idle one, keeps the invariant |
| SchedRuns.AssignKeeps | usr/src/minix/kernel/system.c:626-667 | the new priority keeps the invariant if and only if it is not NR_SCHED_QUEUES, one value the guard of `sched_proc` lets through |
| SchedRuns.SchedProcKeeps | usr/src/minix/kernel/system.c:621-677 | otherwise `sched_proc` as a whole keeps it |
| SchedRuns.SchedOutcome | usr/src/minix/kernel/system.c:621-677 | the flags and priorities after `sched_proc`, with the exact condition under which the current process is preempted |
| SchedRuns.SetSafe | usr/src/minix/kernel/proc.c:1559-1571 | RTS_SET keeps priority safety: a preemptible current process is marked preempted or nobody queued has a better priority |
| SchedRuns.UnsetSafe | usr/src/minix/kernel/proc.c:1559-1571 | RTS_UNSET of other flags than RTS_PREEMPTED keeps it |
| SchedRuns.SwitchBest | usr/src/minix/kernel/proc.c:177-278 | after a switch the idle process is current if and only if nobody is runnable; else the current process is runnable, and if it was picked, or went on while preemptible, has the best priority of all runnable ones |
| SchedRuns.SchedSafe | usr/src/minix/kernel/system.c:621-677 | `sched_proc` on another process than the current one keeps priority safety |
| SchedRuns.SchedCurrentIff | usr/src/minix/kernel/system.c:621-677 | on the current process it keeps it if and only if that process is not preemptible, is marked already, or nobody else runnable beats its new priority |
| SchedRuns.SchedCurrentUnsafe | usr/src/minix/kernel/system.c:621-677 | a concrete state in which it does not |
| SchedRuns.RunKeeps | usr/src/minix/kernel/proc.c:1526-1742 | over every run without that case, the run-queue invariant and priority safety hold |
| SchedOrder.SetOutcome | usr/src/minix/kernel/proc.h:202-210 | RTS_SET takes a ready process off its queue and leaves the order of the others |
| SchedOrder.UnsetOutcome | usr/src/minix/kernel/proc.c:1526-1590 | RTS_UNSET of the last flag puts the process at the end of its queue, and marks and dequeues the current process exactly if that can be preempted and is worse |
| SchedOrder.ReturnOutcome | usr/src/minix/kernel/proc.c:257-265 | a preempted process that can go on is put back in front if it has time left, else at the end |
| SchedOrder.SwitchOutcome | usr/src/minix/kernel/proc.c:177-278 | then the head of the first queue that is not empty runs, or the idle process if all are empty |
| SchedOrder.SchedProcOutcome | usr/src/minix/kernel/system.c:621-677 | `sched_proc` takes the process off its queue and, if it is ready then, puts it at the end of the queue of its new priority; all queues, flags and quanta afterwards |
| SchedOrder.OrderStep | usr/src/minix/kernel/proc.c:1526-1742 | no event puts anybody ahead of a process that stays ready, save a preempted one with time left, and each departure of the head of its queue brings it one nearer |
| SchedOrder.ServedInTurn | usr/src/minix/kernel/proc.c:1526-1742 | so over every run those before it, and the departures of heads, are together at most those before it at first and the preempted ones put back in front |
| SchedOrder.PicksFirst | usr/src/minix/kernel/proc.c:1714-1742 | `pick_proc` takes of those with the best priority the one that stands before all others |
| SchedQueues.RunQueues.constructor | usr/src/minix/kernel/proc.c:119-159 | every slot free, all queues empty, the processor idle |
| SchedQueues.RunQueues.Dequeue | usr/src/minix/kernel/proc.c:1647-1709 | the search through `p_nextready` refines the function `Dequeue` |
| SchedQueues.RunQueues.Unlink | usr/src/minix/kernel/proc.c:1676-1688 | unlinking at any place, the tail included, leaves lists for exactly the rest |
| SchedQueues.RunQueues.Enqueue | usr/src/minix/kernel/proc.c:1526-1590 | refines the function `Enqueue`: the process comes to the end of the queue of its priority |
| SchedQueues.RunQueues.EnqueueHead | usr/src/minix/kernel/proc.c:1601-1642 | refines the function `EnqueueHead`: it comes to the front |
| SchedQueues.RunQueues.RtsSet | usr/src/minix/kernel/proc.h:203-210 | refines the function `RtsSet` and keeps the invariant |
| SchedQueues.RunQueues.RtsUnset | usr/src/minix/kernel/proc.h:213-221 | refines the function `RtsUnset` and keeps the invariant |
| SchedQueues.RunQueues.PickProc | usr/src/minix/kernel/proc.c:1714-1742 | the loop over the queue heads refines the function `PickProc` |
| SchedQueues.RunQueues.SwitchToUser | usr/src/minix/kernel/proc.c:177-278 | refines the function `Switch`; says whether a process other than the idle one is current, which then can run |
| SchedQueues.RunQueues.SchedProc | usr/src/minix/kernel/system.c:621-677 | refines the function `SchedProc`; refuses exactly the out-of-range values |
| SchedCheck.DescribesInv | usr/src/minix/kernel/debug.c:17-108 | what `runqueues_ok_cpu` looks for is the run-queue invariant together with well-formed lists |
| SchedCheck.CheckQueue | usr/src/minix/kernel/debug.c:31-91 | the walk over one queue accepts it if and only if it is a well-formed list of runnable processes of that priority, each marked once |
| SchedCheck.RunqueuesOk | usr/src/minix/kernel/debug.c:17-108 | returns true only if some sequences of processes describe the raw lists, and false only if none do |
| LzwBits.ValueInverts | usr/src/minix/commands/compress/compress.c:910-957 | the number read from the n bits of x is x, for every x that fits |
| LzwBits.PutBits | usr/src/minix/commands/compress/compress.c:924-956 | the shifts and masks of `output` put the n bits of the code at the bit offset and leave all bits before it |
| LzwBits.GetBits | usr/src/minix/commands/compress/compress.c:1165-1196 | those of `getcode` return the number in the n bits at the offset, so reading inverts writing at every offset |
| LzwPrime.HsizePrime | usr/src/minix/commands/compress/compress.c:113-115 | 69001 is prime |
| LzwTable.SlotsDistinct | usr/src/minix/commands/compress/compress.c:801-814 | the first 69001 probes for a key visit different slots |
| LzwTable.FindableAdd | usr/src/minix/commands/compress/compress.c:813-827 | storing a key where its own look-up stopped, over an empty slot or over key 0, leaves every other key where its look-up finds it |
| LzwTable.NotThere | usr/src/minix/commands/compress/compress.c:795-814 | a look-up that stops without a hit proves that the key is nowhere in the table |
| LzwTable.TableAdd | usr/src/minix/commands/compress/compress.c:822-827 | adding a string keeps the table right, findable and complete, and the strings different, but for those that begin with two zero bytes |
| LzwTable.Missing | usr/src/minix/commands/compress/compress.c:795-814 | if prefix code and character miss, the string is not in the dictionary under any code, with the same exemption |
| LzwTable.MissLongest | usr/src/minix/commands/compress/compress.c:815-818 | then no longer string of the dictionary fits the rest of the input |
| LzwEncode.GreedyTruly | usr/src/minix/commands/compress/compress.c:792-829 | for inputs without two zero bytes in a row there is no exemption: a stream sent as the program sends it is sent in the longest known strings, each one |
| LzwPolicy.ClearsExactly | usr/src/minix/commands/compress/compress.c:815-829 | after each character a code is sent or not, and behind it a CLEAR if and only if the file is made in blocks, as many codes were sent since the last CLEAR as the table has entries, the ratio is due to be tested, and it became worse; a test puts the next one off by CHECK_GAP characters |
| LzwPolicy.NeverClears | usr/src/minix/commands/compress/compress.c:1460-1494 | without blocks, or if the ratio never gets worse, nothing is ever cleared |
| LzwPolicy.WidthsExactly | usr/src/minix/commands/compress/compress.c:1138-1164 | in every compressed stream each code has the least width, from nine bits to the limit, that holds the number of the entry to be made next, which is 256, or 255 without blocks, plus the codes since the last CLEAR, up to the limit; with a limit of nine bits it goes one beyond |
| LzwExample.CodesSent | usr/src/minix/commands/compress/compress.c:775-836 | the codes the program sends for a text of 22 bytes, step by step, with a collision at the slot of key 0 |
| LzwExample.ZeroForgotten | usr/src/minix/commands/compress/compress.c:792-827 | on that text the exemption is needed: one code stands for a shorter string than the dictionary had |
| LzwFrame.FrameRead | usr/src/minix/commands/compress/compress.c:958-968 | a buffer of packed codes is read back as just these codes, whatever follows it, and leaves the reader at the buffer's end |
| LzwFrame.WrittenFrame | usr/src/minix/commands/compress/compress.c:958-1000 | so flushed buffers, full or cut short by a widening or a CLEAR, extend the list of codes a reader gets |
| LzwFrame.WrittenShort | usr/src/minix/commands/compress/compress.c:1009-1017 | the same for the partial buffer at the end of the file |
| LzwCompress.WidenOk | usr/src/minix/commands/compress/compress.c:993-1000 | widening gives a width the next codes fit |
| LzwCompress.CodeFits | usr/src/minix/commands/compress/compress.c:887-1008 | every code that can be sent fits the current width |
| LzwCompress.ExpandAgrees | usr/src/minix/commands/compress/compress.c:1067-1087 | the decoder, one entry behind, finds for every code the string the encoder meant, also when it is the entry it has not made yet |
| LzwCompress.AgreesMiss | usr/src/minix/commands/compress/compress.c:815-827 | encoder and decoder stay one entry apart over a miss, with the table full or not |
| LzwCompress.AgreesClear | usr/src/minix/commands/compress/compress.c:1487-1494 | and over a CLEAR |
| LzwCompress.Compressor.constructor | usr/src/minix/commands/compress/compress.c:765-783 | nothing written, tables empty, a reader of nothing in step |
| LzwCompress.Compressor.Output | usr/src/minix/commands/compress/compress.c:910-1008 | after `output` a reader of bytes and buffer gets one more code, this one, and its width and buffer boundaries stay in step with the writer's |
| LzwCompress.Compressor.OutputEof | usr/src/minix/commands/compress/compress.c:1009-1025 | at the end a reader of the bytes gets exactly the codes sent |
| LzwCompress.Compressor.Find | usr/src/minix/commands/compress/compress.c:792-814 | ends; hits if and only if the key is in the table; stops where the look-up of the specification stops, else at a free slot on the key's probe path |
| LzwCompress.Compressor.ClearHash | usr/src/minix/commands/compress/compress.c:1502-1564 | empties the table |
| LzwCompress.Compressor.ClearBlock | usr/src/minix/commands/compress/compress.c:1487-1494 | a CLEAR leaves encoder and decoder in step with empty dictionaries |
| LzwCompress.Compressor.Miss | usr/src/minix/commands/compress/compress.c:815-829 | a miss sends a code that stands for the longest string there was, adds or clears, keeps encoder and decoder in step, and leaves the tables as the encoder of values does |
| LzwCompress.EncodeText | usr/src/minix/commands/compress/compress.c:775-836 | the main loop: the bytes decode to the input, every code stands for the longest known string, and the codes are those of the encoder of values |
| LzwCompress.Compress | usr/src/minix/commands/compress/compress.c:740-862 | for every input, width limit, block mode and outcome of the ratio tests, the file decodes to the input; each code in it stands for the longest string of the reader's dictionary that the rest of the input begins with, but for strings that begin with two zero bytes, and for these too if the input has no two zero bytes in a row |
| LzwDecompress.Decompressor.constructor | usr/src/minix/commands/compress/compress.c:1042-1047 | the reader at the start of the bytes, the table of single characters |
| LzwDecompress.Decompressor.Fetch | usr/src/minix/commands/compress/compress.c:1138-1164 | refilling the buffer follows the reader of the specification: width, CLEAR, end of data |
| LzwDecompress.Decompressor.GetCode | usr/src/minix/commands/compress/compress.c:1126-1200 | returns the next code of the specification's reader, or -1 exactly at its end |
| LzwDecompress.Decompressor.Unwind | usr/src/minix/commands/compress/compress.c:1079-1087 | following prefixes pushes the string of the code in reverse and finds its first character |
| LzwDecompress.Decompressor.PutStack | usr/src/minix/commands/compress/compress.c:1092-1094 | pops it in the right order |
| LzwDecompress.Decompressor.Step | usr/src/minix/commands/compress/compress.c:1067-1108 | one code, KwKwK included, does to tables and output what one step of the decoder does |
| LzwDecompress.Decompress | usr/src/minix/commands/compress/compress.c:1034-1113 | on every well-formed file the result is what the decoder of the specification gives; a header without the magic number or with a limit beyond sixteen bits is refused |
| LzwDecompress.RoundTrip | usr/src/minix/commands/compress/compress.c:740-1113 | `decompress` after `compress` gives back every input, the empty one included |
| Decomp16.EnterKeeps | usr/src/minix/commands/decomp16/decomp16.c:248-250 | recording an index and the missing character of the last entry keeps the pass's part of the dictionary right |
| Decomp16.ChainText | usr/src/minix/commands/decomp16/decomp16.c:252-263 | an index stands for its root followed by the spawned characters, in the right order |
| Decomp16.FeedGroup | usr/src/minix/commands/decomp16/decomp16.c:221-264 | a group of indices that carries one code above a pass's entries leaves it as a group that carries the same code below them |
| Decomp16.PassCarries | usr/src/minix/commands/decomp16/decomp16.c:217-265 | the same for a whole pipe |
| Decomp16.PipelineDecodes | usr/src/minix/commands/decomp16/decomp16.c:210-265 | for every valid list of codes the five passes end with the bytes of a decoder with one dictionary |
| Decomp16.Process.constructor | usr/src/minix/commands/decomp16/decomp16.c:210-220 | a pass with an empty part of the dictionary |
| Decomp16.Process.Root | usr/src/minix/commands/decomp16/decomp16.c:243-244 | the loop finds the root of the index and ends |
| Decomp16.Process.Spawn | usr/src/minix/commands/decomp16/decomp16.c:252-263 | the repeated, ever shorter scans write the characters of the chain in order |
| Decomp16.Process.Record | usr/src/minix/commands/decomp16/decomp16.c:247-250 | refines `Enter` |
| Decomp16.Process.Handle | usr/src/minix/commands/decomp16/decomp16.c:235-263 | one item through a pass, first-only items and CLEAR included, refines `Feed` |
| Decomp16.Process.Run | usr/src/minix/commands/decomp16/decomp16.c:217-265 | a whole pipe through a pass refines `FeedAll`, with failure exactly on an index beyond the dictionary |
| Decomp16Pipe.BlocksAppend | usr/src/minix/commands/decomp16/decomp16.c:422-437 | a finished block adds its flag word and its fifteen indices |
| Decomp16Pipe.PipeWriter.PutPipe | usr/src/minix/commands/decomp16/decomp16.c:413-438 | adds one item to what the pipe and the buffer hold |
| Decomp16Pipe.PipeWriter.Finish | usr/src/minix/commands/decomp16/decomp16.c:296-308 | pads with end marks until the buffer is written, and ends |
| Decomp16Pipe.FlagsShift | usr/src/minix/commands/decomp16/decomp16.c:397-400 | after each shift the sign of the flag word is the flag of the item just taken |
| Decomp16Pipe.PipeReader.GetPipe | usr/src/minix/commands/decomp16/decomp16.c:378-405 | returns the next item, index and flag, in order |
| Decomp16Pipe.Through | usr/src/minix/commands/decomp16/decomp16.c:378-438 | what one pass puts into a pipe the next one gets out of it, up to the end mark |
| Decomp16Pipe.Accepted | usr/src/minix/commands/decomp16/decomp16.c:395-396 | no item a pass below the top accepts can be taken for the end mark |
| Decomp16Pipe.RunBelow | usr/src/minix/commands/decomp16/decomp16.c:201-266 | the passes below the top, each reading its pipe, compute `Pipeline` |
| Decomp16Pipe.RunPasses | usr/src/minix/commands/decomp16/decomp16.c:210-266 | all five passes write what a decoder with one dictionary writes |
| Decomp16Bits.BitSource.constructor | usr/src/minix/commands/decomp16/decomp16.c:96-111 | no bits read |
| Decomp16Bits.BitSource.GetBits | usr/src/minix/commands/decomp16/decomp16.c:355-371 | returns the number in the next n bits, over byte boundaries, and moves on by n bits |
| Decomp16Bits.BitSource.Skip | usr/src/minix/commands/decomp16/decomp16.c:224-240 | skips to the next group of eight codes |
| Decomp16Bits.WidensTogether | usr/src/minix/commands/decomp16/decomp16.c:222-231 | decomp16 widens its codes exactly when compress does if and only if the width limit is ten bits or more |
| Decomp16Bits.FetchSync | usr/src/minix/commands/decomp16/decomp16.c:222-231 | with such a limit, or while the dictionary is not full, skipping the wasted codes brings it to the same place in the stream as refilling the buffer brings compress |
| Decomp16Bits.SameCodes | usr/src/minix/commands/decomp16/decomp16.c:217-240 | so it reads the same codes, CLEAR codes and the waste behind them included, down to the end of the file |
| Decomp16Bits.Decodes | usr/src/minix/commands/decomp16/decomp16.c:185-266 | what decomp16 makes of a valid file is what decompress makes of it, with a limit of ten bits or more, or with nine as long as the dictionary is never full |
| Decomp16Example.NineBitsDiffer | usr/src/minix/commands/decomp16/decomp16.c:222-231 | a valid file with codes of nine bits of which decompress makes 257 bytes and decomp16 makes 264 |
| Decomp16Bits.RunTop | usr/src/minix/commands/decomp16/decomp16.c:217-265 | the top pass, from bits, gives what it gives on the codes it reads, for every width limit |
| Decomp16Bits.DecompFile | usr/src/minix/commands/decomp16/decomp16.c:185-266 | for every width limit, writes what a decoder with one dictionary makes of the codes it reads; refuses exactly the bad headers |
| Decomp16Bits.RoundTrip | usr/src/minix/commands/decomp16/decomp16.c:122-266 | decomp16 after `compress` gives back every input, with a limit of ten bits or more |
| RegexSyntax.ParseShows | usr/src/minix/commands/cawf/regexp.c:290-572 | a pattern that is accepted is the printed form of the tree it is read as, whole and in order |
| RegexSyntax.AtomParsed | usr/src/minix/commands/cawf/regexp.c:465-572 | the same for an atom: the tree is the text consumed, and a string never swallows the character a following *, + or ? applies to |
| RegexSyntax.SetParsed | usr/src/minix/commands/cawf/regexp.c:484-518 | the same for a bracket expression, ranges included |
| RegexGrammar.ShowParses | usr/src/minix/commands/cawf/regexp.c:290-572 | the printed form of every canonical tree is read as that tree |
| RegexGrammar.ParseCanon | usr/src/minix/commands/cawf/regexp.c:290-572 | and whatever is accepted is read as a canonical tree: parentheses numbered in order, ordinary characters gathered, repetitions of one character, a bracket or a group, sets listing what their text says |
| RegexGrammar.AcceptsExactly | usr/src/minix/commands/cawf/regexp.c:290-572 | so a pattern is accepted if and only if it is the printed form of a canonical tree, which is unique |
| RegexMeaning.WidthMoves | usr/src/minix/commands/cawf/regexp.c:419-421 | an operand with HASWIDTH never matches the empty string |
| RegexOrder.EndsExact | usr/src/minix/commands/cawf/regexp.c:823-1011 | the ends listed in order of preference are exactly those of the matches in the language of the pattern |
| RegexOrder.AltsExact | usr/src/minix/commands/cawf/regexp.c:823-1011 | the same for a list of branches |
| RegexOrder.SimpleStar | usr/src/minix/commands/cawf/regexp.c:964-991 | for a simple operand the order of preference is longest first, down to none |
| RegexCode.Move | usr/src/minix/commands/cawf/regexp.c:623-648 | code that is moved as `reginsert` moves it means the same at its new place |
| RegexCode.Hook | usr/src/minix/commands/cawf/regexp.c:654-680 | setting the tail of an operand changes its exit and nothing else |
| RegexEmit.Emitter.RegC | usr/src/minix/commands/cawf/regexp.c:605-615 | adds a byte, or in the first pass counts it |
| RegexEmit.Emitter.RegNode | usr/src/minix/commands/cawf/regexp.c:578-599 | adds a node of three bytes, or counts it |
| RegexEmit.Emitter.RegInsert | usr/src/minix/commands/cawf/regexp.c:623-648 | in place, moves the operand up and puts a node in front |
| RegexEmit.Emitter.RegTail | usr/src/minix/commands/cawf/regexp.c:654-680 | finds the end of the chain, and ends, and sets its offset |
| RegexEmit.Emitter.RegOpTail | usr/src/minix/commands/cawf/regexp.c:686-694 | the same for the operand of a node |
| RegexEmit.Emitter.Next | usr/src/minix/commands/cawf/regexp.c:1063-1079 | the byte pair read back as an offset, backwards for BACK |
| RegexCompile.EmitSimple | usr/src/minix/commands/cawf/regexp.c:423-433 | a simple x becomes the code of x* or x+ |
| RegexCompile.EmitStar | usr/src/minix/commands/cawf/regexp.c:425-431 | any other x becomes the code of x* |
| RegexCompile.EmitPlus | usr/src/minix/commands/cawf/regexp.c:434-440 | or of x+ |
| RegexCompile.EmitOpt | usr/src/minix/commands/cawf/regexp.c:441-447 | or of x? |
| RegexDescent.Compiler.SetAtom | usr/src/minix/commands/cawf/regexp.c:484-518 | a bracket expression: accepted, consumed and laid out as the grammar says |
| RegexDescent.Compiler.RegAtom | usr/src/minix/commands/cawf/regexp.c:465-572 | an atom: accepted as the grammar says; the second pass emits its code, the first counts exactly its size; the flags are exact |
| RegexDescent.Compiler.RegPiece | usr/src/minix/commands/cawf/regexp.c:401-454 | the same for a piece, nested and empty repetitions refused |
| RegexDescent.Compiler.RegBranch | usr/src/minix/commands/cawf/regexp.c:362-389 | the same for a branch, its pieces chained |
| RegexDescent.Compiler.Reg | usr/src/minix/commands/cawf/regexp.c:290-354 | the same for a list of branches, in parentheses or not, all of them hooked to the end |
| RegexExec.StartMust | usr/src/minix/commands/cawf/regexp.c:249-253 | a `regstart` character begins every match |
| RegexExec.AnchorMust | usr/src/minix/commands/cawf/regexp.c:252-253 | with `reganch` every match starts at the start of the text |
| RegexExec.StringMust | usr/src/minix/commands/cawf/regexp.c:255-274 | every match contains each literal string of a lone branch |
| RegexExec.FindMust | usr/src/minix/commands/cawf/regexp.c:263-274 | the scan along the chain of nodes ends, and what it finds is such a string |
| RegexExec.Pass | usr/src/minix/commands/cawf/regexp.c:214-238 | the first pass finds the exact size and legality, the second emits the program of the parsed pattern into exactly that room |
| RegexExec.RegComp | usr/src/minix/commands/cawf/regexp.c:202-278 | a pattern compiles if and only if the grammar accepts it and its code is under 32767 bytes; the result is the code of the pattern with sound hints |
| RegexMatch.Lookahead | usr/src/minix/commands/cawf/regexp.c:971-989 | the next-character test skips only positions from which the rest cannot match |
| RegexMatch.Matcher.Step | usr/src/minix/commands/cawf/regexp.c:844-889 | the nodes passed by the loop: each leads where the pattern leads, or nowhere |
| RegexMatch.Matcher.RegRepeat | usr/src/minix/commands/cawf/regexp.c:1017-1057 | counts the longest run the operand accepts |
| RegexMatch.Matcher.TryRepeat | usr/src/minix/commands/cawf/regexp.c:964-991 | STAR and PLUS find the preferred match, longest run first, or there is none |
| RegexMatch.Matcher.TryBranches | usr/src/minix/commands/cawf/regexp.c:946-962 | alternatives are tried in order; the first that leads anywhere decides |
| RegexMatch.Matcher.RegMatch | usr/src/minix/commands/cawf/regexp.c:823-1011 | on compiled code ends for every text, and returns the end of the preferred match, or says that there is none |
| RegexExec.RegTry | usr/src/minix/commands/cawf/regexp.c:786-810 | the preferred match from one place, or there is none |
| RegexExec.MustAppear | usr/src/minix/commands/cawf/regexp.c:739-752 | the `regmust` test never rejects a text that holds the string |
| RegexExec.RegExec | usr/src/minix/commands/cawf/regexp.c:718-780 | returns 1 if and only if some stretch of the text is in the language of the pattern; the match reported starts at the first place where one starts and is the preferred one there |
| RegexExec.Search | usr/src/minix/commands/cawf/regexp.c:202-780 | the same for `regcomp` and `regexec` together, from the text of the pattern |
| CronCalendar.NormalReal | usr/src/minix/commands/cron/tab.c:139-220 | the carry of a date past the end of its month, as `mktime` does it, is the same day under its real name |
| CronCalendar.OrderIsTime | usr/src/minix/commands/cron/tab.c:47-51 | the order of date fields is the order of minutes |
| CronCalendar.Epoch | usr/src/minix/commands/cron/tab.c:139-220 | 1 January 1970 was a Thursday |
| CronCalendar.NextWeekday | usr/src/minix/commands/cron/tab.c:139-220 | the day after is the next day of the week |
| CronCalendar.MonthLengths | usr/src/minix/commands/cron/tab.c:139-220 | the lengths of the twelve months |
| CronCalendar.Cycle | usr/src/minix/commands/cron/tab.c:139-220 | the calendar repeats every 400 years, weekdays included |
| CronSearch.Reschedule | usr/src/minix/commands/cron/tab.c:34-267 | ends; returns the least due minute after the given one, under the rule of weekday or month and day, or nothing, and then none is due through the eighth year |
| CronSearch.NeverIsNever | usr/src/minix/commands/cron/tab.c:80-93 | nothing due within eight years means nothing due ever |
| CronGrammar.ItemsAre | usr/src/minix/commands/cron/tab.c:327-381 | a list that is accepted is, character for character, the text of the items it is read as: n, n-m or n:m with commas between, the numbers in range |
| CronGrammar.ItemsRead | usr/src/minix/commands/cron/tab.c:327-381 | and the text of any such items is accepted and read as these |
| CronGrammar.ReadsExactly | usr/src/minix/commands/cron/tab.c:327-381 | so a field is read as a list of items if and only if it is their text |
| CronFields.SetRange | usr/src/minix/commands/cron/tab.c:349-351 | n-m adds exactly the numbers from n to m |
| CronFields.Below | usr/src/minix/commands/cron/tab.c:362 | stepping back stops below the minimum at a number of the same class |
| CronFields.SetEvery | usr/src/minix/commands/cron/tab.c:362-363 | n:m adds exactly the numbers of the class of n modulo m in the range |
| CronFields.ReadNumber | usr/src/minix/commands/cron/tab.c:331-336 | the loop over the digits reads what the grammar calls a number, or fails where it fails |
| CronFields.ReadItem | usr/src/minix/commands/cron/tab.c:327-361 | one number, range or repeat is read as the grammar says: what is consumed is the text of the item, n, n-m or n:m, which fits the field |
| CronFields.RangeParse | usr/src/minix/commands/cron/tab.c:288-381 | a field is accepted if and only if it is * or the text of a list of items that fit, and then the map holds exactly the numbers these items list |
| CronTab.DueIsListed | usr/src/minix/commands/cron/tab.c:477-520 | with the months shifted and Sunday folded, the job is due exactly at the minutes its five fields list: the date, the weekday, or either if both are given |
| CronTab.ParseLine | usr/src/minix/commands/cron/tab.c:477-520 | a line gives a job if and only if all five fields are accepted, and the job is due at just the minutes they list |
| CronTab.NextRun | usr/src/minix/commands/cron/tab.c:34-520 | from the text of the fields to the next run: the least minute after the given one that the fields list, or none, and then they list no minute at all |
| Irq.PutKeeps | usr/src/minix/kernel/interrupt.c:30-70 | registering a handler keeps: ids on the line distinct, active ids registered, line unmasked exactly if it has a handler and none is active |
| Irq.PutAdds | usr/src/minix/kernel/interrupt.c:30-70 | a hook that is not there yet is added at the end of the list with the lowest free id, inactive, and all else stays; one that is there changes nothing |
| Irq.FullExactly | usr/src/minix/kernel/interrupt.c:49-54 | an id is found if and only if one is free |
| Irq.RemoveKeeps | usr/src/minix/kernel/interrupt.c:76-107 | removing one keeps it |
| Irq.RemoveExact | usr/src/minix/kernel/interrupt.c:76-107 | removal takes out exactly the given hook if and only if the hook is registered or its id is not in use |
| Irq.RemoveOrder | usr/src/minix/kernel/interrupt.c:76-107 | the other hooks stay in their order, and only that id is no longer active |
| Irq.RemovesAnother | usr/src/minix/kernel/interrupt.c:76-107 | a concrete run after which removing a hook a second time removes another one, which got its id |
| Irq.HandleKeeps | usr/src/minix/kernel/interrupt.c:117-159 | an interrupt keeps it and the hooks; a handler's id is active afterwards exactly if it did not answer that it was done |
| Irq.EnableKeeps | usr/src/minix/kernel/interrupt.c:162-177 | enabling and disabling a registered hook keep it |
| Irq.EnableUndoes | usr/src/minix/kernel/interrupt.c:162-177 | enabling undoes a disabling that took effect, the mask included |
| Irq.EnableExactly | usr/src/minix/kernel/interrupt.c:162-177 | just that id leaves, or joins, the active ones; a disabled handler masks the line, and enabling the last one unmasks it |
| Irq.RunKeeps | usr/src/minix/kernel/interrupt.c:30-177 | so does every run on registered hooks, whatever the handlers answer |
| Irq.AlwaysRight | usr/src/minix/kernel/interrupt.c:30-177 | whatever happened since the line had no handlers, it is unmasked exactly if it has a handler and none is active, and every active id is that of a registered hook |
| Irq.RegisteredExactly | usr/src/minix/kernel/interrupt.c:30-107 | over every run a hook is registered under an id if and only if it was added under it, as the lowest free one, and that id was not removed since |
| Irq.IrqLine.constructor | usr/src/minix/kernel/interrupt.c:30-70 | a line without handlers is masked |
| Irq.IrqLine.PutHandler | usr/src/minix/kernel/interrupt.c:30-70 | the walk over the list refines `Put` and keeps the invariant: a new hook comes at the end with the lowest free id; it fails exactly if all ids are taken by other hooks |
| Irq.IrqLine.RemoveHandler | usr/src/minix/kernel/interrupt.c:76-107 | refines `Remove` and keeps the invariant |
| Irq.IrqLine.HandleIrq | usr/src/minix/kernel/interrupt.c:117-159 | refines `Handle` and keeps the invariant |
| Irq.IrqLine.EnableIrq | usr/src/minix/kernel/interrupt.c:162-167 | refines `Enable` and, for a registered id, keeps the invariant |
| Irq.IrqLine.DisableIrq | usr/src/minix/kernel/interrupt.c:170-177 | refines `Disable`, for a registered id keeps the invariant, and says whether the hook was enabled |

## Left out

- IpcKernel.Kernel.MiniSend: requires what the kernel asserts where it queues a caller, that this has no stale link; a send that does not get there is covered with one.
- IpcKernel.Kernel.SendRec: requires the same.
- IpcKernel.Kernel.DoSyncIpc: requires the same, for SEND and SENDREC.
- IpcCalls.CallKeepsIff: the same.
- IpcExit.CancelEach: for the exit of processes other than ASYNCM, a task, which does not exit.
- IpcExit.OthersExactly: the same.
- IpcExit.ExitOutcome: the same.
- IpcRights.Results: for SEND and SENDREC, requires that the caller has no stale link where it is queued.
- IpcDelivery.OldestFirst: for a caller with no notification and no asynchronous sender pending, which come first.
- LzwDecompress.Decompress: on files whose body is not a valid stream nothing is said; a header with a limit below nine bits, which compress never writes, is refused, where the program goes on with it.
- Decomp16Bits.DecompFile: on files with a code beyond the dictionary nothing is said.
- Decomp16Bits.Decodes: for nine bits one direction only; a file that fills the dictionary may come out the same.
- LzwEncode.GreedyTruly: one direction only; an input with two zero bytes in a row may be sent in longest strings as well.
- Decomp16.Process.Run: the top pass is modelled with the test for an index beyond the dictionary that the others make in `getpipe`; on valid streams it makes no difference.
- SchedQueues.RunQueues.SchedProc: for priorities other than NR_SCHED_QUEUES, which would index past the queues.
- RegexExec.RegExec: on compiled programs; the test of the magic byte and of null arguments is left out.
- RegexExec.MustAppear: one direction only, since it compares no more than the length, kept in one byte, says.
- Message passing: multiprocessor branches, signals and MF_SIG_DELAY, tracing, copying to and from user memory beyond its success or failure, and the contents of asynchronous tables, which are an arbitrary function of the sender.
- Privileges: one privilege structure per process; user processes share one in MINIX.
- Scheduling: RTS_SETFLAGS, accounting, DEBUG_RACE and the other debugging options, and the checks of misc flags in `switch_to_user` after a process is picked.
- compress: smaller hash tables for small files, headers without magic, file handling, statistics; the ratio test of `cl_block` is an arbitrary function of the input count.
- decomp16: forking, opening files, the style word at the head of each pipe.
- Regular expressions: `startp` and `endp` of subexpressions, error texts, running out of memory.
- cron: daylight saving time, `late` and AT jobs, reading and logging; times are minutes of the proleptic Gregorian calendar in UTC.
- Interrupts: the calls into the interrupt controller and the counting of spurious interrupts; one line at a time.
- The rest of the repository: drivers, servers, file systems and the other commands.
