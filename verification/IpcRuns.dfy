/** Runs: any interleaving of calls, asynchronous sends, kernel messages, forks
    and exits. */
module IpcRuns {
  import opened IpcState
  import opened IpcInvariant
  import opened IpcSteps
  import opened IpcCalls
  import opened IpcClear
  import opened IpcFork
  import opened Links
  import opened WaitGraph

  datatype Event =
    | Ipc(c: nat, call: Call, e: Endpoint, m: Message, tables: Tables, copied: bool)
    | SendEntry(c: nat, e: Endpoint, m: Message, noReply: bool)
    | KernelSend(c: nat, e: Endpoint, m: Message)
    | KernelNotify(source: nat, e: Endpoint)
    | CopyOut(c: nat)
    | Clone(parent: Endpoint, slot: nat, user: Rights)
    | Exit(rc: nat, tables: Tables)

  /** What the kernel relies on when an event comes: the caller runs, the one
      exiting exists, and its assertions hold. */
  predicate Enabled(s: State, ev: Event)
    requires |s.procs| == NSLOTS
  {
    match ev
    case Ipc(c, call, e, _, _, copied) => Runnable(s, c) && MayQueue(s, c, call, e, copied)
    case SendEntry(c, _, _, _) => Runnable(s, c)
    case KernelSend(c, e, _) => Runnable(s, c) && Live(s, e) && e.slot != c && LinkFree(s, c, e, true)
    case KernelNotify(source, _) => source < NR_TASKS
    case CopyOut(c) => c < NSLOTS && Idle(s.procs[c]) && s.procs[c].deliver
    case Clone(_, slot, _) => slot < NSLOTS
    case Exit(rc, _) => rc < NSLOTS && !s.procs[rc].free
  }

  /** No process receives from itself with nothing there, and only quiet ones
      are forked. */
  predicate Sane(s: State, ev: Event)
    requires Shaped(s) && Enabled(s, ev)
  {
    && (ev.Ipc? ==> !SelfWait(s, ev.c, ev.call, ev.e))
    && (ev.Clone? && Fork(s, ev.parent, ev.slot, ev.user).1 == OK ==> Slot(ev.parent) && Quiet(s, ev.parent))
  }

  /** The state after an event.  Should a bit in the map of an exiting process
      name something that cannot have sent, its exit would not end; that never
      happens (`RunKeeps`), and the model leaves the state as it is then. */
  ghost function Step(s: State, ev: Event): (s': State)
    requires Shaped(s) && Enabled(s, ev)
    ensures Shaped(s')
  {
    match ev
    case Ipc(c, call, e, m, tables, copied) => DoSyncIpc(s, c, call, e, m, tables, copied).0
    case SendEntry(c, e, m, noReply) => SendAsync(s, c, e, m, noReply).0
    case KernelSend(c, e, m) => MiniSend(s, c, e, m, false, true, true).0
    case KernelNotify(source, e) => MiniNotify(s, source, e).0
    case CopyOut(c) => Put(s, c, s.procs[c].(deliver := false))
    case Clone(parent, slot, user) => Fork(s, parent, slot, user).0
    case Exit(rc, tables) => if BitsOk(s, rc) then ClearProc(s, rc, tables) else s
  }

  lemma StepKeeps(s: State, ev: Event)
    requires Inv(s) && Enabled(s, ev) && Sane(s, ev)
    ensures Inv(Step(s, ev))
  {
    hide AllEnd, ProcOk, Meets, QueueOk, DoSyncIpc, SendAsync, MiniSend, MiniNotify, ClearProc, Fork;
    match ev
    case Ipc(c, call, e, m, tables, copied) => CallKeeps(s, c, call, e, m, tables, copied);
    case SendEntry(c, e, m, noReply) => SendAsyncKeeps(s, c, e, m, noReply);
    case KernelSend(c, e, m) => SendKeeps(s, c, e, m, false, true, true);
    case KernelNotify(source, e) => NotifyKeeps(s, source, e);
    case CopyOut(c) =>
      assert BitsOk(s, c);
      PutIdle(s, c, s.procs[c].(deliver := false));
    case Clone(parent, slot, user) => ForkKeepsIff(s, parent, slot, user);
    case Exit(rc, tables) => ClearProcKeeps(s, rc, tables);
  }

  /** The events can happen one after the other from `s`. */
  ghost predicate IsRun(s: State, evs: seq<Event>)
    requires Shaped(s)
    decreases |evs|
  {
    evs == [] || (Enabled(s, evs[0]) && Sane(s, evs[0]) && IsRun(Step(s, evs[0]), evs[1..]))
  }

  ghost function Run(s: State, evs: seq<Event>): (s': State)
    requires Shaped(s) && IsRun(s, evs)
    ensures Shaped(s')
    decreases |evs|
  {
    if evs == [] then s else Run(Step(s, evs[0]), evs[1..])
  }

  /** Before any call: every process is idle, nobody is queued, no bit is set. */
  ghost predicate Boot(s: State) {
    && Shaped(s) && s.stale == {}
    && forall p :: 0 <= p < NSLOTS ==>
         var x := s.procs[p];
         && x.endpoint.Ep? && x.endpoint.slot == p
         && Idle(x) && x.notify == {} && x.asyn == {} && p !in x.ipcTo && s.queue[p] == []
  }

  lemma BootInv(s: State)
    requires Boot(s)
    ensures Inv(s)
  {
    forall p | 0 <= p < NSLOTS ensures ProcOk(s, p) && BitsOk(s, p) && Meets(s, p) && QueueOk(s, p) {
    }
    var g := WaitsFor(s);
    forall p | 0 <= p < NSLOTS ensures g[p].Stop? {
      assert Idle(s.procs[p]);
    }
  }

  /** The invariant holds after every run. */
  lemma {:induction false} RunKeeps(s: State, evs: seq<Event>)
    requires Inv(s) && IsRun(s, evs)
    ensures Inv(Run(s, evs))
    decreases |evs|
  {
    assert Shaped(s);
    hide Inv, Step, Enabled;
    if evs != [] {
      StepKeeps(s, evs[0]);
      RunKeeps(Step(s, evs[0]), evs[1..]);
    }
  }

  /** Nobody waits for itself through any chain of processes. */
  ghost predicate NoWaitCycle(s: State)
    requires |s.procs| == NSLOTS
  {
    Closed(WaitsFor(s)) && forall p, k: nat :: 0 <= p < NSLOTS ==> !Reaches(WaitsFor(s), p, p, k)
  }

  /** A process blocked in receive has nobody sending to it, and no notification
      pending, that it would accept. */
  ghost predicate NoMissedRendezvous(s: State)
    requires |s.procs| == NSLOTS
  {
    forall p, q :: 0 <= p < NSLOTS && 0 <= q < NSLOTS && WillReceive(s.procs[p], s.procs[q].endpoint) ==>
      && !(s.procs[q].sending && s.procs[q].sendto == s.procs[p].endpoint)
      && (s.procs[p].replyPend || q !in s.procs[p].notify)
  }

  /** A process is sending if and only if it is queued: once, and with the
      process it sends to. */
  ghost predicate QueuesExact(s: State)
    requires Shaped(s)
  {
    forall p, d :: 0 <= p < NSLOTS && 0 <= d < NSLOTS ==>
      multiset(s.queue[d])[p] == if s.procs[p].sending && s.procs[p].sendto == s.procs[d].endpoint then 1 else 0
  }

  lemma {:induction false} CountNoDup(queue: seq<nat>, p: nat)
    requires NoDup(queue)
    ensures multiset(queue)[p] == if p in queue then 1 else 0
  {
    if queue != [] {
      assert queue == [queue[0]] + queue[1..];
      CountNoDup(queue[1..], p);
    }
  }

  lemma InvRendezvous(s: State)
    requires Inv(s)
    ensures NoMissedRendezvous(s)
  {
    hide AllEnd;
    forall p, q | 0 <= p < NSLOTS && 0 <= q < NSLOTS && WillReceive(s.procs[p], s.procs[q].endpoint)
      ensures !(s.procs[q].sending && s.procs[q].sendto == s.procs[p].endpoint)
      ensures s.procs[p].replyPend || q !in s.procs[p].notify
    {
      assert ProcOk(s, p) && ProcOk(s, q) && Meets(s, p) && QueueOk(s, p);
    }
  }

  lemma InvQueues(s: State)
    requires Inv(s)
    ensures QueuesExact(s)
  {
    hide AllEnd, Meets, BitsOk, ProcOk;
    forall p, d | 0 <= p < NSLOTS && 0 <= d < NSLOTS
      ensures multiset(s.queue[d])[p] == if s.procs[p].sending && s.procs[p].sendto == s.procs[d].endpoint then 1 else 0
    {
      assert QueueOk(s, d);
      CountNoDup(s.queue[d], p);
    }
  }

  /** From boot on, after every run. */
  lemma AlwaysSafe(s: State, evs: seq<Event>)
    requires Boot(s) && IsRun(s, evs)
    ensures var s' := Run(s, evs); NoWaitCycle(s') && NoMissedRendezvous(s') && QueuesExact(s')
  {
    BootInv(s);
    RunKeeps(s, evs);
    hide ProcOk, BitsOk, Meets, QueueOk, Run, IsRun, Boot, NoMissedRendezvous, QueuesExact;
    var s' := Run(s, evs);
    InvRendezvous(s');
    InvQueues(s');
    forall p, k: nat | 0 <= p < NSLOTS ensures !Reaches(WaitsFor(s'), p, p, k) {
      NoCycle(WaitsFor(s'), p, k);
    }
  }
}
