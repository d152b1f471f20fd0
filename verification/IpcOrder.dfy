/** First come, first served: the order of the caller queues over every run. */
module IpcOrder {
  import opened IpcState
  import opened IpcInvariant
  import opened IpcSteps
  import opened IpcCalls
  import opened IpcClear
  import opened IpcFork
  import opened IpcRuns
  import opened IpcDelivery
  import opened Links

  // ---------------------------------------------------------------- operations

  /** A receive leaves the queues alone or takes the first wanted caller. */
  predicate TakesFirst(s: State, s': State, c: nat, srcE: Endpoint)
    requires Shaped(s) && c < NSLOTS
  {
    var i := FirstWanted(s.queue[c], srcE, 0);
    s'.queue == s.queue || (i < |s.queue[c]| && s'.queue == s.queue[c := Without(s.queue[c], i)])
  }

  lemma ReceiveTakes(s: State, c: nat, srcE: Endpoint, tables: Tables)
    requires Shaped(s) && c < NSLOTS && (srcE == ANY || Slot(srcE))
    ensures TakesFirst(s, MiniReceive(s, c, srcE, tables).0, c, srcE)
  {
    hide Deadlock, Handed, TryOne, TryAsync, Noted, Received;
  }

  lemma TakeAdvances(s: State, s': State, c: nat, srcE: Endpoint, p: nat, d: nat)
    requires Inv(s) && c < NSLOTS && d < NSLOTS && TakesFirst(s, s', c, srcE)
    ensures |s'.queue| == NSLOTS && Advances(s.queue[d], s'.queue[d], p)
  {
    hide ProcOk, BitsOk, Meets, Place, Without;
    assert QueueOk(s, c);
    var i := FirstWanted(s.queue[c], srcE, 0);
    if i < |s.queue[c]| { PlaceWithout(s.queue[c], i, p); }
  }

  lemma SendAdvances(s: State, c: nat, e: Endpoint, m: Message, nonBlocking: bool, kernel: bool, copied: bool, p: nat,
      d: nat)
    requires Shaped(s) && c < NSLOTS && Slot(e) && d < NSLOTS && p != c
    ensures Advances(s.queue[d], MiniSend(s, c, e, m, nonBlocking, kernel, copied).0.queue[d], p)
  {
    hide Deadlock, Woken, Place;
    PlaceAppend(s.queue[d], c, p);
  }

  lemma SendRecAdvances(s: State, c: nat, e: Endpoint, m: Message, tables: Tables, copied: bool, p: nat, d: nat)
    requires Inv(s) && Runnable(s, c) && LinkFree(s, c, e, copied) && Live(s, e) && e.slot != c && d < NSLOTS && p != c
    ensures Advances(s.queue[d], SendRec(s, c, e, m, tables, copied).0.queue[d], p)
  {
    hide ProcOk, BitsOk, Meets, QueueOk, MiniReceive, MiniSend, Place;
    var (s1, sent) := MiniSend(s, c, e, m, false, false, copied);
    SendAdvances(s, c, e, m, false, false, copied, p, d);
    SendKeeps(s, c, e, m, false, false, copied);
    ReceiveTakes(s1, c, e, tables);
    TakeAdvances(s1, MiniReceive(s1, c, e, tables).0, c, e, p, d);
  }

  lemma CallAdvances(s: State, c: nat, call: Call, e: Endpoint, m: Message, tables: Tables, copied: bool, p: nat,
      d: nat)
    requires Inv(s) && Runnable(s, c) && MayQueue(s, c, call, e, copied) && d < NSLOTS && p != c
    ensures Advances(s.queue[d], DoSyncIpc(s, c, call, e, m, tables, copied).0.queue[d], p)
  {
    hide Meets, QueueOk, MiniSend, MiniReceive, MiniNotify, SendRec, Place;
    assert BitsOk(s, c) && ProcOk(s, c);
    if Refused(s, c, call, e) == OK {
      match call
      case SEND => SendAdvances(s, c, e, m, false, false, copied, p, d);
      case SENDNB => SendAdvances(s, c, e, m, true, false, copied, p, d);
      case NOTIFY =>
      case SENDA =>
      case SENDREC =>
        var x := s.procs[c].(replyPend := true);
        PutIdle(s, c, x);
        SameLink(s, c, e, copied);
        SendRecAdvances(Put(s, c, x), c, e, m, tables, copied, p, d);
      case RECEIVE =>
        var x := s.procs[c].(replyPend := false, status := {}, kernelStatus := false);
        PutIdle(s, c, x);
        ReceiveTakes(Put(s, c, x), c, e, tables);
        TakeAdvances(Put(s, c, x), MiniReceive(Put(s, c, x), c, e, tables).0, c, e, p, d);
    }
  }

  lemma ClearIpcAdvances(s: State, rc: nat, p: nat, d: nat)
    requires Inv(s) && rc < NSLOTS && d < NSLOTS
    ensures Advances(s.queue[d], ClearIpc(s, rc).queue[d], p)
  {
    hide ProcOk, BitsOk, Meets, Place, Without;
    var x := s.procs[rc];
    if x.sending && Slot(x.sendto) {
      var q := s.queue[x.sendto.slot];
      assert QueueOk(s, x.sendto.slot);
      var i := Place(q, rc, 0);
      if i < |q| { PlaceWithout(q, i, p); }
    }
  }

  /** Only the queue of `rc` itself is touched by the scan. */
  lemma {:induction false} ScanQueues(s: State, rc: nat, i: nat, d: nat)
    requires Inv(s) && rc < NSLOTS && i <= NSLOTS && d < NSLOTS && d != rc
    ensures ScanRefs(s, rc, i).queue[d] == s.queue[d]
    decreases NSLOTS - i
  {
    hide BitsOk, Meets, QueueOk, DropRef, ProcOk;
    if i < NSLOTS {
      DropKeeps(s, rc, i);
      DropQueues(s, rc, i, d);
      ScanQueues(DropRef(s, rc, i), rc, i + 1, d);
    }
  }

  lemma DropQueues(s: State, rc: nat, p: nat, d: nat)
    requires Inv(s) && rc < NSLOTS && p < NSLOTS && d < NSLOTS && d != rc
    ensures DropRef(s, rc, p).queue[d] == s.queue[d]
  {
    hide BitsOk, Meets, QueueOk, Place, Without;
    assert ProcOk(s, p) && ProcOk(s, rc);
  }

  lemma ExitAdvances(s: State, rc: nat, tables: Tables, p: nat, d: nat)
    requires Inv(s) && rc < NSLOTS && d < NSLOTS
    ensures BitsOk(s, rc) && Advances(s.queue[d], ClearProc(s, rc, tables).queue[d], p)
  {
    hide ProcOk, Meets, QueueOk, ClearIpc, CancelAll, ScanRefs, Place, Forgets;
    ClearEndpointDeparts(s, rc, tables);
    if d != rc {
      EndpointFirst(s, rc);
      ClearIpcKeeps(s, rc);
      ClearIpcAdvances(s, rc, p, d);
      var s1 := NoMoreEndpoint(ClearIpc(s, rc), rc);
      assert Idle(ClearIpc(s, rc).procs[rc]);
      NoEndpointKeeps(ClearIpc(s, rc), rc);
      CancelAllKeeps(s1, rc, tables);
      ScanQueues(CancelAll(s1, rc, tables), rc, 0, d);
    }
  }

  /** No event puts anybody ahead of a process that is queued. */
  lemma StepAdvances(s: State, ev: Event, p: nat, d: nat)
    requires Inv(s) && Enabled(s, ev) && Sane(s, ev) && p < NSLOTS && d < NSLOTS && s.procs[p].sending
    ensures Advances(s.queue[d], Step(s, ev).queue[d], p)
  {
    hide BitsOk, Meets, QueueOk, ProcOk, DoSyncIpc, MiniSend, MiniNotify, ClearProc, Handed, Child, Place;
    match ev
    case Ipc(c, call, e, m, tables, copied) => CallAdvances(s, c, call, e, m, tables, copied, p, d);
    case SendEntry(c, e, m, noReply) =>
    case KernelSend(c, e, m) => SendAdvances(s, c, e, m, false, true, true, p, d);
    case KernelNotify(source, e) =>
    case CopyOut(c) =>
    case Clone(parent, slot, user) =>
    case Exit(rc, tables) => ExitAdvances(s, rc, tables, p, d);
  }

  // ---------------------------------------------------------------------- runs

  /** How many callers stand before `p`. */
  function Before(s: State, p: nat): nat
    requires Shaped(s) && p < NSLOTS && Slot(s.procs[p].sendto)
  {
    Place(s.queue[s.procs[p].sendto.slot], p, 0)
  }

  /** A RECEIVE from ANY of `d` that takes a caller. */
  ghost predicate Turn(s: State, ev: Event, d: nat)
    requires Shaped(s) && Enabled(s, ev) && d < NSLOTS
  {
    ev.Ipc? && ev.c == d && ev.call == RECEIVE && ev.e == ANY && Step(s, ev).queue[d] != s.queue[d]
  }

  /** Such a turn serves the head of the queue, and only that. */
  lemma TurnServesHead(s: State, ev: Event, d: nat)
    requires Inv(s) && Enabled(s, ev) && Sane(s, ev) && d < NSLOTS && Turn(s, ev, d)
    ensures s.queue[d] != [] && Step(s, ev).queue[d] == s.queue[d][1..]
  {
    hide ProcOk, BitsOk, Meets, QueueOk, MiniReceive;
    var x := s.procs[d].(replyPend := false, status := {}, kernelStatus := false);
    ReceiveTakes(Put(s, d, x), d, ANY, ev.tables);
    assert s.queue[d] != [] ==> FirstWanted(s.queue[d], ANY, 0) == 0;
  }

  lemma ExitIdle(s: State, rc: nat, tables: Tables)
    requires Shaped(s) && rc < NSLOTS && BitsOk(s, rc)
    ensures Idle(ClearProc(s, rc, tables).procs[rc])
  {
    hide ClearEndpoint, BitsOk;
  }

  /** A process that goes on sending goes on sending to the same process. */
  lemma SendStays(s: State, ev: Event, p: nat)
    requires Inv(s) && Enabled(s, ev) && Sane(s, ev) && p < NSLOTS && s.procs[p].sending
    ensures Step(s, ev).procs[p].sending ==> Step(s, ev).procs[p].sendto == s.procs[p].sendto
  {
    hide BitsOk, Meets, QueueOk, DoSyncIpc, MiniSend, MiniNotify, SendAsync, ClearProc, Fork;
    assert ProcOk(s, p);
    match ev
    case Ipc(c, call, e, m, tables, copied) => CallOthers(s, c, call, e, m, tables, copied, p);
    case SendEntry(c, e, m, noReply) => SendAsyncOthers(s, c, e, m, noReply, p);
    case KernelSend(c, e, m) => SendOthers(s, c, e, m, false, true, true, p);
    case KernelNotify(source, e) => NotifyOthers(s, source, e, p);
    case CopyOut(c) =>
    case Clone(parent, slot, user) => ForkOthers(s, parent, slot, user, p);
    case Exit(rc, tables) => if p != rc { ExitOthers(s, rc, tables, p); } else { ExitIdle(s, rc, tables); }
  }

  /** One event: nobody gets ahead of a waiting process, and with every turn of
      its receiver it is one nearer. */
  lemma Nearer(s: State, ev: Event, p: nat)
    requires Inv(s) && Enabled(s, ev) && Sane(s, ev) && p < NSLOTS && s.procs[p].sending && Step(s, ev).procs[p].sending
    ensures Slot(s.procs[p].sendto) && Step(s, ev).procs[p].sendto == s.procs[p].sendto
    ensures
      var d := s.procs[p].sendto.slot;
      Before(Step(s, ev), p) + (if Turn(s, ev, d) then 1 else 0) <= Before(s, p) < |s.queue[d]|
  {
    StepKeeps(s, ev);
    hide BitsOk, Meets, Step, Enabled, Sane, Place;
    SendStays(s, ev, p);
    var s' := Step(s, ev);
    assert ProcOk(s, p) && ProcOk(s', p);
    var d := s.procs[p].sendto.slot;
    assert QueueOk(s, d) && QueueOk(s', d);
    assert ProcOk(s, d) && ProcOk(s', d);
    StepAdvances(s, ev, p, d);
    assert p in s.queue[d] && p in s'.queue[d];
    if Turn(s, ev, d) {
      TurnServesHead(s, ev, d);
      PlaceWithout(s.queue[d], 0, p);
      assert Without(s.queue[d], 0) == s.queue[d][1..];
    }
  }

  /** `p` is sending all along a run. */
  ghost predicate WaitsOn(s: State, evs: seq<Event>, p: nat)
    requires Shaped(s) && IsRun(s, evs) && p < NSLOTS
    decreases |evs|
  {
    s.procs[p].sending && (evs == [] || WaitsOn(Step(s, evs[0]), evs[1..], p))
  }

  ghost function Turns(s: State, evs: seq<Event>, d: nat): nat
    requires Shaped(s) && IsRun(s, evs) && d < NSLOTS
    decreases |evs|
  {
    if evs == [] then 0 else (if Turn(s, evs[0], d) then 1 else 0) + Turns(Step(s, evs[0]), evs[1..], d)
  }

  /** Over every run, whatever the others do, a process waits for at most as many
      turns of its receiver as there were callers before it. */
  lemma {:induction false} ServedInTurn(s: State, evs: seq<Event>, p: nat)
    requires Inv(s) && IsRun(s, evs) && p < NSLOTS && WaitsOn(s, evs, p)
    ensures Slot(s.procs[p].sendto) && Run(s, evs).procs[p].sendto == s.procs[p].sendto
    ensures Before(Run(s, evs), p) + Turns(s, evs, s.procs[p].sendto.slot) <= Before(s, p)
    decreases |evs|
  {
    assert Shaped(s) && ProcOk(s, p);
    hide Inv, Step, Enabled, Sane, Turn, Before;
    if evs != [] {
      StepKeeps(s, evs[0]);
      Nearer(s, evs[0], p);
      ServedInTurn(Step(s, evs[0]), evs[1..], p);
    }
  }
}
