/** What becomes of a waiting process: messages are neither lost nor changed,
    and a SENDREC is completed only by the process it was sent to. */
module IpcDelivery {
  import opened IpcState
  import opened IpcInvariant
  import opened IpcSteps
  import opened IpcCalls
  import opened IpcClear
  import opened IpcFork
  import opened IpcRuns
  import opened WaitGraph

  predicate SendKept(x: Proc, y: Proc) {
    x.sending ==> y.sending && y.sendto == x.sendto && y.sendmsg == x.sendmsg
  }

  predicate Waits(x: Proc) {
    x.receiving && x.replyPend
  }

  /** A SENDREC is still waited for; a message at hand is still there. */
  predicate WaitKept(x: Proc, y: Proc) {
    && (Waits(x) ==> Waits(y) && y.getfrom == x.getfrom)
    && (Idle(x) ==> Idle(y) && y.deliver == x.deliver && y.delivermsg == x.delivermsg)
  }

  predicate Kept(x: Proc, y: Proc) {
    x.sending == y.sending && SendKept(x, y) && WaitKept(x, y)
  }

  /** `y` holds the message that `x` was sending. */
  predicate Holds(x: Proc, y: Proc) {
    y.deliver && y.delivermsg == x.sendmsg.(source := x.endpoint)
  }

  lemma NotifyOthers(s: State, c: nat, e: Endpoint, p: nat)
    requires Inv(s) && c < NSLOTS && p < NSLOTS
    ensures Kept(s.procs[p], MiniNotify(s, c, e).0.procs[p])
  {
    hide ProcOk, BitsOk, Meets, QueueOk, Woken;
    if Slot(e) {
      WokenKin(s.procs[e.slot], s.procs[c].endpoint, Notification(s.procs[c].endpoint), NOTIFY, false);
    }
  }

  lemma TryOneOthers(s: State, q: nat, c: nat, tables: Tables, p: nat)
    requires Inv(s) && Runnable(s, c) && q in s.procs[c].asyn && p < NSLOTS && p != c
    ensures q < NSLOTS && Kept(s.procs[p], TryOne(s, q, c, tables).0.procs[p])
  {
    hide ProcOk, Meets, QueueOk, MiniNotify, Kept, Tried;
    assert BitsOk(s, c);
    var e, source := tables(q), s.procs[q].endpoint;
    TriedOk(s, q, c, e);
    var s1 := Put(s, c, Tried(s.procs[c], q, source, e));
    PutIdle(s, c, s1.procs[c]);
    NotifyOthers(s1, ASYNCM, source, p);
    KeptSelf(s.procs[p]);
  }

  lemma KeptSelf(x: Proc)
    ensures Kept(x, x)
  {
  }

  lemma {:induction false} TryAsyncOthers(s: State, q: nat, c: nat, tables: Tables, p: nat)
    requires Inv(s) && Runnable(s, c) && q <= NSLOTS && p < NSLOTS && p != c
    ensures Kept(s.procs[p], TryAsync(s, q, c, tables).0.procs[p])
    decreases NSLOTS - q
  {
    hide ProcOk, BitsOk, Meets, QueueOk, TryOne;
    if q < NSLOTS {
      if q in s.procs[c].asyn {
        TryOneKeeps(s, q, c, tables);
        TryOneOthers(s, q, c, tables, p);
        var s1 := TryOne(s, q, c, tables).0;
        if !TryOne(s, q, c, tables).1 {
          assert Kin(s.procs[c], s1.procs[c]);
          TryAsyncOthers(s1, q + 1, c, tables, p);
        }
      } else {
        TryAsyncOthers(s, q + 1, c, tables, p);
      }
    }
  }

  /** A sender that waited for `c` has its message with `c` now. */
  predicate Shipped(s: State, s': State, p: nat, c: nat)
    requires |s.procs| == |s'.procs| == NSLOTS && p < NSLOTS && c < NSLOTS
  {
    var x, y := s.procs[p], s'.procs[p];
    x.sending && !y.sending && x.sendto == s.procs[c].endpoint && Holds(x, s'.procs[c])
  }

  lemma TakeOthers(s: State, c: nat, i: nat, p: nat)
    requires Inv(s) && Runnable(s, c) && i < |s.queue[c]| && p < NSLOTS && p != c
    ensures s.queue[c][i] < NSLOTS
    ensures
      var s' := TakeFrom(s, c, i);
      WaitKept(s.procs[p], s'.procs[p]) && (SendKept(s.procs[p], s'.procs[p]) || Shipped(s, s', p, c))
  {
    hide ProcOk, BitsOk, Meets, Handed;
    assert QueueOk(s, c);
    var q := s.queue[c][i];
    assert q in s.queue[c];
    var sender := s.procs[q];
    var s1 := Put(s, q, Released(sender));
    assert s1.procs[c] == s.procs[c];
    HandedKin(s.procs[c], sender.endpoint, sender.sendmsg, if sender.replyPend then SENDREC else SEND,
        sender.fromKernel);
  }

  lemma FromQueueOthers(s: State, c: nat, srcE: Endpoint, p: nat)
    requires Inv(s) && Runnable(s, c) && p < NSLOTS && p != c
    ensures
      var s' := FromQueue(s, c, srcE).0;
      WaitKept(s.procs[p], s'.procs[p]) && (SendKept(s.procs[p], s'.procs[p]) || Shipped(s, s', p, c))
  {
    hide ProcOk, BitsOk, Meets, QueueOk, TakeFrom, Shipped, Deadlock;
    var i := FirstWanted(s.queue[c], srcE, 0);
    if i < |s.queue[c]| {
      TakeOthers(s, c, i, p);
    }
  }

  lemma FromAsyncOthers(s: State, c: nat, srcE: Endpoint, tables: Tables, p: nat)
    requires Inv(s) && Runnable(s, c) && p < NSLOTS && p != c
    ensures
      var s' := FromAsync(s, c, srcE, tables).0;
      WaitKept(s.procs[p], s'.procs[p]) && (SendKept(s.procs[p], s'.procs[p]) || Shipped(s, s', p, c))
  {
    hide ProcOk, BitsOk, Meets, QueueOk, TryOne, TryAsync, FromQueue;
    var q := HasPending(s.procs[c].asyn, srcE);
    if q == NSLOTS {
      FromQueueOthers(s, c, srcE, p);
    } else {
      var (s1, done) := if srcE.Ep? then TryOne(s, q, c, tables) else TryAsync(s, 0, c, tables);
      if srcE.Ep? {
        TryOneKeeps(s, q, c, tables);
        TryOneOthers(s, q, c, tables, p);
      } else {
        TryAsyncKeeps(s, 0, c, tables);
        TryAsyncOthers(s, 0, c, tables, p);
      }
      if !done {
        assert Kin(s.procs[c], s1.procs[c]) && Kin(s.procs[p], s1.procs[p]);
        FromQueueOthers(s1, c, srcE, p);
      }
    }
  }

  lemma ReceiveOthers(s: State, c: nat, srcE: Endpoint, tables: Tables, p: nat)
    requires Inv(s) && Runnable(s, c) && (srcE == ANY || Slot(srcE)) && p < NSLOTS && p != c
    ensures
      var s' := MiniReceive(s, c, srcE, tables).0;
      WaitKept(s.procs[p], s'.procs[p]) && (SendKept(s.procs[p], s'.procs[p]) || Shipped(s, s', p, c))
  {
    hide ProcOk, BitsOk, Meets, QueueOk, FromAsync, Shipped, Handed;
    FromAsyncOthers(s, c, srcE, tables, p);
  }

  /** A process that was waiting for a message of `c` has `m`. */
  predicate Served(s: State, s': State, p: nat, c: nat, m: Message)
    requires |s.procs| == |s'.procs| == NSLOTS && p < NSLOTS && c < NSLOTS
  {
    var x, y := s.procs[p], s'.procs[p];
    && WillReceive(x, s.procs[c].endpoint)
    && Idle(y) && y.deliver && y.delivermsg == m.(source := s.procs[c].endpoint)
  }

  lemma SendOthers(s: State, c: nat, e: Endpoint, m: Message, nonBlocking: bool, kernel: bool, copied: bool, p: nat)
    requires Inv(s) && Runnable(s, c) && Slot(e) && p < NSLOTS && p != c
    ensures
      var s' := MiniSend(s, c, e, m, nonBlocking, kernel, copied).0;
      && s'.procs[p].endpoint == s.procs[p].endpoint
      && SendKept(s.procs[p], s'.procs[p]) && (WaitKept(s.procs[p], s'.procs[p]) || Served(s, s', p, c, m))
  {
    hide ProcOk, BitsOk, Meets, QueueOk, Woken, Deadlock;
    var call := if s.procs[c].replyPend then SENDREC else if nonBlocking then SENDNB else SEND;
    WokenKin(s.procs[e.slot], s.procs[c].endpoint, m, call, kernel);
  }

  lemma SendAsyncOthers(s: State, c: nat, e: Endpoint, m: Message, noReply: bool, p: nat)
    requires Inv(s) && Runnable(s, c) && p < NSLOTS && p != c
    ensures
      var s' := SendAsync(s, c, e, m, noReply).0;
      SendKept(s.procs[p], s'.procs[p]) && (WaitKept(s.procs[p], s'.procs[p]) || Served(s, s', p, c, m))
  {
    hide ProcOk, BitsOk, Meets, QueueOk, Handed;
    if Slot(e) {
      HandedKin(s.procs[e.slot], s.procs[c].endpoint, m, SENDA, false);
    }
  }

  predicate Sends(call: Call) {
    call == SEND || call == SENDREC || call == SENDNB
  }

  predicate Receives(call: Call) {
    call == RECEIVE || call == SENDREC
  }

  /** The effect of a call of `c` on another process. */
  predicate Between(s: State, s': State, p: nat, c: nat, call: Call, m: Message)
    requires |s.procs| == |s'.procs| == NSLOTS && p < NSLOTS && c < NSLOTS
  {
    var x, y := s.procs[p], s'.procs[p];
    && (SendKept(x, y) || (Receives(call) && Shipped(s, s', p, c)))
    && (WaitKept(x, y) || (Sends(call) && Served(s, s', p, c, m)))
  }

  lemma SendRecOthers(s: State, c: nat, e: Endpoint, m: Message, tables: Tables, copied: bool, p: nat)
    requires Inv(s) && Runnable(s, c) && LinkFree(s, c, e, copied) && Live(s, e) && e.slot != c && p < NSLOTS && p != c
    ensures Between(s, SendRec(s, c, e, m, tables, copied).0, p, c, SENDREC, m)
  {
    hide ProcOk, BitsOk, Meets, QueueOk, MiniReceive, Deadlock;
    var (s1, sent) := MiniSend(s, c, e, m, false, false, copied);
    SendOthers(s, c, e, m, false, false, copied, p);
    SendKeeps(s, c, e, m, false, false, copied);
    if sent == OK {
      if WillReceive(s.procs[e.slot], s.procs[c].endpoint) {
        WokenIdle(s, c, e, m, copied);
        ReceiveOthers(s1, c, e, tables, p);
      } else {
        StillSending(s1, c, e, tables, p);
      }
    }
  }

  lemma StillSending(s: State, c: nat, e: Endpoint, tables: Tables, p: nat)
    requires Shaped(s) && c < NSLOTS && p < NSLOTS && p != c && s.procs[c].sending && Slot(e)
    ensures MiniReceive(s, c, e, tables).0.procs[p] == s.procs[p]
  {
    hide FromAsync, Deadlock, Handed;
  }

  lemma CallOthers(s: State, c: nat, call: Call, e: Endpoint, m: Message, tables: Tables, copied: bool, p: nat)
    requires Inv(s) && Runnable(s, c) && MayQueue(s, c, call, e, copied) && !SelfWait(s, c, call, e) && p < NSLOTS
    requires p != c
    ensures Between(s, DoSyncIpc(s, c, call, e, m, tables, copied).0, p, c, call, m)
  {
    hide Meets, QueueOk, MiniSend, MiniReceive, MiniNotify, SendRec, WaitKept, SendKept;
    assert BitsOk(s, c) && ProcOk(s, c);
    KeptSelf(s.procs[p]);
    if Refused(s, c, call, e) == OK {
      match call
      case SEND => SendOthers(s, c, e, m, false, false, copied, p);
      case SENDNB => SendOthers(s, c, e, m, true, false, copied, p);
      case NOTIFY => NotifyOthers(s, c, e, p);
      case SENDA =>
      case SENDREC =>
        var x := s.procs[c].(replyPend := true);
        PutIdle(s, c, x);
        SameLink(s, c, e, copied);
        SendRecOthers(Put(s, c, x), c, e, m, tables, copied, p);
      case RECEIVE =>
        var x := s.procs[c].(replyPend := false, status := {}, kernelStatus := false);
        PutIdle(s, c, x);
        ReceiveOthers(Put(s, c, x), c, e, tables, p);
    }
  }

  // -------------------------------------------------------------------- exit

  lemma {:induction false} CancelOthers(s: State, rc: nat, tables: Tables, p: nat)
    requires Inv(s) && rc < NSLOTS && Idle(s.procs[rc]) && p < NSLOTS && p != rc
    ensures BitsOk(s, rc)
    ensures Kept(s.procs[p], CancelAll(s, rc, tables).procs[p])
    decreases |s.procs[rc].asyn|
  {
    hide ProcOk, Meets, QueueOk, MiniNotify;
    assert BitsOk(s, rc);
    var q := HasPending(s.procs[rc].asyn, ANY);
    if q < NSLOTS {
      CancelKeeps(s, q, rc, tables);
      CancelLess(s, q, rc, tables);
      CancelOneOther(s, q, rc, tables, p);
      CancelOthers(CancelAsync(s, q, rc, tables), rc, tables, p);
    }
  }

  lemma CancelOneOther(s: State, q: nat, rc: nat, tables: Tables, p: nat)
    requires Inv(s) && rc < NSLOTS && Idle(s.procs[rc]) && q in s.procs[rc].asyn && p < NSLOTS && p != rc
    ensures q < NSLOTS && Kept(s.procs[p], CancelAsync(s, q, rc, tables).procs[p])
  {
    hide ProcOk, Meets, QueueOk, MiniNotify, Kept;
    assert BitsOk(s, rc);
    var x := s.procs[rc].(asyn := s.procs[rc].asyn - {q});
    var s1 := Put(s, rc, x);
    assert BitsOk(s1, rc) by {
      assert forall r :: 0 <= r < NSLOTS ==> Kin(s.procs[r], s1.procs[r]);
    }
    PutIdle(s, rc, x);
    KeptSelf(s.procs[p]);
    NotifyOthers(s1, ASYNCM, s.procs[q].endpoint, p);
  }

  /** A process that is sent back with an error. */
  predicate Failed(y: Proc) {
    Idle(y) && !y.deliver && y.ret == EDEADSRCDST
  }

  lemma {:induction false} ScanOthers(s: State, rc: nat, i: nat, p: nat)
    requires Inv(s) && rc < NSLOTS && i <= NSLOTS && p < NSLOTS
    ensures
      var y := ScanRefs(s, rc, i).procs[p];
      && (p < i || BlockedOn(s.procs[p]) != s.procs[rc].endpoint ==> Kept(s.procs[p], y))
      && (p >= i && BlockedOn(s.procs[p]) == s.procs[rc].endpoint ==> Failed(y))
      && (p < i ==> y == s.procs[p])
    decreases NSLOTS - i
  {
    hide BitsOk, Meets, QueueOk, DropRef, ProcOk, Kept, Failed;
    KeptSelf(s.procs[p]);
    if i < NSLOTS {
      DropKeeps(s, rc, i);
      DropOne(s, rc, i);
      var s1 := DropRef(s, rc, i);
      assert Kin(s.procs[rc], s1.procs[rc]);
      ScanOthers(s1, rc, i + 1, p);
    }
  }

  lemma DropOne(s: State, rc: nat, p: nat)
    requires Inv(s) && rc < NSLOTS && p < NSLOTS
    ensures
      var y := DropRef(s, rc, p).procs[p];
      && (BlockedOn(s.procs[p]) != s.procs[rc].endpoint ==> Kept(s.procs[p], y))
      && (BlockedOn(s.procs[p]) == s.procs[rc].endpoint ==> Failed(y))
  {
    hide BitsOk, Meets, QueueOk;
    assert ProcOk(s, p) && ProcOk(s, rc);
  }

  /** The exit of `rc` fails those blocked on it and leaves the others alone. */
  lemma ExitOthers(s: State, rc: nat, tables: Tables, p: nat)
    requires Inv(s) && rc < NSLOTS && p < NSLOTS && p != rc
    ensures BitsOk(s, rc)
    ensures
      var x, y := s.procs[p], ClearProc(s, rc, tables).procs[p];
      && (BlockedOn(x) != s.procs[rc].endpoint ==> SendKept(x, y) && WaitKept(x, y))
      && (BlockedOn(x) == s.procs[rc].endpoint && (x.sending || x.replyPend) ==> Failed(y))
  {
    hide ProcOk, Meets, QueueOk, ClearIpc, CancelAll, ScanRefs, Failed;
    assert BitsOk(s, rc);
    EndpointFirst(s, rc);
    ClearIpcKeeps(s, rc);
    var s1 := NoMoreEndpoint(ClearIpc(s, rc), rc);
    assert Idle(ClearIpc(s, rc).procs[rc]);
    NoEndpointKeeps(ClearIpc(s, rc), rc);
    CancelAllKeeps(s1, rc, tables);
    CancelOthers(s1, rc, tables, p);
    var s2 := CancelAll(s1, rc, tables);
    assert Kin(s1.procs[rc], s2.procs[rc]);
    ScanOthers(s2, rc, 0, p);
  }

  lemma ForkOthers(s: State, e: Endpoint, slot: nat, user: Rights, p: nat)
    requires Shaped(s) && slot < NSLOTS && p < NSLOTS
    ensures Fork(s, e, slot, user).0.procs[p] == s.procs[p] || (p == slot && s.procs[p].free)
  {
  }

  // ---------------------------------------------------------------- theorems

  /** The process that sends a message of its own by an event, if any. */
  predicate SentBy(ev: Event, c: nat) {
    match ev
    case Ipc(b, call, _, _, _, _) => b == c && Sends(call)
    case SendEntry(b, _, _, _) => b == c
    case KernelSend(b, _, _) => b == c
    case _ => false
  }

  function Body(ev: Event): Message
    requires ev.Ipc? || ev.SendEntry? || ev.KernelSend?
  {
    ev.m
  }

  /** No message in transit is lost, changed or delivered elsewhere: a process
      that is sending goes on sending the same message to the same process,
      until that one receives just this message, or one of the two exits. */
  lemma SenderKept(s: State, ev: Event, p: nat)
    requires Inv(s) && Enabled(s, ev) && Sane(s, ev) && p < NSLOTS && s.procs[p].sending
    ensures
      var s' := Step(s, ev); var x, y := s.procs[p], s'.procs[p];
      || (y.sending && y.sendto == x.sendto && y.sendmsg == x.sendmsg)
      || (ev.Ipc? && Receives(ev.call) && x.sendto == s.procs[ev.c].endpoint && Holds(x, s'.procs[ev.c]))
      || (ev.Exit? && (ev.rc == p || x.sendto == s.procs[ev.rc].endpoint))
  {
    StepKeeps(s, ev);
    hide BitsOk, Meets, QueueOk, ProcOk, DoSyncIpc, MiniSend, MiniNotify, SendAsync, ClearProc, Fork, Holds;
    match ev
    case Ipc(c, call, e, m, tables, copied) => CallOthers(s, c, call, e, m, tables, copied, p);
    case SendEntry(c, e, m, noReply) => SendAsyncOthers(s, c, e, m, noReply, p);
    case KernelSend(c, e, m) => SendOthers(s, c, e, m, false, true, true, p);
    case KernelNotify(source, e) => NotifyOthers(s, source, e, p);
    case CopyOut(c) =>
    case Clone(parent, slot, user) => assert ProcOk(s, p); ForkOthers(s, parent, slot, user, p);
    case Exit(rc, tables) => if p != rc { ExitOthers(s, rc, tables, p); }
  }

  /** A SENDREC waiting for its reply goes on waiting for it, until the process
      it was sent to sends a message, which is what it gets, or one of the two
      exits.  In particular no notification completes it. */
  ghost predicate Completes(s: State, ev: Event, p: nat, e: Endpoint)
    requires Shaped(s) && Enabled(s, ev) && p < NSLOTS
  {
    var y := Step(s, ev).procs[p];
    || (Slot(e) && s.procs[e.slot].endpoint == e && SentBy(ev, e.slot)
        && Idle(y) && y.deliver && y.delivermsg == Body(ev).(source := e))
    || (ev.Exit? && ev.rc != p && e == s.procs[ev.rc].endpoint && Failed(y))
    || (ev.Exit? && ev.rc == p)
  }

  lemma SendRecStep(s: State, ev: Event, p: nat)
    requires Inv(s) && Enabled(s, ev) && Sane(s, ev) && p < NSLOTS && Waits(s.procs[p])
    ensures
      var x, y := s.procs[p], Step(s, ev).procs[p];
      (Waits(y) && y.getfrom == x.getfrom) || Completes(s, ev, p, x.getfrom)
  {
    StepKeeps(s, ev);
    assert ProcOk(s, p);
    hide BitsOk, Meets, QueueOk, DoSyncIpc, MiniSend, MiniNotify, SendAsync, ClearProc, Fork, Failed;
    match ev
    case Ipc(c, call, e, m, tables, copied) => CallOthers(s, c, call, e, m, tables, copied, p); assert ProcOk(s, c);
    case SendEntry(c, e, m, noReply) => SendAsyncOthers(s, c, e, m, noReply, p); assert ProcOk(s, c);
    case KernelSend(c, e, m) => SendOthers(s, c, e, m, false, true, true, p); assert ProcOk(s, c);
    case KernelNotify(source, e) => NotifyOthers(s, source, e, p);
    case CopyOut(c) =>
    case Clone(parent, slot, user) => assert ProcOk(s, p); ForkOthers(s, parent, slot, user, p);
    case Exit(rc, tables) => if p != rc { ExitOthers(s, rc, tables, p); }
  }

  /** Some event of the run completes the SENDREC of `p` to `e`, which is waited
      for until then. */
  ghost predicate Answered(s: State, evs: seq<Event>, p: nat, e: Endpoint)
    requires Shaped(s) && IsRun(s, evs) && p < NSLOTS
    decreases |evs|
  {
    && Waits(s.procs[p]) && s.procs[p].getfrom == e && evs != []
    && (Completes(s, evs[0], p, e) || Answered(Step(s, evs[0]), evs[1..], p, e))
  }

  /** Over a whole run, a SENDREC to `e` is still waiting at the end, or some
      event on the way completed it. */
  lemma {:induction false} SendRecRun(s: State, evs: seq<Event>, p: nat, e: Endpoint)
    requires Inv(s) && IsRun(s, evs) && p < NSLOTS && Waits(s.procs[p]) && s.procs[p].getfrom == e
    ensures Inv(Run(s, evs))
    ensures Answered(s, evs, p, e) || (Waits(Run(s, evs).procs[p]) && Run(s, evs).procs[p].getfrom == e)
    decreases |evs|
  {
    hide ProcOk, BitsOk, Meets, QueueOk, Step, Enabled, Completes;
    RunKeeps(s, evs);
    if evs != [] {
      StepKeeps(s, evs[0]);
      SendRecStep(s, evs[0], p);
      var s1 := Step(s, evs[0]);
      if Waits(s1.procs[p]) && s1.procs[p].getfrom == e {
        SendRecRun(s1, evs[1..], p, e);
      }
    }
  }

  /** A send that succeeds has its message with the receiver, or the caller
      waits at the end of its queue; one that fails changes nothing, and it
      fails with ELOCKED only if the receiver waits for the caller. */
  lemma SendArrives(s: State, c: nat, e: Endpoint, m: Message, nonBlocking: bool, kernel: bool, copied: bool)
    requires Inv(s) && Runnable(s, c) && Live(s, e) && e.slot != c
    ensures Closed(WaitsFor(s))
    ensures
      var (s', r) := MiniSend(s, c, e, m, nonBlocking, kernel, copied); var y := s'.procs[c];
      && (r != OK ==> s' == s)
      && (r == ELOCKED ==> Reaches(WaitsFor(s), e.slot, c, NSLOTS))
      && (r == OK ==>
           || Served(s, s', e.slot, c, m)
           || (y.sending && y.sendto == e && y.sendmsg == m && s'.queue[e.slot] == s.queue[e.slot] + [c]))
  {
    hide BitsOk, Meets, QueueOk, ProcOk, Woken, Deadlock, AllEnd;
    EdgesClosed(s);
    var call := if s.procs[c].replyPend then SENDREC else if nonBlocking then SENDNB else SEND;
    WokenKin(s.procs[e.slot], s.procs[c].endpoint, m, call, kernel);
    if !Exempt(s, SEND, c, e) { DeadlockExact(s, SEND, c, e); } else { ExemptFree(s, SEND, c, e); }
  }

  /** Of two processes, a send against a receive is not a deadlock. */
  lemma ExemptFree(s: State, call: Call, c: nat, e: Endpoint)
    requires |s.procs| == NSLOTS && c < NSLOTS && Slot(e) && Exempt(s, call, c, e)
    ensures Deadlock(s, call, c, e) == 0
  {
  }

  /** A receive from ANY takes the caller that has waited longest: its message
      unchanged but for the source, and nobody else from the queue. */
  lemma OldestFirst(s: State, c: nat, m: Message, tables: Tables, copied: bool)
    requires Inv(s) && Runnable(s, c) && RECEIVE in s.procs[c].traps
    requires s.procs[c].notify == {} && s.procs[c].asyn == {} && s.queue[c] != []
    ensures
      var (s', r) := DoSyncIpc(s, c, RECEIVE, ANY, m, tables, copied);
      var q := s.queue[c][0];
      && r == OK && q < NSLOTS && Holds(s.procs[q], s'.procs[c]) && !s'.procs[q].sending
      && s'.queue == s.queue[c := s.queue[c][1..]]
      && forall p :: 0 <= p < NSLOTS && p != c && p != q ==> s'.procs[p] == s.procs[p]
  {
    hide BitsOk, Meets, ProcOk, Handed;
    assert QueueOk(s, c);
    var q := s.queue[c][0];
    assert q in s.queue[c];
    var x := s.procs[c].(replyPend := false, status := {}, kernelStatus := false);
    var s1 := Put(s, c, x);
    assert FirstWanted(s1.queue[c], ANY, 0) == 0;
    assert DoSyncIpc(s, c, RECEIVE, ANY, m, tables, copied) == (TakeFrom(s1, c, 0), OK);
    var sender := s1.procs[q];
    assert sender == s.procs[q];
    HandedKin(x, sender.endpoint, sender.sendmsg, if sender.replyPend then SENDREC else SEND, sender.fromKernel);
    assert s.queue[c][..0] + s.queue[c][1..] == s.queue[c][1..];
  }

  // ------------------------------------------------------------- stale links

  /** An exit that leaves no stale p_q_link. */
  ghost predicate Tidy(s: State, rc: nat)
    requires Shaped(s) && rc < NSLOTS
  {
    !Followed(s, rc) && forall i, j :: 0 <= i < j < |s.queue[rc]| ==> s.queue[rc][j] <= s.queue[rc][i]
  }

  lemma ExitTidy(s: State, rc: nat, tables: Tables)
    requires Inv(s) && rc < NSLOTS && s.stale == {}
    ensures BitsOk(s, rc)
    ensures ClearProc(s, rc, tables).stale == {} <==> Tidy(s, rc)
  {
    assert BitsOk(s, rc);
    hide ProcOk, BitsOk, Meets, QueueOk, ClearEndpoint, Followed;
    ClearEndpointStale(s, rc, tables);
    var queue := s.queue[rc];
    forall i, j | 0 <= i < j < |queue| && queue[i] < queue[j] ensures queue[i] in Overtaken(queue) {
    }
  }
}
