/** MF_REPLY_PEND: when the flag is left set although no reply is awaited, and
    what that does to the call a receiver is told of. */
module IpcReply {
  import opened IpcState
  import opened IpcInvariant
  import opened IpcSteps
  import opened IpcCalls
  import opened IpcClear
  import opened IpcFork
  import opened IpcRuns
  import opened IpcDelivery
  import opened IpcExit

  /** The flag is set, but the process awaits no reply. */
  predicate Stray(x: Proc) {
    !x.free && x.replyPend && !x.receiving
  }

  /** What an operation leaves alone in a process that it is not about. */
  predicate Steady(x: Proc, y: Proc) {
    && Stray(x) == Stray(y) && x.endpoint == y.endpoint
    && (y.sending ==> x.sending && y.receiving == x.receiving && y.replyPend == x.replyPend)
    && (Idle(x) ==> Idle(y) && y.status == x.status)
  }

  /** The same and more: a process with the flag stays as it is. */
  predicate Firm(x: Proc, y: Proc) {
    && Steady(x, y) && x.replyPend == y.replyPend && x.free == y.free && x.fromKernel == y.fromKernel
    && (x.replyPend ==> y.receiving == x.receiving && BlockedOn(y) == BlockedOn(x))
  }

  lemma SteadyTrans(x: Proc, y: Proc, z: Proc)
    requires Steady(x, y) && Steady(y, z)
    ensures Steady(x, z)
  {
  }

  lemma FirmTrans(x: Proc, y: Proc, z: Proc)
    requires Firm(x, y) && Firm(y, z)
    ensures Firm(x, z)
  {
  }

  // ------------------------------------------------------- the other processes

  lemma NotifyFirm(s: State, c: nat, e: Endpoint, p: nat)
    requires |s.procs| == NSLOTS && c < NSLOTS && p < NSLOTS
    ensures Firm(s.procs[p], MiniNotify(s, c, e).0.procs[p])
  {
    hide Woken;
    if Slot(e) {
      WokenKin(s.procs[e.slot], s.procs[c].endpoint, Notification(s.procs[c].endpoint), NOTIFY, false);
    }
  }

  lemma TryOneFirm(s: State, q: nat, c: nat, tables: Tables, p: nat)
    requires |s.procs| == NSLOTS && c < NSLOTS && q < NSLOTS && p < NSLOTS && p != c
    ensures Firm(s.procs[p], TryOne(s, q, c, tables).0.procs[p])
  {
    hide MiniNotify, Tried;
    var e, source := tables(q), s.procs[q].endpoint;
    NotifyFirm(Put(s, c, Tried(s.procs[c], q, source, e)), ASYNCM, source, p);
  }

  lemma {:induction false} TryAsyncFirm(s: State, q: nat, c: nat, tables: Tables, p: nat)
    requires |s.procs| == NSLOTS && c < NSLOTS && q <= NSLOTS && p < NSLOTS && p != c
    ensures Firm(s.procs[p], TryAsync(s, q, c, tables).0.procs[p])
    decreases NSLOTS - q
  {
    hide TryOne, Firm;
    if q == NSLOTS {
      FirmSelf(s.procs[p]);
    } else if q !in s.procs[c].asyn {
      TryAsyncFirm(s, q + 1, c, tables, p);
    } else {
      var (s1, done) := TryOne(s, q, c, tables);
      TryOneFirm(s, q, c, tables, p);
      if !done {
        TryAsyncFirm(s1, q + 1, c, tables, p);
        FirmTrans(s.procs[p], s1.procs[p], TryAsync(s1, q + 1, c, tables).0.procs[p]);
      }
    }
  }

  lemma FirmSelf(x: Proc)
    ensures Firm(x, x)
  {
  }

  lemma ReleasedFlag(x: Proc)
    ensures var y := Released(x); Kin(x, y) && !y.sending && y.receiving == x.receiving && y.replyPend == x.replyPend
  {
  }

  lemma FromQueueSteady(s: State, c: nat, srcE: Endpoint, p: nat)
    requires Inv(s) && c < NSLOTS && p < NSLOTS && p != c
    ensures Steady(s.procs[p], FromQueue(s, c, srcE).0.procs[p])
  {
    hide ProcOk, BitsOk, Meets, Deadlock, Handed, Released;
    assert QueueOk(s, c);
    var i := FirstWanted(s.queue[c], srcE, 0);
    if i < |s.queue[c]| && s.queue[c][i] < NSLOTS {
      ReleasedFlag(s.procs[p]);
      assert s.queue[c][i] in s.queue[c];
    }
  }

  lemma FromAsyncSteady(s: State, c: nat, srcE: Endpoint, tables: Tables, p: nat)
    requires Inv(s) && Runnable(s, c) && p < NSLOTS && p != c
    ensures Steady(s.procs[p], FromAsync(s, c, srcE, tables).0.procs[p])
  {
    hide ProcOk, BitsOk, Meets, QueueOk, FromQueue, TryOne, TryAsync, Steady;
    var q := HasPending(s.procs[c].asyn, srcE);
    if q == NSLOTS {
      FromQueueSteady(s, c, srcE, p);
    } else {
      var (s1, done) := if srcE.Ep? then TryOne(s, q, c, tables) else TryAsync(s, 0, c, tables);
      if srcE.Ep? {
        TryOneFirm(s, q, c, tables, p);
        TryOneKeeps(s, q, c, tables);
      } else {
        TryAsyncFirm(s, 0, c, tables, p);
        TryAsyncKeeps(s, 0, c, tables);
      }
      if !done {
        FromQueueSteady(s1, c, srcE, p);
        SteadyTrans(s.procs[p], s1.procs[p], FromQueue(s1, c, srcE).0.procs[p]);
      }
    }
  }

  lemma ReceiveSteady(s: State, c: nat, srcE: Endpoint, tables: Tables, p: nat)
    requires Inv(s) && Runnable(s, c) && (srcE == ANY || Slot(srcE)) && p < NSLOTS && p != c
    ensures Steady(s.procs[p], MiniReceive(s, c, srcE, tables).0.procs[p])
  {
    hide ProcOk, BitsOk, Meets, QueueOk, FromAsync, Handed, Steady;
    FirmSelf(s.procs[p]);
    FromAsyncSteady(s, c, srcE, tables, p);
  }

  lemma SendSteady(s: State, c: nat, e: Endpoint, m: Message, nonBlocking: bool, kernel: bool, copied: bool, p: nat)
    requires Shaped(s) && c < NSLOTS && Slot(e) && p < NSLOTS && p != c
    ensures Steady(s.procs[p], MiniSend(s, c, e, m, nonBlocking, kernel, copied).0.procs[p])
  {
    hide Woken, Deadlock;
    var call := if s.procs[c].replyPend then SENDREC else if nonBlocking then SENDNB else SEND;
    WokenKin(s.procs[e.slot], s.procs[c].endpoint, m, call, kernel);
  }

  lemma SendRecSteady(s: State, c: nat, e: Endpoint, m: Message, tables: Tables, copied: bool, p: nat)
    requires Inv(s) && Runnable(s, c) && LinkFree(s, c, e, copied) && Live(s, e) && e.slot != c && p < NSLOTS && p != c
    ensures Steady(s.procs[p], SendRec(s, c, e, m, tables, copied).0.procs[p])
  {
    hide ProcOk, BitsOk, Meets, QueueOk, MiniReceive, Deadlock, Steady;
    var (s1, sent) := MiniSend(s, c, e, m, false, false, copied);
    SendSteady(s, c, e, m, false, false, copied, p);
    SendKeeps(s, c, e, m, false, false, copied);
    if sent == OK {
      if WillReceive(s.procs[e.slot], s.procs[c].endpoint) {
        WokenIdle(s, c, e, m, copied);
        ReceiveSteady(s1, c, e, tables, p);
        SteadyTrans(s.procs[p], s1.procs[p], MiniReceive(s1, c, e, tables).0.procs[p]);
      } else {
        StillSending(s1, c, e, tables, p);
      }
    }
  }

  lemma CallSteady(s: State, c: nat, call: Call, e: Endpoint, m: Message, tables: Tables, copied: bool, p: nat)
    requires Inv(s) && Runnable(s, c) && MayQueue(s, c, call, e, copied) && p < NSLOTS && p != c
    ensures Steady(s.procs[p], DoSyncIpc(s, c, call, e, m, tables, copied).0.procs[p])
  {
    hide Meets, QueueOk, MiniSend, MiniReceive, MiniNotify, SendRec, Steady;
    assert BitsOk(s, c) && ProcOk(s, c);
    FirmSelf(s.procs[p]);
    if Refused(s, c, call, e) == OK {
      match call
      case SEND => SendSteady(s, c, e, m, false, false, copied, p);
      case SENDNB => SendSteady(s, c, e, m, true, false, copied, p);
      case NOTIFY => NotifyFirm(s, c, e, p);
      case SENDA =>
      case SENDREC =>
        var x := s.procs[c].(replyPend := true);
        PutIdle(s, c, x);
        SameLink(s, c, e, copied);
        SendRecSteady(Put(s, c, x), c, e, m, tables, copied, p);
      case RECEIVE =>
        var x := s.procs[c].(replyPend := false, status := {}, kernelStatus := false);
        PutIdle(s, c, x);
        ReceiveSteady(Put(s, c, x), c, e, tables, p);
    }
  }

  // ------------------------------------------------------------ the caller

  /** A receive never sets the flag, and one that goes well clears it or has the
      caller wait. */
  predicate Settled(x: Proc, y: Proc, r: Result) {
    && y.free == x.free && (y.replyPend ==> x.replyPend) && !y.sending && (r == OK ==> y.receiving || !y.replyPend)
  }

  /** The call that a receiver taking the message of `sender` is told of. */
  function ToldOf(sender: Proc): Call {
    if sender.replyPend then SENDREC else SEND
  }

  lemma TakeOwn(s: State, c: nat, i: nat)
    requires Shaped(s) && c < NSLOTS && i < |s.queue[c]| && s.queue[c][i] < NSLOTS && s.queue[c][i] != c
    ensures
      var sender := s.procs[s.queue[c][i]];
      TakeFrom(s, c, i).procs[c]
        == Received(Handed(s.procs[c], sender.endpoint, sender.sendmsg, ToldOf(sender), sender.fromKernel))
  {
    hide Handed, Received;
  }

  lemma ReceivedFlag(x: Proc, source: Endpoint, m: Message, call: Call, kernel: bool)
    ensures var y := Received(Handed(x, source, m, call, kernel)); Settled(x, y, OK) || x.sending
    ensures !x.replyPend ==>
      var y := Received(Handed(x, source, m, call, kernel));
      y.status == x.status + {call} && y.kernelStatus == (x.kernelStatus || kernel)
  {
  }

  lemma NotOwnQueue(s: State, c: nat, i: nat)
    requires Inv(s) && c < NSLOTS && !s.procs[c].sending && i < |s.queue[c]|
    ensures s.queue[c][i] < NSLOTS && s.queue[c][i] != c
  {
    hide ProcOk, BitsOk, Meets;
    assert QueueOk(s, c);
    assert s.queue[c][i] in s.queue[c];
  }

  lemma BlockFlag(s: State, c: nat, srcE: Endpoint)
    requires Shaped(s) && c < NSLOTS && !s.procs[c].sending
    ensures var (s', r) := Block(s, c, srcE); Settled(s.procs[c], s'.procs[c], r)
  {
    hide Deadlock, Settled;
    BlockedSettled(s.procs[c], srcE);
  }

  lemma BlockedSettled(x: Proc, srcE: Endpoint)
    requires !x.sending
    ensures Settled(x, x.(getfrom := srcE, receiving := true), OK) && Settled(x, x, ELOCKED)
  {
  }

  lemma FromQueueFlag(s: State, c: nat, srcE: Endpoint)
    requires Inv(s) && c < NSLOTS && !s.procs[c].sending
    ensures var (s', r) := FromQueue(s, c, srcE); Settled(s.procs[c], s'.procs[c], r)
  {
    assert Shaped(s);
    BlockFlag(s, c, srcE);
    hide Inv, Block, Handed, Received, TakeFrom, Settled;
    var i := FirstWanted(s.queue[c], srcE, 0);
    if i < |s.queue[c]| {
      NotOwnQueue(s, c, i);
      TakeOwn(s, c, i);
      var sender := s.procs[s.queue[c][i]];
      ReceivedFlag(s.procs[c], sender.endpoint, sender.sendmsg, ToldOf(sender), sender.fromKernel);
    }
  }

  lemma NotedFlag(x: Proc)
    ensures
      var y := Received(Noted(x, SENDA, false));
      y.free == x.free && !y.replyPend && y.sending == x.sending && y.receiving == x.receiving
  {
  }

  lemma FromAsyncFlag(s: State, c: nat, srcE: Endpoint, tables: Tables)
    requires Inv(s) && Runnable(s, c)
    ensures var (s', r) := FromAsync(s, c, srcE, tables); Settled(s.procs[c], s'.procs[c], r)
  {
    hide ProcOk, BitsOk, Meets, QueueOk, FromQueue, TryOne, TryAsync, Noted;
    var q := HasPending(s.procs[c].asyn, srcE);
    if q == NSLOTS {
      FromQueueFlag(s, c, srcE);
    } else {
      var (s1, done) := if srcE.Ep? then TryOne(s, q, c, tables) else TryAsync(s, 0, c, tables);
      if srcE.Ep? { TryOneKeeps(s, q, c, tables); } else { TryAsyncKeeps(s, 0, c, tables); }
      if done { NotedFlag(s1.procs[c]); } else { FromQueueFlag(s1, c, srcE); }
    }
  }

  lemma ReceiveFlag(s: State, c: nat, srcE: Endpoint, tables: Tables)
    requires Inv(s) && Runnable(s, c) && (srcE == ANY || Slot(srcE))
    ensures var (s', r) := MiniReceive(s, c, srcE, tables); Settled(s.procs[c], s'.procs[c], r)
  {
    hide ProcOk, BitsOk, Meets, QueueOk, FromAsync, Handed;
    FromAsyncFlag(s, c, srcE, tables);
    var q := HasPending(s.procs[c].notify, srcE);
    if q < NSLOTS {
      var source := s.procs[q].endpoint;
      HandedKin(s.procs[c].(notify := s.procs[c].notify - {q}), source, Notification(source), NOTIFY, false);
    }
  }

  /** A send that does not go well: a test on the state before. */
  predicate SendFails(s: State, c: nat, e: Endpoint, copied: bool)
    requires |s.procs| == NSLOTS && c < NSLOTS && Slot(e)
  {
    var dst := s.procs[e.slot];
    dst.noEndpoint || !copied || (!WillReceive(dst, s.procs[c].endpoint) && Deadlock(s, SEND, c, e) != 0)
  }

  lemma SendRecFlag(s: State, c: nat, e: Endpoint, m: Message, tables: Tables, copied: bool)
    requires Inv(s) && Runnable(s, c) && LinkFree(s, c, e, copied) && s.procs[c].replyPend && Live(s, e) && e.slot != c
    ensures
      var y := SendRec(s, c, e, m, tables, copied).0.procs[c];
      && (Stray(y) <==> SendFails(s, c, e, copied))
      && (y.sending ==> y.receiving) && !y.free
  {
    hide ProcOk, BitsOk, Meets, QueueOk, MiniReceive, Deadlock;
    SendRecKeeps(s, c, e, m, tables, copied);
    var (s1, sent) := MiniSend(s, c, e, m, false, false, copied);
    assert sent != OK <==> SendFails(s, c, e, copied);
    if sent == OK {
      if WillReceive(s.procs[e.slot], s.procs[c].endpoint) {
        SendKeeps(s, c, e, m, false, false, copied);
        WokenIdle(s, c, e, m, copied);
        ReceiveFlag(s1, c, e, tables);
      } else {
        SentBlocked(s, c, e, m, tables, copied);
      }
    }
  }

  /** The exact condition for a SENDREC that is not refused: the flag is left
      behind if and only if its send half fails. */
  lemma SendRecLeaves(s: State, c: nat, e: Endpoint, m: Message, tables: Tables, copied: bool)
    requires Inv(s) && Runnable(s, c) && MayQueue(s, c, SENDREC, e, copied) && Refused(s, c, SENDREC, e) == OK
    ensures
      var y := DoSyncIpc(s, c, SENDREC, e, m, tables, copied).0.procs[c];
      && (Idle(y) && y.replyPend <==> SendFails(s, c, e, copied))
      && (y.sending ==> y.receiving && y.replyPend)
  {
    hide Meets, QueueOk, SendRec, Walk;
    assert BitsOk(s, c) && ProcOk(s, c);
    var x := s.procs[c].(replyPend := true);
    PutIdle(s, c, x);
    SameLink(s, c, e, copied);
    SameWalk(s, c, x, SEND, s.procs[c].endpoint, e, 1, NSLOTS);
    SendRecFlag(Put(s, c, x), c, e, m, tables, copied);
    SendRecKeeps(Put(s, c, x), c, e, m, tables, copied);
    assert ProcOk(SendRec(Put(s, c, x), c, e, m, tables, copied).0, c);
  }

  /** The other calls: only a RECEIVE touches the flag of its caller. */
  lemma CallOwn(s: State, c: nat, call: Call, e: Endpoint, m: Message, tables: Tables, copied: bool)
    requires Inv(s) && Runnable(s, c) && MayQueue(s, c, call, e, copied) && call != SENDREC
    ensures
      var x, y := s.procs[c], DoSyncIpc(s, c, call, e, m, tables, copied).0.procs[c];
      && (Stray(y) <==> Stray(x) && !(call == RECEIVE && Refused(s, c, call, e) == OK))
      && (y.sending ==> call == SEND && !y.receiving)
  {
    hide Meets, QueueOk, MiniSend, MiniReceive, MiniNotify;
    assert BitsOk(s, c) && ProcOk(s, c);
    if Refused(s, c, call, e) == OK {
      match call
      case SEND => SendOwn(s, c, e, m, false, false, copied);
      case SENDNB => SendOwn(s, c, e, m, true, false, copied);
      case NOTIFY => NotifyFirm(s, c, e, c);
      case SENDA =>
      case RECEIVE =>
        var x := s.procs[c].(replyPend := false, status := {}, kernelStatus := false);
        PutIdle(s, c, x);
        ReceiveFlag(Put(s, c, x), c, e, tables);
    }
  }

  lemma SendOwn(s: State, c: nat, e: Endpoint, m: Message, nonBlocking: bool, kernel: bool, copied: bool)
    requires Shaped(s) && c < NSLOTS && Idle(s.procs[c]) && Slot(e) && e.slot != c
    ensures
      var x, y := s.procs[c], MiniSend(s, c, e, m, nonBlocking, kernel, copied).0.procs[c];
      && Stray(x) == Stray(y) && !y.receiving && (y.sending ==> !nonBlocking)
  {
    hide Woken, Deadlock;
  }

  // ------------------------------------------------------------------- events

  /** An entry of a send table that is handed over at once. */
  predicate HandedOver(s: State, c: nat, e: Endpoint, noReply: bool)
    requires |s.procs| == NSLOTS && c < NSLOTS
  {
    && s.procs[c].sysProc && Live(s, e) && NR_TASKS <= e.slot && e.slot in s.procs[c].ipcTo
    && !s.procs[e.slot].noEndpoint && WillReceive(s.procs[e.slot], s.procs[c].endpoint)
    && (!noReply || !s.procs[e.slot].replyPend)
  }

  /** What leaves the flag of `p` behind: its own SENDREC fails to send, an
      asynchronous message answers it, or the process it awaits exits. */
  predicate Leaves(s: State, ev: Event, p: nat)
    requires |s.procs| == NSLOTS && Enabled(s, ev) && p < NSLOTS
  {
    var x := s.procs[p];
    match ev
    case Ipc(c, call, e, _, _, copied) =>
      c == p && call == SENDREC && Refused(s, c, call, e) == OK && SendFails(s, c, e, copied)
    case SendEntry(c, e, _, noReply) => x.replyPend && HandedOver(s, c, e, noReply) && e.slot == p
    case Exit(rc, _) => rc != p && x.replyPend && x.receiving && BlockedOn(x) == s.procs[rc].endpoint
    case _ => false
  }

  /** What clears it: a RECEIVE or a SENDREC of `p` that is not refused, or its
      exit. */
  predicate Clears(s: State, ev: Event, p: nat)
    requires |s.procs| == NSLOTS && Enabled(s, ev)
  {
    match ev
    case Ipc(c, call, e, _, _, _) => c == p && Receives(call) && Refused(s, c, call, e) == OK
    case Exit(rc, _) => rc == p
    case _ => false
  }

  lemma EntryFlag(s: State, c: nat, e: Endpoint, m: Message, noReply: bool, p: nat)
    requires Inv(s) && Runnable(s, c) && p < NSLOTS
    ensures
      var x, y := s.procs[p], SendAsync(s, c, e, m, noReply).0.procs[p];
      && (Stray(y) <==> Stray(x) || (x.replyPend && HandedOver(s, c, e, noReply) && e.slot == p))
      && (y.sending ==> x.sending && y.receiving == x.receiving)
  {
    hide BitsOk, Meets, QueueOk, Handed;
    if Slot(e) {
      HandedKin(s.procs[e.slot], s.procs[c].endpoint, m, SENDA, false);
      assert ProcOk(s, e.slot);
    }
  }

  lemma {:induction false} CancelFirm(s: State, rc: nat, tables: Tables, p: nat)
    requires Shaped(s) && rc < NSLOTS && BitsOk(s, rc) && p < NSLOTS
    ensures Firm(s.procs[p], CancelAll(s, rc, tables).procs[p])
    decreases |s.procs[rc].asyn|
  {
    hide CancelAsync, Firm, BitsOk;
    var q := HasPending(s.procs[rc].asyn, ANY);
    if q == NSLOTS {
      FirmSelf(s.procs[p]);
    } else {
      var s1 := CancelAsync(s, q, rc, tables);
      CancelLess(s, q, rc, tables);
      CancelOneFirm(s, q, rc, tables, p);
      CancelFirm(s1, rc, tables, p);
      FirmTrans(s.procs[p], s1.procs[p], CancelAll(s1, rc, tables).procs[p]);
    }
  }

  lemma CancelOneFirm(s: State, q: nat, rc: nat, tables: Tables, p: nat)
    requires Shaped(s) && q < NSLOTS && rc < NSLOTS && p < NSLOTS
    ensures Firm(s.procs[p], CancelAsync(s, q, rc, tables).procs[p])
  {
    hide MiniNotify, Firm;
    var s1 := Put(s, rc, s.procs[rc].(asyn := s.procs[rc].asyn - {q}));
    LessAsyn(s.procs[rc], q);
    FirmSelf(s.procs[p]);
    NotifyFirm(s1, ASYNCM, s.procs[q].endpoint, p);
    FirmTrans(s.procs[p], s1.procs[p], MiniNotify(s1, ASYNCM, s.procs[q].endpoint).0.procs[p]);
  }

  lemma LessAsyn(x: Proc, q: nat)
    ensures Firm(x, x.(asyn := x.asyn - {q}))
  {
  }

  lemma SentBackFlag(x: Proc, rc: nat, e: Endpoint)
    ensures
      var y := SentBack(x, rc, e);
      && y.free == x.free && y.replyPend == x.replyPend && y.endpoint == x.endpoint
      && if !x.free && BlockedOn(x) == e then Idle(y) else y.sending == x.sending && y.receiving == x.receiving
  {
  }

  lemma ExitFlag(s: State, rc: nat, tables: Tables, p: nat)
    requires Inv(s) && rc < NSLOTS && p < NSLOTS
    ensures BitsOk(s, rc)
    ensures
      var x, y := s.procs[p], ClearProc(s, rc, tables).procs[p];
      && (p == rc ==> y.free && Idle(y))
      && (p != rc ==>
           y.replyPend == x.replyPend && y.free == x.free && (y.sending ==> x.sending && y.receiving == x.receiving))
      && (p != rc && x.replyPend ==> (y.receiving <==> x.receiving && (x.free || BlockedOn(x) != s.procs[rc].endpoint)))
  {
    hide ProcOk, Meets, QueueOk, ClearIpc, CancelAll, ScanRefs, SentBack;
    assert BitsOk(s, rc);
    EndpointFirst(s, rc);
    ClearIpcKeeps(s, rc);
    var s1 := NoMoreEndpoint(ClearIpc(s, rc), rc);
    assert Idle(ClearIpc(s, rc).procs[rc]);
    NoEndpointKeeps(ClearIpc(s, rc), rc);
    CancelAllKeeps(s1, rc, tables);
    assert BitsOk(s1, rc);
    CancelFirm(s1, rc, tables, p);
    var s2 := CancelAll(s1, rc, tables);
    assert Kin(s1.procs[rc], s2.procs[rc]);
    ScanEach(s2, rc, 0, p);
    SentBackFlag(s2.procs[p], rc, s2.procs[rc].endpoint);
  }

  /** The exact condition for every event and every process: afterwards the flag
      is set without a reply being awaited if and only if the event leaves it
      so, or it was so before and the event does not clear it. */
  lemma StrayStep(s: State, ev: Event, p: nat)
    requires Inv(s) && Enabled(s, ev) && Sane(s, ev) && p < NSLOTS
    ensures Stray(Step(s, ev).procs[p]) <==> Leaves(s, ev, p) || (Stray(s.procs[p]) && !Clears(s, ev, p))
  {
    hide BitsOk, Meets, QueueOk, DoSyncIpc, MiniSend, MiniNotify, SendAsync, ClearProc, SendFails, HandedOver, Refused;
    assert ProcOk(s, p);
    match ev
    case Ipc(c, call, e, m, tables, copied) =>
      if p != c {
        CallSteady(s, c, call, e, m, tables, copied, p);
      } else if call == SENDREC && Refused(s, c, call, e) == OK {
        SendRecLeaves(s, c, e, m, tables, copied);
        SendRecAlive(s, c, e, m, tables, copied);
      } else if call == SENDREC {
        RefusedSame(s, c, call, e, m, tables, copied);
      } else {
        CallOwn(s, c, call, e, m, tables, copied);
      }
    case SendEntry(c, e, m, noReply) => EntryFlag(s, c, e, m, noReply, p);
    case KernelSend(c, e, m) =>
      if p != c { SendSteady(s, c, e, m, false, true, true, p); } else { SendOwn(s, c, e, m, false, true, true); }
    case KernelNotify(source, e) => NotifyFirm(s, source, e, p);
    case CopyOut(c) =>
    case Clone(parent, slot, user) => ForkFlag(s, parent, slot, user, p);
    case Exit(rc, tables) => ExitFlag(s, rc, tables, p);
  }

  lemma RefusedSame(s: State, c: nat, call: Call, e: Endpoint, m: Message, tables: Tables, copied: bool)
    requires Shaped(s) && c < NSLOTS && Refused(s, c, call, e) != OK
    ensures DoSyncIpc(s, c, call, e, m, tables, copied).0 == s
  {
  }

  lemma SendRecAlive(s: State, c: nat, e: Endpoint, m: Message, tables: Tables, copied: bool)
    requires Inv(s) && Runnable(s, c) && MayQueue(s, c, SENDREC, e, copied) && Refused(s, c, SENDREC, e) == OK
    ensures !DoSyncIpc(s, c, SENDREC, e, m, tables, copied).0.procs[c].free
  {
    hide Meets, QueueOk, SendRec, Walk;
    assert BitsOk(s, c) && ProcOk(s, c);
    var x := s.procs[c].(replyPend := true);
    PutIdle(s, c, x);
    SameLink(s, c, e, copied);
    SendRecFlag(Put(s, c, x), c, e, m, tables, copied);
  }

  lemma ForkFlag(s: State, e: Endpoint, slot: nat, user: Rights, p: nat)
    requires Shaped(s) && slot < NSLOTS && p < NSLOTS
    ensures
      var x, y := s.procs[p], Fork(s, e, slot, user).0.procs[p];
      y == x
      || (p == slot && x.free && y.receiving && Fork(s, e, slot, user).1 == OK && Slot(e)
          && y.sending == s.procs[e.slot].sending)
  {
    hide Child;
    if Slot(e) { ChildKin(s.procs[e.slot], slot, NextGeneration(s.procs[slot].endpoint), user); }
  }

  // --------------------------------------------------------------------- runs

  /** Whether the flag of `p` is left behind at the end of a run, from the causes
      alone: something left it so, and nothing has cleared it since. */
  ghost predicate LeftAtEnd(s: State, evs: seq<Event>, p: nat, was: bool)
    requires Shaped(s) && IsRun(s, evs) && p < NSLOTS
    decreases |evs|
  {
    if evs == [] then was
    else LeftAtEnd(Step(s, evs[0]), evs[1..], p, Leaves(s, evs[0], p) || (was && !Clears(s, evs[0], p)))
  }

  /** The exact condition over every run. */
  lemma {:induction false} StrayRun(s: State, evs: seq<Event>, p: nat)
    requires Inv(s) && IsRun(s, evs) && p < NSLOTS
    ensures Stray(Run(s, evs).procs[p]) <==> LeftAtEnd(s, evs, p, Stray(s.procs[p]))
    decreases |evs|
  {
    assert Shaped(s);
    hide Inv, Step, Enabled, Stray, Leaves, Clears;
    if evs != [] {
      StepKeeps(s, evs[0]);
      StrayStep(s, evs[0], p);
      StrayRun(Step(s, evs[0]), evs[1..], p);
    }
  }

  /** A run in which no SENDREC fails to send, none is answered by an
      asynchronous message, and nobody exits while its reply is awaited. */
  ghost predicate Proper(s: State, evs: seq<Event>)
    requires Shaped(s) && IsRun(s, evs)
    decreases |evs|
  {
    evs == [] || ((forall p :: 0 <= p < NSLOTS ==> !Leaves(s, evs[0], p)) && Proper(Step(s, evs[0]), evs[1..]))
  }

  ghost predicate NoStrays(s: State)
    requires |s.procs| == NSLOTS
  {
    forall p :: 0 <= p < NSLOTS ==> !Stray(s.procs[p])
  }

  /** After such a run the flag is set only on processes that await a reply. */
  lemma {:induction false} ProperRun(s: State, evs: seq<Event>)
    requires Inv(s) && IsRun(s, evs) && Proper(s, evs) && NoStrays(s)
    ensures Inv(Run(s, evs)) && NoStrays(Run(s, evs))
    decreases |evs|
  {
    assert Shaped(s);
    hide Inv, Step, Enabled, Stray, Leaves, Clears;
    if evs != [] {
      StepKeeps(s, evs[0]);
      forall p | 0 <= p < NSLOTS ensures !Stray(Step(s, evs[0]).procs[p]) { StrayStep(s, evs[0], p); }
      ProperRun(Step(s, evs[0]), evs[1..]);
    }
  }

  // ------------------------------------------------------------ the call noted

  /** The last call of `p`, as far as it may have put it on a queue. */
  function LastCall(ev: Event, p: nat, was: Call): Call {
    match ev
    case Ipc(c, call, _, _, _, _) => if c == p then call else was
    case KernelSend(c, _, _) => if c == p then SEND else was
    case _ => was
  }

  function CallMade(evs: seq<Event>, p: nat, was: Call): Call
    decreases |evs|
  {
    if evs == [] then was else CallMade(evs[1..], p, LastCall(evs[0], p, was))
  }

  /** A queued process made `call`, and awaits a reply if that is SENDREC. */
  predicate Made(x: Proc, call: Call) {
    x.sending ==> call == if x.receiving then SENDREC else SEND
  }

  lemma MadeStep(s: State, ev: Event, p: nat, was: Call)
    requires Inv(s) && Enabled(s, ev) && Sane(s, ev) && p < NSLOTS && Made(s.procs[p], was)
    ensures Made(Step(s, ev).procs[p], LastCall(ev, p, was))
  {
    hide BitsOk, Meets, QueueOk, DoSyncIpc, MiniSend, MiniNotify, SendAsync, ClearProc, SendFails, HandedOver, Refused,
         Fork, Stray;
    match ev
    case Ipc(c, call, e, m, tables, copied) =>
      if p != c {
        CallSteady(s, c, call, e, m, tables, copied, p);
      } else if call == SENDREC && Refused(s, c, call, e) == OK {
        SendRecLeaves(s, c, e, m, tables, copied);
      } else if call == SENDREC {
        RefusedSame(s, c, call, e, m, tables, copied);
      } else {
        CallOwn(s, c, call, e, m, tables, copied);
      }
    case SendEntry(c, e, m, noReply) => EntryFlag(s, c, e, m, noReply, p);
    case KernelSend(c, e, m) =>
      if p != c { SendSteady(s, c, e, m, false, true, true, p); } else { SendOwn(s, c, e, m, false, true, true); }
    case KernelNotify(source, e) => NotifyFirm(s, source, e, p);
    case CopyOut(c) =>
    case Clone(parent, slot, user) => ForkFlag(s, parent, slot, user, p);
    case Exit(rc, tables) => ExitFlag(s, rc, tables, p);
  }

  lemma {:induction false} MadeRun(s: State, evs: seq<Event>, p: nat, was: Call)
    requires Inv(s) && IsRun(s, evs) && p < NSLOTS && Made(s.procs[p], was)
    ensures Made(Run(s, evs).procs[p], CallMade(evs, p, was))
    decreases |evs|
  {
    assert Shaped(s);
    hide Inv, Step, Enabled, Made;
    if evs != [] {
      StepKeeps(s, evs[0]);
      MadeStep(s, evs[0], p, was);
      MadeRun(Step(s, evs[0]), evs[1..], p, LastCall(evs[0], p, was));
    }
  }

  lemma QueueNotes(s: State, c: nat, srcE: Endpoint, p: nat)
    requires Inv(s) && c < NSLOTS && !s.procs[c].sending && !s.procs[c].replyPend && p < NSLOTS && p != c
    requires s.procs[p].sending && !FromQueue(s, c, srcE).0.procs[p].sending
    ensures
      var x, y := s.procs[c], FromQueue(s, c, srcE).0.procs[c];
      y.status == x.status + {ToldOf(s.procs[p])} && y.kernelStatus == (x.kernelStatus || s.procs[p].fromKernel)
  {
    assert Shaped(s);
    hide Inv, Deadlock, Handed, Received, Released;
    var i := FirstWanted(s.queue[c], srcE, 0);
    if i < |s.queue[c]| {
      NotOwnQueue(s, c, i);
      TakeOwn(s, c, i);
      var sender := s.procs[s.queue[c][i]];
      ReceivedFlag(s.procs[c], sender.endpoint, sender.sendmsg, ToldOf(sender), sender.fromKernel);
    }
  }

  lemma AsyncNotes(s: State, c: nat, srcE: Endpoint, tables: Tables, p: nat)
    requires Inv(s) && Runnable(s, c) && !s.procs[c].replyPend && p < NSLOTS && p != c
    requires s.procs[p].sending && !FromAsync(s, c, srcE, tables).0.procs[p].sending
    ensures
      var x, y := s.procs[c], FromAsync(s, c, srcE, tables).0.procs[c];
      y.status == x.status + {ToldOf(s.procs[p])} && y.kernelStatus == (x.kernelStatus || s.procs[p].fromKernel)
  {
    hide ProcOk, BitsOk, Meets, QueueOk, FromQueue, TryOne, TryAsync, Noted;
    var q := HasPending(s.procs[c].asyn, srcE);
    if q == NSLOTS {
      QueueNotes(s, c, srcE, p);
    } else {
      var (s1, done) := if srcE.Ep? then TryOne(s, q, c, tables) else TryAsync(s, 0, c, tables);
      if srcE.Ep? {
        TryOneOthers(s, q, c, tables, p);
        TryOneFirm(s, q, c, tables, p);
        TryOneKeeps(s, q, c, tables);
      } else {
        TryAsyncOthers(s, 0, c, tables, p);
        TryAsyncFirm(s, 0, c, tables, p);
        TryAsyncKeeps(s, 0, c, tables);
      }
      if !done { QueueNotes(s1, c, srcE, p); }
    }
  }

  /** A RECEIVE that takes the message of a waiting process tells its caller of
      the call that process made, if and only if its flag was not astray. */
  lemma TakenAs(s: State, c: nat, e: Endpoint, m: Message, tables: Tables, copied: bool, p: nat, call: Call)
    requires Inv(s) && Runnable(s, c) && p < NSLOTS && p != c && s.procs[p].sending && Made(s.procs[p], call)
    requires !DoSyncIpc(s, c, RECEIVE, e, m, tables, copied).0.procs[p].sending
    ensures DoSyncIpc(s, c, RECEIVE, e, m, tables, copied).0.procs[c].status == {call} <==> !Stray(s.procs[p])
    ensures DoSyncIpc(s, c, RECEIVE, e, m, tables, copied).0.procs[c].kernelStatus == s.procs[p].fromKernel
  {
    hide Meets, QueueOk, MiniSend, MiniNotify, SendRec, FromAsync, Handed;
    assert ProcOk(s, p) && ProcOk(s, c) && BitsOk(s, c);
    var x := s.procs[c].(replyPend := false, status := {}, kernelStatus := false);
    PutIdle(s, c, x);
    var s1 := Put(s, c, x);
    assert MiniReceive(s1, c, e, tables) == FromAsync(s1, c, e, tables);
    AsyncNotes(s1, c, e, tables, p);
  }

  lemma WokenStatus(x: Proc, source: Endpoint, m: Message, call: Call, kernel: bool)
    requires !x.replyPend
    ensures
      var y := Woken(x, source, m, call, kernel);
      y.status == x.status + {call} && y.kernelStatus == (x.kernelStatus || kernel)
  {
  }

  /** The receiver of a message it was waiting for is told that it is from the
      kernel exactly if it is. */
  lemma KernelTold(s: State, c: nat, e: Endpoint, m: Message, nonBlocking: bool, kernel: bool, copied: bool)
    requires Shaped(s) && c < NSLOTS && Slot(e) && WillReceive(s.procs[e.slot], s.procs[c].endpoint)
    requires MiniSend(s, c, e, m, nonBlocking, kernel, copied).1 == OK && !s.procs[e.slot].replyPend
    ensures MiniSend(s, c, e, m, nonBlocking, kernel, copied).0.procs[e.slot].kernelStatus
      == (s.procs[e.slot].kernelStatus || kernel)
  {
    hide Woken;
    var call := if s.procs[c].replyPend then SENDREC else if nonBlocking then SENDNB else SEND;
    WokenStatus(s.procs[e.slot], s.procs[c].endpoint, m, call, kernel);
  }

  /** The same for a message that its receiver is waiting for. */
  lemma SentAs(s: State, c: nat, call: Call, e: Endpoint, m: Message, tables: Tables, copied: bool)
    requires Inv(s) && Runnable(s, c) && Sends(call) && Refused(s, c, call, e) == OK && !SendFails(s, c, e, copied)
    requires WillReceive(s.procs[e.slot], s.procs[c].endpoint) && !s.procs[e.slot].replyPend
    ensures DoSyncIpc(s, c, call, e, m, tables, copied).0.procs[e.slot].status
      == s.procs[e.slot].status + {if Stray(s.procs[c]) then SENDREC else call}
  {
    hide Meets, QueueOk, MiniReceive, Woken, MiniNotify;
    assert BitsOk(s, c) && ProcOk(s, c);
    var dst, source := s.procs[e.slot], s.procs[c].endpoint;
    WokenStatus(dst, source, m, if s.procs[c].replyPend then SENDREC else call, false);
    if call == SENDREC {
      var x := s.procs[c].(replyPend := true);
      WokenStatus(dst, source, m, SENDREC, false);
      PutIdle(s, c, x);
      var s1 := Put(s, c, x);
      WokenIdle(s1, c, e, m, copied);
      SendKeeps(s1, c, e, m, false, false, copied);
      ReceiveSteady(MiniSend(s1, c, e, m, false, false, copied).0, c, e, tables, e.slot);
    }
  }

  /** After every proper run the call a receiver is told of is the call made: of
      a message it was waiting for, */
  lemma SentTruly(s: State, evs: seq<Event>, c: nat, call: Call, e: Endpoint, m: Message, tables: Tables, copied: bool)
    requires Inv(s) && NoStrays(s) && IsRun(s, evs) && Proper(s, evs)
    requires
      var s1 := Run(s, evs);
      && Enabled(s1, Ipc(c, call, e, m, tables, copied)) && Sends(call) && Refused(s1, c, call, e) == OK
      && !SendFails(s1, c, e, copied)
      && WillReceive(s1.procs[e.slot], s1.procs[c].endpoint) && !s1.procs[e.slot].replyPend
    ensures
      var s1 := Run(s, evs);
      Step(s1, Ipc(c, call, e, m, tables, copied)).procs[e.slot].status == s1.procs[e.slot].status + {call}
  {
    ProperRun(s, evs);
    hide Inv, IsRun, Run, Proper, Stray, DoSyncIpc, SendFails, MayQueue;
    assert !Stray(Run(s, evs).procs[c]);
    SentAs(Run(s, evs), c, call, e, m, tables, copied);
  }

  /** and of one it takes from its queue. */
  lemma ToldTruly(s: State, evs: seq<Event>, c: nat, e: Endpoint, m: Message, tables: Tables, copied: bool, p: nat)
    requires Boot(s) && NoStrays(s) && IsRun(s, evs) && Proper(s, evs) && p < NSLOTS && p != c
    requires
      var s1, ev := Run(s, evs), Ipc(c, RECEIVE, e, m, tables, copied);
      Enabled(s1, ev) && s1.procs[p].sending && !Step(s1, ev).procs[p].sending
    ensures
      var s' := Step(Run(s, evs), Ipc(c, RECEIVE, e, m, tables, copied));
      s'.procs[c].status == {CallMade(evs, p, SENDA)}
  {
    BootInv(s);
    assert Idle(s.procs[p]);
    ProperRun(s, evs);
    MadeRun(s, evs, p, SENDA);
    hide Inv, IsRun, Run, Proper, Stray, Made, DoSyncIpc, Boot;
    assert !Stray(Run(s, evs).procs[p]);
    TakenAs(Run(s, evs), c, e, m, tables, copied, p, CallMade(evs, p, SENDA));
  }
}
