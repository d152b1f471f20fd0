/** What becomes of pending bits: no notification is lost, and no announced
    asynchronous message forgotten. */
module IpcPending {
  import opened IpcState
  import opened IpcInvariant
  import opened IpcSteps
  import opened IpcCalls
  import opened IpcClear
  import opened IpcFork
  import opened IpcRuns
  import opened IpcDelivery
  import opened Links

  predicate BitsKept(x: Proc, y: Proc) {
    x.notify <= y.notify && x.asyn <= y.asyn
  }

  ghost predicate AllKept(s: State, s': State) {
    |s.procs| == |s'.procs| == NSLOTS && forall r :: 0 <= r < NSLOTS ==> BitsKept(s.procs[r], s'.procs[r])
  }

  /** The same, but that `c` may have dropped senders that have nothing left. */
  ghost predicate KeptBut(s: State, s': State, c: nat, tables: Tables) {
    && |s.procs| == |s'.procs| == NSLOTS
    && forall r :: 0 <= r < NSLOTS ==>
         && s.procs[r].notify <= s'.procs[r].notify
         && forall q :: q in s.procs[r].asyn ==> q in s'.procs[r].asyn || (r == c && !tables(q).again)
  }

  /** A notification is with the receiver, or pending with it. */
  lemma NotifyArrives(s: State, c: nat, e: Endpoint)
    requires Inv(s) && c < NSLOTS && Live(s, e)
    ensures
      var (s', r) := MiniNotify(s, c, e); var y := s'.procs[e.slot];
      && r == OK && AllKept(s, s')
      && (c in y.notify || (Idle(y) && y.deliver && y.delivermsg == Notification(s.procs[c].endpoint)))
  {
    hide ProcOk, BitsOk, Meets, QueueOk, Woken;
    WokenKin(s.procs[e.slot], s.procs[c].endpoint, Notification(s.procs[c].endpoint), NOTIFY, false);
  }

  lemma NotifyBits(s: State, c: nat, e: Endpoint)
    requires Inv(s) && c < NSLOTS
    ensures AllKept(s, MiniNotify(s, c, e).0)
  {
    hide MiniNotify, ProcOk, BitsOk, Meets, QueueOk;
    if Live(s, e) { NotifyArrives(s, c, e); } else { assert MiniNotify(s, c, e).0 == s by { NotLive(s, c, e); } }
  }

  lemma NotLive(s: State, c: nat, e: Endpoint)
    requires |s.procs| == NSLOTS && c < NSLOTS && !Live(s, e)
    ensures MiniNotify(s, c, e).0 == s
  {
  }

  lemma SendBits(s: State, c: nat, e: Endpoint, m: Message, nonBlocking: bool, kernel: bool, copied: bool)
    requires Inv(s) && c < NSLOTS && Slot(e)
    ensures AllKept(s, MiniSend(s, c, e, m, nonBlocking, kernel, copied).0)
  {
    hide ProcOk, BitsOk, Meets, QueueOk, Woken, Deadlock;
    var call := if s.procs[c].replyPend then SENDREC else if nonBlocking then SENDNB else SEND;
    WokenKin(s.procs[e.slot], s.procs[c].endpoint, m, call, kernel);
  }

  /** An asynchronous message is with the receiver, or announced to it, unless
      it is refused. */
  lemma AsyncArrives(s: State, c: nat, e: Endpoint, m: Message, noReply: bool)
    requires Inv(s) && Runnable(s, c)
    ensures
      var (s', r) := SendAsync(s, c, e, m, noReply);
      && |s'.procs| == NSLOTS && AllKept(s, s')
      && (r == OK ==> Slot(e) && (c in s'.procs[e.slot].asyn || Served(s, s', e.slot, c, m)))
  {
    hide ProcOk, BitsOk, Meets, QueueOk, Handed;
    if Slot(e) { HandedKin(s.procs[e.slot], s.procs[c].endpoint, m, SENDA, false); }
  }

  lemma TriedBits(x: Proc, q: nat, source: Endpoint, e: Entry)
    ensures Tried(x, q, source, e).notify == x.notify
    ensures Tried(x, q, source, e).asyn == if e.again then x.asyn + {q} else x.asyn - {q}
  {
    var bits := if e.again then x.asyn + {q} else x.asyn - {q};
    if e.msg.Some? {
      var m := e.msg.value.(source := source);
      assert Tried(x, q, source, e) == x.(delivermsg := m, deliver := true, asyn := bits);
    } else {
      assert Tried(x, q, source, e) == x.(asyn := bits);
    }
  }

  lemma TryOneBits(s: State, q: nat, c: nat, tables: Tables)
    requires Inv(s) && Runnable(s, c) && q in s.procs[c].asyn
    ensures q < NSLOTS && KeptBut(s, TryOne(s, q, c, tables).0, c, tables)
  {
    hide ProcOk, Meets, QueueOk, MiniNotify, Tried;
    assert BitsOk(s, c);
    var e, source := tables(q), s.procs[q].endpoint;
    TriedOk(s, q, c, e);
    TriedBits(s.procs[c], q, source, e);
    var s1 := Put(s, c, Tried(s.procs[c], q, source, e));
    PutIdle(s, c, s1.procs[c]);
    NotifyBits(s1, ASYNCM, source);
  }

  lemma KeptTrans(s: State, s1: State, s2: State, c: nat, tables: Tables)
    requires KeptBut(s, s1, c, tables) && KeptBut(s1, s2, c, tables)
    ensures KeptBut(s, s2, c, tables)
  {
    forall r | 0 <= r < NSLOTS
      ensures s.procs[r].notify <= s2.procs[r].notify
      ensures forall q :: q in s.procs[r].asyn ==> q in s2.procs[r].asyn || (r == c && !tables(q).again)
    {
      assert s.procs[r].notify <= s1.procs[r].notify <= s2.procs[r].notify;
    }
  }

  lemma {:induction false} TryAsyncBits(s: State, q: nat, c: nat, tables: Tables)
    requires Inv(s) && Runnable(s, c) && q <= NSLOTS
    ensures KeptBut(s, TryAsync(s, q, c, tables).0, c, tables)
    decreases NSLOTS - q
  {
    hide ProcOk, BitsOk, Meets, QueueOk, TryOne;
    if q < NSLOTS {
      if q in s.procs[c].asyn {
        TryOneKeeps(s, q, c, tables);
        TryOneBits(s, q, c, tables);
        var (s1, done) := TryOne(s, q, c, tables);
        if !done {
          assert Kin(s.procs[c], s1.procs[c]);
          TryAsyncBits(s1, q + 1, c, tables);
          KeptTrans(s, s1, TryAsync(s1, q + 1, c, tables).0, c, tables);
        }
      } else {
        TryAsyncBits(s, q + 1, c, tables);
      }
    }
  }

  lemma QueueBits(s: State, c: nat, srcE: Endpoint)
    requires Inv(s) && c < NSLOTS
    ensures AllKept(s, FromQueue(s, c, srcE).0)
  {
    hide ProcOk, BitsOk, Meets, QueueOk, Handed, Deadlock;
    var i := FirstWanted(s.queue[c], srcE, 0);
    if i < |s.queue[c]| && s.queue[c][i] < NSLOTS {
      var q := s.queue[c][i];
      var sender := s.procs[q];
      var x := Put(s, q, Released(sender)).procs[c];
      HandedKin(x, sender.endpoint, sender.sendmsg, if sender.replyPend then SENDREC else SEND, sender.fromKernel);
    }
  }

  lemma AsyncBits(s: State, c: nat, srcE: Endpoint, tables: Tables)
    requires Inv(s) && Runnable(s, c)
    ensures KeptBut(s, FromAsync(s, c, srcE, tables).0, c, tables)
  {
    hide ProcOk, BitsOk, Meets, QueueOk, TryOne, TryAsync, FromQueue, Noted;
    var q := HasPending(s.procs[c].asyn, srcE);
    if q == NSLOTS {
      QueueBits(s, c, srcE);
    } else {
      var (s1, done) := if srcE.Ep? then TryOne(s, q, c, tables) else TryAsync(s, 0, c, tables);
      if srcE.Ep? {
        TryOneKeeps(s, q, c, tables);
        TryOneBits(s, q, c, tables);
      } else {
        TryAsyncKeeps(s, 0, c, tables);
        TryAsyncBits(s, 0, c, tables);
      }
      if done { NotedBits(s1.procs[c]); } else { QueueBits(s1, c, srcE); }
    }
  }

  lemma NotedBits(x: Proc)
    ensures var y := Received(Noted(x, SENDA, false)); y.notify == x.notify && y.asyn == x.asyn
  {
  }

  /** A receive loses at most the notification it delivers, and no SENDREC
      takes one. */
  ghost predicate Delivers(s: State, s': State, c: nat, q: nat)
    requires |s.procs| == |s'.procs| == NSLOTS && c < NSLOTS
  {
    && q < NSLOTS && !s.procs[c].replyPend
    && s'.procs[c].deliver && s'.procs[c].delivermsg == Notification(s.procs[q].endpoint)
  }

  ghost predicate ReceiveKept(s: State, s': State, c: nat, tables: Tables) {
    && |s.procs| == |s'.procs| == NSLOTS && c < NSLOTS
    && forall r, q :: 0 <= r < NSLOTS ==> KeptAt(s, s', c, tables, r, q)
  }

  ghost predicate KeptAt(s: State, s': State, c: nat, tables: Tables, r: nat, q: nat)
    requires |s.procs| == |s'.procs| == NSLOTS && c < NSLOTS && r < NSLOTS
  {
    && (q in s.procs[r].notify ==> q in s'.procs[r].notify || (r == c && Delivers(s, s', c, q)))
    && (q in s.procs[r].asyn ==> q in s'.procs[r].asyn || (r == c && !tables(q).again))
  }

  lemma ReceiveBits(s: State, c: nat, srcE: Endpoint, tables: Tables)
    requires Inv(s) && c < NSLOTS && (srcE == ANY || Slot(srcE)) && (s.procs[c].sending || Runnable(s, c))
    ensures ReceiveKept(s, MiniReceive(s, c, srcE, tables).0, c, tables)
  {
    hide ProcOk, BitsOk, Meets, QueueOk, FromAsync, Handed, Deadlock, ReceiveKept, Received;
    KeptReceive(s, s, c, tables);
    var q := HasPending(s.procs[c].notify, srcE);
    if srcE.Ep? && s.procs[srcE.slot].noEndpoint {
    } else if s.procs[c].sending {
      KeptReceive(s, Block(s, c, srcE).0, c, tables);
    } else if !s.procs[c].replyPend && q < NSLOTS {
      TakeBits(s, c, q, tables);
    } else {
      AsyncBits(s, c, srcE, tables);
      KeptReceive(s, FromAsync(s, c, srcE, tables).0, c, tables);
    }
  }

  lemma KeptReceive(s: State, s': State, c: nat, tables: Tables)
    requires c < NSLOTS && (KeptBut(s, s', c, tables) || AllKept(s, s'))
    ensures ReceiveKept(s, s', c, tables)
  {
    hide Delivers;
  }

  lemma TakeBits(s: State, c: nat, q: nat, tables: Tables)
    requires Shaped(s) && c < NSLOTS && q < NSLOTS && !s.procs[c].replyPend
    ensures
      var source := s.procs[q].endpoint; var taken := s.procs[c].(notify := s.procs[c].notify - {q});
      ReceiveKept(s, Put(s, c, Received(Handed(taken, source, Notification(source), NOTIFY, false))), c, tables)
  {
    hide Handed;
    var source := s.procs[q].endpoint;
    HandedKin(s.procs[c].(notify := s.procs[c].notify - {q}), source, Notification(source), NOTIFY, false);
  }

  // ------------------------------------------------------------------- calls

  lemma SendRecBits(s: State, c: nat, e: Endpoint, m: Message, tables: Tables, copied: bool)
    requires Inv(s) && Runnable(s, c) && LinkFree(s, c, e, copied) && Live(s, e) && e.slot != c && s.procs[c].replyPend
    ensures KeptBut(s, SendRec(s, c, e, m, tables, copied).0, c, tables)
  {
    hide ProcOk, BitsOk, Meets, QueueOk, MiniReceive, Deadlock, Woken, ReceiveKept, KeptBut;
    var (s1, sent) := MiniSend(s, c, e, m, false, false, copied);
    SendBits(s, c, e, m, false, false, copied);
    KeptAll(s, s1, c, tables);
    SendKeeps(s, c, e, m, false, false, copied);
    if sent == OK {
      assert s1.procs[c].replyPend && (s1.procs[c].sending || Runnable(s1, c));
      ReceiveBits(s1, c, e, tables);
      NoneDelivered(s1, MiniReceive(s1, c, e, tables).0, c, tables);
      KeptTrans(s, s1, MiniReceive(s1, c, e, tables).0, c, tables);
    }
  }

  lemma KeptAll(s: State, s': State, c: nat, tables: Tables)
    requires AllKept(s, s')
    ensures KeptBut(s, s', c, tables)
  {
  }

  /** In the receive half of a SENDREC. */
  lemma NoneDelivered(s: State, s': State, c: nat, tables: Tables)
    requires ReceiveKept(s, s', c, tables) && s.procs[c].replyPend
    ensures KeptBut(s, s', c, tables)
  {
    forall r | 0 <= r < NSLOTS
      ensures s.procs[r].notify <= s'.procs[r].notify
      ensures forall q :: q in s.procs[r].asyn ==> q in s'.procs[r].asyn || (r == c && !tables(q).again)
    {
      forall q | q in s.procs[r].notify ensures q in s'.procs[r].notify { assert KeptAt(s, s', c, tables, r, q); }
      forall q | q in s.procs[r].asyn ensures q in s'.procs[r].asyn || (r == c && !tables(q).again) {
        assert KeptAt(s, s', c, tables, r, q);
      }
    }
  }

  /** What a call of `c` may take: for a RECEIVE the notification it delivers,
      and announcements of senders that have nothing left. */
  ghost predicate CallKept(s: State, s': State, c: nat, call: Call, tables: Tables, p: nat, q: nat)
    requires |s.procs| == |s'.procs| == NSLOTS && c < NSLOTS && p < NSLOTS
  {
    var x, y := s.procs[p], s'.procs[p];
    && (q in x.notify ==> q in y.notify || (c == p && call == RECEIVE && Delivered(s, y, q)))
    && (q in x.asyn ==> q in y.asyn || (c == p && Receives(call) && !tables(q).again))
  }

  ghost predicate Delivered(s: State, y: Proc, q: nat)
    requires |s.procs| == NSLOTS
  {
    q < NSLOTS && y.deliver && y.delivermsg == Notification(s.procs[q].endpoint)
  }

  lemma CallBits(s: State, c: nat, call: Call, e: Endpoint, m: Message, tables: Tables, copied: bool, p: nat, q: nat)
    requires Inv(s) && Runnable(s, c) && MayQueue(s, c, call, e, copied) && !SelfWait(s, c, call, e) && p < NSLOTS
    ensures CallKept(s, DoSyncIpc(s, c, call, e, m, tables, copied).0, c, call, tables, p, q)
  {
    hide Meets, QueueOk, MiniSend, MiniReceive, MiniNotify, SendRec;
    assert BitsOk(s, c) && ProcOk(s, c);
    if Refused(s, c, call, e) == OK {
      match call
      case SEND => SendBits(s, c, e, m, false, false, copied);
      case SENDNB => SendBits(s, c, e, m, true, false, copied);
      case NOTIFY => NotifyBits(s, c, e);
      case SENDA =>
      case SENDREC =>
        var x := s.procs[c].(replyPend := true);
        PutIdle(s, c, x);
        SameLink(s, c, e, copied);
        SendRecBits(Put(s, c, x), c, e, m, tables, copied);
      case RECEIVE =>
        var x := s.procs[c].(replyPend := false, status := {}, kernelStatus := false);
        PutIdle(s, c, x);
        var s1 := Put(s, c, x);
        ReceiveBits(s1, c, e, tables);
        assert KeptAt(s1, MiniReceive(s1, c, e, tables).0, c, tables, p, q);
    }
  }

  // -------------------------------------------------------------------- exit

  /** What others may lose when `rc` exits. */
  ghost predicate LessOne(x: Proc, y: Proc, rc: nat) {
    forall q :: q != rc ==> (q in x.notify ==> q in y.notify) && (q in x.asyn ==> q in y.asyn)
  }

  lemma {:induction false} CancelBits(s: State, rc: nat, tables: Tables, p: nat)
    requires Inv(s) && rc < NSLOTS && Idle(s.procs[rc]) && p < NSLOTS && p != rc
    ensures BitsOk(s, rc) && BitsKept(s.procs[p], CancelAll(s, rc, tables).procs[p])
    decreases |s.procs[rc].asyn|
  {
    hide ProcOk, Meets, QueueOk, MiniNotify;
    assert BitsOk(s, rc);
    var q := HasPending(s.procs[rc].asyn, ANY);
    if q < NSLOTS {
      CancelKeeps(s, q, rc, tables);
      CancelLess(s, q, rc, tables);
      CancelOneBits(s, q, rc, tables, p);
      CancelBits(CancelAsync(s, q, rc, tables), rc, tables, p);
    }
  }

  lemma CancelOneBits(s: State, q: nat, rc: nat, tables: Tables, p: nat)
    requires Inv(s) && rc < NSLOTS && Idle(s.procs[rc]) && q in s.procs[rc].asyn && p < NSLOTS && p != rc
    ensures q < NSLOTS && BitsKept(s.procs[p], CancelAsync(s, q, rc, tables).procs[p])
  {
    hide ProcOk, Meets, QueueOk, MiniNotify;
    assert BitsOk(s, rc);
    var x := s.procs[rc].(asyn := s.procs[rc].asyn - {q});
    var s1 := Put(s, rc, x);
    assert BitsOk(s1, rc) by {
      assert forall r :: 0 <= r < NSLOTS ==> Kin(s.procs[r], s1.procs[r]);
    }
    PutIdle(s, rc, x);
    NotifyBits(s1, ASYNCM, s.procs[q].endpoint);
  }

  lemma {:induction false} ScanBits(s: State, rc: nat, i: nat, p: nat)
    requires Inv(s) && rc < NSLOTS && i <= NSLOTS && p < NSLOTS
    ensures LessOne(s.procs[p], ScanRefs(s, rc, i).procs[p], rc)
    decreases NSLOTS - i
  {
    hide BitsOk, Meets, QueueOk, DropRef, ProcOk;
    if i < NSLOTS {
      DropKeeps(s, rc, i);
      DropBits(s, rc, i);
      ScanBits(DropRef(s, rc, i), rc, i + 1, p);
    }
  }

  lemma DropBits(s: State, rc: nat, p: nat)
    requires Inv(s) && rc < NSLOTS && p < NSLOTS
    ensures LessOne(s.procs[p], DropRef(s, rc, p).procs[p], rc)
  {
    hide BitsOk, Meets, QueueOk, ProcOk, ClearIpc, Dropped;
    var x := s.procs[p];
    var z := Dropped(x, rc).(ret := EDEADSRCDST);
    DroppedKin(x, rc);
    ClearBitsSame(Put(s, p, z), p);
  }

  lemma ClearBitsSame(s: State, p: nat)
    requires Shaped(s) && p < NSLOTS
    ensures ClearIpc(s, p).procs[p].notify == s.procs[p].notify && ClearIpc(s, p).procs[p].asyn == s.procs[p].asyn
  {
    hide Place, Unblocked;
    assert ClearIpc(s, p).procs[p] == Unblocked(s.procs[p]);
    UnblockedBits(s.procs[p]);
  }

  lemma UnblockedBits(x: Proc)
    ensures Unblocked(x).notify == x.notify && Unblocked(x).asyn == x.asyn
  {
  }

  lemma ExitBits(s: State, rc: nat, tables: Tables, p: nat)
    requires Inv(s) && rc < NSLOTS && p < NSLOTS && p != rc
    ensures BitsOk(s, rc) && LessOne(s.procs[p], ClearProc(s, rc, tables).procs[p], rc)
  {
    hide ProcOk, Meets, QueueOk, ClearIpc, CancelAll, ScanRefs;
    assert BitsOk(s, rc);
    EndpointFirst(s, rc);
    ClearIpcKeeps(s, rc);
    var s1 := NoMoreEndpoint(ClearIpc(s, rc), rc);
    assert Idle(ClearIpc(s, rc).procs[rc]);
    NoEndpointKeeps(ClearIpc(s, rc), rc);
    CancelAllKeeps(s1, rc, tables);
    CancelBits(s1, rc, tables, p);
    ScanBits(CancelAll(s1, rc, tables), rc, 0, p);
  }

  // ----------------------------------------------------------------- theorem

  /** One of the two is gone, or the slot is taken by another process. */
  predicate Gone(s: State, ev: Event, p: nat, q: nat)
    requires |s.procs| == NSLOTS && p < NSLOTS
  {
    (ev.Exit? && (ev.rc == p || ev.rc == q)) || (ev.Clone? && ev.slot == p && s.procs[p].free)
  }

  /** A pending notification stays pending until its receiver, in a RECEIVE,
      gets it; an announced sender stays announced until a receive of the
      process has found nothing left in its table; or one of the two exits. */
  lemma PendingKept(s: State, ev: Event, p: nat, q: nat)
    requires Inv(s) && Enabled(s, ev) && Sane(s, ev) && p < NSLOTS
    ensures q in s.procs[p].notify ==>
      var y := Step(s, ev).procs[p];
      || q in y.notify || Gone(s, ev, p, q)
      || (ev.Ipc? && ev.c == p && ev.call == RECEIVE && Delivered(s, y, q))
    ensures q in s.procs[p].asyn ==>
      || q in Step(s, ev).procs[p].asyn || Gone(s, ev, p, q)
      || (ev.Ipc? && ev.c == p && Receives(ev.call) && !ev.tables(q).again)
  {
    StepKeeps(s, ev);
    hide BitsOk, Meets, QueueOk, ProcOk, DoSyncIpc, MiniSend, MiniNotify, SendAsync, ClearProc, Fork, Delivered;
    match ev
    case Ipc(c, call, e, m, tables, copied) => CallBits(s, c, call, e, m, tables, copied, p, q);
    case SendEntry(c, e, m, noReply) => AsyncArrives(s, c, e, m, noReply);
    case KernelSend(c, e, m) => SendBits(s, c, e, m, false, true, true);
    case KernelNotify(source, e) => NotifyBits(s, source, e);
    case CopyOut(c) =>
    case Clone(parent, slot, user) => ForkOthers(s, parent, slot, user, p);
    case Exit(rc, tables) => if p != rc { ExitBits(s, rc, tables, p); }
  }
}
