/** SENDREC, and do_sync_ipc as a whole. */
module IpcCalls {
  import opened IpcState
  import opened IpcInvariant
  import opened IpcSteps
  import opened WaitGraph

  // ----------------------------------------------------------------- SENDREC

  /** The caller of a SENDREC to `e` either has the reply or waits for it, and
      only for it. */
  predicate AwaitsOrHas(x: Proc, e: Endpoint) {
    || (x.receiving && x.replyPend && x.getfrom == e)
    || (Idle(x) && x.deliver && x.delivermsg.source == e)
  }

  /** The receive half, when the send half has delivered its message. */
  lemma ReplyAfterSend(s: State, c: nat, e: Endpoint, tables: Tables)
    requires Inv(s) && Runnable(s, c) && s.procs[c].replyPend
    requires Live(s, e) && e.slot != c && Idle(s.procs[e.slot]) && !s.procs[e.slot].noEndpoint
    ensures MiniReceive(s, c, e, tables).1 == OK
    ensures AwaitsOrHas(MiniReceive(s, c, e, tables).0.procs[c], e)
  {
    hide AllEnd, ProcOk, BitsOk, Meets, QueueOk, TryOne;
    var q := HasPending(s.procs[c].asyn, e);
    if q == NSLOTS {
      ReplyFromQueue(s, c, e);
    } else {
      var (s1, done) := TryOne(s, q, c, tables);
      TryOneKeeps(s, q, c, tables);
      if !done {
        assert Kin(s.procs[e.slot], s1.procs[e.slot]);
        ReplyFromQueue(s1, c, e);
      }
    }
  }

  lemma ReplyFromQueue(s: State, c: nat, e: Endpoint)
    requires Inv(s) && c < NSLOTS && Idle(s.procs[c]) && s.procs[c].replyPend
    requires Live(s, e) && e.slot != c && Idle(s.procs[e.slot])
    ensures FromQueue(s, c, e).1 == OK
    ensures AwaitsOrHas(FromQueue(s, c, e).0.procs[c], e)
  {
    hide AllEnd, BitsOk, Meets, Handed, Noted;
    assert QueueOk(s, c) && ProcOk(s, e.slot);
    assert e.slot !in s.queue[c];
    assert FirstWanted(s.queue[c], e, 0) == |s.queue[c]|;
  }

  /** The receive half, when the send half is blocked: there is no deadlock. */
  lemma ReplyWhileSending(s: State, c: nat, e: Endpoint)
    requires Inv(s) && c < NSLOTS && s.procs[c].sending && !s.procs[c].receiving && s.procs[c].replyPend
    requires s.procs[c].sendto == e
    ensures Deadlock(s, RECEIVE, c, e) == 0
    ensures Inv(Put(s, c, s.procs[c].(getfrom := e, receiving := true)))
  {
    hide AllEnd, BitsOk, Meets, QueueOk, Deadlock;
    assert ProcOk(s, c) && ProcOk(s, e.slot);
    var g := WaitsFor(s);
    EdgesClosed(s);
    NoCycle(g, c, NSLOTS + 1);
    assert g[c] == To(e.slot);
    assert !Reaches(g, e.slot, c, NSLOTS);
    assert !Exempt(s, RECEIVE, c, e);
    DeadlockExact(s, RECEIVE, c, e);
    WaitKeeps(s, c, e);
  }

  lemma WaitKeeps(s: State, c: nat, e: Endpoint)
    requires Inv(s) && c < NSLOTS && s.procs[c].sending && s.procs[c].replyPend && s.procs[c].sendto == e
    ensures Inv(Put(s, c, s.procs[c].(getfrom := e, receiving := true)))
  {
    hide AllEnd, QueueOk;
    assert ProcOk(s, c) && BitsOk(s, c) && Meets(s, c);
    var x := s.procs[c].(getfrom := e, receiving := true);
    assert forall r :: 0 <= r < NSLOTS ==> Kin(s.procs[r], Put(s, c, x).procs[r]);
    PutOne(s, c, x);
  }

  /** SENDREC keeps the invariant; and once its send half has worked, its
      receive half does too. */
  lemma SendRecKeeps(s: State, c: nat, e: Endpoint, m: Message, tables: Tables, copied: bool)
    requires Inv(s) && Runnable(s, c) && LinkFree(s, c, e, copied) && s.procs[c].replyPend
    requires Live(s, e) && e.slot != c
    ensures
      var sent := MiniSend(s, c, e, m, false, false, copied).1;
      var (s', r) := SendRec(s, c, e, m, tables, copied);
      && Inv(s') && r == sent
      && (r == OK ==> AwaitsOrHas(s'.procs[c], e))
  {
    hide AllEnd, ProcOk, BitsOk, Meets, QueueOk, Deadlock, AwaitsOrHas, MiniReceive;
    var (s1, sent) := MiniSend(s, c, e, m, false, false, copied);
    SendKeeps(s, c, e, m, false, false, copied);
    if sent == OK {
      assert Shaped(s1);
      if WillReceive(s.procs[e.slot], s.procs[c].endpoint) {
        WokenIdle(s, c, e, m, copied);
        ReplyAfterSend(s1, c, e, tables);
        ReceiveKeeps(s1, c, e, tables);
      } else {
        SentBlocked(s, c, e, m, tables, copied);
      }
    }
  }

  lemma WokenIdle(s: State, c: nat, e: Endpoint, m: Message, copied: bool)
    requires Shaped(s) && Runnable(s, c) && Live(s, e) && e.slot != c
    requires WillReceive(s.procs[e.slot], s.procs[c].endpoint) && MiniSend(s, c, e, m, false, false, copied).1 == OK
    ensures
      var s1 := MiniSend(s, c, e, m, false, false, copied).0;
      s1.procs[c] == s.procs[c] && Live(s1, e) && Idle(s1.procs[e.slot]) && !s1.procs[e.slot].noEndpoint
  {
    hide Woken;
    WokenKin(s.procs[e.slot], s.procs[c].endpoint, m, if s.procs[c].replyPend then SENDREC else SEND, false);
    HandedKin(s.procs[e.slot], s.procs[c].endpoint, m, if s.procs[c].replyPend then SENDREC else SEND, false);
    WokenEndpoint(s.procs[e.slot], s.procs[c].endpoint, m, if s.procs[c].replyPend then SENDREC else SEND);
  }

  lemma WokenEndpoint(x: Proc, source: Endpoint, m: Message, call: Call)
    ensures Woken(x, source, m, call, false).noEndpoint == x.noEndpoint
  {
  }

  lemma SentBlocked(s: State, c: nat, e: Endpoint, m: Message, tables: Tables, copied: bool)
    requires Inv(s) && Runnable(s, c) && LinkFree(s, c, e, copied) && s.procs[c].replyPend
    requires Live(s, e) && e.slot != c && !WillReceive(s.procs[e.slot], s.procs[c].endpoint)
    requires MiniSend(s, c, e, m, false, false, copied).1 == OK
    ensures
      var (s', r) := MiniReceive(MiniSend(s, c, e, m, false, false, copied).0, c, e, tables);
      Inv(s') && r == OK && AwaitsOrHas(s'.procs[c], e) && s'.procs[c].receiving && s'.procs[c].free == s.procs[c].free
  {
    hide AllEnd, ProcOk, BitsOk, Meets, QueueOk, Deadlock, FromAsync;
    var s1 := MiniSend(s, c, e, m, false, false, copied).0;
    SendKeeps(s, c, e, m, false, false, copied);
    assert s1.procs[c] == Waiting(s.procs[c], e, m, false);
    assert s1.procs[e.slot] == s.procs[e.slot];
    ReplyWhileSending(s1, c, e);
  }

  // ------------------------------------------------------------- do_sync_ipc

  /** The kernel's assertion on p_q_link, for the calls that get there. */
  predicate MayQueue(s: State, c: nat, call: Call, e: Endpoint, copied: bool)
    requires |s.procs| == NSLOTS && c < NSLOTS
  {
    (call == SEND || call == SENDREC) && Refused(s, c, call, e) == OK ==> LinkFree(s, c, e, copied)
  }

  /** The walk looks only at who is blocked on whom. */
  lemma {:induction false} SameWalk(s: State, c: nat, x: Proc, call: Call, caller: Endpoint, e: Endpoint, size: nat,
      fuel: nat)
    requires |s.procs| == NSLOTS && c < NSLOTS && BlockedOn(x) == BlockedOn(s.procs[c])
    requires x.sending == s.procs[c].sending
    ensures Walk(Put(s, c, x), call, caller, e, size, fuel) == Walk(s, call, caller, e, size, fuel)
    decreases fuel
  {
    if Slot(e) && fuel > 0 { SameWalk(s, c, x, call, caller, BlockedOn(s.procs[e.slot]), size + 1, fuel - 1); }
  }

  /** Setting MF_REPLY_PEND changes nothing about that. */
  lemma SameLink(s: State, c: nat, e: Endpoint, copied: bool)
    requires |s.procs| == NSLOTS && c < NSLOTS && (Slot(e) ==> e.slot != c)
    ensures LinkFree(Put(s, c, s.procs[c].(replyPend := true)), c, e, copied) == LinkFree(s, c, e, copied)
  {
    hide Walk;
    SameWalk(s, c, s.procs[c].(replyPend := true), SEND, s.procs[c].endpoint, e, 1, NSLOTS);
  }

  /** A RECEIVE that names the caller itself, with nothing there to receive. */
  predicate SelfWait(s: State, c: nat, call: Call, e: Endpoint)
    requires |s.procs| == NSLOTS && c < NSLOTS
  {
    call == RECEIVE && RECEIVE in s.procs[c].traps && e == s.procs[c].endpoint && c !in s.procs[c].notify
  }

  lemma CallKeeps(s: State, c: nat, call: Call, e: Endpoint, m: Message, tables: Tables, copied: bool)
    requires Inv(s) && Runnable(s, c) && MayQueue(s, c, call, e, copied) && !SelfWait(s, c, call, e)
    ensures Inv(DoSyncIpc(s, c, call, e, m, tables, copied).0)
  {
    hide AllEnd, Meets, QueueOk, MiniSend, MiniReceive, MiniNotify, SendRec;
    assert BitsOk(s, c) && ProcOk(s, c);
    if Refused(s, c, call, e) == OK {
      match call
      case SEND => SendKeeps(s, c, e, m, false, false, copied);
      case SENDNB => SendKeeps(s, c, e, m, true, false, copied);
      case NOTIFY => NotifyKeeps(s, c, e);
      case SENDA =>
      case SENDREC =>
        var x := s.procs[c].(replyPend := true);
        PutIdle(s, c, x);
        SameLink(s, c, e, copied);
        SendRecKeeps(Put(s, c, x), c, e, m, tables, copied);
      case RECEIVE =>
        var x := s.procs[c].(replyPend := false, status := {}, kernelStatus := false);
        PutIdle(s, c, x);
        if e == s.procs[c].endpoint {
          OwnNotification(Put(s, c, x), c, e, tables);
        } else {
          OtherSlot(s, c, e);
          ReceiveKeeps(Put(s, c, x), c, e, tables);
        }
    }
  }

  lemma OtherSlot(s: State, c: nat, e: Endpoint)
    requires Inv(s) && c < NSLOTS && (e == ANY || Live(s, e)) && e != s.procs[c].endpoint
    ensures e.Ep? ==> e.slot != c
  {
    assert ProcOk(s, c);
  }

  /** A receive from the caller itself that finds a notification. */
  lemma OwnNotification(s: State, c: nat, e: Endpoint, tables: Tables)
    requires Inv(s) && Runnable(s, c) && e == s.procs[c].endpoint && !s.procs[c].replyPend && c in s.procs[c].notify
    requires e.Ep?
    ensures e.slot == c && Inv(MiniReceive(s, c, e, tables).0)
  {
    hide AllEnd, Meets, QueueOk, FromAsync, Handed;
    assert ProcOk(s, c) && BitsOk(s, c);
    var taken := s.procs[c].(notify := s.procs[c].notify - {c});
    HandedKin(taken, e, Notification(e), NOTIFY, false);
    PutIdle(s, c, Received(Handed(taken, e, Notification(e), NOTIFY, false)));
  }

  /** A process that waits for itself: a cycle that `deadlock` does not see. */
  lemma SelfWaitCycles(s: State, c: nat, e: Endpoint, m: Message, tables: Tables, copied: bool)
    requires Inv(s) && Runnable(s, c) && SelfWait(s, c, RECEIVE, e)
    ensures
      var (s', r) := DoSyncIpc(s, c, RECEIVE, e, m, tables, copied);
      r == OK && WaitsFor(s')[c] == To(c) && !AllEnd(WaitsFor(s'))
  {
    hide AllEnd, Meets;
    assert ProcOk(s, c) && BitsOk(s, c) && QueueOk(s, c);
    var x := s.procs[c].(replyPend := false, status := {}, kernelStatus := false);
    var s1 := Put(s, c, x);
    assert FirstWanted(s1.queue[c], e, 0) == |s1.queue[c]|;
    var s' := DoSyncIpc(s, c, RECEIVE, e, m, tables, copied).0;
    var g := WaitsFor(s');
    assert g[c] == To(c);
    if AllEnd(g) {
      NoCycle(g, c, 1);
    }
  }

  /** do_sync_ipc keeps the invariant, wait-for cycles excluded, if and only if
      it is not a receive that names the caller with nothing to receive. */
  lemma CallKeepsIff(s: State, c: nat, call: Call, e: Endpoint, m: Message, tables: Tables, copied: bool)
    requires Inv(s) && Runnable(s, c) && MayQueue(s, c, call, e, copied)
    ensures Inv(DoSyncIpc(s, c, call, e, m, tables, copied).0) <==> !SelfWait(s, c, call, e)
  {
    hide ProcOk, BitsOk, Meets, QueueOk, AllEnd, DoSyncIpc;
    if SelfWait(s, c, call, e) {
      SelfWaitCycles(s, c, e, m, tables, copied);
    } else {
      CallKeeps(s, c, call, e, m, tables, copied);
    }
  }
}
