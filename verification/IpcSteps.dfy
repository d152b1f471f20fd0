/** Every message-passing call keeps the invariant. */
module IpcSteps {
  import opened IpcState
  import opened IpcInvariant
  import opened WaitGraph

  /** A process that may make a call: it is not blocked and has no message still
      to be copied out. */
  predicate Runnable(s: State, c: nat)
    requires |s.procs| == NSLOTS
  {
    c < NSLOTS && Idle(s.procs[c]) && !s.procs[c].free && !s.procs[c].noEndpoint && !s.procs[c].deliver
  }

  ghost predicate KinAll(s: State, s': State) {
    |s.procs| == |s'.procs| == NSLOTS && forall q :: 0 <= q < NSLOTS ==> Kin(s.procs[q], s'.procs[q])
  }

  /** Nobody new is blocked. */
  ghost predicate StillIdle(s: State, s': State) {
    |s.procs| == |s'.procs| == NSLOTS && forall q :: 0 <= q < NSLOTS && Idle(s.procs[q]) ==> Idle(s'.procs[q])
  }

  lemma HandedKin(x: Proc, source: Endpoint, m: Message, call: Call, kernel: bool)
    ensures
      var y := Handed(x, source, m, call, kernel);
      Kin(x, y) && y.noEndpoint == x.noEndpoint && y.sending == x.sending && y.receiving == x.receiving
      && y.replyPend == x.replyPend
      && y.notify == x.notify && y.asyn == x.asyn && y.deliver && y.delivermsg == m.(source := source)
      && y.sendto == x.sendto && y.getfrom == x.getfrom && y.sendmsg == x.sendmsg && y.fromKernel == x.fromKernel
  {
  }

  lemma WokenKin(x: Proc, source: Endpoint, m: Message, call: Call, kernel: bool)
    ensures
      var y := Woken(x, source, m, call, kernel);
      Kin(x, y) && y.sending == x.sending && !y.receiving && !y.replyPend
      && y.notify == x.notify && y.asyn == x.asyn && y.deliver && y.delivermsg == m.(source := source)
      && y.fromKernel == x.fromKernel
  {
    hide Handed;
    HandedKin(x, source, m, call, kernel);
  }

  // ------------------------------------------------------------------ notify

  lemma NotifyKeeps(s: State, c: nat, e: Endpoint)
    requires Inv(s) && c < NSLOTS
    ensures Inv(MiniNotify(s, c, e).0)
    ensures KinAll(s, MiniNotify(s, c, e).0) && StillIdle(s, MiniNotify(s, c, e).0)
    ensures forall q :: 0 <= q < NSLOTS && (e.Ep? ==> q != e.slot) ==> MiniNotify(s, c, e).0.procs[q] == s.procs[q]
  {
    hide AllEnd, QueueOk, Woken;
    if Live(s, e) {
      var d := e.slot;
      assert ProcOk(s, d) && ProcOk(s, c) && BitsOk(s, d) && Meets(s, d);
      var s' := MiniNotify(s, c, e).0;
      assert s' == Put(s, d, s'.procs[d]);
      if WillReceive(s.procs[d], s.procs[c].endpoint) && !s.procs[d].replyPend {
        WokenKin(s.procs[d], s.procs[c].endpoint, Notification(s.procs[c].endpoint), NOTIFY, false);
        PutIdle(s, d, s'.procs[d]);
      } else {
        NotifyPending(s, c, d);
        PutBits(s, d, s'.procs[d]);
      }
    }
  }

  /** A notification is left pending only with a receiver that does not take it. */
  lemma NotifyPending(s: State, c: nat, d: nat)
    requires Inv(s) && c < NSLOTS && d < NSLOTS
    requires !(WillReceive(s.procs[d], s.procs[c].endpoint) && !s.procs[d].replyPend)
    ensures
      var s' := Put(s, d, s.procs[d].(notify := s.procs[d].notify + {c}));
      BitsOk(s', d) && Meets(s', d)
  {
    hide AllEnd, QueueOk;
    assert ProcOk(s, d) && ProcOk(s, c) && BitsOk(s, d) && Meets(s, d);
    var s' := Put(s, d, s.procs[d].(notify := s.procs[d].notify + {c}));
    assert s'.queue[d] == s.queue[d];
    assert Wanted(s.procs[d].getfrom, c) && s.procs[d].getfrom.Ep? && s.procs[d].receiving ==>
      s.procs[d].getfrom == s.procs[c].endpoint;
  }

  // ------------------------------------------------------------------- senda

  lemma SendAsyncKeeps(s: State, c: nat, e: Endpoint, m: Message, noReply: bool)
    requires Inv(s) && Runnable(s, c)
    ensures Inv(SendAsync(s, c, e, m, noReply).0)
  {
    hide AllEnd, QueueOk, Handed;
    var s' := SendAsync(s, c, e, m, noReply).0;
    if s' != s {
      var d := e.slot;
      assert ProcOk(s, d) && BitsOk(s, d) && Meets(s, d) && BitsOk(s, c);
      assert s' == Put(s, d, s'.procs[d]);
      if WillReceive(s.procs[d], s.procs[c].endpoint) && (!noReply || !s.procs[d].replyPend) {
        HandedKin(s.procs[d], s.procs[c].endpoint, m, SENDA, false);
        PutIdle(s, d, s'.procs[d]);
      } else {
        assert s'.queue[d] == s.queue[d];
        PutBits(s, d, s'.procs[d]);
      }
    }
  }

  // ----------------------------------------------------- asynchronous receive

  /** The caller after a try that found no message. */
  predicate OnlyAsyn(x: Proc, y: Proc) {
    y == x.(asyn := y.asyn)
  }

  /** The caller after a try that found one, from `source`. */
  predicate GotAsyn(x: Proc, y: Proc, source: Endpoint) {
    y == x.(asyn := y.asyn, deliver := true, delivermsg := y.delivermsg) && y.delivermsg.source == source
  }

  lemma TryOneKeeps(s: State, q: nat, c: nat, tables: Tables)
    requires Inv(s) && Runnable(s, c) && q in s.procs[c].asyn
    ensures q < NSLOTS
    ensures
      var (s', done) := TryOne(s, q, c, tables);
      && Inv(s') && KinAll(s, s') && StillIdle(s, s')
      && (!done ==> OnlyAsyn(s.procs[c], s'.procs[c]))
      && (done ==> GotAsyn(s.procs[c], s'.procs[c], s.procs[q].endpoint))
  {
    hide AllEnd, QueueOk, Meets, MiniNotify, Tried;
    assert ProcOk(s, c) && ProcOk(s, q) && BitsOk(s, c);
    var e, source := tables(q), s.procs[q].endpoint;
    var x := Tried(s.procs[c], q, source, e);
    TriedOk(s, q, c, e);
    var s1 := Put(s, c, x);
    PutIdle(s, c, x);
    NotifyKeeps(s1, ASYNCM, source);
    assert s1.procs[c] == x;
  }

  lemma TriedKin(x: Proc, q: nat, source: Endpoint, e: Entry)
    ensures
      var y := Tried(x, q, source, e);
      && Kin(x, y) && y.sending == x.sending && y.receiving == x.receiving
      && y.asyn <= x.asyn + {q} && y.notify == x.notify
      && (e.msg.None? ==> OnlyAsyn(x, y))
      && (e.msg.Some? ==> GotAsyn(x, y, source))
  {
    var y := Tried(x, q, source, e);
    if e.msg.None? {
      assert y == x.(asyn := y.asyn);
    } else {
      assert y == x.(asyn := y.asyn, deliver := true, delivermsg := y.delivermsg);
    }
  }

  lemma TriedOk(s: State, q: nat, c: nat, e: Entry)
    requires Shaped(s) && c < NSLOTS && BitsOk(s, c) && q in s.procs[c].asyn && q < NSLOTS
    ensures
      var x := Tried(s.procs[c], q, s.procs[q].endpoint, e);
      && Kin(s.procs[c], x) && (Idle(s.procs[c]) ==> Idle(x)) && BitsOk(Put(s, c, x), c)
      && (e.msg.None? ==> OnlyAsyn(s.procs[c], x))
      && (e.msg.Some? ==> GotAsyn(s.procs[c], x, s.procs[q].endpoint))
  {
    hide Tried, OnlyAsyn, GotAsyn;
    var x := Tried(s.procs[c], q, s.procs[q].endpoint, e);
    TriedKin(s.procs[c], q, s.procs[q].endpoint, e);
    var s1 := Put(s, c, x);
    forall r | r in x.asyn ensures r < NSLOTS && r != c && s1.procs[r].sysProc {
      assert r in s.procs[c].asyn + {q};
      assert s1.procs[r] == s.procs[r];
    }
  }

  lemma {:induction false} TryAsyncKeeps(s: State, q: nat, c: nat, tables: Tables)
    requires Inv(s) && Runnable(s, c) && q <= NSLOTS
    ensures
      var (s', done) := TryAsync(s, q, c, tables);
      && Inv(s') && KinAll(s, s') && StillIdle(s, s')
      && (!done ==> OnlyAsyn(s.procs[c], s'.procs[c]))
      && (done ==> exists r :: 0 <= r < NSLOTS && GotAsyn(s.procs[c], s'.procs[c], s.procs[r].endpoint))
    decreases NSLOTS - q
  {
    hide AllEnd, ProcOk, BitsOk, Meets, QueueOk, TryOne;
    if q < NSLOTS {
      if q in s.procs[c].asyn {
        TryOneKeeps(s, q, c, tables);
        var s1 := TryOne(s, q, c, tables).0;
        if !TryOne(s, q, c, tables).1 {
          TryAsyncKeeps(s1, q + 1, c, tables);
          assert forall r :: 0 <= r < NSLOTS ==> Kin(s.procs[r], s1.procs[r]);
        }
      } else {
        TryAsyncKeeps(s, q + 1, c, tables);
      }
    }
  }

  // -------------------------------------------------------------------- send

  /** A send that ends with the caller on the queue. */
  predicate MustWait(s: State, c: nat, e: Endpoint, copied: bool)
    requires |s.procs| == NSLOTS && c < NSLOTS
  {
    && Slot(e) && !s.procs[e.slot].noEndpoint && !WillReceive(s.procs[e.slot], s.procs[c].endpoint)
    && Deadlock(s, SEND, c, e) == 0 && copied
  }

  /** The kernel's assertion that a process put on a queue has no link. */
  predicate LinkFree(s: State, c: nat, e: Endpoint, copied: bool)
    requires |s.procs| == NSLOTS && c < NSLOTS
  {
    c in s.stale ==> !MustWait(s, c, e, copied)
  }

  lemma SendKeeps(s: State, c: nat, e: Endpoint, m: Message, nonBlocking: bool, kernel: bool, copied: bool)
    requires Inv(s) && Runnable(s, c)
    requires Live(s, e) && e.slot != c && (nonBlocking || LinkFree(s, c, e, kernel || copied))
    ensures Inv(MiniSend(s, c, e, m, nonBlocking, kernel, copied).0)
  {
    hide AllEnd, QueueOk, Meets, Woken, Deadlock;
    var (s', r) := MiniSend(s, c, e, m, nonBlocking, kernel, copied);
    var d := e.slot;
    assert ProcOk(s, d) && ProcOk(s, c) && BitsOk(s, d) && BitsOk(s, c);
    if r == OK {
      if WillReceive(s.procs[d], s.procs[c].endpoint) {
        var call := if s.procs[c].replyPend then SENDREC else if nonBlocking then SENDNB else SEND;
        WokenKin(s.procs[d], s.procs[c].endpoint, m, call, kernel);
        PutIdle(s, d, Woken(s.procs[d], s.procs[c].endpoint, m, call, kernel));
      } else {
        BlockSend(s, c, e, Waiting(s.procs[c], e, m, kernel));
      }
    }
  }

  // ----------------------------------------------------------------- receive

  lemma ReleasedOk(s: State, c: nat, i: nat)
    requires Inv(s) && c < NSLOTS && !s.procs[c].sending && i < |s.queue[c]|
    ensures s.queue[c][i] < NSLOTS && s.queue[c][i] != c
    ensures
      var q := s.queue[c][i]; var x := Released(s.procs[q]); var s' := Unqueued(s, c, i, x);
      && Kin(s.procs[q], x) && !x.sending && (EdgeOf(x) == EdgeOf(s.procs[q]) || EdgeOf(x).Stop?)
      && ProcOk(s', q) && BitsOk(s', q) && Meets(s', q)
  {
    hide AllEnd;
    assert QueueOk(s, c);
    var q := s.queue[c][i];
    assert q in s.queue[c];
    var s' := Unqueued(s, c, i, Released(s.procs[q]));
    assert ProcOk(s, q) && ProcOk(s, c) && BitsOk(s, q) && QueueOk(s, q);
    assert forall p :: 0 <= p < NSLOTS ==> Kin(s.procs[p], s'.procs[p]);
    assert c !in s.queue[q];
  }

  /** Taking a caller's message: the caller leaves the queue, and if it made a
      SENDREC it now waits for the reply. */
  lemma TakeKeeps(s: State, c: nat, i: nat)
    requires Inv(s) && Runnable(s, c) && i < |s.queue[c]|
    ensures s.queue[c][i] < NSLOTS && Inv(TakeFrom(s, c, i))
  {
    hide AllEnd, QueueOk, Meets, Handed, ProcOk;
    ReleasedOk(s, c, i);
    var q := s.queue[c][i];
    var sender := s.procs[q];
    var call := if sender.replyPend then SENDREC else SEND;
    var s1 := Unqueued(s, c, i, Released(sender));
    UnqueuedKeeps(s, c, i, Released(sender));
    assert s1.procs[c] == s.procs[c];
    HandedKin(s.procs[c], sender.endpoint, sender.sendmsg, call, sender.fromKernel);
    var y := Received(Handed(s.procs[c], sender.endpoint, sender.sendmsg, call, sender.fromKernel));
    assert BitsOk(s1, c);
    PutIdle(s1, c, y);
    assert Put(s1, c, y) == TakeFrom(s, c, i);
  }

  /** Blocking in receive for a process that is not sending and has looked
      everywhere. */
  lemma FromQueueKeeps(s: State, c: nat, srcE: Endpoint)
    requires Inv(s) && Runnable(s, c)
    requires srcE == ANY || (Live(s, srcE) && srcE.slot != c)
    requires s.procs[c].replyPend ==> srcE.Ep?
    requires !s.procs[c].replyPend ==> forall q :: q in s.procs[c].notify ==> !Wanted(srcE, q)
    ensures Inv(FromQueue(s, c, srcE).0)
  {
    hide AllEnd, ProcOk, BitsOk, Meets, TakeFrom, Deadlock;
    var i := FirstWanted(s.queue[c], srcE, 0);
    if i < |s.queue[c]| {
      TakeKeeps(s, c, i);
    } else if Deadlock(s, RECEIVE, c, srcE) == 0 {
      assert forall q :: q in s.queue[c] ==> !Wanted(srcE, q);
      BlockReceive(s, c, srcE);
    }
  }

  lemma FromAsyncKeeps(s: State, c: nat, srcE: Endpoint, tables: Tables)
    requires Inv(s) && Runnable(s, c)
    requires srcE == ANY || (Live(s, srcE) && srcE.slot != c)
    requires s.procs[c].replyPend ==> srcE.Ep?
    requires !s.procs[c].replyPend ==> forall q :: q in s.procs[c].notify ==> !Wanted(srcE, q)
    ensures Inv(FromAsync(s, c, srcE, tables).0)
  {
    hide AllEnd, ProcOk, BitsOk, Meets, QueueOk, FromQueue, TryOne, TryAsync;
    var q := HasPending(s.procs[c].asyn, srcE);
    if q == NSLOTS {
      FromQueueKeeps(s, c, srcE);
    } else {
      var (s1, done) := if srcE.Ep? then TryOne(s, q, c, tables) else TryAsync(s, 0, c, tables);
      if srcE.Ep? { TryOneKeeps(s, q, c, tables); } else { TryAsyncKeeps(s, 0, c, tables); }
      if done {
        DoneOk(s1, c);
      } else {
        assert Kin(s.procs[c], s1.procs[c]);
        assert srcE.Ep? ==> Kin(s.procs[srcE.slot], s1.procs[srcE.slot]);
        FromQueueKeeps(s1, c, srcE);
      }
    }
  }

  lemma DoneOk(s: State, c: nat)
    requires Inv(s) && c < NSLOTS && Idle(s.procs[c])
    ensures Inv(Put(s, c, Received(Noted(s.procs[c], SENDA, false))))
  {
    hide AllEnd, ProcOk, Meets, QueueOk;
    assert BitsOk(s, c);
    PutIdle(s, c, Received(Noted(s.procs[c], SENDA, false)));
  }

  /** mini_receive by a process that is not still sending. */
  lemma ReceiveKeeps(s: State, c: nat, srcE: Endpoint, tables: Tables)
    requires Inv(s) && Runnable(s, c)
    requires srcE == ANY || (Live(s, srcE) && srcE.slot != c)
    requires s.procs[c].replyPend ==> srcE.Ep?
    ensures Inv(MiniReceive(s, c, srcE, tables).0)
  {
    hide AllEnd, ProcOk, Meets, QueueOk, FromAsync, Handed;
    var caller := s.procs[c];
    var q := HasPending(caller.notify, srcE);
    assert BitsOk(s, c);
    if srcE.Ep? && s.procs[srcE.slot].noEndpoint {
    } else if !caller.replyPend && q < NSLOTS {
      var source := s.procs[q].endpoint;
      var taken := caller.(notify := caller.notify - {q});
      HandedKin(taken, source, Notification(source), NOTIFY, false);
      PutIdle(s, c, Received(Handed(taken, source, Notification(source), NOTIFY, false)));
    } else {
      FromAsyncKeeps(s, c, srcE, tables);
    }
  }
}
