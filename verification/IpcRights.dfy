/** Who may send to whom: the results of do_sync_ipc from the masks and the wait
    graph, and what the masks mean over every run. */
module IpcRights {
  import opened IpcState
  import opened IpcInvariant
  import opened IpcSteps
  import opened IpcCalls
  import opened IpcClear
  import opened IpcFork
  import opened IpcRuns
  import opened IpcDelivery
  import opened IpcExit
  import opened IpcReply
  import opened WaitGraph

  /** Calls that the kernel's own tasks do not take. */
  predicate OneWay(call: Call) {
    call == SEND || call == SENDNB || call == NOTIFY || call == SENDA
  }

  /** The endpoint a call may name. */
  predicate Names(s: State, call: Call, e: Endpoint)
    requires |s.procs| == NSLOTS
  {
    if e == ANY then call == RECEIVE else Live(s, e)
  }

  /** The masks of `c` allow the call. */
  predicate Permits(s: State, c: nat, call: Call, e: Endpoint)
    requires |s.procs| == NSLOTS && c < NSLOTS
  {
    && Names(s, call, e) && call in s.procs[c].traps
    && (call != RECEIVE ==> e.slot in s.procs[c].ipcTo)
    && (OneWay(call) ==> NR_TASKS <= e.slot)
  }

  // ------------------------------------------------------------- one call

  /** A call that is not permitted changes nothing, and its result says which
      test it failed first: the endpoint, the send mask, or the trap mask. */
  lemma Forbidden(s: State, c: nat, call: Call, e: Endpoint, m: Message, tables: Tables, copied: bool)
    requires Shaped(s) && c < NSLOTS && !Permits(s, c, call, e)
    ensures
      var (s', r) := DoSyncIpc(s, c, call, e, m, tables, copied);
      var mayName := Names(s, call, e); var maySend := call == RECEIVE || (e.Ep? && e.slot in s.procs[c].ipcTo);
      && s' == s
      && (r == EINVAL <==> e == ANY && call != RECEIVE)
      && (r == EDEADSRCDST <==> e != ANY && !Live(s, e))
      && (r == ECALLDENIED <==> mayName && !maySend)
      && (r == ETRAPDENIED <==> mayName && maySend)
  {
    hide MiniSend, MiniReceive, MiniNotify, SendRec;
  }

  lemma MustPermit(s: State, c: nat, call: Call, e: Endpoint, m: Message, tables: Tables, copied: bool)
    requires Shaped(s) && c < NSLOTS
    ensures var (s', r) := DoSyncIpc(s, c, call, e, m, tables, copied); s' != s || r == OK ==> Permits(s, c, call, e)
  {
    hide DoSyncIpc, Permits;
    if !Permits(s, c, call, e) { Forbidden(s, c, call, e, m, tables, copied); }
  }

  /** So whatever succeeds or changes anything was permitted. */
  lemma OnlyPermitted(s: State, c: nat, call: Call, e: Endpoint, m: Message, tables: Tables, copied: bool)
    requires Shaped(s) && c < NSLOTS
    ensures
      var (s', r) := DoSyncIpc(s, c, call, e, m, tables, copied);
      s' != s || r == OK ==>
        && call in s.procs[c].traps && (if e == ANY then call == RECEIVE else Live(s, e))
        && (call != RECEIVE ==> e.slot in s.procs[c].ipcTo)
        && (call == SEND || call == SENDNB || call == NOTIFY ==> NR_TASKS <= e.slot)
  {
    hide DoSyncIpc;
    MustPermit(s, c, call, e, m, tables, copied);
  }

  /** The chain of blocked processes leads from `e` back to `c`, and not just by
      one that is about to meet it. */
  ghost predicate LeadsBack(s: State, call: Call, c: nat, e: Endpoint)
    requires |s.procs| == NSLOTS && Closed(WaitsFor(s)) && c < NSLOTS && Slot(e)
  {
    Reaches(WaitsFor(s), e.slot, c, NSLOTS) && !Exempt(s, call, c, e)
  }

  lemma DeadlockIs(s: State, call: Call, c: nat, e: Endpoint)
    requires Inv(s) && c < NSLOTS && Slot(e)
    ensures Closed(WaitsFor(s)) && (Deadlock(s, call, c, e) != 0 <==> LeadsBack(s, call, c, e))
  {
    hide ProcOk, BitsOk, Meets, QueueOk, Deadlock, Reaches, Exempt;
    EdgesClosed(s);
    if Exempt(s, call, c, e) { ExemptFree(s, call, c, e); } else { DeadlockExact(s, call, c, e); }
  }

  /** The exact condition for each result of a send. */
  lemma SendResult(s: State, c: nat, e: Endpoint, m: Message, nonBlocking: bool, kernel: bool, copied: bool)
    requires Inv(s) && c < NSLOTS && Slot(e)
    ensures Closed(WaitsFor(s))
    ensures
      var r := MiniSend(s, c, e, m, nonBlocking, kernel, copied).1;
      var gone, ready := s.procs[e.slot].noEndpoint, WillReceive(s.procs[e.slot], s.procs[c].endpoint);
      && (r == EDEADSRCDST <==> gone)
      && (r == ENOTREADY <==> !gone && !ready && nonBlocking)
      && (r == ELOCKED <==> !gone && !ready && !nonBlocking && LeadsBack(s, SEND, c, e))
      && (r == EFAULT <==>
            !gone && !kernel && !copied && (ready || (!nonBlocking && !LeadsBack(s, SEND, c, e))))
      && (r == OK <==>
            !gone && (kernel || copied) && (ready || (!nonBlocking && !LeadsBack(s, SEND, c, e))))
  {
    hide ProcOk, BitsOk, Meets, QueueOk, Deadlock, LeadsBack, Woken;
    DeadlockIs(s, SEND, c, e);
  }

  lemma SameReach(s: State, c: nat, x: Proc, e: Endpoint)
    requires Inv(s) && c < NSLOTS && Slot(e) && e.slot != c && Inv(Put(s, c, x))
    requires BlockedOn(x) == BlockedOn(s.procs[c])
    requires x.sending == s.procs[c].sending && x.endpoint == s.procs[c].endpoint
    ensures Closed(WaitsFor(s)) && Closed(WaitsFor(Put(s, c, x)))
    ensures LeadsBack(Put(s, c, x), SEND, c, e) == LeadsBack(s, SEND, c, e)
  {
    EdgesClosed(s);
    EdgesClosed(Put(s, c, x));
    assert WaitsFor(Put(s, c, x)) == WaitsFor(s);
  }

  /** The exact condition for each result of a call that is permitted. */
  lemma Results(s: State, c: nat, call: Call, e: Endpoint, m: Message, tables: Tables, copied: bool)
    requires Inv(s) && Runnable(s, c) && MayQueue(s, c, call, e, copied) && Permits(s, c, call, e)
    ensures Closed(WaitsFor(s))
    ensures call == NOTIFY ==> DoSyncIpc(s, c, call, e, m, tables, copied).1 == OK
    ensures call == SENDA ==> DoSyncIpc(s, c, call, e, m, tables, copied).1 == EBADCALL
    ensures Sends(call) ==>
      var r := DoSyncIpc(s, c, call, e, m, tables, copied).1;
      var gone, ready := s.procs[e.slot].noEndpoint, WillReceive(s.procs[e.slot], s.procs[c].endpoint);
      var locked := call != SENDNB && LeadsBack(s, SEND, c, e);
      && (r == EDEADSRCDST <==> gone)
      && (r == ENOTREADY <==> !gone && !ready && call == SENDNB)
      && (r == ELOCKED <==> !gone && !ready && locked)
      && (r == EFAULT <==> !gone && !copied && (ready || (call != SENDNB && !locked)))
      && (r == OK <==> !gone && copied && (ready || (call != SENDNB && !locked)))
  {
    hide Meets, QueueOk, MiniSend, MiniReceive, SendRec, LeadsBack, Woken;
    assert BitsOk(s, c) && ProcOk(s, c);
    EdgesClosed(s);
    match call
    case SEND => SendResult(s, c, e, m, false, false, copied);
    case SENDNB => SendResult(s, c, e, m, true, false, copied);
    case NOTIFY =>
    case SENDA =>
    case RECEIVE =>
    case SENDREC =>
      var x := s.procs[c].(replyPend := true);
      PutIdle(s, c, x);
      SameLink(s, c, e, copied);
      SameReach(s, c, x, e);
      SendRecKeeps(Put(s, c, x), c, e, m, tables, copied);
      SendResult(Put(s, c, x), c, e, m, false, false, copied);
  }

  // ------------------------------------------------------------------- runs

  /** A call that the masks of its caller forbid. */
  predicate IsForbidden(s: State, ev: Event)
    requires |s.procs| == NSLOTS && Enabled(s, ev)
  {
    ev.Ipc? && !Permits(s, ev.c, ev.call, ev.e)
  }

  /** The run without its forbidden calls. */
  ghost function Lawful(s: State, evs: seq<Event>): seq<Event>
    requires Shaped(s) && IsRun(s, evs)
    decreases |evs|
  {
    if evs == [] then []
    else (if IsForbidden(s, evs[0]) then [] else [evs[0]]) + Lawful(Step(s, evs[0]), evs[1..])
  }

  /** Over every run, forbidden calls might as well not have been made. */
  lemma {:induction false} ForbiddenNothing(s: State, evs: seq<Event>)
    requires Shaped(s) && IsRun(s, evs)
    ensures IsRun(s, Lawful(s, evs)) && Run(s, Lawful(s, evs)) == Run(s, evs)
    decreases |evs|
  {
    hide Step, Enabled, Sane, Permits;
    if evs != [] {
      var ev, s1 := evs[0], Step(s, evs[0]);
      ForbiddenNothing(s1, evs[1..]);
      var rest := Lawful(s1, evs[1..]);
      if IsForbidden(s, ev) {
        ForbiddenStep(s, ev);
        assert [] + rest == rest;
      } else {
        assert ([ev] + rest)[0] == ev && ([ev] + rest)[1..] == rest;
      }
    }
  }

  lemma ForbiddenStep(s: State, ev: Event)
    requires Shaped(s) && Enabled(s, ev) && IsForbidden(s, ev)
    ensures Step(s, ev) == s
  {
    hide DoSyncIpc, Permits;
    Forbidden(s, ev.c, ev.call, ev.e, ev.m, ev.tables, ev.copied);
  }

  // -------------------------------------------------------- what is in transit

  /** What an operation does to a process beyond waking it: its pending bits may
      grow by `more`, and it is sending only if it was. */
  predicate Within(x: Proc, y: Proc, more: set<nat>) {
    && Kin(x, y) && y.notify <= x.notify + more && y.asyn <= x.asyn
    && (y.sending ==> x.sending && y.sendto == x.sendto && y.receiving == x.receiving && y.fromKernel == x.fromKernel)
  }

  lemma WithinTrans(x: Proc, y: Proc, z: Proc, more: set<nat>)
    requires Within(x, y, more) && Within(y, z, more)
    ensures Within(x, z, more)
  {
  }

  lemma WithinSelf(x: Proc, more: set<nat>)
    ensures Within(x, x, more)
  {
  }

  lemma NotifyWithin(s: State, c: nat, e: Endpoint, p: nat)
    requires |s.procs| == NSLOTS && c < NSLOTS && p < NSLOTS
    ensures Within(s.procs[p], MiniNotify(s, c, e).0.procs[p], if Live(s, e) && e.slot == p then {c} else {})
  {
    hide Woken;
    if Slot(e) {
      WokenKin(s.procs[e.slot], s.procs[c].endpoint, Notification(s.procs[c].endpoint), NOTIFY, false);
    }
  }

  lemma Widen(x: Proc, y: Proc, a: set<nat>, b: set<nat>)
    requires Within(x, y, a) && a <= b
    ensures Within(x, y, b)
  {
  }

  lemma TryOneWithin(s: State, q: nat, c: nat, tables: Tables, p: nat)
    requires |s.procs| == NSLOTS && c < NSLOTS && q < NSLOTS && p < NSLOTS && q in s.procs[c].asyn
    ensures Within(s.procs[p], TryOne(s, q, c, tables).0.procs[p], {ASYNCM})
  {
    hide MiniNotify, Tried, Within;
    var e, source := tables(q), s.procs[q].endpoint;
    var s1 := Put(s, c, Tried(s.procs[c], q, source, e));
    TriedWithin(s.procs[c], q, source, e);
    WithinSelf(s.procs[p], {ASYNCM});
    NotifyWithin(s1, ASYNCM, source, p);
    var bits := if Live(s1, source) && source.slot == p then {ASYNCM} else {};
    Widen(s1.procs[p], MiniNotify(s1, ASYNCM, source).0.procs[p], bits, {ASYNCM});
    WithinTrans(s.procs[p], s1.procs[p], MiniNotify(s1, ASYNCM, source).0.procs[p], {ASYNCM});
  }

  lemma TriedWithin(x: Proc, q: nat, source: Endpoint, e: Entry)
    requires q in x.asyn
    ensures Within(x, Tried(x, q, source, e), {ASYNCM})
  {
    hide Tried;
    TriedKin(x, q, source, e);
    assert x.asyn + {q} == x.asyn;
  }

  lemma {:induction false} TryAsyncWithin(s: State, q: nat, c: nat, tables: Tables, p: nat)
    requires |s.procs| == NSLOTS && c < NSLOTS && q <= NSLOTS && p < NSLOTS
    ensures Within(s.procs[p], TryAsync(s, q, c, tables).0.procs[p], {ASYNCM})
    decreases NSLOTS - q
  {
    hide TryOne, Within;
    if q == NSLOTS {
      WithinSelf(s.procs[p], {ASYNCM});
    } else if q !in s.procs[c].asyn {
      TryAsyncWithin(s, q + 1, c, tables, p);
    } else {
      var (s1, done) := TryOne(s, q, c, tables);
      TryOneWithin(s, q, c, tables, p);
      if !done {
        TryAsyncWithin(s1, q + 1, c, tables, p);
        WithinTrans(s.procs[p], s1.procs[p], TryAsync(s1, q + 1, c, tables).0.procs[p], {ASYNCM});
      }
    }
  }

  lemma BlockWithin(x: Proc, srcE: Endpoint)
    requires !x.sending
    ensures Within(x, x.(getfrom := srcE, receiving := true), {ASYNCM})
  {
  }

  lemma ReceivedWithin(x: Proc, source: Endpoint, m: Message, call: Call, kernel: bool)
    requires !x.sending
    ensures Within(x, Received(Handed(x, source, m, call, kernel)), {ASYNCM})
  {
  }

  lemma ReleasedWithin(x: Proc)
    ensures Within(x, Released(x), {ASYNCM})
  {
  }

  lemma FromQueueWithin(s: State, c: nat, srcE: Endpoint, p: nat)
    requires Inv(s) && c < NSLOTS && !s.procs[c].sending && p < NSLOTS
    ensures Within(s.procs[p], FromQueue(s, c, srcE).0.procs[p], {ASYNCM})
  {
    assert Shaped(s);
    hide Inv, Deadlock, Handed, Received, Released, Within;
    var i := FirstWanted(s.queue[c], srcE, 0);
    WithinSelf(s.procs[p], {ASYNCM});
    BlockWithin(s.procs[c], srcE);
    ReleasedWithin(s.procs[p]);
    if i < |s.queue[c]| {
      NotOwnQueue(s, c, i);
      var sender := s.procs[s.queue[c][i]];
      TakeOwn(s, c, i);
      ReceivedWithin(s.procs[c], sender.endpoint, sender.sendmsg, ToldOf(sender), sender.fromKernel);
    }
  }

  lemma NotedWithin(x: Proc)
    ensures Within(x, Received(Noted(x, SENDA, false)), {ASYNCM})
  {
  }

  lemma FromAsyncWithin(s: State, c: nat, srcE: Endpoint, tables: Tables, p: nat)
    requires Inv(s) && Runnable(s, c) && p < NSLOTS
    ensures Within(s.procs[p], FromAsync(s, c, srcE, tables).0.procs[p], {ASYNCM})
  {
    hide ProcOk, BitsOk, Meets, QueueOk, FromQueue, TryOne, TryAsync, Within, Noted, Received;
    var q := HasPending(s.procs[c].asyn, srcE);
    if q == NSLOTS {
      FromQueueWithin(s, c, srcE, p);
    } else {
      var (s1, done) := if srcE.Ep? then TryOne(s, q, c, tables) else TryAsync(s, 0, c, tables);
      if srcE.Ep? {
        TryOneWithin(s, q, c, tables, p);
        TryOneKeeps(s, q, c, tables);
      } else {
        TryAsyncWithin(s, 0, c, tables, p);
        TryAsyncKeeps(s, 0, c, tables);
      }
      if done {
        NotedWithin(s1.procs[c]);
        if p == c { WithinTrans(s.procs[c], s1.procs[c], Received(Noted(s1.procs[c], SENDA, false)), {ASYNCM}); }
      } else {
        FromQueueWithin(s1, c, srcE, p);
        WithinTrans(s.procs[p], s1.procs[p], FromQueue(s1, c, srcE).0.procs[p], {ASYNCM});
      }
    }
  }

  lemma ReceiveWithin(s: State, c: nat, srcE: Endpoint, tables: Tables, p: nat)
    requires Inv(s) && Runnable(s, c) && (srcE == ANY || Slot(srcE)) && p < NSLOTS
    ensures Within(s.procs[p], MiniReceive(s, c, srcE, tables).0.procs[p], {ASYNCM})
  {
    hide ProcOk, BitsOk, Meets, QueueOk, FromAsync, Handed, Within, Received;
    WithinSelf(s.procs[p], {ASYNCM});
    FromAsyncWithin(s, c, srcE, tables, p);
    var q := HasPending(s.procs[c].notify, srcE);
    if q < NSLOTS {
      var taken, source := s.procs[c].(notify := s.procs[c].notify - {q}), s.procs[q].endpoint;
      FewerBits(s.procs[c], q);
      ReceivedWithin(taken, source, Notification(source), NOTIFY, false);
      WithinTrans(s.procs[c], taken, Received(Handed(taken, source, Notification(source), NOTIFY, false)), {ASYNCM});
    }
  }

  lemma FewerBits(x: Proc, q: nat)
    ensures Within(x, x.(notify := x.notify - {q}), {ASYNCM})
  {
  }

  /** A process that a send put on a queue. */
  predicate Joins(y: Proc, e: Endpoint, receiving: bool, kernel: bool) {
    y.sending && y.sendto == e && y.receiving == receiving && (kernel ==> y.fromKernel)
  }

  lemma WaitingJoins(x: Proc, e: Endpoint, m: Message, kernel: bool)
    requires !x.receiving
    ensures
      var y := Waiting(x, e, m, kernel);
      && Joins(y, e, false, kernel) && Kin(x, y) && y.notify == x.notify && y.asyn == x.asyn
      && y.fromKernel == (x.fromKernel || kernel)
  {
  }

  lemma WokenWithin(x: Proc, source: Endpoint, m: Message, call: Call, kernel: bool)
    requires !x.sending
    ensures Within(x, Woken(x, source, m, call, kernel), {})
  {
    hide Woken;
    WokenKin(x, source, m, call, kernel);
  }

  lemma SendWithin(s: State, c: nat, e: Endpoint, m: Message, nonBlocking: bool, kernel: bool, copied: bool, p: nat)
    requires Shaped(s) && c < NSLOTS && !s.procs[c].receiving && Slot(e) && p < NSLOTS
    ensures
      var x, y := s.procs[p], MiniSend(s, c, e, m, nonBlocking, kernel, copied).0.procs[p];
      || Within(x, y, {})
      || (&& p == c && !nonBlocking && Joins(y, e, false, kernel) && Kin(x, y)
          && y.notify == x.notify && y.asyn == x.asyn && y.fromKernel == (x.fromKernel || kernel))
  {
    hide Woken, Deadlock, Within, Joins, Waiting;
    WithinSelf(s.procs[p], {});
    WaitingJoins(s.procs[c], e, m, kernel);
    if WillReceive(s.procs[e.slot], s.procs[c].endpoint) {
      var call := if s.procs[c].replyPend then SENDREC else if nonBlocking then SENDNB else SEND;
      WokenWithin(s.procs[e.slot], s.procs[c].endpoint, m, call, kernel);
    }
  }

  lemma {:induction false} CancelWithin(s: State, rc: nat, tables: Tables, p: nat)
    requires Shaped(s) && rc < NSLOTS && BitsOk(s, rc) && p < NSLOTS
    ensures Within(s.procs[p], CancelAll(s, rc, tables).procs[p], {ASYNCM})
    decreases |s.procs[rc].asyn|
  {
    hide CancelAsync, Within, BitsOk;
    var q := HasPending(s.procs[rc].asyn, ANY);
    if q == NSLOTS {
      WithinSelf(s.procs[p], {ASYNCM});
    } else {
      var s1 := CancelAsync(s, q, rc, tables);
      CancelLess(s, q, rc, tables);
      CancelOneWithin(s, q, rc, tables, p);
      CancelWithin(s1, rc, tables, p);
      WithinTrans(s.procs[p], s1.procs[p], CancelAll(s1, rc, tables).procs[p], {ASYNCM});
    }
  }

  lemma CancelOneWithin(s: State, q: nat, rc: nat, tables: Tables, p: nat)
    requires Shaped(s) && q < NSLOTS && rc < NSLOTS && p < NSLOTS
    ensures Within(s.procs[p], CancelAsync(s, q, rc, tables).procs[p], {ASYNCM})
  {
    hide MiniNotify, Within;
    var x, source := s.procs[rc].(asyn := s.procs[rc].asyn - {q}), s.procs[q].endpoint;
    var s1 := Put(s, rc, x);
    assert Within(s.procs[rc], x, {ASYNCM}) by { LessAsynWithin(s.procs[rc], q); }
    WithinSelf(s.procs[p], {ASYNCM});
    NotifyWithin(s1, ASYNCM, source, p);
    var more := if Live(s1, source) && source.slot == p then {ASYNCM} else {};
    Widen(s1.procs[p], MiniNotify(s1, ASYNCM, source).0.procs[p], more, {ASYNCM});
    WithinTrans(s.procs[p], s1.procs[p], MiniNotify(s1, ASYNCM, source).0.procs[p], {ASYNCM});
  }

  lemma LessAsynWithin(x: Proc, q: nat)
    ensures Within(x, x.(asyn := x.asyn - {q}), {ASYNCM})
  {
  }

  lemma SentBackWithin(x: Proc, rc: nat, e: Endpoint)
    ensures Within(x, SentBack(x, rc, e), {ASYNCM})
    ensures !x.free ==> rc !in SentBack(x, rc, e).notify && rc !in SentBack(x, rc, e).asyn
  {
  }

  lemma ExitWithin(s: State, rc: nat, tables: Tables, p: nat)
    requires Inv(s) && rc < NSLOTS && p < NSLOTS && p != rc
    ensures BitsOk(s, rc)
    ensures
      var x, y := s.procs[p], ClearProc(s, rc, tables).procs[p];
      Within(x, y, {ASYNCM}) && (!x.free ==> rc !in y.notify && rc !in y.asyn)
  {
    hide ProcOk, Meets, QueueOk, ClearIpc, CancelAll, ScanRefs, SentBack, Within;
    assert BitsOk(s, rc);
    EndpointFirst(s, rc);
    ClearIpcKeeps(s, rc);
    var s1 := NoMoreEndpoint(ClearIpc(s, rc), rc);
    assert Idle(ClearIpc(s, rc).procs[rc]);
    NoEndpointKeeps(ClearIpc(s, rc), rc);
    CancelAllKeeps(s1, rc, tables);
    assert BitsOk(s1, rc);
    CancelWithin(s1, rc, tables, p);
    var s2 := CancelAll(s1, rc, tables);
    assert Kin(s1.procs[rc], s2.procs[rc]) && Kin(s1.procs[p], s2.procs[p]);
    ScanEach(s2, rc, 0, p);
    SentBackWithin(s2.procs[p], rc, s2.procs[rc].endpoint);
    WithinTrans(s.procs[p], s2.procs[p], SentBack(s2.procs[p], rc, s2.procs[rc].endpoint), {ASYNCM});
  }

  /** `q` may have a notification pending at `p`: a kernel task, or a process
      that is there and may notify `p`. */
  predicate MayNotify(s: State, q: nat, p: nat)
    requires |s.procs| == NSLOTS
  {
    || q < NR_TASKS
    || (q < NSLOTS && !s.procs[q].free && p in s.procs[q].ipcTo && NOTIFY in s.procs[q].traps && NR_TASKS <= p)
  }

  /** Whatever is on its way to or from `p` is there by right: what it is itself
      sending, the notifications and the asynchronous messages for it. */
  ghost predicate Entitled(s: State, p: nat)
    requires |s.procs| == NSLOTS && p < NSLOTS
  {
    var x := s.procs[p];
    && (x.sending && !x.fromKernel ==>
          && Slot(x.sendto) && x.sendto.slot in x.ipcTo
          && (if x.receiving then SENDREC in x.traps else SEND in x.traps && NR_TASKS <= x.sendto.slot))
    && (!x.free ==> forall q :: q in x.notify ==> MayNotify(s, q, p))
    && (forall q :: q in x.asyn ==> q < NSLOTS && p in s.procs[q].ipcTo && NR_TASKS <= p)
  }

  ghost predicate AllEntitled(s: State)
    requires |s.procs| == NSLOTS
  {
    forall p :: 0 <= p < NSLOTS ==> Entitled(s, p)
  }

  lemma EntitledStays(s: State, s': State, p: nat, more: set<nat>)
    requires |s.procs| == |s'.procs| == NSLOTS && p < NSLOTS && Entitled(s, p) && Within(s.procs[p], s'.procs[p], more)
    requires KinAll(s, s') && forall q :: q in more ==> MayNotify(s, q, p)
    ensures Entitled(s', p)
  {
    forall q | q in s'.procs[p].notify && !s'.procs[p].free ensures MayNotify(s', q, p) {
      assert MayNotify(s, q, p);
      if q < NSLOTS { assert Kin(s.procs[q], s'.procs[q]); }
    }
    forall q | q in s'.procs[p].asyn ensures q < NSLOTS && p in s'.procs[q].ipcTo && NR_TASKS <= p {
      assert Kin(s.procs[q], s'.procs[q]);
    }
  }

  /** The caller of a send that has to wait, after the call. */
  predicate Queues(x: Proc, y: Proc, e: Endpoint, receiving: bool) {
    && Joins(y, e, receiving, false) && Kin(x, y) && y.notify <= x.notify && y.asyn <= x.asyn
    && y.fromKernel == x.fromKernel
  }

  lemma SendRecWithin(s: State, c: nat, e: Endpoint, m: Message, tables: Tables, copied: bool, p: nat)
    requires Inv(s) && Runnable(s, c) && LinkFree(s, c, e, copied) && s.procs[c].replyPend && Live(s, e) && e.slot != c
    requires p < NSLOTS
    ensures
      var x, y := s.procs[p], SendRec(s, c, e, m, tables, copied).0.procs[p];
      Within(x, y, {ASYNCM}) || (p == c && Queues(x, y, e, true))
  {
    hide ProcOk, BitsOk, Meets, QueueOk, MiniReceive, Deadlock, Within, Waiting, Woken, AwaitsOrHas;
    var (s1, sent) := MiniSend(s, c, e, m, false, false, copied);
    SendWithin(s, c, e, m, false, false, copied, p);
    SendKeeps(s, c, e, m, false, false, copied);
    if sent != OK {
      WithinSelf(s.procs[p], {ASYNCM});
    } else if WillReceive(s.procs[e.slot], s.procs[c].endpoint) {
      WokenIdle(s, c, e, m, copied);
      WithinSelf(s.procs[c], {});
      Widen(s.procs[p], s1.procs[p], {}, {ASYNCM});
      ReceiveWithin(s1, c, e, tables, p);
      WithinTrans(s.procs[p], s1.procs[p], MiniReceive(s1, c, e, tables).0.procs[p], {ASYNCM});
    } else {
      SentBlocked(s, c, e, m, tables, copied);
      WaitingJoins(s.procs[c], e, m, false);
      StillWaits(s1, c, e, tables);
      if p != c {
        StillSending(s1, c, e, tables, p);
        Widen(s.procs[p], s1.procs[p], {}, {ASYNCM});
      }
    }
  }

  /** Only what it waits for has changed. */
  predicate SameSend(x: Proc, y: Proc) {
    && y.sending == x.sending && y.sendto == x.sendto && y.fromKernel == x.fromKernel && Kin(x, y)
    && y.notify == x.notify && y.asyn == x.asyn
  }

  lemma StillWaits(s: State, c: nat, e: Endpoint, tables: Tables)
    requires Shaped(s) && c < NSLOTS && s.procs[c].sending && Slot(e)
    ensures SameSend(s.procs[c], MiniReceive(s, c, e, tables).0.procs[c])
  {
    hide FromAsync, Deadlock, Handed, SameSend;
    WaitsSame(s.procs[c], e);
  }

  lemma WaitsSame(x: Proc, e: Endpoint)
    ensures SameSend(x, x) && SameSend(x, x.(getfrom := e, receiving := true))
  {
  }

  /** What a permitted call does to each process. */
  lemma CallWithin(s: State, c: nat, call: Call, e: Endpoint, m: Message, tables: Tables, copied: bool, p: nat)
    requires Inv(s) && Runnable(s, c) && MayQueue(s, c, call, e, copied) && Permits(s, c, call, e) && p < NSLOTS
    ensures
      var x, y := s.procs[p], DoSyncIpc(s, c, call, e, m, tables, copied).0.procs[p];
      || Within(x, y, if call == NOTIFY && e.slot == p then {ASYNCM, c} else {ASYNCM})
      || (p == c && (call == SEND || call == SENDREC) && Queues(x, y, e, call == SENDREC))
  {
    hide Meets, QueueOk, MiniSend, MiniReceive, MiniNotify, SendRec, Within, Queues;
    assert BitsOk(s, c) && ProcOk(s, c);
    WithinSelf(s.procs[p], {ASYNCM});
    match call
    case SEND => SendCallWithin(s, c, e, m, false, copied, p);
    case SENDNB => SendCallWithin(s, c, e, m, true, copied, p);
    case NOTIFY =>
      NotifyWithin(s, c, e, p);
      var more, most := if Live(s, e) && e.slot == p then {c} else {}, if e.slot == p then {ASYNCM, c} else {ASYNCM};
      Widen(s.procs[p], MiniNotify(s, c, e).0.procs[p], more, most);
    case SENDA =>
    case SENDREC =>
      var x := s.procs[c].(replyPend := true);
      PutIdle(s, c, x);
      SameLink(s, c, e, copied);
      SendRecWithin(Put(s, c, x), c, e, m, tables, copied, p);
      if p == c { FlagOnly(s.procs[c], x, SendRec(Put(s, c, x), c, e, m, tables, copied).0.procs[c], e); }
    case RECEIVE =>
      var x := s.procs[c].(replyPend := false, status := {}, kernelStatus := false);
      PutIdle(s, c, x);
      ReceiveWithin(Put(s, c, x), c, e, tables, p);
      if p == c { FlagOnly(s.procs[c], x, MiniReceive(Put(s, c, x), c, e, tables).0.procs[c], e); }
  }

  lemma SendCallWithin(s: State, c: nat, e: Endpoint, m: Message, nonBlocking: bool, copied: bool, p: nat)
    requires Shaped(s) && c < NSLOTS && Idle(s.procs[c]) && Slot(e) && p < NSLOTS
    ensures
      var x, y := s.procs[p], MiniSend(s, c, e, m, nonBlocking, false, copied).0.procs[p];
      Within(x, y, {ASYNCM}) || (p == c && !nonBlocking && Queues(x, y, e, false))
  {
    hide MiniSend;
    SendWithin(s, c, e, m, nonBlocking, false, copied, p);
  }

  lemma FlagOnly(x: Proc, y: Proc, z: Proc, e: Endpoint)
    requires Kin(x, y) && !y.sending && y.notify == x.notify && y.asyn == x.asyn && y.fromKernel == x.fromKernel
    ensures Within(y, z, {ASYNCM}) ==> Within(x, z, {ASYNCM})
    ensures Queues(y, z, e, true) ==> Queues(x, z, e, true)
  {
  }

  lemma CallEntitled(s: State, c: nat, call: Call, e: Endpoint, m: Message, tables: Tables, copied: bool, p: nat)
    requires Inv(s) && Runnable(s, c) && MayQueue(s, c, call, e, copied) && AllEntitled(s) && p < NSLOTS
    ensures Entitled(DoSyncIpc(s, c, call, e, m, tables, copied).0, p)
  {
    hide ProcOk, BitsOk, Meets, QueueOk, DoSyncIpc, Within;
    assert Entitled(s, p);
    if !Permits(s, c, call, e) {
      Forbidden(s, c, call, e, m, tables, copied);
    } else {
      var s' := DoSyncIpc(s, c, call, e, m, tables, copied).0;
      forall q | 0 <= q < NSLOTS ensures Kin(s.procs[q], s'.procs[q]) {
        CallWithin(s, c, call, e, m, tables, copied, q);
        KinOf(s.procs[q], s'.procs[q]);
      }
      CallWithin(s, c, call, e, m, tables, copied, p);
      if p == c && (call == SEND || call == SENDREC) && Queues(s.procs[p], s'.procs[p], e, call == SENDREC) {
        EntitledQueues(s, s', p, e, call);
      } else {
        EntitledStays(s, s', p, if call == NOTIFY && e.slot == p then {ASYNCM, c} else {ASYNCM});
      }
    }
  }

  lemma KinOf(x: Proc, y: Proc)
    ensures forall more :: Within(x, y, more) ==> Kin(x, y)
  {
  }

  lemma EntitledQueues(s: State, s': State, c: nat, e: Endpoint, call: Call)
    requires |s.procs| == |s'.procs| == NSLOTS && c < NSLOTS && Entitled(s, c) && KinAll(s, s')
    requires (call == SEND || call == SENDREC) && Permits(s, c, call, e)
    requires Queues(s.procs[c], s'.procs[c], e, call == SENDREC)
    ensures Entitled(s', c)
  {
    forall q | q in s'.procs[c].notify && !s'.procs[c].free ensures MayNotify(s', q, c) {
      assert MayNotify(s, q, c);
      if q < NSLOTS { assert Kin(s.procs[q], s'.procs[q]); }
    }
    forall q | q in s'.procs[c].asyn ensures q < NSLOTS && c in s'.procs[q].ipcTo && NR_TASKS <= c {
      assert Kin(s.procs[q], s'.procs[q]);
    }
  }

  lemma EntryWithin(s: State, c: nat, e: Endpoint, m: Message, noReply: bool, p: nat)
    requires |s.procs| == NSLOTS && c < NSLOTS && p < NSLOTS
    ensures
      var x, y := s.procs[p], SendAsync(s, c, e, m, noReply).0.procs[p];
      || Within(x, y, {})
      || (y == x.(asyn := x.asyn + {c}) && p in s.procs[c].ipcTo && NR_TASKS <= p)
  {
    hide Handed, Within;
    WithinSelf(s.procs[p], {});
    if Slot(e) && !s.procs[e.slot].sending { HandedWithin(s.procs[e.slot], s.procs[c].endpoint, m); }
  }

  lemma HandedWithin(x: Proc, source: Endpoint, m: Message)
    requires !x.sending
    ensures Within(x, Handed(x, source, m, SENDA, false).(receiving := false), {})
  {
    hide Handed;
    HandedKin(x, source, m, SENDA, false);
  }

  lemma EntryEntitled(s: State, c: nat, e: Endpoint, m: Message, noReply: bool, p: nat)
    requires Inv(s) && Runnable(s, c) && AllEntitled(s) && p < NSLOTS
    ensures |SendAsync(s, c, e, m, noReply).0.procs| == NSLOTS && Entitled(SendAsync(s, c, e, m, noReply).0, p)
  {
    hide ProcOk, BitsOk, Meets, QueueOk, Within;
    assert Entitled(s, p);
    var s' := SendAsync(s, c, e, m, noReply).0;
    assert |s'.procs| == NSLOTS;
    hide SendAsync;
    forall q | 0 <= q < NSLOTS ensures Kin(s.procs[q], s'.procs[q]) {
      EntryWithin(s, c, e, m, noReply, q);
      KinOf(s.procs[q], s'.procs[q]);
    }
    EntryWithin(s, c, e, m, noReply, p);
    if Within(s.procs[p], s'.procs[p], {}) {
      EntitledStays(s, s', p, {});
    } else {
      EntitledMore(s, s', p, c);
    }
  }

  lemma EntitledMore(s: State, s': State, p: nat, c: nat)
    requires |s.procs| == |s'.procs| == NSLOTS && p < NSLOTS && c < NSLOTS && Entitled(s, p) && KinAll(s, s')
    requires s'.procs[p] == s.procs[p].(asyn := s.procs[p].asyn + {c}) && p in s.procs[c].ipcTo && NR_TASKS <= p
    ensures Entitled(s', p)
  {
    forall q | q in s'.procs[p].notify && !s'.procs[p].free ensures MayNotify(s', q, p) {
      assert MayNotify(s, q, p);
      if q < NSLOTS { assert Kin(s.procs[q], s'.procs[q]); }
    }
    forall q | q in s'.procs[p].asyn ensures q < NSLOTS && p in s'.procs[q].ipcTo && NR_TASKS <= p {
      assert Kin(s.procs[q], s'.procs[q]);
    }
  }

  lemma KernelSendEntitled(s: State, c: nat, e: Endpoint, m: Message, p: nat)
    requires Inv(s) && Runnable(s, c) && Live(s, e) && AllEntitled(s) && p < NSLOTS
    ensures Entitled(MiniSend(s, c, e, m, false, true, true).0, p)
  {
    hide ProcOk, BitsOk, Meets, QueueOk, Within, MiniSend;
    assert Entitled(s, p);
    var s' := MiniSend(s, c, e, m, false, true, true).0;
    forall q | 0 <= q < NSLOTS ensures Kin(s.procs[q], s'.procs[q]) {
      SendWithin(s, c, e, m, false, true, true, q);
      KinOf(s.procs[q], s'.procs[q]);
    }
    SendWithin(s, c, e, m, false, true, true, p);
    if Within(s.procs[p], s'.procs[p], {}) {
      EntitledStays(s, s', p, {});
    } else {
      forall q | q in s'.procs[p].notify && !s'.procs[p].free ensures MayNotify(s', q, p) {
        assert MayNotify(s, q, p);
        if q < NSLOTS { assert Kin(s.procs[q], s'.procs[q]); }
      }
      forall q | q in s'.procs[p].asyn ensures q < NSLOTS && p in s'.procs[q].ipcTo && NR_TASKS <= p {
        assert Kin(s.procs[q], s'.procs[q]);
      }
    }
  }

  lemma KernelNotifyEntitled(s: State, c: nat, e: Endpoint, p: nat)
    requires |s.procs| == NSLOTS && c < NR_TASKS && AllEntitled(s) && p < NSLOTS
    ensures Entitled(MiniNotify(s, c, e).0, p)
  {
    hide Within, MiniNotify;
    assert Entitled(s, p);
    var s' := MiniNotify(s, c, e).0;
    forall q | 0 <= q < NSLOTS ensures Kin(s.procs[q], s'.procs[q]) {
      NotifyWithin(s, c, e, q);
      KinOf(s.procs[q], s'.procs[q]);
    }
    NotifyWithin(s, c, e, p);
    EntitledStays(s, s', p, if Live(s, e) && e.slot == p then {c} else {});
  }

  lemma ForkEntitled(s: State, e: Endpoint, slot: nat, user: Rights, p: nat)
    requires Inv(s) && slot < NSLOTS && AllEntitled(s) && p < NSLOTS
    requires Fork(s, e, slot, user).1 == OK ==> Slot(e) && Quiet(s, e)
    ensures Entitled(Fork(s, e, slot, user).0, p)
  {
    hide ProcOk, Meets, QueueOk, Child;
    assert Entitled(s, p) && BitsOk(s, p);
    var (s', r) := Fork(s, e, slot, user);
    if r == OK {
      ChildKin(s.procs[e.slot], slot, NextGeneration(s.procs[slot].endpoint), user);
      if p != slot {
        forall q | q in s'.procs[p].notify && !s'.procs[p].free ensures MayNotify(s', q, p) {
          assert MayNotify(s, q, p);
        }
      }
    }
  }

  lemma ExitEntitled(s: State, rc: nat, tables: Tables, p: nat)
    requires Inv(s) && rc < NSLOTS && AllEntitled(s) && p < NSLOTS
    ensures BitsOk(s, rc) && Entitled(ClearProc(s, rc, tables), p)
  {
    hide ProcOk, Meets, QueueOk, ClearProc, Within;
    assert Entitled(s, p) && BitsOk(s, p);
    ExitOwn(s, rc, tables);
    var s' := ClearProc(s, rc, tables);
    forall q | 0 <= q < NSLOTS && q != rc ensures Kin(s.procs[q], s'.procs[q]) {
      ExitWithin(s, rc, tables, q);
      KinOf(s.procs[q], s'.procs[q]);
    }
    if p != rc {
      ExitWithin(s, rc, tables, p);
      ExitLess(s, s', rc, p);
    }
  }

  lemma ExitLess(s: State, s': State, rc: nat, p: nat)
    requires |s.procs| == |s'.procs| == NSLOTS && p < NSLOTS && rc < NSLOTS && p != rc && Entitled(s, p)
    requires Within(s.procs[p], s'.procs[p], {ASYNCM})
    requires !s.procs[p].free ==> rc !in s'.procs[p].notify && rc !in s'.procs[p].asyn
    requires s.procs[p].free ==> s.procs[p].asyn == {}
    requires forall q :: 0 <= q < NSLOTS && q != rc ==> Kin(s.procs[q], s'.procs[q])
    ensures Entitled(s', p)
  {
    forall q | q in s'.procs[p].notify && !s'.procs[p].free ensures MayNotify(s', q, p) {
      assert MayNotify(s, q, p);
      if q < NSLOTS { assert Kin(s.procs[q], s'.procs[q]); }
    }
    forall q | q in s'.procs[p].asyn ensures q < NSLOTS && p in s'.procs[q].ipcTo && NR_TASKS <= p {
      assert Kin(s.procs[q], s'.procs[q]);
    }
  }

  /** Every event keeps it so that whatever is in transit is there by right. */
  lemma EntitledStep(s: State, ev: Event, p: nat)
    requires Inv(s) && Enabled(s, ev) && Sane(s, ev) && AllEntitled(s) && p < NSLOTS
    ensures Entitled(Step(s, ev), p)
  {
    hide ProcOk, Meets, QueueOk, DoSyncIpc, MiniSend, MiniNotify, SendAsync, ClearProc, Fork, Entitled;
    match ev
    case Ipc(c, call, e, m, tables, copied) => CallEntitled(s, c, call, e, m, tables, copied, p);
    case SendEntry(c, e, m, noReply) => EntryEntitled(s, c, e, m, noReply, p);
    case KernelSend(c, e, m) => KernelSendEntitled(s, c, e, m, p);
    case KernelNotify(source, e) => KernelNotifyEntitled(s, source, e, p);
    case CopyOut(c) => CopyEntitled(s, c, p);
    case Clone(parent, slot, user) => ForkEntitled(s, parent, slot, user, p);
    case Exit(rc, tables) => ExitEntitled(s, rc, tables, p);
  }

  lemma CopyEntitled(s: State, c: nat, p: nat)
    requires |s.procs| == NSLOTS && c < NSLOTS && AllEntitled(s) && p < NSLOTS
    ensures Entitled(Put(s, c, s.procs[c].(deliver := false)), p)
  {
    assert Entitled(s, p);
    var s' := Put(s, c, s.procs[c].(deliver := false));
    assert forall q :: 0 <= q < NSLOTS ==> Kin(s.procs[q], s'.procs[q]);
    EntitledStays(s, s', p, {});
  }

  /** From boot on, over every run: nothing is queued at a process, and no
      notification or asynchronous message is pending there, from anyone whose
      masks do not allow it. */
  lemma {:induction false} EntitledRun(s: State, evs: seq<Event>)
    requires Inv(s) && AllEntitled(s) && IsRun(s, evs)
    ensures AllEntitled(Run(s, evs))
    decreases |evs|
  {
    assert Shaped(s);
    hide Inv, Step, Enabled, Entitled;
    if evs != [] {
      StepKeeps(s, evs[0]);
      forall p | 0 <= p < NSLOTS ensures Entitled(Step(s, evs[0]), p) { EntitledStep(s, evs[0], p); }
      EntitledRun(Step(s, evs[0]), evs[1..]);
    }
  }

  lemma BootEntitled(s: State)
    requires Boot(s)
    ensures Inv(s) && AllEntitled(s)
  {
    BootInv(s);
    forall p | 0 <= p < NSLOTS ensures Entitled(s, p) { assert Idle(s.procs[p]); }
  }

  // -------------------------------------------------------- asynchronous sends

  /** The exact condition for each result of an entry of a send table. */
  lemma EntryResult(s: State, c: nat, e: Endpoint, m: Message, noReply: bool)
    requires |s.procs| == NSLOTS && c < NSLOTS
    ensures
      var (s', r) := SendAsync(s, c, e, m, noReply);
      var privileged, live := s.procs[c].sysProc, Live(s, e);
      var may := live && NR_TASKS <= e.slot && e.slot in s.procs[c].ipcTo;
      && (r == EPERM <==> !privileged)
      && (r == EDEADSRCDST <==> privileged && (!live || (may && s.procs[e.slot].noEndpoint)))
      && (r == ECALLDENIED <==> privileged && live && !may)
      && (r == OK <==> privileged && may && !s.procs[e.slot].noEndpoint)
      && (r != OK ==> s' == s)
  {
    hide Handed;
  }
}
