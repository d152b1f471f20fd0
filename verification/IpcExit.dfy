/** An exit as a whole: what clear_endpoint and do_clear leave of every process
    and every queue, whatever the order of the scans. */
module IpcExit {
  import opened IpcState
  import opened IpcInvariant
  import opened IpcSteps
  import opened IpcClear
  import opened IpcOrder
  import opened Links

  // ------------------------------------------------------- asynchronous senders

  /** An announced sender that asked to be told when its entry is done. */
  predicate IsTold(s: State, rc: nat, tables: Tables, p: nat)
    requires |s.procs| == NSLOTS && rc < NSLOTS
  {
    p in s.procs[rc].asyn && tables(p).tell
  }

  /** A process told by ASYNCM: the notification is with it, or pending. */
  function Told(x: Proc, asyncm: Endpoint): Proc {
    if WillReceive(x, asyncm) && !x.replyPend then Woken(x, asyncm, Notification(asyncm), NOTIFY, false)
    else x.(notify := x.notify + {ASYNCM})
  }

  lemma CancelOne(s: State, q: nat, rc: nat, tables: Tables, p: nat)
    requires Shaped(s) && rc < NSLOTS && BitsOk(s, rc) && q in s.procs[rc].asyn && p < NSLOTS && p != rc
    requires ProcOk(s, q)
    ensures q < NSLOTS
    ensures CancelAsync(s, q, rc, tables).procs[p] ==
      if p == q && tables(q).tell then Told(s.procs[p], s.procs[ASYNCM].endpoint) else s.procs[p]
    ensures rc != ASYNCM ==> CancelAsync(s, q, rc, tables).procs[ASYNCM].endpoint == s.procs[ASYNCM].endpoint
  {
    hide Woken;
    var x := s.procs[rc].(asyn := s.procs[rc].asyn - {q});
    var s1 := Put(s, rc, x);
    assert s1.procs[q] == s.procs[q] && Live(s1, s.procs[q].endpoint);
    if WillReceive(s1.procs[q], s1.procs[ASYNCM].endpoint) {
      WokenKin(s1.procs[q], s1.procs[ASYNCM].endpoint, Notification(s1.procs[ASYNCM].endpoint), NOTIFY, false);
    }
  }

  /** Every sender is dealt with once. */
  lemma {:induction false} CancelEach(s: State, rc: nat, tables: Tables, p: nat)
    requires Inv(s) && rc < NSLOTS && rc != ASYNCM && Idle(s.procs[rc]) && p < NSLOTS && p != rc
    ensures BitsOk(s, rc)
    ensures CancelAll(s, rc, tables).procs[p] ==
      if IsTold(s, rc, tables, p) then Told(s.procs[p], s.procs[ASYNCM].endpoint) else s.procs[p]
    decreases |s.procs[rc].asyn|
  {
    hide ProcOk, Meets, QueueOk, CancelAsync, Told;
    assert BitsOk(s, rc);
    var q := HasPending(s.procs[rc].asyn, ANY);
    if q < NSLOTS {
      assert ProcOk(s, q);
      CancelKeeps(s, q, rc, tables);
      CancelLess(s, q, rc, tables);
      CancelOne(s, q, rc, tables, p);
      CancelEach(CancelAsync(s, q, rc, tables), rc, tables, p);
    } else {
      assert p !in s.procs[rc].asyn;
    }
  }

  // ------------------------------------------------------------------- the scan

  /** What the scan makes of a process: it forgets `rc`, and if it was blocked on
      it, it is sent back with EDEADSRCDST. */
  function SentBack(x: Proc, rc: nat, e: Endpoint): Proc {
    if x.free then x
    else
      var y := x.(notify := x.notify - {rc}, asyn := x.asyn - {rc});
      if BlockedOn(x) == e then y.(ret := EDEADSRCDST, sending := false, receiving := false) else y
  }

  lemma DropIs(s: State, rc: nat, p: nat)
    requires Inv(s) && rc < NSLOTS && p < NSLOTS
    ensures DropRef(s, rc, p).procs[p] == SentBack(s.procs[p], rc, s.procs[rc].endpoint)
  {
    hide ProcOk, BitsOk, Meets, QueueOk, Place;
    var x := s.procs[p];
    var z := Dropped(x, rc).(ret := EDEADSRCDST);
    assert ClearIpc(Put(s, p, z), p).procs[p] == Unblocked(z);
  }

  lemma {:induction false} ScanEach(s: State, rc: nat, i: nat, p: nat)
    requires Inv(s) && rc < NSLOTS && i <= NSLOTS && p < NSLOTS
    ensures ScanRefs(s, rc, i).procs[p] == if p < i then s.procs[p] else SentBack(s.procs[p], rc, s.procs[rc].endpoint)
    decreases NSLOTS - i
  {
    hide BitsOk, Meets, QueueOk, DropRef, ProcOk, SentBack;
    if i < NSLOTS {
      DropKeeps(s, rc, i);
      DropIs(s, rc, i);
      assert Kin(s.procs[rc], DropRef(s, rc, i).procs[rc]);
      ScanEach(DropRef(s, rc, i), rc, i + 1, p);
    }
  }

  // ----------------------------------------------------------------- the whole

  /** Every other process after the exit of `rc`. */
  lemma OthersExactly(s: State, rc: nat, tables: Tables, p: nat)
    requires Inv(s) && rc < NSLOTS && rc != ASYNCM && p < NSLOTS && p != rc
    ensures BitsOk(s, rc)
    ensures
      var x := if IsTold(s, rc, tables, p) then Told(s.procs[p], s.procs[ASYNCM].endpoint) else s.procs[p];
      ClearProc(s, rc, tables).procs[p] == SentBack(x, rc, s.procs[rc].endpoint)
  {
    hide ProcOk, Meets, QueueOk, ClearIpc, CancelAll, ScanRefs, SentBack, Told;
    assert BitsOk(s, rc);
    EndpointFirst(s, rc);
    ClearIpcKeeps(s, rc);
    var s1 := NoMoreEndpoint(ClearIpc(s, rc), rc);
    assert Idle(ClearIpc(s, rc).procs[rc]);
    NoEndpointKeeps(ClearIpc(s, rc), rc);
    CancelAllKeeps(s1, rc, tables);
    assert BitsOk(s1, rc);
    CancelEach(s1, rc, tables, p);
    var s2 := CancelAll(s1, rc, tables);
    assert Kin(s1.procs[rc], s2.procs[rc]);
    ScanEach(s2, rc, 0, p);
  }

  /** In terms of the process itself: a process that need not be told keeps all
      but its references to `rc`; one that waited for `rc` goes on with
      EDEADSRCDST; one that is to be told has the notification, or it is
      pending. */
  lemma ExitOutcome(s: State, rc: nat, tables: Tables, p: nat)
    requires Inv(s) && rc < NSLOTS && rc != ASYNCM && p < NSLOTS && p != rc && !s.procs[p].free
    ensures BitsOk(s, rc)
    ensures
      var x, y := s.procs[p], ClearProc(s, rc, tables).procs[p];
      var kept := x.(notify := x.notify - {rc}, asyn := x.asyn - {rc});
      && (!IsTold(s, rc, tables, p) ==>
            y == if BlockedOn(x) == s.procs[rc].endpoint
                 then kept.(ret := EDEADSRCDST, sending := false, receiving := false) else kept)
      && (IsTold(s, rc, tables, p) ==>
            || ASYNCM in y.notify
            || (Idle(y) && y.deliver && y.delivermsg == Notification(s.procs[ASYNCM].endpoint)))
      && (BlockedOn(x) == s.procs[rc].endpoint ==> Idle(y) && !y.deliver && y.ret == EDEADSRCDST)
  {
    hide BitsOk, Meets, QueueOk, ClearProc, Woken;
    OthersExactly(s, rc, tables, p);
    assert ProcOk(s, p) && ProcOk(s, rc) && ProcOk(s, ASYNCM);
    var asyncm := s.procs[ASYNCM].endpoint;
    WokenKin(s.procs[p], asyncm, Notification(asyncm), NOTIFY, false);
  }

  /** The exiting process itself: an empty slot that waits for nobody. */
  lemma ExitOwn(s: State, rc: nat, tables: Tables)
    requires Inv(s) && rc < NSLOTS
    ensures BitsOk(s, rc)
    ensures
      var x, y := s.procs[rc], ClearProc(s, rc, tables).procs[rc];
      y.free && !y.noEndpoint && Idle(y) && y.asyn == {} && y.endpoint == x.endpoint
  {
    hide ProcOk, Meets, QueueOk, ClearEndpoint, Forgets;
    ClearEndpointDeparts(s, rc, tables);
  }

  /** The queues: that of `rc` is empty, and from any other just `rc` is gone. */
  lemma ExitQueues(s: State, rc: nat, tables: Tables, d: nat)
    requires Inv(s) && rc < NSLOTS && d < NSLOTS
    ensures BitsOk(s, rc)
    ensures
      var q, q' := s.queue[d], ClearProc(s, rc, tables).queue[d];
      q' == if d == rc then [] else if rc in q then Without(q, Place(q, rc, 0)) else q
  {
    hide ProcOk, Meets, QueueOk, ClearIpc, CancelAll, ScanRefs, Place, Forgets, Without;
    ClearEndpointDeparts(s, rc, tables);
    if d != rc {
      EndpointFirst(s, rc);
      ClearIpcKeeps(s, rc);
      ClearIpcOne(s, rc, d);
      var s1 := NoMoreEndpoint(ClearIpc(s, rc), rc);
      assert Idle(ClearIpc(s, rc).procs[rc]);
      NoEndpointKeeps(ClearIpc(s, rc), rc);
      CancelAllKeeps(s1, rc, tables);
      ScanQueues(CancelAll(s1, rc, tables), rc, 0, d);
    }
  }

  lemma ClearIpcOne(s: State, rc: nat, d: nat)
    requires Inv(s) && rc < NSLOTS && d < NSLOTS
    ensures var q := s.queue[d]; ClearIpc(s, rc).queue[d] == if rc in q then Without(q, Place(q, rc, 0)) else q
  {
    hide BitsOk, Meets, Place, Without;
    assert ProcOk(s, rc) && QueueOk(s, d) && ProcOk(s, d);
    var x := s.procs[rc];
    if x.sending {
      assert QueueOk(s, x.sendto.slot) && ProcOk(s, x.sendto.slot);
    }
  }
}
