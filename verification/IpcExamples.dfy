/** Runs from a small boot state that end where the kernel's own assumptions
    fail. */
module IpcExamples {
  import opened Common
  import opened IpcState
  import opened IpcInvariant
  import opened IpcSteps
  import opened IpcCalls
  import opened IpcClear
  import opened IpcFork
  import opened IpcReply
  import opened IpcRuns
  import opened WaitGraph

  predicate Other(p: nat, q: nat) {
    p != q
  }

  /** Process `p` as it comes up: idle, allowed to make every call and to send
      to every process but itself.  Slots from 8 on are free. */
  function Fresh(p: nat): Proc {
    var nothing := Message(NONE, 0, 0);
    Proc(Ep(p, 0), p >= 8, false, false, false, false, false, false, NONE, NONE, nothing, nothing,
         {}, false, OK, {}, {}, true, (set q | 0 <= q < NSLOTS && Other(p, q)),
         {SEND, RECEIVE, SENDREC, NOTIFY, SENDNB, SENDA})
  }

  function BootState(): (s: State)
    ensures Boot(s)
  {
    State(seq(NSLOTS, p requires 0 <= p < NSLOTS => Fresh(p)), seq(NSLOTS, p => []), {})
  }

  const HELLO: Message := Message(NONE, 1, 2)

  const EMPTY: Tables := q => Entry(None, false, false)

  /** The first call of process 6 is a receive from process 6. */
  lemma ReceiveFromSelf()
    ensures Inv(BootState()) && Enabled(BootState(), Ipc(6, RECEIVE, Ep(6, 0), HELLO, EMPTY, true))
    ensures !Inv(Step(BootState(), Ipc(6, RECEIVE, Ep(6, 0), HELLO, EMPTY, true)))
  {
    hide DoSyncIpc, Inv;
    var s := BootState();
    BootInv(s);
    SelfWaitCycles(s, 6, Ep(6, 0), HELLO, EMPTY, true);
    CallKeepsIff(s, 6, RECEIVE, Ep(6, 0), HELLO, EMPTY, true);
  }

  /** A send to an idle process joins the end of its queue. */
  lemma SendJoins(s: State, c: nat, d: nat)
    requires Inv(s) && Runnable(s, c) && NR_TASKS <= d < NSLOTS && c != d && Runnable(s, d)
    requires s.procs[d].endpoint == Ep(d, 0) && d in s.procs[c].ipcTo && SEND in s.procs[c].traps && s.stale == {}
    ensures Enabled(s, Ipc(c, SEND, Ep(d, 0), HELLO, EMPTY, true))
    ensures Sane(s, Ipc(c, SEND, Ep(d, 0), HELLO, EMPTY, true))
    ensures
      var s' := Step(s, Ipc(c, SEND, Ep(d, 0), HELLO, EMPTY, true));
      Inv(s') && s'.queue[d] == s.queue[d] + [c] && s'.stale == {}
      && forall p :: 0 <= p < NSLOTS && p != c ==> s'.procs[p] == s.procs[p]
  {
    hide ProcOk, BitsOk, Meets, QueueOk;
    StepKeeps(s, Ipc(c, SEND, Ep(d, 0), HELLO, EMPTY, true));
  }

  const SIX: Event := Ipc(6, SEND, Ep(5, 0), HELLO, EMPTY, true)
  const SEVEN: Event := Ipc(7, SEND, Ep(5, 0), HELLO, EMPTY, true)

  lemma TwoCallers()
    ensures Inv(BootState()) && Enabled(BootState(), SIX) && Sane(BootState(), SIX)
    ensures var s1 := Step(BootState(), SIX); Inv(s1) && Enabled(s1, SEVEN) && Sane(s1, SEVEN)
    ensures
      var s2 := Step(Step(BootState(), SIX), SEVEN);
      Inv(s2) && s2.queue[5] == [6, 7] && !s2.procs[5].free && s2.stale == {}
  {
    hide ProcOk, BitsOk, Meets, QueueOk, AllEnd, Step, Enabled, Sane;
    var s := BootState();
    BootInv(s);
    SendJoins(s, 6, 5);
    var s1 := Step(s, SIX);
    assert s1.procs[5] == s.procs[5] && s1.procs[7] == s.procs[7];
    SendJoins(s1, 7, 5);
    var s2 := Step(s1, SEVEN);
    assert s2.procs[5] == s1.procs[5];
  }

  /** Processes 6 and 7, in this order, send to process 5, and then 5 exits:
      process 6 is left with a link to process 7, against the kernel's
      assertion when it next has to wait. */
  lemma StaleLink()
    ensures IsRun(BootState(), [SIX, SEVEN, Exit(5, EMPTY)])
    ensures 6 in Run(BootState(), [SIX, SEVEN, Exit(5, EMPTY)]).stale
  {
    hide Inv, Step, Enabled, Sane;
    var exit := Exit(5, EMPTY);
    var s, evs := BootState(), [SIX, SEVEN, exit];
    TwoCallers();
    var s1 := Step(s, SIX);
    var s2 := Step(s1, SEVEN);
    ExitLeaves(s2);
    var s3 := Step(s2, exit);
    assert evs[1..] == [SEVEN, exit] && evs[1..][1..] == [exit] && evs[1..][1..][1..] == [];
    assert IsRun(s3, []) && Run(s3, []) == s3;
    assert IsRun(s2, [exit]) && Run(s2, [exit]) == s3;
    assert IsRun(s1, [SEVEN, exit]) && Run(s1, [SEVEN, exit]) == s3;
  }

  lemma ExitLeaves(s: State)
    requires Inv(s) && s.queue[5] == [6, 7] && !s.procs[5].free
    ensures Enabled(s, Exit(5, EMPTY)) && Sane(s, Exit(5, EMPTY)) && 6 in Step(s, Exit(5, EMPTY)).stale
  {
    hide ProcOk, Meets, QueueOk, ClearEndpoint, Followed;
    assert BitsOk(s, 5);
    ClearEndpointStale(s, 5, EMPTY);
    assert s.queue[5][0] < s.queue[5][1];
    assert 6 in Overtaken(s.queue[5]);
  }

  /** A receive from an idle process, with nothing there, waits. */
  lemma ReceiveWaits(s: State, c: nat, d: nat)
    requires Inv(s) && Runnable(s, c) && d < NSLOTS && c != d && Runnable(s, d) && s.procs[d].endpoint == Ep(d, 0)
    requires RECEIVE in s.procs[c].traps && s.procs[c].notify == {} && s.procs[c].asyn == {} && s.queue[c] == []
    requires s.stale == {}
    ensures Enabled(s, Ipc(c, RECEIVE, Ep(d, 0), HELLO, EMPTY, true))
    ensures Sane(s, Ipc(c, RECEIVE, Ep(d, 0), HELLO, EMPTY, true))
    ensures
      var s' := Step(s, Ipc(c, RECEIVE, Ep(d, 0), HELLO, EMPTY, true)); var y := s'.procs[c];
      && Inv(s') && s'.queue == s.queue && s'.stale == {}
      && y.receiving && !y.sending && y.getfrom == Ep(d, 0) && Kin(s.procs[c], y) && !y.noEndpoint
      && forall p :: 0 <= p < NSLOTS && p != c ==> s'.procs[p] == s.procs[p]
  {
    hide BitsOk, Meets, QueueOk;
    assert ProcOk(s, c) && ProcOk(s, d);
    StepKeeps(s, Ipc(c, RECEIVE, Ep(d, 0), HELLO, EMPTY, true));
  }

  const WAIT: Event := Ipc(7, RECEIVE, Ep(5, 0), HELLO, EMPTY, true)
  const CALL: Event := Ipc(6, SEND, Ep(7, 0), HELLO, EMPTY, true)
  const NONE_RIGHTS: Rights := Rights({}, {})

  /** Process 7 waits for process 5, process 6 sends to 7, and 7 is forked into
      slot 8: process 6 is now on two queues, and the invariant is gone. */
  lemma ForkShares()
    ensures IsRun(BootState(), [WAIT, CALL]) && Inv(Run(BootState(), [WAIT, CALL]))
    ensures
      var (s', r) := Fork(Run(BootState(), [WAIT, CALL]), Ep(7, 0), 8, NONE_RIGHTS);
      r == OK && 6 in s'.queue[7] && 6 in s'.queue[8] && !Inv(s')
  {
    hide ProcOk, BitsOk, Meets, QueueOk, AllEnd, Step, Enabled, Sane;
    var s := BootState();
    BootInv(s);
    ReceiveWaits(s, 7, 5);
    var s1 := Step(s, WAIT);
    assert s1.procs[6] == s.procs[6] && s1.procs[8] == s.procs[8];
    SendWaits(s1, 6, 7);
    var s2 := Step(s1, CALL);
    assert s2.procs[7] == s1.procs[7] && s2.procs[8] == s1.procs[8];
    assert s2.queue[7] == [6];
    ForkKeepsIff(s2, Ep(7, 0), 8, NONE_RIGHTS);
    var evs := [WAIT, CALL];
    assert evs[1..] == [CALL] && evs[1..][1..] == [];
    assert IsRun(s2, []) && Run(s2, []) == s2;
    assert IsRun(s1, [CALL]) && Run(s1, [CALL]) == s2;
  }

  /** A send to a process that waits for somebody else. */
  lemma SendWaits(s: State, c: nat, d: nat)
    requires Inv(s) && Runnable(s, c) && NR_TASKS <= d < NSLOTS && c != d && !s.procs[d].free && !s.procs[d].noEndpoint
    requires s.procs[d].receiving && !s.procs[d].sending && s.procs[d].getfrom == Ep(5, 0) && c != 5 && d != 5
    requires Idle(s.procs[5])
    requires s.procs[5].endpoint == Ep(5, 0) && s.procs[c].endpoint == Ep(c, 0)
    requires s.procs[d].endpoint == Ep(d, 0) && d in s.procs[c].ipcTo && SEND in s.procs[c].traps && s.stale == {}
    ensures Enabled(s, Ipc(c, SEND, Ep(d, 0), HELLO, EMPTY, true))
    ensures Sane(s, Ipc(c, SEND, Ep(d, 0), HELLO, EMPTY, true))
    ensures
      var s' := Step(s, Ipc(c, SEND, Ep(d, 0), HELLO, EMPTY, true));
      Inv(s') && s'.queue[d] == s.queue[d] + [c] && s'.stale == {}
      && forall p :: 0 <= p < NSLOTS && p != c ==> s'.procs[p] == s.procs[p]
  {
    hide ProcOk, BitsOk, Meets, QueueOk, Woken;
    assert Walk(s, SEND, Ep(c, 0), Ep(5, 0), 2, NSLOTS - 1) == 0;
    assert Deadlock(s, SEND, c, Ep(d, 0)) == 0;
    StepKeeps(s, Ipc(c, SEND, Ep(d, 0), HELLO, EMPTY, true));
  }

  const ASK: Event := Ipc(6, SENDREC, Ep(7, 0), HELLO, EMPTY, false)
  const LISTEN: Event := Ipc(7, RECEIVE, ANY, HELLO, EMPTY, true)
  const TELL: Event := Ipc(6, SEND, Ep(7, 0), HELLO, EMPTY, true)

  /** A SENDREC to an idle process, of a message that cannot be read. */
  lemma AskFaults(s: State, c: nat, d: nat)
    requires Inv(s) && Runnable(s, c) && NR_TASKS <= d < NSLOTS && c != d && Runnable(s, d)
    requires s.procs[d].endpoint == Ep(d, 0)
    requires d in s.procs[c].ipcTo && SENDREC in s.procs[c].traps
    ensures Enabled(s, Ipc(c, SENDREC, Ep(d, 0), HELLO, EMPTY, false))
    ensures Sane(s, Ipc(c, SENDREC, Ep(d, 0), HELLO, EMPTY, false))
    ensures Step(s, Ipc(c, SENDREC, Ep(d, 0), HELLO, EMPTY, false)) == Put(s, c, s.procs[c].(replyPend := true))
  {
    hide ProcOk, BitsOk, Meets, QueueOk;
  }

  /** A RECEIVE from ANY with nothing there. */
  lemma ListenWaits(s: State, c: nat)
    requires Inv(s) && Runnable(s, c) && RECEIVE in s.procs[c].traps
    requires s.procs[c].notify == {} && s.procs[c].asyn == {} && s.queue[c] == []
    ensures Enabled(s, Ipc(c, RECEIVE, ANY, HELLO, EMPTY, true)) && Sane(s, Ipc(c, RECEIVE, ANY, HELLO, EMPTY, true))
    ensures
      var x := s.procs[c].(replyPend := false, status := {}, kernelStatus := false);
      Step(s, Ipc(c, RECEIVE, ANY, HELLO, EMPTY, true)) == Put(s, c, x.(getfrom := ANY, receiving := true))
  {
    hide BitsOk, Meets, QueueOk;
    assert ProcOk(s, c);
  }

  /** The SENDREC of process 6 fails; 7 waits for a message; 6 makes a plain SEND
      to it, and 7 is told that it was a SENDREC. */
  lemma SendToldAsSendRec()
    ensures IsRun(BootState(), [ASK, LISTEN, TELL])
    ensures Run(BootState(), [ASK, LISTEN, TELL]).procs[7].status == {SENDREC}
  {
    hide Inv, Step, Enabled, Sane;
    var s, evs := BootState(), [ASK, LISTEN, TELL];
    BootInv(s);
    AskFaults(s, 6, 7);
    StepKeeps(s, ASK);
    var s1 := Step(s, ASK);
    ListenWaits(s1, 7);
    StepKeeps(s1, LISTEN);
    var s2 := Step(s1, LISTEN);
    TellMisled(s2);
    var s3 := Step(s2, TELL);
    assert evs[1..] == [LISTEN, TELL] && evs[1..][1..] == [TELL] && evs[1..][1..][1..] == [];
    assert IsRun(s3, []) && Run(s3, []) == s3;
    assert IsRun(s2, [TELL]) && Run(s2, [TELL]) == s3;
    assert IsRun(s1, [LISTEN, TELL]) && Run(s1, [LISTEN, TELL]) == s3;
  }

  lemma TellMisled(s: State)
    requires Inv(s) && Runnable(s, 6) && s.procs[6].replyPend && 7 in s.procs[6].ipcTo && SEND in s.procs[6].traps
    requires Live(s, Ep(7, 0)) && WillReceive(s.procs[7], s.procs[6].endpoint) && s.procs[7].status == {}
    requires !s.procs[7].replyPend
    requires !s.procs[7].noEndpoint
    ensures Enabled(s, TELL) && Sane(s, TELL) && Step(s, TELL).procs[7].status == {SENDREC}
  {
    hide ProcOk, BitsOk, Meets, QueueOk, DoSyncIpc;
    SentAs(s, 6, SEND, Ep(7, 0), HELLO, EMPTY, true);
  }
}
