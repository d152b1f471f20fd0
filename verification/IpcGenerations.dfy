/** What a fork gives, and how long an endpoint stays dead once its process has
    exited. */
module IpcGenerations {
  import opened IpcState
  import opened IpcInvariant
  import opened IpcClear
  import opened IpcFork
  import opened IpcRuns
  import opened IpcExit
  import opened IpcRights

  // ----------------------------------------------------------------- one fork

  /** A fork goes through if and only if the parent is there and blocked in a
      receive, and the slot is free. */
  lemma ForkResult(s: State, e: Endpoint, slot: nat, user: Rights)
    requires Shaped(s) && slot < NSLOTS
    ensures
      var (s', r) := Fork(s, e, slot, user);
      && (r == OK <==> Live(s, e) && s.procs[e.slot].receiving && s.procs[slot].free)
      && (r != OK ==> r == EINVAL && s' == s)
  {
    hide Child;
  }

  /** The child has the slot and a generation it did not have before, so that
      the old endpoint is dead; it is no system process and has the rights of
      user processes if its parent was one, else its parent's; in all else it is
      its parent, and nothing else has changed. */
  lemma ForkGives(s: State, e: Endpoint, slot: nat, user: Rights)
    requires Inv(s) && slot < NSLOTS && Fork(s, e, slot, user).1 == OK
    ensures Slot(e) && e.slot != slot
    ensures
      var s' := Fork(s, e, slot, user).0; var x, y, was := s.procs[e.slot], s'.procs[slot], s.procs[slot].endpoint;
      && was.Ep? && y.endpoint.Ep? && y.endpoint.slot == slot && y.endpoint.gen != was.gen
      && y.endpoint.gen == (if was.gen + 1 < MAX_GENERATION then was.gen + 1 else 1)
      && Live(s', y.endpoint) && !Live(s', was)
      && !y.sysProc
      && (x.sysProc ==> y.ipcTo == user.ipcTo - {slot} && y.traps == user.traps)
      && (!x.sysProc ==> y.ipcTo == x.ipcTo - {slot} && y.traps == x.traps)
      && y == x.(endpoint := y.endpoint, notify := {}, asyn := {},
                 sysProc := y.sysProc, ipcTo := y.ipcTo, traps := y.traps)
      && (forall p :: 0 <= p < NSLOTS && p != slot ==> s'.procs[p] == s.procs[p] && s'.queue[p] == s.queue[p])
      && s'.queue[slot] == s.queue[e.slot]
  {
    hide BitsOk, Meets, QueueOk;
    assert ProcOk(s, slot) && ProcOk(s, e.slot);
  }

  // --------------------------------------------------------------- generations

  /** The generation after `k` forks into a slot. */
  function Later(g: nat, k: nat): nat {
    if k == 0 then g
    else
      var h := Later(g, k - 1);
      if h + 1 < MAX_GENERATION then h + 1 else 1
  }

  /** How many of `k` forks are left when whole rounds of generations are taken
      off. */
  function PastRound(k: nat): (r: nat)
    ensures r < MAX_GENERATION - 1
  {
    if k == 0 || PastRound(k - 1) + 1 == MAX_GENERATION - 1 then 0 else PastRound(k - 1) + 1
  }

  /** Generations go round from 1 on; 0, or one too large, does not come back. */
  lemma {:induction false} LaterIs(g: nat, k: nat)
    ensures 0 < g < MAX_GENERATION ==>
      Later(g, k) == g + PastRound(k) - if g + PastRound(k) < MAX_GENERATION then 0 else MAX_GENERATION - 1
    ensures k > 0 ==> 0 < Later(g, k) < MAX_GENERATION
    decreases k
  {
    if k > 0 { LaterIs(g, k - 1); }
  }

  ghost predicate Forks(s: State, ev: Event, slot: nat)
    requires Shaped(s) && Enabled(s, ev)
  {
    ev.Clone? && ev.slot == slot && Fork(s, ev.parent, ev.slot, ev.user).1 == OK
  }

  lemma CallSlot(s: State, ev: Event, p: nat)
    requires Inv(s) && Enabled(s, ev) && ev.Ipc? && Sane(s, ev) && p < NSLOTS
    ensures var x, y := s.procs[p], Step(s, ev).procs[p]; y.endpoint == x.endpoint && (x.free ==> y.free)
  {
    hide ProcOk, Meets, QueueOk, BitsOk, DoSyncIpc, Within, Permits;
    if Permits(s, ev.c, ev.call, ev.e) {
      CallWithin(s, ev.c, ev.call, ev.e, ev.m, ev.tables, ev.copied, p);
      KinOf(s.procs[p], Step(s, ev).procs[p]);
    } else {
      ForbiddenStep(s, ev);
    }
  }

  lemma ExitSlot(s: State, rc: nat, tables: Tables, p: nat)
    requires Inv(s) && Enabled(s, Exit(rc, tables)) && p < NSLOTS
    ensures BitsOk(s, rc)
    ensures var x, y := s.procs[p], ClearProc(s, rc, tables).procs[p]; y.endpoint == x.endpoint && (x.free ==> y.free)
  {
    hide ProcOk, Meets, QueueOk, ClearProc, Within;
    ExitOwn(s, rc, tables);
    if p != rc {
      ExitWithin(s, rc, tables, p);
      KinOf(s.procs[p], ClearProc(s, rc, tables).procs[p]);
    }
  }

  /** Nothing but a fork changes an endpoint or fills a slot. */
  lemma SameSlot(s: State, ev: Event, p: nat)
    requires Inv(s) && Enabled(s, ev) && Sane(s, ev) && p < NSLOTS && !Forks(s, ev, p)
    ensures var x, y := s.procs[p], Step(s, ev).procs[p]; y.endpoint == x.endpoint && (x.free ==> y.free)
  {
    hide ProcOk, Meets, QueueOk, BitsOk, DoSyncIpc, MiniSend, MiniNotify, SendAsync, ClearProc, Fork, Within;
    var x, y := s.procs[p], Step(s, ev).procs[p];
    match ev
    case Ipc(c, call, e, m, tables, copied) => CallSlot(s, ev, p);
    case SendEntry(c, e, m, noReply) => EntryWithin(s, c, e, m, noReply, p); KinOf(x, y);
    case KernelSend(c, e, m) => SendWithin(s, c, e, m, false, true, true, p); KinOf(x, y);
    case KernelNotify(source, e) => NotifyWithin(s, source, e, p); KinOf(x, y);
    case CopyOut(c) =>
    case Clone(parent, slot, user) => ForkElsewhere(s, parent, slot, user, p);
    case Exit(rc, tables) => ExitSlot(s, rc, tables, p);
  }

  lemma ForkElsewhere(s: State, e: Endpoint, slot: nat, user: Rights, p: nat)
    requires Shaped(s) && slot < NSLOTS && p < NSLOTS && (p != slot || Fork(s, e, slot, user).1 != OK)
    ensures Fork(s, e, slot, user).0.procs[p] == s.procs[p]
  {
    hide Child;
  }

  ghost function ForkCount(s: State, evs: seq<Event>, slot: nat): nat
    requires Shaped(s) && IsRun(s, evs)
    decreases |evs|
  {
    if evs == [] then 0 else (if Forks(s, evs[0], slot) then 1 else 0) + ForkCount(Step(s, evs[0]), evs[1..], slot)
  }

  lemma {:induction false} LaterStep(g: nat, k: nat)
    ensures Later(g, k + 1) == Later(Later(g, 1), k)
  {
    if k > 0 { LaterStep(g, k - 1); }
  }

  /** Over every run the generation of a slot counts the forks into it, and a
      free slot stays free until the first. */
  lemma {:induction false} Generations(s: State, evs: seq<Event>, slot: nat)
    requires Inv(s) && IsRun(s, evs) && slot < NSLOTS
    ensures s.procs[slot].endpoint.Ep?
    ensures
      var k, y := ForkCount(s, evs, slot), Run(s, evs).procs[slot];
      && y.endpoint == Ep(slot, Later(s.procs[slot].endpoint.gen, k))
      && (k == 0 && s.procs[slot].free ==> y.free)
    decreases |evs|
  {
    assert Shaped(s) && ProcOk(s, slot);
    hide Inv, Step, Enabled, Sane, Forks, Later;
    var g := s.procs[slot].endpoint.gen;
    assert Later(g, 0) == g by { LaterNone(g); }
    if evs != [] {
      StepKeeps(s, evs[0]);
      Generations(Step(s, evs[0]), evs[1..], slot);
      if Forks(s, evs[0], slot) {
        OneFork(s, evs[0], slot);
        LaterStep(s.procs[slot].endpoint.gen, ForkCount(Step(s, evs[0]), evs[1..], slot));
      } else {
        SameSlot(s, evs[0], slot);
      }
    }
  }

  lemma LaterNone(g: nat)
    ensures Later(g, 0) == g
  {
  }

  lemma OneFork(s: State, ev: Event, slot: nat)
    requires Inv(s) && Enabled(s, ev) && slot < NSLOTS && Forks(s, ev, slot)
    ensures
      var e := s.procs[slot].endpoint; e.Ep? && Step(s, ev).procs[slot].endpoint == Ep(slot, Later(e.gen, 1))
  {
    hide Fork;
    ForkGives(s, ev.parent, slot, ev.user);
  }

  /** The endpoint of a process that has exited is live again after a run if and
      only if there was a fork into its slot for each generation, once or several
      times round, and the last child is there; the generation of boot is never. */
  lemma StaysDead(s: State, evs: seq<Event>, slot: nat)
    requires Inv(s) && IsRun(s, evs) && slot < NSLOTS && s.procs[slot].free
    ensures s.procs[slot].endpoint.Ep?
    ensures
      var g, k := s.procs[slot].endpoint.gen, ForkCount(s, evs, slot);
      Live(Run(s, evs), s.procs[slot].endpoint) <==>
        !Run(s, evs).procs[slot].free && k > 0 && PastRound(k) == 0 && 0 < g < MAX_GENERATION
  {
    assert ProcOk(s, slot);
    hide Inv, Run, IsRun, ForkCount, Later, PastRound;
    Generations(s, evs, slot);
    LaterIs(s.procs[slot].endpoint.gen, ForkCount(s, evs, slot));
  }
}
