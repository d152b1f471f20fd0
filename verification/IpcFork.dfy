/** do_fork: a new process as a copy of one that is blocked in receive. */
module IpcFork {
  import opened IpcState
  import opened IpcInvariant
  import opened WaitGraph

  const MAX_GENERATION: nat := 0x7FFFFFFF / 0x8000 - 1

  /** The generation for the next process in the slot of `e`. */
  function NextGeneration(e: Endpoint): nat {
    if e.Ep? && e.gen + 1 < MAX_GENERATION then e.gen + 1 else 1
  }

  /** The rights of user processes: what a fork of a system process gets. */
  datatype Rights = Rights(ipcTo: set<nat>, traps: set<Call>)

  /** The child: the parent but for its endpoint and its privileges. */
  function Child(parent: Proc, slot: nat, gen: nat, user: Rights): Proc {
    var ipcTo := if parent.sysProc then user.ipcTo else parent.ipcTo;
    var traps := if parent.sysProc then user.traps else parent.traps;
    parent.(endpoint := Ep(slot, gen), notify := {}, asyn := {}, sysProc := false, ipcTo := ipcTo - {slot},
        traps := traps)
  }

  /** The whole struct proc is copied, with p_caller_q and p_q_link. */
  function Fork(s: State, e: Endpoint, slot: nat, user: Rights): (r: (State, Result))
    requires Shaped(s) && slot < NSLOTS
    ensures Shaped(r.0)
  {
    if !Live(s, e) || !s.procs[slot].free || !s.procs[e.slot].receiving then (s, EINVAL)
    else
      var child := Child(s.procs[e.slot], slot, NextGeneration(s.procs[slot].endpoint), user);
      var stale := if e.slot in s.stale then s.stale + {slot} else s.stale - {slot};
      (State(s.procs[slot := child], s.queue[slot := s.queue[e.slot]], stale), OK)
  }

  /** The parent of a fork that goes well: nobody is calling it, and it is not
      still sending. */
  predicate Quiet(s: State, e: Endpoint)
    requires Shaped(s) && Slot(e)
  {
    s.queue[e.slot] == [] && !s.procs[e.slot].sending
  }

  /** Nobody waits for a free slot. */
  lemma NobodyWaits(s: State, slot: nat, p: nat)
    requires Local(s) && slot < NSLOTS && s.procs[slot].free && p < NSLOTS
    ensures WaitsFor(s)[p] != To(slot)
  {
    hide BitsOk, Meets, QueueOk;
    assert ProcOk(s, p);
  }

  lemma {:induction false} NotReached(g: Graph, p: nat, t: nat, k: nat)
    requires Closed(g) && p < |g| && forall q :: 0 <= q < |g| ==> g[q] != To(t)
    ensures !Reaches(g, p, t, k)
    decreases k
  {
    if k > 0 && g[p].To? { NotReached(g, g[p].node, t, k - 1); }
  }

  lemma ForkOther(s: State, e: Endpoint, slot: nat, user: Rights, p: nat)
    requires Inv(s) && slot < NSLOTS && p < NSLOTS && p != slot && Fork(s, e, slot, user).1 == OK && Quiet(s, e)
    ensures var s' := Fork(s, e, slot, user).0; ProcOk(s', p) && BitsOk(s', p) && Meets(s', p) && QueueOk(s', p)
  {
    hide AllEnd, Child;
    var s' := Fork(s, e, slot, user).0;
    assert ProcOk(s, p) && BitsOk(s, p) && Meets(s, p) && QueueOk(s, p) && ProcOk(s, slot);
    ChildKin(s.procs[e.slot], slot, NextGeneration(s.procs[slot].endpoint), user);
    assert s'.queue[p] == s.queue[p] && s'.procs[p] == s.procs[p];
    assert forall q :: 0 <= q < NSLOTS && q != slot ==> s'.procs[q] == s.procs[q];
  }

  lemma ChildKin(x: Proc, slot: nat, gen: nat, user: Rights)
    ensures
      var y := Child(x, slot, gen, user);
      && y.endpoint == Ep(slot, gen) && SameBlocking(x, y) && y.free == x.free && slot !in y.ipcTo
      && y.notify == {} && y.asyn == {}
  {
  }

  lemma ForkChild(s: State, e: Endpoint, slot: nat, user: Rights)
    requires Inv(s) && slot < NSLOTS && Fork(s, e, slot, user).1 == OK && Quiet(s, e)
    ensures
      var s' := Fork(s, e, slot, user).0;
      ProcOk(s', slot) && BitsOk(s', slot) && Meets(s', slot) && QueueOk(s', slot)
    ensures EdgeOf(Fork(s, e, slot, user).0.procs[slot]) == EdgeOf(s.procs[e.slot])
  {
    hide AllEnd, Child;
    var s' := Fork(s, e, slot, user).0;
    assert ProcOk(s, e.slot) && ProcOk(s, slot);
    ChildKin(s.procs[e.slot], slot, NextGeneration(s.procs[slot].endpoint), user);
    assert s'.queue[slot] == [];
    forall q | 0 <= q < NSLOTS && s'.procs[q].sending ensures s'.procs[q].sendto != s'.procs[slot].endpoint {
      assert ProcOk(s, q);
    }
  }

  lemma ForkKeeps(s: State, e: Endpoint, slot: nat, user: Rights)
    requires Inv(s) && slot < NSLOTS && Fork(s, e, slot, user).1 == OK && Quiet(s, e)
    ensures Inv(Fork(s, e, slot, user).0)
  {
    hide ProcOk, BitsOk, Meets, QueueOk, AllEnd, Child;
    var (s', r) := Fork(s, e, slot, user);
    forall p | 0 <= p < NSLOTS ensures ProcOk(s', p) && BitsOk(s', p) && Meets(s', p) && QueueOk(s', p) {
      if p != slot { ForkOther(s, e, slot, user, p); } else { ForkChild(s, e, slot, user); }
    }
    ForkChild(s, e, slot, user);
    ForkEdges(s, e, slot, user);
    StaleKept(s, e, slot, user);
  }

  lemma StaleKept(s: State, e: Endpoint, slot: nat, user: Rights)
    requires Inv(s) && slot < NSLOTS && Fork(s, e, slot, user).1 == OK && Quiet(s, e)
    ensures var s' := Fork(s, e, slot, user).0; forall q :: q in s'.stale ==> q < NSLOTS && !s'.procs[q].sending
  {
    hide ProcOk, BitsOk, Meets, QueueOk, AllEnd;
  }

  lemma ForkEdges(s: State, e: Endpoint, slot: nat, user: Rights)
    requires Inv(s) && slot < NSLOTS && Fork(s, e, slot, user).1 == OK
    requires EdgeOf(Fork(s, e, slot, user).0.procs[slot]) == EdgeOf(s.procs[e.slot])
    ensures AllEnd(WaitsFor(Fork(s, e, slot, user).0))
  {
    hide ProcOk, BitsOk, Meets, QueueOk, AllEnd, Child, EdgeOf, Reaches;
    var s' := Fork(s, e, slot, user).0;
    var g, edge := WaitsFor(s), EdgeOf(s.procs[e.slot]);
    EdgesClosed(s);
    assert WaitsFor(s') == g[slot := edge];
    forall p | 0 <= p < NSLOTS ensures g[p] != To(slot) { NobodyWaits(s, slot, p); }
    if edge.To? {
      assert g[e.slot] == edge;
      NotReached(g, edge.node, slot, |g|);
      AddEdge(g, slot, edge.node);
    } else {
      FewerEdges(g, g[slot := edge]);
    }
  }

  /** Otherwise the child has callers of its parent in its queue, or is sending
      without being in any. */
  lemma ForkBreaks(s: State, e: Endpoint, slot: nat, user: Rights)
    requires Inv(s) && slot < NSLOTS && Fork(s, e, slot, user).1 == OK && !Quiet(s, e)
    ensures !Inv(Fork(s, e, slot, user).0)
  {
    hide AllEnd, Meets, BitsOk, Child;
    var s' := Fork(s, e, slot, user).0;
    var d := s.procs[e.slot].sendto;
    assert ProcOk(s, slot) && ProcOk(s, e.slot) && QueueOk(s, e.slot);
    ChildKin(s.procs[e.slot], slot, NextGeneration(s.procs[slot].endpoint), user);
    if s.procs[e.slot].sending {
      assert QueueOk(s, d.slot) && ProcOk(s, d.slot);
      assert slot !in s'.queue[d.slot];
      assert !QueueOk(s', d.slot);
    } else {
      var q := s.queue[e.slot][0];
      assert q in s.queue[e.slot] && q in s'.queue[slot] && q != slot;
      assert !QueueOk(s', slot);
    }
  }

  /** A fork keeps the invariant exactly when the parent is quiet. */
  lemma ForkKeepsIff(s: State, e: Endpoint, slot: nat, user: Rights)
    requires Shaped(s) && Inv(s) && slot < NSLOTS
    ensures
      var (s', r) := Fork(s, e, slot, user);
      && (r == OK ==> Slot(e) && (Inv(s') <==> Quiet(s, e)))
      && (r != OK ==> s' == s)
  {
    hide Inv, Quiet;
    if Fork(s, e, slot, user).1 == OK {
      if Quiet(s, e) { ForkKeeps(s, e, slot, user); } else { ForkBreaks(s, e, slot, user); }
    }
  }
}
