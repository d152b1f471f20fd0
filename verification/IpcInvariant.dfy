/** What every message-passing operation keeps. */
module IpcInvariant {
  import opened IpcState
  import opened Links
  import opened WaitGraph

  /** A process and the processes it is blocked on. */
  ghost predicate ProcOk(s: State, p: nat)
    requires |s.procs| == NSLOTS && p < NSLOTS
  {
    var x := s.procs[p];
    && x.endpoint.Ep? && x.endpoint.slot == p
    && (x.sending || x.receiving ==> !x.free && !x.noEndpoint && !x.deliver)
    && (x.sending ==> Live(s, x.sendto))
    && (x.receiving ==> x.getfrom == ANY || Live(s, x.getfrom))
    && (x.receiving && x.replyPend ==> x.getfrom.Ep?)
    && (x.sending && x.receiving ==> x.getfrom == x.sendto && x.replyPend)
  }

  /** Pending bits name processes; only a privileged process that is there, and
      not the receiver, sends asynchronously; nobody may send to itself. */
  ghost predicate BitsOk(s: State, p: nat)
    requires |s.procs| == NSLOTS && p < NSLOTS
  {
    var x := s.procs[p];
    && (forall q :: q in x.notify ==> q < NSLOTS)
    && (forall q :: q in x.asyn ==> q < NSLOTS && q != p && s.procs[q].sysProc && !s.procs[q].free)
    && (x.free ==> x.asyn == {})
    && p !in x.ipcTo
  }

  /** No missed rendezvous: a process blocked in receive has no caller and no
      notification waiting that it would take. */
  ghost predicate Meets(s: State, p: nat)
    requires Shaped(s) && p < NSLOTS
  {
    var x := s.procs[p];
    x.receiving && !x.sending ==>
      && (forall q :: q in s.queue[p] ==> !Wanted(x.getfrom, q))
      && (!x.replyPend ==> forall q :: q in x.notify ==> !Wanted(x.getfrom, q))
  }

  /** The callers of `d` are exactly the processes sending to it, once each. */
  ghost predicate QueueOk(s: State, d: nat)
    requires Shaped(s) && d < NSLOTS
  {
    && NoDup(s.queue[d])
    && (forall q :: q in s.queue[d] ==> q < NSLOTS && s.procs[q].sending && s.procs[q].sendto == s.procs[d].endpoint)
    && (forall q :: 0 <= q < NSLOTS && s.procs[q].sending && s.procs[q].sendto == s.procs[d].endpoint ==>
         q in s.queue[d])
  }

  function EdgeOf(p: Proc): Edge {
    var e := BlockedOn(p);
    if e.Ep? then To(e.slot) else Stop
  }

  /** Who waits for whom; waiting for ANY is waiting for nobody in particular. */
  function WaitsFor(s: State): (g: Graph)
    requires |s.procs| == NSLOTS
    ensures |g| == NSLOTS && forall p :: 0 <= p < NSLOTS ==> g[p] == EdgeOf(s.procs[p])
  {
    seq(NSLOTS, p requires 0 <= p < NSLOTS => EdgeOf(s.procs[p]))
  }

  ghost predicate Local(s: State) {
    && Shaped(s)
    && (forall p :: 0 <= p < NSLOTS ==> ProcOk(s, p) && BitsOk(s, p))
    && (forall p :: 0 <= p < NSLOTS ==> Meets(s, p))
    && (forall d :: 0 <= d < NSLOTS ==> QueueOk(s, d))
    && (forall q :: q in s.stale ==> q < NSLOTS && !s.procs[q].sending)
  }

  ghost predicate Inv(s: State) {
    Local(s) && AllEnd(WaitsFor(s))
  }

  // ------------------------------------------------------------------ frames

  /** What no message-passing operation changes about a process. */
  predicate Kin(x: Proc, y: Proc) {
    && x.endpoint == y.endpoint && x.free == y.free
    && x.sysProc == y.sysProc && x.ipcTo == y.ipcTo && x.traps == y.traps
  }

  predicate Idle(x: Proc) {
    !x.sending && !x.receiving
  }

  ghost predicate SameBlocking(x: Proc, y: Proc) {
    && x.noEndpoint == y.noEndpoint
    && x.sending == y.sending && x.receiving == y.receiving
    && x.sendto == y.sendto && x.getfrom == y.getfrom && x.replyPend == y.replyPend && x.deliver == y.deliver
  }

  /** One process changed: the conditions on another one. */
  lemma OthersKeep(s: State, p: nat, x: Proc, q: nat)
    requires Local(s) && p < NSLOTS && q < NSLOTS && q != p
    requires Kin(s.procs[p], x)
    ensures ProcOk(Put(s, p, x), q) && BitsOk(Put(s, p, x), q) && Meets(Put(s, p, x), q)
  {
    var s' := Put(s, p, x);
    assert ProcOk(s, q) && BitsOk(s, q) && Meets(s, q);
    assert s'.procs[q] == s.procs[q];
    assert forall r :: 0 <= r < NSLOTS ==> Kin(s.procs[r], s'.procs[r]);
  }

  lemma QueuesKeep(s: State, p: nat, x: Proc, d: nat)
    requires Local(s) && p < NSLOTS && d < NSLOTS
    requires Kin(s.procs[p], x) && x.sending == s.procs[p].sending && (x.sending ==> x.sendto == s.procs[p].sendto)
    ensures QueueOk(Put(s, p, x), d)
  {
    hide ProcOk, BitsOk, Meets;
    assert QueueOk(s, d);
    assert forall r :: 0 <= r < NSLOTS ==> Kin(s.procs[r], Put(s, p, x).procs[r]);
  }

  /** One process changed, its edge removed or left. */
  lemma PutOne(s: State, p: nat, x: Proc)
    requires Inv(s) && p < NSLOTS
    requires Kin(s.procs[p], x) && x.sending == s.procs[p].sending && (x.sending ==> x.sendto == s.procs[p].sendto)
    requires EdgeOf(x) == EdgeOf(s.procs[p]) || EdgeOf(x).Stop?
    requires ProcOk(Put(s, p, x), p) && BitsOk(Put(s, p, x), p) && Meets(Put(s, p, x), p)
    ensures Inv(Put(s, p, x))
  {
    hide AllEnd, ProcOk, BitsOk, Meets, QueueOk;
    var s' := Put(s, p, x);
    forall q | 0 <= q < NSLOTS ensures ProcOk(s', q) && BitsOk(s', q) && Meets(s', q) && QueueOk(s', q) {
      QueuesKeep(s, p, x, q);
      if q != p { OthersKeep(s, p, x, q); }
    }
    FewerEdges(WaitsFor(s), WaitsFor(s'));
  }

  /** A process that was not sending, and is no longer blocked or never was. */
  lemma PutIdle(s: State, p: nat, x: Proc)
    requires Inv(s) && p < NSLOTS && !s.procs[p].sending
    requires Kin(s.procs[p], x) && Idle(x)
    requires BitsOk(Put(s, p, x), p)
    ensures Inv(Put(s, p, x))
  {
    hide AllEnd, QueueOk, BitsOk;
    assert ProcOk(s, p);
    PutOne(s, p, x);
  }

  /** New bits for a process, blocked or not. */
  lemma PutBits(s: State, p: nat, x: Proc)
    requires Inv(s) && p < NSLOTS
    requires Kin(s.procs[p], x) && SameBlocking(s.procs[p], x)
    requires BitsOk(Put(s, p, x), p) && Meets(Put(s, p, x), p)
    ensures Inv(Put(s, p, x))
  {
    hide AllEnd, QueueOk, BitsOk, Meets;
    assert ProcOk(s, p);
    assert forall r :: 0 <= r < NSLOTS ==> Kin(s.procs[r], Put(s, p, x).procs[r]);
    PutOne(s, p, x);
  }

  // ---------------------------------------------------------------- deadlock

  /** The rule that lets a SEND and a RECEIVE between two processes pass. */
  predicate Exempt(s: State, call: Call, c: nat, e: Endpoint)
    requires |s.procs| == NSLOTS && c < NSLOTS && Slot(e)
  {
    BlockedOn(s.procs[e.slot]) == s.procs[c].endpoint && s.procs[e.slot].sending != (call == SEND)
  }

  /** On valid states the walk of `deadlock` finds the caller exactly when the
      chain of blocked processes leads to it. */
  lemma {:induction false} WalkExact(s: State, call: Call, c: nat, e: Endpoint, size: nat, fuel: nat)
    requires Local(s) && Closed(WaitsFor(s)) && c < NSLOTS && Slot(e) && size > 0
    requires size == 1 && fuel > 0 ==> !Exempt(s, call, c, e)
    ensures Walk(s, call, s.procs[c].endpoint, e, size, fuel) != 0 <==> Reaches(WaitsFor(s), e.slot, c, fuel)
    decreases fuel
  {
    hide BitsOk, Meets, QueueOk;
    if fuel > 0 {
      assert ProcOk(s, e.slot) && ProcOk(s, c);
      var next := BlockedOn(s.procs[e.slot]);
      if next.Ep? && next != s.procs[c].endpoint {
        WalkExact(s, call, c, next, size + 1, fuel - 1);
      }
    }
  }

  lemma EdgesClosed(s: State)
    requires Local(s)
    ensures Closed(WaitsFor(s))
  {
    hide BitsOk, Meets, QueueOk;
    forall p | 0 <= p < NSLOTS && WaitsFor(s)[p].To? ensures WaitsFor(s)[p].node < NSLOTS {
      assert ProcOk(s, p);
    }
  }

  lemma DeadlockExact(s: State, call: Call, c: nat, e: Endpoint)
    requires Inv(s) && c < NSLOTS && Slot(e) && !Exempt(s, call, c, e)
    ensures Deadlock(s, call, c, e) != 0 <==> Reaches(WaitsFor(s), e.slot, c, NSLOTS)
  {
    hide ProcOk, BitsOk, Meets, QueueOk, Walk, Reaches, Exempt;
    assert Closed(WaitsFor(s)) && Local(s);
    WalkExact(s, call, c, e, 1, NSLOTS);
  }

  /** The group found is the chain from `e` to the caller, with both ends. */
  lemma {:induction false} WalkLength(s: State, call: Call, c: nat, e: Endpoint, size: nat, fuel: nat) returns (k: nat)
    requires Local(s) && Closed(WaitsFor(s)) && c < NSLOTS && Slot(e) && Idle(s.procs[c])
    requires Walk(s, call, s.procs[c].endpoint, e, size, fuel) != 0
    ensures Walk(s, call, s.procs[c].endpoint, e, size, fuel) == size + k && k > 0
    ensures Ends(WaitsFor(s), e.slot, k) && !Ends(WaitsFor(s), e.slot, k - 1)
    decreases fuel
  {
    hide BitsOk, Meets, QueueOk;
    assert ProcOk(s, e.slot) && ProcOk(s, c);
    var next := BlockedOn(s.procs[e.slot]);
    if next == s.procs[c].endpoint {
      k := 1;
    } else {
      k := WalkLength(s, call, c, next, size + 1, fuel - 1);
      k := k + 1;
    }
  }

  /** Every group found has at most as many members as there are processes. */
  lemma GroupSize(s: State, call: Call, c: nat, e: Endpoint)
    requires Inv(s) && c < NSLOTS && Slot(e) && Idle(s.procs[c])
    ensures Deadlock(s, call, c, e) <= NSLOTS
  {
    if Deadlock(s, call, c, e) != 0 {
      assert Closed(WaitsFor(s)) && Local(s);
      hide Local, Walk, Closed;
      var k := WalkLength(s, call, c, e, 1, NSLOTS);
      var nodes := WalkNodes(WaitsFor(s), e.slot, k);
      SetBound(nodes, NSLOTS);
    }
  }

  // ---------------------------------------------------------------- blocking

  lemma EnqueuedQueue(s: State, c: nat, x: Proc, d: nat, r: nat)
    requires Local(s) && c < NSLOTS && d < NSLOTS && r < NSLOTS
    requires !s.procs[c].sending && Kin(s.procs[c], x) && x.sending && x.sendto == s.procs[d].endpoint
    ensures QueueOk(Enqueued(Put(s, c, x), c, d), r)
  {
    hide BitsOk, Meets;
    var s' := Enqueued(Put(s, c, x), c, d);
    assert ProcOk(s, d) && ProcOk(s, r);
    assert QueueOk(s, r) && QueueOk(s, d);
    assert forall q :: 0 <= q < NSLOTS ==> Kin(s.procs[q], s'.procs[q]);
    if r == d {
      assert s'.queue[d] == s.queue[d] + [c];
    } else {
      assert s'.queue[r] == s.queue[r];
    }
  }

  lemma EnqueuedMeets(s: State, c: nat, x: Proc, d: nat, r: nat)
    requires Local(s) && c < NSLOTS && d < NSLOTS && r < NSLOTS
    requires Idle(s.procs[c]) && Kin(s.procs[c], x) && x.sending && x.sendto == s.procs[d].endpoint
    requires !WillReceive(s.procs[d], s.procs[c].endpoint)
    ensures Meets(Enqueued(Put(s, c, x), c, d), r)
  {
    hide BitsOk, QueueOk;
    var s' := Enqueued(Put(s, c, x), c, d);
    assert Meets(s, r) && ProcOk(s, d) && ProcOk(s, c);
    if r != c {
      assert s'.procs[r] == s.procs[r];
      if r == d {
        assert s'.queue[d] == s.queue[d] + [c];
      } else {
        assert s'.queue[r] == s.queue[r];
      }
    }
  }

  /** A blocking send: the sender joins the wait-for graph and the queue. */
  lemma BlockSend(s: State, c: nat, dstE: Endpoint, x: Proc)
    requires Inv(s) && c < NSLOTS && Idle(s.procs[c]) && c !in s.stale
    requires !s.procs[c].free && !s.procs[c].noEndpoint && !s.procs[c].deliver
    requires Live(s, dstE) && dstE.slot != c
    requires !WillReceive(s.procs[dstE.slot], s.procs[c].endpoint) && Deadlock(s, SEND, c, dstE) == 0
    requires Kin(s.procs[c], x) && x.sending && !x.receiving && x.sendto == dstE && !x.deliver && !x.noEndpoint
    requires x.notify == s.procs[c].notify && x.asyn == s.procs[c].asyn
    ensures Inv(Enqueued(Put(s, c, x), c, dstE.slot))
  {
    hide AllEnd, QueueOk, Meets, Deadlock, Reaches;
    var d := dstE.slot;
    var s1 := Put(s, c, x);
    var s' := Enqueued(s1, c, d);
    forall q | 0 <= q < NSLOTS ensures ProcOk(s', q) && BitsOk(s', q) && Meets(s', q) && QueueOk(s', q) {
      assert ProcOk(s, q) && BitsOk(s, q);
      assert forall r :: 0 <= r < NSLOTS ==> Kin(s.procs[r], s'.procs[r]);
      EnqueuedQueue(s, c, x, d, q);
      EnqueuedMeets(s, c, x, d, q);
    }
    assert ProcOk(s, d) && ProcOk(s, c);
    DeadlockExact(s, SEND, c, dstE);
    AddEdge(WaitsFor(s), c, d);
    assert WaitsFor(s') == WaitsFor(s)[c := To(d)];
  }

  /** A blocking receive of a process that is not sending. */
  lemma BlockReceive(s: State, c: nat, srcE: Endpoint)
    requires Inv(s) && c < NSLOTS && Idle(s.procs[c])
    requires !s.procs[c].free && !s.procs[c].noEndpoint && !s.procs[c].deliver
    requires srcE == ANY || (Live(s, srcE) && srcE.slot != c)
    requires s.procs[c].replyPend ==> srcE.Ep?
    requires forall q :: q in s.queue[c] ==> !Wanted(srcE, q)
    requires !s.procs[c].replyPend ==> forall q :: q in s.procs[c].notify ==> !Wanted(srcE, q)
    requires Deadlock(s, RECEIVE, c, srcE) == 0
    ensures Inv(Put(s, c, s.procs[c].(getfrom := srcE, receiving := true)))
  {
    hide AllEnd, Deadlock, Reaches;
    var x := s.procs[c].(getfrom := srcE, receiving := true);
    var s' := Put(s, c, x);
    assert ProcOk(s, c) && BitsOk(s, c) && QueueOk(s, c);
    forall q | 0 <= q < NSLOTS ensures ProcOk(s', q) && BitsOk(s', q) && Meets(s', q) && QueueOk(s', q) {
      hide BitsOk, QueueOk;
      QueuesKeep(s, c, x, q);
      if q != c {
        OthersKeep(s, c, x, q);
      } else {
        assert BitsOk(s', c) by { assert BitsOk(s, c); }
      }
    }
    if srcE.Ep? {
      assert ProcOk(s, srcE.slot);
      DeadlockExact(s, RECEIVE, c, srcE);
      AddEdge(WaitsFor(s), c, srcE.slot);
      assert WaitsFor(s') == WaitsFor(s)[c := To(srcE.slot)];
    } else {
      assert WaitsFor(s') == WaitsFor(s);
    }
  }

  // --------------------------------------------------------- leaving a queue

  /** The i-th caller `q` of `d` leaves the queue and becomes `x`. */
  function Unqueued(s: State, d: nat, i: nat, x: Proc): State
    requires Shaped(s) && d < NSLOTS && i < |s.queue[d]| && s.queue[d][i] < NSLOTS
  {
    Put(s, s.queue[d][i], x).(queue := s.queue[d := Without(s.queue[d], i)])
  }

  lemma UnqueuedQueue(s: State, d: nat, i: nat, x: Proc, r: nat)
    requires Local(s) && d < NSLOTS && i < |s.queue[d]| && s.queue[d][i] < NSLOTS && r < NSLOTS
    requires Kin(s.procs[s.queue[d][i]], x) && !x.sending
    ensures QueueOk(Unqueued(s, d, i, x), r)
  {
    hide BitsOk, Meets;
    var q := s.queue[d][i];
    var s' := Unqueued(s, d, i, x);
    assert ProcOk(s, d) && ProcOk(s, r) && QueueOk(s, r) && QueueOk(s, d);
    WithoutOne(s.queue[d], i);
    assert forall p :: 0 <= p < NSLOTS ==> Kin(s.procs[p], s'.procs[p]);
  }

  lemma UnqueuedOthers(s: State, d: nat, i: nat, x: Proc, r: nat)
    requires Local(s) && d < NSLOTS && i < |s.queue[d]| && s.queue[d][i] < NSLOTS && r < NSLOTS && r != s.queue[d][i]
    requires Kin(s.procs[s.queue[d][i]], x)
    ensures var s' := Unqueued(s, d, i, x); ProcOk(s', r) && BitsOk(s', r) && Meets(s', r)
  {
    hide QueueOk;
    var s' := Unqueued(s, d, i, x);
    assert ProcOk(s, r) && BitsOk(s, r) && Meets(s, r);
    assert forall q :: q in s'.queue[r] ==> q in s.queue[r];
    assert forall p :: 0 <= p < NSLOTS ==> Kin(s.procs[p], s'.procs[p]);
    assert s'.procs[r] == s.procs[r];
  }

  /** A caller leaves the queue, and waits on as the receiver of the same
      process at most. */
  lemma UnqueuedKeeps(s: State, d: nat, i: nat, x: Proc)
    requires Inv(s) && d < NSLOTS && i < |s.queue[d]| && s.queue[d][i] < NSLOTS
    requires Kin(s.procs[s.queue[d][i]], x) && !x.sending
    requires EdgeOf(x) == EdgeOf(s.procs[s.queue[d][i]]) || EdgeOf(x).Stop?
    requires var s' := Unqueued(s, d, i, x); var q := s.queue[d][i]; ProcOk(s', q) && BitsOk(s', q) && Meets(s', q)
    ensures Inv(Unqueued(s, d, i, x))
  {
    hide AllEnd, ProcOk, BitsOk, Meets, QueueOk;
    var s' := Unqueued(s, d, i, x);
    forall r | 0 <= r < NSLOTS ensures ProcOk(s', r) && BitsOk(s', r) && Meets(s', r) && QueueOk(s', r) {
      UnqueuedQueue(s, d, i, x, r);
      if r != s.queue[d][i] { UnqueuedOthers(s, d, i, x, r); }
    }
    FewerEdges(WaitsFor(s), WaitsFor(s'));
  }
}
