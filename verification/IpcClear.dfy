/** Taking a process out of message passing: clear_ipc, clear_ipc_refs,
    clear_endpoint and the end of do_clear. */
module IpcClear {
  import opened IpcState
  import opened IpcInvariant
  import opened IpcSteps
  import opened Links
  import opened WaitGraph

  function Unblocked(x: Proc): Proc {
    x.(sending := false, receiving := false)
  }

  /** clear_ipc.  A sender is unlinked but keeps its own link: unless it was
      last it is left with a stale one. */
  function ClearIpc(s: State, rc: nat): (s': State)
    requires Shaped(s) && rc < NSLOTS
    ensures Shaped(s')
  {
    var x := s.procs[rc];
    if x.sending && Slot(x.sendto) then
      var d := x.sendto.slot;
      var i := Place(s.queue[d], rc, 0);
      if i < |s.queue[d]| then
        var stale := if i + 1 < |s.queue[d]| then s.stale + {rc} else s.stale;
        Unqueued(s, d, i, Unblocked(x)).(stale := stale)
      else Put(s, rc, Unblocked(x))
    else Put(s, rc, Unblocked(x))
  }

  /** cancel_async: `rc` is not going to get the messages of `q`. */
  function CancelAsync(s: State, q: nat, rc: nat, tables: Tables): (s': State)
    requires Shaped(s) && q < NSLOTS && rc < NSLOTS
    ensures Shaped(s')
  {
    if !s.procs[q].sysProc then s
    else
      var s1 := Put(s, rc, s.procs[rc].(asyn := s.procs[rc].asyn - {q}));
      if tables(q).tell then MiniNotify(s1, ASYNCM, s.procs[q].endpoint).0 else s1
  }

  /** The loop over the pending senders.  It is stuck if one of them is not a
      system process: its bit is never cleared. */
  function CancelAll(s: State, rc: nat, tables: Tables): (s': State)
    requires Shaped(s) && rc < NSLOTS && BitsOk(s, rc)
    ensures Shaped(s')
    decreases |s.procs[rc].asyn|
  {
    var q := HasPending(s.procs[rc].asyn, ANY);
    if q == NSLOTS then s
    else
      CancelLess(s, q, rc, tables);
      CancelAll(CancelAsync(s, q, rc, tables), rc, tables)
  }

  lemma CancelLess(s: State, q: nat, rc: nat, tables: Tables)
    requires Shaped(s) && rc < NSLOTS && BitsOk(s, rc) && q in s.procs[rc].asyn
    ensures
      var s' := CancelAsync(s, q, rc, tables);
      BitsOk(s', rc) && s'.procs[rc].asyn == s.procs[rc].asyn - {q}
      && |s'.procs[rc].asyn| < |s.procs[rc].asyn|
  {
    hide MiniNotify;
    var s1 := Put(s, rc, s.procs[rc].(asyn := s.procs[rc].asyn - {q}));
    var s' := CancelAsync(s, q, rc, tables);
    assert forall r :: 0 <= r < NSLOTS ==> Kin(s.procs[r], s1.procs[r]);
    NotifyShape(s1, ASYNCM, s.procs[q].endpoint);
    assert s'.procs[rc].asyn == s.procs[rc].asyn - {q};
  }

  lemma NotifyShape(s: State, c: nat, e: Endpoint)
    requires Shaped(s) && c < NSLOTS
    ensures
      var s' := MiniNotify(s, c, e).0;
      KinAll(s, s') && forall r :: 0 <= r < NSLOTS ==>
        s'.procs[r].asyn == s.procs[r].asyn && s'.procs[r].notify <= s.procs[r].notify + {c}
  {
    hide Woken;
    if Live(s, e) {
      WokenKin(s.procs[e.slot], s.procs[c].endpoint, Notification(s.procs[c].endpoint), NOTIFY, false);
    }
  }

  function Dropped(x: Proc, rc: nat): Proc {
    x.(notify := x.notify - {rc}, asyn := x.asyn - {rc})
  }

  /** One process in the scan of clear_ipc_refs. */
  function DropRef(s: State, rc: nat, p: nat): (s': State)
    requires Shaped(s) && rc < NSLOTS && p < NSLOTS
    ensures Shaped(s')
  {
    var x := s.procs[p];
    if x.free then s
    else
      if BlockedOn(x) == s.procs[rc].endpoint then ClearIpc(Put(s, p, Dropped(x, rc).(ret := EDEADSRCDST)), p)
      else Put(s, p, Dropped(x, rc))
  }

  function ScanRefs(s: State, rc: nat, p: nat): (s': State)
    requires Shaped(s) && rc < NSLOTS && p <= NSLOTS
    ensures Shaped(s')
    decreases NSLOTS - p
  {
    if p == NSLOTS then s else ScanRefs(DropRef(s, rc, p), rc, p + 1)
  }

  function ClearIpcRefs(s: State, rc: nat, tables: Tables): (s': State)
    requires Shaped(s) && rc < NSLOTS && BitsOk(s, rc)
    ensures Shaped(s')
  {
    ScanRefs(CancelAll(s, rc, tables), rc, 0)
  }

  function NoMoreEndpoint(s: State, rc: nat): State
    requires Shaped(s) && rc < NSLOTS
  {
    Put(s, rc, s.procs[rc].(noEndpoint := true))
  }

  /** clear_endpoint */
  function ClearEndpoint(s: State, rc: nat, tables: Tables): (s': State)
    requires Shaped(s) && rc < NSLOTS && BitsOk(s, rc)
    ensures Shaped(s')
  {
    var s1 := ClearIpc(NoMoreEndpoint(s, rc), rc);
    ClearBits(NoMoreEndpoint(s, rc), rc);
    ClearIpcRefs(s1, rc, tables)
  }

  /** do_clear: the slot is free afterwards. */
  function ClearProc(s: State, rc: nat, tables: Tables): (s': State)
    requires Shaped(s) && rc < NSLOTS && BitsOk(s, rc)
    ensures Shaped(s')
  {
    var s1 := ClearEndpoint(s, rc, tables);
    Put(s1, rc, Unblocked(s1.procs[rc]).(free := true, noEndpoint := false))
  }

  lemma ClearBits(s: State, rc: nat)
    requires Shaped(s) && rc < NSLOTS && BitsOk(s, rc)
    ensures BitsOk(ClearIpc(s, rc), rc)
  {
    hide Place, BitsOk;
    assert ClearIpc(s, rc).procs == s.procs[rc := Unblocked(s.procs[rc])];
    SameBits(s, rc, ClearIpc(s, rc));
  }

  lemma SameBits(s: State, p: nat, s': State)
    requires |s.procs| == |s'.procs| == NSLOTS && p < NSLOTS && BitsOk(s, p)
    requires forall q :: 0 <= q < NSLOTS ==> Kin(s.procs[q], s'.procs[q])
    requires s'.procs[p].notify == s.procs[p].notify && s'.procs[p].asyn == s.procs[p].asyn
    ensures BitsOk(s', p)
  {
  }

  // -------------------------------------------------------------- preservation

  lemma ClearIpcKeeps(s: State, rc: nat)
    requires Inv(s) && rc < NSLOTS
    ensures
      var s' := ClearIpc(s, rc);
      && Inv(s') && s'.procs == s.procs[rc := Unblocked(s.procs[rc])]
      && (!s.procs[rc].sending ==> s'.queue == s.queue && s'.stale == s.stale)
  {
    hide AllEnd;
    var x := s.procs[rc];
    assert ProcOk(s, rc) && BitsOk(s, rc);
    if x.sending {
      var d := x.sendto.slot;
      var i := Place(s.queue[d], rc, 0);
      assert QueueOk(s, d);
      assert rc in s.queue[d];
      hide QueueOk, Meets;
      var s1 := Unqueued(s, d, i, Unblocked(x));
      assert forall r :: 0 <= r < NSLOTS ==> Kin(s.procs[r], s1.procs[r]);
      assert Meets(s1, rc) by { IdleMeets(s1, rc); }
      UnqueuedKeeps(s, d, i, Unblocked(x));
      StaleOk(s1, ClearIpc(s, rc).stale);
    } else {
      hide QueueOk, Meets;
      PutIdle(s, rc, Unblocked(x));
    }
  }

  lemma IdleMeets(s: State, p: nat)
    requires Shaped(s) && p < NSLOTS && Idle(s.procs[p])
    ensures Meets(s, p)
  {
  }

  lemma StaleOk(s: State, stale: set<nat>)
    requires Inv(s) && forall q :: q in stale ==> q < NSLOTS && !s.procs[q].sending
    ensures Inv(s.(stale := stale))
  {
    hide AllEnd;
    var s' := s.(stale := stale);
    forall p | 0 <= p < NSLOTS ensures ProcOk(s', p) && BitsOk(s', p) && Meets(s', p) && QueueOk(s', p) {
      assert ProcOk(s, p) && BitsOk(s, p) && Meets(s, p) && QueueOk(s, p);
    }
    assert WaitsFor(s') == WaitsFor(s);
  }

  lemma NoEndpointKeeps(s: State, rc: nat)
    requires Inv(s) && rc < NSLOTS && Idle(s.procs[rc])
    ensures Inv(NoMoreEndpoint(s, rc))
  {
    hide AllEnd, ProcOk, Meets, QueueOk;
    assert BitsOk(s, rc);
    PutIdle(s, rc, s.procs[rc].(noEndpoint := true));
  }

  /** The flag may as well be set after the process is unblocked. */
  lemma EndpointFirst(s: State, rc: nat)
    requires Shaped(s) && rc < NSLOTS
    ensures ClearIpc(NoMoreEndpoint(s, rc), rc) == NoMoreEndpoint(ClearIpc(s, rc), rc)
  {
    hide Unblocked, Without;
    var s1, x := NoMoreEndpoint(s, rc), s.procs[rc];
    EndpointLater(x);
    var y := Unblocked(x).(noEndpoint := true);
    assert ClearIpc(s1, rc).procs == s1.procs[rc := y] == s.procs[rc := y];
    assert NoMoreEndpoint(ClearIpc(s, rc), rc).procs == s.procs[rc := Unblocked(x)][rc := y] == s.procs[rc := y];
  }

  lemma EndpointLater(x: Proc)
    ensures Unblocked(x.(noEndpoint := true)) == Unblocked(x).(noEndpoint := true)
  {
  }

  lemma CancelKeeps(s: State, q: nat, rc: nat, tables: Tables)
    requires Inv(s) && rc < NSLOTS && Idle(s.procs[rc]) && q in s.procs[rc].asyn
    ensures q < NSLOTS
    ensures
      var s' := CancelAsync(s, q, rc, tables);
      && Inv(s') && KinAll(s, s') && Idle(s'.procs[rc]) && s'.queue == s.queue && s'.stale == s.stale
      && s'.procs[rc].asyn == s.procs[rc].asyn - {q}
  {
    hide AllEnd, ProcOk, Meets, QueueOk, MiniNotify;
    assert BitsOk(s, rc);
    CancelLess(s, q, rc, tables);
    var x := s.procs[rc].(asyn := s.procs[rc].asyn - {q});
    var s1 := Put(s, rc, x);
    assert BitsOk(s1, rc) by {
      assert forall r :: 0 <= r < NSLOTS ==> Kin(s.procs[r], s1.procs[r]);
    }
    PutIdle(s, rc, x);
    NotifyKeeps(s1, ASYNCM, s.procs[q].endpoint);
  }

  lemma {:induction false} CancelAllKeeps(s: State, rc: nat, tables: Tables)
    requires Inv(s) && rc < NSLOTS && Idle(s.procs[rc])
    ensures BitsOk(s, rc)
    ensures
      var s' := CancelAll(s, rc, tables);
      && Inv(s') && KinAll(s, s') && Idle(s'.procs[rc]) && s'.queue == s.queue && s'.stale == s.stale
      && s'.procs[rc].asyn == {}
    decreases |s.procs[rc].asyn|
  {
    hide AllEnd, ProcOk, Meets, QueueOk, CancelAsync;
    assert BitsOk(s, rc);
    var q := HasPending(s.procs[rc].asyn, ANY);
    if q < NSLOTS {
      CancelKeeps(s, q, rc, tables);
      CancelLess(s, q, rc, tables);
      var s1 := CancelAsync(s, q, rc, tables);
      CancelAllKeeps(s1, rc, tables);
      assert forall r :: 0 <= r < NSLOTS ==> Kin(s.procs[r], s1.procs[r]);
    }
  }

  /** Nothing of a process refers to `rc`. */
  ghost predicate Forgets(s: State, rc: nat, p: nat)
    requires |s.procs| == NSLOTS && rc < NSLOTS && p < NSLOTS
  {
    var x := s.procs[p];
    !x.free ==> BlockedOn(x) != s.procs[rc].endpoint && rc !in x.notify && rc !in x.asyn
  }

  lemma LessBits(s: State, rc: nat, p: nat, x: Proc)
    requires Inv(s) && rc < NSLOTS && p < NSLOTS
    requires Kin(s.procs[p], x) && SameBlocking(s.procs[p], x)
    requires x.notify == s.procs[p].notify - {rc} && x.asyn == s.procs[p].asyn - {rc}
    ensures Inv(Put(s, p, x))
  {
    hide AllEnd, ProcOk, QueueOk;
    var s1 := Put(s, p, x);
    assert BitsOk(s, p) && Meets(s, p);
    assert forall r :: 0 <= r < NSLOTS ==> Kin(s.procs[r], s1.procs[r]);
    assert s1.queue[p] == s.queue[p];
    PutBits(s, p, x);
  }

  lemma DropKeeps(s: State, rc: nat, p: nat)
    requires Inv(s) && rc < NSLOTS && p < NSLOTS
    ensures
      var s' := DropRef(s, rc, p);
      && Inv(s') && Forgets(s', rc, p) && KinAll(s, s')
      && (forall q :: 0 <= q < NSLOTS && q != p ==> s'.procs[q] == s.procs[q])
      && (p !in s.queue[rc] ==> s'.queue[rc] == s.queue[rc] && s'.stale == s.stale)
      && (p in s.queue[rc] ==>
            var i := Place(s.queue[rc], p, 0);
            && s'.queue[rc] == Without(s.queue[rc], i)
            && s'.stale == (if i + 1 < |s.queue[rc]| then s.stale + {p} else s.stale))
  {
    hide AllEnd, BitsOk, Meets, ClearIpc, Dropped, QueueOk;
    var x := s.procs[p];
    assert ProcOk(s, p) && ProcOk(s, rc);
    DroppedKin(x, rc);
    if x.free || BlockedOn(x) != s.procs[rc].endpoint {
      NotQueued(s, rc, p);
      if !x.free { LessBits(s, rc, p, Dropped(x, rc)); }
    } else {
      DropBlocked(s, rc, p, Dropped(x, rc).(ret := EDEADSRCDST));
    }
  }

  lemma NotQueued(s: State, rc: nat, p: nat)
    requires Inv(s) && rc < NSLOTS && p < NSLOTS && (s.procs[p].free || BlockedOn(s.procs[p]) != s.procs[rc].endpoint)
    ensures p !in s.queue[rc]
  {
    assert ProcOk(s, p) && QueueOk(s, rc);
  }

  lemma DroppedKin(x: Proc, rc: nat)
    ensures
      var y := Dropped(x, rc);
      Kin(x, y) && SameBlocking(x, y) && y.notify == x.notify - {rc} && y.asyn == x.asyn - {rc}
  {
  }

  lemma DropBlocked(s: State, rc: nat, p: nat, z: Proc)
    requires Inv(s) && rc < NSLOTS && p < NSLOTS
    requires BlockedOn(s.procs[p]) == s.procs[rc].endpoint && Kin(s.procs[p], z) && SameBlocking(s.procs[p], z)
    requires z.notify == s.procs[p].notify - {rc} && z.asyn == s.procs[p].asyn - {rc}
    ensures
      var s' := ClearIpc(Put(s, p, z), p);
      && Inv(s') && s'.procs == s.procs[p := Unblocked(z)] && Forgets(s', rc, p)
      && (p !in s.queue[rc] ==> s'.queue[rc] == s.queue[rc] && s'.stale == s.stale)
      && (p in s.queue[rc] ==>
            var i := Place(s.queue[rc], p, 0);
            && s'.queue[rc] == Without(s.queue[rc], i)
            && s'.stale == (if i + 1 < |s.queue[rc]| then s.stale + {p} else s.stale))
  {
    hide AllEnd, BitsOk, Meets, ClearIpc, QueueOk;
    assert ProcOk(s, p) && ProcOk(s, rc);
    LessBits(s, rc, p, z);
    ClearIpcKeeps(Put(s, p, z), p);
    ClearIpcQueue(Put(s, p, z), rc, p);
  }

  lemma ClearIpcQueue(s: State, rc: nat, p: nat)
    requires Inv(s) && rc < NSLOTS && p < NSLOTS && BlockedOn(s.procs[p]) == s.procs[rc].endpoint
    ensures
      var s' := ClearIpc(s, p);
      && (p !in s.queue[rc] ==> s'.queue[rc] == s.queue[rc] && s'.stale == s.stale)
      && (p in s.queue[rc] ==>
            var i := Place(s.queue[rc], p, 0);
            && i < |s.queue[rc]| && s'.queue[rc] == Without(s.queue[rc], i)
            && s'.stale == (if i + 1 < |s.queue[rc]| then s.stale + {p} else s.stale))
  {
    hide AllEnd, BitsOk, Meets;
    assert ProcOk(s, p) && ProcOk(s, rc) && QueueOk(s, rc);
  }

  /** The scan leaves nobody at or after `p` that refers to `rc`, and keeps the
      invariant. */
  lemma {:induction false} ScanKeeps(s: State, rc: nat, p: nat)
    requires Inv(s) && rc < NSLOTS && p <= NSLOTS && Idle(s.procs[rc])
    requires forall q :: 0 <= q < p ==> Forgets(s, rc, q)
    ensures
      var s' := ScanRefs(s, rc, p);
      Inv(s') && KinAll(s, s') && Idle(s'.procs[rc]) && s'.procs[rc].asyn <= s.procs[rc].asyn
      && forall q :: 0 <= q < NSLOTS ==> Forgets(s', rc, q)
    decreases NSLOTS - p
  {
    hide AllEnd, ProcOk, BitsOk, Meets, QueueOk, DropRef;
    if p < NSLOTS {
      DropKeeps(s, rc, p);
      DropIdle(s, rc, p);
      var s1 := DropRef(s, rc, p);
      assert Kin(s.procs[rc], s1.procs[rc]);
      forall q | 0 <= q < p + 1 ensures Forgets(s1, rc, q) {
        assert q < p ==> Forgets(s, rc, q) && s1.procs[q] == s.procs[q];
      }
      ScanKeeps(s1, rc, p + 1);
      assert forall r :: 0 <= r < NSLOTS ==> Kin(s.procs[r], s1.procs[r]);
    }
  }

  lemma DropIdle(s: State, rc: nat, p: nat)
    requires Inv(s) && rc < NSLOTS && p < NSLOTS && Idle(s.procs[rc])
    ensures Idle(DropRef(s, rc, p).procs[rc]) && DropRef(s, rc, p).procs[rc].asyn <= s.procs[rc].asyn
  {
    hide AllEnd, BitsOk, Meets, QueueOk, ClearIpc, Dropped;
    assert ProcOk(s, rc);
    DropKeeps(s, rc, p);
    DroppedKin(s.procs[rc], rc);
  }

  /** What clear_endpoint is for: afterwards nobody is blocked on `rc` or has a
      pending bit of it, `rc` is on no queue, and nobody is on its queue. */
  ghost predicate Departed(s: State, rc: nat)
    requires Shaped(s) && rc < NSLOTS
  {
    && (forall q :: 0 <= q < NSLOTS ==> Forgets(s, rc, q))
    && s.queue[rc] == [] && (forall d :: 0 <= d < NSLOTS ==> rc !in s.queue[d])
    && Idle(s.procs[rc]) && s.procs[rc].asyn == {}
  }

  lemma ClearEndpointDeparts(s: State, rc: nat, tables: Tables)
    requires Inv(s) && rc < NSLOTS
    ensures BitsOk(s, rc)
    ensures var s' := ClearEndpoint(s, rc, tables); Inv(s') && KinAll(s, s') && Departed(s', rc)
  {
    hide AllEnd, ProcOk, Meets, QueueOk, ClearIpc, CancelAll, ScanRefs, Forgets;
    assert BitsOk(s, rc);
    EndpointFirst(s, rc);
    ClearIpcKeeps(s, rc);
    var s1 := NoMoreEndpoint(ClearIpc(s, rc), rc);
    assert Idle(ClearIpc(s, rc).procs[rc]);
    NoEndpointKeeps(ClearIpc(s, rc), rc);
    CancelAllKeeps(s1, rc, tables);
    var s2 := CancelAll(s1, rc, tables);
    ScanKeeps(s2, rc, 0);
    var s' := ScanRefs(s2, rc, 0);
    EmptyQueue(s', rc);
    assert forall r :: 0 <= r < NSLOTS ==> Kin(s.procs[r], s1.procs[r]);
  }

  lemma SomeoneIn(queue: seq<nat>)
    ensures queue == [] || exists q :: q in queue
  {
    if queue != [] { assert queue[0] in queue; }
  }

  lemma EmptyQueue(s: State, rc: nat)
    requires Inv(s) && rc < NSLOTS && Idle(s.procs[rc])
    requires forall q :: 0 <= q < NSLOTS ==> Forgets(s, rc, q)
    ensures s.queue[rc] == [] && forall d :: 0 <= d < NSLOTS ==> rc !in s.queue[d]
  {
    hide AllEnd, BitsOk, Meets;
    assert QueueOk(s, rc);
    forall q | 0 <= q < NSLOTS ensures q !in s.queue[rc] {
      assert Forgets(s, rc, q);
      NotQueued(s, rc, q);
    }
    SomeoneIn(s.queue[rc]);
    forall d | 0 <= d < NSLOTS ensures rc !in s.queue[d] {
      assert QueueOk(s, d);
    }
  }

  lemma FreeKeeps(s: State, rc: nat)
    requires Inv(s) && rc < NSLOTS && Departed(s, rc)
    ensures Inv(Put(s, rc, Unblocked(s.procs[rc]).(free := true, noEndpoint := false)))
  {
    hide AllEnd;
    var x := Unblocked(s.procs[rc]).(free := true, noEndpoint := false);
    var s' := Put(s, rc, x);
    forall p | 0 <= p < NSLOTS ensures ProcOk(s', p) && BitsOk(s', p) && Meets(s', p) && QueueOk(s', p) {
      assert ProcOk(s, p) && BitsOk(s, p) && Meets(s, p) && QueueOk(s, p) && Forgets(s, rc, p);
      FreeOne(s, rc, x, p);
    }
    assert WaitsFor(s') == WaitsFor(s);
  }

  /** What is left of a process when its slot is freed. */
  ghost predicate Freed(x: Proc, y: Proc) {
    && y.endpoint == x.endpoint && Idle(y) && y.free && y.sysProc == x.sysProc && y.ipcTo == x.ipcTo
    && y.notify == x.notify && y.asyn == x.asyn
  }

  lemma FreeOne(s: State, rc: nat, y: Proc, p: nat)
    requires Shaped(s) && rc < NSLOTS && p < NSLOTS && Idle(s.procs[rc]) && s.procs[rc].asyn == {} && Forgets(s, rc, p)
    requires Freed(s.procs[rc], y) && ProcOk(s, p) && BitsOk(s, p) && Meets(s, p) && QueueOk(s, p)
    ensures var s' := Put(s, rc, y); ProcOk(s', p) && BitsOk(s', p) && Meets(s', p) && QueueOk(s', p)
  {
    FreeProc(s, rc, y, p);
    hide ProcOk, BitsOk;
    assert forall q :: 0 <= q < NSLOTS && q != rc ==> Put(s, rc, y).procs[q] == s.procs[q];
  }

  lemma FreeProc(s: State, rc: nat, y: Proc, p: nat)
    requires Shaped(s) && rc < NSLOTS && p < NSLOTS && s.procs[rc].asyn == {} && Forgets(s, rc, p)
    requires Freed(s.procs[rc], y) && ProcOk(s, p) && BitsOk(s, p)
    ensures ProcOk(Put(s, rc, y), p) && BitsOk(Put(s, rc, y), p)
  {
    assert forall q :: 0 <= q < NSLOTS && q != rc ==> Put(s, rc, y).procs[q] == s.procs[q];
  }

  lemma ClearProcKeeps(s: State, rc: nat, tables: Tables)
    requires Inv(s) && rc < NSLOTS
    ensures BitsOk(s, rc)
    ensures Inv(ClearProc(s, rc, tables))
  {
    hide AllEnd, ProcOk, BitsOk, Meets, QueueOk, ClearEndpoint, Departed;
    ClearEndpointDeparts(s, rc, tables);
    FreeKeeps(ClearEndpoint(s, rc, tables), rc);
  }

  // ------------------------------------------------------------- stale links

  /** Callers with a later caller of a higher slot behind them. */
  ghost function Overtaken(queue: seq<nat>): set<nat> {
    set i, j | 0 <= i < j < |queue| && queue[i] < queue[j] :: queue[i]
  }

  lemma OvertakenLeast(queue: seq<nat>, i: nat)
    requires i < |queue| && NoDup(queue) && forall j :: 0 <= j < |queue| ==> queue[i] <= queue[j]
    ensures Overtaken(queue) == Overtaken(Without(queue, i)) + (if i + 1 < |queue| then {queue[i]} else {})
  {
    var rest := Without(queue, i);
    forall q | q in Overtaken(rest) ensures q in Overtaken(queue) { OvertakenMore(queue, i, q); }
    forall q | q in Overtaken(queue) && q != queue[i] ensures q in Overtaken(rest) { OvertakenStill(queue, i, q); }
    if i + 1 < |queue| {
      assert queue[i] < queue[i + 1];
      assert queue[i] in Overtaken(queue);
    }
    if queue[i] in Overtaken(queue) {
      var a, b :| 0 <= a < b < |queue| && queue[a] < queue[b] && queue[a] == queue[i];
      assert a == i;
    }
  }

  lemma OvertakenMore(queue: seq<nat>, i: nat, q: nat)
    requires i < |queue| && q in Overtaken(Without(queue, i))
    ensures q in Overtaken(queue)
  {
    var rest := Without(queue, i);
    var a, b :| 0 <= a < b < |rest| && rest[a] < rest[b] && rest[a] == q;
    var a', b' := if a < i then a else a + 1, if b < i then b else b + 1;
    assert queue[a'] == rest[a] && queue[b'] == rest[b];
  }

  lemma OvertakenStill(queue: seq<nat>, i: nat, q: nat)
    requires i < |queue| && q in Overtaken(queue) && q != queue[i]
    requires forall j :: 0 <= j < |queue| ==> queue[i] <= queue[j]
    ensures q in Overtaken(Without(queue, i))
  {
    var rest := Without(queue, i);
    var a, b :| 0 <= a < b < |queue| && queue[a] < queue[b] && queue[a] == q;
    var a', b' := if a < i then a else a - 1, if b < i then b else b - 1;
    assert rest[a'] == queue[a] && rest[b'] == queue[b];
  }

  lemma StaleStep(s: State, rc: nat, p: nat)
    requires Inv(s) && rc < NSLOTS && p < NSLOTS
    requires forall q :: q in s.queue[rc] ==> p <= q
    ensures
      var s1 := DropRef(s, rc, p);
      && s1.stale + Overtaken(s1.queue[rc]) == s.stale + Overtaken(s.queue[rc])
      && forall q :: q in s1.queue[rc] ==> p + 1 <= q
  {
    hide AllEnd, ProcOk, BitsOk, Meets, DropRef, Overtaken, Without;
    DropKeeps(s, rc, p);
    var queue := s.queue[rc];
    assert QueueOk(s, rc);
    if p in queue {
      var i := Place(queue, p, 0);
      WithoutOne(queue, i);
      assert forall j :: 0 <= j < |queue| ==> queue[j] in queue;
      OvertakenLeast(queue, i);
    }
  }

  /** The scan goes by slot, not by place in the queue: it leaves a stale link
      with exactly the callers that someone of a higher slot stood behind. */
  lemma {:induction false} ScanStale(s: State, rc: nat, p: nat)
    requires Inv(s) && rc < NSLOTS && p <= NSLOTS
    requires forall q :: q in s.queue[rc] ==> p <= q
    ensures ScanRefs(s, rc, p).stale == s.stale + Overtaken(s.queue[rc])
    decreases NSLOTS - p
  {
    hide AllEnd, ProcOk, BitsOk, Meets, QueueOk, DropRef, Overtaken;
    if p < NSLOTS {
      StaleStep(s, rc, p);
      DropKeeps(s, rc, p);
      ScanStale(DropRef(s, rc, p), rc, p + 1);
    } else {
      NoneLeft(s, rc);
    }
  }

  lemma NoneLeft(s: State, rc: nat)
    requires Inv(s) && rc < NSLOTS && forall q :: q in s.queue[rc] ==> NSLOTS <= q
    ensures Overtaken(s.queue[rc]) == {}
  {
    assert QueueOk(s, rc);
    SomeoneIn(s.queue[rc]);
  }

  /** Someone stands behind `rc` in the queue it waits in. */
  ghost predicate Followed(s: State, rc: nat)
    requires Shaped(s) && rc < NSLOTS
  {
    var x := s.procs[rc];
    x.sending && Slot(x.sendto) && Place(s.queue[x.sendto.slot], rc, 0) + 1 < |s.queue[x.sendto.slot]|
  }

  lemma NotOwnCaller(s: State, p: nat)
    requires Inv(s) && p < NSLOTS && s.procs[p].sending
    ensures Slot(s.procs[p].sendto) && s.procs[p].sendto.slot != p
  {
    hide BitsOk, Meets, QueueOk;
    assert ProcOk(s, p);
    NoCycle(WaitsFor(s), p, 1);
  }

  lemma ClearIpcStale(s: State, rc: nat)
    requires Inv(s) && rc < NSLOTS
    ensures ClearIpc(s, rc).queue[rc] == s.queue[rc]
    ensures ClearIpc(s, rc).stale == s.stale + (if Followed(s, rc) then {rc} else {})
  {
    hide AllEnd, BitsOk, Meets, QueueOk;
    if s.procs[rc].sending { NotOwnCaller(s, rc); }
  }

  /** The stale links that clear_endpoint leaves behind, exactly. */
  lemma ClearEndpointStale(s: State, rc: nat, tables: Tables)
    requires Inv(s) && rc < NSLOTS
    ensures BitsOk(s, rc)
    ensures ClearEndpoint(s, rc, tables).stale
      == s.stale + (if Followed(s, rc) then {rc} else {}) + Overtaken(s.queue[rc])
  {
    hide AllEnd, ProcOk, Meets, QueueOk, ClearIpc, CancelAll, ScanRefs, Forgets, Overtaken, Followed;
    assert BitsOk(s, rc);
    EndpointFirst(s, rc);
    ClearIpcKeeps(s, rc);
    ClearIpcStale(s, rc);
    var s1 := NoMoreEndpoint(ClearIpc(s, rc), rc);
    assert Idle(ClearIpc(s, rc).procs[rc]);
    NoEndpointKeeps(ClearIpc(s, rc), rc);
    CancelAllKeeps(s1, rc, tables);
    ScanStale(CancelAll(s1, rc, tables), rc, 0);
  }
}
