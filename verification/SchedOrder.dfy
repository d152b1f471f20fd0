/** The run queues in order: what each operation does to every queue, and who
    may get ahead of whom over a run. */
module SchedOrder {
  import opened Links
  import opened SchedState
  import opened SchedRuns

  // --------------------------------------------------------------- operations

  /** RTS_SET: a process that was ready leaves its queue, and the others stay as
      they stand. */
  lemma SetOutcome(s: Sched, p: nat, f: set<Flag>)
    requires Inv(s) && p < NPROC
    ensures
      var s' := RtsSet(s, p, f);
      && s' == s.(flags := s.flags[p := s.flags[p] + f], ready := s'.ready)
      && forall k :: 0 <= k < NR_SCHED_QUEUES ==>
           var leaves := k == s.priority[p] && s.flags[p] == {} && f != {};
           s'.ready[k] == if leaves then Removed(s.ready[k], p) else s.ready[k]
  {
    hide Place, Without;
    assert Queued(s, p);
    assert s.flags[p] == {} ==> s.flags[p] + f == f;
  }

  /** RTS_UNSET: a process that becomes ready comes to the end of its queue.  If
      the current process can be preempted and its priority is worse, it is
      marked and leaves its own. */
  lemma UnsetOutcome(s: Sched, p: nat, f: set<Flag>)
    requires Inv(s) && p < NPROC
    ensures
      var s', c := RtsUnset(s, p, f), s.current; var flags := s.flags[p := s.flags[p] - f];
      var wakes := s.flags[p] != {} && s.flags[p] - f == {};
      var marks := wakes && c != IDLE && s.priority[c] > s.priority[p] && s.preemptible[c];
      && s' == s.(flags := if marks then flags[c := flags[c] + {PREEMPTED}] else flags, ready := s'.ready)
      && forall k :: 0 <= k < NR_SCHED_QUEUES ==>
           s'.ready[k] ==
           if wakes && k == s.priority[p] then s.ready[k] + [p]
           else if marks && k == s.priority[c] then Removed(s.ready[k], c) else s.ready[k]
  {
    hide Place, Without;
    assert Queued(s, p);
    var c := s.current;
    if c != IDLE {
      assert Queued(s, c) && ReadyOk(s, s.priority[c]);
      NotThere(s.ready[s.priority[c]], c);
    }
  }

  lemma NotThere(q: seq<nat>, p: nat)
    ensures p !in q ==> Removed(q, p) == q
  {
  }

  /** A preempted process that can go on is put back: in front if it has time
      left, at the end if not. */
  lemma ReturnOutcome(s: Sched)
    requires Inv(s)
    ensures
      var s', c := Return(s), s.current;
      && (c == IDLE ==> s' == s)
      && (c != IDLE ==>
            && s' == s.(flags := s.flags[c := s.flags[c] - {PREEMPTED}], ready := s'.ready)
            && forall k :: 0 <= k < NR_SCHED_QUEUES ==>
                 s'.ready[k] ==
                 if s.flags[c] != {PREEMPTED} || k != s.priority[c] then s.ready[k]
                 else if s.timeLeft[c] then [c] + s.ready[k] else s.ready[k] + [c])
  {
    var c := s.current;
    if c != IDLE {
      assert Queued(s, c);
      assert PREEMPTED in s.flags[c] && s.flags[c] - {PREEMPTED} == {} ==> s.flags[c] == {PREEMPTED};
      assert PREEMPTED !in s.flags[c] ==> s.flags[c] - {PREEMPTED} == s.flags[c] && s.flags[c := s.flags[c]] == s.flags;
    }
  }

  /** Who runs next: the current process if it can go on; else the one at the head
      of the first queue that is not empty, or the idle process if all are. */
  lemma SwitchOutcome(s: Sched)
    requires Inv(s)
    ensures
      var s', s1 := Switch(s), Return(s);
      && (Running(s) ==> s' == s)
      && (!Running(s) ==>
            && s' == s1.(current := s'.current)
            && (s'.current == IDLE <==> forall k :: 0 <= k < NR_SCHED_QUEUES ==> s1.ready[k] == [])
            && (s'.current != IDLE ==>
                  exists k :: HeadOf(s1, k, s'.current) && forall j :: 0 <= j < k ==> s1.ready[j] == []))
  {
    hide Return, ReadyOk, Queued;
    ReturnKeeps(s);
    var s1 := Return(s);
    var k := FirstQueue(s1, 0);
    PickBest(s1);
    if k < NR_SCHED_QUEUES {
      assert HeadOf(s1, k, s1.ready[k][0]);
    }
  }

  predicate HeadOf(s: Sched, k: nat, p: nat)
    requires Shaped(s)
  {
    k < NR_SCHED_QUEUES && s.ready[k] != [] && s.ready[k][0] == p
  }

  /** sched_proc: off its queue, a new priority and quantum if they are given, and
      to the end of the new queue if it is ready then. */
  lemma SchedProcOutcome(s: Sched, p: nat, priority: int, quantum: int)
    requires Inv(s) && p < NPROC && SchedOk(priority, quantum) && priority != NR_SCHED_QUEUES
    ensures
      var s', c, n := SchedProc(s, p, priority, quantum), s.current, if priority == -1 then s.priority[p] else priority;
      var flags := s.flags[p := s.flags[p] - {NO_QUANTUM}];
      var marks := flags[p] == {} && c != IDLE && c != p && s.priority[c] > n && s.preemptible[c];
      && s'.current == c && s'.preemptible == s.preemptible && s'.priority == s.priority[p := n]
      && s'.timeLeft == (if quantum == -1 then s.timeLeft else s.timeLeft[p := true])
      && s'.flags == (if marks then flags[c := flags[c] + {PREEMPTED}] else flags)
      && forall k :: 0 <= k < NR_SCHED_QUEUES ==>
           var q := if k == s.priority[p] then Removed(s.ready[k], p) else s.ready[k];
           s'.ready[k] ==
           if flags[p] == {} && k == n then q + [p] else if marks && k == s.priority[c] then Removed(q, c) else q
  {
    hide ReadyOk, Queued, RtsSet, RtsUnset, Removed;
    SchedProcKeeps(s, p, priority, quantum);
    SetKeeps(s, p, {NO_QUANTUM});
    SetOutcome(s, p, {NO_QUANTUM});
    if !Runnable(s, p) { Absent(s, p); }
    var s1 := if Runnable(s, p) then RtsSet(s, p, {NO_QUANTUM}) else s;
    assert s1.flags[p] != {} by { assert Runnable(s, p) ==> NO_QUANTUM in s1.flags[p]; }
    assert s1.flags[p] - {NO_QUANTUM} == s.flags[p] - {NO_QUANTUM};
    var s2 := Assign(s1, p, priority, quantum);
    AssignKeeps(s1, p, priority, quantum);
    UnsetOutcome(s2, p, {NO_QUANTUM});
    assert s2.flags[p := s2.flags[p] - {NO_QUANTUM}] == s.flags[p := s.flags[p] - {NO_QUANTUM}];
  }

  /** A process that is not ready is on no queue. */
  lemma Absent(s: Sched, p: nat)
    requires Inv(s) && p < NPROC && !Runnable(s, p)
    ensures forall k :: 0 <= k < NR_SCHED_QUEUES ==> p !in s.ready[k] && Removed(s.ready[k], p) == s.ready[k]
  {
    forall k | 0 <= k < NR_SCHED_QUEUES ensures p !in s.ready[k] && Removed(s.ready[k], p) == s.ready[k] {
      assert ReadyOk(s, k);
      NotThere(s.ready[k], p);
    }
  }

  // --------------------------------------------------------------------- order

  /** How many stand before a ready process. */
  function Before(s: Sched, r: nat): nat
    requires Shaped(s) && r < NPROC && s.priority[r] < NR_SCHED_QUEUES
  {
    Place(s.ready[s.priority[r]], r, 0)
  }

  /** The switch puts the preempted process back in front of queue `k`. */
  predicate PutsBack(s: Sched, ev: Event, k: nat)
    requires Shaped(s)
  {
    && ev.ToUser? && s.current != IDLE && s.flags[s.current] == {PREEMPTED} && s.timeLeft[s.current]
    && s.priority[s.current] == k
  }

  /** The one at the head of queue `k` leaves it. */
  predicate HeadLeaves(s: Sched, s': Sched, k: nat)
    requires Shaped(s) && Shaped(s') && k < NR_SCHED_QUEUES
  {
    s.ready[k] != [] && s.ready[k][0] !in s'.ready[k]
  }

  /** What may happen to a queue as far as those in it are concerned: it is left
      alone, one leaves, one comes to the end, or one is put back in front. */
  ghost predicate Moves(q: seq<nat>, q': seq<nat>, r: nat, front: bool) {
    && (forall a :: Ahead(q', a, r) ==> Ahead(q, a, r) || (front && a !in q))
    && Place(q', r, 0) <= Place(q, r, 0) + (if front then 1 else 0)
    && (q != [] && q[0] !in q' && r in q' ==> Place(q', r, 0) + 1 <= Place(q, r, 0) + (if front then 1 else 0))
  }

  lemma MovesSame(q: seq<nat>, r: nat)
    ensures Moves(q, q, r, false)
  {
    if q != [] { assert q[0] in q; }
  }

  lemma MovesRemoved(q: seq<nat>, p: nat, r: nat)
    requires NoDup(q) && r in q && r != p
    ensures Moves(q, Removed(q, p), r, false) && NoDup(Removed(q, p)) && r in Removed(q, p)
  {
    hide Place, Removed;
    AheadRemoved(q, p, r, r);
    forall a | Ahead(Removed(q, p), a, r) ensures Ahead(q, a, r) { AheadRemoved(q, p, a, r); }
    if q != [] && q[0] !in Removed(q, p) { AheadRemoved(q, p, r, q[0]); }
  }

  lemma MovesAppend(q: seq<nat>, p: nat, r: nat)
    requires r in q && p !in q
    ensures Moves(q, q + [p], r, false)
  {
    hide Place;
    forall a | Ahead(q + [p], a, r) ensures Ahead(q, a, r) { AheadAppend(q, p, a, r); }
    PlaceAppend(q, p, r);
    assert q[0] in q + [p];
  }

  lemma MovesFront(q: seq<nat>, p: nat, r: nat)
    requires r in q && p !in q
    ensures Moves(q, [p] + q, r, true)
  {
    hide Place;
    forall a | Ahead([p] + q, a, r) ensures Ahead(q, a, r) || a !in q { AheadFront(q, p, a, r); }
    AheadFront(q, p, r, r);
    assert q[0] in [p] + q;
  }

  lemma RemovedHead(q: seq<nat>, p: nat)
    requires q != [] && p != q[0]
    ensures Removed(q, p) != [] && Removed(q, p)[0] == q[0]
  {
  }

  lemma MovesTrans(q: seq<nat>, p: nat, q': seq<nat>, r: nat)
    requires NoDup(q) && r in q && r != p && r in q' && Moves(Removed(q, p), q', r, false)
    ensures Moves(q, q', r, false)
  {
    hide Place, Removed;
    MovesRemoved(q, p, r);
    if p != q[0] {
      RemovedHead(q, p);
    } else {
      AheadRemoved(q, p, r, r);
    }
  }

  /** `r` stays in its queue, in order. */
  ghost predicate KeepsPlace(s: Sched, s': Sched, r: nat, front: bool)
    requires Shaped(s) && Shaped(s') && r < NPROC
  {
    && s'.priority[r] == s.priority[r] < NR_SCHED_QUEUES
    && r in s.ready[s.priority[r]] && r in s'.ready[s.priority[r]]
    && Moves(s.ready[s.priority[r]], s'.ready[s.priority[r]], r, front)
  }

  lemma SetMoves(s: Sched, p: nat, f: set<Flag>, r: nat)
    requires Inv(s) && p < NPROC && r < NPROC && Runnable(s, r) && Runnable(RtsSet(s, p, f), r)
    ensures KeepsPlace(s, RtsSet(s, p, f), r, false)
  {
    assert Shaped(s);
    hide RtsSet, Moves, Removed, Inv;
    Standing(s, r);
    SetOutcome(s, p, f);
    var q := s.ready[s.priority[r]];
    MovesSame(q, r);
    if p != r { MovesRemoved(q, p, r); }
  }

  lemma UnsetMoves(s: Sched, p: nat, f: set<Flag>, r: nat)
    requires Inv(s) && p < NPROC && r < NPROC && Runnable(s, r) && Runnable(RtsUnset(s, p, f), r)
    ensures KeepsPlace(s, RtsUnset(s, p, f), r, false)
  {
    assert Shaped(s);
    hide RtsUnset, Moves, Removed, Inv;
    Standing(s, r);
    UnsetOutcome(s, p, f);
    var q := s.ready[s.priority[r]];
    MovesSame(q, r);
    if s.flags[p] != {} {
      Absent(s, p);
      MovesAppend(q, p, r);
    }
    if s.current != r { MovesRemoved(q, s.current, r); }
  }

  lemma SchedProcMoves(s: Sched, p: nat, priority: int, quantum: int, r: nat)
    requires Inv(s) && p < NPROC && SchedOk(priority, quantum) && priority != NR_SCHED_QUEUES && r < NPROC && r != p
    requires Runnable(s, r) && Runnable(SchedProc(s, p, priority, quantum), r)
    ensures KeepsPlace(s, SchedProc(s, p, priority, quantum), r, false)
  {
    assert Shaped(s);
    hide SchedProc, Moves, Removed, Inv;
    Standing(s, r);
    SchedProcOutcome(s, p, priority, quantum);
    var k := s.priority[r];
    MovesSame(s.ready[k], r);
    ScheduleMoves(s.ready[k], p, s.current, r);
    if k != s.priority[p] { Elsewhere(s, k, p); }
  }

  lemma Elsewhere(s: Sched, k: nat, p: nat)
    requires Inv(s) && p < NPROC && k < NR_SCHED_QUEUES && k != s.priority[p]
    ensures p !in s.ready[k]
  {
    assert ReadyOk(s, k);
  }

  /** No event puts anybody ahead of a process that stays ready in its queue, save
      a preempted one with time left, and whenever the head of the queue leaves
      it is one nearer. */
  lemma OrderStep(s: Sched, ev: Event, r: nat)
    requires Inv(s) && Allowed(s, ev) && r < NPROC && Runnable(s, r) && Runnable(Step(s, ev), r)
    requires !(ev.Schedule? && ev.p == r)
    ensures KeepsPlace(s, Step(s, ev), r, PutsBack(s, ev, s.priority[r]))
  {
    hide RtsSet, RtsUnset, SchedProc, Switch, Moves, ReadyOk, Queued;
    match ev
    case Set(p, f) => SetMoves(s, p, f, r);
    case Unset(p, f) => UnsetMoves(s, p, f, r);
    case Schedule(p, priority, quantum) => SchedProcMoves(s, p, priority, quantum, r);
    case OutOfTime(p) =>
      Standing(s, r);
      MovesSame(s.ready[s.priority[r]], r);
    case ToUser => SwitchMoves(s, r);
  }

  /** A ready process stands in the queue of its priority. */
  lemma Standing(s: Sched, r: nat)
    requires Inv(s) && r < NPROC && Runnable(s, r)
    ensures s.priority[r] < NR_SCHED_QUEUES && r in s.ready[s.priority[r]] && NoDup(s.ready[s.priority[r]])
  {
    assert Queued(s, r) && ReadyOk(s, s.priority[r]);
  }

  lemma ScheduleMoves(q: seq<nat>, p: nat, c: nat, r: nat)
    requires NoDup(q) && r in q && r != p
    ensures var q1 := Removed(q, p); Moves(q, q1, r, false) && r in q1 && Moves(q, q1 + [p], r, false)
    ensures var q1 := Removed(q, p); c != r ==> Moves(q, Removed(q1, c), r, false) && r in Removed(q1, c)
    ensures c != r ==> Moves(q, Removed(q, c), r, false) && r in Removed(q, c)
    ensures p !in q ==> Moves(q, q + [p], r, false)
  {
    hide Place, Removed, Moves;
    var q1 := Removed(q, p);
    MovesRemoved(q, p, r);
    AheadRemoved(q, p, r, p);
    MovesAppend(q1, p, r);
    MovesTrans(q, p, q1 + [p], r);
    if p !in q { MovesAppend(q, p, r); }
    if c != r {
      MovesRemoved(q1, c, r);
      MovesTrans(q, p, Removed(q1, c), r);
      MovesRemoved(q, c, r);
    }
  }

  lemma SwitchMoves(s: Sched, r: nat)
    requires Inv(s) && r < NPROC && Runnable(s, r)
    ensures KeepsPlace(s, Switch(s), r, PutsBack(s, ToUser, s.priority[r]))
  {
    assert Shaped(s);
    hide Switch, Return, Moves, Inv;
    Standing(s, r);
    SwitchOutcome(s);
    ReturnOutcome(s);
    var k, c := s.priority[r], s.current;
    MovesSame(s.ready[k], r);
    if c != IDLE && !Runnable(s, c) {
      Absent(s, c);
      MovesAppend(s.ready[k], c, r);
      MovesFront(s.ready[k], c, r);
    }
  }

  // ---------------------------------------------------------------------- runs

  /** `r` is ready all along a run, and nobody changes its priority. */
  predicate StaysReady(s: Sched, evs: seq<Event>, r: nat)
    requires Shaped(s) && IsRun(s, evs) && r < NPROC
    decreases |evs|
  {
    && Runnable(s, r)
    && (evs == [] || (!(evs[0].Schedule? && evs[0].p == r) && StaysReady(Step(s, evs[0]), evs[1..], r)))
  }

  /** How often the head of queue `k` leaves. */
  function Departures(s: Sched, evs: seq<Event>, k: nat): nat
    requires Shaped(s) && IsRun(s, evs) && k < NR_SCHED_QUEUES
    decreases |evs|
  {
    if evs == [] then 0
    else (if HeadLeaves(s, Step(s, evs[0]), k) then 1 else 0) + Departures(Step(s, evs[0]), evs[1..], k)
  }

  /** How often a preempted process is put back in front of it. */
  function Returns(s: Sched, evs: seq<Event>, k: nat): nat
    requires Shaped(s) && IsRun(s, evs)
    decreases |evs|
  {
    if evs == [] then 0 else (if PutsBack(s, evs[0], k) then 1 else 0) + Returns(Step(s, evs[0]), evs[1..], k)
  }

  /** Over every run a ready process comes nearer with each departure of the head
      of its queue, but for those that were preempted with time left. */
  lemma {:induction false} ServedInTurn(s: Sched, evs: seq<Event>, r: nat)
    requires Inv(s) && PrioritySafe(s) && IsRun(s, evs) && r < NPROC && StaysReady(s, evs, r)
    ensures Inv(Run(s, evs)) && s.priority[r] < NR_SCHED_QUEUES && Run(s, evs).priority[r] == s.priority[r]
    ensures
      var k := s.priority[r];
      Before(Run(s, evs), r) + Departures(s, evs, k) <= Before(s, r) + Returns(s, evs, k)
    decreases |evs|
  {
    assert Shaped(s);
    RunKeeps(s, evs);
    Standing(s, r);
    hide Inv, PrioritySafe, Step, Allowed;
    if evs != [] {
      StepKeeps(s, evs[0]);
      assert Runnable(Step(s, evs[0]), r);
      OrderStep(s, evs[0], r);
      ServedInTurn(Step(s, evs[0]), evs[1..], r);
    }
  }

  /** And the one picked has nobody before it: of those with the best priority it
      is the one that stands first. */
  lemma PicksFirst(s: Sched)
    requires Inv(s) && PickProc(s) != NULL
    ensures 0 <= PickProc(s) < NPROC && s.priority[PickProc(s)] < NR_SCHED_QUEUES && Before(s, PickProc(s)) == 0
    ensures
      var p := PickProc(s);
      forall r :: 0 <= r < NPROC && r != p && Runnable(s, r) ==>
        s.priority[p] < s.priority[r] || Ahead(s.ready[s.priority[p]], p, r)
  {
    PickBest(s);
    var p, k := PickProc(s), FirstQueue(s, 0);
    assert ReadyOk(s, k);
    assert s.ready[k][0] in s.ready[k];
    forall r | 0 <= r < NPROC && r != p && Runnable(s, r)
      ensures s.priority[p] < s.priority[r] || Ahead(s.ready[s.priority[p]], p, r)
    {
      Standing(s, r);
    }
  }
}
