/** What the scheduler keeps over every run. */
module SchedRuns {
  import opened Links
  import opened SchedState

  // ------------------------------------------------------- run-queue invariant

  /** `p` is added to its queue, at either end. */
  lemma AddKeeps(s: Sched, p: nat, s1: Sched)
    requires InvBut(s, p) && s.flags[p] == {} && p !in s.ready[s.priority[p]]
    requires s1 == s.(ready := s.ready[s.priority[p] := s.ready[s.priority[p]] + [p]])
          || s1 == s.(ready := s.ready[s.priority[p] := [p] + s.ready[s.priority[p]]])
    ensures Inv(s1)
  {
    forall q | 0 <= q < NR_SCHED_QUEUES ensures ReadyOk(s1, q) {
      assert NoDup(s.ready[q]);
      if q != s.priority[p] { assert s1.ready[q] == s.ready[q]; }
    }
    forall r | 0 <= r < NPROC ensures Queued(s1, r) {
      assert r != p && s.flags[r] == {} ==> r in s.ready[s.priority[r]];
    }
  }

  lemma EnqueueKeeps(s: Sched, p: nat)
    requires InvBut(s, p) && s.flags[p] == {} && p !in s.ready[s.priority[p]]
    ensures Inv(Enqueue(s, p))
  {
    var q := s.priority[p];
    var s1 := s.(ready := s.ready[q := s.ready[q] + [p]]);
    AddKeeps(s, p, s1);
    if s.current != IDLE { SetKeeps(s1, s.current, {PREEMPTED}); }
  }

  lemma UnsetKeeps(s: Sched, p: nat, f: set<Flag>)
    requires Inv(s) && p < NPROC
    ensures Inv(RtsUnset(s, p, f))
  {
    assert Queued(s, p);
    var s1 := s.(flags := s.flags[p := s.flags[p] - f]);
    Loosen(s, s1, p);
    assert ReadyOk(s, s.priority[p]);
    if s.flags[p] != {} && s.flags[p] - f == {} {
      EnqueueKeeps(s1, p);
    } else {
      Tighten(s1, p);
    }
  }

  lemma ReturnKeeps(s: Sched)
    requires Inv(s)
    ensures Inv(Return(s))
  {
    var p := s.current;
    if p != IDLE && PREEMPTED in s.flags[p] {
      assert Queued(s, p) && ReadyOk(s, s.priority[p]);
      var s1 := s.(flags := s.flags[p := s.flags[p] - {PREEMPTED}]);
      Loosen(s, s1, p);
      if s1.flags[p] != {} {
        Tighten(s1, p);
      } else if s.timeLeft[p] {
        AddKeeps(s1, p, EnqueueHead(s1, p));
      } else {
        EnqueueKeeps(s1, p);
      }
    }
  }

  /** The picked process is runnable and nobody ready is better. */
  lemma PickBest(s: Sched)
    requires Inv(s)
    ensures PickProc(s) == NULL ==> forall p :: 0 <= p < NPROC ==> !Runnable(s, p)
    ensures PickProc(s) != NULL ==>
      && 0 <= PickProc(s) < NPROC && Runnable(s, PickProc(s))
      && forall p :: 0 <= p < NPROC && Runnable(s, p) ==> s.priority[PickProc(s)] <= s.priority[p]
  {
    var q := FirstQueue(s, 0);
    if q < NR_SCHED_QUEUES {
      assert ReadyOk(s, q);
      assert s.ready[q][0] in s.ready[q];
    }
    forall p | 0 <= p < NPROC && Runnable(s, p) ensures q <= s.priority[p] < NR_SCHED_QUEUES {
      assert Queued(s, p);
    }
  }

  lemma CurrentKeeps(s: Sched, p: nat)
    requires Inv(s) && p <= IDLE
    ensures Inv(s.(current := p))
  {
    var s' := s.(current := p);
    forall q | 0 <= q < NR_SCHED_QUEUES ensures ReadyOk(s', q) { assert ReadyOk(s, q); }
    forall r | 0 <= r < NPROC ensures Queued(s', r) { assert Queued(s, r); }
  }

  lemma SwitchKeeps(s: Sched)
    requires Inv(s)
    ensures Inv(Switch(s))
  {
    hide Return, ReadyOk, Queued, PickProc;
    ReturnKeeps(s);
    PickBest(Return(s));
    var p := PickProc(Return(s));
    CurrentKeeps(Return(s), if 0 <= p < NPROC then p else IDLE);
  }

  /** The range test of sched_proc lets one priority too many through: it
      accepts NR_SCHED_QUEUES, for which there is no queue. */
  lemma AssignKeeps(s: Sched, p: nat, priority: int, quantum: int)
    requires Inv(s) && p < NPROC && s.flags[p] != {} && SchedOk(priority, quantum)
    ensures Inv(Assign(s, p, priority, quantum)) <==> priority != NR_SCHED_QUEUES
  {
    var s' := Assign(s, p, priority, quantum);
    if priority == NR_SCHED_QUEUES {
      assert !Queued(s', p);
      return;
    }
    forall q | 0 <= q < NR_SCHED_QUEUES ensures ReadyOk(s', q) { assert ReadyOk(s, q); }
    forall r | 0 <= r < NPROC ensures Queued(s', r) { assert Queued(s, r); }
  }

  lemma SchedProcKeeps(s: Sched, p: nat, priority: int, quantum: int)
    requires Inv(s) && p < NPROC && SchedOk(priority, quantum) && priority != NR_SCHED_QUEUES
    ensures Inv(SchedProc(s, p, priority, quantum))
  {
    hide ReadyOk, Queued;
    SetKeeps(s, p, {NO_QUANTUM});
    var s1 := if Runnable(s, p) then RtsSet(s, p, {NO_QUANTUM}) else s;
    assert s1.flags[p] != {} by { assert Runnable(s, p) ==> NO_QUANTUM in s1.flags[p]; }
    AssignKeeps(s1, p, priority, quantum);
    UnsetKeeps(Assign(s1, p, priority, quantum), p, {NO_QUANTUM});
  }

  // --------------------------------------------------------- priority safety

  /** Nobody ready is better than the current process, if that can be preempted
      and has not been marked for it. */
  ghost predicate PrioritySafe(s: Sched)
    requires Shaped(s)
  {
    s.current != IDLE && s.preemptible[s.current] && PREEMPTED !in s.flags[s.current] ==>
      forall p :: 0 <= p < NPROC && Runnable(s, p) ==> s.priority[s.current] <= s.priority[p]
  }

  lemma SetSafe(s: Sched, p: nat, f: set<Flag>)
    requires Inv(s) && PrioritySafe(s) && p < NPROC
    ensures PrioritySafe(RtsSet(s, p, f))
  {
    hide ReadyOk, Queued;
    SetKeeps(s, p, f);
    var s' := RtsSet(s, p, f);
    assert s'.flags == s.flags[p := s.flags[p] + f] && s'.priority == s.priority && s'.preemptible == s.preemptible;
    forall r | 0 <= r < NPROC && Runnable(s', r) ensures Runnable(s, r) {
    }
  }

  /** RTS_UNSET is not used to clear RTS_PREEMPTED, as DEBUG_RACE is off. */
  lemma UnsetSafe(s: Sched, p: nat, f: set<Flag>)
    requires Inv(s) && PrioritySafe(s) && p < NPROC && PREEMPTED !in f
    ensures PrioritySafe(RtsUnset(s, p, f))
  {
    UnsetShape(s, p, f);
    hide Inv, RtsUnset;
    var s', c := RtsUnset(s, p, f), s.current;
    var flags := s.flags[p := s.flags[p] - f];
    assert s'.flags == flags
        || (c != IDLE && s'.flags == flags[c := flags[c] + {PREEMPTED}] && PREEMPTED in s'.flags[c]);
    assert c != IDLE && PREEMPTED in s.flags[c] ==> PREEMPTED in s'.flags[c];
    forall r | 0 <= r < NPROC && Runnable(s', r) && r != p ensures Runnable(s, r) {
    }
  }

  /** After switch_to_user a process runs if and only if any can; and unless it
      is one that cannot be preempted and simply went on, nobody ready is
      better. */
  lemma SwitchBest(s: Sched)
    requires Inv(s) && PrioritySafe(s)
    ensures
      var s' := Switch(s);
      && PrioritySafe(s')
      && (s'.current == IDLE <==> forall p :: 0 <= p < NPROC ==> !Runnable(s', p))
      && (s'.current != IDLE ==> Running(s'))
      && (s'.current != IDLE && (s'.preemptible[s'.current] || !Running(s)) ==>
            forall p :: 0 <= p < NPROC && Runnable(s', p) ==> s'.priority[s'.current] <= s'.priority[p])
  {
    hide Return, ReadyOk, Queued, PickProc;
    ReturnKeeps(s);
    PickBest(Return(s));
    var s1 := Return(s);
    var p := PickProc(s1);
    if !Running(s) && 0 <= p < NPROC {
      var s' := s1.(current := p);
      forall r | 0 <= r < NPROC && Runnable(s', r) ensures s'.priority[p] <= s'.priority[r] {
        assert Runnable(s1, r);
      }
      assert Runnable(s', p);
    }
    assert forall r :: 0 <= r < NPROC ==> Runnable(s1.(current := IDLE), r) == Runnable(s1, r);
  }

  function NewPriority(s: Sched, p: nat, priority: int): nat
    requires Shaped(s) && p < NPROC && -1 <= priority
  {
    if priority == -1 then s.priority[p] else priority
  }

  /** The outcome of sched_proc: only `p` gets new values, and only the current
      process may be marked, if `p` is made ready with a better priority. */
  lemma SchedOutcome(s: Sched, p: nat, priority: int, quantum: int)
    requires Inv(s) && p < NPROC && SchedOk(priority, quantum) && priority != NR_SCHED_QUEUES
    ensures
      var s', c, n := SchedProc(s, p, priority, quantum), s.current, NewPriority(s, p, priority);
      var flags := s.flags[p := s.flags[p] - {NO_QUANTUM}];
      && s'.current == c && s'.preemptible == s.preemptible && s'.priority == s.priority[p := n]
      && s'.flags == (if p != c && flags[p] == {} && Yields(s, n) then flags[c := flags[c] + {PREEMPTED}] else flags)
  {
    hide ReadyOk, Queued, RtsSet, RtsUnset;
    SchedProcKeeps(s, p, priority, quantum);
    SetKeeps(s, p, {NO_QUANTUM});
    SetShape(s, p, {NO_QUANTUM});
    var s1 := if Runnable(s, p) then RtsSet(s, p, {NO_QUANTUM}) else s;
    assert s1.flags[p] != {} by { assert Runnable(s, p) ==> NO_QUANTUM in s1.flags[p]; }
    assert s1.flags[p] - {NO_QUANTUM} == s.flags[p] - {NO_QUANTUM};
    var s2 := Assign(s1, p, priority, quantum);
    AssignKeeps(s1, p, priority, quantum);
    UnsetShape(s2, p, {NO_QUANTUM});
    assert s2.flags[p := s2.flags[p] - {NO_QUANTUM}] == s.flags[p := s.flags[p] - {NO_QUANTUM}];
  }

  lemma SetShape(s: Sched, p: nat, f: set<Flag>)
    requires Inv(s) && p < NPROC
    ensures var s' := RtsSet(s, p, f); s' == s.(flags := s.flags[p := s.flags[p] + f], ready := s'.ready)
  {
    hide Dequeue;
    assert Queued(s, p);
  }

  lemma UnsetShape(s: Sched, p: nat, f: set<Flag>)
    requires Inv(s) && p < NPROC
    ensures
      var s', c := RtsUnset(s, p, f), s.current;
      var flags := s.flags[p := s.flags[p] - f];
      var marks := s.flags[p] != {} && flags[p] == {} && Yields(s, s.priority[p]);
      s' == s.(ready := s'.ready, flags := if marks then flags[c := flags[c] + {PREEMPTED}] else flags)
  {
    hide Dequeue;
    assert Queued(s, p);
  }

  lemma SchedSafe(s: Sched, p: nat, priority: int, quantum: int)
    requires Inv(s) && PrioritySafe(s) && p < NPROC && p != s.current
    requires SchedOk(priority, quantum) && priority != NR_SCHED_QUEUES
    ensures PrioritySafe(SchedProc(s, p, priority, quantum))
  {
    SchedOutcome(s, p, priority, quantum);
    hide SchedProc;
    var s' := SchedProc(s, p, priority, quantum);
    forall r | 0 <= r < NPROC && r != p && Runnable(s', r) ensures Runnable(s, r) {
    }
  }

  /** On the current process itself sched_proc is safe if and only if it leaves
      it no worse than the others that are ready, or it cannot be preempted, or
      it is marked already. */
  lemma SchedCurrentIff(s: Sched, priority: int, quantum: int)
    requires Inv(s) && s.current != IDLE && SchedOk(priority, quantum) && priority != NR_SCHED_QUEUES
    ensures PrioritySafe(SchedProc(s, s.current, priority, quantum)) <==>
      || !s.preemptible[s.current] || PREEMPTED in s.flags[s.current]
      || (forall r :: 0 <= r < NPROC && r != s.current && Runnable(s, r) ==>
        NewPriority(s, s.current, priority) <= s.priority[r])
  {
    SchedOutcome(s, s.current, priority, quantum);
    hide SchedProc, Inv;
    var s', c := SchedProc(s, s.current, priority, quantum), s.current;
    assert forall r :: 0 <= r < NPROC && r != c ==>
      Runnable(s', r) == Runnable(s, r) && s'.priority[r] == s.priority[r];
  }

  /** Processes 5 and 6 are ready at priority 7 and 5, which can be preempted,
      is running. */
  function TwoReady(): (s: Sched)
    ensures Inv(s) && PrioritySafe(s)
  {
    var s := Sched(
      seq(NPROC, p => if p == 5 || p == 6 then {} else {SLOT_FREE}), seq(NPROC, p => 7),
      seq(NPROC, p => true), seq(NPROC, p => true),
      seq(NR_SCHED_QUEUES, q => if q == 7 then [5, 6] else []), 5);
    assert forall q :: 0 <= q < NR_SCHED_QUEUES ==> ReadyOk(s, q);
    assert forall p :: 0 <= p < NPROC ==> Queued(s, p);
    s
  }

  /** The running process is given priority 8 and goes on running, although 6 is
      better now. */
  lemma SchedCurrentUnsafe()
    ensures !PrioritySafe(SchedProc(TwoReady(), 5, 8, -1))
  {
    hide SchedProc, PrioritySafe;
    var s := TwoReady();
    SchedCurrentIff(s, 8, -1);
    assert Runnable(s, 6) && s.priority[6] < NewPriority(s, 5, 8);
  }

  // -------------------------------------------------------------------- runs

  datatype Event =
    | Set(p: nat, f: set<Flag>)
    | Unset(p: nat, f: set<Flag>)
    | Schedule(p: nat, priority: int, quantum: int)
    | OutOfTime(p: nat)
    | ToUser

  /** What the kernel's code respects with DEBUG_RACE off: RTS_UNSET leaves
      RTS_PREEMPTED alone, and sched_proc is not applied to the current process,
      nor with the one priority too many. */
  predicate Allowed(s: Sched, ev: Event) {
    match ev
    case Set(p, _) => p < NPROC
    case Unset(p, f) => p < NPROC && PREEMPTED !in f
    case Schedule(p, priority, quantum) =>
      p < NPROC && p != s.current && SchedOk(priority, quantum) && priority != NR_SCHED_QUEUES
    case OutOfTime(p) => p < NPROC
    case ToUser => true
  }

  function Step(s: Sched, ev: Event): (s': Sched)
    requires Shaped(s) && Allowed(s, ev)
    ensures Shaped(s')
  {
    match ev
    case Set(p, f) => RtsSet(s, p, f)
    case Unset(p, f) => RtsUnset(s, p, f)
    case Schedule(p, priority, quantum) => SchedProc(s, p, priority, quantum)
    case OutOfTime(p) => s.(timeLeft := s.timeLeft[p := false])
    case ToUser => Switch(s)
  }

  lemma StepKeeps(s: Sched, ev: Event)
    requires Inv(s) && PrioritySafe(s) && Allowed(s, ev)
    ensures Inv(Step(s, ev)) && PrioritySafe(Step(s, ev))
  {
    hide ReadyOk, Queued, RtsSet, RtsUnset, SchedProc, Switch;
    match ev
    case Set(p, f) => SetKeeps(s, p, f); SetSafe(s, p, f);
    case Unset(p, f) => UnsetKeeps(s, p, f); UnsetSafe(s, p, f);
    case Schedule(p, priority, quantum) => SchedProcKeeps(s, p, priority, quantum); SchedSafe(s, p, priority, quantum);
    case OutOfTime(p) => TimeKeeps(s, p);
    case ToUser => SwitchKeeps(s); SwitchBest(s);
  }

  lemma TimeKeeps(s: Sched, p: nat)
    requires Inv(s) && PrioritySafe(s) && p < NPROC
    ensures Inv(s.(timeLeft := s.timeLeft[p := false])) && PrioritySafe(s.(timeLeft := s.timeLeft[p := false]))
  {
    var s' := s.(timeLeft := s.timeLeft[p := false]);
    forall q | 0 <= q < NR_SCHED_QUEUES ensures ReadyOk(s', q) { assert ReadyOk(s, q); }
    forall r | 0 <= r < NPROC ensures Queued(s', r) { assert Queued(s, r); }
    assert forall r :: 0 <= r < NPROC ==> Runnable(s', r) == Runnable(s, r);
  }

  /** Every event is allowed when its turn comes. */
  predicate IsRun(s: Sched, evs: seq<Event>)
    requires Shaped(s)
    decreases |evs|
  {
    evs == [] || (Allowed(s, evs[0]) && IsRun(Step(s, evs[0]), evs[1..]))
  }

  function Run(s: Sched, evs: seq<Event>): (s': Sched)
    requires Shaped(s) && IsRun(s, evs)
    ensures Shaped(s')
    decreases |evs|
  {
    if evs == [] then s else Run(Step(s, evs[0]), evs[1..])
  }

  /** After every run the queues hold exactly the runnable processes, and
      priority safety holds. */
  lemma {:induction false} RunKeeps(s: Sched, evs: seq<Event>)
    requires Inv(s) && PrioritySafe(s) && IsRun(s, evs)
    ensures Inv(Run(s, evs)) && PrioritySafe(Run(s, evs))
    decreases |evs|
  {
    assert Shaped(s);
    hide Inv, PrioritySafe, Step;
    if evs != [] {
      StepKeeps(s, evs[0]);
      RunKeeps(Step(s, evs[0]), evs[1..]);
    }
  }
}
