/** The run queues of the MINIX kernel (uniprocessor) as values: RTS_SET and
    RTS_UNSET with the queueing they cause, sched_proc, and the choice of the
    next process in switch_to_user. */
module SchedState {
  import IpcState
  import opened Links

  const NPROC: nat := IpcState.NSLOTS
  const NR_SCHED_QUEUES: nat := 16

  /** The idle process.  It is not in the process table, is never runnable and
      cannot be preempted. */
  const IDLE: nat := NPROC

  datatype Flag =
    | SLOT_FREE | PROC_STOP | SENDING | RECEIVING | SIGNALED | SIG_PENDING | P_STOP | NO_PRIV | NO_ENDPOINT
    | VMINHIBIT | PAGEFAULT | VMREQUEST | VMREQTARGET | PREEMPTED | NO_QUANTUM | BOOTINHIBIT

  /** For each process its run-time flags, priority (0 is best), whether it may
      be preempted and whether it has time left; the processes ready at each
      priority, in order; and the current process, which may be IDLE. */
  datatype Sched = Sched(
    flags: seq<set<Flag>>, priority: seq<nat>, preemptible: seq<bool>, timeLeft: seq<bool>,
    ready: seq<seq<nat>>, current: nat)

  predicate Shaped(s: Sched) {
    && |s.flags| == |s.priority| == |s.preemptible| == |s.timeLeft| == NPROC
    && |s.ready| == NR_SCHED_QUEUES && s.current <= IDLE
  }

  predicate Runnable(s: Sched, p: nat)
    requires Shaped(s) && p < NPROC
  {
    s.flags[p] == {}
  }

  /** The current process is still runnable. */
  predicate Running(s: Sched)
    requires Shaped(s)
  {
    s.current != IDLE && Runnable(s, s.current)
  }

  /** The current process can be preempted and is worse than priority `q`. */
  predicate Yields(s: Sched, q: nat)
    requires Shaped(s)
  {
    s.current != IDLE && s.priority[s.current] > q && s.preemptible[s.current]
  }

  // ------------------------------------------------------------------ queues

  // A priority beyond the queues changes nothing here; the invariant below
  // excludes it.

  /** Off the queue, wherever it is there. */
  function Dequeue(s: Sched, p: nat): (s': Sched)
    requires Shaped(s) && p < NPROC
    ensures Shaped(s') && s' == s.(ready := s'.ready)
  {
    var q := s.priority[p];
    if q >= NR_SCHED_QUEUES then s
    else
      var i := Place(s.ready[q], p, 0);
      if i < |s.ready[q]| then s.(ready := s.ready[q := Without(s.ready[q], i)]) else s
  }

  function RtsSet(s: Sched, p: nat, f: set<Flag>): (s': Sched)
    requires Shaped(s) && p < NPROC
    ensures Shaped(s')
  {
    var s1 := s.(flags := s.flags[p := s.flags[p] + f]);
    if s.flags[p] == {} && s.flags[p] + f != {} then Dequeue(s1, p) else s1
  }

  /** To the end of the queue.  The current process, if it can be preempted and
      its priority is worse, is marked and leaves its queue. */
  function Enqueue(s: Sched, p: nat): (s': Sched)
    requires Shaped(s) && p < NPROC
    ensures Shaped(s')
  {
    var q := s.priority[p];
    if q >= NR_SCHED_QUEUES then s
    else
      var s1 := s.(ready := s.ready[q := s.ready[q] + [p]]);
      if Yields(s, q) then RtsSet(s1, s.current, {PREEMPTED}) else s1
  }

  function RtsUnset(s: Sched, p: nat, f: set<Flag>): (s': Sched)
    requires Shaped(s) && p < NPROC
    ensures Shaped(s')
  {
    var s1 := s.(flags := s.flags[p := s.flags[p] - f]);
    if s.flags[p] != {} && s.flags[p] - f == {} then Enqueue(s1, p) else s1
  }

  function EnqueueHead(s: Sched, p: nat): (s': Sched)
    requires Shaped(s) && p < NPROC
    ensures Shaped(s')
  {
    var q := s.priority[p];
    if q >= NR_SCHED_QUEUES then s else s.(ready := s.ready[q := [p] + s.ready[q]])
  }

  // ------------------------------------------------------------------ choice

  /** The first non-empty queue from `q` on. */
  function FirstQueue(s: Sched, q: nat): (r: nat)
    requires Shaped(s) && q <= NR_SCHED_QUEUES
    ensures q <= r <= NR_SCHED_QUEUES && (r < NR_SCHED_QUEUES ==> s.ready[r] != [])
    ensures forall k :: q <= k < r ==> s.ready[k] == []
    decreases NR_SCHED_QUEUES - q
  {
    if q == NR_SCHED_QUEUES || s.ready[q] != [] then q else FirstQueue(s, q + 1)
  }

  /** pick_proc; NULL if nobody is ready. */
  function PickProc(s: Sched): int
    requires Shaped(s)
  {
    var q := FirstQueue(s, 0);
    if q < NR_SCHED_QUEUES then s.ready[q][0] else NULL
  }

  /** A preempted process goes back, to the front if it has time left. */
  function Return(s: Sched): (s': Sched)
    requires Shaped(s)
    ensures Shaped(s')
  {
    var p := s.current;
    if p != IDLE && PREEMPTED in s.flags[p] then
      var s1 := s.(flags := s.flags[p := s.flags[p] - {PREEMPTED}]);
      if s1.flags[p] == {} then if s.timeLeft[p] then EnqueueHead(s1, p) else Enqueue(s1, p) else s1
    else s
  }

  /** The start of switch_to_user: the current process goes on if it can, and
      else one is picked.  If there is none the idle process becomes current. */
  function Switch(s: Sched): (s': Sched)
    requires Shaped(s)
    ensures Shaped(s')
  {
    if Running(s) then s
    else
      var s1 := Return(s);
      var p := PickProc(s1);
      s1.(current := if 0 <= p < NPROC then p else IDLE)
  }

  // -------------------------------------------------------------- sched_proc

  /** The test of sched_proc on its arguments; -1 stands for no change. */
  predicate SchedOk(priority: int, quantum: int) {
    -1 <= priority <= NR_SCHED_QUEUES && (quantum >= 1 || quantum == -1)
  }

  function Assign(s: Sched, p: nat, priority: int, quantum: int): (s': Sched)
    requires Shaped(s) && p < NPROC && SchedOk(priority, quantum)
    ensures Shaped(s')
  {
    var s1 := if priority != -1 then s.(priority := s.priority[p := priority]) else s;
    if quantum != -1 then s1.(timeLeft := s1.timeLeft[p := true]) else s1
  }

  /** sched_proc, for a priority that names a queue: new priority and quantum,
      with the process off its queue meanwhile. */
  function SchedProc(s: Sched, p: nat, priority: int, quantum: int): (s': Sched)
    requires Shaped(s) && p < NPROC
    requires SchedOk(priority, quantum) && priority != NR_SCHED_QUEUES
    ensures Shaped(s')
  {
    var s1 := if Runnable(s, p) then RtsSet(s, p, {NO_QUANTUM}) else s;
    RtsUnset(Assign(s1, p, priority, quantum), p, {NO_QUANTUM})
  }

  // --------------------------------------------------------------- invariant

  /** The queue of priority `q` holds only runnable processes of that priority,
      each once. */
  ghost predicate ReadyOk(s: Sched, q: nat)
    requires Shaped(s) && q < NR_SCHED_QUEUES
  {
    NoDup(s.ready[q]) && forall p :: p in s.ready[q] ==> p < NPROC && s.flags[p] == {} && s.priority[p] == q
  }

  /** A runnable process is in the queue of its priority. */
  ghost predicate Queued(s: Sched, p: nat)
    requires Shaped(s) && p < NPROC
  {
    s.priority[p] < NR_SCHED_QUEUES && (s.flags[p] == {} ==> p in s.ready[s.priority[p]])
  }

  ghost predicate Inv(s: Sched) {
    && Shaped(s)
    && (forall q :: 0 <= q < NR_SCHED_QUEUES ==> ReadyOk(s, q))
    && (forall p :: 0 <= p < NPROC ==> Queued(s, p))
  }

  /** Like Inv, but with `p` runnable and not yet, or not runnable and still, on
      its queue. */
  ghost predicate InvBut(s: Sched, p: nat) {
    && Shaped(s) && p < NPROC
    && (forall q :: 0 <= q < NR_SCHED_QUEUES ==> NoDup(s.ready[q]))
    && (forall q, r :: 0 <= q < NR_SCHED_QUEUES && r in s.ready[q] ==>
         r < NPROC && s.priority[r] == q && (r != p ==> s.flags[r] == {}))
    && (forall r :: 0 <= r < NPROC ==> s.priority[r] < NR_SCHED_QUEUES)
    && (forall r :: 0 <= r < NPROC && r != p && s.flags[r] == {} ==> r in s.ready[s.priority[r]])
  }

  lemma DequeueKeeps(s: Sched, p: nat)
    requires InvBut(s, p) && s.flags[p] != {}
    ensures Inv(Dequeue(s, p))
    ensures forall q, r :: 0 <= q < NR_SCHED_QUEUES && r in Dequeue(s, p).ready[q] ==> r in s.ready[q]
  {
    var q := s.priority[p];
    var i := Place(s.ready[q], p, 0);
    var s' := Dequeue(s, p);
    if i < |s.ready[q]| {
      WithoutOne(s.ready[q], i);
      assert s'.ready[q] == Without(s.ready[q], i);
    }
    forall k | 0 <= k < NR_SCHED_QUEUES ensures ReadyOk(s', k) {
      assert NoDup(s.ready[k]);
      assert k != q ==> s'.ready[k] == s.ready[k] && p !in s.ready[k];
    }
  }

  lemma SetKeeps(s: Sched, p: nat, f: set<Flag>)
    requires Inv(s) && p < NPROC
    ensures Inv(RtsSet(s, p, f))
    ensures forall q, r :: 0 <= q < NR_SCHED_QUEUES && r in RtsSet(s, p, f).ready[q] ==> r in s.ready[q]
  {
    assert Queued(s, p);
    var s1 := s.(flags := s.flags[p := s.flags[p] + f]);
    assert InvBut(s1, p) by { Loosen(s, s1, p); }
    if s.flags[p] == {} && s.flags[p] + f != {} {
      DequeueKeeps(s1, p);
    } else {
      assert ReadyOk(s, s.priority[p]);
      Tighten(s1, p);
    }
  }

  lemma Loosen(s: Sched, s1: Sched, p: nat)
    requires Inv(s) && p < NPROC && s1 == s.(flags := s1.flags) && |s1.flags| == NPROC
    requires forall r :: 0 <= r < NPROC && r != p ==> s1.flags[r] == s.flags[r]
    ensures InvBut(s1, p)
  {
    forall q | 0 <= q < NR_SCHED_QUEUES ensures NoDup(s1.ready[q]) { assert ReadyOk(s, q); }
    forall q, r | 0 <= q < NR_SCHED_QUEUES && r in s1.ready[q]
      ensures r < NPROC && s1.priority[r] == q && (r != p ==> s1.flags[r] == {})
    {
      assert ReadyOk(s, q);
    }
    forall r | 0 <= r < NPROC
      ensures s1.priority[r] < NR_SCHED_QUEUES && (r != p && s1.flags[r] == {} ==> r in s1.ready[s1.priority[r]])
    {
      assert Queued(s, r);
    }
  }

  lemma Tighten(s: Sched, p: nat)
    requires InvBut(s, p) && (s.flags[p] == {} <==> p in s.ready[s.priority[p]])
    ensures Inv(s)
  {
    forall q | 0 <= q < NR_SCHED_QUEUES ensures ReadyOk(s, q) {
    }
  }
}
