/** The run queues in place: lists through p_nextready with a head and a tail
    for each priority. */
module SchedQueues {
  import opened Links
  import opened SchedState
  import opened SchedRuns

  function Last(queue: seq<nat>): int {
    if queue == [] then NULL else queue[|queue| - 1]
  }

  /** Every queue is the list from its head, and its tail is the last there. */
  ghost predicate Linked(head: seq<int>, tail: seq<int>, next: seq<int>, ready: seq<seq<nat>>) {
    && |head| == |tail| == |ready| == NR_SCHED_QUEUES && |next| == NPROC
    && forall q :: 0 <= q < NR_SCHED_QUEUES ==> Chain(next, head[q], ready[q]) && tail[q] == Last(ready[q])
  }

  /** Each process in at most one queue, once. */
  ghost predicate Apart(ready: seq<seq<nat>>, priority: seq<nat>) {
    && (forall q :: 0 <= q < |ready| ==> NoDup(ready[q]))
    && (forall q :: 0 <= q < |ready| ==> AllOf(ready[q], priority, q))
  }

  ghost predicate AllOf(queue: seq<nat>, priority: seq<nat>, q: nat) {
    forall r :: r in queue ==> r < |priority| && priority[r] == q
  }

  lemma OneQueue(ready: seq<seq<nat>>, priority: seq<nat>, q: nat, k: nat, r: nat)
    requires Apart(ready, priority) && q < |ready| && k < |ready| && k != q && r in ready[q]
    ensures r !in ready[k]
  {
    assert AllOf(ready[q], priority, q) && AllOf(ready[k], priority, k);
  }

  /** The links after adding `p` at the end of queue `q`. */
  lemma LinkEnd(head: seq<int>, tail: seq<int>, next: seq<int>, ready: seq<seq<nat>>, priority: seq<nat>, p: nat)
    requires Linked(head, tail, next, ready) && Apart(ready, priority) && |priority| == NPROC
    requires p < NPROC && priority[p] < NR_SCHED_QUEUES && p !in ready[priority[p]]
    ensures
      var q := priority[p]; var ready' := ready[q := ready[q] + [p]];
      && (head[q] == NULL ==> Linked(head[q := p], tail[q := p], next[p := NULL], ready'))
      && (head[q] != NULL ==> 0 <= tail[q] < NPROC && Linked(head, tail[q := p], next[tail[q] := p][p := NULL], ready'))
  {
    hide Chain;
    var q := priority[p];
    var ready', next1 := ready[q := ready[q] + [p]], next[p := NULL];
    ChainFacts(next, head[q], ready[q]);
    forall k | 0 <= k < NR_SCHED_QUEUES ensures Chain(next1, head[k], ready[k]) {
      ChainUpdate(next, head[k], ready[k], p, NULL);
    }
    ChainAppend(next1, head[q], ready[q], p);
    if ready[q] != [] {
      var last := ready[q][|ready[q]| - 1];
      assert last in ready[q];
      forall k | 0 <= k < NR_SCHED_QUEUES && k != q ensures Chain(next1[last := p], head[k], ready[k]) {
        OneQueue(ready, priority, q, k, last);
        ChainUpdate(next1, head[k], ready[k], last, p);
      }
      assert next1[last := p] == next[last := p][p := NULL];
    }
  }

  lemma ChainFacts(link: seq<int>, head: int, queue: seq<nat>)
    requires Chain(link, head, queue)
    ensures head == At(queue, 0)
    ensures forall i :: 0 <= i < |queue| ==> queue[i] < |link|
  {
    forall i | 0 <= i < |queue| ensures queue[i] < |link| { assert LinkAt(link, queue, i); }
  }

  /** The links after adding `p` at the front. */
  lemma LinkFront(head: seq<int>, tail: seq<int>, next: seq<int>, ready: seq<seq<nat>>, priority: seq<nat>, p: nat)
    requires Linked(head, tail, next, ready) && Apart(ready, priority) && |priority| == NPROC
    requires p < NPROC && priority[p] < NR_SCHED_QUEUES && p !in ready[priority[p]]
    ensures
      var q := priority[p]; var ready' := ready[q := [p] + ready[q]];
      && (head[q] == NULL ==> Linked(head[q := p], tail[q := p], next[p := NULL], ready'))
      && (head[q] != NULL ==> Linked(head[q := p], tail, next[p := head[q]], ready'))
  {
    var q := priority[p];
    var queue, next1 := ready[q], next[p := head[q]];
    forall k | 0 <= k < NR_SCHED_QUEUES && k != q ensures Chain(next1, head[k], ready[k]) {
      ChainUpdate(next, head[k], ready[k], p, head[q]);
    }
    assert Chain(next, head[q], queue);
    forall i | 0 <= i < |[p] + queue| ensures LinkAt(next1, [p] + queue, i) {
      if i > 0 {
        assert LinkAt(next, queue, i - 1);
        assert ([p] + queue)[i] == queue[i - 1] && queue[i - 1] in queue;
      }
    }
  }

  /** The links after taking the i-th out of queue `q`. */
  lemma LinkOut(head: seq<int>, tail: seq<int>, next: seq<int>, ready: seq<seq<nat>>, priority: seq<nat>, q: nat,
      i: nat)
    requires Linked(head, tail, next, ready) && Apart(ready, priority) && |priority| == NPROC
    requires q < NR_SCHED_QUEUES && i < |ready[q]|
    ensures ready[q][i] < NPROC && (i > 0 ==> ready[q][i - 1] < NPROC)
    ensures
      var rest, p := next[ready[q][i]], ready[q][i];
      var tail' := if tail[q] == p then tail[q := if i == 0 then NULL else ready[q][i - 1]] else tail;
      var ready' := ready[q := Without(ready[q], i)];
      && (i == 0 ==> Linked(head[q := rest], tail', next, ready'))
      && (i > 0 ==> Linked(head, tail', next[ready[q][i - 1] := rest], ready'))
  {
    hide Chain;
    var queue := ready[q];
    ChainFacts(next, head[q], queue);
    if i == 0 { ChainRest(next, head[q], queue); } else { ChainSkip(next, head[q], queue, i); }
    LastOut(queue, i);
    if i > 0 {
      var prev := queue[i - 1];
      assert prev in queue;
      forall k | 0 <= k < NR_SCHED_QUEUES && k != q ensures Chain(next[prev := next[queue[i]]], head[k], ready[k]) {
        OneQueue(ready, priority, q, k, prev);
        ChainUpdate(next, head[k], ready[k], prev, next[queue[i]]);
      }
    }
  }

  lemma LastOut(queue: seq<nat>, i: nat)
    requires i < |queue| && NoDup(queue)
    ensures Last(Without(queue, i)) ==
      if Last(queue) != queue[i] then Last(queue) else if i == 0 then NULL else queue[i - 1]
  {
    if i + 1 == |queue| {
      assert Without(queue, i) == queue[..i];
    }
  }

  lemma ApartBut(s: Sched, p: nat)
    requires InvBut(s, p)
    ensures Apart(s.ready, s.priority)
  {
  }

  /** Whoever is preempted by it leaves another queue. */
  lemma EnqueueEnd(s: Sched, p: nat)
    requires Shaped(s) && p < NPROC && s.priority[p] < NR_SCHED_QUEUES
    ensures SchedState.Enqueue(s, p).ready[s.priority[p]] == s.ready[s.priority[p]] + [p]
  {
  }

  class RunQueues {
    const flags: array<set<Flag>>
    const priority: array<nat>
    const preemptible: array<bool>
    const timeLeft: array<bool>
    const nextReady: array<int>
    const head: array<int>
    const tail: array<int>
    var current: nat

    /** What the table and the queues stand for. */
    ghost var view: Sched

    ghost predicate Valid()
      reads this, flags, priority, preemptible, timeLeft, nextReady, head, tail
    {
      && head != tail && head != nextReady && tail != nextReady && preemptible != timeLeft
      && Shaped(view) && current == view.current
      && flags[..] == view.flags && priority[..] == view.priority
      && preemptible[..] == view.preemptible && timeLeft[..] == view.timeLeft
      && Linked(head[..], tail[..], nextReady[..], view.ready)
    }

    /** proc_init: every slot is free. */
    constructor ()
      ensures Valid() && SchedState.Inv(view) && forall p :: 0 <= p < NPROC ==> view.flags[p] == {SLOT_FREE}
      ensures fresh(flags) && fresh(priority) && fresh(preemptible) && fresh(timeLeft) && fresh(nextReady)
      ensures fresh(head) && fresh(tail)
    {
      flags := new set<Flag>[NPROC](_ => {SLOT_FREE});
      priority := new nat[NPROC](_ => 0);
      preemptible, timeLeft := new bool[NPROC](_ => false), new bool[NPROC](_ => false);
      nextReady := new int[NPROC](_ => NULL);
      head, tail := new int[NR_SCHED_QUEUES](_ => NULL), new int[NR_SCHED_QUEUES](_ => NULL);
      current := IDLE;
      view := Sched(seq(NPROC, _ => {SLOT_FREE}), seq(NPROC, _ => 0), seq(NPROC, _ => false), seq(NPROC, _ => false),
                    seq(NR_SCHED_QUEUES, _ => []), IDLE);
    }

    /** `p` is to be queued or to be taken out; all else is in order. */
    ghost predicate Pending(p: nat)
      reads this, flags, priority, preemptible, timeLeft, nextReady, head, tail
    {
      Valid() && InvBut(view, p)
    }

    method Dequeue(p: nat)
      requires Pending(p)
      modifies this`view, nextReady, head, tail
      ensures Valid() && view == SchedState.Dequeue(old(view), p)
    {
      var q := priority[p];
      ghost var queue, i := view.ready[q], 0;
      var prev, cur := NULL, head[q];
      while cur != NULL && cur != p
        invariant 0 <= i <= |queue| && cur == At(queue, i) && prev == if i == 0 then NULL else queue[i - 1]
        invariant Place(queue, p, 0) == Place(queue, p, i)
        decreases |queue| - i
      {
        assert Chain(nextReady[..], head[..][q], queue) && LinkAt(nextReady[..], queue, i);
        prev, cur, i := cur, nextReady[cur], i + 1;
      }
      if cur != NULL {
        ApartBut(view, p);
        Unlink(q, prev, p, i);
      }
    }

    method Unlink(q: nat, prev: int, p: nat, ghost i: nat)
      requires Valid() && Apart(view.ready, view.priority) && q < NR_SCHED_QUEUES && i < |view.ready[q]|
      requires p == view.ready[q][i] && prev == if i == 0 then NULL else view.ready[q][i - 1]
      modifies this`view, nextReady, head, tail
      ensures Valid() && view == old(view).(ready := old(view).ready[q := Without(old(view).ready[q], i)])
    {
      hide Linked;
      LinkOut(head[..], tail[..], nextReady[..], view.ready, view.priority, q, i);
      LinkedShape(head[..], tail[..], nextReady[..], view.ready);
      if prev == NULL {
        head[q] := nextReady[p];
      } else {
        nextReady[prev] := nextReady[p];
      }
      if tail[q] == p {
        tail[q] := prev;
      }
      view := view.(ready := view.ready[q := Without(view.ready[q], i)]);
    }

    method Enqueue(p: nat)
      requires Pending(p) && flags[p] == {} && p !in view.ready[view.priority[p]]
      modifies this`view, flags, nextReady, head, tail
      ensures Valid() && view == SchedState.Enqueue(old(view), p)
      ensures var q := old(view.priority[p]); view.ready[q] == old(view.ready[q]) + [p]
    {
      EnqueueEnd(view, p);
      hide Linked, SchedState.RtsSet;
      ApartBut(view, p);
      var q := priority[p];
      LinkEnd(head[..], tail[..], nextReady[..], view.ready, view.priority, p);
      LinkedShape(head[..], tail[..], nextReady[..], view.ready);
      if head[q] == NULL {
        head[q], tail[q] := p, p;
        nextReady[p] := NULL;
      } else {
        nextReady[tail[q]] := p;
        tail[q] := p;
        nextReady[p] := NULL;
      }
      ghost var s := view;
      view := view.(ready := view.ready[q := view.ready[q] + [p]]);
      AddKeeps(s, p, view);
      if current != IDLE && priority[current] > priority[p] && preemptible[current] {
        RtsSet(current, {PREEMPTED});
      }
    }

    method EnqueueHead(p: nat)
      requires Pending(p) && flags[p] == {} && p !in view.ready[view.priority[p]]
      modifies this`view, nextReady, head, tail
      ensures Valid() && view == SchedState.EnqueueHead(old(view), p)
      ensures var q := old(view.priority[p]); view.ready[q] == [p] + old(view.ready[q])
    {
      hide Linked;
      ApartBut(view, p);
      var q := priority[p];
      LinkFront(head[..], tail[..], nextReady[..], view.ready, view.priority, p);
      LinkedShape(head[..], tail[..], nextReady[..], view.ready);
      if head[q] == NULL {
        head[q], tail[q] := p, p;
        nextReady[p] := NULL;
      } else {
        nextReady[p] := head[q];
        head[q] := p;
      }
      view := view.(ready := view.ready[q := [p] + view.ready[q]]);
    }

    method RtsSet(p: nat, f: set<Flag>)
      requires Valid() && SchedState.Inv(view) && p < NPROC
      modifies this`view, flags, nextReady, head, tail
      ensures Valid() && view == SchedState.RtsSet(old(view), p, f) && SchedState.Inv(view)
    {
      hide Linked, ReadyOk, Queued, SchedState.Dequeue;
      SetKeeps(view, p, f);
      var was := flags[p] == {};
      ghost var s := view;
      flags[p] := flags[p] + f;
      view := view.(flags := view.flags[p := view.flags[p] + f]);
      if was && flags[p] != {} {
        Loosen(s, view, p);
        Dequeue(p);
      }
    }

    method RtsUnset(p: nat, f: set<Flag>)
      requires Valid() && SchedState.Inv(view) && p < NPROC
      modifies this`view, flags, nextReady, head, tail
      ensures Valid() && view == SchedState.RtsUnset(old(view), p, f) && SchedState.Inv(view)
    {
      hide Linked, SchedState.Enqueue;
      UnsetKeeps(view, p, f);
      assert Queued(view, p) && ReadyOk(view, view.priority[p]);
      var was := flags[p] == {};
      ghost var s := view;
      flags[p] := flags[p] - f;
      view := view.(flags := view.flags[p := view.flags[p] - f]);
      if !was && flags[p] == {} {
        Loosen(s, view, p);
        Enqueue(p);
      }
    }

    method PickProc() returns (p: int)
      requires Valid()
      ensures p == SchedState.PickProc(view)
    {
      var q := 0;
      while q < NR_SCHED_QUEUES
        invariant q <= NR_SCHED_QUEUES && FirstQueue(view, 0) == FirstQueue(view, q)
      {
        assert Chain(nextReady[..], head[..][q], view.ready[q]);
        if head[q] != NULL {
          return head[q];
        }
        q := q + 1;
      }
      return NULL;
    }

    /** The start of switch_to_user up to the first call of idle; false if the
        processor idles. */
    method SwitchToUser() returns (runs: bool)
      requires Valid() && SchedState.Inv(view)
      modifies this, flags, nextReady, head, tail
      ensures Valid() && view == Switch(old(view)) && SchedState.Inv(view)
      ensures runs == Running(view) == (current != IDLE)
    {
      hide Linked, ReadyOk, Queued, SchedState.PickProc, Return;
      SwitchKeeps(view);
      if current != IDLE && flags[current] == {} {
        return true;
      }
      ReturnKeeps(view);
      PutBack();
      PickBest(view);
      var p := PickProc();
      current := if p == NULL then IDLE else p;
      view := view.(current := current);
      return p != NULL;
    }

    /** A current process that was preempted is returned to its queue. */
    method PutBack()
      requires Valid() && SchedState.Inv(view)
      modifies this`view, flags, nextReady, head, tail
      ensures Valid() && view == Return(old(view))
    {
      hide Linked, SchedState.Enqueue;
      var p := current;
      if p != IDLE && PREEMPTED in flags[p] {
        assert Queued(view, p) && ReadyOk(view, view.priority[p]);
        ghost var s := view;
        flags[p] := flags[p] - {PREEMPTED};
        view := view.(flags := view.flags[p := view.flags[p] - {PREEMPTED}]);
        Loosen(s, view, p);
        if flags[p] == {} {
          if timeLeft[p] {
            EnqueueHead(p);
          } else {
            Enqueue(p);
          }
        }
      }
    }

    /** sched_proc; an argument out of range is refused. */
    method SchedProc(p: nat, prio: int, quantum: int) returns (ok: bool)
      requires Valid() && SchedState.Inv(view) && p < NPROC && prio != NR_SCHED_QUEUES
      modifies this`view, flags, priority, timeLeft, nextReady, head, tail
      ensures Valid() && SchedState.Inv(view) && ok == SchedOk(prio, quantum)
      ensures ok <==> -1 <= prio <= NR_SCHED_QUEUES && (quantum >= 1 || quantum == -1)
      ensures view == if ok then SchedState.SchedProc(old(view), p, prio, quantum) else old(view)
    {
      hide Linked, ReadyOk, Queued, SchedState.RtsSet, SchedState.RtsUnset;
      SetKeeps(view, p, {NO_QUANTUM});
      if (prio < 0 && prio != -1) || prio > NR_SCHED_QUEUES || (quantum < 1 && quantum != -1) {
        return false;
      }
      SchedProcKeeps(view, p, prio, quantum);
      SetShape(view, p, {NO_QUANTUM});
      if flags[p] == {} {
        RtsSet(p, {NO_QUANTUM});
        assert NO_QUANTUM in flags[p];
      }
      AssignKeeps(view, p, prio, quantum);
      ghost var s := view;
      if prio != -1 {
        priority[p] := prio;
      }
      if quantum != -1 {
        timeLeft[p] := true;
      }
      view := Assign(view, p, prio, quantum);
      RtsUnset(p, {NO_QUANTUM});
      return true;
    }
  }

  lemma LinkedShape(head: seq<int>, tail: seq<int>, next: seq<int>, ready: seq<seq<nat>>)
    requires Linked(head, tail, next, ready)
    ensures |head| == |tail| == |ready| == NR_SCHED_QUEUES && |next| == NPROC
  {
  }
}
