/** runqueues_ok_cpu, the kernel's own check of the run queues, decides exactly
    the invariant. */
module SchedCheck {
  import opened Links
  import opened SchedState
  import opened SchedQueues

  const MAX_LOOP: nat := NPROC

  /** The table and the pointers, whatever is in them. */
  datatype Raw = Raw(flags: seq<set<Flag>>, priority: seq<nat>, next: seq<int>, head: seq<int>, tail: seq<int>)

  ghost predicate RawOk(r: Raw) {
    && |r.flags| == |r.priority| == |r.next| == NPROC && |r.head| == |r.tail| == NR_SCHED_QUEUES
    // A tail is followed before it is compared with anything.
    && forall q :: 0 <= q < NR_SCHED_QUEUES ==> r.tail[q] == NULL || 0 <= r.tail[q] < NPROC
  }

  /** A ready process at priority `q`. */
  predicate Fits(r: Raw, p: nat, q: nat) {
    p < |r.flags| && p < |r.priority| && r.flags[p] == {} && r.priority[p] == q
  }

  /** `queue` is the list of priority `q`, and it is in order. */
  ghost predicate QueueFits(r: Raw, q: nat, queue: seq<nat>)
    requires RawOk(r) && q < NR_SCHED_QUEUES
  {
    && Chain(r.next, r.head[q], queue) && r.tail[q] == Last(queue)
    && NoDup(queue) && forall p :: p in queue ==> Fits(r, p, q)
  }

  /** `ready` is what the pointers stand for: in each queue ready processes of
      its priority, once each, with the tail last, and every ready process in
      the queue of its priority. */
  ghost predicate Describes(r: Raw, ready: seq<seq<nat>>)
    requires RawOk(r)
  {
    && |ready| == NR_SCHED_QUEUES
    && (forall q :: 0 <= q < NR_SCHED_QUEUES ==> QueueFits(r, q, ready[q]))
    && (forall p :: 0 <= p < NPROC && r.flags[p] == {} ==> r.priority[p] < NR_SCHED_QUEUES && p in ready[r.priority[p]])
  }

  /** Describes is the invariant of SchedState, on linked queues. */
  lemma DescribesInv(r: Raw, s: Sched)
    requires RawOk(r) && Shaped(s) && r.flags == s.flags && r.priority == s.priority
    requires forall p :: 0 <= p < NPROC ==> s.priority[p] < NR_SCHED_QUEUES
    ensures Describes(r, s.ready) <==> Inv(s) && Linked(r.head, r.tail, r.next, s.ready)
  {
    hide Chain;
    if Describes(r, s.ready) {
      forall q | 0 <= q < NR_SCHED_QUEUES ensures ReadyOk(s, q) { assert QueueFits(r, q, s.ready[q]); }
      forall p | 0 <= p < NPROC ensures Queued(s, p) { }
      forall q | 0 <= q < NR_SCHED_QUEUES
        ensures Chain(r.next, r.head[q], s.ready[q]) && r.tail[q] == Last(s.ready[q])
      {
        assert QueueFits(r, q, s.ready[q]);
      }
    }
    if Inv(s) && Linked(r.head, r.tail, r.next, s.ready) {
      forall q | 0 <= q < NR_SCHED_QUEUES ensures QueueFits(r, q, s.ready[q]) { assert ReadyOk(s, q); }
      forall p | 0 <= p < NPROC && r.flags[p] == {} ensures p in s.ready[r.priority[p]] { assert Queued(s, p); }
    }
  }

  // ----------------------------------------------------------------- the walk

  /** The walk along queue `q` has passed `seen` and is at `xp`. */
  ghost predicate Walked(r: Raw, q: nat, seen: seq<nat>, xp: int)
    requires RawOk(r) && q < NR_SCHED_QUEUES
  {
    && NoDup(seen) && (forall p :: p in seen ==> Fits(r, p, q))
    && r.head[q] == (if seen == [] then xp else seen[0])
    && (forall i :: 0 <= i < |seen| ==> Follows(r, seen, i, xp))
  }

  ghost predicate Follows(r: Raw, seen: seq<nat>, i: nat, xp: int)
    requires i < |seen|
  {
    seen[i] < |r.next| && r.next[seen[i]] == if i + 1 < |seen| then seen[i + 1] else xp
  }

  lemma WalkOn(r: Raw, q: nat, seen: seq<nat>, xp: nat)
    requires RawOk(r) && q < NR_SCHED_QUEUES && Walked(r, q, seen, xp) && Fits(r, xp, q) && xp !in seen
    ensures Walked(r, q, seen + [xp], r.next[xp])
  {
    var more := seen + [xp];
    forall i | 0 <= i < |more| ensures Follows(r, more, i, r.next[xp]) {
      if i < |seen| { assert Follows(r, seen, i, xp); }
    }
  }

  lemma WalkEnds(r: Raw, q: nat, seen: seq<nat>)
    requires RawOk(r) && q < NR_SCHED_QUEUES && Walked(r, q, seen, NULL) && r.tail[q] == Last(seen)
    ensures QueueFits(r, q, seen)
  {
    forall i | 0 <= i < |seen| ensures LinkAt(r.next, seen, i) { assert Follows(r, seen, i, NULL); }
  }

  /** If the pointers stand for anything in order, the walk is on it. */
  ghost predicate OnTrack(queue: seq<nat>, seen: seq<nat>, xp: int) {
    seen <= queue && xp == At(queue, |seen|)
  }

  lemma TrackStep(r: Raw, q: nat, queue: seq<nat>, seen: seq<nat>, xp: int)
    requires RawOk(r) && q < NR_SCHED_QUEUES && QueueFits(r, q, queue) && OnTrack(queue, seen, xp)
    ensures xp != NULL ==>
      && 0 <= xp < NPROC && Fits(r, xp, q) && xp !in seen
      && OnTrack(queue, seen + [xp], r.next[xp])
      && (r.next[xp] == NULL ==> r.tail[q] == xp)
  {
    if xp != NULL {
      var i := |seen|;
      assert LinkAt(r.next, queue, i);
      assert queue[i] in queue;
      assert forall j :: 0 <= j < i ==> queue[j] != queue[i];
    }
  }

  // ---------------------------------------------------------------- the check

  /** The processes found so far: those of the queues done and those passed in
      the one at hand. */
  ghost predicate Marked(r: Raw, done: seq<seq<nat>>, seen: seq<nat>, found: seq<bool>, l: nat)
    requires RawOk(r)
  {
    && |found| == NPROC
    && (forall p :: 0 <= p < NPROC ==> found[p] == (p in seen || (r.priority[p] < |done| && p in done[r.priority[p]])))
    && l == Count(found)
  }

  ghost function Count(found: seq<bool>): (n: nat)
    ensures n <= |found|
  {
    if found == [] then 0 else (if found[|found| - 1] then 1 else 0) + Count(found[..|found| - 1])
  }

  lemma {:induction false} CountSet(found: seq<bool>, p: nat)
    requires p < |found| && !found[p]
    ensures Count(found[p := true]) == Count(found) + 1
  {
    var n := |found| - 1;
    if p < n {
      assert found[p := true][..n] == found[..n][p := true];
      CountSet(found[..n], p);
    } else {
      assert found[p := true][..n] == found[..n];
    }
  }

  lemma {:induction false} CountNone(found: seq<bool>)
    requires forall p :: 0 <= p < |found| ==> !found[p]
    ensures Count(found) == 0
  {
    if found != [] { CountNone(found[..|found| - 1]); }
  }

  /** One queue.  `queue` is any sequence: if it is what the queue stands for and
      in order, the walk does not object. */
  method CheckQueue(r: Raw, q: nat, found: array<bool>, count: nat, ghost done: seq<seq<nat>>, ghost queue: seq<nat>)
    returns (ok: bool, l: nat, ghost seen: seq<nat>)
    requires RawOk(r) && q < NR_SCHED_QUEUES && |done| == q && Marked(r, done, [], found[..], count)
    modifies found
    ensures ok ==> QueueFits(r, q, seen) && Marked(r, done, seen, found[..], l)
    ensures ok && QueueFits(r, q, queue) ==> seen == queue
    ensures !ok ==> !QueueFits(r, q, queue)
  {
    hide QueueFits, Walked, Fits, Count;
    ok, l, seen := false, count, [];
    TrackStart(r, q, queue);
    if r.head[q] != NULL && r.tail[q] == NULL { return; }
    if r.head[q] == NULL && r.tail[q] != NULL { return; }
    if r.tail[q] != NULL && r.next[r.tail[q]] != NULL { return; }
    var xp := r.head[q];
    while xp != NULL
      invariant Walked(r, q, seen, xp) && Marked(r, done, seen, found[..], l)
      invariant QueueFits(r, q, queue) ==> OnTrack(queue, seen, xp)
      invariant xp == NULL ==> r.tail[q] == Last(seen)
      decreases NPROC - l
    {
      if QueueFits(r, q, queue) { TrackStep(r, q, queue, seen, xp); }
      if xp < 0 || xp >= NPROC { return; }
      FitsIff(r, xp, q);
      if r.flags[xp] != {} { return; }
      if r.priority[xp] != q { return; }
      if found[xp] { return; }
      WalkOn(r, q, seen, xp);
      MarkOn(r, done, seen, found[..], l, xp);
      found[xp] := true;
      if r.next[xp] == NULL && r.tail[q] != xp { return; }
      // The list cannot be longer than the table: each process is found once.
      assert l < MAX_LOOP;
      seen, xp, l := seen + [xp], r.next[xp], l + 1;
    }
    WalkEnds(r, q, seen);
    ok := true;
  }

  lemma FitsIff(r: Raw, p: nat, q: nat)
    requires RawOk(r) && p < NPROC
    ensures Fits(r, p, q) <==> r.flags[p] == {} && r.priority[p] == q
  {
  }

  lemma TrackStart(r: Raw, q: nat, queue: seq<nat>)
    requires RawOk(r) && q < NR_SCHED_QUEUES
    ensures Walked(r, q, [], r.head[q])
    ensures QueueFits(r, q, queue) ==>
      && OnTrack(queue, [], r.head[q]) && (r.head[q] == NULL <==> r.tail[q] == NULL)
      && (r.tail[q] != NULL ==> r.next[r.tail[q]] == NULL)
  {
    if QueueFits(r, q, queue) && queue != [] {
      assert LinkAt(r.next, queue, |queue| - 1);
    }
  }

  lemma MarkOn(r: Raw, done: seq<seq<nat>>, seen: seq<nat>, found: seq<bool>, l: nat, xp: nat)
    requires RawOk(r) && Marked(r, done, seen, found, l) && xp < NPROC && !found[xp]
    ensures Marked(r, done, seen + [xp], found[xp := true], l + 1) && l < NPROC
  {
    CountSet(found, xp);
  }

  /** All queues, and then the table.  The answer is yes exactly if the pointers
      stand for queues that are in order: then `ready` is what they stand for;
      and if the answer is no, nothing is, `claimed` being arbitrary. */
  method RunqueuesOk(r: Raw, ghost claimed: seq<seq<nat>>) returns (ok: bool, ghost ready: seq<seq<nat>>)
    requires RawOk(r)
    ensures ok ==> Describes(r, ready)
    ensures !ok ==> !Describes(r, claimed)
  {
    hide QueueFits, Count;
    var found := new bool[NPROC](_ => false);
    CountNone(found[..]);
    var q, l := 0, 0;
    ready := [];
    while q < NR_SCHED_QUEUES
      invariant q <= NR_SCHED_QUEUES && |ready| == q && Marked(r, ready, [], found[..], l)
      invariant forall k :: 0 <= k < q ==> QueueFits(r, k, ready[k])
      invariant Describes(r, claimed) ==> ready <= claimed
    {
      ghost var queue := if |claimed| == NR_SCHED_QUEUES then claimed[q] else [];
      ghost var seen;
      ok, l, seen := CheckQueue(r, q, found, l, ready, queue);
      if !ok { return; }
      QueueDone(r, ready, seen, found[..], l);
      ready := ready + [seen];
      q := q + 1;
    }
    var p := 0;
    while p < NPROC
      invariant p <= NPROC && Marked(r, ready, [], found[..], l)
      invariant forall k :: 0 <= k < p && r.flags[k] == {} ==> found[k]
    {
      if r.flags[p] == {} && !found[p] {
        return false, ready;
      }
      p := p + 1;
    }
    ok := true;
  }

  lemma QueueDone(r: Raw, done: seq<seq<nat>>, seen: seq<nat>, found: seq<bool>, l: nat)
    requires RawOk(r) && |done| < NR_SCHED_QUEUES && Marked(r, done, seen, found, l) && QueueFits(r, |done|, seen)
    ensures Marked(r, done + [seen], [], found, l)
  {
    forall p | 0 <= p < NPROC
      ensures found[p] == (r.priority[p] < |done| + 1 && p in (done + [seen])[r.priority[p]])
    {
      assert p in seen ==> Fits(r, p, |done|);
    }
  }
}
