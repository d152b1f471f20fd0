/** The process table in place: caller queues are linked through p_q_link, and
    every call is proved to do what IpcState says. */
module IpcKernel {
  import opened IpcState
  import opened IpcInvariant
  import opened IpcSteps
  import opened IpcCalls
  import opened IpcClear
  import opened IpcFork
  import IpcGenerations
  import IpcRights
  import opened Links
  import opened WaitGraph

  /** The queues and links of the table; a process on no queue has no link,
      unless it is stale. */
  ghost predicate Linked(head: seq<int>, link: seq<int>, s: State)
    requires Shaped(s)
  {
    && |head| == |link| == NSLOTS
    && (forall d :: 0 <= d < NSLOTS ==> Chain(link, head[d], s.queue[d]))
    && (forall p :: 0 <= p < NSLOTS && !s.procs[p].sending && p !in s.stale ==> link[p] == NULL)
  }

  // ------------------------------------------------------- links as sequences

  /** Who is on one queue is not on another. */
  lemma Apart(s: State, d: nat, d': nat, q: nat)
    requires Local(s) && d < NSLOTS && d' < NSLOTS && q in s.queue[d] && q in s.queue[d']
    ensures d == d'
  {
    hide BitsOk, Meets;
    assert QueueOk(s, d) && QueueOk(s, d') && ProcOk(s, d) && ProcOk(s, d');
  }

  /** A caller `c` joins the end of the queue of `d`. */
  lemma LinkAppend(head: seq<int>, link: seq<int>, s: State, s': State, c: nat, d: nat)
    requires Local(s) && Linked(head, link, s) && c < NSLOTS && d < NSLOTS && !s.procs[c].sending && c !in s.stale
    requires Shaped(s') && s'.queue == s.queue[d := s.queue[d] + [c]] && s'.stale == s.stale
    requires s'.procs[c].sending && forall p :: 0 <= p < NSLOTS && p != c ==> s'.procs[p].sending == s.procs[p].sending
    ensures s.queue[d] == [] ==> Linked(head[d := c], link, s')
    ensures s.queue[d] != [] ==>
      s.queue[d][|s.queue[d]| - 1] < NSLOTS && Linked(head, link[s.queue[d][|s.queue[d]| - 1] := c], s')
  {
    hide ProcOk, BitsOk, Meets, Chain;
    var queue := s.queue[d];
    assert QueueOk(s, d);
    ChainAppend(link, head[d], queue, c);
    if queue != [] {
      var last := queue[|queue| - 1];
      assert last in queue;
      var link' := link[last := c];
      forall d' | 0 <= d' < NSLOTS ensures Chain(link', head[d'], s'.queue[d']) {
        if d' != d {
          if last in s.queue[d'] { Apart(s, d, d', last); }
          ChainUpdate(link, head[d'], s.queue[d'], last, c);
        }
      }
    }
  }

  /** The i-th caller of `d` leaves the queue; its own link is `x` then. */
  lemma LinkRemove(head: seq<int>, link: seq<int>, s: State, s': State, d: nat, i: nat, x: int)
    requires Local(s) && Linked(head, link, s) && d < NSLOTS && i < |s.queue[d]|
    requires s.queue[d][i] < NSLOTS
    requires Shaped(s') && s'.queue == s.queue[d := Without(s.queue[d], i)]
    requires s.stale <= s'.stale && (x == NULL || s.queue[d][i] in s'.stale)
    requires forall p :: 0 <= p < NSLOTS && p != s.queue[d][i] ==> s'.procs[p].sending == s.procs[p].sending
    ensures i == 0 ==> Linked(head[d := link[s.queue[d][0]]], link[s.queue[d][0] := x], s')
    ensures i > 0 && s.queue[d][i - 1] < NSLOTS ==>
      Linked(head, link[s.queue[d][i - 1] := link[s.queue[d][i]]][s.queue[d][i] := x], s')
  {
    hide ProcOk, BitsOk, Meets, Chain;
    var queue, q := s.queue[d], s.queue[d][i];
    assert QueueOk(s, d);
    if i == 0 { ChainRest(link, head[d], queue); } else { ChainSkip(link, head[d], queue, i); }
    WithoutOne(queue, i);
    assert q in queue;
    assert i > 0 ==> queue[i - 1] in queue;
    var head' := if i == 0 then head[d := link[q]] else head;
    var link1 := if i == 0 then link else link[queue[i - 1] := link[q]];
    forall d' | 0 <= d' < NSLOTS ensures Chain(link1[q := x], head'[d'], s'.queue[d']) {
      if d' != d {
        if q in s.queue[d'] { Apart(s, d, d', q); }
        if i > 0 {
          if queue[i - 1] in s.queue[d'] { Apart(s, d, d', queue[i - 1]); }
          ChainUpdate(link, head[d'], s.queue[d'], queue[i - 1], link[q]);
        }
      }
      ChainUpdate(link1, head'[d'], s'.queue[d'], q, x);
    }
  }

  /** Setting a process that stays on its queue, or off it. */
  lemma LinkSame(head: seq<int>, link: seq<int>, s: State, s': State)
    requires Shaped(s) && Linked(head, link, s) && Shaped(s') && s'.queue == s.queue && s.stale <= s'.stale
    requires forall p :: 0 <= p < NSLOTS ==> s'.procs[p].sending == s.procs[p].sending
    ensures Linked(head, link, s')
  {
    hide Chain;
  }

  /** A copy of a process, list head and link included. */
  lemma LinkCopy(head: seq<int>, link: seq<int>, s: State, e: Endpoint, slot: nat, user: Rights)
    requires Local(s) && Linked(head, link, s) && slot < NSLOTS && IpcFork.Fork(s, e, slot, user).1 == OK
    ensures Linked(head[slot := head[e.slot]], link[slot := link[e.slot]], IpcFork.Fork(s, e, slot, user).0)
  {
    hide BitsOk, Meets, Chain, Child;
    var s' := IpcFork.Fork(s, e, slot, user).0;
    assert ProcOk(s, slot);
    forall d | 0 <= d < NSLOTS ensures Chain(link[slot := link[e.slot]], head[slot := head[e.slot]][d], s'.queue[d]) {
      var d' := if d == slot then e.slot else d;
      assert QueueOk(s, d');
      ChainUpdate(link, head[d'], s.queue[d'], slot, link[e.slot]);
    }
    ChildKin(s.procs[e.slot], slot, NextGeneration(s.procs[slot].endpoint), user);
  }

  // --------------------------------------------------------------- the table

  /** The lowest bit set, or NSLOTS. */
  method FindBit(bits: set<nat>) returns (q: nat)
    ensures q == FirstBit(bits, 0)
  {
    q := 0;
    while q < NSLOTS && q !in bits
      invariant q <= NSLOTS && FirstBit(bits, q) == FirstBit(bits, 0)
    {
      q := q + 1;
    }
  }

  method Pending(bits: set<nat>, srcE: Endpoint) returns (q: nat)
    requires srcE != NONE
    ensures q == HasPending(bits, srcE)
  {
    if srcE != ANY {
      q := if srcE.slot < NSLOTS && srcE.slot in bits then srcE.slot else NSLOTS;
    } else {
      q := FindBit(bits);
    }
  }

  class Kernel {
    const table: array<Proc>
    const callerQ: array<int>
    const qLink: array<int>

    /** What the table stands for. */
    ghost var view: State

    ghost predicate Valid()
      reads this, table, callerQ, qLink
    {
      && callerQ != qLink && table.Length == callerQ.Length == qLink.Length == NSLOTS
      && Shaped(view) && table[..] == view.procs && Linked(callerQ[..], qLink[..], view)
    }

    /** A table of processes that have not made a call yet. */
    constructor (procs: seq<Proc>)
      requires |procs| == NSLOTS && forall p :: 0 <= p < NSLOTS ==> !procs[p].sending
      ensures Valid() && fresh(table) && fresh(callerQ) && fresh(qLink)
      ensures view == State(procs, seq(NSLOTS, _ => []), {})
    {
      table := new Proc[NSLOTS](p requires 0 <= p < NSLOTS => procs[p]);
      callerQ := new int[NSLOTS](_ => NULL);
      qLink := new int[NSLOTS](_ => NULL);
      view := State(procs, seq(NSLOTS, _ => []), {});
    }

    /** An update of one process that leaves RTS_SENDING as it is. */
    method Set(p: nat, x: Proc)
      requires Valid() && p < NSLOTS && x.sending == table[p].sending
      modifies this`view, table
      ensures Valid() && view == Put(old(view), p, x)
    {
      table[p] := x;
      view := Put(view, p, x);
      LinkSame(callerQ[..], qLink[..], old(view), view);
    }

    // -------------------------------------------------------------- deadlock

    method Deadlock(call: Call, c: nat, e: Endpoint) returns (size: nat)
      requires Valid() && Inv(view) && c < NSLOTS && (e == ANY || Slot(e))
      ensures size == IpcState.Deadlock(view, call, c, e)
    {
      hide BitsOk, Meets, QueueOk, Linked;
      var srcDst, groupSize := e, 1;
      ghost var fuel, g := NSLOTS, WaitsFor(view);
      EdgesClosed(view);
      if e.Ep? { Tight(g, e.slot, NSLOTS); }
      while srcDst != ANY
        invariant srcDst == ANY || (Slot(srcDst) && fuel > 0 && Ends(g, srcDst.slot, fuel - 1))
        invariant Walk(view, call, table[c].endpoint, e, 1, NSLOTS)
          == Walk(view, call, table[c].endpoint, srcDst, groupSize, fuel)
        decreases fuel
      {
        assert ProcOk(view, srcDst.slot);
        var xp := table[srcDst.slot];
        groupSize := groupSize + 1;
        srcDst := BlockedOn(xp);
        if srcDst == NONE {
          return 0;
        }
        if srcDst == table[c].endpoint {
          if groupSize == 2 && xp.sending != (call == SEND) {
            return 0;
          }
          return groupSize;
        }
        fuel := fuel - 1;
      }
      return 0;
    }

    // ------------------------------------------------------------- mini_send

    /** The last caller in the queue of `d`. */
    method FindLast(d: nat) returns (last: int)
      requires Valid() && Local(view) && d < NSLOTS
      ensures last == if view.queue[d] == [] then NULL else view.queue[d][|view.queue[d]| - 1]
    {
      hide ProcOk, BitsOk, Meets;
      ghost var queue, i := view.queue[d], 0;
      assert QueueOk(view, d);
      assert forall j :: 0 <= j < |queue| ==> queue[j] in queue;
      var cur := callerQ[d];
      last := NULL;
      while cur != NULL
        invariant 0 <= i <= |queue| && cur == At(queue, i) && last == (if i == 0 then NULL else queue[i - 1])
        decreases |queue| - i
      {
        assert LinkAt(qLink[..], queue, i);
        last, cur := cur, qLink[cur];
        i := i + 1;
      }
    }

    /** Put `c`, as `x`, at the end of the list of callers of `d`. */
    method Append(c: nat, d: nat, x: Proc)
      requires Valid() && Local(view) && c < NSLOTS && d < NSLOTS
      requires !table[c].sending && x.sending && c !in view.stale
      modifies this`view, table, callerQ, qLink
      ensures Valid() && view == Enqueued(Put(old(view), c, x), c, d)
    {
      hide ProcOk, BitsOk, Meets, Linked;
      ghost var queue := view.queue[d];
      var last := FindLast(d);
      assert QueueOk(view, d);
      assert queue != [] ==> last in queue;
      ghost var s' := Enqueued(Put(view, c, x), c, d);
      LinkAppend(callerQ[..], qLink[..], view, s', c, d);
      if last == NULL {
        callerQ[d] := c;
      } else {
        qLink[last] := c;
      }
      table[c] := x;
      view := s';
    }

    method MiniSend(c: nat, dstE: Endpoint, m: Message, nonBlocking: bool, kernel: bool,
        copied: bool) returns (r: Result)
      requires Valid() && Inv(view) && c < NSLOTS && Idle(table[c]) && Slot(dstE)
      requires nonBlocking || LinkFree(view, c, dstE, kernel || copied)
      modifies this`view, table, callerQ, qLink
      ensures Valid() && (view, r) == IpcState.MiniSend(old(view), c, dstE, m, nonBlocking, kernel, copied)
    {
      hide ProcOk, BitsOk, Meets, QueueOk, AllEnd, Linked, Woken, IpcState.Deadlock;
      var d := dstE.slot;
      var caller, dst := table[c], table[d];
      if dst.noEndpoint {
        return EDEADSRCDST;
      }
      if WillReceive(dst, caller.endpoint) {
        if !kernel && !copied {
          return EFAULT;
        }
        var call := if caller.replyPend then SENDREC else if nonBlocking then SENDNB else SEND;
        WokenKin(dst, caller.endpoint, m, call, kernel);
        Set(d, Woken(dst, caller.endpoint, m, call, kernel));
      } else {
        if nonBlocking {
          return ENOTREADY;
        }
        var size := Deadlock(SEND, c, dstE);
        if size != 0 {
          return ELOCKED;
        }
        if !kernel && !copied {
          return EFAULT;
        }
        Append(c, d, Waiting(caller, dstE, m, kernel));
      }
      return OK;
    }

    // ----------------------------------------------------------- mini_notify

    method MiniNotify(c: nat, dstE: Endpoint) returns (r: Result)
      requires Valid() && c < NSLOTS
      modifies this`view, table
      ensures Valid() && (view, r) == IpcState.MiniNotify(old(view), c, dstE)
    {
      hide Linked, Woken;
      if !(dstE.Ep? && dstE.slot < NSLOTS && !table[dstE.slot].free && table[dstE.slot].endpoint == dstE) {
        return EDEADSRCDST;
      }
      var d := dstE.slot;
      var dst, source := table[d], table[c].endpoint;
      if WillReceive(dst, source) && !dst.replyPend {
        WokenKin(dst, source, Notification(source), NOTIFY, false);
        Set(d, Woken(dst, source, Notification(source), NOTIFY, false));
      } else {
        Set(d, dst.(notify := dst.notify + {c}));
      }
      return OK;
    }

    // -------------------------------------------------- asynchronous messages

    method SendAsync(c: nat, dstE: Endpoint, m: Message, noReply: bool) returns (r: Result)
      requires Valid() && c < NSLOTS
      modifies this`view, table
      ensures Valid() && (view, r) == IpcState.SendAsync(old(view), c, dstE, m, noReply)
    {
      hide Linked, Handed;
      var caller := table[c];
      if !caller.sysProc {
        return EPERM;
      }
      if !(dstE.Ep? && dstE.slot < NSLOTS && !table[dstE.slot].free && table[dstE.slot].endpoint == dstE) {
        return EDEADSRCDST;
      }
      var d := dstE.slot;
      var dst := table[d];
      if d < NR_TASKS || d !in caller.ipcTo {
        return ECALLDENIED;
      }
      if dst.noEndpoint {
        return EDEADSRCDST;
      }
      if WillReceive(dst, caller.endpoint) && (!noReply || !dst.replyPend) {
        HandedKin(dst, caller.endpoint, m, SENDA, false);
        Set(d, Handed(dst, caller.endpoint, m, SENDA, false).(receiving := false));
      } else {
        Set(d, dst.(asyn := dst.asyn + {c}));
      }
      return OK;
    }

    method TryOne(q: nat, c: nat, tables: Tables) returns (done: bool)
      requires Valid() && c < NSLOTS && q < NSLOTS
      modifies this`view, table
      ensures Valid() && (view, done) == IpcState.TryOne(old(view), q, c, tables)
    {
      hide Linked, Tried, IpcState.MiniNotify;
      if !table[q].sysProc {
        return false;
      }
      var e, source := tables(q), table[q].endpoint;
      TriedKin(table[c], q, source, e);
      Set(c, Tried(table[c], q, source, e));
      if e.tell {
        var told := MiniNotify(ASYNCM, source);
      }
      return e.msg.Some?;
    }

    method TryAsync(c: nat, tables: Tables) returns (done: bool)
      requires Valid() && c < NSLOTS
      modifies this`view, table
      ensures Valid() && (view, done) == IpcState.TryAsync(old(view), 0, c, tables)
    {
      hide Linked, IpcState.TryOne;
      var q := 0;
      while q < NSLOTS
        invariant q <= NSLOTS && Valid()
        invariant IpcState.TryAsync(old(view), 0, c, tables) == IpcState.TryAsync(view, q, c, tables)
      {
        if q in table[c].asyn {
          done := TryOne(q, c, tables);
          if done {
            return;
          }
        }
        q := q + 1;
      }
      return false;
    }

    // ---------------------------------------------------------- mini_receive

    /** Walk the queue of `c` to the first caller that is wanted. */
    method FindCaller(c: nat, srcE: Endpoint) returns (prev: int, cur: int)
      requires Valid() && Local(view) && c < NSLOTS
      ensures
        var i := FirstWanted(view.queue[c], srcE, 0);
        cur == At(view.queue[c], i) && prev == if i == 0 then NULL else view.queue[c][i - 1]
    {
      hide ProcOk, BitsOk, Meets;
      ghost var queue := view.queue[c];
      assert QueueOk(view, c);
      assert forall j :: 0 <= j < |queue| ==> queue[j] in queue;
      ghost var i := 0;
      prev, cur := NULL, callerQ[c];
      while cur != NULL
        invariant 0 <= i <= |queue| && cur == At(queue, i) && prev == if i == 0 then NULL else queue[i - 1]
        invariant FirstWanted(queue, srcE, 0) == FirstWanted(queue, srcE, i)
        decreases |queue| - i
      {
        if Wanted(srcE, cur) {
          return;
        }
        assert LinkAt(qLink[..], queue, i);
        prev, cur, i := cur, qLink[cur], i + 1;
      }
    }

    /** Unlink `q`, which comes after `prev` in the queue of `d`.  Its own link
        is cleared or left. */
    method Unlink(d: nat, prev: int, q: nat, clear: bool, ghost i: nat, ghost s': State)
      requires Valid() && Local(view) && d < NSLOTS && i < |view.queue[d]|
      requires q == view.queue[d][i] < NSLOTS && prev == if i == 0 then NULL else view.queue[d][i - 1]
      requires Shaped(s') && s'.queue == view.queue[d := Without(view.queue[d], i)] && view.stale <= s'.stale
      requires clear || At(view.queue[d], i + 1) == NULL || q in s'.stale
      requires forall p :: 0 <= p < NSLOTS && p != q ==> s'.procs[p].sending == view.procs[p].sending
      modifies callerQ, qLink
      ensures Linked(callerQ[..], qLink[..], s')
    {
      hide ProcOk, BitsOk, Meets;
      assert QueueOk(view, d);
      assert i > 0 ==> view.queue[d][i - 1] in view.queue[d];
      ghost var head, link := callerQ[..], qLink[..];
      assert Chain(link, head[d], view.queue[d]) && LinkAt(link, view.queue[d], i);
      var next := qLink[q];
      LinkRemove(head, link, view, s', d, i, if clear then NULL else next);
      hide Linked;
      if prev == NULL {
        callerQ[d] := next;
        assert callerQ[..] == head[d := next];
        assert qLink[..] == link[q := next];
      } else {
        qLink[prev] := next;
        assert prev != q;
        assert qLink[..] == link[prev := next] == link[prev := next][q := next];
      }
      if clear {
        qLink[q] := NULL;
      }
      assert qLink[..] == (if prev == NULL then link else link[prev := next])[q := if clear then NULL else next];
    }

    /** Take the message of `q`, the i-th caller of `c`. */
    method TakeFrom(c: nat, prev: int, q: nat, ghost i: nat)
      requires Valid() && Inv(view) && c < NSLOTS && !table[c].sending && i < |view.queue[c]|
      requires q == view.queue[c][i] < NSLOTS && prev == if i == 0 then NULL else view.queue[c][i - 1]
      modifies this`view, table, callerQ, qLink
      ensures Valid() && view == IpcState.TakeFrom(old(view), c, i)
    {
      hide ProcOk, BitsOk, Meets, QueueOk, AllEnd, Handed, Linked;
      ReleasedOk(view, c, i);
      var sender, caller := table[q], table[c];
      var call := if sender.replyPend then SENDREC else SEND;
      HandedKin(caller, sender.endpoint, sender.sendmsg, call, sender.fromKernel);
      ghost var s' := IpcState.TakeFrom(view, c, i);
      Unlink(c, prev, q, true, i, s');
      table[c] := Received(Handed(caller, sender.endpoint, sender.sendmsg, call, sender.fromKernel));
      table[q] := Released(sender);
      assert table[..] == s'.procs;
      view := s';
    }

    method Block(c: nat, srcE: Endpoint) returns (r: Result)
      requires Valid() && Inv(view) && c < NSLOTS && (srcE == ANY || Slot(srcE))
      modifies this`view, table
      ensures Valid() && (view, r) == IpcState.Block(old(view), c, srcE)
    {
      hide ProcOk, BitsOk, Meets, QueueOk, AllEnd, Linked, IpcState.Deadlock;
      var size := Deadlock(RECEIVE, c, srcE);
      if size != 0 {
        return ELOCKED;
      }
      Set(c, table[c].(getfrom := srcE, receiving := true));
      return OK;
    }

    method FromQueue(c: nat, srcE: Endpoint) returns (r: Result)
      requires Valid() && Inv(view) && c < NSLOTS && !table[c].sending && (srcE == ANY || Slot(srcE))
      modifies this`view, table, callerQ, qLink
      ensures Valid() && (view, r) == IpcState.FromQueue(old(view), c, srcE)
    {
      hide ProcOk, BitsOk, Meets, AllEnd, Linked, IpcState.Deadlock, IpcState.Block, IpcState.TakeFrom;
      assert QueueOk(view, c);
      var prev, cur := FindCaller(c, srcE);
      ghost var i := FirstWanted(view.queue[c], srcE, 0);
      if cur != NULL {
        assert view.queue[c][i] in view.queue[c];
        TakeFrom(c, prev, cur, i);
        return OK;
      }
      r := Block(c, srcE);
    }

    method FromAsync(c: nat, srcE: Endpoint, tables: Tables) returns (r: Result)
      requires Valid() && Inv(view) && Runnable(view, c) && (srcE == ANY || Slot(srcE))
      modifies this`view, table, callerQ, qLink
      ensures Valid() && (view, r) == IpcState.FromAsync(old(view), c, srcE, tables)
    {
      hide ProcOk, BitsOk, Meets, QueueOk, AllEnd, Linked, IpcState.FromQueue, IpcState.TryOne, IpcState.TryAsync;
      var q := Pending(table[c].asyn, srcE);
      if q != NSLOTS {
        var done;
        ghost var s := view;
        if srcE.Ep? {
          TryOneKeeps(view, q, c, tables);
          done := TryOne(q, c, tables);
        } else {
          TryAsyncKeeps(view, 0, c, tables);
          done := TryAsync(c, tables);
        }
        if done {
          Set(c, Received(Noted(table[c], SENDA, false)));
          return OK;
        }
        assert Kin(s.procs[c], view.procs[c]);
      }
      r := FromQueue(c, srcE);
    }

    method MiniReceive(c: nat, srcE: Endpoint, tables: Tables) returns (r: Result)
      requires Valid() && Inv(view) && c < NSLOTS && (srcE == ANY || Slot(srcE))
      requires table[c].sending || Runnable(view, c)
      modifies this`view, table, callerQ, qLink
      ensures Valid() && (view, r) == IpcState.MiniReceive(old(view), c, srcE, tables)
    {
      hide ProcOk, Meets, QueueOk, AllEnd, Linked, IpcState.FromAsync, IpcState.Block, Handed;
      if srcE.Ep? && table[srcE.slot].noEndpoint {
        return EDEADSRCDST;
      }
      if !table[c].sending {
        if !table[c].replyPend {
          var q := Pending(table[c].notify, srcE);
          if q != NSLOTS {
            var source, taken := table[q].endpoint, table[c].(notify := table[c].notify - {q});
            HandedKin(taken, source, Notification(source), NOTIFY, false);
            Set(c, Received(Handed(taken, source, Notification(source), NOTIFY, false)));
            return OK;
          }
        }
        r := FromAsync(c, srcE, tables);
      } else {
        r := Block(c, srcE);
      }
    }

    // ----------------------------------------------------------- do_sync_ipc

    method SendRec(c: nat, e: Endpoint, m: Message, tables: Tables, copied: bool) returns (r: Result)
      requires Valid() && Inv(view) && Runnable(view, c) && LinkFree(view, c, e, copied) && table[c].replyPend
      requires Live(view, e) && e.slot != c
      modifies this`view, table, callerQ, qLink
      ensures Valid() && (view, r) == IpcState.SendRec(old(view), c, e, m, tables, copied)
    {
      hide ProcOk, BitsOk, Meets, QueueOk, AllEnd, Linked, IpcState.MiniReceive, IpcState.Deadlock;
      ghost var s := view;
      SendKeeps(view, c, e, m, false, false, copied);
      r := MiniSend(c, e, m, false, false, copied);
      if r == OK {
        if WillReceive(s.procs[e.slot], s.procs[c].endpoint) { WokenIdle(s, c, e, m, copied); }
        r := MiniReceive(c, e, tables);
      }
    }

    /** The checks come first, then the call. */
    method DoSyncIpc(c: nat, call: Call, e: Endpoint, m: Message, tables: Tables, copied: bool) returns (r: Result)
      requires Valid() && Inv(view) && Runnable(view, c) && MayQueue(view, c, call, e, copied)
      modifies this`view, table, callerQ, qLink
      ensures Valid() && (view, r) == IpcState.DoSyncIpc(old(view), c, call, e, m, tables, copied)
      ensures r == OK || view != old(view) ==> old(IpcRights.Permits(view, c, call, e))
    {
      hide Meets, QueueOk, AllEnd, Linked, IpcState.MiniReceive, IpcState.MiniSend, IpcState.MiniNotify,
           IpcState.SendRec, IpcRights.Permits;
      IpcRights.MustPermit(view, c, call, e, m, tables, copied);
      assert BitsOk(view, c) && ProcOk(view, c);
      var caller := table[c];
      if e == ANY {
        if call != RECEIVE {
          return EINVAL;
        }
      } else {
        if !(e.Ep? && e.slot < NSLOTS && !table[e.slot].free && table[e.slot].endpoint == e) {
          return EDEADSRCDST;
        }
        if call != RECEIVE && e.slot !in caller.ipcTo {
          return ECALLDENIED;
        }
      }
      if call !in caller.traps {
        return ETRAPDENIED;
      }
      if call != SENDREC && call != RECEIVE && e.slot < NR_TASKS {
        return ETRAPDENIED;
      }
      match call {
        case SEND =>
          r := MiniSend(c, e, m, false, false, copied);
        case SENDREC =>
          PutIdle(view, c, caller.(replyPend := true));
          SameLink(view, c, e, copied);
          Set(c, caller.(replyPend := true));
          r := SendRec(c, e, m, tables, copied);
        case RECEIVE =>
          var x := caller.(replyPend := false, status := {}, kernelStatus := false);
          PutIdle(view, c, x);
          Set(c, x);
          r := MiniReceive(c, e, tables);
        case NOTIFY =>
          r := MiniNotify(c, e);
        case SENDNB =>
          r := MiniSend(c, e, m, true, false, copied);
        case SENDA =>
          r := EBADCALL;
      }
    }

    // ------------------------------------------------------------------ fork

    /** do_fork: everything is copied, also the head of the parent's callers. */
    method Fork(e: Endpoint, slot: nat, user: Rights) returns (r: Result)
      requires Valid() && Inv(view) && slot < NSLOTS
      modifies this`view, table, callerQ, qLink
      ensures Valid() && (view, r) == IpcFork.Fork(old(view), e, slot, user)
      ensures r == OK <==> old(Live(view, e) && view.procs[e.slot].receiving && view.procs[slot].free)
      ensures r == OK ==> Slot(e) && (Inv(view) <==> old(Quiet(view, e)))
      ensures r == OK ==>
        var was, e' := old(view.procs[slot].endpoint), view.procs[slot].endpoint;
        && was.Ep? && e' == Ep(slot, if was.gen + 1 < MAX_GENERATION then was.gen + 1 else 1)
        && Live(view, e') && !Live(view, was)
    {
      hide ProcOk, BitsOk, Meets, QueueOk, AllEnd, Linked, Child;
      IpcGenerations.ForkResult(view, e, slot, user);
      if IpcFork.Fork(view, e, slot, user).1 == OK { IpcGenerations.ForkGives(view, e, slot, user); }
      ForkKeepsIff(view, e, slot, user);
      if !e.Ep? || e.slot >= NSLOTS || table[e.slot].free || table[e.slot].endpoint != e || !table[slot].free {
        return EINVAL;
      }
      if !table[e.slot].receiving {
        return EINVAL;
      }
      LinkCopy(callerQ[..], qLink[..], view, e, slot, user);
      table[slot] := Child(table[e.slot], slot, NextGeneration(table[slot].endpoint), user);
      callerQ[slot] := callerQ[e.slot];
      qLink[slot] := qLink[e.slot];
      view := IpcFork.Fork(view, e, slot, user).0;
      return OK;
    }

    // ------------------------------------------------------------------ exit

    /** clear_ipc: the link of `rc` itself is not reset. */
    method ClearIpc(rc: nat)
      requires Valid() && Local(view) && rc < NSLOTS
      modifies this`view, table, callerQ, qLink
      ensures Valid() && view == IpcClear.ClearIpc(old(view), rc)
    {
      hide BitsOk, Meets, Linked;
      var x := table[rc];
      assert ProcOk(view, rc);
      ghost var s' := IpcClear.ClearIpc(view, rc);
      if x.sending {
        var d := x.sendto.slot;
        ghost var queue := view.queue[d];
        assert QueueOk(view, d);
        var prev, cur := FindPlace(d, rc);
        ghost var i := Place(queue, rc, 0);
        Unlink(d, prev, rc, false, i, s');
      } else {
        LinkSame(callerQ[..], qLink[..], view, s');
      }
      table[rc] := Unblocked(x);
      view := s';
    }

    /** Where `p`, which is there, is in the queue of `d`. */
    method FindPlace(d: nat, p: nat) returns (prev: int, cur: int)
      requires Valid() && Local(view) && d < NSLOTS && p in view.queue[d]
      ensures
        var i := Place(view.queue[d], p, 0);
        i < |view.queue[d]| && cur == p && prev == if i == 0 then NULL else view.queue[d][i - 1]
    {
      hide ProcOk, BitsOk, Meets;
      ghost var queue := view.queue[d];
      assert QueueOk(view, d);
      assert forall j :: 0 <= j < |queue| ==> queue[j] in queue;
      ghost var i := 0;
      prev, cur := NULL, callerQ[d];
      while cur != NULL
        invariant 0 <= i <= |queue| && cur == At(queue, i) && prev == if i == 0 then NULL else queue[i - 1]
        invariant Place(queue, p, 0) == Place(queue, p, i)
        decreases |queue| - i
      {
        if cur == p {
          return;
        }
        assert LinkAt(qLink[..], queue, i);
        prev, cur, i := cur, qLink[cur], i + 1;
      }
    }

    method CancelAsync(q: nat, rc: nat, tables: Tables)
      requires Valid() && q < NSLOTS && rc < NSLOTS
      modifies this`view, table
      ensures Valid() && view == IpcClear.CancelAsync(old(view), q, rc, tables)
    {
      hide Linked, IpcState.MiniNotify;
      if table[q].sysProc {
        var source := table[q].endpoint;
        Set(rc, table[rc].(asyn := table[rc].asyn - {q}));
        if tables(q).tell {
          var told := MiniNotify(ASYNCM, source);
        }
      }
    }

    method CancelAll(rc: nat, tables: Tables)
      requires Valid() && Inv(view) && rc < NSLOTS && Idle(table[rc])
      requires BitsOk(view, rc)
      modifies this`view, table
      ensures Valid() && view == IpcClear.CancelAll(old(view), rc, tables)
    {
      hide ProcOk, Meets, QueueOk, AllEnd, Linked, IpcClear.CancelAsync;
      var q := Pending(table[rc].asyn, ANY);
      while q != NSLOTS
        invariant Valid() && Inv(view) && Idle(table[rc]) && BitsOk(view, rc)
        invariant q == HasPending(table[rc].asyn, ANY)
        invariant IpcClear.CancelAll(old(view), rc, tables) == IpcClear.CancelAll(view, rc, tables)
        decreases |table[rc].asyn|
      {
        CancelKeeps(view, q, rc, tables);
        CancelLess(view, q, rc, tables);
        CancelAsync(q, rc, tables);
        q := Pending(table[rc].asyn, ANY);
      }
    }

    method DropRef(rc: nat, p: nat)
      requires Valid() && Inv(view) && rc < NSLOTS && p < NSLOTS
      modifies this`view, table, callerQ, qLink
      ensures Valid() && view == IpcClear.DropRef(old(view), rc, p)
    {
      hide ProcOk, BitsOk, Meets, QueueOk, AllEnd, Linked, Dropped, IpcClear.ClearIpc;
      var x := table[p];
      if !x.free {
        DroppedKin(x, rc);
        if BlockedOn(x) == table[rc].endpoint {
          var z := Dropped(x, rc).(ret := EDEADSRCDST);
          LessBits(view, rc, p, z);
          Set(p, z);
          ClearIpc(p);
        } else {
          Set(p, Dropped(x, rc));
        }
      }
    }

    method ClearIpcRefs(rc: nat, tables: Tables)
      requires Valid() && Inv(view) && rc < NSLOTS && Idle(table[rc]) && BitsOk(view, rc)
      modifies this`view, table, callerQ, qLink
      ensures Valid() && view == IpcClear.ClearIpcRefs(old(view), rc, tables)
    {
      hide ProcOk, BitsOk, Meets, QueueOk, AllEnd, Linked, IpcClear.CancelAll, IpcClear.DropRef;
      CancelAllKeeps(view, rc, tables);
      CancelAll(rc, tables);
      var p := 0;
      while p < NSLOTS
        invariant p <= NSLOTS && Valid() && Inv(view)
        invariant ScanRefs(IpcClear.CancelAll(old(view), rc, tables), rc, 0) == ScanRefs(view, rc, p)
      {
        DropKeeps(view, rc, p);
        DropRef(rc, p);
        p := p + 1;
      }
    }

    /** clear_endpoint, and with it all that it promises.  The flag is set after
        clear_ipc instead of before it, which comes to the same (EndpointFirst). */
    method ClearEndpoint(rc: nat, tables: Tables)
      requires Valid() && Inv(view) && rc < NSLOTS && BitsOk(view, rc)
      modifies this`view, table, callerQ, qLink
      ensures Valid() && view == IpcClear.ClearEndpoint(old(view), rc, tables)
      ensures Inv(view) && Departed(view, rc)
    {
      hide ProcOk, Meets, QueueOk, AllEnd, Linked, IpcClear.ClearIpc, IpcClear.ClearIpcRefs, Departed;
      ClearEndpointDeparts(view, rc, tables);
      EndpointFirst(view, rc);
      ClearIpcKeeps(view, rc);
      NoEndpointKeeps(IpcClear.ClearIpc(view, rc), rc);
      ClearIpc(rc);
      Set(rc, table[rc].(noEndpoint := true));
      assert BitsOk(view, rc);
      ClearIpcRefs(rc, tables);
    }
  }
}
