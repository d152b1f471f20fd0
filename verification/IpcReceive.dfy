/** What a RECEIVE gets, of all that may be there for it: a notification before
    an asynchronous message before a waiting caller, and of each kind the lowest
    slot or the longest wait. */
module IpcReceive {
  import opened IpcState
  import opened IpcInvariant
  import opened IpcSteps
  import opened IpcDelivery
  import opened IpcExit
  import opened IpcReply
  import opened IpcRights
  import opened Links
  import opened WaitGraph

  /** A RECEIVE that is let through. */
  predicate MayReceive(s: State, c: nat, e: Endpoint)
    requires |s.procs| == NSLOTS
  {
    Runnable(s, c) && Permits(s, c, RECEIVE, e) && (e.Ep? ==> e.slot != c && !s.procs[e.slot].noEndpoint)
  }

  predicate NoNotification(s: State, c: nat, e: Endpoint)
    requires |s.procs| == NSLOTS && c < NSLOTS
  {
    forall q :: q in s.procs[c].notify ==> !Wanted(e, q)
  }

  /** The announced senders that are wanted have nothing in their tables. */
  ghost predicate NoEntry(s: State, c: nat, e: Endpoint, tables: Tables)
    requires |s.procs| == NSLOTS && c < NSLOTS
  {
    forall q :: q in s.procs[c].asyn && Wanted(e, q) ==> tables(q).msg.None?
  }

  /** The caller at the start of a RECEIVE. */
  function Cleared(x: Proc): Proc {
    x.(replyPend := false, status := {}, kernelStatus := false)
  }

  lemma ClearedKeeps(s: State, c: nat)
    requires Inv(s) && Runnable(s, c)
    ensures Inv(Put(s, c, Cleared(s.procs[c]))) && Runnable(Put(s, c, Cleared(s.procs[c])), c)
  {
    hide ProcOk, Meets, QueueOk;
    assert BitsOk(s, c);
    PutIdle(s, c, Cleared(s.procs[c]));
  }

  // -------------------------------------------------------------- notifications

  /** The wanted notification of the lowest slot comes first, whatever else is
      there; that bit is cleared and nothing else changes. */
  lemma NotificationFirst(s: State, c: nat, e: Endpoint, m: Message, tables: Tables, copied: bool, q: nat)
    requires Inv(s) && MayReceive(s, c, e) && q < NSLOTS && q in s.procs[c].notify && Wanted(e, q)
    requires forall r :: 0 <= r < q && r in s.procs[c].notify ==> !Wanted(e, r)
    ensures
      var (s', r) := DoSyncIpc(s, c, RECEIVE, e, m, tables, copied); var x, y := s.procs[c], s'.procs[c];
      && r == OK && s' == Put(s, c, y)
      && Idle(y) && y.deliver && y.delivermsg == Notification(s.procs[q].endpoint) && y.status == {NOTIFY}
      && y.notify == x.notify - {q} && y.asyn == x.asyn && !y.replyPend
  {
    hide Meets, QueueOk, ProcOk, BitsOk, FromAsync, Handed;
    var source := s.procs[q].endpoint;
    var taken := Cleared(s.procs[c]).(notify := s.procs[c].notify - {q});
    assert HasPending(s.procs[c].notify, e) == q;
    HandedKin(taken, source, Notification(source), NOTIFY, false);
    ReceivedFlag(taken, source, Notification(source), NOTIFY, false);
  }

  // ------------------------------------------------------- asynchronous messages

  lemma TryOneIs(s: State, q: nat, c: nat, tables: Tables)
    requires Inv(s) && Runnable(s, c) && q in s.procs[c].asyn
    ensures q < NSLOTS
    ensures
      var (s', done) := TryOne(s, q, c, tables); var x, y, e := s.procs[c], s'.procs[c], tables(q);
      && done == e.msg.Some?
      && y.asyn == (if e.again then x.asyn + {q} else x.asyn - {q})
      && (done ==> y.deliver && y.delivermsg == e.msg.value.(source := s.procs[q].endpoint) && y.status == x.status)
  {
    hide Meets, QueueOk, MiniNotify;
    assert BitsOk(s, c) && ProcOk(s, q) && ProcOk(s, c);
    var x := Tried(s.procs[c], q, s.procs[q].endpoint, tables(q));
    var s1 := Put(s, c, x);
    NotOther(s1, ASYNCM, s.procs[q].endpoint, c);
  }

  lemma NotOther(s: State, c: nat, e: Endpoint, p: nat)
    requires |s.procs| == NSLOTS && c < NSLOTS && p < NSLOTS && (e.Ep? ==> e.slot != p)
    ensures MiniNotify(s, c, e).0.procs[p] == s.procs[p]
  {
    hide Woken;
  }

  /** The scan stops at the lowest sender that has a message. */
  lemma {:induction false} TryAsyncPicks(s: State, i: nat, c: nat, tables: Tables, q: nat)
    requires Inv(s) && Runnable(s, c) && i <= q < NSLOTS && q in s.procs[c].asyn && tables(q).msg.Some?
    requires forall r :: i <= r < q && r in s.procs[c].asyn ==> tables(r).msg.None?
    ensures
      var (s', done) := TryAsync(s, i, c, tables); var y := s'.procs[c];
      && done && y.deliver && y.delivermsg == tables(q).msg.value.(source := s.procs[q].endpoint)
      && y.status == s.procs[c].status
    decreases q - i
  {
    hide ProcOk, BitsOk, Meets, QueueOk, TryOne;
    if i !in s.procs[c].asyn {
      TryAsyncPicks(s, i + 1, c, tables, q);
    } else {
      TryOneIs(s, i, c, tables);
      if i < q {
        TryOneKeeps(s, i, c, tables);
        var s1 := TryOne(s, i, c, tables).0;
        assert Kin(s.procs[q], s1.procs[q]) && Kin(s.procs[c], s1.procs[c]);
        TryAsyncPicks(s1, i + 1, c, tables, q);
      }
    }
  }

  lemma {:induction false} TryAsyncNone(s: State, i: nat, c: nat, tables: Tables)
    requires Inv(s) && Runnable(s, c) && i <= NSLOTS
    requires forall r :: i <= r < NSLOTS && r in s.procs[c].asyn ==> tables(r).msg.None?
    ensures !TryAsync(s, i, c, tables).1
    decreases NSLOTS - i
  {
    hide ProcOk, BitsOk, Meets, QueueOk, TryOne;
    if i < NSLOTS {
      if i in s.procs[c].asyn {
        TryOneIs(s, i, c, tables);
        TryOneKeeps(s, i, c, tables);
        var s1 := TryOne(s, i, c, tables).0;
        assert Kin(s.procs[c], s1.procs[c]);
        TryAsyncNone(s1, i + 1, c, tables);
      } else {
        TryAsyncNone(s, i + 1, c, tables);
      }
    }
  }

  /** Without a notification, the message of the lowest wanted sender that has
      one; the queue of callers is left alone. */
  lemma EntryNext(s: State, c: nat, e: Endpoint, m: Message, tables: Tables, copied: bool, q: nat)
    requires Inv(s) && MayReceive(s, c, e) && NoNotification(s, c, e)
    requires q in s.procs[c].asyn && q < NSLOTS && Wanted(e, q) && tables(q).msg.Some?
    requires forall r :: 0 <= r < q && r in s.procs[c].asyn && Wanted(e, r) ==> tables(r).msg.None?
    ensures
      var (s', r) := DoSyncIpc(s, c, RECEIVE, e, m, tables, copied); var y := s'.procs[c];
      && r == OK && s'.queue == s.queue && Idle(y) && y.deliver && !y.replyPend && y.status == {SENDA}
      && y.delivermsg == tables(q).msg.value.(source := s.procs[q].endpoint)
  {
    hide ProcOk, BitsOk, Meets, QueueOk, TryOne, TryAsync, FromQueue, Handed, Noted, Received;
    ClearedKeeps(s, c);
    var s0 := Put(s, c, Cleared(s.procs[c]));
    assert HasPending(s0.procs[c].notify, e) == NSLOTS;
    assert s0.procs[q].endpoint == s.procs[q].endpoint by { assert q == c ==> Kin(s.procs[c], s0.procs[c]); }
    var first := HasPending(s0.procs[c].asyn, e);
    assert first < NSLOTS;
    if e.Ep? {
      TryOneIs(s0, q, c, tables);
      TryOneKeeps(s0, q, c, tables);
      NotedStatus(TryOne(s0, q, c, tables).0.procs[c]);
    } else {
      TryAsyncPicks(s0, 0, c, tables, q);
      TryAsyncKeeps(s0, 0, c, tables);
      NotedStatus(TryAsync(s0, 0, c, tables).0.procs[c]);
    }
  }

  lemma NotedStatus(x: Proc)
    ensures
      var y := Received(Noted(x, SENDA, false));
      && (!x.replyPend ==> y.status == x.status + {SENDA})
      && !y.replyPend && y.sending == x.sending && y.receiving == x.receiving
      && y.deliver == x.deliver && y.delivermsg == x.delivermsg
  {
  }

  /** Its sender is told of that if it asked to be, and nobody else. */
  lemma SenderTold(s: State, q: nat, c: nat, tables: Tables, p: nat)
    requires Inv(s) && Runnable(s, c) && q in s.procs[c].asyn && p < NSLOTS && p != c
    ensures q < NSLOTS
    ensures TryOne(s, q, c, tables).0.procs[p] ==
      if p == q && tables(q).tell then Told(s.procs[p], s.procs[ASYNCM].endpoint) else s.procs[p]
  {
    hide Meets, QueueOk, Woken, Tried;
    assert BitsOk(s, c) && ProcOk(s, q) && ProcOk(s, c);
    TriedKin(s.procs[c], q, s.procs[q].endpoint, tables(q));
    var s1 := Put(s, c, Tried(s.procs[c], q, s.procs[q].endpoint, tables(q)));
    assert s1.procs[q] == s.procs[q] && Live(s1, s.procs[q].endpoint);
    assert s1.procs[ASYNCM].endpoint == s.procs[ASYNCM].endpoint;
  }

  // -------------------------------------------------------------------- callers

  /** Nothing was got from the tables. */
  lemma NoneThere(s: State, c: nat, e: Endpoint, tables: Tables)
    requires Inv(s) && Runnable(s, c) && (e == ANY || Live(s, e)) && NoEntry(s, c, e, tables)
    ensures
      exists s1 :: After(s, s1, c) && FromAsync(s, c, e, tables) == FromQueue(s1, c, e)
  {
    hide ProcOk, BitsOk, Meets, QueueOk, TryOne, TryAsync, FromQueue, After, NoEntry;
    var q := HasPending(s.procs[c].asyn, e);
    if q == NSLOTS {
      AfterSelf(s, c);
    } else if e.Ep? {
      TryOneIs(s, q, c, tables);
      assert tables(q).msg.None? by { EntryNone(s, c, e, tables, q); }
      AfterOne(s, q, c, tables);
    } else {
      forall r | 0 <= r < NSLOTS && r in s.procs[c].asyn ensures tables(r).msg.None? { EntryNone(s, c, e, tables, r); }
      TryAsyncNone(s, 0, c, tables);
      AfterAll(s, c, tables);
    }
  }

  lemma EntryNone(s: State, c: nat, e: Endpoint, tables: Tables, q: nat)
    requires |s.procs| == NSLOTS && c < NSLOTS && NoEntry(s, c, e, tables) && q in s.procs[c].asyn && Wanted(e, q)
    ensures tables(q).msg.None?
  {
  }

  /** After a look at tables with nothing in them: the queues are the same, the
      caller has lost at most bits, and those who send go on sending. */
  ghost predicate After(s: State, s1: State, c: nat) {
    && Inv(s1) && KinAll(s, s1) && s1.queue == s.queue && c < NSLOTS && OnlyAsyn(s.procs[c], s1.procs[c])
    && forall p :: 0 <= p < NSLOTS && p != c ==> Kept(s.procs[p], s1.procs[p])
  }

  lemma AfterSelf(s: State, c: nat)
    requires Inv(s) && c < NSLOTS
    ensures After(s, s, c)
  {
    forall p | 0 <= p < NSLOTS ensures Kept(s.procs[p], s.procs[p]) { KeptSelf(s.procs[p]); }
  }

  lemma AfterOne(s: State, q: nat, c: nat, tables: Tables)
    requires Inv(s) && Runnable(s, c) && q in s.procs[c].asyn && q < NSLOTS && tables(q).msg.None?
    ensures After(s, TryOne(s, q, c, tables).0, c)
  {
    hide ProcOk, BitsOk, Meets, QueueOk, TryOne, Kept;
    TryOneIs(s, q, c, tables);
    TryOneKeeps(s, q, c, tables);
    forall p | 0 <= p < NSLOTS && p != c ensures Kept(s.procs[p], TryOne(s, q, c, tables).0.procs[p]) {
      TryOneOthers(s, q, c, tables, p);
    }
  }

  lemma AfterAll(s: State, c: nat, tables: Tables)
    requires Inv(s) && Runnable(s, c) && !TryAsync(s, 0, c, tables).1
    ensures After(s, TryAsync(s, 0, c, tables).0, c)
  {
    hide ProcOk, BitsOk, Meets, QueueOk, TryAsync, Kept;
    TryAsyncKeeps(s, 0, c, tables);
    forall p | 0 <= p < NSLOTS && p != c ensures Kept(s.procs[p], TryAsync(s, 0, c, tables).0.procs[p]) {
      TryAsyncOthers(s, 0, c, tables, p);
    }
  }

  /** Without either, the wanted caller that has waited longest: its message
      unchanged but for the source, and only it leaves the queue. */
  lemma CallerLast(s: State, c: nat, e: Endpoint, m: Message, tables: Tables, copied: bool, i: nat)
    requires Inv(s) && MayReceive(s, c, e) && NoNotification(s, c, e) && NoEntry(s, c, e, tables)
    requires i < |s.queue[c]| && Wanted(e, s.queue[c][i]) && forall j :: 0 <= j < i ==> !Wanted(e, s.queue[c][j])
    ensures
      var (s', r) := DoSyncIpc(s, c, RECEIVE, e, m, tables, copied); var q := s.queue[c][i];
      && r == OK && q < NSLOTS && s'.queue == s.queue[c := Without(s.queue[c], i)]
      && Holds(s.procs[q], s'.procs[c]) && Idle(s'.procs[c]) && !s'.procs[q].sending && !s'.procs[q].fromKernel
  {
    hide ProcOk, BitsOk, Meets, QueueOk, FromAsync, FromQueue, Handed, NoEntry, Without;
    ClearedKeeps(s, c);
    var s0 := Put(s, c, Cleared(s.procs[c]));
    assert HasPending(s0.procs[c].notify, e) == NSLOTS;
    assert NoEntry(s0, c, e, tables) by { SameEntries(s, s0, c, e, tables); }
    NoneThere(s0, c, e, tables);
    var s1 :| After(s0, s1, c) && FromAsync(s0, c, e, tables) == FromQueue(s1, c, e);
    TakesCaller(s1, c, e, i);
    assert s.queue[c][i] != c;
    var q := s.queue[c][i];
    assert Kept(s0.procs[q], s1.procs[q]) && Kin(s0.procs[q], s1.procs[q]);
    Sender(s, c, i);
  }

  lemma SameEntries(s: State, s0: State, c: nat, e: Endpoint, tables: Tables)
    requires |s.procs| == |s0.procs| == NSLOTS && c < NSLOTS
    requires NoEntry(s, c, e, tables) && s0.procs[c].asyn == s.procs[c].asyn
    ensures NoEntry(s0, c, e, tables)
  {
  }

  lemma Sender(s: State, c: nat, i: nat)
    requires Inv(s) && c < NSLOTS && i < |s.queue[c]|
    ensures s.queue[c][i] < NSLOTS && s.procs[s.queue[c][i]].sending
  {
    assert QueueOk(s, c);
    assert s.queue[c][i] in s.queue[c];
  }

  lemma FirstIs(queue: seq<nat>, e: Endpoint, k: nat, i: nat)
    requires k <= i < |queue| && Wanted(e, queue[i]) && forall j :: k <= j < i ==> !Wanted(e, queue[j])
    ensures FirstWanted(queue, e, k) == i
  {
  }

  lemma TakesCaller(s: State, c: nat, e: Endpoint, i: nat)
    requires Inv(s) && c < NSLOTS && Idle(s.procs[c])
    requires i < |s.queue[c]| && Wanted(e, s.queue[c][i]) && forall j :: 0 <= j < i ==> !Wanted(e, s.queue[c][j])
    ensures s.queue[c][i] < NSLOTS && s.queue[c][i] != c
    ensures
      var (s', r) := FromQueue(s, c, e); var q := s.queue[c][i];
      && r == OK && s'.queue == s.queue[c := Without(s.queue[c], i)]
      && Holds(s.procs[q], s'.procs[c]) && Idle(s'.procs[c]) && !s'.procs[q].sending && !s'.procs[q].fromKernel
  {
    assert Shaped(s);
    hide Inv, Deadlock, Handed, Received, Wanted, FirstWanted;
    FirstIs(s.queue[c], e, 0, i);
    NotOwnQueue(s, c, i);
    TakeOwn(s, c, i);
    var sender := s.procs[s.queue[c][i]];
    HandedHolds(s.procs[c], sender);
  }

  lemma HandedHolds(x: Proc, sender: Proc)
    requires Idle(x)
    ensures
      var y := Received(Handed(x, sender.endpoint, sender.sendmsg, ToldOf(sender), sender.fromKernel));
      Holds(sender, y) && Idle(y)
  {
  }

  // --------------------------------------------------------------------- nothing

  /** With nothing there the caller waits for just what it named, unless the
      chain of blocked processes leads from there back to it. */
  lemma NothingThere(s: State, c: nat, e: Endpoint, m: Message, tables: Tables, copied: bool)
    requires Inv(s) && MayReceive(s, c, e) && NoNotification(s, c, e)
    requires forall q :: q in s.procs[c].asyn ==> !Wanted(e, q)
    requires forall j :: 0 <= j < |s.queue[c]| ==> !Wanted(e, s.queue[c][j])
    ensures Closed(WaitsFor(s))
    ensures
      var (s', r) := DoSyncIpc(s, c, RECEIVE, e, m, tables, copied); var y := s'.procs[c];
      && s' == Put(s, c, y)
      && r == (if e.Ep? && LeadsBack(s, RECEIVE, c, e) then ELOCKED else OK)
      && (if r == OK then y.receiving && y.getfrom == e else Idle(y)) && !y.sending && !y.replyPend && !y.deliver
  {
    hide BitsOk, Meets, QueueOk, TryOne, TryAsync, Handed, Deadlock, LeadsBack, TakeFrom;
    EdgesClosed(s);
    ClearedKeeps(s, c);
    var s0 := Put(s, c, Cleared(s.procs[c]));
    assert HasPending(s0.procs[c].notify, e) == NSLOTS && HasPending(s0.procs[c].asyn, e) == NSLOTS;
    assert FirstWanted(s0.queue[c], e, 0) == |s0.queue[c]|;
    if e.Ep? {
      DeadlockIs(s0, RECEIVE, c, e);
      SameBack(s, s0, c, e);
    } else {
      AnyFree(s0, c);
    }
  }

  lemma AnyFree(s: State, c: nat)
    requires |s.procs| == NSLOTS && c < NSLOTS
    ensures Deadlock(s, RECEIVE, c, ANY) == 0
  {
  }

  lemma SameBack(s: State, s0: State, c: nat, e: Endpoint)
    requires Inv(s) && Inv(s0) && c < NSLOTS && Slot(e) && e.slot != c && s0 == Put(s, c, Cleared(s.procs[c]))
    ensures Closed(WaitsFor(s)) && Closed(WaitsFor(s0)) && LeadsBack(s0, RECEIVE, c, e) == LeadsBack(s, RECEIVE, c, e)
  {
    EdgesClosed(s);
    EdgesClosed(s0);
    assert WaitsFor(s0) == WaitsFor(s);
  }
}
