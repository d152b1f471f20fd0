/** Message passing of the MINIX kernel (uniprocessor): the process table as a
    value, and SEND, RECEIVE, SENDREC, NOTIFY, SENDNB and SENDA as functions of
    it.  Slots are counted from 0, kernel tasks first; a process's privilege
    id is its slot. */
module IpcState {
  import opened Common

  const NR_TASKS: nat := 5
  const NR_PROCS: nat := 256
  const NSLOTS: nat := NR_TASKS + NR_PROCS

  /** The pseudo-source of notifications that an asynchronous send is done. */
  const ASYNCM: nat := 0

  const NOTIFY_MESSAGE: int := 0x1000

  datatype Endpoint = ANY | NONE | Ep(slot: nat, gen: nat)

  datatype Call = SEND | RECEIVE | SENDREC | NOTIFY | SENDNB | SENDA

  datatype Message = Message(source: Endpoint, mtype: int, body: int)

  datatype Result =
    OK | EDEADSRCDST | ELOCKED | ENOTREADY | EFAULT | EINVAL | ECALLDENIED | ETRAPDENIED | EBADCALL | EPERM

  /** The message-passing part of struct proc and struct priv.  `sending`,
      `receiving`, `noEndpoint` and `free` are run-time flags, `replyPend`,
      `deliver` and `fromKernel` misc flags; `notify` and `asyn` are the pending
      bitmaps. */
  datatype Proc = Proc(
    endpoint: Endpoint,
    free: bool, noEndpoint: bool, sending: bool, receiving: bool,
    replyPend: bool, deliver: bool, fromKernel: bool,
    getfrom: Endpoint, sendto: Endpoint,
    sendmsg: Message, delivermsg: Message,
    status: set<Call>, kernelStatus: bool, ret: Result,
    notify: set<nat>, asyn: set<nat>,
    sysProc: bool, ipcTo: set<nat>, traps: set<Call>)

  /** The table, the queue of callers of each process in order of arrival, and
      the processes that are on no queue but still have a p_q_link. */
  datatype State = State(procs: seq<Proc>, queue: seq<seq<nat>>, stale: set<nat>)

  predicate Shaped(s: State) {
    |s.procs| == NSLOTS && |s.queue| == NSLOTS
  }

  predicate Slot(e: Endpoint) {
    e.Ep? && e.slot < NSLOTS
  }

  /** isokendpt */
  predicate Live(s: State, e: Endpoint)
    requires |s.procs| == NSLOTS
  {
    Slot(e) && !s.procs[e.slot].free && s.procs[e.slot].endpoint == e
  }

  /** P_BLOCKEDON */
  function BlockedOn(p: Proc): Endpoint {
    if p.sending then p.sendto else if p.receiving then p.getfrom else NONE
  }

  predicate Accepts(getfrom: Endpoint, source: Endpoint) {
    getfrom == ANY || getfrom == source
  }

  /** WILLRECEIVE */
  predicate WillReceive(p: Proc, source: Endpoint) {
    p.receiving && !p.sending && Accepts(p.getfrom, source)
  }

  /** A slot as the source of a receive from `srcE`. */
  predicate Wanted(srcE: Endpoint, q: nat) {
    srcE == ANY || (srcE.Ep? && srcE.slot == q)
  }

  function Put(s: State, p: nat, x: Proc): State
    requires p < |s.procs|
  {
    s.(procs := s.procs[p := x])
  }

  // ---------------------------------------------------------------- deadlock

  /** The walk of `deadlock` along the endpoints processes are blocked on, over
      at most `fuel` processes; the size of the group found, or 0. */
  function Walk(s: State, call: Call, caller: Endpoint, e: Endpoint, size: nat, fuel: nat): nat
    requires |s.procs| == NSLOTS
    decreases fuel
  {
    if !Slot(e) || fuel == 0 then 0
    else
      var xp := s.procs[e.slot];
      var next := BlockedOn(xp);
      if next == NONE then 0
      else if next == caller then
        // Of two processes, a SEND against a RECEIVE is not a deadlock.
        if size == 1 && xp.sending != (call == SEND) then 0 else size + 1
      else Walk(s, call, caller, next, size + 1, fuel - 1)
  }

  function Deadlock(s: State, call: Call, caller: nat, e: Endpoint): nat
    requires |s.procs| == NSLOTS && caller < NSLOTS
  {
    Walk(s, call, s.procs[caller].endpoint, e, 1, NSLOTS)
  }

  // --------------------------------------------------------------- mini_send

  /** IPC_STATUS_ADD_CALL and IPC_STATUS_ADD_FLAGS. */
  function Noted(p: Proc, call: Call, kernel: bool): Proc {
    if p.replyPend then p else p.(status := p.status + {call}, kernelStatus := p.kernelStatus || kernel)
  }

  /** A message for a process. */
  function Handed(dst: Proc, source: Endpoint, m: Message, call: Call, kernel: bool): Proc {
    Noted(dst, call, kernel).(delivermsg := m.(source := source), deliver := true)
  }

  /** The same for a process that was blocked waiting for it. */
  function Woken(dst: Proc, source: Endpoint, m: Message, call: Call, kernel: bool): Proc {
    Handed(dst, source, m, call, kernel).(replyPend := false, receiving := false)
  }

  /** The caller of a send that has to wait. */
  function Waiting(caller: Proc, dstE: Endpoint, m: Message, kernel: bool): Proc {
    caller.(sendmsg := m, fromKernel := caller.fromKernel || kernel, sending := true, sendto := dstE)
  }

  function Enqueued(s: State, c: nat, d: nat): State
    requires d < |s.queue|
  {
    s.(queue := s.queue[d := s.queue[d] + [c]])
  }

  /** mini_send.  `copied` says whether the message could be read from user
      memory. */
  function MiniSend(s: State, c: nat, dstE: Endpoint, m: Message, nonBlocking: bool, kernel: bool,
      copied: bool): (r: (State, Result))
    requires Shaped(s) && c < NSLOTS && Slot(dstE)
    ensures Shaped(r.0)
  {
    var d := dstE.slot;
    var caller, dst := s.procs[c], s.procs[d];
    if dst.noEndpoint then (s, EDEADSRCDST)
    else if WillReceive(dst, caller.endpoint) then
      if !kernel && !copied then (s, EFAULT)
      else
        var call := if caller.replyPend then SENDREC else if nonBlocking then SENDNB else SEND;
        (Put(s, d, Woken(dst, caller.endpoint, m, call, kernel)), OK)
    else if nonBlocking then (s, ENOTREADY)
    else if Deadlock(s, SEND, c, dstE) != 0 then (s, ELOCKED)
    else if !kernel && !copied then (s, EFAULT)
    else (Enqueued(Put(s, c, Waiting(caller, dstE, m, kernel)), c, d), OK)
  }

  // ------------------------------------------------------------- mini_notify

  function Notification(source: Endpoint): Message {
    Message(source, NOTIFY_MESSAGE, 0)
  }

  function MiniNotify(s: State, c: nat, dstE: Endpoint): (r: (State, Result))
    requires |s.procs| == NSLOTS && c < NSLOTS
    ensures |r.0.procs| == NSLOTS && r.0.queue == s.queue && r.0.stale == s.stale
  {
    if !Live(s, dstE) then (s, EDEADSRCDST)
    else
      var d := dstE.slot;
      var dst, source := s.procs[d], s.procs[c].endpoint;
      if WillReceive(dst, source) && !dst.replyPend then
        (Put(s, d, Woken(dst, source, Notification(source), NOTIFY, false)), OK)
      else (Put(s, d, dst.(notify := dst.notify + {c})), OK)
  }

  // -------------------------------------------------------------- mini_senda

  /** One entry of an asynchronous send table.  Unlike the other deliveries it
      leaves MF_REPLY_PEND as it is. */
  function SendAsync(s: State, c: nat, dstE: Endpoint, m: Message, noReply: bool): (State, Result)
    requires |s.procs| == NSLOTS && c < NSLOTS
  {
    if !s.procs[c].sysProc then (s, EPERM)
    else if !Live(s, dstE) then (s, EDEADSRCDST)
    else
      var d := dstE.slot;
      var dst, caller := s.procs[d], s.procs[c];
      if d < NR_TASKS || d !in caller.ipcTo then (s, ECALLDENIED)
      else if dst.noEndpoint then (s, EDEADSRCDST)
      else if WillReceive(dst, caller.endpoint) && (!noReply || !dst.replyPend) then
        (Put(s, d, Handed(dst, caller.endpoint, m, SENDA, false).(receiving := false)), OK)
      else (Put(s, d, dst.(asyn := dst.asyn + {c})), OK)
  }

  // ------------------------------------------------------------ mini_receive

  /** The lowest bit set from `i` on, or NSLOTS. */
  function FirstBit(bits: set<nat>, i: nat): (q: nat)
    requires i <= NSLOTS
    ensures i <= q <= NSLOTS && (q < NSLOTS ==> q in bits) && forall r :: i <= r < q ==> r !in bits
    decreases NSLOTS - i
  {
    if i == NSLOTS || i in bits then i else FirstBit(bits, i + 1)
  }

  /** has_pending */
  function HasPending(bits: set<nat>, srcE: Endpoint): (q: nat)
    ensures q <= NSLOTS && (q < NSLOTS ==> q in bits && Wanted(srcE, q))
    ensures q == NSLOTS ==> forall r :: 0 <= r < NSLOTS && Wanted(srcE, r) ==> r !in bits
    ensures srcE == ANY ==> forall r :: 0 <= r < q ==> r !in bits
  {
    if srcE.Ep? then if Slot(srcE) && srcE.slot in bits then srcE.slot else NSLOTS
    else if srcE == ANY then FirstBit(bits, 0)
    else NSLOTS
  }

  /** What the table of an asynchronous sender, in its own memory, holds for
      the receiver: a message or none, whether an entry is left for later, and
      whether the sender asked to be told. */
  datatype Entry = Entry(msg: Option<Message>, again: bool, tell: bool)

  type Tables = nat -> Entry

  /** The receiver after a look at the table of `q`. */
  function Tried(caller: Proc, q: nat, source: Endpoint, e: Entry): Proc {
    var bits := if e.again then caller.asyn + {q} else caller.asyn - {q};
    if e.msg.Some? then caller.(delivermsg := e.msg.value.(source := source), deliver := true, asyn := bits)
    else caller.(asyn := bits)
  }

  /** try_one: an asynchronous message of `q` for `c`; also whether there was one. */
  function TryOne(s: State, q: nat, c: nat, tables: Tables): (r: (State, bool))
    requires |s.procs| == NSLOTS && c < NSLOTS && q < NSLOTS
    ensures |r.0.procs| == NSLOTS && r.0.queue == s.queue && r.0.stale == s.stale
  {
    if !s.procs[q].sysProc then (s, false)
    else
      var e, source := tables(q), s.procs[q].endpoint;
      var s1 := Put(s, c, Tried(s.procs[c], q, source, e));
      (if e.tell then MiniNotify(s1, ASYNCM, source).0 else s1, e.msg.Some?)
  }

  /** try_async: all pending senders from slot `q` on, until one has a message. */
  function TryAsync(s: State, q: nat, c: nat, tables: Tables): (r: (State, bool))
    requires |s.procs| == NSLOTS && c < NSLOTS && q <= NSLOTS
    ensures |r.0.procs| == NSLOTS && r.0.queue == s.queue && r.0.stale == s.stale
    decreases NSLOTS - q
  {
    if q == NSLOTS then (s, false)
    else if q !in s.procs[c].asyn then TryAsync(s, q + 1, c, tables)
    else
      var (s1, done) := TryOne(s, q, c, tables);
      if done then (s1, true) else TryAsync(s1, q + 1, c, tables)
  }

  /** The position of the first caller in the queue that is wanted, or the length. */
  function FirstWanted(queue: seq<nat>, srcE: Endpoint, i: nat): (r: nat)
    requires i <= |queue|
    ensures i <= r <= |queue| && (r < |queue| ==> Wanted(srcE, queue[r]))
    ensures forall j :: i <= j < r ==> !Wanted(srcE, queue[j])
    decreases |queue| - i
  {
    if i == |queue| || Wanted(srcE, queue[i]) then i else FirstWanted(queue, srcE, i + 1)
  }

  /** A waiting caller whose message was taken. */
  function Released(sender: Proc): Proc {
    sender.(sending := false, fromKernel := false)
  }

  /** A receiver that got its message at once. */
  function Received(p: Proc): Proc {
    p.(replyPend := false)
  }

  /** Take the message of the i-th caller of `c`. */
  function TakeFrom(s: State, c: nat, i: nat): State
    requires Shaped(s) && c < NSLOTS && i < |s.queue[c]| && s.queue[c][i] < NSLOTS
  {
    var q := s.queue[c][i];
    var sender := s.procs[q];
    var call := if sender.replyPend then SENDREC else SEND;
    var s1 := Put(s, q, Released(sender));
    var s2 := Put(s1, c, Received(Handed(s1.procs[c], sender.endpoint, sender.sendmsg, call, sender.fromKernel)));
    s2.(queue := s.queue[c := s.queue[c][..i] + s.queue[c][i + 1..]])
  }

  /** The last part of mini_receive: no message is there, so block. */
  function Block(s: State, c: nat, srcE: Endpoint): (State, Result)
    requires |s.procs| == NSLOTS && c < NSLOTS
  {
    if Deadlock(s, RECEIVE, c, srcE) != 0 then (s, ELOCKED)
    else (Put(s, c, s.procs[c].(getfrom := srcE, receiving := true)), OK)
  }

  /** The part before it, for a caller that is not still sending. */
  function FromQueue(s: State, c: nat, srcE: Endpoint): (r: (State, Result))
    requires Shaped(s) && c < NSLOTS
    ensures Shaped(r.0)
  {
    var i := FirstWanted(s.queue[c], srcE, 0);
    if i < |s.queue[c]| && s.queue[c][i] < NSLOTS then (TakeFrom(s, c, i), OK) else Block(s, c, srcE)
  }

  function FromAsync(s: State, c: nat, srcE: Endpoint, tables: Tables): (r: (State, Result))
    requires Shaped(s) && c < NSLOTS
    ensures Shaped(r.0)
  {
    var q := HasPending(s.procs[c].asyn, srcE);
    if q == NSLOTS then FromQueue(s, c, srcE)
    else
      var (s1, done) := if srcE.Ep? then TryOne(s, q, c, tables) else TryAsync(s, 0, c, tables);
      if done then (Put(s1, c, Received(Noted(s1.procs[c], SENDA, false))), OK) else FromQueue(s1, c, srcE)
  }

  /** mini_receive: a pending notification (not for SENDREC), an asynchronous
      message, the first wanted caller of the queue, or else block. */
  function MiniReceive(s: State, c: nat, srcE: Endpoint, tables: Tables): (r: (State, Result))
    requires Shaped(s) && c < NSLOTS && (srcE == ANY || Slot(srcE))
    ensures Shaped(r.0)
  {
    var caller := s.procs[c];
    if srcE.Ep? && s.procs[srcE.slot].noEndpoint then (s, EDEADSRCDST)
    else if caller.sending then Block(s, c, srcE)
    else
      var q := HasPending(caller.notify, srcE);
      if !caller.replyPend && q < NSLOTS then
        var source := s.procs[q].endpoint;
        var taken := caller.(notify := caller.notify - {q});
        (Put(s, c, Received(Handed(taken, source, Notification(source), NOTIFY, false))), OK)
      else FromAsync(s, c, srcE, tables)
  }

  // ------------------------------------------------------------- do_sync_ipc

  /** The checks of do_sync_ipc before anything is done. */
  function Refused(s: State, c: nat, call: Call, e: Endpoint): Result
    requires |s.procs| == NSLOTS && c < NSLOTS
  {
    var caller := s.procs[c];
    if e == ANY && call != RECEIVE then EINVAL
    else if e != ANY && !Live(s, e) then EDEADSRCDST
    else if call != RECEIVE && e.slot !in caller.ipcTo then ECALLDENIED
    else if call !in caller.traps then ETRAPDENIED
    else if call != SENDREC && call != RECEIVE && e.slot < NR_TASKS then ETRAPDENIED
    else OK
  }

  function DoSyncIpc(s: State, c: nat, call: Call, e: Endpoint, m: Message, tables: Tables,
      copied: bool): (r: (State, Result))
    requires Shaped(s) && c < NSLOTS
    ensures Shaped(r.0)
  {
    var no := Refused(s, c, call, e);
    var caller := s.procs[c];
    if no != OK then (s, no)
    else match call
      case SEND => MiniSend(s, c, e, m, false, false, copied)
      case SENDREC => SendRec(Put(s, c, caller.(replyPend := true)), c, e, m, tables, copied)
      case RECEIVE =>
        MiniReceive(Put(s, c, caller.(replyPend := false, status := {}, kernelStatus := false)), c, e, tables)
      case NOTIFY => MiniNotify(s, c, e)
      case SENDNB => MiniSend(s, c, e, m, true, false, copied)
      case SENDA => (s, EBADCALL)
  }

  /** SENDREC once MF_REPLY_PEND is set: send, and if that worked receive. */
  function SendRec(s: State, c: nat, e: Endpoint, m: Message, tables: Tables, copied: bool): (r: (State, Result))
    requires Shaped(s) && c < NSLOTS && Slot(e)
    ensures Shaped(r.0)
  {
    var (s1, r) := MiniSend(s, c, e, m, false, false, copied);
    if r != OK then (s1, r) else MiniReceive(s1, c, e, tables)
  }
}
