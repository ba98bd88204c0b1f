/** The mailboxes of the workers (src/80s/80s_common.c, lines 326-380 and 397-467), the self-pipe loop
    that empties them and the hand-off of accepted sockets (src/80s/serve.epoll.c, lines 166-235): any
    number of workers and of sending threads, one lock, memory or pipe operation a step. */
module Mailbox {

  /** A hand-off of the socket accepted as number `socket`, or any other mail. */
  datatype Message = Accept(socket: nat) | Other(id: nat)

  /** The bytes that travel through a self-pipe. */
  datatype Byte = MAIL | STOP | QUIT

  datatype Job = Post(message: Message) | Control(byte: Byte)

  /** A thread inside s80_mail, or in one turn of the loop of s80_reload or s80_quit. */
  datatype Pc =
    | Out
    | Wants(to: nat, job: Job)
    | Appending(to: nat, message: Message)
    | Testing(to: nat)
    | Writing(to: nat, byte: Byte)
    | Leaving(to: nat)

  /** Where the worker is in its loop over the bytes read, or inside resolve_mail. */
  datatype Receiver =
    | Looping
    | Waiting
    | Copying
    | Emptying(batch: seq<Message>)
    | Clearing(batch: seq<Message>)
    | Releasing(batch: seq<Message>)
    | Delivering(batch: seq<Message>)

  datatype Lock = Free | BySender(thread: nat) | ByReceiver

  /** A mailbox with its worker; `loop` lists the sockets registered with the worker's epoll instance.
      `sent` and `delivered` are history. */
  datatype Box = Box(
    lock: Lock, stored: seq<Message>, signaled: bool,
    pipe: seq<Byte>, buffer: seq<Byte>, running: bool,
    receiver: Receiver, loop: seq<nat>,
    sent: seq<Message>, delivered: seq<Message>)

  /** Worker 0 accepts; `pcs[0]` is its thread. `accepts` is its round-robin counter, a local variable of
      serve. `owners` is history: for each accepted socket, the worker it was given to. */
  datatype State = State(boxes: seq<Box>, pcs: seq<Pc>, accepts: nat, owners: seq<nat>)

  // ---------- the steps ----------

  /** The next operation of thread `t`, which is busy with box `b`. */
  function Send(pc: Pc, b: Box, t: nat): (Pc, Box) {
    match pc
    case Out => (pc, b)
    case Wants(to, job) =>
      if !b.lock.Free? then (pc, b)
      else (if job.Post? then Appending(to, job.message) else Writing(to, job.byte), b.(lock := BySender(t)))
    case Appending(to, message) => (Testing(to), b.(stored := b.stored + [message], sent := b.sent + [message]))
    case Testing(to) => if b.signaled then (Leaving(to), b) else (Writing(to, MAIL), b.(signaled := true))
    case Writing(to, byte) => (Leaving(to), b.(pipe := b.pipe + [byte]))
    case Leaving(_) => (Out, b.(lock := Free))
  }

  function Socket(m: Message): seq<nat> {
    if m.Accept? then [m.socket] else []
  }

  function Sockets(messages: seq<Message>): seq<nat> {
    if messages == [] then [] else Socket(messages[0]) + Sockets(messages[1..])
  }

  /** The next operation of the worker; a read returns the first `size` bytes of the pipe. */
  function Receive(b: Box, size: nat): Box {
    match b.receiver
    case Looping =>
      if b.buffer != [] then
        match b.buffer[0] {
          case MAIL => b.(receiver := Waiting, buffer := b.buffer[1..])
          case _ => b.(running := false, buffer := b.buffer[1..])
        }
      else if b.running then
        if size <= |b.pipe| then b.(buffer := b.pipe[..size], pipe := b.pipe[size..]) else b
      else b.(running := true) // a reload calls serve again
    case Waiting => if b.lock.Free? then b.(lock := ByReceiver, receiver := Copying) else b
    case Copying => b.(receiver := Emptying(b.stored))
    case Emptying(batch) => b.(stored := [], receiver := Clearing(batch))
    case Clearing(batch) => b.(signaled := false, receiver := Releasing(batch))
    case Releasing(batch) => b.(lock := Free, receiver := Delivering(batch))
    case Delivering(batch) =>
      if batch == [] then b.(receiver := Looping)
      else b.(loop := b.loop + Socket(batch[0]), delivered := b.delivered + batch[..1], receiver := Delivering(batch[1..]))
  }

  function DoSend(s: State, t: nat): State
    requires t < |s.pcs| && s.pcs[t] != Out && s.pcs[t].to < |s.boxes|
  {
    var w := s.pcs[t].to;
    var (pc, b) := Send(s.pcs[t], s.boxes[w], t);
    s.(pcs := s.pcs[t := pc], boxes := s.boxes[w := b])
  }

  /** The worker is about to call serve again. */
  predicate Restarts(b: Box) {
    b.receiver.Looping? && b.buffer == [] && !b.running
  }

  /** Calling serve again starts worker 0's counter over. */
  function DoReceive(s: State, w: nat, size: nat): State
    requires w < |s.boxes|
  {
    s.(boxes := s.boxes[w := Receive(s.boxes[w], size)],
       accepts := if w == 0 && Restarts(s.boxes[0]) then 0 else s.accepts)
  }

  /** A thread mails something other than an accepted socket, or writes a STOP or QUIT byte. */
  ghost predicate Start(s: State, s': State, t: nat) {
    t < |s.pcs| && s.pcs[t] == Out
    && exists to: nat, job :: to < |s.boxes| && !IsHandOff(job) && job != Control(MAIL)
                              && s' == s.(pcs := s.pcs[t := Wants(to, job)])
  }

  predicate IsHandOff(job: Job) {
    job.Post? && job.message.Accept?
  }

  /** Worker 0 accepts a socket: its own share it registers itself, the others get it by mail. */
  function AcceptOne(s: State): State
    requires s.boxes != [] && s.pcs != []
  {
    var next := if s.accepts + 1 == |s.boxes| then 0 else s.accepts + 1;
    var socket := |s.owners|;
    if s.accepts == 0 then
      s.(boxes := s.boxes[0 := s.boxes[0].(loop := s.boxes[0].loop + [socket])], owners := s.owners + [0], accepts := next)
    else
      s.(pcs := s.pcs[0 := Wants(s.accepts, Post(Accept(socket)))], owners := s.owners + [s.accepts], accepts := next)
  }

  ghost predicate Init(s: State) {
    s.boxes != [] && s.pcs != [] && s.accepts == 0 && s.owners == []
    && (forall t :: 0 <= t < |s.pcs| ==> s.pcs[t] == Out)
    && forall w :: 0 <= w < |s.boxes| ==> s.boxes[w] == Box(Free, [], false, [], [], true, Looping, [], [], [])
  }

  ghost predicate Next(s: State, s': State) {
    (exists t :: Start(s, s', t))
    || (exists t: nat :: t < |s.pcs| && s.pcs[t] != Out && s.pcs[t].to < |s.boxes| && s' == DoSend(s, t))
    || (exists w: nat, size: nat :: w < |s.boxes| && s' == DoReceive(s, w, size))
    || (s.boxes != [] && s.pcs != [] && s.pcs[0] == Out && s' == AcceptOne(s))
  }

  ghost predicate IsRun(run: seq<State>) {
    run != [] && Init(run[0]) && forall i :: 0 <= i < |run| - 1 ==> Next(run[i], run[i + 1])
  }

  // ---------- one mailbox ----------

  function Mails(bytes: seq<Byte>): nat {
    if bytes == [] then 0 else (if bytes[0] == MAIL then 1 else 0) + Mails(bytes[1..])
  }

  lemma {:induction false} MailsSplit(a: seq<Byte>, b: seq<Byte>)
    ensures Mails(a + b) == Mails(a) + Mails(b)
  {
    if a == [] {
      assert a + b == b;
    } else {
      MailsSplit(a[1..], b);
      assert (a + b)[1..] == a[1..] + b;
    }
  }

  lemma {:induction false} SocketsSplit(a: seq<Message>, b: seq<Message>)
    ensures Sockets(a + b) == Sockets(a) + Sockets(b)
  {
    hide Socket;
    if a == [] {
      assert a + b == b;
    } else {
      SocketsSplit(a[1..], b);
      assert (a + b)[1..] == a[1..] + b;
      assert Sockets(a + b) == Socket(a[0]) + (Sockets(a[1..]) + Sockets(b));
    }
  }

  predicate Inside(pc: Pc) {
    pc.Appending? || pc.Testing? || pc.Writing? || pc.Leaving?
  }

  predicate ReceiverInside(r: Receiver) {
    r.Copying? || r.Emptying? || r.Clearing? || r.Releasing?
  }

  /** MAIL bytes that have been sent, or are being written, and not yet been answered by a reset of
      `signaled`. */
  function Unprocessed(b: Box, holder: Pc): nat {
    Mails(b.pipe) + Mails(b.buffer)
    + (if b.receiver.Waiting? || b.receiver.Copying? || b.receiver.Emptying? || b.receiver.Clearing? then 1 else 0)
    + (if holder.Writing? && holder.byte == MAIL then 1 else 0)
  }

  function Batch(r: Receiver): seq<Message> {
    if r.Clearing? || r.Releasing? || r.Delivering? then r.batch else []
  }

  function Undelivered(b: Box): seq<Message> {
    Batch(b.receiver) + b.stored
  }

  predicate LockOk(b: Box, holder: Pc) {
    (b.lock.ByReceiver? <==> ReceiverInside(b.receiver)) && (b.lock.BySender? <==> Inside(holder))
  }

  /** Exactly `signaled` wakeups are on their way, and stored mail has one coming. */
  predicate WakeOk(b: Box, holder: Pc) {
    Unprocessed(b, holder) == (if b.signaled then 1 else 0)
    && (b.stored != [] ==> b.signaled || holder.Testing?)
    && (b.receiver.Clearing? ==> b.stored == [])
  }

  /** Mail is delivered in the order in which it was stored. */
  predicate OrderOk(b: Box) {
    (b.receiver.Emptying? ==> b.receiver.batch == b.stored) && b.delivered + Undelivered(b) == b.sent
  }

  /** Sockets registered here, then those on their way, then one about to be mailed: the worker's share. */
  predicate ShareOk(b: Box, inHand: seq<nat>, share: seq<nat>) {
    b.loop + Sockets(Undelivered(b)) + inHand == share
  }

  /** `holder` is the thread that has the lock; `inHand` the socket that is about to be mailed here. */
  predicate BoxOk(b: Box, holder: Pc, inHand: seq<nat>, share: seq<nat>) {
    LockOk(b, holder) && WakeOk(b, holder) && OrderOk(b) && ShareOk(b, inHand, share)
  }

  function InHand(pc: Pc, w: nat): seq<nat> {
    if pc.Wants? && pc.to == w && pc.job.Post? then Socket(pc.job.message)
    else if pc.Appending? && pc.to == w then Socket(pc.message)
    else []
  }

  function Holder(lock: Lock, t: nat, pc: Pc, other: Pc): Pc {
    if lock == BySender(t) then pc else if lock.BySender? then other else Out
  }

  // ---------- one operation keeps one mailbox in order ----------

  lemma SendLock(pc: Pc, b: Box, t: nat, other: Pc)
    requires (b.lock == BySender(t) <==> Inside(pc)) && LockOk(b, Holder(b.lock, t, pc, other))
    ensures var (pc', b') := Send(pc, b, t);
            LockOk(b', Holder(b'.lock, t, pc', other)) && (b'.lock == BySender(t) <==> Inside(pc'))
            && (pc' != Out ==> pc'.to == pc.to) && (pc'.Wants? ==> pc' == pc)
            && (b'.lock == b.lock || {b.lock, b'.lock} == {Free, BySender(t)})
  {
  }

  lemma SendWakes(pc: Pc, b: Box, t: nat, other: Pc)
    requires (b.lock == BySender(t) <==> Inside(pc)) && LockOk(b, Holder(b.lock, t, pc, other))
    requires WakeOk(b, Holder(b.lock, t, pc, other)) && (pc.Wants? ==> pc.job != Control(MAIL))
    ensures var (pc', b') := Send(pc, b, t); WakeOk(b', Holder(b'.lock, t, pc', other))
  {
    if pc.Writing? { MailsSplit(b.pipe, [pc.byte]); }
    hide Mails;
    if pc.Writing? { assert Mails([pc.byte]) == if pc.byte == MAIL then 1 else 0 by { OneByte(pc.byte); } }
  }

  lemma OneByte(byte: Byte)
    ensures Mails([byte]) == if byte == MAIL then 1 else 0
  {
  }

  /** A sender's operation appends at most its own message, and lets go of it when it does. */
  lemma SendOrder(pc: Pc, b: Box, t: nat, w: nat, holder: Pc)
    requires pc != Out && pc.to == w && OrderOk(b) && (b.lock == BySender(t) <==> Inside(pc)) && LockOk(b, holder)
    ensures var (pc', b') := Send(pc, b, t);
            OrderOk(b') && b'.loop + Sockets(Undelivered(b')) + InHand(pc', w) == b.loop + Sockets(Undelivered(b)) + InHand(pc, w)
            && (InHand(pc', w) == InHand(pc, w) || InHand(pc', w) == []) && b'.loop == b.loop
            && (InHand(pc, w) == [] ==> Sockets(Undelivered(b')) == Sockets(Undelivered(b)))
  {
    hide Sockets, Socket;
    if pc.Appending? {
      var b' := Send(pc, b, t).1;
      assert Undelivered(b') == Undelivered(b) + [pc.message];
      SocketsSplit(Undelivered(b), [pc.message]);
      OneSocket(pc.message);
    }
  }

  lemma OneSocket(m: Message)
    ensures Sockets([m]) == Socket(m)
  {
  }

  lemma ReceiveLock(b: Box, size: nat, holder: Pc)
    requires LockOk(b, holder)
    ensures var b' := Receive(b, size);
            LockOk(b', holder) && (b'.lock == b.lock || {b.lock, b'.lock} == {Free, ByReceiver})
  {
  }

  lemma ReceiveWakes(b: Box, size: nat, holder: Pc)
    requires LockOk(b, holder) && WakeOk(b, holder)
    ensures WakeOk(Receive(b, size), holder)
  {
    if b.receiver.Looping? && b.buffer == [] && b.running && size <= |b.pipe| {
      MailsSplit(b.pipe[..size], b.pipe[size..]);
      assert b.pipe == b.pipe[..size] + b.pipe[size..];
    }
  }

  /** Taking the batch moves mail along, and loses or repeats none. */
  lemma TakeOrder(b: Box, size: nat)
    requires OrderOk(b) && (b.receiver.Clearing? ==> b.stored == []) && !b.receiver.Delivering?
    ensures var b' := Receive(b, size);
            OrderOk(b') && b'.loop == b.loop && Undelivered(b') == Undelivered(b)
  {
    var b' := Receive(b, size);
    hide Sockets, Socket;
    if b.receiver.Emptying? {
      assert Undelivered(b') == b.stored + [] == b.stored == [] + b.stored;
    }
  }

  lemma DeliverOrder(b: Box, size: nat, batch: seq<Message>)
    requires OrderOk(b) && b.receiver == Delivering(batch)
    ensures var b' := Receive(b, size);
            OrderOk(b') && b'.loop + Sockets(Undelivered(b')) == b.loop + Sockets(Undelivered(b))
            && |b'.loop| >= |b.loop|
  {
    hide *;
    var b' := Receive(b, size);
    Delivered(b, size, batch);
    if batch != [] {
      SocketsSplit(batch[..1], batch[1..] + b.stored);
      OneSocket(batch[0]);
      assert batch[..1] == [batch[0]];
      assert batch + b.stored == batch[..1] + (batch[1..] + b.stored);
    }
  }

  lemma Delivered(b: Box, size: nat, batch: seq<Message>)
    requires b.receiver == Delivering(batch)
    ensures Undelivered(b) == batch + b.stored
    ensures var b' := Receive(b, size);
            if batch == [] then b'.loop == b.loop && Undelivered(b') == Undelivered(b) && (OrderOk(b) ==> OrderOk(b'))
            else b'.loop == b.loop + Socket(batch[0]) && Undelivered(b') == batch[1..] + b.stored
                 && (OrderOk(b) ==> OrderOk(b'))
  {
    var b' := Receive(b, size);
    hide Sockets, Socket;
    if batch != [] {
      assert b'.delivered + Undelivered(b') == b.delivered + (batch[..1] + (batch[1..] + b.stored));
      assert batch[..1] + (batch[1..] + b.stored) == batch + b.stored;
    }
  }

  lemma ReceiveOrder(b: Box, size: nat)
    requires OrderOk(b) && (b.receiver.Clearing? ==> b.stored == [])
    ensures var b' := Receive(b, size);
            OrderOk(b') && b'.loop + Sockets(Undelivered(b')) == b.loop + Sockets(Undelivered(b))
            && |b'.loop| >= |b.loop|
  {
    hide *;
    if b.receiver.Delivering? {
      DeliverOrder(b, size, b.receiver.batch);
    } else {
      TakeOrder(b, size);
    }
  }

  // ---------- all mailboxes ----------

  function IfMine(w: nat, owner: nat, k: nat): seq<nat> {
    if owner == w then [k] else []
  }

  /** The sockets given to worker `w` so far, in order. */
  function Share(w: nat, owners: seq<nat>): seq<nat> {
    if owners == [] then []
    else
      var last := |owners| - 1;
      Share(w, owners[..last]) + IfMine(w, owners[last], last)
  }

  function HolderPc(s: State, w: nat): Pc
    requires w < |s.boxes|
  {
    var lock := s.boxes[w].lock;
    if lock.BySender? && lock.thread < |s.pcs| && s.pcs[lock.thread] != Out && s.pcs[lock.thread].to == w
    then s.pcs[lock.thread] else Out
  }

  predicate ThreadOk(s: State, t: nat)
    requires t < |s.pcs|
  {
    var pc := s.pcs[t];
    pc != Out ==>
      pc.to < |s.boxes| && (Inside(pc) <==> s.boxes[pc.to].lock == BySender(t))
      && (pc.Wants? ==> pc.job != Control(MAIL)) && (t != 0 ==> InHand(pc, pc.to) == [])
  }

  /** Worker 0 registers its sockets at once, so none is ever on its way to it. */
  predicate WorkerOk(s: State, w: nat)
    requires w < |s.boxes| && s.pcs != []
  {
    var share := Share(w, s.owners);
    BoxOk(s.boxes[w], HolderPc(s, w), InHand(s.pcs[0], w), share) && (w == 0 ==> s.boxes[w].loop == share)
  }

  ghost predicate Inv(s: State) {
    s.boxes != [] && s.pcs != [] && s.accepts < |s.boxes|
    && (forall t: nat :: t < |s.pcs| ==> ThreadOk(s, t))
    && (forall w: nat :: w < |s.boxes| ==> WorkerOk(s, w))
  }

  lemma InitInv(s: State)
    requires Init(s)
    ensures Inv(s)
  {
  }

  predicate Sends(s: State, t: nat) {
    t < |s.pcs| && s.pcs[t] != Out && s.pcs[t].to < |s.boxes|
  }

  /** Only a thread inside has the lock. */
  lemma OutsideHoldsNothing(s: State, t: nat, w: nat)
    requires w < |s.boxes| && LockOk(s.boxes[w], HolderPc(s, w)) && t < |s.pcs|
    ensures s.boxes[w].lock == BySender(t) ==> Inside(s.pcs[t]) && s.pcs[t].to == w
  {
  }

  lemma SendHolder(s: State, t: nat)
    requires Sends(s, t) && ThreadOk(s, t) && LockOk(s.boxes[s.pcs[t].to], HolderPc(s, s.pcs[t].to))
    ensures var w, s' := s.pcs[t].to, DoSend(s, t);
            HolderPc(s, w) == Holder(s.boxes[w].lock, t, s.pcs[t], HolderPc(s, w))
            && HolderPc(s', w) == Holder(s'.boxes[w].lock, t, s'.pcs[t], HolderPc(s, w))
            && (Inside(s.pcs[t]) <==> s.boxes[w].lock == BySender(t)) && ThreadOk(s', t)
  {
    var w := s.pcs[t].to;
    SendLock(s.pcs[t], s.boxes[w], t, HolderPc(s, w));
    SendHands(s.pcs[t], s.boxes[w], t, w);
    hide Send, InHand;
  }

  lemma SendHands(pc: Pc, b: Box, t: nat, w: nat)
    requires pc != Out && pc.to == w
    ensures var pc' := Send(pc, b, t).0;
            InHand(pc', w) == InHand(pc, w) || InHand(pc', w) == []
  {
  }

  lemma SendBox(s: State, t: nat)
    requires Sends(s, t) && ThreadOk(s, t) && WorkerOk(s, s.pcs[t].to)
    ensures WorkerOk(DoSend(s, t), s.pcs[t].to) && ThreadOk(DoSend(s, t), t)
  {
    var w, pc := s.pcs[t].to, s.pcs[t];
    var b, other, s' := s.boxes[w], HolderPc(s, w), DoSend(s, t);
    SendHolder(s, t);
    hide *;
    SentState(s, t);
    WorkerParts(s, w);
    MailAllowed(s, t);
    SendWakes(pc, b, t, other);
    SendLock(pc, b, t, other);
    SendOrder(pc, b, t, w, other);
    WorkerParts(s', w);
  }

  lemma MailAllowed(s: State, t: nat)
    requires t < |s.pcs| && ThreadOk(s, t)
    ensures s.pcs[t].Wants? ==> s.pcs[t].job != Control(MAIL)
    ensures t != 0 && s.pcs[t] != Out ==> InHand(s.pcs[t], s.pcs[t].to) == []
  {
  }

  lemma SentState(s: State, t: nat)
    requires Sends(s, t)
    ensures var w, s', r := s.pcs[t].to, DoSend(s, t), Send(s.pcs[t], s.boxes[s.pcs[t].to], t);
            |s'.boxes| == |s.boxes| && |s'.pcs| == |s.pcs| && s'.boxes[w] == r.1 && s'.pcs[t] == r.0
            && (t != 0 ==> s'.pcs[0] == s.pcs[0]) && s'.owners == s.owners
    ensures s.pcs[t] != Out && s.pcs[t].to < |s.boxes|
  {
  }

  lemma WorkerParts(s: State, w: nat)
    requires w < |s.boxes| && s.pcs != []
    ensures var b, share := s.boxes[w], Share(w, s.owners);
            WorkerOk(s, w) <==>
              LockOk(b, HolderPc(s, w)) && WakeOk(b, HolderPc(s, w)) && OrderOk(b)
              && b.loop + Sockets(Undelivered(b)) + InHand(s.pcs[0], w) == share && (w == 0 ==> b.loop == share)
  {
    hide LockOk, WakeOk, OrderOk, Sockets, Undelivered, InHand, Share, HolderPc;
  }

  lemma SendOtherBox(s: State, t: nat, v: nat)
    requires Sends(s, t) && v < |s.boxes| && v != s.pcs[t].to && WorkerOk(s, v)
    ensures WorkerOk(DoSend(s, t), v)
  {
    SendStays(s.pcs[t], s.boxes[s.pcs[t].to], t);
    hide Send, WakeOk, OrderOk, Sockets, Undelivered, Share;
  }

  lemma SendStays(pc: Pc, b: Box, t: nat)
    requires pc != Out
    ensures var pc' := Send(pc, b, t).0; pc' != Out ==> pc'.to == pc.to
  {
  }

  lemma SendOtherThread(s: State, t: nat, u: nat)
    requires Sends(s, t) && ThreadOk(s, t) && u < |s.pcs| && u != t && ThreadOk(s, u) && WorkerOk(s, s.pcs[t].to)
    ensures ThreadOk(DoSend(s, t), u)
  {
    SendLock(s.pcs[t], s.boxes[s.pcs[t].to], t, HolderPc(s, s.pcs[t].to));
    hide Send, WakeOk, OrderOk, Sockets, Undelivered, InHand, Share, ShareOk;
  }

  lemma SendInv(s: State, t: nat)
    requires Inv(s) && Sends(s, t)
    ensures Inv(DoSend(s, t))
  {
    var s' := DoSend(s, t);
    hide ThreadOk, WorkerOk, Send;
    forall u: nat | u < |s'.pcs| ensures ThreadOk(s', u) {
      if u == t { SendBox(s, t); } else { SendOtherThread(s, t, u); }
    }
    forall w: nat | w < |s'.boxes| ensures WorkerOk(s', w) {
      if w == s.pcs[t].to { SendBox(s, t); } else { SendOtherBox(s, t, w); }
    }
  }

  lemma ReceiveBox(s: State, w: nat, size: nat)
    requires w < |s.boxes| && s.pcs != [] && WorkerOk(s, w)
    ensures WorkerOk(DoReceive(s, w, size), w)
  {
    ReceiveLock(s.boxes[w], size, HolderPc(s, w));
    ReceiveWakes(s.boxes[w], size, HolderPc(s, w));
    ReceiveOrder(s.boxes[w], size);
    ClearingIsEmpty(s.boxes[w], HolderPc(s, w));
    HolderKept(s, w, size);
    hide Receive, LockOk, WakeOk, OrderOk, Sockets, Undelivered, InHand, Share, HolderPc;
  }

  lemma ClearingIsEmpty(b: Box, holder: Pc)
    requires WakeOk(b, holder)
    ensures b.receiver.Clearing? ==> b.stored == []
  {
  }

  lemma HolderKept(s: State, w: nat, size: nat)
    requires w < |s.boxes| && s.pcs != [] && LockOk(s.boxes[w], HolderPc(s, w))
    ensures HolderPc(DoReceive(s, w, size), w) == HolderPc(s, w)
    ensures forall t :: DoReceive(s, w, size).boxes[w].lock == BySender(t) <==> s.boxes[w].lock == BySender(t)
  {
    ReceiveLock(s.boxes[w], size, HolderPc(s, w));
    hide Receive;
  }

  lemma ReceiveInv(s: State, w: nat, size: nat)
    requires Inv(s) && w < |s.boxes|
    ensures Inv(DoReceive(s, w, size))
  {
    var s' := DoReceive(s, w, size);
    assert WorkerOk(s, w);
    HolderKept(s, w, size);
    ReceiveBox(s, w, size);
    hide Receive, BoxOk;
    forall u: nat | u < |s'.pcs| ensures ThreadOk(s', u) { assert ThreadOk(s, u); }
    forall v: nat | v < |s'.boxes| ensures WorkerOk(s', v) { assert WorkerOk(s, v); }
  }

  lemma StartInv(s: State, s': State, t: nat)
    requires Inv(s) && Start(s, s', t)
    ensures Inv(s')
  {
    hide WakeOk, OrderOk, ShareOk, Share;
    var to: nat, job :| to < |s.boxes| && !IsHandOff(job) && job != Control(MAIL)
                        && s' == s.(pcs := s.pcs[t := Wants(to, job)]);
    forall v: nat | v < |s'.boxes| ensures WorkerOk(s', v) {
      assert WorkerOk(s, v);
      OutsideHoldsNothing(s, t, v);
    }
    forall u: nat | u < |s'.pcs| ensures ThreadOk(s', u) {
      assert ThreadOk(s, u) && WorkerOk(s, to);
      OutsideHoldsNothing(s, t, to);
    }
  }

  lemma ShareGrows(w: nat, owners: seq<nat>, owner: nat)
    ensures Share(w, owners + [owner]) == Share(w, owners) + IfMine(w, owner, |owners|)
  {
    assert (owners + [owner])[..|owners|] == owners;
  }

  /** Registering a socket changes nothing else of a box. */
  lemma OnlyLoop(b: Box, loop: seq<nat>, holder: Pc)
    ensures var b' := b.(loop := loop);
            (LockOk(b', holder) <==> LockOk(b, holder)) && (WakeOk(b', holder) <==> WakeOk(b, holder))
            && (OrderOk(b') <==> OrderOk(b)) && Undelivered(b') == Undelivered(b)
  {
    hide Mails;
  }

  lemma AcceptState(s: State, w: nat)
    requires s.boxes != [] && s.pcs != [] && s.pcs[0] == Out && s.accepts < |s.boxes|
    requires w < |s.boxes| && s.boxes[w].lock != BySender(0)
    ensures var s', here := AcceptOne(s), IfMine(w, s.accepts, |s.owners|);
            |s'.boxes| == |s.boxes| && |s'.pcs| == |s.pcs| && s'.owners == s.owners + [s.accepts]
            && s'.boxes[w] == (if w == 0 then s.boxes[w].(loop := s.boxes[w].loop + here) else s.boxes[w])
            && HolderPc(s', w) == HolderPc(s, w)
            && InHand(s.pcs[0], w) == [] && InHand(s'.pcs[0], w) == if w == 0 then [] else here
  {
    assert w == 0 && s.accepts != 0 ==> s.boxes[w].loop + [] == s.boxes[w].loop;
  }

  lemma AcceptBox(s: State, w: nat)
    requires s.boxes != [] && s.pcs != [] && s.pcs[0] == Out && s.accepts < |s.boxes|
    requires w < |s.boxes| && WorkerOk(s, w) && s.boxes[w].lock != BySender(0)
    ensures WorkerOk(AcceptOne(s), w)
  {
    hide *;
    AcceptState(s, w);
    WorkerParts(s, w);
    WorkerParts(AcceptOne(s), w);
    ShareGrows(w, s.owners, s.accepts);
    OnlyLoop(s.boxes[w], AcceptOne(s).boxes[w].loop, HolderPc(s, w));
  }

  lemma AcceptThreads(s: State, u: nat)
    requires Inv(s) && s.pcs[0] == Out && u < |s.pcs|
    ensures ThreadOk(AcceptOne(s), u)
  {
    assert ThreadOk(s, u) && WorkerOk(s, s.accepts);
    OutsideHoldsNothing(s, 0, s.accepts);
    hide WakeOk, OrderOk, ShareOk, Share;
  }

  lemma AcceptInv(s: State)
    requires Inv(s) && s.pcs[0] == Out
    ensures Inv(AcceptOne(s))
  {
    var s' := AcceptOne(s);
    hide ThreadOk, WorkerOk;
    forall w: nat | w < |s'.boxes| ensures WorkerOk(s', w) {
      WorkerParts(s, w);
      OutsideHoldsNothing(s, 0, w);
      AcceptBox(s, w);
    }
    forall u: nat | u < |s'.pcs| ensures ThreadOk(s', u) { AcceptThreads(s, u); }
  }

  lemma NextInv(s: State, s': State)
    requires Inv(s) && Next(s, s')
    ensures Inv(s')
  {
    hide Inv, DoSend, DoReceive, AcceptOne;
    if t :| Start(s, s', t) {
      StartInv(s, s', t);
    } else if t: nat :| t < |s.pcs| && s.pcs[t] != Out && s.pcs[t].to < |s.boxes| && s' == DoSend(s, t) {
      SendInv(s, t);
    } else if w: nat, size: nat :| w < |s.boxes| && s' == DoReceive(s, w, size) {
      ReceiveInv(s, w, size);
    } else {
      AcceptInv(s);
    }
  }

  lemma {:induction false} RunInv(run: seq<State>, i: nat)
    requires IsRun(run) && i < |run|
    ensures Inv(run[i])
  {
    if i == 0 {
      InitInv(run[0]);
    } else {
      RunInv(run, i - 1);
      NextInv(run[i - 1], run[i]);
    }
  }

  // ---------- what follows ----------

  /** Between critical sections the MAIL bytes in the pipe, in the worker's buffer, or just taken from
      it number `signaled`, and stored mail has one. Mail is delivered once each, in lock order. */
  predicate MailSafe(b: Box) {
    (b.lock.Free? ==>
       Mails(b.pipe) + Mails(b.buffer) + (if b.receiver.Waiting? then 1 else 0) == (if b.signaled then 1 else 0)
       && (b.stored != [] ==> b.signaled))
    && Mails(b.pipe) + Mails(b.buffer) <= 1
    && b.delivered + Undelivered(b) == b.sent
  }

  lemma RunSafe(run: seq<State>, i: nat, w: nat)
    requires IsRun(run) && i < |run| && w < |run[i].boxes|
    ensures MailSafe(run[i].boxes[w])
  {
    RunInv(run, i);
    assert WorkerOk(run[i], w);
  }

  /** How often socket `k` is registered with worker `w`, on its way there, or about to be mailed there. */
  function Places(s: State, w: nat, k: nat): nat
    requires w < |s.boxes| && s.pcs != []
  {
    var b := s.boxes[w];
    multiset(b.loop)[k] + multiset(Sockets(Undelivered(b)))[k] + multiset(InHand(s.pcs[0], w))[k]
  }

  lemma {:induction false} ShareCounts(w: nat, owners: seq<nat>, k: nat)
    ensures multiset(Share(w, owners))[k] == if k < |owners| && owners[k] == w then 1 else 0
  {
    if owners != [] { ShareCounts(w, owners[..|owners| - 1], k); }
  }

  /** Every accepted socket is in one place, with the worker it was given to: registered there, on its way
      there, or about to be mailed there. */
  lemma EachSocketOnce(run: seq<State>, i: nat, k: nat, w: nat)
    requires IsRun(run) && i < |run| && w < |run[i].boxes|
    ensures run[i].pcs != []
    ensures Places(run[i], w, k) == if k < |run[i].owners| && run[i].owners[k] == w then 1 else 0
  {
    RunInv(run, i);
    assert WorkerOk(run[i], w);
    ShareCounts(w, run[i].owners, k);
  }

  /** At rest nothing is left behind: all mail is delivered and every socket registered. */
  lemma RestIsDone(run: seq<State>, i: nat, w: nat)
    requires IsRun(run) && i < |run| && w < |run[i].boxes|
    requires var b := run[i].boxes[w];
             b.lock.Free? && b.receiver.Looping? && MAIL !in b.pipe && MAIL !in b.buffer
    ensures run[i].pcs != []
    ensures var b := run[i].boxes[w];
            b.delivered == b.sent
            && b.loop + InHand(run[i].pcs[0], w) == Share(w, run[i].owners)
  {
    var b := run[i].boxes[w];
    RunInv(run, i);
    assert WorkerOk(run[i], w);
    NoMails(b.pipe);
    NoMails(b.buffer);
    assert Undelivered(b) == [];
  }

  lemma {:induction false} NoMails(bytes: seq<Byte>)
    requires MAIL !in bytes
    ensures Mails(bytes) == 0
  {
    if bytes != [] { NoMails(bytes[1..]); }
  }

  // ---------- whose socket it is ----------

  lemma Gap(w: nat, a: int, b: int)
    requires w > 0 && a < b
    ensures w * a + w <= w * b
    decreases b - a
  {
    assert w * b == w * (b - 1) + w;
    if a < b - 1 { Gap(w, a, b - 1); }
  }

  lemma SameRemainder(w: nat, a: int, b: int, r: int, q: int)
    requires 0 <= r < w && 0 <= q < w && w * a + r == w * b + q
    ensures r == q
  {
    if a < b { Gap(w, a, b); } else if b < a { Gap(w, b, a); }
  }

  lemma Divided(x: nat, w: nat) returns (q: int)
    requires w > 0
    ensures x == w * q + x % w && 0 <= x % w < w
  {
    q := x / w;
  }

  lemma NextTurn(accepted: nat, workers: nat)
    requires workers > 0
    ensures (accepted + 1) % workers == if accepted % workers + 1 == workers then 0 else accepted % workers + 1
  {
    var a := Divided(accepted, workers);
    var b := Divided(accepted + 1, workers);
    var r, q := accepted % workers, (accepted + 1) % workers;
    assert r == accepted % workers && q == (accepted + 1) % workers;
    if r + 1 == workers {
      assert workers * (a + 1) == workers * a + workers;
      SameRemainder(workers, a + 1, b, 0, q);
    } else {
      SameRemainder(workers, a, b, r + 1, q);
    }
  }

  /** serve was called again on worker 0. */
  predicate Restarted(s: State, s': State) {
    s.boxes != [] && s'.boxes != [] && !s.boxes[0].running && s'.boxes[0].running
  }

  /** One step gives away at most one socket, and leaves the others where they are. */
  lemma StepOwners(s: State, s': State)
    requires Inv(s) && Next(s, s')
    ensures s.boxes != [] && |s'.boxes| == |s.boxes|
    ensures if s'.owners == s.owners then s'.accepts == if Restarted(s, s') then 0 else s.accepts
            else s'.owners == s.owners + [s.accepts] && s'.accepts == NextWorker(s.accepts, |s.boxes|) && !Restarted(s, s')
  {
  }

  function NextWorker(accepts: nat, workers: nat): nat {
    if accepts + 1 == workers then 0 else accepts + 1
  }

  ghost predicate Undisturbed(run: seq<State>, a: nat, i: nat) {
    forall j :: a <= j < i && j + 1 < |run| ==> !Restarted(run[j], run[j + 1])
  }

  lemma {:induction false} SameWorkers(run: seq<State>, i: nat)
    requires IsRun(run) && i < |run|
    ensures run[i].boxes != [] && |run[i].boxes| == |run[0].boxes|
  {
    RunInv(run, i);
    if i > 0 {
      SameWorkers(run, i - 1);
      RunInv(run, i - 1);
      hide Inv, Next, Init;
      StepOwners(run[i - 1], run[i]);
    }
  }

  /** What a step of a run does with the sockets. */
  lemma OwnerStep(run: seq<State>, i: nat)
    requires IsRun(run) && i < |run|
    ensures run[0].boxes != [] && run[i].accepts < |run[0].boxes|
    ensures i + 1 < |run| ==>
      if run[i + 1].owners == run[i].owners
      then run[i + 1].accepts == if Restarted(run[i], run[i + 1]) then 0 else run[i].accepts
      else run[i + 1].owners == run[i].owners + [run[i].accepts]
           && run[i + 1].accepts == NextWorker(run[i].accepts, |run[0].boxes|)
  {
    RunInv(run, i);
    SameWorkers(run, i);
    assert run[i].accepts < |run[0].boxes|;
    hide Inv, Next, Init;
    if i + 1 < |run| { StepOwners(run[i], run[i + 1]); }
  }

  /** A socket stays with the worker it was given to. */
  lemma {:induction false} OwnersGrow(run: seq<State>, a: nat, i: nat)
    requires IsRun(run) && a <= i < |run|
    ensures run[a].owners <= run[i].owners
    decreases i
  {
    hide *;
    if a < i {
      OwnersGrow(run, a, i - 1);
      OwnerStep(run, i - 1);
    }
  }

  lemma UndisturbedStep(run: seq<State>, a: nat, i: nat)
    requires Undisturbed(run, a, i) && a < i < |run|
    ensures Undisturbed(run, a, i - 1) && !Restarted(run[i - 1], run[i])
  {
    hide Restarted;
    var j := i - 1;
    assert !Restarted(run[j], run[j + 1]);
  }

  /** Sockets given out from `first` on, in turn. */
  predicate TakesTurns(owners: seq<nat>, known: nat, first: nat, workers: nat)
    requires workers > 0
  {
    forall k :: known <= k < |owners| ==> owners[k] == (first + (k - known)) % workers
  }

  lemma OneMoreTurn(owners: seq<nat>, known: nat, first: nat, workers: nat)
    requires workers > 0 && known <= |owners| && TakesTurns(owners, known, first, workers)
    ensures var accepts := (first + (|owners| - known)) % workers;
            TakesTurns(owners + [accepts], known, first, workers)
            && NextWorker(accepts, workers) == (first + (|owners| + 1 - known)) % workers
  {
    NextTurn(first + (|owners| - known), workers);
  }

  lemma NoTurns(owners: seq<nat>, first: nat, workers: nat)
    requires first < workers
    ensures TakesTurns(owners, |owners|, first, workers) && first % workers == first
  {
  }

  /** Between two states without a restart of worker 0, the sockets go round the workers in turn. */
  lemma {:induction false} RoundRobin(run: seq<State>, a: nat, i: nat)
    requires IsRun(run) && a <= i < |run| && Undisturbed(run, a, i)
    ensures |run[a].owners| <= |run[i].owners| && |run[0].boxes| > 0
    ensures run[i].accepts == (run[a].accepts + (|run[i].owners| - |run[a].owners|)) % |run[0].boxes|
    ensures TakesTurns(run[i].owners, |run[a].owners|, run[a].accepts, |run[0].boxes|)
    decreases i
  {
    hide *;
    OwnerStep(run, a);
    if a < i {
      UndisturbedStep(run, a, i);
      RoundRobin(run, a, i - 1);
      OwnerStep(run, i - 1);
      OneMoreTurn(run[i - 1].owners, |run[a].owners|, run[a].accepts, |run[0].boxes|);
    } else {
      NoTurns(run[a].owners, run[a].accepts, |run[0].boxes|);
    }
  }

  /** As long as worker 0 never restarts, socket `k` is given to worker `k % workers`. */
  lemma InTurn(run: seq<State>, i: nat, k: nat)
    requires IsRun(run) && i < |run| && Undisturbed(run, 0, i) && k < |run[i].owners|
    ensures run[0].boxes != [] && run[i].owners[k] == k % |run[0].boxes|
  {
    RoundRobin(run, 0, i);
  }

  /** After a restart of worker 0 the turn starts over: the next socket is its own, whoever had the last. */
  lemma AfterRestart(run: seq<State>, a: nat, i: nat)
    requires IsRun(run) && 0 < a <= i < |run| && Restarted(run[a - 1], run[a]) && Undisturbed(run, a, i)
    requires |run[a].owners| < |run[i].owners|
    ensures run[i].owners[|run[a].owners|] == 0
  {
    RoundRobin(run, a, i);
    OwnerStep(run, a - 1);
    RunInv(run, a - 1);
    hide Inv, Next, Init, Undisturbed;
    StepOwners(run[a - 1], run[a]);
  }
}
