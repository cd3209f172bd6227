/** The BLE byte stream: one notification in flight, filled from as many queued frames as fit. */
module BleServer {
  import opened Common
  import opened SendQueue

  const NO_HANDLE := 0xFFFF
  const DEFAULT_MTU := 23
  const SCRATCH := 512

  /** What one notification can carry under this MTU. */
  function ChunkCapacity(mtu: nat): (n: nat)
    ensures 0 < n <= 512
    ensures 3 < mtu <= 515 ==> n + 3 == mtu
    ensures mtu <= 3 ==> n == 20
    ensures mtu > 515 ==> n == 512
  {
    var room := if mtu > 3 then mtu - 3 else 20;
    if room > SCRATCH then SCRATCH else room
  }

  /** `built` and `sent`: whether the buffer was obtained and the stack took the notification. */
  datatype Notify = Notify(built: bool, sent: bool)

  /** Where the host task is in a change of the link: none; the new handle is stored and the queue not yet
      emptied; the queue is emptied and the latch not yet released. */
  datatype Host = Calm | Changing | Cleared

  /** One step, up to the next place where another task may get in. A drain sets the latch, takes a chunk
      under the mutex, hands it to the stack, and releases the latch itself if nothing went out. The checks
      of has_client may be older than the steps they guard: `saw_client`, and for a send the number of the
      session it saw. Connecting and disconnecting are three steps of the host task each. */
  datatype Event =
    | LinkUp(handle: nat)
    | LinkDown
    | QueueReset
    | LatchReset
    | Subscribe(notify: bool)
    | Mtu(value: nat)
    | NotifyDone
    | Admit(data: Bytes, priority: Priority, copied: bool, session: nat)
    | Latch(saw_client: bool)
    | TakeChunk
    | SendChunk(k: nat, n: Notify)
    | Unlatch

  predicate OfSender(event: Event) {
    event.Admit? || event.Latch? || event.TakeChunk? || event.SendChunk? || event.Unlatch?
  }

  /** Every byte of `stream` is notified, in hand, queued or lost; in order if none is lost. */
  ghost predicate Right(wire: Bytes, flying: Bytes, pending: Bytes, lost: nat, stream: Bytes) {
    && (lost == 0 ==> wire + flying + pending == stream)
    && |wire| + lost + |flying| + |pending| == |stream|
  }

  class BleServer {
    const queue: SendQueue
    var handle: nat
    var notifying: bool
    var mtu: nat
    var in_flight: bool
    var host: Host
    var sessions: nat
    /** Senders between setting the latch and handing a chunk to the stack: those that wait for the mutex,
        the chunks of those that have taken one, and those about to release the latch. */
    var latched: nat
    var hands: seq<Bytes>
    var leaving: nat

    /** Frames admitted since the queue was last emptied; bytes notified since the link last changed; bytes
        in hand; bytes lost with a failed notification; whether the account of this session is spoilt, and
        whether one ever was. */
    ghost var admitted: seq<Bytes>
    ghost var wire: Bytes
    ghost var flying: Bytes
    ghost var lost: nat
    ghost var overtaken: bool
    ghost var disturbed: bool

    ghost predicate Valid()
      reads this, queue, queue.slots
    {
      && queue.Valid() && [] !in hands
      && (!overtaken ==> Tidy())
      && (!overtaken && host != Changing ==> Accounted())
    }

    function Holders(): nat
      reads this
    {
      latched + |hands| + leaving
    }

    /** At most one sender holds the latch, and it is set. */
    predicate Alone()
      reads this
    {
      Holders() == 0 || (Holders() == 1 && in_flight)
    }

    ghost predicate Tidy()
      reads this
    {
      Alone() && (if hands == [] then flying == [] else hands == [flying])
    }

    ghost predicate Accounted()
      reads this, queue, queue.slots
      requires queue.Valid()
    {
      Right(wire, flying, queue.Pending(), lost, Flatten(admitted))
    }

    /** The client has received exactly the beginning of the admitted frames, and the rest is on its way. */
    ghost predicate Faithful()
      reads this, queue, queue.slots
      requires queue.Valid()
    {
      wire + flying + queue.Pending() == Flatten(admitted)
    }

    constructor ()
      ensures Valid() && handle == NO_HANDLE && mtu == DEFAULT_MTU && host == Calm && sessions == 0
      ensures Holders() == 0 && lost == 0 && !overtaken && !disturbed && !in_flight
      ensures fresh(queue) && fresh(queue.slots) && queue.count == 0
    {
      queue := new SendQueue();
      handle, notifying, mtu, in_flight, host, sessions := NO_HANDLE, false, DEFAULT_MTU, false, Calm, 0;
      latched, hands, leaving := 0, [], 0;
      admitted, wire, flying, lost, overtaken, disturbed := [], [], [], 0, false, false;
    }

    predicate HasClient()
      reads this
    {
      handle != NO_HANDLE && notifying
    }

    /** As long as no notification failed, and never again in this session once one has. */
    lemma FaithfulUntilLoss()
      requires Valid() && !overtaken && host != Changing
      ensures Faithful() <==> lost == 0
    {
    }

    // -------------------------------------------------------------------------
    // Sends and drains
    // -------------------------------------------------------------------------

    /** The mutex section of send. A frame sent in an earlier session is one too many for this one, unless
        the queue is about to be emptied anyway. */
    method AdmitLocked(data: Bytes, priority: Priority, copied: bool, session: nat) returns (ok: bool)
      requires Valid() && data != []
      modifies this`admitted, this`overtaken, queue`count, queue`frames, queue.slots
      ensures Valid()
      ensures ok <==> Admissible(priority, old(queue.count)) && copied
      ensures admitted == if ok then old(admitted) + [data] else old(admitted)
      ensures queue.Pending() == if ok then old(queue.Pending()) + data else old(queue.Pending())
      ensures queue.count == if ok then old(queue.count) + 1 else old(queue.count)
      ensures overtaken == (old(overtaken) || (ok && Stray(session)))
    {
      ghost var before := queue.Pending();
      ok := queue.Admit(data, priority, copied);
      if ok {
        RightAdmits(wire, flying, before, lost, admitted, data);
        admitted := admitted + [data];
        overtaken := overtaken || Stray(session);
      }
    }

    predicate Stray(session: nat)
      reads this
    {
      session != sessions && host != Changing
    }

    /** The first step of the drain. */
    method SetLatch(saw_client: bool) returns (won: bool)
      requires Valid()
      modifies this`in_flight, this`latched
      ensures Valid() && won == (((handle != 0xFFFF && notifying) || saw_client) && !old(in_flight))
      ensures in_flight == (old(in_flight) || won) && latched == old(latched) + (if won then 1 else 0)
    {
      won := (HasClient() || saw_client) && !in_flight;
      if won { in_flight, latched := true, latched + 1; }
    }

    method ReleaseLatch()
      requires Valid() && leaving > 0
      modifies this`in_flight, this`leaving
      ensures Valid() && !in_flight && leaving == old(leaving) - 1
    {
      in_flight, leaving := false, leaving - 1;
    }

    /** Copies part of the oldest frame behind the `chunk` gathered so far. */
    method Gather(chunk: Bytes, room: nat, ghost all: Bytes) returns (longer: Bytes)
      requires queue.Valid() && queue.count > 0 && room > 0 && all == chunk + queue.Pending()
      modifies queue, queue.slots
      ensures queue.Valid() && all == longer + queue.Pending()
      ensures |chunk| < |longer| <= |chunk| + room
      ensures |longer| < |chunk| + room ==> queue.count < old(queue.count)
    {
      var front := queue.Front();
      var take := if |front| < room then |front| else room;
      Carry(chunk, queue.Pending(), take);
      assert queue.Pending()[..take] == front[..take];
      longer := chunk + front[..take];
      var done := queue.Advance(take);
    }

    /** Fills one notification: exactly the first min(capacity, total) queued bytes leave the queue. */
    method Fill(capacity: nat) returns (chunk: Bytes)
      requires queue.Valid() && capacity > 0
      modifies queue, queue.slots
      ensures queue.Valid() && chunk + queue.Pending() == old(queue.Pending())
      ensures |chunk| == if |old(queue.Pending())| < capacity then |old(queue.Pending())| else capacity
    {
      chunk := [];
      while |chunk| < capacity && queue.count > 0
        invariant queue.Valid() && |chunk| <= capacity
        invariant chunk + queue.Pending() == old(queue.Pending())
        decreases capacity - |chunk|
      {
        chunk := Gather(chunk, capacity - |chunk|, old(queue.Pending()));
      }
    }

    /** The mutex section of the drain, entered by a sender that holds the latch: what fits one notification
        leaves the queue, unless there is nothing. */
    method TakeChunkLocked() returns (taken: bool, chunk: Bytes)
      requires Valid() && latched > 0
      modifies this`latched, this`leaving, this`hands, this`flying, queue, queue.slots
      ensures Valid() && latched == old(latched) - 1
      ensures taken <==> old(queue.count) > 0
      ensures !taken ==> leaving == old(leaving) + 1 && hands == old(hands) && queue.Pending() == old(queue.Pending())
      ensures taken ==> leaving == old(leaving) && hands == old(hands) + [chunk]
      ensures taken ==> chunk + queue.Pending() == old(queue.Pending())
      ensures taken ==> |chunk| == Least(|old(queue.Pending())|, ChunkCapacity(mtu))
    {
      taken, chunk := queue.count > 0, [];
      if taken {
        chunk := TakeOut();
      } else {
        latched, leaving := latched - 1, leaving + 1;
      }
    }

    method TakeOut() returns (chunk: Bytes)
      requires Valid() && latched > 0 && queue.count > 0
      modifies this`latched, this`hands, this`flying, queue, queue.slots
      ensures Valid() && latched == old(latched) - 1 && hands == old(hands) + [chunk]
      ensures chunk + queue.Pending() == old(queue.Pending())
      ensures |chunk| == Least(|old(queue.Pending())|, ChunkCapacity(mtu))
    {
      ghost var all := queue.Pending();
      SomethingPending(queue.frames);
      chunk := Fill(ChunkCapacity(mtu));
      RightTakes(wire, all, chunk, queue.Pending(), lost, Flatten(admitted));
      Hold(chunk);
    }

    method Hold(chunk: Bytes)
      requires queue.Valid() && [] !in hands && chunk != [] && latched > 0
      requires !overtaken ==> latched == 1 && hands == [] && leaving == 0 && in_flight
      requires !overtaken && host != Changing ==> Right(wire, chunk, queue.Pending(), lost, Flatten(admitted))
      modifies this`latched, this`hands, this`flying
      ensures Valid() && latched == old(latched) - 1 && hands == old(hands) + [chunk]
    {
      latched, hands, flying := latched - 1, hands + [chunk], chunk;
    }

    /** The k-th chunk in hand goes to whoever is connected, or is lost and its sender will release the
        latch. */
    method SendChunkOut(k: nat, n: Notify)
      requires Valid() && k < |hands|
      modifies this`leaving, this`wire, this`hands, this`flying, this`lost
      ensures Valid() && hands == old(hands)[..k] + old(hands)[k + 1..]
      ensures if n.built && n.sent && handle != 0xFFFF
        then wire == old(wire) + old(hands)[k] && lost == old(lost) && leaving == old(leaving)
        else wire == old(wire) && lost == old(lost) + |old(hands)[k]| && leaving == old(leaving) + 1
    {
      var chunk := hands[k];
      RightSends(wire, chunk, queue.Pending(), lost, Flatten(admitted));
      hands, flying := hands[..k] + hands[k + 1..], [];
      if Goes(n) {
        wire := wire + chunk;
      } else {
        lost, leaving := lost + |chunk|, leaving + 1;
      }
    }

    predicate Goes(n: Notify)
      reads this
    {
      n.built && n.sent && handle != NO_HANDLE
    }

    /** A whole drain without interruption moves one notification's worth of bytes to the client, or
        loses it. */
    method Drain(n: Notify)
      requires Valid() && Holders() == 0 && !overtaken
      modifies this`in_flight, this`latched, this`hands, this`leaving, this`flying, this`wire, this`lost, queue, queue.slots
      ensures Valid() && Holders() == 0
      ensures |queue.Pending()| == |old(queue.Pending())| - Moved(old(queue.Pending()), old(in_flight), old(queue.count))
      ensures Goes(n) ==> wire + queue.Pending() == old(wire + queue.Pending()) && lost == old(lost)
      ensures !Goes(n) ==> wire == old(wire)
      ensures !Goes(n) ==> lost == old(lost) + Moved(old(queue.Pending()), old(in_flight), old(queue.count))
    {
      var won := SetLatch(false);
      if won { DrainHeld(n); }
    }

    /** The rest of the drain, the latch being set. */
    method DrainHeld(n: Notify)
      requires Valid() && latched == 1 && hands == [] && leaving == 0 && in_flight && !overtaken
      modifies this`in_flight, this`latched, this`hands, this`leaving, this`flying, this`wire, this`lost, queue, queue.slots
      ensures Valid() && Holders() == 0
      ensures var moved := if old(queue.count) == 0 then 0 else Least(|old(queue.Pending())|, ChunkCapacity(mtu));
        && |queue.Pending()| == |old(queue.Pending())| - moved
        && (Goes(n) ==> wire + queue.Pending() == old(wire + queue.Pending()) && lost == old(lost))
        && (!Goes(n) ==> wire == old(wire) && lost == old(lost) + moved)
    {
      var taken, chunk := TakeChunkLocked();
      if taken {
        SendLoneChunk(n, chunk);
      } else {
        ReleaseLatch();
      }
    }

    /** The only chunk in hand goes out or is lost, and then the latch is released. */
    method SendLoneChunk(n: Notify, ghost chunk: Bytes)
      requires Valid() && latched == 0 && hands == [chunk] && leaving == 0
      modifies this`in_flight, this`hands, this`leaving, this`flying, this`wire, this`lost
      ensures Valid() && Holders() == 0
      ensures Goes(n) ==> wire + queue.Pending() == old(wire) + (chunk + queue.Pending()) && lost == old(lost)
      ensures !Goes(n) ==> wire == old(wire) && lost == old(lost) + |chunk|
    {
      Assoc(wire, chunk, queue.Pending());
      SendChunkOut(0, n);
      if leaving > 0 { ReleaseLatch(); }
    }

    /** How many queued bytes a drain takes. */
    ghost function Moved(all: Bytes, busy: bool, count: nat): nat
      reads this
    {
      if !HasClient() || busy || count == 0 then 0 else Least(|all|, ChunkCapacity(mtu))
    }

    method Send(data: Bytes, priority: Priority, copied: bool, n: Notify) returns (ok: bool)
      requires Valid() && Holders() == 0 && !overtaken
      modifies this`in_flight, this`latched, this`hands, this`leaving, this`flying, this`wire, this`lost, this`admitted, this`overtaken, queue, queue.slots
      ensures Valid() && Holders() == 0 && !overtaken
      ensures ok <==> data != [] && handle != 0xFFFF && notifying && Admissible(priority, old(queue.count)) && copied
      ensures admitted == if ok then old(admitted) + [data] else old(admitted)
      ensures Goes(n) ==> lost == old(lost)
    {
      ok := false;
      if data == [] || !HasClient() { return; }
      ok := AdmitLocked(data, priority, copied, sessions);
      if ok { Drain(n); }
    }

    // -------------------------------------------------------------------------
    // Link events, all of the host task
    // -------------------------------------------------------------------------

    /** The handle is stored: whatever is notified from now on goes to this central. */
    method BeginChange(new_handle: nat)
      requires Valid() && host == Calm
      modifies this`handle, this`notifying, this`mtu, this`sessions, this`host, this`admitted, this`wire, this`lost
      ensures Valid() && host == Changing && handle == new_handle && !notifying
      ensures admitted == [] && wire == [] && lost == 0
      ensures if new_handle == NO_HANDLE then mtu == DEFAULT_MTU && sessions == old(sessions)
              else mtu == old(mtu) && sessions == old(sessions) + 1
    {
      handle, notifying := new_handle, false;
      if new_handle == NO_HANDLE { mtu := DEFAULT_MTU; } else { sessions := sessions + 1; }
      NewAccount();
    }

    method NewAccount()
      requires Valid()
      modifies this`host, this`admitted, this`wire, this`lost
      ensures Valid() && host == Changing && admitted == [] && wire == [] && lost == 0
    {
      host := Changing;
      admitted, wire, lost := [], [], 0;
    }

    /** The mutex section of reset_send_queue. The new account begins right exactly when the senders do not
        hold the latch twice over, none has a chunk of the last session in hand, and none was notified
        since the link changed. */
    method EmptyQueue()
      requires Valid() && host == Changing
      modifies this`host, this`admitted, this`flying, this`lost, this`overtaken, queue
      ensures Valid() && host == Cleared && admitted == [] && lost == 0 && queue.Pending() == [] && queue.count == 0
      ensures Tidy() && Accounted() <==> Alone() && hands == [] && wire == []
      ensures overtaken <==> !(Alone() && hands == [] && wire == [])
    {
      queue.Reset();
      host, admitted, lost, flying := Cleared, [], 0, if hands == [] then [] else hands[0];
      overtaken := !(Alone() && hands == [] && wire == []);
    }

    /** What follows it: the latch is released, whoever holds it. */
    method ClearLatch()
      requires Valid() && host == Cleared
      modifies this`host, this`in_flight, this`overtaken
      ensures Valid() && host == Calm && !in_flight && (Alone() <==> Holders() == 0)
      ensures overtaken == (old(overtaken) || Holders() > 0)
    {
      host, in_flight := Calm, false;
      overtaken := overtaken || Holders() > 0;
    }

    method OnConnect(new_handle: nat)
      requires Valid() && host == Calm && new_handle != NO_HANDLE
      modifies this`handle, this`notifying, this`mtu, this`sessions, this`host, this`admitted, this`wire, this`flying, this`lost, this`overtaken, this`in_flight, queue
      ensures Valid() && host == Calm && handle == new_handle && !notifying && mtu == old(mtu) && sessions == old(sessions) + 1
      ensures admitted == [] && wire == [] && queue.Pending() == [] && lost == 0 && !in_flight && queue.count == 0
      ensures overtaken <==> Holders() > 0
      ensures Tidy() && Accounted() <==> Holders() == 0
    {
      BeginChange(new_handle);
      EmptyQueue();
      ClearLatch();
    }

    method OnDisconnect()
      requires Valid() && host == Calm
      modifies this`handle, this`notifying, this`mtu, this`sessions, this`host, this`admitted, this`wire, this`flying, this`lost, this`overtaken, this`in_flight, queue
      ensures Valid() && host == Calm && !HasClient() && mtu == DEFAULT_MTU && sessions == old(sessions)
      ensures admitted == [] && wire == [] && queue.Pending() == [] && lost == 0 && !in_flight && queue.count == 0
      ensures overtaken <==> Holders() > 0
    {
      BeginChange(NO_HANDLE);
      EmptyQueue();
      ClearLatch();
    }

    method OnSubscribe(notify: bool)
      requires Valid()
      modifies this`notifying
      ensures Valid() && notifying == notify
    {
      notifying := notify;
    }

    /** A notification has left the controller; the drain that follows is a matter of its own steps. */
    method OnNotifyDone()
      requires Valid()
      modifies this`in_flight, this`overtaken
      ensures Valid() && !in_flight && (Alone() <==> Holders() == 0)
      ensures overtaken == (old(overtaken) || Holders() > 0)
    {
      in_flight, overtaken := false, overtaken || Holders() > 0;
    }

    // -------------------------------------------------------------------------
    // Whole runs
    // -------------------------------------------------------------------------

    /** The steps that spoil an account: a chunk of the last session is in hand or was notified when the
        queue is emptied; the latch is released, by a link event or a completion, while a sender holds it;
        a frame sent in an earlier session is admitted. */
    ghost predicate Spoils(event: Event)
      reads this, queue
    {
      match event
      case QueueReset => host == Changing && (hands != [] || wire != [])
      case LatchReset => host == Cleared && Holders() > 0
      case NotifyDone => host == Calm && Holders() > 0
      case Admit(data, priority, copied, session) =>
        data != [] && Admissible(priority, queue.count) && copied && Stray(session)
      case _ => false
    }

    method LinkStep(event: Event)
      requires Valid() && !OfSender(event) && (!disturbed ==> !overtaken)
      modifies this`handle, this`notifying, this`mtu, this`sessions, this`host, this`admitted, this`wire, this`flying, this`lost, this`overtaken, this`in_flight, queue
      ensures Valid() && (!disturbed && !old(Spoils(event)) ==> !overtaken)
    {
      if event.LinkUp? && host == Calm && event.handle != NO_HANDLE {
        BeginChange(event.handle);
      } else if event.LinkDown? && host == Calm {
        BeginChange(NO_HANDLE);
      } else if event.QueueReset? && host == Changing {
        EmptyQueue();
      } else if event.LatchReset? && host == Cleared {
        ClearLatch();
      } else if event.Subscribe? && host == Calm {
        OnSubscribe(event.notify);
      } else if event.Mtu? && host == Calm {
        mtu := event.value;
      } else if event.NotifyDone? && host == Calm {
        OnNotifyDone();
      }
    }

    method SenderStep(event: Event)
      requires Valid() && OfSender(event) && (!disturbed ==> !overtaken)
      modifies this`in_flight, this`latched, this`hands, this`leaving, this`flying, this`wire, this`lost, this`admitted, this`overtaken, queue, queue.slots
      ensures Valid() && (!disturbed && !old(Spoils(event)) ==> !overtaken)
    {
      match event
      case Admit(data, priority, copied, session) =>
        if data != [] { var ok := AdmitLocked(data, priority, copied, session); }
      case Latch(saw) =>
        var won := SetLatch(saw);
      case TakeChunk =>
        if latched > 0 { var taken, chunk := TakeChunkLocked(); }
      case SendChunk(k, n) =>
        if k < |hands| { SendChunkOut(k, n); }
      case Unlatch =>
        if leaving > 0 { ReleaseLatch(); }
    }

    method Perform(event: Event)
      requires Valid() && (!disturbed ==> !overtaken)
      modifies this, queue, queue.slots
      ensures Valid() && (!disturbed ==> !overtaken)
      ensures disturbed == (old(disturbed) || old(Spoils(event)))
    {
      ghost var spoils := Spoils(event);
      if OfSender(event) { SenderStep(event); } else { LinkStep(event); }
      disturbed := disturbed || spoils;
    }

    /** In every interleaving of the steps of link events, sends and drains: while the account of a session
        is not spoilt, what was notified in it, then what is in hand, then what is queued is what was
        admitted in it, if and only if no notification failed. It is spoilt where EmptyQueue, ClearLatch,
        OnNotifyDone and AdmitLocked say, and in a run without a step that Spoils never. */
    method Run(events: seq<Event>)
      requires Valid() && (!disturbed ==> !overtaken)
      modifies this, queue, queue.slots
      ensures Valid() && (old(disturbed) ==> disturbed)
      ensures !disturbed ==> !overtaken
      ensures !overtaken && host != Changing ==> (Faithful() <==> lost == 0)
    {
      var i := 0;
      while i < |events|
        invariant i <= |events| && Valid() && (old(disturbed) ==> disturbed)
        invariant !disturbed ==> !overtaken
      {
        Perform(events[i]);
        i := i + 1;
      }
      if !overtaken && host != Changing { FaithfulUntilLoss(); }
    }
  }

  function Least(a: nat, b: nat): nat {
    if a < b then a else b
  }

  lemma RightAdmits(wire: Bytes, flying: Bytes, pending: Bytes, lost: nat, admitted: seq<Bytes>, data: Bytes)
    ensures Right(wire, flying, pending, lost, Flatten(admitted)) ==> Right(wire, flying, pending + data, lost, Flatten(admitted + [data]))
  {
    FlattenSnoc(admitted, data);
    Assoc(wire + flying, pending, data);
  }

  /** Bytes that go from the queue into a hand stay where they were in the stream. */
  lemma RightTakes(wire: Bytes, all: Bytes, chunk: Bytes, rest: Bytes, lost: nat, stream: Bytes)
    requires chunk + rest == all
    ensures Right(wire, [], all, lost, stream) ==> Right(wire, chunk, rest, lost, stream)
  {
    Assoc(wire, chunk, rest);
    Assoc(wire, [], []);
  }

  lemma RightSends(wire: Bytes, chunk: Bytes, pending: Bytes, lost: nat, stream: Bytes)
    requires chunk != []
    ensures Right(wire, chunk, pending, lost, stream) ==> Right(wire + chunk, [], pending, lost, stream)
    ensures Right(wire, chunk, pending, lost, stream) ==> Right(wire, [], pending, lost + |chunk|, stream)
  {
    Assoc(wire + chunk, [], pending);
  }

  // ---------------------------------------------------------------------------
  // Spoilt accounts
  // ---------------------------------------------------------------------------

  method NewCentral() returns (server: BleServer)
    ensures fresh(server) && fresh(server.queue) && fresh(server.queue.slots)
    ensures server.Valid() && server.host == Calm && server.sessions == 1 && server.mtu == DEFAULT_MTU
    ensures server.Holders() == 0 && !server.overtaken && !server.in_flight && server.HasClient() && server.handle == 1
    ensures server.queue.count == 0 && server.queue.Pending() == []
  {
    server := new BleServer();
    server.OnConnect(1);
    server.OnSubscribe(true);
  }

  /** A sender that holds the latch takes all there is, if it is short. */
  method TakeWhole(server: BleServer, data: Bytes)
    requires server.Valid() && server.latched > 0 && server.mtu == DEFAULT_MTU && server.queue.count > 0
    requires server.queue.Pending() == data && |data| <= 20
    modifies server`latched, server`leaving, server`hands, server`flying, server.queue, server.queue.slots
    ensures server.Valid() && server.hands == old(server.hands) + [data]
    ensures server.latched == old(server.latched) - 1 && server.leaving == old(server.leaving)
    ensures server.queue.Pending() == [] && server.queue.count == 0
  {
    var taken, chunk := server.TakeChunkLocked();
    WholePrefix(chunk, server.queue.Pending(), data);
    assert |server.queue.Pending()| == 0;
    if server.queue.count > 0 { SomethingPending(server.queue.frames); }
  }

  /** A short frame is sent, up to the point where it leaves the queue in the hand of the sender that holds
      the latch. */
  method Enlist(server: BleServer, data: Bytes)
    requires server.Valid() && server.HasClient() && server.host == Calm && server.mtu == DEFAULT_MTU
    requires server.queue.Pending() == [] && server.queue.count == 0 && 0 < |data| <= 20
    requires server.in_flight ==> server.latched > 0
    modifies server`admitted, server`overtaken, server`in_flight, server`latched, server`leaving, server`hands, server`flying, server.queue, server.queue.slots
    ensures server.Valid() && server.hands == old(server.hands) + [data] && server.admitted == old(server.admitted) + [data]
    ensures server.latched == old(server.latched) - (if old(server.in_flight) then 1 else 0) && server.leaving == old(server.leaving)
    ensures server.queue.Pending() == [] && server.queue.count == 0 && server.in_flight && server.overtaken == old(server.overtaken)
  {
    var ok := server.AdmitLocked(data, Normal, true, server.sessions);
    EmptyFront(data);
    var won := server.SetLatch(false);
    TakeWhole(server, data);
  }

  lemma EmptyFront(data: Bytes)
    ensures [] + data == data
  {
  }

  /** A short frame sent to a new central, up to the point where it leaves the queue. */
  method ChunkInHand(data: Bytes) returns (server: BleServer)
    requires data != [] && |data| <= 20
    ensures server.Valid() && server.host == Calm && server.hands == [data]
  {
    server := NewCentral();
    Enlist(server, data);
  }

  /** A chunk in a sender's hand (ChunkInHand) while the central is replaced goes to the next one. */
  method OvertakenDrainLeaks(server: BleServer, ghost chunk: Bytes)
    requires server.Valid() && server.host == Calm && server.hands == [chunk]
    modifies server, server.queue, server.queue.slots
    ensures server.Valid() && server.handle == 2 && server.admitted == [] && server.wire == chunk && server.overtaken
  {
    server.OnDisconnect();
    server.OnConnect(2);
    server.SendChunkOut(0, Notify(true, true));
  }

  /** A sender has set the latch and waits for the mutex; the central is replaced meanwhile. */
  method LatchOutlivesLink() returns (server: BleServer)
    ensures fresh(server) && fresh(server.queue) && fresh(server.queue.slots)
    ensures server.Valid() && server.host == Calm && server.sessions == 2 && server.mtu == DEFAULT_MTU && server.handle == 2
    ensures server.latched == 1 && server.hands == [] && server.leaving == 0 && !server.in_flight && server.HasClient() && server.overtaken
    ensures server.queue.count == 0 && server.queue.Pending() == [] && server.admitted == [] && server.wire == [] && server.lost == 0
  {
    server := NewCentral();
    var won := server.SetLatch(false);
    server.OnDisconnect();
    server.OnConnect(2);
    server.OnSubscribe(true);
  }

  /** With no chunk in anyone's hand at any link event: a second sender takes a frame of the new session,
      the first then takes the next one, and they go out in the wrong order. */
  method OvertakenLatchReorders(x: Bytes, y: Bytes) returns (server: BleServer)
    requires 0 < |x| <= 20 && 0 < |y| <= 20
    ensures server.Valid() && server.overtaken && server.handle == 2 && server.lost == 0
    ensures server.admitted == [x, y] && server.wire == y + x && server.queue.Pending() == []
  {
    server := LatchOutlivesLink();
    Enlist(server, x);
    Enlist(server, y);
    SendNewestFirst(server, x, y);
  }

  method SendNewestFirst(server: BleServer, x: Bytes, y: Bytes)
    requires server.Valid() && server.hands == [x, y] && server.wire == [] && server.handle != NO_HANDLE
    modifies server`leaving, server`wire, server`hands, server`flying, server`lost
    ensures server.Valid() && server.wire == y + x && server.lost == old(server.lost)
  {
    server.SendChunkOut(1, Notify(true, true));
    EmptyFront(y);
    server.SendChunkOut(0, Notify(true, true));
  }
}
