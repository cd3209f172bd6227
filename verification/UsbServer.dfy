/** The USB serial byte stream: sessions opened by DTR or the first byte, frames drained into the CDC FIFO. */
module UsbServer {
  import opened Common
  import opened SendQueue

  /** Where the TinyUSB task is: no session; a session; session ended but queue not yet emptied; queue
      emptied but FIFO not yet cleared; queue emptied for the next session, which is not yet announced. */
  datatype Phase = Off | On | Ending | Emptied | Opening

  /** One step, up to the next place where another task may get in. close_session and open_session are
      three and two; the mutex sections of send and drain follow the check of connected_ by some time.
      `session` is the number of the session a send saw then, and `takes` is how many bytes the FIFO takes at each write. */
  datatype Event =
    | SessionEnds
    | QueueEmptied
    | FifoCleared
    | QueueReset
    | SessionBegins
    | Admit(data: Bytes, priority: Priority, copied: bool, session: nat)
    | Drain(takes: seq<nat>)

  /** The phase and the number of sessions announced. */
  datatype Where = Where(phase: Phase, sessions: nat)

  /** The TinyUSB task goes from step to step in this order. */
  function After(w: Where, e: Event): Where {
    match e
    case SessionEnds => if w.phase == On then w.(phase := Ending) else w
    case QueueEmptied => if w.phase == Ending then w.(phase := Emptied) else w
    case FifoCleared => if w.phase == Emptied then w.(phase := Off) else w
    case QueueReset => if w.phase == Off then w.(phase := Opening) else w
    case SessionBegins => if w.phase == Opening then Where(On, w.sessions + 1) else w
    case _ => w
  }

  /** No send reaches the mutex but in the session it saw, and no drain outside a session. */
  predicate Orderly(w: Where, events: seq<Event>)
    decreases |events|
  {
    events == [] || (InPlace(w, events[0]) && Orderly(After(w, events[0]), events[1..]))
  }

  predicate InPlace(w: Where, e: Event) {
    match e
    case Admit(_, _, _, session) => w == Where(On, session)
    case Drain(_) => w.phase == On
    case _ => true
  }

  /** How many bytes of these frames the FIFO takes. */
  ghost function Absorbed(frames: seq<Queued>, takes: seq<nat>): nat
    requires Writable(frames)
  {
    if frames == [] || takes == [] || takes[0] == 0 then 0
    else
      var size := |Rest(frames[0])|;
      if takes[0] < size then takes[0] else size + Absorbed(frames[1..], takes[1..])
  }

  /** The frames in front of the first that does not fit are written, and what fits of that one. */
  lemma {:induction false} AbsorbedStops(frames: seq<Queued>, takes: seq<nat>, k: nat)
    requires Writable(frames) && k <= |frames| && k <= |takes|
    requires forall j :: 0 <= j < k ==> takes[j] >= |Rest(frames[j])|
    requires k < |frames| && k < |takes| ==> takes[k] < |Rest(frames[k])|
    ensures Absorbed(frames, takes) ==
      |Rests(frames)| - |Rests(frames[k..])| + (if k < |frames| && k < |takes| then takes[k] else 0)
  {
    if k > 0 {
      assert takes[0] >= |Rest(frames[0])|;
      AbsorbedStops(frames[1..], takes[1..], k - 1);
      assert frames[1..][k - 1..] == frames[k..];
    } else {
      assert frames[0..] == frames;
    }
  }

  /** A frame of this session keeps its stream as whole as it was; one of another spoils it. */
  lemma OneMoreFrame(fifo: Bytes, before: Bytes, admitted: seq<Bytes>, data: Bytes, intact: bool)
    requires data != [] && (fifo + before == Flatten(admitted) <==> intact)
    requires |Flatten(admitted)| + (if intact then 0 else 1) <= |fifo + before|
    ensures fifo + (before + data) == Flatten(admitted + [data]) <==> intact
    ensures |Flatten(admitted + [data])| + (if intact then 0 else 1) <= |fifo + (before + data)|
    ensures fifo + (before + data) != Flatten(admitted) && |Flatten(admitted)| + 1 <= |fifo + (before + data)|
  {
    Assoc(fifo, before, data);
    FlattenSnoc(admitted, data);
    AdmittedKeeps(fifo, before, admitted, data);
  }

  class UsbServer {
    const queue: SendQueue
    var connected: bool
    var phase: Phase
    var sessions: nat

    /** Frames of this session's sends, admitted since it was announced; bytes in the FIFO since it was last cleared;
        whether the session's stream is whole. */
    ghost var admitted: seq<Bytes>
    ghost var fifo: Bytes
    ghost var intact: bool

    ghost predicate Valid()
      reads this, queue, queue.slots
    {
      && queue.Valid() && (connected <==> phase == On)
      && (phase == On ==> (Faithful() <==> intact) && |Flatten(admitted)| + (if intact then 0 else 1) <= |fifo + queue.Pending()|)
    }

    /** The host has received, or will, exactly the frames admitted in this session, in order. */
    ghost predicate Faithful()
      reads this, queue, queue.slots
      requires queue.Valid()
    {
      fifo + queue.Pending() == Flatten(admitted)
    }

    /** The session's stream is whole; outside one nothing is left for the next. */
    ghost predicate Sound()
      reads this, queue, queue.slots
      requires queue.Valid()
    {
      match phase
      case On => Faithful()
      case Ending => true
      case Emptied => queue.Pending() == []
      case _ => fifo == [] && queue.Pending() == []
    }

    constructor ()
      ensures Valid() && phase == Off && sessions == 0 && Sound() && queue.count == 0 && fifo == [] && fresh(queue) && fresh(queue.slots)
    {
      queue := new SendQueue();
      connected, phase, sessions, admitted, fifo, intact := false, Off, 0, [], [], true;
    }

    // -------------------------------------------------------------------------
    // Sessions
    // -------------------------------------------------------------------------

    method EmptyQueue(next: Phase)
      requires Valid() && phase != On && next != On
      modifies this`phase, queue
      ensures Valid() && phase == next && queue.Pending() == [] && queue.count == 0
    {
      queue.Reset();
      phase := next;
    }

    /** The second half of open_session: the stream of the new session is whole exactly when neither the
        queue nor the FIFO got anything since the one was emptied and the other cleared. */
    method Announce()
      requires Valid() && phase == Opening
      modifies this`connected, this`phase, this`sessions, this`admitted, this`intact
      ensures Valid() && phase == On && admitted == [] && sessions == old(sessions) + 1
      ensures Faithful() <==> fifo + queue.Pending() == []
    {
      connected, phase, sessions, admitted := true, On, sessions + 1, [];
      intact := fifo + queue.Pending() == [];
    }

    method OpenSession()
      requires Valid() && phase == Off
      modifies this`connected, this`phase, this`sessions, this`admitted, this`intact, queue
      ensures Valid() && phase == On && admitted == [] && queue.Pending() == [] && sessions == old(sessions) + 1
      ensures Faithful() <==> fifo == []
    {
      EmptyQueue(Opening);
      Assoc(fifo, [], []);
      Announce();
    }

    method CloseSession()
      requires Valid() && phase == On
      modifies this`connected, this`phase, this`fifo, queue
      ensures Valid() && phase == Off && fifo == [] && queue.Pending() == [] && queue.count == 0
    {
      connected, phase := false, Ending;
      EmptyQueue(Emptied);
      fifo, phase := [], Off;
    }

    /** A host that raises DTR is a new client even if the previous one never dropped it. Its session
        begins with an empty queue, and after a session also with an empty FIFO. */
    method HandleLineState(dtr: bool)
      requires Valid() && (phase == On || phase == Off)
      modifies this`connected, this`phase, this`sessions, this`admitted, this`fifo, this`intact, queue
      ensures Valid() && phase == (if dtr then On else Off)
      ensures dtr ==> admitted == [] && queue.Pending() == [] && (Faithful() <==> fifo == [])
      ensures fifo == if old(connected) then [] else old(fifo)
      ensures old(connected) ==> Sound()
    {
      if dtr {
        if connected { CloseSession(); }
        OpenSession();
      } else if connected {
        CloseSession();
      }
    }

    /** The first bytes open a session too. */
    method HandleRx(chunks: nat)
      requires Valid() && (phase == On || phase == Off)
      modifies this`connected, this`phase, this`sessions, this`admitted, this`intact, queue
      ensures Valid() && phase == if chunks > 0 then On else old(phase)
      ensures old(phase) == On || chunks == 0 ==> admitted == old(admitted) && queue.Pending() == old(queue.Pending())
    {
      var left := chunks;
      while left > 0
        invariant 0 <= left <= chunks && Valid() && phase == if left < chunks then On else old(phase)
        invariant old(phase) == On || left == chunks ==> admitted == old(admitted) && queue.Pending() == old(queue.Pending())
      {
        if !connected { OpenSession(); }
        left := left - 1;
      }
    }

    // -------------------------------------------------------------------------
    // Frames
    // -------------------------------------------------------------------------

    /** The mutex section of send, which may run in any phase. A frame of this session's sends counts as
        admitted in it, and the stream is as whole as before; one of an earlier session's spoils it. */
    method AdmitLocked(data: Bytes, priority: Priority, copied: bool, session: nat) returns (ok: bool)
      requires Valid() && data != []
      modifies this`admitted, this`intact, queue`count, queue`frames, queue.slots
      ensures Valid()
      ensures ok <==> Admissible(priority, old(queue.count)) && copied
      ensures admitted == if ok && phase == On && session == sessions then old(admitted) + [data] else old(admitted)
      ensures ok && phase == On ==> intact == (old(intact) && session == sessions)
      ensures !ok || phase != On ==> intact == old(intact)
      ensures queue.Pending() == if ok then old(queue.Pending()) + data else old(queue.Pending())
      ensures queue.count == if ok then old(queue.count) + 1 else old(queue.count)
    {
      ghost var before := queue.Pending();
      ok := queue.Admit(data, priority, copied);
      if ok && phase == On {
        OneMoreFrame(fifo, before, admitted, data, intact);
        if session == sessions {
          admitted := admitted + [data];
        } else {
          intact := false;
        }
      }
    }

    /** Moves `n` bytes of the oldest frame into the FIFO. */
    method WriteFront(front: Bytes, n: nat) returns (done: bool)
      requires Valid() && queue.count > 0 && front == Rest(queue.frames[0]) && 0 < n <= |front|
      requires front <= queue.Pending()
      modifies this`fifo, queue, queue.slots
      ensures Valid() && fifo + queue.Pending() == old(fifo + queue.Pending()) && |fifo| == |old(fifo)| + n && old(fifo) <= fifo
      ensures done <==> n == |front|
      ensures queue.frames == if done then old(queue.frames)[1..]
                              else [old(queue.frames)[0].(offset := old(queue.frames)[0].offset + n)] + old(queue.frames)[1..]
    {
      Carry(fifo, queue.Pending(), n);
      assert queue.Pending()[..n] == front[..n];
      fifo := fifo + front[..n];
      done := queue.Advance(n);
    }

    /** The mutex section of the drain, which may run in any phase. The FIFO's order is the queue's. */
    method DrainLocked(takes: seq<nat>) returns (wrote: bool)
      requires Valid()
      modifies this`fifo, queue, queue.slots
      ensures Valid() && old(fifo) <= fifo
      ensures fifo + queue.Pending() == old(fifo + queue.Pending())
      ensures |fifo| == |old(fifo)| + Absorbed(old(queue.frames), takes)
      ensures wrote <==> |fifo| > |old(fifo)|
    {
      wrote := false;
      var i, more := 0, true;
      ghost var total := Absorbed(queue.frames, takes);
      while more && queue.count > 0 && i < |takes|
        invariant Valid() && i <= |takes| && old(fifo) <= fifo
        invariant fifo + queue.Pending() == old(fifo + queue.Pending())
        invariant more ==> |fifo| - |old(fifo)| + Absorbed(queue.frames, takes[i..]) == total
        invariant !more ==> |fifo| - |old(fifo)| == total
        invariant wrote <==> |fifo| > |old(fifo)|
      {
        var front := queue.Front();
        assert takes[i..][1..] == takes[i + 1..];
        var written := if takes[i] < |front| then takes[i] else |front|;
        if written == 0 {
          more := false;
        } else {
          more := WriteFront(front, written);
          wrote := true;
        }
        i := i + 1;
      }
    }

    method DrainQueue(takes: seq<nat>)
      requires Valid()
      modifies this`fifo, queue, queue.slots
      ensures Valid() && fifo + queue.Pending() == old(fifo + queue.Pending())
      ensures |fifo| == |old(fifo)| + if connected then Absorbed(old(queue.frames), takes) else 0
    {
      if connected { var wrote := DrainLocked(takes); }
    }

    method Send(data: Bytes, priority: Priority, ready: bool, copied: bool, takes: seq<nat>) returns (ok: bool)
      requires Valid()
      modifies this`admitted, this`fifo, this`intact, queue, queue.slots
      ensures Valid() && intact == old(intact)
      ensures ok <==> data != [] && connected && ready && Admissible(priority, old(queue.count)) && copied
      ensures admitted == if ok then old(admitted) + [data] else old(admitted)
      ensures fifo + queue.Pending() == old(fifo + queue.Pending()) + if ok then data else []
    {
      ok := false;
      Assoc(fifo + queue.Pending(), [], []);
      if data == [] || !connected || !ready { return; }
      Assoc(fifo, queue.Pending(), data);
      ok := AdmitLocked(data, priority, copied, sessions);
      if ok { DrainQueue(takes); }
    }

    // -------------------------------------------------------------------------
    // Whole runs
    // -------------------------------------------------------------------------

    method SessionStep(event: Event)
      requires Valid() && !event.Admit? && !event.Drain?
      modifies this`connected, this`phase, this`sessions, this`admitted, this`fifo, this`intact, queue
      ensures Valid() && Here() == After(old(Here()), event)
      ensures old(Sound()) ==> Sound()
      ensures old(phase) == On && phase == On ==> intact == old(intact)
    {
      if event.SessionEnds? && phase == On {
        connected, phase := false, Ending;
      } else if event.QueueEmptied? && phase == Ending {
        EmptyQueue(Emptied);
      } else if event.FifoCleared? && phase == Emptied {
        fifo, phase := [], Off;
      } else if event.QueueReset? && phase == Off {
        EmptyQueue(Opening);
      } else if event.SessionBegins? && phase == Opening {
        Announce();
      }
    }

    method Perform(event: Event)
      requires Valid()
      modifies this, queue, queue.slots
      ensures Valid() && Here() == After(old(Here()), event)
      ensures old(Sound()) && InPlace(old(Here()), event) ==> Sound()
      ensures old(phase) == On && phase == On && !event.Admit? ==> intact == old(intact)
    {
      match event
      case Admit(data, priority, copied, session) =>
        if data != [] { var ok := AdmitLocked(data, priority, copied, session); }
      case Drain(takes) =>
        var wrote := DrainLocked(takes);
      case _ =>
        SessionStep(event);
    }

    ghost function Here(): Where
      reads this
    {
      Where(phase, sessions)
    }

    /** In every interleaving of the steps of sessions, sends and drains a session's stream is whole if
        and only if it began so (Announce) and no send of an earlier session was admitted in it
        (AdmitLocked). Where no send reaches the mutex but in the session it saw, and no drain outside a
        session, every stream is whole, and between sessions nothing is left over. */
    method Run(events: seq<Event>)
      requires Valid()
      modifies this, queue, queue.slots
      ensures Valid() && (phase == On ==> (Faithful() <==> intact))
      ensures old(Sound()) && Orderly(old(Here()), events) ==> Sound()
    {
      ghost var sound := Sound() && Orderly(Here(), events);
      var i := 0;
      assert events[0..] == events;
      while i < |events|
        invariant i <= |events| && Valid()
        invariant sound ==> Sound() && Orderly(Here(), events[i..])
      {
        assert events[i..][0] == events[i] && events[i..][1..] == events[i + 1..];
        Perform(events[i]);
        i := i + 1;
      }
    }
  }

  /** A frame added at the end of what is queued and of what is admitted. */
  lemma AdmittedKeeps(fifo: Bytes, pending: Bytes, admitted: seq<Bytes>, data: Bytes)
    ensures fifo + (pending + data) == Flatten(admitted + [data]) <==> fifo + pending == Flatten(admitted)
    ensures |Flatten(admitted + [data])| == |Flatten(admitted)| + |data|
  {
    FlattenSnoc(admitted, data);
    Assoc(fifo, pending, data);
    SameTail(fifo + pending, Flatten(admitted), data);
  }

  /** The condition is needed: a send that saw the old session and reaches the mutex while the next one
      opens is the first the new host receives. */
  method StraySendLeaks(data: Bytes) returns (server: UsbServer)
    requires data != []
    ensures server.Valid() && server.phase == On && server.admitted == [] && !server.Faithful()
    ensures server.fifo + server.queue.Pending() == data
  {
    server := new UsbServer();
    server.OpenSession();
    server.CloseSession();
    server.EmptyQueue(Opening);
    var ok := server.AdmitLocked(data, Normal, true, 1);
    server.Announce();
  }

  /** So is a drain: a stray frame in the FIFO survives the emptying of the queue. */
  method StrayDrainLeaks(data: Bytes) returns (server: UsbServer)
    requires data != []
    ensures server.Valid() && server.phase == On && server.admitted == [] && !server.Faithful() && server.fifo == data
  {
    server := StrayFrame(data);
    LoneAbsorbed(server.queue.frames, |data|);
    var wrote := server.DrainLocked([|data|]);
    WholePrefix(server.fifo, server.queue.Pending(), data);
    server.OpenSession();
  }

  /** A frame queued between two sessions. */
  method StrayFrame(data: Bytes) returns (server: UsbServer)
    requires data != []
    ensures fresh(server) && fresh(server.queue) && fresh(server.queue.slots) && server.Valid() && server.phase == Off
    ensures server.fifo == [] && server.queue.Pending() == data && server.queue.count == 1
  {
    server := new UsbServer();
    server.OpenSession();
    server.CloseSession();
    var ok := server.AdmitLocked(data, Normal, true, 1);
  }

  lemma LoneAbsorbed(frames: seq<Queued>, n: nat)
    requires Writable(frames) && |frames| == 1 && n == |Rests(frames)|
    ensures Absorbed(frames, [n]) == n
  {
    LoneFrame(frames);
    AbsorbedStops(frames, [n], 1);
  }

  /** And a send that saw the old session and reaches the mutex when the next one has begun. */
  method LateSendLeaks(data: Bytes) returns (server: UsbServer)
    requires data != []
    ensures server.Valid() && server.phase == On && server.admitted == [] && !server.Faithful()
    ensures server.fifo + server.queue.Pending() == data
  {
    server := new UsbServer();
    server.OpenSession();
    server.CloseSession();
    server.OpenSession();
    var ok := server.AdmitLocked(data, Normal, true, 1);
  }
}
