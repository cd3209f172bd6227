/** The TCP byte stream: one active client whose socket takes what it can of the queued frames. */
module TcpServer {
  import opened Common
  import opened SendQueue

  /** The socket's answer to one send(): `Took(n)` of the bytes offered, a transient shortage (EAGAIN,
      EWOULDBLOCK, ENOMEM, ENOBUFS), or any other error. */
  datatype Answer = Took(n: nat) | Again | Error

  /** One step of some task, up to the next place where another may get in. `granted` says that the mutex
      was obtained in time. close_client is two steps: it takes the client, then empties the queue. */
  datatype Event =
    | Accepted(fd: nat)
    | Offer(data: Bytes, priority: Priority, granted: bool, copied: bool)
    | SocketReady(granted: bool, answers: seq<Answer>)
    | CloseBegins
    | CloseEnds

  /** Whether there is a client, and how many closes are between their halves. */
  datatype Phase = Phase(active: bool, closing: nat)

  function After(p: Phase, e: Event): Phase {
    match e
    case Accepted(_) => p.(active := true)
    case CloseBegins => Phase(false, if p.active then p.closing + 1 else p.closing)
    case CloseEnds => p.(closing := if p.closing > 0 then p.closing - 1 else 0)
    case _ => p
  }

  /** No client is accepted while a close is half done. */
  predicate Orderly(p: Phase, events: seq<Event>)
    decreases |events|
  {
    events == [] || ((events[0].Accepted? && !p.active ==> p.closing == 0) && Orderly(After(p, events[0]), events[1..]))
  }

  /** How many bytes the socket takes of these frames, one answer a frame, and whether it breaks. */
  datatype Result = Result(taken: nat, broken: bool)

  ghost function Exchange(frames: seq<Queued>, answers: seq<Answer>): Result
    requires Writable(frames)
  {
    if frames == [] || answers == [] then Result(0, false)
    else
      var size := |Rest(frames[0])|;
      match answers[0]
      case Again => Result(0, false)
      case Error => Result(0, true)
      case Took(n) =>
        if n == 0 then Result(0, true)
        else if n < size then Result(n, false)
        else var later := Exchange(frames[1..], answers[1..]); Result(size + later.taken, later.broken)
  }

  /** The answer takes all of the k-th frame. */
  ghost predicate TakenWhole(frames: seq<Queued>, answers: seq<Answer>, k: nat)
    requires Writable(frames) && k < |frames| && k < |answers|
  {
    answers[k].Took? && answers[k].n >= |Rest(frames[k])|
  }

  /** The frames in front of the first that is not taken whole are written, of that one what its answer takes,
      and nothing behind it; its answer breaks the client if it is an error or takes nothing. */
  lemma {:induction false} ExchangeStops(frames: seq<Queued>, answers: seq<Answer>, k: nat)
    requires Writable(frames) && k <= |frames| && k <= |answers|
    requires forall j :: 0 <= j < k ==> TakenWhole(frames, answers, j)
    requires k < |frames| && k < |answers| ==> !TakenWhole(frames, answers, k)
    ensures var x := Exchange(frames, answers);
      if k == |frames| || k == |answers| then
        x.taken == |Rests(frames)| - |Rests(frames[k..])| && !x.broken
      else
        && x.taken == |Rests(frames)| - |Rests(frames[k..])| + (if answers[k].Took? then answers[k].n else 0)
        && x.broken == (answers[k] == Error || answers[k] == Took(0))
  {
    if k > 0 {
      assert TakenWhole(frames, answers, 0);
      forall j | 0 <= j < k - 1 ensures TakenWhole(frames[1..], answers[1..], j) {
        assert TakenWhole(frames, answers, j + 1);
      }
      ExchangeStops(frames[1..], answers[1..], k - 1);
      assert frames[1..][k - 1..] == frames[k..];
    } else {
      assert frames[0..] == frames;
    }
  }

  class TcpServer {
    const queue: SendQueue
    var client: int
    /** Closes between their two halves. */
    var closing: nat

    /** Frames admitted for, and bytes written to, the current client; whether its stream is whole. */
    ghost var admitted: seq<Bytes>
    ghost var wire: Bytes
    ghost var intact: bool

    ghost predicate Valid()
      reads this, queue, queue.slots
    {
      && queue.Valid() && client >= -1
      && (client >= 0 ==> (Faithful() <==> intact))
      && (client < 0 && closing == 0 ==> queue.Pending() == [])
    }

    /** The client has received, or will, exactly the frames admitted for it, in order. */
    ghost predicate Faithful()
      reads this, queue, queue.slots
      requires queue.Valid()
    {
      wire + queue.Pending() == Flatten(admitted)
    }

    /** Every client's stream is whole, and without a client nothing is queued, but for a close half done. */
    ghost predicate Sound()
      reads this, queue, queue.slots
      requires queue.Valid()
    {
      && (client >= 0 ==> closing == 0 && Faithful())
      && (client < 0 && closing == 0 ==> queue.Pending() == [])
    }

    ghost function Where(): Phase
      reads this
    {
      Phase(client >= 0, closing)
    }

    constructor ()
      ensures Valid() && client < 0 && closing == 0 && queue.count == 0 && fresh(queue) && fresh(queue.slots)
    {
      queue := new SendQueue();
      client, admitted, wire, closing, intact := -1, [], [], 0, true;
    }

    /** Only the first connection becomes the active client. Whatever is still queued then would be its
        first bytes: its stream begins whole exactly when nothing is. */
    method Accept(fd: nat) returns (active: bool)
      requires Valid()
      modifies this`client, this`admitted, this`wire, this`intact
      ensures Valid() && active == (old(client) < 0)
      ensures active ==> client == fd && admitted == [] && wire == []
      ensures active ==> (Faithful() <==> queue.Pending() == [])
      ensures active && closing == 0 ==> Faithful()
      ensures !active ==> client == old(client) && admitted == old(admitted) && wire == old(wire) && intact == old(intact)
    {
      active := client < 0;
      if active {
        client := fd;
        admitted, wire := [], [];
        intact := queue.Pending() == [];
      }
    }

    /** A frame is queued whole or not at all. */
    method Send(data: Bytes, priority: Priority, granted: bool, copied: bool) returns (ok: bool)
      requires Valid()
      modifies this`admitted, queue`count, queue`frames, queue.slots
      ensures Valid()
      ensures ok <==> data != [] && granted && client >= 0 && Admissible(priority, old(queue.count)) && copied
      ensures admitted == if ok then old(admitted) + [data] else old(admitted)
      ensures queue.Pending() == if ok then old(queue.Pending()) + data else old(queue.Pending())
      ensures queue.count == if ok then old(queue.count) + 1 else old(queue.count)
      ensures client >= 0 ==> (Faithful() <==> old(Faithful()))
    {
      ok := false;
      if data == [] || !granted { return; }
      if client >= 0 {
        ghost var before := queue.Pending();
        ok := queue.Admit(data, priority, copied);
        if ok {
          AdmittedKeeps(wire, before, admitted, data);
          admitted := admitted + [data];
        }
      }
    }

    /** Hands the socket `n` bytes of the oldest frame. */
    method WriteFront(front: Bytes, n: nat) returns (done: bool)
      requires Valid() && client >= 0 && queue.count > 0 && front == Rest(queue.frames[0]) && 0 < n <= |front|
      requires front <= queue.Pending()
      modifies this`wire, queue, queue.slots
      ensures Valid() && wire + queue.Pending() == old(wire + queue.Pending()) && |wire| == |old(wire)| + n && old(wire) <= wire
      ensures done <==> n == |front|
      ensures queue.frames == if done then old(queue.frames)[1..]
                              else [old(queue.frames)[0].(offset := old(queue.frames)[0].offset + n)] + old(queue.frames)[1..]
    {
      Carry(wire, queue.Pending(), n);
      assert queue.Pending()[..n] == front[..n];
      wire := wire + front[..n];
      done := queue.Advance(n);
    }

    /** Writes what the socket takes, from the head of the queue on, and stops at a frame it takes only
        in part. */
    method Write(answers: seq<Answer>) returns (broken: bool)
      requires Valid() && client >= 0
      modifies this`wire, queue, queue.slots
      ensures Valid() && wire + queue.Pending() == old(wire + queue.Pending())
      ensures |wire| == |old(wire)| + Exchange(old(queue.frames), answers).taken
      ensures broken == Exchange(old(queue.frames), answers).broken
    {
      broken := false;
      var i, more := 0, true;
      ghost var x := Exchange(queue.frames, answers);
      while more && queue.count != 0 && i < |answers|
        invariant Valid() && i <= |answers|
        invariant wire + queue.Pending() == old(wire + queue.Pending())
        invariant more ==> |wire| - |old(wire)| + Exchange(queue.frames, answers[i..]).taken == x.taken
        invariant more ==> Exchange(queue.frames, answers[i..]).broken == x.broken && !broken
        invariant !more ==> |wire| - |old(wire)| == x.taken && broken == x.broken
      {
        var front := queue.Front();
        var answer := answers[i];
        assert answers[i..][1..] == answers[i + 1..];
        if answer.Took? && answer.n > 0 {
          more := WriteFront(front, if answer.n < |front| then answer.n else |front|);
        } else {
          more := false;
          broken := answer != Again;
        }
        i := i + 1;
      }
    }

    /** The mutex section of one pass over the writable socket. */
    method DrainLocked(granted: bool, answers: seq<Answer>) returns (broken: bool)
      requires Valid()
      modifies this`wire, queue, queue.slots
      ensures Valid()
      ensures !granted || client < 0 ==> !broken && wire == old(wire) && queue.Pending() == old(queue.Pending())
      ensures granted && client >= 0 ==>
        var x := Exchange(old(queue.frames), answers);
        && broken == x.broken && old(wire) <= wire && |wire| == |old(wire)| + x.taken
        && wire + queue.Pending() == old(wire + queue.Pending())
    {
      broken := false;
      if granted && client >= 0 {
        ghost var all, was := wire + queue.Pending(), wire;
        broken := Write(answers);
        assert all[..|was|] == was && all[..|wire|] == wire;
      }
    }

    /** One pass; a broken client is closed. */
    method Drain(granted: bool, answers: seq<Answer>)
      requires Valid()
      modifies this`wire, this`client, this`closing, this`intact, queue, queue.slots
      ensures Valid() && closing == old(closing)
      ensures client == if granted && old(client) >= 0 && Exchange(old(queue.frames), answers).broken then -1 else old(client)
      ensures client == old(client) ==> wire + queue.Pending() == old(wire + queue.Pending())
      ensures client != old(client) ==> queue.Pending() == []
    {
      var broken := DrainLocked(granted, answers);
      if broken { Close(); }
    }

    /** First half of close_client: the client is gone, its queue still there. */
    method CloseBegin()
      requires Valid()
      modifies this`client, this`closing
      ensures Valid() && client == -1
      ensures closing == if old(client) >= 0 then old(closing) + 1 else old(closing)
    {
      if client >= 0 { closing := closing + 1; }
      client := -1;
    }

    /** Second half: the queue is emptied. A client accepted in between keeps a whole stream exactly when
        all its bytes had already been written, and no others. */
    method CloseEnd()
      requires Valid() && closing > 0
      modifies this`closing, this`intact, queue
      ensures Valid() && queue.Pending() == [] && closing == old(closing) - 1
      ensures client >= 0 ==> (Faithful() <==> wire == Flatten(admitted))
      ensures client >= 0 && old(intact) ==> (Faithful() <==> old(queue.count) == 0)
    {
      if queue.count > 0 { SomethingPending(queue.frames); }
      ShorterIsLess(wire, queue.Pending(), Flatten(admitted));
      queue.Reset();
      closing := closing - 1;
      Assoc(wire, [], []);
      intact := wire == Flatten(admitted);
    }

    method Close()
      requires Valid()
      modifies this`client, this`closing, this`intact, queue
      ensures Valid() && client == -1 && closing == old(closing)
      ensures old(client) >= 0 ==> queue.Pending() == []
    {
      var had := client >= 0;
      CloseBegin();
      if had { CloseEnd(); }
    }

    /** One step. The stream of a client that stays is as whole as before, unless a half-done close ends
        under it. */
    method Perform(event: Event)
      requires Valid()
      modifies this, queue, queue.slots
      ensures Valid() && Where() == After(old(Where()), event)
      ensures old(Sound()) && (event.Accepted? && old(client) < 0 ==> old(closing) == 0) ==> Sound()
      ensures old(client) >= 0 && client >= 0 && !(event.CloseEnds? && old(closing) > 0) ==> intact == old(intact)
    {
      match event
      case Accepted(fd) =>
        var active := Accept(fd);
      case Offer(data, priority, granted, copied) =>
        var ok := Send(data, priority, granted, copied);
      case SocketReady(granted, answers) =>
        var broken := DrainLocked(granted, answers);
      case CloseBegins =>
        CloseBegin();
      case CloseEnds =>
        if closing > 0 { CloseEnd(); }
    }

    /** In every interleaving of accepts, sends, writes and halves of closes the bookkeeping is exact:
        the current client's stream is whole if and only if `intact`, which is decided where a client
        is accepted and where a half-done close ends under one. Where no accept finds a close half done
        every stream is whole, and without a client nothing is queued but for a close half done. */
    method Run(events: seq<Event>)
      requires Valid()
      modifies this, queue, queue.slots
      ensures Valid() && (client >= 0 ==> (Faithful() <==> intact))
      ensures old(Sound()) && Orderly(old(Where()), events) ==> Sound()
    {
      ghost var sound := Sound() && Orderly(Where(), events);
      var i := 0;
      assert events[0..] == events;
      while i < |events|
        invariant i <= |events| && Valid()
        invariant sound ==> Sound() && Orderly(Where(), events[i..])
      {
        assert events[i..][0] == events[i] && events[i..][1..] == events[i + 1..];
        Perform(events[i]);
        i := i + 1;
      }
    }
  }

  lemma ShorterIsLess(wire: Bytes, pending: Bytes, stream: Bytes)
    ensures wire + pending == stream ==> (wire == stream <==> pending == [])
  {
  }

  /** A frame added at the end of what is queued and of what is admitted. */
  lemma AdmittedKeeps(wire: Bytes, pending: Bytes, admitted: seq<Bytes>, data: Bytes)
    ensures wire + (pending + data) == Flatten(admitted + [data]) <==> wire + pending == Flatten(admitted)
  {
    FlattenSnoc(admitted, data);
    Assoc(wire, pending, data);
    SameTail(wire + pending, Flatten(admitted), data);
  }

  method OneFrameQueued(data: Bytes) returns (server: TcpServer)
    requires data != []
    ensures fresh(server) && fresh(server.queue) && fresh(server.queue.slots)
    ensures server.Valid() && server.client == 1 && server.closing == 0
    ensures server.queue.count == 1 && server.queue.Pending() == data
  {
    server := new TcpServer();
    var active := server.Accept(1);
    var ok := server.Send(data, Normal, true, true);
  }

  /** The condition is needed: a client accepted between the halves of a close from another task receives
      what was queued for its predecessor. */
  method OvertakenCloseLeaks(data: Bytes) returns (server: TcpServer)
    requires data != []
    ensures server.Valid() && server.client == 2 && server.closing == 1
    ensures server.admitted == [] && server.wire == data && !server.intact
  {
    server := OneFrameQueued(data);
    server.CloseBegin();
    var active := server.Accept(2);
    LoneFrame(server.queue.frames);
    assert Exchange(server.queue.frames[1..], []) == Result(0, false);
    var broken := server.DrainLocked(true, [Took(|data|)]);
    WholePrefix(server.wire, server.queue.Pending(), data);
  }
}
