/** The radio scheduler: strict priorities, one confirm-gated frame outstanding, telemetry beside it. */
module TxScheduler {
  import opened Common
  import opened TxQueues

  const MIN_FRAME := 40
  const MAX_FRAME := 250
  const DEFAULT_TIMEOUT := 250
  const U64 := 0x1_0000_0000_0000_0000

  /** Unsigned 64-bit subtraction. */
  function Elapsed(now: nat, since: nat): (d: nat)
    ensures since <= now < U64 ==> d == now - since
  {
    (now - since) % U64
  }

  /** A step of another task: a producer's enqueue, a whole on_delivery, the second half of an
      on_delivery whose check was made earlier, one round of pump_telemetry. `busy` says that the
      queue's lock was found taken; `header` is what decoding the frame gives; `of` says which of the
      frames taken so far, by its number, the callback is about, which the code is not told. */
  datatype Other =
    | Offer(data: Option<Frame>, header: Option<Header>, busy: bool)
    | Deliver(ok: bool, of: nat)
    | LateStore(ok: bool, of: nat)
    | TelemetryRound(ok: bool, busy: bool)

  /** Without the telemetry lane, which has a timer of its own. */
  predicate Quiet(steps: seq<Other>) {
    forall i :: 0 <= i < |steps| ==> !steps[i].TelemetryRound?
  }

  /** What other tasks do during one pass of the pump, which locks it finds taken, and the radio's answer. */
  datatype World = World(first: seq<Other>, looks: seq<seq<Other>>, busy: seq<bool>, before: seq<Other>, during: seq<Other>,
                         radio_ok: bool)

  datatype Call = Call(now: nat, world: World)

  /** The time of the last of the first `i` calls. */
  function Clock(calls: seq<Call>, i: nat, e: nat): nat
    requires i <= |calls|
  {
    if i == 0 then e else calls[i - 1].now
  }

  /** The calls follow each other, and `e`, within `g`, and find the lock of the first class free. */
  ghost predicate Paced(calls: seq<Call>, e: nat, g: nat) {
    forall i :: 0 <= i < |calls| ==> PacedAt(calls, i, e, g)
  }

  ghost predicate PacedAt(calls: seq<Call>, i: nat, e: nat, g: nat)
    requires i < |calls|
  {
    && |calls[i].world.looks| == |calls[i].world.busy| == CLASSES && !calls[i].world.busy[COMMAND_RESULT]
    && Clock(calls, i, e) <= calls[i].now <= Clock(calls, i, e) + g && calls[i].now < U64
  }

  class TxScheduler {
    var queues: seq<Queue>
    var radio_set: bool
    var telemetry_set: bool
    var timeout: nat
    var pending: Frame
    var since: nat
    var awaiting: bool
    var event: nat
    var accepted: nat
    var delivered: nat
    var timeouts: nat
    var dropped: nat
    var failed: nat
    var queued_by: seq<nat>
    var dropped_by: seq<nat>
    var telemetry_sent: nat
    var telemetry_dropped: nat

    /** What has happened so far; `held`: the pump has taken a frame and not yet handed it to the radio. */
    ghost var books: Books
    ghost var held: bool

    /** Whose callbacks came when, and what became of them. */
    ghost var callbacks: Callbacks

    ghost predicate Valid()
      reads this
    {
      && timeout > 0 && event <= 2 && |queued_by| == CLASSES && |dropped_by| == CLASSES
      && |books.telemetry| == telemetry_sent + telemetry_dropped
      && Balanced(queues, books, callbacks, Counters(), awaiting || held, awaiting && !held && event != 0)
    }

    function Counters(): Totals
      reads this
    {
      Totals(accepted, delivered, failed, timeouts, dropped)
    }

    ghost function Waits(): seq<seq<Frame>>
      reads this
      requires AllWellFormed(queues)
    {
      Lines(queues)
    }

    ghost function See(): View
      reads this
      requires AllWellFormed(queues)
    {
      View(books.sent, Lines(queues), awaiting, since)
    }

    constructor ()
      ensures Valid() && !awaiting && !held && callbacks == Callbacks(0, [], [], false) && books == NoBooks && accepted == 0 && !radio_set
    {
      queues := NoQueues;
      radio_set, telemetry_set, timeout := false, false, DEFAULT_TIMEOUT;
      pending, since, awaiting, event := [], 0, false, 0;
      accepted, delivered, timeouts, dropped, failed := 0, 0, 0, 0, 0;
      queued_by, dropped_by := seq(CLASSES, _ => 0), seq(CLASSES, _ => 0);
      telemetry_sent, telemetry_dropped := 0, 0;
      books, held := NoBooks, false;
      callbacks := Callbacks(0, [], [], false);
      new;
      EmptyStock();
    }

    method Configure(delivery_timeout: nat)
      requires Valid()
      modifies this`radio_set, this`timeout
      ensures Valid() && radio_set && timeout == if delivery_timeout == 0 then 250 else delivery_timeout
    {
      radio_set := true;
      timeout := if delivery_timeout == 0 then DEFAULT_TIMEOUT else delivery_timeout;
    }

    method ConfigureTelemetry()
      requires Valid()
      modifies this`telemetry_set
      ensures Valid() && telemetry_set
    {
      telemetry_set := true;
    }

    // -------------------------------------------------------------------------
    // Producers
    // -------------------------------------------------------------------------

    method Reject()
      requires Valid()
      modifies this`dropped, this`books
      ensures Valid() && dropped == old(dropped) + 1 && books == old(books).(rejections := old(books).rejections + 1)
    {
      dropped := dropped + 1;
      books := books.(rejections := books.rejections + 1);
    }

    method Append(c: nat, f: Frame)
      requires Valid() && c < CLASSES && queues[c].count < Capacity(c)
      modifies this`queues, this`accepted, this`queued_by, this`books
      ensures Valid() && Waits() == old(Waits())[c := old(Waits())[c] + [f]]
      ensures books == Admit(old(books), c, f)
      ensures accepted == old(accepted) + 1 && queued_by == old(queued_by)[c := old(queued_by)[c] + 1]
    {
      StockAdmit(queues, books, accepted, c, f);
      queues := queues[c := Push(queues[c], f, Capacity(c))];
      accepted := accepted + 1;
      queued_by := queued_by[c := queued_by[c] + 1];
      books := Admit(books, c, f);
    }

    /** A frame is admitted exactly when it has a legal size, decodes, and finds its class's lock free
        and its queue below capacity; it then joins the end of that queue and nothing else moves. */
    method Enqueue(data: Option<Frame>, header: Option<Header>, busy: bool) returns (ok: bool)
      requires Valid()
      modifies this`queues, this`accepted, this`dropped, this`queued_by, this`dropped_by, this`books
      ensures Valid()
      ensures ok <==> data.Some? && 40 <= |data.value| <= 250 && header.Some? && !busy
                      && |old(Waits())[Classify(header.value)]| < (if Classify(header.value) in {0, 3, 5} then 8 else 16)
      ensures ok ==> Waits() == old(Waits())[Classify(header.value) := old(Waits())[Classify(header.value)] + [data.value]]
      ensures ok ==> books == Admit(old(books), Classify(header.value), data.value) && accepted == old(accepted) + 1
      ensures !ok ==> Waits() == old(Waits()) && accepted == old(accepted)
                      && books == old(books).(rejections := old(books).rejections + 1) && dropped == old(dropped) + 1
    {
      ok := false;
      if data.None? || |data.value| < MIN_FRAME || |data.value| > MAX_FRAME || header.None? {
        Reject();
      } else {
        var c := Classify(header.value);
        if busy || queues[c].count >= Capacity(c) {
          Reject();
          dropped_by := dropped_by[c := dropped_by[c] + 1];
        } else {
          Append(c, data.value);
          ok := true;
        }
      }
    }

    // -------------------------------------------------------------------------
    // The radio's callback
    // -------------------------------------------------------------------------

    /** The store may mislead the pump exactly if the frame that is out is another one; while none is out,
        or none has been handed to the radio yet, it is overwritten before the pump looks. */
    method StoreEvent(ok: bool, ghost of: nat)
      requires Valid()
      modifies this`event, this`callbacks
      ensures Valid() && event == (if ok then 1 else 2)
      ensures callbacks == Stored(old(callbacks), of, awaiting && !held && of != |books.fates|)
    {
      event := if ok then 1 else 2;
      callbacks := Stored(callbacks, of, awaiting && !held && of != |books.fates|);
    }

    method OnDelivery(ok: bool, ghost of: nat)
      requires Valid()
      modifies this`event, this`callbacks
      ensures Valid() && event == if !awaiting then old(event) else if ok then 1 else 2
      ensures callbacks == if awaiting then Stored(old(callbacks), of, !held && of != |books.fates|) else old(callbacks)
    {
      if awaiting { StoreEvent(ok, of); }
    }

    // -------------------------------------------------------------------------
    // The telemetry lane
    // -------------------------------------------------------------------------

    /** The oldest telemetry frame leaves its queue. */
    method TakeTelemetry(ok: bool)
      requires Valid() && queues[TELEMETRY].count > 0
      modifies this`queues, this`books, this`telemetry_sent, this`telemetry_dropped
      ensures Valid()
      ensures old(Waits())[TELEMETRY] != [] && Waits() == old(Waits())[TELEMETRY := old(Waits())[TELEMETRY][1..]]
      ensures books == old(books).(telemetry := old(books).telemetry + [old(Waits())[TELEMETRY][0]])
      ensures telemetry_sent == old(telemetry_sent) + (if ok then 1 else 0)
      ensures telemetry_dropped == old(telemetry_dropped) + (if ok then 0 else 1)
    {
      StockTelemetry(queues, books, accepted);
      books := books.(telemetry := books.telemetry + [queues[TELEMETRY].frames[queues[TELEMETRY].read]]);
      queues := queues[TELEMETRY := Pop(queues[TELEMETRY], Capacity(TELEMETRY))];
      if ok {
        telemetry_sent := telemetry_sent + 1;
      } else {
        telemetry_dropped := telemetry_dropped + 1;
      }
    }

    /** One round: the oldest telemetry frame is sent, or lost if the radio refuses it. */
    method TelemetryStep(ok: bool, busy: bool) returns (popped: bool)
      requires Valid()
      modifies this`queues, this`books, this`telemetry_sent, this`telemetry_dropped
      ensures Valid()
      ensures popped <==> !busy && old(Waits())[TELEMETRY] != []
      ensures !popped ==> Waits() == old(Waits()) && books == old(books)
      ensures telemetry_dropped == old(telemetry_dropped) + (if popped && !ok then 1 else 0)
      ensures popped ==> Waits() == old(Waits())[TELEMETRY := old(Waits())[TELEMETRY][1..]]
      ensures popped ==> books == old(books).(telemetry := old(books).telemetry + [old(Waits())[TELEMETRY][0]])
      ensures telemetry_sent == old(telemetry_sent) + (if popped && ok then 1 else 0)
    {
      popped := !busy && queues[TELEMETRY].count > 0;
      if popped { TakeTelemetry(ok); }
    }

    // -------------------------------------------------------------------------
    // Other tasks, at the points where the pump holds no lock
    // -------------------------------------------------------------------------

    /** A callback that is about another frame than the one that is out. */
    ghost predicate Strays(other: Other)
      reads this
    {
      && awaiting && !held
      && ((other.Deliver? && other.of != |books.fates|) || (other.LateStore? && other.of != |books.fates|))
    }

    method OtherStep(other: Other)
      requires Valid()
      modifies this`queues, this`accepted, this`dropped, this`queued_by, this`dropped_by, this`books,
               this`event, this`callbacks, this`telemetry_sent, this`telemetry_dropped
      ensures Valid() && Grown(old(Waits()), Waits())
      ensures books.sent == old(books).sent && books.fates == old(books).fates
      ensures callbacks.strayed == (old(callbacks.strayed) || Strays(other)) && SameBooked(old(callbacks), callbacks)
      ensures !other.TelemetryRound? ==> telemetry_sent == old(telemetry_sent) && telemetry_dropped == old(telemetry_dropped)
      ensures !other.TelemetryRound? ==> books.telemetry == old(books).telemetry && old(Waits())[TELEMETRY] <= Waits()[TELEMETRY]
    {
      match other
      case Offer(data, header, busy) =>
        var ok := Enqueue(data, header, busy);
      case Deliver(ok, of) =>
        OnDelivery(ok, of);
      case LateStore(ok, of) =>
        StoreEvent(ok, of);
      case TelemetryRound(ok, busy) =>
        if telemetry_set { var popped := TelemetryStep(ok, busy); }
    }

    method Others(steps: seq<Other>)
      requires Valid()
      modifies this`queues, this`accepted, this`dropped, this`queued_by, this`dropped_by, this`books,
               this`event, this`callbacks, this`telemetry_sent, this`telemetry_dropped
      ensures Valid() && Grown(old(Waits()), Waits())
      ensures books.sent == old(books).sent && books.fates == old(books).fates
      ensures Quiet(steps) ==> telemetry_sent == old(telemetry_sent) && telemetry_dropped == old(telemetry_dropped)
      ensures Quiet(steps) ==> books.telemetry == old(books).telemetry && old(Waits())[TELEMETRY] <= Waits()[TELEMETRY]
      ensures steps == [] ==> event == old(event) && callbacks == old(callbacks)
      ensures SameBooked(old(callbacks), callbacks)
    {
      var i := 0;
      while i < |steps|
        invariant i <= |steps| && Valid() && Grown(old(Waits()), Waits())
        invariant books.sent == old(books).sent && books.fates == old(books).fates
        invariant Quiet(steps) ==> telemetry_sent == old(telemetry_sent) && telemetry_dropped == old(telemetry_dropped)
        invariant Quiet(steps) ==> books.telemetry == old(books).telemetry && old(Waits())[TELEMETRY] <= Waits()[TELEMETRY]
        invariant i == 0 ==> event == old(event) && callbacks == old(callbacks)
        invariant SameBooked(old(callbacks), callbacks)
      {
        OtherStep(steps[i]);
        i := i + 1;
      }
    }

    // -------------------------------------------------------------------------
    // The pump
    // -------------------------------------------------------------------------

    /** Books the fate of the outstanding frame. */
    method Close(fate: Fate, ghost found: Option<Finding>)
      requires Valid() && awaiting && !held
      requires found.Some? ==> found.value.outstanding == |books.fates|
      requires found.Some? && !callbacks.strayed ==> !Foreign(found.value)
      modifies this`awaiting, this`delivered, this`failed, this`timeouts, this`dropped, this`books, this`callbacks
      ensures Valid() && !awaiting && books == old(books).(fates := old(books).fates + [fate])
      ensures callbacks == Booked(old(callbacks), found)
    {
      BalancedClose(queues, books, callbacks, Counters(), event != 0, fate, found);
      CountFate(fate);
      callbacks := Booked(callbacks, found);
      books := books.(fates := books.fates + [fate]);
      awaiting := false;
    }

    method CountFate(fate: Fate)
      modifies this`delivered, this`failed, this`timeouts, this`dropped
      ensures Counters() == Tallied(old(Counters()), fate)
    {
      if fate == Delivered {
        delivered := delivered + 1;
      } else {
        if fate == DeliveryFailed {
          failed := failed + 1;
        } else if fate == TimedOut {
          timeouts := timeouts + 1;
        }
        dropped := dropped + 1;
      }
    }

    /** The outstanding frame is settled by its event or its age, or the pump must go on waiting. The event
        is taken for the outstanding frame's; the books keep whose it was. */
    method Resolve(now: nat, gap: seq<Other>) returns (free: bool, ghost found: Finding, ghost ended: seq<Fate>)
      requires Valid() && !held
      modifies this`queues, this`accepted, this`dropped, this`queued_by, this`dropped_by, this`books,
               this`event, this`callbacks, this`telemetry_sent, this`telemetry_dropped, this`awaiting, this`delivered, this`failed, this`timeouts
      ensures Valid() && Grown(old(Waits()), Waits()) && books.sent == old(books).sent
      ensures free <==> !awaiting
      ensures gap == [] ==> found == Finding(old(event), old(callbacks).of, |old(books).fates|)
      ensures !old(awaiting) ==> free && books.fates == old(books).fates && callbacks == old(callbacks)
      ensures found.outstanding == |old(books).fates|
      ensures old(awaiting) ==> var fate := Ruling(found.event, Elapsed(now, since) >= timeout);
        && free == fate.Some?
        && books.fates == old(books).fates + (if fate.Some? then [fate.value] else [])
        && SameBooked(if fate.Some? then Booked(old(callbacks), Some(found)) else old(callbacks), callbacks)
      ensures books.fates == old(books).fates + ended && Ends(old(awaiting), found.event, Elapsed(now, since) >= timeout, ended)
    {
      free, found, ended := true, Finding(event, callbacks.of, |books.fates|), [];
      if awaiting {
        Others(gap);
        found := Finding(event, callbacks.of, |books.fates|);
        free := Judge(now);
        ended := books.fates[found.outstanding..];
      }
    }

    /** What the pump finds decides. */
    method Judge(now: nat) returns (free: bool)
      requires Valid() && !held && awaiting
      modifies this`books, this`event, this`awaiting, this`delivered, this`failed, this`timeouts, this`dropped, this`callbacks
      ensures Valid() && Waits() == old(Waits()) && books.sent == old(books).sent && free == !awaiting
      ensures var fate, found := Ruling(old(event), Elapsed(now, since) >= timeout), Finding(old(event), callbacks.of, |old(books).fates|);
        && free == fate.Some?
        && books.fates == old(books).fates + (if fate.Some? then [fate.value] else [])
        && callbacks == if fate.Some? then Booked(old(callbacks), Some(found)) else old(callbacks)
    {
      free := true;
      ghost var look := Some(Finding(event, callbacks.of, |books.fates|));
      var found := event;
      event := 0;
      if found == 1 {
        Close(Delivered, look);
      } else if found == 2 {
        Close(DeliveryFailed, look);
      } else if Elapsed(now, since) >= timeout {
        Close(TimedOut, look);
      } else {
        free := false;
      }
    }

    /** The oldest frame of class `c` leaves its queue. */
    method PopFrom(c: nat, ghost now: nat)
      requires Valid() && !held && !awaiting && c < CLASSES && c != TELEMETRY && queues[c].count > 0
      modifies this`queues, this`pending, this`books, this`held
      ensures Valid() && held
      ensures old(Waits())[c] != [] && pending == old(Waits())[c][0]
      ensures Waits() == old(Waits())[c := old(Waits())[c][1..]]
      ensures books == old(books).(sent := old(books).sent + [Sent(pending, c, now)])
    {
      var f, after := queues[c].frames[queues[c].read], queues[c := Pop(queues[c], Capacity(c))];
      ghost var s := Sent(f, c, now);
      StockSend(queues, books, accepted, s);
      pending, queues := f, after;
      books, held := books.(sent := books.sent + [s]), true;
    }

    /** Takes the oldest frame of class `c`, unless its lock is taken or it is empty. */
    method TakeFrom(c: nat, busy: bool, ghost now: nat) returns (found: bool)
      requires Valid() && !held && !awaiting && c < CLASSES && c != TELEMETRY
      modifies this`queues, this`pending, this`books, this`held
      ensures Valid()
      ensures found <==> held
      ensures found <==> !busy && old(Waits())[c] != []
      ensures !found ==> Waits() == old(Waits()) && books == old(books)
      ensures found ==> pending == old(Waits())[c][0]
      ensures found ==> Waits() == old(Waits())[c := old(Waits())[c][1..]]
      ensures found ==> books == old(books).(sent := old(books).sent + [Sent(pending, c, now)])
    {
      found := !busy && queues[c].count > 0;
      if found { PopFrom(c, now); }
    }

    /** One look: other tasks run, then the class is tried. */
    method Look(c: nat, gap: seq<Other>, busy: seq<bool>, ghost now: nat, ghost was: seq<seq<Frame>>) returns (found: bool, ghost s: Sent)
      requires Valid() && !held && !awaiting && c < CLASSES && c != TELEMETRY && Grown(was, Waits()) && IdleBelow(was, busy, c)
      modifies this`queues, this`accepted, this`dropped, this`queued_by, this`dropped_by, this`books,
               this`event, this`callbacks, this`telemetry_sent, this`telemetry_dropped, this`pending, this`held
      ensures Valid() && books.fates == old(books).fates && SameBooked(old(callbacks), callbacks)
      ensures found <==> held
      ensures !found ==> Grown(was, Waits()) && books.sent == old(books).sent && IdleBelow(was, busy, c + 1)
      ensures found ==> s == Sent(pending, c, now) && books.sent == old(books).sent + [s]
      ensures found ==> GrownBut(was, Waits(), s) && Precedence(was, s, busy)
    {
      Others(gap);
      ghost var mid := Waits();
      found := TakeFrom(c, busy[c], now);
      s := Sent(pending, c, now);
      if found { TakenAfterGrowth(was, mid, s); }
      assert was[c] <= mid[c];
    }

    /** Looks through the confirm-gated classes in order. */
    method Take(now: nat, gaps: seq<seq<Other>>, busy: seq<bool>, ghost was: seq<seq<Frame>>) returns (found: bool, ghost s: Sent)
      requires Valid() && !held && !awaiting && |gaps| == |busy| == CLASSES && Grown(was, Waits())
      modifies this`queues, this`accepted, this`dropped, this`queued_by, this`dropped_by, this`books,
               this`event, this`callbacks, this`telemetry_sent, this`telemetry_dropped, this`pending, this`held
      ensures Valid() && books.fates == old(books).fates && SameBooked(old(callbacks), callbacks)
      ensures found <==> held
      ensures !found ==> Grown(was, Waits()) && books.sent == old(books).sent
      ensures !found ==> IdleBelow(was, busy, CLASSES)
      ensures found ==> books.sent == old(books).sent + [s] && s.at == now && s.frame == pending
      ensures found ==> Precedence(was, s, busy) && GrownBut(was, Waits(), s)
    {
      found, s := false, Sent([], 0, 0);
      var value := 0;
      while value < CLASSES && !found
        invariant value <= CLASSES && Valid() && books.fates == old(books).fates && !awaiting
        invariant SameBooked(old(callbacks), callbacks)
        invariant found == held
        invariant !found ==> Grown(was, Waits()) && books.sent == old(books).sent
        invariant !found ==> IdleBelow(was, busy, value)
        invariant found ==> books.sent == old(books).sent + [s] && s.at == now && s.frame == pending
        invariant found ==> Precedence(was, s, busy) && GrownBut(was, Waits(), s)
      {
        if value != TELEMETRY {
          found, s := Look(value, gaps[value], busy, now, was);
        }
        value := value + 1;
      }
    }

    /** The frame in hand becomes the outstanding one, before the radio sees it. */
    method Mark(now: nat, gap: seq<Other>)
      requires Valid() && held && !awaiting
      modifies this`queues, this`accepted, this`dropped, this`queued_by, this`dropped_by, this`books, this`held, this`since,
               this`event, this`callbacks, this`telemetry_sent, this`telemetry_dropped, this`awaiting
      ensures Valid() && !held && Grown(old(Waits()), Waits())
      ensures books.sent == old(books).sent && books.fates == old(books).fates
      ensures awaiting && since == now && event == 0 && SameBooked(old(callbacks), callbacks)
    {
      awaiting, since := true, now;
      Others(gap);
      event := 0;
      held := false;
    }

    /** Marks the frame in hand pending and hands it to the radio; a callback may come in between. */
    method Launch(now: nat, before: seq<Other>, during: seq<Other>, radio_ok: bool)
      requires Valid() && held && !awaiting
      modifies this`queues, this`accepted, this`dropped, this`queued_by, this`dropped_by, this`books, this`held, this`since,
               this`event, this`callbacks, this`telemetry_sent, this`telemetry_dropped, this`awaiting, this`delivered, this`failed, this`timeouts
      ensures Valid() && !held && Grown(old(Waits()), Waits()) && books.sent == old(books).sent
      ensures awaiting == radio_ok && since == now
      ensures books.fates == old(books).fates + (if radio_ok then [] else [Refused])
      ensures during == [] ==> event == 0
      ensures SameBooked(if radio_ok then old(callbacks) else Booked(old(callbacks), None), callbacks)
    {
      Mark(now, before);
      OthersOut(during);
      if !radio_ok { Close(Refused, None); }
    }

    /** Others, while the radio has the frame. */
    method OthersOut(steps: seq<Other>)
      requires Valid() && awaiting && !held
      modifies this`queues, this`accepted, this`dropped, this`queued_by, this`dropped_by, this`books,
               this`event, this`callbacks, this`telemetry_sent, this`telemetry_dropped
      ensures Valid() && books.sent == old(books).sent && books.fates == old(books).fates
      ensures SameBooked(old(callbacks), callbacks) && (steps == [] ==> event == old(event))
      ensures forall was :: Grown(was, old(Waits())) ==> Grown(was, Waits())
    {
      Others(steps);
    }

    /** Takes the next frame, if there is one, and launches it. `was` is what the pass began with. */
    method Serve(now: nat, world: World, ghost was: View, ghost elapsed: int) returns (started: bool, ghost result: PumpResult, ghost s: Sent)
      requires Valid() && !held && !awaiting && |world.looks| == |world.busy| == CLASSES
      requires was.sent == books.sent && Grown(was.lines, Waits())
      modifies this`queues, this`accepted, this`dropped, this`queued_by, this`dropped_by, this`books, this`held, this`since, this`pending,
               this`event, this`callbacks, this`telemetry_sent, this`telemetry_dropped, this`awaiting, this`delivered, this`failed, this`timeouts
      ensures Valid() && !held && started == result.Started?
      ensures result.NothingFound? || result.RadioRefused? || result.Started?
      ensures result.Started? ==> world.radio_ok
      ensures Passed(was, See(), now, elapsed, timeout, world.busy, result, s) && Later(old(callbacks), callbacks)
      ensures books.fates == old(books).fates + (if result.RadioRefused? then [Refused] else [])
    {
      started, result := false, NothingFound;
      var found;
      found, s := Take(now, world.looks, world.busy, was.lines);
      if found {
        ghost var mid := Waits();
        Launch(now, world.before, world.during, world.radio_ok);
        LaterGrowth(was.lines, mid, Waits(), s);
        started := world.radio_ok;
        result := if started then Started else RadioRefused;
      }
    }

    /** The rest of a pass once no frame is outstanding. */
    method Continue(now: nat, world: World, ghost was: View, ghost elapsed: int) returns (started: bool, ghost result: PumpResult, ghost s: Sent)
      requires Valid() && !held && !awaiting && |world.looks| == |world.busy| == CLASSES
      requires was.sent == books.sent && Grown(was.lines, Waits())
      modifies this`queues, this`accepted, this`dropped, this`queued_by, this`dropped_by, this`books, this`held, this`since, this`pending,
               this`event, this`callbacks, this`telemetry_sent, this`telemetry_dropped, this`awaiting, this`delivered, this`failed, this`timeouts
      ensures Valid() && !held && started == result.Started? && !result.Waiting?
      ensures if result.NoRadio? then !radio_set else radio_set
      ensures Passed(was, See(), now, elapsed, timeout, world.busy, result, s) && Later(old(callbacks), callbacks)
      ensures books.fates == old(books).fates + (if result.RadioRefused? then [Refused] else [])
    {
      if radio_set {
        started, result, s := Serve(now, world, was, elapsed);
      } else {
        started, result, s := false, NoRadio, Sent([], 0, 0);
      }
    }

    /** One pass of the pump, which settled the outstanding frame as `ended` says. */
    method Pass(now: nat, world: World)
      returns (started: bool, ghost result: PumpResult, ghost s: Sent, ghost found: Finding, ghost ended: seq<Fate>)
      requires Valid() && !held && |world.looks| == |world.busy| == CLASSES
      modifies this`queues, this`accepted, this`dropped, this`queued_by, this`dropped_by, this`books, this`held, this`since, this`pending,
               this`event, this`callbacks, this`telemetry_sent, this`telemetry_dropped, this`awaiting, this`delivered, this`failed, this`timeouts
      ensures Valid() && !held && started == result.Started?
      ensures !old(awaiting) ==> !result.Waiting?
      ensures result.NoRadio? ==> !radio_set
      ensures result.RadioRefused? || result.Started? ==> radio_set
      ensures Passed(old(See()), See(), now, Elapsed(now, old(since)), timeout, world.busy, result, s) && Later(old(callbacks), callbacks)
      ensures result.Waiting? <==> old(awaiting) && ended == []
      ensures Ends(old(awaiting), found.event, Elapsed(now, old(since)) >= timeout, ended)
      ensures books.fates == (old(books).fates + ended) + (if result.RadioRefused? then [Refused] else [])
      ensures world.first == [] ==> found.event == old(event)
    {
      started, result, s := false, Waiting, Sent([], 0, 0);
      ghost var was, elapsed := See(), Elapsed(now, since);
      var free;
      free, found, ended := Resolve(now, world.first);
      ghost var mid := callbacks;
      if free {
        started, result, s := Continue(now, world, was, elapsed);
      }
      LaterStill(old(callbacks), mid, callbacks);
    }

    /** One pass of the pump. An outstanding frame is settled as delivered or failed exactly if the pump finds the
        event 1 or 2, and as timed out exactly if it finds neither and the frame has been out for the timeout. */
    method Pump(now: nat, world: World) returns (started: bool, ghost result: PumpResult, ghost s: Sent, ghost found: Finding)
      requires Valid() && !held && |world.looks| == |world.busy| == CLASSES
      modifies this`queues, this`accepted, this`dropped, this`queued_by, this`dropped_by, this`books, this`held, this`since, this`pending,
               this`event, this`callbacks, this`telemetry_sent, this`telemetry_dropped, this`awaiting, this`delivered, this`failed, this`timeouts
      ensures Valid() && !held && started == result.Started?
      ensures !old(awaiting) ==> !result.Waiting?
      ensures result.NoRadio? ==> !radio_set
      ensures result.RadioRefused? || result.Started? ==> radio_set
      ensures Passed(old(See()), See(), now, Elapsed(now, old(since)), timeout, world.busy, result, s) && Later(old(callbacks), callbacks)
      ensures result.Waiting? <==>
        old(awaiting) && found.event != 1 && found.event != 2 && (now - old(since)) % 0x1_0000_0000_0000_0000 < timeout
      ensures books.fates == old(books).fates
                + (if !old(awaiting) then [] else if found.event == 1 then [Delivered] else if found.event == 2 then [DeliveryFailed]
                   else if (now - old(since)) % 0x1_0000_0000_0000_0000 >= timeout then [TimedOut] else [])
                + (if result.RadioRefused? then [Refused] else [])
      ensures world.first == [] ==> found.event == old(event)
    {
      ghost var ended;
      started, result, s, found, ended := Pass(now, world);
    }

    // -------------------------------------------------------------------------
    // Whole runs
    // -------------------------------------------------------------------------

    /** The ledger a reader of the counters relies on. */
    lemma Ledger()
      requires Valid() && !held
      ensures accepted == delivered + failed + timeouts + Count(books.fates, Refused) + telemetry_sent + telemetry_dropped
                          + Total(Waits()) + (if awaiting then 1 else 0)
      ensures dropped == books.rejections + failed + timeouts + Count(books.fates, Refused)
    {
      EveryFateCounted(books.fates);
    }

    /** Drains telemetry until the radio refuses, which loses that frame and no other, or the queue is
        found empty or locked. `gaps[i]` is what producers do before round i; they are quiet afterwards. */
    method PumpTelemetry(gaps: seq<seq<Other>>, answers: seq<bool>, busy: seq<bool>) returns (sent_any: bool)
      requires Valid() && |answers| == |busy| == |gaps|
      requires forall i :: 0 <= i < |gaps| ==> Quiet(gaps[i])
      modifies this`queues, this`accepted, this`dropped, this`queued_by, this`dropped_by, this`books,
               this`event, this`callbacks, this`telemetry_sent, this`telemetry_dropped
      ensures Valid() && books.sent == old(books).sent && books.fates == old(books).fates
      ensures sent_any <==> telemetry_sent > old(telemetry_sent)
      ensures telemetry_dropped <= old(telemetry_dropped) + 1
      ensures !telemetry_set ==> books == old(books) && Waits() == old(Waits())
      ensures old(Lane()) <= Lane()
      ensures telemetry_set && telemetry_dropped == old(telemetry_dropped) && true !in busy ==> Waits()[TELEMETRY] == []
      ensures telemetry_set && gaps == [] ==>
        && books.telemetry == old(books).telemetry + old(Waits())[TELEMETRY] && Waits()[TELEMETRY] == []
        && telemetry_dropped == old(telemetry_dropped)
    {
      sent_any := false;
      if telemetry_set {
        var round, more := 0, true;
        while more
          invariant Valid() && books.sent == old(books).sent && books.fates == old(books).fates
          invariant sent_any <==> telemetry_sent > old(telemetry_sent)
          invariant telemetry_sent >= old(telemetry_sent)
          invariant old(telemetry_dropped) <= telemetry_dropped <= old(telemetry_dropped) + (if more then 0 else 1)
          invariant gaps == [] ==> telemetry_dropped == old(telemetry_dropped)
          invariant gaps == [] ==> Lane() == old(Lane())
          invariant old(Lane()) <= Lane()
          invariant !more && telemetry_dropped == old(telemetry_dropped) && true !in busy ==> Waits()[TELEMETRY] == []
          decreases more, |gaps| - round, |Waits()[TELEMETRY]|
        {
          var scripted := round < |gaps|;
          var ok, locked := true, false;
          if scripted {
            Others(gaps[round]);
            ok, locked := answers[round], busy[round];
            assert locked ==> true in busy;
            round := round + 1;
          }
          more := LaneStep(ok, locked);
          if more {
            if ok { sent_any := true; } else { more := false; }
          }
        }
      }
    }

    /** The telemetry frames taken and then those that wait, in order. */
    ghost function Lane(): seq<Frame>
      reads this
      requires AllWellFormed(queues)
    {
      books.telemetry + Waits()[TELEMETRY]
    }

    /** TelemetryStep keeps the order. */
    method LaneStep(ok: bool, busy: bool) returns (popped: bool)
      requires Valid()
      modifies this`queues, this`books, this`telemetry_sent, this`telemetry_dropped
      ensures Valid() && Lane() == old(Lane())
      ensures books.sent == old(books).sent && books.fates == old(books).fates
      ensures popped <==> !busy && old(Waits())[TELEMETRY] != []
      ensures |Waits()[TELEMETRY]| == |old(Waits())[TELEMETRY]| - (if popped then 1 else 0)
      ensures telemetry_sent == old(telemetry_sent) + (if popped && ok then 1 else 0)
      ensures telemetry_dropped == old(telemetry_dropped) + (if popped && !ok then 1 else 0)
    {
      popped := TelemetryStep(ok, busy);
      if popped { FrontToBack(old(books).telemetry, old(Waits())[TELEMETRY]); }
    }

    /** A quiet pass in which the outstanding frame has timed out and another waits. */
    method Supersede(now: nat) returns (ghost s: Sent)
      requires Valid() && !held && awaiting && event == 0 && Elapsed(now, since) >= timeout
      requires exists c :: 0 <= c < CLASSES && c != TELEMETRY && Waits()[c] != []
      modifies this`queues, this`accepted, this`dropped, this`queued_by, this`dropped_by, this`books, this`held, this`since, this`pending,
               this`event, this`callbacks, this`telemetry_sent, this`telemetry_dropped, this`awaiting, this`delivered, this`failed, this`timeouts
      ensures Valid() && !held && awaiting && event == 0 && books.sent == old(books).sent + [s]
      ensures books.fates == old(books).fates + [TimedOut] && callbacks.whose == old(callbacks).whose + [None]
    {
      ghost var was := Waits();
      var free;
      ghost var finding, ended;
      free, finding, ended := Resolve(now, []);
      var found;
      found, s := Take(now, seq(CLASSES, _ => []), seq(CLASSES, _ => false), was);
      Launch(now, [], [], true);
    }

    /** The callback of frame number `of`, coming after the frame that was out has timed out and another
        has been launched, is booked as the outcome of the latter, whosever it is: the outcomes stay the
        frames' own exactly if it is the latter's. The other tasks are quiet here. */
    method LateCallback(now: nat, later: nat, arrived: bool, of: nat) returns (ghost s: Sent)
      requires Valid() && !held && awaiting && event == 0 && Elapsed(now, since) >= timeout
      requires exists c :: 0 <= c < CLASSES && c != TELEMETRY && Waits()[c] != []
      modifies this`queues, this`accepted, this`dropped, this`queued_by, this`dropped_by, this`books, this`held, this`since, this`pending,
               this`event, this`callbacks, this`telemetry_sent, this`telemetry_dropped, this`awaiting, this`delivered, this`failed, this`timeouts
      ensures Valid() && !held && !awaiting && books.sent == old(books).sent + [s]
      ensures books.fates == old(books).fates + [TimedOut] + [if arrived then Delivered else DeliveryFailed]
      ensures callbacks.whose == old(callbacks).whose + [None] + [Some(of)]
      ensures AllOwn(callbacks.whose) <==> AllOwn(old(callbacks).whose) && of == |old(books).sent|
    {
      s := Supersede(now);
      OnDelivery(arrived, of);
      var free;
      ghost var found, ended;
      free, found, ended := Resolve(later, []);
      OwnAnyMore(old(callbacks).whose, of);
    }

    /** Over any calls, whatever the other tasks do in them: the outcomes booked are the frames' own if and
        only if the pump never found an event stored by another frame's callback, and so they are if no
        callback was stored while another frame than its own was out; for that it is enough that every
        callback comes before its frame is settled. */
    method AttributionRun(calls: seq<Call>)
      requires Valid() && !held
      requires forall i :: 0 <= i < |calls| ==> |calls[i].world.looks| == |calls[i].world.busy| == CLASSES
      modifies this`queues, this`accepted, this`dropped, this`queued_by, this`dropped_by, this`books, this`held, this`since, this`pending,
               this`event, this`callbacks, this`telemetry_sent, this`telemetry_dropped, this`awaiting, this`delivered, this`failed, this`timeouts
      ensures Valid() && !held && Later(old(callbacks), callbacks)
      ensures |callbacks.whose| == |books.fates| && (AllOwn(callbacks.whose) <==> NoneForeign(callbacks.looks))
      ensures !callbacks.strayed ==> AllOwn(callbacks.whose)
    {
      for i := 0 to |calls|
        invariant Valid() && !held && Later(old(callbacks), callbacks)
      {
        ghost var mid := callbacks;
        var started;
        ghost var result, s, found;
        started, result, s, found := Pump(calls[i].now, calls[i].world);
        LaterStill(old(callbacks), mid, callbacks);
      }
    }

    /** Over any calls, whatever the other tasks do in them: every frame that is settled as timed out had been
        out for at least the timeout then. `when[k]` is the time of the pass that settled the k-th one. */
    method TimeoutRun(calls: seq<Call>) returns (ghost when: seq<nat>)
      requires Valid() && !held && (awaiting ==> since == books.sent[|books.fates|].at)
      requires forall i :: 0 <= i < |calls| ==> |calls[i].world.looks| == |calls[i].world.busy| == CLASSES
      modifies this`queues, this`accepted, this`dropped, this`queued_by, this`dropped_by, this`books, this`held, this`since, this`pending,
               this`event, this`callbacks, this`telemetry_sent, this`telemetry_dropped, this`awaiting, this`delivered, this`failed, this`timeouts
      ensures Valid() && !held && (awaiting ==> since == books.sent[|books.fates|].at)
      ensures old(books).sent <= books.sent && old(books).fates <= books.fates
      ensures |books.fates| == |old(books).fates| + |when| <= |books.sent|
      ensures forall k :: 0 <= k < |when| && books.fates[|old(books).fates| + k] == TimedOut ==>
        (when[k] - books.sent[|old(books).fates| + k].at) % 0x1_0000_0000_0000_0000 >= timeout
    {
      when := [];
      for i := 0 to |calls|
        invariant Valid() && !held && (awaiting ==> since == books.sent[|books.fates|].at)
        invariant old(books).sent <= books.sent && old(books).fates <= books.fates
        invariant Timely(books.sent, books.fates, |old(books).fates|, when, timeout)
      {
        when := TimelyTurn(calls[i], |old(books).fates|, when);
      }
    }

    method TimelyTurn(call: Call, ghost base: nat, ghost when: seq<nat>) returns (ghost longer: seq<nat>)
      requires Valid() && !held && (awaiting ==> since == books.sent[|books.fates|].at)
      requires |call.world.looks| == |call.world.busy| == CLASSES && Timely(books.sent, books.fates, base, when, timeout)
      modifies this`queues, this`accepted, this`dropped, this`queued_by, this`dropped_by, this`books, this`held, this`since, this`pending,
               this`event, this`callbacks, this`telemetry_sent, this`telemetry_dropped, this`awaiting, this`delivered, this`failed, this`timeouts
      ensures Valid() && !held && (awaiting ==> since == books.sent[|books.fates|].at)
      ensures old(books).sent <= books.sent && old(books).fates <= books.fates
      ensures Timely(books.sent, books.fates, base, longer, timeout)
    {
      ghost var was, fates := See(), books.fates;
      var started;
      ghost var result, s, found, ended;
      started, result, s, found, ended := Pass(call.now, call.world);
      longer := TimelyPass(was, fates, See(), books.fates, base, when, call.now, timeout, ended,
                           if result.RadioRefused? then [Refused] else []);
    }

    method PumpTurn(call: Call, ghost t: nat, ghost goal: Goal)
      requires Valid() && !held && radio_set && timeout == goal.timeout
      requires |call.world.looks| == |call.world.busy| == CLASSES && !call.world.busy[COMMAND_RESULT]
      requires t <= call.now <= t + goal.gap && call.now < U64
      requires OnTrack(goal, See(), t) && (awaiting ==> since <= t)
      modifies this`queues, this`accepted, this`dropped, this`queued_by, this`dropped_by, this`books, this`held, this`since, this`pending,
               this`event, this`callbacks, this`telemetry_sent, this`telemetry_dropped, this`awaiting, this`delivered, this`failed, this`timeouts
      ensures Valid() && !held
      ensures OnTrack(goal, See(), call.now) && (awaiting ==> since <= call.now)
    {
      ghost var was := See();
      var started;
      ghost var result, s, found;
      started, result, s, found := Pump(call.now, call.world);
      PassKeepsTrack(goal, was, See(), t, call.now, Elapsed(call.now, was.since), call.world.busy, result, s);
    }

    /** The command results waiting at time `e` are the very next frames the pump takes, whatever else
        is admitted meanwhile; if it is called at gaps of at most `gap`, each by its deadline. */
    method PumpRun(calls: seq<Call>, ghost goal: Goal)
      requires Valid() && !held && radio_set && (awaiting ==> since <= goal.e)
      requires goal.from == |books.sent| && goal.target == Waits()[COMMAND_RESULT] && goal.timeout == timeout
      requires Paced(calls, goal.e, goal.gap)
      modifies this`queues, this`accepted, this`dropped, this`queued_by, this`dropped_by, this`books, this`held, this`since, this`pending,
               this`event, this`callbacks, this`telemetry_sent, this`telemetry_dropped, this`awaiting, this`delivered, this`failed, this`timeouts
      ensures Valid() && !held && OnTrack(goal, See(), Clock(calls, |calls|, goal.e))
    {
      StartsOnTrack(goal, See());
      PumpTurns(calls, 0, goal.e, goal);
    }

    method PumpTurns(calls: seq<Call>, i: nat, ghost t: nat, ghost goal: Goal)
      requires Valid() && !held && radio_set && timeout == goal.timeout && OnTrack(goal, See(), t) && (awaiting ==> since <= t)
      requires i <= |calls| && Paced(calls, goal.e, goal.gap) && t == Clock(calls, i, goal.e)
      modifies this`queues, this`accepted, this`dropped, this`queued_by, this`dropped_by, this`books, this`held, this`since, this`pending,
               this`event, this`callbacks, this`telemetry_sent, this`telemetry_dropped, this`awaiting, this`delivered, this`failed, this`timeouts
      ensures Valid() && !held && OnTrack(goal, See(), Clock(calls, |calls|, goal.e))
      decreases |calls| - i
    {
      if i < |calls| {
        assert PacedAt(calls, i, goal.e, goal.gap);
        PumpTurn(calls[i], t, goal);
        PumpTurns(calls, i + 1, calls[i].now, goal);
      }
    }
  }

  lemma FrontToBack(taken: seq<Frame>, line: seq<Frame>)
    requires line != []
    ensures (taken + [line[0]]) + line[1..] == taken + line
  {
  }

  lemma OwnAnyMore(whose: seq<Option<nat>>, of: nat)
    ensures AllOwn(whose + [None] + [Some(of)]) <==> AllOwn(whose) && of == |whose| + 1
  {
    var all := whose + [None] + [Some(of)];
    assert all[|whose| + 1] == Some(of) && all[|whose|] == None;
    if AllOwn(all) {
      forall i | 0 <= i < |whose| && whose[i].Some? ensures whose[i].value == i { assert all[i] == whose[i]; }
    }
  }
}
