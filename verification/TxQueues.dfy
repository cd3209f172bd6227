/** The radio scheduler's six bounded queues, as values. */
module TxQueues {
  import opened Common

  const CLASSES := 6
  const COMMAND_RESULT := 0
  const STATUS := 1
  const TERMINAL := 2
  const CRITICAL_LOG := 3
  const TELEMETRY := 4
  const DEBUG := 5
  const MAX_CAPACITY := 16

  function Capacity(c: nat): (n: nat)
    ensures 0 < n <= MAX_CAPACITY
  {
    if c == COMMAND_RESULT || c == CRITICAL_LOG || c == DEBUG then 8 else 16
  }

  // ---------------------------------------------------------------------------
  // Priority of a frame
  // ---------------------------------------------------------------------------

  datatype MessageType = Command | Control | Terminal | Log | Telemetry | Other

  datatype Header = Header(kind: MessageType, object_id: nat)

  function Classify(h: Header): (c: nat)
    ensures c < CLASSES
    ensures c == COMMAND_RESULT <==> h == Header(Command, 2)
    ensures c == CRITICAL_LOG <==> h.kind == Log && h.object_id in {2, 3}
    ensures c == TELEMETRY <==> h.kind == Telemetry
    ensures c == STATUS <==> h.kind == Control
    ensures c == TERMINAL <==> h.kind == Terminal
    ensures c == DEBUG <==> h.kind.Other? || (h.kind.Command? && h.object_id != 2) || (h.kind.Log? && h.object_id !in {2, 3})
  {
    if h.kind == Command && h.object_id == 2 then COMMAND_RESULT
    else if h.kind == Control then STATUS
    else if h.kind == Terminal then TERMINAL
    else if h.kind == Log && (h.object_id == 2 || h.object_id == 3) then CRITICAL_LOG
    else if h.kind == Telemetry then TELEMETRY
    else DEBUG
  }

  // ---------------------------------------------------------------------------
  // One circular queue
  // ---------------------------------------------------------------------------

  type Frame = seq<byte>

  /** Sixteen slots of which a class uses its own capacity. */
  datatype Queue = Queue(frames: seq<Frame>, read: nat, write: nat, count: nat)

  const Empty := Queue(seq(MAX_CAPACITY, _ => []), 0, 0, 0)
  const NoQueues := seq(CLASSES, _ => Empty)

  predicate WellFormed(q: Queue, capacity: nat) {
    && 0 < capacity <= MAX_CAPACITY == |q.frames|
    && q.read < capacity && q.count <= capacity
    && q.write == Wrap(q.read, q.count, capacity)
  }

  /** The queued frames, oldest first. */
  function Items(q: Queue, capacity: nat): (items: seq<Frame>)
    requires WellFormed(q, capacity)
    ensures |items| == q.count
  {
    seq(q.count, k requires 0 <= k < q.count => q.frames[Wrap(q.read, k, capacity)])
  }

  function Push(q: Queue, f: Frame, capacity: nat): Queue
    requires WellFormed(q, capacity)
  {
    q.(frames := q.frames[q.write := f], write := (q.write + 1) % capacity, count := q.count + 1)
  }

  function Pop(q: Queue, capacity: nat): Queue
    requires WellFormed(q, capacity) && q.count > 0
  {
    q.(read := (q.read + 1) % capacity, count := q.count - 1)
  }

  /** A push adds at the far end and overwrites none of the queued frames. */
  lemma PushAppends(q: Queue, f: Frame, capacity: nat)
    requires WellFormed(q, capacity) && q.count < capacity
    ensures WellFormed(Push(q, f, capacity), capacity)
    ensures Items(Push(q, f, capacity), capacity) == Items(q, capacity) + [f]
  {
    WrapIsModulo(q.write, 1, capacity);
  }

  /** A pop takes the oldest frame. */
  lemma PopTakesOldest(q: Queue, capacity: nat)
    requires WellFormed(q, capacity) && q.count > 0
    ensures WellFormed(Pop(q, capacity), capacity)
    ensures Items(q, capacity) == [q.frames[q.read]] + Items(Pop(q, capacity), capacity)
  {
    WrapIsModulo(q.read, 1, capacity);
  }

  // ---------------------------------------------------------------------------
  // The six together
  // ---------------------------------------------------------------------------

  ghost predicate AllWellFormed(qs: seq<Queue>) {
    |qs| == CLASSES && forall c :: 0 <= c < CLASSES ==> WellFormed(qs[c], Capacity(c))
  }

  ghost function Lines(qs: seq<Queue>): (lines: seq<seq<Frame>>)
    requires AllWellFormed(qs)
    ensures |lines| == CLASSES
    ensures forall c :: 0 <= c < CLASSES ==> lines[c] == Items(qs[c], Capacity(c))
  {
    seq(CLASSES, c requires 0 <= c < CLASSES => Items(qs[c], Capacity(c)))
  }

  /** How many frames wait in all. */
  ghost function Total(lines: seq<seq<Frame>>): nat {
    if lines == [] then 0 else Total(lines[..|lines| - 1]) + |lines[|lines| - 1]|
  }

  lemma {:induction false} TotalUpdate(lines: seq<seq<Frame>>, c: nat, line: seq<Frame>)
    requires c < |lines|
    ensures Total(lines[c := line]) == Total(lines) - |lines[c]| + |line|
  {
    var n := |lines| - 1;
    if c == n {
      assert lines[c := line][..n] == lines[..n];
    } else {
      TotalUpdate(lines[..n], c, line);
      assert lines[c := line][..n] == lines[..n][c := line];
    }
  }

  lemma PushLines(qs: seq<Queue>, c: nat, f: Frame)
    requires AllWellFormed(qs) && c < CLASSES && qs[c].count < Capacity(c)
    ensures var after := qs[c := Push(qs[c], f, Capacity(c))];
      && AllWellFormed(after) && Lines(after) == Lines(qs)[c := Lines(qs)[c] + [f]]
      && Total(Lines(after)) == Total(Lines(qs)) + 1
  {
    PushAppends(qs[c], f, Capacity(c));
    TotalUpdate(Lines(qs), c, Lines(qs)[c] + [f]);
    assert Lines(qs[c := Push(qs[c], f, Capacity(c))]) == Lines(qs)[c := Lines(qs)[c] + [f]];
  }

  lemma PopLines(qs: seq<Queue>, c: nat)
    requires AllWellFormed(qs) && c < CLASSES && qs[c].count > 0
    ensures Lines(qs)[c] != [] && Lines(qs)[c][0] == qs[c].frames[qs[c].read]
    ensures var after := qs[c := Pop(qs[c], Capacity(c))];
      && AllWellFormed(after) && Lines(after) == Lines(qs)[c := Lines(qs)[c][1..]]
      && Total(Lines(after)) == Total(Lines(qs)) - 1
  {
    PopTakesOldest(qs[c], Capacity(c));
    TotalUpdate(Lines(qs), c, Lines(qs)[c][1..]);
    assert Lines(qs[c := Pop(qs[c], Capacity(c))]) == Lines(qs)[c := Lines(qs)[c][1..]];
  }

  /** Nobody but the pump takes frames from a confirm-gated class; everybody may add at its end. */
  ghost predicate Grown(was: seq<seq<Frame>>, now: seq<seq<Frame>>) {
    && |was| == |now| == CLASSES
    && (forall c :: 0 <= c < CLASSES && c != TELEMETRY ==> was[c] <= now[c])
  }

  /** What the pump takes: nothing waited in any class before it whose lock was free, and it is the
      oldest of its own class. `lines` is what waited when the scan began. */
  ghost predicate Precedence(lines: seq<seq<Frame>>, s: Sent, busy: seq<bool>) {
    && s.class_ < CLASSES && s.class_ != TELEMETRY
    && IdleBelow(lines, busy, s.class_)
    && (lines[s.class_] != [] ==> s.frame == lines[s.class_][0])
  }

  /** Nothing waits in a confirm-gated class below `c` whose lock is free. */
  ghost predicate IdleBelow(lines: seq<seq<Frame>>, busy: seq<bool>, c: nat) {
    && |lines| == |busy| == CLASSES && c <= CLASSES
    && (forall u :: 0 <= u < c && u != TELEMETRY && !busy[u] ==> lines[u] == [])
  }

  /** After the pump took `s`, while others added at the ends. */
  ghost predicate GrownBut(was: seq<seq<Frame>>, now: seq<seq<Frame>>, s: Sent) {
    && |was| == |now| == CLASSES && s.class_ < CLASSES
    && (forall c :: 0 <= c < CLASSES && c != TELEMETRY && c != s.class_ ==> was[c] <= now[c])
    && (was[s.class_] != [] ==> was[s.class_][1..] <= now[s.class_])
  }

  lemma TakenAfterGrowth(was: seq<seq<Frame>>, mid: seq<seq<Frame>>, s: Sent)
    requires Grown(was, mid) && s.class_ < CLASSES && s.class_ != TELEMETRY
    requires mid[s.class_] != [] && s.frame == mid[s.class_][0]
    ensures GrownBut(was, mid[s.class_ := mid[s.class_][1..]], s)
    ensures was[s.class_] != [] ==> s.frame == was[s.class_][0]
  {
  }

  lemma LaterGrowth(was: seq<seq<Frame>>, mid: seq<seq<Frame>>, now: seq<seq<Frame>>, s: Sent)
    requires GrownBut(was, mid, s) && Grown(mid, now) && s.class_ != TELEMETRY
    ensures GrownBut(was, now, s)
  {
  }

  /** What a pump that finds the outstanding frame's event and age decides about it. */
  function Ruling(event: nat, late: bool): Option<Fate> {
    if event == 1 then Some(Delivered)
    else if event == 2 then Some(DeliveryFailed)
    else if late then Some(TimedOut)
    else None
  }

  /** How a pass settles the outstanding frame, if there is one: delivered on event 1, failed on event 2,
      timed out without an event once it is late, and otherwise not at all. */
  ghost predicate Ends(awaiting: bool, event: nat, late: bool, ended: seq<Fate>) {
    ended == if !awaiting then [] else if event == 1 then [Delivered] else if event == 2 then [DeliveryFailed]
             else if late then [TimedOut] else []
  }

  // ---------------------------------------------------------------------------
  // Histories
  // ---------------------------------------------------------------------------

  /** A confirm-gated frame taken from its queue for the radio, and when. */
  datatype Sent = Sent(frame: Frame, class_: nat, at: nat)

  datatype Fate = Delivered | DeliveryFailed | TimedOut | Refused

  ghost function Of(sent: seq<Sent>, c: nat): seq<Frame> {
    if sent == [] then []
    else
      var last := sent[|sent| - 1];
      Of(sent[..|sent| - 1], c) + (if last.class_ == c then [last.frame] else [])
  }

  ghost function Count(fates: seq<Fate>, fate: Fate): nat {
    if fates == [] then 0
    else Count(fates[..|fates| - 1], fate) + (if fates[|fates| - 1] == fate then 1 else 0)
  }

  lemma OfSnoc(sent: seq<Sent>, s: Sent, c: nat)
    ensures Of(sent + [s], c) == Of(sent, c) + (if s.class_ == c then [s.frame] else [])
  {
  }

  /** What was admitted to each class is what left it followed by what waits in it. */
  ghost predicate Accounted(admitted: seq<seq<Frame>>, sent: seq<Sent>, telemetry: seq<Frame>, lines: seq<seq<Frame>>) {
    && |admitted| == |lines| == CLASSES
    && (forall c :: 0 <= c < CLASSES && c != TELEMETRY ==> admitted[c] == Of(sent, c) + lines[c])
    && admitted[TELEMETRY] == telemetry + lines[TELEMETRY]
  }

  /** Everything ever admitted, class by class; what the pump took and what became of it; what the
      telemetry lane took; how many offers were rejected. */
  datatype Books = Books(admitted: seq<seq<Frame>>, sent: seq<Sent>, fates: seq<Fate>, telemetry: seq<Frame>, rejections: nat)

  /** The queues hold, in order, what was admitted and not yet taken, and every accepted frame is in
      exactly one place. */
  ghost predicate Stocked(qs: seq<Queue>, b: Books, accepted: nat) {
    && AllWellFormed(qs)
    && Accounted(b.admitted, b.sent, b.telemetry, Lines(qs))
    && accepted == |b.sent| + |b.telemetry| + Total(Lines(qs))
  }

  ghost function Admit(b: Books, c: nat, f: Frame): Books
    requires c < |b.admitted|
  {
    b.(admitted := b.admitted[c := b.admitted[c] + [f]])
  }

  lemma StockAdmit(qs: seq<Queue>, b: Books, accepted: nat, c: nat, f: Frame)
    requires Stocked(qs, b, accepted) && c < CLASSES && qs[c].count < Capacity(c)
    ensures var after := qs[c := Push(qs[c], f, Capacity(c))];
      && Stocked(after, Admit(b, c, f), accepted + 1)
      && Lines(after) == Lines(qs)[c := Lines(qs)[c] + [f]]
  {
    PushLines(qs, c, f);
    Assoc(if c == TELEMETRY then b.telemetry else Of(b.sent, c), Lines(qs)[c], [f]);
  }

  lemma StockSend(qs: seq<Queue>, b: Books, accepted: nat, s: Sent)
    requires Stocked(qs, b, accepted) && s.class_ < CLASSES && s.class_ != TELEMETRY
    requires qs[s.class_].count > 0 && s.frame == qs[s.class_].frames[qs[s.class_].read]
    ensures var c, lines := s.class_, Lines(qs);
      && lines[c] != [] && lines[c][0] == s.frame
      && Stocked(qs[c := Pop(qs[c], Capacity(c))], b.(sent := b.sent + [s]), accepted)
      && Lines(qs[c := Pop(qs[c], Capacity(c))]) == lines[c := lines[c][1..]]
  {
    PopLines(qs, s.class_);
    var lines := Lines(qs);
    forall c | 0 <= c < CLASSES && c != TELEMETRY
      ensures b.admitted[c] == Of(b.sent + [s], c) + lines[s.class_ := lines[s.class_][1..]][c]
    {
      OfSnoc(b.sent, s, c);
      if c == s.class_ {
        assert lines[c] == [s.frame] + lines[c][1..];
        Assoc(Of(b.sent, c), [s.frame], lines[c][1..]);
      }
    }
  }

  lemma StockTelemetry(qs: seq<Queue>, b: Books, accepted: nat)
    requires Stocked(qs, b, accepted) && qs[TELEMETRY].count > 0
    ensures var after, line := qs[TELEMETRY := Pop(qs[TELEMETRY], Capacity(TELEMETRY))], Lines(qs)[TELEMETRY];
      && line != [] && line[0] == qs[TELEMETRY].frames[qs[TELEMETRY].read]
      && Stocked(after, b.(telemetry := b.telemetry + [line[0]]), accepted)
      && Lines(after) == Lines(qs)[TELEMETRY := line[1..]]
  {
    PopLines(qs, TELEMETRY);
    var line := Lines(qs)[TELEMETRY];
    assert line == [line[0]] + line[1..];
    Assoc(b.telemetry, [line[0]], line[1..]);
  }

  /** Where the frames taken by the pump went, against the counters. */
  ghost predicate Settled(b: Books, delivered: nat, failed: nat, timeouts: nat, dropped: nat) {
    && delivered == Count(b.fates, Delivered) && failed == Count(b.fates, DeliveryFailed)
    && timeouts == Count(b.fates, TimedOut)
    && dropped == b.rejections + failed + timeouts + Count(b.fates, Refused)
  }

  lemma Settle(b: Books, delivered: nat, failed: nat, timeouts: nat, dropped: nat, fate: Fate)
    requires Settled(b, delivered, failed, timeouts, dropped)
    ensures Settled(b.(fates := b.fates + [fate]), delivered + (if fate == Delivered then 1 else 0),
                    failed + (if fate == DeliveryFailed then 1 else 0), timeouts + (if fate == TimedOut then 1 else 0),
                    dropped + (if fate == Delivered then 0 else 1))
  {
  }

  lemma StockSettle(qs: seq<Queue>, b: Books, accepted: nat, fate: Fate)
    requires Stocked(qs, b, accepted)
    ensures Stocked(qs, b.(fates := b.fates + [fate]), accepted)
  {
  }

  lemma {:induction false} EveryFateCounted(fates: seq<Fate>)
    ensures |fates| == Count(fates, Delivered) + Count(fates, DeliveryFailed) + Count(fates, TimedOut) + Count(fates, Refused)
  {
    if fates != [] { EveryFateCounted(fates[..|fates| - 1]); }
  }

  const NoBooks := Books(seq(CLASSES, _ => []), [], [], [], 0)

  lemma EmptyStock()
    ensures Stocked(NoQueues, NoBooks, 0) && Settled(NoBooks, 0, 0, 0, 0)
  {
    EmptyTotal(Lines(NoQueues));
  }

  lemma EmptyTotal(lines: seq<seq<Frame>>)
    requires forall c :: 0 <= c < |lines| ==> lines[c] == []
    ensures Total(lines) == 0
  {
  }

  // ---------------------------------------------------------------------------
  // How long a command's result waits
  // ---------------------------------------------------------------------------

  /** What a pass of the pump works on. */
  datatype View = View(sent: seq<Sent>, lines: seq<seq<Frame>>, awaiting: bool, since: nat)

  datatype PumpResult = Waiting | NoRadio | NothingFound | RadioRefused | Started

  /** What one pass of the pump at `now` may have done: it went on waiting for the outstanding frame; or
      that is settled and it found no radio, or nothing waiting in any class whose lock was free; or it
      took `s` by strict precedence, which is now outstanding unless the radio refused it. */
  ghost predicate Passed(was: View, v: View, now: nat, elapsed: int, timeout: nat, busy: seq<bool>, result: PumpResult, s: Sent) {
    match result
    case Waiting => was.awaiting && v.awaiting && v.since == was.since && elapsed < timeout
                    && v.sent == was.sent && Grown(was.lines, v.lines)
    case NoRadio => !v.awaiting && v.sent == was.sent && Grown(was.lines, v.lines)
    case NothingFound => !v.awaiting && v.sent == was.sent && Grown(was.lines, v.lines)
                         && IdleBelow(was.lines, busy, CLASSES)
    case _ => v.awaiting == result.Started? && v.since == now && s.at == now && v.sent == was.sent + [s]
              && Precedence(was.lines, s, busy) && GrownBut(was.lines, v.lines, s)
  }

  /** The command results `target` waiting at time `e`, when `from` frames had been taken, with the
      delivery timeout and the largest gap between two passes. */
  datatype Goal = Goal(from: nat, target: seq<Frame>, e: nat, timeout: nat, gap: nat)

  /** When the j-th result is due: a timeout and a gap after the one before it. */
  function Deadline(goal: Goal, j: nat): nat {
    (if j == 0 then goal.e else Deadline(goal, j - 1)) + goal.timeout + goal.gap
  }

  lemma {:induction false} DeadlineIs(goal: Goal, j: nat)
    ensures Deadline(goal, j) == goal.e + (j + 1) * (goal.timeout + goal.gap)
  {
    if j > 0 {
      DeadlineIs(goal, j - 1);
      assert (j + 1) * (goal.timeout + goal.gap) == j * (goal.timeout + goal.gap) + (goal.timeout + goal.gap);
    }
  }

  lemma {:induction false} DeadlineMonotone(goal: Goal, i: nat, j: nat)
    requires i <= j
    ensures Deadline(goal, i) <= Deadline(goal, j)
  {
    if i < j { DeadlineMonotone(goal, i, j - 1); }
  }

  /** From index `from` on the frames of `target` are the next ones taken, in order and in time; while
      part of them still waits it heads its class, and the clock has not run away. */
  ghost predicate OnTrack(goal: Goal, v: View, t: nat) {
    && goal.from <= |v.sent| && |v.lines| == CLASSES && goal.timeout > 0
    && (forall i :: goal.from <= i < |v.sent| && i - goal.from < |goal.target| ==> InTime(goal, i - goal.from, v.sent[i]))
    && (|v.sent| - goal.from < |goal.target| ==> Pressing(goal, |v.sent| - goal.from, v, t))
  }

  ghost predicate InTime(goal: Goal, j: nat, s: Sent) {
    j < |goal.target| && s.frame == goal.target[j] && s.class_ == COMMAND_RESULT && s.at <= Deadline(goal, j)
  }

  ghost predicate Pressing(goal: Goal, j: nat, v: View, t: nat)
    requires j < |goal.target| && |v.lines| == CLASSES
  {
    && goal.target[j..] <= v.lines[COMMAND_RESULT]
    && (v.awaiting ==> v.since <= t && v.since <= Deadline(goal, j) - goal.timeout - goal.gap)
    && t < Deadline(goal, j) - goal.gap
  }

  lemma StartsOnTrack(goal: Goal, v: View)
    requires goal.from == |v.sent| && |v.lines| == CLASSES && goal.target == v.lines[COMMAND_RESULT] && goal.timeout > 0
    requires v.awaiting ==> v.since <= goal.e
    ensures OnTrack(goal, v, goal.e)
  {
  }

  lemma PassKeepsTrack(goal: Goal, was: View, v: View, t: nat, now: nat, elapsed: int, busy: seq<bool>, result: PumpResult, s: Sent)
    requires OnTrack(goal, was, t) && t <= now <= t + goal.gap
    requires |busy| == CLASSES && !busy[COMMAND_RESULT] && !result.NoRadio?
    requires was.awaiting ==> elapsed == now - was.since
    requires Passed(was, v, now, elapsed, goal.timeout, busy, result, s)
    ensures OnTrack(goal, v, now) && was.sent <= v.sent
  {
    var j := |was.sent| - goal.from;
    if j < |goal.target| {
      var rest, line := goal.target[j..], was.lines[COMMAND_RESULT];
      assert rest[0] == goal.target[j] && line[..|rest|] == rest;
      if result.Waiting? {
        assert v.lines[COMMAND_RESULT][..|line|] == line;
      } else {
        assert s.class_ == COMMAND_RESULT;
        assert goal.target[j + 1..] == rest[1..];
        assert line[1..][..|rest| - 1] == rest[1..];
      }
    }
  }

  /** By the deadline of the j-th waiting result, j + 1 timeouts and gaps on, more than j have been taken. */
  lemma OnTrackIsPunctual(goal: Goal, v: View, t: nat, j: nat)
    requires OnTrack(goal, v, t) && j < |goal.target| && t >= goal.e + (j + 1) * (goal.timeout + goal.gap)
    ensures j < |v.sent| - goal.from
    ensures v.sent[goal.from + j].frame == goal.target[j] && v.sent[goal.from + j].class_ == COMMAND_RESULT
    ensures v.sent[goal.from + j].at <= goal.e + (j + 1) * (goal.timeout + goal.gap)
  {
    DeadlineIs(goal, j);
    var taken := |v.sent| - goal.from;
    DeadlineMonotone(goal, if taken < j then taken else j, j);
    assert j < taken;
    assert InTime(goal, j, v.sent[goal.from + j]);
  }

  // ---------------------------------------------------------------------------
  // Whose outcome it is
  // ---------------------------------------------------------------------------

  /** What the pump found when it settled a frame: the event, whose callback had stored it, and which
      frame was out. */
  datatype Finding = Finding(event: nat, of: nat, outstanding: nat)

  /** The event was stored by the callback of another frame. */
  predicate Foreign(l: Finding) {
    l.event != 0 && l.of != l.outstanding
  }

  /** The frame whose callback an outcome comes from; none for a timeout and a refusal. */
  function Origin(found: Option<Finding>): Option<nat> {
    if found.Some? && found.value.event != 0 then Some(found.value.of) else None
  }

  function Seen(found: Option<Finding>): seq<Finding> {
    if found.Some? then [found.value] else []
  }

  /** Every outcome is that of the frame it is booked for. */
  ghost predicate AllOwn(whose: seq<Option<nat>>) {
    forall i :: 0 <= i < |whose| && whose[i].Some? ==> whose[i].value == i
  }

  ghost predicate NoneForeign(looks: seq<Finding>) {
    forall k :: 0 <= k < |looks| ==> !Foreign(looks[k])
  }

  /** The frame whose callback last stored the event; per outcome booked the frame whose callback it came
      from, if any; what the pump found each time; whether a callback was stored while another frame than
      its own was out. */
  datatype Callbacks = Callbacks(of: nat, whose: seq<Option<nat>>, looks: seq<Finding>, strayed: bool)

  function Stored(c: Callbacks, of: nat, astray: bool): Callbacks {
    c.(of := of, strayed := c.strayed || astray)
  }

  /** Callbacks may have come, but no outcome has been booked. */
  ghost predicate SameBooked(was: Callbacks, now: Callbacks) {
    now.whose == was.whose && now.looks == was.looks && (was.strayed ==> now.strayed)
  }

  /** What was booked and found stays. */
  ghost predicate Later(was: Callbacks, now: Callbacks) {
    was.whose <= now.whose && was.looks <= now.looks && (was.strayed ==> now.strayed)
  }

  lemma LaterStill(a: Callbacks, b: Callbacks, c: Callbacks)
    requires Later(a, b) && Later(b, c)
    ensures Later(a, c)
  {
  }

  function Booked(c: Callbacks, found: Option<Finding>): Callbacks {
    c.(whose := c.whose + [Origin(found)], looks := c.looks + Seen(found))
  }

  /** The outcomes are the frames' own exactly if the pump never found another frame's event, and so it is
      if no callback was stored while another frame than its own was out. */
  ghost predicate Attributed(c: Callbacks, settled: nat, waiting: bool) {
    && |c.whose| == settled && (AllOwn(c.whose) <==> NoneForeign(c.looks))
    && (!c.strayed ==> AllOwn(c.whose) && (waiting ==> c.of == settled))
  }

  lemma AttributeNext(c: Callbacks, settled: nat, waiting: bool, found: Option<Finding>)
    requires Attributed(c, settled, waiting)
    requires found.Some? ==> found.value.outstanding == settled
    requires found.Some? && !c.strayed ==> !Foreign(found.value)
    ensures Attributed(Booked(c, found), settled + 1, false)
    ensures AllOwn(Booked(c, found).whose) <==> AllOwn(c.whose) && (found.Some? ==> !Foreign(found.value))
  {
    OwnNext(c.whose, found);
    NoneForeignNext(c.looks, found);
  }

  lemma OwnNext(whose: seq<Option<nat>>, found: Option<Finding>)
    requires found.Some? ==> found.value.outstanding == |whose|
    ensures AllOwn(whose + [Origin(found)]) <==> AllOwn(whose) && (found.Some? ==> !Foreign(found.value))
  {
    var next := whose + [Origin(found)];
    assert next[|whose|] == Origin(found);
    if AllOwn(next) {
      forall i | 0 <= i < |whose| && whose[i].Some? ensures whose[i].value == i { assert next[i] == whose[i]; }
    }
  }

  lemma NoneForeignNext(looks: seq<Finding>, found: Option<Finding>)
    ensures NoneForeign(looks + Seen(found)) <==> NoneForeign(looks) && (found.Some? ==> !Foreign(found.value))
  {
    var all := looks + Seen(found);
    if NoneForeign(all) {
      forall k | 0 <= k < |looks| ensures !Foreign(looks[k]) { assert all[k] == looks[k]; }
      if found.Some? { assert all[|looks|] == found.value; }
    }
  }

  // ---------------------------------------------------------------------------
  // How long a frame that timed out was out
  // ---------------------------------------------------------------------------

  /** From outcome `base` on, `when` says at what time each was settled, and those that timed out were old enough. */
  ghost predicate Timely(sent: seq<Sent>, fates: seq<Fate>, base: nat, when: seq<nat>, timeout: nat) {
    && base + |when| == |fates| <= |sent|
    && (forall k :: 0 <= k < |when| && fates[base + k] == TimedOut ==>
         (when[k] - sent[base + k].at) % 0x1_0000_0000_0000_0000 >= timeout)
  }

  lemma TimelyNext(sent: seq<Sent>, fates: seq<Fate>, base: nat, when: seq<nat>, timeout: nat, fate: Fate, now: nat)
    requires Timely(sent, fates, base, when, timeout) && |fates| < |sent|
    requires fate == TimedOut ==> (now - sent[|fates|].at) % 0x1_0000_0000_0000_0000 >= timeout
    ensures Timely(sent, fates + [fate], base, when + [now], timeout)
  {
  }

  lemma TimelyMore(was: seq<Sent>, sent: seq<Sent>, fates: seq<Fate>, base: nat, when: seq<nat>, timeout: nat)
    requires Timely(was, fates, base, when, timeout) && was <= sent
    ensures Timely(sent, fates, base, when, timeout)
  {
  }

  lemma TimelyPass(was: View, fates: seq<Fate>, v: View, after: seq<Fate>, base: nat, when: seq<nat>, now: nat, timeout: nat,
                   ended: seq<Fate>, refused: seq<Fate>) returns (longer: seq<nat>)
    requires Timely(was.sent, fates, base, when, timeout) && was.sent <= v.sent
    requires after == (fates + ended) + refused && |after| <= |v.sent|
    requires |ended| <= 1 && (refused == [] || refused == [Refused])
    requires ended != [] ==> was.awaiting && |fates| < |was.sent| && was.since == was.sent[|fates|].at
    requires ended == [TimedOut] ==> (now - was.since) % 0x1_0000_0000_0000_0000 >= timeout
    ensures Timely(v.sent, after, base, longer, timeout)
  {
    longer := when;
    TimelyMore(was.sent, v.sent, fates, base, when, timeout);
    if ended != [] {
      assert ended == [ended[0]];
      TimelyNext(v.sent, fates, base, longer, timeout, ended[0], now);
      longer := longer + [now];
    }
    if refused != [] {
      TimelyNext(v.sent, fates + ended, base, longer, timeout, Refused, now);
      longer := longer + [now];
    }
  }

  datatype Totals = Totals(accepted: nat, delivered: nat, failed: nat, timeouts: nat, dropped: nat)

  function Tallied(t: Totals, fate: Fate): Totals {
    Totals(t.accepted, t.delivered + (if fate == Delivered then 1 else 0), t.failed + (if fate == DeliveryFailed then 1 else 0),
           t.timeouts + (if fate == TimedOut then 1 else 0), t.dropped + (if fate == Delivered then 0 else 1))
  }

  /** The queues, the counters and the books agree; `open`: a frame is in hand or out; `waiting`: one is out
      and has an event. */
  ghost predicate Balanced(qs: seq<Queue>, b: Books, c: Callbacks, t: Totals, open: bool, waiting: bool) {
    && Stocked(qs, b, t.accepted)
    && |b.sent| == |b.fates| + (if open then 1 else 0)
    && Settled(b, t.delivered, t.failed, t.timeouts, t.dropped)
    && Attributed(c, |b.fates|, waiting)
  }

  lemma BalancedClose(qs: seq<Queue>, b: Books, c: Callbacks, t: Totals, waiting: bool, fate: Fate, found: Option<Finding>)
    requires Balanced(qs, b, c, t, true, waiting)
    requires found.Some? ==> found.value.outstanding == |b.fates|
    requires found.Some? && !c.strayed ==> !Foreign(found.value)
    ensures Balanced(qs, b.(fates := b.fates + [fate]), Booked(c, found), Tallied(t, fate), false, false)
  {
    AttributeNext(c, |b.fates|, waiting, found);
    Settle(b, t.delivered, t.failed, t.timeouts, t.dropped, fate);
    StockSettle(qs, b, t.accepted, fate);
  }
}
