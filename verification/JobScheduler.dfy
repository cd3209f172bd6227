/** Timed and state-triggered commands: eight slots polled with the time and the robot's state. */
module JobScheduler {
  import opened Common

  const MAX_JOBS := 8
  const MAX_COMMAND := 96
  /** kNoState: poll has not run yet. */
  const NO_STATE := 0xFF

  datatype Kind = Interval | Once | OnStateEnter

  datatype Error = Ok | Full | EmptyCommand | CommandTooLong | BadInterval | Recursive | NotConfigured

  datatype Job = Job(active: bool, kind: Kind, id: nat, state: nat, interval_ms: nat, next_ms: nat,
                     remaining: nat, fired: nat, command: string)

  datatype Stats = Stats(fired: nat, submit_failed: nat, rejected: nat, skipped_late: nat)

  const Blank := Job(false, Interval, 0, 0, 0, 0, 0, 0, "")

  // ---------------------------------------------------------------------------
  // What one poll does to one job
  // ---------------------------------------------------------------------------

  /** The job afterwards, whether it fired, and how many occurrences were given up. */
  datatype Outcome = Outcome(job: Job, fired: bool, skipped: nat)

  function Due(job: Job, now: nat, entered: bool, current: nat): bool {
    if job.kind == OnStateEnter then entered && job.state == current
    else job.next_ms != 0 && now >= job.next_ms
  }

  /** The schedule after firing at `now`: one interval on, or, a whole interval late, from now. */
  function Reschedule(job: Job, now: nat): (nat, nat)
    requires job.kind != OnStateEnter && job.interval_ms > 0 && now >= job.next_ms
  {
    var lateness := now - job.next_ms;
    if lateness >= job.interval_ms then (now + job.interval_ms, lateness / job.interval_ms)
    else (job.next_ms + job.interval_ms, 0)
  }

  function Count(job: Job): Job {
    var left := if job.remaining == 0 then 0 else job.remaining - 1;
    job.(fired := job.fired + 1, remaining := left, active := job.active && (job.remaining == 0 || left != 0))
  }

  /** The division by the interval that a late occurrence takes would be by zero. */
  predicate DividesByZero(job: Job, now: nat) {
    job.active && job.kind != OnStateEnter && job.next_ms != 0 && now >= job.next_ms && job.interval_ms == 0
  }

  function PollJob(job: Job, now: nat, entered: bool, current: nat): Outcome
    requires !DividesByZero(job, now)
  {
    if !job.active then Outcome(job, false, 0)
    else if job.kind != OnStateEnter && job.next_ms == 0 then
      Outcome(job.(next_ms := now + job.interval_ms), false, 0)
    else if !Due(job, now, entered, current) then Outcome(job, false, 0)
    else if job.kind == OnStateEnter then Outcome(Count(job), true, 0)
    else
      var (next, missed) := Reschedule(job, now);
      Outcome(Count(job.(next_ms := next)), true, missed)
  }

  /** Timed jobs have an interval; schedule_* refuses zero. */
  predicate Timed(job: Job) {
    job.active && job.kind != OnStateEnter ==> job.interval_ms > 0
  }

  // ---------------------------------------------------------------------------
  // Runs of polls, seen by one job
  // ---------------------------------------------------------------------------

  /** One call of poll: the clock and the state it is given. */
  datatype Tick = Tick(now: nat, state: nat)

  /** The job after some polls, at which of them it fired, how many occurrences it gave up and how
      often it had to resync. */
  datatype History = History(job: Job, firings: seq<bool>, skipped: nat, resyncs: nat)

  function Entered(last: nat, current: nat): bool {
    last != NO_STATE && current != last
  }

  function StateAfter(last: nat, ticks: seq<Tick>): nat {
    if ticks == [] then last else ticks[|ticks| - 1].state
  }

  function Extend(h: History, last: nat, tick: Tick): History
    requires Timed(h.job)
  {
    var o := PollJob(h.job, tick.now, Entered(last, tick.state), tick.state);
    History(o.job, h.firings + [o.fired], h.skipped + o.skipped, h.resyncs + (if o.skipped > 0 then 1 else 0))
  }

  function Run(job: Job, last: nat, ticks: seq<Tick>): (h: History)
    requires Timed(job)
    ensures Timed(h.job) && |h.firings| == |ticks|
    ensures h.job.kind == job.kind && h.job.interval_ms == job.interval_ms && h.job.id == job.id
    ensures h.job.active ==> job.active
  {
    if ticks == [] then History(job, [], 0, 0)
    else
      var early := ticks[..|ticks| - 1];
      Extend(Run(job, last, early), StateAfter(last, early), ticks[|ticks| - 1])
  }

  lemma RunSnoc(job: Job, last: nat, ticks: seq<Tick>, tick: Tick)
    requires Timed(job)
    ensures Run(job, last, ticks + [tick]) == Extend(Run(job, last, ticks), StateAfter(last, ticks), tick)
  {
  }

  function Fires(firings: seq<bool>): nat {
    if firings == [] then 0
    else Fires(firings[..|firings| - 1]) + (if firings[|firings| - 1] then 1 else 0)
  }

  predicate NonDecreasing(ticks: seq<Tick>) {
    forall i :: 0 < i < |ticks| ==> ticks[i - 1].now <= ticks[i].now
  }

  /** The job's own counter is the number of polls it fired at. */
  lemma {:induction false} FiredCountsFirings(job: Job, last: nat, ticks: seq<Tick>)
    requires Timed(job)
    ensures var h := Run(job, last, ticks); h.job.fired == job.fired + Fires(h.firings)
  {
    if ticks != [] {
      var early := ticks[..|ticks| - 1];
      FiredCountsFirings(job, last, early);
      var h := Run(job, last, ticks);
      assert h.firings[..|early|] == Run(job, last, early).firings;
    }
  }

  // ---------------------------------------------------------------------------
  // An unlimited interval job
  // ---------------------------------------------------------------------------

  /** How far an unlimited interval job anchored at `a` has got: its next time is `fired + skipped + 1`
      whole intervals on, plus less than one interval for every resync. */
  ghost predicate OnSchedule(h: History, a: nat, d: nat, t: nat) {
    && h.job.active && h.job.kind == Interval && h.job.remaining == 0 && h.job.interval_ms == d
    && t < h.job.next_ms <= t + d
    && h.job.next_ms >= a + d * (h.job.fired + h.skipped + 1)
    && h.job.next_ms <= a + d * (h.job.fired + h.skipped + 1) + (d - 1) * h.resyncs
  }

  lemma StepOnSchedule(h: History, a: nat, d: nat, t: nat, last: nat, tick: Tick)
    requires d > 0 && OnSchedule(h, a, d, t) && t <= tick.now
    ensures OnSchedule(Extend(h, last, tick), a, d, tick.now)
  {
    if tick.now >= h.job.next_ms {
      Occurrences(d, h.job.fired + h.skipped + 1, tick.now - h.job.next_ms);
      assert (d - 1) * (h.resyncs + 1) == (d - 1) * h.resyncs + (d - 1);
    }
  }

  /** One more occurrence, and those that fit into a delay of `late`. */
  lemma Occurrences(d: nat, n: nat, late: nat)
    requires d > 0
    ensures d * (n + 1) == d * n + d
    ensures d * (n + 1 + late / d) == d * n + d + d * (late / d)
    ensures d * (late / d) <= late < d * (late / d) + d
  {
  }

  ghost predicate FreshInterval(job: Job, remaining: nat) {
    && job.active && job.kind == Interval && job.remaining == remaining && job.fired == 0 && job.next_ms == 0
    && job.interval_ms > 0
  }

  /** The first poll anchors the schedule, every later one keeps it. */
  lemma {:induction false} RunOnSchedule(job: Job, last: nat, ticks: seq<Tick>)
    requires FreshInterval(job, 0) && ticks != [] && NonDecreasing(ticks)
    ensures OnSchedule(Run(job, last, ticks), ticks[0].now, job.interval_ms, ticks[|ticks| - 1].now)
  {
    var early := ticks[..|ticks| - 1];
    if early == [] {
      assert Run(job, last, early) == History(job, [], 0, 0);
    } else {
      RunOnSchedule(job, last, early);
      StepOnSchedule(Run(job, last, early), ticks[0].now, job.interval_ms, early[|early| - 1].now,
                     StateAfter(last, early), ticks[|ticks| - 1]);
    }
  }

  /** No burst after a stall: between the anchor a and the poll at t, an unlimited interval job of
      period d fires at most (t - a)/d times, and every occurrence it does not fire is counted as
      skipped, but for at most one for each resync. */
  lemma NoBurst(job: Job, last: nat, ticks: seq<Tick>)
    requires FreshInterval(job, 0) && ticks != [] && NonDecreasing(ticks)
    ensures var h := Run(job, last, ticks);
      var a, t, d := ticks[0].now, ticks[|ticks| - 1].now, job.interval_ms;
      && t < h.job.next_ms <= t + d
      && d * h.job.fired <= t - a
      && (t - a) / d - 1 - h.resyncs < h.job.fired + h.skipped <= (t - a) / d
  {
    RunOnSchedule(job, last, ticks);
    var h := Run(job, last, ticks);
    Quotient(ticks[|ticks| - 1].now - ticks[0].now, job.interval_ms, h.job.fired, h.skipped, h.resyncs);
  }

  lemma Cancel(d: int, x: int, y: int)
    requires d > 0 && d * x < d * y
    ensures x < y
  {
  }

  lemma Quotient(e: int, d: nat, fired: nat, skipped: nat, r: nat)
    requires d > 0 && d * (fired + skipped + 1) <= e + d && e < d * (fired + skipped + 1) + (d - 1) * r
    ensures d * fired <= e && e / d - 1 - r < fired + skipped <= e / d
  {
    var q, n := e / d, fired + skipped;
    assert d * (n + 1) == d * fired + d * skipped + d;
    assert d * skipped >= 0;
    assert (d - 1) * r <= d * r;
    assert d * (n + 1) + d * r == d * (n + 1 + r);
    assert e == d * q + e % d;
    assert d * (q + 1) == d * q + d;
    assert d * (n + 1) == d * n + d;
    Cancel(d, n, q + 1);
    Cancel(d, q, n + 1 + r);
  }

  // ---------------------------------------------------------------------------
  // Counted jobs
  // ---------------------------------------------------------------------------

  /** A job with a repeat count keeps fired + remaining = n until it frees its slot, which it does at
      its n-th occurrence and not before. With n = 1 this is a Once job. */
  lemma {:induction false} RepeatsExactly(job: Job, last: nat, ticks: seq<Tick>, n: nat)
    requires job.active && job.kind != OnStateEnter && job.interval_ms > 0
    requires n > 0 && job.remaining == n && job.fired == 0
    ensures var h := Run(job, last, ticks);
      && h.job.fired + h.job.remaining == n
      && Fires(h.firings) == h.job.fired <= n
      && (h.job.active <==> h.job.fired < n)
  {
    FiredCountsFirings(job, last, ticks);
    if ticks != [] {
      var early := ticks[..|ticks| - 1];
      RepeatsExactly(job, last, early, n);
      RepeatsStep(Run(job, last, early), StateAfter(last, early), ticks[|ticks| - 1], n);
    }
  }

  lemma RepeatsStep(h: History, last: nat, tick: Tick, n: nat)
    requires Timed(h.job) && h.job.kind != OnStateEnter
    requires h.job.fired + h.job.remaining == n && (h.job.active <==> h.job.fired < n)
    ensures var next := Extend(h, last, tick).job;
      next.fired + next.remaining == n && (next.active <==> next.fired < n)
  {
  }

  // ---------------------------------------------------------------------------
  // When timed jobs fire
  // ---------------------------------------------------------------------------

  /** The whole life of a timed job of interval d and count n (0: unlimited): due[i] is the time poll i finds it
      due at, 0 meaning that poll i anchors it. It fires at a poll exactly if that time has come and its count
      is not used up; the next time is one interval on, or, a whole interval late, one interval from now. */
  ghost predicate Timetable(d: nat, n: nat, ticks: seq<Tick>, firings: seq<bool>, due: seq<nat>) {
    && |ticks| == |firings| && |due| == |ticks| + 1
    && (forall i :: 0 <= i < |ticks| ==>
         (firings[i] <==> 0 < due[i] <= ticks[i].now && (n == 0 || Fires(firings[..i]) < n)))
    && (forall i :: 0 <= i < |ticks| ==>
         due[i + 1] == if due[i] == 0 then (if n == 0 || Fires(firings[..i]) < n then ticks[i].now + d else 0)
                       else if !firings[i] then due[i]
                       else if ticks[i].now < due[i] + d then due[i] + d
                       else ticks[i].now + d)
  }

  lemma TimetableNext(d: nat, n: nat, ticks: seq<Tick>, firings: seq<bool>, due: seq<nat>, tick: Tick, fired: bool, next: nat)
    requires Timetable(d, n, ticks, firings, due)
    requires fired <==> 0 < due[|ticks|] <= tick.now && (n == 0 || Fires(firings) < n)
    requires next == if due[|ticks|] == 0 then (if n == 0 || Fires(firings) < n then tick.now + d else 0)
                     else if !fired then due[|ticks|]
                     else if tick.now < due[|ticks|] + d then due[|ticks|] + d
                     else tick.now + d
    ensures Timetable(d, n, ticks + [tick], firings + [fired], due + [next])
  {
    var longer := firings + [fired];
    assert longer[..|firings|] == firings;
    assert forall i :: 0 <= i < |firings| ==> longer[..i] == firings[..i];
  }

  lemma TimetableStep(h: History, last: nat, tick: Tick, n: nat, k: nat)
    requires Timed(h.job) && h.job.kind != OnStateEnter && (n == 0 || k <= n)
    requires h.job.active <==> n == 0 || k < n
    requires h.job.remaining == if n == 0 then 0 else n - k
    ensures var next, fired := Extend(h, last, tick).job, Extend(h, last, tick).firings[|h.firings|];
      var k' := if fired then k + 1 else k;
      && (fired <==> 0 < h.job.next_ms <= tick.now && (n == 0 || k < n))
      && next.next_ms == (if h.job.next_ms == 0 then (if n == 0 || k < n then tick.now + h.job.interval_ms else 0)
                          else if !fired then h.job.next_ms
                          else if tick.now < h.job.next_ms + h.job.interval_ms then h.job.next_ms + h.job.interval_ms
                          else tick.now + h.job.interval_ms)
      && (next.active <==> n == 0 || k' < n) && (n == 0 || k' <= n)
      && next.remaining == if n == 0 then 0 else n - k'
  {
  }

  /** A timed job, fresh or anchored, keeps its timetable and frees its slot as its count is used up. */
  ghost predicate OnTime(job: Job, ticks: seq<Tick>, h: History, due: seq<nat>) {
    && Timetable(job.interval_ms, job.remaining, ticks, h.firings, due)
    && due[0] == job.next_ms && due[|ticks|] == h.job.next_ms
    && (job.remaining == 0 || Fires(h.firings) <= job.remaining)
    && (h.job.active <==> job.remaining == 0 || Fires(h.firings) < job.remaining)
    && h.job.remaining == (if job.remaining == 0 then 0 else job.remaining - Fires(h.firings))
  }

  lemma OnTimeNext(job: Job, ticks: seq<Tick>, h: History, due: seq<nat>, last: nat, tick: Tick)
    requires OnTime(job, ticks, h, due)
    requires Timed(h.job) && h.job.kind != OnStateEnter && h.job.interval_ms == job.interval_ms
    ensures var next := Extend(h, last, tick); OnTime(job, ticks + [tick], next, due + [next.job.next_ms])
  {
    var next := Extend(h, last, tick);
    var fired := next.firings[|h.firings|];
    TimetableStep(h, last, tick, job.remaining, Fires(h.firings));
    assert (h.firings + [fired])[..|h.firings|] == h.firings;
    TimetableNext(job.interval_ms, job.remaining, ticks, h.firings, due, tick, fired, next.job.next_ms);
  }

  lemma {:induction false} RunKeepsTimetable(job: Job, last: nat, ticks: seq<Tick>) returns (due: seq<nat>)
    requires job.active && job.kind != OnStateEnter && job.interval_ms > 0
    ensures OnTime(job, ticks, Run(job, last, ticks), due)
  {
    if ticks == [] {
      due := [job.next_ms];
    } else {
      var early, tick := ticks[..|ticks| - 1], ticks[|ticks| - 1];
      var sofar := RunKeepsTimetable(job, last, early);
      OnTimeNext(job, early, Run(job, last, early), sofar, StateAfter(last, early), tick);
      due := sofar + [Run(job, last, ticks).job.next_ms];
      assert early + [tick] == ticks;
    }
  }

  /** Poll i is the first after the first one that comes at `due` or later. */
  ghost predicate FirstLater(ticks: seq<Tick>, due: nat, i: nat) {
    0 < i < |ticks| && ticks[i].now >= due && forall j :: 0 < j < i ==> ticks[j].now < due
  }

  lemma OnceStep(h: History, last: nat, tick: Tick, due: nat)
    requires h.job.kind == Once && h.job.interval_ms > 0 && due > 0
    requires h.job.active ==> h.job.remaining == 1 && h.job.next_ms == due
    ensures var next, fired := Extend(h, last, tick).job, Extend(h, last, tick).firings[|h.firings|];
      && (fired <==> h.job.active && tick.now >= due)
      && (next.active <==> h.job.active && tick.now < due)
      && (next.active ==> next.remaining == 1 && next.next_ms == due)
  {
  }

  /** A one-shot job of delay d whose first poll comes at a fires at the first later poll at a + d or after,
      and at no other, and has its slot up to that poll. */
  ghost predicate FiresOnce(ticks: seq<Tick>, h: History, due: nat) {
    && |h.firings| == |ticks|
    && (forall i :: 0 <= i < |ticks| ==> (h.firings[i] <==> FirstLater(ticks, due, i)))
    && (h.job.active <==> NoneLater(ticks, due))
    && (h.job.active ==> h.job.remaining == 1 && h.job.next_ms == due)
  }

  lemma FirstLaterStays(ticks: seq<Tick>, tick: Tick, due: nat, i: nat)
    requires i < |ticks|
    ensures FirstLater(ticks, due, i) <==> FirstLater(ticks + [tick], due, i)
  {
    var longer := ticks + [tick];
    assert forall j :: 0 <= j <= i ==> longer[j] == ticks[j];
  }

  ghost predicate NoneLater(ticks: seq<Tick>, due: nat) {
    forall i :: 0 < i < |ticks| ==> ticks[i].now < due
  }

  lemma NoneLaterNext(ticks: seq<Tick>, tick: Tick, due: nat)
    requires ticks != []
    ensures NoneLater(ticks + [tick], due) <==> NoneLater(ticks, due) && tick.now < due
    ensures FirstLater(ticks + [tick], due, |ticks|) <==> NoneLater(ticks, due) && tick.now >= due
  {
    var longer := ticks + [tick];
    assert longer[|ticks|] == tick;
    assert forall j :: 0 <= j < |ticks| ==> longer[j] == ticks[j];
    if NoneLater(longer, due) {
      forall j | 0 < j < |ticks| ensures ticks[j].now < due { assert longer[j].now < due; }
    }
  }

  lemma FiresOnceNext(ticks: seq<Tick>, h: History, due: nat, last: nat, tick: Tick)
    requires FiresOnce(ticks, h, due) && h.job.kind == Once && h.job.interval_ms > 0 && due > 0 && ticks != []
    ensures FiresOnce(ticks + [tick], Extend(h, last, tick), due)
  {
    var longer, next := ticks + [tick], Extend(h, last, tick);
    OnceStep(h, last, tick, due);
    NoneLaterNext(ticks, tick, due);
    forall i | 0 <= i < |longer| ensures next.firings[i] <==> FirstLater(longer, due, i) {
      if i < |ticks| {
        assert next.firings[i] == h.firings[i];
        FirstLaterStays(ticks, tick, due, i);
      }
    }
  }

  lemma {:induction false} OnceFiresOnTime(job: Job, last: nat, ticks: seq<Tick>)
    requires job.active && job.kind == Once && job.remaining == 1 && job.next_ms == 0 && job.interval_ms > 0 && ticks != []
    ensures FiresOnce(ticks, Run(job, last, ticks), ticks[0].now + job.interval_ms)
  {
    var early, tick := ticks[..|ticks| - 1], ticks[|ticks| - 1];
    if early == [] {
      assert Run(job, last, early) == History(job, [], 0, 0);
    } else {
      OnceFiresOnTime(job, last, early);
      FiresOnceNext(early, Run(job, last, early), early[0].now + job.interval_ms, StateAfter(last, early), tick);
      assert early + [tick] == ticks;
    }
  }

  // ---------------------------------------------------------------------------
  // State-triggered jobs
  // ---------------------------------------------------------------------------

  /** The state the poll before tick i was given, or what the scheduler remembered at the start. */
  function StateBefore(last: nat, ticks: seq<Tick>, i: nat): nat
    requires i < |ticks|
  {
    if i == 0 then last else ticks[i - 1].state
  }

  /** A state-triggered job fires at exactly the polls whose state is its own while the one remembered
      is another and not 0xFF, which also stands for "no poll yet". It stays active. */
  lemma {:induction false} FiresOnEntry(job: Job, last: nat, ticks: seq<Tick>)
    requires job.active && job.kind == OnStateEnter && job.remaining == 0
    ensures var h := Run(job, last, ticks);
      && h.job.active && h.job.remaining == 0 && h.job.state == job.state
      && (forall i :: 0 <= i < |ticks| ==>
            (h.firings[i] <==> ticks[i].state == job.state && StateBefore(last, ticks, i) != job.state
                               && StateBefore(last, ticks, i) != NO_STATE))
  {
    if ticks != [] {
      var early := ticks[..|ticks| - 1];
      FiresOnEntry(job, last, early);
      assert forall i :: 0 <= i < |early| ==> StateBefore(last, early, i) == StateBefore(last, ticks, i);
    }
  }

  /** The machine entered `state` at poll i: it was in another one at the poll before. The first poll
      ever (`last == NO_STATE`) only records the state. */
  ghost predicate Enters(last: nat, ticks: seq<Tick>, i: nat, state: nat)
    requires i < |ticks|
  {
    ticks[i].state == state && StateBefore(last, ticks, i) != state && (i == 0 ==> last != NO_STATE)
  }

  /** A state-triggered job never fires but at an entry into its state, and it fires at every one if and
      only if none of them follows a poll in state 0xFF. */
  lemma EveryEntrySeen(job: Job, last: nat, ticks: seq<Tick>)
    requires job.active && job.kind == OnStateEnter && job.remaining == 0
    ensures var h := Run(job, last, ticks);
      && (forall i :: 0 <= i < |ticks| && h.firings[i] ==> Enters(last, ticks, i, job.state))
      && ((forall i :: 0 <= i < |ticks| && Enters(last, ticks, i, job.state) ==> h.firings[i])
          <==> (forall i :: 0 < i < |ticks| && Enters(last, ticks, i, job.state) ==> ticks[i - 1].state != NO_STATE))
  {
    FiresOnEntry(job, last, ticks);
  }

  /** It does happen: after a poll in state 0xFF the entry into the job's state goes unseen. */
  lemma EntryFromFFUnseen(job: Job, last: nat, a: Tick, b: Tick)
    requires job.active && job.kind == OnStateEnter && job.remaining == 0
    requires a.state == NO_STATE != job.state == b.state
    ensures Enters(last, [a, b], 1, job.state) && !Run(job, last, [a, b]).firings[1]
  {
    FiresOnEntry(job, last, [a, b]);
  }

  // ---------------------------------------------------------------------------
  // A poll that sees a job half booked
  // ---------------------------------------------------------------------------

  /** What allocate leaves: the job is active, and its kind and interval are still to be stored. */
  function HalfBooked(id: nat, command: string): Job {
    Blank.(active := true, id := id, command := command)
  }

  /** What schedule_interval then stores. */
  function BookInterval(job: Job, interval_ms: nat, repeat: nat): Job {
    job.(kind := Interval, interval_ms := interval_ms, remaining := repeat)
  }

  /** A poll between the two anchors the job to now itself, unless the clock stands at zero: the job then
      fires at the very next poll, however soon, instead of the first that comes an interval later. */
  lemma HalfBookedFiresEarly(id: nat, command: string, interval_ms: nat, repeat: nat, first: Tick, next: Tick)
    requires interval_ms > 0 && first.now <= next.now
    ensures var half := HalfBooked(id, command);
      var right := PollJob(BookInterval(half, interval_ms, repeat), first.now, false, first.state).job;
      var early := BookInterval(PollJob(half, first.now, false, first.state).job, interval_ms, repeat);
      && (PollJob(right, next.now, false, next.state).fired <==> next.now >= first.now + interval_ms)
      && (PollJob(early, next.now, false, next.state).fired <==> first.now != 0)
  {
  }

  /** A second poll between the two divides by zero, exactly unless the clock of the first stood at zero. */
  lemma HalfBookedDividesByZero(id: nat, command: string, first: Tick, second: Tick)
    requires first.now <= second.now
    ensures DividesByZero(PollJob(HalfBooked(id, command), first.now, false, first.state).job, second.now) <==> first.now != 0
  {
  }

  // ---------------------------------------------------------------------------
  // Commands that schedule jobs
  // ---------------------------------------------------------------------------

  function Lower(c: char): char {
    if 'A' <= c <= 'Z' then c + 32 as char else c
  }

  predicate Blank1(c: char) { c == ' ' || c == '\t' }

  /** The C string's character at `i`, its terminator past the end. */
  function At(text: string, i: nat): char {
    if i < |text| then text[i] else '\0'
  }

  predicate WordAt(text: string, k: nat) {
    && k + 3 <= |text|
    && Lower(text[k]) == 'j' && Lower(text[k + 1]) == 'o' && Lower(text[k + 2]) == 'b'
    && At(text, k + 3) in {'\0', ' ', '\t', '-'}
  }

  /** After any blanks the text's first word is "job", in either case. */
  ghost predicate SaysJob(text: string) {
    exists k :: 0 <= k < |text| && (forall j :: 0 <= j < k ==> Blank1(text[j])) && WordAt(text, k)
  }

  method IsJobCommand(text: string) returns (is_job: bool)
    ensures is_job <==> SaysJob(text)
  {
    var start := 0;
    while start < |text| && Blank1(text[start])
      invariant 0 <= start <= |text|
      invariant forall j :: 0 <= j < start ==> Blank1(text[j])
    {
      start := start + 1;
    }
    var name := "job";
    var i := 0;
    while i < 3
      invariant 0 <= i <= 3
      invariant start + i <= |text|
      invariant forall j :: 0 <= j < i ==> Lower(text[start + j]) == name[j]
    {
      if Lower(At(text, start + i)) != name[i] {
        assert !WordAt(text, start);
        return false;
      }
      i := i + 1;
    }
    is_job := At(text, start + 3) in {'\0', ' ', '\t', '-'};
    assert Lower(text[start + 0]) == name[0] && Lower(text[start + 1]) == name[1] && Lower(text[start + 2]) == name[2];
    assert is_job <==> WordAt(text, start);
  }

  // ---------------------------------------------------------------------------
  // The table
  // ---------------------------------------------------------------------------

  predicate AllTimed(jobs: seq<Job>) {
    forall i :: 0 <= i < |jobs| ==> Timed(jobs[i])
  }

  /** A command handed to the executor for the job of one booking. */
  datatype Offer = Offer(booking: nat, command: string)

  /** What one poll adds to the counters, and the commands it hands out, in slot order. `answers[i]` is
      the executor's reply should slot i be offered to it, `owner[i]` the booking slot i was given to. */
  datatype Tally = Tally(fired: nat, failed: nat, skipped: nat, offered: seq<Offer>)

  function AddTo(t: Tally, o: Outcome, answer: bool, offer: Offer): Tally {
    if !o.fired then t
    else Tally(t.fired + (if answer then 1 else 0), t.failed + (if answer then 0 else 1), t.skipped + o.skipped,
               t.offered + [offer])
  }

  function Tallied(jobs: seq<Job>, now: nat, entered: bool, current: nat, answers: seq<bool>, owner: seq<nat>): Tally
    requires |jobs| <= |answers| && |jobs| <= |owner| && AllTimed(jobs)
  {
    if jobs == [] then Tally(0, 0, 0, [])
    else
      var n := |jobs| - 1;
      AddTo(Tallied(jobs[..n], now, entered, current, answers, owner), PollJob(jobs[n], now, entered, current),
            answers[n], Offer(owner[n], jobs[n].command))
  }

  lemma TalliedNext(jobs: seq<Job>, i: nat, now: nat, entered: bool, current: nat, answers: seq<bool>, owner: seq<nat>)
    requires i < |jobs| <= |answers| && |jobs| <= |owner| && AllTimed(jobs)
    ensures Tallied(jobs[..i + 1], now, entered, current, answers, owner)
         == AddTo(Tallied(jobs[..i], now, entered, current, answers, owner), PollJob(jobs[i], now, entered, current),
                  answers[i], Offer(owner[i], jobs[i].command))
  {
    assert jobs[..i + 1][..i] == jobs[..i];
  }

  /** The counters after one slot's turn, and after a whole poll. */
  function Bumped(s: Stats, o: Outcome, answer: bool): Stats {
    s.(fired := s.fired + (if o.fired && answer then 1 else 0), submit_failed := s.submit_failed + (if o.fired && !answer then 1 else 0),
       skipped_late := s.skipped_late + (if o.fired then o.skipped else 0))
  }

  function Counted(s: Stats, t: Tally): Stats {
    s.(fired := s.fired + t.fired, submit_failed := s.submit_failed + t.failed, skipped_late := s.skipped_late + t.skipped)
  }

  lemma CountedNext(s: Stats, t: Tally, o: Outcome, answer: bool, offer: Offer)
    ensures Counted(s, AddTo(t, o, answer, offer)) == Bumped(Counted(s, t), o, answer)
  {
  }

  /** The commands handed out for one booking. */
  function OffersOf(log: seq<Offer>, b: nat): seq<string> {
    if log == [] then []
    else
      var o := log[|log| - 1];
      OffersOf(log[..|log| - 1], b) + (if o.booking == b then [o.command] else [])
  }

  lemma {:induction false} OffersOfAppend(a: seq<Offer>, c: seq<Offer>, b: nat)
    ensures OffersOf(a + c, b) == OffersOf(a, b) + OffersOf(c, b)
  {
    if c == [] {
      assert a + c == a;
    } else {
      var early := c[..|c| - 1];
      OffersOfAppend(a, early, b);
      assert (a + c)[..|a + c| - 1] == a + early;
      Assoc(OffersOf(a, b), OffersOf(early, b), if c[|c| - 1].booking == b then [c[|c| - 1].command] else []);
    }
  }

  ghost predicate Distinct(owner: seq<nat>) {
    forall i, j :: 0 <= i < j < |owner| ==> owner[i] != owner[j]
  }

  /** What one poll hands out for booking `b`: its job's command if its slot's job fires, else nothing. */
  lemma {:induction false} TalliedOffers(jobs: seq<Job>, now: nat, entered: bool, current: nat, answers: seq<bool>, owner: seq<nat>, b: nat)
    requires |jobs| <= |answers| && |jobs| <= |owner| && AllTimed(jobs) && Distinct(owner)
    ensures var offered := OffersOf(Tallied(jobs, now, entered, current, answers, owner).offered, b);
      && ((forall i :: 0 <= i < |jobs| ==> owner[i] != b) ==> offered == [])
      && (forall i :: 0 <= i < |jobs| && owner[i] == b ==>
            offered == if PollJob(jobs[i], now, entered, current).fired then [jobs[i].command] else [])
  {
    if jobs != [] {
      var n := |jobs| - 1;
      var t := Tallied(jobs[..n], now, entered, current, answers, owner);
      TalliedOffers(jobs[..n], now, entered, current, answers, owner, b);
      if PollJob(jobs[n], now, entered, current).fired {
        OffersOfAppend(t.offered, [Offer(owner[n], jobs[n].command)], b);
      }
    }
  }

  function Copies(command: string, n: nat): seq<string> {
    seq(n, _ => command)
  }

  function Active(jobs: seq<Job>): nat {
    if jobs == [] then 0 else Active(jobs[..|jobs| - 1]) + (if jobs[|jobs| - 1].active then 1 else 0)
  }

  /** Everything the schedule and cancel operations change. */
  datatype Table = Table(jobs: seq<Job>, next_id: nat, stats: Stats, ledger: Ledger)

  /** Which booking each slot was last given to, and the number of the next one. */
  datatype Ledger = Ledger(owner: seq<nat>, next: nat)

  ghost predicate Kept(l: Ledger) {
    |l.owner| == MAX_JOBS && Distinct(l.owner) && forall i :: 0 <= i < |l.owner| ==> l.owner[i] < l.next
  }

  function Refused(table: Table): Table {
    table.(stats := table.stats.(rejected := table.stats.rejected + 1))
  }

  ghost predicate FirstFree(jobs: seq<Job>, slot: nat) {
    && slot < |jobs| && !jobs[slot].active
    && (forall i :: 0 <= i < slot ==> jobs[i].active)
  }

  /** Why a schedule call is refused, or Ok. */
  ghost function Verdict(configured: bool, command: string, jobs: seq<Job>): Error {
    if !configured then NotConfigured
    else if command == "" then EmptyCommand
    else if |command| > MAX_COMMAND then CommandTooLong
    else if SaysJob(command) then Recursive
    else if forall i :: 0 <= i < |jobs| ==> jobs[i].active then Full
    else Ok
  }

  /** `job` went into the first free slot under the next identifier, and nothing else changed. */
  ghost predicate Booked(was: Table, now: Table, job: Job) {
    exists slot: nat {:trigger was.jobs[slot]} :: FirstFree(was.jobs, slot) && BookedAt(was, now, job, slot)
  }

  ghost predicate BookedAt(was: Table, now: Table, job: Job, slot: nat) {
    && slot < |was.jobs|
    && now.jobs == was.jobs[slot := job.(active := true, id := was.next_id)]
    && now.next_id == (if was.next_id == 255 then 1 else was.next_id + 1)
    && now.stats == was.stats
    && slot < |was.ledger.owner|
    && now.ledger == Ledger(was.ledger.owner[slot := was.ledger.next], was.ledger.next + 1)
  }

  /** A schedule call came to `error`. */
  ghost predicate Answered(was: Table, now: Table, job: Job, error: Error) {
    if error == Ok then Booked(was, now, job) else now == Refused(was)
  }

  /** No schedule call, granted or refused, touches an active job, or any slot it is not given. */
  lemma SchedulingKeepsActive(was: Table, now: Table, job: Job, error: Error)
    requires Answered(was, now, job, error) && |was.jobs| == MAX_JOBS && Kept(was.ledger)
    ensures |now.jobs| == |was.jobs| && Kept(now.ledger)
    ensures forall i :: 0 <= i < |was.jobs| && was.jobs[i].active ==> now.jobs[i] == was.jobs[i] && now.ledger.owner[i] == was.ledger.owner[i]
    ensures SameOwners(was, now)
  {
    if error == Ok {
      var slot: nat :| FirstFree(was.jobs, slot) && BookedAt(was, now, job, slot);
      BookingKeepsActive(was, now, job, slot);
    }
  }

  /** A slot that keeps its booking keeps its job; one that does not was free and has a new booking. */
  ghost predicate SameOwners(was: Table, now: Table)
    requires |was.jobs| == |now.jobs| == |was.ledger.owner| == |now.ledger.owner|
  {
    && was.ledger.next <= now.ledger.next
    && forall i :: 0 <= i < |was.jobs| ==>
         if now.ledger.owner[i] == was.ledger.owner[i] then now.jobs[i] == was.jobs[i]
         else !was.jobs[i].active && now.ledger.owner[i] >= was.ledger.next
  }

  lemma BookingKeepsActive(was: Table, now: Table, job: Job, slot: nat)
    requires FirstFree(was.jobs, slot) && BookedAt(was, now, job, slot) && |was.jobs| == MAX_JOBS && Kept(was.ledger)
    ensures |now.jobs| == |was.jobs| && Kept(now.ledger) && SameOwners(was, now)
    ensures forall i :: 0 <= i < |was.jobs| && was.jobs[i].active ==> now.jobs[i] == was.jobs[i] && now.ledger.owner[i] == was.ledger.owner[i]
  {
  }

  ghost predicate FirstMatch(jobs: seq<Job>, id: nat, slot: nat) {
    && slot < |jobs| && jobs[slot].active && jobs[slot].id == id
    && (forall i :: 0 <= i < slot ==> !(jobs[i].active && jobs[i].id == id))
  }

  /** What other tasks and the clock do to the scheduler. */
  datatype Event =
    | Poll(tick: Tick, answers: seq<bool>)
    | AddInterval(interval_ms: nat, repeat: nat, command: string)
    | AddOnce(delay_ms: nat, command: string)
    | AddOnState(state: nat, command: string)
    | CancelOne(id: nat)
    | CancelAll

  function Ticks(events: seq<Event>): seq<Tick> {
    if events == [] then []
    else
      var early := Ticks(events[..|events| - 1]);
      var last := events[|events| - 1];
      if last.Poll? then early + [last.tick] else early
  }

  /** No event takes the job with this identifier out of the table. */
  predicate Spares(events: seq<Event>, id: nat) {
    CancelAll !in events && CancelOne(id) !in events
  }

  class JobScheduler {
    var configured: bool
    const jobs: array<Job>
    var next_id: nat
    var last_state: nat
    var stats: Stats
    /** Who has which slot, and every command ever handed to the executor. */
    ghost var ledger: Ledger
    ghost var log: seq<Offer>

    ghost predicate Valid()
      reads this, jobs
    {
      && jobs.Length == MAX_JOBS && AllTimed(jobs[..])
      && 1 <= next_id <= 255 && Kept(ledger)
    }

    ghost function Contents(): Table
      reads this, jobs
    {
      Table(jobs[..], next_id, stats, ledger)
    }

    constructor ()
      ensures Valid() && !configured && last_state == NO_STATE && stats == Stats(0, 0, 0, 0)
      ensures forall i :: 0 <= i < MAX_JOBS ==> !jobs[i].active
      ensures fresh(jobs)
    {
      configured := false;
      jobs := new Job[MAX_JOBS](_ => Blank);
      next_id, last_state, stats := 1, NO_STATE, Stats(0, 0, 0, 0);
      ledger, log := Ledger(seq(MAX_JOBS, i => i), MAX_JOBS), [];
    }

    method Configure()
      requires Valid()
      modifies this`configured
      ensures Valid() && configured
    {
      configured := true;
    }

    method Reject()
      modifies this`stats
      ensures Contents() == Refused(old(Contents()))
    {
      stats := stats.(rejected := stats.rejected + 1);
    }

    /** A free slot for `command`, wiped, marked active and numbered; otherwise the cause of the
        refusal, counted. The caller completes the job. */
    method Allocate(command: string) returns (error: Error, slot: nat)
      requires Valid()
      modifies this`next_id, this`stats, this`ledger, jobs
      ensures 1 <= next_id <= 255 && Kept(ledger)
      ensures error == Verdict(configured, command, old(jobs[..]))
      ensures error == Ok <==> configured && 0 < |command| <= 96 && !SaysJob(command)
                               && exists i :: 0 <= i < 8 && !old(jobs[..])[i].active
      ensures error == CommandTooLong <==> configured && |command| > 96
      ensures error != Ok ==> Contents() == Refused(old(Contents()))
      ensures error == Ok ==> FirstFree(old(jobs[..]), slot)
                              && BookedAt(old(Contents()), Contents(), Blank.(command := command), slot)
    {
      slot := 0;
      if !configured {
        Reject();
        return NotConfigured, slot;
      }
      if command == "" {
        Reject();
        return EmptyCommand, slot;
      }
      if |command| > MAX_COMMAND {
        Reject();
        return CommandTooLong, slot;
      }
      var recursive := IsJobCommand(command);
      if recursive {
        Reject();
        return Recursive, slot;
      }
      error, slot := Claim(command);
    }

    method Claim(command: string) returns (error: Error, slot: nat)
      requires Valid()
      modifies this`next_id, this`stats, this`ledger, jobs
      ensures 1 <= next_id <= 255 && Kept(ledger)
      ensures error == if forall i :: 0 <= i < MAX_JOBS ==> old(jobs[..])[i].active then Full else Ok
      ensures error != Ok ==> Contents() == Refused(old(Contents()))
      ensures error == Ok ==> FirstFree(old(jobs[..]), slot)
                              && BookedAt(old(Contents()), Contents(), Blank.(command := command), slot)
    {
      slot := 0;
      while slot < MAX_JOBS
        invariant slot <= MAX_JOBS
        invariant forall i :: 0 <= i < slot ==> jobs[..][i].active
      {
        if !jobs[slot].active {
          assert !jobs[..][slot].active;
          jobs[slot] := Blank.(active := true, id := next_id, command := command);
          next_id := if next_id == 255 then 1 else next_id + 1;
          ledger := Ledger(ledger.owner[slot := ledger.next], ledger.next + 1);
          return Ok, slot;
        }
        slot := slot + 1;
      }
      Reject();
      error := Full;
    }

    method ScheduleInterval(interval_ms: nat, repeat: nat, command: string) returns (error: Error, id: nat)
      requires Valid()
      modifies this`next_id, this`stats, this`ledger, jobs
      ensures Valid()
      ensures error == if interval_ms == 0 then BadInterval else Verdict(configured, command, old(jobs[..]))
      ensures Answered(old(Contents()), Contents(),
                       Blank.(kind := Interval, interval_ms := interval_ms, remaining := repeat, command := command), error)
      ensures error == Ok ==> id == old(next_id)
    {
      id := 0;
      if interval_ms == 0 {
        Reject();
        return BadInterval, id;
      }
      var slot;
      error, slot := Allocate(command);
      if error == Ok {
        jobs[slot] := jobs[slot].(kind := Interval, interval_ms := interval_ms, remaining := repeat);
        id := jobs[slot].id;
        assert BookedAt(old(Contents()), Contents(),
                        Blank.(kind := Interval, interval_ms := interval_ms, remaining := repeat, command := command), slot);
      }
    }

    method ScheduleOnce(delay_ms: nat, command: string) returns (error: Error, id: nat)
      requires Valid()
      modifies this`next_id, this`stats, this`ledger, jobs
      ensures Valid()
      ensures error == if delay_ms == 0 then BadInterval else Verdict(configured, command, old(jobs[..]))
      ensures Answered(old(Contents()), Contents(),
                       Blank.(kind := Once, interval_ms := delay_ms, remaining := 1, command := command), error)
      ensures error == Ok ==> id == old(next_id)
    {
      id := 0;
      if delay_ms == 0 {
        Reject();
        return BadInterval, id;
      }
      var slot;
      error, slot := Allocate(command);
      if error == Ok {
        jobs[slot] := jobs[slot].(kind := Once, interval_ms := delay_ms, remaining := 1);
        id := jobs[slot].id;
        assert BookedAt(old(Contents()), Contents(),
                        Blank.(kind := Once, interval_ms := delay_ms, remaining := 1, command := command), slot);
      }
    }

    method ScheduleOnState(state: nat, command: string) returns (error: Error, id: nat)
      requires Valid()
      modifies this`next_id, this`stats, this`ledger, jobs
      ensures Valid()
      ensures error == Verdict(configured, command, old(jobs[..]))
      ensures Answered(old(Contents()), Contents(), Blank.(kind := OnStateEnter, state := state, command := command), error)
      ensures error == Ok ==> id == old(next_id)
    {
      id := 0;
      var slot;
      error, slot := Allocate(command);
      if error == Ok {
        jobs[slot] := jobs[slot].(kind := OnStateEnter, state := state, interval_ms := 0, remaining := 0);
        id := jobs[slot].id;
        assert BookedAt(old(Contents()), Contents(), Blank.(kind := OnStateEnter, state := state, command := command), slot);
      }
    }

    /** Frees the first active job with this identifier. */
    method Cancel(id: nat) returns (found: bool)
      requires Valid()
      modifies jobs
      ensures Valid()
      ensures found <==> exists i :: 0 <= i < MAX_JOBS && old(jobs[..])[i].active && old(jobs[..])[i].id == id
      ensures forall i :: 0 <= i < MAX_JOBS ==>
        jobs[i] == if FirstMatch(old(jobs[..]), id, i) then old(jobs[i]).(active := false) else old(jobs[i])
    {
      var i := 0;
      ghost var was := jobs[..];
      while i < MAX_JOBS
        invariant i <= MAX_JOBS && jobs[..] == was
        invariant forall k :: 0 <= k < i ==> !(was[k].active && was[k].id == id)
      {
        if jobs[i].active && jobs[i].id == id {
          assert FirstMatch(was, id, i);
          jobs[i] := jobs[i].(active := false);
          return true;
        }
        i := i + 1;
      }
      found := false;
    }

    method CancelAllJobs() returns (cancelled: nat)
      requires Valid()
      modifies jobs
      ensures Valid()
      ensures forall i :: 0 <= i < MAX_JOBS ==> jobs[i] == old(jobs[i]).(active := false)
      ensures cancelled == Active(old(jobs[..]))
    {
      var i := 0;
      cancelled := 0;
      ghost var was := jobs[..];
      while i < MAX_JOBS
        invariant i <= MAX_JOBS && cancelled == Active(was[..i])
        invariant forall k :: 0 <= k < i ==> jobs[k] == was[k].(active := false)
        invariant forall k :: i <= k < MAX_JOBS ==> jobs[k] == was[k]
      {
        assert was[..i + 1][..i] == was[..i];
        if jobs[i].active {
          jobs[i] := jobs[i].(active := false);
          cancelled := cancelled + 1;
        }
        i := i + 1;
      }
      assert was[..i] == was;
    }

    /** A due job fires: what was missed is given up, the command is offered, the repeats are counted. */
    method Fire(job: Job, now: nat, answer: bool) returns (next: Job, ghost skipped: nat)
      requires Timed(job) && job.active && (job.kind != OnStateEnter ==> now >= job.next_ms)
      modifies this`stats
      ensures job.kind == OnStateEnter ==> next == Count(job) && skipped == 0
      ensures job.kind != OnStateEnter ==> next == Count(job.(next_ms := Reschedule(job, now).0)) && skipped == Reschedule(job, now).1
      ensures stats == Bumped(old(stats), Outcome(next, true, skipped), answer)
    {
      next, skipped := job, 0;
      if job.kind != OnStateEnter {
        var lateness := now - job.next_ms;
        if lateness >= job.interval_ms {
          skipped := lateness / job.interval_ms;
          stats := stats.(skipped_late := stats.skipped_late + lateness / job.interval_ms);
          next := job.(next_ms := now + job.interval_ms);
        } else {
          next := job.(next_ms := job.next_ms + job.interval_ms);
        }
      }
      if answer {
        stats := stats.(fired := stats.fired + 1);
      } else {
        stats := stats.(submit_failed := stats.submit_failed + 1);
      }
      next := next.(fired := next.fired + 1);
      if next.remaining != 0 {
        next := next.(remaining := next.remaining - 1);
        if next.remaining == 0 { next := next.(active := false); }
      }
    }

    /** One slot's turn in poll. */
    method PollSlot(i: nat, now: nat, entered: bool, current: nat, answer: bool) returns (accepted: bool, ghost fired: bool)
      requires Valid() && i < MAX_JOBS
      modifies this`stats, jobs
      ensures Valid()
      ensures var o := PollJob(old(jobs[i]), now, entered, current);
        && jobs[..] == old(jobs[..])[i := o.job] && fired == o.fired && accepted == (fired && answer)
        && stats == Bumped(old(stats), o, answer)
    {
      accepted, fired := false, false;
      var job := jobs[i];
      if job.active {
        var due := false;
        if job.kind == OnStateEnter {
          due := entered && job.state == current;
        } else if job.next_ms == 0 {
          jobs[i] := job.(next_ms := now + job.interval_ms);
        } else {
          due := now >= job.next_ms;
        }
        if due {
          accepted, fired := answer, true;
          ghost var skipped;
          job, skipped := Fire(job, now, answer);
          jobs[i] := job;
        }
      }
    }

    method PollOnce(tick: Tick, answers: seq<bool>) returns (fired_now: nat, ghost offered: seq<Offer>)
      requires Valid() && |answers| == MAX_JOBS
      modifies this`last_state, this`stats, this`log, jobs
      ensures Valid()
      ensures !configured ==> Contents() == old(Contents()) && last_state == old(last_state) && fired_now == 0 && offered == []
      ensures log == old(log) + offered
      ensures configured ==> last_state == tick.state
      ensures configured ==> forall i :: 0 <= i < MAX_JOBS ==>
        jobs[i] == PollJob(old(jobs[..])[i], tick.now, Entered(old(last_state), tick.state), tick.state).job
      ensures configured ==>
        var t := Tallied(old(jobs[..]), tick.now, Entered(old(last_state), tick.state), tick.state, answers, ledger.owner);
        && fired_now == t.fired && offered == t.offered
        && stats == Counted(old(stats), t)
    {
      fired_now, offered := 0, [];
      if configured {
        var entered := last_state != NO_STATE && tick.state != last_state;
        last_state := tick.state;
        fired_now, offered := PollSlots(tick, entered, answers);
        log := log + offered;
      }
    }

    method PollSlots(tick: Tick, entered: bool, answers: seq<bool>) returns (fired_now: nat, ghost offered: seq<Offer>)
      requires Valid() && |answers| == MAX_JOBS
      modifies this`stats, jobs
      ensures Valid()
      ensures forall i :: 0 <= i < MAX_JOBS ==> jobs[i] == PollJob(old(jobs[..])[i], tick.now, entered, tick.state).job
      ensures var t := Tallied(old(jobs[..]), tick.now, entered, tick.state, answers, ledger.owner);
        && fired_now == t.fired && offered == t.offered
        && stats == Counted(old(stats), t)
    {
      fired_now, offered := 0, [];
      ghost var was, before, t := jobs[..], stats, Tally(0, 0, 0, []);
      var i := 0;
      while i < MAX_JOBS
        invariant i <= MAX_JOBS && Valid()
        invariant forall k :: 0 <= k < i ==> jobs[k] == PollJob(was[k], tick.now, entered, tick.state).job
        invariant forall k :: i <= k < MAX_JOBS ==> jobs[k] == was[k]
        invariant t == Tallied(was[..i], tick.now, entered, tick.state, answers, ledger.owner)
        invariant fired_now == t.fired && offered == t.offered && stats == Counted(before, t)
      {
        ghost var o, offer := PollJob(was[i], tick.now, entered, tick.state), Offer(ledger.owner[i], was[i].command);
        TalliedNext(was, i, tick.now, entered, tick.state, answers, ledger.owner);
        CountedNext(before, t, o, answers[i], offer);
        t := AddTo(t, o, answers[i], offer);
        var accepted;
        ghost var fired;
        accepted, fired := PollSlot(i, tick.now, entered, tick.state, answers[i]);
        if accepted { fired_now := fired_now + 1; }
        if fired { offered := offered + [offer]; }
        i := i + 1;
      }
      assert was[..i] == was;
    }

    /** One event, seen from the slots whose jobs it does not cancel. */
    method Perform(event: Event)
      requires Valid() && configured && (event.Poll? ==> |event.answers| == MAX_JOBS)
      modifies this`next_id, this`last_state, this`stats, this`ledger, this`log, jobs
      ensures Valid()
      ensures event.Poll? ==> last_state == event.tick.state && ledger == old(ledger)
      ensures event.Poll? ==> log == old(log) + Tallied(old(jobs[..]), event.tick.now, Entered(old(last_state), event.tick.state),
                                                        event.tick.state, event.answers, ledger.owner).offered
      ensures event.Poll? ==> forall i :: 0 <= i < MAX_JOBS ==>
        jobs[..][i] == PollJob(old(jobs[..])[i], event.tick.now, Entered(old(last_state), event.tick.state), event.tick.state).job
      ensures !event.Poll? ==> last_state == old(last_state) && log == old(log) && old(ledger).next <= ledger.next
      ensures !event.Poll? ==> forall i :: 0 <= i < MAX_JOBS && ledger.owner[i] != old(ledger).owner[i] ==>
        !old(jobs[..])[i].active && ledger.owner[i] >= old(ledger).next
      ensures !event.Poll? ==>
        forall i :: 0 <= i < MAX_JOBS && ledger.owner[i] == old(ledger).owner[i] && Spares([event], old(jobs[..])[i].id) ==>
          jobs[..][i] == old(jobs[..])[i]
    {
      assert event in [event];
      ghost var was := Contents();
      match event
      case Poll(tick, answers) =>
        var n;
        ghost var offered;
        n, offered := PollOnce(tick, answers);
      case AddInterval(d, n, command) =>
        var e, id := ScheduleInterval(d, n, command);
        SchedulingKeepsActive(was, Contents(), Blank.(kind := Interval, interval_ms := d, remaining := n, command := command), e);
      case AddOnce(d, command) =>
        var e, id := ScheduleOnce(d, command);
        SchedulingKeepsActive(was, Contents(), Blank.(kind := Once, interval_ms := d, remaining := 1, command := command), e);
      case AddOnState(state, command) =>
        var e, id := ScheduleOnState(state, command);
        SchedulingKeepsActive(was, Contents(), Blank.(kind := OnStateEnter, state := state, command := command), e);
      case CancelOne(id) =>
        var found := Cancel(id);
      case CancelAll =>
        var n := CancelAllJobs();
    }

    method PerformFor(event: Event, ghost slot: nat, ghost b: nat, ghost h: History, ghost before: seq<string>)
      requires Valid() && configured && (event.Poll? ==> |event.answers| == MAX_JOBS) && slot < MAX_JOBS
      requires Timed(h.job) && Follows(Contents(), log, slot, b, h, before) && Spares([event], h.job.id)
      modifies this`next_id, this`last_state, this`stats, this`ledger, this`log, jobs
      ensures Valid()
      ensures last_state == if event.Poll? then event.tick.state else old(last_state)
      ensures Follows(Contents(), log, slot, b, if event.Poll? then Extend(h, old(last_state), event.tick) else h, before)
    {
      ghost var was, last, held := Contents(), last_state, log;
      Perform(event);
      if event.Poll? {
        PollFollows(was, held, Contents(), log, slot, b, h, before, last, event.tick, event.answers);
      } else {
        OtherFollows(was, log, Contents(), slot, b, h, before);
      }
    }

    /** Over any mix of polls, new jobs and cancellations of other jobs, the job in a slot goes through
        exactly its own run, even where its slot is given away after the run ended it, and the executor
        is handed its command exactly once for every firing of that run. */
    method PerformAll(events: seq<Event>, ghost slot: nat)
      requires Valid() && configured && slot < MAX_JOBS
      requires forall i :: 0 <= i < |events| ==> (events[i].Poll? ==> |events[i].answers| == MAX_JOBS)
      requires Spares(events, jobs[slot].id)
      modifies this`next_id, this`last_state, this`stats, this`ledger, this`log, jobs
      ensures Valid()
      ensures Follows(Contents(), log, slot, old(ledger.owner[slot]), Run(old(jobs[slot]), old(last_state), Ticks(events)),
                      old(OffersOf(log, ledger.owner[slot])))
    {
      ghost var job, last, b, before := jobs[slot], last_state, ledger.owner[slot], OffersOf(log, ledger.owner[slot]);
      ghost var h := History(job, [], 0, 0);
      Assoc(before, [], []);
      var i := 0;
      while i < |events|
        invariant i <= |events| && Valid() && configured
        invariant last_state == StateAfter(last, Ticks(events[..i])) && h == Run(job, last, Ticks(events[..i]))
        invariant Follows(Contents(), log, slot, b, h, before)
      {
        RunEvent(job, last, events, i);
        PerformFor(events[i], slot, b, h, before);
        h := Run(job, last, Ticks(events[..i + 1]));
        i := i + 1;
      }
      assert events[..i] == events;
    }
  }

  /** The job of booking `b`, which went through history `h` since `before` was handed out for it: its
      slot still holds it as that history left it, or the history ended it and the slot is another's;
      and the executor was given its command once for every firing. */
  ghost predicate Follows(t: Table, log: seq<Offer>, slot: nat, b: nat, h: History, before: seq<string>) {
    && |t.jobs| == |t.ledger.owner| == MAX_JOBS && slot < MAX_JOBS && b < t.ledger.next
    && (forall i :: 0 <= i < MAX_JOBS && i != slot ==> t.ledger.owner[i] != b)
    && (if t.ledger.owner[slot] == b then t.jobs[slot] == h.job else !h.job.active)
    && OffersOf(log, b) == before + Copies(h.job.command, Fires(h.firings))
  }

  lemma PollFollows(was: Table, held: seq<Offer>, now: Table, log: seq<Offer>, slot: nat, b: nat, h: History, before: seq<string>,
                    last: nat, tick: Tick, answers: seq<bool>)
    requires Follows(was, held, slot, b, h, before) && Timed(h.job) && AllTimed(was.jobs) && |answers| == MAX_JOBS
    requires Kept(was.ledger) && now.ledger == was.ledger && |now.jobs| == MAX_JOBS
    requires now.jobs[slot] == PollJob(was.jobs[slot], tick.now, Entered(last, tick.state), tick.state).job
    requires log == held + Tallied(was.jobs, tick.now, Entered(last, tick.state), tick.state, answers, was.ledger.owner).offered
    ensures Follows(now, log, slot, b, Extend(h, last, tick), before)
  {
    var entered := Entered(last, tick.state);
    var offered := Tallied(was.jobs, tick.now, entered, tick.state, answers, was.ledger.owner).offered;
    TalliedOffers(was.jobs, tick.now, entered, tick.state, answers, was.ledger.owner, b);
    OffersOfAppend(held, offered, b);
    OneMoreFiring(h.job.command, h.firings, PollJob(h.job, tick.now, entered, tick.state).fired, before);
  }

  lemma OtherFollows(was: Table, log: seq<Offer>, now: Table, slot: nat, b: nat, h: History, before: seq<string>)
    requires Follows(was, log, slot, b, h, before) && |now.jobs| == |now.ledger.owner| == MAX_JOBS
    requires was.ledger.next <= now.ledger.next
    requires forall i :: 0 <= i < MAX_JOBS && now.ledger.owner[i] != was.ledger.owner[i] ==>
      !was.jobs[i].active && now.ledger.owner[i] >= was.ledger.next
    requires now.ledger.owner[slot] == was.ledger.owner[slot] == b ==> now.jobs[slot] == was.jobs[slot]
    ensures Follows(now, log, slot, b, h, before)
  {
  }

  /** One more event of a run. */
  lemma RunEvent(job: Job, last: nat, events: seq<Event>, i: nat)
    requires Timed(job) && i < |events| && Spares(events, job.id)
    ensures Spares([events[i]], Run(job, last, Ticks(events[..i])).job.id)
    ensures var ticks, more := Ticks(events[..i]), Ticks(events[..i + 1]);
      if events[i].Poll? then Run(job, last, more) == Extend(Run(job, last, ticks), StateAfter(last, ticks), events[i].tick)
                              && StateAfter(last, more) == events[i].tick.state
      else more == ticks
  {
    assert events[..i + 1][..i] == events[..i];
    if events[i].Poll? { RunSnoc(job, last, Ticks(events[..i]), events[i].tick); }
  }

  lemma OneMoreFiring(command: string, firings: seq<bool>, fired: bool, before: seq<string>)
    ensures before + Copies(command, Fires(firings + [fired]))
         == before + Copies(command, Fires(firings)) + (if fired then [command] else [])
  {
    assert (firings + [fired])[..|firings|] == firings;
  }
}
