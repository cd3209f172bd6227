/** Joining a known network and accepting firmware: the scan, connect and serve state machine. */
module OTAUpdater {
  import opened Common

  const U32 := 0x1_0000_0000

  datatype Phase = Idle | Scanning | Connecting | ConnectFailed | Serving

  datatype Credential = Credential(ssid: string, password: string)

  /** The signed 32-bit difference of two times is not negative. */
  predicate Reached(now: nat, at: nat) {
    (now - at) % U32 < U32 / 2
  }

  /** Of two true times less than 2^31 ms apart it tells the order, wherever the 32-bit clock has wrapped. */
  lemma ReachedIsOrder(now: nat, at: nat)
    requires -0x8000_0000 <= now - at < 0x8000_0000
    ensures Reached(now % 0x1_0000_0000, at % 0x1_0000_0000) <==> now >= at
  {
  }

  /** What the drivers answer during one call. */
  datatype Driver = Driver(scan_starts: bool, connect_starts: bool, http_starts: bool, visible: seq<string>)

  predicate Visible(candidates: seq<Credential>, i: nat, visible: seq<string>)
    requires i < |candidates|
  {
    candidates[i].ssid in visible
  }

  ghost predicate SomeVisible(candidates: seq<Credential>, count: nat, from: nat, visible: seq<string>)
    requires count <= |candidates|
  {
    exists k :: from <= k < count && Visible(candidates, k, visible)
  }

  /** The candidate a completed scan selects when the search begins at `from`: the first visible one,
      or none. */
  ghost predicate Selects(candidates: seq<Credential>, count: nat, from: nat, visible: seq<string>, chosen: nat)
    requires count <= |candidates|
  {
    && from <= chosen <= count
    && (forall k :: from <= k < chosen ==> !Visible(candidates, k, visible))
    && (chosen < count ==> Visible(candidates, chosen, visible))
  }

  predicate Increasing(s: seq<nat>) {
    forall i, j :: 0 <= i < j < |s| ==> s[i] < s[j]
  }

  /** One step of some task, up to the next place where another may get in. A tick, a start and a survey act
      and store the new phase as their last step; a start that upgrades a direct connection takes up to
      three. cancel checks, stops the server, waiting for a request handler to return, and goes idle as its
      last step. Wi-Fi events carry the number of the attempt they are about, which the code is not told. */
  datatype Event =
    | Begin(direct: bool, mounted: bool, stored: seq<Credential>, now: nat, driver: Driver)
    | Survey(now: nat, driver: Driver)
    | StartGoesOn(now: nat, driver: Driver)
    | Process(buttons: bool, now: nat, driver: Driver)
    | TickEnds
    | CancelRequested
    | CancelStops
    | CancelFinishes
    | ScanDone
    | GotIp(attempt: nat)
    | Disconnected(attempt: nat)
    | RequestArrives
    | FlashBegins
    | FlashEnds
    | RequestReturns(staged: bool)
    | FinishTimer

  /** What a call has still to do. */
  datatype Pending = Nothing | Store(phase: Phase) | Upgrading

  /** What identifies a session in progress. */
  datatype Session = Session(phase: Phase, direct_mode: bool, server: bool, candidate_index: nat, candidate_count: nat)

  /** Which attempt was judged, and the attempt whose event decided, if one did. */
  datatype Verdict = Verdict(attempt: nat, of: Option<nat>)

  predicate Own(v: Verdict) {
    v.of.Some? ==> v.of.value == v.attempt
  }

  ghost predicate AllOwn(verdicts: seq<Verdict>) {
    forall k :: 0 <= k < |verdicts| ==> Own(verdicts[k])
  }

  /** Number of attempts; the attempts that the two event flags are about; the verdicts; whether an attempt
      ever began with a flag set or an event came for another attempt than the last. */
  datatype Trials = Trials(attempts: nat, ip_of: nat, lost_of: nat, verdicts: seq<Verdict>, stale: bool)

  /** Every verdict is by the attempt's own event as long as none is stale. */
  ghost predicate Fair(t: Trials, got_ip: bool, disconnected: bool) {
    !t.stale ==> AllOwn(t.verdicts) && (got_ip ==> t.ip_of == t.attempts) && (disconnected ==> t.lost_of == t.attempts)
  }

  function Heard(t: Trials, event: Event): Trials {
    match event
    case GotIp(of) => t.(ip_of := of, stale := t.stale || of != t.attempts)
    case Disconnected(of) => t.(lost_of := of, stale := t.stale || of != t.attempts)
    case _ => t
  }

  function Judged(t: Trials, of: Option<nat>): Trials {
    t.(verdicts := t.verdicts + [Verdict(t.attempts, of)])
  }

  function Begun(t: Trials, flagged: bool): Trials {
    t.(attempts := t.attempts + 1, stale := t.stale || flagged)
  }

  lemma FairJudged(t: Trials, got_ip: bool, disconnected: bool, of: Option<nat>)
    requires Fair(t, got_ip, disconnected)
    requires of == None || (got_ip && of == Some(t.ip_of)) || (disconnected && of == Some(t.lost_of))
    ensures Fair(Judged(t, of), got_ip, disconnected)
  {
  }

  /** The candidates tried in this pass over the list were tried in file order. */
  ghost predicate InOrder(tried: seq<nat>, phase: Phase, index: nat, surveying: bool) {
    && Increasing(tried)
    && (phase == Scanning && !surveying ==> forall i :: 0 <= i < |tried| ==> tried[i] < index)
    && (phase.Connecting? || phase.ConnectFailed? || phase.Serving? ==> tried != [] && tried[|tried| - 1] == index)
  }

  class OTAUpdater {
    const retry_scan_ms: nat
    const connect_timeout_ms: nat
    const fail_hold_ms: nat
    var phase: Phase
    var direct_mode: bool
    var survey_only: bool
    var candidates: seq<Credential>
    var candidate_count: nat
    var candidate_index: nat
    var scan_in_flight: bool
    var next_scan_ms: nat
    var connect_deadline_ms: nat
    var retry_at_ms: nat
    var scan_done: bool
    var got_ip: bool
    var disconnected: bool
    var server: bool
    var flashing: bool

    /** Where the tasks are: what a tick and a start have still to do; cancels before and behind the stop of
        the server; whether the server's handler is running; finish timers armed. And the servers that run
        with nothing left to stop them by. */
    var ticker: Pending
    var starter: Pending
    var cancels: nat
    var stopping: nat
    var handling: bool
    var timers: nat
    var orphans: nat

    /** Candidates attempted since the search last returned to the first; whether a call ever began while
        another was under way. */
    ghost var tried: seq<nat>
    ghost var overlapped: bool

    /** What the attempts were judged by. */
    ghost var trials: Trials

    ghost predicate Valid()
      reads this
    {
      && candidate_count <= |candidates|
      && (!overlapped ==> Sound())
      && Fair(trials, got_ip, disconnected)
    }

    /** A call is under way. */
    predicate Busy()
      reads this
    {
      ticker != Nothing || starter != Nothing || stopping > 0
    }

    /** The phase as it will be once the pending store is made. */
    function Coming(): Phase
      reads this
    {
      if ticker.Store? then ticker.phase else if starter.Store? then starter.phase else phase
    }

    /** What holds as long as no call begins while another is under way. */
    ghost predicate Sound()
      reads this
    {
      && OneAtATime() && Served()
      && (flashing ==> handling) && (handling ==> server)
      && (Coming() == Idle ==> !direct_mode)
      && (survey_only ==> Coming() == Scanning && !direct_mode)
      && candidate_index <= candidate_count
      && (Coming().Connecting? || Coming().ConnectFailed? || Coming().Serving? ==> candidate_index < candidate_count)
      && InOrder(tried, Coming(), candidate_index, survey_only)
    }

    ghost predicate OneAtATime()
      reads this
    {
      && (stopping > 0 ==> ticker == Nothing && starter == Nothing && stopping == 1)
      && (ticker != Nothing ==> starter == Nothing && ticker.Store?)
    }

    /** The server runs exactly in an upload session that serves or is about to, but for a cancel that has
        stopped it already and an upgrade that has not started it yet. */
    ghost predicate Served()
      reads this
    {
      && orphans == 0
      && (if stopping > 0 || starter == Upgrading then !server else server <==> Coming() == Serving && !direct_mode)
      && (starter == Upgrading ==> !direct_mode)
    }

    /** The server exists exactly in an upload session that serves. */
    predicate Agrees()
      reads this
    {
      orphans == 0 && (server <==> phase == Serving && !direct_mode)
    }

    ghost function Key(): Session
      reads this
    {
      Session(Coming(), direct_mode, server, candidate_index, candidate_count)
    }

    constructor (retry: nat, timeout: nat, hold: nat)
      ensures Valid() && phase == Idle && !Busy() && !flashing && cancels == 0 && timers == 0 && !overlapped && fresh(this)
      ensures Agrees() && !direct_mode && !handling && trials == Trials(0, 0, 0, [], false)
      ensures retry_scan_ms == retry && connect_timeout_ms == timeout && fail_hold_ms == hold
    {
      retry_scan_ms, connect_timeout_ms, fail_hold_ms := retry, timeout, hold;
      phase, direct_mode, survey_only := Idle, false, false;
      candidates, candidate_count, candidate_index := [], 0, 0;
      scan_in_flight, next_scan_ms, connect_deadline_ms, retry_at_ms := false, 0, 0, 0;
      scan_done, got_ip, disconnected, server, flashing := false, false, false, false, false;
      ticker, starter, cancels, stopping, handling, timers, orphans := Nothing, Nothing, 0, 0, false, 0, 0;
      tried, overlapped := [], false;
      trials := Trials(0, 0, 0, [], false);
    }

    /** A call begins to act. */
    ghost method EnterCall()
      requires Valid()
      modifies this`overlapped
      ensures Valid() && overlapped == (old(overlapped) || Busy())
    {
      overlapped := overlapped || Busy();
    }

    // -------------------------------------------------------------------------
    // The server
    // -------------------------------------------------------------------------

    /** httpd_start, into the one handle there is. */
    method StartServer(driver: Driver) returns (ok: bool)
      modifies this`server, this`orphans
      ensures ok == driver.http_starts && server == (old(server) || ok)
      ensures orphans == if ok && old(server) then old(orphans) + 1 else old(orphans)
    {
      ok := driver.http_starts;
      if ok {
        if server { orphans := orphans + 1; }
        server := true;
      }
    }

    // -------------------------------------------------------------------------
    // Starting
    // -------------------------------------------------------------------------

    /** start (direct false) and startDirect, up to the store of the phase. On an idle updater the search
        begins at the first stored network; on a direct connection a plain start adds the server, in its
        next step; anything else already active is left alone. */
    method BeginScanning(direct: bool, mounted: bool, stored: seq<Credential>, now: nat, driver: Driver) returns (ok: bool)
      requires Valid() && starter == Nothing
      modifies this`candidates, this`candidate_count, this`candidate_index, this`tried, this`direct_mode, this`scan_done,
               this`got_ip, this`disconnected, this`scan_in_flight, this`next_scan_ms, this`starter, this`overlapped
      ensures Valid() && overlapped == (old(overlapped) || old(Busy()))
      ensures ok <==> phase != Idle || (mounted && stored != [])
      ensures !ok ==> starter == Nothing
      ensures phase == Idle && ok ==>
        && starter == Store(Scanning) && direct_mode == direct && candidates == stored && candidate_count == |stored|
        && candidate_index == 0 && tried == [] && !scan_done && !got_ip && !disconnected
      ensures phase != Idle ==> candidate_index == old(candidate_index) && candidate_count == old(candidate_count) && got_ip == old(got_ip)
      ensures phase != Idle && (direct || !old(direct_mode)) ==> starter == Nothing && direct_mode == old(direct_mode)
      ensures phase != Idle && !direct && old(direct_mode) ==> starter == Upgrading && !direct_mode
    {
      EnterCall();
      if phase != Idle {
        if !direct && direct_mode { BeginUpgrade(); }
        ok := true;
      } else if mounted {
        ok := StartSearch(direct, stored, now, driver);
      } else {
        ok := false;
      }
    }

    method BeginUpgrade()
      requires Valid() && direct_mode && starter == Nothing && phase != Idle && (!overlapped ==> !Busy())
      modifies this`direct_mode, this`starter
      ensures Valid() && !direct_mode && starter == Upgrading
    {
      direct_mode, starter := false, Upgrading;
    }

    method StartSearch(direct: bool, stored: seq<Credential>, now: nat, driver: Driver) returns (ok: bool)
      requires Valid() && phase == Idle && starter == Nothing && (!overlapped ==> !Busy())
      modifies this`candidates, this`candidate_count, this`candidate_index, this`tried, this`direct_mode,
               this`scan_done, this`got_ip, this`disconnected, this`scan_in_flight, this`next_scan_ms, this`starter
      ensures Valid() && ok == (stored != [])
      ensures !ok ==> starter == Nothing
      ensures ok ==> starter == Store(Scanning) && direct_mode == direct && candidates == stored && candidate_count == |stored|
      ensures ok ==> candidate_index == 0 && tried == [] && !scan_done && !got_ip && !disconnected
    {
      LoadCandidates(stored);
      ok := candidate_count > 0;
      if ok {
        ClearFlags();
        StartScan(now, driver);
        direct_mode, starter := direct, Store(Scanning);
      }
    }

    method LoadCandidates(stored: seq<Credential>)
      requires Valid() && phase == Idle && starter == Nothing && (!overlapped ==> !Busy())
      modifies this`candidates, this`candidate_count, this`candidate_index, this`tried
      ensures Valid() && candidates == stored && candidate_count == |stored| && candidate_index == 0 && tried == []
    {
      candidates, candidate_count, candidate_index, tried := stored, |stored|, 0, [];
    }

    method ClearFlags()
      requires Valid()
      modifies this`scan_done, this`got_ip, this`disconnected
      ensures Valid() && !scan_done && !got_ip && !disconnected
    {
      scan_done, got_ip, disconnected := false, false, false;
    }

    method StartScan(now: nat, driver: Driver)
      requires Valid()
      modifies this`scan_in_flight, this`next_scan_ms
      ensures Valid() && scan_in_flight == driver.scan_starts && next_scan_ms == (now + retry_scan_ms) % 0x1_0000_0000
    {
      scan_in_flight := driver.scan_starts;
      next_scan_ms := (now + retry_scan_ms) % U32;
    }

    /** The next step of a start: it stores the phase, or finds the connection it upgrades serving and
        starts the server. The server then runs where it should exactly if it was not running and the
        phase is still to be one that serves. */
    method StartNext(now: nat, driver: Driver)
      requires Valid() && starter != Nothing
      modifies this`starter, this`phase, this`server, this`orphans, this`retry_at_ms
      ensures Valid()
      ensures old(starter).Store? ==> phase == old(starter).phase && starter == Nothing && server == old(server) && orphans == old(orphans)
      ensures old(starter) == Upgrading ==> phase == old(phase)
      ensures old(starter) == Upgrading && phase != Serving ==> starter == Nothing && server == old(server) && orphans == old(orphans)
      ensures old(starter) == Upgrading && phase == Serving ==>
        && starter == (if driver.http_starts then Nothing else Store(ConnectFailed))
        && (!driver.http_starts ==> retry_at_ms == (now + fail_hold_ms) % 0x1_0000_0000)
        && server == (old(server) || driver.http_starts)
        && orphans == old(orphans) + (if old(server) && driver.http_starts then 1 else 0)
    {
      if starter.Store? {
        phase, starter := starter.phase, Nothing;
      } else if phase == Serving {
        var ok := StartServer(driver);
        if ok { starter := Nothing; } else { retry_at_ms, starter := (now + fail_hold_ms) % U32, Store(ConnectFailed); }
      } else {
        starter := Nothing;
      }
    }

    /** A look around that connects to nothing. */
    method BeginSurvey(now: nat, driver: Driver) returns (ok: bool)
      requires Valid() && starter == Nothing
      modifies this`scan_done, this`survey_only, this`scan_in_flight, this`next_scan_ms, this`starter, this`overlapped
      ensures Valid() && ok == (phase == Idle) && overlapped == (old(overlapped) || old(Busy()))
      ensures ok ==> starter == Store(Scanning) && survey_only
      ensures !ok ==> starter == Nothing && survey_only == old(survey_only)
    {
      EnterCall();
      ok := phase == Idle;
      if ok {
        scan_done, survey_only, starter := false, true, Store(Scanning);
        StartScan(now, driver);
      }
    }

    // -------------------------------------------------------------------------
    // The tick
    // -------------------------------------------------------------------------

    /** A button leaves a session the operator started, unless firmware is being written. */
    predicate Leaves(buttons: bool)
      reads this
    {
      buttons && phase != Idle && !flashing && !direct_mode
    }

    /** One tick, up to the store of the new phase. */
    method Process(buttons: bool, now: nat, driver: Driver)
      requires Valid() && ticker == Nothing
      modifies this`scan_in_flight, this`survey_only, this`candidate_index, this`next_scan_ms, this`connect_deadline_ms,
               this`retry_at_ms, this`tried, this`scan_done, this`got_ip, this`disconnected, this`server, this`orphans, this`cancels,
               this`ticker, this`overlapped, this`trials
      ensures Valid() && (ticker == Nothing || ticker.Store?)
      ensures overlapped == (old(overlapped) || (phase != Idle && !Leaves(buttons) && old(Busy())))
      ensures cancels == old(cancels) + if buttons && phase != Idle && !flashing && !direct_mode then 1 else 0
      ensures Leaves(buttons) || phase == Idle || phase == Serving ==> ticker == Nothing && server == old(server) && candidate_index == old(candidate_index)
      ensures ticker == Store(Idle) ==> phase == Scanning && old(survey_only)
      ensures phase == Scanning && ticker != Nothing ==> old(scan_done)
      ensures !old(server) && server ==> phase == Connecting && old(got_ip) && driver.http_starts
      ensures !Leaves(buttons) && phase == ConnectFailed ==>
        (if Reached(now, retry_at_ms) then ticker == Store(Scanning) && candidate_index == old(candidate_index) + 1
            else ticker == Nothing && server == old(server) && candidate_index == old(candidate_index))
    {
      if Leaves(buttons) {
        RequestCancel();
      } else if phase != Idle {
        Tick(now, driver);
      }
    }

    method Tick(now: nat, driver: Driver)
      requires Valid() && phase != Idle && ticker == Nothing
      modifies this`scan_in_flight, this`survey_only, this`candidate_index, this`next_scan_ms, this`connect_deadline_ms,
               this`retry_at_ms, this`tried, this`scan_done, this`got_ip, this`disconnected, this`server, this`orphans,
               this`ticker, this`trials, this`overlapped
      ensures overlapped == (old(overlapped) || old(Busy()))
      ensures Valid() && (ticker == Nothing || ticker.Store?)
      ensures phase == Serving ==> ticker == Nothing && server == old(server) && candidate_index == old(candidate_index)
      ensures ticker == Store(Idle) ==> phase == Scanning && old(survey_only)
      ensures phase == Scanning && ticker != Nothing ==> old(scan_done)
      ensures phase != Connecting ==> server == old(server)
      ensures phase == Connecting ==>
        Connects(old(got_ip), old(disconnected), driver, ticker, old(server), server, old(orphans), old(trials))
      ensures phase == ConnectFailed ==>
        && trials == old(trials) && disconnected == old(disconnected) && got_ip == old(got_ip)
        && (if Reached(now, retry_at_ms) then ticker == Store(Scanning) && candidate_index == old(candidate_index) + 1
            else ticker == Nothing && server == old(server) && candidate_index == old(candidate_index))
    {
      EnterCall();
      match phase
      case Scanning => TickScanning(now, driver);
      case Connecting => TickConnecting(now, driver);
      case ConnectFailed => if Reached(now, retry_at_ms) { TryNextCandidate(now); }
      case _ =>
    }

    /** What a tick that finds the robot connecting does: with an address the server is started, unless the
        mode is direct; a disconnection fails the attempt. */
    ghost predicate Connects(got: bool, lost: bool, driver: Driver, next: Pending, server_before: bool, server_after: bool,
                       orphans_before: nat, trials_before: Trials)
      reads this
    {
      var starts := got && !direct_mode && driver.http_starts;
      && (next == Store(Serving) <==> got && (direct_mode || driver.http_starts))
      && server_after == (server_before || starts)
      && orphans == orphans_before + (if server_before && starts then 1 else 0)
      && (got ==> trials == Judged(trials_before, Some(trials_before.ip_of)))
      && (!got && lost ==> next == Store(ConnectFailed) && trials == Judged(trials_before, Some(trials_before.lost_of)))
      && (next == Nothing ==> !got && !lost && trials == trials_before)
    }

    /** Its last step. The phase and the server agree afterwards exactly if, where it begins to serve, the
        server has been started or the mode is direct, and not both. */
    method EndTick()
      requires Valid() && ticker.Store?
      modifies this`ticker, this`phase
      ensures Valid() && phase == old(ticker).phase && ticker == Nothing
      ensures phase == Serving && orphans == 0 ==> (Agrees() <==> server != direct_mode)
      ensures phase != Serving && orphans == 0 ==> (Agrees() <==> !server)
    {
      phase, ticker := ticker.phase, Nothing;
    }

    method FailCandidate(now: nat)
      requires candidate_count <= |candidates| && ticker == Nothing && phase != Idle
      requires Fair(trials, got_ip, disconnected)
      requires !overlapped ==> stopping == 0 && starter == Nothing && orphans == 0 && !server && !handling && !flashing && !survey_only
      requires !overlapped ==> candidate_index < candidate_count && Increasing(tried) && tried != [] && tried[|tried| - 1] == candidate_index
      modifies this`retry_at_ms, this`ticker
      ensures Valid() && ticker == Store(ConnectFailed) && retry_at_ms == (now + fail_hold_ms) % U32
    {
      retry_at_ms := (now + fail_hold_ms) % U32;
      ticker := Store(ConnectFailed);
    }

    method TickScanning(now: nat, driver: Driver)
      requires Valid() && phase == Scanning && ticker == Nothing && (!overlapped ==> !Busy())
      modifies this`scan_in_flight, this`survey_only, this`ticker, this`candidate_index, this`next_scan_ms,
               this`connect_deadline_ms, this`retry_at_ms, this`tried, this`scan_done, this`trials
      ensures Valid() && (ticker == Nothing || ticker.Store?)
      ensures ticker == Store(Idle) ==> old(survey_only)
      ensures ticker != Store(Serving)
      ensures !old(scan_done) ==>
        && ticker == Nothing && candidate_index == old(candidate_index) && tried == old(tried)
        && scan_in_flight == (old(scan_in_flight) || (Reached(now, old(next_scan_ms)) && driver.scan_starts))
        && next_scan_ms == if !scan_in_flight && Reached(now, old(next_scan_ms)) then (now + retry_scan_ms) % 0x1_0000_0000
                           else old(next_scan_ms)
      ensures old(scan_done) && !old(survey_only) && ticker != Nothing ==>
        && Selects(candidates, candidate_count, old(candidate_index), driver.visible, candidate_index)
        && tried == old(tried) + [candidate_index]
      ensures old(scan_done) && !old(survey_only) && SomeVisible(candidates, candidate_count, old(candidate_index), driver.visible) ==>
        && ticker == Store(if driver.connect_starts then Connecting else ConnectFailed)
        && candidate_index < candidate_count && trials == Begun(old(trials), got_ip || disconnected)
      ensures ticker == Store(Connecting) ==> connect_deadline_ms == (now + connect_timeout_ms) % 0x1_0000_0000
      ensures ticker == Store(ConnectFailed) ==> retry_at_ms == (now + fail_hold_ms) % 0x1_0000_0000
    {
      if scan_done {
        scan_done := false;
        HandleScanDone(now, driver);
      } else if !scan_in_flight && Reached(now, next_scan_ms) {
        scan_in_flight := driver.scan_starts;
        if !scan_in_flight { next_scan_ms := (now + retry_scan_ms) % U32; }
      }
    }

    method HandleScanDone(now: nat, driver: Driver)
      requires Valid() && phase == Scanning && ticker == Nothing && (!overlapped ==> !Busy())
      modifies this`scan_in_flight, this`survey_only, this`ticker, this`candidate_index, this`next_scan_ms,
               this`connect_deadline_ms, this`retry_at_ms, this`tried, this`trials
      ensures Valid() && (ticker == Nothing || ticker.Store?) && ticker != Store(Serving)
      ensures old(survey_only) ==> ticker == Store(Idle) && candidate_index == old(candidate_index)
      ensures !old(survey_only) && !SomeVisible(candidates, candidate_count, old(candidate_index), driver.visible) ==>
        && ticker == Nothing && candidate_index == 0 && tried == [] && trials == old(trials)
        && next_scan_ms == (now + retry_scan_ms) % 0x1_0000_0000
      ensures !old(survey_only) && SomeVisible(candidates, candidate_count, old(candidate_index), driver.visible) ==>
        && Selects(candidates, candidate_count, old(candidate_index), driver.visible, candidate_index) && candidate_index < candidate_count
        && tried == old(tried) + [candidate_index] && trials == Begun(old(trials), got_ip || disconnected)
        && ticker == Store(if driver.connect_starts then Connecting else ConnectFailed)
      ensures ticker == Store(Connecting) ==> connect_deadline_ms == (now + connect_timeout_ms) % 0x1_0000_0000
      ensures ticker == Store(ConnectFailed) ==> retry_at_ms == (now + fail_hold_ms) % 0x1_0000_0000
    {
      scan_in_flight := false;
      if survey_only {
        EndSurvey();
      } else {
        ChooseCandidate(now, driver);
      }
    }

    method EndSurvey()
      requires Valid() && phase == Scanning && survey_only && ticker == Nothing && (!overlapped ==> !Busy())
      modifies this`survey_only, this`ticker
      ensures Valid() && ticker == Store(Idle)
    {
      survey_only, ticker := false, Store(Idle);
    }

    method ChooseCandidate(now: nat, driver: Driver)
      requires Valid() && phase == Scanning && !survey_only && ticker == Nothing && (!overlapped ==> !Busy())
      modifies this`ticker, this`candidate_index, this`next_scan_ms, this`connect_deadline_ms, this`retry_at_ms, this`tried, this`trials
      ensures Valid()
      ensures !SomeVisible(candidates, candidate_count, old(candidate_index), driver.visible) ==>
        && ticker == Nothing && candidate_index == 0 && tried == [] && trials == old(trials)
        && next_scan_ms == (now + retry_scan_ms) % 0x1_0000_0000
      ensures SomeVisible(candidates, candidate_count, old(candidate_index), driver.visible) ==>
        && Selects(candidates, candidate_count, old(candidate_index), driver.visible, candidate_index) && candidate_index < candidate_count
        && tried == old(tried) + [candidate_index] && trials == Begun(old(trials), got_ip || disconnected)
        && ticker == Store(if driver.connect_starts then Connecting else ConnectFailed)
      ensures ticker == Store(Connecting) ==> connect_deadline_ms == (now + connect_timeout_ms) % 0x1_0000_0000
      ensures ticker == Store(ConnectFailed) ==> retry_at_ms == (now + fail_hold_ms) % 0x1_0000_0000
    {
      var matched := FindVisible(driver.visible);
      if matched {
        Attempt(now, driver);
      } else {
        candidate_index, tried := 0, [];
        next_scan_ms := (now + retry_scan_ms) % U32;
      }
    }

    /** Moves on to the first candidate the scan has seen. */
    method FindVisible(visible: seq<string>) returns (matched: bool)
      requires Valid() && phase == Scanning && !survey_only && ticker == Nothing && (!overlapped ==> !Busy())
      modifies this`candidate_index
      ensures Valid() && (!overlapped ==> !Busy())
      ensures matched <==> SomeVisible(candidates, candidate_count, old(candidate_index), visible)
      ensures matched ==> Selects(candidates, candidate_count, old(candidate_index), visible, candidate_index) && candidate_index < candidate_count
    {
      matched := false;
      while candidate_index < candidate_count && !matched
        invariant old(candidate_index) <= candidate_index
        invariant candidate_index <= candidate_count || candidate_index == old(candidate_index)
        invariant forall k :: old(candidate_index) <= k < candidate_index ==> k < candidate_count && !Visible(candidates, k, visible)
        invariant matched ==> candidate_index < candidate_count && Visible(candidates, candidate_index, visible)
        decreases candidate_count - candidate_index, !matched
      {
        matched := candidates[candidate_index].ssid in visible;
        if !matched { candidate_index := candidate_index + 1; }
      }
    }

    /** A new attempt. It is judged by its own events only, unless an event flag is still set. */
    method Attempt(now: nat, driver: Driver)
      requires Valid() && phase == Scanning && !survey_only && candidate_index < candidate_count && ticker == Nothing && (!overlapped ==> !Busy())
      modifies this`ticker, this`connect_deadline_ms, this`retry_at_ms, this`tried, this`trials
      ensures Valid() && tried == old(tried) + [candidate_index]
      ensures ticker == Store(if driver.connect_starts then Connecting else ConnectFailed)
      ensures trials == Begun(old(trials), got_ip || disconnected)
      ensures ticker == Store(Connecting) ==> connect_deadline_ms == (now + connect_timeout_ms) % 0x1_0000_0000
      ensures ticker == Store(ConnectFailed) ==> retry_at_ms == (now + fail_hold_ms) % 0x1_0000_0000
    {
      tried := tried + [candidate_index];
      trials := Begun(trials, got_ip || disconnected);
      if driver.connect_starts {
        connect_deadline_ms := (now + connect_timeout_ms) % U32;
        ticker := Store(Connecting);
      } else {
        FailCandidate(now);
      }
    }

    /** The flags decide, an address before a disconnection; the verdicts keep whose event it was. */
    method TickConnecting(now: nat, driver: Driver)
      requires Valid() && phase == Connecting && ticker == Nothing && (!overlapped ==> !Busy())
      modifies this`got_ip, this`disconnected, this`ticker, this`server, this`orphans, this`retry_at_ms, this`trials
      ensures Valid() && (ticker == Nothing || ticker == Store(Serving) || ticker == Store(ConnectFailed))
      ensures ticker == Store(Serving) <==> old(got_ip) && (direct_mode || driver.http_starts)
      ensures ticker == Nothing <==> !old(got_ip) && !old(disconnected) && !Reached(now, connect_deadline_ms)
      ensures server == (old(server) || (old(got_ip) && !direct_mode && driver.http_starts))
      ensures orphans == old(orphans) + (if old(server) && old(got_ip) && !direct_mode && driver.http_starts then 1 else 0)
      ensures trials == if old(got_ip) then Judged(old(trials), Some(old(trials).ip_of))
                        else if old(disconnected) then Judged(old(trials), Some(old(trials).lost_of))
                        else if ticker != Nothing then Judged(old(trials), None) else old(trials)
      ensures ticker == Store(ConnectFailed) ==> retry_at_ms == (now + fail_hold_ms) % 0x1_0000_0000
    {
      if got_ip {
        FairJudged(trials, got_ip, disconnected, Some(trials.ip_of));
        got_ip, trials := false, Judged(trials, Some(trials.ip_of));
        Join(now, driver);
      } else if disconnected {
        FairJudged(trials, got_ip, disconnected, Some(trials.lost_of));
        disconnected, trials := false, Judged(trials, Some(trials.lost_of));
        FailCandidate(now);
      } else if Reached(now, connect_deadline_ms) {
        FairJudged(trials, got_ip, disconnected, None);
        trials := Judged(trials, None);
        FailCandidate(now);
      }
    }

    /** The robot has an address. */
    method Join(now: nat, driver: Driver)
      requires Valid() && phase == Connecting && ticker == Nothing && (!overlapped ==> !Busy())
      modifies this`ticker, this`server, this`orphans, this`retry_at_ms
      ensures Valid() && ticker == Store(if direct_mode || driver.http_starts then Serving else ConnectFailed)
      ensures ticker == Store(ConnectFailed) ==> retry_at_ms == (now + fail_hold_ms) % 0x1_0000_0000
      ensures server == (old(server) || (!direct_mode && driver.http_starts))
      ensures orphans == old(orphans) + (if old(server) && !direct_mode && driver.http_starts then 1 else 0)
    {
      if direct_mode {
        ticker := Store(Serving);
      } else {
        var ok := StartServer(driver);
        if ok { ticker := Store(Serving); } else { FailCandidate(now); }
      }
    }

    method TryNextCandidate(now: nat)
      requires Valid() && phase == ConnectFailed && ticker == Nothing && (!overlapped ==> !Busy())
      modifies this`candidate_index, this`next_scan_ms, this`ticker
      ensures Valid() && ticker == Store(Scanning) && candidate_index == old(candidate_index) + 1 && next_scan_ms == now
    {
      candidate_index := candidate_index + 1;
      next_scan_ms := now;
      ticker := Store(Scanning);
    }

    // -------------------------------------------------------------------------
    // Leaving
    // -------------------------------------------------------------------------

    /** First step of cancel: nothing is left while firmware is being written. */
    method RequestCancel()
      requires Valid()
      modifies this`cancels
      ensures Valid() && cancels == if flashing || phase == Idle then old(cancels) else old(cancels) + 1
    {
      if !flashing && phase != Idle { cancels := cancels + 1; }
    }

    /** Second step, once the server's handler has returned. */
    method StopServer()
      requires Valid() && cancels > 0 && !(server && handling)
      modifies this`cancels, this`stopping, this`server, this`overlapped
      ensures Valid() && !server && cancels == old(cancels) - 1 && stopping == old(stopping) + 1
      ensures overlapped == (old(overlapped) || old(Busy()))
    {
      EnterCall();
      cancels, stopping, server := cancels - 1, stopping + 1, false;
    }

    /** Last step. Phase and server agree afterwards exactly if nobody has started it since. */
    method FinishCancel()
      requires Valid() && stopping > 0
      modifies this`stopping, this`direct_mode, this`survey_only, this`candidate_count, this`candidate_index, this`scan_in_flight, this`phase
      ensures Valid() && phase == Idle && !direct_mode && !survey_only && candidate_count == 0 && candidate_index == 0
      ensures stopping == old(stopping) - 1
      ensures orphans == 0 ==> (Agrees() <==> !server)
    {
      stopping := stopping - 1;
      candidate_count, candidate_index, scan_in_flight, survey_only, direct_mode := 0, 0, false, false, false;
      phase := Idle;
    }

    /** Without interruption. */
    method CompleteCancel()
      requires Valid() && cancels > 0 && !handling && !Busy()
      modifies this`cancels, this`stopping, this`server, this`overlapped, this`direct_mode, this`survey_only, this`candidate_count,
               this`candidate_index, this`scan_in_flight, this`phase
      ensures Valid() && phase == Idle && !server && !direct_mode && !survey_only && candidate_count == 0
      ensures cancels == old(cancels) - 1 && !Busy() && overlapped == old(overlapped)
    {
      StopServer();
      FinishCancel();
    }

    // -------------------------------------------------------------------------
    // The upload request
    // -------------------------------------------------------------------------

    method RequestStep(event: Event)
      requires Valid()
      modifies this`handling, this`flashing, this`timers
      ensures Valid()
      ensures old(flashing) && event != FlashEnds ==> flashing
      ensures flashing && !old(flashing) ==> event == FlashBegins && old(handling)
      ensures flashing == if event.FlashBegins? then old(flashing || handling) else old(flashing) && !event.FlashEnds?
      ensures handling == if event.RequestArrives? then old(handling) || server
                          else old(handling) && (event.RequestReturns? ==> old(flashing))
      ensures timers == old(timers) + if event.RequestReturns? && event.staged && old(handling && !flashing) then 1 else 0
    {
      match event
      case RequestArrives => handling := handling || server;
      case FlashBegins => flashing := flashing || handling;
      case FlashEnds => flashing := false;
      case RequestReturns(staged) =>
        if handling && !flashing {
          handling := false;
          if staged { timers := timers + 1; }
        }
      case _ =>
    }

    // -------------------------------------------------------------------------
    // Whole runs
    // -------------------------------------------------------------------------

    /** The Wi-Fi and IP event handlers. */
    method Signal(event: Event)
      requires Valid()
      modifies this`scan_done, this`got_ip, this`disconnected, this`trials
      ensures Valid()
      ensures scan_done == (old(scan_done) || event.ScanDone?)
      ensures got_ip == (old(got_ip) || event.GotIp?) && disconnected == (old(disconnected) || event.Disconnected?)
      ensures trials == Heard(old(trials), event)
    {
      match event
      case ScanDone => scan_done := true;
      case GotIp(of) => got_ip, trials := true, Heard(trials, event);
      case Disconnected(of) => disconnected, trials := true, Heard(trials, event);
      case _ =>
    }

    method FinishUpdate()
      requires Valid()
      modifies this`timers, this`cancels
      ensures Valid() && timers == (if old(timers) > 0 then old(timers) - 1 else 0)
      ensures cancels == old(cancels) + if old(timers) > 0 && !flashing && phase != Idle then 1 else 0
    {
      if timers > 0 {
        timers := timers - 1;
        RequestCancel();
      }
    }

    /** The step is the first of a call that acts while another is under way. A task makes its own calls one
        after the other. */
    ghost predicate Overlaps(event: Event)
      reads this
    {
      match event
      case Begin(_, _, _, _, _) => starter == Nothing && Busy()
      case Survey(_, _) => starter == Nothing && Busy()
      case Process(buttons, _, _) => ticker == Nothing && phase != Idle && !Leaves(buttons) && Busy()
      case CancelStops => cancels > 0 && !(server && handling) && Busy()
      case _ => false
    }

    method CallBegins(event: Event)
      requires Valid() && (event.Begin? || event.Survey? || event.Process? || event.CancelStops?)
      modifies this
      ensures Valid() && overlapped == (old(overlapped) || old(Overlaps(event)))
      ensures !overlapped && old(flashing) ==> flashing && Key() == old(Key())
    {
      if event.Begin? {
        if starter == Nothing { var ok := BeginScanning(event.direct, event.mounted, event.stored, event.now, event.driver); }
      } else if event.Survey? {
        if starter == Nothing { var ok := BeginSurvey(event.now, event.driver); }
      } else if event.Process? {
        if ticker == Nothing { Process(event.buttons, event.now, event.driver); }
      } else if cancels > 0 && !(server && handling) {
        StopServer();
      }
    }

    method CallGoesOn(event: Event)
      requires Valid() && (event.StartGoesOn? || event.TickEnds? || event.CancelRequested? || event.CancelFinishes? || event.FinishTimer?)
      modifies this
      ensures Valid() && overlapped == old(overlapped)
      ensures !overlapped && old(flashing) ==> flashing && Key() == old(Key())
    {
      if event.StartGoesOn? {
        if starter != Nothing { StartNext(event.now, event.driver); }
      } else if event.TickEnds? {
        if ticker.Store? { EndTick(); }
      } else if event.CancelRequested? {
        RequestCancel();
      } else if event.CancelFinishes? {
        if stopping > 0 { FinishCancel(); }
      } else {
        FinishUpdate();
      }
    }

    method Perform(event: Event)
      requires Valid()
      modifies this
      ensures Valid() && overlapped == (old(overlapped) || old(Overlaps(event)))
      ensures !overlapped && old(flashing) && event != FlashEnds ==> flashing && Key() == old(Key())
    {
      if event.Begin? || event.Survey? || event.Process? || event.CancelStops? {
        CallBegins(event);
      } else if event.ScanDone? || event.GotIp? || event.Disconnected? {
        Signal(event);
      } else if event.RequestArrives? || event.FlashBegins? || event.FlashEnds? || event.RequestReturns? {
        RequestStep(event);
      } else {
        CallGoesOn(event);
      }
    }

    /** In every interleaving of the steps of ticks, starts, surveys, cancels, requests and Wi-Fi events: as
        long as no call begins while another is under way, the server exists exactly in an upload session
        that serves, between calls; firmware is only written through it, and from its beginning to its end
        no button, start or cancel takes the updater out of that state. And an attempt is judged by its own
        events as long as none begins with an event flag set and no event comes for an earlier one. */
    method Run(events: seq<Event>)
      requires Valid()
      modifies this
      ensures Valid() && (old(overlapped) ==> overlapped)
      ensures !overlapped && !Busy() ==> Agrees()
      ensures !overlapped && flashing ==> Coming() == Serving && !direct_mode && server
      ensures !overlapped && old(flashing) && FlashEnds !in events ==> flashing && Key() == old(Key())
      ensures !trials.stale ==> AllOwn(trials.verdicts)
    {
      var i := 0;
      while i < |events|
        invariant i <= |events| && Valid() && (old(overlapped) ==> overlapped)
        invariant !overlapped && old(flashing) && FlashEnds !in events ==> flashing && Key() == old(Key())
      {
        assert events[i] in events;
        Perform(events[i]);
        i := i + 1;
      }
    }
  }

  // ---------------------------------------------------------------------------
  // Calls that overlap, and events that come late
  // ---------------------------------------------------------------------------

  const Works := Driver(true, true, true, ["net"])
  const Known := [Credential("net", ""), Credential("net", "")]

  /** A whole tick in which the robot has found a network and begins to connect. */
  method Visit(u: OTAUpdater)
    requires u.Valid() && u.phase == Scanning && !u.Busy() && !u.survey_only
    requires u.candidates == Known && u.candidate_index < u.candidate_count == 2
    modifies u`scan_done, u`scan_in_flight, u`survey_only, u`ticker, u`candidate_index, u`next_scan_ms, u`connect_deadline_ms,
             u`retry_at_ms, u`tried, u`trials, u`phase, u`got_ip, u`disconnected
    ensures u.Valid() && u.phase == Connecting && !u.Busy() && u.candidate_index == old(u.candidate_index)
    ensures u.trials == Begun(old(u.trials), old(u.got_ip) || old(u.disconnected))
    ensures u.got_ip == old(u.got_ip) && u.disconnected == old(u.disconnected)
  {
    u.Signal(ScanDone);
    assert Visible(u.candidates, u.candidate_index, Works.visible);
    u.TickScanning(0, Works);
    u.EndTick();
  }

  /** An updater that looks for a network. */
  method Searching(direct: bool) returns (u: OTAUpdater)
    ensures fresh(u) && u.Valid() && u.phase == Scanning && !u.Busy() && u.direct_mode == direct
    ensures !u.server && u.orphans == 0 && !u.flashing && !u.handling && u.cancels == 0 && !u.overlapped && !u.survey_only
    ensures u.candidates == Known && u.candidate_index == 0 && u.candidate_count == 2
    ensures u.trials == Trials(0, 0, 0, [], false) && !u.got_ip && !u.disconnected
  {
    u := new OTAUpdater(0, 0, 0);
    var ok := u.BeginScanning(direct, true, Known, 0, Works);
    u.StartNext(0, Works);
  }

  /** One that has been given an address. */
  method HasAddress(direct: bool) returns (u: OTAUpdater)
    ensures fresh(u) && u.Valid() && u.phase == Connecting && !u.Busy() && u.direct_mode == direct && u.got_ip
    ensures !u.server && u.orphans == 0 && !u.flashing && !u.handling && u.cancels == 0 && !u.overlapped
  {
    u := Searching(direct);
    Visit(u);
    u.Signal(GotIp(1));
  }

  /** A whole tick that finds an address. */
  method ConnectedTick(u: OTAUpdater)
    requires u.Valid() && u.phase == Connecting && u.ticker == Nothing && u.got_ip
    modifies u`scan_in_flight, u`survey_only, u`candidate_index, u`next_scan_ms, u`connect_deadline_ms, u`retry_at_ms, u`tried,
             u`scan_done, u`got_ip, u`disconnected, u`server, u`orphans, u`ticker, u`trials, u`overlapped, u`phase
    ensures u.Valid() && u.phase == Serving && u.ticker == Nothing && u.overlapped == (old(u.overlapped) || old(u.Busy()))
    ensures u.server == (old(u.server) || !u.direct_mode)
    ensures u.orphans == old(u.orphans) + (if old(u.server) && !u.direct_mode then 1 else 0)
  {
    u.Tick(0, Works);
    u.EndTick();
  }

  /** A tick between the steps of a cancel starts the server of a session that is about to be gone. */
  method TickInCancel() returns (u: OTAUpdater)
    ensures u.Valid() && u.phase == Idle && u.server && !u.Busy() && u.overlapped && !u.Agrees()
  {
    u := HasAddress(false);
    u.RequestCancel();
    u.StopServer();
    ConnectedTick(u);
    u.FinishCancel();
  }

  /** A whole start that finds a direct connection not yet serving. */
  method Upgrade(u: OTAUpdater)
    requires u.Valid() && u.phase == Connecting && u.direct_mode && u.starter == Nothing
    modifies u`candidates, u`candidate_count, u`candidate_index, u`tried, u`direct_mode, u`scan_done, u`got_ip, u`disconnected,
             u`scan_in_flight, u`next_scan_ms, u`starter, u`overlapped, u`phase, u`server, u`orphans, u`retry_at_ms
    ensures u.Valid() && u.phase == Connecting && !u.direct_mode && u.starter == Nothing
    ensures u.server == old(u.server) && u.orphans == old(u.orphans) && u.overlapped == (old(u.overlapped) || old(u.Busy()))
  {
    var ok := u.BeginScanning(false, true, [], 0, Works);
    u.StartNext(0, Works);
  }

  /** A start between the steps of a tick that saw the direct mode leaves an upload session without server. */
  method StartInTick() returns (u: OTAUpdater)
    ensures u.Valid() && u.phase == Serving && !u.direct_mode && !u.server && !u.Busy() && u.overlapped && !u.Agrees()
  {
    u := HasAddress(true);
    u.Tick(0, Works);
    Upgrade(u);
    u.EndTick();
  }

  /** A tick between the steps of a start that upgrades a direct connection starts a server of its own; one
      of the two can never be stopped. */
  method TickInStart() returns (u: OTAUpdater)
    ensures u.Valid() && u.phase == Serving && u.server && u.orphans == 1 && !u.Busy() && u.overlapped
  {
    u := HasAddress(true);
    var ok := u.BeginScanning(false, true, [], 0, Works);
    ConnectedTick(u);
    u.StartNext(0, Works);
  }

  /** The first attempt has timed out, and its disconnection comes late. */
  method FirstTimesOut() returns (u: OTAUpdater)
    ensures fresh(u) && u.Valid() && u.phase == ConnectFailed && !u.Busy() && !u.overlapped && !u.survey_only
    ensures u.candidates == Known && u.candidate_index == 0 && u.candidate_count == 2 && !u.got_ip && u.disconnected
    ensures u.trials == Trials(1, 0, 1, [Verdict(1, None)], false)
  {
    u := Searching(false);
    Visit(u);
    u.TickConnecting(u.connect_deadline_ms, Works);
    u.EndTick();
    u.Signal(Disconnected(1));
  }

  /** It fails the next attempt at its first tick. */
  method LateDisconnection() returns (u: OTAUpdater)
    ensures u.Valid() && !u.overlapped && u.ticker == Store(ConnectFailed)
    ensures u.trials.verdicts == [Verdict(1, None), Verdict(2, Some(1))] && u.trials.stale
  {
    u := FirstTimesOut();
    u.TryNextCandidate(0);
    u.EndTick();
    Visit(u);
    u.TickConnecting(0, Works);
  }
}
