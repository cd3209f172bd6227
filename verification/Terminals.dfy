/** What the terminal responder keeps for each remote terminal, and the histories its guarantees speak of. */
module Terminals {

  const MAX_ORIGINS := 3

  datatype Origin = Origin(source_id: nat, boot_id: nat)

  datatype LinkTarget = EspNow | Tcp | Ble | Serial

  /** The fields of a slot that the receiving and shell tasks share with the pump, under the lock. `life`
      numbers the allocations. */
  datatype Hand = Hand(used: bool, life: nat, origin: Origin, last_used: nat, target: LinkTarget, input: string,
                       pending_out: string, async_out: string, result_ready: bool, needs_reset: bool)

  /** The fields only the pump touches. The line editor is the bytes fed to it since its reset, the number
      of completed lines taken from it, and the allocation it was reset for. */
  datatype Own = Own(fed: string, polled: nat, life: nat, prompt_painted: bool, awaiting: bool, pending_line: string,
                     async_dirty: bool, last_async: nat)

  const FreeHand := Hand(false, 0, Origin(0, 0), 0, EspNow, "", "", "", false, false)

  function FreshOwn(life: nat): Own {
    Own("", 0, life, false, false, "", false, 0)
  }

  /** Which lines the editor completes from the bytes fed to it: more bytes never change earlier lines. */
  type Completion = string -> seq<string>

  ghost predicate Monotone(complete: Completion) {
    forall a: string, b: string :: complete(a) <= complete(a + b)
  }

  // ---------------------------------------------------------------------------
  // Connections
  // ---------------------------------------------------------------------------

  datatype LinkEvent = Bound(target: LinkTarget) | Unbound(target: LinkTarget)

  /** The connection a link has after these events: each binding makes a new one. The radio has one from
      the start, which is never bound anew. */
  function Connection(history: seq<LinkEvent>, target: LinkTarget): (c: int)
    ensures -1 <= c <= |history|
  {
    if history == [] then if target == EspNow then 0 else -1
    else
      var n := |history| - 1;
      if history[n] == Bound(target) then n + 1
      else if history[n] == Unbound(target) then -1
      else Connection(history[..n], target)
  }

  /** The links with an endpoint are those with a connection. */
  ghost predicate Wired(bound: set<LinkTarget>, history: seq<LinkEvent>) {
    forall t: LinkTarget :: t in bound <==> Connection(history, t) >= 0
  }

  /** A link that has a connection has the same one as before exactly if it was not bound in between. */
  lemma {:induction false} SameConnection(history: seq<LinkEvent>, target: LinkTarget, a: nat, b: nat)
    requires a <= b <= |history| && Connection(history[..b], target) >= 0
    ensures Connection(history[..b], target) == Connection(history[..a], target)
       <==> forall k :: a <= k < b ==> history[k] != Bound(target)
  {
    if a < b {
      assert history[..b][..b - 1] == history[..b - 1];
      if history[b - 1] != Bound(target) {
        SameConnection(history, target, a, b - 1);
      } else {
        assert Connection(history[..b], target) == b;
      }
    }
  }

  lemma PrefixStays(history: seq<LinkEvent>, later: seq<LinkEvent>, k: nat)
    requires history <= later && k <= |history|
    ensures later[..k] == history[..k]
  {
  }

  // ---------------------------------------------------------------------------
  // The life of a slot since it was last allocated
  // ---------------------------------------------------------------------------

  /** Number of the allocation; for whom; over which link the origin last spoke, and how many link events
      there had been then; what has been accepted from it, delivered to it and pushed to it since; and
      how much of the pushed text the pump has taken. */
  datatype Life = Life(id: nat, origin: Origin, target: LinkTarget, since: nat, received: string, results: seq<string>,
                       pushed: string, taken: nat)

  function NewLife(id: nat, origin: Origin, target: LinkTarget, since: nat): Life {
    Life(id, origin, target, since, "", [], "", 0)
  }

  /** The origin has spoken. */
  function Spoken(l: Life, target: LinkTarget, since: nat, more: string): Life {
    l.(target := target, since := since, received := l.received + more)
  }

  /** What an editor has been fed, and for which allocation. */
  datatype Editor = Editor(fed: string, life: nat)

  /** A slot whose editor, as the pump will see it, is `e` agrees with its life. */
  ghost predicate Linked(h: Hand, e: Editor, l: Life, now: nat) {
    h.used ==>
      && l.id == h.life && l.origin == h.origin && l.target == h.target && l.since <= now
      && l.received == (if h.needs_reset then "" else e.fed) + h.input
      && (!h.needs_reset ==> e.life == h.life)
      && (h.result_ready ==> h.pending_out in l.results)
      && l.taken <= |l.pushed| && h.async_out == l.pushed[l.taken..]
  }

  ghost predicate DistinctOrigins(hands: seq<Hand>) {
    forall i, j :: 0 <= i < j < |hands| && hands[i].used && hands[j].used ==> hands[i].origin != hands[j].origin
  }

  // ---------------------------------------------------------------------------
  // What the pump does for an origin
  // ---------------------------------------------------------------------------

  /** What the pump took under the lock and has not worked off yet, and the life it belongs to. */
  datatype Snapshot = Snapshot(reset: bool, have_result: bool, origin: Origin, target: LinkTarget, result: string,
                               input: string, async_text: string, life: Life)

  /** What the editor has been fed, and for whom, once the snapshot is worked off. */
  function Base(o: Own, snap: Snapshot): Editor {
    if snap.reset then Editor(snap.input, snap.life.id) else Editor(o.fed + snap.input, o.life)
  }

  ghost predicate SnapshotOk(o: Own, snap: Snapshot, now: nat) {
    && snap.life.origin == snap.origin && snap.life.target == snap.target && snap.life.since <= now
    && snap.life.received == Base(o, snap).fed && snap.life.id == Base(o, snap).life
    && (snap.have_result ==> snap.result in snap.life.results)
    && Part(snap.async_text, snap.life.pushed)
  }

  ghost predicate Part(text: string, all: string) {
    exists a: nat :: PartAt(text, all, a)
  }

  ghost predicate PartAt(text: string, all: string, a: nat) {
    a + |text| <= |all| && all[a..a + |text|] == text
  }

  lemma PartSlice(all: string, a: nat)
    requires a <= |all|
    ensures Part(all[a..], all)
  {
    assert PartAt(all[a..], all, a);
  }

  /** What each editor will have been fed when the pump is done with its snapshot of slot `at`. */
  ghost function Editors(owns: seq<Own>, at: int, snap: Snapshot): (editors: seq<Editor>)
    ensures |editors| == |owns|
  {
    seq(|owns|, i requires 0 <= i < |owns| => if at == i then Base(owns[i], snap) else Editor(owns[i].fed, owns[i].life))
  }

  ghost predicate AllLinked(hands: seq<Hand>, editors: seq<Editor>, lives: seq<Life>, now: nat) {
    && |hands| == |editors| == |lives| == MAX_ORIGINS
    && (forall i :: 0 <= i < MAX_ORIGINS ==> Linked(hands[i], editors[i], lives[i], now))
    && DistinctOrigins(hands)
  }

  /** What is shown on a terminal. */
  datatype Piece = Prompt | Echo(fed: string, line: nat) | Result(text: string) | Busy | Async(text: string) | Refresh

  /** One chunk of the output of a pass for an origin, put out on a link that had a connection when there
      had been `upto` link events. */
  datatype Screen = Screen(origin: Origin, target: LinkTarget, out: seq<Piece>, life: Life, upto: nat, text: string)

  ghost predicate Belongs(p: Piece, l: Life) {
    match p
    case Echo(fed, line) => fed <= l.received
    case Result(text) => text in l.results
    case Async(text) => Part(text, l.pushed)
    case _ => true
  }

  ghost predicate Shown(out: seq<Piece>, l: Life) {
    forall i :: 0 <= i < |out| ==> Belongs(out[i], l)
  }

  /** Only the origin's own echo, results and pushed lines are in it, and it left on the link the origin
      last spoke over, on the connection that link had then. */
  ghost predicate Isolated(s: Screen, history: seq<LinkEvent>) {
    && s.life.origin == s.origin && s.life.target == s.target && Shown(s.out, s.life)
    && s.life.since <= s.upto <= |history| && Connection(history[..s.upto], s.target) >= 0
  }

  /** It reached the connection its origin last spoke over. */
  ghost predicate Home(s: Screen, history: seq<LinkEvent>)
    requires s.life.since <= |history| && s.upto <= |history|
  {
    Connection(history[..s.upto], s.target) == Connection(history[..s.life.since], s.target)
  }

  ghost predicate AllIsolated(screens: seq<Screen>, history: seq<LinkEvent>) {
    forall k :: 0 <= k < |screens| ==> Isolated(screens[k], history)
  }

  lemma LaterIsolated(screens: seq<Screen>, history: seq<LinkEvent>, later: seq<LinkEvent>)
    requires AllIsolated(screens, history) && history <= later
    ensures AllIsolated(screens, later)
  {
    forall k | 0 <= k < |screens| ensures Isolated(screens[k], later) {
      PrefixStays(history, later, screens[k].upto);
      assert Isolated(screens[k], history);
    }
  }

  /** Output reaches the connection its origin last spoke over if and only if its link was not bound to a
      new one between that input and the output. */
  lemma HomeUnlessRebound(s: Screen, history: seq<LinkEvent>)
    requires Isolated(s, history)
    ensures Home(s, history) <==> forall k :: s.life.since <= k < s.upto ==> history[k] != Bound(s.target)
  {
    SameConnection(history, s.target, s.life.since, s.upto);
  }

  ghost predicate HomeIff(s: Screen, history: seq<LinkEvent>)
    requires s.life.since <= |history| && s.upto <= |history|
  {
    Home(s, history) <==> forall k :: s.life.since <= k < s.upto ==> history[k] != Bound(s.target)
  }

  lemma AllHomeUnlessRebound(screens: seq<Screen>, history: seq<LinkEvent>)
    requires AllIsolated(screens, history)
    ensures forall k :: 0 <= k < |screens| ==> Isolated(screens[k], history) && HomeIff(screens[k], history)
  {
    forall k | 0 <= k < |screens| ensures Isolated(screens[k], history) && HomeIff(screens[k], history) {
      assert Isolated(screens[k], history);
      HomeUnlessRebound(screens[k], history);
    }
  }

  ghost predicate Within(moments: seq<nat>, n: nat, last: nat) {
    |moments| == n && forall k :: 0 <= k < n ==> moments[k] <= last
  }

  /** The chunks that reached anybody: each is put out at its own moment, and `form` is what they share. */
  ghost function ShownChunks(form: Screen, chunks: seq<string>, moments: seq<nat>, history: seq<LinkEvent>): (screens: seq<Screen>)
    requires Within(moments, |chunks|, |history|)
  {
    if chunks == [] then []
    else
      var n := |chunks| - 1;
      ShownChunks(form, chunks[..n], moments[..n], history)
      + (if Connection(history[..moments[n]], form.target) >= 0 then [form.(upto := moments[n], text := chunks[n])] else [])
  }

  lemma {:induction false} ShownChunksLater(form: Screen, chunks: seq<string>, moments: seq<nat>, history: seq<LinkEvent>, later: seq<LinkEvent>)
    requires Within(moments, |chunks|, |history|) && history <= later
    ensures ShownChunks(form, chunks, moments, later) == ShownChunks(form, chunks, moments, history)
  {
    if chunks != [] {
      var n := |chunks| - 1;
      ShownChunksLater(form, chunks[..n], moments[..n], history, later);
      PrefixStays(history, later, moments[n]);
    }
  }

  /** One more chunk, put out now. */
  lemma ShownChunksNext(form: Screen, chunks: seq<string>, moments: seq<nat>, history: seq<LinkEvent>, later: seq<LinkEvent>, chunk: string)
    requires Within(moments, |chunks|, |history|) && history <= later
    ensures ShownChunks(form, chunks + [chunk], moments + [|later|], later)
         == ShownChunks(form, chunks, moments, history)
            + (if Connection(later, form.target) >= 0 then [form.(upto := |later|, text := chunk)] else [])
  {
    ShownChunksLater(form, chunks, moments, history, later);
    ShownChunksSnoc(form, chunks, moments, later, chunk, |later|);
    assert later[..|later|] == later;
  }

  lemma ShownChunksSnoc(form: Screen, chunks: seq<string>, moments: seq<nat>, history: seq<LinkEvent>, chunk: string, moment: nat)
    requires Within(moments, |chunks|, |history|) && moment <= |history|
    ensures ShownChunks(form, chunks + [chunk], moments + [moment], history)
         == ShownChunks(form, chunks, moments, history)
            + (if Connection(history[..moment], form.target) >= 0 then [form.(upto := moment, text := chunk)] else [])
  {
    var all, times, n := chunks + [chunk], moments + [moment], |chunks|;
    assert all[..n] == chunks && times[..n] == moments && all[n] == chunk && times[n] == moment;
  }

  /** If there is a connection at the first moment, the first chunk is shown. */
  lemma {:induction false} ShownChunksFirst(form: Screen, chunks: seq<string>, moments: seq<nat>, history: seq<LinkEvent>)
    requires Within(moments, |chunks|, |history|) && chunks != [] && Connection(history[..moments[0]], form.target) >= 0
    ensures ShownChunks(form, chunks, moments, history) != []
    ensures ShownChunks(form, chunks, moments, history)[0] == form.(upto := moments[0], text := chunks[0])
  {
    if |chunks| > 1 { ShownChunksFirst(form, chunks[..|chunks| - 1], moments[..|chunks| - 1], history); }
  }

  // ---------------------------------------------------------------------------
  // Lines
  // ---------------------------------------------------------------------------

  /** A line accepted for execution, by its number, or a result consumed. */
  datatype Act = Accepted(index: nat) | Answered

  /** What a completed line met: its text, whether a command was in flight, whether a line was held. */
  datatype Met = Met(line: string, busy: bool, holding: bool)

  /** One editor's story since its reset, for one allocation: what was accepted and answered, how many
      lines were dropped with a notice, what every line met, and the number of the line held back. */
  datatype Tale = Tale(life: nat, acts: seq<Act>, dropped: nat, met: seq<Met>, held: nat, holding: bool)

  function FreshTale(life: nat): Tale {
    Tale(life, [], 0, [], 0, false)
  }

  /** The numbers of the accepted lines. */
  ghost function AcceptedOf(acts: seq<Act>): seq<nat> {
    if acts == [] then []
    else
      var last := acts[|acts| - 1];
      AcceptedOf(acts[..|acts| - 1]) + (if last.Accepted? then [last.index] else [])
  }

  /** An empty line behind a command in flight with none held: it is held without a trace. */
  predicate Vanishes(m: Met) {
    m.line == "" && m.busy && !m.holding
  }

  ghost function Vanished(met: seq<Met>): nat {
    if met == [] then 0 else Vanished(met[..|met| - 1]) + (if Vanishes(met[|met| - 1]) then 1 else 0)
  }

  lemma {:induction false} VanishedNone(met: seq<Met>)
    ensures Vanished(met) == 0 <==> forall i :: 0 <= i < |met| ==> !Vanishes(met[i])
  {
    if met != [] { VanishedNone(met[..|met| - 1]); }
  }

  ghost predicate Open(acts: seq<Act>) {
    acts != [] && acts[|acts| - 1].Accepted?
  }

  /** Accepted lines are in the order they were completed, all before `bound`, and never two in a row. */
  ghost predicate InOrder(acts: seq<Act>, bound: nat) {
    && (forall i :: 0 <= i < |acts| && acts[i].Accepted? ==> acts[i].index < bound)
    && (forall i, j :: 0 <= i < j < |acts| && acts[i].Accepted? && acts[j].Accepted? ==> acts[i].index < acts[j].index)
    && (forall i :: 0 < i < |acts| && acts[i].Accepted? ==> acts[i - 1].Answered?)
  }

  /** Between two accepted lines a result was consumed. */
  lemma AnsweredBetween(t: Tale, i: nat, j: nat) returns (k: nat)
    requires Told(t) && i < j < |t.acts| && t.acts[i].Accepted? && t.acts[j].Accepted?
    ensures i < k < j && t.acts[k].Answered? && t.acts[i].index < t.acts[j].index
  {
    k := j - 1;
  }

  /** Every completed line was accepted, is held back, was dropped with a notice, or vanished. */
  ghost predicate Told(t: Tale) {
    && InOrder(t.acts, if t.holding then t.held else |t.met|)
    && (t.holding ==> t.held < |t.met|)
    && |t.met| == |AcceptedOf(t.acts)| + t.dropped + Vanished(t.met) + (if t.holding then 1 else 0)
  }

  /** All completed lines are submitted, held or counted as dropped if and only if none of them was empty
      and completed behind a command in flight while no line was held. */
  lemma AllCounted(t: Tale)
    requires Told(t)
    ensures |t.met| == |AcceptedOf(t.acts)| + t.dropped + (if t.holding then 1 else 0)
       <==> forall i :: 0 <= i < |t.met| ==> !(t.met[i].line == "" && t.met[i].busy && !t.met[i].holding)
  {
    VanishedNone(t.met);
  }

  /** The tale `u` continues `t`, the lines with these numbers having been handed over. */
  ghost predicate Continues(t: Tale, u: Tale, indexes: seq<nat>) {
    u.life == t.life && AcceptedOf(u.acts) == AcceptedOf(t.acts) + indexes
  }

  /** The tale is that of this editor. */
  ghost predicate TaleOk(complete: Completion, o: Own, t: Tale) {
    && Told(t) && t.life == o.life && o.awaiting == Open(t.acts)
    && o.polled == |t.met| <= |complete(o.fed)|
    && (forall i :: 0 <= i < |t.met| ==> t.met[i].line == complete(o.fed)[i])
    && (t.holding <==> o.pending_line != "")
    && (t.holding ==> complete(o.fed)[t.held] == o.pending_line)
  }

  /** More input never changes the lines completed so far. */
  lemma FeedKeepsTale(complete: Completion, o: Own, t: Tale, input: string)
    requires Monotone(complete) && TaleOk(complete, o, t)
    ensures TaleOk(complete, o.(fed := o.fed + input), t)
  {
  }

  lemma AnswerKeepsTale(complete: Completion, o: Own, t: Tale)
    requires TaleOk(complete, o, t)
    ensures TaleOk(complete, o.(awaiting := false), t.(acts := t.acts + [Answered]))
    ensures AcceptedOf(t.acts + [Answered]) == AcceptedOf(t.acts)
  {
    assert (t.acts + [Answered])[..|t.acts|] == t.acts;
  }

  /** What becomes of the line held back once the editor's command is answered. */
  function AfterHeld(o: Own, t: Tale, accepted: bool): (Own, Tale) {
    var next := t.(holding := false);
    (o.(pending_line := "", awaiting := accepted),
     if accepted then next.(acts := t.acts + [Accepted(t.held)]) else next.(dropped := t.dropped + 1))
  }

  lemma HeldKeepsTale(complete: Completion, o: Own, t: Tale, accepted: bool)
    requires TaleOk(complete, o, t) && !o.awaiting && o.pending_line != ""
    ensures TaleOk(complete, AfterHeld(o, t, accepted).0, AfterHeld(o, t, accepted).1)
    ensures Continues(t, AfterHeld(o, t, accepted).1, if accepted then [t.held] else [])
  {
    if accepted { HeldTaken(t); } else { HeldDropped(t); }
  }

  lemma HeldTaken(t: Tale)
    requires Told(t) && t.holding && !Open(t.acts)
    ensures Told(t.(holding := false, acts := t.acts + [Accepted(t.held)])) && Open(t.acts + [Accepted(t.held)])
    ensures AcceptedOf(t.acts + [Accepted(t.held)]) == AcceptedOf(t.acts) + [t.held]
  {
    assert (t.acts + [Accepted(t.held)])[..|t.acts|] == t.acts;
    TakenInOrder(t.acts, t.held);
    InOrderLater(t.acts + [Accepted(t.held)], t.held + 1, |t.met|);
  }

  lemma HeldDropped(t: Tale)
    requires Told(t) && t.holding
    ensures Told(t.(holding := false, dropped := t.dropped + 1))
  {
    InOrderLater(t.acts, t.held, |t.met|);
  }

  lemma InOrderLater(acts: seq<Act>, bound: nat, later: nat)
    requires InOrder(acts, bound) && bound <= later
    ensures InOrder(acts, later)
  {
  }

  /** What becomes of a completed line: executed if no command is in flight and the queue takes it, held
      if it is the first behind a command in flight, else dropped. */
  function AfterLine(o: Own, t: Tale, line: string, accepted: bool): (Own, Tale) {
    var next, told := o.(polled := o.polled + 1), t.(met := t.met + [Met(line, o.awaiting, o.pending_line != "")]);
    if !o.awaiting && accepted then (next.(awaiting := true), told.(acts := t.acts + [Accepted(o.polled)]))
    else if o.awaiting && o.pending_line == "" then
      (next.(pending_line := line), if line == "" then told else told.(held := o.polled, holding := true))
    else (next, told.(dropped := t.dropped + 1))
  }

  predicate Takes(o: Own, accepted: bool) {
    !o.awaiting && accepted
  }

  predicate Drops(o: Own, accepted: bool) {
    (!o.awaiting && !accepted) || (o.awaiting && o.pending_line != "")
  }

  /** The next line of the editor. */
  ghost predicate Next(complete: Completion, o: Own, line: string) {
    o.polled < |complete(o.fed)| && line == complete(o.fed)[o.polled] && (!o.awaiting ==> o.pending_line == "")
  }

  lemma TakenKeepsTale(complete: Completion, o: Own, t: Tale, line: string)
    requires TaleOk(complete, o, t) && Next(complete, o, line) && Takes(o, true)
    ensures TaleOk(complete, AfterLine(o, t, line, true).0, AfterLine(o, t, line, true).1)
    ensures AcceptedOf(AfterLine(o, t, line, true).1.acts) == AcceptedOf(t.acts) + [o.polled]
  {
    TakenTold(t, Met(line, o.awaiting, o.pending_line != ""));
  }

  lemma TakenTold(t: Tale, m: Met)
    requires Told(t) && !t.holding && !Open(t.acts) && !m.busy
    ensures Told(t.(met := t.met + [m], acts := t.acts + [Accepted(|t.met|)])) && Open(t.acts + [Accepted(|t.met|)])
    ensures AcceptedOf(t.acts + [Accepted(|t.met|)]) == AcceptedOf(t.acts) + [|t.met|]
  {
    MetMore(t.met, m);
    assert (t.acts + [Accepted(|t.met|)])[..|t.acts|] == t.acts;
    TakenInOrder(t.acts, |t.met|);
  }

  lemma MetMore(met: seq<Met>, m: Met)
    ensures Vanished(met + [m]) == Vanished(met) + (if Vanishes(m) then 1 else 0)
  {
    assert (met + [m])[..|met|] == met;
  }

  lemma TakenInOrder(acts: seq<Act>, index: nat)
    requires InOrder(acts, index) && !Open(acts)
    ensures InOrder(acts + [Accepted(index)], index + 1)
  {
  }

  lemma DropKeepsTale(complete: Completion, o: Own, t: Tale, line: string, accepted: bool)
    requires TaleOk(complete, o, t) && Next(complete, o, line) && Drops(o, accepted)
    ensures TaleOk(complete, AfterLine(o, t, line, accepted).0, AfterLine(o, t, line, accepted).1)
  {
    MetMore(t.met, Met(line, o.awaiting, o.pending_line != ""));
    if !t.holding { InOrderLater(t.acts, o.polled, o.polled + 1); }
  }

  lemma HoldKeepsTale(complete: Completion, o: Own, t: Tale, line: string)
    requires TaleOk(complete, o, t) && Next(complete, o, line) && o.awaiting && o.pending_line == ""
    ensures TaleOk(complete, AfterLine(o, t, line, false).0, AfterLine(o, t, line, false).1)
  {
    MetMore(t.met, Met(line, o.awaiting, o.pending_line != ""));
    if line == "" { InOrderLater(t.acts, o.polled, o.polled + 1); }
  }

  lemma LineKeepsTale(complete: Completion, o: Own, t: Tale, line: string, accepted: bool)
    requires TaleOk(complete, o, t) && Next(complete, o, line)
    ensures var (o', t') := AfterLine(o, t, line, accepted);
      && TaleOk(complete, o', t') && Continues(t, t', if !o.awaiting && accepted then [o.polled] else [])
      && t'.met == t.met + [Met(line, o.awaiting, o.pending_line != "")]
      && t'.dropped == t.dropped + (if (if o.awaiting then o.pending_line != "" else !accepted) then 1 else 0)
  {
    if Takes(o, accepted) { TakenKeepsTale(complete, o, t, line); }
    else if Drops(o, accepted) { DropKeepsTale(complete, o, t, line, accepted); }
    else {
      assert AfterLine(o, t, line, accepted) == AfterLine(o, t, line, false);
      HoldKeepsTale(complete, o, t, line);
    }
  }

  /** All the lines the editor has completed and not yet handed out, `accepts` being the queue's answers. */
  function AfterLines(o: Own, t: Tale, lines: seq<string>, accepts: seq<bool>, n: nat): (Own, Tale)
    requires o.polled <= |lines|
    decreases |lines| - o.polled
  {
    if o.polled == |lines| then (o, t)
    else
      var (o', t') := AfterLine(o, t, lines[o.polled], n < |accepts| && accepts[n]);
      AfterLines(o', t', lines, accepts, n + 1)
  }

  lemma AfterLinesStep(o: Own, t: Tale, lines: seq<string>, accepts: seq<bool>, n: nat)
    requires o.polled < |lines|
    ensures var (o', t') := AfterLine(o, t, lines[o.polled], n < |accepts| && accepts[n]);
      AfterLines(o, t, lines, accepts, n) == AfterLines(o', t', lines, accepts, n + 1)
  {
  }

  /** A line does vanish: with the editor having completed a command and then an empty line, the command
      is executed and the empty line is neither submitted nor held nor counted. */
  lemma EmptyLineVanishes(fed: string, command: string)
    ensures var (o, t) := AfterLines(FreshOwn(0).(fed := fed), FreshTale(0), [command, ""], [true], 0);
      && o.polled == 2 && t.acts == [Accepted(0)] && t.dropped == 0 && !t.holding && o.pending_line == ""
      && |t.met| != |AcceptedOf(t.acts)| + t.dropped + (if t.holding then 1 else 0)
  {
    var o0, t0 := FreshOwn(0).(fed := fed), FreshTale(0);
    var (o1, t1) := AfterLine(o0, t0, command, true);
    var (o2, t2) := AfterLine(o1, t1, "", false);
    assert AfterLines(o0, t0, [command, ""], [true], 0) == AfterLines(o1, t1, [command, ""], [true], 1) == (o2, t2);
    assert t2.acts[..0] == [];
  }

  // ---------------------------------------------------------------------------
  // The book of all tales
  // ---------------------------------------------------------------------------

  /** A line handed over for execution: the `index`-th that the editor completed from `bytes`, in tale
      number `tale`. */
  datatype Submission = Submission(origin: Origin, line: string, index: nat, bytes: string, tale: nat, life: Life)

  /** It was built only from bytes accepted from its own origin since the slot was allocated for it. */
  ghost predicate Built(complete: Completion, s: Submission) {
    && s.life.origin == s.origin && s.bytes <= s.life.received
    && s.index < |complete(s.bytes)| && complete(s.bytes)[s.index] == s.line
  }

  /** Every tale ever, past ones included, and every line handed over. */
  datatype Book = Book(tales: seq<Tale>, submitted: seq<Submission>)

  /** The numbers of the lines handed over in tale `k`, in order. */
  ghost function IndexesOf(submitted: seq<Submission>, k: nat): seq<nat> {
    if submitted == [] then []
    else
      var last := submitted[|submitted| - 1];
      IndexesOf(submitted[..|submitted| - 1], k) + (if last.tale == k then [last.index] else [])
  }

  ghost function Dropped(tales: seq<Tale>): nat {
    if tales == [] then 0 else Dropped(tales[..|tales| - 1]) + tales[|tales| - 1].dropped
  }

  ghost predicate Placed(complete: Completion, s: Submission, tales: seq<Tale>) {
    Built(complete, s) && s.tale < |tales| && tales[s.tale].life == s.life.id
  }

  /** The lines handed over are tale by tale exactly the accepted ones, and the counters count them and
      the dropped ones of all tales. */
  ghost predicate BookOk(complete: Completion, b: Book, lines_submitted: nat, lines_dropped: nat) {
    && lines_submitted == |b.submitted| && lines_dropped == Dropped(b.tales)
    && (forall k :: 0 <= k < |b.submitted| ==> Placed(complete, b.submitted[k], b.tales))
    && (forall k :: 0 <= k < |b.tales| ==> Faithful(b, k))
  }

  ghost predicate Faithful(b: Book, k: nat)
    requires k < |b.tales|
  {
    Told(b.tales[k]) && IndexesOf(b.submitted, k) == AcceptedOf(b.tales[k].acts)
  }

  /** Which tale each slot's editor is in. */
  ghost predicate Telling(complete: Completion, owns: seq<Own>, telling: seq<nat>, tales: seq<Tale>) {
    && |owns| == |telling| == MAX_ORIGINS
    && (forall i :: 0 <= i < MAX_ORIGINS ==> telling[i] < |tales| && TaleOk(complete, owns[i], tales[telling[i]]))
    && (forall i, j :: 0 <= i < j < MAX_ORIGINS ==> telling[i] != telling[j])
  }

  lemma {:induction false} DroppedUpdate(tales: seq<Tale>, k: nat, t: Tale)
    requires k < |tales|
    ensures Dropped(tales[k := t]) == Dropped(tales) - tales[k].dropped + t.dropped
  {
    var n := |tales| - 1;
    if k == n {
      assert tales[k := t][..n] == tales[..n];
    } else {
      DroppedUpdate(tales[..n], k, t);
      assert tales[k := t][..n] == tales[..n][k := t];
    }
  }

  /** A tale goes on: a line may be dropped, none handed over. */
  lemma BookGoesOn(complete: Completion, b: Book, submitted: nat, dropped: nat, k: nat, t: Tale)
    requires BookOk(complete, b, submitted, dropped) && k < |b.tales| && Told(t) && t.life == b.tales[k].life
    requires AcceptedOf(t.acts) == AcceptedOf(b.tales[k].acts) && t.dropped >= b.tales[k].dropped
    ensures BookOk(complete, b.(tales := b.tales[k := t]), submitted, dropped + t.dropped - b.tales[k].dropped)
  {
    DroppedUpdate(b.tales, k, t);
    var next := b.(tales := b.tales[k := t]);
    forall j | 0 <= j < |next.tales| ensures Faithful(next, j) {
      assert Faithful(b, j);
    }
    forall j | 0 <= j < |next.submitted| ensures Placed(complete, next.submitted[j], next.tales) {
      assert Placed(complete, b.submitted[j], b.tales);
    }
  }

  /** A line is handed over. */
  lemma BookHandsOver(complete: Completion, b: Book, submitted: nat, dropped: nat, k: nat, t: Tale, s: Submission)
    requires BookOk(complete, b, submitted, dropped) && k < |b.tales| && Told(t) && t.life == b.tales[k].life == s.life.id
    requires AcceptedOf(t.acts) == AcceptedOf(b.tales[k].acts) + [s.index] && t.dropped == b.tales[k].dropped
    requires s.tale == k && Built(complete, s)
    ensures BookOk(complete, Book(b.tales[k := t], b.submitted + [s]), submitted + 1, dropped)
  {
    DroppedUpdate(b.tales, k, t);
    var next := Book(b.tales[k := t], b.submitted + [s]);
    assert next.submitted[..|b.submitted|] == b.submitted;
    forall j | 0 <= j < |next.tales| ensures Faithful(next, j) {
      assert Faithful(b, j);
    }
    forall j | 0 <= j < |next.submitted| ensures Placed(complete, next.submitted[j], next.tales) {
      if j < |b.submitted| { assert Placed(complete, b.submitted[j], b.tales); }
    }
  }

  lemma {:induction false} NoIndexes(complete: Completion, submitted: seq<Submission>, tales: seq<Tale>)
    requires forall k :: 0 <= k < |submitted| ==> Placed(complete, submitted[k], tales)
    ensures IndexesOf(submitted, |tales|) == []
  {
    if submitted != [] {
      assert Placed(complete, submitted[|submitted| - 1], tales);
      NoIndexes(complete, submitted[..|submitted| - 1], tales);
    }
  }

  /** A new tale begins. */
  lemma BookBegins(complete: Completion, b: Book, submitted: nat, dropped: nat, life: nat)
    requires BookOk(complete, b, submitted, dropped)
    ensures BookOk(complete, b.(tales := b.tales + [FreshTale(life)]), submitted, dropped)
  {
    var next := b.(tales := b.tales + [FreshTale(life)]);
    assert next.tales[..|b.tales|] == b.tales;
    NoIndexes(complete, b.submitted, b.tales);
    forall j | 0 <= j < |next.tales| ensures Faithful(next, j) {
      if j < |b.tales| { assert Faithful(b, j); }
    }
    forall j | 0 <= j < |next.submitted| ensures Placed(complete, next.submitted[j], next.tales) {
      assert Placed(complete, b.submitted[j], b.tales);
    }
  }

  /** Every slot's editor is in its own tale, and the book is right. */
  ghost predicate Kept(complete: Completion, owns: seq<Own>, telling: seq<nat>, b: Book, submitted: nat, dropped: nat) {
    Telling(complete, owns, telling, b.tales) && BookOk(complete, b, submitted, dropped)
  }

  lemma TellingUpdate(complete: Completion, owns: seq<Own>, telling: seq<nat>, tales: seq<Tale>, i: nat, o: Own, t: Tale)
    requires Telling(complete, owns, telling, tales) && i < MAX_ORIGINS && TaleOk(complete, o, t)
    ensures Telling(complete, owns[i := o], telling, tales[telling[i] := t])
  {
  }

  lemma KeptGoesOn(complete: Completion, owns: seq<Own>, telling: seq<nat>, b: Book, submitted: nat, dropped: nat,
                   i: nat, o: Own, t: Tale)
    requires Kept(complete, owns, telling, b, submitted, dropped) && i < MAX_ORIGINS && TaleOk(complete, o, t)
    requires Continues(b.tales[telling[i]], t, []) && t.dropped >= b.tales[telling[i]].dropped
    ensures Kept(complete, owns[i := o], telling, b.(tales := b.tales[telling[i] := t]), submitted,
                 dropped + t.dropped - b.tales[telling[i]].dropped)
  {
    TellingUpdate(complete, owns, telling, b.tales, i, o, t);
    BookGoesOn(complete, b, submitted, dropped, telling[i], t);
  }

  lemma KeptHandsOver(complete: Completion, owns: seq<Own>, telling: seq<nat>, b: Book, submitted: nat, dropped: nat,
                      i: nat, o: Own, t: Tale, s: Submission)
    requires Kept(complete, owns, telling, b, submitted, dropped) && i < MAX_ORIGINS && TaleOk(complete, o, t)
    requires Continues(b.tales[telling[i]], t, [s.index]) && t.dropped == b.tales[telling[i]].dropped
    requires s.tale == telling[i] && s.life.id == t.life && Built(complete, s)
    ensures Kept(complete, owns[i := o], telling, Book(b.tales[telling[i] := t], b.submitted + [s]), submitted + 1, dropped)
  {
    TellingUpdate(complete, owns, telling, b.tales, i, o, t);
    BookHandsOver(complete, b, submitted, dropped, telling[i], t, s);
  }

  lemma KeptBegins(complete: Completion, owns: seq<Own>, telling: seq<nat>, b: Book, submitted: nat, dropped: nat,
                   i: nat, life: nat)
    requires Kept(complete, owns, telling, b, submitted, dropped) && i < MAX_ORIGINS
    ensures Kept(complete, owns[i := FreshOwn(life)], telling[i := |b.tales|],
                 b.(tales := b.tales + [FreshTale(life)]), submitted, dropped)
  {
    BookBegins(complete, b, submitted, dropped, life);
    assert TaleOk(complete, FreshOwn(life), FreshTale(life));
  }

  lemma KeptAtFirst(complete: Completion)
    ensures Kept(complete, [FreshOwn(0), FreshOwn(0), FreshOwn(0)], [0, 1, 2],
                 Book([FreshTale(0), FreshTale(0), FreshTale(0)], []), 0, 0)
  {
    assert TaleOk(complete, FreshOwn(0), FreshTale(0));
    ThreeTales(complete, FreshTale(0));
  }

  lemma ThreeTales(complete: Completion, t: Tale)
    requires t == FreshTale(0)
    ensures BookOk(complete, Book([t, t, t], []), 0, 0)
  {
    BookAtFirst(complete, []);
    assert [] + [t] == [t];
    BookAtFirst(complete, [t]);
    assert [t] + [t] == [t, t];
    BookAtFirst(complete, [t, t]);
    assert [t, t] + [t] == [t, t, t];
  }

  lemma BookAtFirst(complete: Completion, tales: seq<Tale>)
    requires tales == [] || BookOk(complete, Book(tales, []), 0, 0)
    ensures BookOk(complete, Book(tales + [FreshTale(0)], []), 0, 0)
  {
    BookBegins(complete, Book(tales, []), 0, 0, 0);
  }
}
