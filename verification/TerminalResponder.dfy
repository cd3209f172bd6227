/** Three tasks sharing a pool of terminal slots: bytes come in, the pump runs the editors, results go out. */
module TerminalResponder {
  import opened Terminals

  const MAX_PENDING_IN := 1024
  const MAX_ASYNC_OUT := 1024

  /** A step of another task, taken while the pump holds no lock. `locked` says that the lock was obtained.
      A link is taken away by Unbind and then, if the lock is obtained, Evict. */
  datatype Other =
    | TerminalIn(target: LinkTarget, origin: Origin, now: nat, data: string, locked: bool)
    | Output(origin: Origin, text: string)
    | Push(origin: Origin, line: string, locked: bool)
    | Bind(target: LinkTarget)
    | Unbind(target: LinkTarget)
    | Evict(target: LinkTarget)

  /** What happens around one pass over a slot: whether its lock was free, what other tasks do while the
      pump works unlocked and before each chunk it puts out, the command queue's and the link's answers, how
      the output is written out, and how much of it fits one frame. */
  datatype World = World(locked: bool, gap: seq<Other>, accept_held: bool, accepts: seq<bool>, sends: seq<bool>,
                         between: nat -> seq<Other>, rendering: seq<Piece> -> string, stride: nat)

  /** The chunks of a pass are put out without interruption. */
  ghost predicate Unbroken(between: nat -> seq<Other>) {
    forall n: nat :: between(n) == []
  }

  /** Nobody interferes with the pass. */
  ghost predicate Alone(w: World) {
    w.gap == [] && Unbroken(w.between)
  }

  /** The editor, started over if it had to be, was fed what waited, and all lines were taken from it. */
  ghost predicate CaughtUp(complete: Completion, h: Hand, before: Own, after: Own) {
    && after.fed == (if h.needs_reset then "" else before.fed) + h.input
    && after.polled == |complete(after.fed)|
  }

  datatype Event = Step(other: Other) | Pass(now: nat, worlds: seq<World>)

  predicate Sized(e: Event) {
    e.Pass? ==> |e.worlds| == MAX_ORIGINS && forall i :: 0 <= i < MAX_ORIGINS ==> e.worlds[i].stride > 0
  }

  /** The slot a new origin gets: the first free one, else the first of those used longest ago. */
  ghost predicate Victim(hands: seq<Hand>, v: nat) {
    && v < |hands|
    && (!hands[v].used ==> forall i :: 0 <= i < v ==> hands[i].used)
    && (hands[v].used ==> forall i :: 0 <= i < |hands| ==> hands[i].used && hands[v].last_used <= hands[i].last_used)
    && (hands[v].used ==> forall i :: 0 <= i < v ==> hands[v].last_used < hands[i].last_used)
  }

  ghost predicate Owns(hands: seq<Hand>, i: nat, origin: Origin) {
    i < |hands| && hands[i].used && hands[i].origin == origin
  }

  class TerminalResponder {
    const complete: Completion
    var hands: seq<Hand>
    var owns: seq<Own>
    var bound: set<LinkTarget>
    var origins_seen: nat
    var origins_evicted: nat
    var lines_submitted: nat
    var lines_dropped_busy: nat
    var in_bytes_dropped: nat
    var async_lines_dropped: nat
    var frames_out: nat

    /** Lives of the slots and which tale each editor is in; all tales and lines handed over; the slot the
        pump is working on, or -1, with what is left of its snapshot; every screen shown and what happened
        to the links. */
    ghost var lives: seq<Life>
    ghost var telling: seq<nat>
    ghost var book: Book
    ghost var at: int
    ghost var snap: Snapshot
    ghost var screens: seq<Screen>
    ghost var history: seq<LinkEvent>

    ghost predicate Valid()
      reads this
    {
      && Monotone(complete) && |owns| == MAX_ORIGINS && -1 <= at < MAX_ORIGINS
      && AllLinked(hands, Editors(owns, at, snap), lives, |history|)
      && (at >= 0 ==> SnapshotOk(owns[at], snap, |history|))
      && Kept(complete, owns, telling, book, lines_submitted, lines_dropped_busy)
      && AllIsolated(screens, history) && Wired(bound, history)
    }

    /** The tale of the editor in slot `i`. */
    ghost function TaleOf(i: nat): Tale
      reads this
      requires i < |telling| && telling[i] < |book.tales|
    {
      book.tales[telling[i]]
    }

    constructor (editor: Completion)
      requires Monotone(editor)
      ensures Valid() && at == -1 && book.submitted == [] && screens == [] && history == [] && fresh(this)
      ensures forall k :: 0 <= k < MAX_ORIGINS ==> !hands[k].used
    {
      complete := editor;
      hands, owns := [FreeHand, FreeHand, FreeHand], [FreshOwn(0), FreshOwn(0), FreshOwn(0)];
      bound := {EspNow};
      origins_seen, origins_evicted, lines_submitted, lines_dropped_busy := 0, 0, 0, 0;
      in_bytes_dropped, async_lines_dropped, frames_out := 0, 0, 0;
      var life := NewLife(0, Origin(0, 0), EspNow, 0);
      lives, at, snap := [life, life, life], -1, Snapshot(false, false, Origin(0, 0), EspNow, "", "", "", life);
      telling, book := [0, 1, 2], Book([FreshTale(0), FreshTale(0), FreshTale(0)], []);
      screens, history := [], [];
      new;
      KeptAtFirst(complete);
    }

    // -------------------------------------------------------------------------
    // Under the lock
    // -------------------------------------------------------------------------

    method Find(origin: Origin) returns (i: nat)
      requires |hands| == MAX_ORIGINS
      ensures i <= MAX_ORIGINS && (i < MAX_ORIGINS ==> Owns(hands, i, origin))
      ensures i == MAX_ORIGINS ==> forall k :: 0 <= k < MAX_ORIGINS ==> !Owns(hands, k, origin)
    {
      i := 0;
      while i < MAX_ORIGINS && !(hands[i].used && hands[i].origin == origin)
        invariant i <= MAX_ORIGINS
        invariant forall k :: 0 <= k < i ==> !Owns(hands, k, origin)
      {
        i := i + 1;
      }
    }

    method ChooseVictim() returns (v: nat)
      requires |hands| == MAX_ORIGINS
      ensures Victim(hands, v)
    {
      v := 0;
      var i := 1;
      while i < MAX_ORIGINS && hands[v].used
        invariant v < i <= MAX_ORIGINS
        invariant hands[v].used ==> forall k :: 0 <= k < i ==> hands[k].used && hands[v].last_used <= hands[k].last_used
        invariant hands[v].used ==> forall k :: 0 <= k < v ==> hands[v].last_used < hands[k].last_used
        invariant !hands[v].used ==> forall k :: 0 <= k < v ==> hands[k].used
      {
        if !hands[i].used || hands[i].last_used < hands[v].last_used { v := i; }
        i := i + 1;
      }
    }

    /** Gives a slot to an origin that has none. Its life begins empty, and the editor is left for the
        pump to reset. */
    method Allocate(origin: Origin, now: nat) returns (v: nat)
      requires Valid() && forall k :: 0 <= k < MAX_ORIGINS ==> !Owns(hands, k, origin)
      modifies this`hands, this`lives, this`origins_seen, this`origins_evicted
      ensures Valid() && Victim(old(hands), v) && Owns(hands, v, origin)
      ensures hands == old(hands)[v := hands[v]] && hands[v].input == "" && !hands[v].result_ready && hands[v].async_out == ""
      ensures hands[v].needs_reset && hands[v].life == origins_seen == old(origins_seen) + 1
      ensures lives == old(lives)[v := NewLife(origins_seen, origin, hands[v].target, |history|)]
      ensures origins_evicted == old(origins_evicted) + (if old(hands)[v].used then 1 else 0)
    {
      v := ChooseVictim();
      if hands[v].used { origins_evicted := origins_evicted + 1; }
      origins_seen := origins_seen + 1;
      var h := hands[v].(used := true, life := origins_seen, origin := origin, last_used := now, needs_reset := true,
                         input := "", pending_out := "", async_out := "", result_ready := false);
      LinkFresh(hands, Editors(owns, at, snap), lives, |history|, v, h);
      hands := hands[v := h];
      lives := lives[v := NewLife(origins_seen, origin, h.target, |history|)];
    }

    method FindOrAlloc(origin: Origin, now: nat) returns (i: nat)
      requires Valid()
      modifies this`hands, this`lives, this`origins_seen, this`origins_evicted
      ensures Valid() && Owns(hands, i, origin)
      ensures hands == old(hands)[i := hands[i]] && (Owns(old(hands), i, origin) ==> hands == old(hands))
      ensures !Owns(old(hands), i, origin) ==>
        Victim(old(hands), i) && forall k :: 0 <= k < MAX_ORIGINS ==> !Owns(old(hands), k, origin)
      ensures hands[i].input == Waits(old(hands), i, origin)
      ensures lives == old(lives)[i := LifeOf(old(hands), old(lives), i, NewLife(origins_seen, origin, hands[i].target, |history|))]
    {
      i := Find(origin);
      if i == MAX_ORIGINS { i := Allocate(origin, now); }
    }

    // -------------------------------------------------------------------------
    // The other tasks
    // -------------------------------------------------------------------------

    /** Bytes are accepted up to the limit, for their own origin only; the rest are counted. The origin is
        answered on the connection it spoke over. */
    method OnTerminalIn(target: LinkTarget, origin: Origin, now: nat, data: string, locked: bool) returns (ghost i: nat)
      requires Valid()
      modifies this`hands, this`lives, this`origins_seen, this`origins_evicted, this`in_bytes_dropped
      ensures Valid()
      ensures data == "" || !locked ==> hands == old(hands) && lives == old(lives) && in_bytes_dropped == old(in_bytes_dropped) + |data|
      ensures data != "" && locked ==>
        && Received(old(hands), old(lives), hands, lives, i, target, origin, data, NewLife(origins_seen, origin, target, |history|))
        && in_bytes_dropped == old(in_bytes_dropped) + |data| - Room(Waits(old(hands), i, origin), data)
    {
      i := 0;
      if data == "" { return; }
      if locked {
        i := Receive(target, origin, now, data);
      } else {
        in_bytes_dropped := in_bytes_dropped + |data|;
      }
    }

    method Receive(target: LinkTarget, origin: Origin, now: nat, data: string) returns (i: nat)
      requires Valid()
      modifies this`hands, this`lives, this`origins_seen, this`origins_evicted, this`in_bytes_dropped
      ensures Valid()
      ensures Received(old(hands), old(lives), hands, lives, i, target, origin, data, NewLife(origins_seen, origin, target, |history|))
      ensures in_bytes_dropped == old(in_bytes_dropped) + |data| - Room(Waits(old(hands), i, origin), data)
    {
      i := FindOrAlloc(origin, now);
      Accept(i, target, data);
    }

    method Accept(i: nat, target: LinkTarget, data: string)
      requires Valid() && i < MAX_ORIGINS && hands[i].used
      modifies this`hands, this`lives, this`in_bytes_dropped
      ensures Valid()
      ensures var old_in, take := old(hands)[i].input, Room(old(hands)[i].input, data);
        && hands == old(hands)[i := old(hands)[i].(target := target, input := old_in + data[..take])]
        && lives == old(lives)[i := Spoken(old(lives)[i], target, |history|, data[..take])]
        && in_bytes_dropped == old(in_bytes_dropped) + |data| - take
    {
      var take := Room(hands[i].input, data);
      LinkMore(hands[i], Editors(owns, at, snap)[i], lives[i], |history|, target, data[..take]);
      Update(i, hands[i].(target := target, input := hands[i].input + data[..take]), Spoken(lives[i], target, |history|, data[..take]));
      in_bytes_dropped := in_bytes_dropped + (|data| - take);
    }

    /** A command's output, for the origin it ran for, if that still has a slot. */
    method DeliverCommandOutput(origin: Origin, text: string)
      requires Valid()
      modifies this`hands, this`lives
      ensures Valid()
      ensures forall k :: 0 <= k < MAX_ORIGINS && !Owns(old(hands), k, origin) ==> hands[k] == old(hands)[k] && lives[k] == old(lives)[k]
      ensures forall k :: 0 <= k < MAX_ORIGINS && Owns(old(hands), k, origin) ==>
        && hands[k] == old(hands)[k].(pending_out := text, result_ready := true)
        && lives[k] == old(lives)[k].(results := old(lives)[k].results + [text])
    {
      var i := Find(origin);
      if i < MAX_ORIGINS {
        var h, l := hands[i].(pending_out := text, result_ready := true), lives[i].(results := lives[i].results + [text]);
        Update(i, h, l);
      }
    }

    /** A pushed line waits behind those before it, or is dropped whole and counted. */
    method PushAsyncOutput(origin: Origin, line: string, locked: bool)
      requires Valid()
      modifies this`hands, this`lives, this`async_lines_dropped
      ensures Valid()
      ensures forall k :: 0 <= k < MAX_ORIGINS && !(locked && Owns(old(hands), k, origin)) ==>
        hands[k] == old(hands)[k] && lives[k] == old(lives)[k]
      ensures !locked ==> async_lines_dropped == old(async_lines_dropped) + 1
      ensures locked && (forall k :: 0 <= k < MAX_ORIGINS ==> !Owns(old(hands), k, origin)) ==>
        async_lines_dropped == old(async_lines_dropped)
      ensures forall k :: 0 <= k < MAX_ORIGINS && locked && Owns(old(hands), k, origin) ==>
        if |old(hands)[k].async_out| + |line| <= 1024
        then hands[k] == old(hands)[k].(async_out := old(hands)[k].async_out + line)
             && lives[k] == old(lives)[k].(pushed := old(lives)[k].pushed + line)
             && async_lines_dropped == old(async_lines_dropped)
        else hands[k] == old(hands)[k] && lives[k] == old(lives)[k] && async_lines_dropped == old(async_lines_dropped) + 1
    {
      if !locked {
        async_lines_dropped := async_lines_dropped + 1;
        return;
      }
      var i := Find(origin);
      if i < MAX_ORIGINS {
        if |hands[i].async_out| + |line| <= MAX_ASYNC_OUT {
          Update(i, hands[i].(async_out := hands[i].async_out + line), lives[i].(pushed := lives[i].pushed + line));
        } else {
          async_lines_dropped := async_lines_dropped + 1;
        }
      }
    }

    /** One slot's shared fields change, for the same origin or for none. */
    method Update(i: nat, h: Hand, ghost l: Life)
      requires Valid() && i < MAX_ORIGINS && Linked(h, Editors(owns, at, snap)[i], l, |history|)
      requires h.used ==> hands[i].used && h.origin == hands[i].origin
      modifies this`hands, this`lives
      ensures Valid() && hands == old(hands)[i := h] && lives == old(lives)[i := l]
      ensures h.used ==> forall k :: 0 <= k < MAX_ORIGINS && k != i ==> !Owns(old(hands), k, h.origin)
    {
      LinkUpdate(hands, Editors(owns, at, snap), lives, |history|, i, h, l);
      hands, lives := hands[i := h], lives[i := l];
    }

    /** A new connection: whoever is at its other end is reached over this link from now on. */
    method Bind(target: LinkTarget)
      requires Valid()
      modifies this`bound, this`history
      ensures Valid() && bound == old(bound) + {target} && history == old(history) + [Bound(target)]
    {
      LinksMove(hands, Editors(owns, at, snap), lives, screens, history, Bound(target), bound);
      bound := bound + {target};
      history := history + [Bound(target)];
    }

    method Unbind(target: LinkTarget)
      requires Valid()
      modifies this`bound, this`history
      ensures Valid() && bound == old(bound) - {target} && history == old(history) + [Unbound(target)]
    {
      LinksMove(hands, Editors(owns, at, snap), lives, screens, history, Unbound(target), bound);
      bound := bound - {target};
      history := history + [Unbound(target)];
    }

    /** Every slot that last spoke over the link is freed. */
    method Evict(target: LinkTarget)
      requires Valid()
      modifies this`hands
      ensures Valid()
      ensures forall k :: 0 <= k < MAX_ORIGINS ==>
        hands[k] == if old(hands)[k].target == target then old(hands)[k].(used := false) else old(hands)[k]
    {
      var i := 0;
      while i < MAX_ORIGINS
        invariant i <= MAX_ORIGINS && Valid()
        invariant forall k :: 0 <= k < MAX_ORIGINS ==>
          hands[k] == if k < i && old(hands)[k].target == target then old(hands)[k].(used := false) else old(hands)[k]
      {
        if hands[i].target == target { Free(i); }
        i := i + 1;
      }
    }

    method Free(i: nat)
      requires Valid() && i < MAX_ORIGINS
      modifies this`hands
      ensures Valid() && hands == old(hands)[i := old(hands)[i].(used := false)]
    {
      LinkUpdate(hands, Editors(owns, at, snap), lives, |history|, i, hands[i].(used := false), lives[i]);
      hands := hands[i := hands[i].(used := false)];
      assert lives[i := lives[i]] == lives;
    }

    /** One client goes and another comes; the eviction may miss the lock. */
    method Replace(target: LinkTarget, locked: bool)
      requires Valid()
      modifies this`hands, this`bound, this`history
      ensures Valid() && target in bound && history == old(history) + [Unbound(target), Bound(target)]
      ensures if locked then forall k :: 0 <= k < MAX_ORIGINS && hands[k].used ==> hands[k].target != target
              else hands == old(hands)
    {
      Unbind(target);
      if locked { Evict(target); }
      Bind(target);
    }

    method OtherStep(other: Other)
      requires Valid()
      modifies this`hands, this`lives, this`origins_seen, this`origins_evicted, this`in_bytes_dropped, this`async_lines_dropped, this`bound, this`history
      ensures Valid() && old(history) <= history
    {
      match other
      case TerminalIn(target, origin, now, data, locked) =>
        ghost var i := OnTerminalIn(target, origin, now, data, locked);
      case Output(origin, text) => DeliverCommandOutput(origin, text);
      case Push(origin, line, locked) => PushAsyncOutput(origin, line, locked);
      case Bind(target) => Bind(target);
      case Unbind(target) => Unbind(target);
      case Evict(target) => Evict(target);
    }

    method Others(steps: seq<Other>)
      requires Valid()
      modifies this`hands, this`lives, this`origins_seen, this`origins_evicted, this`in_bytes_dropped, this`async_lines_dropped, this`bound, this`history
      ensures Valid() && old(history) <= history
      ensures steps == [] ==> history == old(history) && bound == old(bound) && hands == old(hands)
    {
      var i := 0;
      while i < |steps|
        invariant i <= |steps| && Valid() && old(history) <= history
        invariant i == 0 ==> history == old(history) && bound == old(bound) && hands == old(hands)
      {
        OtherStep(steps[i]);
        i := i + 1;
      }
    }

    // -------------------------------------------------------------------------
    // The pump
    // -------------------------------------------------------------------------

    /** The locked part of a pass over one slot. */
    method TakeSnapshot(i: nat, now: nat) returns (used: bool, h: Hand)
      requires Valid() && at == -1 && i < MAX_ORIGINS
      modifies this`hands, this`lives, this`at, this`snap
      ensures Valid() && used == old(hands)[i].used && h == old(hands)[i]
      ensures !used ==> at == -1 && hands == old(hands)
      ensures used ==>
        && at == i && hands == old(hands)[i := Taken(h, now)]
        && SnapshotOf(snap, h) && snap.origin == h.origin
        && snap.life == lives[i] == old(lives)[i].(taken := |lives[i].pushed|)
    {
      h := hands[i];
      used := h.used;
      if used {
        ghost var s := SnapshotNow(h, lives[i]);
        LinkTaken(hands, owns, lives, |history|, i, now, snap);
        snap, at := s, i;
        lives := lives[i := s.life];
        hands := hands[i := Taken(h, now)];
      }
    }

    /** The pump's own fields of the slot it works on take new values; no line is handed over or dropped. */
    method Put(i: nat, o: Own, ghost t: Tale)
      requires Valid() && at == i && Base(o, snap) == Base(owns[i], snap)
      requires TaleOk(complete, o, t) && Continues(TaleOf(i), t, []) && t.dropped == TaleOf(i).dropped
      modifies this`owns, this`book
      ensures Valid() && owns == old(owns)[i := o]
      ensures book == old(book).(tales := old(book).tales[telling[i] := t])
    {
      SameEditors(owns, i, snap, o, snap);
      KeptGoesOn(complete, owns, telling, book, lines_submitted, lines_dropped_busy, i, o, t);
      owns, book := owns[i := o], book.(tales := book.tales[telling[i] := t]);
    }

    /** Part of the snapshot goes over to them. */
    method Move(i: nat, o: Own, ghost t: Tale, ghost s: Snapshot)
      requires Valid() && at == i && Base(o, s) == Base(owns[i], snap) && SnapshotOk(o, s, |history|)
      requires TaleOk(complete, o, t) && Continues(TaleOf(i), t, []) && t.dropped == TaleOf(i).dropped
      modifies this`owns, this`book, this`snap
      ensures Valid() && owns == old(owns)[i := o] && snap == s
      ensures book == old(book).(tales := old(book).tales[telling[i] := t])
    {
      SameEditors(owns, i, snap, o, s);
      KeptGoesOn(complete, owns, telling, book, lines_submitted, lines_dropped_busy, i, o, t);
      owns, snap, book := owns[i := o], s, book.(tales := book.tales[telling[i] := t]);
    }

    /** A line is dropped. */
    method Drop(i: nat, o: Own, ghost t: Tale)
      requires Ready(i) && o.fed == owns[i].fed && o.life == owns[i].life
      requires TaleOk(complete, o, t) && Continues(TaleOf(i), t, []) && t.dropped == TaleOf(i).dropped + 1
      modifies this`owns, this`book, this`lines_dropped_busy
      ensures Ready(i) && owns == old(owns)[i := o] && lines_dropped_busy == old(lines_dropped_busy) + 1
      ensures book == old(book).(tales := old(book).tales[telling[i] := t])
    {
      SameEditors(owns, i, snap, o, snap);
      KeptGoesOn(complete, owns, telling, book, lines_submitted, lines_dropped_busy, i, o, t);
      owns, book := owns[i := o], book.(tales := book.tales[telling[i] := t]);
      lines_dropped_busy := lines_dropped_busy + 1;
    }

    /** A line is handed over for execution. */
    method HandOver(i: nat, o: Own, line: string, ghost index: nat, ghost t: Tale)
      requires Ready(i) && o.fed == owns[i].fed && o.life == owns[i].life
      requires index < |complete(o.fed)| && complete(o.fed)[index] == line
      requires TaleOk(complete, o, t) && Continues(TaleOf(i), t, [index]) && t.dropped == TaleOf(i).dropped
      modifies this`owns, this`book, this`lines_submitted
      ensures Ready(i) && owns == old(owns)[i := o] && lines_submitted == old(lines_submitted) + 1
      ensures book == Book(old(book).tales[telling[i] := t],
                           old(book).submitted + [Submission(snap.origin, line, index, o.fed, telling[i], snap.life)])
    {
      ghost var s := Submission(snap.origin, line, index, o.fed, telling[i], snap.life);
      assert Built(complete, s);
      SameEditors(owns, i, snap, o, snap);
      KeptHandsOver(complete, owns, telling, book, lines_submitted, lines_dropped_busy, i, o, t, s);
      owns, book := owns[i := o], Book(book.tales[telling[i] := t], book.submitted + [s]);
      lines_submitted := lines_submitted + 1;
    }

    /** A newly allocated slot's editor starts over, and with it a new tale. */
    method ResetEditor(i: nat, life: nat)
      requires Valid() && at == i && snap.reset && snap.life.id == life
      modifies this`owns, this`telling, this`book, this`snap
      ensures Valid() && snap == old(snap).(reset := false) && owns == old(owns)[i := FreshOwn(life)]
      ensures telling == old(telling)[i := |old(book).tales|]
      ensures book == old(book).(tales := old(book).tales + [FreshTale(life)])
    {
      var o := FreshOwn(life);
      ghost var s := snap.(reset := false);
      assert o.fed + s.input == s.input;
      SameEditors(owns, i, snap, o, s);
      KeptBegins(complete, owns, telling, book, lines_submitted, lines_dropped_busy, i, life);
      owns, telling, snap := owns[i := o], telling[i := |book.tales|], s;
      book := book.(tales := book.tales + [FreshTale(life)]);
    }

    /** The prompt is painted once. */
    method PrepareEditor(i: nat, reset: bool, life: nat) returns (out: seq<Piece>)
      requires Valid() && at == i && snap.reset == reset && snap.life.id == life
      modifies this`owns, this`telling, this`book, this`snap
      ensures Valid() && snap == old(snap).(reset := false) && book.submitted == old(book).submitted
      ensures reset ==> owns[i] == FreshOwn(life).(prompt_painted := true) && TaleOf(i) == FreshTale(life)
      ensures !reset ==> owns[i] == old(owns)[i].(prompt_painted := true) && TaleOf(i) == old(TaleOf(i))
      ensures out == if reset || !old(owns)[i].prompt_painted then [Prompt] else []
      ensures owns == old(owns)[i := owns[i]]
    {
      if reset { ResetEditor(i, life); }
      out := if owns[i].prompt_painted then [] else [Prompt];
      Put(i, owns[i].(prompt_painted := true), TaleOf(i));
    }

    method TakeResult(i: nat, text: string, out: seq<Piece>) returns (more: seq<Piece>)
      requires Valid() && at == i && snap.have_result && snap.result == text && Shown(out, snap.life)
      modifies this`owns, this`book, this`snap
      ensures Valid() && snap == old(snap).(have_result := false) && Shown(more, snap.life)
      ensures owns == old(owns)[i := old(owns)[i].(awaiting := false)] && book.submitted == old(book).submitted
      ensures TaleOf(i) == old(TaleOf(i)).(acts := old(TaleOf(i)).acts + [Answered])
      ensures more == out + [Result(text)]
    {
      AnswerKeepsTale(complete, owns[i], TaleOf(i));
      Move(i, owns[i].(awaiting := false), TaleOf(i).(acts := TaleOf(i).acts + [Answered]), snap.(have_result := false));
      more := out + [Result(text)];
    }

    method Feed(i: nat, input: string)
      requires Valid() && at == i && !snap.reset && snap.input == input
      modifies this`owns, this`book, this`snap
      ensures Ready(i) && snap == old(snap).(input := "") && book == old(book)
      ensures owns == old(owns)[i := old(owns)[i].(fed := old(owns)[i].fed + input)]
    {
      FeedKeepsTale(complete, owns[i], TaleOf(i), input);
      assert (owns[i].fed + input) + "" == owns[i].fed + input;
      Move(i, owns[i].(fed := owns[i].fed + input), TaleOf(i), snap.(input := ""));
    }

    /** The snapshot is worked off: the editor has been fed everything this origin has sent. */
    ghost predicate Ready(i: nat)
      reads this
    {
      Valid() && at == i && owns[i].fed == snap.life.received && !snap.reset && snap.input == ""
    }

    /** Hands one line over for execution, or shows that it was dropped. */
    method SubmitLine(i: nat, o: Own, line: string, ghost index: nat, accepted: bool, ghost t: Tale, out: seq<Piece>)
        returns (more: seq<Piece>)
      requires Ready(i) && o.fed == owns[i].fed && o.life == owns[i].life
      requires index < |complete(o.fed)| && complete(o.fed)[index] == line
      requires !o.awaiting && TaleOk(complete, o.(awaiting := accepted), t)
      requires Continues(TaleOf(i), t, if accepted then [index] else [])
      requires t.dropped == TaleOf(i).dropped + (if accepted then 0 else 1)
      modifies this`owns, this`book, this`lines_submitted, this`lines_dropped_busy
      ensures Ready(i) && owns == old(owns)[i := o.(awaiting := accepted)] && more == out + (if accepted then [] else [Busy])
      ensures book.tales == old(book).tales[telling[i] := t]
      ensures accepted ==> Last(book.submitted, old(book).submitted, snap.origin, line)
      ensures !accepted ==> book.submitted == old(book).submitted
      ensures lines_dropped_busy == old(lines_dropped_busy) + (if accepted then 0 else 1)
    {
      if accepted {
        HandOver(i, o.(awaiting := true), line, index, t);
        more := out + [];
      } else {
        Drop(i, o, t);
        more := out + [Busy];
      }
    }

    /** The line typed ahead goes first, once the command before it is answered. */
    method SubmitHeld(i: nat, accepted: bool, out: seq<Piece>) returns (more: seq<Piece>)
      requires Ready(i) && Shown(out, snap.life)
      modifies this`owns, this`book, this`lines_submitted, this`lines_dropped_busy
      ensures Ready(i) && out <= more && Shown(more, snap.life) && old(book).submitted <= book.submitted
      ensures owns[i].fed == old(owns)[i].fed && (!owns[i].awaiting ==> owns[i].pending_line == "")
      ensures owns == old(owns)[i := owns[i]]
      ensures old(owns)[i].awaiting || old(owns)[i].pending_line == "" ==> owns == old(owns) && book == old(book)
      ensures !old(owns)[i].awaiting && old(owns)[i].pending_line != "" ==>
        && (owns[i], TaleOf(i)) == AfterHeld(old(owns)[i], old(TaleOf(i)), accepted)
        && (accepted ==> Last(book.submitted, old(book).submitted, snap.origin, old(owns)[i].pending_line))
    {
      more := out;
      if !owns[i].awaiting && owns[i].pending_line != "" {
        PieceShown(out, Busy, snap.life);
        more := SendHeld(i, accepted, out);
      }
    }

    method SendHeld(i: nat, accepted: bool, out: seq<Piece>) returns (more: seq<Piece>)
      requires Ready(i) && !owns[i].awaiting && owns[i].pending_line != ""
      modifies this`owns, this`book, this`lines_submitted, this`lines_dropped_busy
      ensures Ready(i) && more == out + (if accepted then [] else [Busy])
      ensures owns[i].pending_line == "" && owns[i].fed == old(owns)[i].fed
      ensures owns == old(owns)[i := owns[i]]
      ensures (owns[i], TaleOf(i)) == AfterHeld(old(owns)[i], old(TaleOf(i)), accepted)
      ensures accepted ==> Last(book.submitted, old(book).submitted, snap.origin, old(owns)[i].pending_line)
      ensures !accepted ==> book.submitted == old(book).submitted
    {
      var line := owns[i].pending_line;
      ghost var t := TaleOf(i);
      HeldKeepsTale(complete, owns[i], t, accepted);
      more := SubmitLine(i, owns[i].(pending_line := ""), line, t.held, accepted, AfterHeld(owns[i], t, accepted).1, out);
    }

    /** With a command in flight a line is held back; a second is dropped with a notice. */
    method HoldLine(i: nat, line: string, ghost accepted: bool, out: seq<Piece>) returns (more: seq<Piece>)
      requires Ready(i) && owns[i].awaiting
      requires owns[i].polled < |complete(owns[i].fed)| && line == complete(owns[i].fed)[owns[i].polled]
      modifies this`owns, this`book, this`lines_dropped_busy
      ensures Ready(i) && book.submitted == old(book).submitted
      ensures owns == old(owns)[i := owns[i]]
      ensures (owns[i], TaleOf(i)) == AfterLine(old(owns)[i], old(TaleOf(i)), line, accepted)
      ensures more == out + (if Drops(old(owns)[i], accepted) then [Busy] else [])
    {
      if owns[i].pending_line == "" {
        KeepLine(i, line, accepted);
        more := out + [];
      } else {
        LoseLine(i, line, accepted);
        more := out + [Busy];
      }
    }

    method KeepLine(i: nat, line: string, ghost accepted: bool)
      requires Ready(i) && owns[i].awaiting && owns[i].pending_line == ""
      requires owns[i].polled < |complete(owns[i].fed)| && line == complete(owns[i].fed)[owns[i].polled]
      modifies this`owns, this`book
      ensures Ready(i) && book.submitted == old(book).submitted && owns == old(owns)[i := owns[i]]
      ensures (owns[i], TaleOf(i)) == AfterLine(old(owns)[i], old(TaleOf(i)), line, accepted)
    {
      ghost var t := AfterLine(owns[i], TaleOf(i), line, accepted).1;
      LineKeepsTale(complete, owns[i], TaleOf(i), line, accepted);
      Put(i, owns[i].(polled := owns[i].polled + 1, pending_line := line), t);
    }

    method LoseLine(i: nat, line: string, ghost accepted: bool)
      requires Ready(i) && owns[i].awaiting && owns[i].pending_line != ""
      requires owns[i].polled < |complete(owns[i].fed)| && line == complete(owns[i].fed)[owns[i].polled]
      modifies this`owns, this`book, this`lines_dropped_busy
      ensures Ready(i) && book.submitted == old(book).submitted && owns == old(owns)[i := owns[i]]
      ensures (owns[i], TaleOf(i)) == AfterLine(old(owns)[i], old(TaleOf(i)), line, accepted)
    {
      ghost var t := AfterLine(owns[i], TaleOf(i), line, accepted).1;
      LineKeepsTale(complete, owns[i], TaleOf(i), line, accepted);
      Drop(i, owns[i].(polled := owns[i].polled + 1), t);
    }

    /** With none in flight it is submitted. */
    method SendLine(i: nat, line: string, accepted: bool, out: seq<Piece>) returns (more: seq<Piece>)
      requires Ready(i) && !owns[i].awaiting && owns[i].pending_line == ""
      requires owns[i].polled < |complete(owns[i].fed)| && line == complete(owns[i].fed)[owns[i].polled]
      modifies this`owns, this`book, this`lines_submitted, this`lines_dropped_busy
      ensures Ready(i)
      ensures owns == old(owns)[i := owns[i]]
      ensures (owns[i], TaleOf(i)) == AfterLine(old(owns)[i], old(TaleOf(i)), line, accepted)
      ensures accepted ==> Last(book.submitted, old(book).submitted, snap.origin, line)
      ensures !accepted ==> book.submitted == old(book).submitted
      ensures more == out + (if Drops(old(owns)[i], accepted) then [Busy] else [])
    {
      LineKeepsTale(complete, owns[i], TaleOf(i), line, accepted);
      ghost var t := AfterLine(owns[i], TaleOf(i), line, accepted).1;
      more := SubmitLine(i, owns[i].(polled := owns[i].polled + 1), line, owns[i].polled, accepted, t, out);
    }

    /** One completed line from the editor. */
    method PollLine(i: nat, accepted: bool, out: seq<Piece>) returns (more: seq<Piece>)
      requires Ready(i) && owns[i].polled < |complete(owns[i].fed)| && (!owns[i].awaiting ==> owns[i].pending_line == "")
      modifies this`owns, this`book, this`lines_submitted, this`lines_dropped_busy
      ensures Ready(i) && old(book).submitted <= book.submitted
      ensures owns == old(owns)[i := owns[i]]
      ensures (owns[i], TaleOf(i))
           == AfterLine(old(owns)[i], old(TaleOf(i)), complete(old(owns)[i].fed)[old(owns)[i].polled], accepted)
      ensures more == Shows(out, old(owns)[i], accepted)
    {
      var line := complete(owns[i].fed)[owns[i].polled];
      var echo := out + [Echo(owns[i].fed, owns[i].polled)];
      if owns[i].awaiting {
        more := HoldLine(i, line, accepted, echo);
      } else {
        more := SendLine(i, line, accepted, echo);
      }
    }

    /** A line is held back though no command is in flight. */
    ghost predicate Stuck(i: nat)
      reads this
      requires i < |owns|
    {
      !owns[i].awaiting && owns[i].pending_line != ""
    }

    /** What the lines still to be taken from the editor will come to. */
    ghost function Outcome(i: nat, accepts: seq<bool>, n: nat): (Own, Tale)
      reads this
      requires Ready(i)
    {
      AfterLines(owns[i], TaleOf(i), complete(owns[i].fed), accepts, n)
    }

    /** The n-th of the lines a pass finds completed. */
    method PollNext(i: nat, accepted: bool, ghost accepts: seq<bool>, ghost n: nat, out: seq<Piece>) returns (more: seq<Piece>)
      requires Ready(i) && owns[i].polled < |complete(owns[i].fed)| && (!owns[i].awaiting ==> owns[i].pending_line == "")
      requires Shown(out, snap.life) && accepted == (n < |accepts| && accepts[n])
      modifies this`owns, this`book, this`lines_submitted, this`lines_dropped_busy
      ensures Ready(i) && old(book).submitted <= book.submitted && out <= more && Shown(more, snap.life)
      ensures owns == old(owns)[i := owns[i]] && owns[i].fed == old(owns)[i].fed && owns[i].polled == old(owns)[i].polled + 1 <= |complete(owns[i].fed)|
      ensures Outcome(i, accepts, n + 1) == old(Outcome(i, accepts, n))
      ensures !Stuck(i)
    {
      LineShown(out, out, owns[i], accepted, snap.life);
      AfterLinesStep(owns[i], TaleOf(i), complete(owns[i].fed), accepts, n);
      more := PollLine(i, accepted, out);
    }

    /** Every line the editor has completed; `accepts` are the command queue's answers. */
    method PollAll(i: nat, accepts: seq<bool>, out: seq<Piece>) returns (more: seq<Piece>)
      requires Ready(i) && Shown(out, snap.life)
      requires !owns[i].awaiting ==> owns[i].pending_line == ""
      modifies this`owns, this`book, this`lines_submitted, this`lines_dropped_busy
      ensures Ready(i) && out <= more && Shown(more, snap.life) && old(book).submitted <= book.submitted
      ensures (owns[i], TaleOf(i)) == AfterLines(old(owns)[i], old(TaleOf(i)), complete(old(owns)[i].fed), accepts, 0)
      ensures owns == old(owns)[i := owns[i]]
      ensures owns[i].polled == |complete(owns[i].fed)|
    {
      more := out;
      var n := 0;
      ghost var fed, was, submitted, end := owns[i].fed, owns, book.submitted, Outcome(i, accepts, 0);
      assert TaleOk(complete, owns[i], TaleOf(i));
      while owns[i].polled < |complete(owns[i].fed)|
        invariant Ready(i) && out <= more && Shown(more, snap.life)
        invariant submitted <= book.submitted && owns[i].fed == fed && owns == was[i := owns[i]]
        invariant Outcome(i, accepts, n) == end && !Stuck(i)
        invariant owns[i].polled <= |complete(fed)|
        decreases |complete(fed)| - owns[i].polled
      {
        more := PollNext(i, n < |accepts| && accepts[n], accepts, n, more);
        n := n + 1;
      }
    }

    /** Pushed lines are shown above the prompt, which is repainted once they pause for 250 ms. */
    method ShowAsync(i: nat, text: string, now: nat, out: seq<Piece>) returns (more: seq<Piece>)
      requires Ready(i) && snap.async_text == text && Shown(out, snap.life)
      modifies this`owns, this`book
      ensures Ready(i) && Shown(more, snap.life) && book == old(book)
      ensures var o := old(owns)[i];
        if text != "" then more == out + [Async(text)] && owns == old(owns)[i := o.(async_dirty := true, last_async := now)]
        else if o.async_dirty && (now - o.last_async) % 0x1_0000_0000_0000_0000 >= 250000
        then more == out + [Refresh] && owns == old(owns)[i := o.(async_dirty := false)]
        else more == out && owns == old(owns)
    {
      more := out;
      PieceShown(out, if text != "" then Async(text) else Refresh, snap.life);
      if text != "" {
        more := out + [Async(text)];
        Put(i, owns[i].(async_dirty := true, last_async := now), TaleOf(i));
      } else if owns[i].async_dirty && (now - owns[i].last_async) % 0x1_0000_0000_0000_0000 >= 250000 {
        more := out + [Refresh];
        Put(i, owns[i].(async_dirty := false), TaleOf(i));
      }
    }

    /** One chunk, after other tasks have had their turn: it reaches whoever is connected to the link now. */
    method EmitChunk(i: nat, target: LinkTarget, out: seq<Piece>, chunk: string, steps: seq<Other>, sent: bool)
      requires Ready(i) && snap.target == target && Shown(out, snap.life)
      modifies this`hands, this`lives, this`origins_seen, this`origins_evicted, this`in_bytes_dropped, this`async_lines_dropped, this`bound, this`history, this`screens, this`frames_out
      ensures Ready(i) && old(history) <= history && (steps == [] ==> history == old(history) && hands == old(hands))
      ensures screens == old(screens) + if target in bound
                                        then [Screen(snap.origin, target, out, snap.life, |history|, chunk)] else []
      ensures (target in bound <==> Connection(history, target) >= 0) && (steps == [] ==> bound == old(bound))
      ensures frames_out == old(frames_out) + (if sent then 1 else 0)
    {
      Others(steps);
      Display(i, Screen(snap.origin, target, out, snap.life, |history|, chunk));
      frames_out := if sent then frames_out + 1 else frames_out;
    }

    ghost method Display(i: nat, s: Screen)
      requires Ready(i) && s.origin == snap.origin && s.target == snap.target && s.life == snap.life && Shown(s.out, snap.life)
      requires s.upto == |history|
      modifies this`screens
      ensures Ready(i) && screens == old(screens) + if s.target in bound then [s] else []
      ensures s.target in bound <==> Connection(history, s.target) >= 0
    {
      assert history[..|history|] == history;
      if s.target in bound { screens := screens + [s]; }
    }

    /** The output leaves chunk by chunk on the link the origin last spoke over, if that has an endpoint when
        it begins. `moments` says at which moment in the history of the links each chunk left. */
    method Emit(i: nat, target: LinkTarget, out: seq<Piece>, text: string, stride: nat, between: nat -> seq<Other>, sends: seq<bool>)
        returns (chunks: seq<string>, ghost moments: seq<nat>)
      requires Ready(i) && snap.target == target && stride > 0 && Shown(out, snap.life)
      modifies this`hands, this`lives, this`origins_seen, this`origins_evicted, this`in_bytes_dropped, this`async_lines_dropped, this`bound, this`history, this`screens, this`frames_out
      ensures Ready(i) && old(history) <= history && Timed(moments, |chunks|, |old(history)|, |history|)
      ensures screens == old(screens) + ShownChunks(Form(out), chunks, moments, history)
      ensures target in old(bound) && text != "" ==> Joined(chunks) == text
      ensures target !in old(bound) || text == "" ==> chunks == [] && screens == old(screens) && frames_out == old(frames_out)
      ensures forall k :: 0 <= k < |chunks| ==> 0 < |chunks[k]| <= stride
      ensures old(frames_out) <= frames_out <= old(frames_out) + |chunks|
      ensures Unbroken(between) ==> history == old(history) && hands == old(hands)
      ensures Unbroken(between) && target in old(bound) && text != "" ==> Leads(old(screens), screens, Form(out), |history|)
    {
      chunks, moments := [], [];
      if target in bound && text != "" {
        chunks := Chop(text, stride);
        moments := EmitAll(i, target, out, chunks, between, sends);
        if Unbroken(between) {
          assert history[..|history|] == history && moments[0] == |history|;
          ShownChunksFirst(Form(out), chunks, moments, history);
        }
      }
    }

    /** What the chunks of this pass share. */
    ghost function Form(out: seq<Piece>): Screen
      reads this
    {
      Screen(snap.origin, snap.target, out, snap.life, 0, "")
    }

    method EmitAll(i: nat, target: LinkTarget, out: seq<Piece>, chunks: seq<string>, between: nat -> seq<Other>, sends: seq<bool>)
        returns (ghost moments: seq<nat>)
      requires Ready(i) && snap.target == target && Shown(out, snap.life) && target in bound
      modifies this`hands, this`lives, this`origins_seen, this`origins_evicted, this`in_bytes_dropped, this`async_lines_dropped, this`bound, this`history, this`screens, this`frames_out
      ensures Ready(i) && old(history) <= history && Timed(moments, |chunks|, |old(history)|, |history|)
      ensures screens == old(screens) + ShownChunks(Form(out), chunks, moments, history)
      ensures old(frames_out) <= frames_out <= old(frames_out) + |chunks|
      ensures Unbroken(between) ==> history == old(history) && hands == old(hands)
    {
      moments := [];
      var n := 0;
      while n < |chunks|
        invariant n <= |chunks| && Ready(i) && old(history) <= history && Timed(moments, n, |old(history)|, |history|)
        invariant screens == old(screens) + ShownChunks(Form(out), chunks[..n], moments, history)
        invariant old(frames_out) <= frames_out <= old(frames_out) + n
        invariant Unbroken(between) ==> history == old(history) && hands == old(hands)
      {
        ghost var before := history;
        EmitChunk(i, target, out, chunks[n], between(n), n < |sends| && sends[n]);
        ChunkAdded(old(screens), Form(out), chunks, n, moments, before, history);
        TimedNext(moments, n, |old(history)|, |before|, |history|);
        moments := moments + [|history|];
        n := n + 1;
      }
      assert chunks[..n] == chunks;
    }

    method Finish(i: nat)
      requires Ready(i)
      modifies this`at
      ensures Valid() && at == -1
    {
      assert owns[i].fed + "" == owns[i].fed;
      assert Editors(owns, -1, snap) == Editors(owns, i, snap);
      at := -1;
    }

    /** The editor is brought up to date with what was taken under the lock. */
    method CatchUp(i: nat, h: Hand) returns (out: seq<Piece>)
      requires Valid() && at == i && SnapshotOf(snap, h)
      modifies this`owns, this`telling, this`book, this`snap
      ensures Ready(i) && Shown(out, snap.life) && book.submitted == old(book).submitted
      ensures snap == old(snap).(reset := false, have_result := false, input := "")
      ensures h.result_ready ==> !owns[i].awaiting && Result(h.pending_out) in out
      ensures owns == old(owns)[i := owns[i]]
      ensures owns[i].polled == if h.needs_reset then 0 else old(owns)[i].polled
    {
      out := PrepareEditor(i, h.needs_reset, h.life);
      if h.result_ready { out := TakeResult(i, h.pending_out, out); }
      Feed(i, h.input);
    }

    /** The unlocked part of a pass over one slot; other tasks have run since the snapshot. */
    method WorkOff(i: nat, h: Hand, now: nat, w: World) returns (out: seq<Piece>)
      requires Valid() && at == i && SnapshotOf(snap, h)
      modifies this`owns, this`telling, this`book, this`snap, this`lines_submitted, this`lines_dropped_busy
      ensures Ready(i) && Shown(out, snap.life) && old(book).submitted <= book.submitted
      ensures snap == old(snap).(reset := false, have_result := false, input := "")
      ensures h.result_ready ==> Result(h.pending_out) in out
      ensures h.async_out != "" ==> Async(h.async_out) in out
      ensures owns[i].polled == |complete(owns[i].fed)|
      ensures owns == old(owns)[i := owns[i]]
    {
      out := CatchUp(i, h);
      out := SubmitLines(i, w, out);
      out := ShowAsync(i, h.async_out, now, out);
    }

    /** The line held back and then the newly completed ones. */
    method SubmitLines(i: nat, w: World, out: seq<Piece>) returns (more: seq<Piece>)
      requires Ready(i) && Shown(out, snap.life)
      modifies this`owns, this`book, this`lines_submitted, this`lines_dropped_busy
      ensures Ready(i) && out <= more && Shown(more, snap.life) && old(book).submitted <= book.submitted
      ensures owns == old(owns)[i := owns[i]] && owns[i].polled == |complete(owns[i].fed)|
    {
      more := SubmitHeld(i, w.accept_held, out);
      more := PollAll(i, w.accepts, more);
    }

    method WorkAndShow(i: nat, h: Hand, now: nat, w: World) returns (out: seq<Piece>)
      requires Valid() && at == i && SnapshotOf(snap, h) && w.stride > 0
      modifies this
      ensures Valid() && at == -1 && Grown(old(book).submitted, old(screens), old(history))
      ensures h.result_ready ==> Result(h.pending_out) in out
      ensures h.async_out != "" ==> Async(h.async_out) in out
      ensures owns[i].polled == |complete(owns[i].fed)| && owns == old(owns)[i := owns[i]]
      ensures owns[i].fed == (if h.needs_reset then "" else old(owns)[i].fed) + h.input
      ensures Unbroken(w.between) ==> history == old(history) && hands == old(hands)
      ensures Unbroken(w.between) && h.target in old(bound) && w.rendering(out) != "" ==>
        && Leads(old(screens), screens, Screen(old(snap).origin, h.target, out, old(snap).life, 0, ""), |history|)
    {
      out := WorkOff(i, h, now, w);
      ghost var moments;
      var chunks;
      chunks, moments := Emit(i, h.target, out, w.rendering(out), w.stride, w.between, w.sends);
      Finish(i);
    }

    /** The pump works unlocked while other tasks take their steps. */
    method Proceed(i: nat, h: Hand, now: nat, w: World)
      requires Valid() && at == i && SnapshotOf(snap, h) && w.stride > 0
      modifies this
      ensures Valid() && at == -1 && Grown(old(book).submitted, old(screens), old(history))
      ensures owns[i].polled == |complete(owns[i].fed)| && owns == old(owns)[i := owns[i]]
      ensures owns[i].fed == (if h.needs_reset then "" else old(owns)[i].fed) + h.input
      ensures Alone(w) ==> history == old(history) && hands == old(hands)
      ensures Alone(w) && h.target in old(bound) && (forall out :: w.rendering(out) != "") ==>
        PutsOut(old(screens), screens, h)
    {
      Others(w.gap);
      var out := WorkAndShow(i, h, now, w);
    }

    /** One slot. Its editor gets all that waited and every line it completed is dealt with; if nobody
        interferes and its link has an endpoint, the result and the pushed lines that waited are shown. */
    method PumpSlot(i: nat, now: nat, w: World)
      requires Valid() && at == -1 && i < MAX_ORIGINS && w.stride > 0
      modifies this
      ensures Valid() && at == -1 && Grown(old(book).submitted, old(screens), old(history))
      ensures owns == old(owns)[i := owns[i]]
      ensures w.locked && old(hands)[i].used ==> CaughtUp(complete, old(hands)[i], old(owns)[i], owns[i])
      ensures !w.locked || !old(hands)[i].used ==> owns == old(owns) && history == old(history) && hands == old(hands)
      ensures w.locked && old(hands)[i].used && Alone(w) ==>
        history == old(history) && hands == old(hands)[i := Taken(old(hands)[i], now)]
      ensures w.locked && old(hands)[i].used && Alone(w)
              && old(hands)[i].target in old(bound) && (forall out :: w.rendering(out) != "") ==>
        PutsOut(old(screens), screens, old(hands)[i])
    {
      if w.locked {
        var used, h := TakeSnapshot(i, now);
        if used { Proceed(i, h, now, w); }
      }
    }

    /** Nothing handed over, shown or done to the links is ever taken back. */
    ghost predicate Grown(submitted: seq<Submission>, shown: seq<Screen>, events: seq<LinkEvent>)
      reads this
    {
      submitted <= book.submitted && shown <= screens && events <= history
    }

    /** One pass over all slots. If nobody interferes, every used slot whose lock was free has its editor fed
        all that waited and every completed line dealt with. */
    method Pump(now: nat, worlds: seq<World>)
      requires Valid() && at == -1 && |worlds| == MAX_ORIGINS && forall i :: 0 <= i < MAX_ORIGINS ==> worlds[i].stride > 0
      modifies this
      ensures Valid() && at == -1 && Grown(old(book).submitted, old(screens), old(history))
      ensures (forall i :: 0 <= i < MAX_ORIGINS ==> Alone(worlds[i])) ==>
        forall i :: 0 <= i < MAX_ORIGINS && worlds[i].locked && old(hands)[i].used ==>
          CaughtUp(complete, old(hands)[i], old(owns)[i], owns[i])
    {
      var i := 0;
      ghost var was, before := hands, owns;
      while i < MAX_ORIGINS
        invariant i <= MAX_ORIGINS && Valid() && at == -1 && Grown(old(book).submitted, old(screens), old(history))
        invariant forall k :: i <= k < MAX_ORIGINS ==> owns[k] == before[k]
        invariant (forall k :: 0 <= k < MAX_ORIGINS ==> Alone(worlds[k])) ==>
          && (forall k :: i <= k < MAX_ORIGINS ==> hands[k] == was[k])
          && (forall k :: 0 <= k < i && worlds[k].locked && was[k].used ==> CaughtUp(complete, was[k], before[k], owns[k]))
      {
        PumpSlot(i, now, worlds[i]);
        i := i + 1;
      }
    }

    /** In every interleaving: each line handed over was built only from bytes accepted from its own
        origin since its slot was allocated; in every editor's tale, past ones included, the lines handed
        over are the accepted ones in order, never two without a result between them, and every other
        completed line was held, counted as dropped, or empty; each screen shows only its own origin's
        echo, results and pushed lines, and reaches the connection that origin last spoke over exactly
        if the link was not bound anew in between. */
    method Run(events: seq<Event>)
      requires Valid() && at == -1
      requires forall k :: 0 <= k < |events| ==> Sized(events[k])
      modifies this
      ensures Valid() && at == -1 && Grown(old(book).submitted, old(screens), old(history))
      ensures forall k :: 0 <= k < |book.submitted| ==> Placed(complete, book.submitted[k], book.tales)
      ensures forall k :: 0 <= k < |book.tales| ==> Faithful(book, k)
      ensures lines_submitted == |book.submitted| && lines_dropped_busy == Dropped(book.tales)
      ensures forall k :: 0 <= k < |screens| ==> Isolated(screens[k], history) && HomeIff(screens[k], history)
    {
      var i := 0;
      while i < |events|
        invariant i <= |events| && Valid() && at == -1 && Grown(old(book).submitted, old(screens), old(history))
      {
        match events[i] {
          case Step(other) => OtherStep(other);
          case Pass(now, worlds) => Pump(now, worlds);
        }
        i := i + 1;
      }
      AllHomeUnlessRebound(screens, history);
    }
  }

  // ---------------------------------------------------------------------------
  // Output that reaches another connection
  // ---------------------------------------------------------------------------

  /** A client has spoken over a link, and the output of its command waits for it in the first slot. */
  method Waiting(editor: Completion, target: LinkTarget, a: Origin, text: string) returns (r: TerminalResponder)
    requires Monotone(editor)
    ensures fresh(r) && r.Valid() && r.at == -1 && r.history == [Bound(target)] && r.screens == []
    ensures Owns(r.hands, 0, a) && r.hands[0].target == target && r.hands[0].result_ready && r.hands[0].pending_out == text
    ensures r.lives[0].since == 1 && target in r.bound
  {
    r := new TerminalResponder(editor);
    r.Bind(target);
    ghost var i := r.OnTerminalIn(target, a, 0, "x", true);
    r.DeliverCommandOutput(a, text);
  }

  /** The client has gone and another has come, without an eviction. */
  method Outliving(editor: Completion, target: LinkTarget, a: Origin, text: string) returns (r: TerminalResponder)
    requires Monotone(editor)
    ensures fresh(r) && r.Valid() && r.at == -1 && r.history == [Bound(target), Unbound(target), Bound(target)]
    ensures target in r.bound && r.screens == []
    ensures Owns(r.hands, 0, a) && r.hands[0].target == target && r.hands[0].result_ready && r.hands[0].pending_out == text
    ensures r.lives[0].since == 1
  {
    r := Waiting(editor, target, a, text);
    r.Replace(target, false);
  }

  /** An origin's result, shown over its link to whoever was connected next. */
  ghost predicate Misdirected(s: Screen, history: seq<LinkEvent>, a: Origin, text: string) {
    Isolated(s, history) && s.origin == a && Result(text) in s.out && !Home(s, history)
  }

  method ShowToSuccessor(r: TerminalResponder, target: LinkTarget, a: Origin, text: string, h: Hand, w: World)
      returns (ghost s: Screen)
    requires r.Valid() && r.at == 0 && SnapshotOf(r.snap, h) && w.stride > 0 && Unbroken(w.between) && forall out :: w.rendering(out) != ""
    requires r.history == [Bound(target), Unbound(target), Bound(target)] && target in r.bound && r.screens == []
    requires h.target == target && r.snap.origin == a && h.result_ready && h.pending_out == text && r.snap.life.since == 1
    modifies r
    ensures r.Valid() && s in r.screens && r.history == old(r.history) && r.hands == old(r.hands)
    ensures Misdirected(s, r.history, a, text)
  {
    var out := r.WorkAndShow(0, h, 0, w);
    s := r.screens[0];
    SuccessorIsNotHome(s, r.history);
  }

  /** A client's slot outlives its connection when the eviction misses the lock: its command's output is
      shown to the client connected next. */
  method MissedEvictionLeaks(editor: Completion, target: LinkTarget, a: Origin, text: string, w: World)
      returns (r: TerminalResponder, ghost s: Screen)
    requires Monotone(editor) && w.stride > 0 && Unbroken(w.between) && forall out :: w.rendering(out) != ""
    ensures fresh(r) && r.Valid() && r.history == [Bound(target), Unbound(target), Bound(target)] && s in r.screens
    ensures Misdirected(s, r.history, a, text)
  {
    r := Outliving(editor, target, a, text);
    var used, h := r.TakeSnapshot(0, 0);
    s := ShowToSuccessor(r, target, a, text, h, w);
  }

  /** So it is, with the slot evicted, when the pump has taken its snapshot before. */
  method OvertakenSnapshotLeaks(editor: Completion, target: LinkTarget, a: Origin, text: string, w: World)
      returns (r: TerminalResponder, ghost s: Screen)
    requires Monotone(editor) && w.stride > 0 && Unbroken(w.between) && forall out :: w.rendering(out) != ""
    ensures fresh(r) && r.Valid() && r.history == [Bound(target), Unbound(target), Bound(target)] && s in r.screens
    ensures r.hands[0].used ==> r.hands[0].target != target
    ensures Misdirected(s, r.history, a, text)
  {
    r := Waiting(editor, target, a, text);
    var used, h := r.TakeSnapshot(0, 0);
    r.Replace(target, true);
    s := ShowToSuccessor(r, target, a, text, h, w);
  }

  method FirstChunkOut(editor: Completion, target: LinkTarget, a: Origin, text: string, w: World, x: string)
      returns (r: TerminalResponder, out: seq<Piece>)
    requires Monotone(editor)
    ensures fresh(r) && r.Ready(0) && r.history == [Bound(target)] && Result(text) in out && Shown(out, r.snap.life)
    ensures r.snap.origin == a && r.snap.target == target && r.snap.life.since == 1
    ensures r.screens == [Screen(a, target, out, r.snap.life, 1, x)]
  {
    r := Waiting(editor, target, a, text);
    var used, h := r.TakeSnapshot(0, 0);
    out := r.WorkOff(0, h, 0, w);
    r.EmitChunk(0, target, out, x, [], true);
  }

  /** And when the client is replaced between two chunks of its output: the first reaches it, the second
      the client connected next. */
  method OvertakenChunkLeaks(editor: Completion, target: LinkTarget, a: Origin, text: string, w: World, x: string, y: string)
      returns (r: TerminalResponder, ghost s: Screen, ghost s': Screen)
    requires Monotone(editor)
    ensures fresh(r) && r.Valid() && r.history == [Bound(target), Unbound(target), Bound(target)] && r.screens == [s, s']
    ensures s.text == x && s'.text == y && s.out == s'.out
    ensures Isolated(s, r.history) && Home(s, r.history) && Misdirected(s', r.history, a, text)
  {
    var out;
    r, out := FirstChunkOut(editor, target, a, text, w, x);
    r.Replace(target, true);
    r.EmitChunk(0, target, out, y, [], true);
    s, s' := r.screens[0], r.screens[1];
    SuccessorIsNotHome(s', r.history);
  }

  lemma SuccessorIsNotHome(s: Screen, history: seq<LinkEvent>)
    requires history == [Bound(s.target), Unbound(s.target), Bound(s.target)] && s.life.since == 1 && s.upto == 3
    ensures !Home(s, history)
  {
    assert history[..3][2] == Bound(s.target) && history[..1][0] == Bound(s.target);
  }

  function Joined(chunks: seq<string>): string {
    if chunks == [] then "" else Joined(chunks[..|chunks| - 1]) + chunks[|chunks| - 1]
  }

  /** Pieces of at most `stride` that put together are the text again; only the last may be shorter. */
  method Chop(text: string, stride: nat) returns (chunks: seq<string>)
    requires stride > 0
    ensures Joined(chunks) == text
    ensures forall k :: 0 <= k < |chunks| ==> 0 < |chunks[k]| <= stride
    ensures forall k :: 0 <= k < |chunks| - 1 ==> |chunks[k]| == stride
  {
    chunks := [];
    var offset := 0;
    while offset < |text|
      invariant 0 <= offset <= |text| && Joined(chunks) == text[..offset]
      invariant forall k :: 0 <= k < |chunks| ==> 0 < |chunks[k]| <= stride
      invariant offset < |text| ==> forall k :: 0 <= k < |chunks| ==> |chunks[k]| == stride
      invariant forall k :: 0 <= k < |chunks| - 1 ==> |chunks[k]| == stride
    {
      var size := if |text| - offset < stride then |text| - offset else stride;
      var chunk := text[offset..offset + size];
      assert text[..offset] + chunk == text[..offset + size];
      assert (chunks + [chunk])[..|chunks|] == chunks;
      chunks := chunks + [chunk];
      offset := offset + size;
    }
    assert text[..offset] == text;
  }

  lemma SameEditors(owns: seq<Own>, i: nat, snap: Snapshot, o: Own, s: Snapshot)
    requires i < |owns| && Base(o, s) == Base(owns[i], snap)
    ensures Editors(owns[i := o], i, s) == Editors(owns, i, snap)
  {
  }

  /** A screen was added for this slot's origin with what waited to be shown there. */
  ghost predicate PutsOut(before: seq<Screen>, after: seq<Screen>, h: Hand) {
    && |after| > |before|
    && var s := after[|before|];
      && s.origin == h.origin && s.target == h.target
      && (h.result_ready ==> Result(h.pending_out) in s.out)
      && (h.async_out != "" ==> Async(h.async_out) in s.out)
  }

  /** What an origin is shown of a line it completed, after `out`. */
  function Shows(out: seq<Piece>, o: Own, accepted: bool): seq<Piece> {
    out + [Echo(o.fed, o.polled)] + (if Drops(o, accepted) then [Busy] else [])
  }

  lemma LineShown(first: seq<Piece>, out: seq<Piece>, o: Own, accepted: bool, l: Life)
    requires first <= out && Shown(out, l) && o.fed <= l.received
    ensures first <= Shows(out, o, accepted) && Shown(Shows(out, o, accepted), l)
  {
  }

  lemma PieceShown(out: seq<Piece>, p: Piece, l: Life)
    requires Shown(out, l) && Belongs(p, l)
    ensures Shown(out + [p], l)
  {
  }

  lemma ChunkAdded(shown: seq<Screen>, form: Screen, chunks: seq<string>, n: nat, moments: seq<nat>,
                   history: seq<LinkEvent>, later: seq<LinkEvent>)
    requires n < |chunks| && Within(moments, n, |history|) && history <= later
    ensures Within(moments + [|later|], n + 1, |later|)
    ensures shown + ShownChunks(form, chunks[..n], moments, history)
            + (if Connection(later, form.target) >= 0 then [form.(upto := |later|, text := chunks[n])] else [])
         == shown + ShownChunks(form, chunks[..n + 1], moments + [|later|], later)
  {
    var front, chunk := chunks[..n], chunks[n];
    WithinNext(moments, n, |history|, |later|);
    ShownChunksNext(form, front, moments, history, later, chunk);
    OneMore(chunks, n);
    AssocScreens(shown, ShownChunks(form, front, moments, history),
                 if Connection(later, form.target) >= 0 then [form.(upto := |later|, text := chunk)] else []);
  }

  lemma OneMore(chunks: seq<string>, n: nat)
    requires n < |chunks|
    ensures chunks[..n + 1] == chunks[..n] + [chunks[n]]
  {
  }

  lemma WithinNext(moments: seq<nat>, n: nat, last: nat, later: nat)
    requires Within(moments, n, last) && last <= later
    ensures Within(moments + [later], n + 1, later)
  {
  }

  lemma AssocScreens(a: seq<Screen>, b: seq<Screen>, c: seq<Screen>)
    ensures (a + b) + c == a + (b + c)
  {
  }

  lemma TimedNext(moments: seq<nat>, n: nat, first: nat, last: nat, later: nat)
    requires Timed(moments, n, first, last) && first <= last <= later
    ensures Timed(moments + [later], n + 1, first, later)
  {
  }

  /** The first screen added is that of this pass, put out at this moment. */
  ghost predicate Leads(before: seq<Screen>, after: seq<Screen>, form: Screen, upto: nat) {
    && before <= after && |before| < |after|
    && after[|before|] == form.(upto := upto, text := after[|before|].text)
  }

  ghost predicate Timed(moments: seq<nat>, n: nat, first: nat, last: nat) {
    && |moments| == n
    && (forall k :: 0 <= k < n ==> first <= moments[k] <= last)
    && (forall k :: 0 < k < n ==> moments[k - 1] <= moments[k])
  }

  /** One more line was handed over, for this origin. */
  ghost predicate Last(submitted: seq<Submission>, before: seq<Submission>, origin: Origin, line: string) {
    && |submitted| == |before| + 1 && before <= submitted
    && submitted[|before|].origin == origin && submitted[|before|].line == line
  }

  /** The snapshot was taken from these fields. */
  ghost predicate SnapshotOf(s: Snapshot, h: Hand) {
    && s.reset == h.needs_reset && s.have_result == h.result_ready && s.origin == h.origin && s.target == h.target
    && s.input == h.input && s.async_text == h.async_out && s.result == h.pending_out && s.life.id == h.life
  }

  ghost function SnapshotNow(h: Hand, l: Life): Snapshot {
    Snapshot(h.needs_reset, h.result_ready, h.origin, h.target, h.pending_out, h.input, h.async_out, l.(taken := |l.pushed|))
  }

  /** The slot after the pump has taken what waits in it. */
  function Taken(h: Hand, now: nat): Hand {
    h.(last_used := now, needs_reset := false, result_ready := false, input := "", async_out := "",
       pending_out := if h.result_ready then "" else h.pending_out)
  }

  lemma LinkTaken(hands: seq<Hand>, owns: seq<Own>, lives: seq<Life>, moment: nat, i: nat, now: nat, before: Snapshot)
    requires i < MAX_ORIGINS == |owns| && AllLinked(hands, Editors(owns, -1, before), lives, moment) && hands[i].used
    ensures var s := SnapshotNow(hands[i], lives[i]);
      && AllLinked(hands[i := Taken(hands[i], now)], Editors(owns, i, s), lives[i := s.life], moment)
      && SnapshotOk(owns[i], s, moment)
  {
    var h, l, s := hands[i], lives[i], SnapshotNow(hands[i], lives[i]);
    assert Linked(h, Editors(owns, -1, before)[i], l, moment);
    PartSlice(l.pushed, l.taken);
    assert "" + s.input == s.input && Base(owns[i], s).fed + "" == Base(owns[i], s).fed;
    assert forall k :: 0 <= k < MAX_ORIGINS && k != i ==> Editors(owns, i, s)[k] == Editors(owns, -1, before)[k];
  }

  /** What already waits for the pump in the slot this origin gets. */
  ghost function Waits(hands: seq<Hand>, i: nat, origin: Origin): string {
    if Owns(hands, i, origin) then hands[i].input else ""
  }

  /** The life that goes on in the slot, or else the new one. */
  ghost function LifeOf(hands: seq<Hand>, lives: seq<Life>, i: nat, new_life: Life): Life
    requires |hands| == |lives|
  {
    if Owns(hands, i, new_life.origin) then lives[i] else new_life
  }

  /** How many of these bytes fit behind what waits already. */
  function Room(input: string, data: string): (take: nat)
    ensures take <= |data|
    ensures take > 0 ==> |input| + take <= 1024
    ensures take < |data| ==> |input| + take >= 1024
  {
    var room := if |input| < MAX_PENDING_IN then MAX_PENDING_IN - |input| else 0;
    if |data| < room then |data| else room
  }

  /** The origin has spoken: the slot it has or gets holds what fits of its bytes, and no other changed. */
  ghost predicate Received(before: seq<Hand>, lives: seq<Life>, hands: seq<Hand>, now_lives: seq<Life>, i: nat,
                           target: LinkTarget, origin: Origin, data: string, new_life: Life)
    requires |before| == |lives|
  {
    var taken := data[..Room(Waits(before, i, origin), data)];
    && i < |before| && Owns(hands, i, origin) && hands == before[i := hands[i]]
    && (!Owns(before, i, origin) ==> Victim(before, i) && forall k :: 0 <= k < |before| ==> !Owns(before, k, origin))
    && hands[i].input == Waits(before, i, origin) + taken && hands[i].target == target
    && now_lives == lives[i := Spoken(LifeOf(before, lives, i, new_life), target, new_life.since, taken)]
  }

  lemma LinkFresh(hands: seq<Hand>, editors: seq<Editor>, lives: seq<Life>, moment: nat, v: nat, h: Hand)
    requires AllLinked(hands, editors, lives, moment) && v < MAX_ORIGINS
    requires h.used && h.needs_reset && h.input == "" && h.async_out == "" && !h.result_ready
    requires forall k :: 0 <= k < MAX_ORIGINS ==> !Owns(hands, k, h.origin)
    ensures AllLinked(hands[v := h], editors, lives[v := NewLife(h.life, h.origin, h.target, moment)], moment)
  {
    assert forall k :: 0 <= k < MAX_ORIGINS && hands[k].used ==> !Owns(hands, k, h.origin);
  }

  /** One slot's shared fields change, for the same origin or for none. */
  lemma LinkUpdate(hands: seq<Hand>, editors: seq<Editor>, lives: seq<Life>, moment: nat, i: nat, h: Hand, l: Life)
    requires AllLinked(hands, editors, lives, moment) && i < MAX_ORIGINS
    requires h.used ==> hands[i].used && h.origin == hands[i].origin
    requires Linked(h, editors[i], l, moment)
    ensures AllLinked(hands[i := h], editors, lives[i := l], moment)
  {
  }

  lemma LinkMore(h: Hand, e: Editor, l: Life, moment: nat, target: LinkTarget, more: string)
    requires Linked(h, e, l, moment) && h.used
    ensures Linked(h.(target := target, input := h.input + more), e, Spoken(l, target, moment, more), moment)
  {
  }

  /** A link is bound or unbound. */
  lemma LinksMove(hands: seq<Hand>, editors: seq<Editor>, lives: seq<Life>, screens: seq<Screen>, history: seq<LinkEvent>,
                  e: LinkEvent, bound: set<LinkTarget>)
    requires AllLinked(hands, editors, lives, |history|) && AllIsolated(screens, history) && Wired(bound, history)
    ensures AllLinked(hands, editors, lives, |history + [e]|) && AllIsolated(screens, history + [e])
    ensures Wired(if e.Bound? then bound + {e.target} else bound - {e.target}, history + [e])
  {
    LaterIsolated(screens, history, history + [e]);
    assert (history + [e])[..|history|] == history;
    forall i | 0 <= i < MAX_ORIGINS ensures Linked(hands[i], editors[i], lives[i], |history + [e]|) {
      assert Linked(hands[i], editors[i], lives[i], |history|);
    }
  }
}
