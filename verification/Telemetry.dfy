/** The telemetry publisher: a single-producer/single-consumer queue with free-running 32-bit
    indices, a one-slot stage for the large document, and the fan-out to the targets.
    The producer's code is a set of small steps; the consumer's code is the source's loop with
    arbitrary producer steps at every point between two accesses to shared memory. */
module Telemetry {
  import opened Common

  const CAPACITY := 16
  const U32 := 0x1_0000_0000
  const MONITOR_TOPIC := 3
  /** ESP-NOW, TCP, BLE and serial, in this order. */
  const LINKS := 4
  const MAX_PAYLOAD := 34
  const MAX_DOCUMENT := 1802

  datatype Sample = Sample(timestamp: nat, sequence: nat, topic: nat, payload: seq<byte>)

  // ---------------------------------------------------------------------------
  // Index arithmetic
  // ---------------------------------------------------------------------------

  /** Unsigned 32-bit subtraction. */
  function Sub32(a: nat, b: nat): (d: nat)
    ensures d < U32
  {
    (a - b) % U32
  }

  /** As long as the true counts are close, the wrapped indices show their distance. */
  lemma DistanceSurvivesWrap(w: nat, r: nat)
    requires r <= w < r + U32
    ensures Sub32(w % U32, r % U32) == w - r
    ensures w % U32 == r % U32 <==> w == r
  {
  }

  /** 16 divides 2^32, so a wrapped index names the same slot as the true count. */
  lemma SlotSurvivesWrap(n: nat)
    ensures (n % U32) % CAPACITY == n % CAPACITY
    ensures (n % U32 + 1) % U32 == (n + 1) % U32
  {
  }

  /** Fewer than 16 apart, two counts never share a slot. */
  lemma SlotsApart(k: nat, w: nat)
    requires k < w < k + CAPACITY
    ensures k % CAPACITY != w % CAPACITY
  {
  }

  // ---------------------------------------------------------------------------
  // Targets
  // ---------------------------------------------------------------------------

  /** One destination: `table` gives the subscriber count of a topic; None means ungated. */
  datatype Target = Target(endpoint: bool, table: Option<nat -> nat>)

  predicate Wants(target: Target, topic: nat) {
    target.endpoint && (target.table.Some? ==> target.table.value(topic) != 0)
  }

  /** The samples of `samples` that `target` is offered. */
  function Filter(target: Target, samples: seq<Sample>): seq<Sample> {
    if samples == [] then []
    else
      var last := samples[|samples| - 1];
      Filter(target, samples[..|samples| - 1]) + (if Wants(target, last.topic) then [last] else [])
  }

  lemma {:induction false} FilterAppend(target: Target, a: seq<Sample>, b: seq<Sample>)
    ensures Filter(target, a + b) == Filter(target, a) + Filter(target, b)
  {
    if b == [] {
      assert a + b == a;
    } else {
      var last := b[|b| - 1];
      assert (a + b)[..|a + b| - 1] == a + b[..|b| - 1];
      FilterAppend(target, a, b[..|b| - 1]);
    }
  }

  /** `list` is made of the samples at the positions `at` of `gone`, in order, and these are exactly the
      ones whose topic has a subscriber at the link, or all if it has no table. */
  ghost predicate Picked(link: Target, gone: seq<Sample>, list: seq<Sample>, at: seq<nat>) {
    && |at| == |list|
    && (forall k :: 0 <= k < |at| ==> at[k] < |gone| && list[k] == gone[at[k]])
    && (forall j, k :: 0 <= j < k < |at| ==> at[j] < at[k])
    && (forall p: nat {:trigger p in at} :: p < |gone| ==>
         (p in at <==> link.endpoint && (link.table == None || link.table.value(gone[p].topic) > 0)))
  }

  /** What a link is to get of the samples that left the queue. */
  ghost predicate Served(link: Target, gone: seq<Sample>, list: seq<Sample>) {
    && (exists at :: Picked(link, gone, list, at))
    && (link.endpoint && link.table == None ==> list == gone)
    && (link.endpoint && link.table.Some? && (forall topic :: link.table.value(topic) > 0) ==> list == gone)
    && (!link.endpoint ==> list == [])
    && (link.table.Some? && (forall topic :: link.table.value(topic) == 0) ==> list == [])
  }

  lemma {:induction false} FilterPicks(link: Target, gone: seq<Sample>) returns (at: seq<nat>)
    ensures Picked(link, gone, Filter(link, gone), at)
  {
    if gone == [] {
      at := [];
    } else {
      var front, last := gone[..|gone| - 1], gone[|gone| - 1];
      var sofar := FilterPicks(link, front);
      at := PickedNext(link, front, last, Filter(link, front), sofar);
      assert front + [last] == gone;
    }
  }

  lemma PickedNext(link: Target, front: seq<Sample>, last: Sample, list: seq<Sample>, at: seq<nat>) returns (to: seq<nat>)
    requires Picked(link, front, list, at)
    ensures Picked(link, front + [last], list + (if Wants(link, last.topic) then [last] else []), to)
  {
    if Wants(link, last.topic) {
      to := at + [|front|];
      OneMorePicked(link, front, last, list, at);
    } else {
      to := at;
      assert list + [] == list;
    }
  }

  lemma OneMorePicked(link: Target, front: seq<Sample>, last: Sample, list: seq<Sample>, at: seq<nat>)
    requires Picked(link, front, list, at) && Wants(link, last.topic)
    ensures Picked(link, front + [last], list + [last], at + [|front|])
  {
    var gone, to := front + [last], at + [|front|];
    forall k | 0 <= k < |to| ensures to[k] < |gone| && (list + [last])[k] == gone[to[k]] {
    }
    forall p: nat | p < |gone|
      ensures p in to <==> link.endpoint && (link.table == None || link.table.value(gone[p].topic) > 0)
    {
      if p < |front| {
        assert gone[p] == front[p];
      } else {
        assert to[|at|] == p;
      }
    }
  }

  lemma {:induction false} FilterAll(link: Target, gone: seq<Sample>)
    requires forall topic :: Wants(link, topic)
    ensures Filter(link, gone) == gone
  {
    if gone != [] {
      var front, last := gone[..|gone| - 1], gone[|gone| - 1];
      FilterAll(link, front);
      assert gone == front + [last] && Wants(link, last.topic);
    }
  }

  lemma {:induction false} FilterNone(link: Target, gone: seq<Sample>)
    requires forall topic :: !Wants(link, topic)
    ensures Filter(link, gone) == []
  {
    if gone != [] {
      var front, last := gone[..|gone| - 1], gone[|gone| - 1];
      FilterNone(link, front);
      assert !Wants(link, last.topic);
    }
  }

  lemma FilterServes(link: Target, gone: seq<Sample>)
    ensures Served(link, gone, Filter(link, gone))
  {
    var at := FilterPicks(link, gone);
    if forall topic :: Wants(link, topic) { FilterAll(link, gone); }
    if forall topic :: !Wants(link, topic) { FilterNone(link, gone); }
  }

  lemma AllServed(links: seq<Target>, gone: seq<Sample>, offers: Offers)
    requires |links| == LINKS && Offered(links, NoOffers, gone, offers)
    ensures forall i :: 0 <= i < LINKS ==> Served(links[i], gone, offers[i])
  {
    forall i | 0 <= i < LINKS ensures Served(links[i], gone, offers[i]) {
      assert offers[i] == [] + Filter(links[i], gone) == Filter(links[i], gone);
      FilterServes(links[i], gone);
    }
  }

  /** What every link has been offered, one list a link. */
  type Offers = seq<seq<Sample>>

  function Total(offers: Offers): nat
    requires |offers| == LINKS
  {
    |offers[0]| + |offers[1]| + |offers[2]| + |offers[3]|
  }

  /** `after` is `before` with, for every link, the samples it wants out of `samples` added. */
  ghost predicate Offered(links: seq<Target>, before: Offers, samples: seq<Sample>, after: Offers)
    requires |links| == LINKS
  {
    |before| == |after| == LINKS &&
    forall i :: 0 <= i < LINKS ==> after[i] == before[i] + Filter(links[i], samples)
  }

  /** The base link counts as a target as soon as it has a table, the others need an endpoint. */
  predicate AnyTarget(links: seq<Target>)
    requires |links| == LINKS
  {
    links[0].endpoint || links[0].table.Some? || links[1].endpoint || links[2].endpoint || links[3].endpoint
  }

  lemma OfferedNothing(links: seq<Target>, offers: Offers)
    requires |links| == |offers| == LINKS
    ensures Offered(links, offers, [], offers)
  {
  }

  lemma OfferedThen(links: seq<Target>, a: Offers, x: seq<Sample>, b: Offers, y: seq<Sample>, c: Offers)
    requires |links| == LINKS && Offered(links, a, x, b) && Offered(links, b, y, c)
    ensures Offered(links, a, x + y, c)
  {
    forall i | 0 <= i < LINKS ensures c[i] == a[i] + Filter(links[i], x + y) {
      FilterAppend(links[i], x, y);
    }
  }

  // ---------------------------------------------------------------------------
  // The producer's side
  // ---------------------------------------------------------------------------

  /** One step of the control task between two accesses to shared memory. */
  datatype ProducerStep =
    | Begin(sample: Sample, granted: bool)    // enqueue up to its space check and reservation
    | Scribble(garbage: Sample)               // part of the slot is written
    | Fill                                    // the whole slot is written
    | Publish                                 // write_index_ is stored
    | StageBegin(document: Sample, granted: bool)
    | StageScribble(garbage: Sample)
    | StagePublish

  /** What the producer does, and what the links answer, around one pass of flush. */
  datatype Turn = Turn(loaded: seq<ProducerStep>, link: nat -> seq<ProducerStep>, accepts: nat -> bool,
                       sent: seq<ProducerStep>)

  /** What the tasks do, in any order. */
  datatype Activity = Produce(step: ProducerStep) | FlushNow(max_samples: nat, stage_turn: Turn, turns: nat -> Turn)

  const NoOffers: Offers := [[], [], [], []]

  predicate Acceptable(sample: Sample) {
    0 < |sample.payload| <= MAX_PAYLOAD && sample.topic != 0
  }

  lemma SlicesJoin(was: seq<Sample>, now: seq<Sample>, base: nat, at: nat, end: nat)
    requires was <= now && base <= at <= |was| && at <= end <= |now|
    ensures was[base..at] + now[at..end] == now[base..end]
  {
  }

  lemma FilterOne(link: Target, s: Sample)
    ensures Filter(link, [s]) == if Wants(link, s.topic) then [s] else []
  {
    assert [s][..0] == [];
  }

  class Publisher {
    const queue: array<Sample>
    var links: seq<Target>
    var write_index: nat
    var read_index: nat
    var stage: Sample
    var pending: bool
    var dropped_full: nat
    var dropped_invalid: nat
    var queued_total: nat
    var sent_total: nat
    var send_failed: nat

    // Locals of the producer's code while it is between two steps.
    var writing: bool
    var filled: bool
    var local_write: nat
    var local_sample: Sample
    var staging: bool
    var local_document: Sample

    ghost var produced: seq<Sample>  // every sample ever queued
    ghost var consumed: nat          // how many of them left the queue
    ghost var document: Sample       // the document last staged

    /** The abstract queue. */
    ghost function Contents(): seq<Sample>
      reads this
      requires consumed <= |produced|
    {
      produced[consumed..]
    }

    ghost predicate Valid()
      reads this, queue
    {
      && queue.Length == CAPACITY && |links| == LINKS
      && consumed <= |produced| <= consumed + CAPACITY
      && write_index == |produced| % U32 && read_index == consumed % U32
      && (forall k :: consumed <= k < |produced| ==> queue[k % CAPACITY] == produced[k])
      && (writing ==> local_write == write_index && |produced| < consumed + CAPACITY)
      && (writing && filled ==> queue[|produced| % CAPACITY] == local_sample)
      && (staging ==> !pending && local_document.topic == MONITOR_TOPIC)
      && (pending ==> stage == document && document.topic == MONITOR_TOPIC)
    }

    constructor (blank: Sample, links: seq<Target>)
      requires |links| == LINKS
      ensures Valid() && this.links == links && Contents() == [] && !pending && !writing && fresh(queue)
    {
      queue := new Sample[CAPACITY](_ => blank);
      write_index, read_index, stage, pending := 0, 0, blank, false;
      this.links := links;
      dropped_full, dropped_invalid, queued_total, sent_total, send_failed := 0, 0, 0, 0, 0;
      writing, filled, local_write, local_sample := false, false, 0, blank;
      staging, local_document := false, blank;
      produced, consumed, document := [], 0, blank;
    }

    /** enqueue up to the decision: reads both indices, refuses when 16 samples are waiting. */
    method BeginEnqueue(sample: Sample, granted: bool)
      requires Valid() && !writing
      modifies this`writing, this`filled, this`local_write, this`local_sample, this`dropped_full, this`dropped_invalid
      ensures Valid()
      ensures writing <==>
        && links[0].endpoint && 0 < |sample.payload| <= 34 && sample.topic != 0
        && |Contents()| < 16 && granted
      ensures writing ==> local_sample == sample && !filled
      ensures dropped_full - old(dropped_full) ==
        if links[0].endpoint && 0 < |sample.payload| <= 34 && sample.topic != 0 && |Contents()| == 16 then 1 else 0
      ensures writing || dropped_full + dropped_invalid == old(dropped_full + dropped_invalid) + 1
    {
      if !links[0].endpoint || !Acceptable(sample) {
        dropped_invalid := dropped_invalid + 1;
        return;
      }
      var write := write_index;
      var read := read_index;
      DistanceSurvivesWrap(|produced|, consumed);
      if Sub32(write, read) >= CAPACITY {
        dropped_full := dropped_full + 1;
        return;
      }
      if !granted {
        dropped_invalid := dropped_invalid + 1;
        return;
      }
      writing, filled, local_write, local_sample := true, false, write, sample;
    }

    /** Any intermediate content of the slot while its fields are being written. */
    method WriteSlot(content: Sample, last: bool)
      requires Valid() && writing && !filled && (last ==> content == local_sample)
      modifies queue, this`filled
      ensures Valid() && filled == last
    {
      SlotSurvivesWrap(|produced|);
      forall k | consumed <= k < |produced| ensures k % CAPACITY != |produced| % CAPACITY {
        SlotsApart(k, |produced|);
      }
      queue[local_write % CAPACITY] := content;
      filled := last;
    }

    method PublishSample()
      requires Valid() && writing && filled
      modifies this`write_index, this`queued_total, this`writing, this`filled, this`produced
      ensures Valid() && !writing
      ensures produced == old(produced) + [local_sample] && queued_total == old(queued_total) + 1
    {
      SlotSurvivesWrap(|produced|);
      write_index := (local_write + 1) % U32;
      produced := produced + [local_sample];
      queued_total := queued_total + 1;
      writing, filled := false, false;
    }

    /** publish_system_monitor up to the point where the stage is its own. */
    method BeginStage(document: Sample, granted: bool)
      requires Valid() && !staging
      modifies this`staging, this`local_document, this`dropped_full, this`dropped_invalid
      ensures Valid() && (staging <==> links[0].endpoint && !pending && |document.payload| <= 1802 && granted)
      ensures staging ==> local_document == document.(topic := MONITOR_TOPIC)
      ensures dropped_full == old(dropped_full) + (if links[0].endpoint && pending then 1 else 0)
      ensures dropped_invalid == old(dropped_invalid) + (if !staging && !(links[0].endpoint && pending) then 1 else 0)
    {
      if !links[0].endpoint {
        dropped_invalid := dropped_invalid + 1;
        return;
      }
      if pending {
        dropped_full := dropped_full + 1;
        return;
      }
      if |document.payload| > MAX_DOCUMENT || !granted {
        dropped_invalid := dropped_invalid + 1;
        return;
      }
      staging, local_document := true, document.(topic := MONITOR_TOPIC);
    }

    method WriteStage(content: Sample)
      requires Valid() && staging
      modifies this`stage
      ensures Valid()
    {
      stage := content;
    }

    method PublishStage()
      requires Valid() && staging
      modifies this`stage, this`pending, this`document, this`staging, this`queued_total
      ensures Valid() && pending && !staging
    {
      stage, document := local_document, local_document;
      pending := true;
      staging := false;
      queued_total := queued_total + 1;
    }

    /** What the control task may do while the consumer is between two accesses. A step that its
        code cannot take at this point is left out. */
    method Producer(step: ProducerStep)
      requires Valid()
      modifies queue, this`writing, this`filled, this`local_write, this`local_sample, this`dropped_full,
               this`dropped_invalid, this`write_index, this`queued_total, this`produced, this`staging,
               this`local_document, this`stage, this`pending, this`document
      ensures Valid()
      ensures old(produced) <= produced
      ensures old(pending) ==> pending && document == old(document)
    {
      match step
      case Begin(sample, granted) => if !writing { BeginEnqueue(sample, granted); }
      case Scribble(garbage) => if writing && !filled { WriteSlot(garbage, false); }
      case Fill => if writing && !filled { WriteSlot(local_sample, true); }
      case Publish => if writing && filled { PublishSample(); }
      case StageBegin(d, granted) => if !staging { BeginStage(d, granted); }
      case StageScribble(garbage) => if staging { WriteStage(garbage); }
      case StagePublish => if staging { PublishStage(); }
    }

    method Producers(steps: seq<ProducerStep>)
      requires Valid()
      modifies queue, this`writing, this`filled, this`local_write, this`local_sample, this`dropped_full,
               this`dropped_invalid, this`write_index, this`queued_total, this`produced, this`staging,
               this`local_document, this`stage, this`pending, this`document
      ensures Valid() && old(produced) <= produced
      ensures old(pending) ==> pending && document == old(document)
    {
      for i := 0 to |steps|
        invariant Valid() && old(produced) <= produced
        invariant old(pending) ==> pending && document == old(document)
      {
        Producer(steps[i]);
      }
    }

    // -------------------------------------------------------------------------
    // The consumer's side
    // -------------------------------------------------------------------------

    /** Which sample the consumer is sending: the staged document or the oldest queued one. */
    ghost function Current(fromStage: bool): Sample
      reads this
      requires if fromStage then pending else consumed < |produced|
    {
      if fromStage then document else produced[consumed]
    }

    /** Offers the current sample to one link. It is read through shared memory, after whatever
        the producer did meanwhile. */
    method OfferTo(i: nat, fromStage: bool, steps: seq<ProducerStep>, accepts: bool, offers: Offers)
      returns (after: Offers)
      requires Valid() && i < LINKS && |offers| == LINKS
      requires if fromStage then pending else consumed < |produced|
      modifies queue, this`writing, this`filled, this`local_write, this`local_sample, this`dropped_full,
               this`dropped_invalid, this`write_index, this`queued_total, this`produced, this`staging,
               this`local_document, this`stage, this`pending, this`document, this`sent_total, this`send_failed
      ensures Valid() && old(produced) <= produced
      ensures if fromStage then pending else consumed < |produced|
      ensures Current(fromStage) == old(Current(fromStage))
      ensures var s := Current(fromStage);
        after == if Wants(links[i], s.topic) then offers[i := offers[i] + [s]] else offers
      ensures sent_total + send_failed - old(sent_total + send_failed) == Total(after) - Total(offers)
      ensures if accepts then send_failed == old(send_failed) else sent_total == old(sent_total)
    {
      Producers(steps);
      after := offers;
      SlotSurvivesWrap(consumed);
      var sample := if fromStage then stage else queue[read_index % CAPACITY];
      if Wants(links[i], sample.topic) {
        after := offers[i := offers[i] + [sample]];
        if accepts { sent_total := sent_total + 1; } else { send_failed := send_failed + 1; }
      }
    }

    /** The target loop: every link gets the current sample exactly if its own table asks for it,
        whatever the other links answered. */
    method OfferToAll(fromStage: bool, world: nat -> seq<ProducerStep>, accepts: nat -> bool, offers: Offers)
      returns (after: Offers)
      requires Valid() && |offers| == LINKS
      requires if fromStage then pending else consumed < |produced|
      modifies queue, this`writing, this`filled, this`local_write, this`local_sample, this`dropped_full,
               this`dropped_invalid, this`write_index, this`queued_total, this`produced, this`staging,
               this`local_document, this`stage, this`pending, this`document, this`sent_total, this`send_failed
      ensures Valid() && old(produced) <= produced
      ensures if fromStage then pending else consumed < |produced|
      ensures Current(fromStage) == old(Current(fromStage))
      ensures Offered(links, offers, [Current(fromStage)], after)
      ensures sent_total + send_failed - old(sent_total + send_failed) == Total(after) - Total(offers)
    {
      after := offers;
      ghost var s := Current(fromStage);
      for i := 0 to LINKS
        invariant Valid() && old(produced) <= produced
        invariant if fromStage then pending else consumed < |produced|
        invariant Current(fromStage) == s && |after| == LINKS
        invariant forall j :: 0 <= j < LINKS ==>
          after[j] == if j < i && Wants(links[j], s.topic) then offers[j] + [s] else offers[j]
        invariant sent_total + send_failed - old(sent_total + send_failed) == Total(after) - Total(offers)
      {
        after := OfferTo(i, fromStage, world(i), accepts(i), after);
      }
      forall j | 0 <= j < LINKS ensures after[j] == offers[j] + Filter(links[j], [s]) {
        FilterOne(links[j], s);
      }
    }

    /** The part of flush for the staged document. */
    method FlushStage(turn: Turn, offers: Offers) returns (taken: bool, after: Offers)
      requires Valid() && |offers| == LINKS
      modifies queue, this`writing, this`filled, this`local_write, this`local_sample, this`dropped_full,
               this`dropped_invalid, this`write_index, this`queued_total, this`produced, this`staging,
               this`local_document, this`stage, this`pending, this`document, this`sent_total, this`send_failed
      ensures Valid() && old(produced) <= produced && taken == old(pending) && |after| == LINKS
      ensures Offered(links, offers, if taken then [old(document)] else [], after)
      ensures sent_total + send_failed - old(sent_total + send_failed) == Total(after) - Total(offers)
    {
      taken, after := pending, offers;
      OfferedNothing(links, offers);
      if taken {
        after := OfferToAll(true, turn.link, turn.accepts, offers);
        Producers(turn.sent);
        pending := false;
      }
    }

    /** One pass of the queue loop of flush: the oldest sample leaves, after all links had their offer. */
    method FlushOne(turn: Turn, offers: Offers) returns (found: bool, after: Offers)
      requires Valid() && |offers| == LINKS
      modifies queue, this`writing, this`filled, this`local_write, this`local_sample, this`dropped_full,
               this`dropped_invalid, this`write_index, this`queued_total, this`produced, this`staging,
               this`local_document, this`stage, this`pending, this`document, this`sent_total, this`send_failed, this`read_index, this`consumed
      ensures Valid() && old(produced) <= produced && |after| == LINKS
      ensures consumed == old(consumed) + if found then 1 else 0
      ensures Offered(links, offers, produced[old(consumed)..consumed], after)
      ensures !found ==> Contents() == []
      ensures sent_total + send_failed - old(sent_total + send_failed) == Total(after) - Total(offers)
    {
      var read := read_index;
      Producers(turn.loaded);
      var write := write_index;
      DistanceSurvivesWrap(|produced|, consumed);
      found, after := read != write, offers;
      if found {
        after := SendOldest(read, turn, offers);
      } else {
        OfferedNothing(links, offers);
      }
    }

    method SendOldest(read: nat, turn: Turn, offers: Offers) returns (after: Offers)
      requires Valid() && |offers| == LINKS && consumed < |produced| && read == read_index
      modifies queue, this`writing, this`filled, this`local_write, this`local_sample, this`dropped_full,
               this`dropped_invalid, this`write_index, this`queued_total, this`produced, this`staging,
               this`local_document, this`stage, this`pending, this`document, this`sent_total, this`send_failed, this`read_index, this`consumed
      ensures Valid() && old(produced) <= produced && |after| == LINKS
      ensures consumed == old(consumed) + 1
      ensures Offered(links, offers, produced[old(consumed)..consumed], after)
      ensures sent_total + send_failed - old(sent_total + send_failed) == Total(after) - Total(offers)
    {
      ghost var s := Current(false);
      after := OfferToAll(false, turn.link, turn.accepts, offers);
      Producers(turn.sent);
      Dequeue(read);
      assert produced[old(consumed)..consumed] == [s];
    }

    /** The release store of read_index_. */
    method Dequeue(read: nat)
      requires Valid() && consumed < |produced| && read == read_index
      modifies this`read_index, this`consumed
      ensures Valid() && consumed == old(consumed) + 1
    {
      SlotSurvivesWrap(consumed);
      read_index := (read + 1) % U32;
      consumed := consumed + 1;
    }

    /** One pass, on top of the samples `moved` since the queue's front was at `base`. */
    method FlushNext(turn: Turn, offers: Offers, ghost base: nat, ghost moved: seq<Sample>, ghost start: Offers)
      returns (found: bool, after: Offers, ghost longer: seq<Sample>)
      requires Valid() && |offers| == LINKS && |start| == LINKS
      requires base <= consumed && moved == produced[base..consumed] && Offered(links, start, moved, offers)
      modifies queue, this`writing, this`filled, this`local_write, this`local_sample, this`dropped_full,
               this`dropped_invalid, this`write_index, this`queued_total, this`produced, this`staging,
               this`local_document, this`stage, this`pending, this`document, this`sent_total, this`send_failed, this`read_index, this`consumed
      ensures Valid() && old(produced) <= produced && |after| == LINKS
      ensures base <= consumed && longer == produced[base..consumed] && Offered(links, start, longer, after)
      ensures |longer| == |moved| + if found then 1 else 0
      ensures !found ==> Contents() == []
      ensures sent_total + send_failed - old(sent_total + send_failed) == Total(after) - Total(offers)
    {
      ghost var was, at := produced, consumed;
      found, after := FlushOne(turn, offers);
      OfferedThen(links, start, moved, offers, produced[at..consumed], after);
      SlicesJoin(was, produced, base, at, consumed);
      longer := moved + produced[at..consumed];
    }

    /** The queue loop of flush, with `budget` samples left to move. */
    method FlushQueue(budget: nat, turns: nat -> Turn, offers: Offers)
      returns (processed: nat, after: Offers, ghost moved: seq<Sample>)
      requires Valid() && |offers| == LINKS
      modifies queue, this`writing, this`filled, this`local_write, this`local_sample, this`dropped_full,
               this`dropped_invalid, this`write_index, this`queued_total, this`produced, this`staging,
               this`local_document, this`stage, this`pending, this`document, this`sent_total, this`send_failed, this`read_index, this`consumed
      ensures Valid() && old(produced) <= produced && |after| == LINKS
      ensures old(consumed) <= consumed && moved == produced[old(consumed)..consumed]
      ensures Offered(links, offers, moved, after)
      ensures processed == |moved| <= budget && (processed < budget ==> Contents() == [])
      ensures sent_total + send_failed - old(sent_total + send_failed) == Total(after) - Total(offers)
    {
      processed, after, moved := 0, offers, [];
      ghost var base := consumed;
      OfferedNothing(links, offers);
      while processed < budget
        invariant Valid() && old(produced) <= produced && |after| == LINKS
        invariant base <= consumed && moved == produced[base..consumed]
        invariant processed == |moved| <= budget && Offered(links, offers, moved, after)
        invariant sent_total + send_failed - old(sent_total + send_failed) == Total(after) - Total(offers)
      {
        var found;
        found, after, moved := FlushNext(turns(processed), after, base, moved, offers);
        if !found { break; }
        processed := processed + 1;
      }
    }

    /** flush: every link is offered exactly the samples its own table asks for, in queue order and
        once each, and every offer is counted as sent or failed. */
    method Flush(max_samples: nat, stage_turn: Turn, turns: nat -> Turn)
      returns (processed: nat, offers: Offers, ghost documents: seq<Sample>, ghost moved: seq<Sample>)
      requires Valid()
      modifies queue, this`writing, this`filled, this`local_write, this`local_sample, this`dropped_full,
               this`dropped_invalid, this`write_index, this`queued_total, this`produced, this`staging,
               this`local_document, this`stage, this`pending, this`document, this`sent_total, this`send_failed, this`read_index, this`consumed
      ensures Valid() && old(produced) <= produced && |offers| == LINKS
      ensures old(consumed) <= consumed && moved == produced[old(consumed)..consumed]
      ensures documents ==
        if (links[0].endpoint || links[0].table.Some? || links[1].endpoint || links[2].endpoint || links[3].endpoint)
           && max_samples > 0 && old(pending)
        then [old(document)] else []
      ensures Offered(links, NoOffers, documents + moved, offers)
      ensures forall i :: 0 <= i < LINKS ==> Served(links[i], documents + moved, offers[i])
      ensures processed == |documents| + |moved| <= max_samples
      ensures links[0].endpoint || links[0].table.Some? || links[1].endpoint || links[2].endpoint || links[3].endpoint ==>
        processed == max_samples || Contents() == []
      ensures sent_total + send_failed == old(sent_total + send_failed) + Total(offers)
    {
      processed, offers, documents, moved := 0, NoOffers, [], [];
      OfferedNothing(links, offers);
      if AnyTarget(links) && max_samples > 0 {
        var taken, queued;
        taken, offers := FlushStage(stage_turn, offers);
        documents := if taken then [old(document)] else [];
        processed := if taken then 1 else 0;
        ghost var sofar := offers;
        queued, offers, moved := FlushQueue(max_samples - processed, turns, offers);
        OfferedThen(links, NoOffers, documents, sofar, moved, offers);
        processed := processed + queued;
      }
      AllServed(links, documents + moved, offers);
    }

    // -------------------------------------------------------------------------
    // Whole runs
    // -------------------------------------------------------------------------

    /** Over any producer steps and flushes, with producers at work inside the flushes too: the queued samples
        leave in the order they were queued, each once, none is skipped, and each link is offered exactly
        those of them, and of the documents that go before each flush's samples, that its own table asks
        for, in order; every offer is counted. */
    method Run(activities: seq<Activity>) returns (offers: Offers, ghost documents: seq<seq<Sample>>, ghost moves: seq<seq<Sample>>)
      requires Valid()
      modifies queue, this`writing, this`filled, this`local_write, this`local_sample, this`dropped_full,
               this`dropped_invalid, this`write_index, this`queued_total, this`produced, this`staging,
               this`local_document, this`stage, this`pending, this`document, this`sent_total, this`send_failed, this`read_index, this`consumed
      ensures Valid() && old(produced) <= produced && old(consumed) <= consumed
      ensures |documents| == |moves| && forall k :: 0 <= k < |documents| ==> |documents[k]| <= 1
      ensures Flatten(moves) == produced[old(consumed)..consumed]
      ensures Offered(links, NoOffers, Flatten(Rounds(documents, moves)), offers)
      ensures forall i :: 0 <= i < LINKS ==> Served(links[i], Flatten(Rounds(documents, moves)), offers[i])
      ensures sent_total + send_failed == old(sent_total + send_failed) + Total(offers)
    {
      offers, documents, moves := Perform(activities);
      AllServed(links, Flatten(Rounds(documents, moves)), offers);
    }

    method Perform(activities: seq<Activity>) returns (offers: Offers, ghost documents: seq<seq<Sample>>, ghost moves: seq<seq<Sample>>)
      requires Valid()
      modifies queue, this`writing, this`filled, this`local_write, this`local_sample, this`dropped_full,
               this`dropped_invalid, this`write_index, this`queued_total, this`produced, this`staging,
               this`local_document, this`stage, this`pending, this`document, this`sent_total, this`send_failed, this`read_index, this`consumed
      ensures Valid() && old(produced) <= produced && old(consumed) <= consumed
      ensures |documents| == |moves| && forall k :: 0 <= k < |documents| ==> |documents[k]| <= 1
      ensures Flatten(moves) == produced[old(consumed)..consumed]
      ensures Offered(links, NoOffers, Flatten(Rounds(documents, moves)), offers)
      ensures sent_total + send_failed == old(sent_total + send_failed) + Total(offers)
    {
      offers, documents, moves := NoOffers, [], [];
      OfferedNothing(links, offers);
      var i := 0;
      while i < |activities|
        invariant i <= |activities| && Valid() && old(produced) <= produced && old(consumed) <= consumed
        invariant Booked(links, produced[old(consumed)..consumed], offers, documents, moves)
        invariant sent_total + send_failed == old(sent_total + send_failed) + Total(offers)
      {
        match activities[i] {
          case Produce(step) =>
            ghost var was := produced;
            Producer(step);
            SlicesJoin(was, produced, old(consumed), consumed, consumed);
          case FlushNow(max_samples, stage_turn, turns) =>
            offers, documents, moves := FlushRound(max_samples, stage_turn, turns, old(consumed), offers, documents, moves);
        }
        i := i + 1;
      }
    }

    method FlushRound(max_samples: nat, stage_turn: Turn, turns: nat -> Turn, ghost base: nat,
                      offers: Offers, ghost documents: seq<seq<Sample>>, ghost moves: seq<seq<Sample>>)
      returns (after: Offers, ghost documents': seq<seq<Sample>>, ghost moves': seq<seq<Sample>>)
      requires Valid() && base <= consumed && Booked(links, produced[base..consumed], offers, documents, moves)
      modifies queue, this`writing, this`filled, this`local_write, this`local_sample, this`dropped_full,
               this`dropped_invalid, this`write_index, this`queued_total, this`produced, this`staging,
               this`local_document, this`stage, this`pending, this`document, this`sent_total, this`send_failed, this`read_index, this`consumed
      ensures Valid() && old(produced) <= produced && base <= consumed
      ensures Booked(links, produced[base..consumed], after, documents', moves')
      ensures sent_total + send_failed - old(sent_total + send_failed) == Total(after) - Total(offers)
    {
      ghost var was, at := produced, consumed;
      var processed, more;
      ghost var ds, ms;
      processed, more, ds, ms := Flush(max_samples, stage_turn, turns);
      BookedMore(links, was[base..at], offers, documents, moves, ds, ms, more);
      after := Together(offers, more);
      documents', moves' := documents + [ds], moves + [ms];
      SlicesJoin(was, produced, base, at, consumed);
    }
  }

  /** Each flush moves its document first and then its samples. */
  ghost function Rounds(documents: seq<seq<Sample>>, moves: seq<seq<Sample>>): (rounds: seq<seq<Sample>>)
    requires |documents| == |moves|
    ensures |rounds| == |moves|
  {
    seq(|moves|, k requires 0 <= k < |moves| => documents[k] + moves[k])
  }

  function Together(a: Offers, b: Offers): Offers
    requires |a| == |b| == LINKS
  {
    [a[0] + b[0], a[1] + b[1], a[2] + b[2], a[3] + b[3]]
  }

  /** Flush by flush, the samples `gone` have left the queue and the links were offered what they want. */
  ghost predicate Booked(links: seq<Target>, gone: seq<Sample>, offers: Offers,
                         documents: seq<seq<Sample>>, moves: seq<seq<Sample>>) {
    && |links| == |offers| == LINKS
    && |documents| == |moves| && (forall k :: 0 <= k < |documents| ==> |documents[k]| <= 1)
    && Flatten(moves) == gone
    && Offered(links, NoOffers, Flatten(Rounds(documents, moves)), offers)
  }

  lemma BookedMore(links: seq<Target>, gone: seq<Sample>, offers: Offers, documents: seq<seq<Sample>>,
                   moves: seq<seq<Sample>>, ds: seq<Sample>, ms: seq<Sample>, more: Offers)
    requires Booked(links, gone, offers, documents, moves) && |ds| <= 1 && Offered(links, NoOffers, ds + ms, more)
    ensures Booked(links, gone + ms, Together(offers, more), documents + [ds], moves + [ms])
    ensures Total(Together(offers, more)) == Total(offers) + Total(more)
  {
    var all := Flatten(Rounds(documents, moves));
    assert Rounds(documents + [ds], moves + [ms]) == Rounds(documents, moves) + [ds + ms];
    FlattenSnoc(Rounds(documents, moves), ds + ms);
    FlattenSnoc(moves, ms);
    forall i | 0 <= i < LINKS ensures Together(offers, more)[i] == NoOffers[i] + Filter(links[i], all + (ds + ms)) {
      FilterAppend(links[i], all, ds + ms);
      assert NoOffers[i] == [];
    }
  }

  /** Over successive flushes a link that stays as it is gets the samples it wants out of all that
      left the queue, as if one flush had moved them. */
  lemma FlushesAddUp(target: Target, produced: seq<Sample>, a: nat, b: nat, c: nat)
    requires a <= b <= c <= |produced|
    ensures Filter(target, produced[a..b]) + Filter(target, produced[b..c]) == Filter(target, produced[a..c])
  {
    FilterAppend(target, produced[a..b], produced[b..c]);
    assert produced[a..b] + produced[b..c] == produced[a..c];
  }
}
