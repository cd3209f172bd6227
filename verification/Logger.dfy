/** The retained log: a byte ring with one write end, an SD cursor and a radio cursor.
    Producers insert at every point where a consumer has released the mutex; those inserts,
    lock time-outs and the answers of the radio and the card come from the `world` arguments. */
module Logger {
  import opened Common
  import opened LogRing
  import opened LogFile

  /** kBtpAeadTagSize. */
  const TAG := 16

  type u64 = x: nat | x < U64

  /** One insert_log call. `grant` is the answer of reserve_sequence: a refusal, or how many
      numbers other users of the endpoint took since the previous reservation. */
  datatype Request = Request(data: seq<byte>, kind: byte, timestamp: u64, grant: Option<nat>)

  /** What happens around one radio chunk. */
  datatype Turn = Turn(lock: bool, before: seq<Request>, grant: Option<nat>, radio: bool, after: seq<Request>)

  /** Inserts at the three kinds of points where one flush_logs_to pass waits for the mutex. */
  datatype CardTurn = CardTurn(before: seq<Request>, fragment: nat -> Gap, after: seq<Request>)

  /** What happens before the SD flush takes the mutex again, and the answer to the next frame. */
  datatype Gap = Gap(inserts: seq<Request>, written: bool)

  function StoredLength(size: nat): nat {
    if size > MAX_LOGICAL then MAX_LOGICAL else size
  }

  function Granted(next: nat, grant: Option<nat>): Option<nat> {
    match grant
    case None => None
    case Some(skip) => if next + skip < U32 then Some(next + skip) else None
  }

  /** The record an insert adds, if it adds one. */
  function Accepted(q: Request, endpoint: bool, free: nat, next: nat): (added: seq<Record>)
    requires next <= U32
    ensures AllWellFormed(added) && |added| <= 1
    ensures added != [] ==> next <= added[0].sequence < U32
  {
    var number := Granted(next, q.grant);
    if q.data == [] || !endpoint || free < HEADER + StoredLength(|q.data|) || number == None then []
    else [Record(q.timestamp, number.value, q.kind, q.data[..StoredLength(|q.data|)])]
  }

  /** 53550 octets are 255 fragments of 210, the most a record may be cut into. */
  lemma AcceptedInWords(q: Request, endpoint: bool, free: nat, next: nat, kept: seq<byte>)
    requires next <= U32 && kept == if |q.data| <= 53550 then q.data else q.data[..53550]
    ensures Accepted(q, endpoint, free, next) ==
      if endpoint && q.grant.Some? && next + q.grant.value < 0x1_0000_0000 && kept != [] && 16 + |kept| <= free
      then [Record(q.timestamp, next + q.grant.value, q.kind, kept)]
      else []
  {
    assert kept == q.data[..StoredLength(|q.data|)];
  }

  /** A gap or a card flush pass in which no producer gets the mutex. */
  ghost predicate QuietGaps(world: nat -> Gap) {
    forall k: nat :: world(k).inserts == []
  }

  ghost predicate Quiet(turn: CardTurn) {
    turn.before == [] && turn.after == [] && QuietGaps(turn.fragment)
  }

  ghost predicate AllQuiet(world: nat -> CardTurn) {
    forall k: nat :: Quiet(world(k))
  }

  /** Subtraction of unsigned 32-bit numbers. */
  function Minus32(x: nat, y: nat): nat
    requires y <= U32
  {
    if y <= x then x - y else x + U32 - y
  }

  /** A card flush: whether a record was half-sent when it began, how many records the radio was done
      with then, and how many it released. */
  datatype CardFlush = CardFlush(half_sent: bool, sent: nat, released: nat)

  /** It released the half-sent record. */
  predicate GotPast(f: CardFlush) {
    f.half_sent && f.released > f.sent
  }

  datatype Event =
    | Insert(request: Request)
    | FlushToRadio(lock: bool, turns: nat -> Turn)
    | FlushToCard(lock: bool, card_turns: nat -> CardTurn)

  class Logger {
    const capacity: nat
    var storage: array<byte>
    var endpoint: bool
    var sealed: bool
    var max_chunks_per_flush: nat
    var block_size: nat
    var write_offset: nat
    var read_offset: nat
    var used_bytes: nat
    var send_offset: nat
    var pending_send_bytes: nat
    var send_record_active: bool
    var send_header: Header
    var send_record_bytes_done: nat
    var consumer_busy: bool
    /** The endpoint's counter: the smallest number not handed out yet. */
    var nextSequence: nat

    ghost var ring: seq<byte>       // the content of storage
    ghost var records: seq<Record>  // retained, oldest first
    ghost var radio: seq<Chunk>     // every chunk the radio ever accepted
    ghost var history: seq<Record>  // every record the radio ever completed
    /** How many retained records the radio is done with, and the card flushes: kept for the theorems. */
    var sent: nat
    var flushes: seq<CardFlush>

    function Offsets(): Cursors
      reads this
    {
      Cursors(write_offset, read_offset, used_bytes, send_offset, pending_send_bytes)
    }

    function RadioProgress(): Progress
      reads this
    {
      Progress(send_record_active, send_header, send_record_bytes_done)
    }

    ghost function Log(): RadioLog
      reads this
    {
      RadioLog(records, sent, radio, history)
    }

    /** Holds after every step of every task, whatever the interleaving. */
    ghost predicate Valid()
      reads this, storage
    {
      && storage.Length == capacity < U32 && storage[..] == ring
      && Layout(ring, Offsets(), records, sent)
      && nextSequence <= U32
      && Numbered(records, 0, nextSequence)
    }

    /** Holds as well, as long as no SD flush went past a half-sent record. */
    ghost predicate RadioSound()
      reads this, storage
    {
      Valid() && Delivered(radio, history, records, sent, RadioProgress(), nextSequence)
    }

    constructor (capacity: nat)
      requires 0 < capacity < U32
      ensures RadioSound() && records == [] && radio == [] && flushes == [] && nextSequence == 0 && !consumer_busy && !send_record_active
      ensures this.capacity == capacity && fresh(this) && fresh(storage) && !endpoint && !sealed
    {
      this.capacity := capacity;
      storage := new byte[capacity](_ => 0);
      endpoint, sealed := false, false;
      max_chunks_per_flush, block_size := 10, 16;
      write_offset, read_offset, used_bytes := 0, 0, 0;
      send_offset, pending_send_bytes := 0, 0;
      send_record_active, send_header, send_record_bytes_done := false, Header(0, 0, 0, 0), 0;
      consumer_busy, nextSequence := false, 0;
      ring := seq(capacity, _ => 0);
      records, radio, history := [], [], [];
      sent, flushes := 0, [];
    }

    /** From now on there is an endpoint to number, send and encode with. */
    method BindEndpoint()
      requires RadioSound()
      modifies this`endpoint
      ensures RadioSound() && endpoint
    {
      endpoint := true;
    }

    method Reserve(grant: Option<nat>) returns (number: Option<nat>)
      requires nextSequence <= U32
      modifies this`nextSequence
      ensures number == Granted(old(nextSequence), grant)
      ensures nextSequence == if number == None then old(nextSequence) else number.value + 1
    {
      number := Granted(nextSequence, grant);
      if number.Some? { nextSequence := number.value + 1; }
    }

    // -------------------------------------------------------------------------
    // Ring access; the caller holds the mutex
    // -------------------------------------------------------------------------

    method WriteToRing(source: seq<byte>)
      requires storage.Length == capacity && write_offset < capacity && |source| <= capacity
      modifies storage, this`write_offset
      ensures storage[..] == Overwrite(old(storage[..]), old(write_offset), source)
      ensures write_offset == Wrap(old(write_offset), |source|, capacity)
    {
      if source == [] { return; }
      var contiguous := capacity - write_offset;
      var first := if |source| < contiguous then |source| else contiguous;
      forall i | 0 <= i < first { storage[write_offset + i] := source[i]; }
      if |source| > first {
        forall i | 0 <= i < |source| - first { storage[i] := source[first + i]; }
      }
      WrapIsModulo(write_offset, |source|, capacity);
      write_offset := (write_offset + |source|) % capacity;
    }

    method ReadFromRing(offset: nat, size: nat) returns (bytes: seq<byte>)
      requires storage.Length == capacity && offset < capacity && size <= capacity
      ensures bytes == Slice(storage[..], offset, size)
    {
      if size == 0 { return []; }
      var contiguous := capacity - offset;
      var first := if size < contiguous then size else contiguous;
      bytes := storage[offset..offset + first];
      if size > first { bytes := bytes + storage[..size - first]; }
    }

    method ReadHeaderAt(offset: nat, available: nat) returns (header: Option<Header>)
      requires storage.Length == capacity && offset < capacity && available <= capacity
      ensures header == if available < HEADER then None
                        else HeaderWithin(Slice(storage[..], offset, HEADER), available)
    {
      if available < HEADER { return None; }
      var bytes := ReadFromRing(offset, HEADER);
      var h := DecodeHeader(bytes);
      var size := HEADER + h.length;
      header := if h.length > 0 && size <= available && size <= capacity then Some(h) else None;
    }

    // -------------------------------------------------------------------------
    // Producers
    // -------------------------------------------------------------------------

    method WriteBoth(header: Header, payload: seq<byte>)
      requires storage.Length == capacity && write_offset < capacity && HEADER + |payload| <= capacity
      modifies storage, this`write_offset
      ensures storage[..] == Overwrite(old(storage[..]), old(write_offset), EncodeHeader(header) + payload)
      ensures write_offset == Wrap(old(write_offset), HEADER + |payload|, capacity)
    {
      OverwriteTwice(storage[..], write_offset, EncodeHeader(header), payload);
      WriteToRing(EncodeHeader(header));
      WriteToRing(payload);
    }

    /** The accounting around the two writes of insert_log_impl. */
    method StoreRecord(header: Header, payload: seq<byte>, ghost r: Record)
      requires storage.Length == capacity && storage[..] == ring && Layout(ring, Offsets(), records, sent)
      requires r.WellFormed() && header == r.Head() && payload == r.payload
      requires used_bytes + HEADER + |payload| <= capacity
      modifies storage, this`write_offset, this`used_bytes, this`pending_send_bytes, this`records, this`ring
      ensures storage[..] == ring && Layout(ring, Offsets(), records, sent) && records == old(records) + [r]
    {
      LayoutInsert(ring, Offsets(), records, sent, r);
      WriteBoth(header, payload);
      ring := Overwrite(ring, old(write_offset), Encode(r));
      used_bytes := used_bytes + (HEADER + |payload|);
      pending_send_bytes := pending_send_bytes + (HEADER + |payload|);
      records := records + [r];
    }

    /** The part of insert_log_impl behind the space checks. */
    method NumberAndStore(q: Request, stored_length: nat) returns (ghost added: seq<Record>)
      requires Valid() && endpoint && 0 < stored_length == StoredLength(|q.data|)
      requires HEADER + stored_length <= capacity - used_bytes
      modifies storage, this`ring, this`write_offset, this`used_bytes, this`pending_send_bytes,
               this`nextSequence, this`records
      ensures Valid() && Joined(old(Log()), old(nextSequence), Log(), nextSequence, added)
      ensures added == Accepted(q, endpoint, capacity - old(used_bytes), old(nextSequence))
      ensures nextSequence == if added == [] then old(nextSequence) else added[0].sequence + 1
    {
      added := Accepted(q, endpoint, capacity - used_bytes, nextSequence);
      var number := Reserve(q.grant);
      if number.None? { return; }
      var header := Header(q.timestamp, number.value, stored_length, q.kind);
      ghost var r := Record(q.timestamp, number.value, q.kind, q.data[..stored_length]);
      assert added == [r];
      KeepRecord(header, q.data[..stored_length], r, old(nextSequence));
    }

    /** Stores the record under the number just reserved for it. */
    method KeepRecord(header: Header, payload: seq<byte>, ghost r: Record, ghost next: nat)
      requires storage.Length == capacity < U32 && storage[..] == ring && Layout(ring, Offsets(), records, sent)
      requires Numbered(records, 0, next) && next <= r.sequence && nextSequence == r.sequence + 1 <= U32
      requires r.WellFormed() && header == r.Head() && payload == r.payload
      requires used_bytes + HEADER + |payload| <= capacity
      modifies storage, this`ring, this`write_offset, this`used_bytes, this`pending_send_bytes, this`records
      ensures Valid() && records == old(records) + [r] && Numbered([r], next, nextSequence)
    {
      OneNumbered(records, r, next);
      StoreRecord(header, payload, r);
    }

    /** insert_log_impl: keeps the new record or refuses it; never touches an older one. */
    method InsertLog(q: Request) returns (ghost added: seq<Record>)
      requires Valid()
      modifies storage, this`ring, this`write_offset, this`used_bytes, this`pending_send_bytes,
               this`nextSequence, this`records
      ensures var kept := if |q.data| <= 53550 then q.data else q.data[..53550];
        records ==
          if endpoint && q.grant.Some? && old(nextSequence) + q.grant.value < 0x1_0000_0000
             && kept != [] && 16 + |kept| <= capacity - old(used_bytes)
          then old(records) + [Record(q.timestamp, old(nextSequence) + q.grant.value, q.kind, kept)]
          else old(records)
      ensures Valid() && Joined(old(Log()), old(nextSequence), Log(), nextSequence, added)
      ensures added == Accepted(q, endpoint, capacity - old(used_bytes), old(nextSequence))
      ensures nextSequence == if added == [] then old(nextSequence) else added[0].sequence + 1
      ensures old(RadioSound()) ==> RadioSound()
    {
      added := [];
      AcceptedInWords(q, endpoint, capacity - used_bytes, nextSequence,
                      if |q.data| <= 53550 then q.data else q.data[..53550]);
      if |q.data| == 0 || !endpoint { return; }
      var stored_length := if |q.data| > MAX_LOGICAL then MAX_LOGICAL else |q.data|;
      var required := HEADER + stored_length;
      if required > capacity { return; }
      if capacity - used_bytes < required { return; }
      ghost var log, next, sound := Log(), nextSequence, RadioSound();
      added := NumberAndStore(q, stored_length);
      if sound { DeliveredInsert(radio, history, log.records, sent, RadioProgress(), next, added, nextSequence); }
    }

    /** Since the log was `base` and the next number `low`, only `added` has joined. */
    ghost predicate OnlyJoined(base: RadioLog, low: nat, added: seq<Record>)
      reads this
    {
      Joined(base, low, Log(), nextSequence, added)
    }

    /** The producers that get the mutex while a consumer does not hold it. */
    method Producers(requests: seq<Request>, ghost base: RadioLog, ghost low: nat, ghost before: seq<Record>)
      returns (ghost added: seq<Record>)
      requires Valid() && OnlyJoined(base, low, before)
      modifies storage, this`ring, this`write_offset, this`used_bytes, this`pending_send_bytes,
               this`nextSequence, this`records
      ensures Valid() && OnlyJoined(base, low, added)
      ensures requests == [] ==> added == before && nextSequence == old(nextSequence)
    {
      added := before;
      for i := 0 to |requests|
        invariant Valid() && OnlyJoined(base, low, added)
        invariant i == 0 ==> added == before && nextSequence == old(nextSequence)
      {
        ghost var log, next := Log(), nextSequence;
        ghost var more := InsertLog(requests[i]);
        JoinedTransitive(base, low, log, next, Log(), nextSequence, added, more);
        added := added + more;
      }
    }

    // -------------------------------------------------------------------------
    // Radio consumer
    // -------------------------------------------------------------------------

    method BeginConsumer(lock: bool) returns (began: bool)
      modifies this`consumer_busy
      ensures began == (lock && !old(consumer_busy))
      ensures consumer_busy == (old(consumer_busy) || began)
    {
      if !lock { return false; }
      if consumer_busy { return false; }
      consumer_busy := true;
      began := true;
    }

    /** The header of the record at the send cursor. */
    method PeekRecord() returns (found: Option<Header>)
      requires RadioSound() && sent < |records|
      ensures found == Some(records[sent].Head()) && records[sent].WellFormed()
    {
      UnsentBytes(ring, Offsets(), records, sent);
      AllWellFormedSuffix(records, sent);
      HeaderAtCursor(ring, send_offset, pending_send_bytes, records[sent..]);
      found := ReadHeaderAt(send_offset, pending_send_bytes);
    }

    /** Takes up the record at the send cursor, unless one is half-sent already. */
    method TakeUpRecord() returns (ready: bool)
      requires RadioSound() && sent < |records|
      modifies this`send_record_active, this`send_header, this`send_record_bytes_done
      ensures ready && RadioSound() && send_record_active
      ensures old(send_record_active) ==> RadioProgress() == old(RadioProgress())
      ensures !old(send_record_active) ==> send_record_bytes_done == 0
    {
      ready := true;
      if !send_record_active {
        var found := PeekRecord();
        if found.None? {
          ready := false;
        } else {
          send_record_active, send_header, send_record_bytes_done := true, found.value, 0;
          assert Label(records[sent].payload[..0], records[sent].kind, records[sent].timestamp) == [];
        }
      }
    }

    /** Copies what stands where the remembered header puts the next chunk. */
    method CopyNext() returns (size: nat, payload: seq<byte>)
      requires storage.Length == capacity && send_offset < capacity && send_record_active
      requires send_record_bytes_done < send_header.length && HEADER + send_header.length <= capacity
      ensures size == Min(send_header.length - send_record_bytes_done, if sealed then 194 else 210)
      ensures Stride() == if sealed then 194 else 210
      ensures payload == Slice(storage[..], Wrap(send_offset, HEADER + send_record_bytes_done, capacity), size)
    {
      var stride := if sealed then MAX_PAYLOAD - TAG else MAX_PAYLOAD;
      var payload_offset := send_record_bytes_done;
      var remaining := send_header.length - payload_offset;
      size := if remaining < stride then remaining else stride;
      WrapIsModulo(send_offset, HEADER + payload_offset, capacity);
      payload := ReadFromRing((send_offset + HEADER + payload_offset) % capacity, size);
    }

    /** How much of a record fits one chunk. */
    function Stride(): nat
      reads this
    {
      if sealed then MAX_PAYLOAD - TAG else MAX_PAYLOAD
    }

    /** As long as that is the record at the send cursor, it is its next chunk. */
    method CopyChunk() returns (size: nat, payload: seq<byte>)
      requires RadioSound() && send_record_active
      ensures ChunkReady(size, payload)
    {
      CursorFits(ring, Offsets(), records, sent);
      size, payload := CopyNext();
      ChunkAtCursor(ring, Offsets(), records, sent, RadioProgress(), Stride(), size);
    }

    /** The locked first half of one flush_logs pass: chooses the next chunk and copies it. */
    method NextChunk() returns (size: nat, payload: seq<byte>)
      requires RadioSound()
      modifies this`send_record_active, this`send_header, this`send_record_bytes_done
      ensures RadioSound()
      ensures size == 0 <==> old(sent == |records| || !endpoint)
      ensures size > 0 ==> ChunkReady(size, payload)
      ensures size > 0 && !old(send_record_active) ==> send_record_bytes_done == 0
    {
      size, payload := 0, [];
      UnsentSize();
      if pending_send_bytes == 0 || !endpoint { return; }
      var ready := TakeUpRecord();
      if !ready { return; }
      size, payload := CopyChunk();
    }

    lemma AtCursor()
      requires RadioSound() && send_record_active
      ensures sent < |records| && send_header == records[sent].Head()
    {
    }

    lemma UnsentSize()
      requires Valid()
      ensures pending_send_bytes == 0 <==> sent == |records|
    {
    }

    /** `payload` is the next part of the record at the send cursor and fits one frame. */
    ghost predicate ChunkReady(size: nat, payload: seq<byte>)
      reads this
    {
      ReadyChunk(records, sent, RadioProgress(), Stride(), size, payload)
    }

    /** The number the chunk goes out under: the record's own for its first chunk, else a new one. */
    method ChunkNumber(grant: Option<nat>, ghost size: nat, ghost payload: seq<byte>,
                       ghost base: RadioLog, ghost low: nat, ghost added: seq<Record>)
      returns (number: Option<nat>)
      requires RadioSound() && ChunkReady(size, payload) && OnlyJoined(base, low, added)
      modifies this`nextSequence
      ensures RadioSound() && ChunkReady(size, payload) && OnlyJoined(base, low, added)
      ensures number.Some? ==> FreeNumber(number.value, radio, records, sent, nextSequence)
      ensures number.None? ==> Granted(nextSequence, grant) == None
      ensures send_record_bytes_done == 0 ==> number == Some(send_header.sequence) && nextSequence == old(nextSequence)
      ensures send_record_bytes_done != 0 ==> number == Granted(old(nextSequence), grant)
    {
      ghost var next := nextSequence;
      number := Some(send_header.sequence);
      if send_record_bytes_done != 0 {
        number := Reserve(grant);
        NumberedWiden(added, low, next, low, nextSequence);
        NumberedWiden(records, 0, next, 0, nextSequence);
        DistinctChunksWiden(radio, next, nextSequence);
        if number.Some? { NewNumberFree(radio, records, sent, next, number.value, nextSequence); }
      } else {
        OwnNumberFree(radio, history, records, sent, RadioProgress(), nextSequence);
      }
    }

    /** Inserts while the radio consumer holds a copied chunk and perhaps a number for it. */
    method ProducersMeanwhile(requests: seq<Request>, size: nat, payload: seq<byte>, ghost number: Option<nat>)
      returns (ghost added: seq<Record>)
      requires RadioSound() && ChunkReady(size, payload)
      requires number.Some? ==> FreeNumber(number.value, radio, records, sent, nextSequence)
      modifies storage, this`ring, this`write_offset, this`used_bytes, this`pending_send_bytes,
               this`nextSequence, this`records
      ensures RadioSound() && ChunkReady(size, payload) && Joined(old(Log()), old(nextSequence), Log(), nextSequence, added)
      ensures number.Some? ==> FreeNumber(number.value, radio, records, sent, nextSequence)
    {
      Assoc(records, [], []);
      ghost var log, next := Log(), nextSequence;
      added := Producers(requests, log, next, []);
      ReadyInsert(log, RadioProgress(), next, Log(), nextSequence, added, Stride(), size, payload, number);
    }

    method ProducersDuringFlush(requests: seq<Request>, size: nat, payload: seq<byte>, ghost number: Option<nat>,
                                ghost base: RadioLog, ghost low: nat, ghost before: seq<Record>)
      returns (ghost added: seq<Record>)
      requires RadioSound() && ChunkReady(size, payload) && OnlyJoined(base, low, before)
      requires number.Some? ==> FreeNumber(number.value, radio, records, sent, nextSequence)
      modifies storage, this`ring, this`write_offset, this`used_bytes, this`pending_send_bytes,
               this`nextSequence, this`records
      ensures RadioSound() && ChunkReady(size, payload) && OnlyJoined(base, low, added)
      ensures number.Some? ==> FreeNumber(number.value, radio, records, sent, nextSequence)
    {
      ghost var log, next := Log(), nextSequence;
      ghost var more := ProducersMeanwhile(requests, size, payload, number);
      JoinedTransitive(base, low, log, next, Log(), nextSequence, before, more);
      added := before + more;
    }

    /** The locked second half: the chunk went out under `sequence`; moves the cursor over it. */
    method CommitChunk(size: nat, payload: seq<byte>, sequence: nat) returns (ghost whole: bool)
      requires RadioSound() && ChunkReady(size, payload)
      requires FreeNumber(sequence, radio, records, sent, nextSequence)
      modifies this`send_offset, this`pending_send_bytes, this`send_record_active, this`send_header,
               this`send_record_bytes_done, this`sent, this`radio, this`history
      ensures RadioSound() && RadioProgress() == Advanced(old(RadioProgress()), size)
      ensures whole == old(send_record_bytes_done + size == send_header.length)
      ensures Log() == Passed(old(Log()), [], Some(Chunk(sequence, old(send_header).timestamp, old(send_header).kind, payload)), whole)
    {
      ghost var chunk := Chunk(sequence, send_header.timestamp, send_header.kind, payload);
      whole := send_record_bytes_done + size == send_header.length;
      DeliveredPassed(Log(), RadioProgress(), nextSequence, chunk, size, whole);
      if send_record_bytes_done + size >= send_header.length {
        CommitLast(size, chunk);
      } else {
        CommitPart(size, chunk);
      }
    }

    method CommitPart(size: nat, ghost chunk: Chunk)
      requires Valid() && sent < |records| && send_record_bytes_done + size < send_header.length
      modifies this`send_record_bytes_done, this`radio
      ensures Valid() && Log() == Passed(old(Log()), [], Some(chunk), false)
      ensures RadioProgress() == Advanced(old(RadioProgress()), size)
    {
      Assoc(records, [], []);
      send_record_bytes_done := send_record_bytes_done + size;
      radio := radio + [chunk];
    }

    method CommitLast(size: nat, ghost chunk: Chunk)
      requires Valid() && sent < |records| && send_header.length == |records[sent].payload|
      modifies this`send_offset, this`pending_send_bytes, this`send_record_active, this`send_header,
               this`send_record_bytes_done, this`sent, this`radio, this`history
      ensures Valid() && RadioProgress() == Idle && Log() == Passed(old(Log()), [], Some(chunk), true)
    {
      Assoc(records, [], []);
      send_record_bytes_done := send_record_bytes_done + size;
      radio := radio + [chunk];
      FinishRecord();
    }

    /** Moves the send cursor by the size of the remembered record and forgets it. */
    method MoveOn(record_size: nat)
      requires send_offset < capacity && record_size <= capacity < U32
      modifies this`send_offset, this`pending_send_bytes, this`send_record_active, this`send_header, this`send_record_bytes_done
      ensures send_offset == Wrap(old(send_offset), record_size, capacity) && RadioProgress() == Idle
      ensures pending_send_bytes == Minus32(old(pending_send_bytes), record_size)
    {
      WrapIsModulo(send_offset, record_size, capacity);
      send_offset := (send_offset + record_size) % capacity;
      pending_send_bytes := Minus32(pending_send_bytes, record_size);
      send_record_active, send_header, send_record_bytes_done := false, Header(0, 0, 0, 0), 0;
    }

    /** The record at the send cursor has gone out completely. */
    method FinishRecord()
      requires Valid() && sent < |records| && send_header.length == |records[sent].payload|
      modifies this`send_offset, this`pending_send_bytes, this`send_record_active, this`send_header,
               this`send_record_bytes_done, this`sent, this`history
      ensures Valid() && RadioProgress() == Idle
      ensures sent == old(sent) + 1 && history == old(history) + [records[old(sent)]]
    {
      var record_size := HEADER + send_header.length;
      LayoutSend(ring, Offsets(), records, sent);
      MoveOn(record_size);
      history := history + [records[sent]];
      sent := sent + 1;
    }

    /** What the reason given for stopping says about the world and the ring. */
    ghost predicate Explains(stop: Stop, turn: Turn)
      reads this
    {
      match stop
      case Busy => false
      case NoLock => !turn.lock
      case Drained => sent == |records| || !endpoint
      case NoNumber => Granted(nextSequence, turn.grant) == None
      case Refused => !turn.radio
    }

    lemma StopReason(stop: Stop, turn: Turn)
      requires Explains(stop, turn)
      ensures || !turn.lock || !turn.radio || !endpoint || sent == |records|
              || turn.grant == None || nextSequence + turn.grant.value >= 0x1_0000_0000
    {
    }

    /** The part of a flush_logs pass behind the first locked section. */
    method SendCopied(turn: Turn, size: nat, payload: seq<byte>)
      returns (ghost added: seq<Record>, ghost out: Option<Chunk>, ghost whole: bool, go_on: bool, ghost stop: Stop)
      requires RadioSound() && ChunkReady(size, payload)
      modifies storage, this`ring, this`write_offset, this`used_bytes, this`pending_send_bytes,
               this`nextSequence, this`records, this`send_offset, this`send_record_active, this`send_header,
               this`send_record_bytes_done, this`sent, this`radio, this`history
      ensures RadioSound() && go_on == out.Some?
      ensures Log() == Passed(old(Log()), added, out, whole)
      ensures !go_on ==> Explains(stop, turn)
    {
      ghost var base, low := Log(), nextSequence;
      Assoc(records, [], []);
      added := ProducersDuringFlush(turn.before, size, payload, None, base, low, []);
      var number := ChunkNumber(turn.grant, size, payload, base, low, added);
      stop := if number.None? then NoNumber else Refused;
      go_on := number.Some? && turn.radio;
      out, whole := None, false;
      if go_on { added, out, whole := SendAccepted(turn.after, size, payload, number.value, base, low, added); }
    }

    /** The radio took the chunk; inserts may come in before the cursor moves over it. */
    method SendAccepted(requests: seq<Request>, size: nat, payload: seq<byte>, sequence: nat,
                     ghost base: RadioLog, ghost low: nat, ghost before: seq<Record>)
      returns (ghost added: seq<Record>, ghost out: Option<Chunk>, ghost whole: bool)
      requires RadioSound() && ChunkReady(size, payload) && OnlyJoined(base, low, before) && base.sent < |base.records|
      requires FreeNumber(sequence, radio, records, sent, nextSequence)
      modifies storage, this`ring, this`write_offset, this`used_bytes, this`pending_send_bytes,
               this`nextSequence, this`records, this`send_offset, this`send_record_active, this`send_header,
               this`send_record_bytes_done, this`sent, this`radio, this`history
      ensures RadioSound() && out.Some? && Log() == Passed(base, added, out, whole)
    {
      added := ProducersDuringFlush(requests, size, payload, Some(sequence), base, low, before);
      out := Some(Chunk(sequence, send_header.timestamp, send_header.kind, payload));
      PassedJoined(base, low, Log(), nextSequence, added, out.value);
      whole := CommitChunk(size, payload, sequence);
    }

    /** One pass of flush_logs: one more chunk goes out, or there is a reason why not. */
    method FlushOne(turn: Turn)
      returns (ghost added: seq<Record>, ghost out: Option<Chunk>, ghost whole: bool, go_on: bool, ghost stop: Stop)
      requires RadioSound()
      modifies storage, this`ring, this`write_offset, this`used_bytes, this`pending_send_bytes,
               this`nextSequence, this`records, this`send_offset, this`send_record_active, this`send_header,
               this`send_record_bytes_done, this`sent, this`radio, this`history
      ensures RadioSound() && go_on == out.Some?
      ensures out.Some? ==> old(sent < |records|)
      ensures Log() == Passed(old(Log()), added, out, whole)
      ensures !go_on ==> Explains(stop, turn)
    {
      added, out, whole, go_on, stop := [], None, false, false, NoLock;
      Assoc(records, [], []);
      if turn.lock {
        var size, payload := NextChunk();
        stop := Drained;
        if size != 0 {
          added, out, whole, go_on, stop := SendCopied(turn, size, payload);
        }
      }
    }

    /** The loop of flush_logs: sends chunk after chunk until the limit or until one pass fails. */
    method FlushPasses(world: nat -> Turn) returns (sent_packets: nat, ghost added: seq<Record>, ghost stop: Stop)
      requires RadioSound()
      modifies storage, this`ring, this`write_offset, this`used_bytes, this`pending_send_bytes,
               this`nextSequence, this`records, this`send_offset, this`send_record_active, this`send_header,
               this`send_record_bytes_done, this`sent, this`radio, this`history
      ensures RadioSound() && Grew(old(Log()), Log(), added, sent_packets)
      ensures sent_packets <= (max_chunks_per_flush * block_size) % U32
      ensures sent_packets < (max_chunks_per_flush * block_size) % U32 ==> Explains(stop, world(sent_packets))
    {
      added, stop := [], Busy;
      GrewPass(Log(), [], None, false);
      Assoc(records, [], []);
      var max_packets := (max_chunks_per_flush * block_size) % U32;
      sent_packets := 0;
      while sent_packets < max_packets
        invariant RadioSound() && sent_packets <= max_packets
        invariant Grew(old(Log()), Log(), added, sent_packets)
      {
        ghost var more, out, whole;
        var go_on;
        ghost var before := Log();
        more, out, whole, go_on, stop := FlushOne(world(sent_packets));
        GrewStep(old(Log()), before, added, sent_packets, more, out, whole);
        added := added + more;
        if !go_on { break; }
        sent_packets := sent_packets + 1;
      }
    }

    /** flush_logs: whatever the refusals, failed reservations and concurrent inserts, the radio
        stays sound, and the flush ends at its limit or for a reason the world gave. */
    method FlushLogs(lock: bool, world: nat -> Turn)
      returns (sent_packets: nat, ghost added: seq<Record>, ghost stop: Stop)
      requires RadioSound()
      modifies storage, this`ring, this`write_offset, this`used_bytes, this`pending_send_bytes,
               this`nextSequence, this`records, this`send_offset, this`send_record_active, this`send_header,
               this`send_record_bytes_done, this`sent, this`radio, this`history, this`consumer_busy
      ensures RadioSound() && consumer_busy == old(consumer_busy)
      ensures Grew(old(Log()), Log(), added, sent_packets)
      ensures stop == Busy <==> !lock || consumer_busy
      ensures stop == Busy ==> sent_packets == 0 && added == []
      ensures stop != Busy ==> sent_packets <= (max_chunks_per_flush * block_size) % U32
      ensures stop != Busy && sent_packets < (max_chunks_per_flush * block_size) % 0x1_0000_0000 ==>
        var turn := world(sent_packets);
        || !turn.lock || !turn.radio || !endpoint || sent == |records|
        || turn.grant == None || nextSequence + turn.grant.value >= 0x1_0000_0000
    {
      sent_packets, added, stop := 0, [], Busy;
      GrewPass(Log(), [], None, false);
      Assoc(records, [], []);
      var began := BeginConsumer(lock);
      if began {
        sent_packets, added, stop := FlushPasses(world);
        if sent_packets < (max_chunks_per_flush * block_size) % U32 { StopReason(stop, world(sent_packets)); }
        if stop == Busy { stop := Drained; }
        consumer_busy := false;
      }
    }

    // -------------------------------------------------------------------------
    // SD consumer
    // -------------------------------------------------------------------------

    /** Fragment `packet` of the oldest record, read out of the ring. */
    method ReadFragment(header: Header, record_offset: nat, packet: nat) returns (payload: seq<byte>)
      requires Valid() && records != [] && header == records[0].Head() && record_offset == read_offset
      requires packet < FragmentCount(header.length)
      ensures payload == Piece(records[0].payload, packet)
    {
      var payload_offset := packet * MAX_PAYLOAD;
      var remaining := header.length - payload_offset;
      var fragment_length := if remaining < MAX_PAYLOAD then remaining else MAX_PAYLOAD;
      PayloadAtCursor(ring, read_offset, used_bytes, records, payload_offset, fragment_length);
      WrapIsModulo(record_offset, HEADER + payload_offset, capacity);
      payload := ReadFromRing((record_offset + HEADER + payload_offset) % capacity, fragment_length);
    }

    /** One fragment: inserts, a locked read, then the answer of the encoder and the callback. */
    method WriteFragment(header: Header, record_offset: nat, packet: nat, count: nat, gap: Gap, ghost r: Record,
                         ghost base: RadioLog, ghost low: nat, ghost before: seq<Record>)
      returns (written: bool, frame: Frame, ghost added: seq<Record>)
      requires Valid() && OnlyJoined(base, low, before)
      requires base.records != [] && r == base.records[0] && header == r.Head() && record_offset == read_offset
      requires packet < count == FragmentCount(header.length)
      modifies storage, this`ring, this`write_offset, this`used_bytes, this`pending_send_bytes,
               this`nextSequence, this`records
      ensures Valid() && OnlyJoined(base, low, added)
      ensures frame == Fragment(r, packet) && (written <==> endpoint && gap.written)
      ensures gap.inserts == [] ==> added == before && nextSequence == old(nextSequence)
    {
      added := Producers(gap.inserts, base, low, before);
      assert records[0] == r;
      var payload := ReadFragment(header, record_offset, packet);
      frame := Frame(header.timestamp, header.sequence, header.kind, packet, count, payload);
      written := endpoint && gap.written;
    }

    /** Hands the fragments of the oldest record to the callback until one is refused. */
    method WriteFragments(header: Header, record_offset: nat, world: nat -> Gap, ghost r: Record,
                          ghost base: RadioLog, ghost low: nat, ghost before: seq<Record>)
      returns (success: bool, frames: seq<Frame>, ghost added: seq<Record>)
      requires Valid() && OnlyJoined(base, low, before) && base.records != [] && r == base.records[0]
      requires r.WellFormed() && header == r.Head() && record_offset == read_offset
      modifies storage, this`ring, this`write_offset, this`used_bytes, this`pending_send_bytes,
               this`nextSequence, this`records
      ensures Valid() && OnlyJoined(base, low, added)
      ensures |frames| <= |Fragments(r)| && frames == Fragments(r)[..|frames|]
      ensures success <==> |frames| == |Fragments(r)|
      ensures !success ==> !endpoint || !world(|frames|).written
      ensures QuietGaps(world) ==> added == before && nextSequence == old(nextSequence)
    {
      success, frames, added := true, [], before;
      FragmentsOfRecord(r);
      FragmentsNext(r, 0);
      var fragment_count := FragmentCount(header.length) % 256;
      var packet := 0;
      assert fragment_count == |Fragments(r)|;
      while packet < fragment_count
        invariant Valid() && OnlyJoined(base, low, added)
        invariant success && packet <= fragment_count && frames == Fragments(r)[..packet]
        invariant QuietGaps(world) ==> added == before && nextSequence == old(nextSequence)
      {
        FragmentsNext(r, packet);
        var written, frame;
        written, frame, added :=
          WriteFragment(header, record_offset, packet, fragment_count, world(packet), r, base, low, added);
        if !written {
          success := false;
          break;
        }
        frames := frames + [frame];
        packet := packet + 1;
      }
    }

    /** The last locked section of one flush_logs_to pass: lets go of the record just written. */
    method ReleaseOldest(record_size: nat)
      requires Valid() && records != [] && record_size == |Encode(records[0])|
      modifies this`send_offset, this`pending_send_bytes, this`read_offset, this`used_bytes, this`records, this`sent
      ensures Valid() && records == old(records)[1..]
      ensures sent == if old(sent) == 0 then 0 else old(sent) - 1
    {
      LayoutRelease(ring, Offsets(), records, sent);
      NumberedSuffix(records, 0, nextSequence, 1);
      MoveCursors(record_size);
      records := records[1..];
      sent := if sent == 0 then 0 else sent - 1;
    }

    method MoveCursors(record_size: nat)
      requires 0 < capacity && read_offset < capacity && send_offset < capacity && record_size <= used_bytes <= capacity
      requires pending_send_bytes == used_bytes ==> record_size <= pending_send_bytes
      modifies this`send_offset, this`pending_send_bytes, this`read_offset, this`used_bytes
      ensures Offsets() == Released(old(Offsets()), record_size, capacity)
    {
      if pending_send_bytes == used_bytes {
        WrapIsModulo(send_offset, record_size, capacity);
        send_offset := (send_offset + record_size) % capacity;
        pending_send_bytes := pending_send_bytes - record_size;
      }
      WrapIsModulo(read_offset, record_size, capacity);
      read_offset := (read_offset + record_size) % capacity;
      used_bytes := used_bytes - record_size;
    }

    /** Reads the header of the oldest record, which the flush knows to be there. */
    method ReadOldest(bytes_remaining: nat, ghost base: RadioLog, ghost low: nat, ghost added: seq<Record>)
      returns (header: Option<Header>)
      requires Valid() && OnlyJoined(base, low, added) && base.records != []
      requires bytes_remaining == |EncodeAll(base.records)|
      ensures header == Some(base.records[0].Head()) && base.records[0].WellFormed()
      ensures bytes_remaining == |Encode(base.records[0])| + |EncodeAll(base.records[1..])|
    {
      HeaderInSnapshot(ring, Offsets(), base.records, added, sent);
      header := ReadHeaderAt(read_offset, bytes_remaining);
    }

    /** Inserts behind the last fragment, then the release. */
    method ReleaseWritten(requests: seq<Request>, record_size: nat, ghost base: RadioLog, ghost low: nat, ghost before: seq<Record>)
      returns (ghost added: seq<Record>)
      requires Valid() && OnlyJoined(base, low, before) && base.records != []
      requires record_size == |Encode(base.records[0])|
      modifies storage, this`ring, this`write_offset, this`used_bytes, this`pending_send_bytes,
               this`nextSequence, this`records, this`send_offset, this`read_offset, this`sent
      ensures Valid() && OnlyJoined(DropOldest(base, 1), low, added)
      ensures requests == [] ==> added == before && nextSequence == old(nextSequence)
    {
      added := Producers(requests, base, low, before);
      JoinedDrop(base, low, Log(), nextSequence, added);
      ReleaseOldest(record_size);
    }

    /** One pass of flush_logs_to: writes the oldest record and then lets go of it. */
    method FlushRecord(turn: CardTurn, bytes_remaining: nat, ghost base: RadioLog, ghost low: nat, ghost before: seq<Record>)
      returns (success: bool, left: nat, frames: seq<Frame>, ghost added: seq<Record>)
      requires Valid() && OnlyJoined(base, low, before) && base.records != []
      requires bytes_remaining == |EncodeAll(base.records)|
      modifies storage, this`ring, this`write_offset, this`used_bytes, this`pending_send_bytes,
               this`nextSequence, this`records, this`send_offset, this`read_offset, this`sent
      ensures Valid() && OnlyJoined(if success then DropOldest(base, 1) else base, low, added)
      ensures left < bytes_remaining && (success ==> left == |EncodeAll(base.records[1..])|)
      ensures var all := Fragments(base.records[0]);
        && |frames| <= |all| && frames == all[..|frames|] && (success <==> |frames| == |all|)
      ensures !success ==> !endpoint || !turn.fragment(|frames|).written
      ensures Quiet(turn) ==> added == before && nextSequence == old(nextSequence)
    {
      added := Producers(turn.before, base, low, before);
      var header := ReadOldest(bytes_remaining, base, low, added);
      success, frames, added :=
        WriteFragments(header.value, read_offset, turn.fragment, base.records[0], base, low, added);
      var record_size := HEADER + header.value.length;
      left := bytes_remaining - record_size;
      if success {
        added := ReleaseWritten(turn.after, record_size, base, low, added);
      }
    }

    /** The loop of flush_logs_to, over the records that were there when it started. */
    method FlushSnapshot(world: nat -> CardTurn)
      returns (success: bool, frames: seq<Frame>, released: nat, ghost part: seq<Frame>, ghost added: seq<Record>)
      requires Valid()
      modifies storage, this`ring, this`write_offset, this`used_bytes, this`pending_send_bytes,
               this`nextSequence, this`records, this`send_offset, this`read_offset, this`sent
      ensures Valid() && FileOf(frames, old(records), released, part)
      ensures OnlyJoined(DropOldest(old(Log()), released), old(nextSequence), added)
      ensures success ==> released == |old(records)| && part == []
      ensures !success ==> released < |old(records)| && Torn(part, old(records)[released])
      ensures !success ==> !endpoint || !world(released).fragment(|part|).written
      ensures AllQuiet(world) ==> added == [] && nextSequence == old(nextSequence)
    {
      ghost var base, low := Log(), nextSequence;
      success, frames, released, part, added := true, [], 0, [], [];
      Assoc(records, [], []);
      var bytes_remaining, turn := used_bytes, 0;
      assert DropOldest(base, 0) == base;
      while bytes_remaining > 0
        invariant Valid() && success && turn == released && part == []
        invariant FileOf(frames, base.records, released, [])
        invariant OnlyJoined(DropOldest(base, released), low, added)
        invariant bytes_remaining == |EncodeAll(base.records[released..])|
        invariant AllQuiet(world) ==> added == [] && nextSequence == low
        decreases bytes_remaining
      {
        DropOneMore(base, released);
        var written;
        success, bytes_remaining, written, added :=
          FlushRecord(world(turn), bytes_remaining, DropOldest(base, released), low, added);
        FileOfNext(frames, base.records, released, written);
        frames := frames + written;
        if !success {
          part := written;
          break;
        }
        turn, released := turn + 1, released + 1;
      }
    }

    /** flush_logs_to: the callback receives whole records in order; every record that left the
        ring was written completely, and records inserted meanwhile stay. */
    method FlushLogsTo(lock: bool, world: nat -> CardTurn)
      returns (success: bool, frames: seq<Frame>, released: nat, ghost part: seq<Frame>, ghost added: seq<Record>)
      requires Valid()
      modifies storage, this`ring, this`write_offset, this`used_bytes, this`pending_send_bytes,
               this`nextSequence, this`records, this`send_offset, this`read_offset, this`sent, this`consumer_busy
      ensures Valid() && consumer_busy == old(consumer_busy)
      ensures Written(old(Log()), old(nextSequence), Log(), nextSequence, success, frames, released, part, added)
      ensures !success && lock && !consumer_busy ==>
        && released < |old(records)| && Torn(part, old(records)[released])
        && (!endpoint || !world(released).fragment(|part|).written)
      ensures !lock || consumer_busy ==> !success && frames == [] && released == 0 && added == []
      ensures AllQuiet(world) ==> added == [] && nextSequence == old(nextSequence)
    {
      success, frames, released, part, added := false, [], 0, [], [];
      NothingWritten(Log(), nextSequence);
      var began := BeginConsumer(lock);
      if began {
        success, frames, released, part, added := FlushSnapshot(world);
        consumer_busy := false;
      }
    }

    /** A successful flush_logs_to wrote a file that reads back as the records it found, and the
        radio side survives exactly the flushes that do not get past a half-sent record. */
    method SaveToCard(lock: bool, world: nat -> CardTurn)
      returns (success: bool, frames: seq<Frame>, released: nat, ghost part: seq<Frame>, ghost added: seq<Record>)
      requires RadioSound()
      modifies storage, this`ring, this`write_offset, this`used_bytes, this`pending_send_bytes,
               this`nextSequence, this`records, this`send_offset, this`read_offset, this`sent, this`consumer_busy
      ensures Valid() && consumer_busy == old(consumer_busy)
      ensures released <= |old(records)| && records == old(records)[released..] + added
      ensures success ==> Reassemble(frames) == Some(old(records)) && released == |old(records)|
      ensures success ==> records == added && sent == 0
      ensures !success && lock && !consumer_busy ==> !endpoint || !world(released).fragment(|part|).written
      ensures AllQuiet(world) ==> added == [] && nextSequence == old(nextSequence)
      ensures RadioSound() <==> (send_record_active ==> released <= old(sent))
      ensures success ==> (RadioSound() <==> !send_record_active)
    {
      success, frames, released, part, added := FlushLogsTo(lock, world);
      CardVerdict(old(Log()), old(nextSequence), RadioProgress(), Log(), nextSequence, success, frames, released, part, added);
    }

    /** One flush_logs pass, the radio accepting, while the remembered record may be gone: the same reads
        and cursor moves, with nothing left to say which record they concern. */
    method StalePass(grant: Option<nat>) returns (payload: seq<byte>)
      requires Valid() && endpoint && pending_send_bytes != 0 && send_record_active
      requires 0 < send_record_bytes_done < send_header.length && HEADER + send_header.length <= capacity
      requires Granted(nextSequence, grant).Some?
      modifies this`nextSequence, this`send_offset, this`pending_send_bytes, this`send_record_active,
               this`send_header, this`send_record_bytes_done, this`radio
      ensures var done, left := old(send_record_bytes_done), old(send_header).length - old(send_record_bytes_done);
        && payload == Slice(ring, Wrap(old(send_offset), HEADER + done, capacity), Min(left, Stride()))
        && radio == old(radio) + [Chunk(Granted(old(nextSequence), grant).value, old(send_header).timestamp, old(send_header).kind, payload)]
        && (left <= Stride() ==> pending_send_bytes == Minus32(old(pending_send_bytes), HEADER + old(send_header).length))
    {
      var size;
      size, payload := CopyNext();
      var number := Reserve(grant);
      radio := radio + [Chunk(number.value, send_header.timestamp, send_header.kind, payload)];
      send_record_bytes_done := send_record_bytes_done + size;
      if send_record_bytes_done >= send_header.length { MoveOn(HEADER + send_header.length); }
    }

    // -------------------------------------------------------------------------
    // Whole runs
    // -------------------------------------------------------------------------

    /** No card flush since the first `from` got past a half-sent record. */
    ghost predicate NonePast(from: nat)
      reads this
    {
      forall k :: from <= k < |flushes| ==> !GotPast(flushes[k])
    }

    method Perform(e: Event) returns (past: bool, ghost added: seq<Record>, ghost released: seq<Record>)
      requires RadioSound()
      modifies this, storage
      ensures Valid() && consumer_busy == old(consumer_busy) && storage == old(storage)
      ensures released + records == old(records) + added
      ensures RadioSound() <==> !past
      ensures !e.FlushToCard? ==> !past && flushes == old(flushes)
      ensures e.FlushToCard? ==> |flushes| > 0 && flushes == old(flushes) + [flushes[|flushes| - 1]] && (past <==> GotPast(flushes[|flushes| - 1]))
    {
      past, released := false, [];
      match e {
        case Insert(q) =>
          added := InsertLog(q);
          EmptyFront(records);
        case FlushToRadio(lock, turns) =>
          added := ToRadio(lock, turns);
          EmptyFront(records);
        case FlushToCard(lock, card_turns) =>
          past, added, released := ToCard(lock, card_turns);
      }
    }

    method ToRadio(lock: bool, turns: nat -> Turn) returns (ghost added: seq<Record>)
      requires RadioSound()
      modifies this, storage
      ensures RadioSound() && consumer_busy == old(consumer_busy) && storage == old(storage) && flushes == old(flushes)
      ensures records == old(records) + added
    {
      ghost var stop;
      var packets;
      packets, added, stop := FlushLogs(lock, turns);
    }

    /** A card flush, and what there is to remember of it. */
    method SaveAndNote(lock: bool, world: nat -> CardTurn) returns (flush: CardFlush, ghost added: seq<Record>, ghost released: seq<Record>)
      requires RadioSound()
      modifies storage, this`ring, this`write_offset, this`used_bytes, this`pending_send_bytes,
               this`nextSequence, this`records, this`send_offset, this`read_offset, this`sent, this`consumer_busy
      ensures Valid() && consumer_busy == old(consumer_busy)
      ensures released + records == old(records) + added
      ensures flush == CardFlush(send_record_active, old(sent), |released|) && (RadioSound() <==> !GotPast(flush))
    {
      var passed, success, frames, count := sent, false, [], 0;
      ghost var part;
      success, frames, count, part, added := SaveToCard(lock, world);
      released := old(records)[..count];
      FrontAndRest(old(records), count, added);
      flush := CardFlush(send_record_active, passed, count);
    }

    method ToCard(lock: bool, world: nat -> CardTurn) returns (past: bool, ghost added: seq<Record>, ghost released: seq<Record>)
      requires RadioSound()
      modifies this, storage
      ensures Valid() && consumer_busy == old(consumer_busy) && storage == old(storage)
      ensures released + records == old(records) + added
      ensures RadioSound() <==> !past
      ensures flushes == old(flushes) + [CardFlush(old(send_record_active), old(sent), |released|)]
      ensures past <==> GotPast(flushes[|old(flushes)|])
    {
      var flush;
      flush, added, released := SaveAndNote(lock, world);
      past := GotPast(flush);
      flushes := flushes + [flush];
    }

    /** Any inserts, radio flushes and card flushes, whatever happens inside the flushes, up to the first
        card flush that gets past a half-sent record, if there is one: every record ever kept is retained
        or was released by the card side, oldest first; and the radio stays sound, having sent what
        Delivered says, if and only if no card flush got past a half-sent record. */
    method Run(events: seq<Event>) returns (done: nat, ghost added: seq<Record>, ghost released: seq<Record>)
      requires RadioSound()
      modifies this, storage
      ensures Valid() && done <= |events| && consumer_busy == old(consumer_busy)
      ensures storage == old(storage) && old(flushes) <= flushes
      ensures released + records == old(records) + added
      ensures RadioSound() <==> forall k :: |old(flushes)| <= k < |flushes| ==> !GotPast(flushes[k])
      ensures done < |events| ==> !RadioSound()
    {
      done, added, released := 0, [], [];
      var past := false;
      Assoc(records, [], []);
      EmptyFront(records);
      while done < |events| && !past
        invariant done <= |events| && Valid() && consumer_busy == old(consumer_busy)
        invariant storage == old(storage) && old(flushes) <= flushes
        invariant RadioSound() <==> !past
        invariant past <==> exists k :: |old(flushes)| <= k < |flushes| && GotPast(flushes[k])
        invariant released + records == old(records) + added
      {
        ghost var before := records;
        ghost var more, gone;
        past, more, gone := Perform(events[done]);
        KeptOrReleased(old(records), added, released, before, records, more, gone);
        added, released := added + more, released + gone;
        done := done + 1;
      }
    }
  }

  // ---------------------------------------------------------------------------
  // What a half-sent record that the card side released does to the radio
  // ---------------------------------------------------------------------------

  /** A logger at work, with nothing in it. */
  method Started() returns (logger: Logger)
    ensures fresh(logger) && fresh(logger.storage) && logger.RadioSound() && logger.endpoint && !logger.sealed
    ensures logger.capacity == 1024 && !logger.consumer_busy && logger.sent == 0 && !logger.send_record_active
    ensures logger.records == [] && logger.nextSequence == 0
  {
    logger := new Logger(1024);
    logger.BindEndpoint();
  }

  /** A logger that holds one record. */
  method OneRecord(a: Request) returns (logger: Logger)
    requires 0 < |a.data| <= MAX_PAYLOAD + 1 && a.grant == Some(0)
    ensures fresh(logger) && fresh(logger.storage) && logger.RadioSound() && logger.endpoint && !logger.sealed
    ensures logger.capacity == 1024 && !logger.consumer_busy && logger.sent == 0 && !logger.send_record_active
    ensures logger.records == [Record(a.timestamp, 0, a.kind, a.data)] && logger.nextSequence == 1
  {
    logger := Started();
    InsertAlone(logger, a);
  }

  /** The radio takes the first chunk of a record that has more. */
  method SendFirst(logger: Logger, size: nat, payload: seq<byte>)
    requires logger.RadioSound() && logger.ChunkReady(size, payload)
    requires logger.send_record_bytes_done == 0 && size < logger.send_header.length
    modifies logger`nextSequence, logger`send_offset, logger`pending_send_bytes, logger`send_record_active,
             logger`send_header, logger`send_record_bytes_done, logger`sent, logger`radio, logger`history
    ensures logger.RadioSound() && logger.records == old(logger.records) && logger.sent == old(logger.sent)
    ensures logger.RadioProgress() == old(logger.RadioProgress()).(done := size)
    ensures logger.nextSequence == old(logger.nextSequence)
  {
    Assoc(logger.records, [], []);
    ghost var log := logger.Log();
    var number := logger.ChunkNumber(None, size, payload, log, logger.nextSequence, []);
    ghost var whole := logger.CommitChunk(size, payload, number.value);
    assert logger.Log().sent == log.sent;
  }

  /** The next chunk of an untouched record fills a frame. */
  method FirstChunk(logger: Logger) returns (size: nat, payload: seq<byte>)
    requires logger.RadioSound() && logger.endpoint && !logger.sealed && !logger.send_record_active
    requires logger.sent < |logger.records| && |logger.records[logger.sent].payload| > MAX_PAYLOAD
    modifies logger`send_record_active, logger`send_header, logger`send_record_bytes_done
    ensures logger.RadioSound() && logger.ChunkReady(size, payload) && size == MAX_PAYLOAD
    ensures logger.RadioProgress() == Progress(true, logger.records[logger.sent].Head(), 0)
  {
    size, payload := logger.NextChunk();
    logger.AtCursor();
  }

  /** The radio takes the first chunk of an untouched record. */
  method SendFrame(logger: Logger)
    requires logger.RadioSound() && logger.endpoint && !logger.sealed && !logger.send_record_active
    requires logger.sent < |logger.records| && |logger.records[logger.sent].payload| > MAX_PAYLOAD
    modifies logger`nextSequence, logger`send_offset, logger`pending_send_bytes, logger`send_record_active,
             logger`send_header, logger`send_record_bytes_done, logger`sent, logger`radio, logger`history
    ensures logger.RadioSound() && logger.records == old(logger.records) && logger.sent == old(logger.sent)
    ensures logger.RadioProgress() == Progress(true, logger.records[logger.sent].Head(), MAX_PAYLOAD)
    ensures logger.nextSequence == old(logger.nextSequence)
  {
    var size, payload := FirstChunk(logger);
    SendFirst(logger, size, payload);
  }

  /** The radio has taken the first chunk of a record of one octet more than a frame holds. */
  method HalfSend(a: Request) returns (logger: Logger)
    requires |a.data| == MAX_PAYLOAD + 1 && a.grant == Some(0)
    ensures fresh(logger) && fresh(logger.storage) && logger.RadioSound() && logger.endpoint && !logger.sealed
    ensures logger.capacity == 1024 && !logger.consumer_busy && logger.sent == 0 && |logger.records| == 1
    ensures logger.RadioProgress() == Progress(true, Header(a.timestamp, 0, |a.data|, a.kind), MAX_PAYLOAD)
    ensures logger.nextSequence == 1
  {
    logger := OneRecord(a);
    SendFrame(logger);
  }

  /** Then the card side releases it, and the radio side is no longer sound. */
  method ReleaseHalfSent(a: Request) returns (logger: Logger)
    requires |a.data| == MAX_PAYLOAD + 1 && a.grant == Some(0)
    ensures fresh(logger) && fresh(logger.storage) && logger.Valid() && !logger.RadioSound() && logger.endpoint && !logger.sealed
    ensures logger.capacity == 1024 && logger.records == [] && logger.sent == 0 && logger.nextSequence == 1
    ensures logger.RadioProgress() == Progress(true, Header(a.timestamp, 0, |a.data|, a.kind), MAX_PAYLOAD)
  {
    logger := HalfSend(a);
    var gap := Gap([], true);
    var turn := CardTurn([], (_: nat) => gap, []);
    var success, frames, released;
    ghost var part, added;
    success, frames, released, part, added := logger.SaveToCard(true, (_: nat) => turn);
  }

  /** And the next record is inserted. */
  method InsertBehind(a: Request, b: Request) returns (logger: Logger)
    requires |a.data| == MAX_PAYLOAD + 1 && a.grant == Some(0)
    requires 0 < |b.data| <= |a.data| && b.grant == Some(0)
    ensures fresh(logger) && fresh(logger.storage) && logger.Valid() && logger.endpoint && !logger.sealed
    ensures logger.capacity == 1024 && logger.records == [Record(b.timestamp, 1, b.kind, b.data)] && logger.sent == 0
    ensures logger.RadioProgress() == Progress(true, Header(a.timestamp, 0, |a.data|, a.kind), MAX_PAYLOAD)
    ensures logger.nextSequence == 2
  {
    logger := ReleaseHalfSent(a);
    InsertAlone(logger, b);
  }

  /** A record is inserted into an empty ring. */
  method InsertAlone(logger: Logger, q: Request)
    requires logger.Valid() && logger.endpoint && logger.records == [] && logger.nextSequence < 2 && logger.capacity == 1024
    requires 0 < |q.data| <= MAX_PAYLOAD + 1 && q.grant == Some(0)
    modifies logger.storage, logger`ring, logger`write_offset, logger`used_bytes, logger`pending_send_bytes,
             logger`nextSequence, logger`records
    ensures logger.Valid() && (old(logger.RadioSound()) ==> logger.RadioSound())
    ensures logger.records == [Record(q.timestamp, old(logger.nextSequence), q.kind, q.data)]
    ensures logger.nextSequence == old(logger.nextSequence) + 1
  {
    ghost var added := logger.InsertLog(q);
    assert q.data[..|q.data|] == q.data;
    EmptyFront(added);
  }

  /** The next record is inserted, and the radio flush goes on with the one that is gone: what it sends
      under that record's time and type is an octet of the new one, and the unsent octets of the new one
      are taken as sent; if it is shorter, their count wraps around. */
  method HalfSentFlushBreaksRadio(a: Request, b: Request) returns (logger: Logger, payload: seq<byte>)
    requires |a.data| == MAX_PAYLOAD + 1 && a.grant == Some(0)
    requires 0 < |b.data| <= |a.data| && b.grant == Some(0)
    ensures fresh(logger) && logger.radio != []
    ensures logger.radio[|logger.radio| - 1] == Chunk(2, a.timestamp, a.kind, payload)
    ensures |logger.records| == 1 && logger.records[0].payload == b.data && logger.sent == 0
    ensures |b.data| == |a.data| ==> payload == [b.data[MAX_PAYLOAD]] && logger.pending_send_bytes == 0
    ensures |b.data| < |a.data| ==> logger.pending_send_bytes == U32 + |b.data| - |a.data| > logger.capacity
  {
    logger := InsertBehind(a, b);
    LoneRecord(logger.ring, logger.Offsets(), logger.records[0], MAX_PAYLOAD);
    payload := logger.StalePass(Some(0));
  }
}
