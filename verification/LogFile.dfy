/** The two consumers' outputs: fragment sets written to the SD card, chunks put on the radio. */
module LogFile {
  import opened Common
  import opened LogRing

  // ---------------------------------------------------------------------------
  // SD card: one fragment set per record
  // ---------------------------------------------------------------------------

  datatype Frame = Frame(timestamp: nat, sequence: nat, kind: byte, index: nat, count: nat, payload: seq<byte>)

  function FragmentCount(length: nat): nat {
    (length + MAX_PAYLOAD - 1) / MAX_PAYLOAD
  }

  function Min(a: nat, b: nat): nat {
    if a < b then a else b
  }

  function Piece(payload: seq<byte>, i: nat): seq<byte>
    requires i < FragmentCount(|payload|)
  {
    payload[i * MAX_PAYLOAD..Min((i + 1) * MAX_PAYLOAD, |payload|)]
  }

  function Fragment(r: Record, i: nat): Frame
    requires i < FragmentCount(|r.payload|)
  {
    Frame(r.timestamp, r.sequence, r.kind, i, FragmentCount(|r.payload|), Piece(r.payload, i))
  }

  function Fragments(r: Record): (frames: seq<Frame>)
    ensures |frames| == FragmentCount(|r.payload|)
  {
    seq(FragmentCount(|r.payload|), i requires 0 <= i < FragmentCount(|r.payload|) => Fragment(r, i))
  }

  /** A fragment set that breaks off early. */
  ghost predicate Torn(frames: seq<Frame>, r: Record) {
    |frames| < |Fragments(r)| && frames == Fragments(r)[..|frames|]
  }

  lemma FragmentsNext(r: Record, k: nat)
    requires k <= |Fragments(r)|
    ensures Fragments(r)[..k] <= Fragments(r)
    ensures Fragments(r)[..k] == Fragments(r) <==> k == |Fragments(r)|
    ensures k < |Fragments(r)| ==> Fragments(r)[..k] + [Fragment(r, k)] == Fragments(r)[..k + 1]
  {
  }

  function FragmentSets(records: seq<Record>): seq<seq<Frame>> {
    seq(|records|, i requires 0 <= i < |records| => Fragments(records[i]))
  }

  /** What a complete SD flush of `records` hands to the storage callback. */
  function FramesOf(records: seq<Record>): seq<Frame> {
    Flatten(FragmentSets(records))
  }

  lemma FramesOfSnoc(records: seq<Record>, r: Record)
    ensures FramesOf(records + [r]) == FramesOf(records) + Fragments(r)
  {
    assert FragmentSets(records + [r]) == FragmentSets(records) + [Fragments(r)];
    FlattenSnoc(FragmentSets(records), Fragments(r));
  }

  lemma FramesOfCons(records: seq<Record>)
    requires records != []
    ensures FramesOf(records) == Fragments(records[0]) + FramesOf(records[1..])
  {
    assert FragmentSets(records) == [Fragments(records[0])] + FragmentSets(records[1..]);
    FlattenCons(Fragments(records[0]), FragmentSets(records[1..]));
  }

  function Payloads(frames: seq<Frame>): seq<byte> {
    if frames == [] then [] else Payloads(frames[..|frames| - 1]) + frames[|frames| - 1].payload
  }

  /** The first `k` fragments carry the first `k` full pieces of the payload. */
  lemma {:induction false} FragmentsCarryPrefix(r: Record, k: nat)
    requires k <= FragmentCount(|r.payload|)
    ensures Payloads(Fragments(r)[..k]) == r.payload[..Min(k * MAX_PAYLOAD, |r.payload|)]
  {
    if k > 0 {
      FragmentsCarryPrefix(r, k - 1);
      var before := Fragments(r)[..k];
      assert before[..k - 1] == Fragments(r)[..k - 1];
      assert before[k - 1] == Fragment(r, k - 1);
    }
  }

  /** A well-formed record needs at least one and at most 255 fragments, so the source's
      eight-bit counter holds the count, and the fragments carry the payload. */
  lemma FragmentsOfRecord(r: Record)
    requires r.WellFormed()
    ensures 1 <= |Fragments(r)| <= 255
    ensures FragmentCount(|r.payload|) % 256 == FragmentCount(|r.payload|) == |Fragments(r)|
    ensures Payloads(Fragments(r)) == r.payload
    ensures forall f :: f in Fragments(r) ==> 0 < |f.payload| <= 210
    ensures forall i :: 0 <= i < |Fragments(r)| - 1 ==> |Fragments(r)[i].payload| == 210
  {
    FragmentsCarryPrefix(r, |Fragments(r)|);
    assert Fragments(r)[..|Fragments(r)|] == Fragments(r);
  }

  /** One fragment set, complete and in order. */
  predicate CompleteSet(frames: seq<Frame>) {
    forall i :: 0 <= i < |frames| ==>
      && frames[i].index == i && frames[i].count == |frames|
      && frames[i].timestamp == frames[0].timestamp && frames[i].sequence == frames[0].sequence
      && frames[i].kind == frames[0].kind
  }

  /** A reader of the file: takes one complete fragment set after the other. */
  function Reassemble(frames: seq<Frame>): Option<seq<Record>> {
    if frames == [] then Some([])
    else
      var n := frames[0].count;
      if n == 0 || n > |frames| || !CompleteSet(frames[..n]) then None
      else
        match Reassemble(frames[n..])
        case None => None
        case Some(rest) =>
          Some([Record(frames[0].timestamp, frames[0].sequence, frames[0].kind, Payloads(frames[..n]))] + rest)
  }

  /** The reader takes the fragments of `r` off the front as one record. */
  lemma ReassembleFirst(r: Record, rest: seq<Frame>)
    requires r.WellFormed()
    ensures var frames := Fragments(r) + rest; var n := |Fragments(r)|;
      && 1 <= n <= |frames| && frames[0].count == n
      && frames[..n] == Fragments(r) && frames[n..] == rest
      && CompleteSet(frames[..n])
      && Record(frames[0].timestamp, frames[0].sequence, frames[0].kind, Payloads(frames[..n])) == r
  {
    FragmentsOfRecord(r);
    var frames, n := Fragments(r) + rest, |Fragments(r)|;
    assert frames[..n] == Fragments(r) && frames[n..] == rest;
    assert frames[0] == Fragments(r)[0] == Fragment(r, 0);
  }

  lemma ReassembleStep(r: Record, rest: seq<Frame>, records: seq<Record>)
    requires r.WellFormed() && Reassemble(rest) == Some(records)
    ensures Reassemble(Fragments(r) + rest) == Some([r] + records)
  {
    ReassembleFirst(r, rest);
  }

  /** The file of a complete flush reads back as the records that were flushed. */
  lemma {:induction false} ReassembleFramesOf(records: seq<Record>)
    requires AllWellFormed(records)
    ensures Reassemble(FramesOf(records)) == Some(records)
  {
    if records == [] {
      assert FramesOf(records) == [];
    } else {
      var r, rest := records[0], records[1..];
      ReassembleFramesOf(rest);
      ReassembleStep(r, FramesOf(rest), rest);
      FramesOfCons(records);
      assert records == [r] + rest;
    }
  }

  // ---------------------------------------------------------------------------
  // Radio: every chunk is a message of its own
  // ---------------------------------------------------------------------------

  datatype Chunk = Chunk(sequence: nat, timestamp: nat, kind: byte, payload: seq<byte>)

  /** An octet together with the log type and time it was sent under. */
  datatype Octet = Octet(value: byte, kind: byte, timestamp: nat)

  function Label(bytes: seq<byte>, kind: byte, timestamp: nat): seq<Octet> {
    seq(|bytes|, i requires 0 <= i < |bytes| => Octet(bytes[i], kind, timestamp))
  }

  function RadioStream(chunks: seq<Chunk>): seq<Octet> {
    if chunks == [] then []
    else var c := chunks[|chunks| - 1];
      RadioStream(chunks[..|chunks| - 1]) + Label(c.payload, c.kind, c.timestamp)
  }

  function RecordStream(records: seq<Record>): seq<Octet> {
    if records == [] then []
    else var r := records[|records| - 1];
      RecordStream(records[..|records| - 1]) + Label(r.payload, r.kind, r.timestamp)
  }

  /** The records carry increasing sequence numbers, all in [low, high). */
  predicate Numbered(records: seq<Record>, low: nat, high: nat) {
    if records == [] then low <= high
    else low <= records[0].sequence < high && Numbered(records[1..], records[0].sequence + 1, high)
  }

  lemma {:induction false} NumberedAppend(a: seq<Record>, b: seq<Record>, low: nat, middle: nat, high: nat)
    requires Numbered(a, low, middle) && Numbered(b, middle, high)
    ensures Numbered(a + b, low, high)
  {
    NumberedBounds(b, middle, high);
    if a == [] {
      assert a + b == b;
      NumberedWiden(b, middle, high, low, high);
    } else {
      assert (a + b)[1..] == a[1..] + b;
      NumberedAppend(a[1..], b, a[0].sequence + 1, middle, high);
    }
  }

  lemma NumberedBounds(records: seq<Record>, low: nat, high: nat)
    requires Numbered(records, low, high)
    ensures low <= high
  {
  }

  lemma {:induction false} NumberedWiden(records: seq<Record>, low: nat, high: nat, low': nat, high': nat)
    requires Numbered(records, low, high) && low' <= low && high <= high'
    ensures Numbered(records, low', high')
  {
    NumberedBounds(records, low, high);
    if records != [] { NumberedWiden(records[1..], records[0].sequence + 1, high, records[0].sequence + 1, high'); }
  }

  /** Behind record `n` come only larger numbers. */
  lemma {:induction false} NumberedSuffix(records: seq<Record>, low: nat, high: nat, n: nat)
    requires Numbered(records, low, high) && n <= |records|
    ensures Numbered(records[n..], low, high)
    ensures n < |records| ==>
      low <= records[n].sequence < high && Numbered(records[n + 1..], records[n].sequence + 1, high)
  {
    if n > 0 {
      assert records[1..][n - 1..] == records[n..];
      NumberedSuffix(records[1..], records[0].sequence + 1, high, n - 1);
      NumberedWiden(records[n..], records[0].sequence + 1, high, low, high);
      if n < |records| { assert records[1..][n..] == records[n + 1..]; }
    }
  }

  /** The numbers chunks went out under. */
  function Numbers(chunks: seq<Chunk>): set<nat> {
    if chunks == [] then {}
    else Numbers(chunks[..|chunks| - 1]) + {chunks[|chunks| - 1].sequence}
  }

  /** No two chunks share a sequence number, all numbers are below `next`, every chunk fits a frame. */
  predicate DistinctChunks(chunks: seq<Chunk>, next: nat) {
    chunks == [] ||
    (var c := chunks[|chunks| - 1]; var before := chunks[..|chunks| - 1];
     && c.sequence < next && 0 < |c.payload| <= MAX_PAYLOAD
     && c.sequence !in Numbers(before) && DistinctChunks(before, next))
  }

  lemma {:induction false} DistinctChunksPairwise(chunks: seq<Chunk>, next: nat, i: nat, j: nat)
    requires DistinctChunks(chunks, next) && i < j < |chunks|
    ensures chunks[i].sequence != chunks[j].sequence
  {
    var before := chunks[..|chunks| - 1];
    if j == |chunks| - 1 {
      InNumbers(before, i);
    } else {
      DistinctChunksPairwise(before, next, i, j);
    }
  }

  lemma {:induction false} InNumbers(chunks: seq<Chunk>, i: nat)
    requires i < |chunks|
    ensures chunks[i].sequence in Numbers(chunks)
  {
    if i < |chunks| - 1 { InNumbers(chunks[..|chunks| - 1], i); }
  }

  lemma {:induction false} NumbersBelow(chunks: seq<Chunk>, next: nat, n: nat)
    requires DistinctChunks(chunks, next) && n in Numbers(chunks)
    ensures n < next
  {
    var before := chunks[..|chunks| - 1];
    if n in Numbers(before) { NumbersBelow(before, next, n); }
  }

  lemma {:induction false} DistinctChunksWiden(chunks: seq<Chunk>, next: nat, next': nat)
    requires DistinctChunks(chunks, next) && next <= next'
    ensures DistinctChunks(chunks, next')
  {
    if chunks != [] { DistinctChunksWiden(chunks[..|chunks| - 1], next, next'); }
  }

  /** None of the records' stored numbers has gone out. */
  predicate Unused(records: seq<Record>, numbers: set<nat>) {
    records == [] || (records[0].sequence !in numbers && Unused(records[1..], numbers))
  }

  lemma {:induction false} UnusedAppend(a: seq<Record>, b: seq<Record>, numbers: set<nat>)
    ensures Unused(a + b, numbers) <==> Unused(a, numbers) && Unused(b, numbers)
  {
    if a == [] {
      assert a + b == b;
    } else {
      assert (a + b)[1..] == a[1..] + b;
      UnusedAppend(a[1..], b, numbers);
    }
  }

  /** Numbers handed out after every chunk went out are unused. */
  lemma {:induction false} UnusedNew(records: seq<Record>, chunks: seq<Chunk>, next: nat, high: nat)
    requires DistinctChunks(chunks, next) && Numbered(records, next, high)
    ensures Unused(records, Numbers(chunks))
  {
    if records != [] {
      if records[0].sequence in Numbers(chunks) { NumbersBelow(chunks, next, records[0].sequence); }
      DistinctChunksWiden(chunks, next, records[0].sequence + 1);
      UnusedNew(records[1..], chunks, records[0].sequence + 1, high);
    }
  }

  /** The radio cursor inside the record it is working on. */
  datatype Progress = Progress(active: bool, header: Header, done: nat)

  const Idle := Progress(false, Header(0, 0, 0, 0), 0)

  /** The half-sent record is the one at the send cursor. */
  ghost predicate OnCursor(records: seq<Record>, sent: nat, p: Progress) {
    p.active ==> sent < |records| && p.header == records[sent].Head() && p.done < p.header.length
  }

  /** Index of the first record none of whose bytes went out. */
  function FirstUntouched(sent: nat, p: Progress): nat {
    if p.active && p.done > 0 then sent + 1 else sent
  }

  /** What has gone out: all bytes of the records in `history`, then the first `done` bytes of
      the record at the cursor; no two chunks share a sequence number, and the numbers stored
      with untouched records have not been used. */
  ghost predicate Delivered(radio: seq<Chunk>, history: seq<Record>, records: seq<Record>, sent: nat,
                            p: Progress, next: nat) {
    && sent <= |records| && OnCursor(records, sent, p)
    && RadioStream(radio) == RecordStream(history) +
         (if p.active then Label(records[sent].payload[..p.done], records[sent].kind, records[sent].timestamp) else [])
    && DistinctChunks(radio, next)
    && Unused(records[FirstUntouched(sent, p)..], Numbers(radio))
  }

  /** New records and new numbers leave what was delivered as it was. */
  lemma DeliveredInsert(radio: seq<Chunk>, history: seq<Record>, records: seq<Record>, sent: nat,
                        p: Progress, next: nat, added: seq<Record>, next': nat)
    requires Delivered(radio, history, records, sent, p, next) && Numbered(added, next, next')
    ensures Delivered(radio, history, records + added, sent, p, next')
  {
    NumberedBounds(added, next, next');
    var from := FirstUntouched(sent, p);
    assert (records + added)[from..] == records[from..] + added;
    UnusedNew(added, radio, next, next');
    UnusedAppend(records[from..], added, Numbers(radio));
    DistinctChunksWiden(radio, next, next');
  }

  lemma LabelSplit(bytes: seq<byte>, n: nat, m: nat, kind: byte, timestamp: nat)
    requires n <= m <= |bytes|
    ensures Label(bytes[..m], kind, timestamp)
         == Label(bytes[..n], kind, timestamp) + Label(bytes[n..m], kind, timestamp)
  {
  }

  /** No chunk and no record behind the one at the cursor carries `number`. */
  ghost predicate FreeNumber(number: nat, radio: seq<Chunk>, records: seq<Record>, sent: nat, next: nat) {
    && sent < |records| && number < next && number !in Numbers(radio)
    && Unused(records[sent + 1..], {number})
  }

  lemma {:induction false} UnusedSingle(records: seq<Record>, number: nat, low: nat, high: nat)
    requires Numbered(records, low, high) && (number < low || high <= number)
    ensures Unused(records, {number})
  {
    if records != [] { UnusedSingle(records[1..], number, records[0].sequence + 1, high); }
  }

  lemma {:induction false} UnusedUnion(records: seq<Record>, a: set<nat>, b: set<nat>)
    requires Unused(records, a) && Unused(records, b)
    ensures Unused(records, a + b)
  {
    if records != [] { UnusedUnion(records[1..], a, b); }
  }

  /** The number stored with an untouched record is free for its first chunk. */
  lemma OwnNumberFree(radio: seq<Chunk>, history: seq<Record>, records: seq<Record>, sent: nat, p: Progress, next: nat)
    requires Delivered(radio, history, records, sent, p, next) && Numbered(records, 0, next)
    requires p.active && p.done == 0
    ensures FreeNumber(p.header.sequence, radio, records, sent, next)
  {
    NumberedSuffix(records, 0, next, sent);
    assert records[sent..][0] == records[sent];
    UnusedSingle(records[sent + 1..], p.header.sequence, p.header.sequence + 1, next);
  }

  /** A number reserved just now is free. */
  lemma NewNumberFree(radio: seq<Chunk>, records: seq<Record>, sent: nat, low: nat, number: nat, next: nat)
    requires DistinctChunks(radio, low) && Numbered(records, 0, low) && sent < |records| && low <= number < next
    ensures FreeNumber(number, radio, records, sent, next)
  {
    if number in Numbers(radio) { NumbersBelow(radio, low, number); }
    NumberedSuffix(records, 0, low, sent);
    UnusedSingle(records[sent + 1..], number, records[sent].sequence + 1, low);
  }

  /** Records inserted later take larger numbers. */
  lemma FreeNumberInsert(number: nat, radio: seq<Chunk>, records: seq<Record>, sent: nat, next: nat,
                         added: seq<Record>, next': nat)
    requires FreeNumber(number, radio, records, sent, next) && Numbered(added, next, next')
    ensures FreeNumber(number, radio, records + added, sent, next')
  {
    NumberedBounds(added, next, next');
    assert (records + added)[sent + 1..] == records[sent + 1..] + added;
    UnusedSingle(added, number, next, next');
    UnusedAppend(records[sent + 1..], added, {number});
  }

  /** The stream side of one accepted chunk. */
  lemma StreamChunk(radio: seq<Chunk>, history: seq<Record>, r: Record, done: nat, size: nat, chunk: Chunk)
    requires done + size <= |r.payload|
    requires RadioStream(radio) == RecordStream(history) + Label(r.payload[..done], r.kind, r.timestamp)
    requires chunk.payload == r.payload[done..done + size] && chunk.kind == r.kind && chunk.timestamp == r.timestamp
    ensures RadioStream(radio + [chunk])
         == RecordStream(history) + Label(r.payload[..done + size], r.kind, r.timestamp)
    ensures done + size == |r.payload| ==> RadioStream(radio + [chunk]) == RecordStream(history + [r])
  {
    LabelSplit(r.payload, done, done + size, r.kind, r.timestamp);
    RadioStreamSnoc(radio, chunk);
    RecordStreamSnoc(history, r);
    Assoc(RecordStream(history), Label(r.payload[..done], r.kind, r.timestamp), Label(chunk.payload, chunk.kind, chunk.timestamp));
    assert r.payload[..|r.payload|] == r.payload;
  }

  lemma RadioStreamSnoc(radio: seq<Chunk>, c: Chunk)
    ensures RadioStream(radio + [c]) == RadioStream(radio) + Label(c.payload, c.kind, c.timestamp)
  {
    assert (radio + [c])[..|radio|] == radio;
  }

  lemma RecordStreamSnoc(records: seq<Record>, r: Record)
    ensures RecordStream(records + [r]) == RecordStream(records) + Label(r.payload, r.kind, r.timestamp)
  {
    assert (records + [r])[..|records|] == records;
  }

  /** The sequence-number side of one accepted chunk. */
  lemma NumbersChunk(radio: seq<Chunk>, records: seq<Record>, sent: nat, p: Progress, next: nat, chunk: Chunk)
    requires sent < |records| && DistinctChunks(radio, next)
    requires Unused(records[FirstUntouched(sent, p)..], Numbers(radio))
    requires 0 < |chunk.payload| <= MAX_PAYLOAD && FreeNumber(chunk.sequence, radio, records, sent, next)
    ensures DistinctChunks(radio + [chunk], next)
    ensures Unused(records[sent + 1..], Numbers(radio + [chunk]))
  {
    assert (radio + [chunk])[..|radio|] == radio;
    assert records[sent..][1..] == records[sent + 1..];
    UnusedUnion(records[sent + 1..], Numbers(radio), {chunk.sequence});
  }

  /** The radio cursor after `size` more octets of the record it works on. */
  function Advanced(p: Progress, size: nat): Progress {
    if p.done + size >= p.header.length then Idle else p.(done := p.done + size)
  }

  /** The next piece of the record at the cursor went out under a number not used before. */
  lemma DeliveredChunk(radio: seq<Chunk>, history: seq<Record>, records: seq<Record>, sent: nat,
                       p: Progress, next: nat, chunk: Chunk, size: nat)
    requires Delivered(radio, history, records, sent, p, next) && p.active
    requires 0 < size <= MAX_PAYLOAD && p.done + size <= p.header.length
    requires chunk.payload == records[sent].payload[p.done..p.done + size]
    requires chunk.kind == p.header.kind && chunk.timestamp == p.header.timestamp
    requires FreeNumber(chunk.sequence, radio, records, sent, next)
    ensures var whole := p.done + size == p.header.length;
      Delivered(radio + [chunk], if whole then history + [records[sent]] else history, records,
                if whole then sent + 1 else sent, Advanced(p, size), next)
  {
    var r := records[sent];
    StreamChunk(radio, history, r, p.done, size, chunk);
    NumbersChunk(radio, records, sent, p, next, chunk);
    if p.done + size == p.header.length {
      StreamBetween(radio + [chunk], history + [r], records, sent + 1, next);
    } else {
      StreamWithin(radio + [chunk], history, records, sent, p.(done := p.done + size), next);
    }
  }

  /** Delivered, between two records. */
  lemma StreamBetween(radio: seq<Chunk>, history: seq<Record>, records: seq<Record>, sent: nat, next: nat)
    requires sent <= |records| && RadioStream(radio) == RecordStream(history)
    requires DistinctChunks(radio, next) && Unused(records[sent..], Numbers(radio))
    ensures Delivered(radio, history, records, sent, Idle, next)
  {
    Assoc(RecordStream(history), [], []);
  }

  /** Delivered, within a record. */
  lemma StreamWithin(radio: seq<Chunk>, history: seq<Record>, records: seq<Record>, sent: nat, p: Progress, next: nat)
    requires OnCursor(records, sent, p) && p.active && p.done > 0
    requires var r := records[sent];
      RadioStream(radio) == RecordStream(history) + Label(r.payload[..p.done], r.kind, r.timestamp)
    requires DistinctChunks(radio, next) && Unused(records[sent + 1..], Numbers(radio))
    ensures Delivered(radio, history, records, sent, p, next)
  {
  }

  /** A flush that stops at or before the half-sent record leaves the radio state sound. */
  lemma FlushBefore(radio: seq<Chunk>, history: seq<Record>, records: seq<Record>, sent: nat, p: Progress, next: nat, released: nat)
    requires Delivered(radio, history, records, sent, p, next) && released <= sent
    ensures Delivered(radio, history, records[released..], sent - released, p, next)
  {
  }

  /** So does one that gets past the cursor while no record is half-sent. */
  lemma FlushIdle(radio: seq<Chunk>, history: seq<Record>, records: seq<Record>, sent: nat, p: Progress, next: nat, released: nat)
    requires Delivered(radio, history, records, sent, p, next) && sent < released <= |records| && !p.active
    ensures Delivered(radio, history, records[released..], 0, p, next)
  {
    UnusedAppend(records[sent..released], records[released..], Numbers(radio));
    assert records[sent..released] + records[released..] == records[sent..];
    assert records[released..][0..] == records[released..];
  }

  /** One that gets past a half-sent record does not: the remembered header names a record that is
      gone, and numbers never repeat. */
  lemma FlushPast(radio: seq<Chunk>, history: seq<Record>, records: seq<Record>, sent: nat, p: Progress, next: nat, released: nat)
    requires Delivered(radio, history, records, sent, p, next) && Numbered(records, 0, next)
    requires sent < released <= |records| && p.active
    ensures !OnCursor(records[released..], 0, p)
  {
    NumberedSuffix(records, 0, next, sent);
    var later := records[sent + 1..];
    NumberedSuffix(later, records[sent].sequence + 1, next, released - sent - 1);
    assert later[released - sent - 1..] == records[released..];
  }

  /** The exact effect of an SD flush on the radio cursor. After the flush released the oldest
      `released` records and `added` came in, the radio state is sound if and only if the
      flush did not get past a half-sent record. */
  lemma DeliveredAfterFlush(radio: seq<Chunk>, history: seq<Record>, records: seq<Record>, sent: nat,
                            p: Progress, next: nat, released: nat, added: seq<Record>, next': nat)
    requires Delivered(radio, history, records, sent, p, next) && Numbered(records, 0, next)
    requires released <= |records| && Numbered(added, next, next')
    ensures Delivered(radio, history, records[released..] + added, if released <= sent then sent - released else 0, p, next')
       <==> (p.active ==> released <= sent)
  {
    var all := records + added;
    DeliveredInsert(radio, history, records, sent, p, next, added, next');
    NumberedAppend(records, added, 0, next, next');
    assert all[released..] == records[released..] + added;
    if released <= sent {
      FlushBefore(radio, history, all, sent, p, next', released);
    } else if p.active {
      FlushPast(radio, history, all, sent, p, next', released);
    } else {
      FlushIdle(radio, history, all, sent, p, next', released);
    }
  }

  // ---------------------------------------------------------------------------
  // How the radio side grows
  // ---------------------------------------------------------------------------

  datatype RadioLog = RadioLog(records: seq<Record>, sent: nat, radio: seq<Chunk>, history: seq<Record>)

  /** From `a` to `b`: records joined at the end, `chunks` chunks went out, and the records the
      radio got done with in between are exactly the ones its cursor moved over. */
  ghost predicate Grew(a: RadioLog, b: RadioLog, added: seq<Record>, chunks: nat) {
    && b.records == a.records + added
    && a.sent <= b.sent <= |b.records|
    && a.radio <= b.radio && |b.radio| == |a.radio| + chunks
    && b.history == a.history + b.records[a.sent..b.sent]
  }

  /** Why a pass sent nothing. */
  datatype Stop = Busy | NoLock | Drained | NoNumber | Refused

  /** The effect of one pass: records joined, and perhaps one more chunk went out;
      `whole` tells whether it was the last of its record. */
  function Passed(a: RadioLog, added: seq<Record>, out: Option<Chunk>, whole: bool): RadioLog
    requires out.Some? ==> a.sent < |a.records|
  {
    if out.None? then a.(records := a.records + added)
    else RadioLog(a.records + added, if whole then a.sent + 1 else a.sent, a.radio + [out.value],
                  if whole then a.history + [a.records[a.sent]] else a.history)
  }

  lemma GrewPass(a: RadioLog, added: seq<Record>, out: Option<Chunk>, whole: bool)
    requires a.sent <= |a.records| && (out.Some? ==> a.sent < |a.records|)
    ensures Grew(a, Passed(a, added, out, whole), added, if out.Some? then 1 else 0)
  {
  }

  /** From `a` to `b` nothing but `added` joined, under numbers of [low, high). */
  ghost predicate Joined(a: RadioLog, low: nat, b: RadioLog, high: nat, added: seq<Record>) {
    b == a.(records := a.records + added) && Numbered(added, low, high)
  }

  lemma JoinedTransitive(a: RadioLog, i: nat, b: RadioLog, j: nat, c: RadioLog, k: nat, x: seq<Record>, y: seq<Record>)
    requires Joined(a, i, b, j, x) && Joined(b, j, c, k, y)
    ensures Joined(a, i, c, k, x + y)
  {
    NumberedAppend(x, y, i, j, k);
    Assoc(a.records, x, y);
  }

  lemma GrewStep(a: RadioLog, b: RadioLog, added: seq<Record>, n: nat,
                 more: seq<Record>, out: Option<Chunk>, whole: bool)
    requires Grew(a, b, added, n) && (out.Some? ==> b.sent < |b.records|)
    ensures Grew(a, Passed(b, more, out, whole), added + more, if out.Some? then n + 1 else n)
  {
  }

  /** The log after the SD side let go of its `k` oldest records. */
  function DropOldest(a: RadioLog, k: nat): RadioLog
    requires k <= |a.records|
  {
    RadioLog(a.records[k..], if k <= a.sent then a.sent - k else 0, a.radio, a.history)
  }

  lemma DropOneMore(a: RadioLog, k: nat)
    requires k < |a.records|
    ensures DropOldest(DropOldest(a, k), 1) == DropOldest(a, k + 1)
    ensures DropOldest(a, k).records[0] == a.records[k]
    ensures FramesOf(a.records[..k + 1]) == FramesOf(a.records[..k]) + Fragments(a.records[k])
  {
    assert a.records[k..][1..] == a.records[k + 1..];
    assert a.records[..k + 1] == a.records[..k] + [a.records[k]];
    FramesOfSnoc(a.records[..k], a.records[k]);
  }

  /** Releasing the oldest record does not disturb what joined behind it. */
  lemma JoinedDrop(base: RadioLog, low: nat, log: RadioLog, high: nat, added: seq<Record>)
    requires Joined(base, low, log, high, added) && base.records != []
    ensures log.records != [] && log.records[0] == base.records[0]
    ensures Joined(DropOldest(base, 1), low, DropOldest(log, 1), high, added)
  {
  }

  /** The frames handed over: the complete sets of the `released` oldest records, then `part`. */
  ghost predicate FileOf(frames: seq<Frame>, records: seq<Record>, released: nat, part: seq<Frame>) {
    released <= |records| && frames == FramesOf(records[..released]) + part
  }

  lemma FileOfNext(frames: seq<Frame>, records: seq<Record>, k: nat, written: seq<Frame>)
    requires FileOf(frames, records, k, []) && k < |records|
    ensures written == Fragments(records[k]) ==> FileOf(frames + written, records, k + 1, [])
    ensures FileOf(frames + written, records, k, written)
  {
    Assoc(FramesOf(records[..k]), [], []);
    DropOneMore(RadioLog(records, 0, [], []), k);
    Assoc(FramesOf(records[..k + 1]), [], []);
  }

  lemma FileComplete(frames: seq<Frame>, records: seq<Record>)
    requires FileOf(frames, records, |records|, []) && AllWellFormed(records)
    ensures Reassemble(frames) == Some(records)
  {
    assert records[..|records|] == records;
    Assoc(FramesOf(records), [], []);
    ReassembleFramesOf(records);
  }

  /** DeliveredAfterFlush, for a log known only by what was dropped and what joined. */
  lemma CardFlushVerdict(base: RadioLog, low: nat, p: Progress, released: nat, log: RadioLog, high: nat, added: seq<Record>)
    requires Numbered(base.records, 0, low) && released <= |base.records|
    requires Joined(DropOldest(base, released), low, log, high, added)
    requires Delivered(base.radio, base.history, base.records, base.sent, p, low)
    ensures Delivered(log.radio, log.history, log.records, log.sent, p, high) <==> (p.active ==> released <= base.sent)
  {
    DeliveredAfterFlush(base.radio, base.history, base.records, base.sent, p, low, released, added, high);
  }

  lemma OneNumbered(records: seq<Record>, r: Record, next: nat)
    requires Numbered(records, 0, next) && next <= r.sequence
    ensures Numbered([r], next, r.sequence + 1) && Numbered(records + [r], 0, r.sequence + 1)
  {
    NumberedAppend(records, [r], 0, next, r.sequence + 1);
  }

  lemma EmptyFront(records: seq<Record>)
    ensures [] + records == records
  {
  }

  lemma FrontAndRest(records: seq<Record>, n: nat, added: seq<Record>)
    requires n <= |records|
    ensures records[..n] + (records[n..] + added) == records + added
  {
    assert records[..n] + records[n..] == records;
  }

  /** Every record kept is retained or released, oldest first; so it stays over one more step. */
  lemma KeptOrReleased(start: seq<Record>, added: seq<Record>, released: seq<Record>, before: seq<Record>,
                       records: seq<Record>, more: seq<Record>, gone: seq<Record>)
    requires released + before == start + added && gone + records == before + more
    ensures (released + gone) + records == start + (added + more)
  {
    Assoc(released, gone, records);
    Assoc(released, before, more);
    Assoc(start, added, more);
  }

  /** The remembered record fits the ring. */
  lemma CursorFits(ring: seq<byte>, c: Cursors, records: seq<Record>, sent: nat)
    requires Layout(ring, c, records, sent) && sent < |records|
    ensures c.send < |ring| && HEADER + |records[sent].payload| <= c.pending <= |ring|
  {
    UnsentBytes(ring, c, records, sent);
    AllWellFormedSuffix(records, sent);
    HeaderAtCursor(ring, c.send, c.pending, records[sent..]);
  }

  /** DeliveredChunk, for the log after the pass. */
  lemma DeliveredPassed(log: RadioLog, p: Progress, next: nat, chunk: Chunk, size: nat, whole: bool)
    requires Delivered(log.radio, log.history, log.records, log.sent, p, next) && p.active
    requires 0 < size <= MAX_PAYLOAD && p.done + size <= p.header.length && (whole <==> p.done + size == p.header.length)
    requires chunk.payload == log.records[log.sent].payload[p.done..p.done + size]
    requires chunk.kind == p.header.kind && chunk.timestamp == p.header.timestamp
    requires FreeNumber(chunk.sequence, log.radio, log.records, log.sent, next)
    ensures var l := Passed(log, [], Some(chunk), whole);
      Delivered(l.radio, l.history, l.records, l.sent, Advanced(p, size), next)
  {
    DeliveredChunk(log.radio, log.history, log.records, log.sent, p, next, chunk, size);
    Assoc(log.records, [], []);
  }

  /** Records that joined before the chunk was booked count as joined in its pass. */
  lemma PassedJoined(base: RadioLog, low: nat, log: RadioLog, high: nat, added: seq<Record>, chunk: Chunk)
    requires Joined(base, low, log, high, added) && base.sent < |base.records|
    ensures forall whole: bool :: Passed(log, [], Some(chunk), whole) == Passed(base, added, Some(chunk), whole)
  {
    Assoc(log.records, [], []);
  }

  /** A ring with one unsent record. */
  lemma LoneRecord(ring: seq<byte>, c: Cursors, r: Record, at: nat)
    requires Layout(ring, c, [r], 0)
    ensures c.pending == HEADER + |r.payload| && c.send < |ring| && c.pending <= |ring|
    ensures at < |r.payload| ==> Slice(ring, Wrap(c.send, HEADER + at, |ring|), 1) == [r.payload[at]]
  {
    UnsentBytes(ring, c, [r], 0);
    assert [r][0..] == [r] && [r][1..] == [];
    if at < |r.payload| {
      PayloadAtCursor(ring, c.send, c.pending, [r], at, 1);
      assert r.payload[at..at + 1] == [r.payload[at]];
    }
  }

  /** `payload` is the next part of the record at the send cursor and as much as a chunk holds. */
  ghost predicate ReadyChunk(records: seq<Record>, sent: nat, p: Progress, stride: nat, size: nat, payload: seq<byte>) {
    && p.active && sent < |records| && p.done < p.header.length == |records[sent].payload|
    && 0 < size == Min(p.header.length - p.done, stride)
    && payload == records[sent].payload[p.done..p.done + size]
  }

  /** Behind its header stands its payload. */
  lemma ChunkAtCursor(ring: seq<byte>, c: Cursors, records: seq<Record>, sent: nat, p: Progress, stride: nat, size: nat)
    requires Layout(ring, c, records, sent) && OnCursor(records, sent, p) && p.active && stride > 0
    requires size == Min(p.header.length - p.done, stride)
    ensures c.send < |ring| && HEADER + p.done + size <= |ring|
    ensures ReadyChunk(records, sent, p, stride, size, Slice(ring, Wrap(c.send, HEADER + p.done, |ring|), size))
  {
    UnsentBytes(ring, c, records, sent);
    PayloadAtCursor(ring, c.send, c.pending, records[sent..], p.done, size);
  }

  /** Inserts leave the copied chunk and its number as good as they were. */
  lemma ReadyInsert(log: RadioLog, p: Progress, next: nat, log': RadioLog, next': nat, more: seq<Record>,
                    stride: nat, size: nat, payload: seq<byte>, number: Option<nat>)
    requires Delivered(log.radio, log.history, log.records, log.sent, p, next) && Joined(log, next, log', next', more)
    requires ReadyChunk(log.records, log.sent, p, stride, size, payload)
    requires number.Some? ==> FreeNumber(number.value, log.radio, log.records, log.sent, next)
    ensures Delivered(log'.radio, log'.history, log'.records, log'.sent, p, next')
    ensures ReadyChunk(log'.records, log'.sent, p, stride, size, payload)
    ensures number.Some? ==> FreeNumber(number.value, log'.radio, log'.records, log'.sent, next')
  {
    DeliveredInsert(log.radio, log.history, log.records, log.sent, p, next, more, next');
    if number.Some? { FreeNumberInsert(number.value, log.radio, log.records, log.sent, next, more, next'); }
  }

  /** What flush_logs_to did: frames handed over and records released, others having joined. */
  ghost predicate Written(base: RadioLog, low: nat, log: RadioLog, high: nat, success: bool, frames: seq<Frame>,
                          released: nat, part: seq<Frame>, added: seq<Record>) {
    && FileOf(frames, base.records, released, part)
    && Joined(DropOldest(base, released), low, log, high, added)
    && (success ==> released == |base.records| && part == [])
  }

  lemma NothingWritten(base: RadioLog, low: nat)
    ensures Written(base, low, base, low, false, [], 0, [], [])
  {
    Assoc(base.records, [], []);
    assert base.records[0..] == base.records && base.records[..0] == [];
    assert FramesOf([]) == [];
  }

  /** A successful flush wrote a file that reads back as the records it found; the radio side survives
      exactly the flushes that do not get past a half-sent record. */
  lemma CardVerdict(base: RadioLog, low: nat, p: Progress, log: RadioLog, high: nat, success: bool, frames: seq<Frame>,
                    released: nat, part: seq<Frame>, added: seq<Record>)
    requires Written(base, low, log, high, success, frames, released, part, added)
    requires Numbered(base.records, 0, low) && AllWellFormed(base.records)
    requires Delivered(base.radio, base.history, base.records, base.sent, p, low)
    ensures released <= |base.records| && log.records == base.records[released..] + added
    ensures success ==> Reassemble(frames) == Some(base.records) && log.records == added && log.sent == 0
    ensures Delivered(log.radio, log.history, log.records, log.sent, p, high) <==> (p.active ==> released <= base.sent)
    ensures success ==> (Delivered(log.radio, log.history, log.records, log.sent, p, high) <==> !p.active)
  {
    CardFlushVerdict(base, low, p, released, log, high, added);
    if success {
      FileComplete(frames, base.records);
      assert base.records[released..] == [];
    }
  }
}
