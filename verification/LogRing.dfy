/** What the bytes of the logger's ring mean: stored records, their byte image, and the
    geometry of a byte ring with a write end and two read cursors. */
module LogRing {
  import opened Common

  /** sizeof(StoredLogHeader). */
  const HEADER := 16
  /** btp::kEspNowMaxPayloadSize. */
  const MAX_PAYLOAD := 210
  /** Largest payload one record may hold: 255 fragments. */
  const MAX_LOGICAL := MAX_PAYLOAD * 255

  const U32 := 0x1_0000_0000
  const U64 := 0x1_0000_0000_0000_0000

  datatype Header = Header(timestamp: nat, sequence: nat, length: nat, kind: byte)

  datatype Record = Record(timestamp: nat, sequence: nat, kind: byte, payload: seq<byte>) {
    function Head(): Header {
      Header(timestamp, sequence, |payload|, kind)
    }

    predicate WellFormed() {
      timestamp < U64 && sequence < U32 && 0 < |payload| <= MAX_LOGICAL
    }
  }

  predicate AllWellFormed(records: seq<Record>) {
    records == [] || (records[0].WellFormed() && AllWellFormed(records[1..]))
  }

  lemma {:induction false} AllWellFormedAppend(a: seq<Record>, b: seq<Record>)
    ensures AllWellFormed(a + b) <==> AllWellFormed(a) && AllWellFormed(b)
  {
    if a == [] {
      assert a + b == b;
    } else {
      assert (a + b)[1..] == a[1..] + b;
      AllWellFormedAppend(a[1..], b);
    }
  }

  lemma AllWellFormedSuffix(records: seq<Record>, n: nat)
    requires AllWellFormed(records) && n <= |records|
    ensures AllWellFormed(records[n..]) && AllWellFormed(records[..n])
    ensures n < |records| ==> records[n].WellFormed()
  {
    assert records == records[..n] + records[n..];
    AllWellFormedAppend(records[..n], records[n..]);
  }

  // ---------------------------------------------------------------------------
  // Byte image of a record
  // ---------------------------------------------------------------------------

  function EncodeHeader(h: Header): (bytes: seq<byte>)
    ensures |bytes| == HEADER
  {
    ToLE(h.timestamp, 8) + ToLE(h.sequence, 4) + ToLE(h.length, 2) + [h.kind, 0]
  }

  function DecodeHeader(bytes: seq<byte>): Header
    requires |bytes| == HEADER
  {
    Header(FromLE(bytes[0..8]), FromLE(bytes[8..12]), FromLE(bytes[12..14]), bytes[14])
  }

  lemma HeaderRoundTrip(h: Header)
    requires h.timestamp < U64 && h.sequence < U32 && h.length < 0x1_0000
    ensures DecodeHeader(EncodeHeader(h)) == h
  {
    var bytes := EncodeHeader(h);
    assert bytes[0..8] == ToLE(h.timestamp, 8);
    assert bytes[8..12] == ToLE(h.sequence, 4);
    assert bytes[12..14] == ToLE(h.length, 2);
    assert Pow256(8) == U64 && Pow256(4) == U32 && Pow256(2) == 0x1_0000;
    LittleEndianRoundTrip(h.timestamp, 8);
    LittleEndianRoundTrip(h.sequence, 4);
    LittleEndianRoundTrip(h.length, 2);
  }

  function Encode(r: Record): (bytes: seq<byte>)
    ensures |bytes| == HEADER + |r.payload|
  {
    EncodeHeader(r.Head()) + r.payload
  }

  function EncodeAll(records: seq<Record>): seq<byte> {
    if records == [] then [] else Encode(records[0]) + EncodeAll(records[1..])
  }

  lemma {:induction false} EncodeAllAppend(a: seq<Record>, b: seq<Record>)
    ensures EncodeAll(a + b) == EncodeAll(a) + EncodeAll(b)
  {
    if a == [] {
      assert a + b == b;
    } else {
      assert (a + b)[1..] == a[1..] + b;
      EncodeAllAppend(a[1..], b);
    }
  }

  lemma EncodeAllSnoc(records: seq<Record>, r: Record)
    ensures EncodeAll(records + [r]) == EncodeAll(records) + Encode(r)
  {
    EncodeAllAppend(records, [r]);
    assert EncodeAll([r]) == Encode(r) + EncodeAll([]);
  }

  /** Cutting the records after the first `n` cuts their image after the image of those. */
  lemma EncodeAllSplit(records: seq<Record>, n: nat)
    requires n <= |records|
    ensures var start := |EncodeAll(records[..n])|; var all := EncodeAll(records);
      && |all| == start + |EncodeAll(records[n..])|
      && all[..start] == EncodeAll(records[..n])
      && all[start..] == EncodeAll(records[n..])
  {
    assert records == records[..n] + records[n..];
    EncodeAllAppend(records[..n], records[n..]);
  }

  /** Every record occupies more than a header, so only no records encode to no bytes. */
  lemma EncodeAllSize(records: seq<Record>)
    requires AllWellFormed(records)
    ensures |EncodeAll(records)| >= (HEADER + 1) * |records|
  {
  }

  /** The header found at `bytes`, when a whole record follows within `available` bytes. */
  function HeaderWithin(bytes: seq<byte>, available: nat): Option<Header>
    requires |bytes| == HEADER
  {
    var h := DecodeHeader(bytes);
    if 0 < h.length && HEADER + h.length <= available then Some(h) else None
  }

  /** Reads records off the front of `bytes` until none is left; fails on a torn record. */
  function DecodeAll(bytes: seq<byte>): Option<seq<Record>> {
    if bytes == [] then Some([])
    else if |bytes| < HEADER then None
    else
      match HeaderWithin(bytes[..HEADER], |bytes|)
      case None => None
      case Some(h) =>
        match DecodeAll(bytes[HEADER + h.length..])
        case None => None
        case Some(rest) =>
          Some([Record(h.timestamp, h.sequence, h.kind, bytes[HEADER..HEADER + h.length])] + rest)
  }

  lemma HeaderOfEncoded(r: Record, rest: seq<byte>)
    requires r.WellFormed()
    ensures var bytes := Encode(r) + rest;
      && bytes[HEADER..HEADER + |r.payload|] == r.payload
      && bytes[HEADER + |r.payload|..] == rest
      && HeaderWithin(bytes[..HEADER], |bytes|) == Some(r.Head())
      && DecodeHeader(bytes[..HEADER]) == r.Head()
  {
    var bytes := Encode(r) + rest;
    assert bytes[..HEADER] == EncodeHeader(r.Head());
    HeaderRoundTrip(r.Head());
  }

  /** Parsing the ring image yields exactly the records that were put into it. */
  lemma {:induction false} DecodeEncodeAll(records: seq<Record>)
    requires AllWellFormed(records)
    ensures DecodeAll(EncodeAll(records)) == Some(records)
  {
    if records != [] {
      HeaderOfEncoded(records[0], EncodeAll(records[1..]));
      DecodeEncodeAll(records[1..]);
      assert records == [records[0]] + records[1..];
    }
  }

  // ---------------------------------------------------------------------------
  // Ring geometry
  // ---------------------------------------------------------------------------

  /** The `size` bytes of the ring that start at `offset`. */
  function Slice(ring: seq<byte>, offset: nat, size: nat): (bytes: seq<byte>)
    requires offset < |ring| && size <= |ring|
    ensures |bytes| == size
  {
    seq(size, i requires 0 <= i < size => ring[Wrap(offset, i, |ring|)])
  }

  lemma SliceOfSlice(ring: seq<byte>, offset: nat, size: nat, from: nat, part: nat)
    requires offset < |ring| && from + part <= size <= |ring|
    ensures Slice(ring, Wrap(offset, from, |ring|), part) == Slice(ring, offset, size)[from..from + part]
  {
  }

  lemma SliceSuffix(ring: seq<byte>, offset: nat, size: nat, from: nat)
    requires offset < |ring| && from <= size <= |ring|
    ensures Slice(ring, Wrap(offset, from, |ring|), size - from) == Slice(ring, offset, size)[from..]
  {
  }

  /** Distance from `offset` forward to `position`. */
  function Ahead(offset: nat, position: nat, capacity: nat): nat
    requires offset < capacity && position < capacity
  {
    if position >= offset then position - offset else position - offset + capacity
  }

  /** The ring after `bytes` were written from `offset` on. */
  function Overwrite(ring: seq<byte>, offset: nat, bytes: seq<byte>): (result: seq<byte>)
    requires offset < |ring| && |bytes| <= |ring|
    ensures |result| == |ring|
  {
    seq(|ring|, k requires 0 <= k < |ring| =>
      if Ahead(offset, k, |ring|) < |bytes| then bytes[Ahead(offset, k, |ring|)] else ring[k])
  }

  /** Writing behind the used part extends it and leaves it as it was. */
  lemma OverwriteExtends(ring: seq<byte>, read: nat, used: nat, bytes: seq<byte>)
    requires read < |ring| && used + |bytes| <= |ring|
    ensures Slice(Overwrite(ring, Wrap(read, used, |ring|), bytes), read, used + |bytes|)
         == Slice(ring, read, used) + bytes
  {
  }

  /** Writing two pieces one after the other is writing both at once. */
  lemma OverwriteTwice(ring: seq<byte>, offset: nat, first: seq<byte>, second: seq<byte>)
    requires offset < |ring| && |first| + |second| <= |ring|
    ensures Overwrite(Overwrite(ring, offset, first), Wrap(offset, |first|, |ring|), second)
         == Overwrite(ring, offset, first + second)
    ensures Wrap(Wrap(offset, |first|, |ring|), |second|, |ring|) == Wrap(offset, |first| + |second|, |ring|)
  {
  }

  // ---------------------------------------------------------------------------
  // Where the two cursors stand
  // ---------------------------------------------------------------------------

  datatype Cursors = Cursors(write: nat, read: nat, used: nat, send: nat, pending: nat)

  /** The ring holds exactly `records`; the last `|records| - sent` of them are still unsent,
      and both cursors stand on record boundaries. */
  ghost predicate Layout(ring: seq<byte>, c: Cursors, records: seq<Record>, sent: nat) {
    && sent <= |records| && AllWellFormed(records)
    && c.read < |ring| && c.used <= |ring|
    && Slice(ring, c.read, c.used) == EncodeAll(records)
    && c.write == Wrap(c.read, c.used, |ring|)
    && c.pending == |EncodeAll(records[sent..])| <= c.used
    && c.send == Wrap(c.read, c.used - c.pending, |ring|)
  }

  /** The unsent bytes are the image of the unsent records. */
  lemma UnsentBytes(ring: seq<byte>, c: Cursors, records: seq<Record>, sent: nat)
    requires Layout(ring, c, records, sent)
    ensures c.send < |ring| && c.pending <= |ring|
    ensures Slice(ring, c.send, c.pending) == EncodeAll(records[sent..])
    ensures Wrap(c.send, c.pending, |ring|) == c.write
  {
    EncodeAllSplit(records, sent);
    SliceSuffix(ring, c.read, c.used, c.used - c.pending);
  }

  /** The retained bytes parse back to the retained records, the unsent bytes to the unsent
      ones, and the unsent bytes end where the next record will be written. */
  lemma LayoutDecodes(ring: seq<byte>, c: Cursors, records: seq<Record>, sent: nat)
    requires Layout(ring, c, records, sent)
    ensures DecodeAll(Slice(ring, c.read, c.used)) == Some(records)
    ensures c.send < |ring| && c.pending <= |ring|
    ensures DecodeAll(Slice(ring, c.send, c.pending)) == Some(records[sent..])
    ensures Wrap(c.send, c.pending, |ring|) == c.write
  {
    UnsentBytes(ring, c, records, sent);
    AllWellFormedSuffix(records, sent);
    DecodeEncodeAll(records);
    DecodeEncodeAll(records[sent..]);
  }

  lemma LayoutInsert(ring: seq<byte>, c: Cursors, records: seq<Record>, sent: nat, r: Record)
    requires Layout(ring, c, records, sent) && r.WellFormed()
    requires c.used + |Encode(r)| <= |ring|
    ensures var size := |Encode(r)|;
      Layout(Overwrite(ring, c.write, Encode(r)),
             Cursors(Wrap(c.write, size, |ring|), c.read, c.used + size, c.send, c.pending + size),
             records + [r], sent)
  {
    OverwriteExtends(ring, c.read, c.used, Encode(r));
    EncodeAllSnoc(records, r);
    EncodeAllSnoc(records[sent..], r);
    AllWellFormedAppend(records, [r]);
    assert (records + [r])[sent..] == records[sent..] + [r];
  }

  /** Radio side: the record at the send cursor has gone out completely. */
  lemma LayoutSend(ring: seq<byte>, c: Cursors, records: seq<Record>, sent: nat)
    requires Layout(ring, c, records, sent) && sent < |records|
    ensures var size := |Encode(records[sent])|;
      && size <= c.pending
      && Layout(ring, c.(send := Wrap(c.send, size, |ring|), pending := c.pending - size), records, sent + 1)
  {
  }

  /** Whether the oldest record is unsent shows in the two byte counts. */
  lemma OldestUnsent(records: seq<Record>, sent: nat)
    requires sent <= |records| && AllWellFormed(records)
    ensures |EncodeAll(records[sent..])| == |EncodeAll(records)| <==> sent == 0
  {
    EncodeAllSplit(records, sent);
    AllWellFormedSuffix(records, sent);
    EncodeAllSize(records[..sent]);
  }

  /** The cursors after the SD side has let go of the oldest record, `size` bytes long. */
  function Released(c: Cursors, size: nat, capacity: nat): Cursors
    requires c.read < capacity && c.send < capacity
    requires size <= capacity && size <= c.used && (c.pending == c.used ==> size <= c.pending)
  {
    var d := if c.pending == c.used
             then c.(send := Wrap(c.send, size, capacity), pending := c.pending - size) else c;
    d.(read := Wrap(c.read, size, capacity), used := c.used - size)
  }

  lemma ReleaseRead(ring: seq<byte>, c: Cursors, records: seq<Record>, sent: nat)
    requires Layout(ring, c, records, sent) && records != []
    ensures var size := |Encode(records[0])|; var read := Wrap(c.read, size, |ring|);
      && size <= c.used
      && Slice(ring, read, c.used - size) == EncodeAll(records[1..])
      && Wrap(read, c.used - size, |ring|) == c.write
  {
    var size := |Encode(records[0])|;
    assert c.used == size + |EncodeAll(records[1..])|;
    SliceSuffix(ring, c.read, c.used, size);
    assert EncodeAll(records)[size..] == EncodeAll(records[1..]);
  }

  lemma ReleaseSend(records: seq<Record>, sent: nat)
    requires sent <= |records| && records != [] && AllWellFormed(records)
    ensures var rest := records[1..]; var left := if sent == 0 then 0 else sent - 1;
      && left <= |rest|
      && |EncodeAll(rest[left..])| ==
           |EncodeAll(records[sent..])| - (if sent == 0 then |Encode(records[0])| else 0)
      && |EncodeAll(rest[left..])| <= |EncodeAll(rest)|
  {
    if sent == 0 {
      assert records[0..] == records && records[1..][0..] == records[1..];
    } else {
      assert records[1..][sent - 1..] == records[sent..];
      EncodeAllSplit(records[1..], sent - 1);
    }
  }

  /** SD side: the oldest record leaves the ring; an unsent one leaves the radio's range too,
      so the bytes still owed to the radio never outnumber the bytes retained. */
  lemma LayoutRelease(ring: seq<byte>, c: Cursors, records: seq<Record>, sent: nat)
    requires Layout(ring, c, records, sent) && records != []
    ensures c.send < |ring| && (c.pending == c.used <==> sent == 0)
    ensures var size := |Encode(records[0])|;
      && size <= c.used && (c.pending == c.used ==> size <= c.pending)
      && Layout(ring, Released(c, size, |ring|), records[1..], if sent == 0 then 0 else sent - 1)
  {
    OldestUnsent(records, sent);
    ReleaseRead(ring, c, records, sent);
    ReleaseSend(records, sent);
  }

  /** At a record boundary the ring shows the header of the record that starts there. */
  lemma HeaderAtCursor(ring: seq<byte>, offset: nat, size: nat, records: seq<Record>)
    requires offset < |ring| && size <= |ring| && AllWellFormed(records) && records != []
    requires Slice(ring, offset, size) == EncodeAll(records)
    ensures size >= HEADER && HeaderWithin(Slice(ring, offset, HEADER), size) == Some(records[0].Head())
    ensures HEADER + |records[0].payload| <= size
  {
    HeaderOfEncoded(records[0], EncodeAll(records[1..]));
    SliceOfSlice(ring, offset, size, 0, HEADER);
  }

  /** Behind the header stands the payload. */
  lemma PayloadAtCursor(ring: seq<byte>, offset: nat, size: nat, records: seq<Record>, from: nat, part: nat)
    requires offset < |ring| && size <= |ring| && records != []
    requires Slice(ring, offset, size) == EncodeAll(records)
    requires from + part <= |records[0].payload|
    ensures HEADER + from + part <= size
    ensures Slice(ring, Wrap(offset, HEADER + from, |ring|), part) == records[0].payload[from..from + part]
  {
    var rest := EncodeAll(records[1..]);
    var head := EncodeHeader(records[0].Head());
    assert EncodeAll(records) == head + (records[0].payload + rest);
    SliceOfSlice(ring, offset, size, HEADER + from, part);
    Behind(head, records[0].payload, rest, from, part);
  }

  lemma Behind(head: seq<byte>, body: seq<byte>, rest: seq<byte>, from: nat, part: nat)
    requires from + part <= |body|
    ensures (head + (body + rest))[|head| + from..|head| + from + part] == body[from..from + part]
  {
  }

  /** The oldest record, seen within the bytes of the records of a snapshot. */
  lemma HeaderInSnapshot(ring: seq<byte>, c: Cursors, snapshot: seq<Record>, added: seq<Record>, sent: nat)
    requires Layout(ring, c, snapshot + added, sent) && snapshot != []
    ensures HEADER <= |EncodeAll(snapshot)| <= |ring| && snapshot[0].WellFormed()
    ensures HeaderWithin(Slice(ring, c.read, HEADER), |EncodeAll(snapshot)|) == Some(snapshot[0].Head())
    ensures |EncodeAll(snapshot)| == |Encode(snapshot[0])| + |EncodeAll(snapshot[1..])|
  {
    var size := |EncodeAll(snapshot)|;
    EncodeAllAppend(snapshot, added);
    AllWellFormedAppend(snapshot, added);
    SliceOfSlice(ring, c.read, c.used, 0, size);
    assert Wrap(c.read, 0, |ring|) == c.read;
    HeaderAtCursor(ring, c.read, size, snapshot);
  }
}
