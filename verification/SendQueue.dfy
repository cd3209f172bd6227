/** The bounded queue of outgoing frames shared by the TCP, USB and BLE byte streams, and its admission
    rule. */
module SendQueue {
  import opened Common

  const DEPTH := 16
  /** Three quarters of the queue: telemetry is refused above it. */
  const TELEMETRY_CEILING := 12

  type Bytes = seq<byte>

  datatype Priority = Normal | Telemetry

  datatype Queued = Queued(data: Bytes, offset: nat)

  predicate Admissible(priority: Priority, count: nat)
  {
    count < DEPTH && (priority == Telemetry ==> count < TELEMETRY_CEILING)
  }

  /** What is still to be written of one frame. */
  function Rest(q: Queued): Bytes
    requires q.offset <= |q.data|
  {
    q.data[q.offset..]
  }

  ghost predicate Writable(frames: seq<Queued>) {
    forall k :: 0 <= k < |frames| ==> frames[k].offset < |frames[k].data|
  }

  /** What is still to be written of all frames, in order. */
  ghost function Rests(frames: seq<Queued>): Bytes
    requires Writable(frames)
  {
    if frames == [] then [] else Rest(frames[0]) + Rests(frames[1..])
  }

  lemma {:induction false} RestsAppend(frames: seq<Queued>, data: Bytes)
    requires Writable(frames) && data != []
    ensures Writable(frames + [Queued(data, 0)])
    ensures Rests(frames + [Queued(data, 0)]) == Rests(frames) + data
  {
    var all := frames + [Queued(data, 0)];
    if frames != [] {
      RestsAppend(frames[1..], data);
      assert all[1..] == frames[1..] + [Queued(data, 0)];
      Assoc(Rest(frames[0]), Rests(frames[1..]), data);
    } else {
      assert all[1..] == [];
    }
  }

  /** Bytes that left the front of `all` are where they belong after it. */
  lemma Carry(wire: Bytes, all: Bytes, n: nat)
    requires n <= |all|
    ensures (wire + all[..n]) + all[n..] == wire + all
  {
  }

  lemma LoneFrame(frames: seq<Queued>)
    requires |frames| == 1 && Writable(frames)
    ensures Rests(frames) == Rest(frames[0]) && frames[1..] == []
  {
  }

  lemma SomethingPending(frames: seq<Queued>)
    requires Writable(frames) && frames != []
    ensures Rests(frames) != []
  {
    assert Rest(frames[0]) != [];
  }

  lemma SameTail(a: Bytes, b: Bytes, tail: Bytes)
    ensures a + tail == b + tail <==> a == b
  {
    if a + tail == b + tail {
      assert a == (a + tail)[..|a|] && b == (b + tail)[..|b|];
    }
  }

  lemma WholePrefix(a: Bytes, b: Bytes, all: Bytes)
    requires a + b == all && |a| == |all|
    ensures a == all
  {
  }

  class SendQueue {
    const slots: array<Queued>
    var head: nat
    var count: nat
    ghost var frames: seq<Queued>

    ghost predicate Valid()
      reads this, slots
    {
      && slots.Length == DEPTH && head < DEPTH && count <= DEPTH && |frames| == count
      && (forall k :: 0 <= k < count ==> slots[Wrap(head, k, DEPTH)] == frames[k])
      && Writable(frames)
    }

    /** The queued bytes, in the order they will be written. */
    ghost function Pending(): Bytes
      reads this, slots
      requires Valid()
    {
      Rests(frames)
    }

    constructor ()
      ensures Valid() && Pending() == [] && count == 0 && fresh(slots)
    {
      slots := new Queued[DEPTH](_ => Queued([], 0));
      head, count, frames := 0, 0, [];
    }

    /** The mutex section of send: `copied` says that memory for the copy was found. */
    method Admit(data: Bytes, priority: Priority, copied: bool) returns (ok: bool)
      requires Valid() && data != []
      modifies this`count, this`frames, slots
      ensures Valid() && head == old(head)
      ensures ok <==> copied && old(count) < (if priority == Telemetry then 12 else 16)
      ensures Pending() == if ok then old(Pending()) + data else old(Pending())
      ensures count == if ok then old(count) + 1 else old(count)
    {
      ok := Admissible(priority, count) && copied;
      if ok {
        RestsAppend(frames, data);
        WrapIsModulo(head, count, DEPTH);
        slots[(head + count) % DEPTH] := Queued(data, 0);
        frames := frames + [Queued(data, 0)];
        count := count + 1;
      }
    }

    /** The unwritten part of the oldest frame. */
    method Front() returns (rest: Bytes)
      requires Valid() && count > 0
      ensures rest != [] && rest <= Pending()
      ensures count == 1 ==> rest == Pending()
      ensures rest == Rest(frames[0])
    {
      var front := slots[head];
      assert Wrap(head, 0, DEPTH) == head;
      rest := front.data[front.offset..];
      assert frames[1..] == [] ==> Rests(frames[1..]) == [];
      assert count == 1 ==> frames[1..] == [];
    }

    /** `n` bytes of the oldest frame were written; a frame written out leaves the queue. */
    method Advance(n: nat) returns (done: bool)
      requires Valid() && count > 0 && 0 < n <= |Rest(frames[0])|
      modifies this, slots
      ensures Valid() && Pending() == old(Pending())[n..]
      ensures done <==> n == |Rest(old(frames)[0])|
      ensures frames == if done then old(frames)[1..]
                        else [old(frames)[0].(offset := old(frames)[0].offset + n)] + old(frames)[1..]
      ensures count == if done then old(count) - 1 else old(count)
    {
      assert Wrap(head, 0, DEPTH) == head;
      var front := slots[head];
      done := front.offset + n == |front.data|;
      if done {
        DropFront(n);
      } else {
        slots[head] := front.(offset := front.offset + n);
        RestsPartial(frames, n);
        frames := [slots[head]] + frames[1..];
      }
    }

    method DropFront(ghost n: nat)
      requires Valid() && count > 0 && n == |Rest(frames[0])|
      modifies this`head, this`count, this`frames
      ensures Valid() && Pending() == old(Pending())[n..] && count == old(count) - 1
      ensures frames == old(frames)[1..]
    {
      WrapIsModulo(head, 1, DEPTH);
      assert Rests(frames)[n..] == Rests(frames[1..]);
      head := (head + 1) % DEPTH;
      count := count - 1;
      frames := frames[1..];
    }

    method Reset()
      requires Valid()
      modifies this
      ensures Valid() && Pending() == [] && count == 0
    {
      head, count, frames := 0, 0, [];
    }
  }

  lemma RestsPartial(frames: seq<Queued>, n: nat)
    requires frames != [] && Writable(frames) && 0 < n < |Rest(frames[0])|
    ensures var after := [frames[0].(offset := frames[0].offset + n)] + frames[1..];
      Writable(after) && Rests(after) == Rests(frames)[n..]
  {
  }
}
