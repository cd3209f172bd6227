/** Vocabulary shared by the models: octets, optional values, concatenation of
    pieces, little-endian numbers, and positions in a ring. */
module Common {

  newtype byte = x: int | 0 <= x < 256

  datatype Option<+T> = None | Some(value: T)

  /** The pieces put end to end. Histories grow at their end, so the recursion does too. */
  function Flatten<T>(parts: seq<seq<T>>): seq<T> {
    if parts == [] then [] else Flatten(parts[..|parts| - 1]) + parts[|parts| - 1]
  }

  lemma {:induction false} FlattenAppend<T>(a: seq<seq<T>>, b: seq<seq<T>>)
    ensures Flatten(a + b) == Flatten(a) + Flatten(b)
  {
    if b == [] {
      assert a + b == a;
    } else {
      var front, last := b[..|b| - 1], b[|b| - 1];
      FlattenAppend(a, front);
      assert a + b == (a + front) + [last];
      FlattenSnoc(a + front, last);
      Assoc(Flatten(a), Flatten(front), last);
    }
  }

  lemma FlattenSnoc<T>(parts: seq<seq<T>>, last: seq<T>)
    ensures Flatten(parts + [last]) == Flatten(parts) + last
  {
    assert (parts + [last])[..|parts|] == parts;
  }

  lemma FlattenCons<T>(first: seq<T>, parts: seq<seq<T>>)
    ensures Flatten([first] + parts) == first + Flatten(parts)
  {
    FlattenAppend([first], parts);
    FlattenSnoc([], first);
    assert [] + [first] == [first];
  }

  lemma Assoc<T>(a: seq<T>, b: seq<T>, c: seq<T>)
    ensures (a + b) + c == a + (b + c)
    ensures a + [] == a
  {
  }

  /** The `size` least significant base-256 digits of `x`, least significant first. */
  function ToLE(x: nat, size: nat): (digits: seq<byte>)
    ensures |digits| == size
  {
    if size == 0 then [] else [(x % 256) as byte] + ToLE(x / 256, size - 1)
  }

  function FromLE(digits: seq<byte>): nat {
    if digits == [] then 0 else digits[0] as nat + 256 * FromLE(digits[1..])
  }

  function Pow256(size: nat): (power: nat)
    ensures power > 0
  {
    if size == 0 then 1 else 256 * Pow256(size - 1)
  }

  lemma {:induction false} LittleEndianRoundTrip(x: nat, size: nat)
    requires x < Pow256(size)
    ensures FromLE(ToLE(x, size)) == x
  {
    if size != 0 {
      LittleEndianRoundTrip(x / 256, size - 1);
      assert ToLE(x, size)[1..] == ToLE(x / 256, size - 1);
    }
  }

  /** Reading digits yields a number that prints back to those digits. */
  lemma {:induction false} LittleEndianInverse(digits: seq<byte>)
    ensures ToLE(FromLE(digits), |digits|) == digits
  {
    if digits != [] {
      var first, rest := digits[0], digits[1..];
      LittleEndianInverse(rest);
      FirstDigit(first, FromLE(rest), |rest|);
      assert digits == [first] + rest;
    }
  }

  lemma FirstDigit(first: byte, rest: nat, size: nat)
    ensures ToLE(first as nat + 256 * rest, size + 1) == [first] + ToLE(rest, size)
  {
    var x := first as nat + 256 * rest;
    assert x % 256 == first as nat && x / 256 == rest;
  }

  /** Position reached by going `step` bytes forward from `offset`, at most once around. */
  function Wrap(offset: nat, step: nat, capacity: nat): (r: nat)
    requires offset < capacity && step <= capacity
    ensures r < capacity
  {
    if offset + step < capacity then offset + step else offset + step - capacity
  }

  lemma WrapIsModulo(offset: nat, step: nat, capacity: nat)
    requires offset < capacity && step <= capacity
    ensures (offset + step) % capacity == Wrap(offset, step, capacity)
  {
    Remainder(Wrap(offset, step, capacity), capacity);
  }

  lemma Remainder(r: nat, capacity: nat)
    requires r < capacity
    ensures r % capacity == r && (capacity + r) % capacity == r
  {
    assert capacity + r == 1 * capacity + r;
  }
}
