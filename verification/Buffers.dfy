/**
 The byte buffer of a connection (src/buffer.h, src/buffer.cc).

 The readable bytes are storage[readIndex..writeIndex].  Whatever the sequence
 of calls, the object stays a byte queue: the bytes consumed so far followed by
 the readable ones are all the bytes ever appended, and the storage stays within
 twice the largest amount of live data.
 */
module Buffers {
  import opened Basics

  type Byte = x: int | 0 <= x < 256

  const INITIAL_SIZE: nat := 1024
  const EXTRA_SIZE: nat := 1024 * 32

  // ----- big-endian integers ------------------------------------------------

  function Power256(n: nat): nat {
    if n == 0 then 1 else 256 * Power256(n - 1)
  }

  // The low n bytes of v in two's complement, most significant first
  function Encode(n: nat, v: int): (bytes: seq<Byte>)
    ensures |bytes| == n
  {
    if n == 0 then [] else Encode(n - 1, v / 256) + [v % 256]
  }

  function Unsigned(bytes: seq<Byte>): nat {
    if bytes == [] then 0 else 256 * Unsigned(bytes[..|bytes| - 1]) + bytes[|bytes| - 1]
  }

  // Conversion of the unsigned value to the signed type of the same width
  function Decode(bytes: seq<Byte>): int {
    var u, p := Unsigned(bytes), Power256(|bytes|);
    u - if 2 * u < p then 0 else p
  }

  // v is a value of the signed type of n bytes
  predicate Fits(n: nat, v: int) {
    0 <= Power256(n) + 2 * v && 2 * v < Power256(n)
  }

  lemma Associate(k: int, p: int)
    ensures 256 * (k * p) == k * (256 * p)
  {}

  lemma {:induction false} EncodeIsModular(n: nat, v: int) returns (k: int)
    ensures Unsigned(Encode(n, v)) < Power256(n) && v == k * Power256(n) + Unsigned(Encode(n, v))
  {
    if n == 0 {
      k := v;
    } else {
      k := EncodeIsModular(n - 1, v / 256);
      assert Encode(n, v)[..n - 1] == Encode(n - 1, v / 256);
      Associate(k, Power256(n - 1));
    }
  }

  lemma QuotientIsSmall(k: int, p: int, v: int, u: int)
    requires v == k * p + u && 0 <= u < p && -p <= 2 * v < p
    ensures k == 0 || k == -1
  {}

  // A typed value reads back unchanged, for every width and every value of the type
  lemma {:induction false} DecodeEncode(n: nat, v: int)
    requires Fits(n, v)
    ensures Decode(Encode(n, v)) == v
  {
    var k := EncodeIsModular(n, v);
    QuotientIsSmall(k, Power256(n), v, Unsigned(Encode(n, v)));
  }

  // --- the bytes by position: byte i has the weight 256 ^ (n - 1 - i)

  lemma AtLeastOnce(d: int, x: int)
    requires 0 < d && 1 <= x
    ensures d <= d * x
  {}

  lemma QuotientIsUnique(d: int, a: int, c: int, q: int, r: int)
    requires d * a + c == d * q + r && 0 <= c < d && 0 <= r < d
    ensures a == q
  {
    assert d * (a - q) == d * a - d * q && d * (q - a) == d * q - d * a;
    if a > q {
      AtLeastOnce(d, a - q);
    } else if a < q {
      AtLeastOnce(d, q - a);
    }
  }

  lemma DivideTwice(v: int, p: int)
    requires 0 < p
    ensures v / 256 / p == v / (256 * p)
  {
    var q := v / 256;
    var a, b, c := q / p, q % p, v % 256;
    assert v == 256 * (p * a + b) + c;
    Associate(a, p);
    QuotientIsUnique(256 * p, a, 256 * b + c, v / (256 * p), v % (256 * p));
  }

  lemma {:induction false} PowerIsPositive(n: nat)
    ensures 0 < Power256(n)
  {
    if n > 0 {
      PowerIsPositive(n - 1);
    }
  }

  // The byte of v that has the weight 256 ^ k
  function Digit(v: int, k: nat): int {
    PowerIsPositive(k);
    v / Power256(k) % 256
  }

  lemma DigitBelow(v: int, k: nat)
    ensures Digit(v, k + 1) == Digit(v / 256, k)
  {
    PowerIsPositive(k);
    DivideTwice(v, Power256(k));
  }

  // Encode is big-endian
  lemma {:induction false} EncodeDigit(n: nat, v: int, i: nat)
    requires i < n
    ensures Encode(n, v)[i] == Digit(v, n - 1 - i)
  {
    if i < n - 1 {
      EncodeDigit(n - 1, v / 256, i);
      DigitBelow(v, n - 2 - i);
    }
  }

  // So is Unsigned, on any bytes
  lemma {:induction false} UnsignedDigit(bytes: seq<Byte>, i: nat)
    requires i < |bytes|
    ensures Digit(Unsigned(bytes), |bytes| - 1 - i) == bytes[i]
  {
    var n := |bytes| - 1;
    if i < n {
      UnsignedDigit(bytes[..n], i);
      DigitBelow(Unsigned(bytes), n - 1 - i);
    }
  }

  lemma {:induction false} UnsignedIsSmall(bytes: seq<Byte>)
    ensures Unsigned(bytes) < Power256(|bytes|)
  {
    if bytes != [] {
      UnsignedIsSmall(bytes[..|bytes| - 1]);
    }
  }

  lemma {:induction false} EncodePeriod(n: nat, v: int, k: int)
    ensures Encode(n, v + k * Power256(n)) == Encode(n, v)
  {
    if n > 0 {
      var p := Power256(n - 1);
      Associate(k, p);
      assert v + k * Power256(n) == v + 256 * (k * p);
      EncodePeriod(n - 1, v / 256, k);
    }
  }

  lemma {:induction false} EncodeUnsigned(bytes: seq<Byte>)
    ensures Encode(|bytes|, Unsigned(bytes)) == bytes
  {
    if bytes != [] {
      EncodeUnsigned(bytes[..|bytes| - 1]);
    }
  }

  // Any bytes are the encoding of the value they decode to, which is one of the type
  lemma EncodeDecode(bytes: seq<Byte>)
    requires bytes != []
    ensures Fits(|bytes|, Decode(bytes)) && Encode(|bytes|, Decode(bytes)) == bytes
  {
    hide Encode, Unsigned, Power256;
    var n := |bytes|;
    var u: int, p: int := Unsigned(bytes), Power256(n);
    UnsignedIsSmall(bytes);
    EncodeUnsigned(bytes);
    EncodePeriod(n, u, -1);
    assert u + -1 * p == u - p;
  }

  // The four widths are those of int8_t, int16_t, int32_t and int64_t
  lemma FourWidths(v: int)
    ensures Fits(1, v) <==> -0x80 <= v < 0x80
    ensures Fits(2, v) <==> -0x8000 <= v < 0x8000
    ensures Fits(4, v) <==> -0x8000_0000 <= v < 0x8000_0000
    ensures Fits(8, v) <==> -0x8000_0000_0000_0000 <= v < 0x8000_0000_0000_0000
  {
    assert Power256(2) == 0x1_0000;
    assert Power256(4) == 256 * 256 * Power256(2);
    assert Power256(6) == 256 * 256 * Power256(4);
    assert Power256(8) == 256 * 256 * Power256(6);
  }

  // A value with its width in bytes
  datatype Typed = Typed(width: nat, value: int)

  predicate WellTyped(vs: seq<Typed>) {
    forall i | 0 <= i < |vs| :: 0 < vs[i].width && Fits(vs[i].width, vs[i].value)
  }

  function EncodeAll(vs: seq<Typed>): seq<Byte> {
    if vs == [] then [] else Encode(vs[0].width, vs[0].value) + EncodeAll(vs[1..])
  }

  // Reading values of the given widths off the front
  function DecodeAll(widths: seq<nat>, bytes: seq<Byte>): seq<int> {
    if widths == [] || |bytes| < widths[0] then []
    else [Decode(bytes[..widths[0]])] + DecodeAll(widths[1..], bytes[widths[0]..])
  }

  // Any sequence of typed appends reads back in order, with whatever follows left over
  lemma {:induction false} ReadBackInOrder(vs: seq<Typed>, rest: seq<Byte>)
    requires WellTyped(vs)
    ensures DecodeAll(seq(|vs|, i requires 0 <= i < |vs| => vs[i].width), EncodeAll(vs) + rest) ==
            seq(|vs|, i requires 0 <= i < |vs| => vs[i].value)
  {
    if vs != [] {
      var widths := seq(|vs|, i requires 0 <= i < |vs| => vs[i].width);
      var bytes, head := EncodeAll(vs) + rest, Encode(vs[0].width, vs[0].value);
      assert bytes == head + (EncodeAll(vs[1..]) + rest);
      assert bytes[..vs[0].width] == head && bytes[vs[0].width..] == EncodeAll(vs[1..]) + rest;
      DecodeEncode(vs[0].width, vs[0].value);
      ReadBackInOrder(vs[1..], rest);
      assert widths[1..] == seq(|vs[1..]|, i requires 0 <= i < |vs[1..]| => vs[1..][i].width);
      assert seq(|vs|, i requires 0 <= i < |vs| => vs[i].value) ==
             [vs[0].value] + seq(|vs[1..]|, i requires 0 <= i < |vs[1..]| => vs[1..][i].value);
    }
  }

  // ----- moving the readable bytes to the front -----------------------------

  // std::copy_backward of store[first..last] to the range ending at dlast, element by element
  function CopyBackward(store: seq<Byte>, first: nat, last: nat, dlast: nat): (r: seq<Byte>)
    requires first <= last <= |store| && last - first <= dlast <= |store|
    ensures |r| == |store| && forall i | dlast <= i < |store| :: r[i] == store[i]
    decreases last
  {
    if first == last then store
    else CopyBackward(store[dlast - 1 := store[last - 1]], first, last - 1, dlast - 1)
  }

  // A source element that no longer lies in the destination arrives with the value it has now
  lemma {:induction false} ArrivesAsIs(store: seq<Byte>, first: nat, last: nat, dlast: nat, t: nat)
    requires first <= last <= |store| && last - first <= dlast <= last
    requires first <= t < last && dlast <= t
    ensures CopyBackward(store, first, last, dlast)[t - (last - dlast)] == store[t]
    decreases last
  {
    if t < last - 1 {
      ArrivesAsIs(store[dlast - 1 := store[last - 1]], first, last - 1, dlast - 1, t);
    }
  }

  lemma {:induction false} CopyOntoItself(store: seq<Byte>, first: nat, last: nat)
    requires first <= last <= |store|
    ensures CopyBackward(store, first, last, last) == store
    decreases last
  {
    if first < last {
      assert store[last - 1 := store[last - 1]] == store;
      CopyOntoItself(store, first, last - 1);
    }
  }

  // The readable bytes end up at the front of the storage
  predicate Compacts(store: seq<Byte>, read: nat, write: nat)
    requires read <= write <= |store|
  {
    CopyBackward(store, read, write, write - read)[..write - read] == store[read..write]
  }

  lemma SeparateRangesCompact(store: seq<Byte>, read: nat, write: nat)
    requires read <= write <= |store| && (read == 0 || write - read <= read)
    ensures Compacts(store, read, write)
  {
    if read == 0 {
      CopyOntoItself(store, read, write);
    } else {
      forall t | read <= t < write ensures CopyBackward(store, read, write, write - read)[t - read] == store[t] {
        ArrivesAsIs(store, read, write, write - read, t);
      }
    }
  }

  // A last byte different from the rest is smeared over the byte one shift below
  lemma OverlappingRangesCorrupt(store: seq<Byte>, read: nat, write: nat)
    requires read <= write <= |store| && 0 < read < write - read
    requires store[write - 1] != store[write - read - 1]
    ensures !Compacts(store, read, write)
  {
    var n := write - read;
    var next := store[n - 1 := store[write - 1]];
    ArrivesAsIs(next, read, write - 1, n - 1, n - 1);
    assert CopyBackward(store, read, write, n)[..n][n - 1 - read] == store[write - 1];
    assert store[read..write][n - 1 - read] == store[n - 1];
  }

  // MakeSpace calls copy_backward with the destination in front of the source.
  // Copied element by element, that is right for every content exactly when the
  // two ranges do not overlap or the source is already in place.
  lemma BackwardCompactionIsSafe(size: nat, read: nat, write: nat)
    requires read <= write <= size
    ensures (forall store: seq<Byte> | |store| == size :: Compacts(store, read, write)) <==>
            read == 0 || write - read <= read
  {
    if read == 0 || write - read <= read {
      forall store: seq<Byte> | |store| == size ensures Compacts(store, read, write) {
        SeparateRangesCompact(store, read, write);
      }
    } else {
      var store: seq<Byte> := seq(size, i => if i == write - 1 then 1 else 0);
      OverlappingRangesCorrupt(store, read, write);
    }
  }

  // ----- the buffer ---------------------------------------------------------

  datatype ReadResult = Failed | Received(bytes: seq<Byte>)

  const CR: Byte := 13
  const LF: Byte := 10

  predicate CrlfAt(bytes: seq<Byte>, i: int) {
    0 <= i && i + 1 < |bytes| && bytes[i] == 13 && bytes[i + 1] == 10
  }

  class Buffer {
    var readIndex: nat
    var writeIndex: nat
    var storage: array<Byte>

    // History: what has been retrieved, what has been appended, and the most that was ever readable
    ghost var consumed: seq<Byte>
    ghost var appended: seq<Byte>
    ghost var peak: nat

    predicate InBounds()
      reads this
    {
      readIndex <= writeIndex <= storage.Length
    }

    ghost function Readable(): seq<Byte>
      requires InBounds()
      reads this, storage
    {
      storage[readIndex..writeIndex]
    }

    // A byte queue, in bounded space
    ghost predicate Valid()
      reads this, storage
    {
      && InBounds()
      && consumed + Readable() == appended
      && |Readable()| <= peak && storage.Length <= Max(INITIAL_SIZE, 2 * peak)
    }

    constructor ()
      ensures Valid() && fresh(storage) && Readable() == [] && appended == [] && peak == 0
      ensures storage.Length == 1024
    {
      readIndex, writeIndex := 0, 0;
      storage := new Byte[INITIAL_SIZE](_ => 0);
      consumed, appended, peak := [], [], 0;
    }

    method ReadableBytes() returns (n: nat)
      requires InBounds()
      ensures n == |Readable()|
    {
      n := writeIndex - readIndex;
    }

    // The address returned by FindCRLF as an offset from Peek, or -1 for null
    method FindCRLF(start: nat) returns (at: int)
      requires InBounds()
      ensures at == -1 <==> !exists i :: start <= i && CrlfAt(Readable(), i)
      ensures at != -1 ==> start <= at && CrlfAt(Readable(), at)
      ensures at != -1 ==> forall i | start <= i < at :: !CrlfAt(Readable(), i)
    {
      var i := start;
      while i + 1 < writeIndex - readIndex
        invariant start <= i
        invariant forall j | start <= j < i :: !CrlfAt(Readable(), j)
      {
        if storage[readIndex + i] == CR && storage[readIndex + i + 1] == LF {
          assert CrlfAt(Readable(), i);
          return i;
        }
        i := i + 1;
      }
      at := -1;
    }

    method Retrieve(n: nat)
      requires Valid() && n <= |Readable()|
      modifies this
      ensures Valid() && storage == old(storage)
      ensures Readable() == old(Readable())[n..] && consumed == old(consumed) + old(Readable())[..n]
      ensures appended == old(appended) && peak == old(peak)
    {
      assert storage[readIndex..readIndex + n] == Readable()[..n];
      consumed := consumed + storage[readIndex..readIndex + n];
      if n < writeIndex - readIndex {
        readIndex := readIndex + n;
      } else {
        readIndex, writeIndex := 0, 0;
      }
    }

    method RetrieveAsString(n: nat) returns (bytes: seq<Byte>)
      requires Valid() && n <= |Readable()|
      modifies this
      ensures Valid() && storage == old(storage) && bytes == old(Readable())[..n]
      ensures Readable() == old(Readable())[n..] && consumed == old(consumed) + bytes
      ensures appended == old(appended) && peak == old(peak)
    {
      bytes := storage[readIndex..readIndex + n];
      assert bytes == Readable()[..n];
      Retrieve(n);
    }

    // std::vector::resize to a larger size
    method Resize(size: nat)
      requires InBounds() && storage.Length <= size
      modifies this`storage
      ensures InBounds() && fresh(storage) && storage.Length == size && Readable() == old(Readable())
    {
      var grown := new Byte[size](_ => 0);
      forall i | 0 <= i < storage.Length {
        grown[i] := storage[i];
      }
      storage := grown;
    }

    // Growth when the free bytes on both sides do not suffice, else compaction
    // (a memmove, which is what copy_backward does for char)
    method MakeSpace(n: nat)
      requires InBounds() && storage.Length - writeIndex < n
      modifies this, storage
      ensures InBounds() && Readable() == old(Readable()) && n <= storage.Length - writeIndex
      ensures storage == old(storage) || fresh(storage)
      ensures storage.Length ==
              if old(storage.Length - writeIndex + readIndex) < n then old(writeIndex) + n else old(storage.Length)
      ensures consumed == old(consumed) && appended == old(appended) && peak == old(peak)
    {
      if storage.Length - writeIndex + readIndex < n {
        Resize(writeIndex + n);
      } else {
        var readable := writeIndex - readIndex;
        forall i | 0 <= i < readable {
          storage[i] := storage[readIndex + i];
        }
        readIndex, writeIndex := 0, readable;
        assert forall i | 0 <= i < readable :: Readable()[i] == old(Readable())[i];
      }
    }

    // memcpy into the free tail, and HasWritten
    method Write(dat: seq<Byte>)
      requires InBounds() && |dat| <= storage.Length - writeIndex
      modifies this`writeIndex, storage
      ensures InBounds() && Readable() == old(Readable()) + dat && writeIndex == old(writeIndex) + |dat|
    {
      forall i | 0 <= i < |dat| {
        storage[writeIndex + i] := dat[i];
      }
      writeIndex := writeIndex + |dat|;
    }

    method EnsureWritableBytes(n: nat)
      requires Valid()
      modifies this, storage
      ensures InBounds() && Readable() == old(Readable()) && n <= storage.Length - writeIndex
      ensures storage == old(storage) || fresh(storage)
      ensures storage.Length <= Max(INITIAL_SIZE, 2 * Max(peak, |Readable()| + n))
      ensures consumed == old(consumed) && appended == old(appended) && peak == old(peak)
    {
      if storage.Length - writeIndex < n {
        MakeSpace(n);
      }
    }

    method Append(dat: seq<Byte>)
      requires Valid()
      modifies this, storage
      ensures Valid() && (storage == old(storage) || fresh(storage))
      ensures Readable() == old(Readable()) + dat && appended == old(appended) + dat
      ensures consumed == old(consumed) && peak == Max(old(peak), |Readable()|)
    {
      EnsureWritableBytes(|dat|);
      Write(dat);
      appended := appended + dat;
      peak := Max(peak, writeIndex - readIndex);
      assert consumed + (old(Readable()) + dat) == consumed + old(Readable()) + dat;
    }

    // What the kernel writes into the free tail
    method Fill(dat: seq<Byte>)
      requires Valid() && |dat| <= storage.Length - writeIndex
      modifies this, storage
      ensures Valid() && storage == old(storage) && consumed == old(consumed)
      ensures Readable() == old(Readable()) + dat && appended == old(appended) + dat
      ensures peak == Max(old(peak), |Readable()|)
    {
      Write(dat);
      appended := appended + dat;
      peak := Max(peak, writeIndex - readIndex);
      assert consumed + (old(Readable()) + dat) == consumed + old(Readable()) + dat;
    }

    // readv into the free tail and a 32 KiB spill area.  What the kernel delivers
    // beyond the tail is appended from the spill area.
    method ReadFd(result: ReadResult) returns (rlen: int)
      requires Valid() && (result.Received? ==> |result.bytes| <= storage.Length - writeIndex + EXTRA_SIZE)
      modifies this, storage
      ensures Valid() && (storage == old(storage) || fresh(storage)) && consumed == old(consumed)
      ensures result.Failed? ==>
                rlen == -1 && Readable() == old(Readable()) && appended == old(appended) && peak == old(peak)
      ensures result.Received? ==>
                && rlen == |result.bytes| && Readable() == old(Readable()) + result.bytes
                && appended == old(appended) + result.bytes && peak == Max(old(peak), |Readable()|)
    {
      if result.Failed? {
        return -1;
      }
      var writable := storage.Length - writeIndex;
      var direct := if |result.bytes| <= writable then |result.bytes| else writable;
      var tail, spill := result.bytes[..direct], result.bytes[direct..];
      Fill(tail);
      assert result.bytes == tail + spill;
      if |result.bytes| > writable {
        Append(spill);
        assert old(Readable()) + result.bytes == old(Readable()) + tail + spill;
        assert old(appended) + result.bytes == old(appended) + tail + spill;
      }
      rlen := |result.bytes|;
    }

    // AppendInt8, 16, 32 and 64
    method AppendInt(width: nat, v: int)
      requires Valid() && Fits(width, v)
      modifies this, storage
      ensures Valid() && (storage == old(storage) || fresh(storage)) && consumed == old(consumed)
      ensures Readable() == old(Readable()) + Encode(width, v) && appended == old(appended) + Encode(width, v)
      ensures peak == Max(old(peak), |Readable()|)
      // most significant byte first
      ensures forall i | 0 <= i < width :: appended[|old(appended)|..][i] == Digit(v, width - 1 - i)
    {
      hide Digit;
      forall i | 0 <= i < width ensures Encode(width, v)[i] == Digit(v, width - 1 - i) {
        EncodeDigit(width, v, i);
      }
      Append(Encode(width, v));
    }

    // PeekInt and RetrieveInt, that is ReadInt8, 16, 32 and 64
    method ReadInt(width: nat) returns (v: int)
      requires Valid() && width <= |Readable()|
      modifies this
      ensures Valid() && storage == old(storage) && appended == old(appended) && peak == old(peak)
      ensures v == Decode(old(Readable())[..width]) && Readable() == old(Readable())[width..]
      ensures consumed == old(consumed) + old(Readable())[..width]
      ensures forall x, rest | Fits(width, x) && old(Readable()) == Encode(width, x) + rest ::
                v == x && Readable() == rest
      // the value of the type whose bytes these are, most significant first
      ensures 0 < width ==> Fits(width, v)
      ensures forall i | 0 <= i < width :: old(Readable())[i] == Digit(v, width - 1 - i)
    {
      hide Digit, Fits;
      ghost var was := Readable();
      assert storage[readIndex..readIndex + width] == was[..width];
      v := Decode(storage[readIndex..readIndex + width]);
      if 0 < width {
        EncodeDecode(was[..width]);
      }
      forall i | 0 <= i < width ensures was[i] == Digit(v, width - 1 - i) {
        EncodeDigit(width, v, i);
        assert was[..width][i] == was[i];
      }
      Retrieve(width);
      forall x, rest | Fits(width, x) && was == Encode(width, x) + rest ensures v == x && Readable() == rest {
        DecodeEncode(width, x);
        assert was[..width] == Encode(width, x) && was[width..] == rest;
      }
    }
  }
}
