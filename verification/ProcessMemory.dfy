/**
 The memory of the game process as the bridge's readers and writers see it: a read may fail but a completed
 read is true, and a write may land fully, partly or with other bytes, whatever it reports. Nobody else
 writes.
 */
module ProcessMemory {
  import opened Wrappers

  type Image = map<nat, Byte>

  predicate Mapped(image: Image, address: nat, length: nat) {
    forall k :: address <= k < address + length ==> k in image
  }

  function Get(image: Image, address: nat, length: nat): (data: seq<Byte>)
    requires Mapped(image, address, length)
    ensures |data| == length
  {
    seq(length, i requires 0 <= i < length => image[address + i])
  }

  /** The image after a write lands: unmapped addresses swallow it. */
  function Put(image: Image, address: nat, data: seq<Byte>): (after: Image)
    ensures after.Keys == image.Keys
  {
    map k | k in image :: if address <= k < address + |data| then data[k - address] else image[k]
  }

  /** The two images map the same addresses and agree on all of them outside one footprint. */
  ghost predicate SameExcept(before: Image, after: Image, address: nat, length: nat) {
    && after.Keys == before.Keys
    && forall k :: k in before && !(address <= k < address + length) ==> after[k] == before[k]
  }

  function U16(value: nat): (data: seq<Byte>)
    requires value < 0x1_0000
    ensures |data| == 2
  {
    [value % 256, value / 256]
  }

  /** Two bytes read as an unsigned value, low byte first. */
  function Word(low: int, high: int): int { low + 256 * high }

  function U16At(image: Image, address: nat): (value: nat)
    requires Mapped(image, address, 2)
    ensures value < 0x1_0000
  {
    Word(image[address], image[address + 1])
  }

  function U32At(image: Image, address: nat): (value: Word32)
    requires Mapped(image, address, 4)
  {
    U16At(image, address) + 0x1_0000 * U16At(image, address + 2)
  }

  /** Writing a value and reading it back, at the same place and elsewhere. */
  lemma U16RoundTrip(image: Image, address: nat, value: nat, other: nat)
    requires value < 0x1_0000 && Mapped(image, address, 2) && Mapped(image, other, 2)
    ensures U16At(Put(image, address, U16(value)), address) == value
    ensures other + 2 <= address || address + 2 <= other ==>
              U16At(Put(image, address, U16(value)), other) == U16At(image, other)
    ensures U16(U16At(image, address)) == Get(image, address, 2)
  {
    var after := Put(image, address, U16(value));
    assert after[address] == value % 256 && after[address + 1] == value / 256;
    var low: int, high: int := image[address], image[address + 1];
    assert (low + 256 * high) % 256 == low && (low + 256 * high) / 256 == high;
  }

  /** A footprint that holds the same bytes again means the whole image is the same again. */
  lemma SameBytesSameImage(before: Image, after: Image, address: nat, length: nat)
    requires SameExcept(before, after, address, length)
    requires Mapped(before, address, length) && Mapped(after, address, length)
    requires Get(after, address, length) == Get(before, address, length)
    ensures after == before
  {
    forall k | k in before ensures after[k] == before[k] {
      if address <= k < address + length {
        assert Get(after, address, length)[k - address] == Get(before, address, length)[k - address];
      }
    }
  }

  lemma PutIsExact(before: Image, after: Image, address: nat, data: seq<Byte>)
    requires SameExcept(before, after, address, |data|)
    requires Mapped(after, address, |data|) && Get(after, address, |data|) == data
    ensures after == Put(before, address, data)
  {
    forall k | k in before ensures after[k] == Put(before, address, data)[k] {
      if address <= k < address + |data| {
        assert Get(after, address, |data|)[k - address] == data[k - address];
      }
    }
  }

  class Memory {
    var image: Image

    /** Accesses to mapped memory never fail. Without this nothing is promised about any access. */
    const reliable: bool

    constructor (image: Image, reliable: bool)
      ensures this.image == image && this.reliable == reliable
    {
      this.image, this.reliable := image, reliable;
    }

    method TryRead(address: nat, length: nat) returns (ok: bool, data: seq<Byte>, bytesRead: nat)
      ensures |data| == length && bytesRead <= length
      ensures ok ==> bytesRead == length && Mapped(image, address, length) && data == Get(image, address, length)
      ensures reliable && Mapped(image, address, length) ==> ok
    {
      var lucky: bool := *;
      ok := Mapped(image, address, length) && (reliable || lucky);
      if ok {
        data, bytesRead := Get(image, address, length), length;
      } else {
        var leftover: Byte := *;
        data := seq<Byte>(length, _ => leftover);
        bytesRead :| 0 <= bytesRead <= length;
      }
    }

    method TryReadByte(address: nat) returns (value: Option<Byte>)
      ensures value.Some? ==> address in image && value.value == image[address]
      ensures reliable && address in image ==> value.Some?
    {
      var ok, data, _ := TryRead(address, 1);
      value := if ok then Some(data[0]) else None;
    }

    method TryReadUInt16(address: nat) returns (value: Option<nat>)
      ensures value.Some? ==> Mapped(image, address, 2) && value.value == U16At(image, address)
      ensures reliable && Mapped(image, address, 2) ==> value.Some?
    {
      var ok, data, _ := TryRead(address, 2);
      value := if ok then Some(Word(data[0], data[1])) else None;
    }

    method TryReadUInt32(address: nat) returns (value: Option<Word32>)
      ensures value.Some? ==> Mapped(image, address, 4) && value.value == U32At(image, address)
      ensures reliable && Mapped(image, address, 4) ==> value.Some?
    {
      var ok, data, _ := TryRead(address, 4);
      if !ok {
        return None;
      }
      assert data[0] == image[address] && data[1] == image[address + 1];
      assert data[2] == image[address + 2] && data[3] == image[address + 3];
      var low, high := Word(data[0], data[1]), Word(data[2], data[3]);
      assert low == U16At(image, address) && high == U16At(image, address + 2);
      hide Word, U16At;
      value := Some(low + 0x1_0000 * high);
    }

    /** The report says nothing about what landed, unless the memory is reliable. */
    method TryWrite(address: nat, data: seq<Byte>) returns (ok: bool, bytesWritten: nat)
      modifies this`image
      ensures SameExcept(old(image), image, address, |data|)
      ensures reliable && Mapped(old(image), address, |data|) ==>
                ok && bytesWritten == |data| && image == Put(old(image), address, data)
    {
      if reliable && Mapped(image, address, |data|) {
        image := Put(image, address, data);
        return true, |data|;
      }
      var landed: seq<Byte> := *;
      image := map k: nat | k in image ::
        if address <= k < address + |data| && k - address < |landed| then landed[k - address] else image[k];
      ok := *;
      bytesWritten :| 0 <= bytesWritten;
    }
  }
}
