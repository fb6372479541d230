/**
 Reading a zero-terminated string in one block, with a byte-by-byte read to fall back on. The fast path
 never changes the outcome.
 */
module CStrings {
  import opened Wrappers
  import opened ProcessMemory

  /** The bytes from an address up to the first zero, the first unmapped address, or the limit. */
  function CStringAt(image: Image, address: nat, maxLength: nat): (s: seq<Byte>)
    ensures |s| <= maxLength
    decreases maxLength
  {
    if maxLength == 0 || address !in image || image[address] == 0 then []
    else [image[address]] + CStringAt(image, address + 1, maxLength - 1)
  }

  /** Memory holds this non-zero byte at this address. */
  predicate IsTextByte(image: Image, address: nat, b: Byte) { address in image && image[address] == b && b != 0 }

  /** The string is the longest run of mapped, non-zero bytes within the limit. */
  lemma {:induction false} CStringIsLongest(image: Image, address: nat, maxLength: nat)
    ensures var s := CStringAt(image, address, maxLength);
            && (forall i :: 0 <= i < |s| ==> IsTextByte(image, address + i, s[i]))
            && (|s| < maxLength ==> address + |s| !in image || image[address + |s|] == 0)
    decreases maxLength
  {
    if maxLength > 0 && address in image && image[address] != 0 {
      CStringIsLongest(image, address + 1, maxLength - 1);
      var s, rest := CStringAt(image, address, maxLength), CStringAt(image, address + 1, maxLength - 1);
      forall i | 0 <= i < |s| ensures IsTextByte(image, address + i, s[i]) {
        if i > 0 {
          assert s[i] == rest[i - 1] && IsTextByte(image, address + 1 + (i - 1), rest[i - 1]);
        }
      }
    }
  }

  /** A run that cannot be extended is the string. */
  lemma {:induction false} LongestIsCString(image: Image, address: nat, maxLength: nat, s: seq<Byte>)
    requires |s| <= maxLength
    requires forall i :: 0 <= i < |s| ==> IsTextByte(image, address + i, s[i])
    requires |s| < maxLength ==> address + |s| !in image || image[address + |s|] == 0
    ensures s == CStringAt(image, address, maxLength)
    decreases maxLength
  {
    if s != [] {
      var rest := s[1..];
      assert IsTextByte(image, address + 0, s[0]);
      forall i | 0 <= i < |rest| ensures IsTextByte(image, address + 1 + i, rest[i]) {
        assert rest[i] == s[i + 1] && IsTextByte(image, address + (i + 1), s[i + 1]);
      }
      LongestIsCString(image, address + 1, maxLength - 1, rest);
      assert s == [s[0]] + rest;
    }
  }

  /** The bytes from the address on, none of them zero: as many as the limit allows, or up to a zero or a gap. */
  ghost predicate IsLongestRun(image: Image, address: nat, maxLength: int, s: seq<Byte>) {
    && |s| <= maxLength
    && (forall i :: 0 <= i < |s| ==> IsTextByte(image, address + i, s[i]))
    && (|s| == maxLength || address + |s| !in image || image[address + |s|] == 0)
  }

  /** Decoding and trimming are outside this model; nothing left counts as no string. */
  function TextOf(decodeAndTrim: seq<Byte> -> string, bytes: seq<Byte>): Option<string> {
    if bytes == [] || decodeAndTrim(bytes) == "" then None else Some(decodeAndTrim(bytes))
  }

  class StringReader {
    const image: Image
    const decodeAndTrim: seq<Byte> -> string

    constructor (image: Image, decodeAndTrim: seq<Byte> -> string)
      ensures this.image == image && this.decodeAndTrim == decodeAndTrim
    {
      this.image, this.decodeAndTrim := image, decodeAndTrim;
    }

    /** A block read may fail for reasons of its own; when it succeeds, the buffer holds what memory holds. */
    method TryReadBlock(address: nat, buffer: array<Byte>) returns (ok: bool)
      modifies buffer
      ensures ok ==> Mapped(image, address, buffer.Length) && buffer[..] == Get(image, address, buffer.Length)
    {
      var lucky: bool := *;
      ok := lucky && Mapped(image, address, buffer.Length);
      var leftover: Byte := *;
      forall i | 0 <= i < buffer.Length {
        buffer[i] := if ok && address + i in image then image[address + i] else leftover;
      }
    }

    method DecodeCStringPrefix(buffer: array<Byte>, ghost address: nat) returns (text: Option<string>)
      requires Mapped(image, address, buffer.Length) && buffer[..] == Get(image, address, buffer.Length)
      ensures text == TextOf(decodeAndTrim, CStringAt(image, address, buffer.Length))
    {
      var n := 0;
      while n < buffer.Length && buffer[n] != 0
        invariant n <= buffer.Length
        invariant forall i :: 0 <= i < n ==> buffer[i] != 0
      {
        n := n + 1;
      }
      forall i | 0 <= i < buffer.Length ensures address + i in image && buffer[i] == image[address + i] {
        assert buffer[..][i] == Get(image, address, buffer.Length)[i];
      }
      LongestIsCString(image, address, buffer.Length, buffer[..n]);
      text := TextOf(decodeAndTrim, buffer[..n]);
    }

    method ReadCStringByteByByte(address: Word64, maxLength: nat) returns (text: Option<string>)
      requires forall a :: a in image ==> a < ADDRESS_SPACE
      ensures text == TextOf(decodeAndTrim, CStringAt(image, address, maxLength))
    {
      var buffer := new Byte[maxLength];
      var n := 0;
      while n < maxLength
        invariant n <= maxLength
        invariant forall i :: 0 <= i < n ==> IsTextByte(image, address + i, buffer[i])
      {
        var byteAddress := TryAdd(address, n);
        if byteAddress.None? || byteAddress.value !in image {
          break;
        }
        var b := image[byteAddress.value];
        if b == 0 {
          break;
        }
        buffer[n] := b;
        n := n + 1;
      }
      LongestIsCString(image, address, maxLength, buffer[..n]);
      text := TextOf(decodeAndTrim, buffer[..n]);
    }

    /**
     Reads in one block where possible. For every address and limit the outcome is that of reading byte by
     byte, whether the block read succeeds, fails, or comes back with nothing but blanks.
     */
    method TryReadCString(address: Word64, maxLength: int) returns (text: Option<string>)
      requires forall a :: a in image ==> a < ADDRESS_SPACE
      ensures text == if maxLength <= 0 || address + (maxLength - 1) >= ADDRESS_SPACE then None
                      else TextOf(decodeAndTrim, CStringAt(image, address, maxLength))
      ensures maxLength > 0 && address + maxLength <= 0x1_0000_0000_0000_0000 ==>
                exists s :: && IsLongestRun(image, address, maxLength, s)
                            && text == if |s| == 0 || |decodeAndTrim(s)| == 0 then None else Some(decodeAndTrim(s))
    {
      if maxLength > 0 {
        CStringIsLongest(image, address, maxLength);
        assert IsLongestRun(image, address, maxLength, CStringAt(image, address, maxLength));
      }
      if maxLength <= 0 {
        return None;
      }
      if TryAdd(address, maxLength - 1).None? {
        return None;
      }
      var buffer := new Byte[maxLength];
      var complete := TryReadBlock(address, buffer);
      if complete {
        var fromBlock := DecodeCStringPrefix(buffer, address);
        if fromBlock.Some? {
          return fromBlock;
        }
      }
      text := ReadCStringByteByByte(address, maxLength);
    }
  }
}
