/** A pointer that advances over a buffer as packets are written. */
module ByteWriter {
  import opened Basics

  /** A buffer with the pointer into it, or null once something did not fit.
      Wanted is all that has been asked to be written. */
  class Writer {
    const buffer: array<byte>
    var ptr: Option<nat>
    ghost var wanted: seq<byte>

    ghost predicate Valid()
      reads this, buffer
    {
      ptr.Some? ==> ptr.value == |wanted| <= buffer.Length && buffer[..|wanted|] == wanted
    }

    constructor (b: array<byte>)
      ensures Valid() && buffer == b && wanted == [] && ptr == Some(0)
    {
      buffer := b;
      ptr := Some(0);
      wanted := [];
    }

    method WriteUint8(val: byte)
      requires Valid()
      modifies this, buffer
      ensures Valid() && wanted == old(wanted) + [val]
      ensures ptr.Some? <==> old(ptr).Some? && |wanted| <= buffer.Length
    {
      wanted := wanted + [val];
      if ptr.None? || buffer.Length - ptr.value < 1 {
        ptr := None;
        return;
      }
      buffer[ptr.value] := val;
      ptr := Some(ptr.value + 1);
    }

    method WriteUint16(val: u16)
      requires Valid()
      modifies this, buffer
      ensures Valid() && wanted == old(wanted) + U16(val)
      ensures ptr.Some? <==> old(ptr).Some? && |wanted| <= buffer.Length
    {
      wanted := wanted + U16(val);
      if ptr.None? || buffer.Length - ptr.value < 2 {
        ptr := None;
        return;
      }
      buffer[ptr.value] := val / 256;
      buffer[ptr.value + 1] := val % 256;
      ptr := Some(ptr.value + 2);
    }

    method WriteUint32(val: u32)
      requires Valid()
      modifies this, buffer
      ensures Valid() && wanted == old(wanted) + U32(val)
      ensures ptr.Some? <==> old(ptr).Some? && |wanted| <= buffer.Length
    {
      wanted := wanted + U32(val);
      if ptr.None? || buffer.Length - ptr.value < 4 {
        ptr := None;
        return;
      }
      var high, low := val / 0x1_0000, val % 0x1_0000;
      buffer[ptr.value] := high / 256;
      buffer[ptr.value + 1] := high % 256;
      buffer[ptr.value + 2] := low / 256;
      buffer[ptr.value + 3] := low % 256;
      ptr := Some(ptr.value + 4);
    }

    method EncodeBuffer(bytes: seq<byte>)
      requires Valid()
      modifies this, buffer
      ensures Valid() && wanted == old(wanted) + bytes
      ensures ptr.Some? <==> old(ptr).Some? && |wanted| <= buffer.Length
    {
      wanted := wanted + bytes;
      if ptr.None? || buffer.Length - ptr.value < |bytes| {
        ptr := None;
        return;
      }
      for i := 0 to |bytes|
        invariant wanted == old(wanted) + bytes && ptr == old(ptr)
        invariant buffer[..ptr.value + i] == old(wanted) + bytes[..i]
      {
        buffer[ptr.value + i] := bytes[i];
      }
      ptr := Some(ptr.value + |bytes|);
    }

    /** Gives up: what is wanted cannot be written. */
    method Fail()
      modifies this
      ensures Valid() && ptr.None?
    {
      ptr := None;
    }

    /** What was wanted of a writer that has failed does not matter. */
    ghost method Want(bytes: seq<byte>)
      requires ptr.None?
      modifies this
      ensures Valid() && wanted == bytes && ptr.None?
    {
      wanted := bytes;
    }

    method PatchUint8(at: nat, val: byte)
      requires Valid() && ptr.Some? && at < |wanted|
      modifies this, buffer
      ensures Valid() && wanted == old(wanted)[at := val] && ptr == old(ptr)
    {
      wanted := wanted[at := val];
      buffer[at] := val;
    }

    /** Writes a length in the place left for it. */
    method PatchUint16(at: nat, val: u16)
      requires Valid() && ptr.Some? && at + 2 <= |wanted|
      modifies this, buffer
      ensures Valid() && wanted == old(wanted)[..at] + U16(val) + old(wanted)[at + 2..] && ptr == old(ptr)
    {
      wanted := wanted[..at] + U16(val) + wanted[at + 2..];
      buffer[at] := val / 256;
      buffer[at + 1] := val % 256;
    }
  }
}
