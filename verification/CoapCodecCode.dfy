/** The CoAP codec as the C code has it: an option iterator that is advanced in
    place, a parser that walks the options once, and encoders that write into a
    buffer. */
module CoapCodecCode {
  import opened Basics
  import opened ByteWriter
  import opened CoapCodec

  // ----------------------------------------------------------------- reading

  /** The position after a delta or length field. */
  method DecodeOptionField(nibble: nat, bytes: seq<byte>, at: nat) returns (ok: bool, value: nat, next: nat)
    requires at <= |bytes|
    ensures ok <==> DecodeField(nibble, bytes[at..]).Some?
    ensures ok ==> at <= next <= |bytes| && DecodeField(nibble, bytes[at..]) == Some(Field(value, next - at))
  {
    ok, value, next := false, 0, at;
    if nibble < 13 {
      ok, value := true, nibble;
    } else if nibble == 13 {
      if |bytes| - at < 1 {
        return;
      }
      ok, value, next := true, bytes[at] as int + 13, at + 1;
    } else if nibble == 14 {
      if |bytes| - at < 2 {
        return;
      }
      ok, value, next := true, GetU16(bytes[at..]) + 269, at + 2;
    }
  }

  class OptionIterator {
    const bytes: seq<byte>
    var at: nat
    var option: u16
    var dataBegin: nat
    var dataEnd: nat

    ghost predicate Valid()
      reads this
    {
      at <= |bytes| && dataBegin <= dataEnd <= |bytes|
    }

    constructor (b: seq<byte>, begin: nat)
      requires begin <= |b|
      ensures Valid() && bytes == b && at == begin && option == 0
    {
      bytes := b;
      at, option, dataBegin, dataEnd := begin, 0, 0, 0;
    }

    /** Advances to the next option; where there is none the iterator stays. */
    method GetNextOption() returns (ok: bool)
      requires Valid()
      modifies this
      ensures Valid()
      ensures ok <==> NextOption(old(bytes[at..]), old(option)).Some?
      ensures ok ==> NextOption(old(bytes[at..]), old(option)) == Some((Opt(option, bytes[dataBegin..dataEnd]), bytes[at..])) && at > old(at)
      ensures !ok ==> at == old(at) && option == old(option)
    {
      hide DecodeField;
      ghost var b := bytes[at..];
      if |bytes| - at < 1 {
        return false;
      }
      var first := bytes[at];
      assert b[1..] == bytes[at + 1..];
      var found, delta, p := DecodeOptionField(first / 16, bytes, at + 1);
      if !found {
        return false;
      }
      assert b[1 + (p - (at + 1))..] == bytes[p..];
      var length, q;
      found, length, q := DecodeOptionField(first % 16, bytes, p);
      if !found {
        return false;
      }
      assert bytes[p..][q - p..] == bytes[q..];
      if |bytes| - q < length {
        return false;
      }
      delta := delta + option;
      if delta > 0xFFFF {
        return false;
      }
      assert bytes[q..][..length] == bytes[q..q + length] && bytes[q..][length..] == bytes[q + length..];
      option, dataBegin, dataEnd, at := delta, q, q + length, q + length;
      ok := true;
    }
  }

  /** The value of an integer option, unless it has too many bytes. */
  method ParseVariableInt(b: seq<byte>, maxBytes: nat) returns (value: Option<nat>)
    ensures value == if |b| > maxBytes then None else Some(DecodeInt(b))
  {
    if |b| > maxBytes {
      return None;
    }
    var result: int := 0;
    for i := 0 to |b|
      invariant result == DecodeInt(b[..i])
    {
      assert b[..i + 1][..i] == b[..i];
      result := result * 256 + b[i] as int;
    }
    assert b[..|b|] == b;
    value := Some(result);
  }

  /** The fields with one more option read into them. */
  method ParseField(f: Fields, opt: Opt) returns (f': Option<Fields>)
    ensures f' == ReadField(f, opt)
  {
    if opt.number == OPTION_OBSERVE {
      var value := ParseVariableInt(opt.data, 3);
      f' := if value.None? then None else Some(f.(observe := value));
    } else if opt.number == OPTION_CONTENT_FORMAT {
      var value := ParseVariableInt(opt.data, 2);
      f' := if value.None? then None else Some(f.(contentFormat := value));
    } else if opt.number == OPTION_BLOCK1 {
      var value := ParseVariableInt(opt.data, 3);
      f' := if value.None? then None else Some(f.(repeatedBlock := f.repeatedBlock || f.block1.Some?, block1 := value));
    } else if opt.number == OPTION_BLOCK2 {
      var value := ParseVariableInt(opt.data, 3);
      f' := if value.None? then None else Some(f.(repeatedBlock := f.repeatedBlock || f.block2.Some?, block2 := value));
    } else {
      f' := Some(f);
    }
  }

  /** Walks the options once, both to validate their framing and to decode the
      ones the message carries as fields. */
  method ParseOptions(b: seq<byte>, begin: nat) returns (ok: bool, opts: seq<Opt>, fields: Fields, end: nat)
    requires begin <= |b|
    ensures end <= |b|
    ensures ok ==> WalkOptions(b[begin..], 0) == (opts, b[end..]) && ReadFields(opts) == Some(fields)
    ensures !ok ==> ReadFields(WalkOptions(b[begin..], 0).0).None?
  {
    hide NextOption, ReadField;
    ghost var all := WalkOptions(b[begin..], 0);
    var it := new OptionIterator(b, begin);
    ok, opts, fields, end := true, [], NoFields(), begin;
    var more := it.GetNextOption();
    ghost var before: seq<byte>, number: u16 := b[begin..], 0;
    assert [] + all.0 == all.0;
    while more
      invariant it.Valid() && it.bytes == b
      invariant more <==> NextOption(before, number).Some?
      invariant more ==> NextOption(before, number) == Some((Opt(it.option, b[it.dataBegin..it.dataEnd]), b[it.at..]))
      invariant !more ==> before == b[it.at..]
      invariant opts + WalkOptions(before, number).0 == all.0 && WalkOptions(before, number).1 == all.1
      invariant ReadFields(opts) == Some(fields)
      decreases |before|
    {
      var opt := Opt(it.option, b[it.dataBegin..it.dataEnd]);
      ghost var rest := WalkOptions(b[it.at..], it.option);
      assert opts + ([opt] + rest.0) == (opts + [opt]) + rest.0;
      assert (opts + [opt])[..|opts|] == opts;
      var f := ParseField(fields, opt);
      if f.None? {
        assert all.0[..|opts| + 1] == opts + [opt];
        FieldsFail(all.0, |opts| + 1);
        ok := false;
        return;
      }
      opts, fields := opts + [opt], f.value;
      before, number := b[it.at..], it.option;
      more := it.GetNextOption();
    }
    end := it.at;
    assert opts + [] == opts;
  }

  /** Parses a message; nothing is returned for one that is malformed. */
  method ParseIncoming(b: seq<byte>) returns (r: Option<Incoming>)
    ensures r == ParseMessage(b)
  {
    hide WalkOptions, ReadFields, GetU16;
    if |b| < 4 {
      return None;
    }
    var first := b[0];
    var tokenLength: nat := first % 16;
    if first / 64 != 1 {
      return None;
    }
    if tokenLength > MAX_TOKEN {
      return None;
    }
    if |b| < tokenLength + 4 {
      return None;
    }
    var begin := 4 + tokenLength;
    var ok, opts, fields, end := ParseOptions(b, begin);
    if !ok {
      return None;
    }
    var kind, messageId, token := first / 16 % 4, GetU16(b[2..]), b[4..begin];
    if |b| - end == 0 {
      return Some(Incoming(Message(kind, b[1], messageId, token, opts, []), fields));
    }
    if b[end] == PAYLOAD_MARKER {
      if |b| - end < 2 {
        return None;
      }
      assert b[end..][1..] == b[end + 1..];
      return Some(Incoming(Message(kind, b[1], messageId, token, opts, b[end + 1..]), fields));
    }
    r := None;
  }

  // ----------------------------------------------------------------- writing

  method EncodeOptionField(w: Writer, value: nat) returns (nibble: nat)
    requires w.Valid() && value <= MAX_OPTION_LENGTH
    modifies w, w.buffer
    ensures w.Valid() && w.wanted == old(w.wanted) + Extension(value) && nibble == Nibble(value)
    ensures w.ptr.Some? <==> old(w.ptr).Some? && |w.wanted| <= w.buffer.Length
  {
    if value < 13 {
      nibble := value;
    } else if value < 269 {
      nibble := 13;
      w.WriteUint8(value - 13);
    } else {
      nibble := 14;
      w.WriteUint16(value - 269);
    }
  }

  /** Writes the fields, then the byte in front of them, then the value. */
  method EncodeOptionInto(w: Writer, delta: nat, data: seq<byte>)
    requires w.Valid() && delta <= 0xFFFF
    modifies w, w.buffer
    ensures w.Valid()
    ensures |data| > MAX_OPTION_LENGTH ==> w.ptr.None?
    ensures |data| <= MAX_OPTION_LENGTH ==>
              w.wanted == old(w.wanted) + EncodeOption(delta, data) &&
              (w.ptr.Some? <==> old(w.ptr).Some? && |w.wanted| <= w.buffer.Length)
  {
    hide U16, Extension, Nibble;
    ghost var before := w.wanted;
    if |data| > MAX_OPTION_LENGTH {
      w.Fail();
      return;
    }
    var start := w.ptr;
    w.WriteUint8(0);
    var deltaNibble := EncodeOptionField(w, delta);
    var lengthNibble := EncodeOptionField(w, |data|);
    w.EncodeBuffer(data);
    if w.ptr.Some? {
      ghost var unpatched := w.wanted;
      w.PatchUint8(start.value, deltaNibble * 16 + lengthNibble);
    } else {
      w.Want(before + EncodeOption(delta, data));
    }
    assert w.wanted == before + EncodeOption(delta, data);
  }

  method EncodeMessage(w: Writer, m: Message)
    requires w.Valid() && w.ptr.Some? && MessageFits(m)
    modifies w, w.buffer
    ensures w.Valid()
    ensures w.ptr.Some? <==> |old(w.wanted)| + |Encode(m)| <= w.buffer.Length
    ensures w.ptr.Some? ==> w.wanted == old(w.wanted) + Encode(m)
  {
    hide OptionsFit, EncodeOptions, EncodeHeader, EncodePayload, Writer.Valid;
    EncodeHeaderInto(w, m);
    EncodeOptionsInto(w, m.options);
    EncodePayloadInto(w, m.payload);
  }

  method EncodeOptionsInto(w: Writer, opts: seq<Opt>)
    requires w.Valid() && OptionsFit(opts, 0)
    modifies w, w.buffer
    ensures w.Valid() && w.wanted == old(w.wanted) + EncodeOptions(opts, 0)
    ensures w.ptr.Some? <==> old(w.ptr).Some? && |w.wanted| <= w.buffer.Length
  {
    hide EncodeOption, OptionsFit;
    var current: u16 := 0;
    assert opts[0..] == opts;
    for i := 0 to |opts|
      invariant w.Valid() && OptionsFit(opts[i..], current)
      invariant w.wanted + EncodeOptions(opts[i..], current) == old(w.wanted) + EncodeOptions(opts, 0)
      invariant w.ptr.Some? <==> old(w.ptr).Some? && |w.wanted| <= w.buffer.Length
    {
      ghost var rest := opts[i..];
      assert rest[0] == opts[i] && rest[1..] == opts[i + 1..];
      NextFits(rest, current);
      ghost var before, more := w.wanted, EncodeOptions(opts[i + 1..], opts[i].number);
      ghost var bytes := EncodeOption(opts[i].number - current, opts[i].data);
      EncodeOptionInto(w, opts[i].number - current, opts[i].data);
      assert before + (bytes + more) == w.wanted + more;
      current := opts[i].number;
    }
    assert w.wanted + [] == w.wanted;
  }

  lemma NextFits(opts: seq<Opt>, number: u16)
    requires OptionsFit(opts, number) && opts != []
    ensures number <= opts[0].number && |opts[0].data| <= MAX_OPTION_LENGTH && OptionsFit(opts[1..], opts[0].number)
  {
  }

  method EncodeHeaderInto(w: Writer, m: Message)
    requires w.Valid() && w.ptr.Some? && MessageFits(m)
    modifies w, w.buffer
    ensures w.Valid() && w.wanted == old(w.wanted) + EncodeHeader(m)
    ensures w.ptr.Some? <==> |w.wanted| <= w.buffer.Length
  {
    hide U16, OptionsFit;
    w.WriteUint8(0x40 + m.kind * 16 + |m.token|);
    w.WriteUint8(m.code);
    w.WriteUint16(m.messageId);
    w.EncodeBuffer(m.token);
  }

  /** The payload behind its marker; nothing for an empty payload. */
  method EncodePayloadInto(w: Writer, payload: seq<byte>)
    requires w.Valid()
    modifies w, w.buffer
    ensures w.Valid() && w.wanted == old(w.wanted) + EncodePayload(payload)
    ensures w.ptr.Some? <==> old(w.ptr).Some? && |w.wanted| <= w.buffer.Length
  {
    if payload == [] {
      return;
    }
    w.WriteUint8(PAYLOAD_MARKER);
    w.EncodeBuffer(payload);
  }

  /** Counts the bytes of a value and then fills them in from the last one. */
  method EncodeVariableInt(value: nat, maxBytes: nat) returns (b: Option<seq<byte>>)
    ensures b == if |EncodeInt(value)| > maxBytes then None else Some(EncodeInt(value))
  {
    var count, copy := 0, value;
    while copy > 0
      invariant count + |EncodeInt(copy)| == |EncodeInt(value)|
    {
      count, copy := count + 1, copy / 256;
    }
    if count > maxBytes {
      return None;
    }
    var encoded := new byte[count](_ => 0);
    var at := count;
    copy := value;
    while copy > 0
      invariant at <= count && |EncodeInt(copy)| == at
      invariant EncodeInt(copy) + encoded[at..] == EncodeInt(value)
    {
      at := at - 1;
      encoded[at] := copy % 256;
      assert encoded[at..] == [copy % 256] + encoded[at + 1..];
      copy := copy / 256;
    }
    assert [] + encoded[at..] == encoded[..];
    b := Some(encoded[..]);
  }
}
