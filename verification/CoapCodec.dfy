/** CoAP messages as bytes (section 3 of RFC 7252): a header, a token, a list of
    options with delta encoded numbers, and a payload behind a marker. */
module CoapCodec {
  import opened Basics

  const MAX_OPTION_LENGTH: nat := 0xFFFF + 269
  const PAYLOAD_MARKER: byte := 0xFF
  const MAX_TOKEN: nat := 8

  // ----------------------------------------------- option delta and length

  /** The nibble of a delta or length. */
  function Nibble(value: nat): (nibble: nat)
    ensures nibble <= 14
  {
    if value < 13 then value else if value < 269 then 13 else 14
  }

  function Extension(value: nat): seq<byte>
    requires value <= MAX_OPTION_LENGTH
  {
    if value < 13 then [] else if value < 269 then [value - 13] else U16(value - 269)
  }

  datatype Field = Field(value: nat, used: nat)

  /** A delta or length field: the nibble and the bytes that may follow. */
  function DecodeField(nibble: nat, b: seq<byte>): (f: Option<Field>)
    ensures f.Some? ==> f.value.used <= |b| && f.value.value <= MAX_OPTION_LENGTH
  {
    if nibble < 13 then Some(Field(nibble, 0))
    else if nibble == 13 then (if |b| < 1 then None else Some(Field(b[0] as int + 13, 1)))
    else if nibble == 14 then (if |b| < 2 then None else Some(Field(GetU16(b) + 269, 2)))
    else None
  }

  /** The three ranges are disjoint, so a value has one encoding and an
      encoding one value. */
  lemma FieldInverse(value: nat, rest: seq<byte>)
    requires value <= MAX_OPTION_LENGTH
    ensures DecodeField(Nibble(value), Extension(value) + rest) == Some(Field(value, |Extension(value)|))
  {
    if value >= 269 {
      assert (U16(value - 269) + rest)[..2] == U16(value - 269);
    }
  }

  lemma FieldUnique(nibble: nat, b: seq<byte>)
    requires DecodeField(nibble, b).Some?
    ensures var f := DecodeField(nibble, b).value;
            nibble == Nibble(f.value) && b[..f.used] == Extension(f.value)
  {
    if nibble == 14 {
      U16Inverse(b);
    }
  }

  // ------------------------------------------------------------------ options

  datatype Opt = Opt(number: u16, data: seq<byte>)

  function EncodeOption(delta: nat, data: seq<byte>): seq<byte>
    requires delta <= 0xFFFF && |data| <= MAX_OPTION_LENGTH
  {
    [Nibble(delta) * 16 + Nibble(|data|)] + Extension(delta) + Extension(|data|) + data
  }

  /** The next option and the bytes after it, unless it cannot be decoded. */
  function NextOption(b: seq<byte>, number: u16): (next: Option<(Opt, seq<byte>)>)
    ensures next.Some? ==> |next.value.1| < |b|
  {
    if b == [] then None
    else
      match DecodeField(b[0] / 16, b[1..])
      case None => None
      case Some(delta) =>
        var afterDelta := b[1 + delta.used..];
        match DecodeField(b[0] % 16, afterDelta)
        case None => None
        case Some(length) =>
          var value := afterDelta[length.used..];
          if |value| < length.value || number + delta.value > 0xFFFF then None
          else Some((Opt(number + delta.value, value[..length.value]), value[length.value..]))
  }

  /** All options up to the end or the first that cannot be decoded, and what is
      left there. */
  function WalkOptions(b: seq<byte>, number: u16): (seq<Opt>, seq<byte>)
    decreases |b|
  {
    match NextOption(b, number)
    case None => ([], b)
    case Some(next) =>
      var rest := WalkOptions(next.1, next.0.number);
      ([next.0] + rest.0, rest.1)
  }

  /** Options in the order of their numbers, each short enough. */
  predicate OptionsFit(opts: seq<Opt>, number: u16) {
    opts == [] ||
    (number <= opts[0].number && |opts[0].data| <= MAX_OPTION_LENGTH && OptionsFit(opts[1..], opts[0].number))
  }

  function EncodeOptions(opts: seq<Opt>, number: u16): seq<byte>
    requires OptionsFit(opts, number)
  {
    if opts == [] then []
    else EncodeOption(opts[0].number - number, opts[0].data) + EncodeOptions(opts[1..], opts[0].number)
  }

  /** Where an option list can end. */
  predicate EndsOptions(rest: seq<byte>) {
    rest == [] || rest[0] == PAYLOAD_MARKER
  }

  lemma EndIsNoOption(rest: seq<byte>, number: u16)
    requires EndsOptions(rest)
    ensures NextOption(rest, number) == None
  {
  }

  lemma NextEncoded(delta: nat, data: seq<byte>, rest: seq<byte>, number: u16)
    requires number + delta <= 0xFFFF && |data| <= MAX_OPTION_LENGTH
    ensures NextOption(EncodeOption(delta, data) + rest, number) == Some((Opt(number + delta, data), rest))
  {
    hide U16, GetU16, DecodeField, Extension, Nibble;
    var d, l := Extension(delta), Extension(|data|);
    var b := EncodeOption(delta, data) + rest;
    var tail := data + rest;
    Skip([Nibble(delta) * 16 + Nibble(|data|)], d, l, tail);
    assert b == [Nibble(delta) * 16 + Nibble(|data|)] + d + l + tail;
    FieldInverse(delta, l + tail);
    FieldInverse(|data|, tail);
    assert tail[..|data|] == data && tail[|data|..] == rest;
  }

  lemma Skip(first: seq<byte>, d: seq<byte>, l: seq<byte>, tail: seq<byte>)
    requires |first| == 1
    ensures var b := first + d + l + tail;
            && b[0] == first[0] && b[1..] == d + (l + tail) && b[1 + |d|..] == l + tail && b[1 + |d|..][|l|..] == tail
  {
    var b := first + d + l + tail;
    assert b == first + (d + (l + tail));
  }

  lemma {:induction false} WalkEncoded(opts: seq<Opt>, number: u16, rest: seq<byte>)
    requires OptionsFit(opts, number) && EndsOptions(rest)
    ensures WalkOptions(EncodeOptions(opts, number) + rest, number) == (opts, rest)
    decreases |opts|
  {
    hide NextOption, EncodeOption;
    if opts == [] {
      assert EncodeOptions(opts, number) + rest == rest;
      EndIsNoOption(rest, number);
    } else {
      var first, more := EncodeOption(opts[0].number - number, opts[0].data), EncodeOptions(opts[1..], opts[0].number);
      assert first + more + rest == first + (more + rest);
      NextEncoded(opts[0].number - number, opts[0].data, more + rest, number);
      WalkEncoded(opts[1..], opts[0].number, rest);
      assert [opts[0]] + opts[1..] == opts;
    }
  }

  lemma EncodedNext(b: seq<byte>, number: u16)
    requires NextOption(b, number).Some?
    ensures var (opt, rest) := NextOption(b, number).value;
            && number <= opt.number && |opt.data| <= MAX_OPTION_LENGTH
            && b == EncodeOption(opt.number - number, opt.data) + rest
  {
    hide U16, GetU16, DecodeField, Extension;
    var delta := DecodeField(b[0] / 16, b[1..]).value;
    var afterDelta := b[1 + delta.used..];
    var length := DecodeField(b[0] % 16, afterDelta).value;
    FieldUnique(b[0] / 16, b[1..]);
    FieldUnique(b[0] % 16, afterDelta);
    var value := afterDelta[length.used..];
    Split(b, delta.used, length.used, length.value);
  }

  lemma Split(b: seq<byte>, i: nat, j: nat, n: nat)
    requires 1 + i + j + n <= |b|
    ensures var v := b[1 + i..][j..];
            b == [b[0]] + b[1..][..i] + b[1 + i..][..j] + v[..n] + v[n..]
  {
  }

  lemma {:induction false} EncodedWalk(b: seq<byte>, number: u16)
    ensures var (opts, rest) := WalkOptions(b, number);
            OptionsFit(opts, number) && b == EncodeOptions(opts, number) + rest
    decreases |b|
  {
    hide NextOption, EncodeOption;
    if NextOption(b, number).Some? {
      var (opt, after) := NextOption(b, number).value;
      EncodedNext(b, number);
      EncodedWalk(after, opt.number);
      var (opts, rest) := WalkOptions(after, opt.number);
      assert ([opt] + opts)[1..] == opts;
      assert EncodeOption(opt.number - number, opt.data) + (EncodeOptions(opts, opt.number) + rest) ==
             EncodeOption(opt.number - number, opt.data) + EncodeOptions(opts, opt.number) + rest;
    } else {
      assert [] + b == b;
    }
  }

  // ----------------------------------------------------------------- messages

  datatype Message = Message(kind: nat, code: byte, messageId: u16, token: seq<byte>, options: seq<Opt>, payload: seq<byte>)

  predicate MessageFits(m: Message) {
    m.kind < 4 && |m.token| <= MAX_TOKEN && OptionsFit(m.options, 0)
  }

  function EncodeHeader(m: Message): seq<byte>
    requires MessageFits(m)
  {
    [0x40 + m.kind * 16 + |m.token|, m.code] + U16(m.messageId) + m.token
  }

  function EncodePayload(payload: seq<byte>): seq<byte> {
    if payload == [] then [] else [PAYLOAD_MARKER] + payload
  }

  function Encode(m: Message): seq<byte>
    requires MessageFits(m)
  {
    EncodeHeader(m) + EncodeOptions(m.options, 0) + EncodePayload(m.payload)
  }

  /** The framing of a message: None if header, token, options or payload marker
      are malformed. */
  function Parse(b: seq<byte>): Option<Message> {
    if |b| < 4 || b[0] / 64 != 1 || b[0] % 16 > MAX_TOKEN || |b| < 4 + b[0] % 16 then None
    else
      var n: nat := b[0] % 16;
      var (options, rest) := WalkOptions(b[4 + n..], 0);
      if rest == [] then Some(Message(b[0] / 16 % 4, b[1], GetU16(b[2..]), b[4..4 + n], options, []))
      else if rest[0] != PAYLOAD_MARKER || |rest| < 2 then None
      else Some(Message(b[0] / 16 % 4, b[1], GetU16(b[2..]), b[4..4 + n], options, rest[1..]))
  }

  lemma EncodedParts(m: Message)
    requires MessageFits(m)
    ensures var b, n := Encode(m), |m.token|; var tail := EncodeOptions(m.options, 0) + EncodePayload(m.payload);
            && |b| >= 4 + n && b[0] == 0x40 + m.kind * 16 + n && b[1] == m.code
            && b[2..] == U16(m.messageId) + (m.token + tail) && b[4..4 + n] == m.token && b[4 + n..] == tail
  {
    hide U16, EncodeOptions, OptionsFit, EncodePayload;
    var b, n := Encode(m), |m.token|;
    var tail := EncodeOptions(m.options, 0) + EncodePayload(m.payload);
    assert b == [0x40 + m.kind * 16 + n, m.code] + (U16(m.messageId) + (m.token + tail));
    assert b[2..] == U16(m.messageId) + (m.token + tail);
  }

  lemma ParseEncoded(m: Message)
    requires MessageFits(m)
    ensures Parse(Encode(m)) == Some(m)
  {
    hide U16, GetU16, WalkOptions, EncodeOptions, OptionsFit;
    var b, n := Encode(m), |m.token|;
    var tail := EncodeOptions(m.options, 0) + EncodePayload(m.payload);
    EncodedParts(m);
    FirstTwo(m.messageId, m.token + tail);
    WalkEncoded(m.options, 0, EncodePayload(m.payload));
  }

  lemma FirstTwo(n: u16, rest: seq<byte>)
    ensures GetU16(U16(n) + rest) == n
  {
  }

  lemma EncodeParsed(b: seq<byte>)
    requires Parse(b).Some?
    ensures MessageFits(Parse(b).value) && Encode(Parse(b).value) == b
  {
    hide U16, GetU16, WalkOptions, EncodeOptions, OptionsFit;
    var m := Parse(b).value;
    var n: nat := b[0] % 16;
    EncodedWalk(b[4 + n..], 0);
    U16Inverse(b[2..]);
    var (options, rest) := WalkOptions(b[4 + n..], 0);
    assert rest == EncodePayload(m.payload) by {
      assert rest != [] ==> rest == [rest[0]] + rest[1..];
    }
    assert b[0] == 0x40 + m.kind * 16 + |m.token|;
    HeaderSplit(b, n);
  }

  lemma HeaderSplit(b: seq<byte>, n: nat)
    requires 4 + n <= |b|
    ensures b == [b[0], b[1]] + b[2..][..2] + b[4..4 + n] + b[4 + n..]
  {
  }

  /** Parsing and encoding are inverse to each other: a message is parsed from
      exactly the bytes it is encoded to. */
  lemma Bijection(b: seq<byte>, m: Message)
    ensures Parse(b) == Some(m) <==> MessageFits(m) && b == Encode(m)
  {
    hide Parse, Encode, MessageFits;
    if MessageFits(m) {
      ParseEncoded(m);
    }
    if Parse(b).Some? {
      EncodeParsed(b);
    }
  }

  /** Re-encoding the options of any accepted packet gives the same bytes. */
  lemma OptionBytesAreTheirOptions(b: seq<byte>)
    requires Parse(b).Some?
    ensures var m := Parse(b).value; var start := 4 + |m.token|;
            && OptionsFit(m.options, 0) && start + |EncodeOptions(m.options, 0)| <= |b|
            && b[start..start + |EncodeOptions(m.options, 0)|] == EncodeOptions(m.options, 0)
  {
    hide Parse, EncodeOptions, OptionsFit;
    EncodeParsed(b);
    var m := Parse(b).value;
    var h, o := EncodeHeader(m), EncodeOptions(m.options, 0);
    assert |h| == 4 + |m.token|;
    assert b[|h|..|h| + |o|] == o;
  }

  // ------------------------------------------------------- variable integers

  function DecodeInt(b: seq<byte>): nat {
    if b == [] then 0 else DecodeInt(b[..|b| - 1]) * 256 + b[|b| - 1]
  }

  /** The shortest big-endian form; 0 has no bytes. */
  function EncodeInt(value: nat): (b: seq<byte>)
    ensures DecodeInt(b) == value
  {
    if value == 0 then [] else
      var front := EncodeInt(value / 256);
      assert (front + [value % 256])[..|front|] == front;
      front + [value % 256]
  }

  /** What was encoded without a leading zero is encoded the same again. */
  lemma {:induction false} IntUnique(b: seq<byte>)
    ensures EncodeInt(DecodeInt(b)) == b <==> b == [] || b[0] != 0
  {
    if |b| == 1 {
      assert b[..0] == [];
      assert EncodeInt(0) + [b[0]] == b;
    } else if |b| > 1 {
      var n := |b| - 1;
      IntUnique(b[..n]);
      assert b == b[..n] + [b[n]];
      var v := DecodeInt(b);
      assert v / 256 == DecodeInt(b[..n]) && v % 256 == b[n];
      if b[0] != 0 {
        NonZero(b[..n]);
      }
    }
  }

  lemma {:induction false} NonZero(b: seq<byte>)
    requires b != [] && b[0] != 0
    ensures DecodeInt(b) > 0
  {
    if |b| > 1 {
      NonZero(b[..|b| - 1]);
    }
  }

  // ------------------------------------------------- the non-repeatable options

  const OPTION_OBSERVE: u16 := 6
  const OPTION_CONTENT_FORMAT: u16 := 12
  const OPTION_BLOCK2: u16 := 23
  const OPTION_BLOCK1: u16 := 27

  datatype Fields = Fields(observe: Option<nat>, contentFormat: Option<nat>, block1: Option<nat>, block2: Option<nat>, repeatedBlock: bool)

  function NoFields(): Fields { Fields(None, None, None, None, false) }

  /** How many bytes the integer in an option may have. */
  function MaxBytes(number: u16): nat {
    if number == OPTION_CONTENT_FORMAT then 2 else 3
  }

  function Decoded(number: u16): (decoded: bool) {
    number == OPTION_OBSERVE || number == OPTION_CONTENT_FORMAT || number == OPTION_BLOCK1 || number == OPTION_BLOCK2
  }

  /** The fields after one more option: the last of a kind counts, and a block
      option that has been seen before is noted. */
  function ReadField(f: Fields, opt: Opt): Option<Fields> {
    if !Decoded(opt.number) then Some(f)
    else if |opt.data| > MaxBytes(opt.number) then None
    else
      var value := DecodeInt(opt.data);
      if opt.number == OPTION_OBSERVE then Some(f.(observe := Some(value)))
      else if opt.number == OPTION_CONTENT_FORMAT then Some(f.(contentFormat := Some(value)))
      else if opt.number == OPTION_BLOCK1 then
        Some(f.(block1 := Some(value), repeatedBlock := f.repeatedBlock || f.block1.Some?))
      else Some(f.(block2 := Some(value), repeatedBlock := f.repeatedBlock || f.block2.Some?))
  }

  function ReadFields(opts: seq<Opt>): Option<Fields> {
    if opts == [] then Some(NoFields()) else
      match ReadFields(opts[..|opts| - 1])
      case None => None
      case Some(f) => ReadField(f, opts[|opts| - 1])
  }

  datatype Incoming = Incoming(message: Message, fields: Fields)

  /** A message is accepted if it is framed well and its integers are short enough. */
  function ParseMessage(b: seq<byte>): Option<Incoming> {
    match Parse(b)
    case None => None
    case Some(m) =>
      match ReadFields(m.options)
      case None => None
      case Some(f) => Some(Incoming(m, f))
  }

  lemma {:induction false} FieldsFail(opts: seq<Opt>, n: nat)
    requires n <= |opts| && ReadFields(opts[..n]).None?
    ensures ReadFields(opts).None?
    decreases |opts|
  {
    if n < |opts| {
      assert opts[..|opts| - 1][..n] == opts[..n];
      FieldsFail(opts[..|opts| - 1], n);
    } else {
      assert opts[..n] == opts;
    }
  }
}
