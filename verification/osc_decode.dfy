/** A reference reader for the packets the controller builds, following the
    message layout of Open Sound Control 1.0: a NUL-terminated, 4-aligned
    address, a NUL-terminated, 4-aligned type-tag string that starts with ',',
    then one 4-byte big-endian block per tag. It is the inverse the encoder is
    proved against. */
module OscDecode {
  import opened OscTypes
  import opened OscCodec

  /** A decoded argument. A float block is kept as its four bytes, since the
      float32 packer is not modelled. */
  datatype Value = IntV(v: int) | FloatBits(bits: Word)

  datatype Packet = Packet(address: seq<Byte>, values: seq<Value>)

  datatype FormatError = Unterminated | Truncated | MissingComma | UnknownTag(tag: Byte) | TrailingBytes

  /** The index of the first NUL byte, or |b| when there is none. */
  function FirstNul(b: seq<Byte>): (k: nat)
    ensures k <= |b|
    ensures k < |b| ==> b[k] == 0
    ensures forall j :: 0 <= j < k ==> b[j] != 0
  {
    if b == [] then 0
    else if b[0] == 0 then 0
    else 1 + FirstNul(b[1..])
  }

  /** Reads one OSC-string: the bytes before the first NUL, and what follows
      the padding that brings the segment to a multiple of 4. */
  function ReadOscString(b: seq<Byte>): (r: Result<(seq<Byte>, seq<Byte>), FormatError>)
    ensures r.Ok? ==>
      var (s, rest) := r.value;
      var used := |b| - |rest|;
      && 0 !in s
      && |s| < used <= |s| + 4 && used % 4 == 0
      && b[..|s|] == s && b[|s|] == 0
      && rest == b[used..]
    ensures r.Err? <==> 0 !in b || (FirstNul(b) + 4) / 4 * 4 > |b|
  {
    var k := FirstNul(b);
    if k == |b| then Err(Unterminated)
    else
      var n := (k + 4) / 4 * 4;
      if n > |b| then Err(Truncated) else Ok((b[..k], b[n..]))
  }

  /** One 4-byte block per tag: 'i' (105) as int32, 'f' (102) as float bits. */
  function ReadArgs(tags: seq<Byte>, b: seq<Byte>): (r: Result<seq<Value>, FormatError>)
    ensures r.Ok? ==> |r.value| == |tags| && |b| == 4 * |tags|
    decreases |tags|
  {
    if tags == [] then
      if b == [] then Ok([]) else Err(TrailingBytes)
    else if tags[0] != 'i' as int && tags[0] != 'f' as int then Err(UnknownTag(tags[0]))
    else if |b| < 4 then Err(Truncated)
    else
      var v := if tags[0] == 'i' as int then IntV(Int32Value(b[..4])) else FloatBits(b[..4]);
      match ReadArgs(tags[1..], b[4..])
      case Err(e) => Err(e)
      case Ok(vs) => Ok([v] + vs)
  }

  function Decode(p: seq<Byte>): Result<Packet, FormatError> {
    match ReadOscString(p)
    case Err(e) => Err(e)
    case Ok((address, rest)) =>
      match ReadOscString(rest)
      case Err(e) => Err(e)
      case Ok((tags, body)) =>
        if tags == [] || tags[0] != ',' as int then Err(MissingComma)
        else
          match ReadArgs(tags[1..], body)
          case Err(e) => Err(e)
          case Ok(vs) => Ok(Packet(address, vs))
  }

  /** A decoded packet's address is the first OSC-string of the bytes. */
  lemma DecodeAddress(p: seq<Byte>)
    ensures Decode(p).Ok? ==> ReadOscString(p).Ok? && Decode(p).value.address == ReadOscString(p).value.0
  {
  }

  /** What a receiver should get back for one argument. */
  function Expected(f32: Float32Packer, a: Arg): Value {
    match a
    case I(v) => IntV(v)
    case F(x) => FloatBits(f32[x])
  }

  /** What a receiver should get back for a whole argument list, in order. */
  function ExpectedAll(f32: Float32Packer, args: seq<Arg>): (vs: seq<Value>)
    ensures |vs| == |args|
  {
    if args == [] then [] else [Expected(f32, args[0])] + ExpectedAll(f32, args[1..])
  }

  /** Value k of the expected list is argument k's value. */
  lemma {:induction false} ExpectedAt(f32: Float32Packer, args: seq<Arg>)
    ensures forall k :: 0 <= k < |args| ==> ExpectedAll(f32, args)[k] == Expected(f32, args[k])
  {
    if args != [] {
      ExpectedAt(f32, args[1..]);
      forall k | 0 < k < |args|
        ensures ExpectedAll(f32, args)[k] == Expected(f32, args[k])
      {
        assert ExpectedAll(f32, args)[k] == ExpectedAll(f32, args[1..])[k - 1];
      }
    }
  }

  /** A padded OSC-string of a NUL-free string reads back as its UTF-8 bytes,
      and reading resumes right after the padding. */
  lemma ReadPadded(s: string, rest: seq<Byte>)
    requires '\0' !in s
    ensures ReadOscString(PadOscString(s) + rest) == Ok((Utf8(s), rest))
  {
    var a := PadOscString(s);
    PadLength(Utf8(s));
    Utf8Nul(s);
    ReadPaddedBytes(Utf8(s), a[|Utf8(s)|..], rest);
    assert a == Utf8(s) + a[|Utf8(s)|..];
  }

  /** The same on bytes: content, then 1 to 4 NULs ending on a multiple of 4. */
  lemma ReadPaddedBytes(u: seq<Byte>, pad: seq<Byte>, rest: seq<Byte>)
    requires 0 !in u && 0 < |pad| && |u| + |pad| == (|u| + 4) / 4 * 4
    requires forall j :: 0 <= j < |pad| ==> pad[j] == 0
    ensures ReadOscString(u + pad + rest) == Ok((u, rest))
  {
    var b := u + pad + rest;
    var k := FirstNul(b);
    assert b[|u|] == 0;
    assert forall j :: 0 <= j < |u| ==> b[j] == u[j];
    assert k == |u|;
    assert b[..k] == u;
    assert b[|u| + |pad|..] == rest;
  }

  /** The argument blocks read back as the arguments, given matching tags. */
  lemma {:induction false} ReadArgsBlocks(f32: Float32Packer, tags: seq<Byte>, d: seq<Byte>, args: seq<Arg>)
    requires |tags| == |args| && |d| == 4 * |args|
    requires forall k :: 0 <= k < |args| ==> tags[k] == if args[k].F? then 'f' as int else 'i' as int
    requires forall k :: 0 <= k < |args| ==>
      PackArg(f32, args[k]).Ok? && PackArg(f32, args[k]).value == d[4 * k .. 4 * k + 4]
    ensures ReadArgs(tags, d) == Ok(ExpectedAll(f32, args))
    decreases |args|
  {
    if args != [] {
      assert PackArg(f32, args[0]).value == d[..4];
      if args[0].I? {
        Int32RoundTrip(args[0].v);
      }
      forall k | 0 <= k < |args| - 1
        ensures PackArg(f32, args[1..][k]).Ok? && PackArg(f32, args[1..][k]).value == d[4..][4 * k .. 4 * k + 4]
      {
        assert d[4..][4 * k .. 4 * k + 4] == d[4 * (k + 1) .. 4 * (k + 1) + 4];
      }
      ReadArgsBlocks(f32, tags[1..], d[4..], args[1..]);
    }
  }

  /** The UTF-8 bytes of the tag string: ',' then one 'f' or 'i' per argument. */
  lemma TagBytes(args: seq<Arg>)
    ensures var tb := Utf8(TypeTags(args));
      && |tb| == |args| + 1 && tb[0] == ',' as int
      && forall k :: 0 <= k < |args| ==> tb[1..][k] == if args[k].F? then 'f' as int else 'i' as int
  {
    TypeTagsShape(args);
    Utf8Ascii(TypeTags(args));
  }

  /** Decode succeeds once its three reading steps do. */
  lemma DecodeSteps(m: seq<Byte>, address: seq<Byte>, r1: seq<Byte>, tags: seq<Byte>, body: seq<Byte>, vs: seq<Value>)
    requires ReadOscString(m) == Ok((address, r1))
    requires ReadOscString(r1) == Ok((tags, body))
    requires tags != [] && tags[0] == ',' as int
    requires ReadArgs(tags[1..], body) == Ok(vs)
    ensures Decode(m) == Ok(Packet(address, vs))
  {
  }

  /** Round trip: decoding what `create_osc_message` builds gives back the
      address's UTF-8 bytes and every argument (ints as the same int32, floats
      as their packed bits), in order. */
  lemma RoundTrip(f32: Float32Packer, address: string, args: seq<Arg>)
    requires '\0' !in address && Encodable(args)
    ensures OscMessage(f32, address, args).Ok?
    ensures Decode(OscMessage(f32, address, args).value) == Ok(Packet(Utf8(address), ExpectedAll(f32, args)))
    ensures forall a: string :: Utf8(a) == Decode(OscMessage(f32, address, args).value).value.address ==> a == address
  {
    MessageEncodes(f32, address, args);
    assert Decode(OscMessage(f32, address, args).value) == Ok(Packet(Utf8(address), ExpectedAll(f32, args))) by {
      RoundTripPacket(f32, address, args);
    }
    forall a: string | Utf8(a) == Utf8(address)
      ensures a == address
    {
      Utf8Injective(a, address);
    }
  }

  /** The packet half of the round trip. */
  lemma RoundTripPacket(f32: Float32Packer, address: string, args: seq<Arg>)
    requires '\0' !in address && Encodable(args)
    ensures OscMessage(f32, address, args).Ok?
    ensures Decode(OscMessage(f32, address, args).value) == Ok(Packet(Utf8(address), ExpectedAll(f32, args)))
  {
    MessageEncodes(f32, address, args);
    var d := ArgsData(f32, args).value;
    var t := PadOscString(TypeTags(args));
    var tagBytes := Utf8(TypeTags(args));
    var m := OscMessage(f32, address, args).value;
    assert m == PadOscString(address) + (t + d);
    assert ReadOscString(m) == Ok((Utf8(address), t + d)) by {
      ReadPadded(address, t + d);
    }
    assert ReadOscString(t + d) == Ok((tagBytes, d)) by {
      TypeTagsShape(args);
      ReadPadded(TypeTags(args), d);
    }
    assert tagBytes != [] && tagBytes[0] == ',' as int && ReadArgs(tagBytes[1..], d) == Ok(ExpectedAll(f32, args)) by {
      ArgsDataSpec(f32, args);
      TagBytes(args);
      ReadArgsBlocks(f32, tagBytes[1..], d, args);
    }
    DecodeSteps(m, Utf8(address), t + d, tagBytes, d, ExpectedAll(f32, args));
  }
}
