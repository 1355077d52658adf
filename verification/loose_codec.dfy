/** The OSC message builder copied into the two test scripts (test_osc.py and
    test_osc_simple.py hold the same `create_osc_message`). Unlike
    `pad_osc_string` it pads a string to a multiple of 4 without forcing a
    NUL terminator, so a string whose UTF-8 length is already a multiple of
    4 goes out unterminated. */
module LooseCodec {
  import opened OscTypes
  import OscCodec
  import OscDecode

  /** `b + b'\x00' * ((4 - len(b) % 4) % 4)`: the least multiple of 4 that
      holds the bytes, filled with NULs. */
  function PadBytesLoose(b: seq<Byte>): (r: seq<Byte>)
    ensures |r| % 4 == 0
    ensures |b| <= |r| < |b| + 4
    ensures r[..|b|] == b
    ensures forall k :: |b| <= k < |r| ==> r[k] == 0
  {
    b + Zeros((4 - |b| % 4) % 4)
  }

  /** The padded UTF-8 bytes of a string, as the test scripts pad it. */
  function PadLoose(s: string): (r: seq<Byte>)
    ensures |r| % 4 == 0
    ensures |Utf8(s)| <= |r| < |Utf8(s)| + 4
    ensures r[..|Utf8(s)|] == Utf8(s)
    ensures forall k :: |Utf8(s)| <= k < |r| ==> r[k] == 0
  {
    PadBytesLoose(Utf8(s))
  }

  /** The test scripts' `create_osc_message`. */
  function LooseMessage(f32: Float32Packer, address: string, args: seq<Arg>): Result<seq<Byte>, EncodeError> {
    match ArgsData(f32, args)
    case Err(e) => Err(e)
    case Ok(d) => Ok(PadLoose(address) + PadLoose(TypeTags(args)) + d)
  }

  /** The test scripts' `create_osc_message`, statement by statement. */
  method CreateLooseMessage(f32: Float32Packer, address: string, args: seq<Arg>)
    returns (r: Result<seq<Byte>, EncodeError>)
    ensures r == LooseMessage(f32, address, args)
  {
    var addressData := PadLoose(address);
    var typeTagData := PadLoose(TypeTags(args));
    var argsData := PackArgs(f32, args);
    if argsData.Err? {
      return Err(argsData.error);
    }
    return Ok(addressData + typeTagData + argsData.value);
  }

  /** As in the controller, the message is built exactly when every int
      argument fits in int32. */
  lemma LooseMessageEncodes(f32: Float32Packer, address: string, args: seq<Arg>)
    ensures LooseMessage(f32, address, args).Ok? <==> Encodable(args)
  {
    ArgsDataSpec(f32, args);
  }

  /** Where the two paddings agree: byte for byte when the length is not a
      multiple of 4; otherwise the OSC padding is the loose padding plus a
      whole word of NULs, and the loose one adds nothing. */
  lemma PadBytesAgreement(b: seq<Byte>)
    ensures |b| % 4 != 0 ==> PadBytesLoose(b) == OscCodec.Pad(b)
    ensures |b| % 4 == 0 ==> PadBytesLoose(b) == b && OscCodec.Pad(b) == b + [0, 0, 0, 0]
  {
    var r := |b| % 4;
    assert (|b| + 1) % 4 == (r + 1) % 4;
    if r == 0 {
      assert OscCodec.Pad(b) == b + [0] + Zeros(3);
    } else if r == 1 {
      assert OscCodec.Pad(b) == b + [0] + Zeros(2);
      assert [0] + Zeros(2) == Zeros(3);
    } else if r == 2 {
      assert OscCodec.Pad(b) == b + [0] + Zeros(1);
      assert [0] + Zeros(1) == Zeros(2);
    } else {
      assert OscCodec.Pad(b) == b + [0] + Zeros(0);
      assert [0] + Zeros(0) == Zeros(1);
    }
  }

  /** The same on strings; a NUL-free string whose UTF-8 length is a multiple
      of 4 leaves the test scripts with no terminator at all. */
  lemma PadAgreement(s: string)
    ensures |Utf8(s)| % 4 != 0 ==> PadLoose(s) == OscCodec.PadOscString(s)
    ensures |Utf8(s)| % 4 == 0 ==> OscCodec.PadOscString(s) == PadLoose(s) + [0, 0, 0, 0]
    ensures |Utf8(s)| % 4 == 0 && '\0' !in s ==> 0 !in PadLoose(s)
  {
    PadBytesAgreement(Utf8(s));
    Utf8Nul(s);
  }

  /** An encodable argument list encodes under both builders; the two
      messages are equal exactly when neither the address nor the tag string
      has a UTF-8 length that is a multiple of 4, and the strict one is 4
      bytes longer for each segment that has. */
  lemma MessageAgreement(f32: Float32Packer, address: string, args: seq<Arg>)
    requires Encodable(args)
    ensures OscCodec.OscMessage(f32, address, args).Ok? && LooseMessage(f32, address, args).Ok?
    ensures |OscCodec.OscMessage(f32, address, args).value| ==
      |LooseMessage(f32, address, args).value|
      + (if |Utf8(address)| % 4 == 0 then 4 else 0)
      + (if (|args| + 1) % 4 == 0 then 4 else 0)
    ensures OscCodec.OscMessage(f32, address, args) == LooseMessage(f32, address, args) <==>
      |Utf8(address)| % 4 != 0 && (|args| + 1) % 4 != 0
  {
    ArgsDataSpec(f32, args);
    PadAgreement(address);
    PadAgreement(TypeTags(args));
    TypeTagsShape(args);
    Utf8Ascii(TypeTags(args));
  }

  /** `"/pan"` goes out of the test scripts with no terminator: its four
      bytes are the whole address segment. */
  lemma PanAddressUnterminated()
    ensures Utf8("/pan") == [0x2F, 0x70, 0x61, 0x6E]
    ensures PadLoose("/pan") == Utf8("/pan") && 0 !in PadLoose("/pan")
    ensures OscCodec.PadOscString("/pan") == [0x2F, 0x70, 0x61, 0x6E, 0, 0, 0, 0]
  {
    assert Utf8("/pan") == [0x2F, 0x70, 0x61, 0x6E] by {
      assert "/pan" == ['/'] + "pan";
      assert "pan" == ['p'] + "an";
      assert "an" == ['a'] + "n";
      assert "n" == ['n'] + "";
    }
    PadAgreement("/pan");
  }

  /** The tag string of one float argument, ",f", padded by the test scripts. */
  lemma OneFloatTagSegment(x: real)
    ensures PadLoose(TypeTags([F(x)])) == [0x2C, 0x66, 0, 0]
  {
    var tags := TypeTags([F(x)]);
    TypeTagsShape([F(x)]);
    assert tags == [','] + ['f'];
    assert ['f'] == ['f'] + "";
    assert Utf8(tags) == [0x2C, 0x66];
  }

  /** The whole packet the test scripts build for `/pan <float>`. */
  lemma PanPacketBytes(f32: Float32Packer, x: real)
    ensures LooseMessage(f32, "/pan", [F(x)]) == Ok([0x2F, 0x70, 0x61, 0x6E, 0x2C, 0x66, 0, 0] + f32[x])
  {
    PanAddressUnterminated();
    OneFloatTagSegment(x);
    var args := [F(x)];
    assert args[..0] == [];
    assert ArgsData(f32, args) == Ok([] + f32[x]);
    assert [] + f32[x] == f32[x];
    assert PadLoose("/pan") + PadLoose(TypeTags(args)) == [0x2F, 0x70, 0x61, 0x6E, 0x2C, 0x66, 0, 0];
  }

  /** A reader takes the first six bytes of that packet, "/pan,f", as its
      address: the first NUL is the one after the tag string. */
  lemma PanPacketFirstString(w: Word)
    ensures var m: seq<Byte> := [0x2F, 0x70, 0x61, 0x6E, 0x2C, 0x66, 0, 0] + w;
      && OscDecode.ReadOscString(m).Ok?
      && OscDecode.ReadOscString(m).value.0 == [0x2F, 0x70, 0x61, 0x6E, 0x2C, 0x66]
  {
    var m: seq<Byte> := [0x2F, 0x70, 0x61, 0x6E, 0x2C, 0x66, 0, 0] + w;
    assert OscDecode.FirstNul(m) == 6 by {
      assert m[6] == 0;
      assert forall j :: 0 <= j < 6 ==> m[j] != 0;
    }
    assert m[..6] == [0x2F, 0x70, 0x61, 0x6E, 0x2C, 0x66];
  }

  /** The packet the test scripts send for `/pan <float>` does not read back
      as that message: the first NUL comes after the tag string's ",f", so a
      reader takes "/pan,f" as the address. `pad_osc_string` has no such case
      (OscDecode.RoundTrip). */
  lemma PanPacketMisread(f32: Float32Packer, x: real)
    ensures LooseMessage(f32, "/pan", [F(x)]).Ok?
    ensures var m := LooseMessage(f32, "/pan", [F(x)]).value;
      && OscDecode.ReadOscString(m).Ok?
      && OscDecode.ReadOscString(m).value.0 == [0x2F, 0x70, 0x61, 0x6E, 0x2C, 0x66]
      && OscDecode.Decode(m) != Ok(OscDecode.Packet(Utf8("/pan"), [OscDecode.FloatBits(f32[x])]))
  {
    PanPacketBytes(f32, x);
    PanPacketFirstString(f32[x]);
    PanAddressUnterminated();
    OscDecode.DecodeAddress(LooseMessage(f32, "/pan", [F(x)]).value);
  }
}
