/** The OSC message builder of the web controller (slider_controller.py):
    `pad_osc_string` and `create_osc_message`. */
module OscCodec {
  import opened OscTypes

  /** The padding rule of `pad_osc_string` on bytes: one NUL terminator, then
      NULs up to the next multiple of 4 (the OSC-string rule of Open Sound Control 1.0). */
  function Pad(b: seq<Byte>): (r: seq<Byte>)
    ensures |r| % 4 == 0
    ensures |b| < |r| <= |b| + 4
    ensures r[..|b|] == b
    ensures forall k :: |b| <= k < |r| ==> r[k] == 0
  {
    var t := b + [0];
    t + Zeros((4 - |t| % 4) % 4)
  }

  /** The padded length: the next multiple of 4 strictly above the content. */
  lemma PadLength(b: seq<Byte>)
    ensures |Pad(b)| == (|b| + 4) / 4 * 4
  {
  }

  /** `pad_osc_string(s)`: the UTF-8 bytes of `s`, padded. */
  function PadOscString(s: string): (r: seq<Byte>)
    ensures |r| % 4 == 0
    ensures |Utf8(s)| < |r| <= |Utf8(s)| + 4
    ensures r[..|Utf8(s)|] == Utf8(s)
    ensures forall k :: |Utf8(s)| <= k < |r| ==> r[k] == 0
  {
    Pad(Utf8(s))
  }

  /** `create_osc_message(address, *args)`: padded address, padded type-tag
      string, then the argument blocks; it raises when an int does not fit in int32. */
  function OscMessage(f32: Float32Packer, address: string, args: seq<Arg>): Result<seq<Byte>, EncodeError> {
    match ArgsData(f32, args)
    case Err(e) => Err(e)
    case Ok(d) => Ok(PadOscString(address) + PadOscString(TypeTags(args)) + d)
  }

  /** `create_osc_message`, statement by statement, with its argument loop. */
  method CreateOscMessage(f32: Float32Packer, address: string, args: seq<Arg>)
    returns (r: Result<seq<Byte>, EncodeError>)
    ensures r == OscMessage(f32, address, args)
  {
    var addressData := PadOscString(address);
    var typeTagData := PadOscString(TypeTags(args));
    var argsData := PackArgs(f32, args);
    if argsData.Err? {
      return Err(argsData.error);
    }
    return Ok(addressData + typeTagData + argsData.value);
  }

  /** The message is built exactly when every int argument fits in int32;
      otherwise the error names an out-of-range int argument. */
  lemma MessageEncodes(f32: Float32Packer, address: string, args: seq<Arg>)
    ensures OscMessage(f32, address, args).Ok? <==> Encodable(args)
    ensures OscMessage(f32, address, args).Err? ==>
      exists k :: 0 <= k < |args| && args[k] == I(OscMessage(f32, address, args).error.v) &&
        !InInt32(args[k].v)
  {
    ArgsDataSpec(f32, args);
  }

  /** An encodable message is the padded address, the padded tag string and
      one 4-byte block per argument, in order. */
  lemma MessageLayout(f32: Float32Packer, address: string, args: seq<Arg>)
    requires Encodable(args)
    ensures OscMessage(f32, address, args).Ok?
    ensures var m := OscMessage(f32, address, args).value;
      var a := PadOscString(address);
      var t := PadOscString(TypeTags(args));
      && |m| == |a| + |t| + 4 * |args|
      && m[..|a|] == a
      && m[|a|..|a| + |t|] == t
      && (forall k :: 0 <= k < |args| ==>
            PackArg(f32, args[k]).Ok? && PackArg(f32, args[k]).value == m[|a| + |t| + 4 * k .. |a| + |t| + 4 * k + 4])
  {
    ArgsDataSpec(f32, args);
    var d := ArgsData(f32, args).value;
    var a := PadOscString(address);
    var t := PadOscString(TypeTags(args));
    var m := OscMessage(f32, address, args).value;
    assert m == a + t + d;
    assert m[..|a|] == a && m[|a|..|a| + |t|] == t;
    BlocksShift(f32, args, a + t, d, m, |a| + |t|);
  }

  /** Argument blocks keep their packing when a prefix is put in front of them. */
  lemma BlocksShift(f32: Float32Packer, args: seq<Arg>, p: seq<Byte>, d: seq<Byte>, m: seq<Byte>, off: nat)
    requires m == p + d && off == |p| && |d| == 4 * |args|
    requires forall k :: 0 <= k < |args| ==>
      PackArg(f32, args[k]).Ok? && PackArg(f32, args[k]).value == d[4 * k .. 4 * k + 4]
    ensures forall k :: 0 <= k < |args| ==>
      PackArg(f32, args[k]).Ok? && PackArg(f32, args[k]).value == m[off + 4 * k .. off + 4 * k + 4]
  {
    forall k | 0 <= k < |args|
      ensures PackArg(f32, args[k]).Ok? && PackArg(f32, args[k]).value == m[off + 4 * k .. off + 4 * k + 4]
    {
      SliceAfter(p, d, 4 * k, 4 * k + 4);
    }
  }

  /** Every encoded message is a whole number of 4-byte words. */
  lemma MessageAligned(f32: Float32Packer, address: string, args: seq<Arg>)
    requires OscMessage(f32, address, args).Ok?
    ensures |OscMessage(f32, address, args).value| % 4 == 0
  {
    var a := PadOscString(address);
    var t := PadOscString(TypeTags(args));
    var d := ArgsData(f32, args).value;
    ArgsDataLength(f32, args);
    assert OscMessage(f32, address, args).value == a + t + d;
    WordSum(|a|, |t|, |d|);
  }

  lemma WordSum(x: nat, y: nat, z: nat)
    requires x % 4 == 0 && y % 4 == 0 && z % 4 == 0
    ensures (x + y + z) % 4 == 0
  {
    assert x + y + z == 4 * (x / 4 + y / 4 + z / 4);
  }

  /** The type-tag segment: ',' then 'f' (102) or 'i' (105) per argument, then at least one NUL. */
  lemma TagSegment(args: seq<Arg>)
    ensures var t := PadOscString(TypeTags(args));
      && |t| == (|args| + 5) / 4 * 4
      && t[0] == ','  as int
      && (forall k :: 0 <= k < |args| ==> t[k + 1] == if args[k].F? then 'f' as int else 'i' as int)
      && (forall k :: |args| + 1 <= k < |t| ==> t[k] == 0)
  {
    TypeTagsShape(args);
    Utf8Ascii(TypeTags(args));
    PadLength(Utf8(TypeTags(args)));
  }
}
