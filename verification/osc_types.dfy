/** Wire-level building blocks shared by every OSC encoder of the controller:
    bytes, UTF-8, the 4-byte big-endian argument blocks, the type-tag string
    and the loop that packs the argument list. */
module OscTypes {

  type Byte = b: int | 0 <= b < 256

  /** Exactly four bytes: one OSC argument block. */
  type Word = s: seq<Byte> | |s| == 4 witness [0, 0, 0, 0]

  /** An argument as the Python caller passes it: its own type (float or int)
      decides its tag and its encoding, not its numeric value. */
  datatype Arg = I(v: int) | F(x: real)

  /** The big-endian IEEE-754 single-precision packer, as a table from every
      real to its four bytes. It is not modelled: every encoder takes it as a
      parameter and only relies on it giving four bytes for any float. */
  type Float32Packer = m: imap<real, Word> | forall x: real :: x in m
    ghost witness imap x: real :: ZeroWord

  const ZeroWord: Word := [0, 0, 0, 0]

  /** One `send_osc_message(address, *args)` call: what to send, before encoding. */
  datatype Message = Message(address: string, args: seq<Arg>)

  datatype Result<T, E> = Ok(value: T) | Err(error: E)

  datatype Option<T> = None | Some(value: T)

  /** Why encoding raised: the integer packer refuses values outside int32. */
  datatype EncodeError = IntOutOfRange(v: int)

  const INT32_MIN: int := -0x8000_0000
  const INT32_MAX: int := 0x7FFF_FFFF

  predicate InInt32(v: int) {
    INT32_MIN <= v <= INT32_MAX
  }

  function Zeros(n: nat): (z: seq<Byte>)
    ensures |z| == n && forall k :: 0 <= k < n ==> z[k] == 0
  {
    if n == 0 then [] else Zeros(n - 1) + [0]
  }

  /** Truncation toward zero: Python's `int(x)` and C's float-to-integer
      cast. */
  function Trunc(x: real): (n: int)
    ensures x >= 0.0 ==> 0.0 <= n as real <= x < n as real + 1.0
    ensures x < 0.0 ==> n as real - 1.0 < x <= n as real <= 0.0
  {
    if x >= 0.0 then x.Floor else -((-x).Floor)
  }

  // ---------------------------------------------------------------- UTF-8

  /** The UTF-8 encoding of one Unicode scalar value. */
  function Utf8Char(c: char): (r: seq<Byte>)
    ensures 1 <= |r| <= 4
    ensures c as int < 0x80 <==> |r| == 1
    ensures c as int < 0x80 ==> r == [c as int]
  {
    var n := c as int;
    if n < 0x80 then [n]
    else if n < 0x800 then [0xC0 + n / 0x40, 0x80 + n % 0x40]
    else if n < 0x1_0000 then [0xE0 + n / 0x1000, 0x80 + (n / 0x40) % 0x40, 0x80 + n % 0x40]
    else [0xF0 + n / 0x4_0000, 0x80 + (n / 0x1000) % 0x40, 0x80 + (n / 0x40) % 0x40, 0x80 + n % 0x40]
  }

  /** `s.encode('utf-8')`. */
  function Utf8(s: string): (r: seq<Byte>)
    ensures |s| <= |r| <= 4 * |s|
  {
    if s == [] then [] else Utf8Char(s[0]) + Utf8(s[1..])
  }

  /** Only the NUL character encodes to a NUL byte... */
  lemma Utf8CharNul(c: char)
    ensures 0 in Utf8Char(c) <==> c == '\0'
  {
  }

  /** ...so the UTF-8 bytes of a string hold a NUL exactly when the string does. */
  lemma {:induction false} Utf8Nul(s: string)
    ensures 0 in Utf8(s) <==> '\0' in s
  {
    if s != [] {
      Utf8CharNul(s[0]);
      Utf8Nul(s[1..]);
      assert '\0' in s <==> s[0] == '\0' || '\0' in s[1..];
    }
  }

  predicate IsAscii(s: string) {
    forall k :: 0 <= k < |s| ==> s[k] as int < 0x80
  }

  /** On ASCII text UTF-8 is the identity on code points. */
  lemma {:induction false} Utf8Ascii(s: string)
    requires IsAscii(s)
    ensures |Utf8(s)| == |s|
    ensures forall k :: 0 <= k < |s| ==> Utf8(s)[k] == s[k] as int
  {
    if s != [] {
      Utf8Ascii(s[1..]);
    }
  }

  /** The length of a character's encoding, as its leading byte announces it. */
  function LeadLength(b0: Byte): nat {
    if b0 < 0x80 then 1 else if b0 < 0xE0 then 2 else if b0 < 0xF0 then 3 else 4
  }

  /** A character's encoding starts with the byte that announces its length,
      and the code point is read back from the low bits of its bytes. */
  lemma Utf8CharDecodes(c: char)
    ensures |Utf8Char(c)| == LeadLength(Utf8Char(c)[0])
    ensures var r: seq<int> := Utf8Char(c);
      c as int == match |r|
        case 1 => r[0]
        case 2 => (r[0] - 0xC0) * 0x40 + (r[1] - 0x80)
        case 3 => (r[0] - 0xE0) * 0x1000 + (r[1] - 0x80) * 0x40 + (r[2] - 0x80)
        case _ => (r[0] - 0xF0) * 0x4_0000 + (r[1] - 0x80) * 0x1000 + (r[2] - 0x80) * 0x40 + (r[3] - 0x80)
  {
    var n := c as int;
    var q := n / 0x40;
    assert n == q * 0x40 + n % 0x40;
    if 0x800 <= n {
      var q2 := q / 0x40;
      assert q == q2 * 0x40 + q % 0x40;
      assert n / 0x1000 == q2;
      if 0x1_0000 <= n {
        var q3 := q2 / 0x40;
        assert q2 == q3 * 0x40 + q2 % 0x40;
        assert (n / 0x1000) % 0x40 == q2 % 0x40;
        assert n / 0x4_0000 == q3;
      }
    }
  }

  /** Different strings have different UTF-8 encodings. */
  lemma {:induction false} Utf8Injective(s: string, t: string)
    requires Utf8(s) == Utf8(t)
    ensures s == t
  {
    if s != [] && t != [] {
      var a, b := Utf8Char(s[0]), Utf8Char(t[0]);
      assert Utf8(s) == a + Utf8(s[1..]) && Utf8(t) == b + Utf8(t[1..]);
      Utf8CharDecodes(s[0]);
      Utf8CharDecodes(t[0]);
      assert a[0] == Utf8(s)[0] == b[0];
      assert a == Utf8(s)[..|a|] == b;
      assert Utf8(s[1..]) == Utf8(s)[|a|..] == Utf8(t[1..]);
      Utf8Injective(s[1..], t[1..]);
      assert s == [s[0]] + s[1..] && t == [t[0]] + t[1..];
    }
  }

  // ---------------------------------------------------------------- int32

  /** `struct.pack('>i', v)` for a value in range: two's complement, most significant byte first. */
  function Int32Bytes(v: int): (w: Word)
    requires InInt32(v)
    ensures w[0] >= 0x80 <==> v < 0
  {
    var u := if v < 0 then v + 0x1_0000_0000 else v;
    var r1 := u % 0x100_0000;
    var r2 := r1 % 0x1_0000;
    [u / 0x100_0000, r1 / 0x1_0000, r2 / 0x100, r2 % 0x100]
  }

  /** `struct.unpack('>i', w)`: the signed value a 4-byte block stands for. */
  function Int32Value(w: Word): (v: int)
    ensures InInt32(v)
  {
    var u: int := (w[0] as int) * 0x100_0000 + (w[1] as int) * 0x1_0000 + (w[2] as int) * 0x100 + w[3];
    if u >= 0x8000_0000 then u - 0x1_0000_0000 else u
  }

  /** Unpacking a packed int gives it back; the sign lands in the top bit of the first byte. */
  lemma Int32RoundTrip(v: int)
    requires InInt32(v)
    ensures Int32Value(Int32Bytes(v)) == v
    ensures Int32Bytes(v)[0] >= 0x80 <==> v < 0
  {
  }

  /** `struct.pack('>i', int(v))`, which raises outside the int32 range. */
  function PackInt(v: int): (r: Result<Word, EncodeError>)
    ensures r.Ok? <==> InInt32(v)
    ensures r.Err? ==> r.error == IntOutOfRange(v)
  {
    if InInt32(v) then Ok(Int32Bytes(v)) else Err(IntOutOfRange(v))
  }

  /** The 4-byte block of one argument: float32 for a float, int32 otherwise. */
  function PackArg(f32: Float32Packer, a: Arg): (r: Result<Word, EncodeError>)
    ensures r.Ok? <==> a.F? || InInt32(a.v)
    ensures r.Err? ==> r.error == IntOutOfRange(a.v)
  {
    match a
    case F(x) => Ok(f32[x])
    case I(v) => PackInt(v)
  }

  /** An argument list every int of which fits in int32. */
  predicate Encodable(args: seq<Arg>) {
    forall k :: 0 <= k < |args| && args[k].I? ==> InInt32(args[k].v)
  }

  // ---------------------------------------------------------------- type tags

  function TagChar(a: Arg): char {
    if a.F? then 'f' else 'i'
  }

  /** `',' + ''.join('f' if isinstance(a, float) else 'i' for a in args)`. */
  function TypeTags(args: seq<Arg>): (t: string)
    ensures |t| == |args| + 1
  {
    [','] + Tags(args)
  }

  /** One tag character per argument, in order. */
  function Tags(args: seq<Arg>): (t: string)
    ensures |t| == |args|
  {
    if args == [] then [] else [TagChar(args[0])] + Tags(args[1..])
  }

  /** The tag string is ',' then one 'f' or 'i' per argument: ASCII, no NUL. */
  lemma TypeTagsShape(args: seq<Arg>)
    ensures var t := TypeTags(args);
      && t[0] == ','
      && (forall k :: 0 <= k < |args| ==> t[k + 1] == (if args[k].F? then 'f' else 'i'))
      && IsAscii(t) && '\0' !in t
  {
    TagsAt(args);
  }

  lemma {:induction false} TagsAt(args: seq<Arg>)
    ensures forall k :: 0 <= k < |args| ==> Tags(args)[k] == TagChar(args[k])
  {
    if args != [] {
      TagsAt(args[1..]);
      forall k | 0 <= k < |args|
        ensures Tags(args)[k] == TagChar(args[k])
      {
        if k > 0 {
          assert Tags(args)[k] == Tags(args[1..])[k - 1];
        }
      }
    }
  }

  // ---------------------------------------------------------------- argument section

  /** The argument section `args_data`, built left to right; the first
      argument whose packing raises makes the whole section raise. */
  function ArgsData(f32: Float32Packer, args: seq<Arg>): (r: Result<seq<Byte>, EncodeError>)
    ensures r.Err? ==> !InInt32(r.error.v)
    decreases |args|
  {
    if args == [] then Ok([])
    else
      match ArgsData(f32, args[..|args| - 1])
      case Err(e) => Err(e)
      case Ok(prefix) =>
        match PackArg(f32, args[|args| - 1])
        case Err(e) => Err(e)
        case Ok(w) => Ok(prefix + w)
  }

  /** Once a prefix of the arguments raises, the whole list raises with the same error. */
  lemma {:induction false} ArgsDataErrPrefix(f32: Float32Packer, args: seq<Arg>, k: nat)
    requires k <= |args| && ArgsData(f32, args[..k]).Err?
    ensures ArgsData(f32, args) == ArgsData(f32, args[..k])
  {
    if k == |args| {
      assert args[..k] == args;
    } else {
      var init := args[..|args| - 1];
      assert init[..k] == args[..k];
      ArgsDataErrPrefix(f32, init, k);
    }
  }

  /** The section encodes exactly when every int argument fits in int32; it
      is then 4 bytes per argument, the i-th block being argument i's packing;
      otherwise the error names the first out-of-range int. */
  lemma {:induction false} ArgsDataSpec(f32: Float32Packer, args: seq<Arg>)
    ensures ArgsData(f32, args).Ok? <==> Encodable(args)
    ensures ArgsData(f32, args).Ok? ==>
      |ArgsData(f32, args).value| == 4 * |args| &&
      forall k :: 0 <= k < |args| ==>
        PackArg(f32, args[k]).Ok? && PackArg(f32, args[k]).value == ArgsData(f32, args).value[4 * k .. 4 * k + 4]
    ensures ArgsData(f32, args).Err? ==>
      exists k :: 0 <= k < |args| && args[k] == I(ArgsData(f32, args).error.v) &&
        !InInt32(args[k].v) && Encodable(args[..k])
    decreases |args|
  {
    if args != [] {
      var n := |args| - 1;
      var init := args[..n];
      ArgsDataSpec(f32, init);
      assert forall k :: 0 <= k < n ==> init[k] == args[k];
      match ArgsData(f32, init)
      case Err(e) =>
        var k :| 0 <= k < n && init[k] == I(e.v) && !InInt32(init[k].v) && Encodable(init[..k]);
        assert init[..k] == args[..k];
      case Ok(prefix) =>
        match PackArg(f32, args[n])
        case Err(e) =>
          assert args[..n] == init;
        case Ok(w) =>
          var d := prefix + w;
          forall k | 0 <= k < |args|
            ensures PackArg(f32, args[k]).Ok? && PackArg(f32, args[k]).value == d[4 * k .. 4 * k + 4]
          {
            if k < n {
              SliceBefore(prefix, w, 4 * k, 4 * k + 4);
            } else {
              SliceAfter(prefix, w, 0, 4);
            }
          }
    }
  }

  /** A built section is one 4-byte block per argument. */
  lemma {:induction false} ArgsDataLength(f32: Float32Packer, args: seq<Arg>)
    requires ArgsData(f32, args).Ok?
    ensures |ArgsData(f32, args).value| == 4 * |args|
    decreases |args|
  {
    if args != [] {
      ArgsDataLength(f32, args[..|args| - 1]);
    }
  }

  /** A slice inside the first part of a concatenation. */
  lemma SliceBefore<T>(p: seq<T>, d: seq<T>, i: nat, j: nat)
    requires i <= j <= |p|
    ensures (p + d)[i..j] == p[i..j]
  {
  }

  /** A slice of the part after a prefix. */
  lemma SliceAfter<T>(p: seq<T>, d: seq<T>, i: nat, j: nat)
    requires i <= j <= |d|
    ensures (p + d)[|p| + i .. |p| + j] == d[i..j]
  {
  }

  /** The `for a in args: args_data += ...` loop. */
  method PackArgs(f32: Float32Packer, args: seq<Arg>) returns (r: Result<seq<Byte>, EncodeError>)
    ensures r == ArgsData(f32, args)
  {
    var data: seq<Byte> := [];
    var i := 0;
    while i < |args|
      invariant 0 <= i <= |args|
      invariant ArgsData(f32, args[..i]) == Ok(data)
    {
      assert args[..i + 1][..i] == args[..i];
      var block := PackArg(f32, args[i]);
      if block.Err? {
        ArgsDataErrPrefix(f32, args, i + 1);
        return Err(block.error);
      }
      data := data + block.value;
      i := i + 1;
    }
    assert args[..i] == args;
    return Ok(data);
  }
}
