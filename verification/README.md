# ESP32 camera slider: OSC encoder, command layer and firmware state, in Dafny

The slider is driven over Open Sound Control (OSC 1.0) on UDP:

- a Flask web controller (`slider_controller.py`) turns `/api/...` requests
  into OSC messages;
- two command-line scripts (`test_osc.py`, `test_osc_simple.py`) send fixed
  sequences of messages with their own copy of the encoder;
- the ESP32 firmware (`src/main.cpp`) receives the messages and updates its
  joystick, preset, synchronised-move and configuration globals, then
  clips every stepper target into the axis limits.

This project models those four parts and proves what they promise.

| module | file | models |
|---|---|---|
| `OscTypes` | osc_types.dfy | bytes, UTF-8, `struct.pack('>i')`, the type-tag string, the `args_data +=` loop |
| `OscCodec` | osc_codec.dfy | `pad_osc_string` and `create_osc_message` of the controller |
| `OscDecode` | osc_decode.dfy | a reference OSC 1.0 reader, the inverse the encoder is proved against |
| `LooseCodec` | loose_codec.dfy | the test scripts' `create_osc_message` and where it departs from the controller's |
| `Transport` | transport.dfy | `send_osc_message`'s socket half: a `UdpLink` object that logs every datagram that leaves |
| `Dispatcher` | dispatcher.dfy | every `/api/*` handler: JSON fields, defaults, clamps, sends, composites, the reply |
| `TestScripts` | test_scripts.dfy | `test_connection` with its early exits and `axis_tests` loop, and the simple four-send script |
| `Firmware` | firmware.dfy | `clampL`/`clampF`, the OSC handlers, and the clipping in `coordinator_tick`, as a `Slider` class over the firmware's globals |

Main results:

- Round trip (`OscDecode.RoundTrip`). Decoding what `create_osc_message` builds gives back the address and every argument, in order, for every NUL-free address and every int32-representable argument list. UTF-8 is injective (`OscTypes.Utf8Injective`), so the decoded address bytes name the original string and no other.
- Failed sends. A message is built exactly when its int arguments fit in int32. Otherwise `send_osc_message` returns `False` and nothing is sent.
- Handler outputs. For every route, each sent argument is stated in terms of its own JSON field, in order: clamped, raised to 0, or passed through as the handler does. A missing field takes its default whatever the other fields hold. Each route's reported `success` is proved too: the AND of the sends, or `True` on the advanced routes.
- Test-script padding. The test scripts' copy of the encoder leaves a string of UTF-8 length 4k without a terminator. `"/pan"` is one such string, and a receiver then reads the packet's address as `"/pan,f"` (see Findings).
- `test_connection`. It passes exactly when all nine sends succeed. Otherwise it stops at the first failure, and only the datagrams before it have gone out.
- Firmware. Every handler changes only the globals it names. The `Slider.Valid()` invariant always holds: joystick values in [-1, 1], joystick settings in range, and every stepper target within its axis limits.
- Across the system:
  - every message the controller sends goes to an address the firmware handles, and the firmware's clamps leave the controller's already clamped values unchanged;
  - `test_connection` sends three messages whose address strings are outside the firmware's dispatch table (`/jog` twice and `/setPresetA`), and the simple script sends one (`/jog`);
  - each script's `/pan` send is also lost: its unterminated address is read as `/pan,f`, which the firmware does not handle either (`TestScripts.ConnectionPanMisread`, `TestScripts.SimplePanMisread`).

## Model

| member | source | states |
|---|---|---|
| OscTypes.Zeros | slider_controller.py:24 | `b'\x00' * n` is n bytes, all NUL |
| OscTypes.Trunc | slider_controller.py:211-215 | `int(x)` on a float (and the C float-to-long cast) is the integer between 0 and x that is less than 1 away from x |
| OscTypes.Utf8Char | slider_controller.py:22 | a character encodes to 1 to 4 bytes, one byte equal to the code point exactly when it is ASCII |
| OscTypes.Utf8 | slider_controller.py:22 | `s.encode('utf-8')` has between \|s\| and 4\|s\| bytes |
| OscTypes.Utf8CharNul | slider_controller.py:22 | only the NUL character produces a NUL byte |
| OscTypes.Utf8Nul | slider_controller.py:22 | the UTF-8 bytes of a string hold a NUL exactly when the string does |
| OscTypes.Utf8Ascii | slider_controller.py:31-32 | on ASCII text the encoding is byte-for-byte the code points |
| OscTypes.Utf8CharDecodes | slider_controller.py:22 | a character's encoding starts with a byte announcing its length, and its code point is read back from the low bits of its bytes |
| OscTypes.Utf8Injective | slider_controller.py:22 | two strings with the same UTF-8 encoding are equal |
| OscTypes.Int32Value | slider_controller.py:41 | unpacking four bytes as `>i` gives a value in the int32 range |
| OscTypes.Int32Bytes | slider_controller.py:41 | `struct.pack('>i', v)` for v in int32: four big-endian two's-complement bytes, the first at least 0x80 exactly when v is negative |
| OscTypes.Int32RoundTrip | slider_controller.py:41 | unpacking a packed int32 gives it back; the first byte is at least 0x80 exactly for negative values |
| OscTypes.PackInt | slider_controller.py:41 | `struct.pack('>i', v)` succeeds exactly when v is in int32 and otherwise raises; the error value `IntOutOfRange(v)` carrying v is a modelling choice, as Python's message does not name v |
| OscTypes.PackArg | slider_controller.py:37-41 | one argument's four bytes: a float through the float32 packer, an int through `>i`; it succeeds exactly for floats and int32-representable ints, and a failure names the int |
| OscTypes.TypeTags | slider_controller.py:31 | the tag string has one character more than there are arguments |
| OscTypes.Tags | slider_controller.py:31 | one tag character per argument |
| OscTypes.TypeTagsShape | slider_controller.py:31 | the tag string is ',' then 'f' for a float argument and 'i' otherwise, in argument order; ASCII, no NUL |
| OscTypes.TagsAt | slider_controller.py:31 | tag character k is argument k's tag |
| OscTypes.ArgsDataErrPrefix | slider_controller.py:36-41 | once an argument raises, the whole loop raises with that error |
| OscTypes.ArgsData | slider_controller.py:36-41 | the `args_data` loop as a recursion on all but the last argument; when it fails, the int it names is outside int32 |
| OscTypes.ArgsDataSpec | slider_controller.py:36-43 | `args_data` is built exactly when every int fits in int32; it is then 4 bytes per argument, block k being argument k's packing; otherwise the error names the first out-of-range int |
| OscTypes.ArgsDataLength | slider_controller.py:36-41 | a built `args_data` is 4·n bytes |
| OscTypes.PackArgs | slider_controller.py:36-41 | the `for a in args: args_data += ...` loop computes the argument section, or the first packing error |
| OscCodec.Pad | slider_controller.py:22-24 | padding gives a multiple of 4, keeps the bytes as a prefix, adds 1 to 4 bytes, all NUL |
| OscCodec.PadLength | slider_controller.py:22-24 | the padded length is 4·⌈(L+1)/4⌉ for L content bytes |
| OscCodec.PadOscString | slider_controller.py:21-24 | `pad_osc_string(s)`: UTF-8 bytes of s, then at least one NUL, to a multiple of 4 |
| OscCodec.OscMessage | slider_controller.py:26-43 | `create_osc_message`: padded address, padded tag string and argument section, or the packing error (what it yields is stated by MessageEncodes, MessageLayout and MessageAligned) |
| OscCodec.CreateOscMessage | slider_controller.py:26-43 | `create_osc_message` computes the padded address, padded tags and argument section, or raises with the packing error |
| OscCodec.MessageEncodes | slider_controller.py:26-43 | a message is built exactly when every int argument fits in int32; otherwise the error names such an argument |
| OscCodec.MessageLayout | slider_controller.py:26-43 | the message is padded address, then padded tags, then block k = argument k's big-endian packing, 4·n bytes in all |
| OscCodec.MessageAligned | slider_controller.py:43 | every built message is a whole number of 4-byte words |
| OscCodec.TagSegment | slider_controller.py:31-32 | the tag segment is ',' (0x2C), one 'f'/'i' byte per argument, then NULs, 4·⌈(n+2)/4⌉ bytes long |
| OscDecode.FirstNul | slider_controller.py:22 | the first NUL's index: every byte before it is non-NUL |
| OscDecode.ReadOscString | slider_controller.py:21-24 | a reader of one padded OSC string: it fails exactly when there is no NUL or the padding runs past the end; otherwise the string is the NUL-free prefix and reading resumes at the next 4-byte boundary |
| OscDecode.ReadArgs | slider_controller.py:36-41 | reading one 4-byte block per tag consumes exactly 4·n bytes |
| OscDecode.DecodeAddress | slider_controller.py:28 | a decoded address is the first OSC string of the packet |
| OscDecode.ExpectedAll | slider_controller.py:37-41 | one expected value per argument |
| OscDecode.ExpectedAt | slider_controller.py:37-41 | expected value k is argument k as int32, or the packed bits of float k |
| OscDecode.ReadPadded | slider_controller.py:21-24 | a padded NUL-free string reads back as its UTF-8 bytes, and reading resumes right after the padding |
| OscDecode.ReadPaddedBytes | slider_controller.py:22-24 | the same on bytes followed by 1 to 4 NULs that end on a multiple of 4 |
| OscDecode.ReadArgsBlocks | slider_controller.py:36-41 | blocks packed from the arguments read back, under matching tags, as the arguments |
| OscDecode.TagBytes | slider_controller.py:31-32 | the tag string's bytes are 0x2C then 0x66/0x69 per argument |
| OscDecode.DecodeSteps | slider_controller.py:43 | decoding succeeds once its three reading steps do |
| OscDecode.RoundTrip | slider_controller.py:26-43 | decoding `create_osc_message(address, *args)` gives the UTF-8 address and every argument in order, for every NUL-free address and int32-representable list; the only string whose encoding is the decoded address is `address` itself |
| LooseCodec.PadBytesLoose | test_osc.py:15-17 | the test scripts' padding: the least multiple of 4 holding the bytes (0 to 3 NULs added) |
| LooseCodec.PadLoose | test_osc.py:15-17 | the same on a string's UTF-8 bytes |
| LooseCodec.LooseMessage | test_osc.py:12-33 | the scripts' `create_osc_message`, built with the loose padding (stated by LooseMessageEncodes and MessageAgreement) |
| LooseCodec.CreateLooseMessage | test_osc.py:12-33 | the test scripts' `create_osc_message` computes loose address, loose tags and the argument section |
| LooseCodec.LooseMessageEncodes | test_osc.py:26-31 | it is built exactly when every int argument fits in int32 |
| LooseCodec.PadBytesAgreement | test_osc.py:16-17 | loose and strict padding are equal unless the length is a multiple of 4; then loose adds nothing and strict adds a whole word of NULs |
| LooseCodec.PadAgreement | test_osc.py:15-17 | the same on strings; a NUL-free string of UTF-8 length 4k has no NUL at all after loose padding |
| LooseCodec.MessageAgreement | test_osc.py:12-33 | both builders encode the same argument lists; their messages are equal exactly when neither the address nor the tag string has a UTF-8 length that is a multiple of 4, and the strict one is 4 bytes longer per such segment |
| LooseCodec.PanAddressUnterminated | test_osc.py:15-17 | `"/pan"` goes out as its four bytes with no NUL; `pad_osc_string` gives eight |
| LooseCodec.OneFloatTagSegment | test_osc.py:20-23 | one float argument gives the tag segment `,f\0\0` |
| LooseCodec.PanPacketBytes | test_osc.py:12-33 | the whole `/pan <float>` packet: `/pan,f\0\0` then the float's four bytes |
| LooseCodec.PanPacketFirstString | test_osc.py:15-17 | an OSC reader takes "/pan,f" as that packet's first string |
| LooseCodec.PanPacketMisread | test_osc.py:15-17 | the `/pan <float>` packet of the test scripts does not decode as `/pan` with its float |
| Transport.UdpLink.constructor | slider_controller.py:45-55 | a fresh link has made no attempt and sent nothing |
| Transport.UdpLink.Transmit | slider_controller.py:47-55 | a send returns true exactly when the packet encoded and the socket calls succeed; only then is the datagram added to the log |
| Transport.Outcomes | slider_controller.py:45-55 | one result per send |
| Transport.OutcomesAt | slider_controller.py:45-55 | send k returns true exactly when packet k encoded and attempt start+k's socket calls succeeded |
| Transport.Delivered | slider_controller.py:45-55 | at most one datagram per send |
| Transport.SendSnoc | slider_controller.py:45-55 | one more send appends its result and its datagram, if any |
| Transport.SendStep | slider_controller.py:141-145 | after send i of a sequence, results and log are those of the first i+1 packets |
| Transport.DeliveredStep | test_osc_simple.py:49-52 | the log half of the step above, with the attempt number as the socket object counts it |
| Transport.OutcomeStep | slider_controller.py:141-145 | the result half of the step above, likewise |
| Transport.DeliveredAll | slider_controller.py:45-55 | when every send succeeds, every packet goes out, in order |
| Transport.DeliveredCount | slider_controller.py:45-55 | one datagram per `True` |
| Transport.FirstFailure | test_osc.py:53-117 | the index of the first failing send is at most the number of sends |
| Transport.FirstFailureSpec | test_osc.py:53-117 | every send before the first failure succeeded and the one at it did not |
| Transport.FirstFailureIs | test_osc.py:53-117 | conversely, j successes followed by a failure or the end put the first failure at j |
| Transport.AllSucceed | test_osc.py:47-123 | with every packet encodable, no send fails exactly when every attempt's socket calls succeed; then every packet goes out in order |
| Transport.EarlyExitStep | test_osc.py:53-57 | after an `if send: ... else: return False` step either all sends so far succeeded and went out, or this one is the first failure and nothing more went out |
| Dispatcher.Clamp | slider_controller.py:76 | `max(lo, min(hi, x))` lies in [lo, hi], keeps x when inside, gives lo below and hi above |
| Dispatcher.AtLeast | slider_controller.py:125-126 | `max(0.0, x)` is non-negative and keeps x when x ≥ 0 |
| Dispatcher.ToFloat | slider_controller.py:75 | `float(v)` converts a JSON number or boolean and raises (TypeError) on anything else |
| Dispatcher.ToInt | slider_controller.py:211 | `int(v)` converts a JSON number or boolean, truncating a float toward zero (within 1 of it, never past it), and raises on anything else |
| Dispatcher.FloatField | slider_controller.py:74-75 | `float(data.get(key, d))` fails exactly when there is no JSON object (AttributeError) or the field is present and does not convert; a missing field gives d |
| Dispatcher.IntField | slider_controller.py:211-215 | the same with `int(...)` |
| Dispatcher.Guarded | slider_controller.py:206-393 | the eight advanced routes, whose body runs inside `try` and answers 400 on an exception, `success: True` otherwise |
| Dispatcher.OneValue | slider_controller.py:71-99 | a one-value route reads `value` (default 0.0), clamps it and sends it alone to its address, echoing it (stated by ValueRouteSpec) |
| Dispatcher.CombinedPlan | slider_controller.py:101-111 | `/api/joystick/combined`: `pan` then `tilt`, each clamped, in one `/joy/pt` (stated by CombinedSpec) |
| Dispatcher.JoystickConfigPlan | slider_controller.py:113-135 | `/api/joystick/config`: the four settings read, clamped and sent in one `/joy/config` (stated by JoystickConfigSpec) |
| Dispatcher.PresetSetPlan | slider_controller.py:206-227 | `/api/preset/set`: five ints sent unclamped (stated by IntRoutesSpec) |
| Dispatcher.PresetRecallPlan | slider_controller.py:229-247 | `/api/preset/recall`: id then duration (stated by IntRoutesSpec) |
| Dispatcher.SlideGotoPlan | slider_controller.py:312-333 | `/api/slide/goto`: position clamped to [0, 1], then duration (stated by SlideGotoSpec) |
| Dispatcher.IntPairPlan | slider_controller.py:335-393 | the three `/api/config/...` routes: two ints with their defaults, unclamped (stated by IntRoutesSpec) |
| Dispatcher.PlanFor | slider_controller.py:71-393 | each handler up to its sends: the route's plan, or the conversion error that stops it (the composites' fixed sends are stated by StopOutcome, ResetOffsetsOutcome and ResetAllAxesOutcome, the others by the Spec and Defaults lemmas above, failures by ConversionFailure) |
| Dispatcher.ClampIdempotent | slider_controller.py:76 | clamping twice is clamping once |
| Dispatcher.Encoded | slider_controller.py:49 | one packet per message |
| Dispatcher.EncodedOk | slider_controller.py:49 | packet k is built exactly when message k's ints fit in int32 |
| Dispatcher.SendOscMessage | slider_controller.py:45-55 | `send_osc_message` returns True exactly when every int fits in int32 and the socket calls succeed; only then is the packet sent |
| Dispatcher.SendAll | slider_controller.py:141-145 | a handler's sends run one after another whatever earlier ones returned; results and log are those of the whole list |
| Dispatcher.Respond | slider_controller.py:78-79 | the answer is a JSON reply exactly when the handler got to its sends; otherwise it is an error status, 400 exactly on the advanced routes (line 227) and 500 elsewhere |
| Dispatcher.Handle | slider_controller.py:71-393 | a request makes its route's sends, in order, and gets the route's reply |
| Dispatcher.FieldDefaults | slider_controller.py:75 | `data.get(key, d)` converts a field the body has and gives d for one it lacks, whatever else the body holds |
| Dispatcher.ValueRouteSpec | slider_controller.py:71-99 | the one-value routes send exactly one message, carrying the `value` field clamped into [-1,1] (jog, pan, tilt, lines 249-310 too) or [0,1] (axis_*, lines 155-193): the value itself when inside, lo below, hi above, 0.0 when missing; they go ahead exactly when the field converts |
| Dispatcher.CombinedSpec | slider_controller.py:101-111 | `/api/joystick/combined` sends one `/joy/pt` with `pan` clamped to [-1, 1], then `tilt` clamped to [-1, 1]; it goes ahead exactly when both convert, and otherwise fails with the first field's error |
| Dispatcher.JoystickConfigSpec | slider_controller.py:113-135 | `/joy/config` gets, in order, `deadzone` clamped to [0,0.5], `expo` clamped to [0,0.95], `slew` and `filter_hz` raised to at least 0, with the tags ",ffff"; it goes ahead exactly when all four convert |
| Dispatcher.SlideGotoSpec | slider_controller.py:312-333 | `/slide/goto` gets `position` clamped into [0, 1], then `duration` as given; it goes ahead exactly when both convert |
| Dispatcher.IntRoutesSpec | slider_controller.py:206-393 | `/preset/set` sends id, pan, tilt, zoom, slide unclamped, `/preset/recall` id then duration, and each `/config/...` route its two fields, in order; each goes ahead exactly when its fields convert |
| Dispatcher.PresetTags | slider_controller.py:206-247 | `/preset/set` sends ",iiiii" and `/preset/recall` ",if", whatever the numbers |
| Dispatcher.TagsOf | slider_controller.py:31 | a tag string is determined character by character by the argument types |
| Dispatcher.JoystickConfigDefaults | slider_controller.py:117-120 | each missing field, whatever the others hold, is sent as its default 0.06, 0.35, 8000.0 or 60.0; an empty object sends all four |
| Dispatcher.MotionDefaults | slider_controller.py:211-235 | each missing field on its own gives id and positions 0 and recall duration 2.0; goto position 0.5 and duration 2.0 (lines 317-318) |
| Dispatcher.ConfigDefaults | slider_controller.py:340-381 | each missing field on its own gives offset ranges 800/800, pan map 800/-800, tilt map 0/0 |
| Dispatcher.ConversionFailure | slider_controller.py:209-227 | a field that does not convert sends nothing: 400 on the advanced routes, 500 elsewhere; without a JSON object only the three composites go ahead |
| Dispatcher.SuccessFlag | slider_controller.py:137-227 | basic and composite routes report the AND of their sends; the advanced routes report True whatever happened |
| Dispatcher.FloatOutcomes | slider_controller.py:45-55 | all-float messages always encode, so each result is the socket's |
| Dispatcher.StopOutcome | slider_controller.py:137-145 | `/api/stop` sends `/slide/jog`, `/pan`, `/tilt` with 0.0, in that order, and succeeds exactly when all three sends do |
| Dispatcher.ResetOffsetsOutcome | slider_controller.py:147-152 | `/api/reset_offsets` sends `/pan` then `/tilt` with 0.0, and succeeds exactly when both sends do |
| Dispatcher.ResetAllAxesOutcome | slider_controller.py:195-202 | `/api/reset_all_axes` sends the four `/axis_*` with 0.5 and succeeds exactly when all four do |
| Dispatcher.PresetSetOutOfRange | slider_controller.py:206-227 | an id outside int32 makes the packing raise: nothing is sent, yet the route answers success |
| TestScripts.SendLoose | test_osc.py:35-45 | the scripts' `send_osc_message` returns True exactly when the loose message builds and the socket calls succeed; only then is it sent |
| TestScripts.LooseEncoded | test_osc.py:39 | one packet per scripted message |
| TestScripts.LooseEncodedAt | test_osc.py:39 | packet k is message k, loosely encoded |
| TestScripts.ConnectionScript | test_osc.py:53-112 | `test_connection`'s nine messages in order: `/jog`, `/pan`, `/tilt`, `/setPresetA`, `/jog`, then the four `axis_tests` |
| TestScripts.SimpleScript | test_osc_simple.py:49-52 | the simple script's four messages: `/axis_pan`, `/jog`, `/pan`, `/tilt` |
| TestScripts.SendNext | test_osc_simple.py:49-52 | after scripted send i, the log holds the datagrams of the first i+1 messages |
| TestScripts.SendOrStop | test_osc.py:53-57 | an `if send ... else: return False` step extends the run of successes or is the first failure |
| TestScripts.ConnectionTests | test_osc.py:47-123 | the five sends and the `axis_tests` loop pass exactly when no send fails; otherwise they stop at the first failure, having attempted nothing after it, and only earlier datagrams went out |
| TestScripts.TestConnection | test_osc.py:47-123 | the same for `test_connection`'s own nine messages |
| TestScripts.SimpleMain | test_osc_simple.py:45-54 | all four sends are attempted in order whatever they return, and each success goes out |
| TestScripts.ScriptEncodes | test_osc.py:26-31 | a script of int32-representable messages encodes message by message |
| TestScripts.ScriptsEncode | test_osc.py:83 | every message of both scripts encodes (the preset ints fit in int32) |
| TestScripts.ConnectionPasses | test_osc.py:47-123 | `test_connection` passes exactly when all nine attempts' socket calls succeed; then all nine packets go out in order |
| TestScripts.ScriptAddresses | test_osc.py:53-93 | among the scripts' address strings, `/jog` (twice) and `/setPresetA` of `test_connection` and `/jog` of the simple script (test_osc_simple.py:50) are the ones outside the firmware's dispatch table; `/pan` is send 1 of `test_connection` and send 2 of the simple script, and nowhere else |
| TestScripts.PanFUnhandled | test_osc.py:15-17 | no address the firmware handles encodes to the bytes of "/pan,f" |
| TestScripts.PanReadsPanF | test_osc.py:12-33 | the scripts' `/pan` packet, for any value, is read as address "/pan,f" |
| TestScripts.ScriptPanAt | test_osc.py:35-45 | a `/pan` send anywhere in a script is read as "/pan,f" |
| TestScripts.ConnectionPanMisread | test_osc.py:63 | `test_connection`'s `/pan` send is read as "/pan,f", an address the firmware does not handle |
| TestScripts.SimplePanMisread | test_osc_simple.py:51 | the simple script's `/pan` send is read as "/pan,f", an address the firmware does not handle |
| Firmware.ClampL | src/main.cpp:121 | `clampL` returns v, vmin or vmax; in [vmin, vmax] when that is not empty; v itself when inside |
| Firmware.ClampF | src/main.cpp:122 | the same for `clampF` |
| Firmware.ClampLProperties | src/main.cpp:121 | `clampL` is idempotent and monotone on a non-empty interval |
| Firmware.ClampFProperties | src/main.cpp:122 | `clampF` is idempotent and monotone on a non-empty interval |
| Firmware.ClampLEmptyInterval | src/main.cpp:121 | on an empty interval `clampL` is not idempotent |
| Firmware.HandledAddresses | src/main.cpp:336-453 | the fifteen addresses `processOSC` dispatches on |
| Firmware.ControllerAddressesHandled | src/main.cpp:336-453 | every message the controller sends, on any route, goes to one of the firmware's handled addresses |
| Firmware.ControllerValuesKept | src/main.cpp:336-356 | the firmware's clamps and `fabsf` leave the controller's already clamped values unchanged |
| Firmware.Abs | src/main.cpp:354-355 | `fabsf` is non-negative and ±x |
| Firmware.Round | src/main.cpp:275-278 | `lround`: the integer within 1/2 of x, a half rounding away from zero |
| Firmware.RoundTruncBounds | src/main.cpp:360 | `lround` and the float-to-long cast of a value between two integers stay between them, and keep an integer |
| Firmware.Lerp | src/main.cpp:123 | `lerp(a, b, u)` is a at u = 0 and b at u = 1 |
| Firmware.LerpBounds | src/main.cpp:123 | `lerp(a, b, u)` for u in [0, 1] lies in [a, b], with a at 0 and b at 1 |
| Firmware.MinLimit | src/main.cpp:80-89 | `cfg[ax].min_limit` is negative: -10000 for pan and tilt, -20000 for zoom and slide |
| Firmware.MaxLimit | src/main.cpp:80-89 | `cfg[ax].max_limit` is the negation of the axis's min_limit |
| Firmware.Clip | src/main.cpp:281-284 | clipping puts a target within the axis limits (pan/tilt ±10000, zoom/slide ±20000, lines 80-89), keeps it when inside |
| Firmware.AxisTarget | src/main.cpp:360 | the `/axis_*` target, the cast of u·(max−min)+min (its bounds are AxisTargetInLimits) |
| Firmware.AxisTargetInLimits | src/main.cpp:358-392 | an `/axis_*` target is within the axis limits whatever the argument; ≤0 gives the lower limit, ≥1 the upper |
| Firmware.SlideGoal | src/main.cpp:426-428 | the `/slide/goto` goal, `lround(lerp(min, max, clampF(u, 0, 1)))` on the slide axis (its bounds are SlideGoalInLimits) |
| Firmware.SlideGoalInLimits | src/main.cpp:426-429 | the `/slide/goto` goal is within the slide limits, the two ends at 0 and 1 |
| Firmware.Duration | src/main.cpp:406 | a non-positive duration becomes 2 s; a positive one is kept |
| Firmware.JogTarget | src/main.cpp:229-248 | a jogging axis's new target is within its limits, and is old target plus step when that is inside; a non-jogging axis keeps its target |
| Firmware.Slider.constructor | src/main.cpp:19-42 | power-up state: zero presets and positions, no active preset, `joy` 0.06/0.35/8000/60 (lines 133-135), offset ranges 800/800, pan map 800/-800, tilt map 0/0 |
| Firmware.Slider.Pan | src/main.cpp:336-338 | `/pan` stores its value clamped to [-1, 1]; nothing else changes |
| Firmware.Slider.Tilt | src/main.cpp:339-341 | `/tilt` stores its value clamped to [-1, 1]; nothing else changes |
| Firmware.Slider.JoyPt | src/main.cpp:342-345 | `/joy/pt` stores both values clamped; the slide value and everything else unchanged |
| Firmware.Slider.SlideJog | src/main.cpp:346-348 | `/slide/jog` stores its value clamped to [-1, 1]; nothing else changes |
| Firmware.Slider.SetJoyConfig | src/main.cpp:351-356 | only the first \|args\| settings change: deadzone clamped to [0,0.5], expo to [0,0.95], slew and filter as absolute values; ranges kept |
| Firmware.Slider.Axis | src/main.cpp:358-392 | `/axis_*` sets only that axis's target, to the cast of u·(max−min)+min with u clamped to [0,1], within limits |
| Firmware.Slider.PresetSet | src/main.cpp:395-402 | `/preset/set` overwrites exactly preset i |
| Firmware.Slider.PresetRecall | src/main.cpp:404-420 | `/preset/recall` sets the active preset, starts from the current positions, clips each goal into its axis limits, defaults a non-positive duration to 2 s, and activates the move |
| Firmware.Slider.SlideGoto | src/main.cpp:425-439 | `/slide/goto` starts from the current positions; only the slide goal differs from its start, and it is within the slide limits |
| Firmware.Slider.SetOffsetRange | src/main.cpp:442-445 | sets exactly the two offset ranges |
| Firmware.Slider.SetPanMap | src/main.cpp:446-449 | sets exactly the two pan mapping ends |
| Firmware.Slider.SetTiltMap | src/main.cpp:450-453 | sets exactly the two tilt mapping ends |
| Firmware.Slider.CoordinatorTick | src/main.cpp:217-292 | with no time elapsed nothing changes; otherwise either the jog or the synchronised move runs, and every target it sets is clipped into its axis limits |
| Firmware.Slider.JogTick | src/main.cpp:225-249 | pan, tilt and slide jog by their step counts, clipped; zoom untouched |
| Firmware.Slider.SyncTick | src/main.cpp:252-291 | all four axes go to their interpolated targets clipped into their limits (lines 281-290); the move ends once done |

## Left out

- Flask plumbing: routing, `render_template`, `jsonify`, the timestamps, and `request.get_json()` (modelled as an optional map). `/api/slide/jog` is registered twice (slider_controller.py:71 and :291); the model's route is the first one, which Flask matches.
- JSON string values: `float("0.5")` would parse them, but the model treats every non-numeric JSON value as a conversion error.
- Python floats are exact reals, and `isinstance(a, float)` is the `Arg` constructor.
- Float32 packing (`struct.pack('>f')`, with its rounding and its `OverflowError` on huge values) is a parameter table from reals to four bytes. Only its four-byte result is relied on.
- Sockets: which send attempts succeed is an oracle set. Socket creation, `sendto` and `close` failures are one outcome per attempt.
- The scripts' `print` and `time.sleep` calls, `interactive_test` (a stdin loop), `start_controller.py`, `read_serial.py` and the host/port constants of `config.py` affect no bytes, and are left out.
- Firmware packet parsing by the OSC library is a foreign call, and so are its `getFloat`/`getInt` conversions. Handlers take already-decoded values; `/joy/config`'s arity is the length of its argument list.
- Firmware float arithmetic is done on exact reals: `lerp`, the float-to-long cast and `lroundf` in the handlers. Not modelled at all:
  - `s_minjerk`, the deadzone/expo curve, `iir_1pole`, `slew_limit` and `joystick_tick`;
  - `pan_comp_from_slide`/`tilt_comp_from_slide`;
  - the step counts and interpolated targets that `coordinator_tick` computes. These enter `CoordinatorTick` as parameters, and so does the end-of-move test `tau >= 1`.
- `pick_duration_ms_for_deltas` (a double-precision retry loop), `millis()` and `sync_move.t0_ms`/`T_ms` are left out. The model keeps the requested duration (`syncSeconds`) instead.
- Firmware hardware is left out: FastAccelStepper is reduced to each axis's last `moveTo` target, and current positions are inputs. TMC2209 setup, WiFiManager, OTA, the web server and serial logging are not modelled, and neither is the `volatile` sharing between loop stages.
- Firmware.Slider.PresetSet requires 0 ≤ i < 8 because the firmware indexes `presets[i]` with no bounds check, and the controller forwards any id. An out-of-range id is undefined behaviour in C, which the model does not give a meaning.
- Firmware.Slider.PresetRecall requires 0 ≤ i < 8 for the same reason: an out-of-range `presets[i]` read.
- `long` values in the firmware (preset positions, offset ranges, mapping ends) are unbounded integers: the 32-bit width of `long` and of the OSC `i` argument is not tracked in `Slider.Valid()`.
- Firmware.JogTarget does not model 32-bit `long` overflow of `p + lround(...)`: the sum is unbounded. The targets it starts from lie within ±20000.

## Findings

| source | as written | input that shows it | evidently intended | confidence | as-written member | corrected member |
|---|---|---|---|---|---|---|
| test_osc.py:15-17 | pads a string with `(4 - len % 4) % 4` NULs, so a string whose UTF-8 length is a multiple of 4 gets no NUL terminator (the same code is at test_osc.py:21-23 and test_osc_simple.py:12-20) | `send_osc_message('/pan', 0.2)` (test_osc.py:63): the packet starts `/pan,f\0\0`, and an OSC reader takes `/pan,f` as the address | at least one NUL, as `pad_osc_string` at slider_controller.py:22-24 and the OSC-string rule of OSC 1.0 require | high; not executed | LooseCodec.PanPacketMisread | OscDecode.RoundTrip |
