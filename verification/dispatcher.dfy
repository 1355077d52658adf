/** The `/api/...` routes of the web controller (slider_controller.py): each
    reads numeric fields from the JSON body, fills in defaults, clamps, and
    turns the request into one or more OSC messages for the slider. */
module Dispatcher {
  import opened OscTypes
  import opened OscCodec
  import opened Transport

  // ---------------------------------------------------------------- request fields

  /** A JSON value of the request body. Strings are not modelled. */
  datatype Json = JInt(i: int) | JFloat(x: real) | JBool(b: bool) | JNull | JComposite

  /** A JSON object, as `request.get_json()` returns it. */
  type Body = map<string, Json>

  /** Why a handler raised before sending: `float()`/`int()` refused the value
      (TypeError), or the request carried no JSON object, so `data.get`
      failed (AttributeError). */
  datatype ConvError = NotANumber | NoJsonObject

  /** `float(v)`. */
  function ToFloat(j: Json): (r: Result<real, ConvError>)
    ensures r.Ok? <==> j.JInt? || j.JFloat? || j.JBool?
    ensures r.Err? ==> r.error == NotANumber
  {
    match j
    case JInt(i) => Ok(i as real)
    case JFloat(x) => Ok(x)
    case JBool(b) => Ok(if b then 1.0 else 0.0)
    case _ => Err(NotANumber)
  }

  /** `int(v)`. */
  function ToInt(j: Json): (r: Result<int, ConvError>)
    ensures r.Ok? <==> j.JInt? || j.JFloat? || j.JBool?
    ensures r.Err? ==> r.error == NotANumber
    ensures j.JFloat? && j.x >= 0.0 ==> r.value as real <= j.x < r.value as real + 1.0
    ensures j.JFloat? && j.x < 0.0 ==> r.value as real - 1.0 < j.x <= r.value as real
  {
    match j
    case JInt(i) => Ok(i)
    case JFloat(x) => Ok(Trunc(x))
    case JBool(b) => Ok(if b then 1 else 0)
    case _ => Err(NotANumber)
  }

  /** `float(data.get(key, dflt))`. */
  function FloatField(body: Option<Body>, key: string, dflt: real): (r: Result<real, ConvError>)
    ensures r.Err? <==> body.None? || (key in body.value && ToFloat(body.value[key]).Err?)
    ensures r.Err? ==> (r.error == NoJsonObject <==> body.None?)
    ensures body.Some? && key !in body.value ==> r == Ok(dflt)
  {
    match body
    case None => Err(NoJsonObject)
    case Some(b) => if key in b then ToFloat(b[key]) else Ok(dflt)
  }

  /** `int(data.get(key, dflt))`. */
  function IntField(body: Option<Body>, key: string, dflt: int): (r: Result<int, ConvError>)
    ensures r.Err? <==> body.None? || (key in body.value && ToInt(body.value[key]).Err?)
    ensures r.Err? ==> (r.error == NoJsonObject <==> body.None?)
    ensures body.Some? && key !in body.value ==> r == Ok(dflt)
  {
    match body
    case None => Err(NoJsonObject)
    case Some(b) => if key in b then ToInt(b[key]) else Ok(dflt)
  }

  // ---------------------------------------------------------------- clamping

  /** `max(lo, min(hi, x))`, the handlers' silent clamp. */
  function Clamp(lo: real, hi: real, x: real): (r: real)
    ensures lo <= hi ==> lo <= r <= hi
    ensures lo <= x <= hi ==> r == x
    ensures x < lo ==> r == lo
    ensures lo <= hi < x ==> r == hi
  {
    var m := if hi < x then hi else x;
    if lo < m then m else lo
  }

  /** `max(lo, x)`, the one-sided clamp of `slew` and `filter_hz`. */
  function AtLeast(lo: real, x: real): (r: real)
    ensures lo <= r && (r == x || r == lo)
    ensures lo <= x ==> r == x
  {
    if lo < x then x else lo
  }

  /** Clamping twice is clamping once. */
  lemma ClampIdempotent(lo: real, hi: real, x: real)
    requires lo <= hi
    ensures Clamp(lo, hi, Clamp(lo, hi, x)) == Clamp(lo, hi, x)
  {
  }

  // ---------------------------------------------------------------- routes

  datatype Route =
    | SlideJog | Pan | Tilt | JoystickCombined | JoystickConfig | Stop | ResetOffsets
    | AxisPan | AxisTilt | AxisZoom | AxisSlide | ResetAllAxes
    | PresetSet | PresetRecall | JoystickPan | JoystickTilt | SlideGoto
    | OffsetRange | PanMap | TiltMap

  /** The advanced routes: their body runs inside `try`, they answer
      `success: True` whatever the send returned, and 400 when a field
      does not convert. The others let the exception escape (500). */
  predicate Guarded(r: Route) {
    r.PresetSet? || r.PresetRecall? || r.JoystickPan? || r.JoystickTilt? ||
    r.SlideGoto? || r.OffsetRange? || r.PanMap? || r.TiltMap?
  }

  /** The routes that send one float `value` clamped into [lo, hi] to a fixed
      address, with default 0.0: address, lo, hi. */
  function ValueRoute(r: Route): Option<(string, real, real)> {
    match r
    case SlideJog => Some(("/slide/jog", -1.0, 1.0))
    case Pan => Some(("/pan", -1.0, 1.0))
    case Tilt => Some(("/tilt", -1.0, 1.0))
    case JoystickPan => Some(("/pan", -1.0, 1.0))
    case JoystickTilt => Some(("/tilt", -1.0, 1.0))
    case AxisPan => Some(("/axis_pan", 0.0, 1.0))
    case AxisTilt => Some(("/axis_tilt", 0.0, 1.0))
    case AxisZoom => Some(("/axis_zoom", 0.0, 1.0))
    case AxisSlide => Some(("/axis_slide", 0.0, 1.0))
    case _ => None
  }

  /** What a handler sends, in order, and the values its JSON answer echoes
      (in the order it lists them; the timestamp is left out). */
  datatype Plan = Plan(sends: seq<Message>, echo: seq<Arg>)

  function OneValue(body: Option<Body>, address: string, lo: real, hi: real): Result<Plan, ConvError> {
    var v := FloatField(body, "value", 0.0);
    if v.Err? then Err(v.error)
    else
      var c := Clamp(lo, hi, v.value);
      Ok(Plan([Message(address, [F(c)])], [F(c)]))
  }

  function CombinedPlan(body: Option<Body>): Result<Plan, ConvError> {
    var pan := FloatField(body, "pan", 0.0);
    var tilt := FloatField(body, "tilt", 0.0);
    if pan.Err? then Err(pan.error)
    else if tilt.Err? then Err(tilt.error)
    else
      var p := Clamp(-1.0, 1.0, pan.value);
      var t := Clamp(-1.0, 1.0, tilt.value);
      Ok(Plan([Message("/joy/pt", [F(p), F(t)])], [F(p), F(t)]))
  }

  function JoystickConfigPlan(body: Option<Body>): Result<Plan, ConvError> {
    var deadzone := FloatField(body, "deadzone", 0.06);
    var expo := FloatField(body, "expo", 0.35);
    var slew := FloatField(body, "slew", 8000.0);
    var filterHz := FloatField(body, "filter_hz", 60.0);
    if deadzone.Err? then Err(deadzone.error)
    else if expo.Err? then Err(expo.error)
    else if slew.Err? then Err(slew.error)
    else if filterHz.Err? then Err(filterHz.error)
    else
      var args := [F(Clamp(0.0, 0.5, deadzone.value)), F(Clamp(0.0, 0.95, expo.value)),
                   F(AtLeast(0.0, slew.value)), F(AtLeast(0.0, filterHz.value))];
      Ok(Plan([Message("/joy/config", args)], args))
  }

  function PresetSetPlan(body: Option<Body>): Result<Plan, ConvError> {
    var id := IntField(body, "id", 0);
    var pan := IntField(body, "pan", 0);
    var tilt := IntField(body, "tilt", 0);
    var zoom := IntField(body, "zoom", 0);
    var slide := IntField(body, "slide", 0);
    if id.Err? then Err(id.error)
    else if pan.Err? then Err(pan.error)
    else if tilt.Err? then Err(tilt.error)
    else if zoom.Err? then Err(zoom.error)
    else if slide.Err? then Err(slide.error)
    else
      var args := [I(id.value), I(pan.value), I(tilt.value), I(zoom.value), I(slide.value)];
      Ok(Plan([Message("/preset/set", args)], args))
  }

  function PresetRecallPlan(body: Option<Body>): Result<Plan, ConvError> {
    var id := IntField(body, "id", 0);
    var duration := FloatField(body, "duration", 2.0);
    if id.Err? then Err(id.error)
    else if duration.Err? then Err(duration.error)
    else
      var args := [I(id.value), F(duration.value)];
      Ok(Plan([Message("/preset/recall", args)], args))
  }

  function SlideGotoPlan(body: Option<Body>): Result<Plan, ConvError> {
    var position := FloatField(body, "position", 0.5);
    var duration := FloatField(body, "duration", 2.0);
    if position.Err? then Err(position.error)
    else if duration.Err? then Err(duration.error)
    else
      var args := [F(Clamp(0.0, 1.0, position.value)), F(duration.value)];
      Ok(Plan([Message("/slide/goto", args)], args))
  }

  /** The `/api/config/...` routes: two ints sent unclamped. */
  function IntPairPlan(body: Option<Body>, address: string, k1: string, d1: int, k2: string, d2: int): Result<Plan, ConvError> {
    var a := IntField(body, k1, d1);
    var b := IntField(body, k2, d2);
    if a.Err? then Err(a.error)
    else if b.Err? then Err(b.error)
    else Ok(Plan([Message(address, [I(a.value), I(b.value)])], [I(a.value), I(b.value)]))
  }

  /** Each handler up to its sends: conversions, defaults and clamps. */
  function PlanFor(route: Route, body: Option<Body>): Result<Plan, ConvError> {
    match route
    case JoystickCombined => CombinedPlan(body)
    case JoystickConfig => JoystickConfigPlan(body)
    case Stop =>
      Ok(Plan([Message("/slide/jog", [F(0.0)]), Message("/pan", [F(0.0)]), Message("/tilt", [F(0.0)])], []))
    case ResetOffsets =>
      Ok(Plan([Message("/pan", [F(0.0)]), Message("/tilt", [F(0.0)])], []))
    case ResetAllAxes =>
      Ok(Plan([Message("/axis_pan", [F(0.5)]), Message("/axis_tilt", [F(0.5)]),
               Message("/axis_zoom", [F(0.5)]), Message("/axis_slide", [F(0.5)])], []))
    case PresetSet => PresetSetPlan(body)
    case PresetRecall => PresetRecallPlan(body)
    case SlideGoto => SlideGotoPlan(body)
    case OffsetRange => IntPairPlan(body, "/config/offset_range", "pan_range", 800, "tilt_range", 800)
    case PanMap => IntPairPlan(body, "/config/pan_map", "min", 800, "max", -800)
    case TiltMap => IntPairPlan(body, "/config/tilt_map", "min", 0, "max", 0)
    case _ =>
      var v := ValueRoute(route).value;
      OneValue(body, v.0, v.1, v.2)
  }

  /** The messages a request makes the handler send. */
  function Sends(route: Route, body: Option<Body>): seq<Message> {
    var plan := PlanFor(route, body);
    if plan.Ok? then plan.value.sends else []
  }

  // ---------------------------------------------------------------- answers

  /** The handler's HTTP answer: the JSON `success` flag and echoed values, or
      an error status. */
  datatype Reply = Answer(success: bool, echo: seq<Arg>) | Failure(status: nat)

  predicate AllTrue(oks: seq<bool>) {
    forall k :: 0 <= k < |oks| ==> oks[k]
  }

  /** The answer, given what each of the handler's sends returned. */
  function Respond(route: Route, body: Option<Body>, oks: seq<bool>): (r: Reply)
    ensures r.Answer? <==> PlanFor(route, body).Ok?
    ensures r.Failure? ==> (r.status == 400 <==> Guarded(route)) && (r.status == 400 || r.status == 500)
  {
    match PlanFor(route, body)
    case Err(_) => Failure(if Guarded(route) then 400 else 500)
    case Ok(plan) => Answer(Guarded(route) || AllTrue(oks), plan.echo)
  }

  /** The packets `create_osc_message` builds for a list of messages. */
  function Encoded(f32: Float32Packer, msgs: seq<Message>): (ps: seq<Packet>)
    ensures |ps| == |msgs|
  {
    seq(|msgs|, k requires 0 <= k < |msgs| => OscMessage(f32, msgs[k].address, msgs[k].args))
  }

  /** A message encodes exactly when its int arguments fit in int32. */
  lemma EncodedOk(f32: Float32Packer, msgs: seq<Message>)
    ensures forall k :: 0 <= k < |msgs| ==> (Encoded(f32, msgs)[k].Ok? <==> Encodable(msgs[k].args))
  {
    forall k | 0 <= k < |msgs|
      ensures Encoded(f32, msgs)[k].Ok? <==> Encodable(msgs[k].args)
    {
      MessageEncodes(f32, msgs[k].address, msgs[k].args);
    }
  }

  // ---------------------------------------------------------------- sending

  /** `send_osc_message` of slider_controller.py. */
  method SendOscMessage(link: UdpLink, f32: Float32Packer, m: Message) returns (ok: bool)
    modifies link
    ensures link.attempts == old(link.attempts) + 1
    ensures ok <==> OscMessage(f32, m.address, m.args).Ok? && old(link.attempts) in link.net
    ensures ok <==> Encodable(m.args) && old(link.attempts) in link.net
    ensures link.sent == if ok then old(link.sent) + [OscMessage(f32, m.address, m.args).value] else old(link.sent)
  {
    var packet := CreateOscMessage(f32, m.address, m.args);
    MessageEncodes(f32, m.address, m.args);
    ok := link.Transmit(packet);
  }

  /** A handler's send statements, one after another; every send runs
      whatever the earlier ones returned. */
  method SendAll(link: UdpLink, f32: Float32Packer, msgs: seq<Message>) returns (oks: seq<bool>)
    modifies link
    ensures link.attempts == old(link.attempts) + |msgs|
    ensures oks == Outcomes(link.net, old(link.attempts), Encoded(f32, msgs))
    ensures link.sent == old(link.sent) + Delivered(link.net, old(link.attempts), Encoded(f32, msgs))
  {
    ghost var start, sent0, net := link.attempts, link.sent, link.net;
    ghost var packets := Encoded(f32, msgs);
    oks := [];
    var i := 0;
    while i < |msgs|
      invariant 0 <= i <= |msgs|
      invariant link.net == net
      invariant link.attempts == start + i
      invariant oks == Outcomes(net, start, packets[..i])
      invariant link.sent == sent0 + Delivered(net, start, packets[..i])
    {
      ghost var before, attempt := link.sent, link.attempts;
      var ok := SendOscMessage(link, f32, msgs[i]);
      ghost var p := packets[i];
      assert p == OscMessage(f32, msgs[i].address, msgs[i].args);
      OutcomeStep(net, start, packets, i, attempt, p, oks, ok);
      DeliveredStep(net, start, packets, i, attempt, p, ok, sent0, before, link.sent);
      oks := oks + [ok];
      i := i + 1;
    }
    assert packets[..i] == packets;
  }

  /** One request to one route, from its body to its answer. */
  method Handle(link: UdpLink, f32: Float32Packer, route: Route, body: Option<Body>) returns (reply: Reply)
    modifies link
    ensures link.attempts == old(link.attempts) + |Sends(route, body)|
    ensures link.sent == old(link.sent) + Delivered(link.net, old(link.attempts), Encoded(f32, Sends(route, body)))
    ensures reply == Respond(route, body, Outcomes(link.net, old(link.attempts), Encoded(f32, Sends(route, body))))
  {
    var plan := PlanFor(route, body);
    var oks := SendAll(link, f32, Sends(route, body));
    if plan.Err? {
      reply := Failure(if Guarded(route) then 400 else 500);
    } else {
      reply := Answer(Guarded(route) || AllTrue(oks), plan.value.echo);
    }
  }

  // ---------------------------------------------------------------- properties

  /** A field the body lacks takes the handler's default; a field it has is
      converted, so one missing field is defaulted whatever the others hold. */
  lemma FieldDefaults(b: Body, key: string, df: real, di: int)
    ensures key !in b ==> FloatField(Some(b), key, df) == Ok(df) && IntField(Some(b), key, di) == Ok(di)
    ensures key in b ==> FloatField(Some(b), key, df) == ToFloat(b[key]) && IntField(Some(b), key, di) == ToInt(b[key])
  {
  }

  /** A value route sends exactly one message to its address, carrying the
      `value` field clamped into the route's interval: unchanged when inside,
      lo below and hi above; 0.0 when the field is missing. */
  lemma ValueRouteSpec(route: Route, body: Body)
    requires ValueRoute(route).Some?
    ensures var (address, lo, hi) := ValueRoute(route).value;
      var p := PlanFor(route, Some(body));
      var v := FloatField(Some(body), "value", 0.0);
      && (p.Ok? <==> ("value" !in body || ToFloat(body["value"]).Ok?))
      && (p.Ok? ==> v.Ok? && p.value == Plan([Message(address, [F(Clamp(lo, hi, v.value))])], [F(Clamp(lo, hi, v.value))]))
      && (p.Ok? && lo <= v.value <= hi ==> p.value.sends == [Message(address, [F(v.value)])])
      && (p.Ok? && v.value < lo ==> p.value.sends == [Message(address, [F(lo)])])
      && (p.Ok? && hi < v.value ==> p.value.sends == [Message(address, [F(hi)])])
      && ("value" !in body ==> p == Ok(Plan([Message(address, [F(0.0)])], [F(0.0)])))
  {
    var (address, lo, hi) := ValueRoute(route).value;
    assert lo <= 0.0 <= hi;
    assert PlanFor(route, Some(body)) == OneValue(Some(body), address, lo, hi);
  }

  /** `/api/joystick/combined` sends one `/joy/pt` message: the `pan` field
      clamped to [-1, 1], then the `tilt` field clamped to [-1, 1]; it goes
      ahead exactly when both fields convert, and the first one that does not
      gives the error. */
  lemma CombinedSpec(body: Option<Body>)
    ensures var pan := FloatField(body, "pan", 0.0);
      var tilt := FloatField(body, "tilt", 0.0);
      var p := PlanFor(JoystickCombined, body);
      && (p.Ok? <==> pan.Ok? && tilt.Ok?)
      && (pan.Err? ==> p == Err(pan.error))
      && (pan.Ok? && tilt.Err? ==> p == Err(tilt.error))
      && (p.Ok? ==>
            var args := [F(Clamp(-1.0, 1.0, pan.value)), F(Clamp(-1.0, 1.0, tilt.value))];
            p.value == Plan([Message("/joy/pt", args)], args))
  {
  }

  /** `/api/joystick/config` sends one `/joy/config` message with four floats,
      in this order: `deadzone` clamped to [0, 0.5], `expo` clamped to
      [0, 0.95], `slew` and `filter_hz` raised to at least 0; the tags are
      ",ffff". It goes ahead exactly when all four fields convert. */
  lemma JoystickConfigSpec(body: Option<Body>)
    ensures var dz := FloatField(body, "deadzone", 0.06);
      var ex := FloatField(body, "expo", 0.35);
      var sl := FloatField(body, "slew", 8000.0);
      var fh := FloatField(body, "filter_hz", 60.0);
      var p := PlanFor(JoystickConfig, body);
      && (p.Ok? <==> dz.Ok? && ex.Ok? && sl.Ok? && fh.Ok?)
      && (p.Ok? ==>
            var args := [F(Clamp(0.0, 0.5, dz.value)), F(Clamp(0.0, 0.95, ex.value)),
                         F(AtLeast(0.0, sl.value)), F(AtLeast(0.0, fh.value))];
            && p.value == Plan([Message("/joy/config", args)], args)
            && TypeTags(args) == ",ffff")
  {
    var p := PlanFor(JoystickConfig, body);
    if p.Ok? {
      TagsOf(p.value.sends[0].args, ",ffff");
    }
  }

  /** `/api/slide/goto` sends one `/slide/goto` message: the `position` field
      clamped into [0, 1], then the `duration` field as given. */
  lemma SlideGotoSpec(body: Option<Body>)
    ensures var pos := FloatField(body, "position", 0.5);
      var dur := FloatField(body, "duration", 2.0);
      var p := PlanFor(SlideGoto, body);
      && (p.Ok? <==> pos.Ok? && dur.Ok?)
      && (p.Ok? ==>
            var args := [F(Clamp(0.0, 1.0, pos.value)), F(dur.value)];
            p.value == Plan([Message("/slide/goto", args)], args))
  {
  }

  /** The int routes send their fields in order, unclamped: `/preset/set`
      id, pan, tilt, zoom, slide; `/preset/recall` id then the float
      duration; the `/config/...` routes their two fields. */
  lemma IntRoutesSpec(body: Option<Body>)
    ensures var id := IntField(body, "id", 0);
      var pan := IntField(body, "pan", 0);
      var tilt := IntField(body, "tilt", 0);
      var zoom := IntField(body, "zoom", 0);
      var slide := IntField(body, "slide", 0);
      var p := PlanFor(PresetSet, body);
      && (p.Ok? <==> id.Ok? && pan.Ok? && tilt.Ok? && zoom.Ok? && slide.Ok?)
      && (p.Ok? ==>
            var args := [I(id.value), I(pan.value), I(tilt.value), I(zoom.value), I(slide.value)];
            p.value == Plan([Message("/preset/set", args)], args))
    ensures var id := IntField(body, "id", 0);
      var dur := FloatField(body, "duration", 2.0);
      var p := PlanFor(PresetRecall, body);
      && (p.Ok? <==> id.Ok? && dur.Ok?)
      && (p.Ok? ==> p.value == Plan([Message("/preset/recall", [I(id.value), F(dur.value)])], [I(id.value), F(dur.value)]))
    ensures var a := IntField(body, "pan_range", 800);
      var b := IntField(body, "tilt_range", 800);
      var p := PlanFor(OffsetRange, body);
      && (p.Ok? <==> a.Ok? && b.Ok?)
      && (p.Ok? ==> p.value.sends == [Message("/config/offset_range", [I(a.value), I(b.value)])])
    ensures var a := IntField(body, "min", 800);
      var b := IntField(body, "max", -800);
      var p := PlanFor(PanMap, body);
      && (p.Ok? <==> a.Ok? && b.Ok?)
      && (p.Ok? ==> p.value.sends == [Message("/config/pan_map", [I(a.value), I(b.value)])])
    ensures var a := IntField(body, "min", 0);
      var b := IntField(body, "max", 0);
      var p := PlanFor(TiltMap, body);
      && (p.Ok? <==> a.Ok? && b.Ok?)
      && (p.Ok? ==> p.value.sends == [Message("/config/tilt_map", [I(a.value), I(b.value)])])
  {
  }

  /** The tag strings of the advanced routes: ",iiiii" for /preset/set and
      ",if" for /preset/recall, whatever the numbers. */
  lemma PresetTags(body: Option<Body>)
    ensures PlanFor(PresetSet, body).Ok? ==>
      |PlanFor(PresetSet, body).value.sends| == 1 &&
      TypeTags(PlanFor(PresetSet, body).value.sends[0].args) == ",iiiii"
    ensures PlanFor(PresetRecall, body).Ok? ==>
      |PlanFor(PresetRecall, body).value.sends| == 1 &&
      TypeTags(PlanFor(PresetRecall, body).value.sends[0].args) == ",if"
  {
    if PlanFor(PresetSet, body).Ok? {
      TagsOf(PlanFor(PresetSet, body).value.sends[0].args, ",iiiii");
    }
    if PlanFor(PresetRecall, body).Ok? {
      TagsOf(PlanFor(PresetRecall, body).value.sends[0].args, ",if");
    }
  }

  /** Tag strings are equal when they agree character by character. */
  lemma TagsOf(args: seq<Arg>, tags: string)
    requires |tags| == |args| + 1 && tags[0] == ','
    requires forall k :: 0 <= k < |args| ==> tags[k + 1] == (if args[k].F? then 'f' else 'i')
    ensures TypeTags(args) == tags
  {
    TagsAt(args);
    var rest := tags[1..];
    forall k | 0 <= k < |args|
      ensures Tags(args)[k] == rest[k]
    {
      assert rest[k] == tags[k + 1];
    }
    assert Tags(args) == rest;
    assert tags == [','] + rest;
  }

  /** Each missing field takes its own default, whatever the other fields
      hold: 0.06, 0.35, 8000.0 and 60.0 for the joystick settings (before
      clamping, which leaves them as they are). With an empty object all four
      are defaulted. */
  lemma JoystickConfigDefaults(b: Body)
    ensures var p := PlanFor(JoystickConfig, Some(b));
      p.Ok? ==>
        && ("deadzone" !in b ==> p.value.sends[0].args[0] == F(0.06))
        && ("expo" !in b ==> p.value.sends[0].args[1] == F(0.35))
        && ("slew" !in b ==> p.value.sends[0].args[2] == F(8000.0))
        && ("filter_hz" !in b ==> p.value.sends[0].args[3] == F(60.0))
    ensures PlanFor(JoystickConfig, Some(map[])) ==
      Ok(Plan([Message("/joy/config", [F(0.06), F(0.35), F(8000.0), F(60.0)])], [F(0.06), F(0.35), F(8000.0), F(60.0)]))
  {
    JoystickConfigSpec(Some(b));
  }

  /** Position 0.5 and duration 2.0 for `/api/slide/goto`; id 0 and duration
      2.0 for `/api/preset/recall`; id and positions 0 for `/api/preset/set`;
      each field on its own, whatever the others hold. */
  lemma MotionDefaults(b: Body)
    ensures var p := PlanFor(SlideGoto, Some(b));
      p.Ok? ==>
        && ("position" !in b ==> p.value.sends[0].args[0] == F(0.5))
        && ("duration" !in b ==> p.value.sends[0].args[1] == F(2.0))
    ensures var p := PlanFor(PresetRecall, Some(b));
      p.Ok? ==>
        && ("id" !in b ==> p.value.sends[0].args[0] == I(0))
        && ("duration" !in b ==> p.value.sends[0].args[1] == F(2.0))
    ensures var p := PlanFor(PresetSet, Some(b));
      p.Ok? ==>
        && ("id" !in b ==> p.value.sends[0].args[0] == I(0))
        && ("pan" !in b ==> p.value.sends[0].args[1] == I(0))
        && ("tilt" !in b ==> p.value.sends[0].args[2] == I(0))
        && ("zoom" !in b ==> p.value.sends[0].args[3] == I(0))
        && ("slide" !in b ==> p.value.sends[0].args[4] == I(0))
    ensures PlanFor(SlideGoto, Some(map[])) == Ok(Plan([Message("/slide/goto", [F(0.5), F(2.0)])], [F(0.5), F(2.0)]))
    ensures PlanFor(PresetRecall, Some(map[])) == Ok(Plan([Message("/preset/recall", [I(0), F(2.0)])], [I(0), F(2.0)]))
    ensures PlanFor(PresetSet, Some(map[])) ==
      Ok(Plan([Message("/preset/set", [I(0), I(0), I(0), I(0), I(0)])], [I(0), I(0), I(0), I(0), I(0)]))
  {
    SlideGotoSpec(Some(b));
    IntRoutesSpec(Some(b));
  }

  /** 800 / 800 for the offset ranges, 800 / -800 for the pan mapping and
      0 / 0 for the tilt mapping; each field on its own. */
  lemma ConfigDefaults(b: Body)
    ensures var p := PlanFor(OffsetRange, Some(b));
      p.Ok? ==>
        && ("pan_range" !in b ==> p.value.sends[0].args[0] == I(800))
        && ("tilt_range" !in b ==> p.value.sends[0].args[1] == I(800))
    ensures var p := PlanFor(PanMap, Some(b));
      p.Ok? ==>
        && ("min" !in b ==> p.value.sends[0].args[0] == I(800))
        && ("max" !in b ==> p.value.sends[0].args[1] == I(-800))
    ensures var p := PlanFor(TiltMap, Some(b));
      p.Ok? ==>
        && ("min" !in b ==> p.value.sends[0].args[0] == I(0))
        && ("max" !in b ==> p.value.sends[0].args[1] == I(0))
    ensures PlanFor(OffsetRange, Some(map[])) == Ok(Plan([Message("/config/offset_range", [I(800), I(800)])], [I(800), I(800)]))
    ensures PlanFor(PanMap, Some(map[])) == Ok(Plan([Message("/config/pan_map", [I(800), I(-800)])], [I(800), I(-800)]))
    ensures PlanFor(TiltMap, Some(map[])) == Ok(Plan([Message("/config/tilt_map", [I(0), I(0)])], [I(0), I(0)]))
  {
    IntRoutesSpec(Some(b));
  }

  /** A field that does not convert, or a request without a JSON object,
      makes a handler send nothing: 400 on the advanced routes, 500 on the
      others (the three composites read no body and always go ahead). */
  lemma ConversionFailure(route: Route, body: Option<Body>)
    ensures PlanFor(route, body).Err? ==>
      Sends(route, body) == [] && Respond(route, body, []) == Failure(if Guarded(route) then 400 else 500)
    ensures body.None? ==> (PlanFor(route, body).Err? <==> !(route.Stop? || route.ResetOffsets? || route.ResetAllAxes?))
  {
    if body.None? && !(route.Stop? || route.ResetOffsets? || route.ResetAllAxes?) && ValueRoute(route).Some? {
      var (address, lo, hi) := ValueRoute(route).value;
      assert PlanFor(route, body) == OneValue(body, address, lo, hi);
    }
  }

  /** The basic and composite routes report the AND of their sends; the
      advanced routes report success whatever the sends returned. */
  lemma SuccessFlag(route: Route, body: Option<Body>, oks: seq<bool>)
    requires PlanFor(route, body).Ok?
    ensures Respond(route, body, oks).Answer?
    ensures Guarded(route) ==> Respond(route, body, oks).success
    ensures !Guarded(route) ==> (Respond(route, body, oks).success <==> forall k :: 0 <= k < |oks| ==> oks[k])
  {
  }

  /** Messages whose arguments are all floats always encode, so each send
      reports what the socket layer did. */
  lemma FloatOutcomes(f32: Float32Packer, net: Network, start: nat, msgs: seq<Message>)
    requires forall k, j :: 0 <= k < |msgs| && 0 <= j < |msgs[k].args| ==> msgs[k].args[j].F?
    ensures |Outcomes(net, start, Encoded(f32, msgs))| == |msgs|
    ensures forall k :: 0 <= k < |msgs| ==> (Outcomes(net, start, Encoded(f32, msgs))[k] <==> (start + k) in net)
  {
    var ps := Encoded(f32, msgs);
    EncodedOk(f32, msgs);
    OutcomesAt(net, start, ps);
    forall k | 0 <= k < |msgs|
      ensures ps[k].Ok?
    {
      assert Encodable(msgs[k].args);
    }
  }

  /** `/api/stop` sends /slide/jog, /pan and /tilt, each with 0.0, in that
      order, and reports true exactly when all three sends got through. */
  lemma StopOutcome(f32: Float32Packer, net: Network, start: nat, body: Option<Body>)
    ensures Sends(Stop, body) == [Message("/slide/jog", [F(0.0)]), Message("/pan", [F(0.0)]), Message("/tilt", [F(0.0)])]
    ensures Respond(Stop, body, Outcomes(net, start, Encoded(f32, Sends(Stop, body)))).success <==>
      start in net && (start + 1) in net && (start + 2) in net
  {
    var msgs := Sends(Stop, body);
    assert msgs == [Message("/slide/jog", [F(0.0)]), Message("/pan", [F(0.0)]), Message("/tilt", [F(0.0)])];
    FloatOutcomes(f32, net, start, msgs);
    var oks := Outcomes(net, start, Encoded(f32, msgs));
    AllTrueSmall(oks);
  }

  /** `/api/reset_offsets` sends /pan and /tilt, each with 0.0, in that
      order, and reports true exactly when both sends got through. */
  lemma ResetOffsetsOutcome(f32: Float32Packer, net: Network, start: nat, body: Option<Body>)
    ensures Sends(ResetOffsets, body) == [Message("/pan", [F(0.0)]), Message("/tilt", [F(0.0)])]
    ensures Respond(ResetOffsets, body, Outcomes(net, start, Encoded(f32, Sends(ResetOffsets, body)))).success <==>
      start in net && (start + 1) in net
  {
    var msgs := Sends(ResetOffsets, body);
    assert msgs == [Message("/pan", [F(0.0)]), Message("/tilt", [F(0.0)])];
    FloatOutcomes(f32, net, start, msgs);
    var oks := Outcomes(net, start, Encoded(f32, msgs));
    AllTrueSmall(oks);
  }

  /** `/api/reset_all_axes` sends the four `/axis_*` at 0.5 and reports true
      exactly when all four sends got through. */
  lemma ResetAllAxesOutcome(f32: Float32Packer, net: Network, start: nat, body: Option<Body>)
    ensures Sends(ResetAllAxes, body) == [Message("/axis_pan", [F(0.5)]), Message("/axis_tilt", [F(0.5)]),
                                          Message("/axis_zoom", [F(0.5)]), Message("/axis_slide", [F(0.5)])]
    ensures Respond(ResetAllAxes, body, Outcomes(net, start, Encoded(f32, Sends(ResetAllAxes, body)))).success <==>
      start in net && (start + 1) in net && (start + 2) in net && (start + 3) in net
  {
    var msgs := Sends(ResetAllAxes, body);
    assert msgs == [Message("/axis_pan", [F(0.5)]), Message("/axis_tilt", [F(0.5)]),
                    Message("/axis_zoom", [F(0.5)]), Message("/axis_slide", [F(0.5)])];
    FloatOutcomes(f32, net, start, msgs);
    var oks := Outcomes(net, start, Encoded(f32, msgs));
    AllTrueSmall(oks);
  }

  lemma AllTrueSmall(oks: seq<bool>)
    ensures |oks| == 2 ==> (AllTrue(oks) <==> oks[0] && oks[1])
    ensures |oks| == 3 ==> (AllTrue(oks) <==> oks[0] && oks[1] && oks[2])
    ensures |oks| == 4 ==> (AllTrue(oks) <==> oks[0] && oks[1] && oks[2] && oks[3])
  {
  }

  /** `/api/preset/set` with an id outside int32: `struct.pack` raises inside
      `send_osc_message`, nothing goes out, and the route still answers
      `success: True`. */
  lemma PresetSetOutOfRange(f32: Float32Packer, net: Network, start: nat, b: Body, id: int)
    requires b == map["id" := JInt(id)] && !InInt32(id)
    ensures Delivered(net, start, Encoded(f32, Sends(PresetSet, Some(b)))) == []
    ensures Respond(PresetSet, Some(b), Outcomes(net, start, Encoded(f32, Sends(PresetSet, Some(b))))) ==
      Answer(true, [I(id), I(0), I(0), I(0), I(0)])
  {
    var args := [I(id), I(0), I(0), I(0), I(0)];
    assert Sends(PresetSet, Some(b)) == [Message("/preset/set", args)];
    assert !Encodable(args) by {
      assert args[0].I? && !InInt32(args[0].v);
    }
    var ps := Encoded(f32, Sends(PresetSet, Some(b)));
    EncodedOk(f32, Sends(PresetSet, Some(b)));
    assert ps[..0] == [];
    assert Delivered(net, start, ps) == Delivered(net, start, ps[..0]) + [];
  }
}
