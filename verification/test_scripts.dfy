/** The two command-line test scripts: test_osc.py's `test_connection`,
    which stops at the first send that fails, and test_osc_simple.py's
    `__main__`, which sends four messages whatever happens. Both send
    through their own copy of `send_osc_message`, built on the loose
    encoder. */
module TestScripts {
  import opened OscTypes
  import opened LooseCodec
  import opened Transport
  import Firmware

  /** `send_osc_message` of the test scripts: encode with the loose
      builder, then hand the packet to the socket. */
  method SendLoose(link: UdpLink, f32: Float32Packer, address: string, args: seq<Arg>) returns (ok: bool)
    modifies link
    ensures link.attempts == old(link.attempts) + 1
    ensures ok <==> LooseMessage(f32, address, args).Ok? && old(link.attempts) in link.net
    ensures link.sent == if ok then old(link.sent) + [LooseMessage(f32, address, args).value] else old(link.sent)
  {
    var packet := CreateLooseMessage(f32, address, args);
    ok := link.Transmit(packet);
  }

  /** What the loose builder makes of each message of a script, in order. */
  function LooseEncoded(f32: Float32Packer, msgs: seq<Message>): (ps: seq<Packet>)
    ensures |ps| == |msgs|
    decreases |msgs|
  {
    if msgs == [] then []
    else
      var n := |msgs| - 1;
      LooseEncoded(f32, msgs[..n]) + [LooseMessage(f32, msgs[n].address, msgs[n].args)]
  }

  /** Packet k is message k, encoded. */
  lemma {:induction false} LooseEncodedAt(f32: Float32Packer, msgs: seq<Message>, k: nat)
    requires k < |msgs|
    ensures LooseEncoded(f32, msgs)[k] == LooseMessage(f32, msgs[k].address, msgs[k].args)
    decreases |msgs|
  {
    var n := |msgs| - 1;
    var last := LooseMessage(f32, msgs[n].address, msgs[n].args);
    assert LooseEncoded(f32, msgs) == LooseEncoded(f32, msgs[..n]) + [last];
    if k < n {
      LooseEncodedAt(f32, msgs[..n], k);
      assert msgs[..n][k] == msgs[k];
    }
  }

  /** The five single sends of `test_connection`, then its `axis_tests`, in order. */
  function ConnectionScript(): seq<Message> {
    [
      Message("/jog", [F(0.5)]),
      Message("/pan", [F(0.2)]),
      Message("/tilt", [F(0.1)]),
      Message("/setPresetA", [I(100), I(200), I(300), I(400)]),
      Message("/jog", [F(0.0)]),
      Message("/axis_pan", [F(0.5)]),
      Message("/axis_tilt", [F(0.5)]),
      Message("/axis_zoom", [F(0.5)]),
      Message("/axis_slide", [F(0.5)])
    ]
  }

  /** The four sends of test_osc_simple.py's `__main__`. */
  function SimpleScript(): seq<Message> {
    [
      Message("/axis_pan", [F(0.5)]),
      Message("/jog", [F(0.0)]),
      Message("/pan", [F(0.0)]),
      Message("/tilt", [F(0.0)])
    ]
  }

  /** One `send_osc_message(*script[i])` line of a script that carries on
      whatever happens: the datagrams so far are those of the first i + 1
      messages. */
  method SendNext(link: UdpLink, f32: Float32Packer, script: seq<Message>, i: nat,
                  ghost start: nat, ghost sent0: seq<seq<Byte>>)
    requires i < |script|
    requires link.attempts == start + i
    requires link.sent == sent0 + Delivered(link.net, start, LooseEncoded(f32, script)[..i])
    modifies link
    ensures link.attempts == start + i + 1
    ensures link.sent == sent0 + Delivered(link.net, start, LooseEncoded(f32, script)[..i + 1])
  {
    var ok := SendLoose(link, f32, script[i].address, script[i].args);
    LooseEncodedAt(f32, script, i);
    DeliveredStep(link.net, start, LooseEncoded(f32, script), i, old(link.attempts),
                  LooseMessage(f32, script[i].address, script[i].args), ok, sent0, old(link.sent), link.sent);
  }

  /** One `if send_osc_message(*script[j]): ... else: return False` of
      `test_connection`, reached only when every earlier send succeeded:
      either this one succeeds too, or it is the first failure and nothing
      more goes out. */
  method SendOrStop(link: UdpLink, f32: Float32Packer, script: seq<Message>, j: nat,
                    ghost start: nat, ghost sent0: seq<seq<Byte>>) returns (ok: bool)
    requires j < |script|
    requires link.attempts == start + j
    requires SucceededBefore(link.net, start, LooseEncoded(f32, script), j)
    requires link.sent == sent0 + Delivered(link.net, start, LooseEncoded(f32, script)[..j])
    modifies link
    ensures link.attempts == start + j + 1
    ensures ok ==> SucceededBefore(link.net, start, LooseEncoded(f32, script), j + 1)
    ensures ok ==> link.sent == sent0 + Delivered(link.net, start, LooseEncoded(f32, script)[..j + 1])
    ensures !ok ==> FirstFailure(link.net, start, LooseEncoded(f32, script)) == j
    ensures !ok ==> link.sent == sent0 + Delivered(link.net, start, LooseEncoded(f32, script)[..j])
  {
    ok := SendLoose(link, f32, script[j].address, script[j].args);
    LooseEncodedAt(f32, script, j);
    ScriptExitStep(link.net, start, LooseEncoded(f32, script), j, old(link.attempts),
                   LooseMessage(f32, script[j].address, script[j].args), ok, sent0, old(link.sent), link.sent);
  }

  /** `EarlyExitStep` with the attempt number as the socket object counts it. */
  lemma ScriptExitStep(net: Network, start: nat, packets: seq<Packet>, j: nat, attempt: nat, p: Packet, ok: bool,
                       sent0: seq<seq<Byte>>, before: seq<seq<Byte>>, after: seq<seq<Byte>>)
    requires j < |packets| && packets[j] == p && attempt == start + j
    requires SucceededBefore(net, start, packets, j)
    requires before == sent0 + Delivered(net, start, packets[..j])
    requires ok <==> p.Ok? && attempt in net
    requires after == if ok then before + [p.value] else before
    ensures ok ==> SucceededBefore(net, start, packets, j + 1)
    ensures ok ==> after == sent0 + Delivered(net, start, packets[..j + 1])
    ensures !ok ==> FirstFailure(net, start, packets) == j && after == sent0 + Delivered(net, start, packets[..j])
  {
    EarlyExitStep(net, start, packets, j, p, ok, sent0, before, after);
  }

  /** The control flow of `test_connection` over its nine messages: five
      single sends, then the `axis_tests` loop over the last four, each
      returning False at once when its send fails. It passes exactly when
      all nine sends succeed; otherwise it returns at the first failed send,
      having attempted nothing after it, and only the sends before it have
      gone out. */
  method ConnectionTests(link: UdpLink, f32: Float32Packer, script: seq<Message>) returns (passed: bool)
    requires |script| == 9
    modifies link
    ensures var packets := LooseEncoded(f32, script);
      var k := FirstFailure(link.net, old(link.attempts), packets);
      && (passed <==> k == |packets|)
      && link.attempts == old(link.attempts) + (if passed then k else k + 1)
      && link.sent == old(link.sent) + Delivered(link.net, old(link.attempts), packets[..k])
  {
    ghost var start, sent0 := link.attempts, link.sent;
    assert LooseEncoded(f32, script)[..0] == [];
    // Tests 1 to 5: the single sends.
    var ok := SendOrStop(link, f32, script, 0, start, sent0);
    if !ok { return false; }
    ok := SendOrStop(link, f32, script, 1, start, sent0);
    if !ok { return false; }
    ok := SendOrStop(link, f32, script, 2, start, sent0);
    if !ok { return false; }
    ok := SendOrStop(link, f32, script, 3, start, sent0);
    if !ok { return false; }
    ok := SendOrStop(link, f32, script, 4, start, sent0);
    if !ok { return false; }
    // Test 6: the `axis_tests` loop.
    var i := 5;
    while i < |script|
      invariant 5 <= i <= |script|
      invariant link.attempts == start + i
      invariant SucceededBefore(link.net, start, LooseEncoded(f32, script), i)
      invariant link.sent == sent0 + Delivered(link.net, start, LooseEncoded(f32, script)[..i])
    {
      ok := SendOrStop(link, f32, script, i, start, sent0);
      if !ok { return false; }
      i := i + 1;
    }
    assert LooseEncoded(f32, script)[..i] == LooseEncoded(f32, script);
    FirstFailureIs(link.net, start, LooseEncoded(f32, script), |script|);
    return true;
  }

  /** `test_connection` itself, on its own nine messages. */
  method TestConnection(link: UdpLink, f32: Float32Packer) returns (passed: bool)
    modifies link
    ensures var packets := LooseEncoded(f32, ConnectionScript());
      var k := FirstFailure(link.net, old(link.attempts), packets);
      && (passed <==> k == |packets|)
      && link.attempts == old(link.attempts) + (if passed then k else k + 1)
      && link.sent == old(link.sent) + Delivered(link.net, old(link.attempts), packets[..k])
  {
    passed := ConnectionTests(link, f32, ConnectionScript());
  }

  /** test_osc_simple.py's `__main__`: all four sends are attempted, in
      order, whatever each returns, and each one that succeeds goes out. */
  method SimpleMain(link: UdpLink, f32: Float32Packer)
    modifies link
    ensures link.attempts == old(link.attempts) + 4
    ensures link.sent == old(link.sent) + Delivered(link.net, old(link.attempts), LooseEncoded(f32, SimpleScript()))
  {
    ghost var start, sent0 := link.attempts, link.sent;
    assert LooseEncoded(f32, SimpleScript())[..0] == [];
    SendNext(link, f32, SimpleScript(), 0, start, sent0);
    SendNext(link, f32, SimpleScript(), 1, start, sent0);
    SendNext(link, f32, SimpleScript(), 2, start, sent0);
    SendNext(link, f32, SimpleScript(), 3, start, sent0);
    assert LooseEncoded(f32, SimpleScript())[..4] == LooseEncoded(f32, SimpleScript());
  }

  /** A script whose every argument list fits the int32 packer encodes
      message by message. */
  lemma {:induction false} ScriptEncodes(f32: Float32Packer, msgs: seq<Message>)
    requires forall k :: 0 <= k < |msgs| ==> Encodable(msgs[k].args)
    ensures forall k :: 0 <= k < |msgs| ==> LooseEncoded(f32, msgs)[k].Ok?
  {
    forall k | 0 <= k < |msgs|
      ensures LooseEncoded(f32, msgs)[k].Ok?
    {
      LooseEncodedAt(f32, msgs, k);
      LooseMessageEncodes(f32, msgs[k].address, msgs[k].args);
    }
  }

  /** Every message of both scripts encodes (the preset ints fit in int32),
      so a send of theirs fails only when the socket does. */
  lemma ScriptsEncode(f32: Float32Packer)
    ensures forall k :: 0 <= k < |ConnectionScript()| ==> LooseEncoded(f32, ConnectionScript())[k].Ok?
    ensures forall k :: 0 <= k < |SimpleScript()| ==> LooseEncoded(f32, SimpleScript())[k].Ok?
  {
    ScriptEncodes(f32, ConnectionScript());
    ScriptEncodes(f32, SimpleScript());
  }

  /** `test_connection` passes exactly when the socket calls of its nine
      attempts all succeed, and then every message has gone out, in order. */
  lemma ConnectionPasses(net: Network, start: nat, f32: Float32Packer)
    ensures var packets := LooseEncoded(f32, ConnectionScript());
      FirstFailure(net, start, packets) == |packets| <==> forall a :: start <= a < start + 9 ==> a in net
    ensures var packets := LooseEncoded(f32, ConnectionScript());
      FirstFailure(net, start, packets) == |packets| ==>
        |Delivered(net, start, packets)| == 9 &&
        forall k :: 0 <= k < 9 ==> packets[k].Ok? && Delivered(net, start, packets)[k] == packets[k].value
  {
    ScriptsEncode(f32);
    AllSucceed(net, start, LooseEncoded(f32, ConnectionScript()));
  }

  /** Three of `test_connection`'s sends (`/jog` twice and `/setPresetA`) and
      one of the simple script's (`/jog`) go to addresses the firmware does
      not handle. The other address strings are in the firmware's dispatch
      table; the `/pan` packets are nonetheless read as "/pan,f"
      (`ConnectionPanMisread`, `SimplePanMisread`). */
  lemma ScriptAddresses()
    ensures forall k :: 0 <= k < |ConnectionScript()| ==>
      (ConnectionScript()[k].address in Firmware.HandledAddresses() <==> k != 0 && k != 3 && k != 4)
    ensures forall k :: 0 <= k < |SimpleScript()| ==>
      (SimpleScript()[k].address in Firmware.HandledAddresses() <==> k != 1)
    ensures forall k :: 0 <= k < |ConnectionScript()| ==> (ConnectionScript()[k].address == "/pan" <==> k == 1)
    ensures forall k :: 0 <= k < |SimpleScript()| ==> (SimpleScript()[k].address == "/pan" <==> k == 2)
  {
  }

  /** The address a strict OSC 1.0 reader takes from a built packet: its
      first NUL-terminated, 4-aligned string is the UTF-8 encoding of `a`. */
  predicate ReadsAddress(p: Packet, a: string) {
    p.Ok? && OscDecode.ReadOscString(p.value).Ok? && OscDecode.ReadOscString(p.value).value.0 == Utf8(a)
  }

  /** "/pan,f", the address a reader takes from the scripts' `/pan`
      packets, is not one the firmware handles: no handled address encodes
      to those bytes. */
  lemma PanFUnhandled()
    ensures forall h :: h in Firmware.HandledAddresses() ==> Utf8(h) != Utf8("/pan,f")
  {
    forall h | h in Firmware.HandledAddresses()
      ensures Utf8(h) != Utf8("/pan,f")
    {
      if Utf8(h) == Utf8("/pan,f") {
        Utf8Injective(h, "/pan,f");
      }
    }
  }

  lemma PanFBytes()
    ensures Utf8("/pan,f") == [0x2F, 0x70, 0x61, 0x6E, 0x2C, 0x66]
  {
    Utf8Ascii("/pan,f");
  }

  /** The loose `/pan` packet of any value reads as address "/pan,f". */
  lemma PanReadsPanF(f32: Float32Packer, x: real)
    ensures ReadsAddress(LooseMessage(f32, "/pan", [F(x)]), "/pan,f")
  {
    LooseCodec.PanPacketMisread(f32, x);
    PanFBytes();
  }

  /** A script's `/pan` send, wherever it stands, reads as "/pan,f". */
  lemma ScriptPanAt(f32: Float32Packer, script: seq<Message>, k: nat, x: real)
    requires k < |script| && script[k] == Message("/pan", [F(x)])
    ensures ReadsAddress(LooseEncoded(f32, script)[k], "/pan,f")
  {
    LooseEncodedAt(f32, script, k);
    PanReadsPanF(f32, x);
  }

  /** The `/pan` send of `test_connection` (send 1; ScriptAddresses shows
      it is the only one) makes a reader take "/pan,f" as the address,
      which the firmware does not handle. */
  lemma ConnectionPanMisread(f32: Float32Packer)
    ensures ReadsAddress(LooseEncoded(f32, ConnectionScript())[1], "/pan,f")
    ensures forall h :: h in Firmware.HandledAddresses() ==> Utf8(h) != Utf8("/pan,f")
  {
    ScriptPanAt(f32, ConnectionScript(), 1, 0.2);
    PanFUnhandled();
  }

  /** The same for the simple script's `/pan` send (send 2). */
  lemma SimplePanMisread(f32: Float32Packer)
    ensures ReadsAddress(LooseEncoded(f32, SimpleScript())[2], "/pan,f")
    ensures forall h :: h in Firmware.HandledAddresses() ==> Utf8(h) != Utf8("/pan,f")
  {
    ScriptPanAt(f32, SimpleScript(), 2, 0.0);
    PanFUnhandled();
  }
}
