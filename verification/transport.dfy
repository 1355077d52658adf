/** The UDP half of the three `send_osc_message` copies: each call opens a
    datagram socket, encodes, `sendto`s the packet to the receiver and
    reports `True`, or reports `False` when any of these raises. The socket
    layer is an oracle: the set of attempts whose socket calls succeed. */
module Transport {
  import opened OscTypes

  type Packet = Result<seq<Byte>, EncodeError>

  /** The socket layer's behaviour: the attempts (counted from 0) whose
      `socket()` and `sendto` calls both succeed. */
  type Network = iset<nat>

  /** The sending side, with the log of the datagrams that left it. */
  class UdpLink {
    /** The attempts on which `socket()` and `sendto` both succeed. */
    const net: Network
    /** Send attempts so far (one per `send_osc_message` call). */
    var attempts: nat
    /** Every datagram handed to the network, in order. */
    var sent: seq<seq<Byte>>

    constructor (net: Network)
      ensures this.net == net && attempts == 0 && sent == []
    {
      this.net := net;
      attempts := 0;
      sent := [];
    }

    /** One `send_osc_message` given the outcome of its `create_osc_message`:
        true exactly when the packet encoded and the socket calls succeeded;
        only then does a datagram leave. */
    method Transmit(packet: Packet) returns (ok: bool)
      modifies this
      ensures attempts == old(attempts) + 1
      ensures ok <==> packet.Ok? && old(attempts) in net
      ensures sent == if ok then old(sent) + [packet.value] else old(sent)
    {
      ok := packet.Ok? && attempts in net;
      if ok {
        sent := sent + [packet.value];
      }
      attempts := attempts + 1;
    }
  }

  /** What `send_osc_message` returns for each of several packets sent one
      after another from attempt `start` on. */
  function Outcomes(net: Network, start: nat, packets: seq<Packet>): (oks: seq<bool>)
    ensures |oks| == |packets|
    decreases |packets|
  {
    if packets == [] then []
    else
      var n := |packets| - 1;
      Outcomes(net, start, packets[..n]) + [packets[n].Ok? && (start + n) in net]
  }

  /** Send k reports true exactly when its packet encoded and the socket
      calls of attempt `start + k` succeeded. */
  lemma {:induction false} OutcomesAt(net: Network, start: nat, packets: seq<Packet>)
    ensures forall k :: 0 <= k < |packets| ==> (Outcomes(net, start, packets)[k] <==> packets[k].Ok? && (start + k) in net)
    decreases |packets|
  {
    if packets != [] {
      var n := |packets| - 1;
      OutcomesAt(net, start, packets[..n]);
      assert forall k :: 0 <= k < n ==> packets[..n][k] == packets[k];
    }
  }

  /** The datagrams those sends put on the network, in order. */
  function Delivered(net: Network, start: nat, packets: seq<Packet>): (d: seq<seq<Byte>>)
    ensures |d| <= |packets|
    decreases |packets|
  {
    if packets == [] then []
    else
      var n := |packets| - 1;
      Delivered(net, start, packets[..n]) + (if packets[n].Ok? && (start + n) in net then [packets[n].value] else [])
  }

  /** One more send: its outcome and its datagram follow the earlier ones. */
  lemma SendSnoc(net: Network, start: nat, packets: seq<Packet>, p: Packet)
    ensures Outcomes(net, start, packets + [p]) == Outcomes(net, start, packets) + [p.Ok? && (start + |packets|) in net]
    ensures Delivered(net, start, packets + [p]) ==
      Delivered(net, start, packets) + (if p.Ok? && (start + |packets|) in net then [p.value] else [])
  {
    assert (packets + [p])[..|packets|] == packets;
  }

  /** The bookkeeping of a loop that sends `packets` one after another:
      after send i, the outcomes and datagrams are those of the first i + 1. */
  lemma SendStep(net: Network, start: nat, packets: seq<Packet>, i: nat, p: Packet, oks: seq<bool>, ok: bool,
                 sent0: seq<seq<Byte>>, before: seq<seq<Byte>>, after: seq<seq<Byte>>)
    requires i < |packets| && packets[i] == p
    requires oks == Outcomes(net, start, packets[..i])
    requires before == sent0 + Delivered(net, start, packets[..i])
    requires ok <==> p.Ok? && (start + i) in net
    requires after == if ok then before + [p.value] else before
    ensures oks + [ok] == Outcomes(net, start, packets[..i + 1])
    ensures after == sent0 + Delivered(net, start, packets[..i + 1])
  {
    assert packets[..i + 1] == packets[..i] + [packets[i]];
    SendSnoc(net, start, packets[..i], packets[i]);
  }

  /** The datagram half of `SendStep`, with the attempt number as the
      socket object counts it. */
  lemma DeliveredStep(net: Network, start: nat, packets: seq<Packet>, i: nat, attempt: nat, p: Packet, ok: bool,
                      sent0: seq<seq<Byte>>, before: seq<seq<Byte>>, after: seq<seq<Byte>>)
    requires i < |packets| && packets[i] == p && attempt == start + i
    requires before == sent0 + Delivered(net, start, packets[..i])
    requires ok <==> p.Ok? && attempt in net
    requires after == if ok then before + [p.value] else before
    ensures after == sent0 + Delivered(net, start, packets[..i + 1])
  {
    SendStep(net, start, packets, i, p, Outcomes(net, start, packets[..i]), ok, sent0, before, after);
  }

  /** The outcome half of `SendStep`, likewise. */
  lemma OutcomeStep(net: Network, start: nat, packets: seq<Packet>, i: nat, attempt: nat, p: Packet, oks: seq<bool>, ok: bool)
    requires i < |packets| && packets[i] == p && attempt == start + i
    requires oks == Outcomes(net, start, packets[..i])
    requires ok <==> p.Ok? && attempt in net
    ensures oks + [ok] == Outcomes(net, start, packets[..i + 1])
  {
    SendStep(net, start, packets, i, p, oks, ok, [], Delivered(net, start, packets[..i]),
             Delivered(net, start, packets[..i]) + (if ok then [p.value] else []));
  }

  /** When every send succeeds every packet goes out, in order. */
  lemma {:induction false} DeliveredAll(net: Network, start: nat, packets: seq<Packet>)
    requires forall k :: 0 <= k < |packets| ==> packets[k].Ok? && (start + k) in net
    ensures |Delivered(net, start, packets)| == |packets|
    ensures forall k :: 0 <= k < |packets| ==> Delivered(net, start, packets)[k] == packets[k].value
    decreases |packets|
  {
    if packets != [] {
      var n := |packets| - 1;
      var init := packets[..n];
      forall k | 0 <= k < n
        ensures init[k] == packets[k] && init[k].Ok? && (start + k) in net
      {
      }
      DeliveredAll(net, start, init);
      var d := Delivered(net, start, init);
      assert Delivered(net, start, packets) == d + [packets[n].value];
    }
  }

  /** Exactly the successful sends deliver: one datagram per `true`. */
  lemma {:induction false} DeliveredCount(net: Network, start: nat, packets: seq<Packet>)
    ensures |Delivered(net, start, packets)| == Count(Outcomes(net, start, packets))
    decreases |packets|
  {
    if packets != [] {
      var n := |packets| - 1;
      DeliveredCount(net, start, packets[..n]);
      var oks := Outcomes(net, start, packets);
      assert oks[..n] == Outcomes(net, start, packets[..n]);
      CountSnoc(oks[..n], oks[n]);
      assert oks[..n] + [oks[n]] == oks;
    }
  }

  /** How many sends in a row succeed from attempt `start` on: the index of
      the first send that fails, or |packets| when none does. */
  function FirstFailure(net: Network, start: nat, packets: seq<Packet>): (k: nat)
    ensures k <= |packets|
    decreases |packets|
  {
    if packets == [] then 0
    else if !(packets[0].Ok? && start in net) then 0
    else 1 + FirstFailure(net, start + 1, packets[1..])
  }

  /** The first n packets all encoded and their socket calls all succeeded. */
  predicate SucceededBefore(net: Network, start: nat, packets: seq<Packet>, n: nat) {
    n <= |packets| && forall i :: 0 <= i < n ==> packets[i].Ok? && (start + i) in net
  }

  /** Every send before the first failure succeeded, and the one at it did not. */
  lemma {:induction false} FirstFailureSpec(net: Network, start: nat, packets: seq<Packet>)
    ensures var k := FirstFailure(net, start, packets);
      SucceededBefore(net, start, packets, k) &&
      (k < |packets| ==> !(packets[k].Ok? && (start + k) in net))
    decreases |packets|
  {
    if packets != [] && packets[0].Ok? && start in net {
      var rest := packets[1..];
      FirstFailureSpec(net, start + 1, rest);
      var k := FirstFailure(net, start, packets);
      forall i | 0 <= i < k
        ensures packets[i].Ok? && (start + i) in net
      {
        if i > 0 {
          assert packets[i] == rest[i - 1];
        }
      }
      if k < |packets| {
        assert packets[k] == rest[k - 1];
      }
    }
  }

  /** Conversely, a run of j successful sends followed by a failure (or by
      the end of the packets) puts the first failure at j. */
  lemma {:induction false} FirstFailureIs(net: Network, start: nat, packets: seq<Packet>, j: nat)
    requires SucceededBefore(net, start, packets, j)
    requires j < |packets| ==> !(packets[j].Ok? && (start + j) in net)
    ensures FirstFailure(net, start, packets) == j
    decreases j
  {
    if j > 0 {
      assert packets[0].Ok? && (start + 0) in net;
      var rest := packets[1..];
      forall i | 0 <= i < j - 1
        ensures rest[i].Ok? && (start + 1 + i) in net
      {
        assert rest[i] == packets[i + 1];
      }
      assert SucceededBefore(net, start + 1, rest, j - 1);
      if j - 1 < |rest| {
        assert rest[j - 1] == packets[j];
      }
      FirstFailureIs(net, start + 1, rest, j - 1);
    }
  }

  /** When every packet encodes, no send fails before the last exactly when
      the socket calls of all the attempts succeed; every packet then goes
      out, in order. */
  lemma AllSucceed(net: Network, start: nat, packets: seq<Packet>)
    requires forall k :: 0 <= k < |packets| ==> packets[k].Ok?
    ensures FirstFailure(net, start, packets) == |packets| <==> forall a :: start <= a < start + |packets| ==> a in net
    ensures FirstFailure(net, start, packets) == |packets| ==>
      |Delivered(net, start, packets)| == |packets| &&
      forall k :: 0 <= k < |packets| ==> Delivered(net, start, packets)[k] == packets[k].value
  {
    if forall a :: start <= a < start + |packets| ==> a in net {
      forall j | 0 <= j < |packets|
        ensures packets[j].Ok? && (start + j) in net
      {
      }
      assert SucceededBefore(net, start, packets, |packets|);
      FirstFailureIs(net, start, packets, |packets|);
    }
    if FirstFailure(net, start, packets) == |packets| {
      FirstFailureSpec(net, start, packets);
      forall a | start <= a < start + |packets|
        ensures a in net
      {
        assert packets[a - start].Ok? && (start + (a - start)) in net;
      }
      DeliveredAll(net, start, packets);
    }
  }

  /** The bookkeeping of a script that stops at its first failed send: after
      send j either every send so far succeeded and delivered, or send j is
      the first failure and nothing more was delivered. */
  lemma EarlyExitStep(net: Network, start: nat, packets: seq<Packet>, j: nat, p: Packet, ok: bool,
                      sent0: seq<seq<Byte>>, before: seq<seq<Byte>>, after: seq<seq<Byte>>)
    requires j < |packets| && packets[j] == p
    requires SucceededBefore(net, start, packets, j)
    requires before == sent0 + Delivered(net, start, packets[..j])
    requires ok <==> p.Ok? && (start + j) in net
    requires after == if ok then before + [p.value] else before
    ensures ok ==> SucceededBefore(net, start, packets, j + 1)
    ensures ok ==> after == sent0 + Delivered(net, start, packets[..j + 1])
    ensures !ok ==> FirstFailure(net, start, packets) == j && after == sent0 + Delivered(net, start, packets[..j])
  {
    if ok {
      SendStep(net, start, packets, j, p, Outcomes(net, start, packets[..j]), ok, sent0, before, after);
      forall i | 0 <= i < j + 1
        ensures packets[i].Ok? && (start + i) in net
      {
      }
    } else {
      FirstFailureIs(net, start, packets, j);
    }
  }

  /** The number of `true`s. */
  function Count(bs: seq<bool>): (c: nat)
    ensures c <= |bs|
  {
    if bs == [] then 0 else (if bs[0] then 1 else 0) + Count(bs[1..])
  }

  lemma {:induction false} CountSnoc(bs: seq<bool>, b: bool)
    ensures Count(bs + [b]) == Count(bs) + (if b then 1 else 0)
    decreases |bs|
  {
    if bs != [] {
      assert (bs + [b])[1..] == bs[1..] + [b];
      CountSnoc(bs[1..], b);
    }
  }
}
