/**
 The parser of cloned RoCE packets: any number of VLAN tags, an IPv4 header of any length, UDP
 4791, the base transport header, and on QP1 a communication-management MAD (InfiniBand
 Architecture Specification volume 1, sections 12.6.5 and 12.6.8; RFC 791, section 3.1).
 It is proved to invert an encoder of such frames.
 */
module Qp1Parser {
  import opened Words
  import opened Bytes
  import opened SteerTables
  import opened SteerController

  const SCRATCH: nat := 512
  const ETHER_HEADER: nat := 14
  const TYPE_IPV4: nat := 0x0800
  const TYPE_VLAN: nat := 0x8100
  const TYPE_QINQ: nat := 0x88A8
  const PROTO_UDP: u8 := 17
  const ROCE_PORT: nat := 4791
  const CLASS_CM: u8 := 0x07
  const ATTR_REQ: nat := 0x0010
  const ATTR_REP: nat := 0x0013

  function Captured(packet: seq<u8>): seq<u8> { packet[..Min(|packet|, SCRATCH)] }

  predicate IsTag(etherType: nat) { etherType == TYPE_VLAN || etherType == TYPE_QINQ }

  /** Exactly `n` tags, then IPv4, and room for a shortest IPv4 header. */
  ghost predicate Tagged(b: seq<u8>, n: nat) {
    && |b| >= ETHER_HEADER + 4 * n + 20
    && (forall i: nat :: i < n ==> IsTag(Be16(b, 12 + 4 * i)))
    && Be16(b, 12 + 4 * n) == TYPE_IPV4
  }

  /** What the MAD at `mad` says; `ip` is where the IPv4 header starts. */
  function CmEvent(b: seq<u8>, ip: nat, mad: nat): Option<Event>
    requires ip + 20 <= |b|
  {
    if |b| < mad + 24 || b[mad + 1] != CLASS_CM then None
    else if Be16(b, mad + 16) == ATTR_REQ && |b| >= mad + 60 then
      Some(Req(Be32(b, mad + 24), Be24(b, mad + 56), Be32(b, ip + 16)))
    else if Be16(b, mad + 16) == ATTR_REP && |b| >= mad + 40 then
      Some(Rep(Be32(b, mad + 28), Be24(b, mad + 36)))
    else None
  }

  /** What an IPv4 packet starting at `ip` says: feedback on DOCA 2.x, a CM message on 3.x. */
  function IpEvent(b: seq<u8>, ip: nat, legacy: bool): Option<Event>
    requires ip + 20 <= |b|
  {
    var ihl := b[ip] % 16 * 4;
    if b[ip] / 16 != 4 || ihl < 20 || b[ip + 9] != PROTO_UDP || |b| < ip + ihl + 20 then None
    else if Be16(b, ip + ihl + 2) != ROCE_PORT then None
    else
      var qpn := Be24(b, ip + ihl + 13);
      if qpn != 1 then (if legacy then Some(Event.Feedback(qpn, Be32(b, ip + 12))) else None)
      else if legacy then None else CmEvent(b, ip, ip + ihl + 28)
  }

  ghost predicate Yields(b: seq<u8>, legacy: bool, e: Event) {
    exists n: nat :: Tagged(b, n) && IpEvent(b, ETHER_HEADER + 4 * n, legacy) == Some(e)
  }

  /** A frame has at most one number of tags. */
  lemma TagsUnique(b: seq<u8>, m: nat, n: nat)
    requires Tagged(b, m) && Tagged(b, n)
    ensures m == n
  {
  }

  lemma YieldsExactly(b: seq<u8>, n: nat, legacy: bool)
    requires Tagged(b, n)
    ensures forall e :: Yields(b, legacy, e) <==> IpEvent(b, ETHER_HEADER + 4 * n, legacy) == Some(e)
  {
    forall e | Yields(b, legacy, e) ensures IpEvent(b, ETHER_HEADER + 4 * n, legacy) == Some(e) {
      var m: nat :| Tagged(b, m) && IpEvent(b, ETHER_HEADER + 4 * m, legacy) == Some(e);
      TagsUnique(b, m, n);
    }
  }

  method ParseMad(b: seq<u8>, ip: nat, mad: nat) returns (r: Option<Event>)
    requires ip + 20 <= |b|
    ensures r == CmEvent(b, ip, mad)
  {
    r := None;
    if |b| < mad + 24 {
      return;
    }
    var attribute := Be16(b, mad + 16);
    if b[mad + 1] != CLASS_CM {
      return;
    }
    if attribute == ATTR_REQ && |b| >= mad + 60 {
      r := Some(Req(Be32(b, mad + 24), Be32(b, mad + 56) / 0x100, Be32(b, ip + 16)));
    } else if attribute == ATTR_REP && |b| >= mad + 40 {
      r := Some(Rep(Be32(b, mad + 28), Be32(b, mad + 36) / 0x100));
    }
  }

  method ParseIp(b: seq<u8>, ip: nat, legacy: bool) returns (r: Option<Event>)
    requires ip + 20 <= |b|
    ensures r == IpEvent(b, ip, legacy)
  {
    var headerLen := b[ip] % 16 * 4;
    if b[ip] / 16 != 4 || headerLen < 20 || b[ip + 9] != PROTO_UDP || |b| < ip + headerLen + 8 + 12 {
      return None;
    }
    var udp := ip + headerLen;
    if Be16(b, udp + 2) != ROCE_PORT {
      return None;
    }
    var bth := udp + 8;
    var destinationQpn := Be24(b, bth + 5);
    if destinationQpn != 1 {
      return if legacy then Some(Event.Feedback(destinationQpn, Be32(b, ip + 12))) else None;
    }
    if legacy {
      return None;
    }
    r := ParseMad(b, ip, bth + 20);
  }

  /** Every index is below the captured length; the tag walk ends because it moves four bytes a round. */
  method ParseQp1Clone(packet: seq<u8>, legacy: bool) returns (r: Option<Event>)
    ensures r.Some? ==> Yields(Captured(packet), legacy, r.value)
    ensures r.None? ==> forall e :: !Yields(Captured(packet), legacy, e)
  {
    var b := Captured(packet);
    if |b| < ETHER_HEADER + 20 {
      return None;
    }
    var l3 := ETHER_HEADER;
    var etherType := Be16(b, 12);
    ghost var n := 0;
    while IsTag(etherType) && |b| >= l3 + 4 + 20
      invariant l3 == ETHER_HEADER + 4 * n && |b| >= l3 + 20 && etherType == Be16(b, 12 + 4 * n)
      invariant forall i: nat :: i < n ==> IsTag(Be16(b, 12 + 4 * i))
      decreases |b| - l3
    {
      etherType := Be16(b, l3 + 2);
      l3 := l3 + 4;
      n := n + 1;
    }
    if etherType != TYPE_IPV4 || |b| < l3 + 20 {
      NoIpv4(b, n);
      return None;
    }
    r := ParseIp(b, l3, legacy);
    assert Tagged(b, n);
    YieldsExactly(b, n, legacy);
  }

  lemma NoIpv4(b: seq<u8>, n: nat)
    requires |b| >= ETHER_HEADER + 4 * n + 20 && Be16(b, 12 + 4 * n) != TYPE_IPV4
    requires IsTag(Be16(b, 12 + 4 * n)) ==> |b| < ETHER_HEADER + 4 * n + 24
    requires forall i: nat :: i < n ==> IsTag(Be16(b, 12 + 4 * i))
    ensures forall m: nat :: !Tagged(b, m)
  {
  }

  /** The clone handler: a parsed message reaches the controller's tables, anything else changes nothing. */
  method HandleClone(steer: Steer, packet: seq<u8>, legacy: bool) returns (r: Option<Event>)
    requires steer.Valid()
    modifies steer`cmRequestCount, steer`qpnPairCount, steer.cmRequest, steer.qpnPair, steer.rateFlow
    ensures steer.Valid()
    ensures r.Some? ==> Yields(Captured(packet), legacy, r.value)
    ensures r.None? ==> forall e :: !Yields(Captured(packet), legacy, e)
    ensures steer.State() == if r.None? then old(steer.State()) else Apply(steer.ips, old(steer.State()), r.value)
  {
    r := ParseQp1Clone(packet, legacy);
    if r.Some? {
      ParsedKind(Captured(packet), legacy, r.value);
      match r.value
      case Req(commId, initiator, ip) => steer.RememberCmRequest(commId, initiator, ip);
      case Rep(commId, responder) => steer.CompleteCmMapping(commId, responder);
      case Feedback(sender, ip) => steer.LearnIngressFeedbackQpn(sender, ip);
    }
  }

  lemma ParsedKind(b: seq<u8>, legacy: bool, e: Event)
    requires Yields(b, legacy, e)
    ensures !e.Rate? && !e.Poll? && (e.Feedback? <==> legacy)
  {
  }

  // ---------- what a reported frame holds, byte by byte ----------

  /** Only the first 512 bytes are looked at. */
  lemma LooksAt(packet: seq<u8>)
    ensures Captured(packet) == if |packet| <= 512 then packet else packet[..512]
  {
    if |packet| <= 512 { assert packet[..|packet|] == packet; }
  }

  /** Two bytes of the frame. */
  predicate TypeIs(b: seq<u8>, i: nat, hi: u8, lo: u8) { i + 2 <= |b| && b[i] == hi && b[i + 1] == lo }

  /** Behind the two addresses `n` tags, of 802.1Q or QinQ, and then IPv4 with room for its shortest header. */
  ghost predicate CarriesTags(b: seq<u8>, n: nat) {
    && |b| >= 34 + 4 * n
    && (forall i: nat :: i < n ==> TypeIs(b, 12 + 4 * i, 0x81, 0x00) || TypeIs(b, 12 + 4 * i, 0x88, 0xA8))
    && TypeIs(b, 12 + 4 * n, 0x08, 0x00)
  }

  lemma TaggedIs(b: seq<u8>, n: nat)
    ensures Tagged(b, n) <==> CarriesTags(b, n)
  {
    if |b| >= 34 + 4 * n {
      Word(b, 12 + 4 * n, 0x08, 0x00);
      forall i: nat | i < n
        ensures IsTag(Be16(b, 12 + 4 * i)) <==>
                TypeIs(b, 12 + 4 * i, 0x81, 0x00) || TypeIs(b, 12 + 4 * i, 0x88, 0xA8)
      {
        Word(b, 12 + 4 * i, 0x81, 0x00);
        Word(b, 12 + 4 * i, 0x88, 0xA8);
      }
    }
  }

  /** Where the UDP header starts. */
  function UdpAt(b: seq<u8>, ip: nat): nat
    requires ip < |b|
  {
    ip + b[ip] % 16 * 4
  }

  /** IPv4 with a header of at least five words, UDP, and destination port 4791. */
  predicate CarriesRoce(b: seq<u8>, ip: nat) {
    && ip + 20 <= |b| && b[ip] / 16 == 4 && b[ip] % 16 >= 5 && b[ip + 9] == 17
    && UdpAt(b, ip) + 20 <= |b| && b[UdpAt(b, ip) + 2] == 0x12 && b[UdpAt(b, ip) + 3] == 0xB7
  }

  /** A management datagram of the communication class with this attribute, and room for its first fields. */
  predicate CarriesCm(b: seq<u8>, mad: nat, attribute: u8, fields: nat) {
    |b| >= mad + 24 + fields && b[mad + 1] == 0x07 && b[mad + 16] == 0 && b[mad + 17] == attribute
  }

  /** The event is the one of this frame: feedback on 2.x for any QPN but 1, a REQ or REP on 3.x for QPN 1. */
  predicate Tells(b: seq<u8>, ip: nat, legacy: bool, e: Event)
    requires CarriesRoce(b, ip)
  {
    var udp := UdpAt(b, ip);
    var destination := Be24(b, udp + 13);
    var mad := udp + 28;
    match e
    case Feedback(sender, source) => legacy && destination == sender != 1 && source == Be32(b, ip + 12)
    case Req(commId, initiator, receiver) =>
      && !legacy && destination == 1 && CarriesCm(b, mad, 0x10, 36)
      && commId == Be32(b, mad + 24) && initiator == Be24(b, mad + 56) && receiver == Be32(b, ip + 16)
    case Rep(commId, responder) =>
      && !legacy && destination == 1 && CarriesCm(b, mad, 0x13, 16)
      && commId == Be32(b, mad + 28) && responder == Be24(b, mad + 36)
    case _ => false
  }

  lemma CmEventIs(b: seq<u8>, ip: nat, mad: nat, e: Event)
    requires ip + 20 <= |b|
    ensures CmEvent(b, ip, mad) == Some(e) <==>
            match e
            case Req(commId, initiator, receiver) =>
              && CarriesCm(b, mad, 0x10, 36) && commId == Be32(b, mad + 24) && initiator == Be24(b, mad + 56)
              && receiver == Be32(b, ip + 16)
            case Rep(commId, responder) =>
              CarriesCm(b, mad, 0x13, 16) && commId == Be32(b, mad + 28) && responder == Be24(b, mad + 36)
            case _ => false
  {
    if |b| >= mad + 24 {
      Word(b, mad + 16, 0, 0x10);
      Word(b, mad + 16, 0, 0x13);
    }
  }

  lemma IpEventIs(b: seq<u8>, ip: nat, legacy: bool, e: Event)
    requires ip + 20 <= |b|
    ensures IpEvent(b, ip, legacy) == Some(e) <==> CarriesRoce(b, ip) && Tells(b, ip, legacy, e)
  {
    if UdpAt(b, ip) + 20 <= |b| {
      Word(b, UdpAt(b, ip) + 2, 0x12, 0xB7);
      CmEventIs(b, ip, UdpAt(b, ip) + 28, e);
    }
  }

  /**
   Exactly what is reported, byte by byte: behind some number of tags an IPv4, UDP 4791 packet that
   tells the event. So an RTU, a REJ, another management class or another port reports nothing.
   */
  lemma YieldsIff(b: seq<u8>, legacy: bool, e: Event)
    ensures Yields(b, legacy, e) <==>
            exists n: nat :: CarriesTags(b, n) && CarriesRoce(b, 14 + 4 * n) && Tells(b, 14 + 4 * n, legacy, e)
  {
    forall n: nat
      ensures Tagged(b, n) <==> CarriesTags(b, n)
      ensures Tagged(b, n) ==>
                (IpEvent(b, ETHER_HEADER + 4 * n, legacy) == Some(e) <==>
                 CarriesRoce(b, 14 + 4 * n) && Tells(b, 14 + 4 * n, legacy, e))
    {
      TaggedIs(b, n);
      if Tagged(b, n) { IpEventIs(b, 14 + 4 * n, legacy, e); }
    }
  }

  /** A management datagram whose attribute is neither REQ nor REP, such as an RTU with 0x14, changes no table. */
  lemma OtherAttributes(b: seq<u8>, n: nat, e: Event)
    requires Tagged(b, n) && CarriesRoce(b, 14 + 4 * n)
    requires var mad := UdpAt(b, 14 + 4 * n) + 28;
      |b| > mad + 17 && (b[mad + 16] != 0 || (b[mad + 17] != 0x10 && b[mad + 17] != 0x13) || b[mad + 1] != 0x07)
    ensures !Yields(b, false, e)
  {
    YieldsExactly(b, n, false);
    IpEventIs(b, 14 + 4 * n, false, e);
  }

  // ---------- an encoder ----------

  datatype Tag = Tag(qinq: bool, tci: u16)

  datatype Message =
    | CmReq(commId: u32, between: seq<u8>, initiator: u32)
    | CmRep(localCommId: u32, remoteCommId: u32, between: seq<u8>, responder: u32)

  /** A RoCE frame up to its base transport header. Everything the parser does not look at is arbitrary. */
  datatype Carrier = Carrier(
    macs: seq<u8>, tags: seq<Tag>, ipHead: seq<u8>, ipCheck: seq<u8>, src: u32, dst: u32, options: seq<u8>,
    udpSource: u16, udpTail: seq<u8>, bthHead: seq<u8>, destQp: u32, bthTail: seq<u8>)

  /** What a management packet carries behind that header. */
  datatype Mad = Mad(
    deth: seq<u8>, version: u8, middle: seq<u8>, tail: seq<u8>, message: Message, rest: seq<u8>)

  predicate ValidMessage(m: Message) {
    match m
    case CmReq(_, between, q) => |between| == 28 && q < TWO_24
    case CmRep(_, _, between, q) => |between| == 4 && q < TWO_24
  }

  predicate ValidCarrier(f: Carrier) {
    && |f.macs| == 12 && |f.ipHead| == 8 && |f.ipCheck| == 2
    && |f.options| % 4 == 0 && |f.options| <= 40
    && |f.udpTail| == 4 && |f.bthHead| == 5 && |f.bthTail| == 4 && f.destQp < TWO_24
  }

  predicate ValidMad(m: Mad) {
    |m.deth| == 8 && |m.middle| == 14 && |m.tail| == 6 && ValidMessage(m.message) && |m.rest| > 0
  }

  function PutTags(tags: seq<Tag>): (r: seq<u8>)
    ensures |r| == 4 * |tags|
  {
    if |tags| == 0 then []
    else
      var t := tags[|tags| - 1];
      PutTags(tags[..|tags| - 1]) + Put16(if t.qinq then TYPE_QINQ else TYPE_VLAN) + Put16(t.tci)
  }

  function PutMessage(m: Message): (r: seq<u8>)
    requires ValidMessage(m)
    ensures |r| == if m.CmReq? then 35 else 15
  {
    match m
    case CmReq(c, between, q) => Put32(c) + between + Put24(q)
    case CmRep(l, c, between, q) => Put32(l) + Put32(c) + between + Put24(q)
  }

  function PutMad(m: Mad): (r: seq<u8>)
    requires ValidMad(m)
    ensures |r| == 32 + |PutMessage(m.message)|
  {
    m.deth + [m.version, CLASS_CM] + m.middle + Put16(if m.message.CmReq? then ATTR_REQ else ATTR_REP) + m.tail +
    PutMessage(m.message)
  }

  function PutUdp(f: Carrier): (r: seq<u8>)
    requires ValidCarrier(f)
    ensures |r| == 20
  {
    Put16(f.udpSource) + Put16(ROCE_PORT) + f.udpTail + f.bthHead + Put24(f.destQp) + f.bthTail
  }

  function PutIp(f: Carrier): (r: seq<u8>)
    requires ValidCarrier(f)
    ensures |r| == 20 + |f.options|
  {
    [4 * 16 + 5 + |f.options| / 4] + f.ipHead + [PROTO_UDP] + f.ipCheck + Put32(f.src) + Put32(f.dst) + f.options
  }

  function PutEther(f: Carrier): (r: seq<u8>)
    requires ValidCarrier(f)
    ensures |r| == ETHER_HEADER + 4 * |f.tags|
  {
    f.macs + PutTags(f.tags) + Put16(TYPE_IPV4)
  }

  function Encode(f: Carrier, body: seq<u8>): seq<u8>
    requires ValidCarrier(f)
  {
    PutEther(f) + PutIp(f) + PutUdp(f) + body
  }

  function EncodeCm(f: Carrier, m: Mad): seq<u8>
    requires ValidCarrier(f) && ValidMad(m)
  {
    Encode(f, PutMad(m) + m.rest)
  }

  function HeaderLength(f: Carrier): nat { ETHER_HEADER + 4 * |f.tags| + 20 + |f.options| + 20 }

  /** Everything up to one byte after the last field read. */
  function Needed(f: Carrier, m: Mad): nat
    requires ValidMad(m)
  {
    HeaderLength(f) + 32 + |PutMessage(m.message)| + 1
  }

  function EventOf(f: Carrier, m: Mad): Event {
    match m.message
    case CmReq(c, _, q) => Req(c, q, f.dst)
    case CmRep(_, c, _, q) => Rep(c, q)
  }

  /** The `i`-th tag's type, or after the last one the type of IPv4. */
  lemma {:induction false} TagTypes(f: Carrier, i: nat)
    requires ValidCarrier(f) && i <= |f.tags|
    ensures var t := Be16(PutEther(f), 12 + 4 * i); if i < |f.tags| then IsTag(t) else t == TYPE_IPV4
  {
    if i < |f.tags| {
      TagAt(f.tags, i);
      assert PutEther(f)[12 + 4 * i..12 + 4 * i + 2] == PutTags(f.tags)[4 * i..4 * i + 2];
      SliceWords(PutEther(f), 12 + 4 * i, PutTags(f.tags), 4 * i);
    } else {
      SliceWords(PutEther(f), 12 + 4 * i, Put16(TYPE_IPV4), 0);
    }
  }

  lemma {:induction false} TagAt(tags: seq<Tag>, i: nat)
    requires i < |tags|
    ensures Be16(PutTags(tags), 4 * i) == if tags[i].qinq then TYPE_QINQ else TYPE_VLAN
  {
    var n := |tags| - 1;
    var front := PutTags(tags[..n]);
    if i < n {
      TagAt(tags[..n], i);
      SliceWords(PutTags(tags), 4 * i, front, 4 * i);
    } else {
      SliceWords(PutTags(tags), 4 * i, Put16(if tags[i].qinq then TYPE_QINQ else TYPE_VLAN), 0);
    }
  }

  lemma IpFields(f: Carrier, b: seq<u8>, ip: nat)
    requires ValidCarrier(f) && Holds(b, ip, PutIp(f))
    ensures b[ip] == 69 + |f.options| / 4 && b[ip + 9] == PROTO_UDP
    ensures Be32(b, ip + 12) == f.src && Be32(b, ip + 16) == f.dst
  {
    var p := PutIp(f);
    assert p[0] == 69 + |f.options| / 4 && p[9] == PROTO_UDP;
    assert p[12..16] == Put32(f.src) && p[16..20] == Put32(f.dst);
    forall k | 12 <= k < 20 ensures b[ip + k] == p[k] {
    }
    assert forall k :: 0 <= k < 4 ==> p[12 + k] == Put32(f.src)[k] && p[16 + k] == Put32(f.dst)[k];
  }

  lemma UdpFields(f: Carrier, b: seq<u8>, udp: nat)
    requires ValidCarrier(f) && Holds(b, udp, PutUdp(f))
    ensures Be16(b, udp + 2) == ROCE_PORT && Be24(b, udp + 13) == f.destQp
  {
    var p := PutUdp(f);
    assert p[2] == Put16(ROCE_PORT)[0] && p[3] == Put16(ROCE_PORT)[1];
    assert p[13] == Put24(f.destQp)[0] && p[14] == Put24(f.destQp)[1] && p[15] == Put24(f.destQp)[2];
  }

  lemma MadHeader(m: Mad, b: seq<u8>, at: nat)
    requires ValidMad(m) && Holds(b, at, PutMad(m))
    ensures b[at + 9] == CLASS_CM && Be16(b, at + 24) == if m.message.CmReq? then ATTR_REQ else ATTR_REP
    ensures Holds(b, at + 32, PutMessage(m.message))
  {
    var p := PutMad(m);
    var attr: u16 := if m.message.CmReq? then ATTR_REQ else ATTR_REP;
    assert p[9] == CLASS_CM && p[24] == Put16(attr)[0] && p[25] == Put16(attr)[1];
    forall i | 0 <= i < |PutMessage(m.message)| ensures b[at + 32 + i] == PutMessage(m.message)[i] {
      assert p[32 + i] == PutMessage(m.message)[i];
      assert b[at + (32 + i)] == p[32 + i];
    }
  }

  lemma MessageFields(m: Message, b: seq<u8>, at: nat)
    requires ValidMessage(m) && Holds(b, at, PutMessage(m))
    ensures m.CmReq? ==> Be32(b, at) == m.commId && Be24(b, at + 32) == m.initiator
    ensures m.CmRep? ==> Be32(b, at + 4) == m.remoteCommId && Be24(b, at + 12) == m.responder
  {
    var p := PutMessage(m);
    match m
    case CmReq(c, between, q) =>
      assert p[0] == Put32(c)[0] && p[1] == Put32(c)[1] && p[2] == Put32(c)[2] && p[3] == Put32(c)[3];
      assert p[32] == Put24(q)[0] && p[33] == Put24(q)[1] && p[34] == Put24(q)[2];
    case CmRep(l, c, between, q) =>
      assert p[4] == Put32(c)[0] && p[5] == Put32(c)[1] && p[6] == Put32(c)[2] && p[7] == Put32(c)[3];
      assert p[12] == Put24(q)[0] && p[13] == Put24(q)[1] && p[14] == Put24(q)[2];
  }

  lemma ThreePieces(a: seq<u8>, b: seq<u8>, c: seq<u8>, rest: seq<u8>)
    ensures var all := a + b + c + rest;
      Holds(all, 0, a) && Holds(all, |a|, b) && Holds(all, |a| + |b|, c) && Holds(all, |a| + |b| + |c|, rest)
  {
  }

  /** The captured part holds every piece of the frame. */
  lemma Pieces(f: Carrier, body: seq<u8>)
    requires ValidCarrier(f) && HeaderLength(f) <= SCRATCH
    ensures var b := Captured(Encode(f, body)); var ip := ETHER_HEADER + 4 * |f.tags|;
      && |b| == Min(HeaderLength(f) + |body|, SCRATCH)
      && Holds(b, 0, PutEther(f)) && Holds(b, ip, PutIp(f)) && Holds(b, ip + 20 + |f.options|, PutUdp(f))
  {
    var all := Encode(f, body);
    var b := Captured(all);
    var ether, ip, udp := PutEther(f), PutIp(f), PutUdp(f);
    ThreePieces(ether, ip, udp, body);
    PrefixHolds(b, all, 0, ether);
    PrefixHolds(b, all, |ether|, ip);
    PrefixHolds(b, all, |ether| + |ip|, udp);
  }

  lemma MadPiece(f: Carrier, m: Mad)
    requires ValidCarrier(f) && ValidMad(m) && Needed(f, m) <= SCRATCH
    ensures var b := Captured(EncodeCm(f, m)); |b| >= Needed(f, m) && Holds(b, HeaderLength(f), PutMad(m))
  {
    var all := EncodeCm(f, m);
    var mad := PutMad(m);
    ThreePieces(PutEther(f), PutIp(f), PutUdp(f), mad + m.rest);
    FrontHolds(all, HeaderLength(f), mad, m.rest);
    PrefixHolds(Captured(all), all, HeaderLength(f), mad);
  }

  lemma EncodedTags(f: Carrier, b: seq<u8>)
    requires ValidCarrier(f) && Holds(b, 0, PutEther(f)) && |b| >= ETHER_HEADER + 4 * |f.tags| + 20
    ensures Tagged(b, |f.tags|)
  {
    forall i: nat | i <= |f.tags|
      ensures var t := Be16(b, 12 + 4 * i); if i < |f.tags| then IsTag(t) else t == TYPE_IPV4
    {
      SliceWords(b, 12 + 4 * i, PutEther(f), 12 + 4 * i);
      TagTypes(f, i);
    }
  }

  lemma EncodedEvent(f: Carrier, b: seq<u8>, ip: nat)
    requires ValidCarrier(f) && Holds(b, ip, PutIp(f)) && Holds(b, ip + 20 + |f.options|, PutUdp(f))
    ensures IpEvent(b, ip, true) == if f.destQp == 1 then None else Some(Event.Feedback(f.destQp, f.src))
    ensures IpEvent(b, ip, false) == if f.destQp == 1 then CmEvent(b, ip, ip + |f.options| + 48) else None
    ensures Be32(b, ip + 16) == f.dst
  {
    IpFields(f, b, ip);
    UdpFields(f, b, ip + 20 + |f.options|);
    VersionByte(|f.options|);
  }

  lemma VersionByte(options: nat)
    requires options % 4 == 0 && options <= 40
    ensures var x := 69 + options / 4; x % 16 * 4 == 20 + options && x / 16 == 4
  {
  }

  lemma EncodedMessage(f: Carrier, m: Mad, b: seq<u8>, ip: nat, mad: nat)
    requires ValidMad(m) && ip + 20 <= |b| && Be32(b, ip + 16) == f.dst && mad >= 8
    requires Holds(b, mad - 8, PutMad(m)) && |b| > mad + 24 + |PutMessage(m.message)|
    ensures CmEvent(b, ip, mad) == Some(EventOf(f, m))
  {
    MadHeader(m, b, mad - 8);
    MessageFields(m.message, b, mad + 24);
  }

  lemma DecodesCm(f: Carrier, m: Mad, b: seq<u8>, ip: nat)
    requires ValidCarrier(f) && ValidMad(m) && f.destQp == 1 && ip == ETHER_HEADER + 4 * |f.tags| && |b| >= Needed(f, m)
    requires Holds(b, 0, PutEther(f)) && Holds(b, ip, PutIp(f)) && Holds(b, ip + 20 + |f.options|, PutUdp(f))
    requires Holds(b, HeaderLength(f), PutMad(m))
    ensures forall e :: Yields(b, false, e) <==> e == EventOf(f, m)
  {
    EncodedTags(f, b);
    EncodedEvent(f, b, ip);
    EncodedMessage(f, m, b, ip, ip + |f.options| + 48);
    YieldsExactly(b, |f.tags|, false);
  }

  /**
   The 3.x parser inverts the encoder of CM messages: with any tags, any header length and any
   other bytes, a REQ or REP whose fields were captured yields exactly the encoded message.
   */
  lemma CmRoundTrip(f: Carrier, m: Mad)
    requires ValidCarrier(f) && ValidMad(m) && f.destQp == 1 && Needed(f, m) <= SCRATCH
    ensures forall e :: Yields(Captured(EncodeCm(f, m)), false, e) <==> e == EventOf(f, m)
  {
    Pieces(f, PutMad(m) + m.rest);
    MadPiece(f, m);
    DecodesCm(f, m, Captured(EncodeCm(f, m)), ETHER_HEADER + 4 * |f.tags|);
  }

  lemma DecodesFeedback(f: Carrier, b: seq<u8>, ip: nat)
    requires ValidCarrier(f) && ip == ETHER_HEADER + 4 * |f.tags|
    requires Holds(b, 0, PutEther(f)) && Holds(b, ip, PutIp(f)) && Holds(b, ip + 20 + |f.options|, PutUdp(f))
    ensures forall e :: Yields(b, true, e) <==> f.destQp != 1 && e == Event.Feedback(f.destQp, f.src)
    ensures f.destQp != 1 ==> forall e :: !Yields(b, false, e)
  {
    EncodedTags(f, b);
    EncodedEvent(f, b, ip);
    YieldsExactly(b, |f.tags|, true);
    YieldsExactly(b, |f.tags|, false);
  }

  /** Other RoCE packets are feedback, and only on 2.x: the sender is the destination QPN, whatever follows. */
  lemma FeedbackRoundTrip(f: Carrier, body: seq<u8>)
    requires ValidCarrier(f) && HeaderLength(f) <= SCRATCH
    ensures forall e :: Yields(Captured(Encode(f, body)), true, e) <==>
            f.destQp != 1 && e == Event.Feedback(f.destQp, f.src)
    ensures f.destQp != 1 ==> forall e :: !Yields(Captured(Encode(f, body)), false, e)
  {
    Pieces(f, body);
    DecodesFeedback(f, Captured(Encode(f, body)), ETHER_HEADER + 4 * |f.tags|);
  }
}
