/**
 The packet classifier of the network-split router (slave/main/nw_split_router.c:268-277, 349-522). It
 walks headers in memory without looking at the frame's length, so a frame is a total map from offsets to
 bytes. Network byte order throughout; the Internet header length is the one of section 3.1 of RFC 791.
 What comes from lwIP's headers or the build configuration is a parameter.
 */
module Router {
  import opened Bytes
  import PortCache
  import PortList

  datatype Bridge = Slave | Host | Both | Invalid

  type Memory = int -> byte

  const ETHTYPE_IP := 0x0800
  const ETHTYPE_ARP := 0x0806
  const IP := 14
  const TCP := 6
  const UDP := 17
  const ICMP := 1
  const MQTT_PORT := 1883
  const IPERF_PORT := 5001
  const DHCP_CLIENT_PORT := 68

  /** "wakeup-host" in ASCII */
  const WAKEUP: seq<byte> := [0x77, 0x61, 0x6B, 0x65, 0x75, 0x70, 0x2D, 0x68, 0x6F, 0x73, 0x74]

  /**
   `fallback` is DEFAULT_LWIP_TO_SEND, the sequences are the allow lists, the predicates lwIP's port-range
   macros, `tcpFlags` its TCPH_FLAGS applied to the header-length-and-flags word.
   */
  datatype Config = Config(
    fallback: Bridge, tcpSrc: seq<u16>, tcpDst: seq<u16>, udpSrc: seq<u16>, udpDst: seq<u16>,
    remoteTcp: u16 -> bool, localTcp: u16 -> bool, remoteUdp: u16 -> bool, localUdp: u16 -> bool, tcpFlags: u16 -> u16)

  function Word(m: Memory, at: int): u16 {
    var hi: int, lo: int := m(at), m(at + 1);
    hi * 0x100 + lo
  }

  predicate Broadcast(m: Memory) {
    m(0) % 2 == 1
  }

  predicate IsIp(m: Memory, proto: int) {
    !Broadcast(m) && Word(m, 12) == ETHTYPE_IP && m(IP + 9) == proto
  }

  /** Where the transport header starts: the low nibble of the first IP byte counts 32-bit words. */
  function Transport(m: Memory): int {
    IP + (m(IP) as int % 16) * 4
  }

  function SrcPort(m: Memory): u16 {
    Word(m, Transport(m))
  }

  function DstPort(m: Memory): u16 {
    Word(m, Transport(m) + 2)
  }

  /** Where the MQTT payload is looked for, and how long it is taken to be: the window field is read for the length. */
  function PayloadAt(c: Config, m: Memory): int {
    Transport(m) + (c.tcpFlags(Word(m, Transport(m) + 12)) as int / 0x1000) * 4
  }

  function PayloadLength(m: Memory): u16 {
    Word(m, Transport(m) + 14)
  }

  /** `host_mqtt_wakeup_triggered` */
  predicate WakeupPayload(c: Config, m: Memory) {
    PayloadLength(m) >= 11 && forall i :: 0 <= i < 11 ==> m(PayloadAt(c, m) + i) == WAKEUP[i]
  }

  function RouteTcp(c: Config, m: Memory, open: bool, asleep1: bool, asleep2: bool): Bridge {
    var src, dst := SrcPort(m), DstPort(m);
    if src in c.tcpSrc || dst in c.tcpDst then Host
    else if dst == IPERF_PORT && open then Slave
    else if dst == IPERF_PORT && !asleep1 then Host
    else if c.remoteTcp(dst) then
      if !asleep2 then Host
      else if src == MQTT_PORT && WakeupPayload(c, m) then Host
      else Invalid
    else if c.localTcp(dst) then Slave
    else c.fallback
  }

  function RouteUdp(c: Config, m: Memory, open: bool, asleep1: bool, asleep2: bool): Bridge {
    var src, dst := SrcPort(m), DstPort(m);
    if src in c.udpSrc || dst in c.udpDst then Host
    else if dst == IPERF_PORT && open then Slave
    else if dst == IPERF_PORT && !asleep1 then Host
    else if dst == DHCP_CLIENT_PORT then Both
    else if c.remoteUdp(dst) then (if asleep2 then Invalid else Host)
    else if c.localUdp(dst) then Slave
    else c.fallback
  }

  /** `open` answers the listening-port question; the power state is sampled up to twice. */
  function Route(c: Config, m: Memory, open: bool, asleep1: bool, asleep2: bool): Bridge {
    if Broadcast(m) then Slave
    else if Word(m, 12) == ETHTYPE_IP then
      if m(IP + 9) == TCP then RouteTcp(c, m, open, asleep1, asleep2)
      else if m(IP + 9) == UDP then RouteUdp(c, m, open, asleep1, asleep2)
      else if m(IP + 9) == ICMP then
        if m(Transport(m)) == 8 then Slave
        else if m(Transport(m)) == 0 then (if asleep2 then Slave else Both)
        else c.fallback
      else c.fallback
    else if Word(m, 12) == ETHTYPE_ARP then
      if Word(m, IP + 6) == 1 then Slave else if asleep2 then Slave else Both
    else c.fallback
  }

  predicate ToHost(b: Bridge) {
    b.Host? || b.Both?
  }

  predicate ToSlave(b: Bridge) {
    b.Slave? || b.Both?
  }

  // ------------------------------------------------------------------ where each kind of packet goes

  predicate ReservedTcp(c: Config, m: Memory) {
    IsIp(m, TCP) && (SrcPort(m) in c.tcpSrc || DstPort(m) in c.tcpDst)
  }

  predicate ReservedUdp(c: Config, m: Memory) {
    IsIp(m, UDP) && (SrcPort(m) in c.udpSrc || DstPort(m) in c.udpDst)
  }

  predicate Arp(m: Memory) {
    !Broadcast(m) && Word(m, 12) == ETHTYPE_ARP
  }

  predicate ArpRequest(m: Memory) {
    Arp(m) && Word(m, IP + 6) == 1
  }

  predicate EchoRequest(m: Memory) {
    IsIp(m, ICMP) && m(Transport(m)) == 8
  }

  predicate EchoReply(m: Memory) {
    IsIp(m, ICMP) && m(Transport(m)) == 0
  }

  /** A TCP or UDP packet for no port that the host has reserved. */
  predicate Unreserved(c: Config, m: Memory) {
    (IsIp(m, TCP) || IsIp(m, UDP)) && !ReservedTcp(c, m) && !ReservedUdp(c, m)
  }

  predicate ToIperf(m: Memory) {
    DstPort(m) == IPERF_PORT
  }

  predicate DhcpClient(m: Memory) {
    IsIp(m, UDP) && DstPort(m) == DHCP_CLIENT_PORT
  }

  /** Left to the port ranges: neither reserved, nor for a DHCP client, nor settled by whether port 5001 is listened on. */
  predicate ByRange(c: Config, m: Memory, open: bool, asleep1: bool) {
    Unreserved(c, m) && !DhcpClient(m) && !(ToIperf(m) && (open || !asleep1))
  }

  predicate InRemoteRange(c: Config, m: Memory) {
    (IsIp(m, TCP) && c.remoteTcp(DstPort(m))) || (IsIp(m, UDP) && c.remoteUdp(DstPort(m)))
  }

  predicate InLocalRange(c: Config, m: Memory) {
    (IsIp(m, TCP) && c.localTcp(DstPort(m))) || (IsIp(m, UDP) && c.localUdp(DstPort(m)))
  }

  /** No rule of the router speaks of it. */
  predicate ByDefault(c: Config, m: Memory, open: bool, asleep1: bool) {
    || (!Broadcast(m) && Word(m, 12) != ETHTYPE_IP && Word(m, 12) != ETHTYPE_ARP)
    || (!Broadcast(m) && Word(m, 12) == ETHTYPE_IP && m(IP + 9) as int !in {TCP, UDP, ICMP})
    || (IsIp(m, ICMP) && !EchoRequest(m) && !EchoReply(m))
    || (ByRange(c, m, open, asleep1) && !InRemoteRange(c, m) && !InLocalRange(c, m))
  }

  predicate MqttPayload(c: Config, m: Memory) {
    IsIp(m, TCP) && SrcPort(m) == MQTT_PORT && WakeupPayload(c, m)
  }

  /**
   For every default and power state: the slave alone gets broadcasts, ARP and echo requests, while the host
   sleeps the other ARP packets and echo replies, unreserved packets to a port 5001 that is listened on, and
   those to its own port range that nothing settles earlier.
   */
  lemma SlaveGets(c: Config, m: Memory, open: bool, asleep1: bool, asleep2: bool)
    ensures Route(c, m, open, asleep1, asleep2) == Slave <==>
              || m(0) % 2 == 1 || ArpRequest(m) || EchoRequest(m)
              || (asleep2 && (Arp(m) || EchoReply(m)))
              || (Unreserved(c, m) && ToIperf(m) && open)
              || (ByRange(c, m, open, asleep1) && !InRemoteRange(c, m) && InLocalRange(c, m))
              || (ByDefault(c, m, open, asleep1) && c.fallback == Slave)
  {
  }

  /**
   The host alone gets what it has reserved, while awake the unreserved packets to a port 5001 that is not
   listened on, and those to its port range, of which a sleeping host gets the MQTT wake-up alone.
   */
  lemma HostGets(c: Config, m: Memory, open: bool, asleep1: bool, asleep2: bool)
    ensures Route(c, m, open, asleep1, asleep2) == Host <==>
              || ReservedTcp(c, m) || ReservedUdp(c, m)
              || (Unreserved(c, m) && ToIperf(m) && !open && !asleep1)
              || (ByRange(c, m, open, asleep1) && InRemoteRange(c, m) && (asleep2 ==> MqttPayload(c, m)))
              || (ByDefault(c, m, open, asleep1) && c.fallback == Host)
  {
  }

  /** Both get unreserved packets for a DHCP client, and while the host is awake ARP packets and echo replies that ask nothing. */
  lemma BothGet(c: Config, m: Memory, open: bool, asleep1: bool, asleep2: bool)
    ensures Route(c, m, open, asleep1, asleep2) == Both <==>
              || (Unreserved(c, m) && DhcpClient(m))
              || (!asleep2 && ((Arp(m) && !ArpRequest(m)) || EchoReply(m)))
              || (ByDefault(c, m, open, asleep1) && c.fallback == Both)
  {
  }

  // ------------------------------------------------------------------ what reaches a sleeping host

  predicate MqttWakeup(c: Config, m: Memory, open: bool) {
    && IsIp(m, TCP) && SrcPort(m) == MQTT_PORT && c.remoteTcp(DstPort(m)) && WakeupPayload(c, m)
    && !(DstPort(m) == IPERF_PORT && open)
  }

  /** With the slave as default, a sleeping host is woken by exactly three kinds of packet. */
  lemma WakesSleepingHostIff(c: Config, m: Memory, open: bool)
    requires c.fallback == Slave
    ensures ToHost(Route(c, m, open, true, true)) <==>
              ReservedTcp(c, m) || ReservedUdp(c, m) || MqttWakeup(c, m, open) || DhcpClient(m)
    ensures Route(c, m, open, true, true) == Both <==> DhcpClient(m) && !ReservedUdp(c, m)
  {
  }

  /** Falling asleep only takes traffic away from the host, and never takes any from the slave. */
  lemma SleepOnlyTakesFromHost(c: Config, m: Memory, open: bool)
    ensures ToHost(Route(c, m, open, true, true)) ==> ToHost(Route(c, m, open, false, false))
    ensures ToSlave(Route(c, m, open, false, false)) ==> ToSlave(Route(c, m, open, true, true))
  {
  }

  /** While the host is awake nothing is dropped, unless the build's default is not a bridge. */
  lemma NothingDroppedAwake(c: Config, m: Memory, open: bool)
    requires c.fallback != Invalid
    ensures Route(c, m, open, false, false) != Invalid
  {
  }

  /** A power change between the two samples still routes the packet as one of the two states would. */
  lemma TornSampleIsOneOfBoth(c: Config, m: Memory, open: bool, asleep1: bool, asleep2: bool)
    ensures Route(c, m, open, asleep1, asleep2) in
              {Route(c, m, open, false, false), Route(c, m, open, true, true)}
  {
  }

  /**
   If TCPH_FLAGS keeps only the flag bits, its top four bits are zero, the "payload" is the TCP header
   itself, and no MQTT packet ever wakes the host: the source port would have to spell "wa".
   */
  lemma MaskedFlagsNeverWake(c: Config, m: Memory, open: bool)
    requires c.tcpFlags(Word(m, Transport(m) + 12)) < 0x1000
    ensures WakeupPayload(c, m) ==> SrcPort(m) == 0x7761
    ensures !MqttWakeup(c, m, open)
  {
    if WakeupPayload(c, m) {
      var at := PayloadAt(c, m);
      assert at == Transport(m) && m(at + 0) == WAKEUP[0] && m(at + 1) == WAKEUP[1];
    }
  }

  /** If it keeps the whole word, the payload is looked for at the data offset of section 3.1 of RFC 9293. */
  lemma WholeWordFindsPayload(c: Config, m: Memory)
    requires c.tcpFlags(Word(m, Transport(m) + 12)) == Word(m, Transport(m) + 12)
    ensures PayloadAt(c, m) == Transport(m) + (m(Transport(m) + 12) as int / 16) * 4
  {
    var hi: int, lo: int := m(Transport(m) + 12), m(Transport(m) + 13);
    assert (hi * 0x100 + lo) / 0x1000 == hi / 16;
  }

  // ------------------------------------------------------------------ the wake-up that is meant

  predicate Spelled(m: Memory, at: int) {
    forall i :: 0 <= i < 11 ==> m(at + i) == WAKEUP[i]
  }

  /** The TCP data offset in bytes (section 3.1 of RFC 9293). */
  function DataOffset(m: Memory): int {
    m(Transport(m) + 12) as int / 16 * 4
  }

  /** The payload's length: the total length of the IP packet less both headers. */
  function TcpPayloadLength(m: Memory): int {
    Word(m, IP + 2) - (Transport(m) - IP) - DataOffset(m)
  }

  /** What the wake-up is for: the TCP payload starts with the string. */
  predicate MeantWakeup(m: Memory) {
    TcpPayloadLength(m) >= 11 && Spelled(m, Transport(m) + DataOffset(m))
  }

  predicate WholeWord(c: Config, m: Memory) {
    c.tcpFlags(Word(m, Transport(m) + 12)) == Word(m, Transport(m) + 12)
  }

  /**
   With a flags macro that keeps the whole word, the code sees a wake-up where one is meant, and only there,
   exactly if the string is not at the data offset or the window and the payload's length are on the same side of 11.
   */
  lemma WakeupAsMeantIff(c: Config, m: Memory)
    requires WholeWord(c, m)
    ensures PayloadAt(c, m) == Transport(m) + DataOffset(m)
    ensures (WakeupPayload(c, m) <==> MeantWakeup(m)) <==>
              (Spelled(m, Transport(m) + DataOffset(m)) ==> (PayloadLength(m) >= 11 <==> TcpPayloadLength(m) >= 11))
  {
    WholeWordFindsPayload(c, m);
    assert Spelled(m, PayloadAt(c, m)) <==> forall i :: 0 <= i < 11 ==> m(PayloadAt(c, m) + i) == WAKEUP[i];
  }

  /** A TCP packet from the MQTT port to `dst` with a 20-byte header, the string behind it and the given window. */
  function MqttPacket(dst: u16, totalLength: u16, window: u16): Memory {
    (i: int) =>
      var b: byte :=
        if i == 12 then 0x08
        else if i == IP then 0x45
        else if i == IP + 2 then totalLength / 0x100 else if i == IP + 3 then totalLength % 0x100
        else if i == IP + 9 then TCP
        else if i == 34 then 0x07 else if i == 35 then 0x5B
        else if i == 36 then dst / 0x100 else if i == 37 then dst % 0x100
        else if i == 46 then 0x50
        else if i == 48 then window / 0x100 else if i == 49 then window % 0x100
        else if 54 <= i < 65 then WAKEUP[i - 54]
        else 0;
      b
  }

  lemma MqttPacketFields(c: Config, dst: u16, totalLength: u16, window: u16)
    requires c.tcpFlags(0x5000) == 0x5000
    ensures var m := MqttPacket(dst, totalLength, window);
            && IsIp(m, TCP) && SrcPort(m) == MQTT_PORT && DstPort(m) == dst && WholeWord(c, m)
            && PayloadAt(c, m) == 54 && PayloadLength(m) == window && TcpPayloadLength(m) == totalLength - 40 && Spelled(m, 54)
  {
    var m := MqttPacket(dst, totalLength, window);
    assert Transport(m) == 34 && Word(m, 46) == 0x5000;
    assert 0x5B + 0x100 * 0x07 == MQTT_PORT;
    assert forall i :: 0 <= i < 11 ==> m(54 + i) == WAKEUP[i];
  }

  /**
   Both ways to go wrong, for every remote port that is not reserved: a wake-up message whose sender advertises
   a window below 11 is dropped, and a packet without any payload, in front of the string, wakes the host.
   */
  lemma WindowDecidesWakeup(c: Config, dst: u16, window: u16)
    requires c.tcpFlags(0x5000) == 0x5000 && c.remoteTcp(dst) && dst != IPERF_PORT
    requires MQTT_PORT !in c.tcpSrc && dst !in c.tcpDst
    ensures window < 11 ==> MeantWakeup(MqttPacket(dst, 51, window)) && Route(c, MqttPacket(dst, 51, window), false, true, true) == Invalid
    ensures window >= 11 ==> !MeantWakeup(MqttPacket(dst, 40, window)) && Route(c, MqttPacket(dst, 40, window), false, true, true) == Host
  {
    MqttPacketFields(c, dst, 51, window);
    MqttPacketFields(c, dst, 40, window);
    var m := MqttPacket(dst, 51, window);
    assert Transport(m) + DataOffset(m) == 54;
    var k := MqttPacket(dst, 40, window);
    assert Spelled(k, PayloadAt(c, k));
  }

  // ------------------------------------------------------------------ how far the walk reads

  /** How many bytes from the frame's start the walk may read. */
  function Reach(c: Config, m: Memory, open: bool, asleep1: bool, asleep2: bool): int {
    if Broadcast(m) then 1
    else if Word(m, 12) == ETHTYPE_IP then
      Max(IP + 10,
          if m(IP + 9) == TCP then
            if ReadsPayload(c, m, open, asleep1, asleep2) then
              Max(Transport(m) + 16, if PayloadLength(m) >= 11 then PayloadAt(c, m) + 11 else 0)
            else Transport(m) + 4
          else if m(IP + 9) == UDP then Transport(m) + 4
          else if m(IP + 9) == ICMP then Transport(m) + 1
          else 0)
    else if Word(m, 12) == ETHTYPE_ARP then IP + 8
    else IP
  }

  function Max(a: int, b: int): int {
    if a < b then b else a
  }

  /** The MQTT branch is reached. */
  predicate ReadsPayload(c: Config, m: Memory, open: bool, asleep1: bool, asleep2: bool) {
    var src, dst := SrcPort(m), DstPort(m);
    && src !in c.tcpSrc && dst !in c.tcpDst && (dst == IPERF_PORT ==> !open && asleep1)
    && c.remoteTcp(dst) && asleep2 && src == MQTT_PORT
  }

  ghost predicate Agree(m1: Memory, m2: Memory, n: int) {
    forall i :: 0 <= i < n ==> m1(i) == m2(i)
  }

  /** The length field, which lies in the window's place, and where the payload is looked for. */
  lemma SamePayload(c: Config, m1: Memory, m2: Memory)
    requires 14 <= Transport(m1) == Transport(m2)
    requires Agree(m1, m2, Transport(m1) + 16)
    requires PayloadLength(m1) >= 11 ==> Agree(m1, m2, PayloadAt(c, m1) + 11)
    ensures WakeupPayload(c, m1) <==> WakeupPayload(c, m2)
  {
    var t := Transport(m1);
    assert m1(t + 12) == m2(t + 12) && m1(t + 13) == m2(t + 13) && m1(t + 14) == m2(t + 14) && m1(t + 15) == m2(t + 15);
    var at := PayloadAt(c, m1);
    assert at == PayloadAt(c, m2) && PayloadLength(m1) == PayloadLength(m2);
    if PayloadLength(m1) >= 11 {
      forall i | 0 <= i < 11 ensures m1(at + i) == WAKEUP[i] <==> m2(at + i) == WAKEUP[i] {
        assert m1(at + i) == m2(at + i);
      }
    }
  }

  lemma SamePorts(m1: Memory, m2: Memory)
    requires Agree(m1, m2, 24) && Agree(m1, m2, Transport(m1) + 4)
    ensures Transport(m1) == Transport(m2) && SrcPort(m1) == SrcPort(m2) && DstPort(m1) == DstPort(m2)
  {
    assert m1(IP) == m2(IP);
    var t := Transport(m1);
    assert m1(t) == m2(t) && m1(t + 1) == m2(t + 1) && m1(t + 2) == m2(t + 2) && m1(t + 3) == m2(t + 3);
  }

  lemma SameTcp(c: Config, m1: Memory, m2: Memory, open: bool, asleep1: bool, asleep2: bool)
    requires !Broadcast(m1) && Word(m1, 12) == ETHTYPE_IP && m1(IP + 9) == TCP
    requires Agree(m1, m2, 24) && Agree(m1, m2, Reach(c, m1, open, asleep1, asleep2))
    ensures RouteTcp(c, m1, open, asleep1, asleep2) == RouteTcp(c, m2, open, asleep1, asleep2)
  {
    SamePorts(m1, m2);
    if ReadsPayload(c, m1, open, asleep1, asleep2) {
      SamePayload(c, m1, m2);
    }
  }

  /** The walk over a frame of a given length, ended by the first read past its end. */
  datatype Walked = Ends(bridge: Bridge) | PastEnd(at: int)

  /** Reading the n bytes from `at` on, in order, with `rest` to follow if they are all there. */
  function Reading(at: int, n: nat, length: nat, rest: Walked): Walked
    requires at >= 0
  {
    if at + n <= length then rest else PastEnd(Max(at, length))
  }

  /** Each read in the order in which the code makes it: both bytes of a field, the whole of the compared payload. */
  function Walk(c: Config, m: Memory, length: nat, open: bool, asleep1: bool, asleep2: bool): Walked {
    Reading(0, 1, length,
      if Broadcast(m) then Ends(Slave)
      else Reading(12, 2, length,
        if Word(m, 12) == ETHTYPE_IP then Reading(IP + 9, 1, length, WalkIp(c, m, length, open, asleep1, asleep2))
        else if Word(m, 12) == ETHTYPE_ARP then
          Reading(IP + 6, 2, length, Ends(if Word(m, IP + 6) == 1 || asleep2 then Slave else Both))
        else Ends(c.fallback)))
  }

  function WalkIp(c: Config, m: Memory, length: nat, open: bool, asleep1: bool, asleep2: bool): Walked {
    var t := Transport(m);
    if m(IP + 9) == TCP then
      Reading(t + 2, 2, length, Reading(t, 2, length,
        if ReadsPayload(c, m, open, asleep1, asleep2) then
          Reading(t + 12, 2, length, Reading(t + 14, 2, length,
            if PayloadLength(m) >= 11 then
              Reading(PayloadAt(c, m), 11, length, Ends(if WakeupPayload(c, m) then Host else Invalid))
            else Ends(Invalid)))
        else Ends(RouteTcp(c, m, open, asleep1, asleep2))))
    else if m(IP + 9) == UDP then
      Reading(t + 2, 2, length, Reading(t, 2, length, Ends(RouteUdp(c, m, open, asleep1, asleep2))))
    else if m(IP + 9) == ICMP then
      Reading(t, 1, length, Ends(Route(c, m, open, asleep1, asleep2)))
    else Ends(c.fallback)
  }

  /**
   The walk reads past the end of a frame exactly if its reach is longer than the frame, and then behind the
   end but within the reach; otherwise it ends with the router's decision.
   */
  lemma WalkOverrunsIff(c: Config, m: Memory, length: nat, open: bool, asleep1: bool, asleep2: bool)
    ensures var w := Walk(c, m, length, open, asleep1, asleep2);
            && (w.PastEnd? <==> Reach(c, m, open, asleep1, asleep2) > length)
            && (w.PastEnd? ==> length <= w.at < Reach(c, m, open, asleep1, asleep2))
            && (w.Ends? ==> w.bridge == Route(c, m, open, asleep1, asleep2))
  {
    if !Broadcast(m) && Word(m, 12) == ETHTYPE_IP {
      IpOverrunsIff(c, m, length, open, asleep1, asleep2);
    }
  }

  lemma IpOverrunsIff(c: Config, m: Memory, length: nat, open: bool, asleep1: bool, asleep2: bool)
    requires !Broadcast(m) && Word(m, 12) == ETHTYPE_IP
    ensures var w := Reading(IP + 9, 1, length, WalkIp(c, m, length, open, asleep1, asleep2));
            && (w.PastEnd? <==> Reach(c, m, open, asleep1, asleep2) > Max(length, 23) || length < 24)
            && (w.PastEnd? ==> length <= w.at < Reach(c, m, open, asleep1, asleep2))
            && (w.Ends? ==> w.bridge == Route(c, m, open, asleep1, asleep2))
  {
  }

  /** A walk that stays inside its frame is decided by the frame's own bytes, whatever lies behind it. */
  lemma FrameDecides(c: Config, m1: Memory, m2: Memory, length: nat, open: bool, asleep1: bool, asleep2: bool)
    requires Agree(m1, m2, length) && Walk(c, m1, length, open, asleep1, asleep2).Ends?
    ensures Route(c, m2, open, asleep1, asleep2) == Walk(c, m1, length, open, asleep1, asleep2).bridge
  {
    WalkOverrunsIff(c, m1, length, open, asleep1, asleep2);
    SameRoute(c, m1, m2, length, open, asleep1, asleep2);
  }

  lemma SameRoute(c: Config, m1: Memory, m2: Memory, length: nat, open: bool, asleep1: bool, asleep2: bool)
    requires Reach(c, m1, open, asleep1, asleep2) <= length && Agree(m1, m2, length)
    ensures Route(c, m1, open, asleep1, asleep2) == Route(c, m2, open, asleep1, asleep2)
  {
    assert m1(0) == m2(0);
    if !Broadcast(m1) {
      assert m1(12) == m2(12) && m1(13) == m2(13);
      if Word(m1, 12) == ETHTYPE_IP {
        assert m1(IP + 9) == m2(IP + 9);
        if m1(IP + 9) == TCP {
          SameTcp(c, m1, m2, open, asleep1, asleep2);
        } else if m1(IP + 9) == UDP {
          SamePorts(m1, m2);
        } else if m1(IP + 9) == ICMP {
          assert m1(IP) == m2(IP) && m1(Transport(m1)) == m2(Transport(m1));
        }
      } else if Word(m1, 12) == ETHTYPE_ARP {
        assert m1(IP + 6) == m2(IP + 6) && m1(IP + 7) == m2(IP + 7);
      }
    }
  }

  /** No walk reaches beyond the first 145 bytes. */
  lemma ReachIsBounded(c: Config, m: Memory, open: bool, asleep1: bool, asleep2: bool)
    ensures 1 <= Reach(c, m, open, asleep1, asleep2) <= 145
  {
  }

  function Icmp(kind: byte): Memory {
    (i: int) => var b: byte := if i == 12 then 0x08 else if i == IP then 0x45 else if i == IP + 9 then ICMP
                               else if i == IP + 20 then kind else 0; b
  }

  /**
   A frame that ends with its IP header is not enough: two memories that agree on all its 34 bytes are routed
   to different places, by a byte that is not part of the frame.
   */
  lemma ShortFrameUndecided(c: Config, open: bool, asleep1: bool) returns (m1: Memory, m2: Memory)
    ensures Agree(m1, m2, 34)
    ensures Route(c, m1, open, asleep1, false) == Slave && Route(c, m2, open, asleep1, false) == Both
  {
    m1, m2 := Icmp(8), Icmp(0);
  }

  /**
   With allow lists read from printed lists, the ports reserved for the host, by source or destination, over
   TCP or UDP, are exactly those that read back: none above 9999, and a five-digit port reserves another one.
   */
  lemma ReservationWorksIff(c: Config, m: Memory, max: nat,
                            tcpSrc: seq<u16>, tcpDst: seq<u16>, udpSrc: seq<u16>, udpDst: seq<u16>)
    requires c.tcpSrc == PortList.Parsed(PortList.Print(tcpSrc), max) && c.tcpDst == PortList.Parsed(PortList.Print(tcpDst), max)
    requires c.udpSrc == PortList.Parsed(PortList.Print(udpSrc), max) && c.udpDst == PortList.Parsed(PortList.Print(udpDst), max)
    ensures ReservedTcp(c, m) <==>
              IsIp(m, TCP) && (PortList.Reserves(tcpSrc, max, SrcPort(m)) || PortList.Reserves(tcpDst, max, DstPort(m)))
    ensures ReservedUdp(c, m) <==>
              IsIp(m, UDP) && (PortList.Reserves(udpSrc, max, SrcPort(m)) || PortList.Reserves(udpDst, max, DstPort(m)))
    ensures SrcPort(m) > 9999 && DstPort(m) > 9999 ==> !ReservedTcp(c, m) && !ReservedUdp(c, m)
  {
    PortList.AllowedIff(tcpSrc, max, SrcPort(m));
    PortList.AllowedIff(tcpDst, max, DstPort(m));
    PortList.AllowedIff(udpSrc, max, SrcPort(m));
    PortList.AllowedIff(udpDst, max, DstPort(m));
  }

  // ------------------------------------------------------------------ in place

  /** The router with its two listening-port caches, which only packets to the iperf port consult and update. */
  class Filter {
    const tcp: PortCache.ListenerCache
    const udp: PortCache.ListenerCache

    constructor ()
      ensures fresh(tcp) && fresh(udp) && tcp != udp
      ensures tcp.View() == PortCache.INITIAL == udp.View()
    {
      tcp := new PortCache.ListenerCache();
      udp := new PortCache.ListenerCache();
    }

    /** `nw_split_filter_and_route_packet` */
    method FilterAndRoute(c: Config, m: Memory, now: PortCache.u64, tcpPcbs: seq<u16>, udpPcbs: seq<u16>,
                          asleep1: bool, asleep2: bool) returns (b: Bridge)
      requires tcp != udp
      modifies tcp, udp
      ensures var tq, uq := PortCache.Query(IPERF_PORT, now, tcpPcbs), PortCache.Query(IPERF_PORT, now, udpPcbs);
              var askTcp := IsIp(m, TCP) && !ReservedTcp(c, m) && DstPort(m) == IPERF_PORT;
              var askUdp := IsIp(m, UDP) && !ReservedUdp(c, m) && DstPort(m) == IPERF_PORT;
              && (askTcp ==> b == Route(c, m, PortCache.Answer(old(tcp.View()), tq), asleep1, asleep2))
              && (askUdp ==> b == Route(c, m, PortCache.Answer(old(udp.View()), uq), asleep1, asleep2))
              && (!askTcp && !askUdp ==> forall open :: b == Route(c, m, open, asleep1, asleep2))
              && tcp.View() == (if askTcp then PortCache.After(old(tcp.View()), tq) else old(tcp.View()))
              && udp.View() == (if askUdp then PortCache.After(old(udp.View()), uq) else old(udp.View()))
    {
      if Broadcast(m) {
        return Slave;
      }
      if Word(m, 12) == ETHTYPE_IP {
        var proto := m(IP + 9);
        if proto == TCP {
          b := FilterTcp(c, m, now, tcpPcbs, asleep1, asleep2);
          return;
        } else if proto == UDP {
          b := FilterUdp(c, m, now, udpPcbs, asleep1, asleep2);
          return;
        } else if proto == ICMP {
          if m(Transport(m)) == 8 {
            return Slave;
          } else if m(Transport(m)) == 0 {
            return if asleep2 then Slave else Both;
          }
        }
      } else if Word(m, 12) == ETHTYPE_ARP {
        if Word(m, IP + 6) == 1 || asleep2 {
          return Slave;
        }
        return Both;
      }
      b := c.fallback;
    }

    method FilterTcp(c: Config, m: Memory, now: PortCache.u64, pcbs: seq<u16>, asleep1: bool, asleep2: bool)
      returns (b: Bridge)
      modifies tcp
      ensures var q := PortCache.Query(IPERF_PORT, now, pcbs);
              var ask := SrcPort(m) !in c.tcpSrc && DstPort(m) !in c.tcpDst && DstPort(m) == IPERF_PORT;
              && (ask ==> b == RouteTcp(c, m, PortCache.Answer(old(tcp.View()), q), asleep1, asleep2))
              && (!ask ==> forall open :: b == RouteTcp(c, m, open, asleep1, asleep2))
              && tcp.View() == if ask then PortCache.After(old(tcp.View()), q) else old(tcp.View())
    {
      var src, dst := SrcPort(m), DstPort(m);
      if src in c.tcpSrc || dst in c.tcpDst {
        return Host;
      }
      if dst == IPERF_PORT {
        var open := tcp.IsLocalPortOpen(dst, now, pcbs);
        if open {
          return Slave;
        } else if !asleep1 {
          return Host;
        }
      }
      if c.remoteTcp(dst) {
        if asleep2 {
          if src == MQTT_PORT {
            return if WakeupPayload(c, m) then Host else Invalid;
          }
          return Invalid;
        }
        return Host;
      } else if c.localTcp(dst) {
        return Slave;
      }
      b := c.fallback;
    }

    method FilterUdp(c: Config, m: Memory, now: PortCache.u64, pcbs: seq<u16>, asleep1: bool, asleep2: bool)
      returns (b: Bridge)
      modifies udp
      ensures var q := PortCache.Query(IPERF_PORT, now, pcbs);
              var ask := SrcPort(m) !in c.udpSrc && DstPort(m) !in c.udpDst && DstPort(m) == IPERF_PORT;
              && (ask ==> b == RouteUdp(c, m, PortCache.Answer(old(udp.View()), q), asleep1, asleep2))
              && (!ask ==> forall open :: b == RouteUdp(c, m, open, asleep1, asleep2))
              && udp.View() == if ask then PortCache.After(old(udp.View()), q) else old(udp.View())
    {
      var src, dst := SrcPort(m), DstPort(m);
      if src in c.udpSrc || dst in c.udpDst {
        return Host;
      }
      if dst == IPERF_PORT {
        var open := udp.IsLocalPortOpen(dst, now, pcbs);
        if open {
          return Slave;
        } else if !asleep1 {
          return Host;
        }
      }
      if dst == DHCP_CLIENT_PORT {
        return Both;
      }
      if c.remoteUdp(dst) {
        return if asleep2 then Invalid else Host;
      } else if c.localUdp(dst) {
        return Slave;
      }
      b := c.fallback;
    }
  }
}
