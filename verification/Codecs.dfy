/**
 Wire codecs of the PHY RPC messages: what the host packs (esp_hosted_open/src/phy_rpc.c:576-751) and the
 overlay unpacks, and what the overlay packs and the host unpacks (phy_rpc.c:187-278), over the layouts of
 esp_hosted_open/include/phy_rpc_proto.h.
 */
module Codecs {
  import opened Bytes
  import PhyRpcTable
  import opened Wrappers

  datatype Iface = Sta | Ap

  /** `(wifi_if == 1) ? WIFI_IF_AP : WIFI_IF_STA` */
  function IfaceOf(b: byte): Iface {
    if b == 1 then Ap else Sta
  }

  function Flag(b: bool): (f: byte)
    ensures f <= 1 && (f == 1 <==> b)
  {
    if b then 1 else 0
  }

  type int8 = x: int | -128 <= x < 128

  function ToByte(x: int8): byte {
    if x < 0 then x + 256 else x
  }

  function ToInt8(b: byte): int8 {
    if b < 128 then b else b - 256
  }

  // ------------------------------------------------------------------ headers followed by a counted payload

  datatype Unpacked = Short | Truncated | Parts(header: seq<byte>, payload: seq<byte>)

  /**
   Every variable-length message: a packed header of `size` bytes with the payload's length at `at`. The
   length is checked against what arrived before the payload is used.
   */
  function Unpack(msg: seq<byte>, size: nat, at: nat): Unpacked
    requires at + 2 <= size
  {
    if |msg| < size then Short
    else if size + Read16(msg, at) > |msg| then Truncated
    else Parts(msg[..size], msg[size..size + Read16(msg, at)])
  }

  /** A header that counts its payload right gives both back, whatever follows them. */
  lemma UnpackExact(header: seq<byte>, payload: seq<byte>, extra: seq<byte>, at: nat)
    requires at + 2 <= |header| && Read16(header, at) == |payload|
    ensures Unpack(header + payload + extra, |header|, at) == Parts(header, payload)
  {
    var msg := header + payload + extra;
    assert msg[at] == header[at] && msg[at + 1] == header[at + 1];
  }

  /** Cut anywhere, it gives back nothing: no decoder ever delivers part of a message. */
  lemma UnpackCut(header: seq<byte>, payload: seq<byte>, at: nat, k: nat)
    requires at + 2 <= |header| && Read16(header, at) == |payload|
    requires k < |header| + |payload|
    ensures Unpack((header + payload)[..k], |header|, at) == if k < |header| then Short else Truncated
  {
    var msg := (header + payload)[..k];
    if k >= |header| {
      assert msg[at] == header[at] && msg[at + 1] == header[at + 1];
    }
  }

  /** `do_call` puts the op_id in front of every body. */
  function Request(op: u32, body: seq<byte>): seq<byte> {
    Le32(op) + body
  }

  lemma RequestOp(op: u32, body: seq<byte>)
    ensures Read32(Request(op, body), 0) == op
  {
    Le32RoundTrip([], op, body);
    assert [] + Le32(op) + body == Request(op, body);
  }

  lemma CutOp(op: u32, body: seq<byte>, k: nat)
    requires 4 <= k <= |Request(op, body)|
    ensures Read32(Request(op, body)[..k], 0) == op
  {
    RequestOp(op, body);
    var msg := Request(op, body);
    assert forall i :: 0 <= i < 4 ==> msg[..k][i] == msg[i];
  }

  /** What a handler does with a request: nothing, answer ESP_ERR_INVALID_SIZE, or act on it. */
  datatype Handled<T> = Dropped | Refused(op: u32) | Done(op: u32, value: T)

  // ------------------------------------------------------------------ responses

  /** A signed 32-bit status in two's complement. */
  function Unsigned32(x: int): u32
    requires -0x8000_0000 <= x < 0x8000_0000
  {
    if x < 0 then x + 0x1_0000_0000 else x
  }

  /** `send_resp_with_body`; `send_simple_resp` is the case of an empty body. */
  function Response(op: u32, status: int, body: seq<byte>): seq<byte>
    requires -0x8000_0000 <= status < 0x8000_0000
  {
    Le32(op) + Le32(Unsigned32(status)) + body
  }

  /** The dispatcher reads back the op_id, the signed status and the body of every response. */
  lemma ResponseRoundTrip(msgId: u32, op: u32, status: int, body: seq<byte>)
    requires -0x8000_0000 <= status < 0x8000_0000
    ensures PhyRpcTable.ParseReply(msgId, Response(op, status, body)) == Some(PhyRpcTable.Reply(msgId, op, status, body))
  {
    var msg := Response(op, status, body);
    Le32RoundTrip([], op, Le32(Unsigned32(status)) + body);
    assert [] + Le32(op) + (Le32(Unsigned32(status)) + body) == msg;
    Le32RoundTrip(Le32(op), Unsigned32(status), body);
    assert msg[8..] == body;
  }

  // ------------------------------------------------------------------ ESP-NOW send

  datatype EspnowSend = EspnowSend(peer: seq<byte>, data: seq<byte>)

  function EspnowSendBody(peer: seq<byte>, data: seq<byte>): seq<byte>
    requires |data| <= 250
  {
    peer + Le16(|data|) + data
  }

  /** `on_espnow_send` */
  function OnEspnowSend(msg: seq<byte>): Handled<EspnowSend> {
    match Unpack(msg, 12, 10)
    case Short => Dropped
    case Truncated => Refused(Read32(msg, 0))
    case Parts(h, data) => Done(Read32(msg, 0), EspnowSend(h[4..10], data))
  }

  lemma EspnowSendRoundTrip(op: u32, peer: seq<byte>, data: seq<byte>)
    requires |peer| == 6 && 1 <= |data| <= 250
    ensures var msg := Request(op, EspnowSendBody(peer, data));
            && OnEspnowSend(msg) == Done(op, EspnowSend(peer, data))
            && forall k :: 0 <= k < |msg| ==> OnEspnowSend(msg[..k]) == if k < 12 then Dropped else Refused(op)
  {
    var msg, header := Request(op, EspnowSendBody(peer, data)), Le32(op) + peer + Le16(|data|);
    assert msg == header + data + [] == header + data;
    Le16RoundTrip(Le32(op) + peer, |data|, []);
    assert Le32(op) + peer + Le16(|data|) + [] == header;
    UnpackExact(header, data, [], 10);
    RequestOp(op, EspnowSendBody(peer, data));
    assert header[4..10] == peer;
    forall k | 0 <= k < |msg| ensures OnEspnowSend(msg[..k]) == if k < 12 then Dropped else Refused(op) {
      UnpackCut(header, data, 10, k);
      if k >= 12 {
        CutOp(op, EspnowSendBody(peer, data), k);
      }
    }
  }

  // ------------------------------------------------------------------ raw 802.15.4 transmission

  datatype RawTx154 = RawTx154(phyFrame: seq<byte>, cca: bool)

  function Tx154Body(frame: seq<byte>, cca: bool): seq<byte>
    requires |frame| <= 127
  {
    [Flag(cca), 0] + Le16(|frame|) + frame
  }

  /** `on_i154_tx_raw` on a chip with the radio: the frame goes out behind its PHY length byte. */
  function OnTx154(msg: seq<byte>): Handled<RawTx154> {
    match Unpack(msg, 8, 6)
    case Short => Dropped
    case Truncated => Refused(Read32(msg, 0))
    case Parts(h, frame) =>
      if |frame| > 127 then Refused(Read32(msg, 0)) else Done(Read32(msg, 0), RawTx154([|frame|] + frame, h[4] != 0))
  }

  lemma Tx154RoundTrip(op: u32, frame: seq<byte>, cca: bool)
    requires 1 <= |frame| <= 127
    ensures var msg := Request(op, Tx154Body(frame, cca));
            && OnTx154(msg) == Done(op, RawTx154([|frame|] + frame, cca))
            && forall k :: 0 <= k < |msg| ==> OnTx154(msg[..k]) == if k < 8 then Dropped else Refused(op)
  {
    var msg, header := Request(op, Tx154Body(frame, cca)), Le32(op) + [Flag(cca), 0] + Le16(|frame|);
    assert msg == header + frame + [] == header + frame;
    Le16RoundTrip(Le32(op) + [Flag(cca), 0], |frame|, []);
    assert Le32(op) + [Flag(cca), 0] + Le16(|frame|) + [] == header;
    UnpackExact(header, frame, [], 6);
    RequestOp(op, Tx154Body(frame, cca));
    forall k | 0 <= k < |msg| ensures OnTx154(msg[..k]) == if k < 8 then Dropped else Refused(op) {
      UnpackCut(header, frame, 6, k);
      if k >= 8 {
        CutOp(op, Tx154Body(frame, cca), k);
      }
    }
  }

  /** A request that counts more bytes than a PHY frame can have is refused, with its own op_id. */
  lemma Tx154TooLong(op: u32, frame: seq<byte>, cca: byte)
    requires 127 < |frame| < 0x1_0000
    ensures OnTx154(Le32(op) + [cca, 0] + Le16(|frame|) + frame) == Refused(op)
  {
    var header := Le32(op) + [cca, 0] + Le16(|frame|);
    Le16RoundTrip(Le32(op) + [cca, 0], |frame|, []);
    assert Le32(op) + [cca, 0] + Le16(|frame|) + [] == header;
    UnpackExact(header, frame, [], 6);
    assert header + frame + [] == header + frame;
    RequestOp(op, [cca, 0] + Le16(|frame|) + frame);
    assert header + frame == Request(op, [cca, 0] + Le16(|frame|) + frame);
  }

  // ------------------------------------------------------------------ raw 802.11 transmission

  datatype RawTx80211 = RawTx80211(iface: Iface, frame: seq<byte>, enSeqNr: bool)

  /** The host's body header is 8 bytes long. */
  function Tx80211Body(wifiIf: byte, frame: seq<byte>, enSeqNr: bool): seq<byte>
    requires |frame| <= 1500
  {
    [wifiIf, Flag(enSeqNr), 0, 0] + Le16(|frame|) + [0, 0] + frame
  }

  /** `on_tx_80211`: the packed structure has 6 bytes between the op_id and the frame. */
  function OnTx80211(msg: seq<byte>): Handled<RawTx80211> {
    match Unpack(msg, 10, 8)
    case Short => Dropped
    case Truncated => Refused(Read32(msg, 0))
    case Parts(h, frame) => Done(Read32(msg, 0), RawTx80211(IfaceOf(h[4]), frame, h[5] != 0))
  }

  /** What is injected instead of the frame: two zero bytes and the frame without its last two. */
  function Shifted(frame: seq<byte>): (r: seq<byte>)
    ensures |r| == |frame|
    ensures |frame| >= 2 ==> r == [0, 0] + frame[..|frame| - 2]
  {
    ([0, 0] + frame)[..|frame|]
  }

  lemma Tx80211Shifts(op: u32, wifiIf: byte, frame: seq<byte>, enSeqNr: bool)
    requires 1 <= |frame| <= 1500
    ensures OnTx80211(Request(op, Tx80211Body(wifiIf, frame, enSeqNr))) ==
            Done(op, RawTx80211(if wifiIf == 1 then Ap else Sta, Shifted(frame), enSeqNr))
  {
    var msg := Request(op, Tx80211Body(wifiIf, frame, enSeqNr));
    var header := Le32(op) + [wifiIf, Flag(enSeqNr), 0, 0] + Le16(|frame|);
    var tail := [0, 0] + frame;
    assert msg == header + tail[..|frame|] + tail[|frame|..];
    Le16RoundTrip(Le32(op) + [wifiIf, Flag(enSeqNr), 0, 0], |frame|, []);
    assert Le32(op) + [wifiIf, Flag(enSeqNr), 0, 0] + Le16(|frame|) + [] == header;
    UnpackExact(header, tail[..|frame|], tail[|frame|..], 8);
    RequestOp(op, Tx80211Body(wifiIf, frame, enSeqNr));
  }

  /** Cut before the frame's end, a request is refused with its own op_id, or dropped inside its header. */
  lemma Tx80211Cut(op: u32, wifiIf: byte, frame: seq<byte>, enSeqNr: bool, k: nat)
    requires 1 <= |frame| <= 1500 && k < 10 + |frame|
    ensures var msg := Request(op, Tx80211Body(wifiIf, frame, enSeqNr));
            k < |msg| && OnTx80211(msg[..k]) == if k < 10 then Dropped else Refused(op)
  {
    var body := Tx80211Body(wifiIf, frame, enSeqNr);
    var header, tail := Le32(op) + [wifiIf, Flag(enSeqNr), 0, 0] + Le16(|frame|), ([0, 0] + frame)[..|frame|];
    Le16RoundTrip(Le32(op) + [wifiIf, Flag(enSeqNr), 0, 0], |frame|, []);
    assert Le32(op) + [wifiIf, Flag(enSeqNr), 0, 0] + Le16(|frame|) + [] == header;
    assert Request(op, body)[..k] == (header + tail)[..k];
    UnpackCut(header, tail, 8, k);
    if k >= 10 {
      CutOp(op, body, k);
    }
  }

  /** The round trip this call is meant to make holds only for frames of zero bytes. */
  lemma Tx80211RoundTripIff(op: u32, wifiIf: byte, frame: seq<byte>, enSeqNr: bool)
    requires 1 <= |frame| <= 1500
    ensures (OnTx80211(Request(op, Tx80211Body(wifiIf, frame, enSeqNr))) ==
             Done(op, RawTx80211(if wifiIf == 1 then Ap else Sta, frame, enSeqNr))) <==> forall i :: 0 <= i < |frame| ==> frame[i] == 0
  {
    Tx80211Shifts(op, wifiIf, frame, enSeqNr);
    var shifted := Shifted(frame);
    if forall i :: 0 <= i < |frame| ==> frame[i] == 0 {
      assert shifted == frame;
    } else if shifted == frame {
      var i := 0;
      while i < |frame|
        invariant 0 <= i <= |frame| && forall j :: 0 <= j < i ==> frame[j] == 0
      {
        assert frame[i] == shifted[i] == ([0, 0] + frame)[i];
        i := i + 1;
      }
    }
  }

  // ------------------------------------------------------------------ fixed-size requests

  function Field(msg: seq<byte>, at: nat, n: nat): seq<byte>
    requires at + n <= |msg|
  {
    msg[at..at + n]
  }

  datatype Peer = Peer(mac: seq<byte>, lmk: seq<byte>, channel: byte, iface: Iface, encrypt: bool)

  const ZERO_KEY: seq<byte> := [0, 0, 0, 0, 0, 0, 0, 0, 0, 0, 0, 0, 0, 0, 0, 0]

  /** The key that goes out: without one, sixteen zeros. */
  function KeyOf(lmk: Option<seq<byte>>): seq<byte> {
    if lmk.Some? then lmk.value else ZERO_KEY
  }

  function AddPeerBody(mac: seq<byte>, lmk: Option<seq<byte>>, channel: byte, wifiIf: byte, encrypt: bool): seq<byte> {
    mac + KeyOf(lmk) + [channel, wifiIf, Flag(encrypt), 0]
  }

  function OnAddPeer(msg: seq<byte>): Handled<Peer> {
    if |msg| < 30 then Dropped
    else Done(Read32(msg, 0), Peer(Field(msg, 4, 6), Field(msg, 10, 16), msg[26], IfaceOf(msg[27]), msg[28] != 0))
  }

  lemma AddPeerRoundTrip(op: u32, mac: seq<byte>, lmk: Option<seq<byte>>, channel: byte, wifiIf: byte, encrypt: bool)
    requires |mac| == 6 && (lmk.Some? ==> |lmk.value| == 16)
    ensures OnAddPeer(Request(op, AddPeerBody(mac, lmk, channel, wifiIf, encrypt))) ==
            Done(op, Peer(mac, if lmk.Some? then lmk.value else ZERO_KEY, channel, if wifiIf == 1 then Ap else Sta, encrypt))
    ensures var msg := Request(op, AddPeerBody(mac, lmk, channel, wifiIf, encrypt));
            forall k :: 0 <= k < |msg| ==> OnAddPeer(msg[..k]) == Dropped
  {
    var body := AddPeerBody(mac, lmk, channel, wifiIf, encrypt);
    RequestOp(op, body);
    var msg := Request(op, body);
    assert msg == Le32(op) + mac + KeyOf(lmk) + [channel, wifiIf, Flag(encrypt), 0];
    assert Field(msg, 4, 6) == mac && Field(msg, 10, 16) == KeyOf(lmk);
  }

  datatype MacSetting = MacSetting(iface: Iface, mac: seq<byte>)

  function SetMacBody(wifiIf: byte, mac: seq<byte>): seq<byte> {
    [wifiIf] + mac + [0]
  }

  function OnSetMac(msg: seq<byte>): Handled<MacSetting> {
    if |msg| < 12 then Dropped else Done(Read32(msg, 0), MacSetting(IfaceOf(msg[4]), Field(msg, 5, 6)))
  }

  lemma SetMacRoundTrip(op: u32, wifiIf: byte, mac: seq<byte>)
    requires |mac| == 6
    ensures OnSetMac(Request(op, SetMacBody(wifiIf, mac))) == Done(op, MacSetting(if wifiIf == 1 then Ap else Sta, mac))
    ensures var msg := Request(op, SetMacBody(wifiIf, mac)); forall k :: 0 <= k < |msg| ==> OnSetMac(msg[..k]) == Dropped
  {
    RequestOp(op, SetMacBody(wifiIf, mac));
    var msg := Request(op, SetMacBody(wifiIf, mac));
    assert msg == Le32(op) + [wifiIf] + mac + [0];
    assert Field(msg, 5, 6) == mac;
  }

  datatype Protocol = Protocol(iface: Iface, mask: byte)

  function SetProtocolBody(wifiIf: byte, mask: byte): seq<byte> {
    [mask, wifiIf, 0, 0]
  }

  function OnSetProtocol(msg: seq<byte>): Handled<Protocol> {
    if |msg| < 8 then Dropped else Done(Read32(msg, 0), Protocol(IfaceOf(msg[5]), msg[4]))
  }

  datatype Ftm = Ftm(peer: seq<byte>, frames: byte, period: byte, channel: byte)

  function FtmBody(peer: seq<byte>, frames: byte, period: byte, channel: byte): seq<byte> {
    peer + [frames, period, channel, 0, 0, 0]
  }

  function OnFtm(msg: seq<byte>): Handled<Ftm> {
    if |msg| < 16 then Dropped else Done(Read32(msg, 0), Ftm(Field(msg, 4, 6), msg[10], msg[11], msg[12]))
  }

  lemma ProtocolAndFtmRoundTrip(op: u32, wifiIf: byte, mask: byte, peer: seq<byte>, frames: byte, period: byte, channel: byte)
    requires |peer| == 6
    ensures OnSetProtocol(Request(op, SetProtocolBody(wifiIf, mask))) == Done(op, Protocol(if wifiIf == 1 then Ap else Sta, mask))
    ensures OnFtm(Request(op, FtmBody(peer, frames, period, channel))) == Done(op, Ftm(peer, frames, period, channel))
    ensures var msg := Request(op, SetProtocolBody(wifiIf, mask)); forall k :: 0 <= k < |msg| ==> OnSetProtocol(msg[..k]) == Dropped
    ensures var msg := Request(op, FtmBody(peer, frames, period, channel)); forall k :: 0 <= k < |msg| ==> OnFtm(msg[..k]) == Dropped
  {
    RequestOp(op, SetProtocolBody(wifiIf, mask));
    RequestOp(op, FtmBody(peer, frames, period, channel));
    var msg := Request(op, FtmBody(peer, frames, period, channel));
    assert msg == Le32(op) + peer + [frames, period, channel, 0, 0, 0];
    assert Field(msg, 4, 6) == peer;
  }

  // ------------------------------------------------------------------ events

  /** `esp_hosted_send_custom_data` carries at most this many bytes. */
  const SEND_LIMIT := 8166

  datatype Raw = Raw(rssi: int8, channel: byte, rate: byte, isQos: bool, timestamp: u32, frame: seq<byte>)

  function RawEvent(e: Raw): seq<byte>
    requires |e.frame| <= 1600
  {
    [ToByte(e.rssi), e.channel, e.rate, Flag(e.isQos)] + Le16(|e.frame|) + [0, 0] + Le32(e.timestamp) + e.frame
  }

  function OnRaw(msg: seq<byte>): Option<Raw> {
    match Unpack(msg, 12, 4)
    case Parts(h, frame) => Some(Raw(ToInt8(h[0]), h[1], h[2], h[3] != 0, Read32(h, 8), frame))
    case _ => None
  }

  lemma RawRoundTrip(e: Raw)
    requires |e.frame| <= 1600
    ensures |RawEvent(e)| <= SEND_LIMIT && OnRaw(RawEvent(e)) == Some(e)
    ensures forall k :: 0 <= k < |RawEvent(e)| ==> OnRaw(RawEvent(e)[..k]) == None
  {
    var front := [ToByte(e.rssi), e.channel, e.rate, Flag(e.isQos)];
    var header := front + Le16(|e.frame|) + [0, 0] + Le32(e.timestamp);
    Le16RoundTrip(front, |e.frame|, [0, 0] + Le32(e.timestamp));
    assert front + Le16(|e.frame|) + ([0, 0] + Le32(e.timestamp)) == header;
    Le32RoundTrip(front + Le16(|e.frame|) + [0, 0], e.timestamp, []);
    assert front + Le16(|e.frame|) + [0, 0] + Le32(e.timestamp) + [] == header;
    assert RawEvent(e) == header + e.frame + [] == header + e.frame;
    UnpackExact(header, e.frame, [], 4);
    forall k | 0 <= k < |RawEvent(e)| ensures OnRaw(RawEvent(e)[..k]) == None {
      UnpackCut(header, e.frame, 4, k);
    }
  }

  datatype Csi = Csi(rssi: int8, channel: byte, src: seq<byte>, timestamp: u32, csi: seq<byte>)

  /** `csi_cb`: the length field holds the low 16 bits of the length. */
  function CsiEvent(e: Csi): seq<byte> {
    CsiHeader(e) + e.csi
  }

  function CsiHeader(e: Csi): seq<byte> {
    [ToByte(e.rssi), e.channel] + e.src + Le16(|e.csi| % 0x1_0000) + [0, 0] + Le32(e.timestamp)
  }

  function OnCsi(msg: seq<byte>): Option<Csi> {
    match Unpack(msg, 16, 8)
    case Parts(h, csi) => Some(Csi(ToInt8(h[0]), h[1], h[2..8], Read32(h, 12), csi))
    case _ => None
  }

  lemma CsiHeaderReads(e: Csi)
    requires |e.src| == 6 && |e.csi| < 0x1_0000
    ensures var h := CsiHeader(e);
            && |h| == 16 && h[0] == ToByte(e.rssi) && h[1] == e.channel && h[2..8] == e.src
            && Read16(h, 8) == |e.csi| && Read32(h, 12) == e.timestamp
  {
    var front := [ToByte(e.rssi), e.channel] + e.src;
    Le16RoundTrip(front, |e.csi|, [0, 0] + Le32(e.timestamp));
    assert front + Le16(|e.csi|) + ([0, 0] + Le32(e.timestamp)) == CsiHeader(e);
    Le32RoundTrip(front + Le16(|e.csi|) + [0, 0], e.timestamp, []);
    assert front + Le16(|e.csi|) + [0, 0] + Le32(e.timestamp) + [] == CsiHeader(e);
  }

  lemma CsiWhole(e: Csi)
    requires |e.src| == 6 && |e.csi| < 0x1_0000
    ensures OnCsi(CsiHeader(e) + e.csi) == Some(e)
  {
    CsiHeaderReads(e);
    UnpackExact(CsiHeader(e), e.csi, [], 8);
    assert CsiHeader(e) + e.csi + [] == CsiHeader(e) + e.csi;
  }

  /** Every capture the send path accepts fits its length field, so it reaches the host whole. */
  lemma CsiRoundTrip(e: Csi)
    requires |e.src| == 6 && |CsiEvent(e)| <= SEND_LIMIT
    ensures OnCsi(CsiEvent(e)) == Some(e)
    ensures forall k :: 0 <= k < |CsiEvent(e)| ==> OnCsi(CsiEvent(e)[..k]) == None
  {
    CsiWhole(e);
    CsiHeaderReads(e);
    forall k | 0 <= k < |CsiEvent(e)| ensures OnCsi(CsiEvent(e)[..k]) == None {
      UnpackCut(CsiHeader(e), e.csi, 8, k);
    }
  }

  datatype EspnowRx = EspnowRx(src: seq<byte>, dst: seq<byte>, rssi: int8, channel: byte, data: seq<byte>)

  function EspnowRxEvent(e: EspnowRx): seq<byte>
    requires |e.data| <= 250
  {
    e.src + e.dst + [ToByte(e.rssi), e.channel] + Le16(|e.data|) + e.data
  }

  function OnEspnowRx(msg: seq<byte>): Option<EspnowRx> {
    match Unpack(msg, 16, 14)
    case Parts(h, data) => Some(EspnowRx(h[..6], h[6..12], ToInt8(h[12]), h[13], data))
    case _ => None
  }

  lemma EspnowRxRoundTrip(e: EspnowRx)
    requires |e.src| == 6 && |e.dst| == 6 && 1 <= |e.data| <= 250
    ensures OnEspnowRx(EspnowRxEvent(e)) == Some(e)
    ensures forall k :: 0 <= k < |EspnowRxEvent(e)| ==> OnEspnowRx(EspnowRxEvent(e)[..k]) == None
  {
    var front := e.src + e.dst + [ToByte(e.rssi), e.channel];
    var header := front + Le16(|e.data|);
    Le16RoundTrip(front, |e.data|, []);
    assert front + Le16(|e.data|) + [] == header;
    assert EspnowRxEvent(e) == header + e.data + [] == header + e.data;
    assert header[..6] == e.src && header[6..12] == e.dst;
    UnpackExact(header, e.data, [], 14);
    forall k | 0 <= k < |EspnowRxEvent(e)| ensures OnEspnowRx(EspnowRxEvent(e)[..k]) == None {
      UnpackCut(header, e.data, 14, k);
    }
  }

  datatype Rx154 = Rx154(rssi: int8, lqi: byte, channel: byte, timestamp: u32, frame: seq<byte>)

  /** `esp_ieee802154_receive_done`: only the frame is filled in, from behind its PHY length byte. */
  function Rx154Event(phyFrame: seq<byte>): Option<seq<byte>>
    requires phyFrame != [] && (2 <= phyFrame[0] <= 127 ==> |phyFrame| - 1 >= phyFrame[0])
  {
    var plen: int := phyFrame[0];
    if plen < 2 || plen > 127 then None
    else Some([0, 0, 0, 0] + Le16(plen) + [0, 0] + Le32(0) + phyFrame[1..1 + plen])
  }

  function OnRx154(msg: seq<byte>): Option<Rx154> {
    match Unpack(msg, 12, 4)
    case Parts(h, frame) => Some(Rx154(ToInt8(h[0]), h[1], h[2], Read32(h, 8), frame))
    case _ => None
  }

  /** The host's decoder reads every field of such an event from its own place. */
  lemma Rx154Fields(e: Rx154, pad: byte, pad16: seq<byte>)
    requires |e.frame| < 0x1_0000 && |pad16| == 2
    ensures OnRx154([ToByte(e.rssi), e.lqi, e.channel, pad] + Le16(|e.frame|) + pad16 + Le32(e.timestamp) + e.frame) == Some(e)
  {
    var front := [ToByte(e.rssi), e.lqi, e.channel, pad];
    var header := front + Le16(|e.frame|) + pad16 + Le32(e.timestamp);
    Le16RoundTrip(front, |e.frame|, pad16 + Le32(e.timestamp));
    assert front + Le16(|e.frame|) + (pad16 + Le32(e.timestamp)) == header;
    Le32RoundTrip(front + Le16(|e.frame|) + pad16, e.timestamp, []);
    assert front + Le16(|e.frame|) + pad16 + Le32(e.timestamp) + [] == header;
    assert header + e.frame + [] == header + e.frame;
    UnpackExact(header, e.frame, [], 4);
  }

  /**
   Whatever the length byte says, the host gets a frame exactly if it says 2 to 127, and then exactly the
   frame behind it, with all its metadata zero.
   */
  lemma Rx154RoundTrip(phyFrame: seq<byte>)
    requires phyFrame != [] && (2 <= phyFrame[0] <= 127 ==> |phyFrame| - 1 >= phyFrame[0])
    ensures var sent, plen := Rx154Event(phyFrame), phyFrame[0] as int;
            && (sent.Some? <==> 2 <= plen <= 127)
            && (sent.Some? ==> OnRx154(sent.value) == Some(Rx154(0, 0, 0, 0, phyFrame[1..1 + plen])))
  {
    var plen: int := phyFrame[0];
    if 2 <= plen <= 127 {
      var frame := phyFrame[1..1 + plen];
      Rx154Fields(Rx154(0, 0, 0, 0, frame), 0, [0, 0]);
    }
  }

  // ------------------------------------------------------------------ buffers filled in place

  datatype Built = InvalidArg | Built(body: array<byte>)

  /** The body buffer of `esp_hosted_open_espnow_send`. */
  method BuildEspnowSend(peer: seq<byte>, data: seq<byte>) returns (r: Built)
    requires |peer| == 6
    ensures r.Built? <==> 1 <= |data| <= 250
    ensures r.Built? ==> fresh(r.body) && r.body[..] == EspnowSendBody(peer, data)
  {
    if data == [] || |data| > 250 {
      return InvalidArg;
    }
    var body := new byte[8 + |data|](_ => 0);
    CopyTo(body, 0, peer);
    assert body[..6] == peer;
    body[6] := |data| % 0x100;
    body[7] := |data| / 0x100 % 0x100;
    assert body[..8] == peer + Le16(|data|);
    CopyTo(body, 8, data);
    assert body[..] == body[..8] + body[8..8 + |data|];
    r := Built(body);
  }

  /** The body buffer of `esp_hosted_open_ieee154_tx_raw`. */
  method BuildTx154(frame: seq<byte>, cca: bool) returns (r: Built)
    ensures r.Built? <==> 1 <= |frame| <= 127
    ensures r.Built? ==> fresh(r.body) && r.body[..] == Tx154Body(frame, cca)
  {
    if frame == [] || |frame| > 127 {
      return InvalidArg;
    }
    var body := new byte[4 + |frame|](_ => 0);
    body[0] := Flag(cca);
    body[1] := 0;
    body[2] := |frame| % 0x100;
    body[3] := |frame| / 0x100 % 0x100;
    assert body[..4] == [Flag(cca), 0] + Le16(|frame|);
    CopyTo(body, 4, frame);
    assert body[..] == body[..4] + body[4..4 + |frame|];
    r := Built(body);
  }

  /** The buffer `full` of `esp_hosted_open_tx_80211`. */
  method BuildTx80211(wifiIf: byte, frame: seq<byte>, enSeqNr: bool) returns (r: Built)
    ensures r.Built? <==> 1 <= |frame| <= 1500
    ensures r.Built? ==> fresh(r.body) && r.body[..] == Tx80211Body(wifiIf, frame, enSeqNr)
  {
    if frame == [] || |frame| > 1500 {
      return InvalidArg;
    }
    var lo, hi := |frame| % 0x100, |frame| / 0x100 % 0x100;
    ghost var header := [wifiIf, Flag(enSeqNr), 0, 0, lo, hi, 0, 0];
    assert header == [wifiIf, Flag(enSeqNr), 0, 0] + Le16(|frame|) + [0, 0];
    var full := new byte[8 + |frame|](_ => 0);
    full[0], full[1], full[2], full[3] := wifiIf, Flag(enSeqNr), 0, 0;
    full[4], full[5], full[6], full[7] := lo, hi, 0, 0;
    assert full[..8] == header;
    CopyTo(full, 8, frame);
    assert full[..] == full[..8] + full[8..8 + |frame|];
    assert header + frame == Tx80211Body(wifiIf, frame, enSeqNr);
    r := Built(full);
  }

  /** The event buffer of `raw_forward_task`. */
  method BuildRawEvent(e: Raw) returns (buf: array<byte>)
    requires |e.frame| <= 1600
    ensures fresh(buf) && buf[..] == RawEvent(e)
  {
    var len := |e.frame|;
    buf := new byte[12 + len](_ => 0);
    buf[0], buf[1], buf[2], buf[3] := ToByte(e.rssi), e.channel, e.rate, Flag(e.isQos);
    assert buf[..4] == [ToByte(e.rssi), e.channel, e.rate, Flag(e.isQos)];
    CopyTo(buf, 4, Le16(len) + [0, 0] + Le32(e.timestamp));
    assert buf[..12] == buf[..4] + buf[4..12];
    CopyTo(buf, 12, e.frame);
    assert buf[..] == buf[..12] + buf[12..12 + len];
  }

  /** The event buffer of `csi_cb`. */
  method BuildCsiEvent(e: Csi) returns (buf: array<byte>)
    requires |e.src| == 6
    ensures fresh(buf) && buf[..] == CsiEvent(e)
  {
    var len := |e.csi|;
    ghost var front, rest := [ToByte(e.rssi), e.channel] + e.src, Le16(len % 0x1_0000) + [0, 0] + Le32(e.timestamp);
    assert CsiEvent(e) == front + rest + e.csi;
    buf := new byte[16 + len](_ => 0);
    buf[0], buf[1] := ToByte(e.rssi), e.channel;
    CopyTo(buf, 2, e.src);
    assert buf[..8] == buf[..2] + buf[2..8] == front;
    CopyTo(buf, 8, Le16(len % 0x1_0000) + [0, 0] + Le32(e.timestamp));
    assert buf[..16] == buf[..8] + buf[8..16] == front + rest;
    CopyTo(buf, 16, e.csi);
    assert buf[..] == buf[..16] + buf[16..16 + len];
  }

  /** The event buffer of `espnow_rx_cb`. */
  method BuildEspnowRxEvent(e: EspnowRx) returns (buf: array<byte>)
    requires |e.src| == 6 && |e.dst| == 6 && 1 <= |e.data| <= 250
    ensures fresh(buf) && buf[..] == EspnowRxEvent(e)
  {
    var len := |e.data|;
    buf := new byte[16 + len](_ => 0);
    CopyTo(buf, 0, e.src);
    assert buf[..6] == e.src;
    CopyTo(buf, 6, e.dst);
    assert buf[..12] == buf[..6] + buf[6..12] == e.src + e.dst;
    buf[12], buf[13] := ToByte(e.rssi), e.channel;
    assert buf[..12] == e.src + e.dst && buf[12..14] == [ToByte(e.rssi), e.channel];
    assert buf[..14] == buf[..12] + buf[12..14];
    CopyTo(buf, 14, Le16(len));
    assert buf[..16] == buf[..14] + buf[14..16];
    CopyTo(buf, 16, e.data);
    assert buf[..] == buf[..16] + buf[16..16 + len];
  }

  /** The response buffer of `send_resp_with_body`. */
  method BuildResponse(op: u32, status: int, body: seq<byte>) returns (buf: array<byte>)
    requires -0x8000_0000 <= status < 0x8000_0000
    ensures fresh(buf) && buf[..] == Response(op, status, body)
  {
    buf := new byte[8 + |body|](_ => 0);
    CopyTo(buf, 0, Le32(op));
    assert buf[..4] == Le32(op);
    CopyTo(buf, 4, Le32(Unsigned32(status)));
    assert buf[..8] == buf[..4] + buf[4..8];
    CopyTo(buf, 8, body);
    assert buf[..] == buf[..8] + buf[8..8 + |body|];
  }
}
