/** Reassembly and parsing together: what becomes of one request the host sends in fragments. */
module SerialRequest {
  import opened Bytes
  import opened SerialRx
  import opened Tlv

  lemma TailOverruns(epname: seq<byte>, payload: seq<byte>, kept: nat)
    requires 1 <= |epname| <= 14
    requires kept < |payload| < 0x1_0000
    ensures Parse([T_EPNAME] + Le16(|epname|) + epname + ([T_DATA] + Le16(|payload|) + payload[..kept])) == Overrun
  {
    var rest := [T_DATA] + Le16(|payload|) + payload[..kept];
    EncodedHead(Element(T_EPNAME, epname), rest);
    Le16RoundTrip([T_DATA], |payload|, payload[..kept]);
    assert ParseFrom(rest, Overlay(BLANK, epname), []) == Overrun;
  }

  lemma ClippedTail(head: seq<byte>, payload: seq<byte>)
    requires |head| <= BUFFER_SIZE < |head| + |payload|
    ensures Clipped(head + payload) == head + payload[..BUFFER_SIZE - |head|]
  {
  }

  /** A composed request cut to the buffer's size. */
  lemma ParseClipped(epname: seq<byte>, payload: seq<byte>)
    requires 1 <= |epname| <= 14 && forall i :: 0 <= i < |epname| ==> epname[i] != 0
    requires 1 <= |payload| < 0x1_0000
    ensures Parse(Clipped(Composed(epname, payload))) ==
            if |epname| + |payload| + 6 <= BUFFER_SIZE then Found(epname, payload) else Overrun
  {
    var message := Composed(epname, payload);
    var name, mid := [T_EPNAME] + Le16(|epname|) + epname, [T_DATA] + Le16(|payload|);
    assert message == name + mid + payload;
    if |message| <= BUFFER_SIZE {
      assert Clipped(message) == message;
      ComposeParseRoundTrip(epname, payload);
    } else {
      var kept := BUFFER_SIZE - 6 - |epname|;
      ClippedTail(name + mid, payload);
      assert name + mid + payload[..kept] == name + (mid + payload[..kept]);
      TailOverruns(epname, payload, kept);
    }
  }

  /**
   However the host splits a composed request, it is completed once, and parsed to its endpoint and payload
   exactly when all of it fits the 8192-byte buffer; otherwise its length field points past what was kept.
   */
  lemma RequestArrivesIff(epname: seq<byte>, payload: seq<byte>, packets: seq<Packet>, seqNo: u16)
    requires 1 <= |epname| <= 14 && forall i :: 0 <= i < |epname| ==> epname[i] != 0
    requires 1 <= |payload| < 0x1_0000
    requires SplitMessage(packets, seqNo) && Payloads(packets) == Composed(epname, payload)
    ensures var (messages, last) := Feed(EMPTY, packets);
            && |messages| == 1 && last == EMPTY
            && Parse(messages[0]) == if |epname| + |payload| + 6 <= BUFFER_SIZE then Found(epname, payload) else Overrun
  {
    RebuildsAnySplit(packets, seqNo);
    ParseClipped(epname, payload);
  }
}
