/**
 Serial replies and events to the host: `serial_write_data` cuts a buffer into fragments of at most
 1500 bytes and has it freed with the last (slave/main/esp_hosted_coprocessor.c:404-444,814-858).
 */
module SerialTx {
  import opened Bytes

  const ETH_DATA_LEN := 1500

  /** One buffer handle passed to `send_to_host_queue`; `frees` means it owns the whole buffer. */
  datatype Fragment = Fragment(seqNo: u16, more: bool, payload: seq<byte>, frees: bool)

  function NextSeq(seqNo: u16): u16 {
    (seqNo + 1) % 0x1_0000
  }

  function Fragments(data: seq<byte>, seqNo: u16): (f: seq<Fragment>)
    ensures f != []
    decreases |data|
  {
    var next := NextSeq(seqNo);
    if |data| > ETH_DATA_LEN
    then [Fragment(next, true, data[..ETH_DATA_LEN], false)] + Fragments(data[ETH_DATA_LEN..], next)
    else [Fragment(next, false, data, true)]
  }

  function Payloads(f: seq<Fragment>): seq<byte> {
    if f == [] then [] else f[0].payload + Payloads(f[1..])
  }

  function Freeing(f: seq<Fragment>): nat {
    if f == [] then 0 else (if f[0].frees then 1 else 0) + Freeing(f[1..])
  }

  /** max(1, ceil(len / 1500)). */
  function FragmentCount(len: nat): nat {
    if len == 0 then 1 else (len + ETH_DATA_LEN - 1) / ETH_DATA_LEN
  }

  lemma FragmentsStep(data: seq<byte>, seqNo: u16)
    ensures var next := NextSeq(seqNo);
            Fragments(data, seqNo) ==
            if |data| > ETH_DATA_LEN
            then [Fragment(next, true, data[..ETH_DATA_LEN], false)] + Fragments(data[ETH_DATA_LEN..], next)
            else [Fragment(next, false, data, true)]
  {
  }

  lemma CountStep(len: nat)
    requires len > ETH_DATA_LEN
    ensures FragmentCount(len) == 1 + FragmentCount(len - ETH_DATA_LEN)
  {
  }

  lemma SeqStep(seqNo: u16, i: nat)
    ensures (NextSeq(seqNo) + i) % 0x1_0000 == (seqNo + 1 + i) % 0x1_0000
  {
  }

  /**
   The fragments are max(1, ceil(len/1500)) many and concatenate to the data; MORE_FRAGMENT is set
   on all but the last, sequence numbers follow one another modulo 2^16, and the buffer is freed
   once, with the last fragment.
   */
  lemma {:induction false} FragmentsRebuild(data: seq<byte>, seqNo: u16)
    ensures var f := Fragments(data, seqNo);
            && |f| == FragmentCount(|data|)
            && Payloads(f) == data
            && Freeing(f) == 1
            && (forall i :: 0 <= i < |f| ==>
                  && f[i].seqNo == (seqNo + 1 + i) % 0x1_0000
                  && f[i].more == (i < |f| - 1) && f[i].frees == !f[i].more
                  && |f[i].payload| <= ETH_DATA_LEN && (f[i].more ==> |f[i].payload| == ETH_DATA_LEN))
    decreases |data|
  {
    var f := Fragments(data, seqNo);
    if |data| > ETH_DATA_LEN {
      var rest := data[ETH_DATA_LEN..];
      var g := Fragments(rest, NextSeq(seqNo));
      FragmentsRebuild(rest, NextSeq(seqNo));
      CountStep(|data|);
      assert f[1..] == g;
      assert data == data[..ETH_DATA_LEN] + rest;
      forall i | 1 <= i < |f|
        ensures f[i] == g[i - 1] && f[i].seqNo == (seqNo + 1 + i) % 0x1_0000
      {
        SeqStep(seqNo, i);
      }
    } else {
      assert f[1..] == [];
      assert data + [] == data;
    }
  }

  /** The writer: its static sequence number, the fragments passed on, and how often the buffer was freed. */
  class SerialWriter {
    var seqNum: u16
    var sent: seq<Fragment>
    var freed: nat

    constructor ()
      ensures seqNum == 0 && sent == [] && freed == 0
    {
      seqNum, sent, freed := 0, [], 0;
    }

    /**
     `process_tx_pkt`: whether the data path is closed, the host stays asleep or the bus write is
     made, a handle that owns its buffer frees it.
     */
    method SendToHostQueue(f: Fragment)
      modifies this`sent, this`freed
      ensures sent == old(sent) + [f] && freed == old(freed) + if f.frees then 1 else 0
    {
      sent := sent + [f];
      if f.frees {
        freed := freed + 1;
      }
    }

    method SerialWriteData(data: seq<byte>)
      modifies this
      ensures sent == old(sent) + Fragments(data, old(seqNum))
      ensures freed == old(freed) + 1
      ensures seqNum == (old(seqNum) + FragmentCount(|data|)) % 0x1_0000
    {
      var pos, left := 0, |data|;
      ghost var all, last := Fragments(data, seqNum), (seqNum + FragmentCount(|data|)) % 0x1_0000;
      assert data[0..] == data;
      while true
        invariant 0 <= pos <= |data| && left == |data| - pos && freed == old(freed)
        invariant sent + Fragments(data[pos..], seqNum) == old(sent) + all
        invariant (seqNum + FragmentCount(left)) % 0x1_0000 == last
        decreases left
      {
        FragmentsStep(data[pos..], seqNum);
        SeqStep(seqNum, FragmentCount(left) - 1);
        seqNum := NextSeq(seqNum);
        var f;
        if left > ETH_DATA_LEN {
          f := Fragment(seqNum, true, data[pos..pos + ETH_DATA_LEN], false);
          CountStep(left);
          assert data[pos..][..ETH_DATA_LEN] == f.payload && data[pos..][ETH_DATA_LEN..] == data[pos + ETH_DATA_LEN..];
        } else {
          f := Fragment(seqNum, false, data[pos..pos + left], true);
          assert data[pos..] == f.payload;
        }
        SendToHostQueue(f);
        left := left - |f.payload|;
        pos := pos + |f.payload|;
        if left == 0 {
          break;
        }
      }
    }
  }
}
