/**
 The in-flight table of the host dispatcher (esp_hosted_open/src/phy_rpc.c): what each atomic
 section of `do_call` and `on_response` does to it, first as functions on a table value and then
 as a class that works in place and is proved to compute those functions.
 */
module PhyRpcTable {
  import opened Bytes
  import opened Wrappers

  const MAX_INFLIGHT := 4
  const ESP_FAIL: int := -1
  const OP_IDS := 0x1_0000_0000
  const RESP_HDR := 8

  /** `owner` stands for the pointer to the caller's output buffer: it names the call whose buffer it is. */
  datatype Slot = Slot(done: bool, opId: u32, want: u32, owner: nat, hasBuf: bool, cap: nat,
                       outLen: nat, status: int, inUse: bool)

  const FREE_SLOT := Slot(false, 0, 0, 0, false, 0, 0, 0, false)

  datatype Reply = Reply(msgId: u32, opId: u32, status: int, body: seq<byte>)

  /** The output buffer a slot points to exists and holds `cap` bytes. */
  predicate HasRoom(slot: Slot, bufs: map<nat, seq<byte>>) {
    slot.hasBuf ==> slot.owner in bufs && slot.cap <= |bufs[slot.owner]|
  }

  datatype Table = Table(slots: seq<Slot>, nextOp: u32, bufs: map<nat, seq<byte>>) {
    ghost predicate WellFormed() {
      && |slots| == MAX_INFLIGHT
      && forall i :: 0 <= i < |slots| ==> HasRoom(slots[i], bufs)
    }

    function WithSlot(i: nat, slot: Slot): Table
      requires i < |slots|
    {
      this.(slots := slots[i := slot])
    }
  }

  const INITIAL := Table([FREE_SLOT, FREE_SLOT, FREE_SLOT, FREE_SLOT], 1, map[])

  /** Index of the first free slot, or -1. */
  function FindFree(slots: seq<Slot>): (i: int)
    ensures -1 <= i < |slots|
    ensures i >= 0 ==> !slots[i].inUse && forall j :: 0 <= j < i ==> slots[j].inUse
    ensures i == -1 ==> forall j :: 0 <= j < |slots| ==> slots[j].inUse
  {
    if slots == [] then -1
    else if !slots[0].inUse then 0
    else
      var rest := FindFree(slots[1..]);
      assert forall j :: 1 <= j < |slots| ==> slots[1..][j - 1] == slots[j];
      if rest == -1 then -1 else rest + 1
  }

  predicate Waits(slot: Slot, msgId: u32, opId: u32) {
    slot.inUse && slot.opId == opId && slot.want == msgId
  }

  /** Index of the first slot in use that waits for this response, or -1. */
  function FindMatch(slots: seq<Slot>, msgId: u32, opId: u32): (i: int)
    ensures -1 <= i < |slots|
    ensures i >= 0 ==> Waits(slots[i], msgId, opId) && forall j :: 0 <= j < i ==> !Waits(slots[j], msgId, opId)
    ensures i == -1 ==> forall j :: 0 <= j < |slots| ==> !Waits(slots[j], msgId, opId)
  {
    if slots == [] then -1
    else if Waits(slots[0], msgId, opId) then 0
    else
      var rest := FindMatch(slots[1..], msgId, opId);
      assert forall j :: 1 <= j < |slots| ==> slots[1..][j - 1] == slots[j];
      if rest == -1 then -1 else rest + 1
  }

  /** Lines 119-137: fills slot `i` for a new call and takes the next op_id, which wraps at 32 bits. */
  function Reserve(t: Table, i: nat, owner: nat, want: u32, hasBuf: bool, cap: nat, buf: seq<byte>): Table
    requires i < |t.slots|
  {
    Table(t.slots[i := Slot(t.slots[i].done, t.nextOp, want, owner, hasBuf, cap, 0, ESP_FAIL, true)],
          (t.nextOp + 1) % OP_IDS,
          t.bufs[owner := buf])
  }

  function CopyLen(cap: nat, body: seq<byte>): nat {
    Min(cap, |body|)
  }

  /** Lines 95-100: what the copy leaves in a caller's buffer; the tail past the copied bytes stays. */
  function Copied(buf: seq<byte>, cap: nat, body: seq<byte>): (r: seq<byte>)
    requires cap <= |buf|
    ensures |r| == |buf| && r[..CopyLen(cap, body)] == body[..CopyLen(cap, body)]
  {
    body[..CopyLen(cap, body)] + buf[CopyLen(cap, body)..]
  }

  function WriteStatus(t: Table, i: nat, r: Reply): Table
    requires i < |t.slots|
  {
    t.WithSlot(i, t.slots[i].(status := r.status))
  }

  function CopyBody(t: Table, i: nat, r: Reply): Table
    requires i < |t.slots|
    requires HasRoom(t.slots[i], t.bufs)
  {
    var s := t.slots[i];
    if s.hasBuf && r.body != [] then
      t.WithSlot(i, s.(outLen := CopyLen(s.cap, r.body)))
      .(bufs := t.bufs[s.owner := Copied(t.bufs[s.owner], s.cap, r.body)])
    else t
  }

  function GiveDone(t: Table, i: nat): Table
    requires i < |t.slots|
  {
    t.WithSlot(i, t.slots[i].(done := true))
  }

  function TakeDone(t: Table, i: nat): Table
    requires i < |t.slots|
  {
    t.WithSlot(i, t.slots[i].(done := false))
  }

  function Release(t: Table, i: nat): Table
    requires i < |t.slots|
  {
    t.WithSlot(i, t.slots[i].(inUse := false))
  }

  /** Lines 70-103 run without interruption. */
  function Respond(t: Table, r: Reply): Table
    requires t.WellFormed()
  {
    var i := FindMatch(t.slots, r.msgId, r.opId);
    if i == -1 then t else GiveDone(CopyBody(WriteStatus(t, i, r), i, r), i)
  }

  /** The 32-bit status field is a signed number. */
  function Signed32(x: u32): int {
    if x < 0x8000_0000 then x else x - OP_IDS
  }

  /** A message shorter than the response header is dropped; otherwise its fields are read off the wire. */
  function ParseReply(msgId: u32, data: seq<byte>): (r: Option<Reply>)
    ensures r.Some? <==> |data| >= RESP_HDR
  {
    if |data| < RESP_HDR then None
    else Some(Reply(msgId, Read32(data, 0), Signed32(Read32(data, 4)), data[RESP_HDR..]))
  }

  /** `s_inflight`, `s_next_op_id` and the callers' buffers, updated in place. */
  class Dispatcher {
    const slots: array<Slot>
    var nextOp: u32
    var bufs: map<nat, seq<byte>>

    ghost function View(): Table
      reads this, slots
    {
      Table(slots[..], nextOp, bufs)
    }

    ghost predicate Valid()
      reads this, slots
    {
      View().WellFormed()
    }

    constructor ()
      ensures Valid() && View() == INITIAL && fresh(slots)
    {
      slots := new Slot[MAX_INFLIGHT](_ => FREE_SLOT);
      nextOp := 1;
      bufs := map[];
      new;
      assert slots[..] == INITIAL.slots;
    }

    /** Lines 118-137. Returns -1, and changes nothing, when every slot is in use. */
    method ReserveSlot(owner: nat, want: u32, hasBuf: bool, cap: nat, buf: seq<byte>) returns (slot: int, opId: u32)
      requires Valid() && owner !in bufs && cap <= |buf|
      modifies this, slots
      ensures Valid()
      ensures slot == FindFree(old(slots[..])) && opId == old(nextOp)
      ensures View() == if slot == -1 then old(View()) else Reserve(old(View()), slot, owner, want, hasBuf, cap, buf)
    {
      slot := -1;
      opId := nextOp;
      var i := 0;
      while i < MAX_INFLIGHT
        invariant 0 <= i <= MAX_INFLIGHT
        invariant forall j :: 0 <= j < i ==> slots[j].inUse
      {
        if !slots[i].inUse {
          slot := i;
          break;
        }
        i := i + 1;
      }
      if slot == -1 {
        return;
      }
      nextOp := (nextOp + 1) % OP_IDS;
      bufs := bufs[owner := buf];
      slots[slot] := Slot(slots[slot].done, opId, want, owner, hasBuf, cap, 0, ESP_FAIL, true);
    }

    /** Lines 79-87: the slot waiting for this response, or -1. */
    method FindWaiter(msgId: u32, opId: u32) returns (slot: int)
      requires Valid()
      ensures slot == FindMatch(slots[..], msgId, opId)
    {
      slot := -1;
      var i := 0;
      while i < MAX_INFLIGHT
        invariant 0 <= i <= MAX_INFLIGHT
        invariant forall j :: 0 <= j < i ==> !Waits(slots[j], msgId, opId)
      {
        if slots[i].inUse && slots[i].opId == opId && slots[i].want == msgId {
          return i;
        }
        i := i + 1;
      }
    }

    /** Line 94. */
    method StoreStatus(slot: nat, reply: Reply)
      requires Valid() && slot < MAX_INFLIGHT
      modifies slots
      ensures Valid() && View() == WriteStatus(old(View()), slot, reply)
    {
      slots[slot] := slots[slot].(status := reply.status);
    }

    /** Lines 95-100. */
    method StoreBody(slot: nat, reply: Reply)
      requires Valid() && slot < MAX_INFLIGHT
      modifies this, slots
      ensures Valid() && View() == CopyBody(old(View()), slot, reply)
    {
      assert HasRoom(slots[..][slot], bufs);
      if slots[slot].hasBuf && |reply.body| > 0 {
        var copy := |reply.body|;
        if copy > slots[slot].cap {
          copy := slots[slot].cap;
        }
        var buf := bufs[slots[slot].owner];
        bufs := bufs[slots[slot].owner := reply.body[..copy] + buf[copy..]];
        slots[slot] := slots[slot].(outLen := copy);
      }
    }

    /** Line 101. */
    method SignalDone(slot: nat)
      requires Valid() && slot < MAX_INFLIGHT
      modifies slots
      ensures Valid() && View() == GiveDone(old(View()), slot)
    {
      slots[slot] := slots[slot].(done := true);
    }

    /** Lines 70-103, `on_response` run to its end. */
    method OnResponse(msgId: u32, data: seq<byte>)
      requires Valid()
      modifies this, slots
      ensures Valid()
      ensures |data| < RESP_HDR ==> View() == old(View())
      ensures |data| >= RESP_HDR ==> View() == Respond(old(View()), ParseReply(msgId, data).value)
    {
      if |data| < RESP_HDR {
        return;
      }
      var reply := ParseReply(msgId, data).value;
      var slot := FindWaiter(msgId, reply.opId);
      if slot < 0 {
        return;
      }
      StoreStatus(slot, reply);
      StoreBody(slot, reply);
      SignalDone(slot);
    }

    /** Line 148: a take that does not wait. */
    method TryTake(slot: nat) returns (taken: bool)
      requires Valid() && slot < MAX_INFLIGHT
      modifies slots
      ensures Valid() && taken == old(slots[slot].done)
      ensures View() == if taken then TakeDone(old(View()), slot) else old(View())
    {
      taken := slots[slot].done;
      if taken {
        slots[slot] := slots[slot].(done := false);
      }
    }

    /** Lines 144, 150 and 156. */
    method ReleaseSlot(slot: nat)
      requires Valid() && slot < MAX_INFLIGHT
      modifies slots
      ensures Valid() && View() == Release(old(View()), slot)
    {
      slots[slot] := slots[slot].(inUse := false);
    }
  }
}
