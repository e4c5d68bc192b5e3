/**
 The host RPC dispatcher (esp_hosted_open/src/phy_rpc.c) as a machine of interleaved calls.

 Any number of calls and any replies, delayed, duplicated, reordered or forged, run over one table.
 `do_call` is cut where other tasks can act: reservation under the mutex, the send, the take or its
 expiry, the two reads of lines 154-155, and the release, which takes no mutex. `on_response` holds
 the mutex from the match to the give, so no reservation can come between, but takes, reads and
 releases can.
 */
module PhyRpc {
  import opened Bytes
  import opened PhyRpcTable
  import opened Runs

  datatype Outcome = Answer(status: int, outLen: nat, data: seq<byte>) | SendError(err: int) | Timeout | NoMem

  datatype Phase =
    | Sending | Waiting | Took | GotStatus(status: int) | GotLen(status: int, outLen: nat)
    | SendFailed(err: int) | TimedOut | Returned(outcome: Outcome)

  /**
   `given` is what the caller's buffer held when it made the call; `accepted` lists the replies `on_response`
   matched to this call, in order.
   */
  datatype Call = Call(slot: nat, seqNo: nat, want: u32, hasBuf: bool, cap: nat, given: seq<byte>,
                       phase: Phase, accepted: seq<Reply>) {
    predicate InFlight() { !phase.Returned? }
    predicate BeforeTake() { phase.Sending? || phase.Waiting? }
    predicate AfterTake() { phase.Took? || phase.GotStatus? || phase.GotLen? }
    function OpId(): u32 { (1 + seqNo) % OP_IDS }
  }

  /** What `on_response` has done so far with the reply it holds the mutex for. */
  datatype Responder = Idle | Matched(slot: nat, reply: Reply) | StatusSet(slot: nat, reply: Reply) | BodyCopied(slot: nat, reply: Reply)

  datatype State = State(table: Table, issued: nat, resp: Responder, calls: map<nat, Call>) {
    predicate Responding(i: nat) { !resp.Idle? && resp.slot == i }
  }

  const START := State(INITIAL, 0, Idle, map[])

  datatype Step =
    | Reserve(c: nat, want: u32, hasBuf: bool, cap: nat, buf: seq<byte>)
    | Send(c: nat, err: int)
    | Take(c: nat) | Expire(c: nat)
    | ReadStatus(c: nat) | ReadLen(c: nat) | Return(c: nat)
    | Deliver(reply: Reply) | SetStatus | Copy | Give

  ghost predicate Enabled(s: State, e: Step)
    requires Structure(s)
  {
    match e
    case Reserve(c, _, _, cap, buf) => s.resp.Idle? && c !in s.calls && c !in s.table.bufs && cap <= |buf|
    case Send(c, _) => c in s.calls && s.calls[c].phase.Sending?
    case Take(c) => c in s.calls && s.calls[c].phase.Waiting? && s.table.slots[s.calls[c].slot].done
    case Expire(c) => c in s.calls && s.calls[c].phase.Waiting? && !s.table.slots[s.calls[c].slot].done
    case ReadStatus(c) => c in s.calls && s.calls[c].phase.Took?
    case ReadLen(c) => c in s.calls && s.calls[c].phase.GotStatus?
    case Return(c) => c in s.calls && (s.calls[c].phase.GotLen? || s.calls[c].phase.SendFailed? || s.calls[c].phase.TimedOut?)
    case Deliver(_) => s.resp.Idle?
    case SetStatus => s.resp.Matched?
    case Copy => s.resp.StatusSet?
    case Give => s.resp.BodyCopied?
  }

  function Moved(s: State, c: nat, phase: Phase): State
    requires c in s.calls
  {
    s.(calls := s.calls[c := s.calls[c].(phase := phase)])
  }

  function OutcomeOf(s: State, c: nat): Outcome
    requires c in s.calls
  {
    match s.calls[c].phase
    case SendFailed(err) => SendError(err)
    case TimedOut => Timeout
    case GotLen(status, outLen) => Answer(status, outLen, if c in s.table.bufs then s.table.bufs[c] else [])
    case _ => NoMem
  }

  ghost function Apply(s: State, e: Step): State
    requires Structure(s) && Enabled(s, e)
  {
    var t := s.table;
    match e
    case Reserve(c, want, hasBuf, cap, buf) =>
      var i := FindFree(t.slots);
      if i == -1 then s.(calls := s.calls[c := Call(0, 0, want, hasBuf, cap, buf, Returned(NoMem), [])])
      else State(PhyRpcTable.Reserve(t, i, c, want, hasBuf, cap, buf), s.issued + 1, s.resp,
                 s.calls[c := Call(i, s.issued, want, hasBuf, cap, buf, Sending, [])])
    case Send(c, err) => Moved(s, c, if err == 0 then Waiting else SendFailed(err))
    case Take(c) => Moved(s.(table := TakeDone(t, s.calls[c].slot)), c, Took)
    case Expire(c) => Moved(s, c, TimedOut)
    case ReadStatus(c) => Moved(s, c, GotStatus(t.slots[s.calls[c].slot].status))
    case ReadLen(c) => Moved(s, c, GotLen(s.calls[c].phase.status, t.slots[s.calls[c].slot].outLen))
    case Return(c) => Moved(s.(table := Release(t, s.calls[c].slot)), c, Returned(OutcomeOf(s, c)))
    case Deliver(r) =>
      var i := FindMatch(t.slots, r.msgId, r.opId);
      if i == -1 then s
      else
        var c := t.slots[i].owner;
        s.(resp := Matched(i, r), calls := s.calls[c := s.calls[c].(accepted := s.calls[c].accepted + [r])])
    case SetStatus => s.(table := WriteStatus(t, s.resp.slot, s.resp.reply), resp := StatusSet(s.resp.slot, s.resp.reply))
    case Copy => s.(table := CopyBody(t, s.resp.slot, s.resp.reply), resp := BodyCopied(s.resp.slot, s.resp.reply))
    case Give => s.(table := GiveDone(t, s.resp.slot), resp := Idle)
  }

  ghost predicate Next(s: State, e: Step, s': State) {
    Structure(s) && Enabled(s, e) && s' == Apply(s, e)
  }

  // ------------------------------------------------------------------ slot conservation

  ghost predicate Agree(call: Call, slot: Slot) {
    && slot.opId == call.OpId() && slot.want == call.want
    && slot.hasBuf == call.hasBuf && slot.cap == call.cap
  }

  /** Slots in use and calls in flight correspond one to one, and each pair agrees on the request. */
  ghost predicate Structure(s: State)
  {
    && s.table.WellFormed()
    && s.table.nextOp == (1 + s.issued) % OP_IDS
    && (forall i :: 0 <= i < MAX_INFLIGHT && s.table.slots[i].inUse ==>
          var c := s.table.slots[i].owner;
          c in s.calls && s.calls[c].InFlight() && s.calls[c].slot == i)
    && (forall i :: 0 <= i < MAX_INFLIGHT && !s.table.slots[i].inUse && s.table.slots[i].hasBuf ==>
          var c := s.table.slots[i].owner; c in s.calls && !s.calls[c].InFlight())
    && (forall c :: c in s.calls && s.calls[c].InFlight() ==> SlotOf(s, c))
    && (!s.resp.Idle? ==> s.resp.slot < MAX_INFLIGHT)
  }

  ghost predicate SlotOf(s: State, c: nat)
    requires s.table.WellFormed() && c in s.calls
  {
    var call := s.calls[c];
    && call.seqNo < s.issued && call.slot < MAX_INFLIGHT && c in s.table.bufs
    && s.table.slots[call.slot].inUse && s.table.slots[call.slot].owner == c
    && Agree(call, s.table.slots[call.slot])
  }

  ghost predicate SameRequest(a: Slot, b: Slot) {
    && a.inUse == b.inUse && a.owner == b.owner && a.opId == b.opId && a.want == b.want
    && a.hasBuf == b.hasBuf && a.cap == b.cap
  }

  /** Every step but a reservation and a return leaves the slot-to-call correspondence as it was. */
  ghost predicate SameShape(s: State, s': State) {
    && s'.table.WellFormed() && s.table.WellFormed()
    && s'.table.nextOp == s.table.nextOp && s'.issued == s.issued
    && s'.table.bufs.Keys == s.table.bufs.Keys
    && (forall i :: 0 <= i < MAX_INFLIGHT ==> SameRequest(s.table.slots[i], s'.table.slots[i]))
    && s'.calls.Keys == s.calls.Keys
    && (forall c :: c in s.calls ==>
          && s'.calls[c].InFlight() == s.calls[c].InFlight()
          && s'.calls[c] == s.calls[c].(phase := s'.calls[c].phase, accepted := s'.calls[c].accepted))
    && (!s'.resp.Idle? ==> s'.resp.slot < MAX_INFLIGHT)
  }

  lemma ShapeKeepsStructure(s: State, s': State)
    requires Structure(s) && SameShape(s, s')
    ensures Structure(s')
  {
    forall c | c in s'.calls && s'.calls[c].InFlight()
      ensures SlotOf(s', c)
    {
      assert SlotOf(s, c);
      assert SameRequest(s.table.slots[s.calls[c].slot], s'.table.slots[s.calls[c].slot]);
    }
    forall i | 0 <= i < MAX_INFLIGHT && s'.table.slots[i].inUse
      ensures var c := s'.table.slots[i].owner; c in s'.calls && s'.calls[c].InFlight() && s'.calls[c].slot == i
    {
      assert SameRequest(s.table.slots[i], s'.table.slots[i]);
    }
    forall i | 0 <= i < MAX_INFLIGHT && !s'.table.slots[i].inUse && s'.table.slots[i].hasBuf
      ensures var c := s'.table.slots[i].owner; c in s'.calls && !s'.calls[c].InFlight()
    {
      assert SameRequest(s.table.slots[i], s'.table.slots[i]);
    }
  }

  lemma CallerShape(s: State, e: Step, s': State)
    requires Next(s, e, s') && (e.Send? || e.Take? || e.Expire? || e.ReadStatus? || e.ReadLen?)
    ensures SameShape(s, s')
  {
    assert SlotOf(s, e.c);
  }

  lemma DeliverShape(s: State, e: Step, s': State)
    requires Next(s, e, s') && e.Deliver?
    ensures SameShape(s, s')
  {
  }

  lemma ResponderShape(s: State, e: Step, s': State)
    requires Next(s, e, s') && (e.SetStatus? || e.Copy? || e.Give?)
    ensures SameShape(s, s')
  {
    assert HasRoom(s.table.slots[s.resp.slot], s.table.bufs);
  }

  lemma ReservedTable(s: State, e: Step, s': State)
    requires Next(s, e, s') && e.Reserve?
    ensures s'.table.WellFormed()
  {
    forall j | 0 <= j < MAX_INFLIGHT
      ensures HasRoom(s'.table.slots[j], s'.table.bufs)
    {
      assert HasRoom(s.table.slots[j], s.table.bufs);
    }
  }

  lemma ReserveStep(s: State, e: Step, s': State)
    requires Next(s, e, s') && e.Reserve?
    ensures Structure(s')
  {
    ReservedTable(s, e, s');
    var i := FindFree(s.table.slots);
    assert i != -1 ==> forall j :: 0 <= j < MAX_INFLIGHT && j != i ==> s'.table.slots[j] == s.table.slots[j];
    forall c | c in s'.calls && s'.calls[c].InFlight()
      ensures SlotOf(s', c)
    {
      assert c != e.c ==> SlotOf(s, c) && s.calls[c].slot != i;
    }
  }

  lemma ReturnStep(s: State, e: Step, s': State)
    requires Next(s, e, s') && e.Return?
    ensures Structure(s')
  {
    assert SlotOf(s, e.c);
    forall c | c in s'.calls && s'.calls[c].InFlight()
      ensures SlotOf(s', c)
    {
      assert SlotOf(s, c);
    }
  }

  lemma SameShapeOf(s: State, e: Step, s': State)
    requires Next(s, e, s') && !e.Reserve? && !e.Return?
    ensures SameShape(s, s')
  {
    match e
    case Deliver(_) => DeliverShape(s, e, s');
    case SetStatus | Copy | Give => ResponderShape(s, e, s');
    case _ => CallerShape(s, e, s');
  }

  lemma StructureStep(s: State, e: Step, s': State)
    requires Next(s, e, s')
    ensures Structure(s')
  {
    if e.Reserve? {
      ReserveStep(s, e, s');
    } else if e.Return? {
      ReturnStep(s, e, s');
    } else {
      SameShapeOf(s, e, s');
      ShapeKeepsStructure(s, s');
    }
  }

  // ------------------------------------------------------------------ op_ids and capacity

  /** Calls in flight hold different sequence numbers, of which the op_ids are the low 32 bits. */
  ghost predicate Distinct(s: State) {
    forall c, d :: c in s.calls && d in s.calls && c != d && s.calls[c].InFlight() && s.calls[d].InFlight() ==>
      s.calls[c].seqNo != s.calls[d].seqNo
  }

  lemma ReserveDistinct(s: State, e: Step, s': State)
    requires Next(s, e, s') && Distinct(s) && e.Reserve?
    ensures Distinct(s')
  {
    forall c | c in s.calls && s.calls[c].InFlight()
      ensures s.calls[c].seqNo < s.issued
    {
      assert SlotOf(s, c);
    }
  }

  lemma ReturnDistinct(s: State, e: Step, s': State)
    requires Next(s, e, s') && Distinct(s) && e.Return?
    ensures Distinct(s')
  {
  }

  lemma DistinctStep(s: State, e: Step, s': State)
    requires Next(s, e, s') && Distinct(s)
    ensures Distinct(s')
  {
    if e.Reserve? {
      ReserveDistinct(s, e, s');
    } else if e.Return? {
      ReturnDistinct(s, e, s');
    } else {
      SameShapeOf(s, e, s');
    }
  }

  ghost predicate Sound(s: State) {
    Structure(s) && Distinct(s)
  }

  lemma SoundInEveryRun(states: seq<State>, steps: seq<Step>, i: nat)
    requires IsRun(Next, states, steps) && states[0] == START && i < |states|
    ensures Sound(states[i])
  {
    forall s, e, s' | Sound(s) && Next(s, e, s')
      ensures Sound(s')
    {
      StructureStep(s, e, s');
      DistinctStep(s, e, s');
    }
    Invariance(Next, Sound, states, steps);
  }

  /** Two numbers with the same low 32 bits are equal exactly when they are less than 2^32 apart. */
  lemma SameLowBits(a: nat, b: nat)
    requires (1 + a) % OP_IDS == (1 + b) % OP_IDS
    ensures a == b <==> -OP_IDS < a - b < OP_IDS
  {
    assert (1 + a) == OP_IDS * ((1 + a) / OP_IDS) + (1 + a) % OP_IDS;
    assert (1 + b) == OP_IDS * ((1 + b) / OP_IDS) + (1 + b) % OP_IDS;
    if -OP_IDS < a - b < OP_IDS {
      assert a - b == OP_IDS * ((1 + a) / OP_IDS - (1 + b) / OP_IDS);
    }
  }

  /** Distinct calls in flight carry distinct op_ids, unless 2^32 reservations separate them. */
  lemma OpIdsDistinct(s: State, c: nat, d: nat)
    requires Sound(s) && c in s.calls && d in s.calls && c != d && s.calls[c].InFlight() && s.calls[d].InFlight()
    requires -OP_IDS < s.calls[c].seqNo - s.calls[d].seqNo < OP_IDS
    ensures s.calls[c].OpId() != s.calls[d].OpId()
  {
    if s.calls[c].OpId() == s.calls[d].OpId() {
      SameLowBits(s.calls[c].seqNo, s.calls[d].seqNo);
    }
  }

  /**
   A reply to request number `request` that is accepted is accepted by the call that made that
   request, exactly when fewer than 2^32 reservations separate the two.
   */
  lemma AcceptedByRequester(s: State, r: Reply, request: nat)
    requires Structure(s) && r.opId == (1 + request) % OP_IDS
    requires FindMatch(s.table.slots, r.msgId, r.opId) != -1
    ensures var call := s.calls[s.table.slots[FindMatch(s.table.slots, r.msgId, r.opId)].owner];
            call.seqNo == request <==> -OP_IDS < call.seqNo - request < OP_IDS
  {
    var c := s.table.slots[FindMatch(s.table.slots, r.msgId, r.opId)].owner;
    assert SlotOf(s, c);
    SameLowBits(s.calls[c].seqNo, request);
  }

  /**
   A reply that carries a call's op_id and response id reaches that call and no other, as long as no call in
   flight is 2^32 reservations away from it.
   */
  lemma OwnReplyIsAccepted(s: State, c: nat, r: Reply)
    requires Sound(s) && s.resp.Idle? && c in s.calls && s.calls[c].InFlight()
    requires forall d :: d in s.calls && s.calls[d].InFlight() ==> -OP_IDS < s.calls[d].seqNo - s.calls[c].seqNo < OP_IDS
    requires r.opId == s.calls[c].OpId() && r.msgId == s.calls[c].want
    ensures var t := Apply(s, Deliver(r));
            && t.calls == s.calls[c := s.calls[c].(accepted := s.calls[c].accepted + [r])]
            && t.resp == Matched(s.calls[c].slot, r) && t.table == s.table
  {
    assert SlotOf(s, c);
    var i := FindMatch(s.table.slots, r.msgId, r.opId);
    assert s.table.slots[s.calls[c].slot].want == r.msgId;
    var d := s.table.slots[i].owner;
    assert SlotOf(s, d);
    if d != c {
      OpIdsDistinct(s, c, d);
    }
  }

  function InFlightBelow(s: State, n: nat): set<nat> {
    set c | c in s.calls && s.calls[c].InFlight() && s.calls[c].slot < n
  }

  function InFlightCalls(s: State): set<nat> {
    set c | c in s.calls && s.calls[c].InFlight()
  }

  function UsedBelow(slots: seq<Slot>, n: nat): (u: nat)
    requires n <= |slots|
    ensures u <= n
    ensures u == n <==> forall i :: 0 <= i < n ==> slots[i].inUse
  {
    if n == 0 then 0 else UsedBelow(slots, n - 1) + if slots[n - 1].inUse then 1 else 0
  }

  /** The n-th slot adds its owner to the calls in flight below it, if it is in use. */
  ghost predicate Adds(s: State, n: nat)
    requires s.table.WellFormed() && n < MAX_INFLIGHT
  {
    var slot := s.table.slots[n];
    if slot.inUse then slot.owner !in InFlightBelow(s, n) && InFlightBelow(s, n + 1) == InFlightBelow(s, n) + {slot.owner}
    else InFlightBelow(s, n + 1) == InFlightBelow(s, n)
  }

  lemma InFlightInSlot(s: State, n: nat)
    requires Structure(s) && n < MAX_INFLIGHT
    ensures Adds(s, n)
  {
    var slot := s.table.slots[n];
    forall c | c in InFlightBelow(s, n + 1) && c !in InFlightBelow(s, n)
      ensures slot.inUse && slot.owner == c
    {
      assert SlotOf(s, c);
    }
  }

  lemma {:induction false} CountSlots(s: State, n: nat)
    requires s.table.WellFormed() && n <= MAX_INFLIGHT
    requires forall k :: 0 <= k < n ==> Adds(s, k)
    ensures |InFlightBelow(s, n)| == UsedBelow(s.table.slots, n)
  {
    if n > 0 {
      assert Adds(s, n - 1);
      CountSlots(s, n - 1);
    } else {
      assert InFlightBelow(s, 0) == {};
    }
  }

  /** Slots in use and calls in flight are equally many. */
  lemma UsedSlotsAreCalls(s: State)
    requires Structure(s)
    ensures |InFlightBelow(s, MAX_INFLIGHT)| == UsedBelow(s.table.slots, MAX_INFLIGHT)
  {
    forall k: nat | k < MAX_INFLIGHT ensures Adds(s, k) {
      InFlightInSlot(s, k);
    }
    CountSlots(s, MAX_INFLIGHT);
  }

  /** At most four calls are in flight, and a reservation is refused exactly when four are. */
  lemma RefusedWhenFull(s: State)
    requires Structure(s)
    ensures |InFlightCalls(s)| <= MAX_INFLIGHT
    ensures FindFree(s.table.slots) == -1 <==> |InFlightCalls(s)| == MAX_INFLIGHT
  {
    UsedSlotsAreCalls(s);
    forall c | c in InFlightCalls(s)
      ensures s.calls[c].slot < MAX_INFLIGHT
    {
      assert SlotOf(s, c);
    }
    assert InFlightCalls(s) == InFlightBelow(s, MAX_INFLIGHT);
  }

  /** A refused call gets ESP_ERR_NO_MEM and every slot, buffer and other call is as before. */
  lemma RefusalDisturbsNobody(s: State, e: Step, s': State)
    requires Next(s, e, s') && e.Reserve? && |InFlightCalls(s)| == MAX_INFLIGHT
    ensures s'.table == s.table && s'.issued == s.issued && s'.resp == s.resp
    ensures s'.calls[e.c].phase == Returned(NoMem)
    ensures forall d :: d in s.calls ==> d in s'.calls && s'.calls[d] == s.calls[d]
  {
    RefusedWhenFull(s);
  }

  lemma DeliverDoes(s: State, r: Reply, s': State)
    requires Next(s, Deliver(r), s') && s' != s
    ensures FindMatch(s.table.slots, r.msgId, r.opId) != -1
    ensures s'.resp == Matched(FindMatch(s.table.slots, r.msgId, r.opId), r) && s'.table == s.table
  {
  }

  lemma ResponderDoes(s: State, e: Step, s': State)
    requires Next(s, e, s') && (e.SetStatus? || e.Copy? || e.Give?)
    ensures !s.resp.Idle? && s.table.WellFormed() && s.resp.slot < MAX_INFLIGHT
    ensures e.SetStatus? ==> s'.resp == StatusSet(s.resp.slot, s.resp.reply) && s'.table == WriteStatus(s.table, s.resp.slot, s.resp.reply)
    ensures e.Copy? ==> s'.resp == BodyCopied(s.resp.slot, s.resp.reply) && s'.table == CopyBody(s.table, s.resp.slot, s.resp.reply)
    ensures e.Give? ==> s'.resp == Idle && s'.table == GiveDone(s.table, s.resp.slot)
  {
  }

  /** Left undisturbed, the four steps of a response do to the table what `on_response` computes. */
  lemma UninterruptedResponse(s: State, r: Reply, s1: State, s2: State, s3: State, s4: State)
    requires Next(s, Deliver(r), s1) && s1 != s
    requires Next(s1, SetStatus, s2) && Next(s2, Copy, s3) && Next(s3, Give, s4)
    ensures s4.table == Respond(s.table, r) && s4.resp.Idle?
  {
    DeliverDoes(s, r, s1);
    ResponderDoes(s1, SetStatus, s2);
    ResponderDoes(s2, Copy, s3);
    ResponderDoes(s3, Give, s4);
  }
}
