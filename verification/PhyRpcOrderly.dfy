/**
 When the host dispatcher's semaphores stay in step with its slots: the exact condition on each
 step, what callers get while it holds, and two runs that show what happens when it does not.
 */
module PhyRpcOrderly {
  import opened Bytes
  import opened PhyRpcTable
  import opened PhyRpc
  import opened PhyRpcCorrelation
  import opened Runs

  /** A token, or a reply on its way to give one, is only ever there for a call still to take it. */
  ghost predicate Clean(s: State)
    requires Structure(s)
  {
    forall i :: 0 <= i < MAX_INFLIGHT ==> SlotClean(s, i)
  }

  ghost predicate SlotClean(s: State, i: nat)
    requires Structure(s) && i < MAX_INFLIGHT
  {
    var slot := s.table.slots[i];
    && (slot.done ==> slot.inUse && s.calls[slot.owner].BeforeTake())
    && (s.Responding(i) ==> slot.inUse && s.calls[slot.owner].BeforeTake() && !slot.done)
  }

  /**
   What a caller and the slave must avoid: a second answer, an answer after the call stopped
   waiting, and giving up (a failed send or an expired wait) once an answer has been accepted.
   */
  ghost predicate Orderly(s: State, e: Step)
    requires Structure(s) && Enabled(s, e)
  {
    match e
    case Deliver(r) =>
      var i := FindMatch(s.table.slots, r.msgId, r.opId);
      i == -1 || (s.calls[s.table.slots[i].owner].BeforeTake() && !s.table.slots[i].done)
    case Send(c, err) => err == 0 || Unanswered(s, c)
    case Expire(c) => Unanswered(s, c)
    case _ => true
  }

  ghost predicate Unanswered(s: State, c: nat)
    requires Structure(s) && c in s.calls && s.calls[c].InFlight()
  {
    assert SlotOf(s, c);
    !s.table.slots[s.calls[c].slot].done && !s.Responding(s.calls[c].slot)
  }

  lemma CallerKeepsClean(s: State, e: Step, s': State, i: nat)
    requires Next(s, e, s') && Structure(s') && Clean(s) && Orderly(s, e) && i < MAX_INFLIGHT
    requires e.Send? || e.Take? || e.Expire? || e.ReadStatus? || e.ReadLen? || e.Return?
    ensures SlotClean(s', i)
  {
    assert SlotClean(s, i) && SlotOf(s, e.c);
    assert SlotClean(s, s.calls[e.c].slot);
  }

  lemma ResponderKeepsClean(s: State, e: Step, s': State, i: nat)
    requires Next(s, e, s') && Structure(s') && Clean(s) && Orderly(s, e) && i < MAX_INFLIGHT
    requires e.Reserve? || e.Deliver? || e.SetStatus? || e.Copy? || e.Give?
    ensures SlotClean(s', i)
  {
    assert SlotClean(s, i);
  }

  lemma DisorderLeavesDirt(s: State, e: Step, s': State)
    requires Next(s, e, s') && Structure(s') && Clean(s) && !Orderly(s, e)
    ensures !Clean(s')
  {
    match e
    case Deliver(r) =>
      var i := FindMatch(s.table.slots, r.msgId, r.opId);
      assert !SlotClean(s', i);
    case Send(c, err) =>
      assert SlotOf(s, c);
      assert !SlotClean(s', s.calls[c].slot);
    case Expire(c) =>
      assert SlotOf(s, c);
      assert !SlotClean(s', s.calls[c].slot);
    case _ => assert false;
  }

  /** From a clean state, a step leads to a clean state if and only if it is orderly. */
  lemma CleanIffOrderly(s: State, e: Step, s': State)
    requires Next(s, e, s') && Clean(s)
    ensures Structure(s')
    ensures Clean(s') <==> Orderly(s, e)
  {
    StructureStep(s, e, s');
    if Orderly(s, e) {
      forall i | 0 <= i < MAX_INFLIGHT
        ensures SlotClean(s', i)
      {
        match e
        case Reserve(_, _, _, _, _) | Deliver(_) | SetStatus | Copy | Give => ResponderKeepsClean(s, e, s', i);
        case _ => CallerKeepsClean(s, e, s', i);
      }
    } else {
      DisorderLeavesDirt(s, e, s');
    }
  }

  // ------------------------------------------------------------------ one answer per call

  /** Status, length and bytes are all those of one reply, and the buffer behind them is as the caller left it. */
  predicate AllFrom(call: Call, r: Reply, status: int, n: nat, data: seq<byte>) {
    && status == r.status && n == Room(call, r) && n <= |data| == |call.given|
    && data[..n] == r.body[..n] && data[n..] == call.given[n..]
  }

  ghost predicate Served(s: State, c: nat)
    requires Structure(s) && c in s.calls
  {
    var call := s.calls[c];
    && (call.InFlight() ==>
          assert SlotOf(s, c);
          var slot := s.table.slots[call.slot];
          var data := s.table.bufs[c];
          && (call.BeforeTake() ==>
                if slot.done then |call.accepted| == 1 && AllFrom(call, call.accepted[0], slot.status, slot.outLen, data)
                else if s.Responding(call.slot) then
                  && call.accepted == [s.resp.reply]
                  && (!s.resp.Matched? ==> slot.status == s.resp.reply.status)
                  && (if s.resp.BodyCopied? then AllFrom(call, s.resp.reply, slot.status, slot.outLen, data)
                      else slot.outLen == 0 && data == call.given)
                else call.accepted == [] && slot.outLen == 0 && data == call.given)
          && (call.AfterTake() ==>
                |call.accepted| == 1 && AllFrom(call, call.accepted[0], slot.status, slot.outLen, data))
          && (call.phase.GotStatus? || call.phase.GotLen? ==> call.phase.status == slot.status)
          && (call.phase.GotLen? ==> call.phase.outLen == slot.outLen))
    && (call.phase.Returned? && call.phase.outcome.Answer? ==>
          var o := call.phase.outcome;
          |call.accepted| == 1 && AllFrom(call, call.accepted[0], o.status, o.outLen, o.data))
  }

  lemma ServedDeliver(s: State, r: Reply, s': State, c: nat)
    requires Next(s, Deliver(r), s') && Structure(s') && Clean(s) && Orderly(s, Deliver(r))
    requires c in s.calls && Served(s, c)
    ensures Served(s', c)
  {
    if s.calls[c].InFlight() {
      assert SlotOf(s, c);
    }
  }

  lemma ServedRespond(s: State, e: Step, s': State, c: nat)
    requires Next(s, e, s') && Structure(s') && Clean(s) && (e.SetStatus? || e.Give?)
    requires c in s.calls && Served(s, c)
    ensures Served(s', c)
  {
    assert SlotClean(s, s.resp.slot);
    if s.calls[c].InFlight() {
      assert SlotOf(s, c) && SlotOf(s', c);
    }
  }

  lemma ServedCopy(s: State, s': State, c: nat)
    requires Next(s, Copy, s') && Structure(s') && Clean(s)
    requires c in s.calls && Served(s, c)
    ensures Served(s', c)
  {
    var i, r := s.resp.slot, s.resp.reply;
    assert SlotClean(s, i);
    assert HasRoom(s.table.slots[i], s.table.bufs);
    if s.calls[c].InFlight() {
      assert SlotOf(s, c) && SlotOf(s', c);
      if s.calls[c].slot == i && s.calls[c].hasBuf && r.body != [] {
        assert s'.table.bufs[c] == Copied(s.table.bufs[c], s.calls[c].cap, r.body);
      }
    }
  }

  /** All that `Served` says of a call: the call, its slot, its buffer and the response under way. */
  ghost predicate Untouched(s: State, s': State, c: nat)
    requires Structure(s) && Structure(s') && c in s.calls
  {
    && c in s'.calls && s'.calls[c] == s.calls[c] && s'.resp == s.resp
    && (s.calls[c].InFlight() ==>
          assert SlotOf(s, c) && SlotOf(s', c);
          s'.table.slots[s.calls[c].slot] == s.table.slots[s.calls[c].slot] && s'.table.bufs[c] == s.table.bufs[c])
  }

  lemma UntouchedServed(s: State, s': State, c: nat)
    requires Structure(s) && Structure(s') && c in s.calls && Untouched(s, s', c) && Served(s, c)
    ensures Served(s', c)
  {
  }

  lemma OtherUntouched(s: State, e: Step, s': State, c: nat)
    requires Next(s, e, s') && Structure(s') && c in s.calls
    requires !e.Deliver? && !e.SetStatus? && !e.Copy? && !e.Give? && e.c != c
    ensures Untouched(s, s', c)
  {
    if s.calls[c].InFlight() {
      assert SlotOf(s, c);
      if e.Return? || e.Take? {
        assert SlotOf(s, e.c) && s.calls[e.c].slot != s.calls[c].slot;
      } else if e.Reserve? {
        assert FindFree(s.table.slots) != s.calls[c].slot;
      }
    }
  }

  lemma ServedOther(s: State, e: Step, s': State, c: nat)
    requires Next(s, e, s') && Structure(s') && c in s.calls && Served(s, c)
    requires !e.Deliver? && !e.SetStatus? && !e.Copy? && !e.Give? && e.c != c
    ensures Served(s', c)
  {
    OtherUntouched(s, e, s', c);
    UntouchedServed(s, s', c);
  }

  lemma ServedCaller(s: State, e: Step, s': State)
    requires Next(s, e, s') && Structure(s') && Clean(s)
    requires e.Send? || e.Take? || e.Expire? || e.ReadStatus? || e.ReadLen? || e.Return?
    requires Served(s, e.c)
    ensures Served(s', e.c)
  {
    assert SlotOf(s, e.c);
    assert SlotClean(s, s.calls[e.c].slot);
    if s'.calls[e.c].InFlight() {
      assert SlotOf(s', e.c);
    }
  }

  lemma ServedNew(s: State, e: Step, s': State)
    requires Next(s, e, s') && Structure(s') && Clean(s) && e.Reserve?
    ensures Served(s', e.c)
  {
    var i := FindFree(s.table.slots);
    if i != -1 {
      assert SlotClean(s, i);
    }
  }

  ghost predicate AllServed(s: State) {
    Structure(s) && Clean(s) && forall c :: c in s.calls ==> Served(s, c)
  }

  ghost predicate OrderlyNext(s: State, e: Step, s': State) {
    Next(s, e, s') && Orderly(s, e)
  }

  lemma AllServedStep(s: State, e: Step, s': State)
    requires AllServed(s) && OrderlyNext(s, e, s')
    ensures AllServed(s')
  {
    CleanIffOrderly(s, e, s');
    forall c | c in s'.calls
      ensures Served(s', c)
    {
      match e
      case Deliver(r) => ServedDeliver(s, r, s', c);
      case SetStatus | Give => ServedRespond(s, e, s', c);
      case Copy => ServedCopy(s, s', c);
      case Reserve(d, _, _, _, _) => if d == c { ServedNew(s, e, s'); } else { ServedOther(s, e, s', c); }
      case _ => if e.c == c { ServedCaller(s, e, s'); } else { ServedOther(s, e, s', c); }
    }
  }

  /**
   In a run of orderly steps no free slot ever holds a token, a call past its take has accepted
   exactly one reply, and a call that returns an answer returns all of that one reply: its status, as many
   bytes of its body as the buffer has room for and their number, with the buffer behind them untouched.
   */
  lemma OrderlyRunsAnswerExactly(states: seq<State>, steps: seq<Step>, i: nat)
    requires IsRun(OrderlyNext, states, steps) && states[0] == START && i < |states|
    ensures Structure(states[i])
    ensures forall k :: 0 <= k < MAX_INFLIGHT && !states[i].table.slots[k].inUse ==> !states[i].table.slots[k].done
    ensures forall c :: c in states[i].calls && states[i].calls[c].AfterTake() ==> |states[i].calls[c].accepted| == 1
    ensures forall c, r :: c in states[i].calls && r in states[i].calls[c].accepted ==> Own(states[i].calls[c], r)
    ensures forall c :: c in states[i].calls && states[i].calls[c].phase.Returned? && states[i].calls[c].phase.outcome.Answer? ==>
              var call := states[i].calls[c];
              var o := call.phase.outcome;
              && |call.accepted| == 1 && o.status == call.accepted[0].status
              && o.outLen == (if !call.hasBuf then 0 else Min(|call.accepted[0].body|, call.cap))
              && o.outLen <= |o.data| == |call.given|
              && o.data[..o.outLen] == call.accepted[0].body[..o.outLen] && o.data[o.outLen..] == call.given[o.outLen..]
  {
    forall s, e, s' | AllServed(s) && OrderlyNext(s, e, s')
      ensures AllServed(s')
    {
      AllServedStep(s, e, s');
    }
    Invariance(OrderlyNext, AllServed, states, steps);
    var s := states[i];
    assert AllServed(s);
    forall k | 0 <= k < MAX_INFLIGHT && !s.table.slots[k].inUse
      ensures !s.table.slots[k].done
    {
      assert SlotClean(s, k);
    }
    CorrelatedInEveryRun(states, steps, i);
    forall c | c in s.calls
      ensures Served(s, c) && CallTrue(s, c)
    {
    }
  }

  // ------------------------------------------------------------------ runs that are not orderly

  ghost predicate Reached(s: State) {
    Reachable(Next, START, s)
  }

  lemma Go(s: State, e: Step) returns (s': State)
    requires Reached(s) && Structure(s) && Enabled(s, e)
    ensures Reached(s') && Structure(s') && s' == Apply(s, e)
  {
    s' := Apply(s, e);
    Extend(Next, START, s, e, s');
    StructureStep(s, e, s');
  }

  /** Call 0 alone, in slot 0, with `r` as the one reply it may have accepted. */
  function Alone(done: bool, status: int, inUse: bool, phase: Phase, accepted: seq<Reply>, resp: Responder): State {
    State(Table([Slot(done, 1, 7, 0, false, 0, 0, status, inUse), FREE_SLOT, FREE_SLOT, FREE_SLOT], 2, map[0 := []]),
          1, resp, map[0 := Call(0, 0, 7, false, 0, [], phase, accepted)])
  }

  /** The state left by a call whose answer was accepted but that never took its token. */
  function Abandoned(r: Reply, outcome: Outcome): State {
    Alone(true, r.status, false, Returned(outcome), [r], Idle)
  }

  lemma ReservedAlone() returns (s: State)
    ensures s == Alone(false, ESP_FAIL, true, Sending, [], Idle) && Reached(s) && Structure(s)
  {
    Here(Next, START);
    s := Go(START, Reserve(0, 7, false, 0, []));
  }

  lemma AnsweredAlone(s: State, r: Reply, phase: Phase) returns (t: State)
    requires r == Reply(7, 1, 0, []) && !phase.Returned?
    requires s == Alone(false, ESP_FAIL, true, phase, [], Idle) && Reached(s) && Structure(s)
    ensures t == Alone(false, 0, true, phase, [r], BodyCopied(0, r)) && Reached(t) && Structure(t)
  {
    assert Waits(s.table.slots[0], r.msgId, r.opId);
    assert FindMatch(s.table.slots, r.msgId, r.opId) == 0;
    t := Go(s, Deliver(r));
    assert s.calls[0].accepted + [r] == [r];
    assert t == Alone(false, ESP_FAIL, true, phase, [r], Matched(0, r));
    t := Go(t, SetStatus);
    t := Go(t, Copy);
  }

  lemma GiveThenReturn(s: State, r: Reply) returns (t: State)
    requires r == Reply(7, 1, 0, [])
    requires s == Alone(false, 0, true, TimedOut, [r], BodyCopied(0, r)) && Reached(s) && Structure(s)
    ensures t == Abandoned(r, Timeout) && Reached(t) && Structure(t)
  {
    t := Go(s, Give);
    assert t == Alone(true, 0, true, TimedOut, [r], Idle);
    t := Go(t, Return(0));
  }

  /** Giving up on a wait while the answer is being written leaves a token in a free slot. */
  lemma ExpiryLeavesToken(r: Reply) returns (s: State)
    requires r == Reply(7, 1, 0, [])
    ensures s == Abandoned(r, Timeout) && Reached(s) && Structure(s)
  {
    s := ReservedAlone();
    s := Go(s, Send(0, 0));
    assert s == Alone(false, ESP_FAIL, true, Waiting, [], Idle);
    s := AnsweredAlone(s, r, Waiting);
    s := Go(s, Expire(0));
    s := GiveThenReturn(s, r);
  }

  /** So does a send that reports failure after its answer has come. */
  lemma FailedSendLeavesToken(r: Reply) returns (s: State)
    requires r == Reply(7, 1, 0, [])
    ensures s == Abandoned(r, SendError(1)) && Reached(s) && Structure(s)
  {
    s := ReservedAlone();
    s := AnsweredAlone(s, r, Sending);
    s := GiveThenFail(s, r);
  }

  lemma GiveThenFail(s: State, r: Reply) returns (t: State)
    requires r == Reply(7, 1, 0, [])
    requires s == Alone(false, 0, true, Sending, [r], BodyCopied(0, r)) && Reached(s) && Structure(s)
    ensures t == Abandoned(r, SendError(1)) && Reached(t) && Structure(t)
  {
    t := Go(s, Give);
    assert t == Alone(true, 0, true, Sending, [r], Idle);
    t := Go(t, Send(0, 1));
    assert t == Alone(true, 0, true, SendFailed(1), [r], Idle);
    t := Go(t, Return(0));
  }

  /**
   Whichever way the token was left, the slot's next call takes it at once and returns the reset
   value ESP_FAIL with nothing received, although no reply to it was ever accepted.
   */
  lemma StaleTokenAnswersNextCall(s: State, r: Reply, outcome: Outcome) returns (t: State)
    requires s == Abandoned(r, outcome) && Reached(s) && Structure(s)
    ensures Reached(t) && 1 in t.calls && t.calls[1].accepted == []
    ensures t.calls[1].phase == Returned(Answer(ESP_FAIL, 0, []))
  {
    t := Go(s, Reserve(1, 7, false, 0, []));
    t := Go(t, Send(1, 0));
    t := Go(t, Take(1));
    t := Go(t, ReadStatus(1));
    t := Go(t, ReadLen(1));
    t := Go(t, Return(1));
  }
}
