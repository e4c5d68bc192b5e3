/**
 What a caller of the host dispatcher may conclude from what it gets back, over every run: the
 answer comes from replies to its own op_id, and, when the steps are orderly, from exactly one.
 */
module PhyRpcCorrelation {
  import opened Bytes
  import opened PhyRpcTable
  import opened PhyRpc
  import opened Runs

  // ------------------------------------------------------------------ correlation in every run

  predicate Own(call: Call, r: Reply) {
    r.opId == call.OpId() && r.msgId == call.want
  }

  ghost predicate StatusFrom(call: Call, status: int) {
    status == ESP_FAIL || exists r :: r in call.accepted && r.status == status
  }

  /** How many bytes of a reply a call has room for: none without a buffer, else all that fit it. */
  function Room(call: Call, r: Reply): nat {
    if !call.hasBuf then 0 else if |r.body| <= call.cap then |r.body| else call.cap
  }

  ghost predicate LenFrom(call: Call, n: nat) {
    n == 0 || exists r :: r in call.accepted && n == Room(call, r)
  }

  /** The buffer starts with what one of the call's replies has room to put there. */
  ghost predicate DataFrom(call: Call, data: seq<byte>) {
    exists r :: r in call.accepted && 0 < Room(call, r) <= |data| && data[..Room(call, r)] == r.body[..Room(call, r)]
  }

  /** A byte of the buffer is as the caller left it, or the one of an accepted reply that reaches that far. */
  ghost predicate ByteFrom(call: Call, data: seq<byte>, k: nat)
    requires k < |data| == |call.given|
  {
    data[k] == call.given[k] || exists r :: r in call.accepted && k < Room(call, r) && data[k] == r.body[k]
  }

  ghost predicate BytesFrom(call: Call, data: seq<byte>) {
    |data| == |call.given| && forall k: nat :: k < |data| ==> ByteFrom(call, data, k)
  }

  ghost predicate AnswerTrue(call: Call, status: int, n: nat, data: seq<byte>) {
    StatusFrom(call, status) && LenFrom(call, n) && (n > 0 ==> DataFrom(call, data)) && BytesFrom(call, data)
  }

  ghost predicate CallTrue(s: State, c: nat)
    requires Structure(s) && c in s.calls
  {
    var call := s.calls[c];
    && (forall r :: r in call.accepted ==> Own(call, r))
    && (call.InFlight() ==>
          assert SlotOf(s, c);
          var slot := s.table.slots[call.slot];
          && AnswerTrue(call, slot.status, slot.outLen, s.table.bufs[c])
          && (call.phase.GotStatus? || call.phase.GotLen? ==> StatusFrom(call, call.phase.status))
          && (call.phase.GotLen? ==> LenFrom(call, call.phase.outLen) && (call.phase.outLen > 0 ==> slot.outLen > 0)))
    && (call.phase.Returned? && call.phase.outcome.Answer? ==>
          AnswerTrue(call, call.phase.outcome.status, call.phase.outcome.outLen, call.phase.outcome.data))
  }

  /** The reply being written was accepted for whoever still holds its slot. */
  ghost predicate ResponderTrue(s: State)
    requires Structure(s)
  {
    !s.resp.Idle? && s.table.slots[s.resp.slot].inUse ==> s.resp.reply in s.calls[s.table.slots[s.resp.slot].owner].accepted
  }

  ghost predicate Correlated(s: State) {
    Structure(s) && ResponderTrue(s) && forall c :: c in s.calls ==> CallTrue(s, c)
  }

  /** What an answer is traced to: a later phase keeps all of it, and more accepted replies take nothing back. */
  ghost predicate Remembers(call: Call, call': Call) {
    && call'.hasBuf == call.hasBuf && call'.cap == call.cap && call'.given == call.given
    && forall r :: r in call.accepted ==> r in call'.accepted
  }

  lemma AnswerKept(call: Call, call': Call, status: int, n: nat, data: seq<byte>)
    requires AnswerTrue(call, status, n, data) && Remembers(call, call')
    ensures AnswerTrue(call', status, n, data)
  {
    assert forall r :: Room(call', r) == Room(call, r);
    forall k: nat | k < |data| ensures ByteFrom(call', data, k) {
      assert ByteFrom(call, data, k);
    }
  }

  lemma StatusGrows(call: Call, r: Reply, status: int)
    requires StatusFrom(call, status)
    ensures StatusFrom(call.(accepted := call.accepted + [r]), status)
  {
    assert forall x :: x in call.accepted ==> x in call.accepted + [r];
  }

  lemma LenGrows(call: Call, r: Reply, n: nat)
    requires LenFrom(call, n)
    ensures LenFrom(call.(accepted := call.accepted + [r]), n)
  {
    var call' := call.(accepted := call.accepted + [r]);
    assert forall x :: x in call.accepted ==> x in call'.accepted && Room(call', x) == Room(call, x);
  }

  lemma DeliverCall(s: State, r: Reply, s': State, c: nat)
    requires Next(s, Deliver(r), s') && Structure(s') && c in s.calls && CallTrue(s, c)
    ensures CallTrue(s', c)
  {
    var call, call' := s.calls[c], s'.calls[c];
    if call' != call {
      assert SlotOf(s, c);
      assert call' == call.(accepted := call.accepted + [r]);
      var slot := s.table.slots[call.slot];
      AnswerKept(call, call', slot.status, slot.outLen, s.table.bufs[c]);
      if call.phase.GotStatus? || call.phase.GotLen? {
        StatusGrows(call, r, call.phase.status);
      }
      if call.phase.GotLen? {
        LenGrows(call, r, call.phase.outLen);
      }
    }
  }

  lemma SetStatusCall(s: State, s': State, c: nat)
    requires Next(s, SetStatus, s') && Structure(s') && ResponderTrue(s) && c in s.calls && CallTrue(s, c)
    ensures CallTrue(s', c)
  {
    if s.calls[c].InFlight() {
      assert SlotOf(s, c);
    }
  }

  /** What the copy of an accepted reply leaves is traceable again. */
  lemma CopyTrue(call: Call, r: Reply, status: int, n: nat, data: seq<byte>)
    requires r in call.accepted && call.hasBuf && r.body != [] && call.cap <= |data|
    requires AnswerTrue(call, status, n, data)
    ensures AnswerTrue(call, status, CopyLen(call.cap, r.body), Copied(data, call.cap, r.body))
  {
    var data' := Copied(data, call.cap, r.body);
    assert CopyLen(call.cap, r.body) == Room(call, r);
    forall k: nat | k < |data'| ensures ByteFrom(call, data', k) {
      assert ByteFrom(call, data, k);
      assert k >= Room(call, r) ==> data'[k] == data[k];
    }
  }

  lemma CopyCall(s: State, s': State, c: nat)
    requires Next(s, Copy, s') && Structure(s') && ResponderTrue(s) && c in s.calls && CallTrue(s, c)
    ensures CallTrue(s', c)
  {
    if s.calls[c].InFlight() {
      assert SlotOf(s, c) && SlotOf(s', c);
      var i, r, call := s.resp.slot, s.resp.reply, s.calls[c];
      assert HasRoom(s.table.slots[i], s.table.bufs);
      if call.slot == i && call.hasBuf && r.body != [] {
        CopyTrue(call, r, s.table.slots[i].status, s.table.slots[i].outLen, s.table.bufs[c]);
        assert s'.table.bufs[c] == Copied(s.table.bufs[c], call.cap, r.body);
      } else {
        assert s'.table.slots[call.slot] == s.table.slots[call.slot];
        assert s'.table.bufs[c] == s.table.bufs[c];
      }
    }
  }

  /** A call whose slot, buffer and record of replies a step leaves alone stays true if its phase does. */
  lemma UntouchedCall(s: State, s': State, c: nat)
    requires Structure(s) && Structure(s') && c in s.calls && c in s'.calls && s.calls[c].InFlight()
    requires SlotOf(s, c) && CallTrue(s, c)
    requires s'.calls[c] == s.calls[c]
    requires s'.table.slots[s.calls[c].slot].status == s.table.slots[s.calls[c].slot].status
    requires s'.table.slots[s.calls[c].slot].outLen == s.table.slots[s.calls[c].slot].outLen
    requires c in s'.table.bufs && s'.table.bufs[c] == s.table.bufs[c]
    ensures CallTrue(s', c)
  {
    assert SlotOf(s', c);
  }

  lemma MovedCall(s: State, e: Step, s': State)
    requires Next(s, e, s') && Structure(s')
    requires e.Send? || e.Take? || e.Expire? || e.ReadStatus? || e.ReadLen?
    requires CallTrue(s, e.c)
    ensures CallTrue(s', e.c)
  {
    assert SlotOf(s, e.c) && SlotOf(s', e.c);
    var slot := s.table.slots[s.calls[e.c].slot];
    AnswerKept(s.calls[e.c], s'.calls[e.c], slot.status, slot.outLen, s.table.bufs[e.c]);
  }

  /** Status and length are read apart, so they may come from different replies. */
  lemma ReadKept(call: Call, call': Call, status: int, n: nat, data: seq<byte>)
    requires AnswerTrue(call, status, n, data) && Remembers(call, call') && call.phase.GotLen?
    requires StatusFrom(call, call.phase.status) && LenFrom(call, call.phase.outLen) && (call.phase.outLen > 0 ==> n > 0)
    ensures AnswerTrue(call', call.phase.status, call.phase.outLen, data)
  {
    assert AnswerTrue(call, call.phase.status, call.phase.outLen, data);
    AnswerKept(call, call', call.phase.status, call.phase.outLen, data);
  }

  lemma ReturnedCall(s: State, c: nat, s': State)
    requires Next(s, Return(c), s') && Structure(s') && CallTrue(s, c)
    ensures CallTrue(s', c)
  {
    assert SlotOf(s, c);
    var call, slot := s.calls[c], s.table.slots[s.calls[c].slot];
    AnswerKept(call, s'.calls[c], slot.status, slot.outLen, s.table.bufs[c]);
    if call.phase.GotLen? {
      ReadKept(call, s'.calls[c], slot.status, slot.outLen, s.table.bufs[c]);
    }
  }

  /** Takes and returns of other calls touch nothing a call relies on. */
  lemma OtherReleases(s: State, e: Step, s': State, c: nat)
    requires Next(s, e, s') && Structure(s') && c in s.calls && s.calls[c].InFlight() && CallTrue(s, c)
    requires (e.Return? || e.Take?) && e.c != c
    ensures CallTrue(s', c)
  {
    assert SlotOf(s, c) && SlotOf(s, e.c) && s.calls[e.c].slot != s.calls[c].slot;
    UntouchedCall(s, s', c);
  }

  lemma OtherReserves(s: State, e: Step, s': State, c: nat)
    requires Next(s, e, s') && Structure(s') && c in s.calls && s.calls[c].InFlight() && CallTrue(s, c)
    requires e.Reserve?
    ensures CallTrue(s', c)
  {
    assert SlotOf(s, c) && FindFree(s.table.slots) != s.calls[c].slot;
    UntouchedCall(s, s', c);
  }

  /** Reservations, gives and other callers' steps touch nothing a call relies on. */
  lemma OtherCall(s: State, e: Step, s': State, c: nat)
    requires Next(s, e, s') && Structure(s') && c in s.calls && s.calls[c].InFlight() && CallTrue(s, c)
    requires !e.Deliver? && !e.SetStatus? && !e.Copy? && (e.Give? || e.c != c)
    ensures CallTrue(s', c)
  {
    if e.Return? || e.Take? {
      OtherReleases(s, e, s', c);
    } else if e.Reserve? {
      OtherReserves(s, e, s', c);
    } else {
      assert SlotOf(s, c);
      UntouchedCall(s, s', c);
    }
  }

  lemma CallerCall(s: State, e: Step, s': State, c: nat)
    requires Next(s, e, s') && Structure(s') && c in s.calls && CallTrue(s, c)
    requires !e.Deliver? && !e.SetStatus? && !e.Copy?
    ensures CallTrue(s', c)
  {
    if !s.calls[c].InFlight() {
      assert s'.calls[c] == s.calls[c];
    } else if e.Give? || e.c != c {
      OtherCall(s, e, s', c);
    } else if e.Return? {
      ReturnedCall(s, c, s');
    } else {
      MovedCall(s, e, s');
    }
  }

  /** The responder's reply stays accepted where its slot keeps its owner and the owner forgets nothing. */
  lemma ResponderKept(s: State, s': State)
    requires Structure(s) && ResponderTrue(s) && Structure(s')
    requires !s'.resp.Idle? ==> !s.resp.Idle? && s'.resp.slot == s.resp.slot && s'.resp.reply == s.resp.reply
    requires !s'.resp.Idle? && s'.table.slots[s'.resp.slot].inUse ==>
               var c := s'.table.slots[s'.resp.slot].owner;
               && s.table.slots[s'.resp.slot].inUse && s.table.slots[s'.resp.slot].owner == c
               && forall r :: r in s.calls[c].accepted ==> r in s'.calls[c].accepted
    ensures ResponderTrue(s')
  {
  }

  lemma DeliverResponder(s: State, r: Reply, s': State)
    requires Next(s, Deliver(r), s') && Structure(s') && ResponderTrue(s)
    ensures ResponderTrue(s')
  {
    if !s'.resp.Idle? {
      var c := s.table.slots[s'.resp.slot].owner;
      assert s'.calls[c].accepted == s.calls[c].accepted + [r];
    }
  }

  lemma ReturnResponder(s: State, e: Step, s': State)
    requires Next(s, e, s') && Structure(s') && ResponderTrue(s) && e.Return?
    ensures ResponderTrue(s')
  {
    assert SlotOf(s, e.c);
    ResponderKept(s, s');
  }

  lemma WrittenResponder(s: State, e: Step, s': State)
    requires Next(s, e, s') && Structure(s') && ResponderTrue(s)
    requires (e.SetStatus? || e.Copy? || e.Give?) && SameShape(s, s')
    ensures ResponderTrue(s')
  {
    if !s'.resp.Idle? {
      assert SameRequest(s.table.slots[s'.resp.slot], s'.table.slots[s'.resp.slot]);
      ResponderKept(s, s');
    }
  }

  lemma CallerLeavesReplies(s: State, e: Step, s': State)
    requires Next(s, e, s') && (e.Send? || e.Take? || e.Expire? || e.ReadStatus? || e.ReadLen?)
    ensures s'.resp == s.resp && forall c :: c in s.calls ==> c in s'.calls && s'.calls[c].accepted == s.calls[c].accepted
  {
  }

  lemma SameReplies(s: State, s': State)
    requires Structure(s) && Structure(s') && ResponderTrue(s) && SameShape(s, s')
    requires s'.resp == s.resp && forall c :: c in s.calls ==> c in s'.calls && s'.calls[c].accepted == s.calls[c].accepted
    ensures ResponderTrue(s')
  {
    if !s.resp.Idle? {
      assert SameRequest(s.table.slots[s.resp.slot], s'.table.slots[s.resp.slot]);
    }
  }

  lemma CallerResponder(s: State, e: Step, s': State)
    requires Next(s, e, s') && Structure(s') && ResponderTrue(s)
    requires (e.Send? || e.Take? || e.Expire? || e.ReadStatus? || e.ReadLen?) && SameShape(s, s')
    ensures ResponderTrue(s')
  {
    CallerLeavesReplies(s, e, s');
    SameReplies(s, s');
  }

  lemma ResponderStep(s: State, e: Step, s': State)
    requires Correlated(s) && Next(s, e, s') && Structure(s')
    ensures ResponderTrue(s')
  {
    match e
    case Deliver(r) => DeliverResponder(s, r, s');
    case Reserve(_, _, _, _, _) => assert s'.resp.Idle?;
    case Return(_) => ReturnResponder(s, e, s');
    case SetStatus | Copy | Give =>
      SameShapeOf(s, e, s');
      WrittenResponder(s, e, s');
    case _ =>
      SameShapeOf(s, e, s');
      CallerResponder(s, e, s');
  }

  lemma CorrelatedStep(s: State, e: Step, s': State)
    requires Correlated(s) && Next(s, e, s')
    ensures Correlated(s')
  {
    StructureStep(s, e, s');
    ResponderStep(s, e, s');
    forall c | c in s'.calls
      ensures CallTrue(s', c)
    {
      if c !in s.calls {
        assert e.Reserve? && s'.calls[c].accepted == [];
      } else {
        match e
        case Deliver(r) => DeliverCall(s, r, s', c);
        case SetStatus => SetStatusCall(s, s', c);
        case Copy => CopyCall(s, s', c);
        case _ => CallerCall(s, e, s', c);
      }
    }
  }

  lemma CorrelatedInEveryRun(states: seq<State>, steps: seq<Step>, i: nat)
    requires IsRun(Next, states, steps) && states[0] == START && i < |states|
    ensures Correlated(states[i])
  {
    forall s, e, s' | Correlated(s) && Next(s, e, s')
      ensures Correlated(s')
    {
      CorrelatedStep(s, e, s');
    }
    Invariance(Next, Correlated, states, steps);
  }

  /**
   In every run, a call that got past its take and returns anything but the reset value returns the
   status of a reply carrying its own op_id and response id; a length it reports is all of such a reply's
   body that fits its buffer, and then its buffer starts with the bytes of such a reply; and every byte of
   the buffer is as the caller left it or comes from a reply that reaches that far.
   */
  lemma CorrelationInEveryRun(states: seq<State>, steps: seq<Step>, i: nat, c: nat)
    requires IsRun(Next, states, steps) && states[0] == START && i < |states|
    requires c in states[i].calls && states[i].calls[c].phase.Returned?
    requires states[i].calls[c].phase.outcome.Answer?
    ensures var call := states[i].calls[c];
            && (forall r :: r in call.accepted ==> Own(call, r))
            && AnswerTrue(call, call.phase.outcome.status, call.phase.outcome.outLen, call.phase.outcome.data)
  {
    CorrelatedInEveryRun(states, steps, i);
    assert CallTrue(states[i], c);
  }
}
