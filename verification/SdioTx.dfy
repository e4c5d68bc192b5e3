/**
 Sending over SDIO (slave/main/sdio_slave_api.c): TX credits, pool blocks and their owners.

 Each send, from `sdio_write` or `generate_startup_event`, is a numbered message holding one pool
 block. Writers, the driver and `sdio_tx_done_task` move messages from stage to stage.
 */
module SdioTx {
  import opened Runs

  const ESP_FAIL := -1

  datatype Stage =
    | HasBlock   // allocated, waiting on sdio_send_queue_sem
    | HasCredit  // credit taken, about to call sdio_slave_send_queue
    | MustGive   // send failed, credit not yet given back
    | MustFree   // send failed, block not yet freed
    | InDriver | Finished
    | Collected  // with sdio_tx_done_task, credit not yet given
    | Credited   // with sdio_tx_done_task, block not yet freed

  predicate HoldsCredit(p: Stage) {
    p.HasCredit? || p.MustGive? || p.InDriver? || p.Finished? || p.Collected?
  }

  predicate InSendFunction(p: Stage) {
    p.HasBlock? || p.HasCredit? || p.MustGive? || p.MustFree?
  }

  predicate WithDriver(p: Stage) {
    p.InDriver? || p.Finished?
  }

  predicate WithDoneTask(p: Stage) {
    p.Collected? || p.Credited?
  }

  /** `queueSize` is SDIO_DRIVER_TX_QUEUE_SIZE; `leaked` counts startup sends that failed. */
  datatype State = State(queueSize: nat, sem: nat, poolUsed: nat, stage: map<nat, Stage>, startup: set<nat>, leaked: nat) {
    /** The messages in the stages `w` picks. */
    function In(w: Stage -> bool): set<nat> {
      set i | i in stage && w(stage[i])
    }
  }

  datatype Step =
    | Alloc(id: nat, isStartup: bool) | TakeCredit(id: nat) | Send(id: nat, ok: bool)
    | GiveBack(id: nat) | Free(id: nat) | Transmitted(id: nat) | Collect(id: nat) | GiveDone(id: nat)

  predicate On(s: State, id: nat, p: Stage) {
    id in s.stage && s.stage[id] == p
  }

  predicate Enabled(s: State, e: Step) {
    match e
    case Alloc(id, _) => id !in s.stage && id !in s.startup
    case TakeCredit(id) => On(s, id, HasBlock) && s.sem > 0
    case Send(id, _) => On(s, id, HasCredit)
    case GiveBack(id) => On(s, id, MustGive)
    case Free(id) => On(s, id, MustFree) || On(s, id, Credited)
    case Transmitted(id) => On(s, id, InDriver)
    case Collect(id) => On(s, id, Finished) && s.In(WithDoneTask) == {}
    case GiveDone(id) => On(s, id, Collected)
  }

  function Apply(s: State, e: Step): State
    requires Enabled(s, e)
  {
    match e
    case Alloc(id, isStartup) =>
      s.(poolUsed := s.poolUsed + 1, stage := s.stage[id := HasBlock], startup := if isStartup then s.startup + {id} else s.startup)
    case TakeCredit(id) => s.(sem := s.sem - 1, stage := s.stage[id := HasCredit])
    case Send(id, ok) =>
      if ok then s.(stage := s.stage[id := InDriver])
      else if id in s.startup then s.(stage := s.stage[id := MustFree], leaked := s.leaked + 1)
      else s.(stage := s.stage[id := MustGive])
    case GiveBack(id) => s.(sem := s.sem + 1, stage := s.stage[id := MustFree])
    case Free(id) => s.(poolUsed := if s.poolUsed > 0 then s.poolUsed - 1 else 0, stage := s.stage - {id})
    case Transmitted(id) => s.(stage := s.stage[id := Finished])
    case Collect(id) => s.(stage := s.stage[id := Collected])
    case GiveDone(id) => s.(sem := s.sem + 1, stage := s.stage[id := Credited])
  }

  ghost predicate Next(s: State, e: Step, s': State) {
    Enabled(s, e) && s' == Apply(s, e)
  }

  function Start(queueSize: nat): State {
    State(queueSize, queueSize, 0, map[], {}, 0)
  }

  // ------------------------------------------------------------------ conservation

  ghost predicate Conserved(s: State) {
    && s.sem + |s.In(HoldsCredit)| + s.leaked == s.queueSize
    && s.poolUsed == |s.stage|
    && |s.In(WithDoneTask)| <= 1
  }

  lemma Moved(s: State, s': State, id: nat, to: Stage, w: Stage -> bool)
    requires s'.stage == s.stage[id := to]
    ensures |s'.In(w)| == |s.In(w)| - (if id in s.stage && w(s.stage[id]) then 1 else 0) + (if w(to) then 1 else 0)
  {
    forall i ensures i in s'.In(w) - {id} <==> i in s.In(w) - {id} {
    }
    assert s'.In(w) - {id} == s.In(w) - {id};
    assert id in s'.In(w) <==> w(to);
    assert id in s.In(w) <==> id in s.stage && w(s.stage[id]);
    Without(s.In(w), id);
    Without(s'.In(w), id);
  }

  lemma Without(a: set<nat>, id: nat)
    ensures |a| == |a - {id}| + (if id in a then 1 else 0)
  {
  }

  lemma Left(s: State, s': State, id: nat, w: Stage -> bool)
    requires id in s.stage && s'.stage == s.stage - {id}
    ensures |s'.In(w)| == |s.In(w)| - (if w(s.stage[id]) then 1 else 0)
  {
    assert s.In(w) == s'.In(w) + if w(s.stage[id]) then {id} else {};
  }

  lemma FreeConserves(s: State, id: nat, s': State)
    requires Conserved(s) && Next(s, Free(id), s')
    ensures Conserved(s')
  {
    Left(s, s', id, HoldsCredit);
    Left(s, s', id, WithDoneTask);
    assert s'.stage.Keys == s.stage.Keys - {id};
  }

  function Credits(w: bool): nat {
    if w then 1 else 0
  }

  /** Moving one message conserves the credits when semaphore, leak and the message's own credit balance. */
  lemma MoveConserves(s: State, s': State, id: nat, to: Stage)
    requires Conserved(s) && s'.queueSize == s.queueSize && s'.stage == s.stage[id := to]
    requires s'.sem + s'.leaked + Credits(HoldsCredit(to)) ==
             s.sem + s.leaked + Credits(id in s.stage && HoldsCredit(s.stage[id]))
    requires s'.poolUsed == s.poolUsed + Credits(id !in s.stage)
    requires WithDoneTask(to) ==> s.In(WithDoneTask) == {} || On(s, id, Collected)
    ensures Conserved(s')
  {
    Moved(s, s', id, to, HoldsCredit);
    Moved(s, s', id, to, WithDoneTask);
    assert s'.stage.Keys == s.stage.Keys + {id};
  }

  lemma ConservedStep(s: State, e: Step, s': State)
    requires Conserved(s) && Next(s, e, s')
    ensures Conserved(s')
  {
    if e.Free? {
      FreeConserves(s, e.id, s');
    } else {
      MoveConserves(s, s', e.id, s'.stage[e.id]);
    }
  }

  lemma ConservedInEveryRun(states: seq<State>, steps: seq<Step>, queueSize: nat, i: nat)
    requires IsRun(Next, states, steps) && states[0] == Start(queueSize) && i < |states|
    ensures Conserved(states[i])
  {
    forall s, e, s' | Conserved(s) && Next(s, e, s')
      ensures Conserved(s')
    {
      ConservedStep(s, e, s');
    }
    Invariance(Next, Conserved, states, steps);
  }

  function FailedStartups(s: State, e: Step): nat {
    if e.Send? && !e.ok && e.id in s.startup then 1 else 0
  }

  function TotalFailedStartups(states: seq<State>, steps: seq<Step>, n: nat): nat
    requires n <= |steps| <= |states|
  {
    if n == 0 then 0 else TotalFailedStartups(states, steps, n - 1) + FailedStartups(states[n - 1], steps[n - 1])
  }

  lemma {:induction false} LeaksAreFailedStartups(states: seq<State>, steps: seq<Step>, queueSize: nat, i: nat)
    requires IsRun(Next, states, steps) && states[0] == Start(queueSize) && i < |states|
    ensures states[i].leaked == TotalFailedStartups(states, steps, i) && states[i].queueSize == queueSize
  {
    if i > 0 {
      LeaksAreFailedStartups(states, steps, queueSize, i - 1);
      assert Next(states[i - 1], steps[i - 1], states[i]);
    }
  }

  /**
   In every run the credits in the semaphore and those held by writers, the driver and the
   completion task add up to the queue size less one for each startup send that failed. So no give
   overflows the counting semaphore, no send finds the driver's queue full, and the pool never
   holds more than one block beyond the queue size and one per writer.
   */
  lemma CreditsAndPool(states: seq<State>, steps: seq<Step>, queueSize: nat, i: nat)
    requires IsRun(Next, states, steps) && states[0] == Start(queueSize) && i < |states|
    ensures var s := states[i];
            && s.sem + |s.In(HoldsCredit)| == queueSize - TotalFailedStartups(states, steps, i)
            && (forall id :: Enabled(s, GiveBack(id)) || Enabled(s, GiveDone(id)) ==> s.sem < queueSize)
            && (forall id, ok :: Enabled(s, Send(id, ok)) ==> |s.In(WithDriver)| < queueSize)
            && s.poolUsed <= queueSize + 1 + |s.In(InSendFunction)|
  {
    ConservedInEveryRun(states, steps, queueSize, i);
    LeaksAreFailedStartups(states, steps, queueSize, i);
    var s := states[i];
    forall id | Enabled(s, GiveBack(id)) || Enabled(s, GiveDone(id))
      ensures s.sem < queueSize
    {
      assert id in s.In(HoldsCredit);
    }
    forall id, ok | Enabled(s, Send(id, ok))
      ensures |s.In(WithDriver)| < queueSize
    {
      assert id in s.In(HoldsCredit) - s.In(WithDriver);
      assert s.In(HoldsCredit) == s.In(WithDriver) + (s.In(HoldsCredit) - s.In(WithDriver));
    }
    PoolBound(s);
  }

  lemma PoolBound(s: State)
    requires Conserved(s)
    ensures s.poolUsed <= s.queueSize + 1 + |s.In(InSendFunction)|
  {
    var held, hand, writers := s.In(HoldsCredit), s.In(WithDoneTask), s.In(InSendFunction);
    forall id | id in s.stage
      ensures id in (held + hand) + writers
    {
      assert HoldsCredit(s.stage[id]) || WithDoneTask(s.stage[id]) || InSendFunction(s.stage[id]);
    }
    assert s.stage.Keys == (held + hand) + writers;
    Larger(held, hand);
    Larger(held + hand, writers);
  }

  lemma Larger(a: set<nat>, b: set<nat>)
    ensures |a + b| <= |a| + |b|
  {
    assert a + b == a + (b - a);
    assert b == (b - a) + (a * b);
  }

  /** After as many failed startup sends as the queue has entries, nothing is ever sent again. */
  lemma LeaksStarveEverySend(states: seq<State>, steps: seq<Step>, queueSize: nat, i: nat)
    requires IsRun(Next, states, steps) && states[0] == Start(queueSize) && i < |steps|
    requires TotalFailedStartups(states, steps, i) == queueSize
    ensures !steps[i].TakeCredit? && !steps[i].Send?
  {
    assert Next(states[i], steps[i], states[i + 1]);
    if steps[i].Send? {
      SendHoldsCredit(states[i], steps[i].id);
    }
    CreditsAndPool(states, steps, queueSize, i);
  }

  lemma SendHoldsCredit(s: State, id: nat)
    requires On(s, id, HasCredit)
    ensures |s.In(HoldsCredit)| > 0
  {
    assert id in s.In(HoldsCredit);
  }

  // ------------------------------------------------------------------ the pool bound is reached

  ghost predicate Reached(s: State) {
    Reachable(Next, Start(s.queueSize), s)
  }

  lemma Go(s: State, e: Step) returns (s': State)
    requires Reached(s) && Enabled(s, e)
    ensures Reached(s') && s' == Apply(s, e)
  {
    s' := Apply(s, e);
    Extend(Next, Start(s.queueSize), s, e, s');
  }

  lemma SendOne(s: State, id: nat) returns (s': State)
    requires Reached(s) && s.sem > 0 && id !in s.stage && id !in s.startup
    ensures Reached(s')
    ensures s' == s.(sem := s.sem - 1, poolUsed := s.poolUsed + 1, stage := s.stage[id := InDriver])
  {
    s' := Go(s, Alloc(id, false));
    s' := Go(s', TakeCredit(id));
    s' := Go(s', Send(id, true));
    assert s'.stage == s.stage[id := InDriver];
  }

  function AllInDriver(k: nat): map<nat, Stage> {
    map i: nat {:trigger Sent(i)} | 0 <= i < k && Sent(i) :: InDriver
  }

  predicate Sent(i: nat) { true }

  lemma {:induction false} FillDriver(queueSize: nat, k: nat) returns (s: State)
    requires k <= queueSize
    ensures Reached(s) && s == State(queueSize, queueSize - k, k, AllInDriver(k), {}, 0)
  {
    if k == 0 {
      s := Start(queueSize);
      Here(Next, s);
      assert s.stage == AllInDriver(0);
    } else {
      s := FillDriver(queueSize, k - 1);
      s := SendOne(s, k - 1);
      assert Sent(k - 1) && s.stage == AllInDriver(k);
    }
  }

  /** With writers one at a time, the queue size plus two blocks can all be in use at once. */
  lemma PoolSizeIsNeeded(queueSize: nat) returns (s: State)
    requires queueSize > 0
    ensures Reached(s) && s.queueSize == queueSize
    ensures s.poolUsed == queueSize + 2 && |s.In(InSendFunction)| == 1
  {
    s := FillDriver(queueSize, queueSize);
    assert Sent(0);
    s := Go(s, Transmitted(0));
    assert s.In(WithDoneTask) == {};
    s := Go(s, Collect(0));
    s := Go(s, GiveDone(0));
    s := SendOne(s, queueSize);
    s := Go(s, Alloc(queueSize + 1, false));
    assert s.In(InSendFunction) == {queueSize + 1};
  }

  // ------------------------------------------------------------------ every credit can leak

  lemma LeakOne(s: State, id: nat) returns (s': State)
    requires Reached(s) && s.sem > 0 && s.stage == map[] && id !in s.startup
    ensures Reached(s') && s' == s.(sem := s.sem - 1, startup := s.startup + {id}, leaked := s.leaked + 1)
  {
    s' := Go(s, Alloc(id, true));
    s' := Go(s', TakeCredit(id));
    s' := Go(s', Send(id, false));
    s' := Go(s', Free(id));
    assert s'.stage == map[];
  }

  lemma {:induction false} LeakMany(queueSize: nat, k: nat) returns (s: State)
    requires k <= queueSize
    ensures Reached(s) && s.queueSize == queueSize && s.sem == queueSize - k && s.leaked == k
    ensures s.stage == map[] && s.poolUsed == 0 && forall i: nat :: i in s.startup <==> i < k
  {
    if k == 0 {
      s := Start(queueSize);
      Here(Next, s);
    } else {
      s := LeakMany(queueSize, k - 1);
      s := LeakOne(s, k - 1);
    }
  }

  /** For every queue size a run of nothing but failed startup sends leaves no credit: all that is left to do is allocate. */
  lemma EveryCreditCanLeak(queueSize: nat) returns (s: State)
    ensures Reached(s) && s.queueSize == s.leaked == queueSize && s.sem == 0 && s.stage == map[]
    ensures forall e :: Enabled(s, e) ==> e.Alloc?
  {
    s := LeakMany(queueSize, queueSize);
  }

  // ------------------------------------------------------------------ in place

  function Started(s: State, id: nat, isStartup: bool): State
    requires Enabled(s, Alloc(id, isStartup)) && s.sem > 0
  {
    Apply(Apply(s, Alloc(id, isStartup)), TakeCredit(id))
  }

  lemma SentNet(s: State, id: nat, isStartup: bool)
    requires Enabled(s, Alloc(id, isStartup)) && s.sem > 0
    ensures Apply(Started(s, id, isStartup), Send(id, true)) ==
            s.(sem := s.sem - 1, poolUsed := s.poolUsed + 1, stage := s.stage[id := InDriver],
               startup := if isStartup then s.startup + {id} else s.startup)
  {
    assert s.stage[id := HasBlock][id := HasCredit][id := InDriver] == s.stage[id := InDriver];
  }

  lemma FailedNet(s: State, id: nat)
    requires Enabled(s, Alloc(id, false)) && s.sem > 0
    ensures Apply(Apply(Apply(Started(s, id, false), Send(id, false)), GiveBack(id)), Free(id)) == s
  {
    assert s.stage[id := HasBlock][id := HasCredit][id := MustGive][id := MustFree] - {id} == s.stage;
  }

  lemma LeakedNet(s: State, id: nat)
    requires Enabled(s, Alloc(id, true)) && s.sem > 0
    ensures Apply(Apply(Started(s, id, true), Send(id, false)), Free(id)) ==
            s.(sem := s.sem - 1, leaked := s.leaked + 1, startup := s.startup + {id})
  {
    assert s.stage[id := HasBlock][id := HasCredit][id := MustFree] - {id} == s.stage;
  }

  lemma CompletedNet(s: State, id: nat)
    requires Enabled(s, Collect(id)) && s.poolUsed > 0
    ensures Apply(Apply(Apply(s, Collect(id)), GiveDone(id)), Free(id)) ==
            s.(sem := s.sem + 1, poolUsed := s.poolUsed - 1, stage := s.stage - {id})
  {
    assert s.stage[id := Collected][id := Credited] - {id} == s.stage - {id};
  }

  /** What `sdio_write` returns. */
  function WriteResult(payloadLen: nat, active: bool, hostSaving: bool, empty: bool, allocOk: bool, sendOk: bool): int {
    if active && !hostSaving && !empty && allocOk && sendOk then payloadLen else ESP_FAIL
  }

  /** A write returns the payload's length exactly if the interface is up, the host awake, and every part succeeds. */
  lemma WriteResultIff(payloadLen: nat, active: bool, hostSaving: bool, empty: bool, allocOk: bool, sendOk: bool)
    ensures var r := WriteResult(payloadLen, active, hostSaving, empty, allocOk, sendOk);
            && (r == payloadLen <==> active && !hostSaving && !empty && allocOk && sendOk)
            && (r != payloadLen ==> r == -1)
  {
  }

  /** The send semaphore, the pool and the messages, updated in place. */
  class Sender {
    const queueSize: nat
    var sem: nat
    var poolUsed: nat
    var stage: map<nat, Stage>
    var startup: set<nat>
    var leaked: nat

    ghost function View(): State
      reads this
    {
      State(queueSize, sem, poolUsed, stage, startup, leaked)
    }

    ghost predicate Valid()
      reads this
    {
      Conserved(View())
    }

    constructor (queueSize: nat)
      ensures Valid() && View() == Start(queueSize)
    {
      this.queueSize, sem, poolUsed, stage, startup, leaked := queueSize, queueSize, 0, map[], {}, 0;
    }

    method AllocBlock(id: nat, isStartup: bool)
      requires Valid() && Enabled(View(), Alloc(id, isStartup))
      modifies this
      ensures Valid() && View() == Apply(old(View()), Alloc(id, isStartup))
    {
      ConservedStep(View(), Alloc(id, isStartup), Apply(View(), Alloc(id, isStartup)));
      poolUsed, stage := poolUsed + 1, stage[id := HasBlock];
      if isStartup {
        startup := startup + {id};
      }
    }

    /** `xSemaphoreTake(sdio_send_queue_sem)`, once a credit can be had. */
    method TakeSendCredit(id: nat)
      requires Valid() && Enabled(View(), TakeCredit(id))
      modifies this
      ensures Valid() && View() == Apply(old(View()), TakeCredit(id))
    {
      ConservedStep(View(), TakeCredit(id), Apply(View(), TakeCredit(id)));
      sem, stage := sem - 1, stage[id := HasCredit];
    }

    /** A block and a credit for one message. */
    method StartSend(id: nat, isStartup: bool)
      requires Valid() && Enabled(View(), Alloc(id, isStartup)) && sem > 0
      modifies this
      ensures Valid() && View() == Started(old(View()), id, isStartup)
    {
      AllocBlock(id, isStartup);
      TakeSendCredit(id);
    }

    /** `sdio_slave_send_queue`: a failed startup send has no step that gives its credit back. */
    method QueueToDriver(id: nat, ok: bool)
      requires Valid() && Enabled(View(), Send(id, ok))
      modifies this
      ensures Valid() && View() == Apply(old(View()), Send(id, ok))
    {
      ConservedStep(View(), Send(id, ok), Apply(View(), Send(id, ok)));
      if ok {
        stage := stage[id := InDriver];
      } else if id in startup {
        stage, leaked := stage[id := MustFree], leaked + 1;
      } else {
        stage := stage[id := MustGive];
      }
    }

    method GiveCreditBack(id: nat)
      requires Valid() && Enabled(View(), GiveBack(id))
      modifies this
      ensures Valid() && View() == Apply(old(View()), GiveBack(id))
    {
      ConservedStep(View(), GiveBack(id), Apply(View(), GiveBack(id)));
      sem, stage := sem + 1, stage[id := MustFree];
    }

    method FreeBlock(id: nat)
      requires Valid() && Enabled(View(), Free(id))
      modifies this
      ensures Valid() && View() == Apply(old(View()), Free(id))
    {
      ConservedStep(View(), Free(id), Apply(View(), Free(id)));
      poolUsed, stage := poolUsed - 1, stage - {id};
    }

    /**
     `sdio_write`, once a credit can be had. A refused or failed write gives back all it took; a
     write that succeeds leaves its block and its credit with the driver.
     */
    method Write(id: nat, payloadLen: nat, active: bool, hostSaving: bool, empty: bool, allocOk: bool, sendOk: bool)
      returns (ret: int)
      requires Valid() && sem > 0 && id !in stage && id !in startup
      modifies this
      ensures Valid()
      ensures ret == WriteResult(payloadLen, active, hostSaving, empty, allocOk, sendOk)
      ensures View() == if ret == ESP_FAIL then old(View())
                        else old(View()).(sem := old(sem) - 1, poolUsed := old(poolUsed) + 1, stage := old(stage)[id := InDriver])
    {
      if !active || hostSaving || empty || !allocOk {
        return ESP_FAIL;
      }
      StartSend(id, false);
      QueueToDriver(id, sendOk);
      if !sendOk {
        GiveCreditBack(id);
        FreeBlock(id);
        FailedNet(old(View()), id);
        return ESP_FAIL;
      }
      SentNet(old(View()), id, false);
      ret := payloadLen;
    }

    /** `generate_startup_event`, lines 313-324: a failed send frees the block and keeps the credit. */
    method StartupEvent(id: nat, sendOk: bool)
      requires Valid() && sem > 0 && id !in stage && id !in startup
      modifies this
      ensures Valid()
      ensures sendOk ==> View() == old(View()).(sem := old(sem) - 1, poolUsed := old(poolUsed) + 1,
                                                stage := old(stage)[id := InDriver], startup := old(startup) + {id})
      ensures !sendOk ==> View() == old(View()).(sem := old(sem) - 1, leaked := old(leaked) + 1, startup := old(startup) + {id})
    {
      StartSend(id, true);
      QueueToDriver(id, sendOk);
      if !sendOk {
        FreeBlock(id);
        LeakedNet(old(View()), id);
        return;
      }
      SentNet(old(View()), id, true);
    }

    method CollectFinished(id: nat)
      requires Valid() && Enabled(View(), Collect(id))
      modifies this
      ensures Valid() && View() == Apply(old(View()), Collect(id))
    {
      ConservedStep(View(), Collect(id), Apply(View(), Collect(id)));
      stage := stage[id := Collected];
    }

    method GiveCredit(id: nat)
      requires Valid() && Enabled(View(), GiveDone(id))
      modifies this
      ensures Valid() && View() == Apply(old(View()), GiveDone(id))
    {
      ConservedStep(View(), GiveDone(id), Apply(View(), GiveDone(id)));
      sem, stage := sem + 1, stage[id := Credited];
    }

    /** One turn of `sdio_tx_done_task`, lines 470-476: the credit is given before the block is freed. */
    method CompleteOne(id: nat)
      requires Valid() && Enabled(View(), Collect(id))
      modifies this
      ensures Valid()
      ensures View() == old(View()).(sem := old(sem) + 1, poolUsed := old(poolUsed - 1), stage := old(stage) - {id})
    {
      CollectFinished(id);
      GiveCredit(id);
      FreeBlock(id);
      CompletedNet(old(View()), id);
    }
  }
}
