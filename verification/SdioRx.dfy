/**
 Receiving over SDIO (slave/main/sdio_slave_api.c, and recv_task in esp_hosted_coprocessor.c): the
 fixed RX buffers, three priority queues behind one counting semaphore, and throttling of the host.

 `sdio_rx_task` produces and `recv_task` consumes. Each step is one queue, semaphore, driver or
 throttle operation, so the consumer's three queue checks interleave with the producer.
 */
module SdioRx {
  import opened Bytes
  import opened Runs

  const PRIORITY_QUEUES := 3

  datatype IfType = Serial | Hci | Other

  /** What is read of a packet: the driver's length, and the header's type, length and offset. */
  datatype Packet = Packet(readLen: nat, ifType: IfType, len: u16, offset: u16, checksumOk: bool) {
    function PayloadLen(): u16 {
      readLen % 0x1_0000
    }

    /** Lines 647-690. */
    predicate Accepted() {
      len != 0 && PayloadLen() >= len + offset && checksumOk
    }
  }

  datatype Item = Item(buf: nat, payloadLen: u16, ifType: IfType)

  datatype Producer = Receiving | Rejecting(buf: nat) | Holding(item: Item) | Checked(item: Item) | Queued

  datatype Consumer = Idle | Woken | PastSerial | PastBt | Popped(item: Item) | Reading(item: Item)

  /** `interrupts` lists the throttle interrupts sent to the host so far: true for START, false for STOP. */
  datatype State = State(n: nat, high: byte, low: byte, driver: set<nat>, producer: Producer,
                         serial: seq<Item>, bt: seq<Item>, others: seq<Item>, sem: nat,
                         consumer: Consumer, throttling: bool, interrupts: seq<bool>) {
    function Queue(to: IfType): seq<Item> {
      match to
      case Serial => serial
      case Hci => bt
      case Other => others
    }

    function Load(): nat
      requires n > 0
    {
      |others| * 100 / n
    }
  }

  datatype Step =
    | Receive(buf: nat, packet: Packet) | Reject | StartCheck | Enqueue | Give
    | Take | TrySerial | TryBt | TryOthers | NoElement | StopCheck | Finish

  predicate Enabled(s: State, e: Step) {
    match e
    case Receive(buf, _) => s.producer.Receiving? && buf in s.driver
    case Reject => s.producer.Rejecting?
    case StartCheck => s.producer.Holding?
    case Enqueue => s.producer.Checked? && |s.Queue(s.producer.item.ifType)| < s.n
    case Give => s.producer.Queued?
    case Take => s.consumer.Idle? && s.sem > 0
    case TrySerial => s.consumer.Woken?
    case TryBt => s.consumer.PastSerial?
    case TryOthers => s.consumer.PastBt? && s.others != []
    case NoElement => s.consumer.PastBt? && s.others == []
    case StopCheck => s.consumer.Popped?
    case Finish => s.consumer.Reading?
  }

  /** Lines 136-161. */
  function StartThrottle(s: State): State
    requires s.n > 0
  {
    if s.high > 0 && !s.throttling && s.Load() > s.high
    then s.(throttling := true, interrupts := s.interrupts + [true])
    else s
  }

  /** Lines 163-182. */
  function StopThrottle(s: State): State
    requires s.n > 0
  {
    if s.throttling && s.Load() < s.low
    then s.(throttling := false, interrupts := s.interrupts + [false])
    else s
  }

  function Enqueued(s: State, item: Item): State {
    match item.ifType
    case Serial => s.(serial := s.serial + [item])
    case Hci => s.(bt := s.bt + [item])
    case Other => s.(others := s.others + [item])
  }

  function Apply(s: State, e: Step): State
    requires s.n > 0 && Enabled(s, e)
  {
    match e
    case Receive(buf, p) =>
      s.(driver := s.driver - {buf},
         producer := if p.Accepted() then Holding(Item(buf, p.PayloadLen(), p.ifType)) else Rejecting(buf))
    case Reject => s.(driver := s.driver + {s.producer.buf}, producer := Receiving)
    case StartCheck => StartThrottle(s).(producer := Checked(s.producer.item))
    case Enqueue => Enqueued(s, s.producer.item).(producer := Queued)
    case Give => s.(sem := s.sem + 1, producer := Receiving)
    case Take => s.(sem := s.sem - 1, consumer := Woken)
    case TrySerial =>
      if s.serial != [] then s.(serial := s.serial[1..], consumer := Popped(s.serial[0])) else s.(consumer := PastSerial)
    case TryBt =>
      if s.bt != [] then s.(bt := s.bt[1..], consumer := Popped(s.bt[0])) else s.(consumer := PastBt)
    case TryOthers => s.(others := s.others[1..], consumer := Popped(s.others[0]))
    case NoElement => s.(consumer := Idle)
    case StopCheck => StopThrottle(s).(consumer := Reading(s.consumer.item))
    // recv_task takes a length of 0 for a failed read and forgets the buffer; any other is processed and reloaded
    case Finish =>
      if s.consumer.item.payloadLen <= 0 then s.(consumer := Idle)
      else s.(driver := s.driver + {s.consumer.item.buf}, consumer := Idle)
  }

  ghost predicate Next(s: State, e: Step, s': State) {
    s.n > 0 && Enabled(s, e) && s' == Apply(s, e)
  }

  function AllBuffers(n: nat): (all: set<nat>)
    ensures |all| == n && forall b: nat :: b in all <==> b < n
  {
    if n == 0 then {} else AllBuffers(n - 1) + {n - 1}
  }

  function Start(n: nat, high: byte, low: byte): State {
    State(n, high, low, AllBuffers(n), Receiving, [], [], [], 0, Idle, false, [])
  }

  // ------------------------------------------------------------------ every buffer in one place

  function InQueue(q: seq<Item>, b: nat): nat {
    if q == [] then 0 else (if q[0].buf == b then 1 else 0) + InQueue(q[1..], b)
  }

  predicate WithProducer(p: Producer, b: nat) {
    match p
    case Rejecting(buf) => buf == b
    case Holding(item) => item.buf == b
    case Checked(item) => item.buf == b
    case _ => false
  }

  predicate WithConsumer(c: Consumer, b: nat) {
    match c
    case Popped(item) => item.buf == b
    case Reading(item) => item.buf == b
    case _ => false
  }

  /** In how many places buffer `b` is. */
  function Places(s: State, b: nat): nat {
    (if b in s.driver then 1 else 0) + (if WithProducer(s.producer, b) then 1 else 0)
    + InQueue(s.serial, b) + InQueue(s.bt, b) + InQueue(s.others, b) + (if WithConsumer(s.consumer, b) then 1 else 0)
  }

  function Claims(s: State): nat {
    s.sem + (if s.consumer.Woken? || s.consumer.PastSerial? || s.consumer.PastBt? then 1 else 0)
          + (if s.producer.Queued? then 1 else 0)
  }

  predicate Positive(q: seq<Item>) {
    forall i :: 0 <= i < |q| ==> q[i].payloadLen > 0
  }

  /** Every buffer is in exactly one place. */
  ghost predicate Placed(s: State) {
    forall b: nat :: Places(s, b) == if b < s.n then 1 else 0
  }

  /** Queued items are matched by semaphore counts, and a consumer that woke will find one. */
  ghost predicate Claimed(s: State) {
    && |s.serial| + |s.bt| + |s.others| == Claims(s)
    && (s.consumer.PastSerial? ==> s.bt != [] || s.others != [])
    && (s.consumer.PastBt? ==> s.others != [])
  }

  ghost predicate NonEmpty(s: State) {
    && Positive(s.serial) && Positive(s.bt) && Positive(s.others)
    && (s.producer.Holding? || s.producer.Checked? ==> s.producer.item.payloadLen > 0)
    && (s.consumer.Popped? || s.consumer.Reading? ==> s.consumer.item.payloadLen > 0)
  }

  ghost predicate Conserved(s: State) {
    s.n > 0 && Placed(s) && Claimed(s) && NonEmpty(s)
  }

  lemma {:induction false} InQueueAppend(q: seq<Item>, item: Item, b: nat)
    ensures InQueue(q + [item], b) == InQueue(q, b) + if item.buf == b then 1 else 0
  {
    if q == [] {
      assert q + [item] == [item];
    } else {
      assert (q + [item])[1..] == q[1..] + [item];
      InQueueAppend(q[1..], item, b);
    }
  }

  predicate ByProducer(e: Step) {
    e.Receive? || e.Reject? || e.StartCheck? || e.Enqueue? || e.Give?
  }

  lemma ReceivePlaces(s: State, e: Step, s': State, b: nat)
    requires Placed(s) && Next(s, e, s') && (e.Receive? || e.Reject?)
    ensures Places(s', b) == Places(s, b)
  {
    assert Places(s, if e.Receive? then e.buf else s.producer.buf) <= 1;
  }

  lemma EnqueuePlaces(s: State, s': State, b: nat)
    requires Next(s, Enqueue, s')
    ensures Places(s', b) == Places(s, b)
  {
    var item := s.producer.item;
    InQueueAppend(s.Queue(item.ifType), item, b);
    assert s'.driver == s.driver && s'.consumer == s.consumer && s'.producer == Queued;
    match item.ifType
    case Serial => assert s'.serial == s.serial + [item] && s'.bt == s.bt && s'.others == s.others;
    case Hci => assert s'.bt == s.bt + [item] && s'.serial == s.serial && s'.others == s.others;
    case Other => assert s'.others == s.others + [item] && s'.serial == s.serial && s'.bt == s.bt;
  }

  lemma ProducerPlaces(s: State, e: Step, s': State, b: nat)
    requires Placed(s) && Next(s, e, s') && ByProducer(e)
    ensures Places(s', b) == Places(s, b)
  {
    match e
    case Receive(_, _) | Reject => ReceivePlaces(s, e, s', b);
    case Enqueue => EnqueuePlaces(s, s', b);
    case _ =>
  }

  lemma ConsumerPlaces(s: State, e: Step, s': State, b: nat)
    requires Placed(s) && Claimed(s) && NonEmpty(s) && Next(s, e, s') && !ByProducer(e)
    ensures Places(s', b) == Places(s, b)
  {
    if e.Finish? {
      assert Places(s, s.consumer.item.buf) <= 1;
    }
  }

  lemma ProducerClaims(s: State, e: Step, s': State)
    requires Claimed(s) && Next(s, e, s') && ByProducer(e)
    ensures Claimed(s')
  {
  }

  lemma ConsumerClaims(s: State, e: Step, s': State)
    requires Claimed(s) && Next(s, e, s') && !ByProducer(e)
    ensures Claimed(s')
  {
  }

  lemma ClaimedStep(s: State, e: Step, s': State)
    requires Claimed(s) && Next(s, e, s')
    ensures Claimed(s')
  {
    if ByProducer(e) {
      ProducerClaims(s, e, s');
    } else {
      ConsumerClaims(s, e, s');
    }
  }

  lemma ProducerNonEmpty(s: State, e: Step, s': State)
    requires NonEmpty(s) && Next(s, e, s') && ByProducer(e)
    ensures NonEmpty(s')
  {
  }

  lemma ConsumerNonEmpty(s: State, e: Step, s': State)
    requires NonEmpty(s) && Next(s, e, s') && !ByProducer(e)
    ensures NonEmpty(s')
  {
  }

  lemma NonEmptyStep(s: State, e: Step, s': State)
    requires NonEmpty(s) && Next(s, e, s')
    ensures NonEmpty(s')
  {
    if ByProducer(e) {
      ProducerNonEmpty(s, e, s');
    } else {
      ConsumerNonEmpty(s, e, s');
    }
  }

  lemma ConservedStep(s: State, e: Step, s': State)
    requires Conserved(s) && Next(s, e, s')
    ensures Conserved(s') && s'.n == s.n
  {
    ClaimedStep(s, e, s');
    NonEmptyStep(s, e, s');
    forall b: nat
      ensures Places(s', b) == if b < s'.n then 1 else 0
    {
      if ByProducer(e) {
        ProducerPlaces(s, e, s', b);
      } else {
        ConsumerPlaces(s, e, s', b);
      }
    }
  }

  lemma ConservedInEveryRun(states: seq<State>, steps: seq<Step>, n: nat, high: byte, low: byte, i: nat)
    requires n > 0 && IsRun(Next, states, steps) && states[0] == Start(n, high, low) && i < |states|
    ensures Conserved(states[i])
  {
    forall b: nat
      ensures Places(Start(n, high, low), b) == if b < n then 1 else 0
    {
    }
    forall s, e, s' | Conserved(s) && Next(s, e, s')
      ensures Conserved(s')
    {
      ConservedStep(s, e, s');
    }
    Invariance(Next, Conserved, states, steps);
  }

  function Buffers(q: seq<Item>): set<nat> {
    if q == [] then {} else {q[0].buf} + Buffers(q[1..])
  }

  lemma {:induction false} DistinctBuffers(q: seq<Item>)
    requires forall b: nat :: InQueue(q, b) <= 1
    ensures |Buffers(q)| == |q|
    ensures forall b: nat :: b in Buffers(q) <==> InQueue(q, b) == 1
  {
    if q != [] {
      assert InQueue(q, q[0].buf) == 1 + InQueue(q[1..], q[0].buf);
      forall b: nat
        ensures InQueue(q[1..], b) <= 1
      {
        assert InQueue(q, b) <= 1;
      }
      DistinctBuffers(q[1..]);
    }
  }

  lemma QueueBound(q: seq<Item>, room: set<nat>)
    requires forall b: nat :: InQueue(q, b) <= if b in room then 1 else 0
    ensures |q| <= |room|
  {
    forall b: nat
      ensures InQueue(q, b) <= 1
    {
      assert InQueue(q, b) <= if b in room then 1 else 0;
    }
    DistinctBuffers(q);
    forall b | b in Buffers(q)
      ensures b in room
    {
      assert InQueue(q, b) <= if b in room then 1 else 0;
    }
    assert room == Buffers(q) + (room - Buffers(q));
  }

  /** No queue holds more than the buffers there are, and none is full while one is on its way to it. */
  lemma QueueFits(s: State, to: IfType)
    requires Conserved(s)
    ensures |s.Queue(to)| <= s.n
    ensures s.producer.Checked? ==> |s.Queue(to)| < s.n
  {
    var room := AllBuffers(s.n) - if s.producer.Checked? then {s.producer.item.buf} else {};
    if s.producer.Checked? {
      assert Places(s, s.producer.item.buf) == if s.producer.item.buf < s.n then 1 else 0;
    }
    forall b: nat
      ensures InQueue(s.Queue(to), b) <= if b in room then 1 else 0
    {
      assert Places(s, b) == if b < s.n then 1 else 0;
    }
    QueueBound(s.Queue(to), room);
  }

  /**
   In every run: each of the n buffers is in exactly one place; a queue send never blocks and a give
   never overflows the semaphore; the branch for an empty queue after a successful take is never
   reached, however its three checks interleave with the producer; and no packet that was accepted
   is taken for a failed read, so every buffer the consumer gets is reloaded.
   */
  lemma BuffersConserved(states: seq<State>, steps: seq<Step>, n: nat, high: byte, low: byte, i: nat)
    requires n > 0 && IsRun(Next, states, steps) && states[0] == Start(n, high, low) && i < |steps|
    ensures var s := states[i];
            && (forall b: nat :: Places(s, b) == if b < n then 1 else 0)
            && (s.producer.Checked? ==> Enabled(s, Enqueue))
            && (s.producer.Queued? ==> s.sem < n * PRIORITY_QUEUES)
            && !Enabled(s, NoElement)
            && (steps[i].Finish? ==> states[i + 1].driver == s.driver + {s.consumer.item.buf})
  {
    ConservedInEveryRun(states, steps, n, high, low, i);
    SameSize(states, steps, n, high, low, i);
    var s := states[i];
    QueueFits(s, Serial);
    QueueFits(s, Hci);
    QueueFits(s, Other);
    assert Next(s, steps[i], states[i + 1]);
  }

  lemma {:induction false} SameSize(states: seq<State>, steps: seq<Step>, n: nat, high: byte, low: byte, i: nat)
    requires n > 0 && IsRun(Next, states, steps) && states[0] == Start(n, high, low) && i < |states|
    ensures states[i].n == n && states[i].high == high && states[i].low == low
  {
    if i > 0 {
      SameSize(states, steps, n, high, low, i - 1);
      assert Next(states[i - 1], steps[i - 1], states[i]);
    }
  }

  // ------------------------------------------------------------------ in order, once each

  /** The packets of one interface type that were good on arrival, and those read since, in order. */
  datatype Log = Log(good: seq<Item>, read: seq<Item>)

  /** An item counts as read once the check behind its pop has been made. */
  function Logged(to: IfType): (State, Step, Log) -> Log {
    (s: State, e: Step, l: Log) =>
      if e.Receive? && e.packet.ifType == to && GoodPacket(e.packet) then
        l.(good := l.good + [Item(e.buf, e.packet.readLen % 0x1_0000, to)])
      else if e.StopCheck? && s.consumer.Popped? && s.consumer.item.ifType == to then
        l.(read := l.read + [s.consumer.item])
      else l
  }

  /** Not empty, no longer than what was read, and with the right checksum. */
  predicate GoodPacket(p: Packet) {
    p.len > 0 && p.offset + p.len <= p.readLen % 0x1_0000 && p.checksumOk
  }

  function Popping(c: Consumer, to: IfType): seq<Item> {
    if c.Popped? && c.item.ifType == to then [c.item] else []
  }

  function Coming(p: Producer, to: IfType): seq<Item> {
    if (p.Holding? || p.Checked?) && p.item.ifType == to then [p.item] else []
  }

  predicate AllOf(q: seq<Item>, to: IfType) {
    forall i :: 0 <= i < |q| ==> q[i].ifType == to
  }

  /** Each queue holds the items of one type. */
  predicate Sorted(s: State) {
    AllOf(s.serial, Serial) && AllOf(s.bt, Hci) && AllOf(s.others, Other)
  }

  /** What was good is what was read, then what is popped, queued and on its way. */
  predicate Accounted(s: State, l: Log, to: IfType) {
    l.good == l.read + Popping(s.consumer, to) + s.Queue(to) + Coming(s.producer, to)
  }

  ghost predicate InOrder(s: State, l: Log, to: IfType) {
    Sorted(s) && Accounted(s, l, to)
  }

  lemma SortedStep(s: State, e: Step, s': State)
    requires Sorted(s) && Next(s, e, s')
    ensures Sorted(s')
  {
  }

  lemma Shift(a: seq<Item>, b: seq<Item>, c: seq<Item>, d: seq<Item>)
    ensures a + b + c + d == a + (b + c) + d == a + b + (c + d)
  {
  }

  lemma ReceiveAccounted(s: State, e: Step, s': State, l: Log, to: IfType)
    requires Accounted(s, l, to) && Next(s, e, s') && (e.Receive? || e.Reject?)
    ensures Accounted(s', Logged(to)(s, e, l), to)
  {
    assert e.Receive? ==> (GoodPacket(e.packet) <==> e.packet.Accepted());
    assert Coming(s.producer, to) == [];
  }

  lemma EnqueueAccounted(s: State, e: Step, s': State, l: Log, to: IfType)
    requires Accounted(s, l, to) && Next(s, e, s') && (e.Enqueue? || e.StartCheck? || e.Give?)
    ensures Accounted(s', l, to)
  {
    Shift(l.read, Popping(s.consumer, to), s.Queue(to), Coming(s.producer, to));
    if e.Enqueue? {
      assert s'.Queue(to) == s.Queue(to) + Coming(s.producer, to);
      assert Coming(s'.producer, to) == [];
    }
  }

  predicate IsPop(e: Step) {
    e.TrySerial? || e.TryBt? || e.TryOthers?
  }

  lemma HeadAndTail(q: seq<Item>)
    ensures q != [] ==> [q[0]] + q[1..] == q
  {
  }

  /** What a pop takes from a queue is what it hands to the reader. */
  lemma PopMoves(s: State, e: Step, s': State, to: IfType)
    requires Sorted(s) && Next(s, e, s') && IsPop(e)
    ensures Popping(s.consumer, to) == [] && s'.producer == s.producer
    ensures Popping(s'.consumer, to) + s'.Queue(to) == s.Queue(to)
  {
    HeadAndTail(s.Queue(to));
  }

  lemma PopAccounted(s: State, e: Step, s': State, l: Log, to: IfType)
    requires Sorted(s) && Accounted(s, l, to) && Next(s, e, s') && IsPop(e)
    ensures Accounted(s', l, to)
  {
    PopMoves(s, e, s', to);
    var popped, queue, coming := Popping(s'.consumer, to), s'.Queue(to), Coming(s.producer, to);
    Shift(l.read, popped, queue, coming);
    assert l.good == l.read + (popped + queue) + coming;
  }

  lemma CheckAccounted(s: State, s': State, l: Log, to: IfType)
    requires Accounted(s, l, to) && Next(s, StopCheck, s')
    ensures Accounted(s', Logged(to)(s, StopCheck, l), to)
  {
    assert Popping(s'.consumer, to) == [];
    assert Logged(to)(s, StopCheck, l).read == l.read + Popping(s.consumer, to);
  }

  lemma QuietAccounted(s: State, e: Step, s': State, l: Log, to: IfType)
    requires Accounted(s, l, to) && Next(s, e, s') && (e.Take? || e.NoElement? || e.Finish?)
    ensures Accounted(s', l, to)
  {
  }

  lemma InOrderStep(s: State, e: Step, s': State, l: Log, to: IfType)
    requires InOrder(s, l, to) && Next(s, e, s')
    ensures InOrder(s', Logged(to)(s, e, l), to)
  {
    SortedStep(s, e, s');
    match e
    case Receive(_, _) | Reject => ReceiveAccounted(s, e, s', l, to);
    case Enqueue | StartCheck | Give => EnqueueAccounted(s, e, s', l, to);
    case TrySerial | TryBt | TryOthers => PopAccounted(s, e, s', l, to);
    case StopCheck => CheckAccounted(s, s', l, to);
    case _ => QuietAccounted(s, e, s', l, to);
  }

  lemma InOrderInEveryRun(states: seq<State>, steps: seq<Step>, n: nat, high: byte, low: byte, to: IfType, i: nat)
    requires n > 0 && IsRun(Next, states, steps) && states[0] == Start(n, high, low) && i < |states|
    ensures InOrder(states[i], History(Logged(to), Log([], []), states, steps, i), to)
  {
    forall s, e, s', l | InOrder(s, l, to) && Next(s, e, s')
      ensures InOrder(s', Logged(to)(s, e, l), to)
    {
      InOrderStep(s, e, s', l, to);
    }
    HistoryInvariance(Next, Logged(to), (s, l) => InOrder(s, l, to), Log([], []), states, steps, i);
  }

  lemma AccountedPrefix(s: State, l: Log, to: IfType)
    requires Accounted(s, l, to) && Claimed(s)
    ensures l.read <= l.good
    ensures s.sem == 0 && s.producer.Receiving? && s.consumer.Idle? ==> l.read == l.good
  {
    var rest := Popping(s.consumer, to) + s.Queue(to) + Coming(s.producer, to);
    Shift(l.read, Popping(s.consumer, to), s.Queue(to), Coming(s.producer, to));
    assert l.good == l.read + rest;
    if s.sem == 0 && s.producer.Receiving? && s.consumer.Idle? {
      assert |s.serial| == |s.bt| == |s.others| == 0;
      assert rest == [];
    }
  }

  /**
   In every run, however the two tasks interleave, the items of each type that were read are, in order and once
   each, the first of the good packets of that type; and all of them once nothing is queued or under way.
   */
  lemma ReadInOrder(states: seq<State>, steps: seq<Step>, n: nat, high: byte, low: byte, to: IfType, i: nat)
    requires n > 0 && IsRun(Next, states, steps) && states[0] == Start(n, high, low) && i < |states|
    ensures var s, l := states[i], History(Logged(to), Log([], []), states, steps, i);
            && l.read <= l.good
            && (s.sem == 0 && s.producer.Receiving? && s.consumer.Idle? ==> l.read == l.good)
  {
    InOrderInEveryRun(states, steps, n, high, low, to, i);
    ConservedInEveryRun(states, steps, n, high, low, i);
    AccountedPrefix(states[i], History(Logged(to), Log([], []), states, steps, i), to);
  }

  function Urgency(t: IfType): nat {
    match t
    case Serial => 2
    case Hci => 1
    case Other => 0
  }

  lemma ReadFirst(s: State)
    requires Conserved(s) && Sorted(s) && s.consumer.Idle? && s.sem > 0
    ensures Read(s).consumer.Reading?
    ensures var item := Read(s).consumer.item;
            && s.Queue(item.ifType) != [] && item == s.Queue(item.ifType)[0]
            && forall to :: Urgency(to) > Urgency(item.ifType) ==> s.Queue(to) == []
  {
    ReadPops(s);
  }

  lemma NextToRead(s: State, l: Log, to: IfType)
    requires Accounted(s, l, to) && s.consumer.Idle?
    ensures s.Queue(to) != [] ==> |l.read| < |l.good| && l.good[|l.read|] == s.Queue(to)[0]
    ensures s.Queue(to) == [] ==> l.good == l.read + Coming(s.producer, to)
  {
    Shift(l.read, [], s.Queue(to), Coming(s.producer, to));
    assert l.good == l.read + (s.Queue(to) + Coming(s.producer, to));
  }

  /**
   In every run, a read that nothing interrupts gives the oldest waiting item of its type, and none of a more
   urgent type is waiting: serial before Bluetooth before the rest.
   */
  lemma ReadIsMostUrgent(states: seq<State>, steps: seq<Step>, n: nat, high: byte, low: byte, i: nat, to: IfType)
    requires n > 0 && IsRun(Next, states, steps) && states[0] == Start(n, high, low) && i < |states|
    requires states[i].consumer.Idle? && states[i].sem > 0
    ensures Conserved(states[i]) && Read(states[i]).consumer.Reading?
    ensures var s, item := states[i], Read(states[i]).consumer.item;
            var l := History(Logged(to), Log([], []), states, steps, i);
            && (item.ifType == to ==> |l.read| < |l.good| && item == l.good[|l.read|])
            && (Urgency(to) > Urgency(item.ifType) ==> l.good == l.read + Coming(s.producer, to))
  {
    ConservedInEveryRun(states, steps, n, high, low, i);
    InOrderInEveryRun(states, steps, n, high, low, to, i);
    ReadFirst(states[i]);
    NextToRead(states[i], History(Logged(to), Log([], []), states, steps, i), to);
  }

  // ------------------------------------------------------------------ throttling

  predicate Alternating(interrupts: seq<bool>) {
    forall i :: 0 <= i < |interrupts| ==> interrupts[i] == (i % 2 == 0)
  }

  /** START and STOP alternate, and the last one sent is the flag. */
  ghost predicate InView(s: State) {
    s.n > 0 && Alternating(s.interrupts) && s.throttling == (|s.interrupts| % 2 == 1)
  }

  /** Between a pop and the check that follows it the queue may have drained; everywhere else a throttled host has one. */
  ghost predicate HasQueue(s: State) {
    s.n > 0 && (s.throttling && !s.consumer.Popped? ==> s.others != [])
  }

  /** The same for a load at or above the low mark. */
  ghost predicate Loaded(s: State) {
    s.n > 0 && (s.throttling && !s.consumer.Popped? ==> s.Load() >= s.low)
  }

  lemma DivisionGrows(x: nat, y: nat, n: nat)
    requires n > 0 && x <= y
    ensures x / n <= y / n
  {
    var p, q := x / n, y / n;
    assert x == p * n + x % n && y == q * n + y % n;
    if p > q {
      ProductGrows(q + 1, p, n);
    }
  }

  lemma ProductGrows(a: nat, b: nat, n: nat)
    requires a <= b
    ensures a * n <= b * n
  {
    assert b * n == a * n + (b - a) * n;
  }

  lemma PercentFits(k: nat, n: nat)
    requires n > 0 && k <= n
    ensures k * 100 / n <= 100
  {
    DivisionGrows(k * 100, n * 100, n);
    assert n * 100 / n == 100;
  }

  lemma InViewStep(s: State, e: Step, s': State)
    requires InView(s) && Next(s, e, s')
    ensures InView(s')
  {
  }

  lemma HasQueueStep(s: State, e: Step, s': State)
    requires HasQueue(s) && Next(s, e, s') && s.low >= 1
    ensures HasQueue(s')
  {
    if e.StartCheck? && s'.throttling {
      assert s.others == [] ==> s.Load() == 0;
    } else if e.StopCheck? && s.others == [] {
      assert s.Load() == 0;
    }
  }

  /** Throttling starts above the high mark and stops below the low one, so it needs the marks in order. */
  lemma LoadedStep(s: State, e: Step, s': State)
    requires Loaded(s) && Next(s, e, s') && s.low <= s.high + 1
    ensures Loaded(s')
  {
    if e.Enqueue? {
      DivisionGrows(|s.others| * 100, |s'.others| * 100, s.n);
    }
  }

  ghost predicate Steady(s: State) {
    && Conserved(s) && InView(s)
    && (s.low >= 1 ==> HasQueue(s)) && (s.low <= s.high + 1 ==> Loaded(s))
  }

  lemma SteadyStep(s: State, e: Step, s': State)
    requires Steady(s) && Next(s, e, s')
    ensures Steady(s')
  {
    assert s'.low == s.low && s'.high == s.high;
    ConservedStep(s, e, s');
    InViewStep(s, e, s');
    if s.low >= 1 {
      HasQueueStep(s, e, s');
    }
    if s.low <= s.high + 1 {
      LoadedStep(s, e, s');
    }
  }

  lemma SteadyInEveryRun(states: seq<State>, steps: seq<Step>, n: nat, high: byte, low: byte, i: nat)
    requires n > 0 && IsRun(Next, states, steps) && states[0] == Start(n, high, low) && i < |states|
    ensures Steady(states[i]) && states[i].n == n && states[i].high == high && states[i].low == low
  {
    forall s, e, s' | Steady(s) && Next(s, e, s')
      ensures Steady(s')
    {
      SteadyStep(s, e, s');
    }
    ConservedInEveryRun(states, steps, n, high, low, 0);
    Invariance(Next, Steady, states, steps);
    SameSize(states, steps, n, high, low, i);
  }

  lemma LastSent(interrupts: seq<bool>)
    requires Alternating(interrupts) && interrupts != []
    ensures interrupts[|interrupts| - 1] <==> |interrupts| % 2 == 1
  {
    var last := |interrupts| - 1;
    assert interrupts[last] == (last % 2 == 0);
  }

  /**
   For any marks, in every run: the load percentage fits its byte, the throttle interrupts strictly alternate
   starting with START, and the last one sent to the host is the flag.
   */
  lemma HostSeesThrottle(states: seq<State>, steps: seq<Step>, n: nat, high: byte, low: byte, i: nat)
    requires n > 0 && IsRun(Next, states, steps) && states[0] == Start(n, high, low) && i < |states|
    ensures var s := states[i];
            && s.n == n && s.Load() <= 100
            && Alternating(s.interrupts)
            && (s.throttling <==> s.interrupts != [] && s.interrupts[|s.interrupts| - 1])
  {
    SteadyInEveryRun(states, steps, n, high, low, i);
    QueueFits(states[i], Other);
    PercentFits(|states[i].others|, n);
    if states[i].interrupts != [] {
      LastSent(states[i].interrupts);
    }
  }

  /**
   Unless a pop is still to be checked, a throttled host has a non-empty queue if the low mark is not zero,
   and a load at or above the low mark if that is at most one above the high mark.
   */
  lemma ThrottleHysteresis(states: seq<State>, steps: seq<Step>, n: nat, high: byte, low: byte, i: nat)
    requires n > 0 && IsRun(Next, states, steps) && states[0] == Start(n, high, low) && i < |states|
    ensures var s := states[i];
            && s.n == n
            && (s.throttling && !s.consumer.Popped? && low >= 1 ==> s.others != [])
            && (s.throttling && !s.consumer.Popped? && low <= high + 1 ==> s.Load() >= low)
  {
    SteadyInEveryRun(states, steps, n, high, low, i);
  }

  /** The last interrupt the host got was START. */
  predicate ToldToWait(interrupts: seq<bool>) {
    interrupts != [] && interrupts[|interrupts| - 1]
  }

  /**
   For any marks, in every run: a step sends START exactly when it is the receiver's check, the host has not been
   told to wait and the queue is above the high mark, which is on; it sends STOP exactly when it is the
   reader's check, the host has been told to wait and the queue is below the low mark; no other step sends anything.
   */
  lemma ThrottleEdges(states: seq<State>, steps: seq<Step>, n: nat, high: byte, low: byte, i: nat)
    requires n > 0 && IsRun(Next, states, steps) && states[0] == Start(n, high, low) && i < |steps|
    ensures var s, t := states[i], states[i + 1];
            var percent := |s.others| * 100 / n;
            && (t.interrupts == s.interrupts + [true] <==>
                  steps[i].StartCheck? && !ToldToWait(s.interrupts) && high > 0 && percent > high)
            && (t.interrupts == s.interrupts + [false] <==>
                  steps[i].StopCheck? && ToldToWait(s.interrupts) && percent < low)
            && t.interrupts in {s.interrupts, s.interrupts + [true], s.interrupts + [false]}
  {
    HostSeesThrottle(states, steps, n, high, low, i);
    SameSize(states, steps, n, high, low, i);
    assert Next(states[i], steps[i], states[i + 1]);
    var sent := states[i].interrupts;
    assert |sent + [true]| == |sent + [false]| == |sent| + 1;
    assert (sent + [true])[|sent|] && !(sent + [false])[|sent|];
  }

  lemma ZeroMarkStep(s: State, e: Step, s': State)
    requires Next(s, e, s') && s.low == 0 && s.throttling
    ensures s'.throttling && s'.low == 0
  {
    assert e.StopCheck? ==> s.Load() >= 0;
  }

  /** With a low mark of zero, throttling outlasts every continuation. */
  lemma ZeroMarkNeverReleases(s: State, t: State)
    requires s.throttling && s.low == 0 && Reachable(Next, s, t)
    ensures t.throttling
  {
    var states, steps: seq<Step> :| IsRun(Next, states, steps) && states[0] == s && states[|steps|] == t;
    forall s: State, e, s': State | s.throttling && s.low == 0 && Next(s, e, s')
      ensures s'.throttling && s'.low == 0
    {
      ZeroMarkStep(s, e, s');
    }
    Invariance(Next, (s: State) => s.throttling && s.low == 0, states, steps);
  }

  // ------------------------------------------------------------------ throttled with an empty queue

  ghost predicate Reached(s: State) {
    s.n > 0 && Reachable(Next, Start(s.n, s.high, s.low), s)
  }

  lemma Go(s: State, e: Step) returns (s': State)
    requires Reached(s) && Enabled(s, e)
    ensures Reached(s') && s' == Apply(s, e) && s'.n == s.n
  {
    s' := Apply(s, e);
    assert s'.n == s.n && s'.high == s.high && s'.low == s.low;
    Extend(Next, Start(s.n, s.high, s.low), s, e, s');
  }

  /** The host can be throttled at all: the high mark is on and the queue can grow past it before the last check. */
  predicate CanThrottle(n: nat, high: byte)
    requires n > 0
  {
    high > 0 && (n - 1) * 100 / n > high
  }

  ghost predicate ThrottledOnlyIfCan(s: State) {
    Conserved(s) && (s.throttling ==> CanThrottle(s.n, s.high))
  }

  lemma CanThrottleStep(s: State, e: Step, s': State)
    requires ThrottledOnlyIfCan(s) && Next(s, e, s')
    ensures ThrottledOnlyIfCan(s')
  {
    ConservedStep(s, e, s');
    if e.StartCheck? && s'.throttling && !s.throttling {
      QueueFits(s', Other);
      DivisionGrows(|s.others| * 100, (s.n - 1) * 100, s.n);
    }
  }

  /** Everything idle but the OTHERS queue, which holds buffers; those not yet received are with the driver. */
  ghost predicate Resting(s: State, received: nat) {
    && Reached(s) && s.producer.Receiving? && s.consumer.Idle? && s.serial == [] == s.bt
    && s.sem == |s.others| && forall b: nat :: received <= b < s.n ==> b in s.driver
  }

  /** One packet for the OTHERS queue is received. */
  lemma FillOne(s: State, k: nat) returns (t: State)
    requires Resting(s, k) && k == |s.others| < s.n
    ensures Resting(t, k + 1) && |t.others| == k + 1 && t.n == s.n && t.high == s.high && t.low == s.low
    ensures t.throttling <==> s.throttling || (s.high > 0 && k * 100 / s.n > s.high)
  {
    var packet := Packet(100, Other, 64, 12, true);
    assert packet.Accepted();
    t := Go(s, Receive(k, packet));
    t := Go(t, StartCheck);
    t := Go(t, Enqueue);
    t := Go(t, Give);
  }

  lemma {:induction false} Fill(n: nat, high: byte, low: byte, k: nat) returns (s: State)
    requires k <= n && n > 0
    ensures Resting(s, k) && |s.others| == k && s.n == n && s.high == high && s.low == low
    ensures s.throttling <== k > 0 && high > 0 && (k - 1) * 100 / n > high
  {
    if k == 0 {
      s := Start(n, high, low);
      Here(Next, s);
    } else {
      s := Fill(n, high, low, k - 1);
      s := FillOne(s, k - 1);
    }
  }

  /** With a low mark of zero the queue is drained and the host stays throttled. */
  lemma {:induction false} Drain(s: State, k: nat) returns (t: State)
    requires Resting(s, s.n) && |s.others| == k && s.low == 0 && s.throttling
    ensures Resting(t, t.n) && t.others == [] && t.throttling && t.n == s.n && t.high == s.high && t.low == s.low
    decreases k
  {
    if k == 0 {
      t := s;
    } else {
      t := Go(s, Take);
      t := Go(t, TrySerial);
      t := Go(t, TryBt);
      t := Go(t, TryOthers);
      t := Go(t, StopCheck);
      t := Go(t, Finish);
      t := Drain(t, k - 1);
    }
  }

  /** Nothing is queued and nothing is under way, and the host is throttled now and in every continuation. */
  ghost predicate Stuck(s: State, n: nat, high: byte, low: byte) {
    && n > 0 && Reachable(Next, Start(n, high, low), s)
    && s.others == [] && s.consumer.Idle? && s.producer.Receiving?
    && forall t :: Reachable(Next, s, t) ==> t.throttling
  }

  /**
   For any marks: some run leaves the host throttled for good with nothing queued if and only if the low mark
   is zero and the host can be throttled at all.
   */
  lemma StuckThrottledIff(n: nat, high: byte, low: byte)
    requires n > 0
    ensures (exists s :: Stuck(s, n, high, low)) <==> low == 0 && CanThrottle(n, high)
  {
    if s :| Stuck(s, n, high, low) {
      Here(Next, s);
      StuckOnlyIf(s, n, high, low);
    }
    if low == 0 && CanThrottle(n, high) {
      var s := Fill(n, high, low, n);
      s := Drain(s, n);
      forall t | Reachable(Next, s, t) ensures t.throttling {
        ZeroMarkNeverReleases(s, t);
      }
      assert Stuck(s, n, high, low);
    }
  }

  lemma StuckOnlyIf(s: State, n: nat, high: byte, low: byte)
    requires n > 0 && Reachable(Next, Start(n, high, low), s)
    requires s.throttling && s.others == [] && s.consumer.Idle?
    ensures low == 0 && CanThrottle(n, high)
  {
    var states, steps: seq<Step> :| IsRun(Next, states, steps) && states[0] == Start(n, high, low) && states[|steps|] == s;
    ThrottleHysteresis(states, steps, n, high, low, |steps|);
    forall s, e, s' | ThrottledOnlyIfCan(s) && Next(s, e, s')
      ensures ThrottledOnlyIfCan(s')
    {
      CanThrottleStep(s, e, s');
    }
    ConservedInEveryRun(states, steps, n, high, low, 0);
    Invariance(Next, ThrottledOnlyIfCan, states, steps);
    SameSize(states, steps, n, high, low, |steps|);
  }

  // ------------------------------------------------------------------ in place

  /** One turn of `sdio_rx_task` that nothing interrupts. */
  ghost function Turn(s: State, buf: nat, p: Packet): State
    requires Conserved(s) && s.producer.Receiving? && buf in s.driver
  {
    var received := Apply(s, Receive(buf, p));
    ConservedStep(s, Receive(buf, p), received);
    if !p.Accepted() then Apply(received, Reject)
    else
      var checked := Apply(received, StartCheck);
      ConservedStep(received, StartCheck, checked);
      QueueFits(checked, p.ifType);
      Apply(Apply(checked, Enqueue), Give)
  }

  /**
   What a turn comes to: a bad packet's buffer is back with the driver and nothing else has changed; a good one is
   the last item of its type's queue, counted once, with the throttle check made on the queue before it.
   */
  lemma TurnDoes(s: State, buf: nat, p: Packet)
    requires Conserved(s) && s.producer.Receiving? && buf in s.driver
    ensures var t := Turn(s, buf, p);
            var start := s.high > 0 && !s.throttling && |s.others| * 100 / s.n > s.high;
            && (!GoodPacket(p) ==> t == s)
            && (GoodPacket(p) ==>
                  && t.driver == s.driver - {buf} && t.sem == s.sem + 1 && t.producer.Receiving? && t.consumer == s.consumer
                  && (forall to: IfType :: t.Queue(to) == s.Queue(to) +
                        if to == p.ifType then [Item(buf, p.readLen % 0x1_0000, p.ifType)] else [])
                  && t.throttling == (s.throttling || start)
                  && t.interrupts == s.interrupts + if start then [true] else [])
  {
    assert GoodPacket(p) <==> p.Accepted();
    assert s.driver - {buf} + {buf} == s.driver;
    assert forall to: IfType :: s.Queue(to) + [] == s.Queue(to);
    assert s.interrupts + [] == s.interrupts;
  }

  /** One `sdio_read` that nothing interrupts: it ends with the consumer reading what it popped. */
  ghost function Read(s: State): State
    requires Conserved(s) && s.consumer.Idle? && s.sem > 0
  {
    var woken := Apply(s, Take);
    ConservedStep(s, Take, woken);
    var first := Apply(woken, TrySerial);
    ConservedStep(woken, TrySerial, first);
    if first.consumer.Popped? then Apply(first, StopCheck)
    else
      var second := Apply(first, TryBt);
      ConservedStep(first, TryBt, second);
      if second.consumer.Popped? then Apply(second, StopCheck)
      else Apply(Apply(second, TryOthers), StopCheck)
  }

  /** What that read comes to: the oldest item of the first queue that has one, then the throttle check. */
  lemma ReadPops(s: State)
    requires Conserved(s) && s.consumer.Idle? && s.sem > 0
    ensures Conserved(s) && s.n > 0
    ensures s.serial != [] ==> Read(s) == PoppedAs(s.(sem := s.sem - 1, serial := s.serial[1..]), s.serial[0])
    ensures s.serial == [] && s.bt != [] ==> Read(s) == PoppedAs(s.(sem := s.sem - 1, bt := s.bt[1..]), s.bt[0])
    ensures s.serial == [] && s.bt == [] ==>
              s.others != [] && Read(s) == PoppedAs(s.(sem := s.sem - 1, others := s.others[1..]), s.others[0])
  {
  }

  function PoppedAs(s: State, item: Item): State
    requires s.n > 0
  {
    StopThrottle(s.(consumer := Popped(item))).(consumer := Reading(item))
  }

  /** The queues, the semaphore, the loaded buffers and the throttle flag, updated in place. */
  class Receiver {
    const n: nat
    const high: byte
    const low: byte
    var driver: set<nat>
    var serial: seq<Item>
    var bt: seq<Item>
    var others: seq<Item>
    var sem: nat
    var throttling: bool
    ghost var interrupts: seq<bool>

    ghost function View(): State
      reads this
    {
      State(n, high, low, driver, Receiving, serial, bt, others, sem, Idle, throttling, interrupts)
    }

    constructor (n: nat, high: byte, low: byte)
      requires n > 0
      ensures View() == Start(n, high, low)
    {
      this.n, this.high, this.low, driver := n, high, low, AllBuffers(n);
      serial, bt, others, sem, throttling, interrupts := [], [], [], 0, false, [];
    }

    method StartThrottlingIfNeeded()
      requires n > 0
      modifies this
      ensures View() == StartThrottle(old(View()))
    {
      if high > 0 {
        if throttling {
          return;
        }
        var loadPercent := |others| * 100 / n;
        if loadPercent > high {
          throttling := true;
          interrupts := interrupts + [true];
        }
      }
    }

    method StopThrottlingIfNeeded()
      requires n > 0
      modifies this
      ensures View() == StopThrottle(old(View()))
    {
      if throttling {
        var loadPercent := |others| * 100 / n;
        if loadPercent < low {
          throttling := false;
          interrupts := interrupts + [false];
        }
      }
    }

    /** Lines 636-711. */
    method ReceiveOne(buf: nat, p: Packet)
      requires Conserved(View()) && buf in driver
      modifies this
      ensures View() == Turn(old(View()), buf, p)
    {
      driver := driver - {buf};
      if p.len == 0 || p.PayloadLen() < p.len + p.offset || !p.checksumOk {
        driver := driver + {buf};
        return;
      }
      StartThrottlingIfNeeded();
      var item := Item(buf, p.PayloadLen(), p.ifType);
      match p.ifType {
        case Serial => serial := serial + [item];
        case Hci => bt := bt + [item];
        case Other => others := others + [item];
      }
      sem := sem + 1;
    }

    /** Lines 597-608, once the semaphore can be taken: the oldest item of the first queue that has one. */
    method ReadOne() returns (item: Item)
      requires Conserved(View()) && sem > 0
      modifies this
      ensures View().(consumer := Reading(item)) == Read(old(View()))
    {
      ReadPops(View());
      sem := sem - 1;
      if serial != [] {
        item, serial := serial[0], serial[1..];
      } else if bt != [] {
        item, bt := bt[0], bt[1..];
      } else {
        item, others := others[0], others[1..];
      }
      StopThrottlingIfNeeded();
    }
  }
}
