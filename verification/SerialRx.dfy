/**
 Serial RPC requests from the host: reassembly in an 8192-byte buffer, the one-message handshake
 through `r.valid`, and the request queue shared with event senders
 (slave/main/esp_hosted_coprocessor.c:493-558,774-786 and slave/main/protocomm_pserial.c:213-297).
 */
module SerialRx {
  import opened Bytes
  import opened Runs

  const BUFFER_SIZE := 8192

  datatype Packet = Packet(seqNo: u16, more: bool, payload: seq<byte>)

  /** `struct rx_data`: `data` holds the first `r.len` bytes. */
  datatype Assembly = Assembly(valid: bool, seqNo: u16, data: seq<byte>)

  const EMPTY := Assembly(false, 0, [])

  /** Lines 536-557, once `r.valid` is clear; `room` is `rem_buff_size`, computed before the wait. */
  function Absorb(r: Assembly, p: Packet, room: nat): Assembly {
    var seqNo := if r.data == [] then p.seqNo else r.seqNo;
    if p.seqNo != seqNo then r.(valid := true)
    else Assembly(!p.more, seqNo, r.data + p.payload[..Min(|p.payload|, room)])
  }

  /** What `room` is when no message is pending. */
  function Room(r: Assembly): nat
    requires |r.data| <= BUFFER_SIZE
  {
    BUFFER_SIZE - |r.data|
  }

  // ------------------------------------------------------------------ reassembly from idle

  /** Feeds packets one by one, reading each completed message before the next packet comes. */
  function Feed(r: Assembly, packets: seq<Packet>): (seq<seq<byte>>, Assembly)
    requires |r.data| <= BUFFER_SIZE
    decreases |packets|
  {
    if packets == [] then ([], r)
    else
      var r' := Absorb(r, packets[0], Room(r));
      if r'.valid then var (rest, last) := Feed(EMPTY, packets[1..]); ([r'.data] + rest, last)
      else Feed(r', packets[1..])
  }

  function Payloads(packets: seq<Packet>): seq<byte> {
    if packets == [] then [] else packets[0].payload + Payloads(packets[1..])
  }

  function Clipped(message: seq<byte>): seq<byte> {
    message[..Min(|message|, BUFFER_SIZE)]
  }

  /** One message split in any way: equal sequence numbers, MORE_FRAGMENT on all but the last. */
  ghost predicate SplitMessage(packets: seq<Packet>, seqNo: u16) {
    && packets != []
    && forall i :: 0 <= i < |packets| ==> packets[i].seqNo == seqNo && packets[i].more == (i < |packets| - 1)
  }

  lemma ClippedAppend(before: seq<byte>, payload: seq<byte>)
    ensures |Clipped(before)| <= BUFFER_SIZE
    ensures Clipped(before) + payload[..Min(|payload|, BUFFER_SIZE - |Clipped(before)|)] == Clipped(before + payload)
  {
  }

  lemma FeedSingle(r: Assembly, p: Packet)
    requires |r.data| <= BUFFER_SIZE
    ensures var next := Absorb(r, p, Room(r)); Feed(r, [p]) == if next.valid then ([next.data], EMPTY) else ([], next)
  {
    var next := Absorb(r, p, Room(r));
    assert [p][1..] == [] && [next.data] + [] == [next.data];
  }

  lemma {:induction false} FeedContinues(r: Assembly, packets: seq<Packet>, seqNo: u16, before: seq<byte>)
    requires SplitMessage(packets, seqNo) && !r.valid && r.data == Clipped(before)
    requires r.data != [] ==> r.seqNo == seqNo
    ensures Feed(r, packets) == ([Clipped(before + Payloads(packets))], EMPTY)
    decreases |packets|
  {
    var now := before + packets[0].payload;
    ClippedAppend(before, packets[0].payload);
    var r' := Absorb(r, packets[0], Room(r));
    assert r' == Assembly(!packets[0].more, seqNo, Clipped(now));
    var rest := packets[1..];
    assert before + Payloads(packets) == now + Payloads(rest);
    if rest == [] {
      assert packets == [packets[0]] && now + Payloads(rest) == now;
      FeedSingle(r, packets[0]);
    } else {
      assert SplitMessage(rest, seqNo);
      FeedContinues(r', rest, seqNo, now);
    }
  }

  /** From idle, any split of a message completes once, with its first 8192 bytes, and ends idle. */
  lemma RebuildsAnySplit(packets: seq<Packet>, seqNo: u16)
    requires SplitMessage(packets, seqNo)
    ensures Feed(EMPTY, packets) == ([Clipped(Payloads(packets))], EMPTY)
  {
    FeedContinues(EMPTY, packets, seqNo, []);
    assert [] + Payloads(packets) == Payloads(packets);
  }

  /** A packet of another message completes the partial one as it stands and is itself lost. */
  lemma MismatchCutsMessage(r: Assembly, p: Packet, later: seq<Packet>)
    requires 0 < |r.data| <= BUFFER_SIZE && p.seqNo != r.seqNo
    ensures Feed(r, [p] + later) == ([r.data] + Feed(EMPTY, later).0, Feed(EMPTY, later).1)
  {
    assert ([p] + later)[1..] == later;
  }

  // ------------------------------------------------------------------ the pipeline

  datatype Arg = Event(id: nat) | Request(data: seq<byte>)

  /** recv_task: waiting for `r.valid` to clear with a packet in hand, or posting a completed message. */
  datatype Receiver = Idle | Holding(packet: Packet, room: nat) | Posting(data: seq<byte>)

  /** pserial_task: between requests, or with one dequeued but not yet read. */
  datatype Handler = Waiting | Reading(data: seq<byte>)

  /**
   `completed` and `handled` list the messages completed, and those given to rpc_req_handler, so far;
   `queueMax` is REQ_Q_MAX, which depends on the chip.
   */
  datatype State = State(r: Assembly, queue: seq<Arg>, receiver: Receiver, handler: Handler,
                         completed: seq<seq<byte>>, handled: seq<seq<byte>>, queueMax: nat)

  function Start(queueMax: nat): State {
    State(EMPTY, [], Idle, Waiting, [], [], queueMax)
  }

  datatype Step = Arrive(packet: Packet) | Accept(allocOk: bool) | Post | PostEvent(id: nat) | Dequeue | ReadData

  predicate Enabled(s: State, e: Step) {
    match e
    case Arrive(_) => s.receiver.Idle? && |s.r.data| <= BUFFER_SIZE
    case Accept(_) => s.receiver.Holding? && !s.r.valid
    case Post => s.receiver.Posting? && |s.queue| < s.queueMax
    case PostEvent(_) => |s.queue| < s.queueMax
    case Dequeue => s.handler.Waiting? && s.queue != []
    case ReadData => s.handler.Reading?
  }

  /** `serial_read_data` and line 285: the bytes of the caller's buffer that go to the handler, if any. */
  function ReadBytes(r: Assembly, data: seq<byte>): seq<byte> {
    var n := Min(|data|, |r.data|);
    if r.valid then r.data[..n] else data[..n]
  }

  function Apply(s: State, e: Step): State
    requires Enabled(s, e)
  {
    match e
    case Arrive(p) => s.(receiver := Holding(p, Room(s.r)))
    case Accept(allocOk) =>
      var r := Absorb(s.r, s.receiver.packet, s.receiver.room);
      if !r.valid then s.(r := r, receiver := Idle)
      else if r.data != [] && !allocOk then s.(r := r, receiver := Idle, completed := s.completed + [r.data])
      else s.(r := r, receiver := Posting(r.data), completed := s.completed + [r.data])
    case Post => s.(queue := s.queue + [Request(s.receiver.data)], receiver := Idle)
    case PostEvent(id) => s.(queue := s.queue + [Event(id)])
    case Dequeue =>
      s.(queue := s.queue[1..], handler := if s.queue[0].Request? then Reading(s.queue[0].data) else Waiting)
    case ReadData =>
      var bytes := ReadBytes(s.r, s.handler.data);
      s.(r := if s.r.valid then EMPTY else s.r, handler := Waiting,
         handled := if bytes == [] then s.handled else s.handled + [bytes])
  }

  ghost predicate Next(s: State, e: Step, s': State) {
    Enabled(s, e) && s' == Apply(s, e)
  }

  /** Requests on their way, oldest first: dequeued but unread, queued, and about to be queued. */
  function Pending(s: State): seq<seq<byte>> {
    (if s.handler.Reading? then [s.handler.data] else []) + Requests(s.queue)
    + (if s.receiver.Posting? then [s.receiver.data] else [])
  }

  function Requests(queue: seq<Arg>): seq<seq<byte>> {
    if queue == [] then []
    else (if queue[0].Request? then [queue[0].data] else []) + Requests(queue[1..])
  }

  function NonEmpty(messages: seq<seq<byte>>): seq<seq<byte>> {
    if messages == [] then []
    else NonEmpty(messages[..|messages| - 1]) + (if messages[|messages| - 1] == [] then [] else [messages[|messages| - 1]])
  }

  lemma {:induction false} RequestsAppend(queue: seq<Arg>, a: Arg)
    ensures Requests(queue + [a]) == Requests(queue) + if a.Request? then [a.data] else []
  {
    if queue == [] {
      assert queue + [a] == [a];
    } else {
      assert (queue + [a])[0] == queue[0] && (queue + [a])[1..] == queue[1..] + [a];
      RequestsAppend(queue[1..], a);
      var first, rest := if queue[0].Request? then [queue[0].data] else [], Requests(queue[1..]);
      assert first + rest + (if a.Request? then [a.data] else []) == first + (rest + if a.Request? then [a.data] else []);
    }
  }

  lemma NonEmptyAppend(messages: seq<seq<byte>>, m: seq<byte>)
    ensures NonEmpty(messages + [m]) == NonEmpty(messages) + if m == [] then [] else [m]
  {
    assert (messages + [m])[..|messages|] == messages;
  }

  /** The handshake: one request is on its way exactly while `r.valid` is set, and it is a copy of the buffer. */
  ghost predicate Handshake(s: State) {
    && |s.r.data| <= BUFFER_SIZE
    && (s.receiver.Holding? ==> s.receiver.room + |s.r.data| <= BUFFER_SIZE)
    && Pending(s) == (if s.r.valid then [s.r.data] else [])
    && NonEmpty(s.completed) == s.handled + (if s.r.valid && s.r.data != [] then [s.r.data] else [])
  }

  ghost predicate Allocating(s: State, e: Step, s': State) {
    Next(s, e, s') && !(e.Accept? && !e.allocOk)
  }

  lemma HandshakeAccept(s: State, e: Step, s': State)
    requires Handshake(s) && Allocating(s, e, s') && e.Accept?
    ensures Handshake(s')
  {
    assert Pending(s) == [] && Requests(s.queue) == [] && !s.handler.Reading?;
    var r := Absorb(s.r, s.receiver.packet, s.receiver.room);
    assert |r.data| <= BUFFER_SIZE && s'.r == r;
    if r.valid {
      assert Pending(s') == [r.data];
      NonEmptyAppend(s.completed, r.data);
    } else {
      assert Pending(s') == [];
    }
  }

  lemma HandshakePost(s: State, e: Step, s': State)
    requires Handshake(s) && Next(s, e, s') && (e.Post? || e.PostEvent?)
    ensures Handshake(s')
  {
    RequestsAppend(s.queue, s'.queue[|s.queue|]);
    assert Pending(s') == Pending(s);
  }

  lemma HandshakeHandler(s: State, e: Step, s': State)
    requires Handshake(s) && Next(s, e, s') && (e.Dequeue? || e.ReadData? || e.Arrive?)
    ensures Handshake(s')
  {
    if e.ReadData? {
      assert Pending(s)[0] == s.handler.data;
      assert s.r.valid && s.handler.data == s.r.data;
      assert Pending(s)[1..] == Pending(s');
      assert ReadBytes(s.r, s.handler.data) == s.r.data;
      assert s'.handled == s'.handled + [];
    } else {
      assert Pending(s') == Pending(s);
    }
  }

  lemma HandshakeStep(s: State, e: Step, s': State)
    requires Handshake(s) && Allocating(s, e, s')
    ensures Handshake(s')
  {
    match e
    case Accept(_) => HandshakeAccept(s, e, s');
    case Post | PostEvent(_) => HandshakePost(s, e, s');
    case _ => HandshakeHandler(s, e, s');
  }

  /**
   While allocation succeeds, in every run: requests on their way are one exactly when `r.valid` is
   set and equal the buffer; the non-empty messages handled so far are, in order, those completed
   so far less the one pending; and no packet is ever stored past the buffer.
   */
  lemma ExactlyOnce(queueMax: nat, states: seq<State>, steps: seq<Step>, i: nat)
    requires IsRun(Allocating, states, steps) && states[0] == Start(queueMax) && i < |states|
    ensures Handshake(states[i])
    ensures !states[i].r.valid ==> states[i].handled == NonEmpty(states[i].completed)
    ensures states[i].handled <= NonEmpty(states[i].completed)
  {
    forall s, e, s' | Handshake(s) && Allocating(s, e, s')
      ensures Handshake(s')
    {
      HandshakeStep(s, e, s');
    }
    Invariance(Allocating, Handshake, states, steps);
  }

  /** What has been put in the request queue, and what the handler has taken out of it. */
  datatype QueueLog = QueueLog(posted: seq<Arg>, taken: seq<Arg>)

  function Queued(s: State, e: Step, l: QueueLog): QueueLog {
    match e
    case Post => if s.receiver.Posting? then l.(posted := l.posted + [Request(s.receiver.data)]) else l
    case PostEvent(id) => l.(posted := l.posted + [Event(id)])
    case Dequeue => if s.queue != [] then l.(taken := l.taken + [s.queue[0]]) else l
    case _ => l
  }

  lemma QueuedStep(s: State, e: Step, s': State, l: QueueLog)
    requires Next(s, e, s') && l.posted == l.taken + s.queue
    ensures Queued(s, e, l).posted == Queued(s, e, l).taken + s'.queue
  {
    if e.Dequeue? {
      assert l.taken + [s.queue[0]] + s'.queue == l.taken + ([s.queue[0]] + s'.queue);
      assert [s.queue[0]] + s'.queue == s.queue;
    } else if e.Post? || e.PostEvent? {
      assert l.taken + s'.queue == l.taken + s.queue + [s'.queue[|s.queue|]];
    }
  }

  /** In every run, requests and events leave the queue they share in the order in which they were put there. */
  lemma QueueInOrder(queueMax: nat, states: seq<State>, steps: seq<Step>, i: nat)
    requires IsRun(Next, states, steps) && states[0] == Start(queueMax) && i < |states|
    ensures var l := History(Queued, QueueLog([], []), states, steps, i);
            l.taken <= l.posted && l.posted[|l.taken|..] == states[i].queue
  {
    forall s: State, e, s': State, l: QueueLog | l.posted == l.taken + s.queue && Next(s, e, s')
      ensures Queued(s, e, l).posted == Queued(s, e, l).taken + s'.queue
    {
      QueuedStep(s, e, s', l);
    }
    HistoryInvariance(Next, Queued, (s: State, l: QueueLog) => l.posted == l.taken + s.queue, QueueLog([], []), states, steps, i);
  }

  // ------------------------------------------------------------------ what is completed

  function TakenWith(s: State, e: Step, taken: seq<Packet>): seq<Packet> {
    if e.Accept? && s.receiver.Holding? then taken + [s.receiver.packet] else taken
  }

  /** The packets `process_serial_rx_pkt` has stored or refused in the first i steps of a run, in order. */
  function Taken(states: seq<State>, steps: seq<Step>, i: nat): seq<Packet>
    requires i <= |steps| <= |states|
  {
    History(TakenWith, [], states, steps, i)
  }

  lemma {:induction false} FeedAppend(r: Assembly, packets: seq<Packet>, p: Packet)
    requires |r.data| <= BUFFER_SIZE
    ensures |Feed(r, packets).1.data| <= BUFFER_SIZE
    ensures var (messages, last) := Feed(r, packets);
            var next := Absorb(last, p, Room(last));
            Feed(r, packets + [p]) == if next.valid then (messages + [next.data], EMPTY) else (messages, next)
    decreases |packets|
  {
    if packets == [] {
      assert [p][1..] == [] && packets + [p] == [p];
      var next := Absorb(r, p, Room(r));
      assert [next.data] + [] == [] + [next.data];
    } else {
      var rest := packets[1..];
      assert (packets + [p])[0] == packets[0] && (packets + [p])[1..] == rest + [p];
      var r' := Absorb(r, packets[0], Room(r));
      if r'.valid {
        FeedAppend(EMPTY, rest, p);
        var (messages, last) := Feed(EMPTY, rest);
        var next := Absorb(last, p, Room(last));
        assert [r'.data] + (messages + [next.data]) == ([r'.data] + messages) + [next.data];
      } else {
        FeedAppend(r', rest, p);
      }
    }
  }

  /** The pipeline has completed what the undisturbed assembler makes of the same packets, and holds the same rest. */
  ghost predicate Matches(s: State, taken: seq<Packet>) {
    var (messages, last) := Feed(EMPTY, taken);
    s.completed == messages && (if s.r.valid then last == EMPTY else last == s.r)
  }

  /** The room measured on arrival is that of the assembly the packet will join, or it arrived behind a pending message. */
  ghost predicate Measured(s: State) {
    s.receiver.Holding? ==>
      (if s.r.valid then s.receiver.room == BUFFER_SIZE - |s.r.data|
       else s.receiver.room == BUFFER_SIZE - |s.r.data| || (s.r == EMPTY && s.receiver.room <= BUFFER_SIZE))
  }

  /** A packet that is stored with the room left behind the message before it, and does not fit there. */
  predicate Loses(s: State, e: Step) {
    && e.Accept? && s.receiver.Holding? && |s.r.data| <= BUFFER_SIZE
    && s.receiver.room < Room(s.r) && |s.receiver.packet.payload| > s.receiver.room
  }

  lemma MeasuredStep(s: State, e: Step, s': State)
    requires Handshake(s) && Measured(s) && Next(s, e, s')
    ensures Measured(s')
  {
  }

  /** One step keeps the pipeline in step with the undisturbed assembler exactly when it loses no bytes. */
  lemma MatchesIff(s: State, e: Step, s': State, taken: seq<Packet>)
    requires Handshake(s) && Measured(s) && Allocating(s, e, s') && Matches(s, taken)
    ensures Matches(s', TakenWith(s, e, taken)) <==> !Loses(s, e)
  {
    if e.Accept? {
      AcceptMatchesIff(s, e, s', taken);
    }
  }

  lemma AcceptMatchesIff(s: State, e: Step, s': State, taken: seq<Packet>)
    requires Handshake(s) && Measured(s) && Allocating(s, e, s') && Matches(s, taken) && e.Accept?
    ensures Matches(s', taken + [s.receiver.packet]) <==> !Loses(s, e)
  {
    var p, room := s.receiver.packet, s.receiver.room;
    FeedAppend(EMPTY, taken, p);
    var whole, stale := Absorb(s.r, p, Room(s.r)), Absorb(s.r, p, room);
    assert Feed(EMPTY, taken).1 == s.r;
    if Loses(s, e) {
      assert s.r == EMPTY && |stale.data| < |whole.data|;
      if stale.valid {
        assert s'.completed[|s.completed|] == stale.data;
      }
    } else {
      assert stale == whole;
    }
  }

  /** No packet arrives behind a pending message unless both fit the buffer together. */
  predicate Fits(s: State, e: Step) {
    e.Arrive? && s.r.valid ==> |s.r.data| + |e.packet.payload| <= BUFFER_SIZE
  }

  ghost predicate FittingNext(s: State, e: Step, s': State) {
    Allocating(s, e, s') && Fits(s, e)
  }

  ghost predicate Healthy(s: State) {
    && Handshake(s) && Measured(s)
    && (s.receiver.Holding? && s.receiver.room < BUFFER_SIZE - |s.r.data| ==> |s.receiver.packet.payload| <= s.receiver.room)
    && (s.receiver.Holding? && s.r.valid ==> |s.receiver.packet.payload| <= s.receiver.room)
  }

  lemma HealthyStep(s: State, e: Step, s': State)
    requires Healthy(s) && FittingNext(s, e, s')
    ensures Healthy(s') && !Loses(s, e)
  {
    HandshakeStep(s, e, s');
    MeasuredStep(s, e, s');
  }

  ghost predicate InStep(s: State, taken: seq<Packet>) {
    Healthy(s) && Matches(s, taken)
  }

  lemma InStepStep(s: State, e: Step, s': State, taken: seq<Packet>)
    requires InStep(s, taken) && FittingNext(s, e, s')
    ensures InStep(s', TakenWith(s, e, taken))
  {
    HealthyStep(s, e, s');
    MatchesIff(s, e, s', taken);
  }

  lemma InStepAtStart(queueMax: nat)
    ensures InStep(Start(queueMax), [])
  {
  }

  lemma InStepInEveryRun(queueMax: nat, states: seq<State>, steps: seq<Step>, i: nat)
    requires IsRun(FittingNext, states, steps) && states[0] == Start(queueMax) && i < |states|
    ensures InStep(states[i], Taken(states, steps, i))
  {
    forall s, e, s', taken | InStep(s, taken) && FittingNext(s, e, s')
      ensures InStep(s', TakenWith(s, e, taken))
    {
      InStepStep(s, e, s', taken);
    }
    InStepAtStart(queueMax);
    HistoryInvariance(FittingNext, TakenWith, InStep, [], states, steps, i);
  }

  /**
   In every run in which allocation succeeds and no packet arrives behind a pending message that it does not
   fit the buffer with, the messages completed are exactly those the undisturbed assembler makes of the
   packets taken so far; and once nothing is pending, the handler has had exactly the non-empty ones.
   */
  lemma CompletedIsFed(queueMax: nat, states: seq<State>, steps: seq<Step>, i: nat)
    requires IsRun(FittingNext, states, steps) && states[0] == Start(queueMax) && i < |states|
    ensures var s, messages := states[i], Feed(EMPTY, Taken(states, steps, i)).0;
            && s.completed == messages
            && (!s.r.valid ==> s.handled == NonEmpty(messages))
  {
    InStepInEveryRun(queueMax, states, steps, i);
  }

  ghost predicate IsMessage(packets: seq<Packet>) {
    exists seqNo :: SplitMessage(packets, seqNo)
  }

  /** Whole messages, each split in any way: what they should become. */
  ghost predicate AllSplit(splits: seq<seq<Packet>>) {
    forall k :: 0 <= k < |splits| ==> IsMessage(splits[k])
  }

  function Joined(splits: seq<seq<Packet>>): seq<Packet> {
    if splits == [] then [] else Joined(splits[..|splits| - 1]) + splits[|splits| - 1]
  }

  function Messages(splits: seq<seq<Packet>>): seq<seq<byte>> {
    if splits == [] then [] else Messages(splits[..|splits| - 1]) + [Clipped(Payloads(splits[|splits| - 1]))]
  }

  lemma {:induction false} FeedConcat(r: Assembly, a: seq<Packet>, b: seq<Packet>)
    requires |r.data| <= BUFFER_SIZE
    ensures |Feed(r, a).1.data| <= BUFFER_SIZE
    ensures Feed(r, a + b) == (Feed(r, a).0 + Feed(Feed(r, a).1, b).0, Feed(Feed(r, a).1, b).1)
    decreases |a|
  {
    if a == [] {
      assert a + b == b && [] + Feed(r, b).0 == Feed(r, b).0;
    } else {
      assert (a + b)[0] == a[0] && (a + b)[1..] == a[1..] + b;
      var r' := Absorb(r, a[0], Room(r));
      FeedConcat(if r'.valid then EMPTY else r', a[1..], b);
      if r'.valid {
        var x, y := Feed(EMPTY, a[1..]).0, Feed(Feed(EMPTY, a[1..]).1, b).0;
        assert [r'.data] + (x + y) == ([r'.data] + x) + y;
      }
    }
  }

  lemma {:induction false} FeedMessages(splits: seq<seq<Packet>>)
    requires AllSplit(splits)
    ensures Feed(EMPTY, Joined(splits)) == (Messages(splits), EMPTY)
  {
    if splits != [] {
      var front, last := splits[..|splits| - 1], splits[|splits| - 1];
      assert AllSplit(front) && IsMessage(last);
      FeedMessages(front);
      FeedConcat(EMPTY, Joined(front), last);
      var seqNo :| SplitMessage(last, seqNo);
      RebuildsAnySplit(last, seqNo);
    }
  }

  /**
   End to end: in every such run, when the packets taken so far are whole messages and none is pending, the
   handler has had exactly the non-empty ones, each cut to 8192 bytes, once each and in order.
   */
  lemma MessagesArrive(queueMax: nat, states: seq<State>, steps: seq<Step>, i: nat, splits: seq<seq<Packet>>)
    requires IsRun(FittingNext, states, steps) && states[0] == Start(queueMax) && i < |states|
    requires AllSplit(splits) && Taken(states, steps, i) == Joined(splits) && !states[i].r.valid
    ensures states[i].handled == NonEmpty(Messages(splits))
  {
    CompletedIsFed(queueMax, states, steps, i);
    FeedMessages(splits);
  }

  ghost predicate Reached(s: State) {
    Reachable(Allocating, Start(s.queueMax), s)
  }

  lemma Go(s: State, e: Step) returns (s': State)
    requires Reached(s) && Enabled(s, e) && !(e.Accept? && !e.allocOk)
    ensures Reached(s') && s' == Apply(s, e)
  {
    s' := Apply(s, e);
    Extend(Allocating, Start(s.queueMax), s, e, s');
  }

  lemma DeliverOne(s: State, p: Packet) returns (t: State)
    requires Reached(s) && s.receiver.Idle? && !s.r.valid && |s.r.data| + |p.payload| <= BUFFER_SIZE
    requires s.r.data != [] ==> s.r.seqNo == p.seqNo
    ensures Reached(t)
    ensures var r := Assembly(!p.more, p.seqNo, s.r.data + p.payload);
            t == if p.more then s.(r := r) else s.(r := r, receiver := Posting(r.data), completed := s.completed + [r.data])
  {
    t := Go(s, Arrive(p));
    assert p.payload[..|p.payload|] == p.payload;
    t := Go(t, Accept(true));
  }

  /** The packets of one message that fits the buffer, one after the other. */
  lemma {:induction false} Deliver(s: State, ps: seq<Packet>, seqNo: u16) returns (t: State)
    requires Reached(s) && s.receiver.Idle? && !s.r.valid && SplitMessage(ps, seqNo)
    requires |s.r.data| + |Payloads(ps)| <= BUFFER_SIZE && (s.r.data != [] ==> s.r.seqNo == seqNo)
    ensures Reached(t)
    ensures var message := s.r.data + Payloads(ps);
            t == s.(r := Assembly(true, seqNo, message), receiver := Posting(message), completed := s.completed + [message])
    decreases |ps|
  {
    t := DeliverOne(s, ps[0]);
    assert s.r.data + Payloads(ps) == t.r.data + Payloads(ps[1..]);
    if |ps| > 1 {
      assert SplitMessage(ps[1..], seqNo);
      t := Deliver(t, ps[1..], seqNo);
    } else {
      assert Payloads(ps[1..]) == [] && t.r.data + [] == t.r.data;
    }
  }

  /**
   A reachable run that loses bytes, for every message that fits the buffer, split in any way, and every packet
   after it that does not fit behind it: the packet arrives before the message has been read, and keeps only
   what would have fitted there.
   */
  lemma StaleRoomLoses(queueMax: nat, ps: seq<Packet>, seqNo: u16, q: Packet) returns (s: State)
    requires queueMax > 0 && SplitMessage(ps, seqNo) && !q.more
    requires |Payloads(ps)| <= BUFFER_SIZE < |Payloads(ps)| + |q.payload|
    ensures Reached(s) && s.queueMax == queueMax
    ensures s.completed == [Payloads(ps), q.payload[..BUFFER_SIZE - |Payloads(ps)|]]
    ensures Feed(EMPTY, ps + [q]).0 == [Payloads(ps), Clipped(q.payload)]
    ensures Payloads(ps) != [] ==> s.completed != Feed(EMPTY, ps + [q]).0
  {
    var message := Payloads(ps);
    var cut := q.payload[..BUFFER_SIZE - |message|];
    Here(Allocating, Start(queueMax));
    s := Deliver(Start(queueMax), ps, seqNo);
    assert [] + message == message && s.completed == [message];
    s := Overtaken(s, message, q);
    RebuildsAnySplit(ps, seqNo);
    FeedConcat(EMPTY, ps, [q]);
    FeedSingle(EMPTY, q);
    assert Clipped(message) == message && Absorb(EMPTY, q, BUFFER_SIZE).data == Clipped(q.payload);
  }

  lemma Overtaken(s: State, message: seq<byte>, q: Packet) returns (t: State)
    requires Reached(s) && s.queueMax > 0 && s.queue == [] && s.handler.Waiting? && s.completed == [message]
    requires s.receiver == Posting(message) && s.r.valid && s.r.data == message && !q.more
    requires |message| <= BUFFER_SIZE < |message| + |q.payload|
    ensures Reached(t) && t.queueMax == s.queueMax && t.completed == [message, q.payload[..BUFFER_SIZE - |message|]]
  {
    var cut := q.payload[..BUFFER_SIZE - |message|];
    t := Go(s, Post);
    t := Go(t, Arrive(q));
    assert t.receiver == Holding(q, BUFFER_SIZE - |message|) && t.queue == [Request(message)];
    t := Go(t, Dequeue);
    t := Go(t, ReadData);
    assert t.r == EMPTY && t.completed == [message];
    t := Go(t, Accept(true));
    assert [] + cut == cut && t.completed == [message, cut];
  }

  const FRAGMENT := 1500

  function FullFragments(k: nat, seqNo: u16): seq<Packet> {
    seq(k, i requires 0 <= i < k => Packet(seqNo, i < k - 1, seq(FRAGMENT, _ => 0)))
  }

  lemma {:induction false} FullLength(ps: seq<Packet>)
    requires forall i :: 0 <= i < |ps| ==> |ps[i].payload| == FRAGMENT
    ensures |Payloads(ps)| == FRAGMENT * |ps|
  {
    if ps != [] {
      FullLength(ps[1..]);
    }
  }

  /** So fragments of 1500 bytes are enough: the sixth, opening a new message, loses 808 of its bytes. */
  lemma FullFragmentsLose(queueMax: nat, q: Packet) returns (s: State)
    requires queueMax > 0 && !q.more && |q.payload| == FRAGMENT
    ensures Reached(s) && |s.completed| == 2 && |s.completed[0]| == 5 * FRAGMENT && s.completed[1] == q.payload[..692]
  {
    var ps := FullFragments(5, 1);
    FullLength(ps);
    assert SplitMessage(ps, 1);
    s := StaleRoomLoses(queueMax, ps, 1, q);
  }

  /** `r.valid` set with nothing on its way to clear it. */
  ghost predicate Wedged(s: State) {
    s.r.valid && Pending(s) == []
  }

  lemma WedgedStep(s: State, e: Step, s': State)
    requires Wedged(s) && Next(s, e, s')
    ensures Wedged(s') && s'.handled == s.handled
  {
    assert |Pending(s)| == 0;
    if e.PostEvent? {
      RequestsAppend(s.queue, Event(e.id));
    }
  }

  /** The packet in hand ends a message that is not empty: it is the last of it, or belongs to another one. */
  predicate EndsMessage(s: State) {
    && s.receiver.Holding?
    && var p := s.receiver.packet;
       if s.r.data != [] && p.seqNo != s.r.seqNo then true
       else !p.more && (s.r.data != [] || (p.payload != [] && s.receiver.room > 0))
  }

  lemma FailureWedges(s: State, e: Step, s': State)
    requires Handshake(s) && Next(s, e, s') && e == Accept(false) && EndsMessage(s)
    ensures Wedged(s') && s'.handled == s.handled
    ensures s'.r.data != [] && s'.completed == s.completed + [s'.r.data]
  {
    assert Pending(s) == [] && Requests(s.queue) == [];
  }

  /**
   One failed allocation for a non-empty message wedges the pipeline for good: from then on no
   request is ever handled, whatever packets and events follow.
   */
  lemma {:induction false} FailedAllocationWedges(states: seq<State>, steps: seq<Step>, i: nat)
    requires IsRun(Next, states, steps) && Handshake(states[0]) && steps != []
    requires steps[0] == Accept(false) && EndsMessage(states[0])
    requires 1 <= i < |states|
    ensures Wedged(states[i]) && states[i].handled == states[0].handled
    ensures states[1].r.data != [] && states[1].completed == states[0].completed + [states[1].r.data]
  {
    assert Next(states[0], steps[0], states[1]);
    FailureWedges(states[0], steps[0], states[1]);
    if i > 1 {
      FailedAllocationWedges(states, steps, i - 1);
      WedgedStep(states[i - 1], steps[i - 1], states[i]);
    }
  }

  /** Such a run: any one-packet message that is not empty, and the allocation for it fails. */
  lemma FailureReachable(queueMax: nat, p: Packet) returns (s: State)
    requires !p.more && p.payload != []
    ensures Reachable(Next, Start(queueMax), s) && Wedged(s) && s.handled == [] && s.completed == [Clipped(p.payload)]
  {
    var start := Start(queueMax);
    Here(Next, start);
    var held := Apply(start, Arrive(p));
    Extend(Next, start, start, Arrive(p), held);
    s := Apply(held, Accept(false));
    Extend(Next, start, held, Accept(false), s);
    assert [] + Clipped(p.payload) == Clipped(p.payload);
    assert [] + [Clipped(p.payload)] == [Clipped(p.payload)];
  }

  // ------------------------------------------------------------------ in place

  class RxData {
    var valid: bool
    var curSeqNo: u16
    var len: nat
    const data: array<byte>

    ghost predicate Valid()
      reads this, data
    {
      data.Length == BUFFER_SIZE && len <= BUFFER_SIZE
    }

    ghost function View(): Assembly
      requires Valid()
      reads this, data
    {
      Assembly(valid, curSeqNo, data[..len])
    }

    constructor ()
      ensures Valid() && View() == EMPTY && fresh(data)
    {
      data := new byte[BUFFER_SIZE](_ => 0);
      valid, curSeqNo, len := false, 0, 0;
    }

    /** Lines 536-557; the result says whether a completed message is to be handed on. */
    method ProcessPacket(p: Packet, room: nat) returns (complete: bool)
      requires Valid() && !valid && len + room <= BUFFER_SIZE
      modifies this, data
      ensures Valid()
      ensures View() == Absorb(old(View()), p, room)
      ensures complete == valid
    {
      ghost var before := data[..len];
      if len == 0 {
        curSeqNo := p.seqNo;
      }
      if p.seqNo != curSeqNo {
        valid := true;
        return true;
      }
      var n := if |p.payload| < room then |p.payload| else room;
      CopyTo(data, len, p.payload[..n]);
      assert data[..len + n] == data[..len] + data[len..len + n];
      assert data[..len + n] == before + p.payload[..n];
      len := len + n;
      complete := !p.more;
      if complete {
        valid := true;
      }
    }

    /** `serial_read_data`: copies out at most `max` bytes and empties the buffer if a message was there. */
    method ReadInto(out: array<byte>, max: nat) returns (n: nat)
      requires Valid() && out != data && max <= out.Length
      modifies this, out
      ensures Valid()
      ensures n == Min(max, |old(View()).data|)
      ensures out[..n] == if old(valid) then old(View()).data[..n] else old(out[..n])
      ensures out[..n] == ReadBytes(old(View()), old(out[..max]))
      ensures out[n..] == old(out[n..])
      ensures View() == if old(valid) then EMPTY else old(View())
    {
      n := if max < len then max else len;
      if valid {
        var i := 0;
        while i < n
          invariant 0 <= i <= n && valid && len == old(len) && curSeqNo == old(curSeqNo)
          invariant out[..i] == data[..i]
          invariant out[n..] == old(out[n..])
          modifies out
        {
          out[i] := data[i];
          i := i + 1;
        }
        assert out[..n] == data[..len][..n];
        valid, len, curSeqNo := false, 0, 0;
      } else {
        assert out[..n] == out[..max][..n];
      }
    }
  }
}
