/**
 The custom-message callback registry (slave/main/slave_control.c:117-126, 818-846, 900-956), the
 second implementation of it that the host tests use (tests/host/mock_esp_hosted.c:33-91), and the
 handlers the PHY RPC overlay registers in it.
 */
module Registry {
  import opened Bytes
  import opened Wrappers

  const NO_ID: u32 := 0xFFFF_FFFF

  datatype Code = Ok | NoMem | InvalidArg | NotFound

  datatype Handler = Handler(callback: nat, context: nat)

  /** `Free` is a slot whose callback is NULL (in the test double, whose `used` flag is clear). */
  datatype Slot = Free(id: u32) | Taken(id: u32, handler: Handler)

  type Table = map<u32, Handler>

  // ------------------------------------------------------------------ what a registry of capacity n promises

  function Registered(m: Table, n: nat, id: u32, h: Option<Handler>): (r: (Table, Code)) {
    if id == NO_ID then (m, InvalidArg)
    else if id in m then (if h.None? then m - {id} else m[id := h.value], Ok)
    else if h.None? then (m, NotFound)
    else if |m| < n then (m[id := h.value], Ok) else (m, NoMem)
  }

  /** The test double has no reserved id and reports the removal of an unknown id as a full table. */
  function MockRegistered(m: Table, n: nat, id: u32, h: Option<Handler>): (r: (Table, Code)) {
    if id in m then (if h.None? then m - {id} else m[id := h.value], Ok)
    else if h.Some? && |m| < n then (m[id := h.value], Ok) else (m, NoMem)
  }

  datatype Op = Op(id: u32, handler: Option<Handler>)

  predicate IsNew(m: Table, op: Op) {
    op.id !in m && op.handler.Some?
  }

  function Real(m: Table, n: nat, op: Op): Table {
    Registered(m, n, op.id, op.handler).0
  }

  function Mock(m: Table, k: nat, op: Op): Table {
    MockRegistered(m, k, op.id, op.handler).0
  }

  /**
   A slave's registry of capacity n and the host tests' of capacity k agree on one request exactly off the
   reserved id and off removals of unknown ids, and when a new id finds room in both or in neither.
   */
  lemma MockAgreesIff(m: Table, n: nat, k: nat, op: Op)
    requires NO_ID !in m
    ensures MockRegistered(m, k, op.id, op.handler) == Registered(m, n, op.id, op.handler) <==>
              && op.id != NO_ID && (op.handler.Some? || op.id in m)
              && (IsNew(m, op) ==> (|m| < n <==> |m| < k))
    ensures op.id != NO_ID ==> (Mock(m, k, op) == Real(m, n, op) <==> (IsNew(m, op) ==> (|m| < n <==> |m| < k)))
  {
    if IsNew(m, op) {
      assert m[op.id := op.handler.value] != m;
    }
  }

  function AfterReal(m: Table, n: nat, ops: seq<Op>): Table
    decreases |ops|
  {
    if ops == [] then m else AfterReal(Real(m, n, ops[0]), n, ops[1..])
  }

  function AfterMock(m: Table, k: nat, ops: seq<Op>): Table
    decreases |ops|
  {
    if ops == [] then m else AfterMock(Mock(m, k, ops[0]), k, ops[1..])
  }

  /** After every request of a sequence both hold the same callbacks. */
  predicate AgreeThroughout(m1: Table, m2: Table, n: nat, k: nat, ops: seq<Op>)
    decreases |ops|
  {
    m1 == m2 && (ops == [] || AgreeThroughout(Real(m1, n, ops[0]), Mock(m2, k, ops[0]), n, k, ops[1..]))
  }

  /** A registry without a limit never holds more than c callbacks. */
  predicate StaysWithin(m: Table, c: nat, ops: seq<Op>)
    decreases |ops|
  {
    |m| <= c && (ops == [] || StaysWithin(Put(m, ops[0]), c, ops[1..]))
  }

  function Put(m: Table, op: Op): Table {
    if op.handler.None? then m - {op.id} else m[op.id := op.handler.value]
  }

  lemma PutSize(m: Table, op: Op)
    ensures |Put(m, op)| == if IsNew(m, op) then |m| + 1 else if op.handler.None? && op.id in m then |m| - 1 else |m|
  {
    var t := Put(m, op);
    if op.handler.Some? {
      assert t.Keys == m.Keys + {op.id};
      assert op.id in m ==> t.Keys == m.Keys;
    } else {
      assert t.Keys == m.Keys - {op.id};
      assert op.id !in m ==> t.Keys == m.Keys;
    }
  }

  lemma PutIsBoth(m: Table, n: nat, k: nat, op: Op)
    requires op.id != NO_ID && (IsNew(m, op) ==> |m| < n && |m| < k)
    ensures Real(m, n, op) == Put(m, op) == Mock(m, k, op)
  {
    if op.handler.None? && op.id !in m {
      assert m - {op.id} == m;
    }
  }

  /**
   With different capacities, over any sequence of requests that avoids the reserved id, both hold the same
   callbacks throughout exactly if there are never more live ids than fit the smaller of the two.
   */
  lemma {:induction false} MockFollowsIff(m: Table, n: nat, k: nat, ops: seq<Op>)
    requires n != k && |m| <= Min(n, k)
    requires NO_ID !in m && forall i :: 0 <= i < |ops| ==> ops[i].id != NO_ID
    ensures AgreeThroughout(m, m, n, k, ops) <==> StaysWithin(m, Min(n, k), ops)
    decreases |ops|
  {
    if ops != [] {
      var op, rest := ops[0], ops[1..];
      PutSize(m, op);
      if IsNew(m, op) && |m| == Min(n, k) {
        MockAgreesIff(m, n, k, op);
        assert !AgreeThroughout(Real(m, n, op), Mock(m, k, op), n, k, rest);
        assert !StaysWithin(Put(m, op), Min(n, k), rest);
      } else {
        PutIsBoth(m, n, k, op);
        MockFollowsIff(Put(m, op), n, k, rest);
      }
    }
  }

  /** With equal capacities they agree throughout, full or not. */
  lemma {:induction false} MockFollows(m: Table, n: nat, ops: seq<Op>)
    requires NO_ID !in m && forall i :: 0 <= i < |ops| ==> ops[i].id != NO_ID
    ensures AgreeThroughout(m, m, n, n, ops) && AfterMock(m, n, ops) == AfterReal(m, n, ops)
    decreases |ops|
  {
    if ops != [] {
      MockAgreesIff(m, n, n, ops[0]);
      MockFollows(Real(m, n, ops[0]), n, ops[1..]);
    }
  }

  /** What a caller of the registry may conclude from its answer, and what a lookup finds afterwards. */
  lemma RegistrationMeans(m: Table, n: nat, id: u32, h: Option<Handler>)
    ensures var (t, code) := Registered(m, n, id, h);
            && (code == InvalidArg <==> id == NO_ID)
            && (code == NotFound <==> id != NO_ID && id !in m && h.None?)
            && (code == NoMem <==> id != NO_ID && id !in m && h.Some? && |m| >= n)
            && (code != Ok ==> t == m)
            && (code == Ok ==> (id in t <==> h.Some?) && (h.Some? ==> t[id] == h.value))
            && forall k :: k != id ==> (k in t <==> k in m) && (k in m ==> t[k] == m[k])
  {
  }

  /** The handler of the last request for an id that was answered Ok, if it was no removal. */
  function Standing(n: nat, ops: seq<Op>, id: u32): Option<Handler> {
    if ops == [] then None
    else
      var front, last := ops[..|ops| - 1], ops[|ops| - 1];
      if last.id == id && Registered(AfterReal(map[], n, front), n, last.id, last.handler).1 == Ok then last.handler
      else Standing(n, front, id)
  }

  lemma StandingAppend(n: nat, front: seq<Op>, last: Op, id: u32)
    ensures Standing(n, front + [last], id) ==
            if last.id == id && Registered(AfterReal(map[], n, front), n, last.id, last.handler).1 == Ok then last.handler
            else Standing(n, front, id)
  {
    assert (front + [last])[..|front|] == front;
  }

  function Found(m: Table, id: u32): Option<Handler> {
    if id in m then Some(m[id]) else None
  }

  lemma FoundAfter(m: Table, n: nat, op: Op, id: u32)
    ensures Found(Real(m, n, op), id) ==
            if op.id == id && Registered(m, n, op.id, op.handler).1 == Ok then op.handler else Found(m, id)
  {
    RegistrationMeans(m, n, op.id, op.handler);
  }

  lemma StandsAfter(n: nat, ops: seq<Op>, k: nat, id: u32)
    requires k < |ops| && Found(AfterReal(map[], n, ops[..k]), id) == Standing(n, ops[..k], id)
    ensures Found(AfterReal(map[], n, ops[..k + 1]), id) == Standing(n, ops[..k + 1], id)
  {
    var front, last := ops[..k], ops[k];
    AfterAppend(map[], n, front, last);
    StandingAppend(n, front, last, id);
    FoundAfter(AfterReal(map[], n, front), n, last, id);
    assert front + [last] == ops[..k + 1];
  }

  /** After any sequence of requests a lookup finds exactly that handler. */
  lemma LastOkStands(n: nat, ops: seq<Op>, id: u32)
    ensures Found(AfterReal(map[], n, ops), id) == Standing(n, ops, id)
  {
    var k := 0;
    assert ops[..0] == [];
    while k < |ops|
      invariant 0 <= k <= |ops| && Found(AfterReal(map[], n, ops[..k]), id) == Standing(n, ops[..k], id)
    {
      StandsAfter(n, ops, k, id);
      k := k + 1;
    }
    assert ops[..|ops|] == ops;
  }

  lemma RegisteredFits(m: Table, n: nat, id: u32, h: Option<Handler>)
    requires |m| <= n && NO_ID !in m
    ensures |Registered(m, n, id, h).0| <= n && NO_ID !in Registered(m, n, id, h).0
  {
    var r := Registered(m, n, id, h).0;
    if h.Some? && id in m {
      assert m.Keys + {id} == m.Keys;
      assert r.Keys == m.Keys || r == m;
    } else if h.Some? {
      assert r.Keys == m.Keys + {id} || r == m;
    } else {
      assert r.Keys == m.Keys - {id} || r == m;
      assert |m.Keys - {id}| <= |m.Keys|;
    }
  }

  /** No sequence of requests ever holds more than n callbacks or one under the reserved id. */
  lemma {:induction false} NeverOverCapacity(m: Table, n: nat, ops: seq<Op>)
    requires |m| <= n && NO_ID !in m
    ensures |AfterReal(m, n, ops)| <= n && NO_ID !in AfterReal(m, n, ops)
    decreases |ops|
  {
    if ops != [] {
      RegisteredFits(m, n, ops[0].id, ops[0].handler);
      NeverOverCapacity(Real(m, n, ops[0]), n, ops[1..]);
    }
  }

  // ------------------------------------------------------------------ the slot table

  predicate Distinct(s: seq<Slot>) {
    forall i, j :: 0 <= i < j < |s| && s[i].Taken? && s[j].Taken? ==> s[i].id != s[j].id
  }

  /** A slot has no callback exactly when its id is the reserved one. */
  predicate FreeIffReserved(s: seq<Slot>) {
    forall i :: 0 <= i < |s| ==> (s[i].Free? <==> s[i].id == NO_ID)
  }

  function Held(s: seq<Slot>): Table {
    if s == [] then map[]
    else
      var rest, last := Held(s[..|s| - 1]), s[|s| - 1];
      if last.Taken? then rest[last.id := last.handler] else rest
  }

  lemma {:induction false} HeldAt(s: seq<Slot>, i: nat)
    requires Distinct(s) && i < |s| && s[i].Taken?
    ensures s[i].id in Held(s) && Held(s)[s[i].id] == s[i].handler
  {
    var front := s[..|s| - 1];
    if i < |s| - 1 {
      assert front[i] == s[i];
      HeldAt(front, i);
    }
  }

  lemma {:induction false} HeldOnlyAt(s: seq<Slot>, id: u32) returns (i: nat)
    requires id in Held(s)
    ensures i < |s| && s[i].Taken? && s[i].id == id
  {
    var last := s[|s| - 1];
    if last.Taken? && last.id == id {
      i := |s| - 1;
    } else {
      i := HeldOnlyAt(s[..|s| - 1], id);
    }
  }

  lemma NotHeld(s: seq<Slot>, id: u32)
    requires forall i :: 0 <= i < |s| ==> s[i].Taken? ==> s[i].id != id
    ensures id !in Held(s)
  {
    if id in Held(s) {
      var i := HeldOnlyAt(s, id);
    }
  }

  /** Storing a handler under its own id, or in a free slot under a new id, is a map update. */
  lemma HeldSet(s: seq<Slot>, i: nat, id: u32, h: Handler)
    requires Distinct(s) && i < |s|
    requires if s[i].Taken? then s[i].id == id else id !in Held(s)
    ensures Distinct(s[i := Taken(id, h)]) && Held(s[i := Taken(id, h)]) == Held(s)[id := h]
  {
    var t := s[i := Taken(id, h)];
    forall j | 0 <= j < |s| && j != i && s[j].Taken? ensures s[j].id != id {
      HeldAt(s, j);
    }
    HeldAt(t, i);
    forall k | k in Held(t) && k != id ensures k in Held(s) && Held(s)[k] == Held(t)[k] {
      var j := HeldOnlyAt(t, k);
      HeldAt(t, j);
      HeldAt(s, j);
    }
    forall k | k in Held(s) && k != id ensures k in Held(t) {
      var j := HeldOnlyAt(s, k);
      HeldAt(t, j);
    }
  }

  /** Freeing a slot removes its id and nothing else. */
  lemma HeldClear(s: seq<Slot>, i: nat, id: u32)
    requires Distinct(s) && i < |s| && s[i].Taken?
    ensures Distinct(s[i := Free(id)]) && Held(s[i := Free(id)]) == Held(s) - {s[i].id}
  {
    var t := s[i := Free(id)];
    forall k | k in Held(t) ensures k != s[i].id && k in Held(s) && Held(s)[k] == Held(t)[k] {
      var j := HeldOnlyAt(t, k);
      HeldAt(t, j);
      HeldAt(s, j);
      assert t[j] == s[j] && j != i;
    }
    forall k | k in Held(s) && k != s[i].id ensures k in Held(t) {
      var j := HeldOnlyAt(s, k);
      HeldAt(t, j);
    }
  }

  /** There is room exactly when some slot is free. */
  lemma {:induction false} RoomIffFree(s: seq<Slot>)
    requires Distinct(s)
    ensures |Held(s)| <= |s|
    ensures |Held(s)| == |s| <==> forall i :: 0 <= i < |s| ==> s[i].Taken?
  {
    if s != [] {
      var front, last := s[..|s| - 1], s[|s| - 1];
      RoomIffFree(front);
      if last.Taken? {
        NotHeld(front, last.id);
        assert Held(s).Keys == Held(front).Keys + {last.id};
        assert |Held(s).Keys| == |Held(front).Keys| + 1;
      }
      assert (forall i :: 0 <= i < |front| ==> front[i].Taken?) <== forall i :: 0 <= i < |s| ==> s[i].Taken?;
    }
  }

  // ------------------------------------------------------------------ registering a table of handlers

  predicate AllDistinct(ids: seq<u32>) {
    forall i, j :: 0 <= i < j < |ids| ==> ids[i] != ids[j]
  }

  /** The overlay's loops register each id in turn, with a null context, and carry on after a refusal. */
  function Requests(ids: seq<u32>): seq<Op> {
    seq(|ids|, i requires 0 <= i < |ids| => Op(ids[i], Some(Handler(i, 0))))
  }

  lemma {:induction false} AfterAppend(m: Table, n: nat, ops: seq<Op>, last: Op)
    ensures AfterReal(m, n, ops + [last]) == Real(AfterReal(m, n, ops), n, last)
    decreases |ops|
  {
    if ops == [] {
      assert ops + [last] == [last];
      assert [last][1..] == [];
    } else {
      assert (ops + [last])[0] == ops[0] && (ops + [last])[1..] == ops[1..] + [last];
      AfterAppend(Real(m, n, ops[0]), n, ops[1..], last);
    }
  }

  predicate FirstServed(m: Table, n: nat, ids: seq<u32>) {
    && |m| == Min(n, |ids|)
    && (forall j :: 0 <= j < |ids| ==> (ids[j] in m <==> j < n))
    && (forall j :: 0 <= j < |ids| && j < n ==> m[ids[j]] == Handler(j, 0))
    && (forall id :: id in m ==> id in ids)
  }

  lemma OneMore(m: Table, n: nat, ids: seq<u32>, id: u32)
    requires FirstServed(m, n, ids) && id != NO_ID && id !in ids
    ensures FirstServed(Registered(m, n, id, Some(Handler(|ids|, 0))).0, n, ids + [id])
  {
    var m' := Registered(m, n, id, Some(Handler(|ids|, 0))).0;
    assert id !in m;
    if |ids| < n {
      assert m'.Keys == m.Keys + {id};
      assert |m'.Keys| == |m.Keys| + 1;
    } else {
      assert m' == m;
    }
  }

  lemma RequestsSplit(ids: seq<u32>)
    requires ids != []
    ensures var k := |ids| - 1; Requests(ids) == Requests(ids[..k]) + [Op(ids[k], Some(Handler(k, 0)))]
  {
  }

  lemma ServedAfter(n: nat, ids: seq<u32>, k: nat)
    requires k < |ids| && ids[k] != NO_ID && ids[k] !in ids[..k]
    requires FirstServed(AfterReal(map[], n, Requests(ids[..k])), n, ids[..k])
    ensures FirstServed(AfterReal(map[], n, Requests(ids[..k + 1])), n, ids[..k + 1])
  {
    var front, last := ids[..k], Op(ids[k], Some(Handler(k, 0)));
    assert front + [ids[k]] == ids[..k + 1];
    RequestsSplit(ids[..k + 1]);
    assert ids[..k + 1][..k] == front;
    AfterAppend(map[], n, Requests(front), last);
    OneMore(AfterReal(map[], n, Requests(front)), n, front, ids[k]);
  }

  /** Registering distinct ids in an empty registry keeps exactly the first n of them, each with its own handler. */
  lemma FirstComeFirstServed(n: nat, ids: seq<u32>)
    requires AllDistinct(ids) && NO_ID !in ids
    ensures FirstServed(AfterReal(map[], n, Requests(ids)), n, ids)
  {
    var k := 0;
    assert ids[..0] == [];
    while k < |ids|
      invariant 0 <= k <= |ids| && FirstServed(AfterReal(map[], n, Requests(ids[..k])), n, ids[..k])
    {
      ServedAfter(n, ids, k);
      k := k + 1;
    }
    assert ids[..|ids|] == ids;
  }

  // ------------------------------------------------------------------ the overlay's handlers

  const BASE: u32 := 0xC175_0000

  const HANDLERS: seq<int> :=
    [0x01, 0x02, 0x03, 0x04, 0x05, 0x06, 0x07, 0x08, 0x09, 0x0A, 0x0B, 0x0C, 0x0D, 0x10, 0x11, 0x12,
     0x13, 0x14, 0x15, 0x16, 0x17, 0x18, 0x19, 0x1A, 0x1B, 0x1C, 0x1D, 0x1E]
  const EXTRAS: seq<int> := [0x20, 0x21, 0x22, 0x23, 0x24, 0x25, 0x26, 0x27]
  const WIRELESS: seq<int> := [0x30, 0x31, 0x35, 0x32, 0x33, 0x34, 0x40, 0x41, 0x42, 0x43, 0x44]

  /** PHY_RPC_MSG_REQ, for the 12-bit numbers it is used with. */
  function ReqId(low: int): u32 {
    BASE + low % 0x1000
  }

  function ReqIds(lows: seq<int>): seq<u32> {
    seq(|lows|, i requires 0 <= i < |lows| => ReqId(lows[i]))
  }

  /** The three registration tables in the order their loops run. */
  const OVERLAY: seq<u32> := ReqIds(HANDLERS + EXTRAS + WIRELESS)

  const GET_CAPS_AT := 27

  lemma HandlersAt(i: nat)
    requires i < 28
    ensures |HANDLERS| == 28 && HANDLERS[i] == if i < 13 then i + 1 else i + 3
  {
  }

  lemma ExtrasAt(i: nat)
    requires i < 8
    ensures |EXTRAS| == 8 && EXTRAS[i] == 0x20 + i
  {
  }

  /** Where a wireless id stands among the wireless ids. */
  function WirelessPlace(low: int): int {
    if low == 0x35 then 2 else if low <= 0x31 then low - 0x30 else if low <= 0x34 then low - 0x2F else low - 0x3A
  }

  lemma WirelessAt(i: nat)
    requires i < 11
    ensures |WIRELESS| == 11 && 0x30 <= WIRELESS[i] < 0x100 && WirelessPlace(WIRELESS[i]) == i
  {
  }

  /** The place in the registration order can be computed from the id alone, so no id is listed twice. */
  function PlaceOf(low: int): int {
    if low <= 13 then low - 1 else if low < 0x20 then low - 3
    else if low < 0x30 then low - 4 else 36 + WirelessPlace(low)
  }

  lemma LowIdAt(i: nat)
    requires i < 47
    ensures |HANDLERS + EXTRAS + WIRELESS| == 47
    ensures var low := (HANDLERS + EXTRAS + WIRELESS)[i]; 0 < low < 0x100 && PlaceOf(low) == i
  {
    HandlersAt(Min(i, 27));
    ExtrasAt(if 28 <= i < 36 then i - 28 else 0);
    WirelessAt(if 36 <= i then i - 36 else 0);
  }

  lemma OverlayIds()
    ensures |OVERLAY| == 47 && AllDistinct(OVERLAY) && NO_ID !in OVERLAY
    ensures OVERLAY[GET_CAPS_AT] == 0xC175_001E
  {
    HandlersAt(27);
    LowIdAt(27);
    var lows := HANDLERS + EXTRAS + WIRELESS;
    forall i | 0 <= i < 47 ensures 0 < lows[i] < 0x100 && PlaceOf(lows[i]) == i && OVERLAY[i] == BASE + lows[i] {
      LowIdAt(i);
    }
  }

  /**
   After the overlay's three registration loops, the handler at place j answers exactly when j is below
   the capacity: all 47 answer only if the capacity is at least 47, GET_CAPS only if it is at least 28.
   */
  lemma OverlayAnswersIff(n: nat)
    ensures var m := AfterReal(map[], n, Requests(OVERLAY));
            && (forall j :: 0 <= j < |OVERLAY| ==> (OVERLAY[j] in m <==> j < n))
            && ((forall j :: 0 <= j < |OVERLAY| ==> OVERLAY[j] in m) <==> n >= 47)
            && (0xC175_001E in m <==> n >= 28)
  {
    OverlayIds();
    FirstComeFirstServed(n, OVERLAY);
    var m := AfterReal(map[], n, Requests(OVERLAY));
    if n < 47 {
      assert OVERLAY[46] !in m;
    }
    assert OVERLAY[GET_CAPS_AT] in m <==> n >= 28;
  }

  const MAX_CB := 64

  /** So the host tests' registry takes all the overlay's handlers, and no slave of fewer than 47 slots follows it. */
  lemma OverlayFitsMockOnly(n: nat)
    requires n < 47
    ensures |AfterMock(map[], MAX_CB, Requests(OVERLAY))| == 47
    ensures |AfterReal(map[], n, Requests(OVERLAY))| == n
    ensures !AgreeThroughout(map[], map[], n, MAX_CB, Requests(OVERLAY))
  {
    OverlayIds();
    MockFollows(map[], MAX_CB, Requests(OVERLAY));
    FirstComeFirstServed(MAX_CB, OVERLAY);
    FirstComeFirstServed(n, OVERLAY);
    if AgreeThroughout(map[], map[], n, MAX_CB, Requests(OVERLAY)) {
      AgreeAtEnd(map[], map[], n, MAX_CB, Requests(OVERLAY));
    }
  }

  lemma {:induction false} AgreeAtEnd(m1: Table, m2: Table, n: nat, k: nat, ops: seq<Op>)
    requires AgreeThroughout(m1, m2, n, k, ops)
    ensures AfterReal(m1, n, ops) == AfterMock(m2, k, ops)
    decreases |ops|
  {
    if ops != [] {
      AgreeAtEnd(Real(m1, n, ops[0]), Mock(m2, k, ops[0]), n, k, ops[1..]);
    }
  }

  // ------------------------------------------------------------------ in place

  /** The first request of the loop that finds or creates the mutex. */
  function FirstServedAt(haveMutex: bool, ids: seq<u32>, mutexOk: seq<bool>): (i: nat)
    requires |mutexOk| == |ids|
    ensures i <= |ids| && (haveMutex ==> i == 0)
    ensures !haveMutex ==> (i < |ids| ==> mutexOk[i] && ids[i] != NO_ID) && forall j :: 0 <= j < i ==> !mutexOk[j] || ids[j] == NO_ID
  {
    if haveMutex || ids == [] || (mutexOk[0] && ids[0] != NO_ID) then 0
    else 1 + FirstServedAt(haveMutex, ids[1..], mutexOk[1..])
  }

  lemma OneRequestMore(m: Table, n: nat, ids: seq<u32>, first: nat, i: nat)
    requires first <= i < |ids|
    ensures AfterReal(m, n, Requests(ids)[first..i + 1]) ==
            Registered(AfterReal(m, n, Requests(ids)[first..i]), n, ids[i], Some(Handler(i, 0))).0
  {
    var all := Requests(ids);
    assert all[first..i + 1] == all[first..i] + [all[i]];
    AfterAppend(m, n, all[first..i], all[i]);
  }

  class CallbackTable {
    const slots: array<Slot>
    var haveMutex: bool

    ghost predicate Valid()
      reads this, slots
    {
      && Distinct(slots[..]) && FreeIffReserved(slots[..])
      && (!haveMutex ==> forall i :: 0 <= i < slots.Length ==> slots[i].Free?)
    }

    ghost function Contents(): Table
      reads this, slots
    {
      Held(slots[..])
    }

    constructor (n: nat)
      ensures Valid() && Contents() == map[] && slots.Length == n && fresh(slots)
    {
      slots := new Slot[n](_ => Free(NO_ID));
      haveMutex := false;
      new;
      if Held(slots[..]).Keys != {} {
        var id :| id in Held(slots[..]);
        var i := HeldOnlyAt(slots[..], id);
      }
    }

    /** `esp_hosted_register_custom_callback`; `mutexOk` is whether the mutex can be created on first use. */
    method Register(id: u32, h: Option<Handler>, mutexOk: bool) returns (code: Code)
      requires Valid()
      modifies this, slots
      ensures Valid() && haveMutex == (old(haveMutex) || (mutexOk && id != NO_ID))
      ensures old(haveMutex) || mutexOk ==> (Contents(), code) == Registered(old(Contents()), slots.Length, id, h)
      ensures !old(haveMutex) && !mutexOk ==>
                Contents() == old(Contents()) && code == if id == NO_ID then InvalidArg else NoMem
    {
      if id == NO_ID {
        return InvalidArg;
      }
      if !haveMutex {
        if !mutexOk {
          return NoMem;
        }
        haveMutex := true;
      }
      ghost var s := slots[..];
      for i := 0 to slots.Length
        invariant slots[..] == s && haveMutex
        invariant forall j :: 0 <= j < i ==> slots[j].id != id
      {
        if slots[i].id == id {
          HeldAt(s, i);
          if h.None? {
            HeldClear(s, i, NO_ID);
            slots[i] := Free(NO_ID);
          } else {
            HeldSet(s, i, id, h.value);
            slots[i] := Taken(id, h.value);
          }
          assert slots[..] == s[i := slots[i]];
          return Ok;
        }
      }
      NotHeld(s, id);
      if h.None? {
        return NotFound;
      }
      RoomIffFree(s);
      for i := 0 to slots.Length
        invariant slots[..] == s && haveMutex
        invariant forall j :: 0 <= j < i ==> slots[j].Taken?
      {
        if slots[i].Free? {
          assert s[i].Free?;
          HeldSet(s, i, id, h.value);
          slots[i] := Taken(id, h.value);
          assert slots[..] == s[i := slots[i]];
          return Ok;
        }
      }
      code := NoMem;
    }

    /** `handle_custom_rpc_request` up to the call of the handler. */
    method Dispatch(id: u32) returns (code: Code, h: Option<Handler>)
      requires Valid()
      ensures id == NO_ID ==> code == InvalidArg && h == None
      ensures id != NO_ID && id in Contents() ==> code == Ok && h == Some(Contents()[id])
      ensures id != NO_ID && id !in Contents() ==> code == NotFound && h == None
    {
      if id == NO_ID {
        return InvalidArg, None;
      }
      if haveMutex {
        for i := 0 to slots.Length
          invariant forall j :: 0 <= j < i ==> slots[j].id != id
        {
          if slots[i].id == id && slots[i].Taken? {
            HeldAt(slots[..], i);
            return Ok, Some(slots[i].handler);
          }
        }
      }
      NotHeld(slots[..], id);
      return NotFound, None;
    }

    /** One turn of a registration loop, whose requests act on the table from the `first` on. */
    method RegisterOne(ids: seq<u32>, i: nat, mutexOk: bool, ghost before: Table, ghost first: nat)
      requires Valid() && i < |ids|
      requires i < first ==> !haveMutex && (!mutexOk || ids[i] == NO_ID) && Contents() == before
      requires first <= i ==> (haveMutex || (mutexOk && ids[i] != NO_ID))
      requires first <= i ==> Contents() == AfterReal(before, slots.Length, Requests(ids)[first..i])
      modifies this, slots
      ensures Valid() && haveMutex == (old(haveMutex) || first <= i)
      ensures i < first ==> Contents() == before
      ensures first <= i ==> Contents() == AfterReal(before, slots.Length, Requests(ids)[first..i + 1])
    {
      var _ := Register(ids[i], Some(Handler(i, 0)), mutexOk);
      if first <= i {
        OneRequestMore(before, slots.Length, ids, first, i);
      }
    }

    /**
     One registration loop of the overlay over its table of ids; `mutexOk[i]` is whether the mutex could be
     created at the i-th call, should it not exist by then. Calls before it exists are refused.
     */
    method RegisterAll(ids: seq<u32>, mutexOk: seq<bool>)
      requires Valid() && |mutexOk| == |ids|
      modifies this, slots
      ensures Valid()
      ensures Contents() == AfterReal(old(Contents()), slots.Length, Requests(ids)[FirstServedAt(old(haveMutex), ids, mutexOk)..])
    {
      ghost var first, before, all := FirstServedAt(haveMutex, ids, mutexOk), Contents(), Requests(ids);
      assert all[first..first] == [];
      for i := 0 to |ids|
        invariant Valid() && (haveMutex <==> old(haveMutex) || first < i)
        invariant i <= first ==> Contents() == before
        invariant first <= i ==> Contents() == AfterReal(before, slots.Length, all[first..i])
      {
        RegisterOne(ids, i, mutexOk[i], before, first);
      }
      assert all[first..|ids|] == all[first..];
    }
  }

  /** The host tests' table: a `used` flag instead of a reserved id; freed slots keep their stale id. */
  class MockTable {
    const slots: array<Slot>

    ghost predicate Valid()
      reads this, slots
    {
      Distinct(slots[..])
    }

    ghost function Contents(): Table
      reads this, slots
    {
      Held(slots[..])
    }

    constructor (n: nat)
      ensures Valid() && Contents() == map[] && slots.Length == n && fresh(slots)
    {
      slots := new Slot[n](_ => Free(0));
      new;
      if Held(slots[..]).Keys != {} {
        var id :| id in Held(slots[..]);
        var i := HeldOnlyAt(slots[..], id);
      }
    }

    method Register(id: u32, h: Option<Handler>) returns (code: Code)
      requires Valid()
      modifies slots
      ensures Valid() && (Contents(), code) == MockRegistered(old(Contents()), slots.Length, id, h)
    {
      ghost var s := slots[..];
      for i := 0 to slots.Length
        invariant slots[..] == s
        invariant forall j :: 0 <= j < i ==> slots[j].Taken? ==> slots[j].id != id
      {
        if slots[i].Taken? && slots[i].id == id {
          HeldAt(s, i);
          if h.Some? {
            HeldSet(s, i, id, h.value);
            slots[i] := Taken(id, h.value);
          } else {
            HeldClear(s, i, id);
            slots[i] := Free(id);
          }
          assert slots[..] == s[i := slots[i]];
          return Ok;
        }
      }
      NotHeld(s, id);
      RoomIffFree(s);
      if h.Some? {
        for i := 0 to slots.Length
          invariant slots[..] == s
          invariant forall j :: 0 <= j < i ==> slots[j].Taken?
        {
          if slots[i].Free? {
            assert s[i].Free?;
            HeldSet(s, i, id, h.value);
            slots[i] := Taken(id, h.value);
            assert slots[..] == s[i := slots[i]];
            return Ok;
          }
        }
      }
      code := NoMem;
    }

    method Lookup(id: u32) returns (h: Option<Handler>)
      requires Valid()
      ensures h == if id in Contents() then Some(Contents()[id]) else None
    {
      for i := 0 to slots.Length
        invariant forall j :: 0 <= j < i ==> slots[j].Taken? ==> slots[j].id != id
      {
        if slots[i].Taken? && slots[i].id == id {
          HeldAt(slots[..], i);
          return Some(slots[i].handler);
        }
      }
      NotHeld(slots[..], id);
      h := None;
    }
  }
}
