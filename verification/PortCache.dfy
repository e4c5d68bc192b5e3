/** The listening-port cache of the router (slave/main/nw_split_router.c:56-68, 279-347), one for TCP and one for UDP. */
module PortCache {
  import opened Bytes

  const WINDOW := 1000

  type u64 = x: int | 0 <= x < 0x1_0000_0000_0000_0000

  datatype Cache = Cache(time: u64, result: bool, port: u16)

  const INITIAL := Cache(0, false, 0)

  /** A question: the port, the time, and the local ports of the listening control blocks at that time. */
  datatype Query = Query(port: u16, now: u64, listening: seq<u16>)

  /** Unsigned 64-bit subtraction. */
  function Elapsed(now: u64, last: u64): u64 {
    (now - last) % 0x1_0000_0000_0000_0000
  }

  predicate Hit(c: Cache, q: Query) {
    c.port == q.port && Elapsed(q.now, c.time) < WINDOW
  }

  predicate Scan(q: Query) {
    q.port in q.listening
  }

  function Answer(c: Cache, q: Query): bool {
    if Hit(c, q) then c.result else Scan(q)
  }

  /** A hit moves the timestamp too. */
  function After(c: Cache, q: Query): Cache {
    Cache(q.now, Answer(c, q), q.port)
  }

  /** The cache before the i-th question of a trace. */
  function Before(qs: seq<Query>, i: nat): Cache
    requires i <= |qs|
  {
    if i == 0 then INITIAL else After(Before(qs, i - 1), qs[i - 1])
  }

  /** From question j to question i, each one is about the same port as the one before and within its window. */
  predicate Chain(qs: seq<Query>, j: nat, i: nat)
    requires j <= i < |qs|
  {
    j == i || (qs[i].port == qs[i - 1].port && Elapsed(qs[i].now, qs[i - 1].now) < WINDOW && Chain(qs, j, i - 1))
  }

  /**
   Every answer about a port other than 0, which the cache starts with, is the scan made at the last miss, reached over an unbroken chain of
   questions about that port, each within the window of the one before.
   */
  lemma {:induction false} AnswerIsScanAtLastMiss(qs: seq<Query>, i: nat) returns (j: nat)
    requires i < |qs| && qs[i].port != 0
    ensures j <= i && qs[j].port == qs[i].port && !Hit(Before(qs, j), qs[j]) && Chain(qs, j, i)
    ensures Answer(Before(qs, i), qs[i]) <==> qs[j].port in qs[j].listening
  {
    if !Hit(Before(qs, i), qs[i]) {
      j := i;
    } else {
      assert i > 0;
      j := AnswerIsScanAtLastMiss(qs, i - 1);
    }
  }

  /** With the same listeners since the last miss, the answer is the plain scan. */
  lemma UnchangedListenersAnswerRight(qs: seq<Query>, i: nat)
    requires i < |qs| && qs[i].port != 0
    requires forall j {:trigger Chain(qs, j, i)} :: 0 <= j < i && Chain(qs, j, i) ==> qs[j].listening == qs[i].listening
    ensures Answer(Before(qs, i), qs[i]) <==> qs[i].port in qs[i].listening
  {
    var j := AnswerIsScanAtLastMiss(qs, i);
  }

  /** A gap of a whole window, or a question about another port, always leads to a fresh scan. */
  lemma FreshAfterGap(qs: seq<Query>, i: nat)
    requires 0 < i < |qs| && (qs[i - 1].port != qs[i].port || Elapsed(qs[i].now, qs[i - 1].now) >= WINDOW)
    ensures Answer(Before(qs, i), qs[i]) <==> qs[i].port in qs[i].listening
  {
  }

  /**
   The window limits the gap between questions, not the age of an answer: a port that is asked about often
   enough keeps its first answer, wrongly, for any number n of questions after it was closed.
   */
  lemma StaleForever(port: u16, n: nat)
    requires port != 0 && n < 0x1_0000_0000_0000
    ensures var qs := ClosedAfterFirst(port, n);
            forall i :: 1 <= i <= n ==> Answer(Before(qs, i), qs[i]) && port !in qs[i].listening
  {
    forall i | 1 <= i <= n
      ensures Answer(Before(ClosedAfterFirst(port, n), i), ClosedAfterFirst(port, n)[i])
    {
      StillAnswered(port, n, i);
    }
  }

  /** A port open at the first question and closed at the n others, asked 999 time units apart. */
  function ClosedAfterFirst(port: u16, n: nat): seq<Query>
    requires n < 0x1_0000_0000_0000
  {
    seq(n + 1, i requires 0 <= i <= n => Query(port, i * (WINDOW - 1), if i == 0 then [port] else []))
  }

  lemma {:induction false} StillAnswered(port: u16, n: nat, i: nat)
    requires port != 0 && i <= n < 0x1_0000_0000_0000
    ensures Answer(Before(ClosedAfterFirst(port, n), i), ClosedAfterFirst(port, n)[i])
  {
    var qs := ClosedAfterFirst(port, n);
    if i > 0 {
      StillAnswered(port, n, i - 1);
      assert Before(qs, i) == Cache((i - 1) * (WINDOW - 1), true, port);
      assert Elapsed(qs[i].now, qs[i - 1].now) == WINDOW - 1;
    }
  }

  // ------------------------------------------------------------------ in place

  class ListenerCache {
    var lastCheckTime: u64
    var lastResult: bool
    var lastPort: u16

    ghost function View(): Cache
      reads this
    {
      Cache(lastCheckTime, lastResult, lastPort)
    }

    constructor ()
      ensures View() == INITIAL
    {
      lastCheckTime, lastResult, lastPort := 0, false, 0;
    }

    /** `is_local_tcp_port_open` and `is_local_udp_port_open`. */
    method IsLocalPortOpen(port: u16, now: u64, pcbs: seq<u16>) returns (open: bool)
      modifies this
      ensures open == Answer(old(View()), Query(port, now, pcbs))
      ensures View() == After(old(View()), Query(port, now, pcbs))
    {
      if lastPort == port && Elapsed(now, lastCheckTime) < WINDOW {
        lastCheckTime := now;
        return lastResult;
      }
      var found := false;
      var i := 0;
      while i < |pcbs| && !found
        invariant 0 <= i <= |pcbs| && (found <==> port in pcbs[..i])
        invariant View() == old(View())
      {
        assert pcbs[..i + 1] == pcbs[..i] + [pcbs[i]];
        found := pcbs[i] == port;
        i := i + 1;
      }
      assert pcbs[..|pcbs|] == pcbs && (found ==> port in pcbs);
      lastCheckTime := now;
      lastResult := found;
      lastPort := port;
      open := found;
    }
  }
}
