/** The port-list parser of the network-split router (slave/main/nw_split_router.c:86-152). */
module PortList {
  import opened Bytes

  predicate IsDigit(c: char) {
    '0' <= c <= '9'
  }

  function DigitValue(c: char): (d: nat)
    requires IsDigit(c)
    ensures d < 10
  {
    c as int - '0' as int
  }

  function DigitChar(d: nat): (c: char)
    requires d < 10
    ensures IsDigit(c) && DigitValue(c) == d
  {
    ('0' as int + d) as char
  }

  predicate Digits(ds: seq<char>) {
    forall i :: 0 <= i < |ds| ==> IsDigit(ds[i])
  }

  /** `atoi` of a string of digits. */
  function Value(ds: seq<char>): nat
    requires Digits(ds)
  {
    if ds == [] then 0 else 10 * Value(ds[..|ds| - 1]) + DigitValue(ds[|ds| - 1])
  }

  lemma {:induction false} ValueBound(ds: seq<char>)
    requires Digits(ds) && |ds| <= 4
    ensures |ds| == 0 ==> Value(ds) < 1
    ensures |ds| == 1 ==> Value(ds) < 10
    ensures |ds| == 2 ==> Value(ds) < 100
    ensures |ds| == 3 ==> Value(ds) < 1000
    ensures Value(ds) < 1_0000
  {
    if ds != [] {
      ValueBound(ds[..|ds| - 1]);
    }
  }

  /** What a run of digits becomes: the number its first four digits write. */
  function PortOf(ds: seq<char>): u16
    requires Digits(ds)
  {
    ValueBound(ds[..Min(|ds|, 4)]);
    Value(ds[..Min(|ds|, 4)])
  }

  // ------------------------------------------------------------------ the list a string stands for

  /** The tokens between commas. */
  function Tokens(s: seq<char>): (r: seq<seq<char>>)
    ensures r != []
  {
    if s == [] then [[]]
    else
      var front, last := Tokens(s[..|s| - 1]), s[|s| - 1];
      if last == ',' then front + [[]] else front[..|front| - 1] + [front[|front| - 1] + [last]]
  }

  function DigitsOf(token: seq<char>): (r: seq<char>)
    ensures Digits(r)
  {
    if token == [] then []
    else DigitsOf(token[..|token| - 1]) + if IsDigit(token[|token| - 1]) then [token[|token| - 1]] else []
  }

  /** One port for each token with a digit in it. */
  function PortsOf(tokens: seq<seq<char>>): seq<u16> {
    if tokens == [] then []
    else PortsOf(tokens[..|tokens| - 1]) +
         if DigitsOf(tokens[|tokens| - 1]) == [] then [] else [PortOf(DigitsOf(tokens[|tokens| - 1]))]
  }

  function Listed(s: seq<char>): seq<u16> {
    PortsOf(Tokens(s))
  }

  // ------------------------------------------------------------------ the same list, as the loop sees it

  function Flush(ds: seq<char>): seq<u16>
    requires Digits(ds)
  {
    if ds == [] then [] else [PortOf(ds)]
  }

  /** The digits since the last comma. */
  function Current(s: seq<char>): (r: seq<char>)
    ensures Digits(r)
  {
    if s == [] then []
    else
      var front, last := Current(s[..|s| - 1]), s[|s| - 1];
      if last == ',' then [] else if IsDigit(last) then front + [last] else front
  }

  /** The ports of the tokens already closed by a comma. */
  function Closed(s: seq<char>): seq<u16> {
    if s == [] then []
    else
      var front := s[..|s| - 1];
      if s[|s| - 1] == ',' then Closed(front) + Flush(Current(front)) else Closed(front)
  }

  /** All that a scan has seen: the closed tokens and the one being read. */
  function Seen(s: seq<char>): seq<u16> {
    Closed(s) + Flush(Current(s))
  }

  /** Scanning from the left finds the ports of the tokens. */
  lemma {:induction false} ScanIsListed(s: seq<char>)
    ensures Listed(s) == Seen(s)
    ensures Current(s) == DigitsOf(Tokens(s)[|Tokens(s)| - 1]) && Closed(s) == PortsOf(Tokens(s)[..|Tokens(s)| - 1])
  {
    if s != [] {
      var front, last := s[..|s| - 1], s[|s| - 1];
      ScanIsListed(front);
      var t := Tokens(front);
      if last == ',' {
        assert (t + [[]])[..|t|] == t;
      } else {
        var token := t[|t| - 1] + [last];
        assert Tokens(s) == t[..|t| - 1] + [token];
        assert (t[..|t| - 1] + [token])[..|t| - 1] == t[..|t| - 1];
        assert token[..|token| - 1] == t[|t| - 1];
        assert DigitsOf(token) == Current(s);
      }
    }
  }

  /** How one more character changes both. */
  lemma OneChar(s: seq<char>, c: char)
    ensures Current(s + [c]) == if c == ',' then [] else if IsDigit(c) then Current(s) + [c] else Current(s)
    ensures Closed(s + [c]) == if c == ',' then Seen(s) else Closed(s)
  {
    assert (s + [c])[..|s|] == s;
  }

  lemma NextChar(s: seq<char>, i: nat)
    requires i < |s|
    ensures var c, cur := s[i], Current(s[..i]);
            && Current(s[..i + 1]) == (if c == ',' then [] else if IsDigit(c) then cur + [c] else cur)
            && Closed(s[..i + 1]) == if c == ',' then Closed(s[..i]) + Flush(cur) else Closed(s[..i])
  {
    assert s[..i + 1] == s[..i] + [s[i]];
    OneChar(s[..i], s[i]);
  }

  lemma {:induction false} ClosedGrows(s: seq<char>, i: nat)
    requires i <= |s|
    ensures Closed(s[..i]) <= Closed(s)
    decreases |s| - i
  {
    if i == |s| {
      assert s[..i] == s;
    } else {
      NextChar(s, i);
      ClosedGrows(s, i + 1);
    }
  }

  // ------------------------------------------------------------------ printing and parsing back

  function Dec(n: nat): (r: seq<char>)
    ensures r != [] && Digits(r)
  {
    (if n < 10 then [] else Dec(n / 10)) + [DigitChar(n % 10)]
  }

  /** The decimal numbers of a list, joined by commas. */
  function Print(ports: seq<u16>): seq<char> {
    if ports == [] then []
    else if |ports| == 1 then Dec(ports[0])
    else Print(ports[..|ports| - 1]) + [','] + Dec(ports[|ports| - 1])
  }

  lemma {:induction false} DecShort(n: nat)
    requires n < 1_0000
    ensures Value(Dec(n)) == n
    ensures |Dec(n)| <= 4 && (n < 1000 ==> |Dec(n)| <= 3) && (n < 100 ==> |Dec(n)| <= 2) && (n < 10 ==> |Dec(n)| == 1)
    ensures n >= 1000 ==> |Dec(n)| == 4
    ensures n >= 100 ==> |Dec(n)| >= 3
    ensures n >= 10 ==> |Dec(n)| >= 2
  {
    if n >= 10 {
      DecShort(n / 10);
      assert Dec(n)[..|Dec(n)| - 1] == Dec(n / 10);
    }
  }

  lemma FirstDigits(ds: seq<char>, x: seq<char>)
    requires Digits(ds) && x <= ds && |x| == Min(|ds|, 4)
    ensures Digits(x) && PortOf(ds) == Value(x)
  {
    assert ds[..Min(|ds|, 4)] == x;
  }

  /** A printed port comes back as itself, or without its last digit if it has five. */
  lemma PrintedPort(p: u16)
    ensures PortOf(Dec(p)) == Cut(p)
  {
    if p <= 9999 {
      DecShort(p);
      FirstDigits(Dec(p), Dec(p));
    } else {
      DecShort(p / 10);
      assert Dec(p) == Dec(p / 10) + [DigitChar(p % 10)];
      FirstDigits(Dec(p), Dec(p / 10));
    }
  }

  lemma {:induction false} AppendDigits(s: seq<char>, ds: seq<char>)
    requires Digits(ds)
    ensures Current(s + ds) == Current(s) + ds && Closed(s + ds) == Closed(s)
  {
    if ds == [] {
      assert s + ds == s;
    } else {
      var front, last := ds[..|ds| - 1], ds[|ds| - 1];
      AppendDigits(s, front);
      assert s + ds == (s + front) + [last];
      OneChar(s + front, last);
      assert Current(s) + front + [last] == Current(s) + ds;
    }
  }

  function Cut(p: u16): u16 {
    if p <= 9999 then p else p / 10
  }

  function CutAll(ports: seq<u16>): (r: seq<u16>)
    ensures |r| == |ports| && forall i :: 0 <= i < |ports| ==> r[i] == Cut(ports[i])
  {
    seq(|ports|, i requires 0 <= i < |ports| => Cut(ports[i]))
  }

  lemma DigitsAfterComma(s: seq<char>, ds: seq<char>)
    requires Current(s) == [] && Digits(ds) && ds != []
    ensures Seen(s + ds) == Closed(s) + [PortOf(ds)]
  {
    AppendDigits(s, ds);
    assert [] + ds == ds;
  }

  lemma DigitsAlone(ds: seq<char>)
    requires Digits(ds) && ds != []
    ensures Seen(ds) == [PortOf(ds)]
  {
    var none: seq<char> := [];
    DigitsAfterComma(none, ds);
    assert none + ds == ds;
    assert Closed(none) + [PortOf(ds)] == [PortOf(ds)];
  }

  /** A comma and one more printed port add that port, cut to four digits, to what the scan sees. */
  lemma OnePortMore(s: seq<char>, p: u16)
    ensures Seen(s + [','] + Dec(p)) == Seen(s) + [Cut(p)]
  {
    OneChar(s, ',');
    DigitsAfterComma(s + [','], Dec(p));
    PrintedPort(p);
  }

  lemma PrintedMore(ports: seq<u16>)
    requires |ports| > 1
    requires var front := ports[..|ports| - 1]; Seen(Print(front)) == CutAll(front)
    ensures Seen(Print(ports)) == CutAll(ports)
  {
    var front, last := ports[..|ports| - 1], ports[|ports| - 1];
    OnePortMore(Print(front), last);
    assert CutAll(ports) == CutAll(front) + [Cut(last)];
  }

  lemma PrintedOne(ports: seq<u16>)
    requires |ports| == 1
    ensures Seen(Print(ports)) == CutAll(ports)
  {
    DigitsAlone(Dec(ports[0]));
    PrintedPort(ports[0]);
    assert CutAll(ports) == [Cut(ports[0])];
  }

  lemma {:induction false} PrintedList(ports: seq<u16>)
    ensures Seen(Print(ports)) == CutAll(ports)
  {
    if |ports| == 1 {
      PrintedOne(ports);
    } else if ports != [] {
      PrintedList(ports[..|ports| - 1]);
      PrintedMore(ports);
    }
  }

  /** What the parser stores: the listed ports, up to the size of its array. */
  function Parsed(s: seq<char>, max: nat): seq<u16> {
    Listed(s)[..Min(|Listed(s)|, max)]
  }

  lemma ParsedPrint(ports: seq<u16>, max: nat)
    ensures Parsed(Print(ports), max) == CutAll(ports)[..Min(|ports|, max)]
  {
    var s := Print(ports);
    PrintedList(ports);
    ScanIsListed(s);
  }

  lemma CutIff(ports: seq<u16>, max: nat)
    ensures CutAll(ports)[..Min(|ports|, max)] == ports <==>
              |ports| <= max && forall i :: 0 <= i < |ports| ==> ports[i] <= 9999
  {
    var r := CutAll(ports);
    assert r[..|r|] == r;
    if |ports| <= max && forall i :: 0 <= i < |ports| ==> ports[i] <= 9999 {
      assert r == ports;
    } else if |ports| <= max {
      var i :| 0 <= i < |ports| && ports[i] > 9999;
      assert r[i] != ports[i];
    }
  }

  /** Parsing inverts printing exactly for lists that fit the array and hold no port above 9999. */
  lemma RoundTripIff(ports: seq<u16>, max: nat)
    ensures Parsed(Print(ports), max) == ports <==> |ports| <= max && forall i :: 0 <= i < |ports| ==> ports[i] <= 9999
  {
    ParsedPrint(ports, max);
    CutIff(ports, max);
  }

  /** Some listed port that found room in the array reads back as q. */
  predicate Reserves(ports: seq<u16>, max: nat, q: u16) {
    exists i :: 0 <= i < |ports| && i < max && Cut(ports[i]) == q
  }

  /** What a printed list allows: never a port above 9999, whatever it lists. */
  lemma AllowedIff(ports: seq<u16>, max: nat, q: u16)
    ensures q in Parsed(Print(ports), max) <==> Reserves(ports, max, q)
    ensures Reserves(ports, max, q) ==> q <= 9999
  {
    ParsedPrint(ports, max);
    var r := CutAll(ports)[..Min(|ports|, max)];
    if q in r {
      var i :| 0 <= i < |r| && r[i] == q;
      assert Cut(ports[i]) == q;
    }
    if Reserves(ports, max, q) {
      var i :| 0 <= i < |ports| && i < max && Cut(ports[i]) == q;
      assert r[i] == q;
    }
  }

  /** Every listed port has at most four digits and stands where there is room. */
  predicate AllKept(ports: seq<u16>, max: nat) {
    forall p :: p in ports ==> p <= 9999 && p in ports[..Min(|ports|, max)]
  }

  lemma KeptReserves(ports: seq<u16>, max: nat, q: u16)
    requires AllKept(ports, max)
    ensures Reserves(ports, max, q) <==> q in ports
  {
    if q in ports {
      var i :| 0 <= i < Min(|ports|, max) && ports[..Min(|ports|, max)][i] == q;
      assert Cut(ports[i]) == q;
    }
    if Reserves(ports, max, q) {
      var i :| 0 <= i < |ports| && i < max && Cut(ports[i]) == q;
      assert ports[i] in ports;
    }
  }

  lemma ReservesKeeps(ports: seq<u16>, max: nat, p: u16)
    requires p in ports
    requires forall q: u16 :: (Reserves(ports, max, q) <==> q in ports) && (Reserves(ports, max, q) ==> q <= 9999)
    ensures p <= 9999 && p in ports[..Min(|ports|, max)]
  {
    assert Reserves(ports, max, p);
    var i :| 0 <= i < |ports| && i < max && Cut(ports[i]) == p;
    assert ports[i] in ports && Reserves(ports, max, ports[i]);
    assert ports[..Min(|ports|, max)][i] == p;
  }

  /** A printed list allows exactly the ports it lists if and only if none has five digits and each finds room. */
  lemma AllowsWhatItListsIff(ports: seq<u16>, max: nat)
    ensures (forall q: u16 :: q in Parsed(Print(ports), max) <==> q in ports) <==> AllKept(ports, max)
  {
    forall q: u16 ensures (q in Parsed(Print(ports), max) <==> Reserves(ports, max, q)) && (Reserves(ports, max, q) ==> q <= 9999) {
      AllowedIff(ports, max, q);
    }
    if AllKept(ports, max) {
      forall q: u16 ensures Reserves(ports, max, q) <==> q in ports {
        KeptReserves(ports, max, q);
      }
    }
    if forall q: u16 :: q in Parsed(Print(ports), max) <==> q in ports {
      assert forall q: u16 :: (Reserves(ports, max, q) <==> q in ports) && (Reserves(ports, max, q) ==> q <= 9999);
      forall p | p in ports ensures p <= 9999 && p in ports[..Min(|ports|, max)] {
        ReservesKeeps(ports, max, p);
      }
    }
  }

  /** Wherever the scan stops, at the end or with the array full, it has what it should have. */
  lemma Finish(s: seq<char>, i: nat)
    requires i <= |s|
    ensures i == |s| ==> Listed(s) == Seen(s[..i])
    ensures Closed(s[..i]) <= Listed(s)
  {
    ScanIsListed(s);
    ClosedGrows(s, i);
    assert s[..|s|] == s;
  }

  // ------------------------------------------------------------------ in place

  /** One of the four allow lists, with its count and its initialised flag. */
  class AllowList {
    const ports: array<u16>
    var count: nat
    var initialized: bool

    ghost predicate Valid()
      reads this
    {
      count <= ports.Length
    }

    ghost function Allowed(): seq<u16>
      reads this, ports
      requires Valid()
    {
      ports[..count]
    }

    constructor (max: nat)
      ensures Valid() && Allowed() == [] && !initialized && ports.Length == max && fresh(ports)
    {
      ports := new u16[max](_ => 0);
      count, initialized := 0, false;
    }

    /** `init_allowed_ports`: only the first non-empty string counts. */
    method Init(s: seq<char>)
      requires Valid()
      modifies this, ports
      ensures Valid()
      ensures old(initialized) ==> Allowed() == old(Allowed()) && initialized
      ensures !old(initialized) ==> Allowed() == Parsed(s, ports.Length) && (initialized <==> s != [])
    {
      if initialized {
        return;
      }
      count := 0;
      ScanIsListed(s);
      if s == [] {
        return;
      }
      Scan(s);
      initialized := true;
    }

    /** The loop and the flush behind it. */
    method Scan(s: seq<char>)
      requires Valid() && count == 0
      modifies this`count, ports
      ensures Valid() && Allowed() == Parsed(s, ports.Length)
    {
      var portBuf := new char[6](_ => '\0');
      var idx := 0;
      var i := 0;
      ghost var cur: seq<char>, closed: seq<u16> := [], [];
      assert s[..0] == [];
      while i < |s| && count < ports.Length
        invariant 0 <= i <= |s| && count <= ports.Length && 0 <= idx <= 4
        invariant cur == Current(s[..i]) && idx == Min(|cur|, 4) && portBuf[..idx] == cur[..idx]
        invariant closed == Closed(s[..i]) && ports[..count] == closed
        invariant i > 0 && count == ports.Length ==> idx == 0
        decreases |s| - i
      {
        NextChar(s, i);
        if IsDigit(s[i]) {
          idx := Keep(portBuf, idx, s[i], cur);
          cur := cur + [s[i]];
        } else if s[i] == ',' {
          Close(portBuf, idx, cur);
          idx := 0;
          cur, closed := [], closed + Flush(cur);
        }
        i := i + 1;
      }
      Finish(s, i);
      if idx > 0 {
        Store(portBuf, idx, cur);
      }
    }

    /** A comma: the number read so far, if there is one, is stored. */
    method Close(portBuf: array<char>, idx: nat, ghost cur: seq<char>)
      requires Valid() && count < ports.Length && Digits(cur)
      requires portBuf.Length == 6 && idx == Min(|cur|, 4) && portBuf[..idx] == cur[..idx]
      modifies this`count, ports, portBuf
      ensures Valid() && Allowed() == old(Allowed()) + Flush(cur)
    {
      if idx > 0 {
        Store(portBuf, idx, cur);
      }
    }

    /** One more digit into `port_buf`; from the fifth on they overwrite one another. */
    method Keep(portBuf: array<char>, idx: nat, c: char, ghost cur: seq<char>) returns (next: nat)
      requires portBuf.Length == 6 && idx == Min(|cur|, 4) && portBuf[..idx] == cur[..idx]
      modifies portBuf
      ensures next == Min(|cur| + 1, 4) && portBuf[..next] == (cur + [c])[..next]
    {
      portBuf[idx] := c;
      next := idx + 1;
      if next >= 5 {
        next := 4;
      }
    }

    /** `ports_array[(*ports_count)++] = atoi(port_buf)` */
    method Store(portBuf: array<char>, idx: nat, ghost ds: seq<char>)
      requires Valid() && count < ports.Length
      requires portBuf.Length == 6 && 0 < idx <= 4 && Digits(ds) && idx == Min(|ds|, 4) && portBuf[..idx] == ds[..idx]
      modifies this`count, ports, portBuf
      ensures Valid() && count == old(count) + 1 && Allowed() == old(Allowed()) + [PortOf(ds)]
      ensures portBuf[..idx] == old(portBuf[..idx])
    {
      portBuf[idx] := '\0';
      var value := 0;
      ValueBound(ds[..idx]);
      for k := 0 to idx
        invariant portBuf[..idx] == ds[..idx]
        invariant value == Value(ds[..k])
      {
        assert ds[..k + 1][..k] == ds[..k];
        assert portBuf[k] == portBuf[..idx][k] == ds[k];
        value := 10 * value + DigitValue(portBuf[k]);
      }
      ports[count] := value % 0x1_0000;
      count := count + 1;
    }

    /** The four membership tests, `is_tcp_src_port_allowed` and its siblings. */
    method IsAllowed(port: u16) returns (found: bool)
      requires Valid()
      ensures found <==> port in Allowed()
    {
      for i := 0 to count
        invariant count <= ports.Length && port !in ports[..i]
      {
        if port == ports[i] {
          assert ports[..count][i] == port;
          return true;
        }
        assert ports[..i + 1] == ports[..i] + [ports[i]];
      }
      found := false;
    }
  }
}
