/** TLV framing of RPC requests and replies (slave/main/protocomm_pserial.c:48-154). */
module Tlv {
  import opened Bytes
  import opened Wrappers

  const EPNAME_MAX := 16
  const T_EPNAME: byte := 1
  const T_DATA: byte := 2

  /** What the parse loop of `rpc_req_handler` makes of its input; `Overrun` means it reads past the end. */
  datatype Parsed = Fail | Overrun | Found(epname: seq<byte>, data: seq<byte>)

  datatype Element = Element(kind: byte, value: seq<byte>)

  /** The two elements `compose_tlv` is meant to write; the payload's length is cut to its low 16 bits. */
  function Composed(epname: seq<byte>, payload: seq<byte>): seq<byte>
    requires |epname| + 6 < 0x1_0000
  {
    [T_EPNAME] + Le16(|epname|) + epname + [T_DATA] + Le16(|payload| % 0x1_0000) + payload
  }

  const BLANK: seq<byte> := [0, 0, 0, 0, 0, 0, 0, 0, 0, 0, 0, 0, 0, 0, 0, 0]

  /** `memcpy(epname, ptr, len)` into the 16-byte name: what it does not overwrite stays. */
  function Overlay(name: seq<byte>, value: seq<byte>): (r: seq<byte>)
    requires |value| <= |name|
    ensures |r| == |name|
  {
    value + name[|value|..]
  }

  /** `strlen` of a buffer known to hold a zero byte within its bounds. */
  function CString(s: seq<byte>): seq<byte> {
    if s == [] || s[0] == 0 then [] else [s[0]] + CString(s[1..])
  }

  /** Lines 151-154. */
  function Conclude(name: seq<byte>, data: seq<byte>): Parsed {
    if data == [] || CString(name) == [] then Fail else Found(CString(name), data)
  }

  /** The parse loop from a cursor with `rest` before it; `data` is empty until a data element is met. */
  function ParseFrom(rest: seq<byte>, name: seq<byte>, data: seq<byte>): Parsed
    requires |name| == EPNAME_MAX
    decreases |rest|
  {
    if rest == [] then Conclude(name, data)
    else if |rest| < 3 then Overrun
    else
      var len := Read16(rest, 1);
      if rest[0] == T_EPNAME then
        if len >= EPNAME_MAX - 1 then Fail
        else if |rest| < 3 + len then Overrun
        else ParseFrom(rest[3 + len..], Overlay(name, rest[3..3 + len]), data)
      else if rest[0] == T_DATA then
        if |rest| < 3 + len then Overrun else ParseFrom(rest[3 + len..], name, rest[3..3 + len])
      else Fail
  }

  function Parse(input: seq<byte>): Parsed {
    ParseFrom(input, BLANK, [])
  }

  // ------------------------------------------------------------------ well-formed lists

  function Encoded(elements: seq<Element>): seq<byte>
    requires forall i :: 0 <= i < |elements| ==> |elements[i].value| < 0x1_0000
  {
    if elements == [] then []
    else [elements[0].kind] + Le16(|elements[0].value|) + elements[0].value + Encoded(elements[1..])
  }

  /** The meaning of a list: a bad element rejects it, names overlay one another, the last data wins. */
  function Meaning(elements: seq<Element>, name: seq<byte>, data: seq<byte>): Parsed
    requires |name| == EPNAME_MAX
  {
    if elements == [] then Conclude(name, data)
    else
      var e := elements[0];
      if e.kind == T_EPNAME then
        if |e.value| >= EPNAME_MAX - 1 then Fail else Meaning(elements[1..], Overlay(name, e.value), data)
      else if e.kind == T_DATA then Meaning(elements[1..], name, e.value)
      else Fail
  }

  lemma EncodedHead(e: Element, rest: seq<byte>)
    requires |e.value| < 0x1_0000
    ensures var s := [e.kind] + Le16(|e.value|) + e.value + rest;
            && |s| == 3 + |e.value| + |rest| && s[0] == e.kind && Read16(s, 1) == |e.value|
            && s[3..3 + |e.value|] == e.value && s[3 + |e.value|..] == rest
  {
    var s := [e.kind] + Le16(|e.value|) + e.value + rest;
    assert s == [e.kind] + Le16(|e.value|) + (e.value + rest);
    Le16RoundTrip([e.kind], |e.value|, e.value + rest);
  }

  /** On any well-formed list of elements the loop stays inside its input and computes the list's meaning. */
  lemma {:induction false} ParseIsMeaning(elements: seq<Element>, name: seq<byte>, data: seq<byte>)
    requires forall i :: 0 <= i < |elements| ==> |elements[i].value| < 0x1_0000
    requires |name| == EPNAME_MAX
    ensures ParseFrom(Encoded(elements), name, data) == Meaning(elements, name, data)
    ensures Meaning(elements, name, data) != Overrun
    decreases |elements|
  {
    if elements != [] {
      var e := elements[0];
      EncodedHead(e, Encoded(elements[1..]));
      if e.kind == T_EPNAME {
        if |e.value| < EPNAME_MAX - 1 {
          ParseIsMeaning(elements[1..], Overlay(name, e.value), data);
        }
      } else if e.kind == T_DATA {
        ParseIsMeaning(elements[1..], name, e.value);
      }
    }
  }

  /** The last data element, or what there was before the list. */
  function FinalData(elements: seq<Element>, data: seq<byte>): seq<byte> {
    if elements == [] then data
    else if elements[|elements| - 1].kind == T_DATA then elements[|elements| - 1].value
    else FinalData(elements[..|elements| - 1], data)
  }

  /** Byte k of the name buffer: that of the last name longer than k, or what was there before the list. */
  function NameByte(elements: seq<Element>, name: seq<byte>, k: nat): byte
    requires k < |name|
  {
    if elements == [] then name[k]
    else
      var last := elements[|elements| - 1];
      if last.kind == T_EPNAME && k < |last.value| then last.value[k]
      else NameByte(elements[..|elements| - 1], name, k)
  }

  /** Both, seen from the other end of the list. */
  lemma {:induction false} FromTheFront(elements: seq<Element>, name: seq<byte>, data: seq<byte>, k: nat)
    requires elements != [] && k < |name|
    requires elements[0].kind == T_EPNAME ==> |elements[0].value| <= |name|
    ensures var e := elements[0];
            && FinalData(elements, data) == FinalData(elements[1..], if e.kind == T_DATA then e.value else data)
            && NameByte(elements, name, k) ==
               NameByte(elements[1..], if e.kind == T_EPNAME then Overlay(name, e.value) else name, k)
  {
    var front := elements[..|elements| - 1];
    if front != [] {
      FromTheFront(front, name, data, k);
      assert front[1..] == elements[1..][..|elements| - 2];
    }
  }

  predicate Readable(e: Element) {
    e.kind == T_DATA || (e.kind == T_EPNAME && |e.value| <= 14)
  }

  /**
   What a list means, element by element: it is rejected exactly if some element is of an unknown kind or a name
   of more than 14 bytes, or if no data or no name is left in the end. The last data element wins; names
   overlay one another byte by byte, so an earlier, longer one shows behind a shorter one up to the first zero.
   */
  lemma {:induction false} MeaningIs(elements: seq<Element>, name: seq<byte>, data: seq<byte>)
    requires |name| == EPNAME_MAX
    ensures var r := Meaning(elements, name, data);
            && (r.Found? <==> (forall i :: 0 <= i < |elements| ==> Readable(elements[i]))
                              && FinalData(elements, data) != [] && NameByte(elements, name, 0) != 0)
            && (r.Found? ==> r.data == FinalData(elements, data) && NamedBy(r.epname, elements, name))
    decreases |elements|
  {
    if elements == [] {
      FirstZero(name);
    } else {
      var e, rest := elements[0], elements[1..];
      if Readable(e) {
        var name' := if e.kind == T_EPNAME then Overlay(name, e.value) else name;
        MeaningIs(rest, name', if e.kind == T_DATA then e.value else data);
        forall k: nat | k < EPNAME_MAX ensures NameByte(elements, name, k) == NameByte(rest, name', k) {
          FromTheFront(elements, name, data, k);
        }
        FromTheFront(elements, name, data, 0);
        assert forall i :: 0 <= i < |rest| ==> rest[i] == elements[i + 1];
        assert (forall i :: 0 <= i < |elements| ==> Readable(elements[i])) <==> forall i :: 0 <= i < |rest| ==> Readable(rest[i]);
      }
    }
  }

  /** The bytes of the name buffer up to its first zero. */
  predicate NamedBy(epname: seq<byte>, elements: seq<Element>, name: seq<byte>) {
    && |epname| <= |name|
    && (forall k: nat :: k < |epname| ==> epname[k] == NameByte(elements, name, k) && epname[k] != 0)
    && (|epname| < |name| ==> NameByte(elements, name, |epname|) == 0)
  }

  lemma {:induction false} FirstZero(s: seq<byte>)
    ensures |CString(s)| <= |s| && (|CString(s)| < |s| ==> s[|CString(s)|] == 0)
    ensures forall k: nat :: k < |CString(s)| ==> CString(s)[k] == s[k] && s[k] != 0
  {
    if s != [] && s[0] != 0 {
      FirstZero(s[1..]);
    }
  }

  // ------------------------------------------------------------------ round trip

  lemma {:induction false} CStringOfName(name: seq<byte>, zeros: seq<byte>)
    requires forall i :: 0 <= i < |name| ==> name[i] != 0
    requires zeros != [] && zeros[0] == 0
    ensures CString(name + zeros) == name
  {
    if name == [] {
      assert name + zeros == zeros;
    } else {
      assert (name + zeros)[1..] == name[1..] + zeros;
      CStringOfName(name[1..], zeros);
    }
  }

  lemma Regrouped(front: seq<byte>, kind: seq<byte>, len: seq<byte>, value: seq<byte>)
    ensures front + (kind + len + value + []) == front + kind + len + value
  {
    assert front + (kind + len + value) == front + kind + len + value;
    assert kind + len + value + [] == kind + len + value;
  }

  /** A composed message is the encoding of its two elements. */
  lemma ComposedIsEncoded(a: Element, b: Element)
    requires a.kind == T_EPNAME && |a.value| + 6 < 0x1_0000 && b.kind == T_DATA && |b.value| < 0x1_0000
    ensures Encoded([a, b]) == Composed(a.value, b.value)
  {
    assert [a, b][1..] == [b] && [b][1..] == [];
    assert Encoded([b]) == [T_DATA] + Le16(|b.value|) + b.value + [];
    Regrouped([T_EPNAME] + Le16(|a.value|) + a.value, [T_DATA], Le16(|b.value|), b.value);
  }

  lemma MeaningOfTwo(a: Element, b: Element, name: seq<byte>)
    requires |name| == EPNAME_MAX && a.kind == T_EPNAME && |a.value| < EPNAME_MAX - 1 && b.kind == T_DATA
    ensures Meaning([a, b], name, []) == Conclude(Overlay(name, a.value), b.value)
  {
    assert [a, b][1..] == [b] && [b][1..] == [];
    assert Meaning([b], Overlay(name, a.value), []) == Meaning([], Overlay(name, a.value), b.value);
  }

  /** A composed message parses back to its endpoint name and payload, with nothing left over. */
  lemma ComposeParseRoundTrip(epname: seq<byte>, payload: seq<byte>)
    requires 1 <= |epname| <= 14 && forall i :: 0 <= i < |epname| ==> epname[i] != 0
    requires 1 <= |payload| < 0x1_0000
    ensures Parse(Composed(epname, payload)) == Found(epname, payload)
  {
    var a, b := Element(T_EPNAME, epname), Element(T_DATA, payload);
    ComposedIsEncoded(a, b);
    ParseIsMeaning([a, b], BLANK, []);
    MeaningOfTwo(a, b, BLANK);
    CStringOfName(epname, BLANK[|epname|..]);
  }

  /** What the loop finds is a payload whose length fits the field and a name without a zero byte. */
  lemma {:induction false} FoundShape(rest: seq<byte>, name: seq<byte>, data: seq<byte>)
    requires |name| == EPNAME_MAX && |data| < 0x1_0000
    requires ParseFrom(rest, name, data).Found?
    ensures var r := ParseFrom(rest, name, data);
            && 1 <= |r.data| < 0x1_0000
            && 1 <= |r.epname| <= EPNAME_MAX && forall i :: 0 <= i < |r.epname| ==> r.epname[i] != 0
    decreases |rest|
  {
    if rest == [] {
      CStringHasNoZero(name);
    } else {
      var len := Read16(rest, 1);
      if rest[0] == T_EPNAME {
        FoundShape(rest[3 + len..], Overlay(name, rest[3..3 + len]), data);
      } else {
        FoundShape(rest[3 + len..], name, rest[3..3 + len]);
      }
    }
  }

  lemma {:induction false} CStringHasNoZero(s: seq<byte>)
    ensures |CString(s)| <= |s| && forall i :: 0 <= i < |CString(s)| ==> CString(s)[i] != 0
  {
    if s != [] && s[0] != 0 {
      CStringHasNoZero(s[1..]);
    }
  }

  lemma PlainRoundTripIff(epname: seq<byte>, payload: seq<byte>)
    requires |epname| + 6 < 0x1_0000
    ensures Parse(Composed(epname, payload)) == Found(epname, payload) <==> Expressible(epname, payload)
  {
    if Expressible(epname, payload) {
      ComposeParseRoundTrip(epname, payload);
    } else if Parse(Composed(epname, payload)) == Found(epname, payload) {
      FoundShape(Composed(epname, payload), BLANK, []);
      assert |epname| >= 15;
      LongNameRefused(epname, payload);
    }
  }

  predicate Expressible(epname: seq<byte>, payload: seq<byte>) {
    && 1 <= |epname| <= 14 && (forall i :: 0 <= i < |epname| ==> epname[i] != 0)
    && 1 <= |payload| < 0x1_0000
  }

  lemma LongNameRefused(epname: seq<byte>, payload: seq<byte>)
    requires 15 <= |epname| && |epname| + 6 < 0x1_0000
    ensures Parse(Composed(epname, payload)) == Fail
  {
    var rest := epname + [T_DATA] + Le16(|payload| % 0x1_0000) + payload;
    assert Composed(epname, payload) == [T_EPNAME] + Le16(|epname|) + rest;
    Le16RoundTrip([T_EPNAME], |epname|, rest);
  }

  // ------------------------------------------------------------------ the buffer, whatever the lengths

  function Overwritten(buf: seq<byte>, at: nat, src: seq<byte>): (r: seq<byte>)
    requires at + |src| <= |buf|
    ensures |r| == |buf|
  {
    buf[..at] + src + buf[at + |src|..]
  }

  function Cursor(n: nat): u16 {
    n % 0x1_0000
  }

  lemma CursorBound(n: nat, k: nat)
    ensures (Cursor(n) + k) % 0x1_0000 == (n + k) % 0x1_0000
    ensures (n + k) % 0x1_0000 <= n % 0x1_0000 + k
  {
  }

  function BufferSize(epname: seq<byte>, payload: seq<byte>): nat {
    6 + |epname| % 0x1_0000 + |payload|
  }

  /** The buffer up to the name: the allocation takes the name's length modulo 2^16, the copy all of it. */
  function WithName(epname: seq<byte>, payload: seq<byte>): (r: seq<byte>)
    requires 3 + |epname| <= BufferSize(epname, payload)
    ensures |r| == BufferSize(epname, payload)
  {
    var blank: seq<byte> := seq(BufferSize(epname, payload), _ => 0);
    Overwritten(Overwritten(blank, 0, [T_EPNAME] + Le16(|epname| % 0x1_0000)), 3, epname)
  }

  /** The data header byte by byte through the 16-bit cursor, which may wrap. */
  function WithHeader(buf: seq<byte>, at: u16, n: nat): (r: seq<byte>)
    requires at < |buf| && (at + 1) % 0x1_0000 < |buf| && (at + 2) % 0x1_0000 < |buf|
    ensures |r| == |buf|
  {
    buf[at := T_DATA][(at + 1) % 0x1_0000 := n % 0x100][(at + 2) % 0x1_0000 := n / 0x100 % 0x100]
  }

  lemma HeaderFits(epname: seq<byte>, payload: seq<byte>)
    ensures var size, at := BufferSize(epname, payload), Cursor(3 + |epname|);
            at < size && (at + 1) % 0x1_0000 < size && (at + 2) % 0x1_0000 < size && (at + 3) % 0x1_0000 + |payload| <= size
  {
    CursorBound(|epname|, 3);
    CursorBound(|epname|, 4);
    CursorBound(|epname|, 5);
    CursorBound(|epname|, 6);
    CursorBound(3 + |epname|, 1);
    CursorBound(3 + |epname|, 2);
    CursorBound(3 + |epname|, 3);
  }

  /** What `compose_tlv` passes on, or nothing when it writes the name past its buffer. */
  function ComposedBy(epname: seq<byte>, payload: seq<byte>): Option<seq<byte>> {
    if 3 + |epname| > BufferSize(epname, payload) then None
    else
      HeaderFits(epname, payload);
      var at := Cursor(3 + |epname|);
      var buf := WithHeader(WithName(epname, payload), at, |payload|);
      var end := (at + 3) % 0x1_0000;
      Some(Overwritten(buf, end, payload)[..end + |payload|])
  }

  /** The name is written past the buffer exactly if what its length loses modulo 2^16 is more than the payload and three bytes. */
  lemma ComposeOverrunsIff(epname: seq<byte>, payload: seq<byte>)
    ensures ComposedBy(epname, payload) == None <==> |epname| - |epname| % 0x1_0000 > |payload| + 3
  {
  }

  lemma LowBytes(n: nat)
    ensures n % 0x1_0000 % 0x100 == n % 0x100 && n % 0x1_0000 / 0x100 == n / 0x100 % 0x100
  {
    var q, m := n / 0x1_0000, n % 0x1_0000;
    assert n == 0x100 * (0x100 * q + m / 0x100) + m % 0x100;
    assert n / 0x100 == 0x100 * q + m / 0x100;
  }

  lemma OverwrittenUpTo(buf: seq<byte>, at: nat, src: seq<byte>)
    requires at + |src| <= |buf|
    ensures Overwritten(buf, at, src)[..at] == buf[..at] && Overwritten(buf, at, src)[..at + |src|] == buf[..at] + src
  {
  }

  lemma HeaderUpTo(buf: seq<byte>, at: u16, n: nat)
    requires at + 2 < 0x1_0000 && at + 2 < |buf|
    ensures WithHeader(buf, at, n)[..at + 3] == buf[..at] + [T_DATA] + Le16(n % 0x1_0000)
  {
    LowBytes(n);
    assert (at + 1) % 0x1_0000 == at + 1 && (at + 2) % 0x1_0000 == at + 2;
  }

  lemma NameUpTo(epname: seq<byte>, payload: seq<byte>)
    requires |epname| + 6 < 0x1_0000
    ensures WithName(epname, payload)[..3 + |epname|] == [T_EPNAME] + Le16(|epname|) + epname
  {
    var blank: seq<byte> := seq(BufferSize(epname, payload), _ => 0);
    var header: seq<byte> := [T_EPNAME] + Le16(|epname|);
    OverwrittenUpTo(blank, 0, header);
    assert blank[..0] + header == header;
    OverwrittenUpTo(Overwritten(blank, 0, header), 3, epname);
  }

  /** What is passed on when nothing wraps: the buffer up to the end of the payload. */
  function Finished(named: seq<byte>, at: u16, payload: seq<byte>): seq<byte>
    requires at + 3 < 0x1_0000 && at + 3 + |payload| <= |named|
  {
    Overwritten(WithHeader(named, at, |payload|), at + 3, payload)[..at + 3 + |payload|]
  }

  lemma HeaderThenPayload(named: seq<byte>, at: u16, payload: seq<byte>)
    requires at + 3 < 0x1_0000 && at + 3 + |payload| <= |named|
    ensures Finished(named, at, payload) == named[..at] + [T_DATA] + Le16(|payload| % 0x1_0000) + payload
  {
    HeaderUpTo(named, at, |payload|);
    OverwrittenUpTo(WithHeader(named, at, |payload|), at + 3, payload);
  }

  lemma ComposedByShort(epname: seq<byte>, payload: seq<byte>)
    requires |epname| + 6 < 0x1_0000
    ensures ComposedBy(epname, payload) == Some(Finished(WithName(epname, payload), 3 + |epname|, payload))
  {
    HeaderFits(epname, payload);
    assert |epname| % 0x1_0000 == |epname|;
    assert Cursor(3 + |epname|) == 3 + |epname|;
    assert (3 + |epname| + 3) % 0x1_0000 == 6 + |epname|;
  }

  lemma FinishedShort(epname: seq<byte>, payload: seq<byte>)
    requires |epname| + 6 < 0x1_0000
    ensures Finished(WithName(epname, payload), 3 + |epname|, payload) == Composed(epname, payload)
  {
    NameUpTo(epname, payload);
    HeaderThenPayload(WithName(epname, payload), 3 + |epname|, payload);
  }

  /** While the cursor does not wrap that is the two elements. */
  lemma ShortNamesCompose(epname: seq<byte>, payload: seq<byte>)
    requires |epname| + 6 < 0x1_0000
    ensures ComposedBy(epname, payload) == Some(Composed(epname, payload))
  {
    ComposedByShort(epname, payload);
    FinishedShort(epname, payload);
  }

  /**
   For every name and payload: what is composed parses back to them exactly for names of 1 to 14 non-zero
   bytes and payloads of 1 to 65535 bytes. A longer name is refused, a longer payload cut by its own length
   field, and a name too long for the cursor does not fit the parser's buffer however it comes out.
   */
  lemma RoundTripIff(epname: seq<byte>, payload: seq<byte>)
    ensures (ComposedBy(epname, payload).Some? && Parse(ComposedBy(epname, payload).value) == Found(epname, payload)) <==>
            Expressible(epname, payload)
  {
    if |epname| + 6 < 0x1_0000 {
      ShortNamesCompose(epname, payload);
      PlainRoundTripIff(epname, payload);
    } else if ComposedBy(epname, payload).Some? && Parse(ComposedBy(epname, payload).value).Found? {
      FoundShape(ComposedBy(epname, payload).value, BLANK, []);
    }
  }

  // ------------------------------------------------------------------ in place

  /** `compose_tlv`, filling its buffer through a 16-bit cursor; `ok` is false where it would write past the buffer. */
  method ComposeTlv(epname: seq<byte>, payload: seq<byte>) returns (ok: bool, buf: array<byte>, outLen: nat)
    ensures ok <==> ComposedBy(epname, payload).Some?
    ensures ok ==> fresh(buf) && outLen <= buf.Length && buf[..outLen] == ComposedBy(epname, payload).value
  {
    var epLen := |epname| % 0x1_0000;
    var outlen := |payload|;
    buf, outLen := new byte[6 + epLen + outlen](_ => 0), 0;
    assert buf[..] == seq(BufferSize(epname, payload), _ => 0);
    ghost var blank := buf[..];
    buf[0], buf[1], buf[2] := T_EPNAME, epLen % 0x100, epLen / 0x100;
    assert buf[..] == Overwritten(blank, 0, [T_EPNAME] + Le16(epLen));
    if 3 + |epname| > buf.Length {
      return false, buf, 0;
    }
    CopyOver(buf, 3, epname);
    assert buf[..] == WithName(epname, payload);
    HeaderFits(epname, payload);
    var len: u16 := (3 + |epname|) % 0x1_0000;
    WriteHeader(buf, len, outlen);
    len := (len + 3) % 0x1_0000;
    CopyOver(buf, len, payload);
    return true, buf, len + outlen;
  }

  method WriteHeader(buf: array<byte>, at: u16, n: nat)
    requires at < buf.Length && (at + 1) % 0x1_0000 < buf.Length && (at + 2) % 0x1_0000 < buf.Length
    modifies buf
    ensures buf[..] == WithHeader(old(buf[..]), at, n)
  {
    var len := at;
    buf[len] := T_DATA;
    len := (len + 1) % 0x1_0000;
    buf[len] := n % 0x100;
    len := (len + 1) % 0x1_0000;
    buf[len] := n / 0x100 % 0x100;
  }

  method CopyOver(buf: array<byte>, at: nat, src: seq<byte>)
    requires at + |src| <= buf.Length
    modifies buf
    ensures buf[..] == Overwritten(old(buf[..]), at, src)
  {
    CopyTo(buf, at, src);
  }

  /** The element at the cursor, seen from the start of the input and from the cursor. */
  lemma AtCursor(input: seq<byte>, pos: nat)
    requires pos + 3 <= |input|
    ensures var rest, len := input[pos..], Read16(input, pos + 1);
            && rest[0] == input[pos] && Read16(rest, 1) == len
            && (pos + 3 + len <= |input| ==>
                  rest[3..3 + len] == input[pos + 3..pos + 3 + len] && rest[3 + len..] == input[pos + 3 + len..])
  {
  }

  /** What the loop makes of the element at its cursor. */
  lemma ParseStep(input: seq<byte>, pos: nat, name: seq<byte>, data: seq<byte>)
    requires pos + 3 <= |input| && |name| == EPNAME_MAX
    ensures var kind, len, next := input[pos], Read16(input, pos + 1), pos + 3 + Read16(input, pos + 1);
            ParseFrom(input[pos..], name, data) ==
            if kind == T_EPNAME && len >= EPNAME_MAX - 1 then Fail
            else if kind != T_EPNAME && kind != T_DATA then Fail
            else if next > |input| then Overrun
            else if kind == T_EPNAME then ParseFrom(input[next..], Overlay(name, input[pos + 3..next]), data)
            else ParseFrom(input[next..], name, input[pos + 3..next])
  {
    AtCursor(input, pos);
    var rest := input[pos..];
    assert rest != [] && |rest| == |input| - pos;
  }

  /** The parse loop of `rpc_req_handler`, with its cursor and remaining length. */
  method ParseRequest(input: seq<byte>) returns (r: Parsed)
    ensures r == Parse(input)
  {
    var pos: nat, totalLen: nat := 0, |input|;
    var epname, data := BLANK, [];
    ghost var result := Parse(input);
    assert input[0..] == input;
    while totalLen != 0
      invariant 0 <= pos <= |input| && totalLen == |input| - pos && |epname| == EPNAME_MAX
      invariant result == ParseFrom(input[pos..], epname, data)
      decreases totalLen
    {
      if totalLen < 3 {
        return Overrun;
      }
      ParseStep(input, pos, epname, data);
      var kind, len := input[pos], Read16(input, pos + 1);
      var next: int := pos + 3 + len;
      if kind == T_EPNAME {
        if len >= EPNAME_MAX - 1 {
          return Fail;
        } else if next > |input| {
          return Overrun;
        }
        epname := Overlay(epname, input[pos + 3..next]);
      } else if kind == T_DATA {
        if next > |input| {
          return Overrun;
        }
        data := input[pos + 3..next];
      } else {
        return Fail;
      }
      pos, totalLen := next, |input| - next;
    }
    r := Conclude(epname, data);
  }
}
