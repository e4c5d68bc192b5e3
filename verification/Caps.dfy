/**
 The capability bitmap (slave/components/phy_rpc_overlay/phy_rpc_handlers.c:398-450 with the MARK macros of
 its siblings, and esp_hosted_open/src/phy_rpc.c:565-572): sixteen bytes, one bit per request id.
 */
module Caps {
  import opened Bytes
  import opened Registry

  const CAPS_BYTES := 16

  /** `1u << b` */
  function Bit(b: int): bv8 {
    if b == 0 then 1 else if b == 1 then 2 else if b == 2 then 4 else if b == 3 then 8
    else if b == 4 then 16 else if b == 5 then 32 else if b == 6 then 64 else 128
  }

  lemma BitIsShift(b: int)
    requires 0 <= b < 8
    ensures Bit(b) == (1 as bv8) << b
  {
    assert (1 as bv8) << 0 == 1 && (1 as bv8) << 1 == 2 && (1 as bv8) << 2 == 4 && (1 as bv8) << 3 == 8;
    assert (1 as bv8) << 4 == 16 && (1 as bv8) << 5 == 32 && (1 as bv8) << 6 == 64 && (1 as bv8) << 7 == 128;
  }

  type Bitmap = s: seq<bv8> | |s| == CAPS_BYTES witness [0, 0, 0, 0, 0, 0, 0, 0, 0, 0, 0, 0, 0, 0, 0, 0]

  const EMPTY: Bitmap := [0, 0, 0, 0, 0, 0, 0, 0, 0, 0, 0, 0, 0, 0, 0, 0]

  /** One MARK: the low byte of the id names the bit, and ids above the bitmap are skipped. */
  function Mark(caps: Bitmap, id: u32, present: bool): Bitmap {
    var low := id % 0x100;
    if low < CAPS_BYTES * 8 && present then caps[low / 8 := caps[low / 8] | Bit(low % 8)] else caps
  }

  /** `esp_hosted_open_has_capability` */
  predicate HasCapability(caps: Bitmap, id: u32) {
    var low := id % 0x100;
    low < CAPS_BYTES * 8 && caps[low / 8] & Bit(low % 8) != 0
  }

  datatype Claim = Claim(id: u32, present: bool)

  function MarkAll(caps: Bitmap, claims: seq<Claim>): Bitmap
    decreases |claims|
  {
    if claims == [] then caps else MarkAll(Mark(caps, claims[0].id, claims[0].present), claims[1..])
  }

  lemma BitOr(x: bv8, i: int, j: int)
    requires 0 <= i < 8 && 0 <= j < 8
    ensures (x | Bit(i)) & Bit(j) != 0 <==> i == j || x & Bit(j) != 0
  {
  }

  lemma MarkAdds(caps: Bitmap, id: u32, present: bool, asked: u32)
    ensures HasCapability(Mark(caps, id, present), asked) <==>
              HasCapability(caps, asked) || (present && id % 0x100 == asked % 0x100 && id % 0x100 < CAPS_BYTES * 8)
  {
    var low, ask := id % 0x100, asked % 0x100;
    if low < CAPS_BYTES * 8 && present && ask < CAPS_BYTES * 8 && low / 8 == ask / 8 {
      BitOr(caps[low / 8], low % 8, ask % 8);
    }
  }

  /** The host sees a capability exactly when some present claim has the same low byte, below the bitmap's size. */
  lemma {:induction false} HostSeesClaims(caps: Bitmap, claims: seq<Claim>, asked: u32)
    ensures HasCapability(MarkAll(caps, claims), asked) <==>
            (|| HasCapability(caps, asked)
             || (asked % 0x100 < CAPS_BYTES * 8 &&
                 exists i :: 0 <= i < |claims| && claims[i].present && claims[i].id % 0x100 == asked % 0x100))
    decreases |claims|
  {
    if claims != [] {
      var c, rest := claims[0], claims[1..];
      MarkAdds(caps, c.id, c.present, asked);
      HostSeesClaims(Mark(caps, c.id, c.present), rest, asked);
      assert forall i :: 0 <= i < |rest| ==> rest[i] == claims[i + 1];
      if i :| 0 <= i < |claims| && claims[i].present && claims[i].id % 0x100 == asked % 0x100 {
        if i > 0 {
          assert rest[i - 1].present && rest[i - 1].id % 0x100 == asked % 0x100;
        }
      }
      if i :| 0 <= i < |rest| && rest[i].present && rest[i].id % 0x100 == asked % 0x100 {
        assert claims[i + 1].present && claims[i + 1].id % 0x100 == asked % 0x100;
      }
    }
  }

  /** One claim per handler of the overlay, with `present(j)` telling whether its chip function is linked. */
  function OverlayClaims(present: seq<bool>): seq<Claim>
    requires |present| == 47
  {
    OverlayIds();
    seq(47, j requires 0 <= j < 47 => Claim(OVERLAY[j], present[j]))
  }

  /** No two requests of the overlay share a bit: each is reported exactly as it was claimed. */
  lemma OverlayReported(present: seq<bool>, j: nat)
    requires |present| == 47 && j < 47
    ensures |OVERLAY| == 47
    ensures HasCapability(MarkAll(EMPTY, OverlayClaims(present)), OVERLAY[j]) <==> present[j]
  {
    OverlayIds();
    HostSeesClaims(EMPTY, OverlayClaims(present), OVERLAY[j]);
    forall i | 0 <= i < 47 ensures OVERLAY[i] % 0x100 < 0x80 && (OVERLAY[i] % 0x100 == OVERLAY[j] % 0x100 ==> i == j) {
      OverlayLow(i);
      OverlayLow(j);
    }
    var claims := OverlayClaims(present);
    if present[j] {
      assert claims[j].present && claims[j].id % 0x100 == OVERLAY[j] % 0x100;
    }
    NothingInEmpty(OVERLAY[j]);
  }

  lemma NothingInEmpty(id: u32)
    ensures !HasCapability(EMPTY, id)
  {
    var at := id % 0x100 / 8;
    if at < 16 {
      assert EMPTY[at] == 0;
    }
  }

  lemma OverlayLow(i: nat)
    requires i < 47
    ensures |OVERLAY| == 47 && OVERLAY[i] % 0x100 < 0x80 && PlaceOf(OVERLAY[i] % 0x100) == i
  {
    LowIdAt(i);
    OverlayIds();
    var low := (HANDLERS + EXTRAS + WIRELESS)[i];
    assert OVERLAY[i] == BASE + low;
    assert (BASE + low) % 0x100 == low;
  }

  /** What `esp_hosted_open_get_caps` leaves with the host: zeros, unless the registry has the GET_CAPS handler to answer. */
  function HostCaps(n: nat, present: seq<bool>): Bitmap
    requires |present| == 47
  {
    OverlayIds();
    if OVERLAY[GET_CAPS_AT] in AfterReal(map[], n, Requests(OVERLAY)) then MarkAll(EMPTY, OverlayClaims(present)) else EMPTY
  }

  /**
   With a registry of capacity n the host sees the capability at place j exactly if its chip function is
   linked and GET_CAPS itself was registered; below 28 slots, 16 by default, it sees none at all.
   */
  lemma AdvertisedIff(n: nat, present: seq<bool>, j: nat)
    requires |present| == 47 && j < 47
    ensures |OVERLAY| == 47
    ensures HasCapability(HostCaps(n, present), OVERLAY[j]) <==> present[j] && n >= 28
    ensures n < 28 ==> forall id: u32 :: !HasCapability(HostCaps(n, present), id)
  {
    OverlayReported(present, j);
    OverlayAnswersIff(n);
    forall id: u32 ensures !HasCapability(EMPTY, id) {
      NothingInEmpty(id);
    }
  }

  /**
   A capability is advertised but never answered exactly when its chip function is linked, GET_CAPS was
   registered and its own handler came too late: with the 28 to 32 slots that the configuration allows at most.
   */
  lemma AdvertisedUnansweredIff(n: nat, present: seq<bool>, j: nat)
    requires |present| == 47 && j < 47
    ensures |OVERLAY| == 47
    ensures (HasCapability(HostCaps(n, present), OVERLAY[j]) &&
             OVERLAY[j] !in AfterReal(map[], n, Requests(OVERLAY))) <==> present[j] && 28 <= n <= j
  {
    AdvertisedIff(n, present, j);
    OverlayAnswersIff(n);
  }

  /** Below 28 slots it is the other way round: the first n handlers answer and none is advertised. */
  lemma AnsweredUnadvertisedIff(n: nat, present: seq<bool>, j: nat)
    requires |present| == 47 && j < 47 && present[j]
    ensures |OVERLAY| == 47
    ensures (!HasCapability(HostCaps(n, present), OVERLAY[j]) &&
             OVERLAY[j] in AfterReal(map[], n, Requests(OVERLAY))) <==> j < n < 28
  {
    AdvertisedIff(n, present, j);
    OverlayAnswersIff(n);
  }

  /** The bitmap is filled in place, one claim after the other. */
  method FillCaps(claims: seq<Claim>) returns (caps: array<bv8>)
    ensures fresh(caps) && caps[..] == MarkAll(EMPTY, claims)
  {
    caps := new bv8[CAPS_BYTES](_ => 0);
    assert caps[..] == EMPTY;
    assert claims[0..] == claims;
    for i := 0 to |claims|
      invariant caps.Length == CAPS_BYTES && MarkAll(caps[..], claims[i..]) == MarkAll(EMPTY, claims)
    {
      var low := claims[i].id % 0x100;
      ghost var before := caps[..];
      if low < CAPS_BYTES * 8 && claims[i].present {
        caps[low / 8] := caps[low / 8] | Bit(low % 8);
      }
      assert caps[..] == Mark(before, claims[i].id, claims[i].present);
      assert claims[i..][1..] == claims[i + 1..];
    }
  }
}
