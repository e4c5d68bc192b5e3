/**
 Who owns a received Wi-Fi frame (slave/main/esp_hosted_coprocessor.c:232-444 and 788-792, with the priority
 queues bypassed). A buffer may be read, freed or handed to lwIP only while it is live; so the methods'
 preconditions rule out a second free and any use after release, and their postconditions rule out leaks.
 */
module PacketPath {
  import opened Bytes
  import opened Router
  import PowerSave
  import SdioTx

  /** A driver receive buffer, or the copy made of one. */
  class Buffer {
    const data: seq<byte>
    var freed: nat
    var handedOver: nat

    predicate Live()
      reads this
    {
      freed == 0 && handedOver == 0
    }

    constructor (data: seq<byte>)
      ensures Live() && this.data == data
    {
      this.data, freed, handedOver := data, 0, 0;
    }

    method Read() returns (r: seq<byte>)
      requires Live()
      ensures r == data
    {
      r := data;
    }

    /** `esp_wifi_internal_free_rx_buffer`, or `free` for a copy. */
    method Free()
      requires Live()
      modifies this
      ensures freed == 1 && handedOver == 0
    {
      freed := 1;
    }

    /** `esp_netif_receive`: lwIP frees the buffer when it is done with it. */
    method HandOver()
      requires Live()
      modifies this
      ensures freed == 0 && handedOver == 1
    {
      handedOver := 1;
    }
  }

  /** `interface_buffer_handle_t`: where the payload is, and the buffer to free afterwards. */
  class Handle {
    const payload: Buffer
    var priv: Buffer?

    constructor (payload: Buffer)
      ensures this.payload == payload == priv
    {
      this.payload, priv := payload, payload;
    }
  }

  /** What `process_tx_pkt` finds: the data path, a write operation, the power state and the wake-up's result. */
  datatype Link = Link(datapath: bool, hasWrite: bool, saving: bool, wakeNeeded: bool, wakeResult: int)

  /** Whether the transport is offered the packet; any wake-up result but 0 counts as awake, ESP_FAIL included. */
  predicate Offers(l: Link) {
    l.datapath && l.hasWrite && (l.saving && l.wakeNeeded ==> l.wakeResult != 0)
  }

  /** What the transport's write operation is called with. */
  class Transport {
    var offered: seq<seq<byte>>

    constructor ()
      ensures offered == []
    {
      offered := [];
    }

    /** `process_tx_pkt` */
    method ProcessTxPkt(h: Handle, l: Link)
      requires h.priv == h.payload && h.payload.Live()
      modifies this, h, h.payload
      ensures h.payload.freed == 1 && h.payload.handedOver == 0 && h.priv == null
      ensures offered == if Offers(l) then old(offered) + [h.payload.data] else old(offered)
    {
      var hostAwake := 1;
      if !l.datapath {
        if h.priv != null {
          h.priv.Free();
          h.priv := null;
        }
        return;
      }
      if l.hasWrite {
        if l.saving && l.wakeNeeded {
          hostAwake := l.wakeResult;
        }
        if hostAwake != 0 {
          var packet := h.payload.Read();
          offered := offered + [packet];
        }
      }
      if h.priv != null {
        h.priv.Free();
        h.priv := null;
      }
    }

    /**
     `wlan_sta_rx_callback`, given the bridge the router chose; `l.datapath` is its second look at the data
     path, `datapath` the first. `buffer` says whether there is a frame; the frame lives in `eb`.
     */
    method WlanStaRx(buffer: bool, eb: Buffer?, bridge: Bridge, datapath: bool, netif: bool, l: Link)
      returns (copy: Buffer?)
      requires eb != null ==> eb.Live()
      modifies this, eb
      ensures eb != null ==> eb.freed + eb.handedOver == 1
      ensures eb != null ==> (eb.handedOver == 1 <==> buffer && (bridge == Slave || bridge == Both) && netif)
      ensures copy != null <==> buffer && eb != null && bridge == Both
      ensures copy != null ==> fresh(copy) && copy.freed == 1 && copy.handedOver == 0 && copy.data == eb.data
      ensures offered == if buffer && eb != null && Offers(l) && (bridge == Both || (bridge == Host && datapath))
                         then old(offered) + [eb.data] else old(offered)
    {
      copy := null;
      if !buffer || eb == null {
        if eb != null {
          eb.Free();
        }
        return;
      }
      match bridge
      case Host =>
        if !datapath {
          eb.Free();
          return;
        }
        var h := new Handle(eb);
        ProcessTxPkt(h, l);
      case Slave =>
        if !netif {
          eb.Free();
        } else {
          eb.HandOver();
        }
      case Both =>
        var bytes := eb.Read();
        copy := new Buffer(bytes);
        if !netif {
          eb.Free();
        } else {
          eb.HandOver();
        }
        var h := new Handle(copy);
        ProcessTxPkt(h, l);
      case Invalid =>
        eb.Free();
    }

    /** `wlan_ap_rx_callback` */
    method WlanApRx(buffer: bool, eb: Buffer?, datapath: bool, l: Link)
      requires eb != null ==> eb.Live()
      modifies this, eb
      ensures eb != null ==> eb.freed == 1 && eb.handedOver == 0
      ensures offered == if buffer && eb != null && datapath && Offers(l) then old(offered) + [eb.data] else old(offered)
    {
      if !buffer || eb == null || !datapath {
        if eb != null {
          eb.Free();
        }
        return;
      }
      var h := new Handle(eb);
      ProcessTxPkt(h, l);
    }
  }

  /** Routing and ownership together: whether a station frame is offered to the transport. */
  predicate Offered(c: Config, m: Memory, open: bool, asleep: bool, datapath: bool, l: Link) {
    var b := Route(c, m, open, asleep, asleep);
    Offers(l) && (b == Both || (b == Host && datapath))
  }

  /** What `sdio_write` meets: its own third look at the power state, and the other reasons to refuse. */
  datatype Bus = Bus(active: bool, saving: bool, empty: bool, allocOk: bool, sendOk: bool)

  /** Whether a frame of n bytes that is offered goes out: the write does not fail. */
  predicate GoesOut(n: nat, bus: Bus) {
    SdioTx.WriteResult(n, bus.active, bus.saving, bus.empty, bus.allocOk, bus.sendOk) != SdioTx.ESP_FAIL
  }

  /** What goes out: the interface is up, the host awake, the handle not empty, and a block and the driver were to be had. */
  lemma GoesOutIff(n: nat, bus: Bus)
    ensures GoesOut(n, bus) <==> bus.active && !bus.saving && !bus.empty && bus.allocOk && bus.sendOk
  {
    SdioTx.WriteResultIff(n, bus.active, bus.saving, bus.empty, bus.allocOk, bus.sendOk);
  }

  /**
   With the data path open and a write operation, an awake host, and one that needs no wake-up, is offered
   exactly the frames that the rules give it alone or with the slave, and each goes out if the bus takes it.
   */
  lemma AwakeHostGetsItsFrames(c: Config, m: Memory, open: bool, l: Link, n: nat, bus: Bus)
    requires l.datapath && l.hasWrite && (!l.saving || !l.wakeNeeded)
    requires bus.active && !bus.saving && !bus.empty && bus.allocOk && bus.sendOk
    ensures Offered(c, m, open, false, true, l) && GoesOut(n, bus) <==>
              || ReservedTcp(c, m) || ReservedUdp(c, m)
              || (Unreserved(c, m) && (if ToIperf(m) then !open else DhcpClient(m) || InRemoteRange(c, m)))
              || (Arp(m) && !ArpRequest(m)) || EchoReply(m)
              || (ByDefault(c, m, open, false) && (c.fallback == Host || c.fallback == Both))
  {
    HostGets(c, m, open, false, false);
    BothGet(c, m, open, false, false);
    GoesOutIff(n, bus);
  }

  /** Without a data path or a write operation nothing is offered, whatever the host and its wake-up say. */
  lemma ClosedPathOffersNothing(c: Config, m: Memory, open: bool, asleep: bool, datapath: bool, l: Link)
    ensures Offered(c, m, open, asleep, datapath, l) ==> l.datapath && l.hasWrite
    ensures !datapath && Offered(c, m, open, asleep, datapath, l) ==> Route(c, m, open, asleep, asleep) == Both
  {
  }

  /**
   With the slave as default, a frame that finds the host asleep is offered to the transport exactly if it is
   of the three kinds that wake a host and the wake-up does not answer 0.
   */
  lemma SleepingHostIsOffered(c: Config, m: Memory, open: bool, datapath: bool, l: Link)
    requires l.saving && l.wakeNeeded && c.fallback == Slave
    requires datapath && l.datapath && l.hasWrite
    ensures Offered(c, m, open, true, datapath, l) <==>
              l.wakeResult != 0 && (ReservedTcp(c, m) || ReservedUdp(c, m) || MqttWakeup(c, m, open) || DhcpClient(m))
  {
    WakesSleepingHostIff(c, m, open);
  }

  /**
   From the power state on, with the write seeing the state that the wake-up leaves: a frame is offered to
   the transport of a host that sleeps on exactly when that wake-up takes it for awake, and it never goes out.
   */
  lemma NothingGoesOutToSleepers(s: PowerSave.State, haveHandle: bool, deinited: bool, initOk: bool,
                                 meanwhile: seq<PowerSave.Event>, passes: seq<PowerSave.Pass>, l: Link, n: nat, bus: Bus)
    requires PowerSave.TokenTellsAwake(s) && s.Quiet() && s.saving
    requires l.datapath && l.hasWrite && l.saving && l.wakeNeeded
    requires l.wakeResult == PowerSave.Woken(s, haveHandle, deinited, initOk, meanwhile, passes).1
    requires bus.saving == PowerSave.Woken(s, haveHandle, deinited, initOk, meanwhile, passes).0.saving
    ensures Offers(l) && bus.saving ==> !GoesOut(n, bus)
    ensures Offers(l) && bus.saving <==>
              (!s.enabled ||
                (haveHandle && if deinited && !initOk then true
                               else PowerSave.AlertedAll(s, meanwhile).saving &&
                                    PowerSave.SleptInside(PowerSave.AlertedAll(s, meanwhile), passes)))
  {
    PowerSave.TakenForAwakeIff(s, haveHandle, deinited, initOk, meanwhile, passes);
  }
}
