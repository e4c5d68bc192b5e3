# Verified model of the esp_hosted_open dispatcher and the esp-hosted co-processor

The repository lets a host drive the radio of a co-processor ("slave"). The host's dispatcher matches
replies to calls; the slave moves packets over SDIO, rebuilds and parses serial RPC requests, keeps the
station's configuration, routes Wi-Fi frames between its own network stack and the host, and wakes the
host up. This project models those parts in Dafny and proves what they keep over every run.

Each concurrent component appears twice. A *state machine* (`State`, `Step`, `Enabled`, `Apply`) cuts the
code at the points where other tasks or interrupts can act; `IsRun` in `Runs.dfy` lists states and the
steps between them, and the theorems quantify over every run. A *class* has the source's fields and
updates them in place; its methods are proved to compute the functions the state machine is made of.

| file | models |
|---|---|
| `PhyRpcTable`, `PhyRpc`, `PhyRpcCorrelation`, `PhyRpcOrderly` | the host dispatcher: slots, op_ids, semaphores, replies in any order |
| `SdioTx`, `SdioRx` | SDIO: TX credits and pool blocks; RX buffers, priority queues and throttling |
| `SerialTx`, `SerialRx`, `Tlv`, `SerialRequest` | serial RPC: fragments, reassembly, the one-message handshake, TLV framing |
| `StaConfig`, `WifiInit` | station configuration, forced disconnects and what the host is told; driver initialisation |
| `Registry`, `Caps`, `Codecs` | the callback registry and its second implementation, the capability bitmap, the wire layouts |
| `PortList`, `PortCache`, `Router`, `PacketPath` | network split: allow lists, the listener cache, the classifier, buffer ownership |
| `PowerSave` | the wake-up token |

## Where the code does not do what it is for

Each of these is a theorem below, with the exact condition under which the code does meet its purpose.

- A reply accepted around an expired wait or a failed send leaves a token behind, and the slot's next call
  returns ESP_FAIL at once (`PhyRpcOrderly.CleanIffOrderly`, `StaleTokenAnswersNextCall`).
- A startup event that cannot be sent keeps its TX credit; as many of them as the queue has entries stop
  all sending (`SdioTx.CreditsAndPool`, `LeaksStarveEverySend`).
- With a low throttle mark of zero the host can stay throttled for good (`SdioRx.StuckThrottledIff`).
- The room for a packet is computed before the wait for the previous message to be read
  (`SerialRx.MatchesIff`, `StaleRoomLoses`, `FullFragmentsLose`); one failed allocation ends request handling
  (`FailedAllocationWedges`).
- Requests and driver events run in different tasks without a lock. A handler can set a cached configuration
  over a newer one, or clear the flag of one it did not set, and the newer one is lost (`StaConfig.KeptIff`,
  `HandlerOverwritesReachable`, `HandlerClearsReachable`); with a lock it never is (`LockKeepsLatest`).
- A Connected event that is sent again can reach the host after the loss of its link, and then the host believes
  in a link that is gone (`StaConfig.ResentAfterLossReachable`); unless it does, the host's view is right
  (`HostViewInEveryRun`).
- With auto-reconnect a link can be announced that was made with an old configuration
  (`StaConfig.AnnouncedLatestIff`).
- The overlay registers 47 handlers; the registry holds 16 by default and 32 at most. Below 28 slots GET_CAPS
  itself is refused and the host sees no capability; from 28 on, handlers that came too late are advertised
  but never answer (`Registry.OverlayAnswersIff`, `Caps.AdvertisedIff`, `AdvertisedUnansweredIff`). The host
  tests' registry has 64 slots and does not show this (`Registry.OverlayFitsMockOnly`).
- `tx_80211` writes an 8-byte body header where 6 bytes are read (`Codecs.Tx80211RoundTripIff`).
- A five-digit port loses its last digit (`PortList.RoundTripIff`, `Router.ReservationWorksIff`), and the
  header walk does not look at the frame's length (`Router.WalkOverrunsIff`, `ShortFrameUndecided`).
- A cached port answer has no maximum age (`PortCache.StaleForever`).
- The MQTT wake-up looks for its payload at an offset taken from the flags macro, and takes its length from
  the window field (`Router.MaskedFlagsNeverWake`, `WholeWordFindsPayload`, `WakeupAsMeantIff`,
  `WindowDecidesWakeup`).
- Four overlaps of alerts, wake-ups and initialisation leave the token with a sleeping host
  (`PowerSave.TokenStepIff`); a transport that fails to restart counts as awake (`TakenForAwakeIff`).

## Model

| member | source | states |
|---|---|---|
| PhyRpcTable.FindFree | esp_hosted_open/src/phy_rpc.c:120-123 | the first free slot, or that all are in use |
| PhyRpcTable.FindMatch | esp_hosted_open/src/phy_rpc.c:79-87 | the first slot in use that waits for this op_id and response id, or that none does |
| PhyRpcTable.Dispatcher.ReserveSlot | esp_hosted_open/src/phy_rpc.c:118-137 | a reservation takes the first free slot, resets its status to ESP_FAIL and its length to 0, and moves the op_id on modulo 2^32; with no free slot nothing changes |
| PhyRpcTable.Dispatcher.OnResponse | esp_hosted_open/src/phy_rpc.c:70-103 | a short or unmatched response changes nothing; a matched one stores its status, copies at most the caller's capacity, and gives the token |
| PhyRpcTable.Dispatcher.TryTake | esp_hosted_open/src/phy_rpc.c:148 | the token is taken exactly when it is there |
| PhyRpcTable.Dispatcher.ReleaseSlot | esp_hosted_open/src/phy_rpc.c:144-156 | a release clears only the in-use flag: a token stays |
| PhyRpc.StructureStep | esp_hosted_open/src/phy_rpc.c:112-157 | every step of any interleaving keeps slots in use and calls between reservation and release in one-to-one correspondence |
| PhyRpc.SoundInEveryRun | esp_hosted_open/src/phy_rpc.c:112-157 | so in every run; calls in flight have distinct sequence numbers |
| PhyRpc.SameLowBits | esp_hosted_open/src/phy_rpc.c:129 | two requests with the same 32-bit op_id are the same exactly when they are less than 2^32 apart |
| PhyRpc.OpIdsDistinct | esp_hosted_open/src/phy_rpc.c:129-130 | calls in flight less than 2^32 reservations apart have distinct op_ids |
| PhyRpc.AcceptedByRequester | esp_hosted_open/src/phy_rpc.c:80-87 | an accepted reply is accepted by the call that made its request exactly when fewer than 2^32 reservations separate them |
| PhyRpc.OwnReplyIsAccepted | esp_hosted_open/src/phy_rpc.c:79-87 | a reply with a call's op_id and response id reaches that call and no other, as long as no call in flight is 2^32 reservations away |
| PhyRpc.UsedSlotsAreCalls | esp_hosted_open/src/phy_rpc.c:112-157 | as many slots are in use as calls are in flight |
| PhyRpc.RefusedWhenFull | esp_hosted_open/src/phy_rpc.c:124-128 | at most four calls are in flight, and a reservation finds no slot exactly when four are |
| PhyRpc.RefusalDisturbsNobody | esp_hosted_open/src/phy_rpc.c:124-128 | the caller that finds no slot gets ESP_ERR_NO_MEM; every slot, buffer and other call is as before |
| PhyRpc.UninterruptedResponse | esp_hosted_open/src/phy_rpc.c:94-102 | the four steps of a response, undisturbed, do what the in-place `OnResponse` does |
| PhyRpcCorrelation.CorrelatedStep | esp_hosted_open/src/phy_rpc.c:70-158 | every step keeps each call's status, length and bytes traceable to replies carrying its own op_id and response id |
| PhyRpcCorrelation.CorrelationInEveryRun | esp_hosted_open/src/phy_rpc.c:70-158 | in every run a call past its take that returns anything but ESP_FAIL returns the status of a reply to it; a length it returns is all of such a reply's body that fits its buffer; every byte of the buffer is as the caller left it or that of a reply which reaches that far |
| PhyRpcOrderly.CleanIffOrderly | esp_hosted_open/src/phy_rpc.c:141-157 | from a state with no stray token, a step leaves none exactly when it is no second answer, no answer after the call stopped waiting, and no giving up on an accepted answer |
| PhyRpcOrderly.OrderlyRunsAnswerExactly | esp_hosted_open/src/phy_rpc.c:70-158 | in every run of such steps no free slot holds a token, a successful take means the call's own reply arrived, and the answer is that one reply: its status, min(body, capacity) bytes of its body, that length, and the buffer behind them untouched |
| PhyRpcOrderly.ExpiryLeavesToken | esp_hosted_open/src/phy_rpc.c:148-151 | a reachable state: a reply lands between an expired take and the release, and the free slot keeps a token |
| PhyRpcOrderly.FailedSendLeavesToken | esp_hosted_open/src/phy_rpc.c:141-146 | the same through a send that reports failure after its answer has come |
| PhyRpcOrderly.StaleTokenAnswersNextCall | esp_hosted_open/src/phy_rpc.c:130-157 | from either state the next call returns ESP_FAIL with nothing received, though no reply to it was accepted |
| SdioTx.ConservedStep | slave/main/sdio_slave_api.c:457-478 | every step keeps credits in the semaphore, held and leaked at the queue size, and blocks in use at the messages alive |
| SdioTx.CreditsAndPool | slave/main/sdio_slave_api.c:457-572 | in every run the credits add up to the queue size less failed startup sends; no give overflows, no send finds the queue full, and the pool stays within the queue size + 1 + writers inside the send functions |
| SdioTx.LeaksAreFailedStartups | slave/main/sdio_slave_api.c:313-324 | a credit is lost exactly once for each startup send that fails |
| SdioTx.LeaksStarveEverySend | slave/main/sdio_slave_api.c:313-324 | after as many failed startup sends as the queue has entries nothing is ever sent again |
| SdioTx.EveryCreditCanLeak | slave/main/sdio_slave_api.c:313-324 | for every queue size such a run exists |
| SdioTx.PoolSizeIsNeeded | slave/main/sdio_slave_api.c:41 | with one writer a reachable state uses queue size + 2 blocks, the size of the pool |
| SdioTx.Sender.Write | slave/main/sdio_slave_api.c:516-572 | a refused or failed write leaves semaphore, pool and queue as they were and returns ESP_FAIL; a successful one leaves one block and one credit with the driver |
| SdioTx.WriteResultIff | slave/main/sdio_slave_api.c:516-572 | a write returns the payload's length exactly if the interface is up, the host awake, the handle not empty, and block and send are had; else ESP_FAIL |
| SdioTx.Sender.StartupEvent | slave/main/sdio_slave_api.c:313-324 | a failed startup send frees its block and keeps its credit |
| SdioTx.Sender.CompleteOne | slave/main/sdio_slave_api.c:457-478 | one completion returns one credit and one block |
| SdioRx.BuffersConserved | slave/main/sdio_slave_api.c:331-335 | in every run each RX buffer is in exactly one place, queue sends never block, the "no element" branch is never reached, and every consumed buffer is reloaded |
| SdioRx.QueueFits | slave/main/sdio_slave_api.c:689-713 | no queue ever holds more items than there are buffers, and has room when one is about to be queued |
| SdioRx.ReadInOrder | slave/main/sdio_slave_api.c:589-713 | in every run, the items of each interface type that were read are the good packets of that type, in order and once each, up to those queued or under way |
| SdioRx.ReadIsMostUrgent | slave/main/sdio_slave_api.c:589-609 | in every run an undisturbed read gives the oldest waiting item of its type, and nothing more urgent is waiting: serial before Bluetooth before the rest |
| SdioRx.TurnDoes | slave/main/sdio_slave_api.c:636-713 | an undisturbed turn: a packet that is empty, longer than what was read or wrong in its checksum leaves everything as it was; a good one is the last of its type's queue, counted once, after the throttle check |
| SdioRx.SteadyStep | slave/main/sdio_slave_api.c:136-182 | every step keeps START and STOP alternating with the flag, and the load of a throttled host as the marks allow |
| SdioRx.HostSeesThrottle | slave/main/sdio_slave_api.c:136-182 | for any marks, in every run the load fits its byte, START and STOP strictly alternate, and the last one sent is the flag |
| SdioRx.ThrottleEdges | slave/main/sdio_slave_api.c:136-182 | in every run START is sent exactly by a check that finds the host not told to wait and the queue above a high mark that is on, and STOP exactly by a check that finds it told to wait and the queue below the low mark |
| SdioRx.ThrottleHysteresis | slave/main/sdio_slave_api.c:136-182 | in every run, unless a pop is still to be checked, a throttled host has a non-empty queue if the low mark is not zero, and a load at or above the low mark if that is at most one above the high mark |
| SdioRx.StuckThrottledIff | slave/main/sdio_slave_api.c:136-182 | for any marks, some run leaves the host throttled in every continuation, with nothing queued and nothing under way, exactly if the low mark is zero and the queue can grow past the high mark before the last check |
| SdioRx.Receiver.StartThrottlingIfNeeded | slave/main/sdio_slave_api.c:136-161 | throttling starts, with one interrupt, exactly above the high mark when not yet started |
| SdioRx.Receiver.StopThrottlingIfNeeded | slave/main/sdio_slave_api.c:163-182 | throttling stops, with one interrupt, exactly below the low mark |
| SdioRx.Receiver.ReceiveOne | slave/main/sdio_slave_api.c:611-713 | one uninterrupted turn of the receiver: a rejected packet's buffer goes back, an accepted one's is queued by interface and counted |
| SdioRx.Receiver.ReadOne | slave/main/sdio_slave_api.c:589-609 | one uninterrupted read: the oldest item of the first non-empty queue, serial before Bluetooth before the rest |
| SerialTx.FragmentsRebuild | slave/main/esp_hosted_coprocessor.c:814-858 | max(1, ceil(len/1500)) fragments that concatenate to the data, MORE_FRAGMENT on all but the last, sequence numbers consecutive modulo 2^16, the buffer freed once with the last |
| SerialTx.SerialWriter.SerialWriteData | slave/main/esp_hosted_coprocessor.c:814-858 | the loop sends those fragments in order, frees the buffer once and moves the sequence number on by their count |
| SerialRx.RebuildsAnySplit | slave/main/esp_hosted_coprocessor.c:515-558 | from idle, any split with equal sequence numbers completes once, with the first 8192 bytes, and ends idle |
| SerialRx.MismatchCutsMessage | slave/main/esp_hosted_coprocessor.c:538-543 | a packet of another message completes the partial one and is itself dropped |
| SerialRx.MatchesIff | slave/main/esp_hosted_coprocessor.c:525-552 | a step keeps the pipeline's completed messages equal to those of the undisturbed assembler exactly when it does not store a packet with less room than it needs and should have |
| SerialRx.CompletedIsFed | slave/main/esp_hosted_coprocessor.c:515-558 | in every run in which allocation succeeds and no packet arrives behind a pending message that it does not fit the buffer with, the completed messages are exactly the undisturbed assembler's, and once nothing is pending the handler has had exactly the non-empty ones |
| SerialRx.MessagesArrive | slave/main/protocomm_pserial.c:213-297 | in every such run, when the packets taken are whole messages split in any way, the handler has had exactly the non-empty ones, cut to 8192 bytes, once each and in order |
| SerialRx.StaleRoomLoses | slave/main/esp_hosted_coprocessor.c:525-534 | for every message that fits the buffer, split in any way, and every packet that does not fit behind it, a run from the start in which that packet keeps only what would have fitted there |
| SerialRx.FullFragmentsLose | slave/main/esp_hosted_coprocessor.c:525-534 | five fragments of 1500 bytes and one such packet behind them, which keeps 692 of its bytes, are such a run |
| SerialRx.HandshakeStep | slave/main/esp_hosted_coprocessor.c:525-558 | every step keeps one request on its way exactly while `r.valid` is set, equal to the buffer |
| SerialRx.ExactlyOnce | slave/main/protocomm_pserial.c:213-297 | while allocation succeeds, in every run the messages handled are exactly the non-empty completed ones, in order, less the one pending, however events interleave in the queue |
| SerialRx.QueueInOrder | slave/main/protocomm_pserial.c:213-297 | in every run requests and events leave the queue they share in the order in which they were put there |
| SerialRx.FailedAllocationWedges | slave/main/protocomm_pserial.c:213-246 | after one failed allocation for a packet that ends a non-empty message no request is ever handled again |
| SerialRx.FailureReachable | slave/main/protocomm_pserial.c:213-246 | for every non-empty one-packet message there is such a run |
| SerialRx.RxData.ProcessPacket | slave/main/esp_hosted_coprocessor.c:536-557 | the copy loop appends exactly the bytes that fit and completes on the last fragment or a mismatch |
| SerialRx.RxData.ReadInto | slave/main/esp_hosted_coprocessor.c:774-786 | at most the caller's length is copied out, and a message that was there is gone |
| Tlv.ParseIsMeaning | slave/main/protocomm_pserial.c:48-149 | on every well-formed list the loop stays inside its input and computes the list's meaning |
| Tlv.MeaningIs | slave/main/protocomm_pserial.c:112-154 | and that meaning, element by element: when it is rejected, that the last data element wins, and that names overlay one another byte by byte, the rest of a longer one showing behind a shorter |
| Tlv.ComposeParseRoundTrip | slave/main/protocomm_pserial.c:48-149 | a composed message parses to its endpoint and payload |
| Tlv.ShortNamesCompose | slave/main/protocomm_pserial.c:68-110 | while the 16-bit cursor does not wrap, the buffer is the two-element encoding |
| Tlv.RoundTripIff | slave/main/protocomm_pserial.c:68-149 | for every name and payload, what is composed parses back exactly for names of 1 to 14 non-zero bytes and payloads of 1 to 65535 bytes |
| Tlv.ComposeTlv | slave/main/protocomm_pserial.c:68-110 | the buffer filled through the wrapping cursor, for every name and payload, and when the name is written past it |
| Tlv.ComposeOverrunsIff | slave/main/protocomm_pserial.c:76-92 | the name is written past its buffer exactly if what its length loses modulo 2^16 is more than the payload and three bytes |
| Tlv.ParseRequest | slave/main/protocomm_pserial.c:112-154 | the loop with its cursor and remaining length computes the parse |
| SerialRequest.RequestArrivesIff | slave/main/esp_hosted_coprocessor.c:515-558 | however a composed request is split, it completes once and is parsed back exactly when all of it fits 8192 bytes; otherwise the parser runs past what was kept |
| StaConfig.KeptIff | slave/main/slave_wifi_std.c:724-752 | one step of any interleaving of requests and event handlers keeps the latest configuration in the driver (flag clear) or in the cache (flag set) exactly when it neither sets a cached configuration over a newer one nor clears the flag for one that was not set |
| StaConfig.OverwrittenIsLost | slave/main/slave_wifi_std.c:735-748 | after such a step it is lost: at the latest when the request ends the flag is clear and the driver has another configuration |
| StaConfig.HandlerOverwritesReachable | slave/main/slave_wifi_std.c:2231-2238 | reachable with events the driver delivers: a configuration is refused while the link is up, the link breaks, its handler tests the flag, a request sets a newer configuration and ends, the handler sets the older one |
| StaConfig.HandlerClearsReachable | slave/main/slave_wifi_std.c:2231-2238 | reachable with events the driver delivers: an attempt fails and, between its handler's set of a cached configuration and its clearing of the flag, a newer one is cached |
| StaConfig.LatestNeverLost | slave/main/slave_wifi_std.c:656-752 | in every interleaved run without such a step the latest configuration is never lost |
| StaConfig.LockKeepsLatest | slave/main/slave_wifi_std.c:2204-2253 | nor is it in any run in which requests and event handlers exclude one another |
| StaConfig.ConnectedIsItsSteps | slave/main/slave_wifi_std.c:2204-2226 | the undisturbed CONNECTED handler is its steps |
| StaConfig.DisconnectedIsItsSteps | slave/main/slave_wifi_std.c:2227-2273 | the undisturbed DISCONNECTED handler is its steps |
| StaConfig.CachedConfigTakesEffect | slave/main/slave_wifi_std.c:2204-2273 | a configuration cached while connecting ends in the driver, with a connect issued and the host told nothing |
| StaConfig.DisconnectApplies | slave/main/slave_wifi_std.c:2227-2253 | a DISCONNECTED whose set succeeds ends with the driver on the latest configuration and a connect issued |
| StaConfig.RetriesThenGivesUp | slave/main/slave_wifi_std.c:2255-2270 | with nothing cached or suppressed, the k-th loss in a row connects again exactly if k is not a multiple of maxRetry + 1 |
| StaConfig.RetriesInEveryRun | slave/main/slave_wifi_std.c:2255-2270 | in every interleaved run at most maxRetry connects in a row follow told losses without an announcement between them, and until then each such loss is followed by one |
| StaConfig.HostViewInEveryRun | slave/main/slave_wifi_std.c:2204-2273 | if CONNECTED comes only when the link is down and no re-sent event is overtaken, then in every interleaved run, whenever no event is being handled, the last event told to the host agrees with station_connected |
| StaConfig.ResentAfterLossReachable | slave/main/slave_wifi_std.c:688-703 | reachable with events the driver delivers: a re-sent Connected, decided before the link breaks and sent after the host was told so, leaves the host believing in a link that is gone |
| StaConfig.ViewBreaksIff | slave/main/slave_wifi_std.c:2255-2273 | an undisturbed handler breaks that agreement exactly when it suppresses the loss of a told link, a re-sent event exactly after the loss |
| StaConfig.SecondConnectedMisleadsHost | slave/main/slave_wifi_std.c:2204-2216 | from every connected state a refused set and a second CONNECTED lead to a host that believes in a link that is gone |
| StaConfig.AnnouncedLinksAreLatest | slave/main/slave_wifi_std.c:2204-2226 | without auto-reconnect, in every orderly run, the link announced to the host was made with its latest configuration |
| StaConfig.AnnouncedLatestIff | slave/main/slave_wifi_std.c:2204-2270 | every link announced in every orderly run from the start was made with the latest configuration if and only if there is no auto-reconnect |
| StaConfig.AutoReconnectAnnouncesStale | slave/main/slave_wifi_std.c:2255-2270 | with auto-reconnect this fails from every connected state that still has a retry |
| StaConfig.Station.SetStaConfig | slave/main/slave_wifi_std.c:724-752 | the request undisturbed is its steps |
| StaConfig.Station.ReqWifiConnect | slave/main/slave_wifi_std.c:656-709 | the connect request's new state and its answer for every return value of the driver, ESP_ERR_WIFI_CONN reported as success |
| StaConfig.AnswerMeans | slave/main/slave_wifi_std.c:656-709 | ESP_OK means a Connected sent again or an attempt under way, any other answer that nothing was started, and which error it is |
| StaConfig.Station.OnStaConnected | slave/main/slave_wifi_std.c:2204-2226 | the CONNECTED handler's new state |
| StaConfig.Station.OnStaDisconnected | slave/main/slave_wifi_std.c:2227-2273 | the DISCONNECTED handler's new state |
| StaConfig.Station.OnStaStart | slave/main/slave_wifi_std.c:2327-2337 | the STA_START handler's new state |
| StaConfig.Station.OnStaStop | slave/main/slave_wifi_std.c:2338-2342 | the STA_STOP handler's new state |
| StaConfig.StartAndStop | slave/main/slave_wifi_std.c:2327-2342 | STA_START connects exactly with auto-connect and nothing under way, a second one adds nothing; STA_STOP ends what is under way, so the next configuration goes to the driver and the next STA_START connects again |
| WifiInit.AgreesIff | slave/main/slave_wifi_std.c:352-388 | the driver keeps running with the cached values of the compared fields unless it accepts a NULL configuration |
| WifiInit.OkMeansRunningAsAsked | slave/main/slave_wifi_std.c:352-388 | in every run a call that answers ESP_OK leaves the driver with the compared fields it asked for, whether or not the driver was called |
| WifiInit.UnchangedLeavesDriverAlone | slave/main/slave_wifi_std.c:352-388 | in every run a call with the compared fields the driver runs with answers ESP_OK and touches nothing; any other is the driver's to answer, and what it accepts is what it runs with |
| WifiInit.DeinitForgets | slave/main/slave_wifi_std.c:481-497 | after a deinitialisation, whatever the driver answers to it, every call asks the driver again |
| WifiInit.WifiDriver.Init | slave/main/slave_wifi_std.c:352-388 | the wrapper's new state and answer |
| WifiInit.WifiDriver.Deinit | slave/main/slave_wifi_std.c:481-497 | the flag is cleared whatever the driver answers |
| Registry.CallbackTable.Register | slave/main/slave_control.c:888-956 | registering, updating and removing act on the slots as on a partial map of the table's capacity, with the same codes; the mutex is created on first use |
| Registry.CallbackTable.Dispatch | slave/main/slave_control.c:809-846 | a message reaches exactly the handler the map holds for it |
| Registry.CallbackTable.RegisterAll | slave/components/phy_rpc_overlay/phy_rpc_handlers.c:485-490 | a registration loop carries on after refusals; calls before the mutex could be created register nothing |
| Registry.RoomIffFree | slave/main/slave_control.c:938-947 | a free slot exists exactly while the map holds fewer entries than there are slots |
| Registry.NeverOverCapacity | slave/main/slave_control.c:888-956 | no sequence of requests exceeds the capacity or stores the reserved id |
| Registry.MockAgreesIff | tests/host/mock_esp_hosted.c:47-76 | the host tests' registry of capacity k and a slave's of capacity n agree on a request exactly off the reserved id and off removals of unknown ids, and when a new id finds room in both or in neither |
| Registry.MockFollowsIff | tests/host/mock_esp_hosted.c:34-76 | for different capacities, over every sequence that avoids the reserved id, both hold the same callbacks throughout exactly if there are never more live ids than fit the smaller |
| Registry.MockFollows | tests/host/mock_esp_hosted.c:47-91 | for equal capacities they hold the same callbacks throughout, full or not |
| Registry.RegistrationMeans | slave/main/slave_control.c:888-956 | when each of the four codes is answered, and that a lookup afterwards finds the new handler exactly if it was ESP_OK, with all other ids as before |
| Registry.LastOkStands | slave/main/slave_control.c:809-956 | after any sequence of requests a lookup finds the handler of the last one for its id that was answered ESP_OK, if that was no removal |
| Registry.OverlayFitsMockOnly | tests/host/mock_esp_hosted.c:34 | the host tests' 64 slots take all 47 overlay ids; no slave of fewer than 47 slots follows |
| Registry.MockTable.Register | tests/host/mock_esp_hosted.c:47-76 | the test registry's slots refine its map |
| Registry.MockTable.Lookup | tests/host/mock_esp_hosted.c:78-91 | a lookup finds exactly what the map holds |
| Registry.FirstComeFirstServed | slave/main/slave_control.c:938-955 | registering k distinct ids leaves exactly the first min(k, N), each with its own handler |
| Registry.OverlayIds | slave/components/phy_rpc_overlay/phy_rpc_handlers.c:454-483 | the overlay's 47 ids are distinct |
| Registry.OverlayAnswersIff | slave/components/phy_rpc_overlay/phy_rpc_overlay.c:97-99 | after the three loops the handler at place j answers exactly if j < N: all of them only if N >= 47, GET_CAPS only if N >= 28 |
| Caps.BitIsShift | slave/components/phy_rpc_overlay/phy_rpc_handlers.c:404-409 | the bit of a mark is one shifted by the id's low three bits |
| Caps.HostSeesClaims | esp_hosted_open/src/phy_rpc.c:565-572 | the host sees a capability exactly when some present mark has the same low byte, below 128 |
| Caps.OverlayReported | slave/components/phy_rpc_overlay/phy_rpc_handlers.c:396-448 | no two overlay requests share a bit: each is reported as it was marked |
| Caps.AdvertisedIff | esp_hosted_open/src/phy_rpc.c:556-563 | with N slots the host sees a linked capability exactly if N >= 28, since GET_CAPS itself must have been registered; below that it sees none at all |
| Caps.AdvertisedUnansweredIff | slave/components/phy_rpc_overlay/phy_rpc_handlers.c:396-490 | the capability at place j is advertised but never answered exactly when it is linked and 28 <= N <= j |
| Caps.AnsweredUnadvertisedIff | slave/components/phy_rpc_overlay/phy_rpc_handlers.c:396-490 | a linked one is answered but not advertised exactly when j < N < 28 |
| Caps.FillCaps | slave/components/phy_rpc_overlay/phy_rpc_handlers.c:404-448 | the marks made in place are the marks of the model |
| Codecs.UnpackExact | esp_hosted_open/include/phy_rpc_proto.h:310-412 | a header that counts its payload right gives both back, whatever follows |
| Codecs.UnpackCut | slave/components/phy_rpc_overlay/phy_rpc_wireless.c:113-122 | cut at any byte, a message delivers nothing |
| Codecs.ResponseRoundTrip | slave/components/phy_rpc_overlay/phy_rpc_handlers.c:77-98 | the dispatcher reads back op_id, signed status and body of every response |
| Codecs.EspnowSendRoundTrip | slave/components/phy_rpc_overlay/phy_rpc_wireless.c:113-122 | slave decoding inverts host encoding of ESP-NOW send; a shorter prefix is dropped inside its header and refused, with its own op_id, behind it |
| Codecs.Tx154RoundTrip | slave/components/phy_rpc_overlay/phy_rpc_wireless.c:196-213 | the same for raw 802.15.4 frames, which go out behind their length byte |
| Codecs.Tx154TooLong | slave/components/phy_rpc_overlay/phy_rpc_wireless.c:196-213 | a request that counts more than 127 bytes is refused with its own op_id |
| Codecs.Tx80211Shifts | slave/components/phy_rpc_overlay/phy_rpc_extras.c:46-57 | every raw 802.11 frame is injected as two zero bytes and the frame without its last two |
| Codecs.Tx80211RoundTripIff | esp_hosted_open/src/phy_rpc.c:576-608 | the intended round trip holds exactly for frames of zero bytes |
| Codecs.Tx80211Cut | slave/components/phy_rpc_overlay/phy_rpc_extras.c:46-57 | cut before the frame's end a request is refused with its own op_id, or dropped inside its header |
| Codecs.AddPeerRoundTrip | slave/components/phy_rpc_overlay/phy_rpc_wireless.c:93-104 | decoding inverts encoding for add_peer, with interface 1 read as AP and a zero key where none is given; a shorter message is dropped |
| Codecs.SetMacRoundTrip | slave/components/phy_rpc_overlay/phy_rpc_extras.c:154-160 | decoding inverts encoding for set_mac |
| Codecs.ProtocolAndFtmRoundTrip | slave/components/phy_rpc_overlay/phy_rpc_extras.c:146-228 | decoding inverts encoding for set_protocol and FTM |
| Codecs.RawRoundTrip | slave/components/phy_rpc_overlay/phy_rpc_extras.c:100-122 | host decoding inverts slave encoding of RAW frames up to 1600 bytes and delivers nothing of a shorter prefix |
| Codecs.CsiRoundTrip | slave/components/phy_rpc_overlay/phy_rpc_extras.c:164-180 | every CSI capture the send path accepts reaches the host whole |
| Codecs.EspnowRxRoundTrip | slave/components/phy_rpc_overlay/phy_rpc_wireless.c:40-55 | the same for received ESP-NOW frames |
| Codecs.Rx154RoundTrip | slave/components/phy_rpc_overlay/phy_rpc_wireless.c:137-156 | for every length byte, the host gets a frame exactly if it says 2 to 127, and then that frame with zero metadata |
| Codecs.Rx154Fields | esp_hosted_open/src/phy_rpc.c:264-278 | the host's decoder reads every field of a raw 802.15.4 event from its own place |
| Codecs.BuildEspnowSend | esp_hosted_open/src/phy_rpc.c:696-711 | the body buffer filled by index is the encoding, for 1 to 250 bytes only |
| Codecs.BuildTx154 | esp_hosted_open/src/phy_rpc.c:736-751 | the same for 1 to 127 bytes |
| Codecs.BuildTx80211 | esp_hosted_open/src/phy_rpc.c:576-608 | the same, with the 8-byte header, for 1 to 1500 bytes |
| Codecs.BuildResponse | slave/components/phy_rpc_overlay/phy_rpc_handlers.c:83-98 | the response buffer is the encoding |
| Codecs.BuildRawEvent | slave/components/phy_rpc_overlay/phy_rpc_extras.c:100-122 | the event buffer is the encoding |
| Codecs.BuildCsiEvent | slave/components/phy_rpc_overlay/phy_rpc_extras.c:164-180 | the event buffer is the encoding |
| Codecs.BuildEspnowRxEvent | slave/components/phy_rpc_overlay/phy_rpc_wireless.c:40-55 | the event buffer is the encoding |
| PortList.ScanIsListed | slave/main/nw_split_router.c:111-132 | scanning from the left finds, for each comma-separated token with a digit, the value of its first four digits |
| PortList.PrintedPort | slave/main/nw_split_router.c:111-123 | a printed port comes back as itself, or without its last digit if it has five |
| PortList.PrintedList | slave/main/nw_split_router.c:111-132 | a comma-joined list comes back port by port in that way |
| PortList.RoundTripIff | slave/main/nw_split_router.c:86-132 | parsing inverts printing exactly for lists that fit the array and hold no port above 9999 |
| PortList.AllowedIff | slave/main/nw_split_router.c:86-132 | a printed list allows exactly the ports that its entries read back as, none above 9999 |
| PortList.AllowsWhatItListsIff | slave/main/nw_split_router.c:86-132 | it allows exactly the ports it lists if and only if none has five digits and each finds room |
| PortList.AllowList.Init | slave/main/nw_split_router.c:86-152 | the first non-empty string decides the list, cut at the array's size; later strings change nothing |
| PortList.AllowList.Scan | slave/main/nw_split_router.c:108-132 | the loop over its six-byte buffer stays inside both arrays and stores exactly the listed ports |
| PortList.AllowList.IsAllowed | slave/main/nw_split_router.c:233-267 | the membership tests |
| PortCache.AnswerIsScanAtLastMiss | slave/main/nw_split_router.c:279-347 | every answer about a non-zero port is the scan at the last miss, over an unbroken chain of questions about that port each within the window of the one before |
| PortCache.UnchangedListenersAnswerRight | slave/main/nw_split_router.c:279-347 | with the listeners unchanged along that chain, the answer is the plain scan |
| PortCache.FreshAfterGap | slave/main/nw_split_router.c:284-288 | a gap of a whole window or another port always leads to a fresh scan |
| PortCache.StaleForever | slave/main/nw_split_router.c:284-288 | for every n a closed port asked about every 999 time units is still reported open after n questions |
| PortCache.ListenerCache.IsLocalPortOpen | slave/main/nw_split_router.c:279-312 | the search over the control blocks and the cache update compute that answer and that cache |
| Router.SlaveGets | slave/main/nw_split_router.c:349-515 | for every default and power state, exactly which packets go to the slave alone |
| Router.HostGets | slave/main/nw_split_router.c:349-515 | exactly which go to the host alone |
| Router.BothGet | slave/main/nw_split_router.c:349-515 | and exactly which to both |
| Router.WakesSleepingHostIff | slave/main/nw_split_router.c:349-515 | with the slave as default, a sleeping host is sent exactly reserved ports, MQTT wake-up payloads and DHCP client packets |
| Router.SleepOnlyTakesFromHost | slave/main/nw_split_router.c:349-515 | falling asleep only takes traffic from the host and never any from the slave |
| Router.NothingDroppedAwake | slave/main/nw_split_router.c:349-515 | while the host is awake nothing is dropped |
| Router.TornSampleIsOneOfBoth | slave/main/nw_split_router.c:386-415 | two different samples of the power state route as one of the two states would |
| Router.MaskedFlagsNeverWake | slave/main/nw_split_router.c:400-411 | if TCPH_FLAGS drops the top four bits, no MQTT packet wakes the host |
| Router.WholeWordFindsPayload | slave/main/nw_split_router.c:400-411 | if it keeps the whole word, the payload is looked for at the TCP data offset |
| Router.WakeupAsMeantIff | slave/main/nw_split_router.c:400-411 | with the whole word, the code wakes the host exactly for TCP payloads that start with the string, if and only if the string is not at the data offset or window and payload length lie on the same side of 11 |
| Router.WindowDecidesWakeup | slave/main/nw_split_router.c:400-411 | for every unreserved remote port, a wake-up message with a window below 11 is dropped, and a packet without payload and any larger window wakes the host |
| Router.WalkOverrunsIff | slave/main/nw_split_router.c:349-515 | the walk over a frame of any length reads past its end exactly if its reach is longer, and then behind the end but within the reach; otherwise it ends with the router's decision |
| Router.FrameDecides | slave/main/nw_split_router.c:349-515 | a frame whose walk stays inside it is routed by its own bytes, whatever lies behind it |
| Router.ReachIsBounded | slave/main/nw_split_router.c:349-515 | no walk reaches beyond 145 bytes |
| Router.ShortFrameUndecided | slave/main/nw_split_router.c:482-500 | a frame that ends with its IP header is routed to the slave or to both by a byte that is not part of it |
| Router.ReservationWorksIff | slave/main/nw_split_router.c:86-132 | with allow lists read from printed lists, the ports reserved over TCP and UDP, by source or destination, are exactly those that read back, none above 9999 |
| Router.Filter.FilterAndRoute | slave/main/nw_split_router.c:349-515 | the router with its caches: they are consulted and updated only for unreserved packets to port 5001, and the rest of the decision does not depend on them |
| PacketPath.Transport.ProcessTxPkt | slave/main/esp_hosted_coprocessor.c:404-444 | whatever the data path, transport and wake-up outcome, the buffer is freed once, and is offered to the transport only if the host counts as awake |
| PacketPath.Transport.WlanStaRx | slave/main/esp_hosted_coprocessor.c:276-401 | for every bridge and outcome the Wi-Fi buffer is freed or handed to lwIP exactly once, and the BOTH copy freed exactly once, never used after |
| PacketPath.Transport.WlanApRx | slave/main/esp_hosted_coprocessor.c:235-270 | the soft-AP buffer is freed exactly once |
| PacketPath.AwakeHostGetsItsFrames | slave/main/esp_hosted_coprocessor.c:404-444 | with the path open, an awake host, or one that needs no wake-up, is offered exactly the frames the rules give it, and each goes out if the bus takes it |
| PacketPath.ClosedPathOffersNothing | slave/main/esp_hosted_coprocessor.c:404-444 | without a data path or a write operation nothing is offered; with the first look at the path closed only frames for both are |
| PacketPath.GoesOutIff | slave/main/sdio_slave_api.c:516-572 | an offered frame goes out exactly if the interface is up, the host awake, the handle not empty, and block and send are had |
| PacketPath.SleepingHostIsOffered | slave/main/esp_hosted_coprocessor.c:404-444 | a frame that finds the host asleep is offered to the transport exactly if it is of the three kinds that wake a host and the wake-up does not answer 0 |
| PacketPath.NothingGoesOutToSleepers | slave/main/sdio_slave_api.c:533-536 | a frame is offered while the host sleeps on exactly when the wake-up takes it for awake, and the write then refuses it |
| PowerSave.TokenStepIff | slave/main/host_power_save.c:303-309 | a step of any overlap of alerts, wake-ups and initialisations keeps the token telling whether the host is awake exactly when it is none of four misplaced ones: creating the semaphore asleep, falling asleep inside a wake-up, an initialisation or a wake alert, waking inside a sleep alert |
| PowerSave.TokenInEveryRun | slave/main/host_power_save.c:154-474 | so in every run without those: with nothing half-way the token is there exactly while the host is awake, and a wake-up takes it only from a host that is awake and not about to sleep |
| PowerSave.SavingIffLastWasSleep | slave/main/host_power_save.c:400-474 | in every run power_save_on is set exactly when the last alert to write it was a sleep |
| PowerSave.InitMeans | slave/main/host_power_save.c:154-209 | initialising sets the flag as asked and makes a semaphore exactly if there is none and the wake-up pin can be set up |
| PowerSave.TakesAreApart | slave/main/host_power_save.c:267-334 | in every run, between two wake-ups that take the token someone gives one |
| PowerSave.InitAfterSleepGivesToken | slave/main/host_power_save.c:192-222 | reachable through init, deinit, sleep, init: a sleeping host with a token |
| PowerSave.SleepInsideInitGivesToken | slave/main/host_power_save.c:192-195 | the same through a sleep alert between create and give |
| PowerSave.SleepInsideWakeupGivesToken | slave/main/host_power_save.c:303-309 | the same through a sleep alert between a wake-up's take and give |
| PowerSave.OverlappingAlertsGiveToken | slave/main/host_power_save.c:424-472 | the same through a wake alert inside a sleep alert |
| PowerSave.StaleTokenLies | slave/main/host_power_save.c:356-398 | in each of those states the next wake-up says that the sleeping host is awake |
| PowerSave.AlertIsItsSteps | slave/main/host_power_save.c:400-474 | an alert that no other overlaps is its two halves |
| PowerSave.AlertsEndAsLast | slave/main/host_power_save.c:400-474 | any list of alerts leaves what its last power event alone leaves, however often it repeats |
| PowerSave.WakeupOutcome | slave/main/host_power_save.c:267-334 | for all alerts around and inside its passes: success ends with the host asleep exactly if it fell asleep inside the take and give that succeeded; failure leaves the token right and a host that slept asleep |
| PowerSave.TakenForAwakeIff | slave/main/host_power_save.c:356-398 | from every state whose token is right, for all alerts: a host that sleeps on is taken for awake exactly when power save was disabled while it slept, its transport could not restart (ESP_FAIL, and only then), or it fell asleep again inside the successful take and give |
| PowerSave.TakenForAsleepIff | slave/main/host_power_save.c:356-398 | a host that is awake is taken for asleep exactly when it woke up between the two looks with its transport up, or with no semaphore to tell |
| PowerSave.HostPower.Init | slave/main/host_power_save.c:154-209 | initialisation is its steps |
| PowerSave.HostPower.Deinit | slave/main/host_power_save.c:211-226 | deinitialisation takes, gives and drops the semaphore and leaves alerts enabled |
| PowerSave.HostPower.Alert | slave/main/host_power_save.c:400-474 | an alert's new state |
| PowerSave.HostPower.TriggerHostWakeup | slave/main/host_power_save.c:267-334 | the retry loop, with the alerts before and inside each take and give |
| PowerSave.HostPower.WakeupHost | slave/main/host_power_save.c:356-398 | the state left and the answer, for every transport state, re-initialisation, alert sequence and retry |

## Left out

- SPI, SPI half-duplex and UART transports: the queue and semaphore pattern of SDIO with GPIO and DMA detail.
- SDIO init, reset and deinit; creation and deletion of tasks and queues.
- The memory pool, payload header, checksum and protobuf packing: their definitions are not part of this model; an accepted packet is one whose lengths and checksum pass.
- One-call RPC handlers, OTA, heartbeat, memory monitor, statistics, GPIO expander, Bluetooth, CLI and logging: field copies around closed APIs.
- `phy_*` effects and radio behaviour.
- The priority-queue send path, which is compiled out; fragments and packets go straight to the bus.
- `host_to_slave_reconfig`: the throttle marks are fixed parameters of the receive model, not changed during a run.
- lwIP's port-range macros, TCPH_FLAGS and listener lists are parameters; their definitions are not part of this model.
- `serial_read_data` and the copy of a response body are single steps; a caller's buffer that is gone by the time a late response is copied is not modelled as freed memory.
- Each throttle start or stop is one step, and so are the copy of a configuration and the part of the CONNECTED handler that tells the host; requests and the two event handlers are otherwise cut at every test and write of the flag and at the driver's answers.
- The liveness of `pserial_task`: a custom handler inside it can block on its own queue, so no claim is made that a pending request is ever read.
- Real time: timeouts are nondeterministic; the port cache has an abstract clock.
- Allocation failures are modelled where they change a protocol (`SdioTx`, `SerialRx`), not in the codecs.
- Two callers creating the registry's mutex at the same time.
- Bringing the transport down on a sleep alert, the wake-up GPIO and its timer, and the user's callbacks.
- PowerSave.HostPower.WakeupHost: its alerts are whole and come one after another; halves of alerts and several wake-ups at once are steps of the state machine (`TokenStepIff`).
