# Verified models of ns-2 admission, queueing, MAC and mobility components

This project models eleven components of the simulator tree as Dafny programs and proves what
their code and comments promise, over every run.

| file | component |
|---|---|
| `TokenBucket.dfy` | token bucket shaper with one departure timer |
| `Reservation.dfy` | admission, confirmation, rollback and teardown of flows over a path of links |
| `Red.dfy` | closed-form fixed point of the RED curve and an M/M/1 queue |
| `Arq.dfy` | unicast data exchange of the 802.11 MAC as stop-and-wait ARQ |
| `Scan.dfy` | channel scan of the 802.11 MAC |
| `SendBuffer.dfy`, `AodvQueue.dfy` | AODV send buffer: the sequence it stands for, and the linked list on the heap |
| `NeighborCache.dfy` | soft-state prefix cache of the Neighbor Discovery agent |
| `Solicitation.dfy` | scheduling of answers to router solicitations |
| `SipBinding.dfy`, `SipAgent.dfy` | binding table of the SIP mobile router, and the agent that updates it in place |
| `Playout.dfy` | conservative playout offset, with its 32-bit arithmetic |
| `Subscriptions.dfy` | remote event subscriptions against session lifetime |
| `Basics.dfy`, `Products.dfy`, `Cycles.dfy` | shared definitions and arithmetic |

## How the models are built

Code that changes an object step by step is a class with the source's fields and loops. The
contract of each method gives the whole new state as a function of the old one. The same functions
are the steps of a transition system: `Run` applies a list of events, each skipped if the
surrounding program could not produce it in that state (`Enabled`, or the guards of `Step`). So
every list of events is a run, and a lemma about `Run` is about every interleaving. Results of a run
are compared with definitions that do not share its code: an offline token meter, the RED curve and
queue equation, a filter of a sequence, the history of what was heard. Where the surrounding program may do more than the code
can bear, the run says so (`Reservation.Orderly`), and a lemma says what happens otherwise.

Time is a real number. Clocks never go back, a pending timer is never passed, and at equal instants
either side may go first. Random draws, router advertisements, losses and scheduling are parameters
or events. The token bucket class counts seconds and its specification counts earned tokens, one
per bit; `TokenBucket.ConformsInSeconds` translates the result back.

## Findings

- The timer of the token bucket is exact only for packets that fit the bucket. A larger packet leaves
  a negative balance; output conforms to the bucket exactly when no larger packet is forwarded
  (`TokenBucket.TimerExact`, `TokenBucket.ConformsExactly`).
- `stop()` may be called at any time and sends TEARDOWN without asking. It is harmless, whatever
  happens next, exactly when the flow is running at its source, which is what the next line of `stop()`
  tests (`Reservation.StopSafeExactly`). Otherwise the ledger of the first link breaks: a link that does
  not hold the flow counts one flow too few and takes its rate off all the same
  (`Reservation.TeardownNeedsReservation`, `Reservation.StrayTeardown`), and a link that has it pending
  may roll it back a second time (`Reservation.TornDownWhilePending`). The flow counter starts at -1, so
  it is one below the number of admitted flows unless tracing resets it (`Reservation.Ledger`).
- At `Lambda_L` with `MinTh` zero the leading coefficient of the quadratic is zero as well, so its
  formula is undefined there; the code takes the other branch (`Red.BranchesMeetBelow`).
- A station passes up frames in order and once in every run exactly when it keeps a sequence number
  cache entry for the sender, once a second attempt is allowed (`Arq.InOrderExactlyWhenCached`).
- The number of timer expiries of a scan is bounded exactly when the minimum channel time is not zero;
  with zero an early answer keeps the timer expiring at the same instant (`Scan.ScanEndsExactly`).
- The whole-list purge of the AODV buffer and the commented-out head purge agree at every clock
  exactly on lists sorted by expiry, which all reachable lists are (`SendBuffer.FastPurgeNeedsSorted`).
- The neighbor list agrees with what was heard about a prefix in every run exactly when the prefix is
  not a reserved timer number (`NeighborCache.AgreesExactlyUnlessReserved`). Such a number is never
  taken out, and its timer sets off an advertisement or a solicitation instead
  (`NeighborCache.ReservedOutlasts`).
- A scheduled solicitation answer can be later than the next periodic advertisement only if that one
  is due at the very same instant (`Solicitation.AnswerBounds`), and then it can (`Solicitation.LateAtTie`).
- A mobile node can be left without contact while every uplink is active again; the assertion in the
  forwarding branch then fails, and only then (`SipBinding.LookupFailsExactly`,
  `SipBinding.StrandedIsReachable`). An uplink that re-registers with another address can strand
  nodes; `SipBinding.ReturnRandomExactly` and `SipBinding.ReturnRoundRobinExactly` give the exact
  conditions. For round robin the nodes on the former address must all be among those the loop moves;
  with nodes on two addresses this means that only one node uses it (`SipBinding.TwoContactsExactly`).
- With clocks below 2^30 samples the comparison `offset_ == -1` in the playout code never holds, since
  the offset stays at 200 or more (`Playout.NeverLate`).

## Model

| member | source | states |
|---|---|---|
| TokenBucket.TBF.constructor | ns-2.29-ori/adc/tbf.cc:53-59 | a new shaper has no tokens, no packet, no timer, and will start with a full bucket |
| TokenBucket.TBF.GetUpdatedTokens | ns-2.29-ori/adc/tbf.cc:117-126 | tokens grow by the credit earned since the last update, up to the bucket |
| TokenBucket.TBF.Recv | ns-2.29-ori/adc/tbf.cc:74-115 | forward at once, queue and arm the timer, or drop, with the whole new state |
| TokenBucket.TBF.Timeout | ns-2.29-ori/adc/tbf.cc:128-152 | forwards the head without a token check and arms the timer for the next packet |
| TokenBucket.TBF.Send | ns-2.29-ori/adc/tbf.cc:102-103 | a forwarded packet is logged and paid for |
| TokenBucket.TBF.Resched | ns-2.29-ori/adc/tbf.cc:109-109 | the timer is due when the missing bits have been earned |
| TokenBucket.TimerExact | ns-2.29-ori/adc/tbf.cc:128-152 | in every run: timer pending iff packets wait, abort unreachable, never set into the past, and at expiry the bucket holds exactly the head packet iff it fits |
| TokenBucket.Envelope | ns-2.29-ori/adc/tbf.cc:74-152 | any window lets out at most the larger of bucket and largest forwarded packet, plus earned credit |
| TokenBucket.ConformsExactly | ns-2.29-ori/adc/tbf.cc:42-46 | output conforms to the bucket in all windows iff no forwarded packet exceeds it |
| TokenBucket.ConformsInSeconds | ns-2.29-ori/adc/tbf.cc:74-152 | bits forwarded from s to t are at most bucket + rate * (t - s) |
| TokenBucket.DepartAtIsEarliest | ns-2.29-ori/adc/tbf.cc:97-110 | the reference departure is the first instant at which the packet is covered |
| TokenBucket.RefinesReference | ns-2.29-ori/adc/tbf.cc:86-151 | departures, and the pending timer, are those of a FIFO token bucket that sends as early as allowed |
| TokenBucket.DroppedExactly | ns-2.29-ori/adc/tbf.cc:86-114 | a packet is dropped iff it cannot leave at once and the queue is full; otherwise it is accepted |
| TokenBucket.NoScheduleIsEarlier | ns-2.29-ori/adc/tbf.cc:86-151 | in every first in, first out schedule of the accepted arrivals that conforms to the bucket, each packet leaves no earlier than here |
| Reservation.Link.constructor | ns-2.29-ori/adc/salink.cc:59-71 | a new link has reserved nothing and all slots free |
| Reservation.Link.AdmitFlow | ns-2.29-ori/adc/param-adc.cc:89-96 | admits iff the rate fits under utilization * bandwidth, and then reserves it |
| Reservation.Link.Lookup | ns-2.29-ori/adc/salink.cc:185-205 | first slot holding the number, or -1 when there is none |
| Reservation.Link.Recv | ns-2.29-ori/adc/salink.cc:74-141 | effect of each message on ledger, pending table, counter and decision bit, including the exit on a full table |
| Reservation.Source.SendReq | ns-2.29-ori/adc/sa.cc:146-158 | the request carries the flow's rate and a positive decision |
| Reservation.Source.Recv | ns-2.29-ori/adc/sa.cc:175-208 | answers are turned into CONFIRM; the running flag follows the decision |
| Reservation.Source.Stop | ns-2.29-ori/adc/sa.cc:136-172 | sends TEARDOWN whatever happened before, and stops |
| Reservation.LinkRequest | ns-2.29-ori/adc/salink.cc:87-110 | a REQUEST keeps the link's ledger, and lists the flow as pending iff it was admitted |
| Reservation.LinkAdmitsExactly | ns-2.29-ori/adc/salink.cc:87-110 | a link admits a flow iff its rate fits beside those it holds; the program exits iff a flow that fits finds no slot |
| Reservation.LinkConfirm | ns-2.29-ori/adc/salink.cc:114-126 | a CONFIRM frees the slot and rolls back iff rejected, for that flow only |
| Reservation.LinkTeardown | ns-2.29-ori/adc/salink.cc:127-132 | a TEARDOWN of a held flow keeps the ledger |
| Reservation.AllOrNothing | ns-2.29-ori/adc/salink.cc:86-132 | in every interleaving of flows over any paths: accepted iff all links of the path admitted; with the CONFIRM through no link has the flow pending, and all links of the path hold it or none does; answers on their way back change no link |
| Reservation.RejectedExactly | ns-2.29-ori/adc/salink.cc:87-110 | in every run a request or answer carries a rejection iff some link of the path had no room for the flow when the request crossed it |
| Reservation.AdmittedExactly | ns-2.29-ori/adc/param-adc.cc:89-96 | in every run the link a request crosses holds the flow afterwards iff it had room |
| Reservation.RunningIsReserved | ns-2.29-ori/adc/sa.cc:192-205 | while a source runs every link of its path holds its reservation |
| Reservation.Ledger | ns-2.29-ori/adc/param-adc.cc:78-96 | reserved rate is the sum over held flows, between zero and capacity; the counter is one below their number; pending slots are exactly the admitted unconfirmed flows |
| Reservation.NothingLeaks | ns-2.29-ori/adc/salink.cc:114-132 | once no flow runs or has anything on its way each link is empty again |
| Reservation.ExitsExactlyWhenFull | ns-2.29-ori/adc/salink.cc:194-205 | the program exits iff a flow is admitted while 500 flows are pending there |
| Reservation.TeardownNeedsReservation | ns-2.29-ori/adc/sa.cc:136-172 | one TEARDOWN keeps reserved rate and flow counter of a link right iff the link holds the flow |
| Reservation.StrayTeardown | ns-2.29-ori/adc/param-adc.cc:84-87 | an example where it leaves a negative reserved rate |
| Reservation.TornDownWhilePending | ns-2.29-ori/adc/salink.cc:114-132 | a flow torn down while pending and then rejected is taken off twice |
| Reservation.StopSafeExactly | ns-2.29-ori/adc/sa.cc:136-172 | a stop keeps the ledgers of all links right in every continuation iff the source is running |
| Red.LightLoad | ns-2.29-ori/asim/asim.h:81-81 | loads up to Lambda_L are below one and leave the delay at most MinTh |
| Red.HeavyLoad | ns-2.29-ori/asim/asim.h:104-107 | above Lambda_L the leading coefficient is positive and the constant negative |
| Red.RootIsBalanced | ns-2.29-ori/asim/asim.h:103-110 | the root taken lies strictly between 0 and 1 and balances queue and RED line |
| Red.DiscriminantPositive | ns-2.29-ori/asim/asim.h:109-109 | the square root is taken of a positive number |
| Red.AnswerIsEquilibrium | ns-2.29-ori/asim/asim.h:89-112 | in every branch p is what RED drops at the returned delay, and the delay is that of the queue with load Lambda * (1 - p) < 1 |
| Red.AnswerIsTheEquilibrium | ns-2.29-ori/asim/asim.h:89-112 | the answer is the only such pair |
| Red.EquilibriumAtThresholds | ns-2.29-ori/asim/asim.h:80-85 | Lambda_L belongs to (0, MinTh) and Lambda_H to (MaxP, MaxTh) |
| Red.EquilibriumMonotone | ns-2.29-ori/asim/asim.h:89-112 | p and delay never decrease with the load |
| Red.SolvedExample | ns-2.29-ori/asim/asim.h:103-111 | an example: thresholds 0 and 1, MaxP 1 and load 15/16 take the solving branch, with p and delay 0.6 as the equilibrium |
| Red.AnswerShape | ns-2.29-ori/asim/asim.h:89-112 | bounds and monotonicity of p and delay; their values at both thresholds; drops exactly above Lambda_L, p above MaxP exactly above Lambda_H |
| Red.BranchesMeetAbove | ns-2.29-ori/asim/asim.h:96-111 | at Lambda_H the formulas of the saturated and the solving branch give the same |
| Red.BranchesMeetBelow | ns-2.29-ori/asim/asim.h:89-111 | at Lambda_L the formulas of the light and the solving branch give the same if MinTh is positive; otherwise the latter divides by zero |
| Arq.Mac.constructor | nist-2/mac/mac-802_11.cc:319-325 | sequence numbers start at 1, the retry counter at 0 |
| Arq.Mac.Send | nist-2/mac/mac-802_11.cc:2002-2009 | the frame takes the next sequence number |
| Arq.Mac.CheckPktTx | nist-2/mac/mac-802_11.cc:1245-1296 | on an idle medium the current frame goes on the air |
| Arq.Mac.SendTimer | nist-2/mac/mac-802_11.cc:1570-1682 | a missing ACK counts as a failure; the frame is dropped at the retry limit and kept otherwise |
| Arq.Mac.RecvAck | nist-2/mac/mac-802_11.cc:2642-2733 | an ACK while sending ends the exchange and clears the counter; otherwise it is ignored |
| Arq.Mac.RecvData | nist-2/mac/mac-802_11.cc:2498-2585 | a frame is passed up unless the cache of its sender holds its number |
| Arq.ReceiverTakes | nist-2/mac/mac-802_11.cc:2577-2586 | the newest frame ends up in what was passed up, once |
| Arq.ArqSafe | nist-2/mac/mac-802_11.cc:1570-2733 | under any losses: stations with a cache entry pass up in order without repetition, acknowledged means passed up (by such a station exactly once), every frame has one fate, at most retry-limit transmissions |
| Arq.RepeatFiltered | nist-2/mac/mac-802_11.cc:2577-2593 | a repeat is filtered iff the sender has a cache entry and a nonzero number |
| Arq.UncachedRepeats | nist-2/mac/mac-802_11.cc:2578-2593 | a station without a cache entry can pass a frame up twice, whatever the other stations are |
| Arq.InOrderExactlyWhenCached | nist-2/mac/mac-802_11.cc:2570-2593 | a station passes up in order without repetition in every run iff it has a cache entry for the sender |
| Arq.DeliveredWithoutLoss | nist-2/mac/mac-802_11.cc:1245-2733 | in every run, with the station free and nothing lost, a frame is passed up in the next place and acknowledged |
| Arq.LateAckMistaken | nist-2/mac/mac-802_11.cc:2642-2733 | an ACK later than the timer would end the exchange of the next frame |
| Scan.Scanner.CalFreq | nist-2/mac/mac-802_11.cc:524-536 | sets the channel and gives its frequency |
| Scan.Scanner.LinkScan | nist-2/mac/mac-802_11.cc:3625-3674 | starts on the first channel, remembering channel and station; ignored during a scan |
| Scan.Scanner.NextChannel | nist-2/mac/mac-802_11.cc:3905-3965 | next channel with fresh timers, or end of scan with channel and station restored |
| Scan.Scanner.MinExpire | nist-2/mac/mac-802_11.cc:4046-4059 | leaves the channel unless somebody answered |
| Scan.Scanner.MaxExpire | nist-2/mac/mac-802_11.cc:4065-4071 | leaves the channel |
| Scan.Scanner.NoteBss | nist-2/mac/mac-802_11.cc:3868-3878 | an access point already listed is not listed again |
| Scan.Scanner.RecvBeacon | nist-2/mac/mac-802_11.cc:3005-3018 | a beacon during a scan is noted with the current channel |
| Scan.Scanner.RecvProbeResponse | nist-2/mac/mac-802_11.cc:3836-3881 | a probe response counts as an answer, and is noted if there was room for its ACK |
| Scan.ScanComplete | nist-2/mac/mac-802_11.cc:3887-3965 | channels visited once each in order, each for the maximum time if anybody was heard there and for the smaller of the two times if not; so not scanning later than channels * maximum time; then everything restored and one result delivered; a request during the scan changes nothing |
| Scan.PresentStay | nist-2/mac/mac-802_11.cc:3905-3965 | the present channel was entered when the one before was left, and keeps the scan only as long as who was heard on it allows |
| Scan.ScanEndsExactly | nist-2/mac/mac-802_11.cc:4046-4071 | a scan ends within a bounded number of timer expiries iff its minimum channel time is not zero |
| Scan.StalledStays | nist-2/mac/mac-802_11.cc:4050-4058 | with a zero minimum time and an answer heard the timer expires at the same instant for ever |
| Scan.EveryAccessPointReported | nist-2/mac/mac-802_11.cc:3005-3018 | each access point heard is listed once, with the channel it was first heard on |
| SendBuffer.PurgeIsPurgeHead | ns-2.29-ori/aodv/aodv_rqueue.cc:205-260 | on sorted lists the whole-list purge equals the head purge |
| SendBuffer.FastPurgeNeedsSorted | ns-2.29-ori/aodv/aodv_rqueue.cc:205-260 | the two agree at every clock iff the list is sorted |
| SendBuffer.SlowPurgeIsFast | ns-2.29-ori/aodv/aodv_rqueue.cc:50-85 | in every run they agree |
| SendBuffer.PurgeSkips | ns-2.29-ori/aodv/aodv_rqueue.cc:232-260 | unlinking one aged packet does not change what the purge leaves in the end |
| SendBuffer.EveryPacketAccounted | ns-2.29-ori/aodv/aodv_rqueue.cc:50-138 | each packet is queued, returned, dropped or aged out, exactly once; at most 64 are queued |
| SendBuffer.EnqueExactly | ns-2.29-ori/aodv/aodv_rqueue.cc:50-85 | in every run: with fewer than 64 unexpired packets none is dropped, with 64 exactly the oldest; the new one is last and expires after 30 seconds |
| SendBuffer.DequeExactly | ns-2.29-ori/aodv/aodv_rqueue.cc:88-103 | in every run: the oldest unexpired packet is returned and the rest stays, or nothing is left |
| SendBuffer.DequeForIsFifo | ns-2.29-ori/aodv/aodv_rqueue.cc:106-138 | first in first out per destination; other destinations untouched; nothing returned iff nothing is queued |
| SendBuffer.FirstFor | ns-2.29-ori/aodv/aodv_rqueue.cc:176-187 | the first packet for a destination |
| SendBuffer.FirstAged | ns-2.29-ori/aodv/aodv_rqueue.cc:219-230 | the first packet whose time has passed |
| AodvQueue.RQueue.constructor | ns-2.29-ori/aodv/aodv_rqueue.cc:43-48 | a new buffer is an empty list that owns no packet |
| AodvQueue.RQueue.RemoveHead | ns-2.29-ori/aodv/aodv_rqueue.cc:159-174 | takes the first packet, or null |
| AodvQueue.RQueue.FindPacketWithDst | ns-2.29-ori/aodv/aodv_rqueue.cc:176-187 | the first packet for the destination and its predecessor |
| AodvQueue.RQueue.FindAgedPacket | ns-2.29-ori/aodv/aodv_rqueue.cc:219-230 | the first aged packet and its predecessor |
| AodvQueue.RQueue.Unlink | ns-2.29-ori/aodv/aodv_rqueue.cc:120-131 | takes the found packet out, wherever it stands, and keeps the list well linked |
| AodvQueue.RQueue.UnlinkAfter | ns-2.29-ori/aodv/aodv_rqueue.cc:244-252 | the tail and middle cases of that |
| AodvQueue.RQueue.RemoveAged | ns-2.29-ori/aodv/aodv_rqueue.cc:236-257 | one round of the purge loop |
| AodvQueue.RQueue.Purge | ns-2.29-ori/aodv/aodv_rqueue.cc:232-260 | terminates, leaving the unexpired packets in order |
| AodvQueue.RQueue.VerifyQueue | ns-2.29-ori/aodv/aodv_rqueue.cc:190-202 | both asserts hold: the walk counts len packets and ends at the tail |
| AodvQueue.RQueue.MakeRoom | ns-2.29-ori/aodv/aodv_rqueue.cc:62-73 | drops the oldest of 64 packets, and says whether it was full or expired |
| AodvQueue.RQueue.Append | ns-2.29-ori/aodv/aodv_rqueue.cc:74-81 | a packet is linked in at the tail |
| AodvQueue.RQueue.Enque | ns-2.29-ori/aodv/aodv_rqueue.cc:50-85 | purges, drops the oldest of 64, appends with the new expiry time, and reports the victim with its reason |
| AodvQueue.RQueue.Deque | ns-2.29-ori/aodv/aodv_rqueue.cc:88-103 | purges and takes the first packet |
| AodvQueue.RQueue.TakeFor | ns-2.29-ori/aodv/aodv_rqueue.cc:115-136 | takes the first packet for a destination, or null |
| AodvQueue.RQueue.DequeFor | ns-2.29-ori/aodv/aodv_rqueue.cc:106-138 | purges and takes the first packet for the destination |
| AodvQueue.RQueue.Find | ns-2.29-ori/aodv/aodv_rqueue.cc:140-150 | true iff some packet is queued for the destination |
| AodvQueue.FirstInFirstOut | ns-2.29-ori/aodv/aodv_rqueue.cc:50-138 | a client that enters two packets into a new buffer gets them back in order, and then nothing |
| NeighborCache.NDAgent.constructor | nist-2/hsntg/nd.cc:120-149 | a new agent knows no prefix |
| NeighborCache.NDAgent.LookupEntry | nist-2/hsntg/nd.cc:67-74 | the first entry with the prefix |
| NeighborCache.NDAgent.RecvAds | nist-2/hsntg/nd.cc:522-583 | refreshes entry and timer, or adds both and reports a new prefix |
| NeighborCache.NDAgent.Timeout | nist-2/hsntg/nd.cc:168-210 | removes the entry of the prefix and reports it; the reserved numbers set off an advertisement or a solicitation; a failed lookup is recorded as a crash |
| NeighborCache.NDAgent.Expire | nist-2/hsntg/nd.h:168-176 | an expired timer calls timeout with its prefix |
| NeighborCache.FireFinds | nist-2/hsntg/nd.cc:195-199 | the timer that fires takes out exactly its own entry |
| NeighborCache.CacheAgrees | nist-2/hsntg/nd.cc:522-583 | in every run: a prefix that is not a reserved number is listed iff its latest advertisement still holds, by its router lifetime or three of its intervals; one entry per prefix, lookup never NULL, notices alternate from NEW |
| NeighborCache.ExpiryExactly | nist-2/hsntg/nd.cc:168-210 | an expiry in any run takes out and reports its prefix only; a reserved number stays and sets off its own action |
| NeighborCache.ReservedNeverExpires | nist-2/hsntg/nd.h:51-53 | in every run a reserved number used as a prefix is listed from its first advertisement on |
| NeighborCache.ReservedOutlasts | nist-2/hsntg/nd.cc:168-194 | a run in which such a number outlasts its lifetime and its timer sends an advertisement or a solicitation |
| NeighborCache.AgreesExactlyUnlessReserved | nist-2/hsntg/nd.cc:168-210 | list and history agree on a prefix in all runs iff it is not a reserved number |
| Solicitation.Router.constructor | nist-2/hsntg/nd.cc:120-134 | nothing scheduled at first |
| Solicitation.Router.StartRa | nist-2/hsntg/nd.cc:222-228 | schedules the first periodic advertisement |
| Solicitation.Router.RaTimeout | nist-2/hsntg/nd.cc:170-177 | sends, records the time and schedules the next one |
| Solicitation.Router.RecvRs | nist-2/hsntg/nd.cc:640-682 | schedules an answer, delays it, or relies on the next periodic advertisement |
| Solicitation.Router.ProcessRsReply | nist-2/hsntg/nd.cc:688-720 | sends and removes the timer that fired |
| Solicitation.AnswerBounds | nist-2/hsntg/nd.cc:653-680 | an answer is never before its delay is over, within the bound, not before the minimum spacing, and not after the next periodic one except at a tie |
| Solicitation.LateAtTie | nist-2/hsntg/nd.cc:653-680 | a run in which an answer at a tie is later than the next periodic advertisement |
| Solicitation.EverySolicitationAnswered | nist-2/hsntg/nd.cc:640-720 | every solicitation is followed by an advertisement by the deadline that last and next advertisement set, which is within maxRADelay_ + minDelayBetweenRA_ |
| Solicitation.AnsweredWithinDelay | nist-2/hsntg/nd.cc:640-720 | if the delay ends neither too soon after the last advertisement nor after the next one, an advertisement goes out within the delay in every continuation |
| Solicitation.AnsweredByDeadline | nist-2/hsntg/nd.cc:640-720 | in the other cases one goes out by the next periodic one or by the delay after the minimum spacing |
| Solicitation.SolicitsExactly | nist-2/hsntg/nd.cc:640-682 | an answer is scheduled iff no periodic advertisement will do, and nothing else changes |
| Solicitation.SentExactly | nist-2/hsntg/nd.cc:168-185 | periodic advertisements follow the intervals drawn, and every scheduled answer is sent once |
| Solicitation.RepliesWellPlaced | nist-2/hsntg/nd.cc:653-680 | in every run answers lie between the last advertisement plus the spacing and the next one |
| SipAgent.UdpmysipAgent.GetEntryByUrlId | nist-2/sip/udp-mysip.cc:1186-1195 | first entry with the id |
| SipAgent.UdpmysipAgent.GetEntryByIface | nist-2/sip/udp-mysip.cc:1219-1228 | first entry with the interface |
| SipAgent.UdpmysipAgent.GetMrHaEntryByCaddr | nist-2/sip/udp-mysip.cc:1262-1271 | first uplink with the contact |
| SipAgent.UdpmysipAgent.ActiveUplinks | nist-2/sip/udp-mysip.cc:1376-1381 | contacts of the active uplinks in list order |
| SipAgent.UdpmysipAgent.MobileNodes | nist-2/sip/udp-mysip.cc:1403-1408 | the mobile nodes in list order |
| SipAgent.UdpmysipAgent.GetMrHaEntry | nist-2/sip/udp-mysip.cc:1295-1307 | the uplink picked by each selection mode, and the counter after it |
| SipAgent.UdpmysipAgent.RecvRegister | nist-2/sip/udp-mysip.cc:327-358 | a node is entered if new and assigned to the picked uplink |
| SipAgent.UdpmysipAgent.RecvPeer | nist-2/sip/udp-mysip.cc:417-433 | an unknown peer is entered |
| SipAgent.UdpmysipAgent.RehomeMn | nist-2/sip/udp-mysip.cc:1309-1396 | each node with the given contact gets a picked active uplink, or none |
| SipAgent.UdpmysipAgent.ReHoming | nist-2/sip/udp-mysip.cc:1759-1804 | the uplink goes down and its nodes move |
| SipAgent.UdpmysipAgent.RenewRandomly | nist-2/sip/udp-mysip.cc:1336-1356 | randomly drawn nodes move to the returned uplink |
| SipAgent.UdpmysipAgent.RenewByShare | nist-2/sip/udp-mysip.cc:1398-1458 | the counting loop that takes nodes from two former uplinks |
| SipAgent.UdpmysipAgent.RenewEveryNode | nist-2/sip/udp-mysip.cc:1502-1523 | all nodes move |
| SipAgent.UdpmysipAgent.SendRegMsg | nist-2/sip/udp-mysip.cc:980-1043 | the uplink is up with its address and nodes are renewed by mode |
| SipBinding.BreakOk | nist-2/sip/udp-mysip.cc:1759-1804 | after a break every node is homed and none keeps an address that is no longer up |
| SipBinding.RegisterOk | nist-2/sip/udp-mysip.cc:327-358 | after a registration every node is homed and the uplinks are unchanged |
| SipBinding.RegistersExactly | nist-2/sip/udp-mysip.cc:327-358 | in every mode a registering node gets the active uplink the mode selects, and nothing else changes |
| SipBinding.PeersExactly | nist-2/sip/udp-mysip.cc:417-433 | an unknown peer is entered in front, a known one changes nothing |
| SipBinding.BreaksExactly | nist-2/sip/udp-mysip.cc:1759-1804 | the uplink goes down, its nodes get the uplinks the mode selects among those left, and nothing else changes |
| SipBinding.ReturnsExactly | nist-2/sip/udp-mysip.cc:980-1043 | the uplink is up with its address, exactly the nodes the mode moves have it, and nothing else changes |
| SipBinding.ReturnOk | nist-2/sip/udp-mysip.cc:980-1043 | after a return every node is homed under the condition of the selection mode |
| SipBinding.ReturnRandomExactly | nist-2/sip/udp-mysip.cc:1336-1356 | with random selection the condition is exact over all draws |
| SipBinding.ReturnTakes | nist-2/sip/udp-mysip.cc:1398-1458 | which nodes the round-robin loop moves, from the contacts alone |
| SipBinding.RenewRandomExactly | nist-2/sip/udp-mysip.cc:1336-1356 | random renewal moves exactly the nodes drawn |
| SipBinding.ReturnRoundRobinExactly | nist-2/sip/udp-mysip.cc:1398-1458 | with round robin every node is homed after a return iff the former contact can be replaced or the loop moves all its nodes |
| SipBinding.TwoContactsExactly | nist-2/sip/udp-mysip.cc:1420-1455 | all nodes of the first contact move iff there is one; so do those of the other, when there are only two contacts |
| SipBinding.LateNodeMoves | nist-2/sip/udp-mysip.cc:1432-1446 | with more contacts a lone node far down the list can move too |
| SipBinding.UsualReturn | nist-2/sip/udp-mysip.cc:984-988 | it holds for an uplink that was down or keeps its address |
| SipBinding.ForwardingSafe | nist-2/sip/udp-mysip.cc:461-499 | in every run a node's contact is -1 or an active uplink's; forwarding finds an active uplink iff it is not -1 |
| SipBinding.BrokenAddressGone | nist-2/sip/udp-mysip.cc:1776-1789 | right after a break in any run no node keeps the broken address, unless another active uplink has it |
| SipBinding.LookupFailsExactly | nist-2/sip/udp-mysip.cc:491-493 | the forwarding assert fails iff the node has no contact and every uplink is active |
| SipBinding.StrandedIsReachable | nist-2/sip/udp-mysip.cc:1336-1356 | such a state is reachable |
| SipBinding.RoundRobinBalanced | nist-2/sip/udp-mysip.cc:1358-1396 | over any stretch with m active uplinks unchanged the contacts given to nodes are shared out evenly: each uplink gets the floor or the ceiling |
| Cycles.Share | nist-2/sip/udp-mysip.cc:1369-1391 | consecutive values of a counter modulo m are spread evenly |
| Playout.ConsRcvr.constructor | ns-2.29-ori/adc/consrcvr.cc:79-81 | the offset starts at 200 |
| Playout.ConsRcvr.Adapt | ns-2.29-ori/adc/consrcvr.cc:83-101 | new offset and delay with the source's 32-bit conversions |
| Playout.AdaptStep | ns-2.29-ori/adc/consrcvr.cc:90-98 | a late packet raises the offset to what it needed or to double, whichever is more, and is then playable |
| Playout.NeverLate | ns-2.29-ori/adc/consrcvr.cc:83-101 | the delay is never negative, the offset never shrinks, grows iff the packet is late, and then at least doubles |
| Playout.GrowsLogarithmically | ns-2.29-ori/adc/consrcvr.cc:83-101 | k increases imply 100 * 2^k below the largest transit; the offset stays below twice the largest transit |
| Subscriptions.MIHInterfaceInfo.RemoteEventSubscribe | nist-2/hsntg/mih-iface.cc:159-175 | adds the session to each selected event unless it is there |
| Subscriptions.MIHInterfaceInfo.RemoteEventUnsubscribe | nist-2/hsntg/mih-iface.cc:183-196 | removes the first occurrence from each selected event |
| Subscriptions.MIHInterfaceInfo.PushNew | nist-2/hsntg/mih-iface.cc:163-172 | the search for a duplicate and the push |
| Subscriptions.MIHInterfaceInfo.EraseFirst | nist-2/hsntg/mih-iface.cc:187-192 | the search and the erasure |
| Subscriptions.MIHAgent.GetSession | nist-2/hsntg/mih.cc:474-481 | first session with the number |
| Subscriptions.MIHAgent.RecvReg | nist-2/hsntg/mih.cc:1880-1937 | a new session joins the list |
| Subscriptions.MIHAgent.RecvEventSubReq | nist-2/hsntg/mih.cc:2059-2087 | subscribes a known session on one interface |
| Subscriptions.MIHAgent.RecvEventUnsubReq | nist-2/hsntg/mih.cc:2139-2167 | unsubscribes a known session on one interface |
| Subscriptions.MIHAgent.DeleteSession | nist-2/hsntg/mih.cc:487-498 | unsubscribes the session everywhere and removes it |
| Subscriptions.RemovingOneSuffices | nist-2/hsntg/mih-iface.cc:187-192 | on a list without repetition removing one occurrence removes all |
| Subscriptions.SubscribersAreLive | nist-2/hsntg/mih-iface.cc:159-196 | in every run subscriber lists have no repetition and only live sessions |
| Subscriptions.SubscribesExactly | nist-2/hsntg/mih.cc:2059-2087 | in every run a live session joins, at the end, the lists of the selected events of the interface, and no other |
| Subscriptions.UnsubscribesExactly | nist-2/hsntg/mih.cc:2139-2167 | in every run it leaves exactly those lists, all others in order |
| Subscriptions.RegistersExactly | nist-2/hsntg/mih.cc:1880-1937 | a registration adds one new session that nobody lists, and finds it if its number is new |
| Subscriptions.UnknownIgnored | nist-2/hsntg/mih.cc:474-498 | messages about an unknown number change nothing |
| Subscriptions.DeleteClears | nist-2/hsntg/mih.cc:487-498 | in every run a deletion clears the session from every interface and event, keeping the others and their order |

## Left out

- TokenBucket: the rate is positive, the bucket not negative and timers are exact, as the comment at the timer expects; memory management and the destructor are not modelled.
- Reservation: a flow requests again only once it is not running and nothing of it is on its way; messages of one flow stay in order; a path has no link twice; rates are not negative. The traffic generator and its timer are not modelled.
- Reservation.StopSafeExactly: for a request still in front of its first link it asks that the links can be numbered so that all paths go upwards; where paths run in circles full tables can force the program to exit before the damage shows.
- Reservation.Ledger: capacities are constants, so a link whose bandwidth is changed during a run is not covered.
- Red: doubles are reals; the square root is a parameter with its defining property.
- Arq: frames are unicast and shorter than the RTS threshold, there are no management frames, and sequence numbers do not wrap; contention, backoff and the NAV only decide when a step happens. The ACK timer outlasts the exchange, as its computation from the frame times intends; a receiver whose own send timer is busy can delay its ACK beyond that, which is left out (`Arq.LateAckMistaken` shows what it would do).
- Scan: no other caller cancels the scan timers, and channels are 1 to 11; the probe requests themselves are not modelled.
- SendBuffer: the drop target and packet freeing are not modelled; aged packets are counted when they leave the list.
- NeighborCache: lifetimes are not negative and an interface manager is attached; what the advertisement or solicitation set off by a reserved number does is recorded, not carried out; `mr_bs` mode and the solicitation timer of hosts are not modelled.
- Solicitation: broadcast mode with periodic advertisements running; stopping them, and unicast target lists, are not modelled.
- SipBinding: selection modes 1 to 3, and messages whose contact and sender ids agree; mode 4 and the prefix mode, the packets sent and their tunnels are not modelled.
- SipBinding.RegisterOk: asks that an active uplink exists and that the id belongs to no other kind of entry, without which the source indexes an empty vector or redirects another entry.
- Playout: clocks stay below 2^30 samples, beyond which the unsigned sums can wrap.
- Subscriptions: interfaces are local and present; the responses and the local subscribers are not modelled.
- Tcl bindings, tracing, statistics, RTS/CTS, association, energy model, handover policies and the measurement-based admission tests are not part of this model.
