# Protocol cores of an OpenFlow switch library, modelled and verified in Dafny

This project models the parts of the `lib/` directory that keep state and have laws to keep:
spanning tree (IEEE 802.1D), MAC learning with flow tags, message framing on a byte stream,
the DHCP option codec and client, the reliable connection, and the containers and the log
limiter they use. Each core file that updates its structures in place is modelled by a class
or a method with loops, proved against a specification function; the laws are proved of the
specification, over every input and every run.

`dafny verify dfyconfig.toml` checks everything.

| files | what they model |
|---|---|
| StpModel, StpElection, StpRuns | one bridge: all procedures of `lib/stp.c` as functions on states, the election, and invariants over every sequence of events |
| StpSettled, StpUnsettled, StpFresh | exactly which events unsettle an election, and runs from creation that do |
| StpNetwork | bridges joined by links: one root, exact distances, no loops once nothing changes any more |
| StpHearing, StpRounds, StpConvergence, StpWitness | that every network gets there: bridges hearing one another, with delays, from creation to quiescence |
| StpBridge | the bridge as an object with a port array, procedure by procedure |
| Tag, TagWord, TagWordSet | flow tags and tag sets on sets of bits, and the same on 32-bit words |
| MacTable, MacLearning, ListRing, MacRings | the LRU table, the entry pool with buckets and lists that refines it, the circular list, and the pool's lists as rings in one memory |
| Stream | send and receive buffers of a stream connection |
| DhcpOptions, DhcpMessage, DhcpClient | option encoding, the option arena, and the client's state machine |
| Rconn | the reliable connection with its queue and in-flight counters |
| Common | options, bytes and saturating arithmetic |
| HashMask, HashMap, PortArray, LogLimiter | the hash map, the sparse port array, the token bucket |

Where the code does not do what its documentation says, or does it only in part, the model
follows the code, and the exact condition is proved:

- A zero path cost, which `stp_port_set_path_cost` accepts, lets a bridge elect a root port and
  take over its link in the same update (`UpdateIsIdempotent`, `ZeroPathCostUnsettles`), at once
  or on a later bridge priority (`BridgePriorityUnsettles`). Costs that the signed comparison
  reads as negative do the same when a port is lost (`DisablingUnsettles`); with cost sums below
  2^31 losses are harmless (`SurvivesLoss`). A new port priority is stored without a new election,
  so it can leave a root port that is not the best (`PrioritySettledIff`,
  `PortPriorityUnsettles`). `RunSettledIff` has the exact condition for every event.
- Evicting the least recently used address changes an answer without announcing the tag that
  flows built on it carry, and so does expiry without a set for the tags, which is how
  `secchan/in-band.c` calls it (`EvictionIsSilent`, `DiscardIsSilent`).
- A write error in mid-message discards the rest of that message but not what the peer has
  already read of it, so messages go missing or arrive garbled (`SafeIffNotDiscarded`,
  `DiscardSkips`, `DiscardGarbles`).
- An empty DHCP option is lost if nothing has been stored before it (`RoundTrip`).
- `dhcp_msg_put` may move to a larger arena while vendor options are parsed out of the old one,
  so what they parse to is defined only if no put has to (`ParseVendor`, `ParseOneVendorOption`).
- For leases under a minute the renewal time may fall after a server's rebinding time
  (`SetLease`).
- The log limiter lets two bursts less one message through at one moment, and everything while
  the clock is behind the last refill (`BurstIsKept`, `TwoBurstsAtOnce`,
  `NoLimitWhileClockIsBehind`).
- `port_array_next` from the greatest 32-bit number starts over at zero (`Next`).

The clock, random numbers, hash functions, and the results of reads, writes and connection
attempts are parameters or arbitrary choices, so every statement holds for all of them. Bridge
identifiers, costs, ticks and lengths are unbounded numbers in Dafny; 16-, 32- and 64-bit limits
and wrap-around are written out where the code depends on them. Node addresses in lists and hash
chains are numbers, and the memory they live in is a map.

## Model

| member | source | states |
|---|---|---|
| `StpElection.SupersedesRootIsAnOrder` | lib/stp.c:834-851 | the five-key comparison of candidate root ports is a strict total order on ports with different identifiers, also where the 32-bit cost sums wrap and are compared as signed numbers |
| `StpElection.BestIsLeast` | lib/stp.c:853-877 | scanning any number of ports leaves the least candidate of those scanned in that order, and none exactly when there is no candidate |
| `StpElection.SelectRootElectsLeast` | lib/stp.c:853-877 | a port is elected root port if and only if it is the least candidate; root and root path cost are that port's, or the bridge's own when there is no candidate |
| `StpElection.RedesignateSettles` | lib/stp.c:879-896 | designated-port selection leaves an enabled port holding the bridge's own vector or a strictly better one for the same root, and leaves a port already so alone |
| `StpElection.RootPortKeepsItsRecord` | lib/stp.c:827-906 | the elected root port stays non-designated, keeping the record it was elected on, if and only if its recorded cost and path cost add up without wrapping and its path cost is positive or the recorded sender precedes it |
| `StpElection.UpdateSettles` | lib/stp.c:827-906 | after the update every enabled port is settled; the whole election is settled if and only if the elected root port survives designation |
| `StpElection.SettledIffFixpoint` | lib/stp.c:827-906 | a bridge is settled if and only if the update leaves it unchanged |
| `StpElection.UpdateIsIdempotent` | lib/stp.c:827-906 | a second update changes nothing if and only if the elected root port survives the first |
| `StpRuns.CreateIsSound` | lib/stp.c:226-270 | a fresh bridge is sound and its election settled |
| `StpRuns.ReceiveConfigKeeps` | lib/stp.c:991-1027 | a received configuration keeps the invariant; if not accepted it changes no election, and if accepted the election is that of the update applied to the recorded message |
| `StpRuns.ReceiveConfigElects` | lib/stp.c:991-1027 | a configuration whose cost is clear of the 32-bit limit keeps a fit election (settled, with positive path costs and recorded costs clear of the 32-bit limit) fit, and makes it so if accepted; for all other elections StpSettled.ConfigSettledIff says when they stay settled |
| `StpRuns.ReceiveTcnKeeps` | lib/stp.c:1029-1038 | a topology change notification keeps the invariant and every settled election |
| `StpRuns.ChangeBridgeIdKeeps` | lib/stp.c:322-342 | renaming the bridge keeps the invariant, and a fit election fit under the new identifier; for all elections see StpSettled.BridgeIdSettledIff |
| `StpRuns.DisablePortKeeps` | lib/stp.c:621-639 | disabling a port keeps the invariant, and a fit election fit under the new set of ports; for all elections see StpSettled.DisableSettledIff |
| `StpRuns.EnablePortKeeps` | lib/stp.c:642-649 | enabling a port keeps the invariant and every settled election |
| `StpRuns.SetPortPriorityKeeps` | lib/stp.c:653-669 | changing a port's priority keeps the invariant and the conditions on costs; what it does to the election is the subject of StpSettled.PrioritySettledIff |
| `StpRuns.RenumberIsSound` | lib/stp.c:653-669 | a new port identifier keeps every port tracked, timed and differently numbered |
| `StpRuns.SetPathCostKeeps` | lib/stp.c:674-683 | changing a path cost keeps the invariant, and a positive one a fit election; for all elections see StpSettled.PathCostSettledIff |
| `StpRuns.TakeChangedKeeps` | lib/stp.c:479-496 | reporting changed ports keeps the invariant, so no flagged port is ever behind the point where the next scan starts |
| `StpRuns.TickKeeps` | lib/stp.c:280-320 | the passing of time, with every timer expiry it causes, keeps the invariant and a fit election; for all elections see StpSettled.TickSettledIff |
| `StpRuns.StepKeeps` | lib/stp.c:280-710 | every event keeps the invariant; every event keeps a fit election fit, unless it is a configuration with a cost at the 32-bit limit, a path cost of zero or a port priority (StpSettled.StepSettledIff says for every event exactly when a settled election stays settled) |
| `StpRuns.EveryRunIsSound` | lib/stp.c:226-710 | every state that any sequence of events leads to satisfies the invariant |
| `StpRuns.TracesAreLawful` | lib/stp.c:226-710 | along every run what a port sends and how it changes state is lawful, and its last recorded state is the present one |
| `StpRuns.HoldTimerSpacesConfigs` | lib/stp.c:712-755 | along every run, between two configuration messages sent on a port not reset in between, its hold timer was credited with at least 256 ticks, whichever of the sending paths they took |
| `StpRuns.ForwardingIsEarned` | lib/stp.c:908-962 | along every run a port that starts forwarding went from blocking to listening, then learning, then forwarding, with no other change of state in between |
| `StpRuns.PortStatesOverRuns` | lib/stp.c:908-1093 | after every event a listening, learning or forwarding port is the root port or designated, the forward-delay timer runs exactly while the port is listening or learning, and a changed port is within reach of the next report |
| `StpSettled.PathCostSettledIff` | lib/stp.c:674-683 | after a different path cost the election is settled if and only if the port that the bridge, with that cost stored, elects as root port survives designation |
| `StpSettled.ConfigSettledIff` | lib/stp.c:991-1027 | after an accepted configuration the election is settled if and only if the port elected with the message on record survives designation |
| `StpSettled.BridgeIdSettledIff` | lib/stp.c:322-342 | after a different bridge identifier the election is settled if and only if the port elected under the new name survives designation |
| `StpSettled.DisableSettledIff` | lib/stp.c:621-639 | after an enabled port is disabled the election is settled if and only if the port elected without it survives designation |
| `StpSettled.TickSettledIff` | lib/stp.c:280-320 | after time has passed a settled election is settled if and only if no record has aged out or the port elected at the last expiry, with all stale records given up by then, survives designation |
| `StpSettled.PrioritySettledIff` | lib/stp.c:653-669 | a new port priority leaves any settled election settled if and only if it neither takes the root port's own link over nor gives a port the very identifier it hears at another cost nor changes who comes first among ports tied with it on the first four keys |
| `StpSettled.StepSettledIff` | lib/stp.c:280-710 | each event leaves any settled election, whatever its costs, settled if and only if it meets its condition, which can be checked before the event |
| `StpSettled.RunSettledIff` | lib/stp.c:226-710 | over any run from creation the election is settled after every event if and only if every event meets its condition in the state it finds |
| `StpSettled.PlainRunsStaySettled` | lib/stp.c:226-710 | in particular it is settled throughout if all path costs set are positive, all costs heard are clear of the 32-bit limit, and port priorities meet their condition |
| `StpSettled.SurvivesLoss` | lib/stp.c:827-906 | while the cost sums of candidates are below 2^31, the port elected in place of a lost one survives designation even if its link costs nothing |
| `StpSettled.DisableKeepsClear` | lib/stp.c:621-639 | so with sums below 2^31 disabling a port never unsettles an election, and leaves the sums so |
| `StpSettled.TickKeepsClear` | lib/stp.c:280-320 | nor does the passing of time, however many records it makes stale |
| `StpUnsettled.ZeroPathCostUnsettles` | lib/stp.c:674-683 | a run from creation: path cost zero, the port enabled, a better root heard at any cost from a bridge with a greater identifier; the root port is then also designated and a second update changes the election again |
| `StpUnsettled.BridgePriorityUnsettles` | lib/stp.c:322-342 | a run from creation: the same with a sender that precedes the bridge, after which the election is settled; then a bridge priority that puts the bridge between the root and the sender, after which it is not |
| `StpUnsettled.DisablingUnsettles` | lib/stp.c:621-639 | a run from creation: a cost that reads as negative is heard on one port and preferred to a cheaper one on a port that costs nothing, the election settled; then the first port is disabled and it is not |
| `StpUnsettled.PortPriorityUnsettles` | lib/stp.c:653-669 | a run from creation: one bridge heard on two ports, then a lower priority for the root port; the root port is then no longer the least candidate |
| `StpFresh.CreateIsUnheard` | lib/stp.c:226-270 | a new bridge takes itself for root, has heard nothing, and has the default times, costs and numbered ports |
| `StpFresh.EnableIsUnheard` | lib/stp.c:642-649 | it stays so when a port is enabled, which touches no other port's number, cost or enablement |
| `StpFresh.CostIsUnheard` | lib/stp.c:674-683 | and, while no port is enabled, when a path cost is set |
| `StpNetwork.AcceptedMessageDisturbs` | lib/stp.c:757-782 | a message from elsewhere that is accepted without changing the election is the one already on record |
| `StpNetwork.OneDesignated` | lib/stp.c:794-799 | in a quiescent network no two ports of one link are designated |
| `StpNetwork.RefreshedIsBacked` | lib/stp.c:757-799 | a port that keeps accepting a designated port's messages without effect holds that port's own vector |
| `StpNetwork.QuiescentIsStable` | lib/stp.c:757-906 | if no designated port's message, processed by the code itself, changes any election, and every other port keeps accepting such messages, then each link has at most one designated port, every port holds exactly what it advertises, and root ports are live; that each single bridge is settled is assumed, StpSettled and StpConvergence say when it is |
| `StpTree.OneDesignatedPort` | lib/stp.c:794-906 | in a quiescent network every link with a live port has exactly one designated port, whose vector all live ports of the link hold |
| `StpTree.RootPortDescends` | lib/stp.c:853-877 | the root path cost falls strictly, by exactly the path cost, from a bridge to the designated bridge on its root port's link |
| `StpTree.ClimbToRoot` | lib/stp.c:853-906 | following root ports leads from every bridge to a root bridge at exactly the advertised cost |
| `StpTree.CostDropsByAtMostPathCost` | lib/stp.c:853-906 | across one link the root path cost differs by no more than the path cost of the port it is left by |
| `StpTree.NoPathIsCheaper` | lib/stp.c:853-906 | no path to a root bridge costs less than the root path cost |
| `StpTree.OneRoot` | lib/stp.c:853-906 | in a connected quiescent network all bridges name one root, and it is the bridge with the smallest identifier |
| `StpTree.ExactDistances` | lib/stp.c:853-906 | in a connected quiescent network each root path cost is the least cost of any path to that root: one path over root and designated ports attains it and none is cheaper |
| `StpTree.TreeIsLoopFree` | lib/stp.c:794-906 | in a quiescent network no tour over root and designated ports, leaving each bridge by another port than it came in by, returns to its start |
| `StpTree.ForwardingIsLoopFree` | lib/stp.c:908-962 | in a quiescent network no frame can tour a loop of forwarding ports |
| `StpWitness.HearsBetterRoot` | lib/stp.c:991-1027 | a bridge that took itself for root and hears of a better root on its only live port makes it the root port and records what it heard |
| `StpWitness.TwoBridgesSettle` | lib/stp.c:226-1027 | any two fresh bridges joined by one link are quiescent once the one with the greater identifier has heard the other once |
| `StpHearing.BeliefImproves` | lib/stp.c:853-877 | a settled bridge that accepts a message elects a root and cost no worse than it had, and a root no worse than the message names |
| `StpHearing.RecordImproves` | lib/stp.c:879-896 | designated-port selection after a better election never makes a port's record worse in the order of root, cost, bridge and port |
| `StpHearing.HearingKeepsAges` | lib/stp.c:991-1027 | message ages and the maximum age change only by being taken over from the message |
| `StpHearing.Hearing` | lib/stp.c:991-1027 | whatever a fit bridge hears of moderate cost, it stays fit, its root and cost get no worse, the port that hears ends up no worse than the message, and every record is the old one, the message, taken over only where it supersedes, or the bridge's own |
| `StpHearing.HearsNothingNew` | lib/stp.c:991-1027 | hearing again what the port holds changes no election |
| `StpRounds.BeliefStands` | lib/stp.c:712-755 | while every record stands for a path, so does what a bridge advertises: a path that visits no bridge twice, of exactly that cost, to the bridge it names as root, with as many hops as the age it sends, hence fewer than there are bridges |
| `StpRounds.OfferIsMessage` | lib/stp.c:712-755 | what a designated port sends is therefore never too old to be heard and its cost far from the 32-bit limits |
| `StpRounds.HearKeepsTruth` | lib/stp.c:991-1027 | hearing such a message keeps all that, and every other record's path with it, because no bridge on it comes to believe worse |
| `StpRounds.HearAllKeeps` | lib/stp.c:801-811 | a message heard by any ports of its link, in any order, keeps it too, and leaves each of them no worse than the message |
| `StpRounds.ArrivalKeeps` | lib/stp.c:801-811 | a message that arrives after any delay, its sender perhaps knowing better by then, keeps all that, every other message on its way good, and all ports of a link at least as well off as to root and cost as any of them that is not designated |
| `StpRounds.SendKeeps` | lib/stp.c:712-755 | so does sending, and what a designated port puts on its way is the record it holds |
| `StpConvergence.RoundReaches` | lib/stp.c:801-906 | if every bridge believes at least as well as any path of k hops promises, then after a round in which every port gets to send and what it sent gets to arrive, with any delay and in any order, the same holds of k + 1 hops |
| `StpConvergence.StaysReached` | lib/stp.c:757-811 | a message once on its way is heard in time: until it arrives it stays on its way or a better one takes its place, and the bridge that hears it believes at least as well as it could by going through the sender |
| `StpConvergence.BeliefsRest` | lib/stp.c:853-877 | once paths of as many hops as there are other bridges are realized, no message changes any bridge's root or cost |
| `StpConvergence.LeaderIsDesignated` | lib/stp.c:794-799 | the port of a link with the best vector to advertise is designated, since no record is better than what its sender now says |
| `StpConvergence.NearStays` | lib/stp.c:757-782 | once the ports of a link have heard of its best port, no stale message makes them fall behind its bridge, nor that bridge's own ports behind it |
| `StpConvergence.RoundClears` | lib/stp.c:757-811 | one more round and no stale message is on its way over the link, since no port but the best one sends any more |
| `StpConvergence.RoundsCalm` | lib/stp.c:757-906 | after three such rounds every port of every link holds the vector of the link's best port |
| `StpConvergence.Converges` | lib/stp.c:226-1027 | up to 1536 bridges that have heard nothing, with positive path costs, linked in any way, are quiescent after two rounds more than there are bridges and ever after, however long messages take within and across rounds and in whatever order they arrive |
| `StpConvergence.ConvergesToShortestPaths` | lib/stp.c:226-1027 | if they are connected, every bridge then names the bridge with the smallest identifier as root, at exactly the cost of the cheapest path to it in the network as it was wired up |
| `StpWitness.PowerUpIsUnheard` | lib/stp.c:226-270 | a bridge as created, with any ports enabled one by one, is such a bridge |
| `StpWitness.NewNetworkSettles` | lib/stp.c:226-1027 | so any network of up to 1536 newly created bridges with different identifiers becomes quiescent |
| `StpWitness.ParallelLinksSettle` | lib/stp.c:226-1027 | two new bridges joined by two links are quiescent after four rounds in which messages arrive in the reverse order of being sent: the smaller one is designated on both, the other has its root port on one link and blocks the other |
| `StpBridge.Stp.constructor` | lib/stp.c:226-270 | the new object stands for the fresh bridge that every run starts from |
| `StpBridge.Stp.RootSelection` | lib/stp.c:853-877 | the loop over the port array elects the root port that the specification proves least |
| `StpBridge.Stp.DesignatedPortSelection` | lib/stp.c:879-896 | the in-place loop gives every enabled port the record that the specification proves settled, though it overwrites the array it reads |
| `StpBridge.Stp.ConfigurationUpdate` | lib/stp.c:827-832 | both selections in order, refining the update that is proved optimal and idempotent |
| `StpBridge.Stp.SetPortState` | lib/stp.c:952-962 | a state change flags the port and moves the first-changed marker down, and nothing else |
| `StpBridge.Stp.TopologyChangeDetection` | lib/stp.c:964-975 | the root starts the topology change, another bridge notifies once |
| `StpBridge.Stp.BeginForwarding` | lib/stp.c:929-936 | only a blocking port moves, to listening, with a fresh forward-delay timer |
| `StpBridge.Stp.BeginBlocking` | lib/stp.c:938-950 | an active port is blocked and its timer stopped, with a topology change if it learned or forwarded |
| `StpBridge.Stp.PortStateSelection` | lib/stp.c:908-927 | the loop sends the root port and designated ports towards forwarding and blocks the others |
| `StpBridge.Stp.SendConfig` | lib/stp.c:712-755 | a configuration is sent only if the hold timer is idle and the information young enough, and is marked pending while the timer runs |
| `StpBridge.Stp.ConfigBpduGeneration` | lib/stp.c:801-811 | a configuration goes out on every enabled designated port, in port order |
| `StpBridge.Stp.TakeOverAsRoot` | lib/stp.c:1131-1141 | a new root uses its own times, starts a topology change and announces itself |
| `StpBridge.Stp.ReceivedConfigBpdu` | lib/stp.c:991-1027 | all reception paths: accepted with or without loss of the root role, answered, ignored |
| `StpBridge.Stp.ReceivedTcnBpdu` | lib/stp.c:1029-1038 | a notification counts only on an enabled designated port, and is acknowledged |
| `StpBridge.Stp.RenamePorts` | lib/stp.c:330-334 | the in-place loop puts the new identifier in exactly the records that are the bridge's own, though it overwrites the array it reads |
| `StpBridge.Stp.SetBridgeId` | lib/stp.c:322-342 | the renaming, the re-election and, for a new root, its announcement, refining the step proved to keep the invariant |
| `StpBridge.Stp.PortDisable` | lib/stp.c:621-639 | a disabled port resigns, the bridge re-elects, and announces itself if it has become root |
| `StpBridge.Stp.PortEnable` | lib/stp.c:642-649 | an enabled port starts from blocking as designated; enabling twice changes nothing |
| `StpBridge.Stp.PortSetPriority` | lib/stp.c:653-669 | a new port identifier, with the port taking its link over if it now precedes the recorded sender |
| `StpBridge.Stp.PortSetPathCost` | lib/stp.c:674-683 | a different path cost re-elects; the same one changes nothing |
| `StpBridge.Stp.GetChangedPort` | lib/stp.c:479-496 | the scan gives the first flagged port, clears its flag and remembers where to go on |
| `StpBridge.Stp.MessageAgeTick` | lib/stp.c:1047-1064 | information that ages out makes the bridge designated there and re-elects |
| `StpBridge.Stp.ForwardDelayTimerExpiry` | lib/stp.c:1079-1093 | one promotion, with a topology change when a designated bridge starts forwarding |
| `StpBridge.Stp.HoldTimerTick` | lib/stp.c:1109-1115 | an expired hold timer sends what was pending |
| `StpBridge.Stp.TickTimers` | lib/stp.c:280-320 | bridge timers, then all message ages, then the other port timers, in the order of the code |
| `StpBridge.Stp.UpdateBridgeTimers` | lib/stp.c:1199-1217 | requested times are clamped and applied at once if the bridge is root |
| `StpBridge.Stp.Handle` | lib/stp.c:226-710 | every public operation takes the object to the state that the step of the specification gives, so all that is proved of runs holds of it |
| `StpBridge.Simulate` | lib/stp.c:226-710 | a bridge driven through any sequence of events ends in the state the specification's run gives |
| `Tag.IntersectsMeaning` | lib/tag.h:94-101 | the bit trick of intersection says exactly that two combinations share at least two bits |
| `Tag.ValidMeaning` | lib/tag.h:103-111 | a tag is valid if and only if it has exactly two bits |
| `Tag.DeterministicIsValid` | lib/tag.c:65-72 | whatever the seed, the deterministic tag has exactly two bits |
| `Tag.AddOnlyGrows` | lib/tag.c:82-98 | adding a tag takes no bit away from the total or a slot, also when slot 0 is overwritten with all ones |
| `Tag.AddCovers` | lib/tag.c:82-98 | after a tag is added the set matches everything that meets the tag, even if the tag was skipped as covered already |
| `Tag.NoFalseNegatives` | lib/tag.c:75-98 | after any sequence of additions the set matches every query that shares two bits with some added tag of two bits or more |
| `Tag.TotalIsUnion` | lib/tag.c:75-98 | the running total is exactly the union of the tags added, so nothing that meets none of them in two bits is matched by it |
| `Tag.TagSet.Insert` | lib/tag.c:82-98 | the object's update, slot by slot, is the addition of which the absence of false negatives is proved |
| `Tag.TagSet.Test` | lib/tag.h:138-149 | the test on the object matches exactly as specified |
| `TagWord.ClearLowestBits` | lib/tag.h:96-111 | on 32-bit words, and-ing a number with its predecessor drops its lowest set bit and keeps the rest |
| `TagWord.WordIntersectsAgrees` | lib/tag.h:96-101 | the word expression decides intersection of the bit sets |
| `TagWord.WordIsValidAgrees` | lib/tag.h:105-111 | the word expression decides validity of the bit set |
| `TagWord.WordDeterministicAgrees` | lib/tag.c:65-72 | the word made by shifting has exactly the two chosen bits |
| `TagWord.OrBits` | lib/tag.c:82-98 | or-ing words joins their bit sets, so totals and slots are unions |
| `TagWord.AllOnesBits` | lib/tag.c:90-92 | a word is all ones if and only if its bit set is, which is when slot 0 is overwritten |
| `TagWordSet.MatchesAgrees` | lib/tag.h:138-149 | the test on one total and four slot words is the test on their bit sets |
| `TagWordSet.PutAgrees` | lib/tag.c:89-92 | or-ing into the slot that the counter selects, with the all-ones rule, is filing the bit set |
| `TagWordSet.AddAgrees` | lib/tag.c:82-98 | adding a word to the set of words is adding its bit set to the set of bit sets |
| `TagWordSet.AddAllAgrees` | lib/tag.c:82-98 | so is adding any sequence of words |
| `TagWordSet.NoFalseNegativesOnWords` | lib/tag.c:75-98 | after any additions of 32-bit words the set matches every word that meets some added one in two bits |
| `TagWordSet.WordTagSet.Insert` | lib/tag.c:82-98 | the object of five words and a counter is updated as specified |
| `TagWordSet.WordTagSet.Test` | lib/tag.h:138-149 | the test on it is the specified one |
| `MacTable.RunKeeps` | lib/mac-learning.c:188-295 | over every run the table has no key twice, at most the fixed number of rows, only unicast addresses, and in every row a tag of exactly two bits |
| `MacTable.ChangeIsAnnounced` | lib/mac-learning.c:188-295 | a single event that changes the answer for a key, other than by eviction or by discarding rows without a set for their tags, hands the caller the tag that the old answer was given with |
| `MacTable.AnswersChangeWithNotice` | lib/mac-learning.c:94-101 | over any run that neither evicts nor discards the key's row, if the answer has changed then the tag given with the old one was announced on the way |
| `MacTable.StaleFlowsAreCaught` | lib/mac-learning.c:253-295 | a flow that carries the tag of its lookup is matched by the tag set of everything announced since, if the lookup would now answer differently |
| `MacTable.EvictionIsSilent` | lib/mac-learning.c:205-217 | one exception is real: learning a new address in a full table drops the least recently used one, turning its answer to flooding, and its tag is announced only if it happens to equal the newcomer's |
| `MacTable.DiscardIsSilent` | lib/mac-learning.c:273-295 | so is the other: a flush, or expiry run without a tag set, turns the answer to flooding and announces nothing |
| `MacTable.RunInAgeOrder` | lib/mac-learning.c:188-232 | with a clock that never runs backward the table stays sorted by expiry over every run |
| `MacTable.RunRemovesExactlyExpired` | lib/mac-learning.c:285-295 | with such a clock, expiry removes a row if and only if it has expired, with or without a set for the tags |
| `MacTable.LookupGivesLastSeen` | lib/mac-learning.c:188-271 | a known address is answered with the port on which the run last saw it |
| `MacLearning.ReleaseKeeps` | lib/mac-learning.c:143-149 | taking an entry out of use keeps every entry on exactly one of the two lists and every in-use entry in exactly its own key's bucket, and drops just its row |
| `MacLearning.ClaimKeeps` | lib/mac-learning.c:205-222 | putting a free entry to use keeps the same and adds its row as the most recent |
| `MacLearning.RenewKeeps` | lib/mac-learning.c:219-231 | renewing an entry keeps the same and moves its row to the most recent place |
| `MacLearning.Learner.Vacate` | lib/mac-learning.c:205-211 | the entry for a new address is a free one or the least recently used, and that one is out of its bucket, so that claiming it keeps every bucket exact |
| `MacLearning.Learner.Adopt` | lib/mac-learning.c:205-231 | a new address gets the last row, at the cost of the first if the table is full, and the tag returned is that of flows flooded for it |
| `MacLearning.Learner.constructor` | lib/mac-learning.c:152-170 | a new table has all entries free and stands for the empty table |
| `MacLearning.Learner.SearchBucket` | lib/mac-learning.c:113-124 | a walk along one bucket finds the entry with the key if there is one in use, and otherwise nothing |
| `MacLearning.Learner.LookupTag` | lib/mac-learning.c:253-271 | the answer and the added tag are those of the LRU specification |
| `MacLearning.Learner.LearnFrom` | lib/mac-learning.c:188-232 | learning refines the LRU specification: new table and returned tag alike |
| `MacLearning.Learner.Flush` | lib/mac-learning.c:276-283 | flushing leaves no row |
| `MacLearning.Learner.Expire` | lib/mac-learning.c:285-295 | the loop drops exactly the rows the specification drops and, if it is given a tag set, puts all their tags in it and no other |
| `MacRings.FamilyStep` | lib/mac-learning.c:58-77 | the free list, the LRU list and all buckets are rings in one memory, an entry with one node for its bucket and one for the free or LRU list: work on one ring and a loose node leaves all other rings as they are |
| `MacRings.Create` | lib/mac-learning.c:151-170 | linking all heads and pushing every entry on the free list represents the empty table |
| `MacRings.GetLru` | lib/mac-learning.c:127-139 | the entry found behind the head of the LRU ring is the least recently used one, and none is found exactly when none is in use |
| `MacRings.FreeEntry` | lib/mac-learning.c:141-149 | unlinking both nodes and pushing the entry on the free list leaves the memory representing the table after a release |
| `MacRings.UseFree` | lib/mac-learning.c:205-222 | taking a free entry, linking it in its bucket and at the end of the LRU list leaves the memory representing the table after a claim |
| `MacRings.Evict` | lib/mac-learning.c:205-222 | giving an entry in use, such as the least recently used one, to another address relinks it in the other bucket and moves it last, as a release and a claim would |
| `MacRings.Renew` | lib/mac-learning.c:219-222 | a sighting moves the entry to the end of the LRU list and leaves its bucket alone |
| `ListRing.RingTurned` | lib/list.c:37-42 | a ring may be read from any of its nodes |
| `ListRing.InsertExtends` | lib/list.c:44-52 | the inserted node comes just before the given one, all other nodes keeping their order |
| `ListRing.RemoveShortens` | lib/list.c:101-109 | the ring that is left lacks just the removed node, and the returned node is the one after it |
| `ListRing.RemoveUndoesInsert` | lib/list.c:44-109 | removing what was inserted restores the ring |
| `ListRing.SpliceBetween` | lib/list.c:54-72 | moving a stretch between two rings, the one gains at its end exactly what the other loses |
| `ListRing.SpliceWithin` | lib/list.c:54-72 | moving a stretch within one ring swaps it with what follows it, also when nothing does |
| `ListRing.OtherRingsKept` | lib/list.c:44-109 | a ring that has none of the touched nodes is left alone |
| `ListRing.Lists.Init` | lib/list.c:37-42 | the node is a ring of its own and no other node is touched |
| `ListRing.Lists.InsertBefore` | lib/list.c:44-52 | the four assignments in order give the extended ring and touch no node outside it |
| `ListRing.Lists.PushBack` | lib/list.c:82-88 | the new node is last, and nodes outside the list are untouched |
| `ListRing.Lists.PushFront` | lib/list.c:74-80 | the new node is first, also in an empty list, and nodes outside the list are untouched |
| `ListRing.Lists.Replace` | lib/list.c:90-99 | the new node takes the place of the old, also when that is alone, and nodes outside the list are untouched |
| `ListRing.Lists.Take` | lib/list.c:101-109 | the two assignments shorten the ring and give the next node |
| `ListRing.Lists.PopFront` | lib/list.c:111-119 | the first node is taken, the others keep their order, and nodes outside the list are untouched |
| `ListRing.Lists.SpliceBefore` | lib/list.c:54-72 | the six assignments, each reading what the ones before it wrote; where the links at the three places run both ways they amount to six links set at once |
| `ListRing.Lists.MoveBetween` | lib/list.c:54-72 | a stretch of one list ends up just before the given node of the other, both in order, and nodes outside the two are untouched |
| `ListRing.Lists.MoveWithin` | lib/list.c:54-72 | a stretch of a list is swapped with what follows it, also when nothing does, and nodes outside the list are untouched |
| `ListRing.Lists.Size` | lib/list.c:149-160 | the walk around the ring counts the nodes other than the head, and ends |
| `Stream.ReceiveFollowsMessage` | lib/vconn-stream.c:112-186 | whatever each read returns, a receive call against a well-framed message either delivers exactly it or holds a longer beginning of it, never reading past its end |
| `Stream.FaithKeptUnlessDiscarded` | lib/vconn-stream.c:189-254 | an action keeps the bytes in the buffers and on the wire equal to the messages still owed if and only if it is not a write error that discards part of a buffered message |
| `Stream.DeliveredIsPrefixOfAccepted` | lib/vconn-stream.c:112-254 | for every schedule of short writes and short reads without such a discard, the messages delivered are the first ones accepted, unchanged and in order |
| `Stream.CanContinue` | lib/vconn-stream.c:112-186 | after any beginning of any message, cut anywhere, there is a message to send that makes the reader take the bytes for another message |
| `Stream.DiscardCanShow` | lib/vconn-stream.c:196-221 | from every faithful link with something buffered, a discard can be followed by sends and receives without further error until what is delivered is no beginning of what was accepted |
| `Stream.SafeIffNotDiscarded` | lib/vconn-stream.c:112-254 | an action leaves a faithful link such that whatever follows without a discard delivers a beginning of what was accepted, if and only if it is not itself such a discard |
| `Stream.DiscardSkips` | lib/vconn-stream.c:196-221 | for any two different messages, a discard of the first before any byte is out makes the second arrive first: what is delivered is no beginning of what was accepted |
| `Stream.DiscardGarbles` | lib/vconn-stream.c:196-221 | for any two messages and any cut within the header that leaves a valid length, a discard after the cut delivers a message nobody sent, the head of the first with the start of the second |
| `Stream.DiscardGarblesSome` | lib/vconn-stream.c:196-221 | such messages exist |
| `Stream.StreamVconn.SendMessage` | lib/vconn-stream.c:223-254 | a send either hands all bytes on, keeps the unwritten rest, asks to be repeated, or fails, as specified |
| `Stream.StreamVconn.DoTx` | lib/vconn-stream.c:196-221 | draining writes from the front of the buffer and empties it when done or on a hard error |
| `Stream.StreamVconn.ReceiveMessage` | lib/vconn-stream.c:112-186 | the read loop delivers, holds or fails as specified for every outcome of its reads, and reads again at most once |
| `DhcpOptions.PutTwice` | lib/dhcp.c:187-207 | appending twice to an option is appending the joined bytes once |
| `DhcpOptions.ParseChunks` | lib/dhcp.c:575-609 | parsing a value of any length, split in chunks of 248 with a last one of up to 255, appends exactly that value and goes on after it |
| `DhcpOptions.ParseLoads` | lib/dhcp.c:575-609 | parsing an encoded table puts each of its options in code order and stops where the bytes end or at an end marker, whatever follows that |
| `DhcpOptions.RoundTrip` | lib/dhcp.c:575-841 | encoding a table of options and parsing it into a new message gives the table back if and only if every option that is present but empty comes after one that is not empty |
| `DhcpOptions.VendorRoundTrip` | lib/dhcp.c:575-841 | vendor options, encoded as the code does without an end marker, come back from bytes that stay in place while they are parsed, empty ones included, once anything is stored; that they do stay in place is the condition of DhcpMessage.Msg.ParseVendor |
| `DhcpMessage.MovedTable` | lib/dhcp.c:187-207 | moving an option's bytes to the end of the arena changes no option's value |
| `DhcpMessage.ExtendedTable` | lib/dhcp.c:161-168 | bytes appended to the arena and to the option that ends there extend that option and no other |
| `DhcpMessage.Msg.Prealloc` | lib/dhcp.c:146-159 | growing the arena, with compaction, keeps all values and makes room for the request |
| `DhcpMessage.Msg.CopyData` | lib/dhcp.c:170-183 | compaction keeps all values and leaves no gaps, and its capacity assertion cannot fail |
| `DhcpMessage.Msg.Copy` | lib/dhcp.c:134-144 | a copy has every option's value in an arena of exactly the bytes the original uses, where the capacity assertion is tightest, and leaves no gaps |
| `DhcpMessage.Msg.PutBytes` | lib/dhcp.c:187-207 | appending changes one option and keeps every other through moves and compaction; the arena stays the same one, and all its bytes so far in place, if and only if the option's move and the new bytes fit in it |
| `DhcpMessage.Msg.ParseOptions` | lib/dhcp.c:575-609 | the loop stores what the specified parse gives |
| `DhcpMessage.RunDecides` | lib/dhcp.c:575-609 | a parse from the arena being written to, seen as a run of stages, has parsed everything if it comes to the end, and if it gets stuck some put had to move to a larger arena |
| `DhcpMessage.Msg.ParseVendor` | lib/dhcp.c:719-725 | parsing the vendor option out of the arena that its options are put into reads only bytes that are still there if and only if no put has to move to a larger arena, and then stores what the specified parse gives |
| `DhcpMessage.ParseEncodedVendor` | lib/dhcp.c:719-841 | so encoded vendor options come back under exactly that condition |
| `DhcpMessage.ParseOneVendorOption` | lib/dhcp.c:146-207 | the condition worked out for the smallest message, with a message type, an eight-byte class and one vendor option: the bytes stay put if and only if the option's value has at most 26 bytes, or at least 54 |
| `DhcpMessage.PutOption` | lib/dhcp.c:754-787 | the chunking loop writes the specified encoding |
| `DhcpMessage.Assemble` | lib/dhcp.c:822-840 | the loop over the codes writes the encoded table and the end marker |
| `DhcpMessage.AssembleAndParse` | lib/dhcp.c:575-841 | a message assembled and parsed again has the same options under the exact condition above |
| `DhcpClient.Client.constructor` | lib/dhcp-client.c:163-206 | a new client is released, unbound, and due to report a change |
| `DhcpClient.Client.Transition` | lib/dhcp-client.c:837-872 | a bound state is entered only with a binding, so the assertion there cannot fail; leaving the bound states gives the binding up and flags the change |
| `DhcpClient.Client.Fuzz` | lib/dhcp-client.c:1062-1069 | the random number is within the spread and the unsigned range |
| `DhcpClient.Client.DoReceive` | lib/dhcp-client.c:921-979 | the message taken, the queue left and the count of failures are those of the specified read, in which fifty datagrams that do not parse end the attempt and drop the rest |
| `DhcpClient.Client.Receive` | lib/dhcp-client.c:576-596 | the loop stops at the answer the specified search gives and leaves what it leaves |
| `DhcpClient.FirstAnswer` | lib/dhcp-client.c:576-596 | the answer given is the first datagram of a wanted kind with this client's transaction number, with exactly what came after it left; none is given only if none answers before too many have failed to parse |
| `DhcpClient.Client.CompareBindings` | lib/dhcp-client.c:650-694 | two bindings count as the same if and only if address and all listed options agree |
| `DhcpClient.Client.FlagDifference` | lib/dhcp-client.c:713-716 | a message not flagged as a change gives just the configuration the user was told of |
| `DhcpClient.Client.CalcT2` | lib/dhcp-client.c:1077-1082 | the default rebinding time is within ten seconds of seven eighths of the lease, exact below a minute, and always positive and before the end of the lease |
| `DhcpClient.Client.CalcT1` | lib/dhcp-client.c:1084-1089 | the default renewal time is half the lease, for leases of a minute or more within ten seconds of it and brought before the rebinding time |
| `DhcpClient.Client.ChooseTimes` | lib/dhcp-client.c:728-733 | server times are used exactly when they fit; renewal comes before rebinding if and only if the server's time fits, the lease is a minute or more, or half of it precedes the rebinding time |
| `DhcpClient.Client.SetLease` | lib/dhcp-client.c:723-738 | the lease runs from now, and the three waits, computed in unsigned arithmetic, add up to it if and only if renewal does not come after rebinding |
| `DhcpClient.Client.Bind` | lib/dhcp-client.c:710-747 | the binding, address, mask and router become those of the acknowledgement, and a difference the user could see is flagged |
| `DhcpClient.Client.ReceiveAck` | lib/dhcp-client.c:696-749 | of the first answer to this transaction: a refusal leads to the start, a usable acknowledgement to being bound by exactly that message, and anything else changes neither state nor binding; handling uses a message up |
| `DhcpClient.Client.SendReliably` | lib/dhcp-client.c:874-890 | retransmission waits double from four seconds up to the limit, give or take a second, and only when the last one has run out |
| `DhcpClient.Client.StepInit` | lib/dhcp-client.c:544-574 | the initial wait is drawn once, from one to three seconds, and then kept; the state changes exactly when it has run out |
| `DhcpClient.Client.AcceptOffer` | lib/dhcp-client.c:631-647 | the first usable offer, if there is one, is taken up by asking its server for its address, and otherwise state, address and server stay |
| `DhcpClient.Client.StepSelecting` | lib/dhcp-client.c:621-648 | a usable offer leads to a request for exactly its address even when the selection has just timed out; with none the timers decide, and they end the selection only if a server had been chosen before |
| `DhcpClient.Client.StepAwaitAck` | lib/dhcp-client.c:567-574 | the first answer to this transaction decides before the timer does, and bound means bound by that answer; if it does not decide, the timer leads to the next state |
| `DhcpClient.Client.StepAnswering` | lib/dhcp-client.c:751-784 | the four states that wait for an acknowledgement differ only in their timers |
| `DhcpClient.Client.StepWaiting` | lib/dhcp-client.c:555-565 | in the states that wait for the clock the clock alone decides |
| `DhcpClient.Client.Step` | lib/dhcp-client.c:751-810 | every move is one of the state diagram of section 4.4 of RFC 2131 and exactly the one that the first answer or usable offer, and failing that the timers, call for; becoming bound is by that answer, asking is for that offer's address; it keeps the invariant and makes progress |
| `DhcpClient.Client.Run` | lib/dhcp-client.c:793-810 | the loop ends at any fixed time with any finite receive queue, and keeps: a binding exactly when bound, by an acknowledgement of this transaction with a mask and a lease of at least 15 seconds whose address, mask and router are the client's; and the changed flag set whenever what the user can see differs from what was last told |
| `DhcpClient.Client.Restart` | lib/dhcp-client.c:244-251 | restarting leaves the bound states for the state that asks for the requested address, or for none |
| `DhcpClient.Client.Release` | lib/dhcp-client.c:255-267 | releasing gives any binding up |
| `DhcpClient.Client.ForceRenew` | lib/dhcp-client.c:269-319 | a forced renewal drains the waiting messages, never lets go of a binding by itself, and its waits fill the deadline or what is left of the lease, whichever is less, to within a second |
| `DhcpClient.Client.TakeChanged` | lib/dhcp-client.c:330-336 | a negative answer means that what the user can see is what was last told |
| `Rconn.WaitsDouble` | lib/rconn.c:888-899 | without a quiet spell in between, waits go 1, 2, 4 and so on and stay at the limit once reached, for every number of failures |
| `Rconn.InFlightAppend` | lib/rconn.c:571-586 | a queued packet adds one to the in-flight count of its own counter and to no other |
| `Rconn.Connection.constructor` | lib/rconn.c:183-231 | a new connection is void with an empty queue and no counter in use |
| `Rconn.Connection.Transition` | lib/rconn.c:962-977 | the sequence number moves exactly when the connection becomes or stops being active |
| `Rconn.Connection.FlushQueue` | lib/rconn.c:915-933 | the queue is emptied and every counter is back at its own starting value |
| `Rconn.Connection.Abandon` | lib/rconn.c:255-273 | the connection becomes void; the queue and its counters stay, as the code leaves them |
| `Rconn.Connection.Disconnect` | lib/rconn.c:860-911 | a reliable connection backs off for the specified wait and, if it had got as far as connecting, loses its queue; an unreliable one becomes void and keeps it |
| `Rconn.Connection.Reconnect` | lib/rconn.c:306-330 | an attempt leads to connecting or, with the wait grown, back to back-off, touching no packet |
| `Rconn.Connection.TrySend` | lib/rconn.c:828-855 | a sent packet leaves the front of the queue and its counter; a refused one stays; an error drops the connection |
| `Rconn.Connection.PushTail` | lib/queue.c:89-105 | the packet is last, its counter one higher and every other counter unchanged |
| `Rconn.Connection.Send` | lib/rconn.c:571-597 | a packet is accepted exactly when connected; each counter grows by at most one and only the packet's own; behind a backlog the packet just joins the queue |
| `Rconn.Connection.SendWithLimit` | lib/rconn.c:611-621 | a packet is accepted exactly when connected and its counter is below the limit; its counter ends no higher than it was or than the limit, and no other counter grows |
| `Rconn.Connection.Connect` | lib/rconn.c:233-240 | connecting afresh keeps the queue and leads to connecting or back-off |
| `Rconn.Connection.ConnectUnreliably` | lib/rconn.c:242-253 | an adopted connection is active and not reliable |
| `Rconn.Connection.Receive` | lib/rconn.c:497-546 | a message ends a probe unless it is an echo reply to some other request; an error drops the connection |
| `Rconn.Connection.DoTxWork` | lib/rconn.c:377-396 | the packets sent are exactly those gone from the front of the queue, in order |
| `Rconn.Connection.RunConnecting` | lib/rconn.c:347-375 | a connection still being made is within its time; one made is active |
| `Rconn.Connection.RunActive` | lib/rconn.c:398-428 | an idle connection is probed; otherwise the queue is worked on |
| `Rconn.Connection.RunIdle` | lib/rconn.c:430-451 | an unanswered probe drops the connection |
| `Rconn.Connection.RunBackoff` | lib/rconn.c:332-345 | a new attempt is made exactly when the wait is over |
| `Rconn.Connection.Run` | lib/rconn.c:456-474 | the loop ends at any fixed time; each counter is still its starting value plus the queued packets that carry it, the underlying connection exists exactly in the three states that need it, and no state but the void one is left timed out |
| `Rconn.Connection.Apply` | lib/rconn.c:233-621 | no operation raises a counter but a send, and that only its packet's own, with a limit only up to it |
| `Rconn.Connection.Drive` | lib/rconn.c:233-621 | over any sequence of operations at any times, a counter that only travels with packets sent under a limit never ends above both where it began and the limit, and the invariant that ties every counter to the queue holds throughout |
| `HashMask.CalcMask` | lib/hmap.c:103-121 | the or-and-shift steps give one less than a power of two, at least half the capacity, and less than the capacity beyond four buckets; zero exactly below capacity two |
| `HashMask.Smear` | lib/hmap.c:106-114 | six or-and-shift steps set every bit of a word below its top one, and no bit above |
| `HashMask.AndMask` | lib/hmap.h:139-147 | and-ing with a mask is the remainder on division by the number of buckets |
| `HashMap.InsertedOk` | lib/hmap.h:139-147 | a node put in front of the bucket its hash selects keeps every bucket linked, distinct and holding exactly the nodes that select it |
| `HashMap.RemovedOk` | lib/hmap.h:160-171 | a node unlinked from its bucket keeps the same and takes just that node out |
| `HashMap.MoveStep` | lib/hmap.c:92-98 | moving one node while its old chain is being walked leaves the rest of the chain and all later buckets intact |
| `HashMap.MoveBucket` | lib/hmap.c:92-98 | the inner loop moves all nodes of a bucket and no other |
| `HashMap.Hmap.InsertFast` | lib/hmap.h:139-147 | the map gains just that node with that hash and is not resized |
| `HashMap.Hmap.Insert` | lib/hmap.h:149-158 | the map gains just that node, and afterwards has at least one bucket for every two nodes |
| `HashMap.Hmap.Remove` | lib/hmap.h:160-171 | the map loses just that node, at its place in its bucket and nowhere else, and the node's own link is preserved |
| `HashMap.Hmap.Resize` | lib/hmap.c:75-101 | resizing keeps exactly the same nodes with the same hashes |
| `HashMap.Hmap.Expand` | lib/hmap.c:123-131 | the nodes stay, and there are at least half as many buckets as nodes |
| `HashMap.Hmap.Shrink` | lib/hmap.c:133-141 | the nodes stay, and there are never more buckets than nodes beyond four |
| `HashMap.Hmap.Reserve` | lib/hmap.c:148-158 | the nodes stay, and there is room for the capacity asked for |
| `HashMap.FlatIsContents` | lib/hmap.h:204-238 | the chains from any bucket on hold each node that selects such a bucket, once |
| `HashMap.NextBucket` | lib/hmap.h:204-215 | the first node of the first non-empty bucket, skipping none |
| `HashMap.Next` | lib/hmap.h:225-238 | stepping on gives the next node of the remaining ones |
| `HashMap.StepOn` | lib/hmap.h:225-238 | the same from a node that is no longer in the map but whose link still leads to the place where it was |
| `HashMap.RemoveAndStep` | lib/hmap.h:217-238 | removing the node an iteration stands at and stepping on leaves exactly the nodes to visit that there were after it |
| `HashMap.Enumerate` | lib/hmap.h:204-238 | iteration from the first node to the next visits each node of the map, exactly once |
| `HashMap.Sweep` | lib/hmap.h:217-238 | an iteration that removes the nodes of any set as it comes to them still visits each node that was in the map exactly once, and removes just those |
| `HashMap.FindAll` | lib/hmap.h:173-202 | search by hash from the first to the next yields exactly the nodes with that hash, each once |
| `PortArray.CombineSplit` | lib/port-array.h:41-73 | the three bit fields of an index determine it, and each is within its level |
| `PortArray.SplitCombine` | lib/port-array.h:41-73 | an index put together from three fields has those fields |
| `PortArray.Sentinels.constructor` | lib/port-array.c:43-51 | the shared sentinels hold only null |
| `PortArray.Array.constructor` | lib/port-array.c:42-56 | a new array owns no node and stands for a table of nulls |
| `PortArray.Array.Get` | lib/port-array.h:90-98 | three steps down the trie give the element of the table |
| `PortArray.Array.Set` | lib/port-array.c:90-113 | one element of the table changes and no other; only this array's own nodes are written, never a sentinel |
| `PortArray.Array.Clear` | lib/port-array.c:82-88 | all elements are null again |
| `PortArray.SetAmong` | lib/port-array.c:90-113 | setting an element of one array leaves every array that shares the sentinels with it unchanged |
| `PortArray.Array.Scan` | lib/port-array.c:115-153 | the first non-null element from a number on, however many sentinels are skipped; 65536 and null exactly if there is none |
| `PortArray.Array.First` | lib/port-array.c:155-163 | the lowest non-null element |
| `PortArray.Array.Next` | lib/port-array.c:165-174 | the lowest non-null element above the given number, except from the greatest 32-bit number, where the increment wraps and the search starts over |
| `PortArray.Array.Enumerate` | lib/port-array.c:155-174 | stepping from first to next meets exactly the non-null indexes, in strictly ascending order |
| `LogLimiter.OfferSteps` | lib/vlog.c:635-658 | a message spends no more than was there and has been earned, and the bucket never overflows |
| `LogLimiter.SpendsWhatIsEarned` | lib/vlog.c:635-658 | from the last refill on, messages cost at most the tokens there and the rate times the seconds gone by |
| `LogLimiter.StretchBound` | lib/vlog.c:635-658 | a stretch that begins after the last refill gains at most one more burst by it |
| `LogLimiter.EveryStretchIsBounded` | lib/vlog.c:625-667 | over every run with a clock that never runs backward, any stretch of d seconds lets through at most (2 * burst + rate * d) / 60 messages, and between uses the bucket holds less than one message or lacks at least one |
| `LogLimiter.MomentIsExact` | lib/vlog.c:635-658 | of any number of messages at one moment exactly as many get through as tokens at hand and one refill allow |
| `LogLimiter.BurstIsKept` | lib/vlog.h:101-116 | the documented maximum burst holds at a moment if and only if what is left and what has been earned do not together come to more |
| `LogLimiter.TwoBurstsAtOnce` | lib/vlog.h:101-116 | two bursts less one message do get through at one moment, for every rate and burst, after one use and a long wait |
| `LogLimiter.NoLimitWhileClockIsBehind` | lib/vlog.c:637-640 | while the clock is behind the last refill every message gets through |
| `LogLimiter.DropsAreAccountedFor` | lib/vlog.c:647-666 | every message held back is reported or still counted, up to the wrap-around of the 32-bit count |
| `LogLimiter.RateLimiter.Log` | lib/vlog.c:625-667 | the object's update and the decision to emit are those of the specification; a disabled module changes nothing |

## Left out

- Configuration message layout in `lib/stp.c`: byte-level encoding and the flag bits a bridge sends; received flags are event parameters.
- The millisecond remainder in `stp_tick`: time passes in whole ticks of 1/256 second.
- Networks with zero path costs or with cost sums of 2^31 and more: the network theorems assume positive path costs and sums that the signed comparison keeps exact.
- StpConvergence.Converges: messages may take any time, but rounds are not timed, so hold timers, aging and forward delays do not run in them; a port has one message on its way at a time, a newer one taking its place, and all ports of a link hear it one after the other. Convergence starts from bridges that have heard nothing; after a failure, old information must age out first.
- Networks of more than 1536 bridges: with the shortest maximum age a message may be too old for bridges that far away.
- `tag_create_random`: the tag it draws is a parameter, any tag of two bits.
- The lists inside the MAC table: the class in `MacLearning` has sequences of entry numbers for the free, LRU and bucket lists, and its search walks a sequence; `MacRings` carries each change of the lists out on linked memory, apart from that class.
- Heap objects in lists and hash chains: nodes are records in a map from addresses, so aliasing is explicit but node lifetimes are not modelled.
- `hmap_swap` and the inline bucket of a small hash map: the bucket vector is a sequence.
- `lib/queue.c` linked packets: the transmit queue is a sequence of packets.
- Connection admission, monitors, statistics and names in `lib/rconn.c`: they do not affect states, the queue or counters.
- Rconn.Connection.Run: requires a clock below the greatest unsigned number, since saturated deadlines are always past there; the same holds of the DHCP client.
- The DHCP message header and the whole-message path: the codec is modelled at the level of the option table.
- DhcpClient.Client.ReceiveAck: the caller's validation hook is the set of messages it refuses, fixed during one call.
- Network configuration by the DHCP client (device and resolver settings) and its logging.
- Sockets, netdev, netlink, SSL, the poll loop, signals, daemon, process and pcap code: input and output only.
- OpenFlow message builders, experimenter packing, `lib/csum.c`, `svec`, `shash`, dynamic strings and utilities: they would only add easy members.
