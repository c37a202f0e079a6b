# upf-edge: a verified model of the 5G user plane function

The project models four connected parts of upf-edge and proves what they promise:

- **The session state machine and the maps it compiles to.** `PfcpServers.PfcpServer` is the server with its
  associations, sessions, URR configurations and counters; `Rules.SharedMaps` holds the SESSION, PDR, FAR and URR
  maps. The handlers update both in place, loop by loop, and each is proved equal to one step of `Server.RequestStep`.
  `World` runs any interleaving of such steps with uplink packets and reporter ticks, and the theorems are about
  every run.
- **The packet path.** The precedence search, the per-CPU counters, the GTP-U decapsulation and encapsulation on a
  frame buffer, and the IPv4 header checksum.
- **The PFCP codec.** Header, recursive type-length-value parser, grouped-element parsers and the message builder.
- **Usage reporting.** The reporter's tick and the history of its reports.

`dafny verify dfyconfig.toml` checks everything.

## How it is modelled

- Octets and fixed-width integers are `int` subset types; where the code's arithmetic wraps, the model writes the
  modulus out (release-build arithmetic). Addresses are numbers. A 32-bit field in network order is a
  `Net32`, known by the number it stands for: `to_be` makes one, a raw packet load is one, and `WordsStandForNumbers`
  shows that the host's words for them compare, test for zero and lie in memory as the numbers do. A port is a `Word16`,
  its two octets, which a raw load on the little-endian host exchanges.
- A hash map is visited in no fixed order. `find` over associations may therefore answer with any association that
  has the source address: the handlers choose one, and in runs the answer is part of the event (`found`), only
  required to be truthful (`Server.Lookup`).
- A handled request, an uplink packet and a tick are one step each; `Interleaving` drops that and lets every single
  map operation of any handler fall between any two map reads of a packet.
- Time is a number given to the step. The reporter's totals are any list in runs, so a tick may work on a snapshot
  that is already out of date; `Reporter.CollectTotals`, `Counters.ReporterTotal` and `Usage.ReportedIsForwarded`
  and `Metering.TotalsFollowRules` say what the totals are.
- Error values carry no text.

Hypotheses of the run theorems, each but the first a predicate on single steps in `World`, `Ownership`, `Cleanup` or
`Reports`:

- Handlers run one at a time. The code starts a task per datagram and a deletion gives up the server lock before its
  map work (`handle_msg.rs:666`), so another handler can come in between. `Interleaving` has the operations of any
  handlers in any order: late map work ends in the same maps as immediate map work exactly when no operation in between
  puts or drops the SESSION entry of the UE address (`DelayedDeletionIff`). An establishment puts exactly that of its own
  address, a deletion drops exactly that of its session's (`EstablishOpsRekey`, `DeleteOpsRekey`).
- `Possible`: the association lookup answers truthfully. `SeidFits`: a SEID handed out is below 2^48, what the map
  keys keep. Runs start with no restored sessions.
- `AddressFree`: an establishment brings a UE address no live session has (the SESSION map is keyed by it).
- `CpSeidFree`: an establishment brings no cp_seid that a live session of another node carries.
- `TidyRequest`: every rule of the establishment can be reached from its first eight PDRs.
- `Timely`: the tick's clock is not behind a report already sent. `Snapshots` (in `Charging`): a tick's totals were
  collected from the URR map at some earlier moment of the run.

No distinctness of rule ids is assumed: of several rules with one id the last is in force, FAR and URR ids count
below 2^16 as the keys have it, and of more than eight PDRs the first eight are searched. With distinct PDR ids the
rule in force is the rule itself (`Compiled.RuleAtIsItself`).

## Where the code does less than its documents or log messages say

Each with the exact condition, for all inputs, and a concrete input, in `Deviations` unless named otherwise.

- Ownership is decided by cp_seid alone, not by node and cp_seid: two nodes with one cp_seid can delete each other's
  sessions (`OtherNodeDeletes`). A step keeps the lists exclusive exactly under `CpSeidFree` (`Ownership.OwnedStepIff`).
- The SESSION map is keyed by the UE address alone: an establishment with a live session's address takes over its entry
  at once (`Compiled.EstablishUntouchedIff`), and deleting the one then leaves the other without
  (`SharedAddressLosesEntry`). An establishment leaves all live sessions untouched exactly under `AddressFree`
  (`Compiled.EstablishmentsLeaveOthersIff`). A change to a session leaves another untouched exactly when the addresses differ,
  the entry is not there, or a modification does not move it (`Ownership.OthersUntouchedIff`), and a step keeps the
  addresses distinct exactly under `AddressFree` (`Ownership.AddressesStepIff`).
- A restart seen in a heartbeat or a setup empties the association's list only; the sessions and their map entries
  stay and nobody can change them until the cp_seid comes back (`Ownership.RestartStrands`, `Ownership.StrandedForever`,
  `HeartbeatStrands`). An event ends a time stamp exactly when it `Restarts` the node (`Ownership.StampStepIff`).
- An older recovery time stamp is logged as rejected but replaces the association (`SetupKeepsIff`,
  `OlderStampReplaces`).
- Filter ports are stored in host order and compared with raw packet ports (`Classifier.FilterFaithfulIff`,
  `PortEightyMissed`).
- The downlink tunnel comes from the first core rule, not the best one (`TunnelOfFirstNotBest`). The two are the same
  for a packet exactly under the condition of `Classifier.FirstCoreIsBestIff` on the maps and
  `Decisions.FirstCoreRuleIsBestIff` on the rules, and for every flow exactly when the first core rule has the least
  precedence value and a filter that covers the others' (`Decisions.TunnelOfBestForAllFlowsIff`).
- The outer checksum is stored with its octets exchanged; the header verifies exactly when they are equal
  (`Packet.OuterHeaderVerifiesIff`, `ChecksumFails`).
- All usage is counted as downlink, though only uplink packets are counted (`Tallies.AllUsageIsDownlink`; the run of
  `PeriodicOnlyReportsVolume` has such a packet).
- The volume trigger bit is looked up with a product: a URR without it sends volume reports exactly when it has any
  trigger bit but 0x80, and a threshold not yet reported (`VolumeOnlyAsConfiguredIff`, `PeriodicOnlyReportsVolume`).
- Deletion leaves rules behind that the first eight PDRs do not reach (`Cleanup.DeleteLeavesNothingIff`), and never
  removes URR configurations (`ConfigurationsOutliveSessions`); `DeletionLeavesFar` shows both.
- A deletion's map work done after an establishment for the same UE address takes away the new session's entry and
  leaves old rules (`Interleaving.DelayedDeletionIff`, `Interleaving.SplitDeletion`, `LateDeletionLosesNewSession`).
- An Update FAR changes the tunnel only. Its apply action is in force afterwards exactly when it was before
  (`Compiled.UpdateInForceIff`), and no run changes the action of an installed FAR (`Compiled.ActionsAreFinal`);
  updates that ask for dropping leave every packet forwarded (`DropNotTakenOver`).
- The response to an establishment without a rule for the access side carries no tunnel
  (`Validator.EstablishmentUnderstood`, `NoTunnelInAnswer`).

## Model

| member | source | states |
|---|---|---|
| Dispatch.HandleMessage | upf-edge/src/handle_msg.rs:771-830 | any datagram from any source is exactly one step of the state machine on the request it decodes to, and is answered with the octets of that step's reply; an undecodable one changes nothing |
| Decoding.RequestsIff | pfcp-common/src/messages.rs:12-145 | for any header and body: when a message is which request, with which parameters, when it is passed over and when refused |
| Decoding.CollectFailsIff | pfcp-common/src/messages.rs:44-87 | a list of rules fails exactly when one of its elements does |
| Answers.AnswersTell | upf-edge/src/handle_msg.rs:149-582 | what the sender of a request decodes from the answer: the UPF's time stamp and address, the SEID and tunnels handed out, the cp_seid of the session modified, the SEID of the session deleted |
| Answers.CreatedConcat | upf-edge/src/handle_msg.rs:421-424 | the created PDRs of a request are those of its parts in order |
| Answers.CreatedSingle | upf-edge/src/handle_msg.rs:421-424 | one for each PDR of the access side, with its id and the allocated tunnel |
| PfcpServers.PfcpServer.constructor | upf-edge/src/pfcp_server.rs:93-116 | a new server has no associations, sessions or configurations, empty maps, and counters at 1, 1000 and 1000 |
| PfcpServers.PfcpServer.AllocSeid | upf-edge/src/pfcp_server.rs:118-123 | hands out the next SEID |
| PfcpServers.PfcpServer.AllocTeid | upf-edge/src/pfcp_server.rs:125-130 | hands out the next TEID |
| PfcpServers.PfcpServer.AllocReportSeq | upf-edge/src/pfcp_server.rs:132-137 | hands out the next report sequence number, wrapping at 2^32 |
| PfcpServers.PfcpServer.FindBySource | upf-edge/src/handle_msg.rs:244-254 | finds some association with the source address, or none only if there is none |
| PfcpServers.PfcpServer.HandleHeartbeat | upf-edge/src/handle_msg.rs:105-149 | a changed recovery time stamp empties the found association's list and nothing else; always answered |
| PfcpServers.PfcpServer.HandleSetup | upf-edge/src/handle_msg.rs:153-213 | the same time stamp is a duplicate, any other one replaces the association; always answered |
| PfcpServers.PfcpServer.HandleEstablishment | upf-edge/src/handle_msg.rs:217-433 | the whole new state and answer: maps compiled, session, list and configurations added; refused sources change nothing, incomplete requests use up a SEID and a TEID |
| PfcpServers.PfcpServer.WritePdrs | upf-edge/src/handle_msg.rs:292-318 | the PDR loop writes every rule under the session's keys, later ones over earlier ones |
| PfcpServers.PfcpServer.WriteFars | upf-edge/src/handle_msg.rs:320-347 | the FAR loop, likewise |
| PfcpServers.PfcpServer.WriteUrrs | upf-edge/src/handle_msg.rs:349-378 | the URR loop zeroes the counters and configures each URR |
| PfcpServers.PfcpServer.HandleModification | upf-edge/src/handle_msg.rs:437-582 | the whole new state and answer of an accepted modification; a refused one changes nothing |
| PfcpServers.PfcpServer.UpdateFars | upf-edge/src/handle_msg.rs:508-552 | the Update FAR loop patches FAR entries, and SESSION entry and session to the last access-side tunnel |
| PfcpServers.PfcpServer.UpdateUrrs | upf-edge/src/handle_msg.rs:554-572 | the Update URR loop reconfigures known URRs and rearms their threshold |
| PfcpServers.PfcpServer.HandleDeletion | upf-edge/src/handle_msg.rs:585-751 | the whole new state and answer of an accepted deletion; a refused one changes nothing |
| PfcpServers.PfcpServer.ForgetSession | upf-edge/src/handle_msg.rs:598-666 | the part under the server lock: an authorised session leaves table and list, anything else changes nothing |
| PfcpServers.PfcpServer.RemoveRules | upf-edge/src/handle_msg.rs:668-729 | the map work after it, on whatever the maps then hold: removes from the four maps the SESSION entry and the rules reached through it |
| PfcpServers.PfcpServer.CollectIds | upf-edge/src/handle_msg.rs:683-698 | collects the FAR ids and nonzero URR ids of the session's installed PDRs |
| PfcpServers.PfcpServer.RemoveFars | upf-edge/src/handle_msg.rs:709-715 | removes the collected FARs in whatever order the set yields them |
| PfcpServers.PfcpServer.RemoveUrrs | upf-edge/src/handle_msg.rs:717-723 | removes the collected URR counters in whatever order the set yields them |
| Keys.KeysMeet | upf-edge-common/src/lib.rs:59-66 | two composed keys are equal exactly when the SEIDs agree below 2^48 and the ids below 2^16 |
| Keys.SplitUndoesCompose | upf-edge/src/urr_reporter.rs:50-51 | the reporter's split recovers the pair exactly for SEIDs below 2^48 and ids below 2^16 |
| Keys.ComposeUndoesSplit | upf-edge/src/urr_reporter.rs:49-53 | every key is the composition of the pair split out of it |
| Bytes.WordsStandForNumbers | upf-edge/src/handle_msg.rs:267-282 | words in network order are equal, zero and laid out in memory as the numbers they stand for |
| Bytes.WordsAreNumbers | upf-edge-ebpf/src/main.rs:404-416 | exchanging the octets of a port word is `to_be` on its number |
| Ownership.ListedIsLive | upf-edge/src/handle_msg.rs:387-394 | after any run, restarts and repeated cp_seids included, no cp_seid is listed by more associations than live sessions carry it, so every listed one is backed by a live session |
| Ownership.BalancedStep | upf-edge/src/handle_msg.rs:652-660 | every step keeps that count |
| Ownership.OwnedStepIff | upf-edge/src/handle_msg.rs:478-494 | a step keeps every association from listing another node's session exactly when it brings in no cp_seid a live session of another node carries |
| Ownership.AddressesStepIff | upf-edge/src/handle_msg.rs:267-290 | a step keeps the UE addresses of live sessions distinct exactly when it brings in none that is in use |
| Ownership.OnlyTheOwnerChanges | upf-edge/src/handle_msg.rs:602-660 | after any run that brings in neither another node's live cp_seid nor a live UE address, an accepted modification or deletion is about a session of the node found, and leaves every other session's data, SESSION entry, rules, counters and configurations as they were |
| Ownership.OthersUntouchedIff | upf-edge/src/handle_msg.rs:700-729 | an accepted modification or deletion leaves another session's data, rules, counters and configurations alone, and its SESSION entry too exactly when the UE addresses differ, the entry is missing, or a modification does not move it |
| Compiled.EstablishUntouchedIff | upf-edge/src/handle_msg.rs:267-290 | after any orderly run an accepted establishment leaves a live session's data, rules, counters and configurations alone, and its SESSION entry too exactly when the UE addresses differ |
| Compiled.EstablishmentsLeaveOthersIff | upf-edge/src/handle_msg.rs:267-290 | it leaves all live sessions untouched exactly when its UE address is free |
| Ownership.ErrorsChangeNothing | upf-edge/src/handle_msg.rs:461-494 | a deletion changes something exactly when it is not answered with an error; other requests answered with one change at most the two allocation counters |
| Ownership.OtherSourcesChangeNothing | upf-edge/src/handle_msg.rs:609-617 | a source that is not IPv4 changes nothing but by a setup; a deletion without SEID is one of SEID 0 |
| Ownership.AnnouncedIsInForce | upf-edge/src/handle_msg.rs:119-205 | the time stamp announced in a heartbeat or setup is in force afterwards, a setup's with the source's address and the node's as the peer |
| Ownership.RestartStrands | upf-edge/src/handle_msg.rs:119-128 | a heartbeat or setup with another time stamp leaves each session of its node live, untouched and listed by nobody |
| Ownership.StampStepIff | upf-edge/src/handle_msg.rs:168-190 | a step of any kind ends a node's time stamp exactly when it is such a heartbeat or setup |
| Ownership.StrandedForever | upf-edge/src/handle_msg.rs:619-650 | such a session stays through any run that does not bring its cp_seid back |
| Ownership.RepeatedSetupChangesNothing | upf-edge/src/handle_msg.rs:168-190 | a setup received again, after any run that shows no restart of its node, changes nothing |
| Numbering.AllocationsDiffer | upf-edge/src/handle_msg.rs:256-257 | the answers to two establishments of a run carry different SEIDs, and different TEIDs when fewer than 2^32 allocations lie between |
| Sessions.FirstUeIpIff | upf-edge/src/handle_msg.rs:259-262 | the UE address is that of the first PDR with one |
| Sessions.FirstOhcIff | upf-edge/src/handle_msg.rs:263-266 | the tunnel is that of the first FAR with one |
| Sessions.SessionsFollowHistory | upf-edge/src/handle_msg.rs:535-552 | after any run a live session has the first UE address of its PDRs, and the gNB and TEID of its last accepted access-side Update FAR; before any, the gNB of its first FAR with a tunnel and the TEID allocated to it |
| Sessions.ConfigurationsFollowHistory | upf-edge/src/handle_msg.rs:360-378 | after any run a URR configuration exists exactly for the ids of the session's Create URRs; method, triggers, threshold and period are those of the last Create or Update URR with the id, cp_seid that of the session, and UR-SEQN, last report and reported threshold those of the report log |
| Numbering.ReportsDifferOnWire | upf-edge/src/urr_reporter.rs:84-93 | in any run two of any 2^24 consecutive report requests have different sequence numbers once encoded and decoded |
| Views.InstallPdrsAt | upf-edge/src/handle_msg.rs:292-318 | after the PDR loop each key of the session holds the last rule with that id, and all other keys what they held |
| Views.InstallFarsAt | upf-edge/src/handle_msg.rs:320-347 | the same for FARs, whose ids count below 2^16 |
| Views.InstallUrrsAt | upf-edge/src/handle_msg.rs:349-358 | the same for URR counters |
| Views.PatchFarsView | upf-edge/src/handle_msg.rs:508-533 | updating the FAR map is updating the session's rule list |
| Views.PatchFarsOthers | upf-edge/src/handle_msg.rs:520-533 | and changes no entry of another SEID |
| Views.PatchFarsKeys | upf-edge/src/handle_msg.rs:523-530 | updates add and remove no entry and keep every apply action and destination interface |
| Views.UnreadParts | upf-edge/src/handle_msg.rs:292-347 | the parts of compiled rules that no packet program reads |
| Views.AbsentIds | upf-edge/src/handle_msg.rs:298-303 | a PDR without a FAR or URR id names FAR 0, and no URR |
| Compiled.UpdateInForceIff | upf-edge/src/handle_msg.rs:508-533 | an Update FAR's apply action is in force after an accepted modification exactly when it was before |
| Compiled.ActionsAreFinal | upf-edge/src/handle_msg.rs:508-533 | no orderly run changes the apply action or destination interface of an installed FAR |
| Compiled.AgreedStep | upf-edge/src/handle_msg.rs:278-358 | every step of every kind keeps the maps in agreement with all live sessions' rules |
| Compiled.RunsAgree | upf-edge/src/handle_msg.rs:278-358 | so they agree after every orderly run |
| Compiled.CountedIsReferenced | upf-edge-ebpf/src/main.rs:431-477 | a packet only counts for a URR that one of its session's first eight rules names |
| Compiled.SessionMapMirrorsSessions | upf-edge/src/handle_msg.rs:267-290 | after any orderly run each live session's SESSION entry has its SEID and its current tunnel in network order, and there is no other entry |
| Compiled.SelectFarIsRuleSearch | upf-edge-ebpf/src/main.rs:150-203 | on maps in agreement the search answers what the session's own rules say |
| Compiled.ClassifierFollowsRules | upf-edge-ebpf/src/main.rs:159-202 | after any orderly run, for every live session and flow, select_far returns the patched FAR and URR id of the first lowest-precedence rule that applies, and None exactly when none applies |
| Compiled.RuleAtIsItself | upf-edge/src/handle_msg.rs:272-276 | with distinct PDR ids the rule in force is the i-th Create PDR itself |
| Rules.LastFarIsItself | upf-edge/src/handle_msg.rs:320-347 | with FAR ids distinct below 2^16 the FAR in force under an id is the listed one |
| Compiled.DistinctRulesFollowed | upf-edge-ebpf/src/main.rs:159-202 | with such ids select_far returns the FAR named by the first best fitting Create PDR of the session, and None exactly when none fits |
| Cleanup.DeleteLeavesNothingIff | upf-edge/src/handle_msg.rs:668-729 | deletion removes the SESSION entry and, exactly when the session's rules are all reachable from its first eight PDRs, every PDR, FAR and URR entry with its SEID, including entries packets created |
| Cleanup.NothingLeftBehind | upf-edge/src/handle_msg.rs:700-729 | after any run of tidy establishments every entry belongs to a live session; with no session left the four maps are empty |
| Cleanup.NoOrphansStep | upf-edge/src/handle_msg.rs:700-729 | every step of such a run keeps all entries belonging to live sessions |
| Cleanup.DeletedKeys | upf-edge/src/handle_msg.rs:674-698 | the keys deletion computes from the maps are those of the session's rules |
| Lifecycle.LifecycleLeavesNothing | smf-sim/src/scenario/basic_lifecycle.rs:26-191 | the simulator's setup, establishment, modification and deletion messages, decoded and handled, meet all hypotheses on handled requests for any addresses, ids and filter, and the maps end empty |
| Lifecycle.BasicRequests | pfcp-common/src/builder.rs:272-339 | the simulator's request with its four fixed rules, and its update of the downlink FAR, as instances of the built messages, decode to those rules |
| Lifecycle.AnswerTellsSeid | smf-sim/src/scenario/basic_lifecycle.rs:121-126 | the simulator reads from the answer the SEID its later messages carry |
| Lifecycle.ModificationMoves | smf-sim/src/scenario/basic_lifecycle.rs:146-174 | its modification is accepted and gives the session the new tunnel |
| Interleaving.OnlyOwnFars | upf-edge-ebpf/src/main.rs:168-195 | whatever map operations fall between its reads, the search only returns a FAR stored for the SEID looked up |
| Interleaving.FarHasWriter | upf-edge/src/handle_msg.rs:320-347 | every FAR ever readable under a SEID's key was stored for that SEID |
| Interleaving.HandlerOpsFit | upf-edge-common/src/lib.rs:46-47 | all operations of the handlers are on SEIDs that fit the keys |
| Interleaving.SessionEntryStaysIff | upf-edge/src/handle_msg.rs:666-729 | under any interleaving of handlers a session keeps the SESSION entry put for it exactly when no later deletion drops its UE address |
| Interleaving.DelayedDeletionIff | upf-edge/src/handle_msg.rs:666-729 | a deletion (of a session with an installed PDR) whose map work comes after operations for other SEIDs ends in the maps of the one-step deletion exactly when none of them puts or drops the SESSION entry of its UE address |
| Interleaving.EstablishOpsRekey | upf-edge/src/handle_msg.rs:287-358 | an establishment's operations are such operations, and put the entry of exactly its own UE address |
| Interleaving.DeleteOpsRekey | upf-edge/src/handle_msg.rs:700-729 | a deletion's too, and drop the entry of exactly its own session's address |
| Interleaving.ModifyOpsForeign | upf-edge/src/handle_msg.rs:519-546 | a modification's too, and put or drop none |
| Interleaving.SplitDeletion | upf-edge/src/handle_msg.rs:668-729 | map work after an establishment for the same UE address removes the new SESSION entry, keeps the new rules, and leaves exactly the old PDRs whose ids the new session's first eight do not repeat |
| Interleaving.AtomicScanIsSelect | upf-edge-ebpf/src/main.rs:163-200 | with all reads at one time the interleaved search is select_far |
| Interleaving.EstablishIsItsOps | upf-edge/src/handle_msg.rs:287-358 | an establishment's effect on the maps is its single map operations one after the other |
| Interleaving.ModifyIsItsOps | upf-edge/src/handle_msg.rs:519-546 | the same for a modification |
| Interleaving.DeleteIsItsOps | upf-edge/src/handle_msg.rs:700-729 | the same for a deletion, in any order of its id sets |
| Classifier.SelectFarLoop | upf-edge-ebpf/src/main.rs:150-203 | for any map contents: the earliest of the lowest-precedence installed, matching rules with an installed FAR and precedence below 2^32-1; None exactly when there is none |
| Classifier.BestIsUnique | upf-edge-ebpf/src/main.rs:186-198 | which determines the result |
| Classifier.DownlinkGetFar | upf-edge-ebpf/src/main.rs:531-574 | the FAR of the first installed core rule that has one |
| Classifier.FirstCoreIsBestIff | upf-edge-ebpf/src/main.rs:531-574 | that rule is the best one for a packet exactly when it matches, is not of the lowest rank, and no matching core rule has a lower precedence value |
| Decisions.FirstCoreRuleIsBestIff | upf-edge-ebpf/src/main.rs:531-574 | the same on the rules of a session |
| Decisions.TunnelOfBestForAllFlowsIff | upf-edge-ebpf/src/main.rs:685-700 | it is the best one for every flow that has one exactly when it has the least precedence value and its filter covers those of the other core rules |
| Classifier.StoredFilterAdmits | upf-edge-ebpf/src/main.rs:121-146 | an installed filter admits the flows its addresses and protocol mean, with port octets exchanged |
| Classifier.FilterFaithfulIff | upf-edge/src/handle_msg.rs:304-308 | a filter means what it says on every flow exactly when both ports read the same either way |
| Counters.UrrCount | upf-edge-ebpf/src/main.rs:249-290 | adds one packet on one CPU, creating a missing entry with it, and nothing for id 0 |
| Counters.SumPerCpu | upf-edge/src/urr_reporter.rs:29-35 | sums the per-CPU values field by field |
| Counters.ReporterTotal | upf-edge/src/urr_reporter.rs:20-59 | for any schedule over CPUs, the total for the pair split out of a key is the bytes counted for it since its entry was made, modulo 2^64 |
| Counters.ApplyAllRefines | upf-edge-ebpf/src/main.rs:256-288 | the per-CPU entries of a pair together hold what one counter for it would |
| Usage.ReportedIsForwarded | upf-edge-ebpf/src/main.rs:431-477 | in any run with URR ids 1 to 65535, that total is the bytes of the session's forwarded uplink packets won by a rule of that URR |
| Charging.VolumeIsEarned | upf-edge/src/urr_reporter.rs:20-93 | in any run whose ticks work on totals collected in it, a report carries the bytes forwarded for its session and URR by some earlier moment, and a volume report is sent only after at least the threshold was |
| Decisions.CountsFollowRules | upf-edge-ebpf/src/main.rs:431-477 | a packet of a live session adds its length for the URR of the best rule of that session's rule book, unless that rule drops or names none |
| Metering.RunIsRuled | upf-edge-ebpf/src/main.rs:431-477 | over any orderly run the counter operations are those read off the sessions' rule books, without the maps |
| Metering.TotalsFollowRules | upf-edge/src/urr_reporter.rs:20-59 | after any orderly run with URR ids 1 to 65535 the total of an entry is the bytes of the session's packets whose best rule, in its rule book, forwards them and names that URR |
| Metering.VolumeEarnedByRules | upf-edge/src/urr_reporter.rs:59-93 | in an orderly run a volume report is sent only after the best rules of its session forwarded at least the threshold for that URR |
| Reporter.CollectTotals | upf-edge/src/urr_reporter.rs:20-39 | one total per entry of the map, each the sum over its CPUs |
| Tallies.AllUsageIsDownlink | upf-edge-ebpf/src/main.rs:249-290 | in any run with URR ids 1 to 65535 an entry sums to the octets and packets counted for it as downlink, and zero uplink |
| Reporter.ReportDue | upf-edge/src/urr_reporter.rs:41-100 | the configurations, sequence counter and reports after one tick |
| Ticks.TickAnswers | upf-edge/src/urr_reporter.rs:41-100 | with a known peer a tick sends about each collected and configured URR a report exactly when a period has passed or a threshold is reached, marked so, and no other; the configurations change accordingly |
| Reports.ReportsKeepTheirPromises | upf-edge/src/urr_reporter.rs:59-90 | over any run UR-SEQN counts 0, 1, 2, ...; volume reports met their threshold, one between two Update URRs; periodic reports are at least the period in force apart |
| Reports.HistoryStep | upf-edge/src/handle_msg.rs:554-572 | every step keeps what the configurations remember of that history |
| Tlv.IterIes | pfcp-common/src/ie.rs:19-56 | the parser's loop and recursion end, with the parse of the buffer |
| Tlv.ParseCoversPrefix | pfcp-common/src/ie.rs:19-56 | for arbitrary octets the result serialises to a prefix, what is left is under four octets or declares more than is left, and every sub-element list at every depth is the parse of its value |
| Tlv.ParseIe | pfcp-common/src/builder.rs:24-28 | an element under 64 KiB parses back in front of anything |
| Parsers.NodeIdIff | pfcp-common/src/ie.rs:120-134 | a Node ID parses to an address exactly when it is of type IPv4 and carries that address |
| Parsers.TimestampIff | pfcp-common/src/ie.rs:137-144 | a time stamp parses exactly to its first four octets |
| Parsers.FseidIff | pfcp-common/src/ie.rs:147-159 | an F-SEID parses exactly, to the SEID and address in it |
| Parsers.FteidIff | pfcp-common/src/ie.rs:162-185 | an F-TEID parses to zeros exactly with the CHOOSE bit, else to the TEID and address in it |
| Parsers.UeIpIff | pfcp-common/src/ie.rs:188-202 | a UE IP address parses exactly with the IPv4 bit, to the address in it |
| Parsers.OhcIff | pfcp-common/src/ie.rs:205-214 | an outer header creation parses exactly to the TEID and address in it and port 2152 |
| Parsers.SdfIff | pfcp-common/src/ie.rs:226-240 | a filter parses exactly to the fields in it |
| Parsers.ThresholdIff | pfcp-common/src/ie.rs:299-345 | a volume threshold parses to a total exactly with the total bit, to the eight octets after it |
| Parsers.HeaderIff | pfcp-common/src/header.rs:97-149 | a header is read exactly from version 1 octets long enough for the SEID flag, field by field |
| Records.PdrRecord | pfcp-common/src/ie.rs:247-296 | from arbitrary octets each field of a PDR is that of the last element carrying it, PDI included, and the PDR fails exactly when an element is bad |
| Records.FarRecord | pfcp-common/src/ie.rs:423-480 | the same for Create and Update FAR and their forwarding groups |
| Records.UrrRecord | pfcp-common/src/ie.rs:348-394 | the same for URRs |
| GroupedIes.ParseCreatePdr | pfcp-common/src/ie.rs:247-296 | the Create PDR loop fills the record element by element and fails with the first bad element |
| GroupedIes.ParsePdi | pfcp-common/src/ie.rs:398-420 | the PDI loop, likewise |
| GroupedIes.ParseFar | pfcp-common/src/ie.rs:423-480 | the Create FAR and Update FAR loops, likewise |
| GroupedIes.ParseForwardingParams | pfcp-common/src/ie.rs:483-499 | the Forwarding Parameters loop, likewise |
| GroupedIes.ParseCreateUrr | pfcp-common/src/ie.rs:348-394 | the URR loop, likewise |
| RoundTrip.CreatePdrRoundTrip | pfcp-common/src/builder.rs:69-108 | a built Create PDR parses to its parameters, PDI included |
| RoundTrip.PdiRoundTrip | pfcp-common/src/builder.rs:75-95 | a built PDI fills interface, tunnel choice, UE address and filter as given and nothing else |
| RoundTrip.ForwardingRoundTrip | pfcp-common/src/builder.rs:174-183 | built forwarding parameters fill interface and tunnel as given and nothing else |
| RoundTrip.FseidValue | pfcp-common/src/ie.rs:147-159 | a built F-SEID parses to its SEID and address |
| RoundTrip.FteidValue | pfcp-common/src/ie.rs:162-185 | a built F-TEID parses to its TEID and address |
| RoundTrip.SdfValue | pfcp-common/src/ie.rs:226-240 | a built filter parses to itself |
| RoundTrip.FarRoundTrip | pfcp-common/src/builder.rs:168-205 | a built Create or Update FAR parses to its parameters, forwarding parameters included |
| RoundTrip.UrrRoundTrip | pfcp-common/src/builder.rs:111-166 | a built Create or Update URR parses to its parameters |
| Header.Encode | pfcp-common/src/header.rs:68-95 | the header's octets |
| Header.Decode | pfcp-common/src/header.rs:97-149 | the header a buffer starts with, or an error |
| Header.DecodeUndoesEncode | pfcp-common/src/header.rs:97-149 | decoding returns what the wire carries of a header, and the body behind it |
| Header.ConsecutiveSequenceNumbersDiffer | pfcp-common/src/header.rs:87-89 | sequence numbers fewer than 2^24 apart stay apart on the wire, across the 32-bit wrap |
| Builder.MsgBuilder.Finish | pfcp-common/src/builder.rs:17-21 | the length field is patched in place, the rest kept |
| Builder.MsgBuilder.AddIe | pfcp-common/src/builder.rs:24-28 | appends one element |
| Builder.MsgBuilder.constructor | pfcp-common/src/builder.rs:12-14 | a new message is its encoded header and no elements |
| Builder.MsgBuilder.BuildPdi | pfcp-common/src/builder.rs:75-94 | builds the PDI group inside a Create PDR |
| Builder.ParsePack | pfcp-common/src/builder.rs:207-212 | a list of built elements parses back to exactly those elements |
| Builder.MsgBuilder.AddCreatePdr | pfcp-common/src/builder.rs:69-108 | appends a Create PDR with its nested groups |
| Builder.MsgBuilder.AddFar | pfcp-common/src/builder.rs:168-205 | appends a Create or Update FAR |
| Builder.MsgBuilder.AddUrr | pfcp-common/src/builder.rs:111-166 | appends a Create or Update URR |
| Builder.MsgBuilder.AddCreatedPdr | pfcp-common/src/builder.rs:55-65 | appends a Created PDR |
| Builder.WireReadBack | pfcp-common/src/builder.rs:12-28 | a finished message decodes to its header and its elements |
| Layouts.WireLayout | pfcp-common/src/header.rs:68-95 | the octets of a message with and without SEID, length field included |
| Layouts.PdrLayout | pfcp-common/src/builder.rs:69-108 | the octets of a Create PDR with all its elements, types and lengths written out |
| Layouts.FarLayout | pfcp-common/src/builder.rs:168-205 | the octets of a Create and an Update FAR |
| Layouts.UrrLayout | pfcp-common/src/builder.rs:111-166 | the octets of a Create and an Update URR |
| Layouts.CreatedLayout | pfcp-common/src/builder.rs:55-65 | the octets of a Created PDR |
| Layouts.SetupLayout | smf-sim/src/scenario/basic_lifecycle.rs:41-46 | the octets of an association setup request |
| Layouts.EstablishLayout | pfcp-common/src/builder.rs:276-284 | the octets in front of the rules of an establishment request |
| Layouts.AnswerLayout | pfcp-common/src/builder.rs:344-362 | the octets in front of the created PDRs of an establishment response |
| Layouts.Groups | pfcp-common/src/ie.rs:19-56 | which element types are groups |
| Messages.BuildEstablish | smf-sim/src/scenario/basic_lifecycle.rs:67-117 | builds a request with any list of rules in any interleaving |
| Messages.BuildModify | smf-sim/src/scenario/basic_lifecycle.rs:148-167 | builds a modification request with any list of updates |
| Messages.EstablishRoundTrip | pfcp-common/src/messages.rs:44-87 | any such request decodes, through three levels of nesting, to its rules in order |
| Messages.ModifyRoundTrip | pfcp-common/src/messages.rs:114-145 | the same for modification requests |
| Messages.SetupAndDeleteRoundTrip | smf-sim/src/scenario/basic_lifecycle.rs:43-46 | the simulator's setup and deletion messages decode to what they ask for |
| Messages.FaithfulIff | pfcp-common/src/ie.rs:205-214 | all fields of the decoded rules are the parameters, exactly for interfaces below 16 and tunnels on port 2152 |
| Messages.BuildReply | pfcp-common/src/builder.rs:245-385 | builds every reply |
| Messages.AddCreatedPdrs | pfcp-common/src/builder.rs:359-361 | the loop over the created PDRs |
| Validator.RepliesAccepted | smf-sim/src/validator.rs:7-41 | every reply passes the simulator's check exactly for sequence numbers below 2^24 |
| Validator.BuiltValidIff | smf-sim/src/validator.rs:7-41 | any built message passes as the response to a request exactly when its type, sequence number, mandatory elements and first cause are right |
| Validator.SessionInfoExtracted | smf-sim/src/validator.rs:44-69 | the SEID and first created tunnel put in come out, or an error when there is none or an id is 0 |
| Validator.EstablishmentUnderstood | upf-edge/src/handle_msg.rs:421-432 | the UPF's answer to an accepted establishment passes, and yields SEID and tunnel exactly when a rule is for the access side |
| Checksum.IpChecksum | upf-edge-ebpf/src/gtpu.rs:65-88 | the ten additions and two folds compute the checksum |
| Checksum.TwoFoldsSuffice | upf-edge-ebpf/src/gtpu.rs:83-85 | two folds always bring the sum into 16 bits |
| Checksum.ChecksumVerifies | upf-edge-ebpf/src/gtpu.rs:65-88 | written as the big-endian check word the result makes the ones' complement sum 0xFFFF |
| Checksum.VerifiesIff | upf-edge-ebpf/src/gtpu.rs:65-88 | exactly which check words make a header verify |
| Checksum.ExchangedVerifiesIff | upf-edge-ebpf/src/main.rs:785-787 | written with octets exchanged it does so exactly when they are equal |
| Packet.N3Uplink | upf-edge-ebpf/src/main.rs:293-527 | what the uplink program does to frame, URR counters and packet statistics: pass, drop, or count and strip the outer headers |
| Frames.GpduStripped | upf-edge-ebpf/src/main.rs:293-382 | every frame put together as a G-PDU with any flags and optional part is recognised and stripped to exactly its inner packet, from the frame's source to the bridge |
| Frames.RecognisedIff | upf-edge-ebpf/src/main.rs:293-350 | which frames are recognised |
| Frames.PacketQueried | upf-edge-ebpf/src/main.rs:373-416 | both programs read the flow of a packet put together from its fields |
| Frames.PortlessQueried | upf-edge-ebpf/src/main.rs:397-416 | for other protocols than TCP and UDP the uplink program takes the ports as zero |
| Frames.ShortPacketsPassed | upf-edge-ebpf/src/main.rs:373-416 | inner packets too short for the loads are passed on, and only those make no query |
| Frames.UplinkFrames | upf-edge-ebpf/src/main.rs:293-477 | after any orderly run, what becomes of a G-PDU with a packet of a flow, in terms of the session's rules for that flow |
| Frames.DownlinkFrames | upf-edge-ebpf/src/main.rs:577-700 | after any orderly run, which downlink frames with a packet of a flow are left alone and which are dropped |
| Frames.MadeFrame | upf-edge-ebpf/src/main.rs:751-846 | a made frame is such a G-PDU to the gNB, with the packet behind a PDU session container, its outer fields written out |
| Packet.ReadOuter | upf-edge-ebpf/src/main.rs:296-367 | its loads and checks of the outer headers, one by one, find the inner packet of a G-PDU or nothing |
| Packet.ReadInner | upf-edge-ebpf/src/main.rs:369-416 | its loads from the inner packet, one by one, make the query |
| Packet.StripOuter | upf-edge-ebpf/src/main.rs:479-513 | the two head moves and three writes leave a new Ethernet header in front of the inner packet |
| Packet.Frame.AdjustHead | upf-edge-ebpf/src/main.rs:487-494 | the start of the frame moves, or stays when there is no room |
| Packet.Frame.Write | upf-edge-ebpf/src/main.rs:762-766 | octets inside the frame are overwritten, nothing else |
| Packet.N6Downlink | upf-edge-ebpf/src/main.rs:577-861 | what the downlink program does to the frame and the packet statistics: pass, drop, or encapsulate, all writes inside the frame |
| Packet.ReadPlain | upf-edge-ebpf/src/main.rs:579-626 | its loads, one by one, make the query, or nothing for what is not IPv4 or too short |
| Packet.PacketStats.Count | upf-edge-ebpf/src/main.rs:457-475 | counts one packet for an address on one CPU, creating a missing entry |
| Packet.StatsAddOne | upf-edge-ebpf/src/main.rs:457-475 | which adds one packet and its length on its side, for its address and CPU, and nothing else |
| Packet.Frame.Load | upf-edge-ebpf/src/main.rs:80-92 | the octets at an offset, exactly when all lie inside the frame |
| Packet.ChooseTunnel | upf-edge-ebpf/src/main.rs:686-700 | the tunnel: the first core rule's, else the session's own |
| Packet.WriteHeaders | upf-edge-ebpf/src/main.rs:751-846 | the header writes make the encapsulated frame |
| Packet.DecapsulationUndoes | upf-edge-ebpf/src/main.rs:370-416 | the uplink path recognises every made frame, reads the query of the packet that was put in, and strips exactly the inserted octets, so all from offset 14 survive |
| Packet.LengthsNestIff | upf-edge-ebpf/src/main.rs:772-823 | the three length fields nest exactly for inner total lengths up to 65491 |
| Packet.OuterHeaderVerifiesIff | upf-edge-ebpf/src/main.rs:773-787 | the outer header of a made frame verifies exactly when its checksum's octets are equal |
| DataPlane.DownlinkFollowsRules | upf-edge-ebpf/src/main.rs:685-846 | after any orderly run a tunnelled downlink frame carries the outer addresses and TEID the session's own rules, as last updated, ask for |
| Decisions.UplinkFollowsRules | upf-edge-ebpf/src/main.rs:418-477 | after any orderly run the uplink program passes on exactly the packets from no live session's address, and drops, or strips and counts, the others as the best rule of their session says |
| Decisions.DownlinkDropsAsRuled | upf-edge-ebpf/src/main.rs:640-700 | after any orderly run the downlink program leaves alone exactly the frames that are not IPv4 or for no live session, and drops exactly those whose best or first core rule drops |
| Decisions.DownlinkCountedAsRuled | upf-edge-ebpf/src/main.rs:660-683 | after any orderly run a downlink frame enters the statistics exactly when its destination is a live session's address and the best rule does not drop it |
| DataPlane.UplinkProgramIsStep | upf-edge-ebpf/src/main.rs:431-477 | the uplink program's counting is the runs' uplink step |
| DataPlane.EndpointOnWire | upf-edge-ebpf/src/main.rs:773-828 | a receiver reads in the frame the addresses and TEID held in network order |
| Deviations.SetupKeepsIff | upf-edge/src/handle_msg.rs:168-190 | a setup leaves a known association alone exactly for its own time stamp, and replaces it otherwise |
| Deviations.OtherNodeDeletes | upf-edge/src/handle_msg.rs:619-636 | a run in which one node deletes another's session |
| Deviations.SharedAddressLosesEntry | upf-edge/src/handle_msg.rs:726-729 | a run in which deleting a session takes away the SESSION entry of another node's |
| Deviations.OlderStampReplaces | upf-edge/src/handle_msg.rs:168-190 | a run in which an older time stamp replaces an association and strands its session |
| Deviations.HeartbeatStrands | upf-edge/src/handle_msg.rs:119-128 | a run in which a heartbeat strands a session |
| Deviations.DeletionLeavesFar | upf-edge/src/handle_msg.rs:683-723 | a run in which an accepted establishment's FAR and URR configuration outlive its session |
| Deviations.LateDeletionLosesNewSession | upf-edge/src/handle_msg.rs:666-729 | a schedule of real handlers in which a late deletion takes the SESSION entry of a new session and leaves a rule of the old |
| Deviations.NoTunnelInAnswer | smf-sim/src/validator.rs:44-69 | an accepted establishment whose answer the simulator finds no tunnel in |
| Deviations.TunnelOfFirstNotBest | upf-edge-ebpf/src/main.rs:531-574 | a run after which, for every packet, the search picks one FAR and the tunnel comes from another |
| Deviations.DropNotTakenOver | upf-edge/src/handle_msg.rs:508-533 | a run in which Update FARs ask to drop everything and every packet is still forwarded |
| Deviations.VolumeOnlyAsConfiguredIff | upf-edge/src/urr_reporter.rs:62-69 | the configurations for which some tick sends a volume report, and so those whose volume reports come only with the volume bit |
| Deviations.PeriodicOnlyReportsVolume | upf-edge/src/urr_reporter.rs:62-69 | a run of establishment, packet and tick in which a URR for periodic reports only sends a volume report |
| Deviations.PortEightyMissed | upf-edge-ebpf/src/main.rs:404-416 | a rule for port 80 misses port 80 and matches port 20480 |
| Deviations.FrameIsTunnelled | upf-edge-ebpf/src/main.rs:577-700 | a frame that the downlink program encapsulates after a run, and in which tunnel |
| Deviations.ChecksumFails | upf-edge-ebpf/src/main.rs:785-787 | the outer header it makes for that frame does not verify |
| Deviations.ConfigurationsOutliveSessions | upf-edge/src/handle_msg.rs:717-723 | no run removes a URR configuration |

## Left out

- Sockets, tasks, timers, retries, the server loop and the keepalive tasks: input and output; a message, packet or tick is one step.
- The Redis session store and the restore at start: external; runs start without restored sessions.
- `ip route` and `ip neigh` commands, MAC learning, XDP attach and program loading: operating system calls.
- Map capacity and insert errors, `bpf_redirect`, interface indexes and missing gateway MAC entries: foreign; inserts succeed and the MAC tables are filled.
- The poller that turns STATS_MAP into metrics: metrics are left out.
- Fields that nothing modelled reads: qfi, qer_id, last_activity, the heartbeat trackers, the association state.
- Both text interfaces, logging, metrics, configuration and command parsing.
- The simulator's allocators, its other scenarios, and the heartbeats within the one in `Lifecycle`: only easy members.
- `uplink_check_far`: never called.
- The body of Session Report Requests beyond the header: built by the UPF, parsed by nobody here; its values are the fields of `Reporter.Report`.
- Arithmetic overflow checks of debug builds: wrapping is modelled.
- PfcpServers.PfcpServer.FindBySource: the lookup may answer with any matching association, as the order of the hash map is unknown.
- PfcpServers.PfcpServer.HandleDeletion: its two parts in one step; the code gives up the server lock between them, and `ForgetSession`, `RemoveRules` and `Interleaving.DelayedDeletionIff` say what each does and when the gap matters.
- Compiled.SessionMapMirrorsSessions: for handlers that run one at a time; a deletion split by an establishment of the same UE address can drop the new entry (`Deviations.LateDeletionLosesNewSession`).
- Usage.ReportedIsForwarded: the counted rule is the one found in the maps; `Metering.TotalsFollowRules` reads it off the rule books.
- GroupedIes.ParseFar: one loop for the two source functions, which differ in one constant.
