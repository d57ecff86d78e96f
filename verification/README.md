# Verification model of pf, CARP and sasyncd's base64

A Dafny model of five parts of the repository and proofs of what they are for. Each
module follows one component. The code changes things step by step, so most
operations appear twice: as a function on values, about which the properties are
proved, and as a method of a class or on an array, with the source's loops, proved
equal to that function.

* **Rule evaluation** (`PfRules`, `AnchorWalk`, `AnchorMeaning`, `TranslationScan`). Skip
  steps and the explicit anchor stack are a fast form of "look at the rules one after the
  other, enter anchors recursively, the last match wins". `AnchorWalk.MatchRules` is the
  loop; it is proved equal to the recursive evaluator, for every anchor graph, and so ends.
* **States, translation, checksums** (`StateTable`, `StateIndexes`, `Nat`, `AddressPool`,
  `AddressBits`, `PortLoop`, `PortSearch`, `Checksum`, `RefCounts`, `RefSuccess`,
  `RefExpiry`, `RefRuns`, `RefLeaks`, `RefStore`). The comparators, the agreement of the
  trees and lists, address and port allocation, incremental checksums, and the reference
  counts over every creation, failure, expiry and unlinking.
* **Loading rules** (`Rulesets`, `Tickets`, `LostRulesets`, `Callers`, `RulesetLoader`,
  `AnchorNames`, `Tags`). Tickets and when they are out of date, the two-phase commit,
  requests that free the ruleset they work on, what the references to a ruleset count, the
  anchor tree with its name parser and printer, tag numbers.
* **CARP** (`Carp`, `CarpHandlers`, `CarpHost`, `CarpElection`, `CarpPreempt`,
  `CarpSegments`). One interface as a state machine with three callouts, all interfaces of
  a host, and several hosts on a segment.
* **Base64** (`Base64`). Encoder and strict decoder over buffers.

`Options` holds the option type they share. `dafny verify dfyconfig.toml` checks all.

## Where the code falls short

Some properties one would expect hold only under a condition. Each has a lemma that
gives the exact condition or an input on which the code fails.

* Inbound BINAT rules are read backwards, but their skip pointers are not: a translation
  list may be scanned by skip pointers exactly when the direction is not inbound or all
  or none of its rules are BINAT (`TranslationScan.SkipsAreSafeExactly`).
* An anchor name that was printed does not always read back: a wildcard on an ancestor,
  a climb to the root into an anchor called `..`, and a plain anchor called `*`
  (`AnchorNames.PrintReadsBackExactly`).
* DIOCXCOMMIT checks every entry first, but an entry named twice passes the check and
  fails in the second pass (`RulesetLoader.CommitAllSucceedsExactly`).
* Undoing a translation restores every UDP checksum, and any other one exactly if it is
  neither 0 nor 0xFFFF (`Checksum.UndoUdp`, `Checksum.UndoOtherExactly`).
* A rule may call the ruleset it stands in, or one whose removal reaches it. Removing the
  last such rule by DIOCCHANGERULE frees the ruleset, whose list is then renumbered; and
  `pf_begin_rules` goes on flushing a ruleset that its own last rule has freed
  (`LostRulesets.ChangeLosesExactly`, `LostRulesets.BeginLosesExactly`, and a run to each:
  `LostRulesets.RemovalOfSelfCallLoses`, `LostRulesets.BeginAfterLateAddLoses`). What holds
  of runs is proved of those in which this does not happen.
* A source at its rule's `max_src_states` gets one more state when the search for a port
  has failed but a filter rule passes the packet (`RefCounts.CreateWithinExactly`,
  `RefRuns.LimitIsOverrun`).
* A failed creation removes the source nodes it has made, but not from their rule's count;
  a rule whose count has reached its limit in this way refuses every new source for ever
  (`RefLeaks.CreateLeaksExactly`, `RefLeaks.StarvedForever`, `RefLeaks.StarvedIsReached`).
* A rule that has left its list and is kept only by source nodes is freed with the last
  one exactly when it has no limit on source nodes; with one it is never freed
  (`RefRuns.LastNodeFreesExactly`, `RefRuns.OrphanForever`, `RefRuns.OrphanIsReached`).
* A port search on a pool whose turn is at the zero address ends after that one address,
  even if ports are free at the others (`PortSearch.FailureIsExhaustionExactly`,
  `PortSearch.ZeroFirstStopsSearch`).
* A port range that ends at 65535 or starts at 0 makes the 16-bit loop variable wrap: the
  search tries ports outside the range, and never ends if all are taken
  (`PortLoop.LoopsEndExactly`, `PortSearch.SearchEndsExactly`, `PortSearch.WrapLeavesRange`).
* A search for a source whose address a source node remembers tries that address only, and
  when it fails the node remembers one that was not tried
  (`PortSearch.StickyFailureIsExhaustionExactly`, `PortSearch.GetSport`).
* The ICMPv6 checksum of an error that quotes a UDP packet is taken for a UDP checksum, and
  is not kept right when it is 0 (`Checksum.IcmpError.Change6`, `Checksum.AlwaysKeptExactly`).
* The quoted TCP or UDP checksum of an ICMP error is fixed for the port but not for the
  address: it stays right exactly if old and new address have the same one's complement
  sum (`Checksum.QuotedSumKeptExactly`).
* A ruleset that is removed and created anew starts its tickets anew, so that a loader's
  old ticket is taken for the new load; and a commit makes the load's ticket that of the
  active list, where a ticket fetched for the list before may be the same number
  (`Tickets.LoadOutdatedExactly`, `Tickets.CommitResetsTicket`, and a run to each:
  `Tickets.RemovalReusesTickets`, `Tickets.LoadReusesChangeTicket`).
* A tag name as long as its field or longer is not found again by that name
  (`Tags.FoundAgainExactly`, `Tags.LongNameGetsTwoIds`).
* A CARP master that finds no packet tag when its advertisement is due is left without an
  advertisement callout (`Carp.AdTimeoutAliveExactly`); an advertisement sent for another
  reason restores it (`Carp.ResendRevives`).
* An interface that is destroyed while its advertisements fail leaves its part of
  `carp_suppress_preempt` behind, and the host never preempts again
  (`CarpHost.SuppressedExactly`, `CarpHost.DestroyedWhileFailing`).
* The CARP election needs more than the best node to be heard. It stays the only master
  over all runs exactly if every other node waits longer than its interval and no callout
  is loose: none in a family it is silent in, and none left from earlier in a family in
  which a master has no address and so does not arm it when it steps down
  (`CarpElection.SoleMasterExactly`; `CarpSegments.SilenceSplits`,
  `CarpSegments.LeftoverSplits`, `CarpSegments.StaleIsReached`).

## Model

| member | source | states |
|---|---|---|
| `PfRules.SkipTarget` | patches/misc/pf.c:1299-1347 | where the run of rules with an equal field group ends: no neighbour before it differs, and it does differ from its neighbour |
| `PfRules.SkipTargetUnique` | patches/misc/pf.c:1299-1347 | that end is the only such place |
| `PfRules.SameFieldSameTest` | patches/misc/pf.c:1307-1371 | two rules that agree on a field group, compared as `pf_calc_skip_steps` and `pf_addr_wrap_neq` compare them, fail or pass the packet's test of that group together, unless one is read backwards |
| `PfRules.SkippedAreRejected` | patches/misc/pf.c:3008-3077 | every rule jumped over would have been rejected |
| `PfRules.SetSkipSteps` | patches/misc/pf.c:1299-1305 | the macro `PF_SET_SKIP_STEPS` sets the pointers of one finished run and leaves all else alone |
| `PfRules.CalcSkipSteps` | patches/misc/pf.c:1307-1347 | in place, for all eight groups, every rule's pointer is the end of its own run in the list, and nothing but pointers changes |
| `PfRules.Try` | patches/misc/pf.c:3008-3066 | a pass through the loop body jumps exactly when some test with a skip pointer fails, and then along the pointer of a test that fails |
| `PfRules.PortOperators` | patches/misc/pf.c:1873-1906 | each port operator in terms of equal and less: ranges, exclusive ranges and their complements |
| `PfRules.HitsExactly` | patches/misc/pf.c:3008-3066 | a rule is hit if and only if each of its tests, taken alone, allows the packet, an inbound BINAT rule the other way round; and which tag and how many random draws that leaves |
| `AnchorWalk.EvaluateLastMatch` | patches/misc/pf.c:3066-3080 | the recursive evaluator returns the last rule that matched; in the filter a match is of a `quick` rule if and only if it is the last and has ended the evaluation; in translation there is one match at most |
| `AnchorWalk.EnterCall` | patches/misc/pf.c:1970-2000 | pushing the frame of a call leaves the rest of the evaluation the same, in the recursive sense |
| `AnchorWalk.LeaveKeepsRest` | patches/misc/pf.c:2002-2028 | so does going on to the next child or popping a frame; and work is used up |
| `AnchorWalk.JumpKeepsRest` | patches/misc/pf.c:3008-3077 | so does following a skip pointer, though the evaluator never jumps |
| `AnchorWalk.EnterCallWeight` | patches/misc/pf.c:1976-2000 | a call uses up work even when anchors call each other in a circle, since the stack ends at 64 |
| `AnchorWalk.WeightJump` | patches/misc/pf.c:3008-3077 | jumping ahead never adds work |
| `AnchorWalk.Walker.StepInto` | patches/misc/pf.c:1970-2000 | the new stack, ruleset and rule for a call, a wildcard call with and without children, and a full stack |
| `AnchorWalk.Walker.StepOut` | patches/misc/pf.c:2002-2028 | in place, finds the next rule to look at without changing what is left to evaluate |
| `AnchorWalk.MatchRules` | patches/misc/pf.c:3008-3080 | the match loop with skip pointers and stack ends and records the same matches in the same order, with the same outermost anchor and ruleset, as the recursive evaluator |
| `AnchorMeaning.LastOfListWins` | patches/misc/pf.c:3008-3080 | without anchors: a rule is recorded if and only if it is hit and no rule before it has ended the evaluation, and the rule found is the last of these |
| `AnchorMeaning.CallIsInlining` | patches/misc/pf.c:1970-2028 | an anchor rule that is hit stands for the rules of its ruleset, under a wildcard for those of the children in order: what is recorded and carried on is what one list of them would give |
| `AnchorMeaning.MatchesNameTheirAnchor` | patches/misc/pf.c:1970-2028 | a match in an anchor names the rule of the main list through which it was entered, a match in the main list none |
| `AnchorMeaning.CircleIsCut` | patches/misc/pf.c:1976-1982 | an anchor that calls itself is entered 64 times |
| `TranslationScan.JumpScanIsPlainScan` | patches/misc/pf.c:2427-2476 | a translation lookup along skip pointers finds the rule a plain scan finds, if the list is read one way round |
| `TranslationScan.SkipsAreSafeExactly` | patches/misc/pf.c:2432-2476 | ... for all lists with given actions and all packets, if and only if the direction is not inbound or all or none are BINAT |
| `StateTable.LanExtTotalOrder` | patches/misc/pf.c:427-492 | `pf_state_compare_lan_ext` is antisymmetric, transitive, and 0 exactly on equal protocol, family, addresses of that family and ports |
| `StateTable.ExtGwyTotalOrder` | patches/misc/pf.c:499-564 | the same for `pf_state_compare_ext_gwy` |
| `StateTable.IdTotalOrder` | patches/misc/pf.c:571-584 | the same for `pf_state_compare_id` |
| `StateTable.CompareHostsIsLex` | patches/misc/pf.c:427-564 | the host comparators agree in sign with the lexicographic order of the key words |
| `StateIndexes.InsertRefused` | patches/misc/pf.c:881-958 | `pf_insert_state` refuses exactly when one of the three keys is taken, and then leaves trees, list and counter as they were |
| `StateIndexes.IdsGiven` | patches/misc/pf.c:924-927 | a state without id gets the counter and the host, any other keeps its id; the counter goes up once for each that gets as far as the id tree |
| `StateIndexes.IdRefusedExactly` | patches/misc/pf.c:924-947 | such a state is refused by the id tree if and only if the counter has come round to the id of a live state of this host |
| `StateIndexes.NeverRefusedById` | patches/misc/pf.c:881-958 | so over every run of fewer than 2^64 requests, whatever states of other hosts come in, it is refused if and only if one of its host keys is taken |
| `StateIndexes.InsertAgrees` | patches/misc/pf.c:881-958 | an insertion, refused or not, keeps the four indexes in agreement |
| `StateIndexes.PurgeAgrees` | patches/misc/pf.c:1085-1126 | so does a purge, which removes that state and no other |
| `StateIndexes.RunAgrees` | patches/misc/pf.c:881-1139 | and so does every run of insertions and purges |
| `StateIndexes.SameStatesEverywhere` | patches/misc/pf.c:881-958 | indexes that agree hold the same states, as many as `pf_status.states` says |
| `StateIndexes.FirstHitExactly` | patches/misc/pf.c:625-651 | a look-up along an interface, its group and `any` fails exactly when none of them has the key |
| `StateIndexes.FindRecurse` | patches/misc/pf.c:625-651 | the loop of `pf_find_state_recurse` finds the first hit |
| `StateIndexes.FindAll` | patches/misc/pf.c:654-690 | `pf_find_state_all` finds a state if and only if some interface has one with the key, and adds to the count the number of live states that have it |
| `StateIndexes.StateStore.InsertHostKeys` | patches/misc/pf.c:884-922 | both host trees take the state or neither does |
| `StateIndexes.StateStore.TakeId` | patches/misc/pf.c:924-927 | a state without id gets the next one, and the trees hold it with that id |
| `StateIndexes.StateStore.InsertState` | patches/misc/pf.c:881-958 | the insertion in place, step by step with its roll-backs, is the insertion specified |
| `StateIndexes.StateStore.PurgeState` | patches/misc/pf.c:1085-1126 | the same for the purge |
| `StateIndexes.StateStore.PurgeExpired` | patches/misc/pf.c:1128-1139 | the walk over the id tree, in place, where whether a state has expired may depend on the states left by then |
| `StateIndexes.WalkPurgesExpired` | patches/misc/pf.c:990-1139 | if fewer states never make one expire sooner: each state purged had expired when the walk began, and none it leaves has expired when it ends |
| `Nat.KeysAreUnique` | patches/misc/pf.c:881-922 | no two live states of one interface share an outside key, or an inside key |
| `Nat.LiveStateRewrites` | patches/misc/pf.c:4270-4284 | a packet that matches a live state is found by it and rewritten by it |
| `Nat.NatInverts` | patches/misc/pf.c:4270-4684 | translating a packet by its state, swapping its ends and translating it the other way gives the original packet, swapped |
| `Nat.NewStateMatches` | patches/misc/pf.c:3194-3218 | the state a translated packet leaves matches that packet and rewrites it to the same translation |
| `Nat.UntranslatedPasses` | patches/misc/pf.c:3194-3218 | the state of a packet without translation rewrites nothing |
| `Nat.FlowKeepsTranslation` | patches/misc/pf.c:3194-3218 | as long as that state lives, later packets of the flow get the same translation and replies are mapped back |
| `Nat.TestState` | patches/misc/pf.c:4270-4684 | look-up and rewriting in sequence do that |
| `AddressPool.AddrInc` | patches/misc/pf.c:2056-2085 | on words in network byte order, `pf_addr_inc` adds one modulo 2^32 or 2^128 |
| `AddressPool.InBlockExactly` | patches/misc/pf.c:1833-1866 | equal network parts mean lying in the block |
| `AddressBits.OnWordsValue` | patches/misc/pf.c:1833-2053 | a bitwise operation on the words of two addresses in network byte order is that operation on the addresses |
| `AddressBits.MatchAddr` | patches/misc/pf.c:1833-1866 | `pf_match_addr`, by and on the words: with a prefix mask the network parts are equal, or with the negation they are not |
| `AddressBits.PoolMaskInto` | patches/misc/pf.c:2032-2053 | `pf_poolmask`, by and, xor and or on the words: with a prefix mask the network part of one address and the host part of the other |
| `AddressPool.PoolMaskExactly` | patches/misc/pf.c:2032-2053 | that is an address of the block, with the host part of the other operand |
| `AddressPool.AddressGiven` | patches/misc/pf.c:2202-2315 | for each pool type the address given: the block's own, or the one of the block with the host part of source, hash, counter or draw, or the counter while in the block and else the next block's first; and the cursor after |
| `AddressPool.AddressRemembered` | patches/misc/pf.c:2155-2321 | when a source node's address is given, and what the node holds afterwards |
| `AddressPool.NextIsAt` | patches/misc/pf.c:2263-2311 | one round-robin result is the next address of the concatenated blocks, and the cursor moves on by one |
| `AddressPool.RoundRobinIsFair` | patches/misc/pf.c:2263-2311 | from any counter and whoever asks, as many calls of `pf_map_addr` as there are addresses give the concatenated blocks, rotated |
| `AddressPool.RoundRobinGivesEachOnce` | patches/misc/pf.c:2263-2311 | if blocks do not overlap those calls give each address once |
| `AddressPool.Pool.NextAddress` | patches/misc/pf.c:2202-2315 | the choice of an address in `pf_map_addr` for all five pool types, in place |
| `AddressPool.Pool.NextFor` | patches/misc/pf.c:2145-2321 | `pf_map_addr` with the address that a source node remembers, or comes to remember |
| `PortLoop.LoopsEndExactly` | patches/misc/pf.c:2371-2389 | with all ports taken the two loops over a range come to an end if and only if the range touches neither 0 nor 65535 |
| `PortSearch.SearchEndsExactly` | patches/misc/pf.c:2371-2389 | for any table they end if and only if that is so or some port is free, in the range or not |
| `PortSearch.SearchPorts` | patches/misc/pf.c:2345-2391 | the search at one address gives the first free port in the order of the loops, in the range unless the variable wraps, or every port is taken |
| `PortSearch.CandidatesExactly` | patches/misc/pf.c:2345-2391 | the ports meant: the range with both ends in either order, the packet's own without a range, the destination's for other protocols |
| `PortSearch.WrapLeavesRange` | patches/misc/pf.c:2371-2380 | a table for which a search for 65534:65535 gives port 0 though 65534 is free |
| `PortSearch.GetSport` | patches/misc/pf.c:2326-2409 | fails if and only if every port is taken at every address tried, which is the remembered one alone if there is one; a success gives one of these addresses and a port of the range whose outside key no state of any interface has; where the variable wraps, the first free port at the first address; and what the source node remembers then |
| `PortSearch.TriesStayInPool` | patches/misc/pf.c:2326-2409 | every address tried is the remembered one or one of the pool's blocks |
| `PortSearch.NextOfCycle` | patches/misc/pf.c:2394-2406 | the addresses tried are the pool's cycle in order |
| `PortSearch.CycleCoversPool` | patches/misc/pf.c:2145-2321 | the cycle has every address of the pool once |
| `PortSearch.AllTriedExactly` | patches/misc/pf.c:2336-2406 | the addresses tried are all of the cycle if and only if it does not begin with the zero address, or has no other |
| `PortSearch.FailureIsExhaustionExactly` | patches/misc/pf.c:2326-2409 | that is also exactly when a failed search, on whatever table, means that every port of the whole pool is taken |
| `PortSearch.StickyFailureIsExhaustionExactly` | patches/misc/pf.c:2326-2409 | with a remembered address it means that exactly when the pool has no other |
| `PortSearch.ZeroFirstStopsSearch` | patches/misc/pf.c:2326-2409 | a pool and a table for which the search fails although its port is free at the second address |
| `PortSearch.FoundKeyGoesIn` | patches/misc/pf.c:3194-3218 | the state made for what was found meets no refusal from the outside tree of any interface |
| `Checksum.CksumFixup` | patches/misc/pf.c:1373-1386 | with its 32-bit variable, `pf_cksum_fixup` is the fixup specified |
| `Checksum.Fixup` | patches/misc/pf.c:1373-1386 | congruent to checksum + old - new modulo 0xFFFF, and for UDP 0 exactly when it was 0 |
| `Checksum.ValidSumIsMultiple` | patches/misc/pf.c:1373-1386 | a one's complement checksum is right exactly when the words add up to a positive multiple of 0xFFFF |
| `Checksum.FixupAllKeepsValid` | patches/misc/pf.c:1388-1443 | a chain of fixups keeps a right checksum right, whatever else the message holds |
| `Checksum.UndoUdp` | patches/misc/pf.c:3094-3105 | undoing restores every UDP checksum |
| `Checksum.UndoOtherExactly` | patches/misc/pf.c:3094-3105 | and another one for all rewrites if and only if it is neither 0 nor 0xFFFF |
| `Checksum.End.ChangeAp` | patches/misc/pf.c:1388-1443 | `pf_change_ap` sets address and port and keeps IPv4 and TCP/UDP checksums right; an absent UDP checksum stays absent, a present one present |
| `Checksum.End.ChangeAndUndo` | patches/misc/pf.c:3094-3105 | the roll-back of a refused packet restores address, port and checksums |
| `Checksum.IcmpError.Change` | patches/misc/pf.c:1468-1533 | `pf_change_icmp` for AF_INET keeps the outer IP, the quoted IP and the ICMP checksum right, although the quoted checksums change under the last one |
| `Checksum.IcmpError.Change6` | patches/misc/pf.c:1468-1551 | for AF_INET6 it keeps the ICMPv6 checksum right, unless the quoted packet is UDP and the checksum is 0 after the change of the port: then it stays 0 |
| `Checksum.QuotedSumKeptExactly` | patches/misc/pf.c:1468-1499 | the quoted TCP or UDP checksum, which is fixed for the port only, is right after address and port have changed if and only if the two addresses have the same one's complement sum |
| `Checksum.AlwaysKeptExactly` | patches/misc/pf.c:1373-1386 | fixups keep every message right if and only if they are not UDP fixups of a checksum 0 |
| `RefCounts.FilterNodeFacts` | patches/misc/pf.c:3150-3156 | the node found for the filter rule is the one of its own key, and no node is lost |
| `RefCounts.NodesFound` | patches/misc/pf.c:3150-3164 | the nodes of a new state belong to its two rules or, without translation, to the rule whose pool was asked in vain, and no others are made; both rules have room for one more state, but not so the rule asked in vain |
| `RefCounts.InsertInv` | patches/misc/pf.c:817-878 | `pf_insert_src_node` keeps all counts |
| `RefCounts.IncrementDecrement` | patches/misc/pf.c:322-338 | `STATE_DEC_COUNTERS` undoes `STATE_INC_COUNTERS` |
| `RefCounts.HeldNodes` | patches/misc/pf.c:3253-3262 | each node of a new state is counted once, also when source node and translation node coincide |
| `RefCounts.CreateInv` | patches/misc/pf.c:3145-3295 | a creation that succeeds or fails anywhere keeps: rule counts equal to live uses, node counts to live holders, nobody naming what is not there, no filter rule above `max_states`, no rule above `max_src_nodes` |
| `RefSuccess.CreateSucceedsExactly` | patches/misc/pf.c:3145-3295 | a packet gets its state if and only if fewer live states than `max_states` name its rule, each source node its rules ask for is held by fewer than `max_src_states` live states or can be made, there is memory, and normalization and insertion succeed |
| `RefSuccess.CreatedState` | patches/misc/pf.c:3150-3262 | that state names the three rules of the packet and these source nodes, and all other states stay |
| `RefCounts.CreateWithinExactly` | patches/misc/pf.c:3145-3295 | and it keeps all nodes within `max_src_states` if and only if it fails or does not come from a port search in vain that found a full node |
| `RefCounts.RefusalRollsBack` | patches/misc/pf.c:3145-3295 | a failed creation leaves states and all counts as they were, and before the state is made leaves no node behind |
| `RefExpiry.PurgedRules` | patches/misc/pf.c:1108-1117 | a purge takes one use from each rule named and frees a rule exactly when that was its last use, it has no source node and is on no list |
| `RefExpiry.PurgeStateInv` | patches/misc/pf.c:1085-1126 | and keeps all counts |
| `RefExpiry.PurgeNodeInv` | patches/misc/pf.c:1031-1052 | so does the expiry of a source node |
| `RefExpiry.UnlinkInv` | patches/misc/pf_ioctl.c:812-856 | `pf_rm_rule` keeps all counts: a rule in use stays |
| `RefExpiry.ClearedInv` | patches/misc/pf_ioctl.c:3115-3131 | so does DIOCCLRSRCNODES |
| `RefExpiry.RunInv` | patches/misc/pf.c:1031-1126 | and every run of all these: no live state or source node ever names a freed rule or node |
| `RefExpiry.StepLingers` | patches/misc/pf.c:1054-1082 | a node that no state holds waits for an expiry: each step keeps that |
| `RefRuns.RunLingers` | patches/misc/pf.c:1054-1082 | and so does every run, from the empty world |
| `RefRuns.StepWithinExactly` | patches/misc/pf.c:1031-3295 | of all steps only such a creation takes a node above `max_src_states` |
| `RefRuns.RunWithin` | patches/misc/pf.c:1031-3295 | a run without one keeps all nodes within it |
| `RefRuns.LimitIsOverrun` | patches/misc/pf.c:3150-3262 | a source limited to one state that gets a second |
| `RefRuns.LastNodeFreesExactly` | patches/misc/pf.c:1038-1046 | an unlinked rule kept by one source node is freed with it if and only if it has no limit on source nodes; with one it is left with no use and on no list |
| `RefRuns.OrphanForever` | patches/misc/pf.c:1031-1126 | and stays so over every run in which packets match rules on lists |
| `RefRuns.OrphanIsReached` | patches/misc/pf.c:1031-3295 | a run from the empty world that leaves such a rule |
| `RefLeaks.CreateLeaksExactly` | patches/misc/pf.c:3165-3182 | a creation takes a rule's `src_nodes` above the number of its nodes by exactly the nodes it has made for it, if it ends at the label `cleanup`, and else not at all |
| `RefLeaks.StarvedRefuses` | patches/misc/pf.c:834-842 | a rule whose `src_nodes` is at the limit although it has no node refuses every packet that needs one |
| `RefLeaks.StarvedForever` | patches/misc/pf.c:1031-3295 | and stays so over every run |
| `RefLeaks.StarvedIsReached` | patches/misc/pf.c:3165-3182 | a run from the empty world that makes such a rule |
| `RefStore.Accounts.FindOrInsertSrcNode` | patches/misc/pf.c:817-878 | `pf_insert_src_node` in place |
| `RefStore.Accounts.DropUnused` | patches/misc/pf.c:3168-3182 | the label `cleanup` in place |
| `RefStore.Accounts.RemoveStateFromNodes` | patches/misc/pf.c:1054-1082 | `pf_src_tree_remove_state` in place |
| `RefStore.Accounts.CreateState` | patches/misc/pf.c:3145-3295 | the creation in place, with its ways to fail |
| `RefStore.Accounts.PurgeExpiredState` | patches/misc/pf.c:1085-1126 | the purge in place |
| `RefStore.Accounts.PurgeExpiredSrcNodes` | patches/misc/pf.c:1031-1052 | the walk over the source nodes removes exactly the expired ones nobody holds, and keeps all counts |
| `RefStore.Accounts.ClearSrcNodes` | patches/misc/pf_ioctl.c:3115-3131 | afterwards there is no source node and no state holds one, and all counts are exact |
| `RefStore.Accounts.RemoveRule` | patches/misc/pf_ioctl.c:812-856 | `pf_rm_rule` with and without a queue |
| `Rulesets.RemoveShrinks` | patches/misc/pf_ioctl.c:640-666 | removing empty rulesets upwards removes only rulesets without rules or open loads, and touches no other's lists |
| `Rulesets.RemovesUnneeded` | patches/misc/pf_ioctl.c:640-666 | it removes its ruleset if and only if there is nothing in it, nothing below it and no call of it, and upwards only what becomes so |
| `Rulesets.NoneStaysUnneeded` | patches/misc/pf_ioctl.c:1234-1845 | no commit and no change leaves such a ruleset behind |
| `Rulesets.BeginEffect` | patches/misc/pf_ioctl.c:1197-1213 | `pf_begin_rules` empties the inactive list, opens it under the next ticket, and changes no other list; or it loses its ruleset |
| `Rulesets.RollbackEffect` | patches/misc/pf_ioctl.c:1215-1231 | `pf_rollback_rules` empties and closes it, and changes no other list |
| `Rulesets.CommitEffect` | patches/misc/pf_ioctl.c:1233-1265 | `pf_commit_rules` under the right ticket succeeds, makes the inactive list active, and changes no other list; the ruleset goes only when nothing was loaded |
| `Rulesets.ChangedAtNumber` | patches/misc/pf_ioctl.c:1778-1820 | a change puts or takes the rule exactly where its number says, and keeps the order of the others |
| `Rulesets.InstallEffect` | patches/misc/pf_ioctl.c:1821-1845 | the end of DIOCCHANGERULE: the removed rule freed, then the list renumbered with its own pointers under a new ticket; the ruleset goes only when it is empty |
| `Rulesets.WithSkipsOk` | patches/misc/pf_ioctl.c:1837-1845 | a renumbered list has its positions as numbers and its own skip pointers |
| `Rulesets.CommitLoadsWhatWasAdded` | patches/misc/pf_ioctl.c:1233-1265 | a commit succeeds exactly under the ticket of an open load, and makes active exactly the rules accepted under it |
| `Rulesets.AddInv` | patches/misc/pf_ioctl.c:1438-1578 | DIOCADDRULE keeps the loader's beliefs about all lists true |
| `Rulesets.ChangeInv` | patches/misc/pf_ioctl.c:1655-1845 | so does DIOCCHANGERULE unless it loses its ruleset, and the active list stays numbered with its own pointers |
| `Rulesets.RunKeepsInv` | patches/misc/pf_ioctl.c:1197-1845 | so does every run of requests in which none loses its ruleset |
| `Rulesets.AnyRunLoadsWhatWasAdded` | patches/misc/pf_ioctl.c:1197-1845 | after any such run from the start: every active list is numbered with its own skip pointers, and a commit makes active exactly what was added under its ticket |
| `Rulesets.OnlyRightTicketTouches` | patches/misc/pf_ioctl.c:1197-1845 | no other request changes an active list, in particular none with an outdated ticket |
| `Tickets.TicketsCount` | patches/misc/pf_ioctl.c:1198-1845 | over every run in which its ruleset is not removed, the two tickets of a list are what the answers to its requests count, modulo 2^32 |
| `Tickets.LoadOutdatedExactly` | patches/misc/pf_ioctl.c:1198-1255 | a load's ticket is out of date if and only if the load has been begun again since, but 2^32 times; then rules and commits under it are refused and a rollback does nothing |
| `Tickets.TwoLoadsTwoTickets` | patches/misc/pf_ioctl.c:1198-1255 | two begins of one list are never answered with one ticket, but 2^32 begins apart |
| `Tickets.TicketFetched` | patches/misc/pf_ioctl.c:1683-1688 | a request for the ticket is answered with the one that is current from then on |
| `Tickets.ChangeOutdatedExactly` | patches/misc/pf_ioctl.c:1655-1845 | until the next load a change under a ticket is refused if and only if the list has been changed, or its ticket fetched, since it was current |
| `Tickets.CommitResetsTicket` | patches/misc/pf_ioctl.c:1234-1278 | a commit makes the load's ticket that of the active list: one fetched before works on the new list exactly if it is that number |
| `Tickets.AddedExactly` | patches/misc/pf_ioctl.c:1438-1578 | when a rule is taken, where it goes, and that no other list changes |
| `Tickets.ChangeRefusedExactly` | patches/misc/pf_ioctl.c:1655-1845 | when a change is refused |
| `Tickets.RemovalReusesTickets` | patches/misc/pf_ioctl.c:1234-1278 | a run in which a ruleset goes and comes again, and a stale loader's ticket is taken in the new load |
| `Tickets.LoadReusesChangeTicket` | patches/misc/pf_ioctl.c:1655-1690 | a run in which a ticket fetched for one list works on the list loaded after it |
| `LostRulesets.RemovedExactly` | patches/misc/pf_ioctl.c:640-666 | removing an empty ruleset upwards removes exactly the rulesets up to which nothing is left |
| `LostRulesets.TakenExactly` | patches/misc/pf_ioctl.c:812-856 | freeing a rule takes a ruleset along exactly when the rule is not in use, is the last to call its anchor, and the emptiness goes up from there to that ruleset |
| `LostRulesets.ChangeLosesExactly` | patches/misc/pf_ioctl.c:1821-1845 | DIOCCHANGERULE goes on with a freed ruleset exactly when it removes, under the right ticket, a rule that takes its own ruleset along |
| `LostRulesets.BeginLosesExactly` | patches/misc/pf_ioctl.c:1197-1213 | `pf_begin_rules` does exactly when the last rule it flushes takes the ruleset along |
| `LostRulesets.RemovalOfSelfCallLoses` | patches/misc/pf_ioctl.c:1197-1845 | begin, add a rule that calls its own anchor, commit, remove it: a run to the first |
| `LostRulesets.BeginAfterLateAddLoses` | patches/misc/pf_ioctl.c:1197-1578 | begin, roll back, add such a rule under the old ticket, begin: a run to the second |
| `Callers.RunCounted` | patches/misc/pf_ioctl.c:668-1845 | over every run of requests whose rules name rulesets that are there, each ruleset's `refs` is the number of rules that call it, on active and inactive lists or off them but in use |
| `Callers.InitialCounted` | patches/misc/pf_ioctl.c:668-1845 | that holds at the start |
| `Callers.NoCallDangles` | patches/misc/pf_ioctl.c:772-856 | so no rule anywhere calls a ruleset that has been freed |
| `Callers.LastToCallExactly` | patches/misc/pf_ioctl.c:772-784 | and for a rule off its list one reference left says just that no other rule calls its anchor |
| `RulesetLoader.CommitAllSucceedsExactly` | patches/misc/pf_ioctl.c:3018-3060 | on lists that are all open the second pass succeeds if and only if no list is named twice |
| `RulesetLoader.CommitAllLoads` | patches/misc/pf_ioctl.c:3018-3060 | it makes each list named active and touches no other |
| `RulesetLoader.XCommitAllOrNothing` | patches/misc/pf_ioctl.c:2966-3062 | on entries for distinct lists DIOCXCOMMIT changes nothing, or commits all of them |
| `RulesetLoader.XCommitLoadsWhatWasAdded` | patches/misc/pf_ioctl.c:2966-3062 | each list committed becomes exactly the rules accepted under its ticket, numbered, with its own skip pointers |
| `RulesetLoader.SkipSteps` | patches/misc/pf_ioctl.c:1249-1255 | the skip pointers computed on an array are those specified |
| `RulesetLoader.Store.RemoveIfEmptyRuleset` | patches/misc/pf_ioctl.c:640-666 | the loop up the parents, in place |
| `RulesetLoader.Store.AnchorRemove` | patches/misc/pf_ioctl.c:772-784 | `pf_anchor_remove` in place |
| `RulesetLoader.Store.PurgeInactive` | patches/misc/pf_ioctl.c:1208-1209 | the loop that frees the rules of a list one by one |
| `RulesetLoader.Store.BeginRules` | patches/misc/pf_ioctl.c:1197-1213 | `pf_begin_rules` in place, up to where it would go on with freed memory |
| `RulesetLoader.Store.RollbackRules` | patches/misc/pf_ioctl.c:1215-1231 | `pf_rollback_rules` in place |
| `RulesetLoader.Store.CommitRules` | patches/misc/pf_ioctl.c:1233-1265 | `pf_commit_rules` in place |
| `RulesetLoader.Store.XCommitAll` | patches/misc/pf_ioctl.c:2966-3062 | the two loops of DIOCXCOMMIT |
| `RulesetLoader.Store.AddRule` | patches/misc/pf_ioctl.c:1438-1578 | DIOCADDRULE in place |
| `RulesetLoader.Store.NewList` | patches/misc/pf_ioctl.c:1778-1819 | the search for the rule named and the list with the change made are those specified |
| `RulesetLoader.Store.Renumber` | patches/misc/pf_ioctl.c:1837-1840 | the renumbering loop |
| `RulesetLoader.Store.InstallList` | patches/misc/pf_ioctl.c:1821-1845 | the end of DIOCCHANGERULE in the order of the source, up to where it would go on with freed memory |
| `RulesetLoader.Store.ChangeActiveRule` | patches/misc/pf_ioctl.c:1655-1845 | DIOCCHANGERULE in place, with its ways to fail |
| `AnchorNames.PrintReadsBackExactly` | patches/misc/pf_ioctl.c:668-770 | what `pf_anchor_copyout` prints, `pf_anchor_setup` reads in the same ruleset as the same anchor, wildcard flag and depth if and only if the rule is not of three kinds |
| `AnchorNames.RelativeNameMeans` | patches/misc/pf_ioctl.c:668-712 | a relative name in path components: each leading `../` goes up one from the rule's ruleset, the rest is below, a final `/*` is the wildcard; nothing if it goes up beyond the root |
| `AnchorNames.AbsoluteNameMeans` | patches/misc/pf_ioctl.c:668-712 | an absolute name is the path after its slash |
| `AnchorNames.StarMeans` | patches/misc/pf_ioctl.c:668-712 | a `*` alone is the wildcard of the place it goes up to, at the root a name |
| `AnchorNames.PlainNamePrintable` | patches/misc/pf_ioctl.c:668-770 | for rules set up from plain names the one exception is a wildcard on an ancestor |
| `AnchorNames.SetupFits` | patches/misc/pf_ioctl.c:668-720 | every name that sets up gives a rule that can be printed |
| `AnchorNames.StorePath` | patches/misc/pf_ioctl.c:551-638 | paths of anchors have no empty component |
| `AnchorNames.StorePrefix` | patches/misc/pf_ioctl.c:551-638 | every prefix of an anchor's path up to a slash is an anchor |
| `AnchorNames.AnchorStore.FindParent` | patches/misc/pf_ioctl.c:560-583 | the search backwards finds the longest prefix present |
| `AnchorNames.AnchorStore.FindOrCreate` | patches/misc/pf_ioctl.c:551-638 | keeps every path equal to parent path, slash, name; finds what is there; creates what is asked for with all prefixes, if names and memory allow |
| `AnchorNames.AnchorStore.AnchorSetup` | patches/misc/pf_ioctl.c:668-720 | sets the rule up as the name says, takes one reference, changes no other anchor |
| `AnchorNames.AnchorStore.Reload` | patches/misc/pf_ioctl.c:668-770 | printing and setting up again gives the same rule exactly when it is printable |
| `Tags.NewNameGetsLeastId` | patches/misc/pf_ioctl.c:858-912 | a new name gets the least id not in use, or 0 when all 50000 are used or memory is short |
| `Tags.KnownNameIsHeld` | patches/misc/pf_ioctl.c:858-875 | a name that has a tag gets its id and one more reference; the others stay |
| `Tags.TagTable.NameToTag` | patches/misc/pf_ioctl.c:858-912 | `tagname2tag` with its loops |
| `Tags.TagTable.Ref` | patches/misc/pf_ioctl.c:947-956 | `pf_tag_ref` |
| `Tags.TagTable.Unref` | patches/misc/pf_ioctl.c:914-932 | `tag_unref` |
| `Tags.RunKeepsInv` | patches/misc/pf_ioctl.c:858-963 | over any run, whatever the names, ids stay strictly increasing in 1..50000 and counters equal to references held |
| `Tags.RunKeepsNames` | patches/misc/pf_ioctl.c:858-963 | if all names fit their field, names and ids stay one to one |
| `Tags.RunFromEmpty` | patches/misc/pf_ioctl.c:858-963 | so from the empty list |
| `Tags.FoundAgainExactly` | patches/misc/pf_ioctl.c:858-912 | a new name is found again, whatever the list, if and only if it is shorter than its field |
| `Tags.LongNameGetsTwoIds` | patches/misc/pf_ioctl.c:858-912 | a name cut short by `strlcpy` gets another id, or none, on the second request, whatever else is in the list |
| `Carp.SetRunAlive` | patches/misc/ip_carp.c:1302-1372 | `carp_setrun` leaves a live interface |
| `Carp.RunsExactly` | patches/misc/ip_carp.c:1302-1345 | it runs exactly if it is up and has a vhid and an address; from INIT it becomes master exactly if it preempts unsuppressed |
| `Carp.MasterDownAlive` | patches/misc/ip_carp.c:1272-1299 | so does a master-down timeout |
| `Carp.MasterDownTakesOver` | patches/misc/ip_carp.c:1272-1299 | which makes a backup master |
| `Carp.InputAlive` | patches/misc/ip_carp.c:684-745 | so does an advertisement received |
| `Carp.BackupTakesOverExactly` | patches/misc/ip_carp.c:684-742 | an advertisement makes a backup master if and only if preemption is on and the backup's interval is below the sender's, or three of its intervals are, with the skew raised to 240 while preemption is suppressed; else the backup waits anew in that family |
| `Carp.MasterStepsDownExactly` | patches/misc/ip_carp.c:684-710 | and makes a master backup if and only if the sender's interval is not above its own; else nothing changes |
| `Carp.SentExactly` | patches/misc/ip_carp.c:850-1034 | which advertisements go out, with which interval |
| `Carp.AdTimeoutAliveExactly` | patches/misc/ip_carp.c:840-1034 | so does an advertisement that comes due, if and only if it is not a master's that finds no packet tag |
| `Carp.SendAdEffect` | patches/misc/ip_carp.c:850-1034 | sending changes no state, and schedules the next advertisement exactly when up, running and tagged |
| `Carp.ResendRevives` | patches/misc/ip_carp.c:822-838 | an interface's turn in `carp_send_ad_all` keeps it live, and gives a stuck master its callout back exactly if a tag is found |
| `Carp.NeverStuck` | patches/misc/ip_carp.c:618-2129 | over every run of events in which packet tags are found a running interface is not in INIT, as BACKUP awaits a master in each of its families, as MASTER will advertise again |
| `Carp.FreshIsHealthy` | patches/misc/ip_carp.c:351-396 | a new interface meets that |
| `CarpHandlers.FailsFromThreeToThree` | patches/misc/ip_carp.c:930-952 | an interface counts as failing from three failed calls in a row to three successes in a row, and only the calls that begin or end that change `carp_suppress_preempt` |
| `CarpHandlers.LinkLost` | patches/misc/ip_carp.c:2095-2129 | a lost link stops the interface and its callouts |
| `CarpHandlers.LinkBack` | patches/misc/ip_carp.c:2095-2129 | back again it is up exactly if it was before, and runs exactly if it can |
| `CarpHandlers.AddressAdded` | patches/misc/ip_carp.c:1374-1503 | what a new address does to counts, flags, skew and running |
| `CarpHandlers.AddressNotAdded` | patches/misc/ip_carp.c:1374-1503 | and what one that cannot be set does, or an unspecified one |
| `CarpHandlers.AddressRemoved` | patches/misc/ip_carp.c:1505-1532 | what goes with an address, and with the last of a family |
| `CarpHandlers.TakenDown` | patches/misc/ip_carp.c:1807-1824 | taken down it stops with all callouts, a master bowing out with 255 and 255 |
| `CarpHandlers.BroughtUp` | patches/misc/ip_carp.c:1807-1824 | brought up from INIT it runs exactly if it can, else only the flag changes |
| `CarpHandlers.VhSet` | patches/misc/ip_carp.c:1826-1893 | which of vhid, intervals and state SIOCSVH sets, also when it fails half-way, and when the interface then runs |
| `CarpHandlers.VhAnnounces` | patches/misc/ip_carp.c:1826-1893 | an interface that becomes master by it advertises what was set, any other is silent |
| `CarpHost.SuppressedBy` | patches/misc/ip_carp.c:398-2129 | over every run of whatever happens to a host's interfaces `carp_suppress_preempt` is the number of lost links and failing senders, and one more for each interface destroyed while it failed to send |
| `CarpHost.SuppressedExactly` | patches/misc/ip_carp.c:398-2129 | so it is zero exactly while there are none, and never again after such a destruction |
| `CarpHost.DestroyedWhileFailing` | patches/misc/ip_carp.c:398-417 | a run to that |
| `Carp.Interface.SendAdLocked` | patches/misc/ip_carp.c:850-1034 | `carp_send_ad_locked` in place, family by family |
| `Carp.Interface.CountSend` | patches/misc/ip_carp.c:915-946 | the counting of failed and successful sends and its effect on `carp_suppress_preempt` |
| `Carp.Interface.Run` | patches/misc/ip_carp.c:1302-1372 | `carp_setrun` in place |
| `Carp.Interface.MasterDownLocked` | patches/misc/ip_carp.c:1272-1299 | `carp_master_down_locked` in place |
| `Carp.Interface.Receive` | patches/misc/ip_carp.c:618-745 | `carp_input_c` in place; a packet that fails its checks changes nothing |
| `Carp.Interface.AdDue` | patches/misc/ip_carp.c:840-848 | the advertisement callout |
| `Carp.Interface.SendAgain` | patches/misc/ip_carp.c:822-838 | the body of the loop of `carp_send_ad_all` |
| `Carp.Interface.MasterDownDue` | patches/misc/ip_carp.c:1262-1299 | the master-down callouts |
| `Carp.Interface.ParentState` | patches/misc/ip_carp.c:2095-2129 | `carp_sc_state_locked`: whatever it was, the interface is live again |
| `Carp.Interface.SetAddr` | patches/misc/ip_carp.c:1374-1503 | an address more, the interface live |
| `Carp.Interface.DelAddr` | patches/misc/ip_carp.c:1505-1532 | an address less; with the last of a family the interface is down and has no vhid |
| `Carp.Interface.SetFlags` | patches/misc/ip_carp.c:1807-1824 | SIOCSIFFLAGS; down means INIT and not running |
| `Carp.Interface.SetVh` | patches/misc/ip_carp.c:1826-1893 | SIOCSVH, with what stays set when it fails half-way |
| `CarpElection.NotSlower` | patches/misc/ip_carp.c:692-740 | nobody finds the advertisement of the least (advbase, advskew) slow |
| `CarpElection.HearLeader` | patches/misc/ip_carp.c:684-745 | hearing it, a node is or becomes a backup and answers nothing; a backup arms its callout of that family, a master those of the families in which it has an address, and the others stay as they are |
| `CarpElection.AdvertisingStarts` | patches/misc/ip_carp.c:850-1034 | how it starts: a master no slower than anyone advertises, whatever the others are |
| `CarpElection.ArriveAdvertised` | patches/misc/ip_carp.c:684-1370 | an arrival makes all others backups, and loosens no callout of patient nodes |
| `CarpElection.OtherFires` | patches/misc/ip_carp.c:1272-1370 | another node's callout that comes due is a loose one, and makes a second master |
| `CarpElection.StepAdvertised` | patches/misc/ip_carp.c:684-1370 | every other step keeps the leader master and advertising, and loosens nothing |
| `CarpElection.LeaderStaysSoleMaster` | patches/misc/ip_carp.c:684-1370 | with nothing loose and all patient, over every run the leader stays master, all others are backups once its advertisement has arrived, and no other node's callout fires |
| `CarpElection.SoleMasterExactly` | patches/misc/ip_carp.c:684-1370 | and it stays the only master over all runs if and only if nothing is loose and all are patient |
| `CarpElection.SecondsArePatient` | patches/misc/ip_carp.c:1345-1365 | where two whole seconds more are more ticks, every node is patient with a leader that advertises once a second or less often |
| `CarpElection.LooseAlwaysSplits` | patches/misc/ip_carp.c:684-1370 | where a backup waits in a family the leader is silent in, or is due before it, every run in which time goes on past that has two masters, however many such nodes there are |
| `CarpPreempt.FastestHears` | patches/misc/ip_carp.c:684-724 | the least node, if it preempts, is master after any other's advertisement; as master it takes no notice |
| `CarpPreempt.FastestBecomesMaster` | patches/misc/ip_carp.c:684-1370 | over every run, whoever is master at its start and whatever the others do, it stays master once it is, and is master when its first wait is over |
| `CarpPreempt.FastestAlone` | patches/misc/ip_carp.c:684-1370 | and with its next advertisement the premise of `CarpElection.SoleMasterExactly` holds |
| `CarpPreempt.PreemptionHappens` | patches/misc/ip_carp.c:684-1034 | such a segment and its first two steps |
| `CarpSegments.ElectionHappens` | patches/misc/ip_carp.c:684-1370 | a segment on which the leader is elected for good |
| `CarpSegments.SilenceSplits` | patches/misc/ip_carp.c:684-1370 | one on which a family it is silent in makes a second master, and the run |
| `CarpSegments.LeftoverSplits` | patches/misc/ip_carp.c:1345-1365 | one on which the leader sends in every family, and a callout left over makes a second master before its next advertisement |
| `CarpSegments.StaleIsReached` | patches/misc/ip_carp.c:618-1893 | how a new interface comes to have such a callout |
| `Base64.EncodeInjective` | pfPorts/sasyncd/base64.c:136-195 | different data have different encodings |
| `Base64.LetterIsAlphabet` | pfPorts/sasyncd/base64.c:68-69 | the letters are the alphabet of RFC 4648, section 4 |
| `Base64.SameNumber` | pfPorts/sasyncd/base64.c:136-195 | three bytes and their four letters are the digits of one number, as RFC 4648, section 4, has it; fewer are filled up with zero bits |
| `Base64.EncodeShape` | pfPorts/sasyncd/base64.c:136-195 | what stands at each place of an encoding |
| `Base64.Ntop` | pfPorts/sasyncd/base64.c:136-195 | `b64_ntop` succeeds exactly when the encoding and its NUL fit, stores these, and writes nothing behind the target |
| `Base64.DecodedStep` | pfPorts/sasyncd/base64.c:218-265 | one letter read keeps the bytes stored and the bits pending equal to the letters read |
| `Base64.PtonLetters` | pfPorts/sasyncd/base64.c:206-268 | the main loop decodes all letters up to a pad, or the input is no encoding |
| `Base64.Pton` | pfPorts/sasyncd/base64.c:206-321 | `b64_pton` accepts, if and only if it is the encoding, white space removed, of data shorter than the target or of whole groups that fill it; it stores the data, and writes nothing behind the target |
| `Base64.StripInserted` | pfPorts/sasyncd/base64.c:206-321 | white space inserted anywhere does not matter |
| `Base64.RoundTrip` | pfPorts/sasyncd/base64.c:136-321 | decoding an encoding gives the data back exactly when the target has room for it in that sense |

## Left out

- Packet buffers, routing, sockets, logging, ALTQ, operating system fingerprints, locks dropped around output calls: handlers are atomic steps.
- AnchorMeaning.CallIsInlining: rulesets that call no further ones; for deeper calls the recursive evaluator is the definition.
- AnchorWalk.MatchRules: a field test is an arbitrary function of the rule's field and the packet's, `prob` draws from an arbitrary stream, and the `evaluations` counters are not kept.
- Tables and dynamic interface addresses, in rules as in pools, are known by their identity only.
- AddressPool.Pool.NextAddress: pools of plain addresses, with blocks whose first address is the one given and none of them the whole space; tables and dynamic interface addresses are not part of it. AddressBits ties the sizes of blocks to masks.
- AddressPool.Pool.NextFor: the same; the look-up of the source node is in RefCounts.MappedNode.
- PortSearch.GetSport: pools as for AddressPool.Pool.NextAddress.
- Nat.NatInverts: states in one interface; TCP sequence tracking, which may drop the packet, and route-to, which may bypass the rewriting, are not part of the model.
- StateIndexes.Insert: a red-black tree is a map on the keys its comparator tells apart; the upkeep of `pfi_statehead` follows its use, as `pf_if.c` is not part of this model.
- StateIndexes.StateStore.PurgeExpired: which states have expired, given those left, is a parameter; the arithmetic of `pf_state_expires` is not modelled.
- Checksum.IcmpError.Change6: `pf_change_a` and `pf_change_a6`, which are chains of the same fixups.
- RefCounts.Create: connection counts and rate limits are not kept.
- DIOCADDSTATE and DIOCCLRSTATES by interface, which change counts on one side only; a changed rule comes with `src_nodes` 0.
- Rulesets.Step: what a request does after it has lost its ruleset is undefined; the model ends the request there and the theorems on runs leave such runs out.
- Rulesets.Add: which rulesets a name creates on the way is a parameter here and the subject of AnchorNames; the complaints about a rule's other fields are one flag.
- Tickets.TicketsCount: the tickets of pool addresses and of ALTQ.
- RulesetLoader.XCommit: entries for tables and ALTQ.
- AnchorNames.AnchorStore.FindOrCreate: paths cut short by `strlcpy` and `strlcat` at the maximum path length.
- Base64.Pton: the call with a null target.
- CarpElection.SoleMasterExactly: no loss, no delay, fixed nodes and settings, all of them running, none suppressing preemption, no send errors, intervals of at most 255 seconds, and a delay takes a tick at least.
- CarpPreempt.FastestBecomesMaster: the same, but a delay may take no tick.
- CarpHost.SuppressedBy: the turns that `carp_send_ad_all` gives the other interfaces are events of their own.
- Carp.Interface.SendAdLocked: when its own failure is the one that first suppresses preemption, the interface is itself in the list that `carp_send_ad_all` goes through before the call goes on; here its turn is a step of its own.
- Carp.Interface.CountSend: the same; what the other interfaces then do to `carp_suppress_preempt` comes with the next event.
- Carp.Interface.ParentState: the same for the other interfaces; this one is down by then and sends nothing.
- Carp.Interface.SetVh: the lock kept and the key not copied when the vhid is taken; host routes, SHA1 and HMAC, the order of `vhif_vrs`, ARP balancing, and `carpdetach`, which stops the callouts when the parent interface goes.
- `patches/misc/dhclient.c`, `patches/misc/padlock.c`, drivers, daemons and scripts: hardware, processes and wrappers.
