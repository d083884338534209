# Open vSwitch: verified models of its lookup structures, datapath and protocols

This project models six parts of Open vSwitch in Dafny and proves what they are
for. `dafny verify dfyconfig.toml` checks all of it.

**The flow classifier** (`lib/classifier.c`). Rules that share a mask form a
subtable; subtables are searched in descending order of their highest priority.
Inside a subtable a staged search stops early with the help of per-stage hash
indices, prefix tries and a ports trie, and reports in a wildcard mask which bits it
looked at. Equal rules are chained in order of priority and have version windows.
Rules may be parts of conjunctions ("soft" matches). A flow, a mask or a wildcard
mask is the set of its 1-bits; a prefix is a sequence of bits; the word hash is a
parameter, so that every result holds for every hash function, and so is the byte order
of the host, which decides the differing bit that a comparison keeps. A pointer into a
list of equal rules is the rest of the list from that rule on.
Files: `Bits`, `Flows`, `Trie`, `Subtables`, `StagedLookup`, `WildcardGaps`,
`SubtableEdits`, `NewSubtable`, `ClassifierState`, `RuleUpdates`, `ClassifierLookup`,
`LookupFunction`, `BestMatch`, `Conjunctions`, `SoftMatches`, `ConjunctiveLookup`,
`FlowClassifier`, `Versions`, `MegaflowOverlap`.

**The concurrent cuckoo map** (`lib/cmap.c`). `CuckooTable`, `CuckooInsert`,
`CuckooSearch` and `CMap` are the map as its writer sees it: buckets of slots whose
hashes go stale when they are emptied, two candidate buckets for each hash, chains
for equal hashes, displacement along a path found by breadth-first search, and
rebuilding. `ConcurrentTable`, `ConcurrentWriter`, `ConcurrentReader`,
`ConcurrentInsert` and `ConcurrentProgress` are the same table store by store, with a
reader that does one read at a time in between.

**The kernel flow table** (`datapath/flow_table.c`). `MegaflowKeys` has keys, masks
and their ranges; `MegaflowLookup` the masked probe, the search over all masks and
the per-CPU mask cache; `MaskArray` and `FlowTable` the compacting array of
reference-counted masks and the rehashing table.

**Actions** (`datapath/flow_netlink.c`, `datapath/actions.c`). `ActionValidator`
checks an action list while tracking the EtherType; `ActionExecutor` runs lists with
delayed outputs, a bounded queue of deferred packets and limited re-entry.

**BFD** (`lib/bfd.c`). `BfdSession` has a session's timers, the Poll/Final exchange
and the state machine of RFC 5880; `Bfd` the session object and two peers over a
channel that loses, delays, repeats and reorders packets.

**The Internet checksum** (`lib/csum.c`), in `Csum`.

`Basics` has what several modules share.

## Where the model follows the code

- The description of classifier_replace (lib/classifier.c:519-533) speaks of an
  identical rule that is visible in the version given. The code displaces an identical
  rule that is not marked to become invisible in any version (lines 610-616).
  `FlowClassifier.DocumentedExactly` says when the two agree, and
  `LaterRuleIsDisplaced` and `MarkedRuleStays` are inputs for which they do not.
- insert_subtable (lib/classifier.c:1502-1510) drops the last index when its map equals
  that of the final stage. An index map is never empty and the two cover different
  words, so that never happens.
- Two exits of the staged search un-wildcard too few bits for some tables and packets, so
  that a megaflow made from the mask can take in packets that match another rule. At an
  index (lib/classifier.c:1756-1770) the packet may share its hash with a list that it
  differs from in the words hashed; the comparison then keeps one differing bit and not
  those words, and another list may have the packet's value in that bit. After the last
  stage (lines 1782-1797) a miss keeps the earlier stages and the deciding bits of the
  ports, which says nothing about other fields of the last stage.
  `WildcardGaps.IndexExitGap` and `PortsExitGap` are such inputs.
  `StagedLookup.SoundExactly` says for every table, packet and incoming mask when the
  mask is right. It is right whenever the exit is not taken on a collision and the last
  stage masks only ports where it has any. Besides the ports, the last stage has only
  igmp_group_ip4 (lib/flow.h:136-139, 169-173; ofproto/ofproto.c:7633), which no match
  field covers, so that OpenFlow rules of this version always meet the second part.
- The rules that lookups generate, each from a packet and its mask, are said never to
  overlap (lib/classifier.h:76-87). They can: of the first word in which a packet differs
  from a rule, the bit that is kept depends on bits that stay wildcarded
  (lib/classifier.c:1701-1708). `MegaflowOverlap.RulesOverlap` is an input, without any
  collision. `OverlapFreeExactly` and `StableExactly` say when it does not happen, and
  `OneStageNoOverlap` is a kind of classifier for which it never does.
- A scan of a soft match stops at the first conjunction that is complete
  (lib/classifier.c:923-926), so that not every covered conjunction is looked up.
  `Conjunctions.ReportedExactly` says which are; `MissedConjunction` and `LostClause`
  are inputs for which one is not, and `ConjunctiveLookup.ConjunctionIsFound` says when
  that cannot happen.
- Two soft matches of one priority in a list split their round
  (`ConjunctiveLookup.SplitAcrossRounds`), and only they do
  (`SoftMatches.RoundFullExactly`); lib/classifier.c:127-130 promises that there are none,
  and the result on completeness is for priorities at which there are none.
- Conjunctions of up to 64 clauses are accepted (lib/ofp-actions.c:4171), but with 64
  the clause word starts out full, so that any first clause counts as a complete match
  (`Conjunctions.SixtyFourClauses`, `FalseReport`). The other results about conjunctions
  are for 1 to 63 clauses.
- Detection time is the local multiplier times the receive interval (lib/bfd.c:838);
  section 6.8.4 of RFC 5880 has the remote multiplier.
- Every packet that enters the datapath is first copied to userspace
  (datapath/datapath.c:276-290), besides the upcall of a miss.

## Model

| member | source | states |
|---|---|---|
| `Bits.EqualBits` | lib/classifier.c:1866-1883 | the number of leading bits in which two bit strings agree: equal before it, different at it |
| `Trie.BranchCreate` | lib/classifier.c:1902-1927 | a branch starts with the first bit of its prefix, so that it can hang on the edge of that bit |
| `Trie.BranchShaped` | lib/classifier.c:1902-1927 | a long prefix becomes a chain of nodes of at most 32 bits with rules in its leaf |
| `Trie.BranchCount` | lib/classifier.c:1902-1927 | a new branch stores exactly its prefix, as often as asked |
| `Trie.InsertShaped` | lib/classifier.c:2138-2182 | insertion keeps nodes short, children on the edge of their first bit and rules in every leaf |
| `Trie.InsertCount` | lib/classifier.c:2138-2182 | insertion adds one to the count of its prefix and changes no other, whether it splits, extends or adds |
| `Trie.PruneCount` | lib/classifier.c:2221-2258 | pruning or merging an emptied node changes no count |
| `Trie.RemoveShaped` | lib/classifier.c:2195-2265 | removal keeps the shape, so that no leaf is left without rules |
| `Trie.RemoveCount` | lib/classifier.c:2195-2265 | removal takes one from the count of its prefix if it is there and changes no other count |
| `Trie.NonNullHoldsRule` | lib/classifier.c:2195-2265 | a tree that is not null stores some prefix |
| `Trie.RunRepresents` | lib/classifier.c:2138-2265 | over every run of insertions and removals the tree is the multiset of prefixes, and null exactly when that is empty |
| `Trie.LookupValue` | lib/classifier.c:2031-2062 | the reported lengths are exactly those of stored prefixes that match the value; the reported number of leading bits decides them for every value that shares those bits, and no fewer bits settle every stored prefix |
| `Trie.LeanIsDeciding` | lib/classifier.c:2031-2062 | where some stored prefix follows the value up to the last bit reported, the bits reported are the fewest that settle every stored prefix |
| `Trie.SettledDecides` | lib/classifier.c:2023-2062 | the fewest bits that settle every stored prefix decide which prefixes match |
| `Flows.RightmostIs` | lib/classifier.c:1702-1709 | the differing bit kept is the one of least significance in its word, as the host reads the word, in either byte order |
| `Flows.HashRange` | lib/classifier-private.h:288-313 | hashing one stage on from a basis continues the hash of the words before it |
| `Flows.HashWordsConcat` | lib/classifier-private.h:232-313 | hashing words in two parts is hashing them at once |
| `Flows.HashWordsAgree` | lib/classifier-private.h:232-313 | flows that agree on the masked words have the same hash |
| `Subtables.FirstVisible` | lib/classifier.c:131-139 | the rest of a list from the first rule visible in the version; no rule before it is visible |
| `Subtables.FindMatch` | lib/classifier.c:1642-1662 | the scan of the rules map under the right hash gives the first visible rule of the one list that the flow satisfies, for every hash function |
| `Subtables.FinalStageIsOneShot` | lib/classifier-private.h:232-313 | the hash after the last stage is the one-shot hash over the whole mask |
| `Subtables.OneHeadMatches` | lib/classifier.c:1642-1662 | no two lists of a subtable match the same flow |
| `StagedLookup.CheckTries` | lib/classifier.c:1557-1609 | a trie rules the subtable out exactly when the first trie of those looked at does; its deciding bits are then un-wildcarded, and no flow that agrees on the mask so far matches any rule of the subtable; otherwise the mask is unchanged |
| `StagedLookup.MatchesFlowWc` | lib/classifier.c:1670-1710 | tells whether the flow satisfies the rule; the bits un-wildcarded are exactly the whole mask, or else the words before the first difference and one bit of it, or none if one was un-wildcarded already |
| `StagedLookup.SearchIndex` | lib/classifier.c:1739-1771 | an exit at an index is taken for a bucket of at most one list and gives what plain lookup gives; no bit outside the mask is un-wildcarded; the mask is sound exactly when the words before the difference, its bit and the mask so far tell every other visible list from the flow |
| `StagedLookup.FinalStage` | lib/classifier.c:1773-1808 | the last stage gives what plain lookup gives; it un-wildcards no bit outside the mask of the table, and after a miss with ports none of the last stage but ports; the mask is sound exactly when after a miss with ports the earlier stages, the deciding port bits and the mask so far tell every visible list from the flow |
| `StagedLookup.PortsExit` | lib/classifier.c:1782-1797 | a miss that the ports trie explains holds for all flows that agree on the bits it folds |
| `StagedLookup.FindMatchWc` | lib/classifier.c:1712-1808 | the staged search returns exactly what plain lookup returns, with no assumption about hashes; it un-wildcards only bits of the table's mask that it looked at; the mask is a function of the table, the flow and the mask so far, and all flows that agree on it get the same answer exactly when the exit taken is safe, as it is without collisions and with only ports in a last stage that has any |
| `StagedLookup.SoundExactly` | lib/classifier.c:1712-1808 | for every exit: flows that agree on the bits un-wildcarded get the same answer exactly when the exit is safe, which is read off the table, the flow and the mask so far |
| `StagedLookup.MissExactly` | lib/classifier.c:1712-1808 | a miss is the answer for all flows that agree on a mask exactly when the mask tells every list with a visible rule from the flow |
| `StagedLookup.OneHeadExactly` | lib/classifier.c:1756-1770 | the same for a bucket of one list, hit or miss |
| `StagedLookup.EndExactly` | lib/classifier.c:1773-1808 | the same for the exit after the last stage |
| `StagedLookup.NoCollisionIsSafe` | lib/classifier.c:1756-1770 | an exit at an index is safe when its list agrees with the flow on all words hashed |
| `StagedLookup.WholeBucketIsSafe` | lib/classifier.c:1756-1770 | it is also safe when the bucket has every list of the table, as with a constant hash |
| `StagedLookup.PortsFinalIsSafe` | lib/classifier.c:1782-1797 | the exit after the last stage is safe when that stage masks only ports |
| `StagedLookup.FoundFoldsMask` | lib/classifier.c:1712-1808 | a rule that is found has all of its mask un-wildcarded, whatever the exit |
| `StagedLookup.FoldsWithin` | lib/classifier.c:1712-1808 | every bit a search adds is in the mask of its table, and by the exit taken: in the trie's prefix or a stage before a skip, in the stages hashed before a miss at an index, in no word after the first that differs, or in an earlier stage or the ports after a miss with ports |
| `StagedLookup.ComparedWithin` | lib/classifier.c:1670-1710 | comparing a rule adds no bit after the first word that differs, in that word only bits that differ, and only one |
| `StagedLookup.ExitIsFirst` | lib/classifier.c:1722-1808 | the search ends at the first stage at which a trie lets the table be skipped or the index has at most one list |
| `StagedLookup.TrieStops` | lib/classifier.c:1557-1609 | when no stored prefix of the table's length matches the flow and the bits that decide this are no more than the table masks, or are un-wildcarded already, the search does not get beyond the stage of that field |
| `WildcardGaps.IndexExitGap` | lib/classifier.c:1756-1770 | a table and a flow, valid in every respect, for which the exit at an index un-wildcards too little, in either byte order |
| `WildcardGaps.PortsExitGap` | lib/classifier.c:1782-1797 | a table and a flow for which the exit with ports does |
| `StagedLookup.FindMatchOneShot` | lib/classifier.c:1717-1720 | without a mask to fill in, one hash over the whole mask gives the same answer |
| `SubtableEdits.AddHeadOk` | lib/classifier.c:570-603 | a new list: the invariants hold again, with one match value and one rule more |
| `SubtableEdits.SetChainOk` | lib/classifier.c:505-518 | replacing a list, and its head where that changes, keeps index maps, rules map and ports trie right |
| `SubtableEdits.InsertedChain` | lib/classifier-private.h:155-164 | inserting at the slot found keeps a list in order of priority |
| `SubtableEdits.ReplacedChain` | lib/classifier-private.h:173-178 | replacing a rule by one of equal priority keeps the list in order |
| `SubtableEdits.RemovedChain` | lib/classifier-private.h:190-196 | removing a rule keeps the list in order, with a new head if the first goes |
| `SubtableEdits.DropHeadOk` | lib/classifier.c:790-809 | removing the last rule of a list takes it out of all maps and the ports trie |
| `SubtableEdits.EmptySubtable` | lib/classifier.c:1532-1551 | with no rules left the ports trie is null and all maps are empty, as destroy_subtable asserts |
| `NewSubtable.StageMaps` | lib/classifier.c:1485-1510 | the stages together are the words of the mask in order; two words are in one stage exactly when no segment ends between them; no index stage is empty |
| `NewSubtable.InsertSubtable` | lib/classifier.c:1470-1529 | a new subtable satisfies the invariants and is empty; it has a stage for each segment, the exact prefix length of its mask on each trie field, and the exact length of its ports mask |
| `RuleUpdates.ComputeHashes` | lib/classifier.c:559-567 | the hashes computed stage by stage are those the maps are keyed by |
| `RuleUpdates.FindEqual` | lib/classifier.c:1810-1822 | finds the list with exactly the given match value, or there is none |
| `RuleUpdates.FindSlot` | lib/classifier.c:610-616 | finds the place that keeps the list in order; it holds a rule of equal priority exactly when the list has one that is not to become invisible |
| `RuleUpdates.PutRule` | lib/classifier.c:569-693 | the rule is stored; the rule displaced, if any, is identical and not to become invisible, and otherwise there was none; the highest priority stays exact and its count between one and the true count |
| `RuleUpdates.MaxOfHeads` | lib/classifier.c:817-829 | the highest priority among list heads and exactly how many heads have it |
| `RuleUpdates.RecomputeMax` | lib/classifier.c:814-832 | the subtable has its exact highest priority again, with the same rules |
| `RuleUpdates.TakeRule` | lib/classifier.c:747-848 | the rule is gone from its subtable, which keeps its invariants, or was the last one there |
| `RuleUpdates.SetRemoveVersion` | lib/classifier-private.h:104-108 | only the end of one rule's version window changes |
| `ClassifierState.RepositionOk` | lib/classifier.c:683-693 | a subtable put at the place of its highest priority keeps the vector sorted, complete and exact |
| `ClassifierState.CountsServeLookup` | lib/classifier.c:1557-1609 | tries that count the prefixes of all lists serve the trie checks of every subtable |
| `FlowClassifier.Classifier.constructor` | lib/classifier.c:327-345 | an empty classifier satisfies the invariants |
| `FlowClassifier.Classifier.Replace` | lib/classifier.c:535-703 | all invariants are kept; the stored rules are the old ones with the new rule, without the one displaced, which is identical and not to become invisible; if none is displaced there was none such |
| `FlowClassifier.DisplacesExactly` | lib/classifier.c:610-634 | a rule is displaced exactly when an identical one is stored that is not marked to become invisible; it is visible in the version of the insertion exactly when it was added by then |
| `FlowClassifier.DocumentedExactly` | lib/classifier.c:521-525 | with one identical rule stored, it is displaced exactly if visible in the version, as documented, exactly when it was added by then and is not marked, or is marked and not visible |
| `FlowClassifier.LaterRuleIsDisplaced` | lib/classifier.c:610-634 | an identical rule added in a later version is displaced though not visible |
| `FlowClassifier.MarkedRuleStays` | lib/classifier.c:610-616 | an identical visible rule that is marked to become invisible later is not displaced |
| `FlowClassifier.Classifier.Remove` | lib/classifier.c:729-848 | all invariants are kept; the stored rules are the old ones without that rule; false exactly when it was not there |
| `FlowClassifier.Classifier.MakeInvisible` | lib/classifier.c:292-301 | only the end of that rule's version window changes |
| `FlowClassifier.Classifier.RestoreVisibility` | lib/classifier.c:307-312 | the window of that rule has no end again; nothing else changes |
| `FlowClassifier.Classifier.Lookup` | lib/classifier.c:954-1187 | without conjunctions: a visible matching rule of maximum priority, or none exactly when none matches; it is the best match of every flow that agrees on the resulting wildcards exactly when no higher visible rule agrees with the flow on them, as is so when every search is safe, and so without collisions; with conjunctions: what the soft match loop promises, with the rounds it took, and the same rule and conjunction for every flow that agrees on the wildcards when every search is safe; only bits of tables searched are un-wildcarded, and without conjunctions only bits in the mask of some rule of at least the priority found |
| `ClassifierLookup.VisibleFromFirst` | lib/classifier.c:131-139 | every visible rule of a list is on the rest from the first visible one |
| `ClassifierLookup.AnswerOf` | lib/classifier.c:1642-1662 | all visible matching rules of a subtable are on the list it answers with |
| `ClassifierLookup.SearchTables` | lib/classifier.c:979-1027 | the loop stops at the first table that cannot hold a higher rule; every table searched is settled, the others hold nothing above the best hard match, and hard match, soft matches and mask are what the searches one after the other give |
| `ClassifierLookup.SafeIsSound` | lib/classifier.c:979-1027 | if each search is safe with the mask left by those before, all tables searched give the same answers for every flow that agrees on the final mask |
| `ClassifierLookup.FreeIsAllSafe` | lib/classifier.c:979-1027 | each search is safe when no table has a collision with the flow or other fields than ports in a last stage with ports |
| `ClassifierLookup.FoldedWithin` | lib/classifier.c:979-1027 | the main loop un-wildcards only bits that are in the mask of a table it searched |
| `ClassifierLookup.SearchedAreHigh` | lib/classifier.c:979-1027 | no table is searched whose highest priority is below that of the hard match found in the end |
| `BestMatch.Reached` | lib/classifier.c:979-1027 | when the loop stops, a matching rule is not above the best hard match or is behind a soft match |
| `BestMatch.StopsAtBest` | lib/classifier.c:979-1027 | without conjunctions the loop stops with the best match |
| `BestMatch.StopsAtBestForAll` | lib/classifier.c:979-1027 | and with the best match of every flow that agrees on the mask |
| `BestMatch.BestForAllExactly` | lib/classifier.c:979-1027 | a best match is that of every flow that agrees on the mask exactly when no higher visible rule agrees with the flow on the un-wildcarded bits of its own mask |
| `BestMatch.SearchIsHigh` | lib/classifier.c:979-1027 | every bit that the main loop un-wildcards is in the mask of a stored rule of at least the priority of the match found |
| `LookupFunction.LookupServesAll` | lib/classifier.c:954-1168 | with conjunctions: a lookup whose searches, nested ones too, are all safe gives every flow that agrees on its mask the same rule by way of the same conjunction |
| `LookupFunction.FreeIsLookupSafe` | lib/classifier.c:954-1168 | its searches are all safe when no table has a collision with the flow under any conjunction id, or other fields than ports in a last stage with ports |
| `LookupFunction.LookupWithin` | lib/classifier.c:954-1168 | a whole lookup un-wildcards only bits that are in the mask of a table searched for the flow, or with the id in it of a conjunction that a rule of the soft matches names |
| `LookupFunction.FieldStoresId` | lib/classifier.c:1113-1118 | overwriting a field with a conjunction id keeps flows that agree on a mask in agreement, as the result before asks of the way ids are stored |
| `Conjunctions.FindConjunctiveMatch` | lib/classifier.c:892-929 | with clause words exact for the sets before it in its round, the set reports the conjunction that it completes first among the entries looked at, or none, and the clause words stay exact |
| `Conjunctions.ScanIsExact` | lib/classifier.c:892-929 | the same for the scan from any entry on: it reports by entries looked at what the clause words say, before and after other reports |
| `Conjunctions.ReportedExactly` | lib/classifier.c:904-927 | a conjunction is reported exactly when each of its clauses stands in some set in which nothing is completed before it |
| `Conjunctions.CoveredIsReported` | lib/classifier.c:904-927 | a covered conjunction is reported unless another covered one stands before it in some set |
| `Conjunctions.SomeReported` | lib/classifier.c:904-927 | something is reported exactly when something is covered |
| `Conjunctions.ReportIsCovered` | lib/classifier.c:904-927 | what is reported is covered |
| `Conjunctions.MissedConjunction` | lib/classifier.c:922-926 | two sets that each have a clause of two conjunctions: both are covered, only the first is reported |
| `Conjunctions.LostClause` | lib/classifier.c:922-926 | a clause passed over in an earlier set also keeps a covered conjunction from being reported |
| `Conjunctions.CoverNeedsSets` | lib/classifier.c:900-910 | covering n clauses of a conjunction takes n sets, so that larger conjunctions can be skipped |
| `Conjunctions.SixtyFourClauses` | lib/classifier.c:914-926 | for any clause words without the conjunction and any of its clauses: one clause makes the word full exactly when there is one clause in all, or 64 |
| `Conjunctions.FalseReport` | lib/classifier.c:908-926 | 64 sets that all have the same clause of a 64-clause conjunction get it reported, though it is not covered |
| `SoftMatches.DropSettled` | lib/classifier.c:1069-1078 | keeps exactly the soft matches above the hard match's priority |
| `SoftMatches.TopPriority` | lib/classifier.c:1084-1094 | the highest priority among the soft matches, above the hard match, and how many have it |
| `SoftMatches.ResolveTop` | lib/classifier.c:1105-1130 | every conjunction that the scans report before the place where it stops has no match of its own; it stops at the first reported one that has, or at the end |
| `SoftMatches.LookupNested` | lib/classifier.c:1113-1118 | a lookup that ignores soft matches gives a hard match that only rules behind a soft match exceed |
| `SoftMatches.FallBack` | lib/classifier.c:1139-1161 | each highest-priority soft match gives way to the next visible rule of its list, which becomes the hard match if it is one and higher |
| `LookupFunction.FallBackShrinks` | lib/classifier.c:1046-1162 | the remaining lists get shorter in each turn, so the loop ends |
| `SoftMatches.SettleSoft` | lib/classifier.c:1046-1168 | without a conjunction: the best match without a conjunction set, after every soft match above it had its round and every conjunction reported in a round proved to have no match of its own; otherwise the first reported conjunction with a match of its own, after the same for all higher soft matches |
| `SoftMatches.LookupIn` | lib/classifier.c:954-1168 | the same for the whole lookup with its early exit, as a function of its inputs, and without conjunctions the best match, with wildcards that are sound exactly when no higher visible rule agrees on them |
| `SoftMatches.RoundFullExactly` | lib/classifier.c:1084-1112 | a round tries every soft match of its priority exactly when no list has two of them, where each rule is stored once |
| `SoftMatches.SoftApart` | lib/classifier.c:979-1027 | the soft matches of the main loop are from different tables |
| `ConjunctiveLookup.ConjunctionIsFound` | lib/classifier.c:1046-1168 | a conjunction covered by matching rules of a priority above every hard match, that no other covered one precedes in a set and that has a match of its own, is not overlooked: the lookup ends with a conjunction of that priority or higher |
| `ConjunctiveLookup.NoneMeansInVain` | lib/classifier.c:1046-1168 | a lookup that ends without a conjunction, though one is covered above its result, looked a covered one of that priority up in vain |
| `ConjunctiveLookup.ResolvedIsCovered` | lib/classifier.c:1106-1128 | the conjunction that settles a lookup is covered by matching rules of a priority that no hard match exceeds |
| `ConjunctiveLookup.MissedRound` | lib/classifier.c:1106-1130 | with the two crossed sets a round comes to nothing exactly when the first conjunction has no match of its own, whatever the second has |
| `ConjunctiveLookup.SplitAcrossRounds` | lib/classifier.c:1139-1161 | two visible rules of one priority in a list get separate rounds, and a conjunction that needs the second of them and a rule of another list is covered in neither |
| `Versions.WindowKeepsVisible` | lib/classifier.c:292-312 | changing one window keeps what a version sees exactly when that rule's own visibility there stays the same |
| `Versions.RunKeepsVisible` | lib/classifier.c:292-312 | any run of non-replacing insertions, hidings and restores for versions above v leaves what every version up to v sees |
| `Versions.LookupIsStable` | lib/classifier.c:292-312 | so a lookup in such a version answers at the same priority, or with nothing, as before |
| `Versions.WalkFindsHighest` | lib/classifier.c:1653-1657 | the first visible rule of a list is the visible rule of highest priority, and there is none exactly when none is visible |
| `MegaflowOverlap.OverlapFreeExactly` | lib/classifier.h:76-87 | the rules that lookups generate never overlap exactly when every flow that matches such a rule generates the same |
| `MegaflowOverlap.RulesOverlap` | lib/classifier.c:1701-1708 | a classifier with one rule, and two flows, for which generated rules overlap, in either byte order |
| `MegaflowOverlap.ComparedSteadily` | lib/classifier.c:1670-1710 | a comparison leaves the same mask for all flows that agree on it exactly when there is no difference, or one of its bits is un-wildcarded already, or so are all masked bits of the word below the one kept |
| `MegaflowOverlap.StableExactly` | lib/classifier.c:1712-1808 | without tries and collisions, a search leaves the same mask for all flows that agree on it exactly when it does not end with a failed comparison for which that is not so |
| `MegaflowOverlap.StableMeansNoOverlap` | lib/classifier.c:954-1168 | if every search leaves the same mask and answer for all flows that agree on it, generated rules do not overlap, with or without conjunctions |
| `MegaflowOverlap.OneStageNoOverlap` | lib/classifier.c:954-1168 | so it is without tries if every table has one stage, as without flow segments, with only ports in those that have any |
| `CuckooTable.OtherHashIsSymmetric` | lib/cmap.c:186-193 | rotating a hash by 16 bits twice gives it back |
| `CuckooTable.OtherBucket` | lib/cmap.c:603-612 | from one candidate bucket of a hash to the other |
| `CuckooTable.LiveIsFound` | lib/cmap.c:313-370 | under the invariant, lookup finds the chain of every slot in use |
| `CuckooTable.FindIsExact` | lib/cmap.c:313-370 | lookup finds a chain exactly when the table holds it for that hash |
| `CuckooInsert.FillHole` | lib/cmap.c:516-527 | setting a slot where the hash fits keeps every hash in one chain, in the first slot of its bucket that bears it, in one of its two buckets |
| `CuckooInsert.InsertDup` | lib/cmap.c:532-582 | exactly when a slot of the bucket bears the hash, puts the chain before what the first such slot has |
| `CuckooInsert.FindEmptySlot` | lib/cmap.c:503-514 | the first empty slot of a bucket, or all are in use |
| `CuckooInsert.InsertBucket` | lib/cmap.c:586-599 | exactly when the bucket has an empty slot, puts the chain into the first |
| `CuckooInsert.MoveKeeps` | lib/cmap.c:720-727 | moving a slot of a full bucket into the hole of its other bucket keeps the invariant, stale hashes and zeroed slots included |
| `CuckooInsert.MoveChains` | lib/cmap.c:720-727 | and loses no chain |
| `CuckooSearch.ChildStraight` | lib/cmap.c:736-742 | a path in the queue repeats no bucket unless an earlier entry ends where it does |
| `CuckooSearch.SearchSucceeds` | lib/cmap.c:682-711 | the path of a successful search repeats no bucket, leads through full buckets and ends at a first empty slot |
| `CuckooSearch.FollowPath` | lib/cmap.c:708-711 | the buckets recomputed from the slots are those of the path |
| `CuckooSearch.ApplyRoute` | lib/cmap.c:713-731 | the backward moves and the final store are an insertion: one chain more, nothing lost, for lookup and for the count of every pair |
| `CuckooSearch.InsertBfs` | lib/cmap.c:628-747 | succeeds exactly when one of the first MAX_QUEUE paths of at most MAX_DEPTH slots, shorter ones first, leads to another bucket with an empty slot; success inserts, failure leaves the table as it was |
| `CuckooSearch.ListsAll` | lib/cmap.c:668-745 | when the queue has been gone through, it has listed the paths level by level, up to its limit |
| `CuckooSearch.NearIsFound` | lib/cmap.c:628-747 | an empty slot at the end of any way from one of the two buckets is found, if there are no more paths of that length or less than the queue holds |
| `CuckooSearch.FourSteps` | lib/cmap.c:632-660 | with five slots in a bucket that is every way of up to four steps, with seven of up to three |
| `CuckooSearch.TryInsert` | lib/cmap.c:753-766 | succeeds exactly when a slot of the two buckets bears the hash, or one of them has an empty slot, or the search finds one; then every other hash finds what it found, this one the new chain before its old one, each pair is there as often as before plus the new ones, and the invariant holds; failure changes nothing |
| `CMap.CountIsFind` | lib/cmap.c:94-99 | a node is in the table under a hash as often as lookup of that hash finds it |
| `CMap.TryRehash` | lib/cmap.c:858-877 | a completed copy answers every hash as the old table does and has as many nodes; otherwise there was a chain for which the new table, holding those before it, had no room |
| `CMap.MaxNDoubles` | lib/cmap.c:210-214 | a doubled table has room for what filled the old one, as cmap_rehash asserts |
| `CMap.ShrinkFits` | lib/cmap.c:846-853 | a halved table has room for what is left when it shrinks |
| `CMap.Map.constructor` | lib/cmap.c:222-245 | a new map is empty |
| `CMap.Map.Lookup` | lib/cmap.c:360-370 | the chain of all nodes with the hash |
| `CMap.Map.Rehash` | lib/cmap.c:879-898 | the chain of every hash is unchanged; the first basis with which all chains fit is taken, and failure means that none of those supplied was such |
| `CMap.Map.Insert` | lib/cmap.c:774-790 | the node comes first in the chain of its hash, every other chain is unchanged and the count goes up by one; the table doubles exactly when it is as full as it may be; with room in a table that is not, no basis is used; failure means that rebuilding with each basis supplied got stuck or left no room |
| `CMap.Map.Replace` | lib/cmap.c:835-856 | the node is replaced in, or taken out of, its chain and every other chain is unchanged; the table is halved exactly when too few nodes are left, unless no basis supplied fits |
| `CMap.FindSlot` | lib/cmap.c:458-469 | the slot in use for the hash in a bucket, or there is none |
| `CMap.Splice` | lib/cmap.c:792-823 | walks the chain to the node and splices it |
| `CMap.SplicedCounts` | lib/cmap.c:792-823 | only the node and its replacement change how often they are in the chain |
| `ConcurrentTable.PathKept` | lib/cmap.c:810-821 | a node reached along a chain is still reached from where the chain began after another node was unlinked or replaced |
| `ConcurrentWriter.StepKeepsInv` | lib/cmap.c:516-823 | every single store of the writer keeps the table invariant, odd counters only while a bucket is being set, and slots and pointers true to their hash |
| `ConcurrentReader.StepKeepsPresent` | lib/cmap.c:516-823 | a node in the map stays there through every store but its own removal |
| `ConcurrentReader.QuietBucket` | lib/cmap.c:516-527 | counters only grow, and while one is even and unchanged the hashes of its bucket are unchanged |
| `ConcurrentReader.StepKeepsOut` | lib/cmap.c:516-582 | a hash in use does not come into a bucket whose counter does not change |
| `ConcurrentReader.FirstBearer` | lib/cmap.c:313-322 | what a reader finds in a quiet bucket is the chain of the hash, or the hash is elsewhere |
| `ConcurrentReader.SearchFinds` | lib/cmap.c:324-349 | over every interleaving of the writer's stores with the reader's reads, a search that ends returns a chain with every node of the hash that was in the map all the time |
| `ConcurrentReader.SearchHash` | lib/cmap.c:324-370 | every node of the chain returned has exactly the requested hash |
| `ConcurrentReader.EmptyIsValid` | lib/cmap.c:222-238 | a zeroed table satisfies the invariant |
| `ConcurrentInsert.SetBucketRuns` | lib/cmap.c:516-527 | once a bucket change has begun, its remaining stores are steps of the concurrent writer, keep its invariant and together change exactly that slot |
| `ConcurrentInsert.MoveIsLegal` | lib/cmap.c:713-727 | each move along a path that the search finds is a run of the concurrent writer and leaves the next one possible |
| `ConcurrentInsert.EndIsLegal` | lib/cmap.c:729-731 | and so is the final store of the new node |
| `ConcurrentInsert.DisplacementRuns` | lib/cmap.c:713-731 | the stores of the moves along the path, last move first, and of the new node are one run of the concurrent writer, after which the node is in the map |
| `ConcurrentProgress.InsertPublishes` | lib/cmap.c:516-527 | after the stores that put a new node into a bucket the node is in the map, and so is every node that was |
| `ConcurrentProgress.DisplacementPublishes` | lib/cmap.c:713-731 | and after exactly these stores every node that was in the map still is |
| `ConcurrentProgress.SearchDuringDisplacement` | lib/cmap.c:628-747 | every search for any hash, with reads anywhere between the stores of that displacement, finds every node that was in the map when it began, and does not change what the stores come to |
| `ConcurrentProgress.ReadGoesOn` | lib/cmap.c:324-349 | while no bucket is being set, each read brings a search closer to its end, wherever it is and however stale the counters it goes by |
| `ConcurrentProgress.ReadsEnd` | lib/cmap.c:324-349 | so reads alone bring any search to its end |
| `ConcurrentProgress.QuietSearchEnds` | lib/cmap.c:324-370 | such a search returns a chain with every node of the hash that is in the map and no node of another hash |
| `ConcurrentProgress.InsertThenFind` | lib/cmap.c:516-527 | from a new table, inserting a node of any hash and then searching for the hash finds it |
| `MegaflowKeys.PutKeepsMask` | datapath/flow_netlink.c:64-122 | a store to a mask, with the range update before it, keeps the mask zero outside its range |
| `MegaflowKeys.PutsKeepMask` | datapath/flow_netlink.c:64-122 | so does every run of stores that starts with a zeroed mask |
| `MegaflowKeys.PutsAreTight` | datapath/flow_netlink.c:64-122 | and the range is no wider than the stores: one of them reaches its first long, and one its last |
| `MegaflowKeys.MaskKey` | datapath/flow_table.c:66-83 | masks the longs in the range, or all of them, and no others |
| `MegaflowKeys.CmpKey` | datapath/flow_table.c:517-530 | whether two keys are equal in the range |
| `MegaflowKeys.RangeIsFull` | datapath/flow_table.c:532-570 | equality in the range is equality of the whole masked keys |
| `MegaflowLookup.ProbeIsExact` | datapath/flow_table.c:550-570 | hash and range comparison accept exactly the flows that match over the whole key, and those are in the bucket probed |
| `MegaflowLookup.MaskedFlowLookup` | datapath/flow_table.c:550-570 | a flow of the mask that matches the key, or there is none |
| `MegaflowLookup.FlowLookup` | datapath/flow_table.c:575-612 | a matching flow, or there is none; each mask is probed at most once; one probe when the mask tried first has a match; the index then points at the flow's mask |
| `MegaflowLookup.FindEntry` | datapath/flow_table.c:646-668 | the first cache entry with the hash, or else the visited entry with the lowest hash |
| `MegaflowLookup.LookupStats` | datapath/flow_table.c:621-676 | the answer is right whatever the cache, hash and stale indices; each mask is probed at most once; success leaves the cache pointing at the mask, and a cache that does saves all probes but one; an entry that did not help is cleared, a new one takes the place of the lowest hash of its set, and no other entry changes |
| `MegaflowLookup.LookupAgain` | datapath/flow_table.c:621-676 | repeating a successful lookup with a nonzero hash on an unchanged table probes exactly one mask |
| `MegaflowLookup.AnswerIsUnique` | datapath/flow_table.c:621-676 | where at most one flow matches, the answer is that flow |
| `MaskArray.Realloc` | datapath/flow_table.c:245-271 | the new array has all masks, each once, packed at its start; they always fit |
| `MaskArray.DeleteMask` | datapath/flow_table.c:767-782 | the mask is found, so the end of the scan is not reached; only it is gone |
| `MaskArray.AddMask` | datapath/flow_table.c:903-912 | the first null entry takes the new mask; nothing else changes |
| `FlowTable.MaskEqualIsEqual` | datapath/flow_table.c:841-850 | comparing ranges and the bytes in them is comparing whole masks |
| `FlowTable.FindMask` | datapath/flow_table.c:852-868 | the listed mask with that value, or there is none |
| `FlowTable.InsertMask` | datapath/flow_table.c:881-912 | adds a mask of a new value; a full array grows by its minimum size; fails exactly when that cannot be allocated, and then changes nothing |
| `FlowTable.RemoveMask` | datapath/flow_table.c:785-808 | takes the mask out; the array is halved exactly when at most a third of it is used, it is at least twice its minimum size and that can be allocated; count and array stay right |
| `FlowTable.InsertFlow` | datapath/flow_table.c:404-411 | the flow is in the bucket that its hash gives, besides all others |
| `FlowTable.RemoveFlow` | datapath/flow_table.c:811-828 | only that flow is gone |
| `FlowTable.CopyFlows` | datapath/flow_table.c:422-449 | a rebuilt instance has the same flows, each in the bucket that its hash gives there |
| `FlowTable.RefsDrop` | datapath/flow_table.c:785-808 | one flow less: its mask's count goes down by one, and the mask goes with its last flow |
| `FlowTable.Table.constructor` | datapath/flow_table.c:273-310 | a new table is empty and satisfies the invariants |
| `FlowTable.Table.Lookup` | datapath/flow_table.c:621-676 | a flow of the table that matches, or none does; no more probes than masks |
| `FlowTable.Table.Rehash` | datapath/flow_table.c:451-463 | the same flows under another seed or size |
| `FlowTable.Table.TakeMask` | datapath/flow_table.c:871-921 | shares the mask of that value or adds one; null exactly when there is none and an allocation fails |
| `FlowTable.Table.Insert` | datapath/flow_table.c:924-983 | adds exactly the flow, with a mask of the value given; the buckets double exactly when there are more flows than buckets and that can be allocated; fails exactly when there is no such mask and it or the array cannot be allocated, and then flows and masks are as before |
| `FlowTable.Table.DropMask` | datapath/flow_table.c:785-808 | the counts are those of the remaining flows; the mask is gone exactly when no flow uses it |
| `FlowTable.Table.Remove` | datapath/flow_table.c:811-828 | removes exactly the flow; its mask goes exactly when no other flow uses it |
| `ActionValidator.Validate` | datapath/flow_netlink.c:2158-2319 | accepts exactly the lists in which every action fits its place, samples included, and samples nest less than SAMPLE_ACTION_DEPTH deep; a place has the EtherType that the last MPLS push or pop before it left and the tag that the last VLAN push or pop did; fitting is being well formed, in range, on a header that the type promises, leaving protocol and fragment alone, and no MPLS action on a tag; each kind of refusal has its reason |
| `ActionValidator.ValidateForFlow` | datapath/flow_netlink.c:2322-2339 | the same, starting from the EtherType of the flow's masked key, zero if the flow does not match it |
| `ActionValidator.AcceptedExactly` | datapath/flow_netlink.c:2158-2319 | the walk that tracks type and tag accepts exactly those lists |
| `ActionValidator.HeaderNeeded` | datapath/flow_netlink.c:2006-2078 | the header checks of IP and label sets and of pops refuse only what goes wrong on some packet that the tracked type describes |
| `ActionValidator.ValidatedIsSafe` | datapath/actions.c:145-233 | for every accepted list and every packet of the flow, of any EtherType where the flow does not match it: IPv4, IPv6 and transport sets find that header directly under the Ethernet header, and MPLS sets and pops find a label on top |
| `ActionValidator.AcceptedIsSafe` | datapath/flow_netlink.c:2158-2319 | the same from any point of a list, for any packet that the tracked type describes |
| `ActionValidator.NothingAfterPop` | datapath/flow_netlink.c:2258-2273 | after a pop no MPLS action and no set above Ethernet is accepted, nested lists included |
| `ActionValidator.NestingIsBounded` | datapath/flow_netlink.c:2166-2167 | accepted samples nest less than SAMPLE_ACTION_DEPTH deep |
| `ActionExecutor.Executor.Defer` | datapath/actions.c:89-133 | a job is asked for; it is queued after all others, or its buffer freed when the queue has nine |
| `ActionExecutor.Executor.Send` | datapath/actions.c:754-783 | the packet is handed to the port once: it is freed if there is no such port, sent if the port leads out, and otherwise enters again, is copied to userspace and looked up; its buffer is let go of once |
| `ActionExecutor.Executor.ProcessPacket` | datapath/datapath.c:261-322 | the packet is copied to userspace and looked up with its recirculation id; without a flow it is copied again and freed, at the deepest level freed, and otherwise the flow's list begins; the buffer is let go of once; from a port, outside of any list, the first nine jobs asked for meanwhile, and no others, are done in order |
| `ActionExecutor.Executor.DoExecuteActions` | datapath/actions.c:1042-1149 | what the list does at its level, outputs, copies to userspace and jobs asked for, is the sequence that a clone for each output gives, however chance and failures fall for each action; the buffer and every clone made are sent, queued, freed or stolen exactly once; the nesting level is restored |
| `ActionExecutor.Executor.ExecuteOne` | datapath/actions.c:1068-1140 | exactly what one action other than an output does: which job with which packet, id and actions it asks for, which buffer is freed when the queue is full or the packet cannot be changed, and which is stolen; every clone is let go of once |
| `ActionExecutor.DoesExactly` | datapath/actions.c:1042-1149 | what a list does is one thing for each output, userspace action, recirculation and sample taken that it gets to, in order, with the packet as it then is, the port, the id and the nested actions |
| `ActionExecutor.Executor.ProcessOne` | datapath/actions.c:1160-1168 | the entry at the tail is taken and done: its list is run as a list of the outermost level, or its packet enters with its recirculation id |
| `ActionExecutor.Executor.ProcessDeferred` | datapath/actions.c:1151-1175 | the jobs done are the first nine asked for since the queue was empty, in that order, each followed by the list or lookup it names; none waits |
| `ActionExecutor.Executor.ExecuteActions` | datapath/actions.c:1178-1208 | at the level limit the packet is freed; otherwise the list begins and does what it says one level further; every buffer is let go of exactly once and the nesting level is restored; after the outermost call exactly the first nine jobs asked for during it have been done, in order |
| `BfdSession.JitterBounds` | lib/bfd.c:993-999 | packets go out at 75 to 100 percent of the transmit interval |
| `BfdSession.RunFlags` | lib/bfd.c:955-966 | in every run Poll and Final are never both set |
| `BfdSession.FlagsStay` | lib/bfd.c:811-826 | no step sets both |
| `BfdSession.NoUnagreedChange` | lib/bfd.c:395-416 | on a step from Up to Up the transmit interval is not raised and the receive interval not lowered, except by a Final that answers a Poll |
| `BfdSession.AgreedChange` | lib/bfd.c:811-817 | such a Final puts the polled intervals into use and ends the Poll |
| `BfdSession.Transitions` | lib/bfd.c:840-873 | no step goes from Up to Init, and only an accepted packet that names this session and says Init or Up leads to Up |
| `BfdSession.AliveMeansHeard` | lib/bfd.c:557-559 | a session above Down after a run accepted a packet less than the detection time before |
| `BfdSession.RunDetects` | lib/bfd.c:547-575 | so in every run, with the detection time as computed when that packet came in |
| `Bfd.BfdObject.constructor` | lib/bfd.c:365-391 | a new session is down, with neither flag set |
| `Bfd.BfdObject.ChangeState` | lib/bfd.c:1102-1148 | state and diagnostic are set; a session that changes to a state not above Down forgets its peer and stops decaying, one that comes up starts to measure its traffic, and nothing else changes |
| `Bfd.BfdObject.Poll` | lib/bfd.c:955-966 | a Poll is on afterwards if one was, or if the session is above Down and no Final is due; a new one asks at once for the configured or decayed intervals; nothing else changes, and Poll and Final do not come together |
| `Bfd.BfdObject.Configure` | lib/bfd.c:395-438 | the configured intervals are on record and the state stays; an Up session does not raise its transmit interval or lower its receive interval; what does neither is in use at once; a Poll is started exactly if anything changed, the session is above Down and no Final is due |
| `Bfd.BfdObject.Run` | lib/bfd.c:547-575 | a session above Down whose detection time is over goes down as expired and forgets its peer; otherwise state, peer and intervals in use stay, decay is switched exactly by the traffic measured when that is due, and a Poll is started exactly if the intervals in use are not those asked for or decay was switched |
| `Bfd.BfdObject.PutPacket` | lib/bfd.c:587-663 | the packet says state, diagnostic, both discriminators, flags and the polled intervals or those in use, and has not both Poll and Final; a Final is sent once; the next packet is due at 75 to 100 percent of the interval |
| `Bfd.BfdObject.ProcessPacket` | lib/bfd.c:699-883 | exactly the packets that section 6.8.6 of RFC 5880 has discarded are only counted; any other moves the state machine as its table says, for every pair of states, is remembered unless the session goes down, answers or ends a Poll, and sets the time to wait for the next |
| `Bfd.RunKeepsWorld` | lib/bfd.c:786-809 | over every run of two peers, a peer names a discriminator only after accepting a packet with it that the other had sent |
| `Bfd.UpMeansHandshake` | lib/bfd.c:786-873 | a session goes up only after it sent a packet, the peer accepted that packet and then sent one that names this session and says Init or Up |
| `Bfd.PeersComeUp` | lib/bfd.c:840-873 | whatever has happened between two peers that are not administratively down, there is a continuation after which both are up |
| `Bfd.RunKeepsPeers` | lib/bfd.c:786-809 | in every run of two such peers each knows the other's discriminator or none |
| `Bfd.NewPeersOk` | lib/bfd.c:365-391 | two new sessions with discriminators of their own are such peers |
| `BfdSession.NextIsInTime` | lib/bfd.c:836-838 | peers that know each other's intervals agree on them: a packet gives the receiver as many intervals to wait as its multiplier says, and the next is due within the first |
| `Csum.Continue` | lib/csum.c:38-54 | adds the words of the data, an odd last byte padded, in a 32-bit accumulator |
| `Csum.Finish` | lib/csum.c:63-70 | folding ends, with the complement of the ones-complement sum |
| `Csum.Compute` | lib/csum.c:28-32 | the checksum is the complement of the ones-complement sum exactly as long as the carries lost from 32 bits cancel, and always up to 65537 words |
| `Csum.LostCarries` | lib/csum.c:38-54 | cutting a sum to 32 bits keeps the ones-complement sum exactly when the lost carries are a multiple of 65535 and the rest is not a false zero |
| `Csum.BoundIsExact` | lib/csum.c:38-54 | with one word more a carry can be lost, and the checksum is then wrong |
| `Csum.Recalc16IsExact` | lib/csum.c:75-87 | the update is a full recomputation exactly unless the new data is all zero, and always congruent to it |
| `Csum.Update16` | lib/csum.c:75-87 | recalc_csum16, by way of the folding loop: the checksum of the changed data, unless that is all zero |
| `Csum.Recalc32IsExact` | lib/csum.c:92-97 | the same for a 32-bit field, in either byte order |
| `Csum.Update32` | lib/csum.c:92-97 | recalc_csum32: the same for a 32-bit field, in either byte order |
| `Csum.Recalc48` | lib/csum.c:102-113 | the same for a 48-bit field |
| `Csum.Recalc128` | lib/csum.c:118-130 | the same for a 128-bit field |
| `Csum.SwapCommutes` | lib/csum.c:22-32 | swapping the bytes of every word swaps the bytes of the checksum |
| `Csum.OrderSwaps` | lib/csum.c:38-54 | reading the data in the other byte order swaps the bytes of every word |

## Left out

- Trie: insertion and removal are functions on tree values; relinking of nodes in place and their reallocation for concurrent readers are not modelled. The bit tricks that fetch up to 32 bits of a prefix (lib/classifier.c:1830-1899) are slices of a bit sequence.
- Subtables: a subtable is a value that the classifier object replaces; index and rule maps are sets of (hash, list) nodes, which is what the concurrent map provides.
- FlowClassifier.Classifier.Lookup: with conjunctions, that every search is safe is shown to be enough for sound wildcards, not to be needed: an unsafe search may be made up for by a later one.
- MegaflowOverlap.StableExactly: for tables without trie fields, and where no hash collides; with several tries in one stage, which of them rules a table out may also depend on bits that stay wildcarded. That steady searches are needed is shown for each search, not for whole lookups, where a later search may un-wildcard what is missing.
- FlowClassifier.Classifier.Lookup: requires conjunction sets with distinct ids, 1 to 63 clauses and one number of clauses for each id; with 64 the code reports too early (`Conjunctions.FalseReport`).
- classifier_set_prefix_fields, rule iteration, overlap and exact searches, and deferred publication of the subtable vector.
- Reclamation of memory under RCU, weak memory order and wrap-around of bucket counters: stores are sequentially consistent, counters unbounded, and a search works on one table.
- CMap.Map.Insert: random bases come from a finite supply, and the operation reports when it runs out; that re-basing ends is not claimed. Bucket counts are not limited to 32 bits.
- CMap.Map.Rehash: chains are values, so that the pointers of nodes shared by the old and the new table are not modelled.
- cmap_find_protected, whose second bucket comes from the hash before rehashing (lib/cmap.c:493), batch lookup, cursors and positions.
- ConcurrentReader.SearchFinds: rebuilding of the table during a search is not part of the run.
- ovs_flow_tbl_flush, which drops flows without touching mask counts, lookup by unique flow identifier and flow statistics.
- FlowTable.Table.Insert: masks are values with an address; freeing them after a grace period is not modelled.
- Depth of VLAN tags and the transport protocol in the validator: the packet model has neither. Copying of actions into the kernel's buffer and tunnel option parsing.
- ActionExecutor.Executor.ProcessDeferred: the list run for a deferred sample is a parameter, because the executor is given the length of its first action only (datapath/actions.c:885, 1166-1168).
- ActionExecutor.Executor.DoExecuteActions: cloning and flow key re-extraction always succeed; fragmentation on output is part of sending. Flow table and ports do not change during a call.
- The forwarding flag of BFD and its overrides, logging and status; intervals are not truncated to 32 bits of microseconds.
- Netlink, vports, connection tracking, daemons and command line tools.
