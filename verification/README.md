# Verified models of the Wireless Paxos firmware and its Contiki applications

This project models, in Dafny, the parts of the repository that are hardest to
get right, and proves what they guarantee and where they stop guaranteeing it.

**Consensus in the air.** Wireless Paxos runs Paxos on top of Synchrotron: in
every slot some nodes send and each of the others hears one of them or nothing,
and packets carry participation flags that are merged as they flood. `Paxos`
holds what a node does at the end of a slot and `PaxosSteps` what the proofs use of
it; `PaxosSafety` has whole rounds of a network with loss, capture and crashes, with
the number of slots, the initiator and every threshold as parameters. `ChaosFlags` is
the flag bytes, and `PaxosNode` the same node with its fields and flag array changed
in place, proved to run exactly those rounds.

Every learned value was proposed, promises only grow, and no ballot carries two values
while its eight-bit round has not wrapped (`PaxosBallots`). A learned value was accepted
by a majority under one ballot as long as no loser of a competition has waited out its `loser_timeout` and tried again
(`PaxosQuorum`), the order of things that this keeps up being in `PaxosOrder`. The wait is
one slot less than the round, on eight bits. `PaxosBuilds` proves for which builds that is
enough: exactly those of at most 256 slots, where it never runs out, and those in which
nothing is left of it, where losers never try again. For every other build `PaxosRetry`
has a round in which a value is learned without a majority. What the
code does not give is agreement between ballots. `PaxosAgreement` proves it when the
proposers that can compete were given one value, and `PaxosCompetition` (with
`PaxosSlots`) that for two proposers in any network of three nodes or more this is the
exact condition: equal values, or the higher proposer initiating.

`PaxosAdoption` says which value a proposer proposes: the one last reported to it, which
for its first ballot is the one it announced that ballot with. `PaxosTurns` says when a
proposer loses, opens and wins, when a node learns, sends and switches off.

`TwoPhaseCommit` is the sister primitive, for which atomic commitment holds in every
round; `TwoPhaseProgress` proves from which states a round can still be decided and
completed, and `TwoPhaseNode` is its node on flag and vote bytes.

**Antelope**, the database. `LvmCode`, `LvmEval` and `LvmInstance` are the logic
engine's byte code, its evaluator and its in-place emission; `AqlSyntax`,
`AqlGroups`, `AqlBrackets`, `AqlStale`, `AqlParser` and `AqlRender` the WHERE compiler
that emits it by reserving slots and shifting code; `LvmDerive` the derivation of index ranges.
`MaxHeap` and `InlineIndex` are two indexes, `Join` the resumable equi-join.

**Erbium**, the CoAP stack. `CoapOptions`, `CoapMessage` and `CoapBuffer` are the
message codec with its in-place merging of repeated options (RFC 7252), `CoapForeign`
what it makes of messages with any options that others may write;
`WellKnownCore` and `Blockwise` the windowed resource listing and block-wise
transfer (RFC 7959); `Transactions` the retransmission layer.

**The rest.** `JsonTree`, `JsonParse` and `JsonRoundTrip` are the stepwise JSON
printer and the tokenizer; `Codeprop` the code propagation protocol; `Checksum`,
`Verdict` (what `check_ip` accepts, said on bytes) and `Slip` tunslip's Internet
checksum (RFC 1071, RFC 1624) and SLIP link (RFC 1055). `Machine` holds bytes, `long` and their layout, `Common` what several
models share.

Methods with loops and fields follow the C functions and are proved against
functions on values; the properties are proved of those functions and carried by
the methods' postconditions. Where a function is right on part of its inputs only,
the exact condition is a theorem, next to an input that fails; the places where only one
half is proved are named under "Left out".

## Where code and documentation differ

- The comment on Wireless Paxos' PREPARE phase says that an acceptor reports the
  highest proposal it has accepted. The code resets its record of it with every new
  phase and never looks at the acceptor's own (paxos.c:234-272).
- The comment at the end of a lost competition says that the node will not compete
  again in the round. The wait is eight bits wide: that holds for rounds of at most 256
  slots, and not for the 354 slots configured for hardware, where it is 97
  (apps/chaos/paxos/project-conf.h:66) and a value can be learned that is not chosen.
- `parse_where` returns the failed comparison's 0, which is not an error code. It reads
  brackets, but a sub-clause has to be closed twice, and its first connective takes what
  came before it for a side, not what it encloses (aql-parser.c:402-447).
- tunslip compares the "don't fragment" constant with a field in network order, so on
  a little-endian host it looks at another bit.

## Model

| member | source | states |
|---|---|---|
| `PaxosSafety.LearnedWasProposed` | core/net/mac/chaos/lib/paxos/paxos.c:156-606 | Validity over every round, any number of nodes (up to the 256 a ballot can tell apart) and proposers, any loss, capture and crash: a value a node reports as chosen is one that some node was told to propose. |
| `PaxosBuilds.QuorumReadIff` | core/net/mac/chaos/lib/paxos/paxos.c:357-367 | The free quorum read, per build: in every round of every network a learned value is one that a majority has accepted under one ballot, if and only if `PAXOS_ROUND_MAX_SLOTS` is at most 256 or one more than a multiple of 256. |
| `PaxosQuorum.LearnedIsChosen` | core/net/mac/chaos/lib/paxos/paxos.c:357-367 | Its safe half, slot by slot: what is learned is chosen up to one slot after the losers' wait has run out, and for ever if losers do not wait. |
| `PaxosBallots.OneValuePerBallot` | core/net/mac/chaos/lib/paxos/paxos.c:404-534 | Two acceptances under the same ballot, by any nodes at any times of a round, are of the same value, also after losers have retried, as long as no eight-bit round number has wrapped; without a wait none ever does. |
| `PaxosBallots.PromiseGrows` | core/net/mac/chaos/lib/paxos/paxos.c:250-287 | No slot of a round of any length lowers a node's `min_proposal`. |
| `PaxosBallots.RoundsUnwrapped` | apps/chaos/paxos/project-conf.h:66 | The builds that bound covers from end to end: those without a wait, and those of at most 253 times the wait and its slot, among them all of up to 507 slots. |
| `PaxosBallots.RoundHolds` | core/net/mac/chaos/lib/paxos/paxos.c:156-606 | The invariant behind these, kept by every slot: ballots on the air were opened by their owner with one value each, a proposer's ballot grows with its waits, an acceptance is of an opened ballot and its value. |
| `PaxosQuorum.RoundHolds` | core/net/mac/chaos/lib/paxos/paxos.c:156-606 | The invariant behind the quorum read, kept while no loser has tried again: the order of the first round, and the flags of an ACCEPT packet stand for votes cast. |
| `PaxosRetry.LearnedWithoutQuorum` | core/net/mac/chaos/lib/paxos/paxos.c:396-401 | Its other half: in every other build, whatever the wait from 1 to 255, there is a round of six nodes in which a loser announces a ballot below its promise and its value is learned with three acceptors of six. |
| `PaxosRetry.Burn` | core/net/mac/chaos/lib/paxos/paxos.c:396-401 | The wait in between, for any length: two losers count it down together while followers repeat an old packet. |
| `PaxosOrder.PacketKeepsOrder` | core/net/mac/chaos/lib/paxos/paxos.c:156-606 | Why no loser tries again when it does not wait: as long as none has, promises equal the ballot in the buffer, reports stay below it, and a proposer loses only by hearing a higher ballot, once. |
| `PaxosQuorum.SenderVotes` | core/net/mac/chaos/lib/paxos/paxos.c:163-287 | A proposer that sends the ACCEPT packet it opened accepts it itself in the same slot, so its own flag is a vote by the time anyone else counts it. |
| `PaxosSafety.AlikeAgree` | core/net/mac/chaos/lib/paxos/paxos.c:156-606 | Agreement in every round of every network whose proposers were all given the same value. |
| `PaxosAgreement.ContendersAgree` | core/net/mac/chaos/lib/paxos/paxos.c:476-534 | Agreement for any number of nodes and proposers when those that can compete, the initiator and the proposers above it if it proposes itself, were given one value; the others never start a ballot that is heard. |
| `PaxosCompetition.AgreementIff` | core/net/mac/chaos/lib/paxos/paxos.c:156-606 | With two proposers in any network of three nodes or more, any initiator and thresholds, and any build with room for the competition whose losers never try again, all rounds agree if and only if the two values are equal or the initiator is the proposer with the higher index. |
| `PaxosQuorum.OneBallotAgrees` | core/net/mac/chaos/lib/paxos/paxos.c:277-287 | Agreement fails only between ballots: a round whose acceptances are all under one ballot agrees, whatever values were proposed. |
| `PaxosCompetition.CompetitionSplits` | core/net/mac/chaos/lib/paxos/paxos.c:156-606 | The rounds that show it, for every other initiator and every network of three or more: after six passes over half the nodes two proposers have each learned their own value. |
| `PaxosCompetition.PrepareReplyIsSilent` | core/net/mac/chaos/lib/paxos/paxos.c:232-272 | Whatever a node has accepted, its reply to a new PREPARE carries just the proposal and value that came in the packet. |
| `PaxosCompetition.RelayDropsReport` | core/net/mac/chaos/lib/paxos/paxos.c:263-272 | A node that hears a report at least as high as its own merges the flags behind it but keeps sending its old report. |
| `PaxosCompetition.LateStartKeepsFlags` | core/net/mac/chaos/lib/paxos/paxos.c:491-503 | A proposer that starts on hearing a lower ballot sends its own ballot with the flags collected for the other one. |
| `PaxosSteps.AcceptorDoes` | core/net/mac/chaos/lib/paxos/paxos.c:225-384 | What the proofs use of the acceptor part: which packet is taken over, when a value is accepted and promised, which flags are counted, when a value is learned. |
| `PaxosSteps.ProposerDoes` | core/net/mac/chaos/lib/paxos/paxos.c:386-534 | What the proofs use of the proposer part: it makes one of eight moves, and what each does to ballot, phase, buffer and promise; which value it adopts and when it moves are said by the two modules below. |
| `PaxosAdoption.ValueIsLastReported` | core/net/mac/chaos/lib/paxos/paxos.c:404-521 | In every round a proposer's value is the one last reported to it as accepted when it counted replies or lost, and its own only if there was no report. |
| `PaxosAdoption.OpensLastReported` | core/net/mac/chaos/lib/paxos/paxos.c:404-450 | The ACCEPT packet a proposer opens carries the value on record as accepted, and if none is, the one last reported before, or its own. |
| `PaxosAdoption.AcceptorRecords` | core/net/mac/chaos/lib/paxos/paxos.c:225-316 | What is on record: cleared by a newer ballot or phase, the highest report of PREPARE packets, and in the ACCEPT phase what the node has accepted itself if that is higher. |
| `PaxosAdoption.OpensWhatItAnnounced` | core/net/mac/chaos/lib/paxos/paxos.c:225-521 | Over a whole round: a proposer opens its first ballot with the value it announced it with, if that was a report, and with the one it was given if not; no reply can change that. |
| `PaxosAdoption.LateStarterKeepsAccepted` | core/net/mac/chaos/lib/paxos/paxos.c:491-503 | So a proposer that accepted a value before it started opens its first ballot with that value. |
| `PaxosAdoption.LateStart` | core/net/mac/chaos/lib/paxos/paxos.c:491-503 | A proposer that hears the ACCEPT packet of a lower ballot accepts it and starts its own ballot reporting it. |
| `PaxosAdoption.LateStarterOpens` | core/net/mac/chaos/lib/paxos/paxos.c:410-414 | When it then counts a majority in its own packet it opens ACCEPT with that value, whatever it was given. |
| `PaxosAdoption.SevenNotNine` | core/net/mac/chaos/lib/paxos/paxos.c:404-521 | For example node 2 of 3, given 9, that accepted 7 under ballot 256 proposes 7 under 258. |
| `PaxosTurns.LosesIff` | core/net/mac/chaos/lib/paxos/paxos.c:404-521 | In every round a competing proposer goes on to its next ballot if and only if it looks at a packet of a higher ballot, or counts replies and has a higher ballot on record; and what goes on record. |
| `PaxosTurns.HeartbeatStartsRound` | core/net/mac/chaos/lib/paxos/paxos.c:187-203 | On the first heartbeat a proposer announces its ballot with its own flag alone and promises it to itself. |
| `PaxosTurns.OpensIff` | core/net/mac/chaos/lib/paxos/paxos.c:404-474 | It opens ACCEPT, or has won, if and only if it counts a majority of replies to its own ballot and phase and has no higher ballot on record. |
| `PaxosTurns.WaitsOut` | core/net/mac/chaos/lib/paxos/paxos.c:396-401 | A waiting loser counts one slot for each packet it looks at, whatever it says, and then announces its ballot with its value. |
| `PaxosTurns.LearnsIff` | core/net/mac/chaos/lib/paxos/paxos.c:357-367 | A node learns a value if and only if it looks at a current ACCEPT packet with a majority of flags that reports its own ballot. |
| `PaxosTurns.SendsIff` | core/net/mac/chaos/lib/paxos/paxos.c:163-601 | After hearing a packet a node that is not done sends in the next slot if and only if it is ahead of the packet, was told something new, announces a ballot, or an ACCEPT packet has all flags; followers may keep quiet about PREPARE packets with a majority. |
| `PaxosTurns.SwitchesOffIff` | core/net/mac/chaos/lib/paxos/paxos.c:369-601 | In every round a node sees completion if and only if all flags of an ACCEPT packet (or of a heartbeat) are in, and one that does not crash switches off if and only if it has begun to send more than `N_TX_COMPLETE` times in a row since, without news. |
| `PaxosNode.Participant.constructor` | core/net/mac/chaos/lib/paxos/paxos.c:719-755 | A node after `paxos_round_begin` from a reset state and the opening call of `process`, its flags a byte array. |
| `PaxosNode.Participant.Run` | core/net/mac/chaos/lib/paxos/paxos.c:156-606 | One call of `process` on a received frame of bytes is, on the sets the bytes stand for, the step that the rounds above are made of. |
| `PaxosNode.RunSlot` | core/net/mac/chaos/lib/paxos/paxos.c:156-606 | All nodes' calls of one slot, each on the frame that the chosen sender's bytes make, take the network of byte arrays to the next network of the protocol. |
| `PaxosNode.RunRound` | core/net/mac/chaos/lib/paxos/paxos.c:156-606 | Running a whole round on the byte arrays ends in the last network of that round, so every theorem on rounds is one about the bytes. |
| `PaxosNode.SetUp` | core/net/mac/chaos/lib/paxos/paxos.c:719-755 | The arrays of a fresh network stand for the first network of a round. |
| `PaxosNode.Participant.Transmit` | core/net/mac/chaos/lib/paxos/paxos.c:163-185 | The frame sent has the bytes of the node's own buffer. |
| `PaxosNode.Participant.Start` | core/net/mac/chaos/lib/paxos/paxos.c:495-502 | Starting a ballot in place. |
| `PaxosNode.Participant.Take` | core/net/mac/chaos/lib/paxos/paxos.c:239-249 | Taking over a packet copies its flag bytes. |
| `PaxosNode.Participant.Heartbeat` | core/net/mac/chaos/lib/paxos/paxos.c:187-220 | Heartbeat packets: proposers start, others merge flags and pass it on. |
| `PaxosNode.Participant.AcceptorLogic` | core/net/mac/chaos/lib/paxos/paxos.c:225-384 | The acceptor part in place. |
| `PaxosNode.Participant.Prepare` | core/net/mac/chaos/lib/paxos/paxos.c:250-273 | The PREPARE branch in place. |
| `PaxosNode.Participant.Accept` | core/net/mac/chaos/lib/paxos/paxos.c:277-310 | The ACCEPT branch in place. |
| `PaxosNode.Participant.CollectFlags` | core/net/mac/chaos/lib/paxos/paxos.c:318-345 | Merging the flag bytes, counting before adding the own flag, and the completeness test by sum. |
| `PaxosNode.Participant.Learn` | core/net/mac/chaos/lib/paxos/paxos.c:347-379 | Reduced sending, learning and completion. |
| `PaxosNode.Participant.ProposerLogic` | core/net/mac/chaos/lib/paxos/paxos.c:386-534 | The proposer part in place. |
| `PaxosNode.Participant.Replies` | core/net/mac/chaos/lib/paxos/paxos.c:404-474 | Counting replies to the own ballot and the two loss tests. |
| `PaxosNode.Participant.LoseCompetition` | core/net/mac/chaos/lib/paxos/paxos.c:506-521 | A lost competition: next ballot, adopted value, the wait. |
| `PaxosNode.Participant.DecideRadio` | core/net/mac/chaos/lib/paxos/paxos.c:545-601 | The Synchrotron state for the next slot. |
| `ChaosFlags.CountFlags` | core/net/mac/chaos/lib/paxos/paxos.c:82 | Summing `bit_count` over the flag bytes is the number of nodes whose flag is set. |
| `ChaosFlags.FlagBytes.Merge` | core/net/mac/chaos/lib/paxos/paxos.c:321-329 | Or-ing the flag bytes in place is the union of the node sets, and the difference noted is exactly a difference of the sets. |
| `ChaosFlags.SameSetSameBytes` | core/net/mac/chaos/lib/paxos/paxos.c:321-329 | Flag arrays of one length stand for the same set if and only if they are the same bytes. |
| `ChaosFlags.FlagBytes.constructor` | core/net/mac/chaos/lib/paxos/paxos.c:719-755 | A cleared array with the own flag set. |
| `ChaosFlags.FlagBytes.Add` | core/net/mac/chaos/lib/paxos/paxos.c:339-342 | Setting a bit adds the node and no other. |
| `ChaosFlags.FlagBytes.Reset` | core/net/mac/chaos/lib/paxos/paxos.c:523-531 | Clearing the array and setting the own bit leaves that node alone. |
| `ChaosFlags.FlagBytes.Copy` | core/net/mac/chaos/lib/paxos/paxos.c:239-249 | The array becomes the received one. |
| `ChaosFlags.FlagBytes.Full` | core/net/mac/chaos/lib/paxos/paxos.c:206-217 | The summing loop on the array decides whether every node is in. |
| `ChaosFlags.SumTellsCompletion` | core/net/mac/chaos/lib/paxos/paxos.c:70-73 | The sum of the flag bytes reaches `FLAG_SUM` if and only if every node has its flag set. |
| `ChaosFlags.SumFlags` | core/net/mac/chaos/lib/paxos/paxos.c:206-217 | The loop that sums the bytes and compares decides exactly that. |
| `TwoPhaseCommit.DecisionsAgree` | apps/chaos/2pc/2pc-app.c:85-107 | Atomic commitment: wherever a round is cut off, if some node decides to commit then every other commits or is uncertain; none aborts, by decision or by timeout. |
| `TwoPhaseCommit.DecisionIsRight` | core/net/mac/chaos/lib/2pc/2pc.c:183-199 | In every round the phase COMMIT is reached only if all nodes were given the proposed value, ABORT only if some node was not. |
| `TwoPhaseCommit.CompleteMeansAll` | core/net/mac/chaos/lib/2pc/2pc.c:200-209 | A node that has seen completion knows that every node holds the same decision. |
| `TwoPhaseCommit.NeverFails` | apps/chaos/2pc/2pc-app.c:98-104 | No node ends in the commit phase against its own vote. |
| `TwoPhaseCommit.RoundKeeps` | core/net/mac/chaos/lib/2pc/2pc.c:123-277 | The invariant kept by every slot: votes are those of the agreeing nodes among the flags, flags stand for nodes that voted and sent, decisions start at the initiator. |
| `TwoPhaseProgress.InitiatorDecides` | core/net/mac/chaos/lib/2pc/2pc.c:183-199 | In every round the initiator leaves PROPOSE in the slot in which its flags and those it hears are together all nodes and in no other, to COMMIT if and only if the votes together are all nodes, and else to ABORT. |
| `TwoPhaseProgress.FinishIff` | core/net/mac/chaos/lib/2pc/2pc.c:123-277 | From every state of every round: some continuation ends with every node in COMMIT and committing, if all were given the proposed value, and in ABORT and aborting if not, if and only if all have decided or there are two nodes or more, none undecided is off, and a decision, if there is one, is at a node that is on; 60 slots a node are then enough. |
| `TwoPhaseProgress.AllOnCanFinish` | core/net/mac/chaos/lib/2pc/2pc.c:123-277 | In particular from every state of a round of two nodes or more in which no node is off. |
| `TwoPhaseProgress.CanComplete` | core/net/mac/chaos/lib/2pc/2pc.c:200-209 | And if none has seen completion yet, some continuation lets every node see it, 100 slots a node being enough. |
| `TwoPhaseProgress.Pull` | core/net/mac/chaos/lib/2pc/2pc.c:123-277 | The step of these: from any state and for any two nodes that are on, at most 20 slots after which the one has heard the other and no other node anything. |
| `TwoPhaseProgress.SendsIff` | core/net/mac/chaos/lib/2pc/2pc.c:161-228 | A node that has heard a packet sends in the next slot if and only if they were in different phases, their flags differed, or all flags are in. |
| `TwoPhaseProgress.SwitchesOffIff` | core/net/mac/chaos/lib/2pc/2pc.c:224-244 | A node that does not crash switches off if and only if it has begun to send `N_TX_COMPLETE` times since it saw completion and has heard a packet that had all flags. |
| `TwoPhaseProgress.OffHasCompleted` | core/net/mac/chaos/lib/2pc/2pc.c:200-244 | A node that is off without a crash has seen completion, and all nodes have decided. |
| `TwoPhaseProgress.UncertainIff` | apps/chaos/2pc/2pc-app.c:85-107 | Wherever a round is cut off, a node is left uncertain if and only if it is no initiator, was given the proposed value, has sent in some slot and has not heard of a decision. |
| `TwoPhaseNode.Participant.constructor` | core/net/mac/chaos/lib/2pc/2pc.c:295-320 | A node at the start of the round, the initiator having voted. |
| `TwoPhaseNode.Participant.Vote` | core/net/mac/chaos/lib/2pc/2pc.c:145-160 | The vote at the first valid packet. |
| `TwoPhaseNode.Participant.MergePacket` | core/net/mac/chaos/lib/2pc/2pc.c:164-209 | Merging flags and votes, the initiator's decision, completion. |
| `TwoPhaseNode.Participant.Handle` | core/net/mac/chaos/lib/2pc/2pc.c:145-223 | What a received packet does, by phase. |
| `TwoPhaseNode.Participant.DecideRadio` | core/net/mac/chaos/lib/2pc/2pc.c:224-266 | The next radio state and `did_tx`. |
| `TwoPhaseNode.Participant.Run` | core/net/mac/chaos/lib/2pc/2pc.c:123-277 | One call of `process` on the flag and vote bytes of a frame is, on the sets they stand for, the step the rounds are made of. |
| `TwoPhaseNode.RunSlot` | core/net/mac/chaos/lib/2pc/2pc.c:123-277 | All nodes' calls of one slot take the network of byte arrays to the next network of the protocol. |
| `TwoPhaseNode.Participant.RxFull` | core/net/mac/chaos/lib/2pc/2pc.c:183-209 | The sum of the received flag bytes tells whether every node has voted. |
| `LvmEval.ExprLocality` | apps/antelope/lvm.c:119-220 | Wherever the prefix code of an expression lies, evaluation returns its denotation or its first error from the left and moves `ip` by exactly the code length, whatever surrounds it. |
| `Machine.TruncDivIs` | apps/antelope/lvm.c:209 | Division as in C: a quotient q with a = b*q + r, &#124;r&#124; < &#124;b&#124;, and r zero or of the sign of a. |
| `Machine.QuotientIsUnique` | apps/antelope/lvm.c:209 | There is one such quotient only. |
| `Machine.WrapIsUnique` | apps/antelope/lvm.c:203-209 | The wrap-around of a sum or product is the only `long` congruent to it modulo the word. |
| `LvmEval.OperationRuns` | apps/antelope/lvm.c:165-220 | The value of an operation under evaluation, wherever its code lies, is its operands' sum, difference or product up to a multiple of the word, or such a quotient, or a math error if and only if the divisor is zero. |
| `LvmEval.YieldsOne` | apps/antelope/lvm.c:203-209 | These laws leave one result. |
| `LvmEval.ComparisonRuns` | apps/antelope/lvm.c:257-298 | A comparison of any two expressions runs as the order of their values. |
| `LvmEval.SevenHalves` | apps/antelope/lvm.c:203-209 | For example `x / 2 = 3` accepts a row with x = 7. |
| `LvmEval.PredLocality` | apps/antelope/lvm.c:221-298 | The same for predicates with AND, OR, NOT and every comparison. |
| `LvmEval.ExecuteDenotes` | apps/antelope/lvm.c:379-404 | A program that starts with the code of a predicate computes that predicate. |
| `LvmEval.ExpressionIsNoProgram` | apps/antelope/lvm.c:379-404 | An expression by itself is refused with an execution error, whatever follows its code. |
| `LvmCode.CodeExample` | apps/antelope/lvm.h:75-97 | The code of `v3 - 2 <> 0`, byte for byte. |
| `LvmInstance.Instance.constructor` | apps/antelope/lvm.c:300-312 | A reset machine: empty code, no names, no error. |
| `LvmInstance.Instance.JumpToOperand` | apps/antelope/lvm.c:314-327 | Reserves an operator node, or notes the error and keeps the end. |
| `LvmInstance.Instance.ShiftForOperator` | apps/antelope/lvm.c:329-348 | Moves exactly the code from the given offset up by one node, in place, and leaves the rest. |
| `LvmInstance.Instance.SetEnd` | apps/antelope/lvm.c:356-370 | Sets the end, or notes the error and keeps it. |
| `LvmInstance.Instance.Put` | apps/antelope/lvm.c:372-439 | Emission writes at the end and nowhere else. |
| `LvmInstance.Instance.InsertNode` | apps/antelope/aql-parser.c:325-344 | Shift, write, restore: the code becomes what was before the offset, the node, what was behind it. |
| `LvmInstance.Instance.FillNode` | apps/antelope/aql-parser.c:392-393 | A reserved node is filled in and the code emitted behind it kept. |
| `LvmInstance.Instance.RegisterVariable` | apps/antelope/lvm.c:441-460 | A name is registered once, and only while there is room. |
| `LvmInstance.Instance.SetVariableValue` | apps/antelope/lvm.c:462-474 | Writes the slot of the name, if it is in range. |
| `LvmInstance.IndexOfStable` | apps/antelope/lvm.c:105-117 | Registering more names does not move those already there. |
| `LvmInstance.NamesStayApart` | apps/antelope/lvm.c:441-460 | Registering keeps the names apart, and a second time it changes nothing. |
| `LvmInstance.Instance.EvalArgument` | apps/antelope/lvm.c:176-193 | In place evaluation of one argument moves `ip` as the evaluator over byte sequences does. |
| `LvmInstance.Instance.EvalExpr` | apps/antelope/lvm.c:165-220 | The same for an arithmetic operation. |
| `LvmInstance.Instance.EvalClause` | apps/antelope/lvm.c:234-246 | The same for one side of a connective. |
| `LvmInstance.Instance.EvalLogic` | apps/antelope/lvm.c:221-298 | The same for a logical or relational operator. |
| `LvmInstance.Instance.Execute` | apps/antelope/lvm.c:379-404 | Running the machine gives the value, or the error, of the evaluator on the code buffer. |
| `LvmDerive.CombineTables` | apps/antelope/lvm.c:496-580 | Intersection and union of range tables, entry by entry, without touching the operands. |
| `LvmDerive.CombinedTightly` | apps/antelope/lvm.c:496-580 | The union of two ranges is the least that holds both, and their intersection admits exactly what both admit. |
| `LvmDerive.DeriveRelation` | apps/antelope/lvm.c:582-684 | The recursive derivation in place fills the caller's table with the derived ranges and stops where the bytes end. |
| `LvmDerive.DeriveLocality` | apps/antelope/lvm.c:582-684 | Deriving from the code of a predicate, wherever it lies, is deriving from the predicate. |
| `LvmDerive.DerivationSound` | apps/antelope/lvm.c:496-684 | Every assignment that an AND/OR predicate of variable-left comparisons accepts lies in all derived ranges, when both sides of each OR compare the same variables. |
| `LvmDerive.SoundIff` | apps/antelope/lvm.c:496-684 | For every such predicate, of any shape: the derived ranges admit all it accepts if and only if each nonempty box of its disjunctive normal form lies inside them. |
| `LvmDerive.BoxesAccept` | apps/antelope/lvm.c:496-684 | Those boxes hold exactly the accepted assignments. |
| `LvmDerive.DerivedRangesKeepAcceptedRows` | apps/antelope/lvm.c:686-690 | The same on bytes: no row that executing the code accepts is outside the ranges derived from that code. |
| `LvmDerive.ConjunctionExact` | apps/antelope/lvm.c:496-538 | For AND-only predicates the ranges accept exactly what the predicate accepts, and evaluation never fails. |
| `LvmDerive.ComparisonSoundIff` | apps/antelope/lvm.c:622-684 | A comparison derives a sound range if and only if the variable is on the left or the operator and constant happen to allow either order. |
| `LvmDerive.OrSoundIff` | apps/antelope/lvm.c:539-580 | OR of two soundly derived sides is derived soundly if and only if no side that can hold is cut down by a range the other gives to a variable of its own. |
| `LvmDerive.OrOfTwoVariablesIff` | apps/antelope/lvm.c:539-580 | For two comparisons on different variables: if and only if each that can hold finds the other's range to be all of `long`. |
| `AqlSyntax.WhereCodeIsPrefixCode` | apps/antelope/aql-parser.c:290-447 | For clauses whose sides have at most one operator, what the reserve-and-shift emission leaves is exactly the prefix code of the right-nested tree. |
| `AqlSyntax.CompiledWhereMeans` | apps/antelope/aql-parser.c:267-447 | Executing that code over the variable slots gives the meaning of the clause over the row. |
| `AqlSyntax.FlatChainCompiles` | apps/antelope/aql-parser.c:311-344 | A chain of operands compiles to the code of some expression if and only if it has at most one operator. |
| `AqlSyntax.LongChainIsNoCode` | apps/antelope/aql-parser.c:325 | From two operators on, the emitted bytes are the code of no expression, because the insertion point is overwritten. |
| `AqlSyntax.ComparisonRunsAs` | apps/antelope/aql-parser.c:311-344 | No comparison is refused for its length: `h o1 i1 o2 i2 ... R rhs`, with any number of operators, runs as `(h o1 i1) R (i2 o2 (... rhs))` with the first operation of the right side only, and as written when each side has at most one operator. |
| `AqlSyntax.ComparisonCodeIs` | apps/antelope/aql-parser.c:350-400 | The bytes emitted for it are the code of that tree followed by what is left of the right side. |
| `AqlSyntax.LongChainMisread` | apps/antelope/aql-parser.c:311-344 | For example `a o1 b o2 x R y` runs as `(a o1 b) R (x o2 y)`. |
| `AqlRender.WhereReadBack` | apps/antelope/aql-parser.c:402-447 | Every clause without sub-clauses, with brackets nested to any depth in its expressions, is read back from its tokens, whatever follows it. |
| `AqlRender.ComparisonReadBack` | apps/antelope/aql-parser.c:350-400 | The same for one comparison. |
| `AqlRender.ChainReadBack` | apps/antelope/aql-parser.c:290-348 | Every expression, brackets closed once behind an operator and twice at the front, is read back. |
| `AqlRender.HeadClosedTwice` | apps/antelope/aql-parser.c:298-303 | A bracket at the front of an expression is read only if it is closed by two brackets in a row. |
| `AqlRender.StrayTokenOpens` | apps/antelope/aql-parser.c:321-323 | Behind an operator any token that is no operand is taken for an opening bracket, and the expression behind it need not be closed. |
| `AqlRender.ReturnCodeIff` | apps/antelope/aql-parser.c:402-447 | For every token sequence without sub-clauses: a clause is refused if and only if its first comparison cannot be read; 0, which is no error code, is returned if and only if a later one cannot; and OK if and only if all can. |
| `AqlRender.CutOffClauseIsAccepted` | apps/antelope/aql-parser.c:436-440 | For example a clause cut off in its second comparison returns 0. |
| `AqlParser.Parser.ParseOperand` | apps/antelope/aql-parser.c:267-288 | Appends exactly the operand's code, registering its name, or leaves everything as it was. |
| `AqlParser.Parser.ParseHead` | apps/antelope/aql-parser.c:290-309 | The first item of an expression, bracketed or plain. |
| `AqlParser.Parser.ParseItem` | apps/antelope/aql-parser.c:321-323 | The item after an operator, with the second attempt starting behind the token that failed the first. |
| `AqlParser.Parser.ParseChain` | apps/antelope/aql-parser.c:290-348 | Appends the code of the chain that the grammar reads at this position. |
| `AqlParser.Parser.ParseLeft` | apps/antelope/aql-parser.c:356-362 | Reserves the operator node and emits the left side behind it. |
| `AqlParser.Parser.ParseComparison` | apps/antelope/aql-parser.c:350-400 | Appends the code of the comparison: node, left side, right side. |
| `AqlParser.Parser.ParseArm` | apps/antelope/aql-parser.c:416-440 | A connective inserted where the last arm began, then a comparison, or a sub-clause parsed by the same routine and closed by a bracket. |
| `AqlParser.Parser.ParseWhere` | apps/antelope/aql-parser.c:402-447 | For every token sequence, sub-clauses included: leaves exactly the code that the grammar's clause emits behind and in front of the code there is, with the return code of the grammar, zero included. |
| `AqlGroups.SubClauseClosedTwice` | apps/antelope/aql-parser.c:311-319 | A bracketed sub-clause is read only if it is closed by two brackets in a row, the expression at its end taking the first for its own. |
| `AqlRender.ClauseReadBack` | apps/antelope/aql-parser.c:402-447 | Written with sub-clauses closed twice, or once behind another sub-clause's end, every clause none of whose arms starts with a bracket of its own expression is read back. |
| `AqlRender.UnclosedIsRefused` | apps/antelope/aql-parser.c:416-440 | A sub-clause that what follows does not close makes the whole clause a syntax error. |
| `AqlRender.UnreadableIsRefused` | apps/antelope/aql-parser.c:416-440 | And so does one whose first comparison cannot be read. |
| `AqlGroups.EmitsRunsAs` | apps/antelope/aql-parser.c:402-447 | What is left for a clause with a sub-clause at its end, nested to any depth, is the code of a tree in which the first connective of each sub-clause takes all that came before for its left side. |
| `AqlBrackets.RunsAsWrittenIff` | apps/antelope/aql-parser.c:402-447 | For every such clause: it has the value of what was written for all values of its comparisons if and only if at every level the first connective of a sub-clause is also each connective of the level around it. |
| `AqlGroups.HarmlessRunsAsWritten` | apps/antelope/aql-parser.c:402-447 | With such brackets it means what was written for every row, also where evaluation fails. |
| `AqlBrackets.RunsOn` | apps/antelope/aql-parser.c:402-447 | The value of the tree that runs, from those of its comparisons. |
| `AqlBrackets.DenotesOn` | apps/antelope/lvm.c:221-298 | Execution on a row is one such valuation. |
| `AqlGroups.BracketsRegroup` | apps/antelope/aql-parser.c:402-447 | For example `a c1 (b c2 d)` runs as `(a c1 b) c2 d`. |
| `AqlBrackets.TripleIff` | apps/antelope/aql-parser.c:402-447 | Which is what was written if and only if the connectives are the same. |
| `AqlStale.FollowedIsCodeIff` | apps/antelope/aql-parser.c:416-440 | A connective behind a sub-clause goes into the last operand of the arm before it: the bytes left for `a c1 (b c2 d) c3 e` are the code of a predicate if and only if that operand is one of the two constants whose bytes look like a connective. |
| `AqlStale.PredsAgree` | apps/antelope/lvm.c:221-298 | No bytes are the code of two predicates. |
| `AqlGroups.FlatRead` | apps/antelope/aql-parser.c:402-447 | Without sub-clauses the grammar reads the right-nested clause of `AqlSyntax`. |
| `AqlGroups.FlatEmits` | apps/antelope/aql-parser.c:402-447 | And the emission leaves its code. |
| `AqlParser.SelectRow` | apps/antelope/relation.c:786-823 | Compiling a clause, loading a row and executing gives the clause's meaning on the row, or with a sub-clause at its end that of the tree it runs as. |
| `MaxHeap.RunThenLookup` | apps/antelope/index-maxheap.c:447-744 | After any run of insertions on a fresh heap, accepted or refused, the first equality lookup returns an accepted tuple of the key, and none only if none was accepted. |
| `MaxHeap.Heap.Insert` | apps/antelope/index-maxheap.c:447-492 | Keeps the tree and puts the pair in; refuses if and only if a full bucket one level above the bottom covers the hash. |
| `MaxHeap.Heap.GetFirst` | apps/antelope/index-maxheap.c:668-744 | Whatever the cache holds, the first `get_next` answers rightly, with a stored tuple of the key or none if there is none, if and only if the cached copy serves the lookup. |
| `MaxHeap.Heap.RightIff` | apps/antelope/index-maxheap.c:351-392 | When a copy serves: it is not of the deepest bucket of the walk, or what it shows for the key was stored, or it shows nothing and the key is not in that bucket or is higher up. |
| `MaxHeap.Heap.CurrentCopyServes` | apps/antelope/index-maxheap.c:351-392 | A current copy always does. |
| `MaxHeap.Heap.ScanUp` | apps/antelope/index-maxheap.c:714-738 | The buckets above the deepest are read afresh, the cache having one entry. |
| `MaxHeap.ChildrenPartition` | apps/antelope/index-maxheap.c:416-445 | The two children of a node split its range: every hash in the node is in exactly one of them. |
| `MaxHeap.WalkFromRoot` | apps/antelope/index-maxheap.c:262-293 | `heap_find` from the root visits exactly the nodes that contain the hash above the bottom level. |
| `MaxHeap.WalkShort` | apps/antelope/index-maxheap.c:697-706 | No walk is longer than the stack of visited buckets. |
| `MaxHeap.SplitKeepsTree` | apps/antelope/index-maxheap.c:416-445 | Splitting an unsplit node keeps the tree. |
| `MaxHeap.Heap.constructor` | apps/antelope/index-maxheap.c:494-585 | A fresh heap is a tree with nothing stored and a cold cache. |
| `MaxHeap.Heap.Find` | apps/antelope/index-maxheap.c:262-293 | One step down the walk. |
| `MaxHeap.Heap.HeapInsert` | apps/antelope/index-maxheap.c:225-260 | The first free node that fits, or none. |
| `MaxHeap.Heap.BucketSplit` | apps/antelope/index-maxheap.c:416-445 | Gives an unsplit node its two children and changes nothing else; fails exactly if it has them already. |
| `MaxHeap.Heap.FindDeepest` | apps/antelope/index-maxheap.c:454-461 | The walk of an insertion ends at the deepest node for the hash. |
| `MaxHeap.Heap.MakeRoom` | apps/antelope/index-maxheap.c:471-482 | Splitting a full bucket yields an empty one for the hash unless the bottom is reached. |
| `MaxHeap.Heap.Append` | apps/antelope/index-maxheap.c:394-414 | Adds the pair to its bucket and to nothing else. |
| `MaxHeap.Heap.BucketLoad` | apps/antelope/index-maxheap.c:351-392 | A cached bucket is taken as it is; another is read over the old entry. |
| `MaxHeap.Heap.ScanBucket` | apps/antelope/index-maxheap.c:720-738 | Finds the key in the bucket as the cache has it. |
| `MaxHeap.Heap.CollectWalk` | apps/antelope/index-maxheap.c:691-707 | Records the walk. |
| `MaxHeap.WarmCacheMisses` | apps/antelope/index-maxheap.c:351-392 | A history that fails: a bucket cached by a lookup is not refreshed by a later insertion, and the next lookup misses it. |
| `InlineIndex.BinarySearch` | apps/antelope/index-inline.c:103-152 | Ends at the target, or next to where it would be; reports a missing exact match; and reads a row that does not exist if and only if no row is at or below the target, the upper bound having wrapped. |
| `InlineIndex.Index.RangeSearch` | apps/antelope/index-inline.c:153-181 | Both ends of a range, the failed equality search, and when it is undefined. |
| `InlineIndex.Index.GetNext` | apps/antelope/index-inline.c:201-227 | The search on the first call, one row per call after it. |
| `InlineIndex.Index.Collect` | apps/antelope/index-inline.c:201-227 | All answers: consecutive rows, each once, every row in range among them, at most the first and last outside it; for an equality search exactly the matching row or none. |
| `Join.Handle.constructor` | apps/antelope/relation.c:1058-1130 | A new join has the whole nested loop before it. |
| `Join.Handle.Process` | apps/antelope/relation.c:962-1056 | Each call hands out the first of the remaining pairs and leaves the rest, or reports the end; resuming in the inner loop loses and repeats nothing. |
| `Join.Handle.InnerLoop` | apps/antelope/relation.c:1012-1051 | One round of the inner loop, entered by falling in or by the jump. |
| `Join.Handle.Emit` | apps/antelope/relation.c:1023-1050 | The row for a right tuple, or the error for a tuple that is not there. |
| `Join.Handle.FillJoinRow` | apps/antelope/relation.c:1034-1042 | The copy loop over the source map puts each attribute where the ones before it end. |
| `Join.ReadJoin` | apps/antelope/relation.c:962-1056 | A join read to its end gives the rows of the nested loop, in one call more than there are rows, and in each row every attribute is the bytes of its source, in the left or right tuple it names. |
| `Join.ProjectCombines` | apps/antelope/relation.c:1034-1042 | A row put together has each attribute at the sum of the sizes before it, the bytes of the left or right tuple from its offset on. |
| `Join.RowsCombine` | apps/antelope/relation.c:1034-1042 | The same for all rows of a join. |
| `Join.PairListedIff` | apps/antelope/relation.c:985-1051 | The nested loop lists a pair if and only if the join values are equal, for an index that lists exactly the matching rows of every left value. |
| `Join.PairsInOrder` | apps/antelope/relation.c:985-1051 | It lists each pair once, by left row. |
| `Join.InlineLookupIsExact` | apps/antelope/index-inline.c:201-227 | The inline index is such an index on a growing attribute when no left value is below the first right row. |
| `Join.InlineEquality` | apps/antelope/index-inline.c:201-227 | What its iterator returns for one value is that list. |
| `CoapMessage.RoundTripIff` | apps/er-coap/er-coap.c:310-696 | `coap_parse_message` of `coap_serialize_message` gives back type, code, id, token, option set, every value and the payload if and only if each value survives its own coding. |
| `CoapMessage.ParseSerialized` | apps/er-coap/er-coap.c:310-696 | In general it gives back the message with block sizes rounded down and split strings merged. |
| `CoapForeign.ParseWritten` | apps/er-coap/er-coap.c:442-696 | Parsing any message that anyone writes, with options of any numbers and bodies in order, reads header, token, each option in turn and the payload, cut to the chunk size. |
| `CoapForeign.WireIsWritten` | apps/er-coap/er-coap.c:310-423 | What the serializer writes for a message whose header fits is that message written out, its options in ascending order and a payload mark only before a payload. |
| `CoapForeign.OneOptionMeans` | apps/er-coap/er-coap.c:512-688 | What one option becomes, by its number in the registry, for any body: cut, as a big-endian number of four bytes or two, as a block, refused, or taken as it is. |
| `CoapForeign.RepeatedMeans` | apps/er-coap/er-coap.c:612-644 | Repeated path options are joined by slashes and repeated query options by ampersands. |
| `CoapForeign.UnknownOption` | apps/er-coap/er-coap.c:684-687 | An unknown option with an odd number makes the message a bad option, unless it was refused before; one with an even number leaves everything else as it is without it. |
| `CoapForeign.BadRequestIff` | apps/er-coap/er-coap.c:454-471 | Any bytes are a bad request if and only if there is a header and its version is not 1 or its token length is over eight. |
| `CoapForeign.WireExample` | apps/er-coap/er-coap.c:310-423 | A request with two path options, a query and a block, byte for byte. |
| `CoapForeign.HeaderExamples` | apps/er-coap/er-coap.c:97-133 | Option headers where the size classes meet, byte for byte. |
| `CoapMessage.RecoveredIff` | apps/er-coap/er-coap.c:173-239 | A value survives if and only if its kind's condition holds: a power-of-two block size, a split string without leading separator and with an even run of trailing ones. |
| `CoapMessage.BlockRoundTrip` | apps/er-coap/er-coap.h:163-172 | A block option comes back with number, flag and the size rounded down to a power of two. |
| `CoapMessage.BlockSizeSurvives` | apps/er-coap/er-coap.c:651-672 | Exactly the eight powers of two from 16 to 2048 survive. |
| `CoapMessage.OptionsParse` | apps/er-coap/er-coap.c:490-692 | Parsing the delta-coded options of any option set recovers it and stops at the payload. |
| `CoapOptions.ExtensionReadBack` | apps/er-coap/er-coap.c:97-133 | Deltas and lengths of every size class are read back from nibble and extension. |
| `CoapOptions.IntRoundTrip` | apps/er-coap/er-coap.c:84-171 | Every 32-bit value is read back from its shortest bytes. |
| `CoapOptions.MergeIsJoin` | apps/er-coap/er-coap.c:220-239 | Merging repeated options is joining the parts with the separator after dropping leading empty ones. |
| `CoapOptions.SplitRoundTripIff` | apps/er-coap/er-coap.c:173-239 | Splitting and merging a string gives it back if and only if it is empty, or has no leading separator and an even run of trailing ones. |
| `CoapOptions.LeadingSeparatorLost` | apps/er-coap/er-coap.c:220-239 | A leading separator is always lost. |
| `CoapBuffer.SetOptionHeader` | apps/er-coap/er-coap.c:109-133 | Writes the option header behind what is there. |
| `CoapBuffer.SerializeIntOption` | apps/er-coap/er-coap.c:135-171 | Writes header and shortest bytes. |
| `CoapBuffer.SerializeSplit` | apps/er-coap/er-coap.c:173-218 | The splitting loop writes one option per part. |
| `CoapBuffer.SerializeOption` | apps/er-coap/er-coap.h:136-175 | One option of any kind. |
| `CoapBuffer.SerializeOptions` | apps/er-coap/er-coap.c:350-390 | All options in ascending order, each coded against the one before. |
| `CoapBuffer.SerializeMessage` | apps/er-coap/er-coap.c:310-423 | The buffer ends up holding exactly the wire form of the message. |
| `CoapBuffer.MergeMultiOption` | apps/er-coap/er-coap.c:220-239 | The in-place merge yields the joined string and changes no byte the parser has still to read, nor any before the string. |
| `CoapBuffer.Packet.MergeInto` | apps/er-coap/er-coap.c:612-644 | Merging into a field of the packet keeps every other field's string. |
| `CoapBuffer.Packet.ApplyOption` | apps/er-coap/er-coap.c:537-688 | One option applied in place, with its error cases. |
| `CoapBuffer.Packet.TakePayload` | apps/er-coap/er-coap.c:492-504 | The payload, cut to the chunk size and terminated without hurting a string. |
| `CoapBuffer.Packet.ParseOptionsInPlace` | apps/er-coap/er-coap.c:484-692 | The option loop over a buffer it keeps rewriting gives what parsing the original bytes gives. |
| `CoapBuffer.ParseMessage` | apps/er-coap/er-coap.c:442-696 | The same for whole messages, errors included. |
| `WellKnownCore.GetHandler` | apps/er-coap/er-coap-res-well-known-core.c:116-203 | The payload is the slice of the full listing from offset, cut to the size asked for; the new offset is -1 if and only if that reaches the end; past the end is an error. |
| `WellKnownCore.ListingExample` | apps/er-coap/er-coap-res-well-known-core.c:142-182 | The listing of two resources, byte for byte. |
| `WellKnownCore.Writer.AddChar` | apps/er-coap/er-coap-res-well-known-core.c:54-58 | One character through the window. |
| `WellKnownCore.Writer.AddString` | apps/er-coap/er-coap-res-well-known-core.c:60-74 | A string through the window, or the buffer is full and holds the window. |
| `WellKnownCore.Writer.AddResource` | apps/er-coap/er-coap-res-well-known-core.c:165-182 | One entry of the listing through the window. |
| `Blockwise.Fetch` | apps/er-coap/er-coap-engine.c:370-435 | With equal chunk sizes the client loop against the server receives exactly the full listing in ceil(length / block) rounds. |
| `Blockwise.TransferCompleteIff` | apps/er-coap/er-coap-engine.c:106-205 | A transfer delivers the document, each block once and in order, if and only if both ends use the same block size or the document fits one block. |
| `Blockwise.EqualSizesComplete` | apps/er-coap/er-coap-engine.c:370-435 | From any block on, equal sizes deliver the rest in the number of rounds it takes. |
| `Blockwise.SmallerClientSize` | apps/er-coap/er-coap-engine.c:370-435 | With a smaller client size the blocks after the first still add up to the rest of the document. |
| `Blockwise.LargerClientSize` | apps/er-coap/er-coap-engine.c:370-435 | With a larger one bytes are missing. |
| `Blockwise.BlockingRequest` | apps/er-coap/er-coap-engine.c:370-435 | The protothread loop collects exactly the replies of the specification. |
| `Blockwise.Serve` | apps/er-coap/er-coap-engine.c:106-205 | Engine and listing handler together answer with the right block, its more flag and its number. |
| `Blockwise.UnawareResourceIsSliced` | apps/er-coap/er-coap-engine.c:155-177 | A resource that ignores blocks is sliced by the engine to the same answer. |
| `Blockwise.PlainReplyIsWhole` | apps/er-coap/er-coap-engine.c:195-204 | A request without a block option to a resource that ignores blocks is answered with the handler's whole payload and no block option. |
| `Blockwise.PlainReplyIsFirstBlock` | apps/er-coap/er-coap-engine.c:195-204 | To one that is aware of them, with the first block of the limit's size and its more flag. |
| `Blockwise.AwareReplyIsCut` | apps/er-coap/er-coap-engine.c:179-192 | A block request to an aware resource is answered with its number, its size and at most that many bytes. |
| `Blockwise.MaxBlockIsWireSize` | apps/er-coap/er-coap.h:57-66 | `COAP_MAX_BLOCK_SIZE` is the size the block option can carry for that chunk size. |
| `Transactions.GivenUpAfterFive` | apps/er-coap/er-coap-transactions.c:70-178 | Over every interleaving of create, send, timer, poll and clear: the list holds distinct allocated slots within the pool, and a confirmable transaction sent first by its creator and never acknowledged goes out exactly five times, no earlier than T, 2T, 4T and 8T apart, exactly that far apart if timers are served on time, and is then freed. |
| `Transactions.OpenOnSchedule` | apps/er-coap/er-coap-transactions.c:89-137 | Until then it has gone out one to four times on that schedule, exactly so in on-time runs. |
| `Transactions.OnTimeSchedule` | apps/er-coap/er-coap-transactions.c:102-137 | In every run in which no due time passes unserved and no fired timer is left waiting, the five transmissions are at s, s + T, s + 3T, s + 7T and s + 15T. |
| `Transactions.PollServes` | apps/er-coap/er-coap-transactions.c:166-178 | One poll serves every fired timer unless it gives a transaction up. |
| `Transactions.PollStopsAtGivenUp` | apps/er-coap/er-coap-transactions.c:166-178 | Where it does, the transactions behind it are left as they were, so that another poll is needed. |
| `Transactions.OnTimeRunExists` | apps/er-coap/er-coap-transactions.c:89-178 | A lone transaction can always be served on time until it is given up. |
| `Transactions.StepInv` | apps/er-coap/er-coap-transactions.c:70-178 | Every step keeps list, pool and schedule, and every transaction created is open or accounted for. |
| `Transactions.PollBeforeSend` | apps/er-coap/er-coap-transactions.c:166-178 | A poll before the creator's send takes the timer never started for an expired one and sends it as a retransmission, at any place in the list, exactly if it takes nothing off the list before it. |
| `Transactions.PollReaches` | apps/er-coap/er-coap-transactions.c:166-178 | In general a poll retransmits a transaction whose timer is not running exactly then, and otherwise leaves it as it was. |
| `Transactions.Layer.constructor` | apps/er-coap/er-coap-transactions.c:57-58 | An empty pool. |
| `Transactions.Layer.NewTransaction` | apps/er-coap/er-coap-transactions.c:70-87 | The first free slot joins the end of the list; it fails if and only if all four are taken. |
| `Transactions.Layer.SendTransaction` | apps/er-coap/er-coap-transactions.c:89-139 | Sends, then rearms with the drawn or doubled timeout, or gives up, or frees. |
| `Transactions.Layer.ClearTransaction` | apps/er-coap/er-coap-transactions.c:141-151 | Takes the transaction off the list and frees its slot. |
| `Transactions.Layer.FindByMid` | apps/er-coap/er-coap-transactions.c:152-164 | A transaction of the list with that id, or none has it. |
| `Transactions.Layer.CheckTransactions` | apps/er-coap/er-coap-transactions.c:166-178 | The walk that retransmits, ending where a transaction is given up. |
| `Transactions.Layer.ListRemove` | core/lib/list.c:239-263 | The unlinking loop. |
| `Transactions.Layer.Allocate` | core/lib/memb.c:58-76 | The first free block. |
| `JsonRoundTrip.PrintParseIff` | apps/json/jsonparse.c:111-186 | For every root object within the parser's stack, tokenizing the printed text yields exactly the tree's tokens, no error and depth 0, if and only if numbers are not negative, backslashes pair up and no container that is a pair's value leaves the value type at zero. |
| `JsonRoundTrip.ValueRun` | apps/json/jsonparse.c:111-186 | The same inside any text, at any depth. |
| `JsonRoundTrip.ChildrenRun` | apps/json/jsonparse.c:111-186 | The same for the rest of a container. |
| `JsonRoundTrip.StringRun` | apps/json/jsonparse.c:59-87 | A printed string is one token if its escapes pair up, and is not otherwise. |
| `JsonRoundTrip.NumberRun` | apps/json/jsonparse.c:59-87 | A printed non-negative number is one token with its digits. |
| `JsonRoundTrip.NegativeRun` | apps/json/jsonparse.c:111-186 | A printed negative number never is. |
| `JsonRoundTrip.NumberTokenValue` | apps/json/jsonparse.c:208-215 | A number token's digits read as the number. |
| `JsonParse.RefusesIff` | apps/json/jsonparse.c:111-186 | Which characters a call refuses where they stand, with which error, and which pushes overrun the stack. |
| `JsonParse.NumberIsLongest` | apps/json/jsonparse.c:59-87 | A number token is the longest run of digits and dots from its first digit on. |
| `JsonTree.PrintAll` | apps/json/jsontree.c:103-213 | Calling `jsontree_print_next` until it returns 0 emits exactly the text of the recursive printer, in exactly the number of calls counted on the tree. |
| `JsonTree.Context.PrintNext` | apps/json/jsontree.c:130-213 | One call emits part of what remains and takes exactly one step off the remaining count, or finishes. |
| `JsonTree.Context.StepDown` | apps/json/jsontree.c:157-174 | Pushes the child that the index selects. |
| `JsonTree.Context.StepUp` | apps/json/jsontree.c:206-212 | Pops and moves the parent on. |
| `JsonTree.Context.EmitEnd` | apps/json/jsontree.c:139-183 | What a finished or atomic value prints. |
| `JsonTree.WriteInt` | apps/json/jsontree.c:81-101 | The digit buffer gives the decimal notation. |
| `JsonTree.FillDigits` | apps/json/jsontree.c:85-95 | Digits from the right fill the end of the buffer. |
| `JsonParse.Parser.NextToken` | apps/json/jsonparse.c:111-186 | One call in place is one step of the tokenizer. |
| `JsonParse.Parser.PushChar` | apps/json/jsonparse.c:37-44 | Pushing on the bracket stack, overrun noted. |
| `JsonParse.Parser.PopChar` | apps/json/jsonparse.c:46-54 | Popping it. |
| `JsonParse.Parser.SkipSpace` | apps/json/jsonparse.c:89-98 | Skips white space. |
| `JsonParse.Parser.AtomicString` | apps/json/jsonparse.c:59-87 | Scans a string, escapes included. |
| `JsonParse.Parser.AtomicNumber` | apps/json/jsonparse.c:59-87 | Scans a number. |
| `JsonParse.ParseAll` | apps/json/jsonparse.c:100-186 | Calling it to the end gives the run of the tokenizer. |
| `Codeprop.RunsAreSafe` | apps/codeprop/codeprop.c:198-354 | Under any loss, duplication and reordering, NACKs in the wait after the last packet included, in every state of every run the bytes a receiver has below its address are those of the image of its id. |
| `Codeprop.CanComplete` | apps/codeprop/codeprop.c:221-262 | From every state in which the source is still in its loop, the last wait included, some continuation completes the image at any receiver taking it. |
| `Codeprop.SendsInBlocks` | apps/codeprop/codeprop.c:198-262 | Undisturbed, the source goes through the image in blocks of `UDPDATASIZE`. |
| `Codeprop.GapIsRepaired` | apps/codeprop/codeprop.c:308-350 | A receiver that hears a packet ahead of it sends a NACK, and the source that hears that goes back to the missing bytes. |
| `Codeprop.NacksIff` | apps/codeprop/codeprop.c:265-350 | A packet is answered with a NACK if and only if it is ahead of its receiver, or starts an image in the middle, and the NACK names the byte needed next. |
| `Codeprop.LateJoinerAsksForStart` | apps/codeprop/codeprop.c:287-303 | A receiver that takes up an image in the middle makes the source begin again. |
| `Codeprop.AddressesNeverDecrease` | apps/codeprop/codeprop.c:273-354 | Within an id a receiver's address never goes down, and ids only grow. |
| `Codeprop.CompletionMatches` | apps/codeprop/codeprop.c:308-350 | Leaving the receive loop means the whole image matches. |
| `Codeprop.AdoptionIff` | apps/codeprop/codeprop.c:287-303 | Taking up a new id keeps a receiver right if and only if the packet's bytes are the first of the image, as they are at address 0. |
| `Codeprop.LateJoinerIsCorrupted` | apps/codeprop/codeprop.c:265-321 | Otherwise it is not: `send_nack` has overwritten the address before it is compared. |
| `Codeprop.StepKeeps` | apps/codeprop/codeprop.c:198-354 | Every step keeps the invariant. |
| `Codeprop.DeliveryKeeps` | apps/codeprop/codeprop.c:273-354 | One delivery keeps a receiver right. |
| `Codeprop.ReceiverNode.Deliver` | apps/codeprop/codeprop.c:265-354 | The receive thread in place, header buffer shared with the NACK, does what the step does. |
| `Slip.LinkDelivers` | tools/tunslip.c:453-680 | In every run, for every packet the writer accepts and however writes and reads are split, the tunnel has got an initial part of the packets that get through, unchanged and in order, and all of them once queue and line are empty; a packet gets through if and only if `check_ip` accepts it with the bytes that earlier ones left behind it. |
| `Slip.SelfContainedGetThrough` | tools/tunslip.c:363-412 | Packets whose checked bytes lie inside them all get through. |
| `Slip.LinkIsTransparent` | tools/tunslip.c:453-680 | So the link is transparent for them. |
| `Slip.ReceiveSplit` | tools/tunslip.c:453-583 | Where a read is cut off does not matter, even inside an escape pair. |
| `Slip.FrameDeliversIff` | tools/tunslip.c:489-558 | A framed packet is delivered if and only if `check_ip` accepts it together with the reader's leftover bytes. |
| `Slip.LongFrameDeliversIff` | tools/tunslip.c:471-558 | A framed packet of any length: what is checked and delivered is its end, what is left after as many whole buffers as fit, over the rest of the last of those. |
| `Slip.StrayEscape` | tools/tunslip.c:561-580 | An escape before a byte that needs none is passed over and the byte stored, even an END. |
| `Slip.StaleBytesDecide` | tools/tunslip.c:363-412 | For a short packet those leftover bytes decide. |
| `Slip.NumberingNeverDrops` | tools/tunslip.c:642-655 | With a header of at least 20 bytes the second check after numbering never drops a packet that the first one accepted. |
| `Slip.DontFragmentNotSeen` | tools/tunslip.c:642 | On a little-endian host an ordinary "don't fragment" packet is not numbered: the flag is looked for in the other byte. |
| `Slip.SerialReader.SerialToTun` | tools/tunslip.c:453-583 | One call of `serial_to_tun`, in place, reads its input to the end. |
| `Slip.SerialReader.FinishPacket` | tools/tunslip.c:490-559 | The END case. |
| `Slip.SerialReader.StoreByte` | tools/tunslip.c:471-474 | Storing a byte, with the wrap at the end of the buffer. |
| `Slip.SerialWriter.WriteToSerial` | tools/tunslip.c:626-680 | Queues exactly the frame of the accepted, possibly numbered packet, drops a refused one without trace, and overflows exactly when the end of the queue would be passed. |
| `Slip.SerialWriter.Prepare` | tools/tunslip.c:633-655 | The two checks and the numbering between them. |
| `Slip.SerialWriter.SendFrame` | tools/tunslip.c:662-678 | The escaping loop and the closing END. |
| `Slip.SerialWriter.Send` | tools/tunslip.c:589-596 | One byte into the queue, if there is room. |
| `Slip.SerialWriter.Flush` | tools/tunslip.c:604-624 | A partial write takes the first bytes of what is pending and leaves the rest. |
| `Slip.Renumber` | tools/tunslip.c:643-649 | Identification and checksum changed in place. |
| `Checksum.IncrementalUpdateIff` | tools/tunslip.c:642-655 | A packet accepted with identification 0 is accepted again with every identification after the swapped-order update, if and only if the header length is not 8 (or the identification is a one's-complement zero). |
| `Checksum.UpdateSubtracts` | tools/tunslip.c:643-649 | Adding the complement in swapped byte order with end-around carry subtracts the identification in network order. |
| `Checksum.Ip4Sum` | tools/tunslip.c:342-361 | The folding loop computes the one's-complement sum of the words, an odd byte padded. |
| `Checksum.CheckIp` | tools/tunslip.c:363-412 | The error code of the first failing check, each checksum decided by the plain sum modulo 0xffff. |
| `Verdict.AcceptedIff` | tools/tunslip.c:363-412 | On the bytes alone: a packet is accepted if and only if it is version 4 of its own length with a header summing to zero, and its segment does too, for TCP and UDP behind source, destination, a zero, the protocol and the length, for UDP also without checksum, for ICMP by itself. |
| `Verdict.RefusedUnlessWellFormed` | tools/tunslip.c:363-390 | Which code a packet of another version, length or header sum gets. |
| `Verdict.FilledInIsAccepted` | tools/tunslip.c:363-412 | A packet whose checksum fields are the complements of the sums of the rest is accepted. |
| `Verdict.FilledInSums` | tools/tunslip.c:363-412 | Filling them in makes those sums zero. |

## Left out

- Multi-Paxos, three-phase commit, voting, collection and dissemination primitives; node joining, leader election, slot timing and radio drivers.
- PaxosCompetition.AgreementIff: the condition is exact for two proposers, in builds whose losers never try again and rounds that have room for the competition; with three or more proposers of different values only sufficiency is proved (PaxosAgreement.ContendersAgree).
- PaxosQuorum.LearnedIsChosen: slots after a loser may have tried again, in which some rounds of the build fail (PaxosBuilds.QuorumReadIff) and others do not.
- PaxosAgreement.ContendersAgree: when the initiator proposes, slots after a loser may have tried again.
- PaxosQuorum.OneBallotAgrees: the same slots.
- PaxosQuorum.RoundHolds: one round from a reset state; rounds that keep the state of an incomplete one restart with ballot 1 and a new value and are not modelled.
- PaxosSteps.AcceptorDoes: the aggregates of replies and the completion mark are left to PaxosTurns and PaxosAdoption.
- PaxosSteps.ProposerDoes: when each move is made and which value is adopted are left to PaxosTurns and PaxosAdoption.
- PaxosNode.Participant.Run: completion slots and statistics are not kept; a single-node network, where the code divides by zero, is excluded from rounds.
- PaxosAdoption.OpensWhatItAnnounced: the first ballot of a proposer; later ones follow the rule of PaxosAdoption.OpensLastReported.
- TwoPhaseNode.Participant.Run: the slot number at completion and the synchronisation request are not kept.
- TwoPhaseProgress.FinishIff: that some continuation decides, not that every fair one does; the bound on slots is not compared with `TWO_PC_ROUND_MAX_SLOTS`, at which a round is cut off.
- TwoPhaseProgress.CanComplete: states in which some node has seen completion and may switch off before the others have.
- AqlParser.Parser.ParseWhere: the code buffer and variable table are taken to be large enough, since emission writes without a bound check; how the parser goes on after a sub-clause that returned 0 is not followed up.
- AqlGroups.EmitsRunsAs: a connective behind a sub-clause goes to a stale place inside the code; EmitClause says which bytes result and AqlStale.FollowedIsCodeIff when they are code at all, in the shape with one arm before and one behind.
- AqlParser.SelectRow: under the same conditions on buffer and table.
- AqlParser.Parser.ParseOperand: string and floating-point literals, which are passed over without code being emitted, are read as syntax errors.
- AqlSyntax.ComparisonRunsAs: bracketed items inside the chains have at most one operator each.
- Aggregation, the other AQL statements and the lexer.
- LvmInstance.Instance.Execute: reads behind the code buffer are an error value of their own; enumerations take four bytes and a `long` eight, unpadded, little endian, with wrap-around.
- LvmInstance.Instance.Put: a buffer without room for what is emitted, where the code writes past its end.
- LvmInstance.Instance.ShiftForOperator: the same, the bound check counting the operator and not its tag.
- LvmInstance.Instance.InsertNode: a buffer without room for the node.
- LvmInstance.Instance.FillNode: an end at or past the buffer.
- LvmInstance.Instance.RegisterVariable: names of more than 16 characters, which are cut off.
- LvmInstance.Instance.SetVariableValue: names of more than 16 characters.
- The two declared lengths of the variable tables (`LVM_MAX_VARIABLE_ID` and one less) are replaced by the former.
- LvmDerive.SoundIff: comparisons with the variable on the left; constants on the left are covered one comparison at a time (LvmDerive.ComparisonSoundIff).
- MaxHeap.Heap.GetFirst: a second `get_next` of the same search, storage errors, reloading from storage and deletion.
- MaxHeap.Heap.HeapInsert: stated for the ranges that `bucket_split` gives it.
- MaxHeap.Heap.BucketSplit: stated for the nodes that an insertion splits.
- InlineIndex.BinarySearch: what a row that does not exist contains; the outcome is reported as undefined. More than 2^31 - 1 rows, which the file offsets cannot address.
- InlineIndex.Index.Collect: two iterators used in turn share the cached range; one iterator at a time is modelled.
- Join.Handle.Process: storage and index errors other than a dangling tuple id, and storing the result relation.
- Join.InlineEquality: left values below the first right row, where the search leaves the table.
- CoapMessage.RoundTripIff: messages with proxy options or the empty code, and headers over the size limit, are outside; option numbers of 64 and more, which index past the option map, are reported as out of bounds.
- Observing, separate responses, Block1 assembly, link-format filtering, proxying, and the option accessors.
- Blockwise.Fetch: the channel delivers every request and reply; loss is the transaction layer's, and the two are not composed.
- Transactions.GivenUpAfterFive: callbacks and observers on giving up; clock wrap-around.
- JSON callbacks, path search and `jsontree_find_next`; the value type before the first token, which `jsonparse_setup` does not initialise, is taken as zero; reads behind the text give the terminator.
- JsonTree.WriteInt: the smallest integer, whose negation overflows.
- Codeprop.RunsAreSafe: a new id is taken up at address 0, as AdoptionIff explains; the TCP upload and timers.
- Codeprop.CanComplete: that some continuation completes, not that every fair one does: the source leaves its loop after one wait without a NACK, and the NACK may be lost.
- Slip.LinkDelivers: the DHCP relay, address reports and debug text; an overflowing queue ends the program.
- Slip.LinkIsTransparent: packets whose checked bytes reach past their end (see Slip.LinkDelivers).
- Checksum.CheckIp: a payload length that wraps below zero, where the C code reads past its buffer, is a rejection of its own.
