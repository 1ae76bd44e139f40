# Verification of the asynchronous consensus stack

This project models the protocols of the repository in Dafny and proves what they promise: quorum
counting, reliable broadcast, the round-based binary agreement, index gather, the view-based index
agreement and the common subset on top of it, the threshold coin, the election, and the byte formats
they share. `dafny verify dfyconfig.toml` checks everything.

## How it is built

Each protocol has the same layers.

* The **node**: a class with the fields of the Go package, restricted to one instance, whose methods are
  the handlers. Each method is proved to take the node from its old state to the state that a
  specification function gives (`Aba`, `Bracha`, `Gather`, `Vaba`, `Coin`, `Mvba`).
* The **system**: n nodes stepping by those functions, a growing set of sent messages, and every
  interleaving of steps and deliveries (`AbaSystem`, `BrachaSystem`, `GatherSystem`, `VabaSystem`). A run
  is any finite sequence of steps. Byzantine nodes, where allowed, are a set of at most f nodes that may
  send anything to anyone under their own name.
* The **theorems**: an inductive invariant of every reachable state, and what follows from it over whole
  runs (`AbaAgreement`, `AbaTheorems`, `BrachaTheorems`, `WrbcTheorems`, `GatherSystem`, `VabaTheorems`,
  `CoinTheorems`, `MvbaTheorems`).
* The **exact conditions** under which a node acts, over all runs and in terms of the messages it was given:
  when it relays, votes, decides, delivers, finishes, admits and shows a coin, and when it does not
  (`AbaRelay`, `AbaProgress`, `BrachaExact`, `WrbcExact`, `GatherExact`, `VabaExact`, `CoinProgress`,
  `MvbaExact`).
* The **limits**: where a guarantee does not hold for every input, a run that shows it, and the exact
  condition (`BrachaLoose`, `BrachaLimits`, `WrbcLimits`, `AbaLimits`, `VabaLimits`, `CoinExact`).

Below them: `Wrappers` and `Sets` (shared types, finite sets), `Quorum` (sizes and counters), `Frequency`
(plurality votes), `Field`, `Lagrange` and `Limbs` (arithmetic modulo a prime, interpolation, four-word
numbers), `ThreshPrf` (dealing, combining and proving shares), `Erasure` and `Codec` (bytes).

## Assumptions

* Handlers are atomic, channels are authenticated, and a message, once sent, may be delivered late, out
  of order, or never. A node that crashes is a node that takes no more steps.
* Counters belong to one protocol instance and are keyed by hash. The hash is injective on what it is
  given; a message may also carry no hash or bytes that are no hash.
* Reliable broadcast: a correct node handles at most one SEND of an instance.
  `BrachaLoose.OneHashExactly` says what becomes of it otherwise.
* Binary agreement: the common coin is any function of the round, the same for all nodes, given by the
  function `coin` of the configuration; biased validity also needs it to be 1 in round 0. An AUX of one
  sender for one round is delivered to a handler once (a cached one may be handled again later).
  BV-justification holds with Byzantine nodes; the other theorems are for crash and omission faults,
  because the majority of a BVAL is recorded unchecked.
* Index gather: a node's vector has entries 0 and 1 and only grows; the loop of HandlePrepare, which never
  exits in the code, is a step that may happen any number of times.
* Index agreement and common subset: crash faults. What a broadcast delivers for a node is what the node
  broadcast. A gather returns any list that names a quorum of nodes which have begun their own gather and
  whose vectors are included (`GatherSystem.FinishedList`). The final agreement, once a quorum has started
  it, returns the input of some node.
* Threshold coin: that the order of the P-256 group is prime (FIPS 186-4, appendix D.1.2.3) is a hypothesis of
  the lemmas that divide. Points are their exponents modulo the order. A share that verifies for a message
  is the key times the hashed message; `ThreshPrf.TwoChallengesFixTheShare` is the algebra behind that. The
  code verifies a share against the message that comes with it and never compares that message with the
  one of the round, so the coins are described for shares of any messages: `CoinTheorems.CoinIsFixed` and
  `CoinTheorems.CoinIndependence` say exactly what they depend on, `CoinTheorems.RoundCoin` what follows
  when all shares are for the round, and `CoinExact.OneForeignShare` when one is not.
* Election: each round's binary agreement is a run of `AbaSystem` without lying nodes, and the coin the one
  of `Coin`; a node's generator is a function of its coin.
* Erasure coding: the Reed-Solomon library encodes only non-empty shards of one length, and any s shards of
  what it has encoded from s data shards give everything back.

Where the code and its comments differ, the model follows the code: the padding of
src/broadcast/ecrbc/handler.go is said to reach a multiple of the shard count, but appends as many zeros as
the remainder, so it reaches one only for some lengths. `Erasure.RoundTripExactly` gives the exact
condition. Where a guarantee depends on the group size, the size is part of the statement:
`Frequency.LockHoldsExactly`, `VabaLimits.OneInputExactly`, `VabaLimits.SubsetAgreementExactly`,
`AbaLimits.BiasHoldsExactly` and `WrbcLimits.VectorHoldsExactly` hold for exactly the sizes that 3 does not
divide. The last one rests on a READY that answers a SEND: it repeats the hash field of the SEND, which
StartRBC leaves empty.

## Model

| member | source | states |
|---|---|---|
| `Quorum.QuorumArithmetic` | src/quorum/quorum.go:154-187 | for every n >= 1: f is the largest number below n/3 and the small quorum f+1, two quorums overlap in more than f nodes, quorum <= n-f, quorum-f >= f+1, and both quorum+f+1 > n and 3*quorum > 2n hold exactly when 3 does not divide n |
| `Quorum.QuorumsShareACorrectNode` | src/quorum/quorum.go:154-162 | any two quorums share f+1 nodes and, with at most f bad nodes, one that is not bad |
| `Quorum.CounterHoldsDistinctSources` | src/quorum/def.go:209-275 | over every sequence of insertions and clears a source is in a counter if and only if it was added for the key after the last clear of that key |
| `Quorum.ThresholdIsHitExactly` | src/quorum/def.go:209-260 | a counter that has reached t passed from t-1 to t at one insertion for its key, so the test for exactly f+1 cannot be jumped over |
| `Quorum.InsertCount` | src/quorum/def.go:209-260 | an insertion raises the count of its key by one exactly when the source is new, and leaves every other count |
| `Quorum.Buffer.InsertValue` | src/quorum/def.go:209-239 | the new map is the old one with the source added under the key and every other key unchanged |
| `Quorum.Buffer.GetLen` | src/quorum/def.go:251-260 | the number of distinct sources under the key, 0 for an unknown key |
| `Quorum.Buffer.Clear` | src/quorum/def.go:268-275 | the key is gone and every other key unchanged |
| `Quorum.Quorums.SetQuorumSizes` | src/quorum/quorum.go:154-162 | the four sizes as functions of n, with division that truncates |
| `Quorum.Quorums.StartQuorum` | src/quorum/quorum.go:172-187 | the sizes are set and all three buffers emptied |
| `Quorum.Quorums.Add` | src/quorum/quorum.go:36-45 | the buffer of the given stage gains the source; the other two are unchanged |
| `Quorum.Quorums.CheckQuorum` | src/quorum/quorum.go:57-68 | true exactly when the distinct sources under the key reach the quorum in the stage |
| `Quorum.Quorums.CheckSmallQuorum` | src/quorum/quorum.go:95-106 | true exactly when they reach f+1 |
| `Quorum.Quorums.CheckEqualSmallQuorum` | src/quorum/quorum.go:112-114 | true exactly when the commit buffer holds f+1 |
| `Quorum.Quorums.ClearBuffer` | src/quorum/quorum.go:116-125 | the buffer of the stage loses the key; the other two are unchanged |
| `Aba.AbaNode.HandleBVAL` | src/aba/pisa/aba.go:85-119 | the whole new state equals the specification of a BVAL: drop, cache, or count, record the majority unchecked, relay at f+1, proceed to AUX at a quorum |
| `Aba.AbaNode.MoveToAux` | src/aba/pisa/aba.go:369-399 | bin_values, status, delta and the AUX sent (value or 2) as specified |
| `Aba.AbaNode.BroadcastBval` | src/aba/pisa/aba.go:344-367 | a value is broadcast once per round, with the recorded majority |
| `Aba.AbaNode.HandleAUX` | src/aba/pisa/aba.go:121-286 | the whole new state equals the specification of an AUX: drop, cache, reject, or count and, with a quorum of voters, choose, decide and advance |
| `Aba.AbaNode.Vet` | src/aba/pisa/aba.go:140-166 | the verdict on a vote of the current round, in the order of the tests in the code |
| `Aba.AbaNode.Choose` | src/aba/pisa/aba.go:200-258 | estimate, majority and decision follow the specified rule on the counted votes, the counted majorities and the two coins, whichever vote the code happens to list first |
| `Aba.AbaNode.UseCoin` | src/aba/pisa/aba.go:288-304 | the coin as estimate; the majority is a value counted more than quorum/2 times, or 2 |
| `Aba.AbaNode.DecideValue` | src/aba/pisa/aba.go:306-313 | status, round and value of the decision, nothing else |
| `Aba.AbaNode.NextRound` | src/aba/pisa/aba.go:263-281 | round, majority, coin log, the new BVAL and the status after leaving a round |
| `Aba.AbaNode.HandleCached` | src/aba/pisa/aba.go:59-79 | the cached messages of a round leave the cache and are handed on for handling |
| `Aba.AbaNode.Start` | src/aba/pisa/handler.go:115-174 | the BVAL of the current round goes out with the recorded majority |
| `Aba.AbaNode.StartFromRoundZero` | src/aba/pisa/handler.go:50-113 | proposing sends the BVAL of round 0, and a proposal of 1 goes straight to AUX |
| `AbaRelay.RelayExactly` | src/aba/pisa/aba.go:99-117 | in every run with up to f Byzantine nodes, for a correct node: f+1 counted BVALs for a value mean that it has broadcast its own, a quorum of them that the value is in bin_values; bvals holds exactly the values it has broadcast; and it has sent an AUX in exactly the rounds it has left, and in its current one when its status is AUX |
| `AbaRelay.BinExactly` | src/aba/pisa/aba.go:104-117 | in every such run bin_values of a correct node holds exactly the values with a quorum of counted BVALs, and 1 in round 0 when f+1 BVALs for it are counted or the node has proposed it |
| `AbaRelay.BvalIsCounted` | src/aba/pisa/aba.go:99-102 | a BVAL of the current round is counted once for its source, and the majority it reports recorded |
| `AbaRelay.QuorumMakesVote` | src/aba/pisa/aba.go:369-399 | the BVAL that makes a quorum has a ready node vote: for the value, unless a majority it has heard stands against that, the other value's for the value of the last coin, the coin's or none for the other |
| `AbaRelay.ProposalIsSent` | src/aba/pisa/handler.go:50-113 | a proposal is broadcast at once as BVAL of round 0 without a majority |
| `AbaSystem.BvJustification` | src/aba/pisa/aba.go:85-198 | with up to f Byzantine nodes, in every run: a value in bin_values of a correct node was the starting estimate of some correct node in that round, and every vote in auxvals of a correct node is 2 or in its bin_values |
| `AbaAgreement.RunKeepsCrash` | src/aba/pisa/aba.go:121-313 | the crash invariant holds in every reachable state: the logs of coins, majorities and decisions agree with the votes counted, every message is justified by what its sender had heard, and every vote is counted once |
| `AbaProgress.CountsExactly` | src/aba/pisa/aba.go:127-174 | an AUX adds to the votes, majorities and voters of the round exactly when it is of the round, names nothing but values of bin_values or no preference, and past round 0 contradicts neither itself nor the node's own vote |
| `AbaProgress.QuorumLeaves` | src/aba/pisa/aba.go:217-230 | a counted quorum for either value: the node enters the next round with that estimate and majority, and has decided it if and only if the coin shows it |
| `AbaProgress.SingleKindLeaves` | src/aba/pisa/aba.go:231-253 | past round 0 with votes of one kind and no quorum: that value as estimate and majority when a quorum reports it as majority, decided if and only if this coin and the last one show it; else the last coin under two majorities; else the coin |
| `AbaProgress.CoinLeaves` | src/aba/pisa/aba.go:255-304 | votes of several kinds without a quorum: the coin as estimate, nothing decided, and as majority a value counted more than quorum/2 times, or 2 |
| `AbaProgress.DecidesExactly` | src/aba/pisa/aba.go:200-313 | in every run without lying nodes, a node has decided v if and only if in some round it has reached the coin shows v and it has counted a quorum of votes for v |
| `AbaProgress.UnanimousProgress` | src/aba/pisa/aba.go:200-313 | when every proposal is v, every node past a round whose coin shows v has decided v |
| `AbaProgress.DecisionSpreads` | src/aba/pisa/aba.go:200-313 | once a node has decided v, every node past a later round whose coin shows v has decided v |
| `AbaProgress.NextRoundExactly` | src/aba/pisa/aba.go:217-281 | in every run without lying nodes, the majority a node holds for the next round and the estimate it entered it with are those that the votes it had counted lead to |
| `AbaProgress.DecidedStops` | src/aba/pisa/aba.go:176-186 | a node that decided in an earlier round stops with the first vote it counts while voting, without sending or moving on |
| `AbaProgress.StoppedStays` | src/aba/pisa/aba.go:187-190 | a node that has stopped sends no vote, stays in its round and keeps its decision |
| `AbaProgress.EarlyWaits` | src/aba/pisa/aba.go:93-97 | a message of a later round is cached, and so is a vote that names a value not in bin_values yet |
| `AbaProgress.MessageHandsOn` | src/aba/pisa/aba.go:50-79 | what is cached for the round is handed on with the first message of that round that a running node handles |
| `AbaProgress.FullHandsOn` | src/aba/pisa/handler.go:115-174 | the vote that takes a node to the next round also hands on what is cached for that round |
| `AbaTheorems.Agreement` | src/aba/pisa/aba.go:200-313 | in every run with crash and omission faults, any interleaving and any common coin, no two decisions differ, in whatever rounds and at whatever moments |
| `AbaTheorems.DecisionLocksLaterRounds` | src/aba/pisa/aba.go:200-281 | after a decision for v in round r every node in a later round has entered it with estimate v and majority v (or 2 when the coin showed v), and every vote there is v |
| `AbaTheorems.LockPersists` | src/aba/pisa/aba.go:242-281 | the locked condition carries from a round to every later round |
| `AbaTheorems.UnanimousValidity` | src/aba/pisa/aba.go:369-399 | when every proposal is v only v is decided, in any round |
| `AbaTheorems.BiasedValidity` | src/aba/pisa/handler.go:50-113 | for n not divisible by 3 and a first coin of 1: once f+1 nodes have proposed 1 before voting, only 1 can be decided |
| `AbaLimits.BiasFails` | src/aba/pisa/handler.go:50-113 | for every n divisible by 3, a run of nodes that follow the code in which f+1 nodes propose 1 before voting, the first coin is 1, and a node decides 0 |
| `AbaLimits.BiasHoldsExactly` | src/aba/pisa/handler.go:50-113 | biased validity holds in every run of n nodes if and only if 3 does not divide n |
| `Bracha.BroadcastNode.OnSend` | src/broadcast/rbc/rbc.go:70-106 | the whole new state and the messages sent equal the specification: one ECHO, then whatever was cached |
| `Bracha.BroadcastNode.OnEcho` | src/broadcast/rbc/rbc.go:108-127 | counting, storing at a quorum, and the READY, as specified |
| `Bracha.BroadcastNode.BroadcastReady` | src/broadcast/rbc/rbc.go:129-157 | after a SEND the READY goes out with the hash of the message that triggered it; otherwise the step is cached, or a cached delivery happens |
| `Bracha.BroadcastNode.OnReady` | src/broadcast/rbc/rbc.go:159-182 | READY at exactly f+1, delivery at a quorum, as specified |
| `Bracha.BroadcastNode.DeliverNow` | src/broadcast/wrbc/rbc.go:222-257 | delivery, or its cached form; wrbc forgets a vector that does not match the delivered hash |
| `Bracha.BroadcastNode.OnWrbcSend` | src/broadcast/wrbc/rbc.go:90-144 | a SEND is handled only in its epoch and when the external predicate admits it; otherwise it is dropped or waits |
| `BrachaSystem.RunKeeps` | src/broadcast/rbc/rbc.go:70-205 | the invariant of every reachable state with Byzantine nodes and an equivocating sender: counters hold true sources, and a READY or a progressed node implies an echo quorum |
| `BrachaSystem.BackedUnique` | src/broadcast/rbc/rbc.go:83-127 | at most one hash has an echo quorum |
| `BrachaSystem.Agreement` | src/broadcast/rbc/rbc.go:97-205 | once a correct node has delivered, cached a delivery or sent a READY, exactly one hash has an echo quorum, and every READY of a correct node carries that hash or the hash (the empty one, for StartRBC) of a SEND that was handled |
| `WrbcTheorems.CachedMeansStored` | src/broadcast/wrbc/rbc.go:146-257 | a correct node whose cached status is ECHO or READY has stored something, so a node with a cached delivery never keeps a vector of its own |
| `WrbcTheorems.ReadiedUnique` | src/broadcast/wrbc/rbc.go:167-220 | in every reachable state, counting every Byzantine node in its favour, at most one hash has a quorum of READYs |
| `WrbcTheorems.HeldIsReadied` | src/broadcast/wrbc/rbc.go:222-257 | a vector that a correct node still holds after delivery has a quorum of READYs for its hash |
| `WrbcTheorems.VectorAgreement` | src/broadcast/wrbc/rbc.go:90-257 | whatever SENDs carry, two correct nodes that deliver, at any two moments, and still hold a vector hold the same vector |
| `WrbcExact.DeliveryKeeps` | src/broadcast/wrbc/rbc.go:222-257 | a stored vector survives a message if and only if the message does not make the node deliver or carries the hash of the vector |
| `WrbcExact.VectorKept` | src/broadcast/wrbc/rbc.go:90-257 | for n not divisible by 3, an honest sender and Byzantine READYs for its hash: a correct node that has stored the vector holds exactly it in every later state, delivered or not |
| `WrbcExact.VectorValidity` | src/broadcast/wrbc/rbc.go:90-257 | so every correct node whose SEND comes before it has stored anything holds the sender's vector ever after |
| `WrbcLimits.VectorIsLost` | src/broadcast/wrbc/rbc.go:90-257 | for every n divisible by 3, a run with an honest sender and no faulty node in which the sender itself delivers and forgets its vector: nodes whose SEND comes after an echo quorum answer with a READY without a hash, and there are f+1 of them |
| `WrbcLimits.VectorHoldsExactly` | src/broadcast/wrbc/rbc.go:90-257 | a vector of an honest sender, once stored by a correct node, is kept in every run of n nodes if and only if 3 does not divide n |
| `BrachaLoose.TwoSendsTwoQuorums` | src/broadcast/rbc/rbc.go:76-97 | why a node may handle one SEND only: where nodes handle every SEND, as HandleSend does, any sender can make two hashes, of any two bodies, gather an echo quorum |
| `BrachaLoose.OneHashExactly` | src/broadcast/rbc/rbc.go:76-97 | where nodes handle every SEND, at most one hash gathers an echo quorum in all runs whose handled SENDs carry bodies of a given set, if and only if that set has at most one body |
| `BrachaTheorems.Validity` | src/broadcast/rbc/rbc.go:83-205 | when the sender sends one payload to all and Byzantine messages carry the hash of their payload, every correct node that delivers has stored that payload |
| `BrachaLimits.PayloadIsLost` | src/broadcast/rbc/rbc.go:83-127 | one faulty node is enough: for any payload b of an honest sender and any payload c there is a run in which a correct node delivers c while another delivers b |
| `BrachaLimits.PayloadHoldsExactly` | src/broadcast/rbc/rbc.go:83-205 | in every run with an honest sender every correct node that delivers holds the sender's payload, if and only if no node is faulty |
| `BrachaTheorems.OrderIndependence` | src/broadcast/rbc/rbc.go:97-205 | in whatever order one SEND, any ECHOs and READYs for one hash from a quorum of distinct sources arrive, the node ends delivered |
| `BrachaTheorems.FeedStands` | src/broadcast/rbc/rbc.go:129-182 | where a node that has not delivered stands after any sequence of messages: what f+1 READYs and a quorum of READYs have made it do or remember |
| `BrachaTheorems.CacheOnlyAdvances` | src/broadcast/rbc/rbc.go:147-204 | the cached status never moves backwards |
| `BrachaTheorems.NothingBeforeSend` | src/broadcast/rbc/rbc.go:129-157 | before a node handles a SEND it broadcasts nothing, whatever it hears |
| `BrachaExact.ReadyExactly` | src/broadcast/rbc/rbc.go:97-157 | for every sequence of messages with one SEND: the node is past its READY if and only if the sequence holds ECHOs of a quorum, or READYs of f+1 distinct sources, for one hash |
| `BrachaExact.DeliversExactly` | src/broadcast/rbc/rbc.go:159-205 | for every such sequence: the node has delivered if and only if it holds READYs of a quorum of distinct sources for one hash |
| `Gather.IfincludeVec` | src/indexgather/indexgather.go:117-127 | true exactly when the vectors are comparable and every 1 of the first is a non-zero of the second |
| `Gather.GatherNode.OnInform` | src/indexgather/indexgather.go:16-62 | an acknowledgement goes to the sender exactly when its vector is included |
| `Gather.GatherNode.OnAck` | src/indexgather/indexgather.go:64-85 | with a quorum of acknowledgements the node's vector goes out as PREPARE, again for each further one |
| `Gather.GatherNode.OnPrepare` | src/indexgather/indexgather.go:87-108 | one round of the loop: append, count, and with a quorum publish the list |
| `GatherSystem.RunKeeps` | src/indexgather/indexgather.go:16-108 | the invariant of every reachable state with up to f Byzantine nodes, and the first PREPARE never changes |
| `GatherSystem.CommonCore` | src/indexgather/indexgather.go:16-108 | one vector with a quorum of ones, the INFORM vector of the first correct node to send PREPARE, is included in the vector of every correct node whose gather has finished, at every moment of the run |
| `GatherSystem.FinishedList` | src/indexgather/indexgather.go:96-104 | a finished node has decided on a list that names a quorum of distinct sources |
| `GatherExact.FinishesExactly` | src/indexgather/indexgather.go:87-108 | in every run a correct node is final if and only if the distinct sources of the included PREPAREs handed to it are a quorum, and then its list names exactly these |
| `GatherExact.SendsExactly` | src/indexgather/indexgather.go:16-85 | in every run a correct node has sent PREPARE if and only if ACKs of a quorum of distinct sources were handed to it, and an ACK to a node if and only if an included INFORM of that node was |
| `Frequency.Isfrequent` | src/indexvaba/handler.go:307-317 | true exactly when the value is a most frequent vote |
| `Frequency.Getfrequent` | src/indexvaba/handler.go:319-334 | some most frequent vote with its number of supporters, whatever the map order; (-1, -1) for no votes |
| `Frequency.QuorumVoteIsLocked` | src/indexvaba/handler.go:307-334 | for n not divisible by 3: when a quorum voted for k, a value passes Isfrequent, and so can be returned by Getfrequent, on an agreeing table of at least a quorum of entries if and only if it is k |
| `Frequency.LockTiesWhenThreeDivides` | src/indexvaba/handler.go:307-334 | for every n divisible by 3, a concrete vote table with a quorum for 1 and an agreeing table of a quorum of entries on which 0 is as frequent |
| `Frequency.LockHoldsExactly` | src/indexvaba/handler.go:307-334 | the lock holds for all vote tables if and only if 3 does not divide n |
| `Vaba.VabaNode.UpdateList` | src/indexacs/handler.go:45-49 | the reported entries replace the first entries of the vector, the others stay |
| `Vaba.VabaNode.Ifinclude` | src/indexacs/handler.go:143-150 | true exactly when every 1 of the vector is a completed broadcast |
| `Vaba.VabaNode.Number1count` | src/indexacs/handler.go:152-160 | the number of positions that hold 1 |
| `Vaba.VabaNode.OnIndex` | src/indexacs/handler.go:74-90 | an index is accepted exactly when its vector is included and has a quorum of ones, and the first one accepted is kept |
| `Vaba.VabaNode.IfincludeJustify` | src/indexvaba/handler.go:295-305 | true exactly when every entry of the justification is a vote the node has admitted, or in view 0 |
| `Vaba.VabaNode.OnPre` | src/indexvaba/handler.go:120-136 | a proposal is accepted exactly when its index is valid, its justification is the node's own and, after view 1, large enough and most frequent; one that fails the last test leaves the lock held |
| `Vaba.VabaNode.OnVote` | src/indexvaba/handler.go:212-220 | a vote enters the table of its view exactly when its index has been accepted |
| `Vaba.VabaNode.NextView` | src/indexvaba/handler.go:223-234 | with a quorum of votes the node proposes a most frequent one, with the votes, in the next view, unless the views are used up |
| `Vaba.VabaNode.CheckLock` | src/indexvaba/handler.go:249-268 | the final agreement is started once, with a value a quorum voted for, and is not started only if no value has a quorum |
| `Vaba.Leader` | src/indexvaba/handler.go:173-180 | after the reversal the list is mirrored and its first entry is its maximum |
| `VabaExact.IndexExactly` | src/indexacs/handler.go:74-90 | one pass accepts an index if and only if every broadcast its vector reports is completed and it reports a quorum; the first one accepted is kept |
| `VabaExact.ProposalExactly` | src/indexvaba/handler.go:115-136 | one pass admits a proposal if and only if its index is accepted, past view 0 every justifying vote is the admitted one, and past view 1 these are a quorum of which none is more frequent; where only the last test fails the lock is left held |
| `VabaExact.VoteExactly` | src/indexvaba/handler.go:207-220 | a vote enters the table of its view if and only if a proposal of the node it names is admitted |
| `VabaExact.AdmittedProposals` | src/indexvaba/handler.go:115-136 | over every run, whatever a node has admitted passes those tests and goes on passing them, and a vote for a node counts if and only if a proposal of that node is admitted |
| `VabaSystem.RunKeeps` | src/indexvaba/handler.go:103-268 | the invariant of every reachable state with crash faults: tables hold votes cast, later proposals carry a quorum of votes of the view before, and what is locked had a quorum |
| `VabaTheorems.LockCarries` | src/indexvaba/handler.go:223-236 | after a quorum for k in view v every proposal and every vote of every later view is k |
| `VabaTheorems.LockOverRun` | src/indexvaba/handler.go:223-268 | the same over a run, for all votes and proposals made from then on |
| `VabaTheorems.OneInput` | src/indexvaba/handler.go:249-268 | for n not divisible by 3 any two nodes hand the same index to the final agreement, from whatever views and at whatever moments |
| `VabaTheorems.FrequencyTestPasses` | src/indexvaba/handler.go:120-136 | in every run the size and frequency tests pass for every proposal, and no node is left holding the lock |
| `VabaTheorems.ExternalValidity` | src/indexacs/handler.go:74-91 | for every n: the decided index is the first index some node accepted, and the output has a quorum of ones, each a broadcast that node had completed |
| `VabaTheorems.SubsetAgreement` | src/indexacs/handler.go:118-141 | for n not divisible by 3 all outputs of the common subset are the same vector |
| `VabaLimits.TwoOutputs` | src/indexvaba/handler.go:103-289 | for every n divisible by 3, a run of nodes that follow the code, with gathers that name a quorum of nodes, in which two nodes hand different indices to the final agreement and output different vectors |
| `VabaLimits.OneInputExactly` | src/indexvaba/handler.go:249-268 | there is one input to the final agreement in every run of n nodes if and only if 3 does not divide n |
| `VabaLimits.SubsetAgreementExactly` | src/indexacs/handler.go:118-141 | all outputs agree in every run of n nodes if and only if 3 does not divide n |
| `Limbs.BiginttoU64` | src/cryptolib/threshprf/prf_p256.go:13-32 | the lowest four 64-bit words, for numbers of any size |
| `Limbs.U64toBigint` | src/cryptolib/threshprf/prf_p256.go:34-48 | the number that four words make |
| `Limbs.LimbsWeigh` | src/cryptolib/threshprf/prf_p256.go:34-48 | the words are the digits of the number in base 2^64, lowest first |
| `Limbs.LimbsRoundTrip` | src/cryptolib/threshprf/prf_p256.go:13-48 | to words and back gives the number modulo 2^256, and the number itself if and only if it is below 2^256 |
| `Limbs.NumberRoundTrip` | src/cryptolib/threshprf/prf_p256.go:13-48 | every four words are recovered from the number they make |
| `Field.NoInverse` | src/cryptolib/threshprf/prf_p256.go:178-180 | ModInverse gives the inverse of every non-zero residue and leaves zero as it is |
| `ThreshPrf.DealOne` | src/cryptolib/threshprf/prf_p256.go:96-115 | the inner loop computes the value of the dealt polynomial at i modulo the order |
| `ThreshPrf.GenKeyDealer` | src/cryptolib/threshprf/prf_p256.go:68-136 | the keys written to the array are the values of the dealt polynomial at 0, ..., n-1, and the public keys match |
| `ThreshPrf.Fraction` | src/cryptolib/threshprf/prf_p256.go:159-177 | top and bottom are the products over all other points |
| `ThreshPrf.ComputeLagrangeinter` | src/cryptolib/threshprf/prf_p256.go:138-191 | the weights of the first k points, four words each; nil exactly when there are fewer than k |
| `ThreshPrf.ComputePrfFromShares` | src/cryptolib/threshprf/prf_p256.go:424-476 | the encoding of the combination of the first k shares with their weights |
| `Lagrange.WeightsSumToOne` | src/cryptolib/threshprf/prf_p256.go:138-191 | the weights of distinct points sum to 1 modulo the prime |
| `Lagrange.Interpolates` | src/cryptolib/threshprf/prf_p256.go:138-191 | the weighted sum of the values of any polynomial with at most as many coefficients as points is its value at x |
| `ThreshPrf.SharesGiveSecret` | src/cryptolib/threshprf/prf_p256.go:424-476 | the shares of every k distinct nodes combine to the dealt secret times the hashed point |
| `ThreshPrf.DealtShare` | src/cryptolib/threshprf/prf_p256.go:262-277 | what a node with a dealt key computes is its share of the polynomial |
| `ThreshPrf.ComputeShare` | src/cryptolib/threshprf/prf_p256.go:262-340 | the share is the key times the hashed message, the challenge is the hash of base, key, commitment, hashed message, share and second commitment in this order, and the response answers it; nothing for the empty message |
| `ThreshPrf.VerifyShare` | src/cryptolib/threshprf/prf_p256.go:347-422 | accepts if and only if the message is not empty and some list of base, key, hashed message, share and the two commitments that answer the challenge hashes to it |
| `ThreshPrf.HonestShareVerifies` | src/cryptolib/threshprf/prf_p256.go:262-422 | for every message, key and nonce the verifier accepts what the prover makes under the matching key, except for the empty message |
| `ThreshPrf.AcceptedExactly` | src/cryptolib/threshprf/prf_p256.go:363-420 | a share is accepted if and only if there is a list of six with the base, the key, the hashed message and the share in their places, commitments congruent to the response less the challenge times key and share, and the challenge as its hash |
| `ThreshPrf.ChallengeBinds` | src/cryptolib/threshprf/prf_p256.go:363-420 | where the hash of lists is injective, two accepted shares with the same challenge have the same key, the same hashed message and the same share |
| `ThreshPrf.TwoChallengesFixTheShare` | src/cryptolib/threshprf/prf_p256.go:363-420 | if the commitments of one list can answer two challenges that differ modulo the order, the share is the secret key times the hashed message |
| `Coin.CoinNode.OnCoinMsg` | src/aba/coin/coin.go:60-116 | the whole new state equals the specification: reject what does not verify against its own message, drop, cache, or collect and combine |
| `Coin.CoinNode.CollectShare` | src/aba/coin/coin.go:85-92 | the share is stored exactly for a source not yet counted in the round |
| `Coin.CoinNode.CombineShares` | src/aba/coin/coin.go:94-111 | from f+1 shares on the coin is the specified reading of the hash of the combined first f+1 shares |
| `Coin.CoinNode.OnCachedMsg` | src/aba/coin/coin.go:43-58 | the messages cached for a round leave the cache and are all handled, in order |
| `Coin.CoinNode.QueryCoin` | src/aba/coin/coin.go:25-27 | the coin of the round, or -1 |
| `CoinTheorems.CoinIsBacked` | src/aba/coin/coin.go:60-111 | a node that has the coin of a round has stored, in the first f+1 places, accepted and delivered shares of distinct nodes for that round |
| `CoinTheorems.CoinIsFixed` | src/aba/coin/coin.go:60-116 | for sound shares, in every run and whatever messages the shares came with: the coin is read from the round's point off by the weighted sum of the differences of those messages, and from the round's point itself if and only if that sum is a multiple of the order |
| `CoinTheorems.CoinIndependence` | src/aba/coin/coin.go:60-116 | two nodes that collect different shares in different orders read their coins from the same point if and only if their weighted sums are congruent, and then the coins are equal |
| `CoinTheorems.RoundCoin` | src/aba/coin/coin.go:60-116 | when every accepted share is for the message of its round, the coin is the one the dealing fixes |
| `CoinProgress.CoinShowsExactly` | src/aba/coin/coin.go:80-111 | in every run the coin of a round is there if and only if f+1 senders are counted for the round, and counted are exactly the senders of the stored shares, one share each |
| `CoinProgress.ShareCounts` | src/aba/coin/coin.go:60-92 | an accepted share that arrives in its round has its sender counted from then on |
| `CoinProgress.EarlyShareCounts` | src/aba/coin/coin.go:33-92 | one that arrives before its round waits, and is counted when the waiting messages of the round are first handled in that round |
| `CoinProgress.CoinIsRead` | src/aba/coin/coin.go:94-105 | the coin is the parity of the second byte of the hash of the combined point, or the signed 64-bit number that its first eight bytes spell |
| `CoinExact.EveryMessageIsAccepted` | src/aba/coin/coin.go:60-65 | the honest share of a node for any non-empty message, sent as a share of round 0 with that message, is accepted |
| `CoinExact.ReplacedShare` | src/cryptolib/threshprf/prf_p256.go:424-476 | replacing one share leaves the combined point unchanged if and only if its weight times the difference is a multiple of the order |
| `CoinExact.WeightIsZero` | src/cryptolib/threshprf/prf_p256.go:138-191 | the weight of a point is zero if and only if x is one of the other points |
| `CoinExact.OneForeignShare` | src/aba/coin/coin.go:60-116 | f+1 nodes send honest shares, one of them for another message: all are accepted and the coin is read from the point they make, which is the point of the round if and only if node 0 is among the other senders, that node's key is zero, or the two messages hash to the same point |
| `Mvba.Shuffle` | src/mvba/constmvba/mvba.go:54-54 | the array becomes the specified shuffle of what it held |
| `Mvba.ShuffleKeepsIds` | src/mvba/constmvba/mvba.go:52-55 | the shuffle keeps the multiset of ids |
| `Mvba.MvbaNode.GetRandomPermutation` | src/mvba/constmvba/mvba.go:44-56 | the permutation is the array of ids itself, shuffled in place, with the same multiset of ids |
| `Mvba.MvbaNode.StartLoop` | src/mvba/constmvba/mvba.go:85-131 | terminates; the round ends at the least round whose agreement returned 1 (or n), the id elected there is decided, and exactly the specified proposals were made on the way |
| `Mvba.MvbaNode.RabaReprop` | src/mvba/constmvba/mvba.go:172-186 | 1 is proposed again exactly when the completed instance is the elected one and 0 was proposed |
| `Mvba.MvbaNode.OnCompleted` | src/mvba/constmvba/handler.go:86-93 | a completed broadcast is recorded, and 1 is proposed again exactly when it is the elected one and 0 was proposed |
| `Mvba.OneIsCompleted` | src/mvba/constmvba/mvba.go:85-105 | the loop proposes 1 for a round only when the broadcast of the id elected there was completed |
| `Mvba.FirstOneIsLeast` | src/mvba/constmvba/mvba.go:85-131 | the elected round is the least one that decided 1 |
| `Mvba.MvbaNode.ProceedToIteration` | src/mvba/constmvba/mvba.go:75-131 | the permutation followed by the loop decides the id that the function Elected gives for the ids, the generator and the decisions, keeps what was decided when there is none, and makes exactly the specified proposals |
| `Mvba.ElectionIsLeastRound` | src/mvba/constmvba/mvba.go:44-131 | Elected is none exactly when no agreement returned 1, and otherwise the id that the shuffle puts at the least round that did, which is one of the ids |
| `MvbaExact.ShuffleReaches` | src/mvba/constmvba/mvba.go:44-56 | the orderings that some choices of the generator give are exactly those of the same ids |
| `MvbaExact.ProposalsExactly` | src/mvba/constmvba/mvba.go:85-105 | one proposal for each round in order, to the instance of the round and epoch, of 1 if and only if the broadcast of the id elected there is completed and of 0 otherwise |
| `MvbaExact.InstancesApart` | src/mvba/constmvba/mvba.go:35-37 | the instances of different rounds or epochs are different |
| `MvbaTheorems.NodesElectTheSame` | src/mvba/constmvba/mvba.go:44-131 | two nodes with the same ids, each with the decisions its own runs of the binary agreements gave it and with coins that are off by the same amount, elect the same id |
| `MvbaTheorems.OnRoundSameDeviation` | src/aba/coin/coin.go:60-116 | coins made of shares for the message of the round are off by the same amount, whatever shares they are made of |
| `MvbaTheorems.OneWasProposed` | src/mvba/constmvba/mvba.go:98-126 | a node is told 1 by a binary agreement only when some node has proposed 1 in it |
| `MvbaTheorems.ElectedIsCompleted` | src/mvba/constmvba/mvba.go:85-131 | the elected id is one whose broadcast some node had completed when its loop began, when the binary agreements start with the proposals that the loop makes |
| `Erasure.PaddingInput` | src/broadcast/ecrbc/handler.go:145-157 | as many zeros are appended as the remainder, not as many as are missing |
| `Erasure.ErasureEncoding` | src/broadcast/ecrbc/handler.go:163-200 | succeeds exactly for a positive number of data shards that the library supports and encodes; the shards are the consecutive pieces of the padded input, then the library's parity shards |
| `Erasure.ErasureDecoding` | src/broadcast/ecrbc/handler.go:202-218 | every fragment is put in the place of its sender, the later of two replacing the earlier, and the result is what these shards decode to; the stored shards are the reconstructed ones |
| `Erasure.DecodeData` | src/broadcast/ecrbc/handler.go:220-251 | nothing where the library fails, otherwise the joined data shards without trailing zeros |
| `Erasure.JoinPieces` | src/broadcast/ecrbc/handler.go:178-237 | joining the pieces gives back the part that was cut |
| `Erasure.ShardHolds` | src/broadcast/ecrbc/handler.go:163-200 | byte j of data shard i is byte i*p+j of the input, or zero past its end, p being the shard length |
| `Erasure.ShardSizePositive` | src/broadcast/ecrbc/handler.go:174-177 | shards have at least one byte if and only if the input has at least half a byte per data shard |
| `Erasure.ShortInputsAreRefused` | src/broadcast/ecrbc/handler.go:163-200 | only such inputs are encoded: the empty input never is |
| `Erasure.AnyFragmentsDecode` | src/broadcast/ecrbc/handler.go:202-251 | fragments from any s nodes, in any order and with repeats, give all shards back, and they decode to what the data shards decode to |
| `Erasure.RoundTrip` | src/broadcast/ecrbc/handler.go:145-251 | for an input that was encoded and any s of its fragments: decoding returns the whole input, or only its first s*(L/s) bytes when the remainder is positive and below half a row, without trailing zeros |
| `Erasure.RoundTripExactly` | src/broadcast/ecrbc/handler.go:145-251 | decoding returns the input without trailing zeros if and only if the remainder is zero or at least half a row, or the bytes cut off were zero |
| `Erasure.RoundTripIsIdentity` | src/broadcast/ecrbc/handler.go:145-251 | decoding returns the input itself if and only if the padding reaches and the last byte is not zero |
| `Erasure.StripSpec` | src/broadcast/ecrbc/handler.go:239-249 | exactly the zeros at the end are removed |
| `Codec.IntsToBytes` | src/utils/utils.go:164-172 | each entry, cut to 32 bits, as four bytes, lowest first |
| `Codec.BytesToInts` | src/utils/utils.go:174-185 | one entry for each four bytes |
| `Codec.EntryBytes` | src/utils/utils.go:164-172 | byte 4i+j of an encoded vector is byte j, from the lowest, of entry i modulo 2^32 |
| `Codec.NumberBytes` | src/utils/utils.go:140-145 | byte 7-j of an encoded number is byte j, from the lowest, of the number modulo 2^64 |
| `Codec.IntsRoundTrip` | src/utils/utils.go:164-185 | decoding an encoded vector gives each entry cut to 32 bits, and the vector itself if and only if all entries are 32-bit numbers |
| `Codec.BytesRoundTrip` | src/utils/utils.go:164-185 | encoding a decoded vector gives the bytes back, without an incomplete last entry |
| `Codec.IntRoundTrip` | src/utils/utils.go:101-145 | a number is recovered from its eight bytes if and only if it is a 64-bit number |
| `Codec.ByteRoundTrip` | src/utils/utils.go:101-145 | eight bytes are recovered from the number they make |

## Left out

- Liveness under fair scheduling, totality and termination with probability one: what a node does once given the messages is proved, not that they arrive; nodes without a SEND stay silent, and the waiting loops of the code are unbounded.
- Payload agreement of src/broadcast/rbc under an equivocating sender: it fails already with an honest one (`BrachaLimits.PayloadIsLost`).
- Agreement of binary agreement under Byzantine nodes: the model keeps the unchecked majority of a BVAL, for which only BV-justification is claimed.
- The distribution of the decided vector in src/mvba/constmvba/mvba.go (HandleDistributeMsg) and the waiting for a broadcast's hash in Decide.
- src/broadcast/rbc2, rbc3 and rbc4 are textual copies of rbc, which is modelled once.
- The messages of src/broadcast/ra, which is used as an agreement that returns some node's input: its counters do not tell payloads apart, and a node keeps the payload of the ECHO that completes its quorum.
- VabaSystem.RunKeeps: that the results of one gather have a common core is not used, and a node may vote for a leader whose proposal has not been delivered to it yet, where the code stops; an index outside 0..n-1, on which it stops too, does not occur because nodes follow the code.
- CERTIFICATE and INTBUFFER of src/quorum/def.go: every caller passes no message, so nothing is ever stored in the first, and nothing uses the second here.
- Mode switches that no caller sets (changevote of the binary agreement, the wrbc flag of rbc) and the malicious-node test modes.
- Several epochs at once: instance numbers of different epochs overlap; one epoch is modelled.
- Races inside a handler, timers, timestamps, gRPC, serialization, MACs and signatures.
- The encoding of points as coordinates, and the point at infinity as a special case of the encoding.
- How the Reed-Solomon library computes parity shards and which sizes it supports; the check that the encoder runs on what it has just encoded.
- The request queue, connection maps, configuration and logging.
