# A verified model of bip110-crawler

bip110-crawler maps the Bitcoin peer-to-peer network: it crawls peers over clearnet and Tor from two thread pools,
asks each peer which chain it is on, keeps what it finds in a SQLite database shared by several crawlers, and serves
pages from it. This Dafny project models the parts whose correctness is not visible in any one function, and proves
what they promise for every input, every schedule and every run.

`dafny verify dfyconfig.toml` checks the whole project.

## How it is laid out

| file | what it models |
|---|---|
| `Crawl.dfy` | the crawl engine as a transition system: threads ready, asleep, holding a task, probing, expanding, finishing or exited, around two stacks under one lock; a schedule is any sequence of enabled steps, spurious wakeups included |
| `CrawlShared.dfy` | the same shared state as a class updated in place, one method for each stretch of code that runs under its locks, each proved to be the step it stands for |
| `CrawlProgress.dfy`, `CrawlTermination.dfy` | no lost wakeup, no early exit, no deadlock; a bound on the length of every run |
| `CrawlConservation.dfy`, `CrawlOutcome.dfy`, `CrawlStart.dfy` | every seen peer is in exactly one place; what a finished crawl has found; a fresh crawl finds exactly what gossip reaches |
| `CrawlDepth.dfy`, `CrawlEdges.dfy` | the depth limit; the edges of the map |
| `CrawlCap.dfy` | the exact overshoot of the node cap, for every start and every split of the threads |
| `CrawlResume.dfy`, `CrawlContinue.dfy` | saving at any time and resuming, and exactly what is forgotten; two runs joined by a file written in a calm moment find what one run finds |
| `CrawlOwed.dfy` | what any unlimited run finds, and exactly when a resumed one finds everything |
| `ChainSurvey.dfy`, `ChainSplit.dfy`, `ChainAlarm.dfy` | the block locator, the placement of a peer's headers, the clustering that reports a chain split, and when that report is right |
| `CrawlSurvey.dfy` | the split report on the records of a finished crawl: from what peers answer to the alarm |
| `Wire.dfy`, `Base32.dfy`, `Accumulator.dfy`, `Bip39.dfy`, `Bits.dfy` | CompactSize, address and header lists, onion addresses, recovery phrases |
| `Messages.dfy` | whole messages built field by field, as the protocol lays them out, and what the parsers make of them |
| `Time.dfy` | the civil date of a timestamp, its text, and why text order is time order |
| `Store.dfy`, `StoreProofs.dfy`, `Database.dfy` | the database as tables merged by any interleaving of crawlers, and pruning |
| `History.dfy` | the accumulating history as a fold over crawls |
| `Admission.dfy` | the server's in-flight counter as a concurrent protocol |
| `Mempool.dfy` | the next-block feerate |
| `Peers.dfy`, `Decimal.dfy`, `Prelude.dfy` | peers and records, decimal text, sums over sequences |

The network is a function from a peer to what its last probe attempt gives: a failure, or an answer with the peers and
headers it sent. Unless a file has a peer pending twice (`CrawlStart.FileIsDistinct`; no save makes such a file), no two
threads are ever handed the same peer (`CrawlOutcome.OnePlaceEach`), so within one run this is no restriction: whatever
the network does, there is one outcome for each peer probed. Across a stop and a resume it is one. A peer can be probed
in both runs: the placeholder, a peer probed after the stacks were copied (`CrawlResume.ProbedInBothRuns`), one in hand
at the save. Results that span two runs and speak of what gossip reaches (`CrawlContinue.ResumeFindsAll`,
`CrawlOwed.ResumeIsExact`) assume a network that answers the same in both; `CrawlResume.ResumedIsGood` and
`CrawlOwed.ResumedRunFinds` let the second run have a network of its own.

## What the code does not do

- `src/time.rs:4-6` calls the timestamp fixed-width and its text order chronological. Both hold exactly before the year
  10000 (`Time.TwentyCharacters`, `Time.OrderedExactlyBefore10000`).
- `src/main.rs:277-280` says a peer on a chain that diverged thousands of blocks ago still tells us where it went its
  own way. A reply holds at most 2000 headers, so beyond tip 1044 the survey places an honest peer if and only if it
  has reached tip - 6 and shares our block at tip - 1044 (`ChainSurvey.SurveyPlaces`, `ChainSurvey.AnchorFloorIs`); a
  deeper fork is "unknown" (`ChainAlarm.DeepForkIsUnknown`), and a split that deep raises no alarm however many peers
  are on it (`ChainAlarm.DeepSplitIsSilent`). The alarm is raised exactly when two blocks have enough peers each that
  share our block at the floor (`ChainAlarm.FullSurveyIsExact`).
- `src/node.rs:323-328` says that a second cluster means peers are provably on a different chain. Records restored from
  a file keep the block hash of the reference height of their own survey (src/crawler.rs:123-128, src/node.rs:24-25),
  and src/main.rs:642-643 clusters all records together. Ten restored records and ten new ones raise the alarm on a
  network with one chain (`ChainAlarm.StaleRecordsAlarm`). The alarm means two blocks at one height if and only if no
  two reference heights have ten records each (`ChainAlarm.AlarmMeansSplit`).
- `src/db.rs:95-99` promises that nothing a reader within the days kept can see is pruned. This holds if and only if
  the reader ages rows and its cutoff is not before the cutoff pruned at (`StoreProofs.PruneIsExact`);
  `keep_days * 86_400` wraps around beyond 64 bits, and then it can fail (`StoreProofs.PruneWraps`).
- `src/state.rs:1-3` promises that a crawl continues exactly where it left off. A resumed crawl takes every recorded
  peer that is not pending as done and never probes it again. So after a save between the record of an answer and the
  look at its gossip (src/crawler.rs:444-449) that gossip is never followed, although every peer seen is restored
  (`CrawlOwed.GossipIsLost`), nor is that of a peer recorded beforehand that a thread had in hand. Without limits, two
  runs find everything if and only if nothing a done peer gossips is out of reach from the peers pending
  (`CrawlOwed.ResumeIsExact`), and they do whenever no thread has gossip to look at, a peer in hand, or peers found
  and not pushed (`CrawlContinue.ResumeFindsAll`). Of the peers seen, a resumed crawl has forgotten exactly the
  placeholder 127.0.0.1:0 and those without a record that the node cap dropped, that a thread had in hand or had found
  and not pushed when the stacks were copied, or that were first seen between the copies (`CrawlResume.SaveForgets`;
  `CrawlResume.DroppedIsForgotten` and `CrawlResume.InHandIsForgotten` are runs that lose a peer).

## Model

| member | source | states |
|---|---|---|
| `CrawlShared.Shared.NextTask` | src/crawler.rs:310-333 | One turn of the loop pops the newest task of the thread's own pool and counts the thread busy, or ends the crawl exactly when nothing is queued and nobody is busy, or sleeps; the whole new state is the transition system's. |
| `CrawlShared.Shared.FinishTask` | src/crawler.rs:337-352 | The thread is no longer busy, its children are on their stacks in order, the pools that got work are woken, and everybody when the crawl is over. |
| `CrawlShared.Shared.CheckCap` | src/crawler.rs:375-380 | The task is dropped exactly when the cap is set and reached. |
| `CrawlShared.Shared.RecordProbe` | src/crawler.rs:413-447 | An answer replaces any record of the peer, and the record, field by field, has the address and depth of the task, the block hash its headers place at the reference height, both stamps and the latency, handshaked and online; a failure leaves an empty offline record only where there is none; gossip is followed exactly while there is depth left. |
| `CrawlShared.Shared.FollowGossip` | src/crawler.rs:448-477 | The children loop, in closed form: edges to the first allowed peers up to the quota, each newly seen allowed peer queued once, on the stack of its kind, one level deeper. |
| `CrawlShared.GatherIs` | src/crawler.rs:455-476 | The loop over any gossip, duplicates included, gives that closed form. |
| `CrawlShared.Shared.Restore` | src/crawler.rs:118-143 | Resuming in place is the specified resume. |
| `CrawlShared.Shared.Plant` | src/crawler.rs:152-171 | Seeding in place is the specified seeding. |
| `CrawlShared.Shared.TakeTurn` | src/crawler.rs:374-506 | Whatever a runnable thread does next is the transition system's step, so what is proved of every schedule holds of the code's steps. |
| `CrawlProgress.InvStep` | src/crawler.rs:310-352 | Every step keeps the invariant: tasks on the stack of their kind, no onion task without a proxy, `active` the number of threads between next_task and finish_task, a sleeper's own stack empty with work outstanding elsewhere, and no thread gone before the end. |
| `CrawlProgress.Always` | src/crawler.rs:310-352 | The invariant holds after every schedule from every start. |
| `CrawlProgress.IdleIsAbsorbing` | src/crawler.rs:322-324 | Once nothing is queued and nobody is busy, no step of any thread changes anything but which threads are asleep or gone. |
| `CrawlProgress.NoDeadlock` | src/crawler.rs:302-352 | After any schedule, as long as some thread has not returned, some thread can take a step without a spurious wakeup. |
| `CrawlTermination.Terminates` | src/crawler.rs:374-506 | With finitely many peers, no schedule is longer than a number fixed by peers, tasks and threads, plus two steps for each spurious wakeup. |
| `CrawlTermination.BudgetTurn` | src/crawler.rs:310-352 | Every step of a thread lowers that number, sleeping included. |
| `CrawlTermination.EveryCrawlEnds` | src/crawler.rs:99-267 | So every crawl ends, fresh or resumed from any file, whenever some finite set of peers holds the seeds, the file's peers and all its members' gossip. |
| `CrawlCap.CappedCrawlEnds` | src/crawler.rs:374-506 | With a cap and lists of at most L peers, a crawl ends whatever peers there are, no finite set of them assumed: the ceiling bounds the gossip followed, L times that the peers seen, and both the steps. |
| `CrawlConservation.PlacesStep` | src/crawler.rs:310-352 | A step changes the number of places a peer is in (queued, in hand, found and not pushed, settled) by one exactly when the peer is first seen, and otherwise by nothing. |
| `CrawlOutcome.OnePlaceEach` | src/crawler.rs:377-504 | After any schedule each seen peer is in exactly one place, so no two threads hold the same peer and none is probed twice. |
| `CrawlOutcome.Everywhere` | src/crawler.rs:374-506 | After any schedule every task comes from a root along a gossip path as long as its depth says, every settled peer has the record the network determines, nothing else is recorded, and the edges are those of the gossip followed. |
| `CrawlOutcome.WhenOver` | src/crawler.rs:374-506 | When every thread has returned, each seen peer was restored, dropped by the cap, or has its final record, and the gossip of each answering peer with depth left was seen. |
| `CrawlStart.StartBegins` | src/crawler.rs:99-238 | Every start, fresh or resumed from any file, has idle threads in every pool whose stack may fill and each task on the stack of its kind: what the results on progress, termination and the node cap assume. |
| `CrawlStart.FileIsDistinct` | src/crawler.rs:118-171 | A crawl resumed from a file satisfies what the results on conservation and outcome assume as well if and only if no two pending addresses of the file name the same peer; it then takes as done exactly the recorded peers that are not pending. |
| `CrawlStart.FreshCrawlFindsAll` | src/crawler.rs:152-504 | An unlimited fresh crawl, for any schedule and any pool sizes: seen and recorded peers are exactly those gossip of answering peers reaches from the seeds, each stored, field by field, as its answer or failure determines at the depth of a gossip path, and the edges are their gossip, followed once. |
| `CrawlEdges.FreshCrawlEdges` | src/crawler.rs:448-477 | The edges of such a crawl join peers it found to crawlable peers they named, and without a quota all of them. |
| `CrawlDepth.DepthLimit` | src/crawler.rs:444-477 | With a depth limit no task queued, in hand, found or settled lies deeper than the limit at any moment of any run, unless the crawl began deeper. |
| `CrawlDepth.AboveTheLimit` | src/crawler.rs:444-477 | At the end, whatever an answering peer taken at a depth below the limit gossiped was seen. |
| `CrawlStart.PoolSizes` | src/crawler.rs:225-238 | The pools have as many threads as asked for and at least one, the onion pool only with a proxy. |
| `CrawlCap.NodeCapOvershoot` | src/crawler.rs:377-483 | With a cap c, W threads in all and n nodes at the start, recorded nodes plus probes under way never exceed c - 1 + W when n is below c; otherwise the records never change. |
| `CrawlCap.CeilingIsReached` | src/crawler.rs:377-483 | For every cap, every split of the threads between the pools and every network some schedule from a seeded start ends with exactly c - 1 + W nodes: the bound is tight. |
| `CrawlResume.SaveThenResume` | src/crawler.rs:118-290 | A save, its stacks, records and edges copied at three different moments, is resumed with both stacks in order and all records and edges as copied, less the placeholder, and with `seen` rebuilt from records and stacks. |
| `CrawlResume.SaveForgets` | src/crawler.rs:118-290 | Which peers are restored as seen: saved at any time while the threads run on, a crawl forgets of the peers it has seen exactly the placeholder and those without a record that were in hand, unpushed, dropped or not yet seen when the stacks were copied; and it invents none. (What becomes of gossip not yet followed: CrawlOwed.ResumeIsExact.) |
| `CrawlResume.SaveForgetsAt` | src/crawler.rs:214-300 | The same for a save during which nothing happens, in any state of any run: of the peers seen, exactly the placeholder and those without a record that are in hand, unpushed or dropped are not restored. |
| `CrawlResume.StandstillSeen` | src/crawler.rs:245-290 | At a standstill, exactly the placeholder and the dropped peers without a record. |
| `CrawlResume.DroppedIsForgotten` | src/crawler.rs:377-380 | A run with a cap of one at whose end a dropped peer is seen, and not seen by the crawl resumed from the file. |
| `CrawlResume.InHandIsForgotten` | src/crawler.rs:214-219 | A run in which a save while a thread holds a peer loses it. |
| `CrawlResume.SavedAreDifferent` | src/crawler.rs:269-280 | Whenever it is written, the file has no peer pending twice. |
| `CrawlResume.ProbedInBothRuns` | src/crawler.rs:269-290 | A save whose stacks were copied before the first turn and its records after the third makes the resumed crawl probe a peer again. |
| `CrawlResume.FreshIsGood` | src/crawler.rs:152-171 | A fresh start, from seeds and over a network whose peers can be written down, satisfies everything the results on runs and saves assume of a start. |
| `CrawlResume.ResumedIsGood` | src/crawler.rs:118-171 | So does a start resumed from a save of such a crawl written at any time, even if everything but the proxy setting has changed, the network included; so those results hold through any number of stops. |
| `CrawlContinue.ResumedDistinct` | src/crawler.rs:118-142 | The resumed start again has each pending peer queued once and no recorded peer queued that was not pending. |
| `CrawlContinue.ResumeFindsAll` | src/state.rs:1-6 | An unlimited crawl saved in any state in which no thread has gossip to look at, a peer in hand, or peers found and not pushed (a standstill is one), and resumed with its seeds, finds what one run finds, under any two schedules: it sees and records exactly what gossip reaches, each record the one the network determines at the depth of a gossip path, the edges the gossip of the answering peers of both runs; no gossip is followed twice and nobody is probed twice, the placeholder aside. |
| `CrawlOwed.RunFinds` | src/crawler.rs:374-506 | Under any schedule an unlimited crawl from any start with distinct tasks has seen at its end exactly the peers it took as done and those gossip leads to from a queued peer without passing a done one. |
| `CrawlOwed.ResumedRunFinds` | src/crawler.rs:118-171 | For a run resumed from a save made at any moment, over whatever network there is by then, the done peers are exactly those recorded when the records were copied and not pending when the stacks were, the placeholder aside; and it finds exactly those and what gossip leads to from the pending peers and the seeds without passing a done one. |
| `CrawlOwed.ResumeIsExact` | src/state.rs:1-6 | An unlimited crawl saved at any moment and resumed with its seeds finds everything reachable if and only if everything reachable is done or owed to it, and if and only if everything a done peer gossips is. |
| `CrawlOwed.GossipIsLost` | src/crawler.rs:444-449 | A run saved between the record of an answer and the look at its gossip: nobody seen is forgotten, and the resumed crawl ends without a reachable peer. |
| `CrawlContinue.HeardIsSpeakable` | src/p2p.rs:451-535 | Gossip heard through the two address parsers names only peers whose text can be read back, and never the placeholder, which is what the results on files assume of the network. |
| `Peers.ParseShow` | src/p2p.rs:32-58 | Parsing the text of a peer gives the peer back, whatever the default port. |
| `Peers.BareOnion` | src/p2p.rs:44-46 | An onion host without a port gets the default port. |
| `Peers.ParsedIs` | src/p2p.rs:32-49 | A socket address is itself; an onion peer is the whole text on the default port, or what stands before a colon and a 16-bit port; anything else that is refused ends in no onion host. |
| `Peers.ShowInjective` | src/p2p.rs:51-58 | Two peers never share a text, so addresses can be keys. |
| `ChainSurvey.LocatorHeights` | src/main.rs:282-291 | The loop lists the closed-form heights: ten steps of one block from tip - 12, then doubling, down to genesis or 24 entries. |
| `ChainSurvey.HeightsSpaced` | src/main.rs:282-291 | Entry i lies exactly its offset below the tip and above genesis, and the list stops only at 24 entries or when the next offset reaches genesis. |
| `ChainSurvey.BuildLocator` | src/main.rs:281-301 | The locator is the fetched entries of those heights in order, a failed fetch leaving a gap. |
| `ChainSurvey.FetchedAre` | src/main.rs:293-300 | Exactly the heights whose fetch succeeds have an entry, in order, with the hash fetched: a failed fetch leaves a gap and does not end the list. |
| `ChainSurvey.HashHexInjective` | src/p2p.rs:194-196 | Different hashes have different texts, so comparing texts compares blocks. |
| `ChainSurvey.HashHexIs` | src/p2p.rs:194-196 | Two lowercase hex digits a byte, last byte first, high half first. |
| `ChainSurvey.Placement` | src/p2p.rs:250-260 | For any locator on our chain, an honest peer is placed at its own block at the target exactly when it has one and its newest shared entry lies at most 2000 below; otherwise it gets the empty string. |
| `ChainSurvey.NeverMisplaced` | src/p2p.rs:250-260 | No honest peer gets a wrong hash, whatever gaps the locator has. |
| `ChainSurvey.SurveyPlaces` | src/main.rs:268-301 | With the full locator an honest peer is placed if and only if it has reached tip - 6 and shares our block at the anchor floor. |
| `ChainSurvey.AnchorFloorIs` | src/main.rs:268-291 | Above tip 1044 the anchor floor is tip - 1044. |
| `ChainSplit.AssessChainSplit` | src/node.rs:378-426 | With a the height of the first active tip (0 if none): the forks are exactly the tips with a positive branch length, in order, longest their longest, rejected the invalid ones of length at least 1 within 2016 blocks of a; responders are the peers that reported a hash, chains the different hashes; largest and second reach k exactly when one and two clusters do; a split is reported exactly for a rejected tip or two clusters of ten. |
| `ChainAlarm.ClusterIs` | src/node.rs:397-409 | Whatever surveys the records come from, a block's cluster is exactly the honest peers that answered and whose reply reached the reference height of their survey with that block there. |
| `ChainAlarm.ClustersAreBlocks` | src/node.rs:397-413 | Two clusters of k exist if and only if two different blocks are held by k peers each, at whatever heights. |
| `ChainAlarm.HoldsIffAnchored` | src/main.rs:268-301 | With the full locator a peer is counted for its block exactly when it also shares our block at the anchor floor. |
| `ChainAlarm.OneSurveyIsExact` | src/node.rs:397-413 | When all records come from surveys at one height, two clusters of k exist if and only if two blocks at that height are held by k peers each. |
| `ChainAlarm.AlarmMeansSplit` | src/node.rs:397-413 | For records at given reference heights, two clusters of k always mean two blocks at one height, whoever the honest peers are, if and only if no two of the heights have k records each. |
| `ChainAlarm.RealSplitShows` | src/node.rs:397-413 | Two blocks at one height, each held by k peers whose replies reached that height, always give two clusters of k. |
| `ChainAlarm.FullSurveyIsExact` | src/node.rs:397-413 | For one survey with the full locator two clusters of k exist if and only if two blocks at the reference height have k answering peers each that share our block at the anchor floor. |
| `CrawlSurvey.StoredIsGenuine` | src/crawler.rs:413-443 | The record stored of a peer of an honest network carries what its honest reply to the full locator is placed as. |
| `CrawlSurvey.CrawlAlarmIsExact` | src/crawler.rs:413-443 | When an unlimited fresh crawl of an honest network is over, its records contain two clusters of k exactly when two blocks at tip - 6 are held by k reachable answering peers each that share our block at the anchor floor. |
| `ChainAlarm.DeepForkIsUnknown` | src/main.rs:274-280 | For every tip above 1044 and every height f up to tip - 1044: a chain with all our blocks below f and others from there on, whose honest peer is placed nowhere although it has another block than ours at tip - 6. |
| `ChainAlarm.DeepSplitIsSilent` | src/node.rs:397-413 | Any number of answering peers on that chain and on ours, surveyed in full, give no two clusters of any size. |
| `ChainAlarm.StaleRecordsAlarm` | src/crawler.rs:123-128 | Ten records restored from a survey at one height and ten from another, all surveyed in full on a single chain, give two clusters of ten. |
| `Time.CivilIsRight` | src/time.rs:9-23 | For every day count the formula gives a valid Gregorian date, and counting days by leap years and month lengths, from 1970-01-01, gives the day count back. |
| `Time.TextOrderIsTimeOrder` | src/time.rs:4-25 | For all seconds before the year 10000, one timestamp's text comes before another's exactly when its time does. |
| `Time.TwentyCharacters` | src/time.rs:4-25 | The text has 20 characters exactly for the seconds before the year 10000, and never fewer. |
| `Time.IsoReadsBack` | src/time.rs:4-25 | A reader of the form of section 5.6 of RFC 3339 (four digits, two and two with their separators, a valid date, a clock in range, a closing Z and nothing more) gets the second back from every text before the year 10000 and rejects every later one. |
| `Time.OrderedExactlyBefore10000` | src/time.rs:4-25 | Text order is time order below n seconds if and only if n is at most the first second of the year 10000. |
| `Time.OrderEndsAt10000` | src/time.rs:4-25 | The last second of 9999 and the next one show that text order fails there. |
| `Wire.WriteVarint` | src/p2p.rs:278-291 | The buffer grows by exactly the number's encoding. |
| `Wire.VarintRoundTrip` | src/p2p.rs:278-321 | Every 64-bit number written anywhere is read back, the cursor ending right after it. |
| `Wire.VarintIsShortest` | src/p2p.rs:278-312 | No encoding that reads as the number is shorter than the one written. |
| `Wire.ScanAddrV2` | src/p2p.rs:477-535 | The loop finds the dialable peers of the records up to the first unreadable one, at most 1000 of them; which those are, `Messages.GossipArrives` says. |
| `Wire.AddrV2RoundTrip` | src/p2p.rs:477-535 | An encoded list of any well-formed records gives back exactly the dialable ones of its first 1000, in order, the default port in place of port 0, whatever bytes follow. |
| `Messages.GossipArrives` | src/p2p.rs:477-535 | A list encoded as BIP155 has it (IPv4 as network 1 with 4 bytes, IPv6 as 2 with 16, a Tor v3 key as 4 with 32) gives back exactly its first 1000 addresses as peers, in order, on port or default port, and nothing for a record of any other network or length. |
| `Messages.TooLongStops` | src/p2p.rs:498-508 | A record whose address is longer than 512 bytes cannot be read. |
| `Wire.AtMost1000` | src/p2p.rs:480-483 | Any bytes at all give at most 1000 peers. |
| `Wire.ScanAddr` | src/p2p.rs:451-475 | The loop of the legacy parser finds the peers of the entries up to the first unreadable one, at most 1000 of them. |
| `Wire.AddrRoundTrip` | src/p2p.rs:451-475 | An encoded legacy list gives back its first 1000 records, in order, mapped IPv4 addresses as IPv4 and the default port in place of port 0. |
| `Messages.LegacyArrives` | src/p2p.rs:451-475 | A legacy list of IPv4 addresses, written as IPv6, and of IPv6 addresses gives back its first 1000 as peers. |
| `Wire.ParsedPeer` | src/p2p.rs:451-535 | Whatever bytes arrive, every peer either parser builds can be written down and read back, and none is the placeholder. |
| `Wire.ScanHeaders` | src/p2p.rs:223-244 | The loop finds the headers up to the first unreadable one or the 2000th. |
| `Wire.HeadersRoundTrip` | src/p2p.rs:223-244 | The headers of a reply arrive as sent, cut off after 2000. |
| `Messages.HeadersArrive` | src/p2p.rs:223-244 | Headers built from version, parent, Merkle root, time, bits and nonce are parsed into their own hashes and parents, the first 2000 of them. |
| `Messages.ReplyArrives` | src/p2p.rs:223-244 | Headers that continue a chain above a block, as bytes, are parsed into the honest reply from there. |
| `Messages.BytesPlace` | src/p2p.rs:250-260 | The survey from the bytes: an honest reply to the full locator is placed if and only if the peer has reached tip - 6 and shares our block at the anchor floor, and then at its own block. |
| `Base32.Base32Lower` | src/p2p.rs:80-97 | The loop, whose 32-bit accumulator drops its high bits, gives the bit string in groups of five, as section 6 of RFC 4648 has it. |
| `Base32.Base32Decode` | src/p2p.rs:670-683 | The decoder's loop, five bits in and a byte out as soon as eight are held, gives the whole bytes of the bit string despite its truncating accumulator, and fails exactly on a character outside the alphabet. |
| `Base32.DecodeEncode` | src/p2p.rs:670-683 | The whole bytes of an encoding's bit string are the byte string encoded, for every byte string. |
| `Base32.EncodeLength` | src/p2p.rs:80-97 | n bytes give (8n + 4) / 5 symbols. |
| `Base32.OnionHosts` | src/p2p.rs:63-77 | Every onion host has 62 characters (56 and the suffix), and different keys have different hosts. |
| `Base32.OnionHostReads` | src/p2p.rs:63-77 | Decoding the host gives the key, the first two bytes of the digest of ".onion checksum", key and version, and version 3. |
| `Bip39.EntropyToMnemonic` | src/web/entropy.js:45-55 | The loop reads the words off the entropy and checksum bits in groups of eleven. |
| `Bip39.GeneratedIsAccepted` | src/web/entropy.js:45-66 | Every entropy of 4k bytes, k up to 256, gives exactly 3k listed words that verify. |
| `Bip39.AcceptedIsGenerated` | src/web/entropy.js:59-66 | Any 3k listed words that verify for an entropy of 4k bytes are that entropy's phrase. |
| `Database.Db.WriteSnapshot` | src/db.rs:292-357 | One transaction merges each listed node into its row, keyed by address, and adds the edges; at a new address the row is the node's own, stamped with the snapshot only when it is online without a stamp, with its place by name and its latency. |
| `StoreProofs.TransactionsConcatenate` | src/db.rs:276-280 | Transactions of several crawlers, one after another, are one run of writes. |
| `StoreProofs.TableIs` | src/db.rs:295-331 | After any writes a row is the summary of those that count (handshakes, and whatever came before the first one): the last one's columns, the first non-empty first_seen, the last known value of each measurement. |
| `StoreProofs.NothingLost` | src/db.rs:295-331 | Over any writes no row is lost, no handshake undone, no first_seen moved, no known latency or place blanked. |
| `StoreProofs.FailedProbeIsIgnored` | src/db.rs:297-331 | A write without a handshake leaves a table alone whose row has one. |
| `StoreProofs.RepeatedSnapshot` | src/db.rs:304-352 | Writing the same snapshot again changes nothing. |
| `StoreProofs.SnapshotRow` | src/db.rs:333-352 | What the row of a listed node becomes, column by column, and how it is merged into a row that was there. |
| `StoreProofs.RestampedSnapshot` | src/db.rs:334-343 | Writing a snapshot again at a later time changes nothing when every online node carries a stamp: rewriting does not refresh. |
| `Database.Db.PruneAndVacuum` | src/db.rs:104-147 | Refuses zero days and then changes nothing; otherwise the two deletes, row by row, leave our own node and the rows confirmed at the cutoff or later and exactly the edges with both ends left, and no reader now or later with a window no longer than the days kept can tell. |
| `StoreProofs.PruneIsExact` | src/db.rs:104-147 | A reader's fresh nodes survive pruning in every database if and only if it ages rows at all and its cutoff is not before the cutoff pruned at. |
| `StoreProofs.PruneKeepsFresh` | src/db.rs:433-441 | So a reader now or later, with a window no longer than the days kept, sees the same fresh nodes. |
| `StoreProofs.AgesAre` | src/db.rs:433-441 | In seconds, for a row confirmed at x: it survives pruning exactly when it is our own or x is no more than the days kept back, and a reader sees it exactly when it is online and x is within its window, if any. |
| `StoreProofs.PruneWraps` | src/db.rs:110 | A number of days whose seconds do not fit in 64 bits hides nodes. |
| `StoreProofs.PruneSettles` | src/db.rs:132-147 | Afterwards every edge has both ends, only edges without an end were deleted, our own node is still there, and pruning again deletes nothing. |
| `History.History.Merge` | src/history.rs:41-87 | Merging in place, both loops, is the specified merge of one crawl. |
| `History.HistoryIs` | src/history.rs:34-87 | After any crawls: times_seen counts the handshakes, first_seen is the first listing, last_seen the last handshake, online whether the latest crawl handshook the address, and the rest is what the last handshake (or first listing) said. |
| `History.NeverForgotten` | src/history.rs:40-87 | No address disappears. |
| `Admission.InvStep` | src/serve.rs:101-124 | Every step of a dispatcher or handler keeps the counter equal to handlers admitted plus refusals under way, and admitted handlers within 64. |
| `Admission.AdmissionControl` | src/serve.rs:27-126 | After any schedule at most 64 handlers run, the counter is at most 68 and never lowered at 0, a request ends in a refusal only while at least 61 handlers are counted as running and is admitted whenever the counter is below 64, and an idle server's counter is 0. |
| `Admission.CounterReaches68` | src/serve.rs:101-102 | Some schedule reaches 68. |
| `Admission.RefusedAt61` | src/serve.rs:101-102 | Some schedule refuses a request while 61 handlers run. |
| `Admission.Gate.Receive` | src/serve.rs:101-108 | A request is admitted exactly when the counter was below 64. |
| `Mempool.NextBlockFeerate` | src/rpc.rs:163-174 | None exactly when everything pending is smaller than a block of 1,000,000; otherwise a listed rate that less than a block pays more than and at least a block pays. |
| `Mempool.NextRateIsUnique` | src/rpc.rs:161-174 | There is only one such rate. |
| `Mempool.SameForEveryOrder` | src/rpc.rs:161-174 | It is the same for every order of the mempool, so for every tie order of the sort. |

## Left out

- Sockets, SOCKS5, timeouts and the retry loop (src/crawler.rs:354-407): the outcome of the last attempt is the `probe` parameter.
- Thread spawning, mutex poisoning and panics: a pool is a sequence of threads, and a step is what runs under the locks.
- CrawlShared.Shared.FinishTask: wakes each pool once, where the code may notify a pool twice while it holds the lock.
- The monitor thread and live snapshots (src/crawler.rs:173-222): a periodic save is a save at any moment of the run.
- Depth-limited crawls finding every peer within the depth: the code does not promise it, the first visit fixes the depth.
- 32-bit depth, times_seen and cluster counts, and the sum of mempool sizes, are unbounded here.
- Peers.NodeInfo: `client` stands for protocol version, user agent, services, start height, implementation, version and BIP-110 stance, which no modelled code looks into.
- Peers.ParseShow: the standard library's socket address text is a parameter; the law assumed of it is that reading inverts showing, that no socket address text contains the letter o, and that the placeholder shows as 127.0.0.1:0.
- SHA-256 and SHA3-256: functions passed in, only the length of the digest assumed; the coherence of two chains (a block hash fixes its height and history) is what collision-freeness is for.
- ChainSurvey.PeerHashAt: a peer that knows no locator entry answers from genesis, as the Bitcoin node software does; the peer's side is not part of this repository.
- ChainSurvey.LocatorHeights, ChainSurvey.BuildLocator: the two loops of one function, as two methods.
- Wire.ReadVarint, Wire.ReadRecord: the cursor is passed and returned; Wire.ScanRecord, Wire.ScanRecords and Wire.ScanHeaders move it in place.
- Wire.Dialable: the onion host of a key is a parameter; `Base32.OnionV3Host` is the code's.
- `build_getheaders`, message framing and checksums.
- Base32.Base32Lower, Base32.Base32Decode: the inner loop and the inner branch are methods of their own, Base32.WriteSymbols and Base32.WriteByte; the decoder's panic is None.
- History.History.Merge: its two loops are methods of their own.
- Bip39.VerifyMnemonic: takes listed words only; Bip39.GeneratedIsAccepted, Bip39.AcceptedIsGenerated: entropies of 4k bytes up to 1024, the longest whose checksum SHA-256 can supply; the entropy pool is not modelled.
- Database.Db: rows have no NULL timestamps; the meta table, record_history, the blocks tables, the schema, indexes, WAL and VACUUM are left out, and a transaction is one method.
- StoreProofs.RepeatedSnapshot: assumes each address at most once in a snapshot, as a crawl's node map gives it.
- History.HistoryIs: assumes each address at most once per crawl and a non-empty stamp.
- Mempool: feerates are reals and the sort is an insertion sort; zero sizes are filtered out before.
- ChainSplit.SortSizes: the sort is an insertion sort.
- ChainAlarm.AlarmMeansSplit: reference heights are above 6, as every survey's are, and below 2^63, the range of the code's heights.
- The clock: now is a parameter; days before 1970 never occur, so the formula's negative era is left out.
- `bucket_histogram`, `parse_version`, user-agent classification, geolocation, page assembly and command-line parsing: branch reading with no deep property.
