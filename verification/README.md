# Vault and Telepath in Dafny

A model, with proofs, of the encrypted shard vault (`src/vault`), of the Telepath transfer protocol
on top of it (`src/telepath`), and of the snapshot vault for model weights (`src/decillion/vault.py`).
`dafny verify dfyconfig.toml` checks all of it.

## What is modelled

| files | subject |
|---|---|
| `Hashing`, `Outcomes`, `Merkle`, `ReceiptBatch` | byte strings, hashes, the Merkle tree in both of its uses |
| `Protocol`, `ReplayCache`, `AccessList`, `Sessions`, `SessionSurvival` | messages, freshness, replay table, allowlist, sessions |
| `ShardCache`, `LruInclusion`, `LruFetches` | the LRU cache with two bounds, and how a larger one compares: under gets and puts, and under `fetch_shard` |
| `TelepathServer`, `TelepathReplies`, `TelepathRuns`, `PullService`, `FullTable` | a serving node as a state machine, what it answers, and what holds over its runs |
| `TelepathClient`, `TelepathNetwork`, `TelepathSafety`, `NonceCopies` | the client's checks, and a world of nodes on an unreliable network |
| `TelepathNodes`, `PullOverlap`, `PullTargets`, `PullReports`, `EndToEnd` | the class with its handlers and `pull_model`; pulls that overlap; pulls that share a target; what a pull reports; from `add_file` to the pulled file |
| `WholePull`, `ColdPull` | when a whole pull ends with the file, and how large a replay table it takes |
| `Framing`, `Base64` | length-prefixed frames and base64 |
| `ShardStore`, `StoreReading`, `StoreChecking`, `Publication` | the sharded store, what reads it, its checker, and interleaved `add_file` calls |
| `ReceiptChain` | the HMAC-linked log |
| `SnapshotNames`, `SnapshotVault`, `SnapshotPublication`, `SnapshotSafety`, `SnapshotProgress`, `WeightVaults` | snapshots: names, inventory, interleaved processes, a download left alone, and the class |

Classes that update their fields are classes here (`NonceCache`, `ACL`, `ShardCache`, `Session`,
`SessionRegistry`, `TelepathNode`, `VaultStore`, `VaultReceipts`, `WeightVault`, and a `Connection`
for the framed stream). Their methods are proved equal to functions on values, and the claims about
whole runs are proved of those functions.

## Assumptions

- SHA-256 is any function to 32 bytes. It is never assumed injective: a binding claim reads "equal,
  or two different strings that were really hashed collide", with the finite sets of hashed strings
  named. HMAC is any function from log entries to 64 characters.
- AES-GCM: decrypting undoes encrypting with the same key, nonce and associated data, and adds 16 bytes.
- Ed25519 in `TelepathNetwork`: a signature check succeeds exactly on messages that were signed, and
  a message in the name of a node is signed by that node. The network can drop, delay, reorder,
  duplicate and redirect everything, and other keys can sign what they like, with any nonce, also one that a
  node is using. Where a claim needs that nobody copied a client's nonces it says so (`TelepathNetwork.Uncopied`).
- The names that `uuid4` gives a node are new to the world; `mkdtemp` never reuses a name.
- A node's manifest is not replaced while the node serves it (`PullService.NothingReplaced`, and the same condition
  on a node's own additions in `TelepathNetwork`). `Publication` has the replacement.
- The length of a message's JSON form is any function of the message without its shard bytes, plus the base64 text.
- Time is a real number. Each clock reading of the source is an input of its own, so a connection has
  one reading for freshness, one for the replay table and two for the session. Claims that need a
  clock that does not run back say so.
- File operations are atomic. Renaming replaces a name at once. A file opened for writing is buffered as CPython's
  `BufferedWriter` does it, with any size of the buffer (`PullOverlap.NextPos`).

## What the proofs found

- A reply is bound to the nonce of a request, not to its sender, and the index in it is never compared. So fetch
  correctness holds when no other key copies the nonce of one of the client's requests
  (`TelepathSafety.AcceptedShardIsPeers`), and fails otherwise: for any two models of a node there is a run in which
  the client takes in and caches a shard that another key asked for (`NonceCopies.CopiedNonceMisleads`). What an
  accepted reply holds is always what some signed request with this nonce asked for
  (`TelepathSafety.AcceptedShardIsSomeones`); who sent that request plays no part in the checks
  (`TelepathSafety.ReplyAcceptedIff`).
- A request in time for a shard of an intact model is served if and only if the replay table has room and the reply
  fits into a frame (`PullService.RequestServedIff`). A shard above three quarters of the frame limit never fits
  (`TelepathServer.ShardSendableIff`): `send_frame` raises and the connection closes without a reply. A table of
  `max_entries` recent messages refuses every new one, and such a run exists for every new node
  (`FullTable.TableFills`).
- A whole pull whose requests are all in time ends with the file if and only if there is room for every request that
  the client's cache does not spare it (`WholePull.PullEndsIff`). Made at one instant, from a new node into an empty
  cache, it needs a replay table with more entries than the model has shards (`ColdPull.ColdPullEndsIff`).
- At-most-once dispatch needs `ttl_s > 2 * max_skew_s`. The shipped 600 and 300 seconds meet this with
  equality, so one message can be dispatched twice, and is when it is handled at exactly the two ends of its window
  (`ReplayCache.ShippedRepeatOnlyAtBothEnds`, `ReplayCache.ShippedDispatchesTwice`), or if a handler pauses between
  its two clock readings. `ReplayCache.DispatchedTwiceIff` is the exact condition.
  docs/SHARDED_WEIGHT_VAULT.md:12 says without qualification that replay caches reject reused nonces. A message whose
  timestamp is NaN is in every window, and with any limits it is the only kind that a longer `ttl_s` does not stop
  (`ReplayCache.RepeatsIffNotANumber`).
- `pull_model` is all-or-nothing as long as pulls of one target do not overlap
  (`PullOverlap.ApartIsAllOrNothing`). When two overlap they share one `.part` file, and the first can
  report success over a target with a hole, since its digest is taken of the chunks and not of the file.
  `PullOverlap.OverlapDamagesIff` says for which files this happens: with shards larger than the write buffer, all
  but those that are zeros up to their last shard (`PullOverlap.LargeShardsIff`).
- What `pull_model` returns lets the peer's SESSION_ACCEPT override `bytes` and `path`: it reports the size of what it
  wrote if and only if the accept has no other `bytes` of its own (`PullReports.ReportIff`), and a peer can have any value
  reported for an empty file (`PullReports.PeerNamesTheSize`). A node's own accept has neither name
  (`PullReports.NodeReportsSize`).
- A `pull_model` whose last receipt cannot be written raises, and leaves the whole file in the target
  (`EndToEnd.PulledIsOriginal`).
- Another model shares the target of a pull if and only if the model's id contains a slash or two underlines in a row,
  or is empty or a single dot (`PullTargets.TargetsClashIff`).
- Two overlapping `add_file` calls for one model both succeed and the later replaces the earlier
  (`Publication.LaterOverlapWins`); without overlap a manifest never changes (`Publication.ReplacedOnlyByOverlap`).
- A cache with more entries need not hit wherever a smaller one does. For two bounds on entries, the smaller `m1`, and a
  common bound on bytes, it does on every run if and only if `m1` is at most 1, the bounds are equal, or no bytes fit
  (`LruInclusion.InclusionIff`). The same holds for the way `fetch_shard` uses the cache
  (`LruFetches.FetchHitsKeptIff`), because a fetch that only the smaller cache has to make can fail; the runs without
  such a failure are exactly those that keep the smaller cache a suffix of the larger (`LruFetches.SuffixIff`).
- The Merkle tree binds lists of one length only (`Merkle.OddListHasPaddedTwin`), and a proof means a leaf
  only at the full length (`Merkle.TailProvesParent`).
- A download slot is refused if and only if a process is in it or died in it (`SnapshotSafety.BusyIff`), and one that
  died there leaves its lock behind for good (`SnapshotSafety.DeathKeepsTheLock`). So does one for which `mkdtemp`
  fails, since that stands before the `try` (`SnapshotProgress.FailureGoes`).

## Model

| member | source | states |
|---|---|---|
| Merkle.MerkleRoot | src/vault/access.py:127-135 | the loop computes the root of the level-by-level tree, 32 zero bytes for no leaves |
| Merkle.NextLevel | src/vault/access.py:132-134 | padding an odd level and hashing pairs gives the next level up |
| Merkle.MerkleProof | src/vault/access.py:138-151 | the cursor loop gives, from the leaf up, each level's sibling and its side; any other index is an IndexError |
| Merkle.VerifyMerkle | src/vault/access.py:154-158 | true exactly when following the proof from the leaf ends at the root |
| Merkle.ProofComplete | src/vault/access.py:127-158 | the proof built for any leaf of any list verifies against the list's root |
| Merkle.ProofSpellsIndex | src/vault/access.py:138-151 | a proof has one step per level, and its sides decode to the index it was built for |
| Merkle.DepthIsCeilLog2 | src/vault/access.py:144-150 | the number of levels is the binary logarithm of the number of leaves, rounded up |
| Merkle.LevelBinds | src/vault/access.py:132-134 | two levels of one length with the same next level are equal, or two hashed pairs collide |
| Merkle.RootBinds | src/vault/access.py:127-135 | two lists of digests of one length with one root are equal, or two strings hashed on the way collide |
| Merkle.OddListHasPaddedTwin | src/vault/access.py:132-133 | an odd list has the root of the list with its last leaf doubled, so the length proviso is needed |
| Merkle.ProofSound | src/vault/access.py:127-158 | a verifying proof of full length proves that the leaf is the one at the position its sides spell, or shows a collision |
| Merkle.TailProvesParent | src/vault/access.py:154-158 | without its first step a proof verifies for the parent node, so the length of a proof must be fixed |
| ReceiptBatch.MerkleRoot | src/decillion/receipts.py:119-129 | the second tree: leaves are digests of encoded receipts, and an empty batch has the digest of the empty string |
| ReceiptBatch.BatchRootBinds | src/decillion/receipts.py:119-129 | two batches of one size with one root hold the same receipts in the same order, or a collision is shown |
| ReplayCache.NonceCache.Accept | src/vault/access.py:81-91 | one call's answer and new table, purge included; the table never outgrows its bound |
| ReplayCache.BoundKept | src/vault/access.py:83-90 | accepting keeps the number of entries within max_entries |
| ReplayCache.AcceptedIff | src/vault/access.py:81-91 | a pair is accepted exactly when it has no live entry and fewer than max_entries entries are live |
| ReplayCache.LazyRefinesEager | src/vault/access.py:81-91 | over any run, purging only a full table answers the same as dropping every entry when it expires |
| ReplayCache.RememberedUntilExpiry | src/vault/access.py:81-91 | purging never forgets a live nonce: until its entry expires no arrival with that pair is dispatched |
| ReplayCache.DispatchesAreTtlApart | src/telepath/node.py:79-88 | two dispatches of one sender and nonce in one run are at least ttl_s apart |
| ReplayCache.AtMostOnce | src/telepath/node.py:79-88 | a message whose timestamp is not NaN is dispatched at most once per run if ttl_s exceeds twice the skew by more than the pause between the two readings |
| ReplayCache.RepeatsIffNotANumber | src/telepath/protocol.py:79-82 | with ttl_s above twice the skew and one reading per arrival, a message with a good nonce is dispatched twice in some run of a new node if and only if its timestamp is NaN |
| ReplayCache.ShippedRepeatOnlyAtBothEnds | src/telepath/protocol.py:79-80 | with 600 and 300 seconds a second dispatch happens only when the message is handled at exactly both ends of its window |
| ReplayCache.DispatchedTwiceIff | src/telepath/node.py:79-88 | two arrivals at a new node are both dispatched if and only if both verify and are accepted ttl_s apart |
| ReplayCache.ShippedDispatchesTwice | src/telepath/protocol.py:79-80 | with the shipped limits every message signed at 300 or later is dispatched twice by a new node that gets it at both ends of its window |
| AccessList.ACL.Allow | src/vault/access.py:104-108 | taken if and only if the key is 32 pairs of hex digits with white space anywhere but inside a pair, so a text of hex digits alone if and only if it has 64; afterwards exactly that key gained exactly that model, or every model for `*` |
| AccessList.HexBytesIff | src/vault/access.py:105 | a text is read as n bytes if and only if it is n pairs of hex digits with white space anywhere but inside a pair |
| AccessList.DigitsOnly | src/vault/access.py:105 | hex digits alone are read as half as many bytes, if there is an even number of them |
| AccessList.OtherCharacter | src/vault/access.py:105 | a text with any other character is refused |
| AccessList.SplitPair | src/vault/access.py:105 | a text with white space inside a pair is refused |
| AccessList.HexIsRead | src/vault/access.py:105 | the hex form of any bytes is read as that many, also with white space between the pairs |
| AccessList.ACL.Revoke | src/vault/access.py:110-112 | afterwards exactly that entry is gone; a key the wildcard lists keeps access to every model |
| ShardCache.ShardCache.Get | src/telepath/cache.py:16-23 | a hit returns the value and moves it to the recent end, a miss changes no entry; the counters follow |
| ShardCache.ShardCache.Put | src/telepath/cache.py:25-36 | the new entries, with bytes_used kept equal to the sum of value lengths and evictions counting what was dropped; the loop ends |
| ShardCache.TrimIsLongest | src/telepath/cache.py:33-36 | the eviction loop keeps the longest suffix that meets both bounds |
| ShardCache.PutKeepsLongestSuffix | src/telepath/cache.py:25-36 | after an accepted put the entries are the longest suffix of the old order without the key plus the new entry that fits, the new entry included |
| ShardCache.RunKeepsValid | src/telepath/cache.py:16-36 | after every run keys are distinct and both bounds hold |
| ShardCache.GetReturnsLastAccepted | src/telepath/cache.py:16-36 | in every run get returns the last accepted put of its key, or nothing |
| ShardCache.Conservation | src/telepath/cache.py:25-36 | keys inserted while absent are the resident entries plus the entries dropped, over any run |
| ShardCache.Perform | src/telepath/cache.py:16-36 | any run on a cache object leaves the entries of the run, and its evictions counter is what the run dropped: inserted keys equal resident entries plus evictions |
| LruInclusion.Inclusion | src/telepath/cache.py:16-36 | while bytes never bind, a smaller cache run on the same operations holds a part of the larger one's entries, with equal values in the same order |
| LruInclusion.IncludedMeansHits | src/telepath/cache.py:16-23 | inclusion makes every hit of the smaller cache a hit of the larger with the same bytes |
| LruInclusion.InclusionNeedsRoom | src/telepath/cache.py:33-36 | for any two bounds from 2 on and any room for bytes, a run after which a key is a hit of the smaller cache alone |
| LruInclusion.InclusionIff | src/telepath/cache.py:16-36 | every hit of the smaller cache is a hit of the larger with the same bytes, on every run, if and only if the smaller holds at most one entry, the bounds are equal, or no bytes fit |
| LruFetches.FetchesHoldShards | src/telepath/node.py:270-294 | a cache filled by fetches, some of which fail, holds the peers' shards, whatever was evicted |
| LruFetches.FetchesAreOps | src/telepath/node.py:270-294 | a run of fetches leaves the cache as a run of puts for the answered ones and gets for the failed ones |
| LruFetches.FailedFetchLosesHit | src/telepath/node.py:277-291 | for any two bounds from 2 on and any room for bytes, a run of fetches with one failure after which a shard is a hit of the smaller cache alone |
| LruFetches.FetchHitsKeptIff | src/telepath/node.py:270-294 | on every run of fetches, failed ones included, the larger cache hits wherever the smaller does, under exactly the same bounds as for gets and puts |
| LruFetches.SuffixIff | src/telepath/node.py:270-294 | on a run of fetches the smaller cache stays a suffix of the larger, even when bytes bind, if and only if no fetch fails that the larger cache answers by itself (unless the smaller cache is empty then) |
| EndToEnd.FetchIsRequest | src/telepath/node.py:270-299 | a fetch_shard is such a fetch, answered exactly when its reply passes the checks |
| Sessions.Session.Consume | src/telepath/session.py:21-25 | succeeds exactly when the session is unexpired and has budget, and then counts one shard |
| Sessions.SessionRegistry.Unexpired | src/telepath/session.py:51-54 | exactly the sessions that have not expired, in order |
| Sessions.SessionRegistry.Gc | src/telepath/session.py:50-55 | exactly the unexpired sessions stay, in order |
| Sessions.SessionRegistry.OldestIndex | src/telepath/session.py:40 | the first session with the earliest opening time |
| Sessions.SessionRegistry.Pop | src/telepath/session.py:41 | exactly that session goes |
| Sessions.SessionRegistry.MakeRoom | src/telepath/session.py:39-41 | the oldest session goes exactly when the registry is full; an empty registry of size 0 cannot make room |
| Sessions.SessionRegistry.Open | src/telepath/session.py:33-44 | collect, check the bounds, evict, then add: the new registry and the result, for every outcome |
| Sessions.SessionRegistry.Get | src/telepath/session.py:46-48 | collects, then returns the very session object of that id, or nothing |
| SessionSurvival.RejectedOpenEvictsNothing | src/telepath/session.py:36-38 | an open that is turned down evicts no live session |
| SessionSurvival.OpenWellFormed | src/telepath/session.py:33-44 | opening keeps ids distinct, the order of opening and the size bound |
| SessionSurvival.OpenKeeps | src/telepath/session.py:33-44 | a live session outlasts an open unless max_sessions sessions have been opened behind it |
| SessionSurvival.UseKeeps | src/telepath/session.py:46-55 | a live session outlasts every use, and only a use of its own is counted to it |
| SessionSurvival.UseSucceeds | src/telepath/node.py:164-166 | the owner of a live session with budget left is never denied |
| TelepathReplies.TurnedAway | src/telepath/node.py:79-84 | a message that is not accepted is answered with the error of the first check it fails: window, nonce, signature, replay |
| TelepathReplies.SimpleKinds | src/telepath/node.py:101-121 | an accepted HELLO is answered with HELLO, a RAM_BROADCAST with the ACK of its key, a message of another kind with an error, if the reply fits into a frame |
| TelepathReplies.AnsweredInKind | src/telepath/node.py:75-121 | over every connection of every run: an accepted message gets HELLO exactly for HELLO, ACK of the same key exactly for RAM_BROADCAST, the unsupported-message error exactly for none of the four kinds, and session and shard replies exactly for their requests |
| TelepathReplies.OwnerSteps | src/vault/access.py:104-112 | new rules replace the allowlist where there is one, a manifest replaces that of its model only, and nothing else changes |
| TelepathReplies.SessionAnswer | src/telepath/node.py:123-161 | a request for a session is denied for the first that holds of: no vault, no such model, not on the allowlist, budget outside 1 to 1,000,000 or lifetime outside 1 to 86,400 seconds or no room; else it is granted on its terms, a missing budget being the number of shards and a missing lifetime 600 seconds |
| TelepathReplies.ShardAnswer | src/telepath/node.py:163-197 | without a live session of the sender with budget left: invalid session; with one: unavailable for an index outside the manifest or an unreadable shard, no reply for what cannot be decrypted, else the shard with its digest |
| TelepathRuns.RegistryStep | src/telepath/node.py:75-197 | of all connections only an allowed request for a session or for a shard touches the registry, and how |
| TelepathRuns.AcceptMeansOpened | src/telepath/node.py:123-161 | a SESSION_ACCEPT is sent exactly when a session was opened, to its peer, with its terms, for an allowed key and a stored model |
| TelepathRuns.ReplyMeansUsed | src/telepath/node.py:163-197 | a SHARD_DATA or a "shard unavailable" denial is sent only when a use was counted; a counted use is answered by the requested shard of the session's model or by that denial, unless a read raised something else or the reply is too large to send |
| TelepathRuns.LiveSessionWasOpened | src/telepath/node.py:123-161 | every session in a reachable registry goes back to the one event that opened it with these terms |
| TelepathRuns.UsedIsCounted | src/telepath/session.py:21-25 | in every run used_shards of a session is the number of uses counted for it |
| TelepathRuns.UsesAreReplies | src/telepath/node.py:163-197 | in every run a session is charged at least for its SHARD_DATA and "shard unavailable" replies, and for exactly these when no read crashed and every reply could be sent |
| TelepathRuns.UsedIsReplies | src/telepath/node.py:163-197 | over an intact store, when every reply fits into a frame, used_shards of a live session equals replies served plus "shard unavailable" denials |
| TelepathRuns.ServedShardSafe | src/telepath/node.py:123-197 | every use goes to the key that opened the session, for its model, within its lifetime, to a key allowed at opening time, and within its budget |
| TelepathRuns.BudgetHolds | src/telepath/session.py:21-38 | no session id is ever charged more than a million times, evicted sessions included |
| TelepathRuns.OthersLeaveSessionAlone | src/telepath/node.py:163-171 | requests from any other key leave a session as it was |
| TelepathRuns.RegistryWellFormed | src/telepath/session.py:28-55 | in every run the registry stays within max_sessions, with distinct ids in order of opening |
| TelepathRuns.SessionSurvives | src/telepath/session.py:33-55 | a session stays retrievable, with its count, until it expires or max_sessions later opens succeed |
| PullService.LiveIsRecent | src/vault/access.py:81-91 | the live entries of a node's replay table are exactly the messages dispatched within ttl_s |
| PullService.TableBounded | src/vault/access.py:83-90 | in every run of a node its replay table stays within max_entries |
| PullService.FreshMessageDispatchedIff | src/telepath/node.py:79-88 | a verifying message with a new nonce is dispatched if and only if fewer than max_entries messages were within the last ttl_s |
| PullService.UseGranted | src/telepath/node.py:163-171 | a dispatched request of the owner, inside lifetime, eviction allowance and budget, is let in |
| PullService.RequestServedIff | src/telepath/node.py:163-197 | such a request for a shard of an intact model is answered with that shard if and only if the replay table has room and the reply fits into a frame |
| PullService.FullTableRefuses | src/telepath/node.py:83-84 | with max_entries live entries every message is refused and no session changes |
| FullTable.TableFills | src/vault/access.py:83-86 | every new node has a run of max_entries dispatched messages after which the owner of a live session, in time and with budget left, is refused; with one message fewer it is not |
| WholePull.ReceivedIff | src/telepath/node.py:163-291 | the shard that a request in time asks for is received if and only if the replay table has room and the reply fits into a frame, and nothing else is received in its place |
| WholePull.FetchesEndIff | src/telepath/node.py:309-314 | the first n shards are all there if and only if there was room for every one that did not come from the cache |
| WholePull.PullEndsIff | src/telepath/node.py:301-324 | a pull whose requests are all in time ends with the node's file in the target if and only if the accept fits into a frame and there was room for every shard that did not come from the cache |
| ColdPull.ColdPullEndsIff | src/telepath/node.py:301-324 | at one instant, from any new node that has the model, into an empty cache: the pull ends with the file if and only if the replay table has more entries than the model has shards, and every reply fits into a frame |
| TelepathClient.ReceivedIff | src/telepath/node.py:202-291 | bytes are taken in if and only if the reply is timely, signed, from the peer, bound to the request, a SHARD_DATA, and has the digest that it states |
| TelepathClient.NotReceived | src/telepath/node.py:202-291 | otherwise the first check that fails is the error |
| TelepathSafety.RunGrows | src/telepath/node.py:75-324 | over every run what is signed, granted and stored stays so |
| TelepathSafety.ShardIsPeers | src/telepath/node.py:202-291 | in a good world, bytes that pass the checks of a client whose nonces nobody copied are the peer's shard that was asked for |
| TelepathSafety.StepKeeps | src/telepath/node.py:75-324 | every step of every node, client, network and other key keeps the invariant on signed messages, sessions, and the caches and pulls of clients whose nonces nobody copied |
| TelepathSafety.RunKeeps | src/telepath/node.py:75-324 | the invariant holds in every reachable world |
| TelepathSafety.AcceptedShardIsPeers | src/telepath/node.py:270-299 | in every run in which no other key copied a nonce of the client's requests, whatever fetch_shard accepts for peer, model and index is that peer's shard of that index |
| TelepathSafety.AcceptedShardIsSomeones | src/telepath/node.py:202-228 | in every run accepted bytes are the shard that a signed request with the awaited nonce asked for; a node's request with it is the client's own |
| TelepathSafety.ReplyAcceptedIff | src/telepath/node.py:216-225 | a node's reply to any request passes the client's checks exactly when it is timely, well-formed and the request carried the awaited nonce |
| TelepathSafety.ServedToAnyoneIsAccepted | src/telepath/node.py:270-299 | a shard that a node serves to anyone is accepted by every client that awaits the nonce of that request |
| NonceCopies.CopiedNonceMisleads | src/telepath/node.py:202-299 | for any two models of a new node with room for two sessions and three messages, whose three replies fit into a frame, there is a run in which another key copies a nonce and the client takes in and caches a shard it did not ask for |
| TelepathSafety.CachedShardIsPeers | src/telepath/node.py:271-274 | in every such run a cache hit gives the bytes that the peer stores |
| TelepathSafety.FinishedPullIsPeers | src/telepath/node.py:301-324 | in every such run a finished pull holds the peer's whole file, of the announced size |
| TelepathSafety.DigestCheckPasses | src/telepath/node.py:315-317 | in every such run the last check of a pull never turns down a node's file |
| TelepathSafety.FinishIff | src/telepath/node.py:315-318 | a pull with all its shards ends with their bytes if and only if these have the digest of the accept, if it has one |
| TelepathNodes.TelepathNode.OpenSession | src/telepath/node.py:123-161 | the registry and the reply after a request for a session, in each of its branches |
| TelepathNodes.TelepathNode.UseSession | src/telepath/node.py:164-166 | lookup, owner check and consume in a row: what is let in and what is counted |
| TelepathNodes.TelepathNode.ServeShard | src/telepath/node.py:163-197 | the registry and the reply after a request for a shard |
| TelepathNodes.TelepathNode.Dispatch | src/telepath/node.py:101-121 | each message kind goes to its handler, an unknown one to an error |
| TelepathNodes.TelepathNode.HandleConnection | src/telepath/node.py:75-98 | one connection on the objects is one step of the state machine: verify, accept, dispatch, bind the reply, and send it if it fits |
| TelepathNodes.TelepathNode.FetchShard | src/telepath/node.py:270-299 | from the cache if it is there, else only after sender, request nonce, kind and digest are right, and then cached |
| TelepathNodes.TelepathNode.FetchInto | src/telepath/node.py:309-314 | the part file, the digested bytes and the total are the fetched chunks in order |
| TelepathNodes.TelepathNode.PullModel | src/telepath/node.py:301-324 | success leaves exactly the reassembled bytes in the target and returns their number and the path, overridden by what the peer's accept says; a failure leaves every file but the part file as it was, except one of the last receipt, which leaves the target as success does |
| PullOverlap.StepsOfPull | src/telepath/node.py:308-320 | an open pull writes all chunks but the last one by one, finishes only with the last, and succeeds then exactly when the part name is there, whose file becomes the target |
| PullOverlap.FlushedIs | src/telepath/node.py:311 | a write puts its bytes at their place, leaves the others, and a gap reads as zeros |
| PullOverlap.ApartIsAllOrNothing | src/telepath/node.py:303-320 | while pulls of one target do not overlap, the target is at every moment the file of the last successful pull |
| PullOverlap.CrossingLeaves | src/telepath/node.py:303-320 | when a second pull starts before the last chunk of the first, the first succeeds and the target holds only what was written after that |
| PullOverlap.OverlapDamagesIff | src/telepath/node.py:303-320 | two overlapping pulls of one file have a run that leaves another target than reported, if and only if what a handle writes from the last chunk on, in an empty file, is not the whole file |
| PullOverlap.LargeShardsIff | src/telepath/node.py:309-314 | with shards larger than the write buffer overlap is harmless exactly for a file that is zeros up to its last shard |
| PullOverlap.SmallFilesAreSafe | src/telepath/node.py:309-314 | a file whose shards before the last fit into the write buffer is never damaged by overlap |
| EndToEnd.ServedFromTheStore | src/vault/store.py:208-214 | what a serving node reads of a stored model at any index is the shard of the added file, or unavailable outside the manifest |
| EndToEnd.PullDeliversAddedFile | src/telepath/node.py:301-324 | in every run without a copied nonce a finished pull from a node that added a file has exactly that file and its size_bytes |
| EndToEnd.PulledIsOriginal | src/telepath/node.py:301-324 | with nothing known of peer and network: a pull_model that gets to its last receipt under the digest of a file leaves that file in the target, or a collision, and no other file changes; one that fails before leaves the target |
| PullReports.ReportIff | src/telepath/node.py:324 | a successful pull reports the size and the path of what is there if and only if the peer's accept has no other value under these names; the reported model is the peer's |
| PullReports.ReportFields | src/telepath/node.py:324 | a successful pull reports the peer's session id, number of shards, size, root, digest (null exactly when there is none) and request nonce, and under every other name what the accept has there |
| PullReports.PullFails | src/telepath/node.py:301-323 | why a pull fails: the session is refused, which touches neither cache nor files, or the first shard that fails, or another digest, or the last receipt |
| PullReports.PullChecksDigest | src/telepath/node.py:315-317 | a pull succeeds only with the digest of the accept, if that has one |
| PullReports.NodeReportsManifest | src/telepath/node.py:301-324 | in every run a successful pull from a node reports the node's manifest: the number of its shards, the length of its file, its root and its digest; the file in the target is that file, or the two collide |
| PullReports.NodeReportsAskedModel | src/telepath/node.py:301-324 | in every such run without a copied nonce the reported model is the one asked for |
| PullReports.PeerNamesTheSize | src/telepath/node.py:324 | for any value there is a successful pull that leaves an empty file and reports the value as its size |
| PullReports.NodeReportsSize | src/telepath/node.py:151-161 | in every run a successful pull from a node reports the size and the path of what is there |
| EndToEnd.AnyMixIsTheFile | src/telepath/node.py:309-314 | any mix of truthful cached and fetched shards, with any evictions on the way, gives the shards in order |
| EndToEnd.WorldRepliesTell | src/telepath/node.py:202-291 | in a good world the replies that a client whose nonces nobody copied accepts in a node's session are that node's shards |
| EndToEnd.PullInTheWorld | src/telepath/node.py:301-324 | in every run without a copied nonce pull_model, starting from the cache of any earlier point, over any mix of cached and fetched shards, reassembles the node's file or fails |
| PullTargets.PlainTarget | src/telepath/node.py:303-305 | a model without a slash has model.bin and model.part in the directory of its name |
| PullTargets.SlashTarget | src/telepath/node.py:303 | a slash in a model id is written as two underlines |
| PullTargets.TargetsClashIff | src/telepath/node.py:303 | another model id has the same target if and only if the id contains a slash or two underlines in a row, or is empty or a dot |
| Framing.Connection.Send | src/telepath/transport.py:12-17 | appends one frame, or refuses an empty or oversized body and appends nothing |
| Framing.Connection.Receive | src/telepath/transport.py:20-25 | what is read and what stays on the stream, for a complete, a partial and an illegal frame |
| Framing.TakesFrame | src/telepath/transport.py:12-25 | a sent frame is read back exactly, whatever follows it |
| Framing.PrefixWaits | src/telepath/transport.py:20-25 | no proper prefix of a frame decodes or is refused |
| Framing.FramesRoundTrip | src/telepath/transport.py:12-25 | any list of legal bodies comes back from the concatenated frames, with the start of the next frame left over |
| Framing.OnlyFramesDecode | src/telepath/transport.py:20-25 | whatever decodes to a body is that body's frame |
| Framing.SegmentsDoNotMatter | src/telepath/transport.py:20-25 | how the stream was cut into segments does not change what is read |
| Framing.SameLengthsRefused | src/telepath/transport.py:14-24 | the receiver refuses exactly the lengths that the sender refuses |
| Base64.EncodeDecodes | src/telepath/node.py:195 | every shard survives its text form |
| Base64.EncodeIs | src/telepath/node.py:195 | every symbol of the text is the one that section 4 of RFC 4648 gives for its six bits, or the padding |
| Base64.DecodesIff | src/telepath/node.py:288 | a text decodes if and only if it is groups of four symbols of the alphabet, with at most two `=` at its end |
| Base64.EncodedLength | src/telepath/node.py:195 | four symbols for every three bytes, rounded up |
| Base64.ShardTextLength | src/vault/store.py:21 | a shard of 1 MiB becomes 1,398,104 symbols, and no default shard becomes more |
| TelepathServer.SendableIsLegal | src/telepath/transport.py:12-25 | the frame of a reply is legal, and read back whole, exactly when the node sends it |
| TelepathServer.ShardSendableIff | src/telepath/transport.py:14-15 | exactly which shards a node can send: three bytes for every four symbols that the envelope leaves in the frame |
| TelepathServer.DefaultShardSendable | src/telepath/node.py:189-197 | the reply with any default shard can be sent if the rest of it is up to 2,796,200 bytes |
| ShardStore.VaultStore.WriteShard | src/vault/store.py:102-108 | an existing blob is left alone if equal and is a hash clash if not; otherwise the blob is added |
| ShardStore.VaultStore.WriteShards | src/vault/store.py:146-168 | the loop encrypts and writes one shard per piece of the file, changes no blob that was there, counts all bytes, and fails exactly when one of the blobs it makes clashes with a stored one |
| ShardStore.VaultStore.AddFile | src/vault/store.py:121-186 | the refusals in their order, each with its own condition, then empty file, then a clash of a made blob, then a missing passphrase, else success: the manifest has the given source, license, key id and model and the size, digest, count and root of the file, get_manifest returns it, a complete, readable copy is published, and exactly its blobs are new; on failure no key and no manifest changes |
| ShardStore.SuffixIff | src/vault/store.py:22 | the suffix is taken if and only if it is .bin, .pt or .safetensors in any mix of small and capital letters |
| ShardStore.WrapUnwrap | src/vault/store.py:110-119 | a wrapped data key unwraps to itself |
| StoreReading.PiecesJoin | src/vault/store.py:146-147 | the pieces joined are the file, and there are size divided by shard_size of them, rounded up |
| StoreReading.PieceIs | src/vault/store.py:147 | piece i is the i-th stretch of the file, never empty, and only the last is short |
| StoreReading.RoundTrip | src/vault/store.py:188-214 | streaming a complete copy gives the pieces, reading shard i gives piece i, and the sizes add up to size_bytes |
| StoreReading.ReadsExactlyThePieces | src/vault/store.py:208-214 | of a complete copy exactly the indexes of the manifest can be read, each giving its piece; any other is an IndexError |
| StoreReading.DecryptShardIff | src/vault/store.py:188-201 | a shard can be read if and only if its blob is there with the manifest's digest, length and nonce and decrypts to a text with the manifest's digest and length |
| StoreReading.DecryptShardFails | src/vault/store.py:188-201 | which error a shard that cannot be read gives |
| StoreReading.UnwrapKeyIff | src/vault/store.py:115-119 | a key can be unwrapped if and only if its file is there, has 29 bytes at least and decrypts |
| StoreReading.GetManifestIff | src/vault/store.py:219-224 | a model's manifest is the one stored under the digest of its id, if that is of this model |
| StoreReading.ReadShardIff | src/vault/store.py:208-214 | reading an index is reading the first shard that has it; an index outside the manifest, or of no shard, is an IndexError |
| StoreReading.OrderDoesNotMatter | src/vault/store.py:203-214 | from a manifest with its shards in any order a complete copy streams its pieces in the order of the file and reads each by its index |
| StoreReading.StreamsAgree | src/vault/store.py:188-206 | whatever has become of disk and master key, a manifest streams to one file only: two streams that succeed are equal, or two of their pieces collide |
| ShardStore.SortSorts | src/vault/store.py:205 | the shards are streamed and checked in order of index, each as often as the manifest has it |
| StoreChecking.CheckShard | src/vault/store.py:235-249 | each fault of one shard if and only if its own condition holds, in order, and its leaf exactly when its blob has the right digest |
| StoreChecking.Verify | src/vault/store.py:226-253 | each fault is listed if and only if its own condition holds, of a shard of that index or of the whole manifest, and the list goes from the indexes by index to the root |
| StoreChecking.LeavesAre | src/vault/store.py:242-251 | the root is computed of the digests of exactly the shards whose blob has its own digest, in order |
| StoreChecking.NothingFoundIff | src/vault/store.py:226-253 | no fault is found exactly when the sorted indexes count from 0, every blob is there with the manifest's digest, length and nonce, and the digests have the manifest's root |
| StoreChecking.CompletePasses | src/vault/store.py:226-253 | every manifest of a complete copy passes |
| StoreChecking.VerifySound | src/vault/store.py:226-253 | two passing manifests of one size and root, on any two disks, stand for the same blobs in order, or a collision is shown |
| Publication.RunKeeps | src/vault/store.py:102-186 | over every interleaving, every visible manifest and every call at work stays backed by its blobs and key, unless two blobs collide |
| Publication.CheckIs | src/vault/store.py:102-108 | the test before a blob is written: still to be written, the end of the call on other contents, or done on the same |
| Publication.VisibleIsReadable | src/vault/store.py:172-186 | at every step of any interleaving every visible manifest streams back exactly the file that was added, and verifies |
| Publication.ReplacedOnlyByOverlap | src/vault/store.py:137-138 | a published manifest changes only if a call publishes that was at work before it was published |
| Publication.OverlapReached | src/vault/store.py:137-184 | from an empty vault two calls for one model, both past the existence check, come to the point where only their manifests are left to write |
| Publication.LaterOverlapWins | src/vault/store.py:137-185 | from there both publish, and the later one's manifest replaces the earlier one's |
| ReceiptChain.VaultReceipts.Emit | src/vault/receipts.py:57-72 | one row is appended, linked to the head, and a chain that verified still does |
| ReceiptChain.VaultReceipts.VerifyChain | src/vault/receipts.py:74-89 | intact with its head exactly when every row links and is signed; otherwise the first bad row and what is wrong with it |
| ReceiptChain.HeadCommits | src/vault/receipts.py:74-89 | two verifying tables with one head have the same rows in the same order, or two bodies share a signature |
| ReceiptChain.TruncationShowsInHead | src/vault/receipts.py:74-89 | a log cut short still verifies, but with another head, or two bodies share a signature |
| ReceiptChain.EmitAll | src/vault/receipts.py:57-72 | any run of emits by one writer leaves a chain that verifies and holds the entries in order |
| SnapshotNames.PathIff | src/decillion/vault.py:111-123 | a revision has a path if and only if its model is two names with a slash between them, and these and the revision are 1 to 128 letters, digits, dots, underlines and hyphens that begin with a letter or a digit; the path is models and these names |
| SnapshotNames.PathStaysBelow | src/decillion/vault.py:111-123 | no part of a path is empty, a dot, two dots, or holds a slash |
| SnapshotNames.PathNamesRevision | src/decillion/vault.py:111-123 | two revisions with valid names have one directory only if they are the same |
| SnapshotNames.LockNamesRevision | src/decillion/vault.py:153 | two revisions with valid names have one lock text only if they are the same |
| SnapshotVault.TakeInventory | src/decillion/vault.py:167-184 | path, size and digest of every file in order and their total, or the refusal of a symbolic link |
| SnapshotVault.InventoryIs | src/decillion/vault.py:167-184 | there is an inventory if and only if there is no symbolic link; its lines are the paths, lengths and digests of the covered files in order, its total their sum |
| SnapshotVault.CoveredAre | src/decillion/vault.py:173-174 | the covered files are all but those called decillion-manifest.json |
| SnapshotVault.VerifyIff | src/decillion/vault.py:215-229 | a directory verifies to a manifest if and only if its manifest file reads as it, the inventory has its lines and its total, and it names this model and revision |
| SnapshotVault.NotVerified | src/decillion/vault.py:215-229 | otherwise the first check that fails is the error |
| SnapshotVault.CommittedVerifies | src/decillion/vault.py:197-229 | a directory verifies under the manifest that was written from its own inventory |
| SnapshotVault.InventoryBinds | src/decillion/vault.py:167-184 | one inventory means the same files under the same names, or two of the files collide |
| SnapshotVault.VerifyDetectsChange | src/decillion/vault.py:215-229 | a snapshot that still verifies with the same manifest has not changed, or two of its files collide |
| SnapshotPublication.OneHolderKept | src/decillion/vault.py:151-165 | every step leaves each holder its own lock file, and no two holders one |
| SnapshotPublication.LocksHeldKept | src/decillion/vault.py:151-165 | every step leaves each lock file with a process that is in its slot or died in it |
| SnapshotPublication.PublishedUntouched | src/decillion/vault.py:186-213 | no step of any process changes a published directory |
| SnapshotPublication.StepKeeps | src/decillion/vault.py:151-213 | every step of every process keeps the invariant on locks, places, published directories and processes |
| SnapshotPublication.RunKeeps | src/decillion/vault.py:151-213 | the invariant holds after every run |
| SnapshotSafety.OneHolderPerRevision | src/decillion/vault.py:151-165 | in every reachable state at most one process holds the slot of a revision |
| SnapshotSafety.VisibleVerifies | src/decillion/vault.py:215-229 | in every reachable state every snapshot directory that is there verifies under its name |
| SnapshotSafety.PublishedForever | src/decillion/vault.py:186-213 | a snapshot that is there stays there unchanged, whatever anyone does, cleanup included |
| SnapshotSafety.AppearsByRename | src/decillion/vault.py:210-213 | a snapshot appears by one rename of the slot holder's complete staging directory, and nothing else changes |
| SnapshotSafety.RenameNeverRefused | src/decillion/vault.py:194-212 | the rename never finds its target there |
| SnapshotSafety.WritersAgree | src/decillion/vault.py:186-213 | all who succeed for one revision return the one manifest that was published |
| SnapshotSafety.LateWriter | src/decillion/vault.py:195-196 | a late writer, before or inside the slot, gets the published manifest and changes no directory |
| SnapshotSafety.CleanupSparesOthers | src/decillion/vault.py:163-165 | leaving a slot removes nobody else's staging directory |
| SnapshotSafety.BusyIff | src/decillion/vault.py:154-158 | in every reachable state a slot is refused if and only if some process is in it or died in it |
| SnapshotSafety.DeathKeepsTheLock | src/decillion/vault.py:154-158 | a process that dies in its slot keeps the slot closed for ever after |
| SnapshotProgress.LonePublishes | src/decillion/models.py:105-124 | from any state with the slot free and the revision absent, a download that is left alone ends with the manifest of its files, one new directory that verifies to it, and no lock or staging directory left |
| SnapshotProgress.FailureGoes | src/decillion/vault.py:151-165 | where a failure leads from every phase; between the lock and the staging directory it leaves the lock behind |
| SnapshotProgress.RemovalLeaves | src/decillion/vault.py:164 | the removal of a staging directory goes on to the unlocking, whatever part of the directory it leaves |
| WeightVaults.WeightVault.Verify | src/decillion/vault.py:215-229 | the manifest of a snapshot, or the first thing wrong with it, in the order of the checks, links included |
| WeightVaults.WeightVault.CommitSnapshot | src/decillion/vault.py:186-213 | the result and all directories after a commit, in each of its branches |
| WeightVaults.WeightVault.EnterSlot | src/decillion/vault.py:151-160 | refused exactly when the lock is there; otherwise the lock and an empty staging directory are new |
| WeightVaults.WeightVault.LeaveSlot | src/decillion/vault.py:163-165 | the staging directory and the lock go, nothing else |
| WeightVaults.WeightVault.Download | src/decillion/models.py:105-124 | exactly when a download succeeds, both capacity checks included; locks and staging are as before, and at most the one target is new, holding what was delivered |
| WeightVaults.CommitIsItsSteps | src/decillion/vault.py:186-213 | the interleaved steps of a commit, uninterrupted, have the result of the method |

## Left out

- JSON, Ed25519, AES-GCM, SHA-256, HMAC, scrypt and HKDF as algorithms; malformed JSON and payload fields of a wrong type, which close a connection without a reply; a SESSION_ACCEPT without `model_id`, `size_bytes` or `merkle_root`, which a pull takes as well, since it reads none of them.
- Base64.Decode: accepts exactly padded groups of four; which other texts `b64decode` with `validate=True` takes depends on the Python version and is not modelled.
- HELLO's table of peers and addresses, reputation, tiers, capabilities, `broadcast_ram`, and the receipts a node emits, but for their failure in `pull_model` and `fetch_shard`: counters and bookkeeping that no modelled decision reads.
- The signature that `_reply` makes before the request nonce is added: the reply is never sent in that form.
- Reads from the store without a passphrase, which raise; for a serving node they are shards that it cannot read.
- Reads of a model whose stored manifest is unreadable, and reads of damaged blobs by a serving node beyond "unavailable" and "closed without a reply".
- A model replaced in a vault while a node serves it: claims about a node's runs suppose that this does not happen. Cached shards of the old manifest would then be stale.
- The interleaving of `pull_model` with the node's own handlers is in `TelepathNetwork`, on values; the method in `TelepathNode` runs alone.
- Allowlist files: the sorted lists are sets, and saving them is left out. Hex digests are the bytes they stand for.
- Manifest fields without a rule of their own (`source`, `license`, `created_at`, metadata other than `file_sha256`) in `Publication`.
- ReceiptChain.EmitAll: one writer; two processes that emit at once can both link to one head, and the source has no rule against it.
- Directories, permissions, fsync, links and path resolution; `rmtree` is one step that removes a staging directory or leaves anything of it.
- Quota and free space: a download is told whether the announced and the counted size fit.
- SnapshotVault.InventoryBinds: covers the files that the inventory covers; `_inventory` passes over files called `decillion-manifest.json` at any depth.
- PullOverlap: chunks are given, so failures of the network are its `Abort`.
- `src/decillion/engine.py`, `keys.py`, `objects.py`, `catalog.py`, the FastAPI servers, the command lines, `src/proof_process` and `i-web`: straight-line calls, routing, printing and validation.
