# Trellis in Dafny

Trellis is a layered mix-net for anonymous broadcast. Clients establish random paths through layers of
servers, one layer per path round, and get a receipt ("boomerang") back along the path after each
round. Afterwards they broadcast in lightning rounds: an onion is peeled layer by layer and the last
server hands the message to an anytrust group. This project models the protocol and the algorithms it
rests on, and proves what they promise, for every configuration, every set of honest clients with
fresh keys, and every interleaving of the servers.

`dafny verify dfyconfig.toml` checks everything.

## How the model is built

- **Primitives** (`Sigcryption.Suite`): keystream, signatures, Diffie-Hellman, tokens and the token hash
  are arbitrary functions. All that is assumed is that honest signatures verify, that a shared key
  agrees from both ends, and fixed sizes. `ThresholdDecryption.DiffieHellmanAgrees` derives the key
  agreement from the laws of a group.
- **Messages** (`PrepareMessages`, `ProcessMessages`, `Lengths`): what the client builds, in byte strings,
  against what each server parses, hop by hop.
- **Runs** (`Routing`, `Relay`): servers connected by barriers but not in lock step. A step delivers one
  packet or advances one server; a run is any sequence of enabled steps. The invariant says where each
  client's packet is. `LightningRound` and `PathRounds` instantiate it, `PathEstablishment` chains path
  rounds, `GroupMembers` adds the trustees, `GroupThreshold` the barrier at which a group waits for all
  servers, and `EndToEnd` puts the whole protocol together.
  `LastPathRound` replaces the group's step of the last path round by the collection of partial keys.
- **Mutable state** (`SignedBuffers`, `ServerObjects`, `Synchronizer`, `Buffers`, `Groups`, `Framing`, ...): what
  the program updates in place is updated in place here, with arrays that alias and objects shared
  between two tables. Each method is proved against the function the protocol proofs use. `Link` joins
  the buffers of a sender, its frame and the batched receiver into one link.
- **Barrier** (`Barrier`, `BarrierSystem`, `SystemProgress`, `BarrierRounds`): the two-step SyncOnce, Done and the
  asynchronous Trigger as interleaved steps; then many servers, each with its own barrier and the streams it
  waits for, whose runs are shown to be runs of the relay and always to come to an end.
- **Assumptions** (`Consistency`, `TokenInstance`): for every configuration, keystream, token hash and choice of
  secrets there are primitives that meet the laws, realised by a group, and populations of clients with
  fresh keys; over these, rounds and collections of partial keys can be run to their end. There is also a
  curve with all the laws the token theorems assume.
- **Algebra** (`Modular`, `Squares`, `HashToCurve`, `Sharing`, `ThresholdDecryption`, `KeyExchange`, `Tokens`).

Where the code differs from what one expects:

- At the last path layer, the arguments of a debug call overwrite the nonce in the buffer whose slice is
  about to be verified (server/processMessages/pathEstablishment.go:102-105). The model keeps both writes.
  The client signs for the second nonce, so verification succeeds, and it would fail without the debug
  call: `SignedBuffers.CheckGroupBoomerang`, `ClientPassesGroupCheck`, `FirstNonceWouldFail`.
- `Create` inverts the stored blinding in place even when it reports TokenInvalid
  (crypto/token/token.go:80-83). A retry with correct partials succeeds iff the token is the neutral element
  or the blinding is its own inverse: `Tokens.SecondAttempt`, `Tokens.Retry`. `TokenInstance.RetryFails` is a run
  in which a wrong partial makes the first Create fail and the retry fails too.
- A signer checks that the blinded token is in the subgroup only if SkipToken is off, and it is on
  (config/options.go:33). `Tokens.TokensAreValid` holds with either setting.
- A group member marks and counts a key before it checks the signature (server/checkpoint/checkpoint.go:110-117),
  so AllSignaturesAccountedFor also counts keys whose signature was bad: `TrusteeAccounting.RoundAccountedIff`,
  `BadSignatureCounts`. A completed account has lost no message iff the first message to name each key is
  good: `NothingLost`, `RoundCompleteIff`. The program does not act on the bad state: the worker hands the error
  to a handler that panics (server/pool.go:170-172, server/handler.go:27-32) before the job counts as done.
- A path message whose group signature is bad has likewise entered its key already; every earlier failure
  leaves the table alone: `ProcessMessages.FailedPathTable`.
- In path round 0 the coordinator starts no server (coordinator/coordinator.go:141), so no barrier is triggered
  and nothing marks the round complete. It needs neither: `PathEstablishment.RoundZero`.
- The modulus of the shuffle is a 32-bit word, so from 2^32 elements on it panics: `Shuffling.Shuffler.Perm`.
- Metadata written as 32-bit words survive only if they fit: `Framing.MetadataRoundTrip`.

## Model

| member | source | states |
|---|---|---|
| `EndToEnd.AllBroadcastsAfterPaths` | server/server.go:221-301 | the whole protocol: path rounds in order, then any number of lightning rounds, in any interleaving; every group member accepts all checkpoint messages and then everything that arrives, in any order, its state is carried from round to round, and after round k it holds a permutation of exactly the round-k messages of the clients whose path ends in its group |
| `EndToEnd.EveryBroadcastDelivers` | server/groupMember.go:66-86 | each of these rounds on its own, for any member that knows its group's keys, and the member is ready for the next one |
| `EndToEnd.TablesStayEstablished` | server/processMessages/onion.go:96-104 | any number of lightning rounds leaves the key tables exactly as established: no key lost, added or left marked |
| `EndToEnd.MembersLearnKeys` | server/checkpoint/checkpoint.go:46-74 | checkpoint messages kept by all last servers, arriving in any order, all pass the token check and leave a member with the keys of exactly its group's clients, unused |
| `GroupMembers.LightningDelivery` | server/checkpoint/checkpoint.go:102-126 | a finished lightning round over established paths: what arrives at a group member is accepted in any order, nothing lost, duplicated or altered, and all signatures are accounted for |
| `GroupThreshold.ThresholdMeansAll` | server/pool.go:95-148 | the group's own barrier, in any interleaving of its handlers: when it triggers, everything every server sent to the group has been handled |
| `GroupThreshold.ThresholdCollects` | server/groupMember.go:66-77 | so at OnThreshold a member has handled exactly what all servers' final buffers hold for its group, which is what the delivery theorems take as arrivals |
| `GroupMembers.AcceptsAll` | server/checkpoint/checkpoint.go:76-126 | final messages of distinct known clients in any order are all accepted, and the messages recorded are theirs in that order |
| `GroupMembers.AcceptOne` | server/checkpoint/checkpoint.go:102-122 | a client's final message is accepted when its key is known and unused; it marks this key alone and appends this message |
| `GroupMembers.AcceptedKey` | server/checkpoint/checkpoint.go:46-74 | a checkpoint message is accepted only with a token for its key, the last layer and its sender; then this key alone is entered, unused |
| `GroupMembers.WrongKeyRefused` | server/checkpoint/checkpoint.go:46-74 | if tokens of different contents differ, a token issued for another key, round, layer or sender is TokenInvalid |
| `GroupMembers.GatheredFinals` | server/processMessages/trusteeSender.go:25-36 | the final buffers of all servers together hold exactly one message per client of the group |
| `TrusteeAccounting.FeedAccounts` | server/checkpoint/checkpoint.go:76-122 | over any messages, good or bad, the count is the number of marked keys: those named by a message, each once |
| `TrusteeAccounting.HandleAccounts` | server/checkpoint/checkpoint.go:102-122 | one message marks and counts its key at the first mention, also when its signature is bad; a message is recorded only if it is good |
| `TrusteeAccounting.AllAccountedIff` | server/checkpoint/checkpoint.go:124-126 | AllSignaturesAccountedFor iff every key is marked |
| `TrusteeAccounting.RoundAccountedIff` | server/groupMember.go:66-86 | after a reset and any messages, accounted for iff every key was named |
| `TrusteeAccounting.BadSignatureCounts` | server/checkpoint/checkpoint.go:110-117 | a table with one key: a bad signature completes the account while the message is lost |
| `TrusteeAccounting.NothingLost` | server/checkpoint/checkpoint.go:102-122 | over any messages, as many messages are recorded as keys counted iff each message that is the first to name a known unmarked key has a good signature; never more |
| `TrusteeAccounting.RoundCompleteIff` | server/groupMember.go:66-86 | after a reset and any messages: accounted for with one message per key iff every key was named and the first message to name it is good |
| `TrusteeAccounting.NewRoundAccounts` | server/checkpoint/checkpoint.go:93-100 | the reset balances any account |
| `TrusteeAccounting.AddAccounts` | server/checkpoint/checkpoint.go:68-74 | entering a key keeps the account iff the key was not marked |
| `LightningRound.LightningRuns` | server/server.go:157-168 | no run of a lightning round panics; when it is over nothing is in flight, every table is unmarked again, and every server's final buffers hold exactly the messages of the clients whose path ends there |
| `LightningRound.LightningCanFinish` | server/server.go:221-301 | every lightning run, wherever it stands, is the beginning of a finished one |
| `LightningRound.LightningSound` | server/server.go:221-301 | every handler step and every end of layer keeps the per-server account of clients handled, tables and buffers |
| `LightningRound.HandleStep` | server/server.go:157-168 | a server that has handled the clients D accepts client c's packet, has then handled D and c, and sends exactly c's packet for the next layer |
| `LightningRound.FinishStep` | server/server.go:221-269 | when all clients of a layer were handled, AllKeysAccountedFor holds and the server continues with the layer reset |
| `LightningRound.GoesOnIff` | server/server.go:221-236 | a server goes on at the end of a layer iff it has handled every client of the layer; otherwise it panics |
| `PathEstablishment.PathInvariant` | server/processMessages/pathEstablishment.go:39-114 | after path round r, for every client and layer l <= r the server its l-th token hashes to finds one unused entry by either key; its keys are the client's for both directions and prev/next chain along the path, ending in the group |
| `PathEstablishment.ReceiptsReturn` | server/server.go:171-217 | at the end of round r exactly the receipts of the clients passing there are filed at layer max(0, r - limit): by client id at layer 0, otherwise one per client |
| `PathEstablishment.ClientFindsReceipt` | server/server.go:513-536 | while r <= limit every client's receipt of round r is filed under its id at its first server, and GetReceipt returns it, or ClientNotFound iff receipts are empty |
| `PathEstablishment.RoundZero` | coordinator/coordinator.go:139-147 | no server has to advance in path round 0: in any interleaving the round is complete once the clients' messages are handled, and advancing changes nothing that is kept or sent |
| `PathEstablishment.RoundsComplete` | cmd/coordinator/coordinator.go:252-256 | path rounds run in order each start in the state they need and complete |
| `PathEstablishment.RoundRuns` | server/server.go:416-465 | inside any reachable path round no run panics or deadlocks, and its length is bounded |
| `PathEstablishment.RoundsExist` | cmd/coordinator/coordinator.go:252-256 | for every population of clients all path rounds can be run to their end |
| `PathEstablishment.PathsEstablished` | server/server.go:319-372 | after the last path round every table holds exactly the entries lightning rounds need |
| `PathEstablishment.NextWire` | server/server.go:416-465 | the messages kept in round r are exactly the first packets of round r + 1 |
| `PathRounds.PathSound` | server/server.go:171-301 | every step of a path round, forward or back, keeps the per-server account |
| `PathRounds.PathResult` | server/server.go:171-187 | the path message is accepted, the entry of the client recorded, the rest kept for the next round, and the receipt sent back; in the last round without the group's layer |
| `PathRounds.BoomerangResult` | server/server.go:189-209 | a receipt on its way back is peeled with the entry found by the outgoing key, and passed on or filed |
| `PathRounds.PathStepKeeps` | server/server.go:171-187 | the invariant through one path message |
| `PathRounds.BoomerangStepKeeps` | server/server.go:189-217 | the invariant through one receipt |
| `PathRounds.FinishKeeps` | server/server.go:221-301 | the invariant through the end of a layer |
| `PathRounds.GoesOnIff` | server/server.go:221-236 | on the way back a server goes on iff it has handled the receipts of all clients of the layer |
| `LastPathRound.LastRoundThroughGroups` | server/server.go:270-286 | a server of the last layer collects partial keys for exactly its clients, in any interleaving of the answers; when all groups have reported, what it packs are exactly the receipt packets the path round model queues, one per client |
| `LastPathRound.ReceiptIsPacked` | server/processMessages/checkpointSender.go:132-159 | client by client: the opened entry is packed into the packet that handling the path message yields |
| `LastPathRound.SessionIsValid` | server/processMessages/checkpointSender.go:42-58 | what a server adds for its clients is a collection the threshold theorems apply to |
| `Relay.RunsDeliver` | server/server.go:221-301 | for any sound protocol on any interleaving: no panic; when all servers are through, nothing is in flight and every server has handled exactly the clients routed to it |
| `Relay.RunsTerminate` | network/synchronization/synchronization.go:66-114 | no run is longer than one step per client and hop plus one per server and hop, and an unfinished run can continue |
| `Relay.EveryRunCanFinish` | network/synchronization/synchronization.go:66-114 | every run extends to a finished one |
| `Relay.NoDeadlock` | network/synchronization/synchronization.go:66-114 | some step is enabled in every unfinished state that satisfies the invariant |
| `Relay.AdvanceKeepsInv` | server/server.go:221-301 | a server moving on sends exactly its queue and loses no packet |
| `Relay.ThroughStays` | server/server.go:221-301 | a server that is through does not change any more, so what it hands to the groups then is what the finished round holds |
| `BarrierSystem.SystemRefinesRelay` | server/pool.go:51-93 | servers that only run their barriers' steps and wait for the streams sent to them: every run is a run of the relay |
| `BarrierSystem.TriggerMeansGuard` | network/synchronization/synchronization.go:88-114 | when a barrier triggers, every server has reached this hop and nothing for it is left on the wire |
| `BarrierSystem.HandleMeansGuard` | server/pool.go:61-83 | a handler hands out packets only of the hop its server is at |
| `BarrierSystem.SystemDelivers` | server/pool.go:51-93 | so no run of the servers panics, and when all are through everything is delivered |
| `SystemProgress.SystemCanMove` | network/synchronization/synchronization.go:66-114 | servers with their own barriers never block each other: some step is possible until all are through |
| `SystemProgress.SystemRunsTerminate` | server/pool.go:51-93 | the number of steps of such a run is bounded |
| `SystemProgress.EverySystemRunCanFinish` | server/pool.go:51-93 | every such run, wherever it stands, extends to one in which all servers are through |
| `BarrierRounds.LightningOverBarriers` | server/server.go:221-269 | lightning rounds over barriers are runs the lightning theorems speak about |
| `BarrierRounds.PathOverBarriers` | server/server.go:416-465 | the same for path rounds |
| `BarrierRounds.RoundZeroOverBarriers` | coordinator/coordinator.go:139-147 | path round 0 over barriers is complete when the clients' messages are handled, whether or not any barrier was triggered |
| `BarrierRounds.LightningBarriersFinish` | server/server.go:221-269 | every lightning round over barriers can be brought to its end from wherever it stands |
| `BarrierRounds.PathBarriersFinish` | server/server.go:416-465 | so can every path round |
| `Routing.Drained` | network/synchronization/synchronization.go:88-97 | when no server is behind and nothing on the wire is for it, a server has handled everything addressed to it in this hop |
| `Population.MarkTable` | server/processMessages/keyTable.go:88-96 | forward and reverse lookup find the same unused entry; marking it marks exactly this client |
| `Population.AddTable` | server/processMessages/keyTable.go:53-86 | adding a new client's entry disturbs no other entry in either table |
| `Population.ResetTable` | server/processMessages/keyTable.go:107-114 | resetting makes every entry unused and changes nothing else |
| `ProcessMessages.KeysAgree` | server/processMessages/keyTable.go:53-86 | server and client compute the same keys for both directions, and so does the group |
| `ProcessMessages.OnionAccepted` | server/processMessages/onion.go:37-94 | a box authentic under the entry's key and this hop's nonce is accepted, opened and marked |
| `ProcessMessages.ForwardHop` | server/processMessages/onion.go:37-94 | the client's onion at layer l is peeled to exactly its onion at layer l + 1 |
| `ProcessMessages.ReverseHop` | server/processMessages/onion.go:37-94 | the boomerang leaving layer l + 1 is peeled at layer l to what must leave layer l |
| `ProcessMessages.PathHop` | server/processMessages/pathEstablishment.go:39-114 | the path message at layer l is accepted, yields the client's entry, its boomerang, and exactly the envelope for layer l + 1 or the checkpoint message |
| `ProcessMessages.FailedPathTable` | server/processMessages/pathEstablishment.go:39-114 | a failing path message leaves the table unchanged iff it failed before its key was recorded; the only later failure is the group's signature at the last layer, and it leaves one more entry |
| `ProcessMessages.AcceptedOnion` | server/processMessages/onion.go:37-94 | every onion accepted carries a signature over exactly this round, (shifted) layer and server and its ciphertext, under the key of an unused entry found by its leading bytes |
| `ProcessMessages.AcceptedPath` | server/processMessages/pathEstablishment.go:39-114 | every path message accepted has a token for its key, round and sender that hashes to this server, a signature over round, layer, server and ciphertext, inside a token of this server for the next round, and at the last layer a signature for the group |
| `ProcessMessages.WrongTokenRefused` | server/processMessages/pathEstablishment.go:39-70 | if tokens of different contents differ, a token issued for another key, round, layer or sender is TokenInvalid and leaves the table alone |
| `ProcessMessages.GroupBoomerang` | server/processMessages/pathEstablishment.go:97-107 | at the last layer the boomerang's signature verifies under the group nonce, and the group key opens it to the ordinary boomerang |
| `ProcessMessages.InfoParts` | server/common/marshalling.go:101-133 | the boomerang/next split recovers key, token, boomerang and next box |
| `ProcessMessages.EnvelopeParts` | server/common/marshalling.go:50-89 | a path envelope splits into key, token and a box that verifies and opens to the path info |
| `PrepareMessages.MakeTokensAndPath` | server/prepareMessages/client.go:106-161 | the loop builds for every layer the key, token and shared keys given by the path's definition |
| `PrepareMessages.ContentWords` | server/common/marshalling.go:91-99 | what a token is issued for: little-endian words round, layer and the server it comes from, in this order, then the key |
| `PrepareMessages.ContentInjective` | server/common/marshalling.go:91-99 | equal contents, for 32-bit values, name the same key, round, layer and server |
| `PrepareMessages.BoomerangBase` | server/prepareMessages/client.go:186-202 | the fold over the path builds the boomerang that is peeled from layer round back to the receipt layer |
| `PrepareMessages.OnionEncrypt` | server/prepareMessages/client.go:205-211 | the fold builds the onion defined layer by layer |
| `PrepareMessages.MakeOptimizedPathEstablishmentMessage` | server/prepareMessages/client.go:79-104 | the loop from the last layer outwards builds the nested path envelope, and keeps the receipts |
| `Consistency.WorldsExist` | server/prepareMessages/client.go:106-161 | for every configuration, keystream, token hash and choice of secrets there are primitives with the assumed laws, realised by a group at every server, and any number of clients with distinct keys that fit the key size |
| `Consistency.CollectionsExist` | server/processMessages/checkpointSender.go:60-102 | in any group, every valid collection of partial keys has a schedule of answers after which all groups have reported |
| `Consistency.LastRoundsExist` | server/server.go:270-286 | the configuration that the last path round assumes exists for all shares of the group secret, and its collection can be completed |
| `Sigcryption.SealOpens` | crypto/sigcryption.go:46-102 | a sealed box is accepted under the signer's key and nonce and opens to the message |
| `Sigcryption.CryptBits` | crypto/sigcryption.go:60-70 | bit k of byte i of the ciphertext is the sum, modulo 2, of bit k of the message byte and of the keystream byte of key, first 16 nonce bytes and position |
| `Sigcryption.SealBits` | crypto/sigcryption.go:46-76 | the same of the bytes of a sealed box |
| `Sigcryption.KeystreamDecides` | crypto/sigcryption.go:60-70 | one message under two keys and nonces has the same ciphertext byte iff the keystreams agree there |
| `Sigcryption.ClearIffZero` | crypto/sigcryption.go:60-70 | a byte goes out in the clear iff its keystream byte is zero |
| `Sigcryption.NonceInjective` | crypto/sigcryption.go:20-26 | nonces of different (round, layer, destination) differ |
| `Sigcryption.NonceWords` | crypto/sigcryption.go:20-26 | the three little-endian words of a nonce are round, layer and receiver, in this order |
| `ByteStrings.LERoundTrip` | crypto/sigcryption.go:20-26 | little-endian words decode to the number modulo their width, negative numbers included |
| `Lengths.OnionLengths` | server/prepareMessages/lengths.go:38-46 | the loop fills the closed form |
| `Lengths.LightningMessageLengths` | server/prepareMessages/lengths.go:11-19 | the loop fills the closed form |
| `Lengths.BoomerangLengths` | server/prepareMessages/lengths.go:48-60 | the loops fill the closed form, with the extra group layer at the end |
| `Lengths.WireBoomerangLengths` | server/prepareMessages/lengths.go:62-71 | the loops fill the closed form |
| `Lengths.PathEstablishmentLengths` | server/prepareMessages/lengths.go:21-36 | the backward loop computes the size of a path envelope at every layer |
| `Lengths.OnionSize` | server/prepareMessages/client.go:205-239 | what the client builds and every server repacks has the table's length at every layer, the trustee hop included |
| `Lengths.BoomerangSize` | server/prepareMessages/client.go:186-202 | the byte length of a boomerang at every layer on its way |
| `Lengths.BoomerangEnvelopeSize` | server/prepareMessages/lengths.go:48-60 | the boomerang inside the path info of layer l has exactly the table's length |
| `Lengths.PathEnvelopeSize` | server/prepareMessages/lengths.go:21-36 | the path envelope has exactly the table's length at every layer |
| `Lengths.ShiftInPlace` | server/server.go:449-455 | the descending loop shifts the table by one without reading what it already wrote |
| `Lengths.TableEntry` | server/server.go:449-455 | the table after all shifts of rounds 1..r, in closed form |
| `Lengths.ShiftedTableIsWireSize` | server/server.go:589-591 | in round r the shifted entry for layer i is the exact wire size of the boomerang sent from layer i |
| `SignedBuffers.PackSignedData` | crypto/sigcryption.go:34-42 | only the 24 bytes before the offset change; the returned slice aliases the buffer from the nonce to the signature |
| `SignedBuffers.SignedSecretSeal` | crypto/sigcryption.go:46-76 | the slice returned holds the sealed box, and its backing array the signed bytes in front of it |
| `SignedBuffers.SecretOpen` | crypto/sigcryption.go:78-102 | a new buffer with the decrypted bytes |
| `SignedBuffers.CheckEnvelope` | server/common/marshalling.go:37-44 | exactly nonce and ciphertext as signed are verified in the received buffer; box and key bytes keep their values |
| `SignedBuffers.CheckGroupBoomerang` | server/processMessages/pathEstablishment.go:101-106 | of the two writes into the same array the second, (layers, layers, server), is what is verified; key and boomerang keep their values |
| `SignedBuffers.PackedTwice` | server/processMessages/pathEstablishment.go:102-104 | a second write replaces the first entirely |
| `SignedBuffers.ClientPassesGroupCheck` | server/prepareMessages/client.go:92-95 | the client's last-layer message passes that check |
| `SignedBuffers.FirstNonceWouldFail` | server/processMessages/pathEstablishment.go:102-105 | with the first nonce the check would fail, for a signature valid for one message only |
| `ServerObjects.KeyLookupTable.AddKey` | server/processMessages/keyTable.go:53-86 | one new object, entered in both maps |
| `ServerObjects.KeyLookupTable.Lookup` | server/processMessages/keyTable.go:88-96 | the object of the forward or reverse map |
| `ServerObjects.KeyLookupTable.ResetUsage` | server/processMessages/keyTable.go:107-114 | every object reachable from the forward map is unmarked, seen through both maps |
| `ServerObjects.OnionParser.AuthenticatedOnionParse` | server/processMessages/onion.go:37-94 | on shared objects and the received buffer: same result, errors and state change as the protocol model's step; ciphertext and signature keep their bytes |
| `ServerObjects.OnionParser.AllKeysAccountedFor` | server/processMessages/onion.go:96-104 | true iff the count equals the number of keys, and then the table is reset |
| `ServerObjects.PathEstablishmentParser.ParseRecordAndGetNext` | server/processMessages/pathEstablishment.go:39-114 | on shared objects and aliasing buffers: same result and errors as the protocol model's step, and the table it leaves in every case: unchanged on an early error, with the new key when only the group's signature is bad |
| `Accounting.ParseAccounts` | server/processMessages/onion.go:85-94 | an accepted message, found through either table, uses one more entry and is counted once |
| `Accounting.FeedAccounts` | server/processMessages/onion.go:37-94 | over any messages, accepted or not, the count equals the number of entries marked used |
| `Accounting.AllUsedIff` | server/processMessages/onion.go:96-104 | the count is complete iff every key was used |
| `Accounting.ResetAccounts` | server/processMessages/keyTable.go:107-114 | a reset restores the all-unused account |
| `Accounting.AddAccounts` | server/processMessages/keyTable.go:53-86 | adding a fresh key keeps the account balanced |
| `Barrier.BarrierSafety` | network/synchronization/synchronization.go:66-130 | over all interleavings: the panic is unreachable, processed <= marked <= threshold, nobody marks or finishes in a layer other than the one it waited for, at most one Trigger is outstanding, and then every handler is through |
| `Barrier.PhasesAreOrdered` | network/synchronization/synchronization.go:66-72 | nothing of a layer passes Sync before every Done of the layer before |
| `Barrier.BarrierProgress` | network/synchronization/synchronization.go:88-114 | no deadlock, and a run that stops has gone through every layer in exactly the number of steps the handlers need |
| `Barrier.RunKeeps` | network/synchronization/synchronization.go:74-114 | the invariant over whole runs, with one phase per Trigger |
| `Synchronizer.Synchronizer.MarkStarted` | network/synchronization/synchronization.go:74-86 | range error, duplicate error or mark; an id equal to the number of servers passes the range check and indexes out of range |
| `Synchronizer.Synchronizer.Done` | network/synchronization/synchronization.go:88-97 | one more processed; triggers exactly at the threshold, panics beyond it |
| `Synchronizer.Synchronizer.Trigger` | network/synchronization/synchronization.go:99-114 | next layer and threshold, nothing processed, all marks cleared |
| `Synchronizer.Synchronizer.Reset` | network/synchronization/synchronization.go:116-130 | a new round, layer and threshold with nothing processed and no marks |
| `Synchronizer.PerformMark` | network/synchronization/synchronization.go:74-86 | the object performs the Mark step of the interleaving model |
| `Synchronizer.PerformDone` | network/synchronization/synchronization.go:88-97 | the object performs the Done step, and starts a Trigger exactly when the model does |
| `Synchronizer.PerformTrigger` | network/synchronization/synchronization.go:99-114 | the object performs the Trigger step |
| `HashToCurve.SimplifiedSWU` | crypto/ec/hash.go:41-99 | for every prime p = 3 mod 4 beyond 3: fails iff t is 0, 1 or -1; otherwise a reduced point with y^2 = x^3 - 3x + B: over the first candidate x1, with the root y that is itself a square, if g(x1) is a square; else (-t^2 x1, t^3 z) with z^2 = -g(x1), where z is a square iff (p + 1) / 4 is even |
| `HashToCurve.ImageIsUnique` | crypto/ec/hash.go:41-99 | only one point meets this description: x and the sign of y are determined |
| `HashToCurve.RootIsSquare` | crypto/ec/hash.go:82-83 | g^e is a square if g is, and otherwise iff e is even |
| `Squares.RootIsUnique` | crypto/ec/hash.go:82-98 | modulo a prime p = 3 mod 4, two roots of one number that are both squares, or both not, are equal |
| `Squares.NotBoth` | crypto/ec/hash.go:82-98 | a nonzero number and its negative are not both squares |
| `HashToCurve.KeyIdentity` | crypto/ec/hash.go:69-90 | g(ux) = u^3 g(x) for the candidate x |
| `HashToCurve.SecondBranch` | crypto/ec/hash.go:84-97 | the corrected point is on the curve when the first candidate is not |
| `HashToCurve.SquareDecides` | crypto/ec/hash.go:82-87 | the test y^2 = g decides whether g is a square |
| `HashToCurve.FailsExactly` | crypto/ec/hash.go:56-67 | u^2 + u vanishes iff t is 0, 1 or -1 |
| `Modular.Fermat` | crypto/ec/hash.go:82-87 | Fermat's little theorem, through binomial coefficients |
| `Modular.RootOrNegated` | crypto/ec/hash.go:82-87 | for p = 3 mod 4, g^((p+1)/4) squares to g or -g |
| `Modular.ModInverseWorks` | crypto/token/token.go:80-83 | the computed inverse is reduced and is one |
| `Shuffling.Shuffler.Perm` | config/randomness.go:84-98 | whatever the random stream, a permutation, the Knuth shuffle of its words, n - 1 of which are taken; its first element is the first word modulo 2^32 and n; no result iff there are 2^32 elements or more |
| `Shuffling.KnuthAt` | config/randomness.go:89-96 | at every step, position i receives the element at i + (word mod 2^32 mod (n - i)) |
| `Shuffling.ChoicesDecide` | config/randomness.go:84-98 | two streams draw the same permutation iff at every step their words agree modulo the number of elements left |
| `Shuffling.EveryPermutation` | config/randomness.go:84-98 | every permutation is drawn by some stream |
| `Shuffling.PermutedMultiset` | config/randomness.go:84-98 | reading in permuted order reads every element exactly once |
| `Buffers.MemReadWriter.Write` | network/buffers/inMemory.go:52-61 | appends, or reports that the buffer is full and changes nothing |
| `Buffers.MemReadWriter.Shuffle` | network/buffers/inMemory.go:41-46 | what will be read is what was stored, plus zero elements if dummies are on, in the order of the permutation the random words draw; fails iff there are 2^32 elements or more |
| `Buffers.MemReadWriter.ReadNextChunk` | network/buffers/inMemory.go:63-89 | the next bytes of that order, as many as fit, split elements included; short only at the end |
| `Buffers.MemReadWriter.ReadElement` | network/buffers/inMemory.go:91-103 | the next element, at its place in the buffer |
| `Buffers.ReadInChunks` | network/buffers/inMemory.go:63-89 | for any sequence of chunk sizes the outputs together are a prefix, finally all, of the elements in order |
| `Groups.CreateSeparateGroupsWithSize` | config/anytrustGroup.go:95-127 | if it returns, every group has distinct servers, every server is in floor(T/n) or ceil(T/n) groups, T = groups * size, and the groups are those the random words lead to: permutations drawn when needed, duplicates swapped with the entry the next word selects |
| `Groups.GroupsAreDetermined` | config/anytrustGroup.go:95-127 | so the same words give the same groups |
| `Groups.NextGroup` | config/anytrustGroup.go:103-124 | one group of distinct servers, the next `size` entries of the permutation as the random words make it evolve |
| `Groups.Balanced` | config/anytrustGroup.go:161-170 | any prefix of concatenated permutations is balanced |
| `Groups.NotLast` | config/anytrustGroup.go:109-118 | a duplicate is never at the last position, so the swap modulus is not zero |
| `Groups.ReselectionCanSucceed` | config/anytrustGroup.go:109-118 | some later position resolves any duplicate |
| `GroupSize.GroupSizeWithoutReplacement` | config/anytrustGroup.go:37-57 | the least size whose all-adversarial product is below the target, else n; at most adversaries + 1 |
| `GroupSize.ProductCountsDraws` | config/anytrustGroup.go:37-57 | the product is the ratio of ordered draws, whose denominator is positive |
| `GroupSize.ProductIsRatioOfChoices` | config/anytrustGroup.go:37-57 | product * C(n, g) = C(adversaries, g), with C(n, g) positive |
| `Sharing.AdditiveShares` | crypto/dhkx.go:115-140 | the shares add up to the secret for any random scalars |
| `Sharing.SubtractiveShares` | crypto/pairing/pairing.go:44-52 | the same for the pairing scalars |
| `Sharing.AnyOrder` | crypto/dhkx.go:96-99 | shares applied to a point and accumulated in any order of arrival give the secret times the point |
| `Sharing.SumOfMultiset` | crypto/dhkx.go:126-129 | sums do not depend on the order |
| `Sharing.ZqIsGroup` | crypto/dhkx.go:26-36 | the laws assumed of a group of points are met by the integers modulo any q |
| `ThresholdDecryption.EveryRunKeepsInv` | server/processMessages/checkpointSender.go:60-147 | for every interleaving of the members' answers: no answer fails, no count goes negative, every entry holds the answered shares times its point, and is opened iff all members of its group have answered |
| `ThresholdDecryption.CollectionComplete` | server/processMessages/checkpointSender.go:60-102 | when every group has reported, each boomerang was opened exactly once, under secret * point |
| `ThresholdDecryption.CollectionEnds` | server/processMessages/checkpointSender.go:60-102 | if all members of nonempty groups answer, every group reports |
| `ThresholdDecryption.GroupRemovesItsLayer` | server/prepareMessages/client.go:141-149 | the client's last boomerang comes back as its boomerang without the group's layer |
| `ThresholdDecryption.DiffieHellmanAgrees` | crypto/dhkx.go:26-36 | keys agree from both ends in any group |
| `ThresholdDecryption.CheckpointSender.HandleResponse` | server/processMessages/checkpointSender.go:104-118 | a bad signature fails and changes nothing; otherwise the loop adds each partial key to the entry it names, and an unknown name fails |
| `ThresholdDecryption.CheckpointSender.DecryptGroup` | server/processMessages/checkpointSender.go:120-147 | in any order of visiting, opens exactly the group's entries; fails iff one was opened already or is too short |
| `ThresholdDecryption.CheckpointSender.ReadOne` | server/processMessages/checkpointSender.go:73-94 | one answer on the object is one step of the run model |
| `KeyExchange.AdditiveShares` | crypto/ec/scalar.go:90-99 | reduced shares that add up to the secret; all but the first are the random scalars |
| `KeyExchange.Neg` | crypto/ec/scalar.go:52-58 | the reduced negative, zero included |
| `KeyExchange.Accumulate` | crypto/ec/scalar.go:19-25 | the reduced sum |
| `KeyExchange.ExchangeConserves` | server/keyExchange/exchangeKeys.go:83-135 | in every reachable state the members' sums plus the shares in flight equal, mod the order, the secrets shared so far, and no member receives more shares than there are masters |
| `KeyExchange.NoShareRefused` | server/keyExchange/exchangeKeys.go:108-131 | a share in flight is never refused |
| `KeyExchange.ExchangeCompletes` | server/keyExchange/exchangeKeys.go:108-135 | when every member has reached its threshold nothing is in flight and the sums add up to the master secret |
| `KeyExchange.PublicKeyMatches` | server/keyExchange/exchangeKeys.go:74-81 | a master's public key, accumulated in any order, is the base times the sum of the secrets, and equals the accumulated public keys of the members' sums |
| `KeyExchange.Participant.ReceiveSecret` | server/keyExchange/exchangeKeys.go:108-131 | blocks iff the exchange is completed; otherwise adds the share, reduced, and counts it, triggering at the threshold and panicking beyond it |
| `KeyExchange.Participant.ReceivePublic` | server/keyExchange/exchangeKeys.go:108-131 | the same at a master, which adds points |
| `Tokens.TokensAreValid` | crypto/token/token.go:23-83 | for any signers, any sharing, any nonzero blinding and either setting of SkipToken: every signer signs and Create returns secret * H(m) |
| `Tokens.CreateSucceedsIff` | crypto/token/token.go:45-57 | with honest partials Create fails iff the blinding is zero and the token is not the neutral element, whatever the inverse of zero is |
| `Tokens.VerifyExactly` | crypto/pairing/pairing.go:34-42 | of all points, in the subgroup or not, verification accepts exactly secret * hash |
| `Tokens.SecondAttempt` | crypto/token/token.go:45-57 | with the blinding inverted once and honest partials, Create succeeds iff the token is neutral, or the blinding is nonzero and its own inverse; what it returns is the token |
| `Tokens.Retry` | crypto/token/token.go:45-57 | two calls of Create on one object, for any first partials: after a success the second panics; after a failure the second, with honest partials, succeeds exactly under that condition |
| `TokenInstance.SecondAttemptFails` | crypto/token/token.go:80-83 | over the integers mod 5, blinding 2: a wrong partial makes the first Create fail, and honest partials then fail too, though they would have succeeded at first |
| `TokenInstance.RetryFails` | crypto/token/token.go:45-57 | the same as two calls on one object |
| `TokenInstance.ExampleIsCurve` | crypto/pairing/pairing.go:34-42 | the laws assumed of the pairing are met by an instance |
| `Tokens.Issuance.Create` | crypto/token/token.go:45-57 | combine, unblind, verify; the stored blinding is inverted either way; panics iff a token was created before |
| `Tokens.Combine` | crypto/token/token.go:73-78 | the loop is the accumulated sum |
| `Link.Transmit` | network/batching.go:121-150 | a whole link: elements with keys that are not all zero, written to a buffer, shuffled without dummies, read out, signed, framed and read in batches: exactly what was written is dispatched, in the order the random words draw, and exactly the signed bytes are hashed; fails iff the buffer overflows |
| `Link.Fill` | network/buffers/inMemory.go:52-61 | the elements are stored in order; fails iff there are more than the bin holds |
| `Link.ReadOut` | network/buffers/inMemory.go:41-89 | one chunk after the shuffle is the concatenation of a permutation of the stored elements |
| `Link.LightningCarried` | server/pool.go:64-73 | a lightning packet is such a message iff the client's key for its layer is not all zero |
| `Link.PathCarried` | server/pool.go:64-73 | the same for path messages and receipts |
| `Framing.SendAndReceiveAll` | server/handler.go:108-139 | a whole connection from sender to workers: for any parcels whose elements start with a key that is not all zero, any batch size for each frame and whatever workers write into their slices, exactly what was sent is dispatched, in order |
| `Framing.SendAndReceive` | network/batching.go:51-73 | one frame: the elements dispatched are the sender's, the bytes hashed are exactly those signed, the signature verifies, and the rest of the connection is left |
| `Framing.ReadConnection` | server/handler.go:108-139 | the loop over frames with the batched reader gives what the unbatched reading of the whole stream gives, short streams and bad signatures included |
| `Framing.ReadFrame` | server/pool.go:51-93 | one frame, the same |
| `Framing.ConnectionRoundTrip` | server/handler.go:108-139 | everything sent over a connection, for any metadata, sizes and counts, is read back exactly and in order |
| `Framing.FrameRoundTrip` | network/messages/signedMessage.go:82-90 | one frame is read back exactly whatever follows it, and its signature verifies |
| `Framing.MetadataRoundTrip` | network/messages/signedMessage.go:47-80 | metadata survive iff every field fits its 32 bits |
| `Framing.MetadataWords` | network/messages/signedMessage.go:71-79 | the seven words are number of messages, type, round, layer, sender, destination and group, in this order |
| `Framing.MakeFrame` | network/batching.go:134-145 | metadata, data and signature in one array are the frame, signed over exactly metadata and data |
| `Framing.Receive` | network/batching.go:51-73 | for every batch size and whatever workers write into their slices: the bytes hashed are the bytes received, and what is dispatched are exactly the elements with some nonzero byte among their first 32, in order; fails iff the stream is short |
| `Framing.DispatchedExactly` | server/pool.go:61-83 | of any elements exactly those with some nonzero byte among their first 32 are dispatched, in order |
| `Framing.ZerosNeverDispatched` | network/buffers/inMemory.go:91-98 | the zero elements a buffer puts between messages are never dispatched |
| `Framing.AllZero` | server/pool.go:65-72 | the loop over the key finds a nonzero byte iff there is one |
| `Framing.AcceptedFrame` | server/pool.go:84-92 | a frame is accepted only with a signature of the sender over exactly the metadata and elements read |
| `Framing.HashAndDispatch` | server/pool.go:61-83 | an element is hashed before its worker may write, it is dispatched iff some byte of its key is not zero, and every byte before and after its slice keeps its value |
| `Framing.PackTo` | network/messages/signedMessage.go:71-79 | writes exactly the seven words |

## Left out

- The network, TLS, gRPC, process control, logging, JSON and protobuf code: input and output only.
- The internals of AES-CTR, SHA-2, Ed25519 and the pairing library: arbitrary functions with the laws stated in `Sigcryption.Suite.Laws`, `Sharing.GroupLaws` and `Tokens.CurveLaws`. In the protocol model a token is the one valid byte string for its content; `Tokens` justifies that a single element is valid.
- Anonymity, and every probabilistic claim.
- Dishonest clients, servers or group members: an error in a handler makes the server stop, and the whole-run theorems are about honest participants with pairwise distinct path keys and client ids.
- Overflow of a link's buffer in whole runs: bins are taken to be large enough; `Buffers.MemReadWriter.Write` models the error itself.
- PathRounds.PathResult: removes the group's layer when the message is handled; the source does so for all messages of a server at the end of the layer. `LastPathRound` models that collection and proves that the packets sent are the same.
- The trustee stage follows the relay stage instead of being interleaved with it; `Relay.ThroughStays` and `GroupThreshold` say why nothing depends on it.
- PathEstablishment.ClientFindsReceipt: GetReceipt first waits for the round to be complete; the wait is not modelled, and in path round 0, where it would never end, the coordinator does not ask (coordinator/coordinator.go:149).
- BarrierRounds.PathOverBarriers: in path round 0 no Trigger runs; the one in the model stands for the coordinator going on to round 1, and `BarrierRounds.RoundZeroOverBarriers` does without it.
- One-layer networks and a boomerang limit of zero.
- RevokeKey, loading tables from files, and SkipPathGen.
- Zero keys: a message whose key is all zero is taken for a dummy (server/pool.go:64-73); `Link.LightningCarried` and `PathCarried` name the packets concerned, and the whole-run theorems take every packet sent to arrive.
- Dummies in whole runs: the code fixes NoDummies; `Buffers` and `Framing` model dummy elements.
- Groups.NextGroup: gives up at a bound on reselections, as below.
- Groups.CreateSeparateGroupsWithSize: partial correctness with a bound on reselections as a parameter, because termination is probabilistic.
- Shuffling.Shuffler.Perm: the random source is an arbitrary stream of words; refilling the byte buffer of readBytes is not modelled.
- GroupSize.GroupSizeWithoutReplacement: exact rationals; rounding of float64 and the computation of the target are not modelled.
- KeyExchange.ExchangeConserves: one non-master group at a time; groups share no state.
- Proofs of discrete logarithm knowledge and equality (crypto/nizk), other sizing formulas, and the simulations.
