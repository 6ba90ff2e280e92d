# VoleNet in Dafny

A model of the VoleNet node and of the pieces around it, with proofs of what each protocol promises over
every input and every run. `dafny verify dfyconfig.toml` checks the whole project.

| file | what it models |
|---|---|
| Text.dfy, Bytes.dfy, Options.dfy | UTF-16 strings, bytes and big-endian integers, the optional value |
| CanonicalJson.dfy | the canonical JSON text that gets signed, a decoder for it, and JSON transport |
| Envelope.dfy | the signed envelope, creating, serializing and verifying a message |
| FileCrypto.dfy | chunks, nonces, additional data, frames and sizes of an encrypted file |
| Streams.dfy | the incremental encoder and decoder |
| DataPlane.dfy | the round trip, a hostile wire, and the two ways to resume a download |
| RoundTrip.dfy | encoder and decoder end to end |
| Receive.dfy | the receiver's retry loop over a partial file, and landing it |
| TransferTable.dfy | the transfer records and capability tokens under every handler |
| Limiter.dfy | the hub's sliding-window limit per pair |
| Leader.dfy | the peer registry and leader election, across nodes and in time |
| Inbox.dfy | the shared message log, a reader's cursor, and the delivery loop |
| BlobStore.dfy | the hub's blob index and the files it stands for |
| Notices.dfy | notices of attempts to reach a member who is away |
| Daemon.dfy | the daemon's socket: requests and replies over connections that come and go |
| StdioFraming.dfy | Content-Length framing (Language Server Protocol 3.17, Base Protocol, Header Part) |

Objects whose methods change fields are classes with those fields; each method's contract gives the whole
new state, and `Valid()` is the invariant that every step keeps. Code that only computes is functions and
lemmas. A method is one synchronous segment between `await`s, so that calling the methods of a class in any
order is any interleaving of its handlers. Time is an integer parameter that does not go back.

## What is assumed

- The cipher (ChaCha20-Poly1305, section 2.8 of RFC 8439) is a pair of functions that obeys
  `FileCrypto.Ideal`: ciphertext is sixteen bytes longer, what was issued opens, nothing else opens.
  `ToyAeadIsIdeal` shows the law can be met. `DataPlane.OnlySender` says in addition that only the sender's
  chunks were sealed under the transfer key.
- A signature verifies for the data it was made for and no other (`Envelope.Lawful`, met by `LawfulKeyExists`).
- The digest of a file is any function: equal size and the prefix invariant already give equality. Only where a
  partial file is removed between two requests must it tell the source from other files of its size
  (`Receive.Receiver.Distinguishes`).
- The daemon's messages are printed on one line and parse back (`Daemon.Lawful`, met by `LawfulCodecExists`).
- Inbox timestamps of one peer increase along the log, compaction drops only lines this reader has read, and
  nobody else refreshes the same `Inbox` object during a delivery. No other process moves this reader's cursor
  file while it is watched, as a hook of the same session may (`inbox.ts:72-74`).
- A probe of a sender, which times out after four seconds, is over within a day (`TransferTable.Timely`).

## Where the code and its words differ

- `watch.ts:42-44` promises that an arrival while `onArrive` runs is checked again the moment it finishes. It is
  not when the handler throws or the cursor cannot be written (`Inbox.TriggerWhileHandlerThrows`,
  `TriggerBeforeFailedWrite`), and `watch.ts:60-61` is not kept for a trigger during an empty read either
  (`TriggerDuringEmptyRead`). `RestOfPass` gives the exact condition; what is forgotten waits for the next poll.
- `leader.ts:226` speaks of removing the dead leader from consideration. The branch elects from the same
  registry: `Leader.DeadIsElectedWhileRegistered` says exactly when that elects the dead leader again and when
  the next lowest takes over, and `DeadLeaderStillLeads` is such a run. Only the health check drops it.
- `protocol.ts` signs a callable property as null and loses it in transport (`CallablePropertyBreaksTheText`),
  and a bare NaN payload does not verify (`NaNPayloadDoesNotVerify`). `WireCanonical` and
  `VerifiesAfterTransport` give the exact conditions.
- `files.ts:1494-1515` calls the frame scan without the transfer's chunk size, so a hub cannot resume chunks
  above 4 MiB that the sender can (`ResumePathsAgree` gives the exact condition).
- `blob-store.ts:88-101` does not apply the quota to a retried create (`RetryWithinQuota`,
  `RetryExceedsQuota`).
- `transport.ts:245` counts bytes and `transport.ts:204-209` counts UTF-16 units; `SentIsParsedIffAscii` is exact.
- `chat-outbox.ts:203-219` can lose a sender's name when the sender tried again without one while the notices
  were out; `RestoreUndoesTake` says exactly when.
- `daemon.ts:157-164`: a call on a connection that another call replaced before it closed is not rejected by that
  close (`Daemon.StrandedCall`; `DaemonLink.Close` has the exact condition) and waits until the connection in use
  closes too, although `daemon.ts:115-118` sets out to keep calls from waiting on a dead connection.
- `index.ts:1968` says of direct sealing that it never throws. `seal.ts:92` does for a peer whose announced key is
  of another kind, so telling the peer can throw (`files.ts:995`, `files.ts:1020`). A file that has landed is then
  downloaded again, and the transfer can end as failed with the file in the inbox
  (`Receive.Receiver.LandedYetFailed`). A message that is merely not delivered changes nothing
  (`UndeliveredIsNoFailure`); `Run` has the exact condition.
- `files.ts:923-954`: a cancel or the expiry sweep in the retry delay removes the partial file, stops nothing, and
  the next request appends to a new one. `Run` says exactly when bytes leave their place; `RemovedThenRefused` and
  `WrongFileLands` are what comes of it.

## Model

| member | source | states |
|---|---|---|
| CanonicalJson.DecodeCanonical | src/volenet/src/protocol.ts:236-248 | the canonical text of any payload is decoded, by a decoder that never saw it, to exactly what the payload means: keys as a map, undefined properties absent, undefined or callable items and non-finite numbers as null |
| CanonicalJson.ValueRoundTrip | src/volenet/src/protocol.ts:236-248 | the same inside a larger text: a nested value is read back and the decoder stops where it ends, whatever delimiter follows |
| CanonicalJson.BodyRoundTrip | src/volenet/src/protocol.ts:236-248 | quoted strings with escapes, surrogate pairs and lone surrogates end at their own closing quote and give the string back |
| CanonicalJson.CanonicalIffMeaning | src/volenet/src/protocol.ts:236-248 | two payloads are signed as the same text if and only if they mean the same |
| Text.LessIsBefore | src/volenet/src/protocol.ts:243-244 | the order the keys are sorted in, and ids are compared by, holds if and only if the two strings agree up to a place where the first one ends or has the smaller code unit |
| CanonicalJson.PrintedKeys | src/volenet/src/protocol.ts:243-247 | the keys an object prints are its defined keys, each before the next at the first code unit where they differ, so the order they were set in cannot show |
| CanonicalJson.WireMeaning | src/volenet/src/protocol.ts:212-248 | JSON transport keeps what a payload means if and only if no object in it has a callable property |
| CanonicalJson.WireCanonical | src/volenet/src/protocol.ts:212-248 | and so the signed text of the payload survives transport under exactly that condition |
| CanonicalJson.CallablePropertyBreaksTheText | src/volenet/src/protocol.ts:239-247 | a callable property is printed as null by the signer and absent at the receiver: the texts differ |
| Envelope.CanonicalizeInjective | src/volenet/src/protocol.ts:250-262 | the signed string is equal if and only if id, type, sender, recipient, timestamp and payload meaning are, although declared types contain the separator |
| Envelope.DeclaredTypeSeparated | src/volenet/src/protocol.ts:18-84 | every declared type has a separator in each sixteen units, so a sixteen-unit instance id cannot hide inside a type |
| Envelope.TypeDetermined | src/volenet/src/protocol.ts:250-262 | a text that is a type, a separator and an instance id can be cut that way only once |
| Envelope.VerifiesAfterTransport | src/volenet/src/protocol.ts:126-233 | an honest message verifies after transport if and only if the clock is within [-5 s, +60 s], the payload is transportable and the sender signed with every key the receiver holds |
| Envelope.VerifiedMeansUnaltered | src/volenet/src/protocol.ts:158-207 | a message that verifies and carries somebody's signature, classical or post-quantum, has exactly the id, type, addresses, timestamp and payload meaning that were signed; either of the two keys suffices |
| Envelope.ValidIff | src/volenet/src/protocol.ts:158-207 | a message is valid if and only if it has version 2, is at most sixty seconds old and five ahead, and every signature the receiver holds a key for is there and verifies for its text |
| Envelope.WhyRefused | src/volenet/src/protocol.ts:158-207 | each refusal has its exact condition: the version first, then the clock, then the signature, then the post-quantum signature |
| Envelope.SignatureCovers | src/volenet/src/protocol.ts:179-190 | a valid message with a lawful key's signature on a text carries that text |
| Envelope.PqSignatureCovers | src/volenet/src/protocol.ts:194-204 | so does one with the post-quantum signature on a text, whatever the classical key is worth |
| Envelope.CreatedIsSigned | src/volenet/src/protocol.ts:126-153 | a created message carries, of its own text, the signature of every key the sender has |
| Envelope.SignedTextParts | src/volenet/src/protocol.ts:250-262 | the signed text is version, id, type, sender, recipient, timestamp and payload text in that order, with one separator between any two |
| Envelope.WirePayloadText | src/volenet/src/protocol.ts:250-262 | the payload part of the signed string is unchanged by transport if and only if the payload is transportable |
| Envelope.NaNPayloadDoesNotVerify | src/volenet/src/protocol.ts:236-262 | a bare NaN payload is signed as null, arrives as null and signs as nothing there: the signature is refused |
| Envelope.LawfulKeyExists | src/volenet/src/protocol.ts:126-207 | the laws asked of a signing key can be met |
| FileCrypto.NonceNeverRepeats | src/volenet/src/file-crypto.ts:26-30 | within a transfer no two chunk indices share a nonce |
| FileCrypto.NoncesCountUp | src/volenet/src/file-crypto.ts:26-30 | a nonce is twelve bytes, four zeros and the index most significant byte first, so nonces are ordered as the chunks are |
| FileCrypto.AadBindsTransferAndPosition | src/volenet/src/file-crypto.ts:32-34 | the additional data determines transfer id and index, even for ids that contain the separator or digits |
| FileCrypto.ToyAeadIsIdeal | src/volenet/src/file-crypto.ts:49-91 | the laws asked of the cipher, including that only issued queries open, can be met |
| FileCrypto.ChunksJoin | src/volenet/src/file-crypto.ts:98-145 | the chunks of a file join to the file and each holds between one and chunkBytes bytes |
| FileCrypto.ChunkCount | src/volenet/src/file-crypto.ts:43-46 | their number is the advertised ceil(size / chunkBytes) |
| FileCrypto.CipherSizeExact | src/volenet/src/file-crypto.ts:37-41 | the advertised ciphertext size is the exact number of wire bytes |
| Streams.ChunkEncryptStream.Transform | src/volenet/src/file-crypto.ts:120-131 | however plaintext is split into events, the frames pushed are those of the full chunks so far and the rest waits |
| Streams.ChunkEncryptStream.Flush | src/volenet/src/file-crypto.ts:133-138 | at the end the output is the one-shot encryption of everything written, in ceil(n / chunkBytes) frames |
| Streams.ChunkDecryptStream.Transform | src/volenet/src/file-crypto.ts:163-190 | however wire bytes are split, plaintext pushed, count and error are those of parsing everything written at once |
| Streams.ChunkDecryptStream.Flush | src/volenet/src/file-crypto.ts:192-198 | the end is clean if and only if no byte of an unfinished frame is left |
| Streams.ParseAppend | src/volenet/src/file-crypto.ts:163-190 | parsing may stop at any byte and go on from what was left |
| Streams.ParseStep | src/volenet/src/file-crypto.ts:163-190 | the decoder waits for a length prefix, refuses lengths below sixteen and above the chunk size and sixteen, waits for the whole body, and refuses one that does not open |
| DataPlane.DecodeUndoesEncode | src/volenet/src/file-crypto.ts:49-198 | decoding the encryption of a plaintext gives its chunks, with nothing left over and no error, and they join to the plaintext |
| DataPlane.DecryptedIsTheSenders | src/volenet/src/file-crypto.ts:69-91 | a body that opens at an index is the sender's frame for that index, and opens to the sender's chunk |
| DataPlane.HostileWire | src/volenet/src/file-crypto.ts:163-198 | whatever bytes arrive, everything pushed is a run of the sender's chunks from startChunk, and the bytes consumed are their frames |
| DataPlane.ChunkPrefix | src/volenet/src/files.ts:975-986 | the first k chunks are the first k * chunkBytes bytes, and the rest of the file has the remaining chunks |
| DataPlane.ScanFrameOffset | src/volenet/src/file-crypto.ts:205-229 | the walk over length prefixes computes the offset k frames on, or the error it meets first |
| DataPlane.WalkFrames | src/volenet/src/file-crypto.ts:205-229 | over frames that are not too long the walk ends exactly behind the k-th frame, and past the last frame it fails |
| DataPlane.EncryptedFrom | src/volenet/src/files.ts:1391-1407 | the ciphertext of a file is the frames of its first k chunks and then a fresh encryption of the rest from index k |
| DataPlane.SenderServesExpected | src/volenet/src/files.ts:1391-1407 | a sender's answer to a resume is the frames from that chunk on, with their exact length advertised |
| DataPlane.HubServesExpected | src/volenet/src/files.ts:1494-1515 | so is a hub's, from stored ciphertext, when no chunk is larger than 4 MiB |
| DataPlane.HubFindsNothing | src/volenet/src/files.ts:1494-1515 | with larger chunks a hub answers not-found to every resume past the start |
| DataPlane.ResumePathsAgree | src/volenet/src/files.ts:1380-1515 | hub and sender answer a resume alike, length and bytes, if and only if nothing is skipped, the chunk is past the end, or no chunk exceeds 4 MiB |
| DataPlane.LargeChunksResumeOnlyFromTheSender | src/volenet/src/files.ts:1494-1515 | a concrete transfer that the sender resumes and the hub cannot |
| DataPlane.ServedContinues | src/volenet/src/files.ts:905-1034 | what is served from chunk k decodes cleanly to exactly what the first k chunks lack |
| RoundTrip.EncodeThenDecode | src/volenet/src/file-crypto.ts:98-198 | what is written to an encoder comes out of a decoder with a clean end, for every plaintext, every splitting of it into events and every splitting of the wire |
| RoundTrip.EncodeAll | src/volenet/src/file-crypto.ts:98-139 | however plaintext is split, the frames out are the one-shot encryption, ceil(n / chunkBytes) of them |
| Streams.DecodeAll | src/volenet/src/file-crypto.ts:147-198 | however the wire is split, a body ends cleanly if and only if it parses to its last byte, and what comes out is the parse of what was fed |
| Receive.Receiver.ConsumeCipherStream | src/volenet/src/files.ts:945-972 | whatever arrives, the partial file holds bytes of the source, and every one stays in its place if and only if the request did not start past the first chunk on a missing file; it succeeds exactly when the body ended, was written and decrypted to the last byte |
| Receive.Receiver.CountCompleteChunks | src/volenet/src/files.ts:975-986 | the file is cut back by less than one chunk and, in place, is then exactly the first k whole chunks of the source; if it cannot be cut the next request starts over |
| Receive.Receiver.FinalizeReceive | src/volenet/src/files.ts:988-1034 | a file lands if and only if it is there, has digest and size of the offer and can be moved; it throws to the retry loop exactly when there is no verdict or telling the peer throws, which an undelivered message does not |
| Receive.Receiver.Attempt | src/volenet/src/files.ts:912-941 | one turn of the retry loop is over exactly when there was a verdict and nothing was thrown, or the transfer is cancelled when the failure is caught; the state it leaves, an interrupt at any step included, the file it leaves cut back to whole chunks, and the number of those as the next chunk to ask for |
| Receive.Receiver.SteadyAdvances | src/volenet/src/files.ts:923-941 | in a run whose requests each bring a whole chunk, a request that does not settle the transfer moves the next one forward |
| Receive.Receiver.Run | src/volenet/src/files.ts:905-942 | in every run, with failures, cancels, expiries and removals anywhere: every request asks for the chunk after the last whole one in the file that the request before it left, or for the first if there was none or it could not be cut back, and meets exactly that file; there is a next request until one settles the transfer, it is cancelled or four were made; what lands has the offered size and digest, and is the source if the digest tells it apart or no request strayed onto a removed file; every byte is in place after every request if and only if none strayed; the transfer ends as done if and only if its last request landed, nothing was thrown and nobody cancelled meanwhile; an undisturbed run ends as done if one request gets through, or if there are at most four chunks and every request brings one more |
| Receive.Receiver.LandedInPlace | src/volenet/src/files.ts:988-1016 | a file that lands with every byte in place is the source, whatever the digest |
| Receive.Receiver.UndeliveredIsNoFailure | src/volenet/src/files.ts:993-1020 | whether the peer can be reached makes no difference: a landed file ends as done and a refused one as failed |
| Receive.Receiver.LandedYetFailed | src/volenet/src/files.ts:1015-1024 | a landing whose message cannot be built is fetched again from the start, and the transfer can end as failed with the whole file in the inbox |
| Receive.Receiver.RemovedThenRefused | src/volenet/src/files.ts:923-954 | a partial file removed in the retry delay: the next request gets everything it asked for and the transfer fails for its size |
| Receive.Receiver.WrongFileLands | src/volenet/src/files.ts:923-1015 | after such a removal a file of four chunks in the wrong order has the size of the source and lands if the digest does not tell it apart |
| Receive.Receiver.ServedIsWhole | src/volenet/src/files.ts:1136-1172 | a body that is all of what is served decodes cleanly and completes the source |
| Receive.ReceivedIsPrefix | src/volenet/src/files.ts:945-973 | the bytes before the boundary and whatever decrypted after it are a prefix of the source |
| Streams.ErrorIsFinal | src/volenet/src/file-crypto.ts:147-198 | after a decoding error the rest of the body cannot change the outcome |
| TransferTable.VoleNetFiles.TerminalHasNoToken | src/volenet/src/files.ts:348-375 | in every reachable state a transfer that is over has no usable pull or push token |
| TransferTable.TouchKeeps | src/volenet/src/files.ts:322-326 | changing a record's state keeps every token backed if the record goes on or no token names it |
| TransferTable.RevokeKeeps | src/volenet/src/files.ts:372-375 | revoking leaves the other tokens backed and the transfer without one |
| TransferTable.VoleNetFiles.RevokeTokensFor | src/volenet/src/files.ts:372-375 | exactly the tokens of that id go |
| TransferTable.VoleNetFiles.SendFile | src/volenet/src/files.ts:451-540 | a fresh record, and a pull token exactly when peers can reach this node directly |
| TransferTable.VoleNetFiles.ForgetUndelivered | src/volenet/src/files.ts:531-536 | an undelivered offer leaves neither record nor token |
| TransferTable.VoleNetFiles.OnAccept | src/volenet/src/files.ts:805-822 | only the offered record of that peer moves: to transferring for a pull, a push with credentials or a relay with a hub, else to accepted; tokens stay |
| TransferTable.VoleNetFiles.OnRejectOrDone | src/volenet/src/files.ts:824-863 | a peer's refusal or receipt ends its record and its tokens, from any state |
| TransferTable.VoleNetFiles.OnOffer | src/volenet/src/files.ts:619-725 | a known id or a refused offer changes nothing; any other becomes a receiving record of that peer, which waits for an answer or, auto-accepted, begins |
| TransferTable.VoleNetFiles.AcceptFile | src/volenet/src/files.ts:548-554 | an unanswered receiving record begins, and nothing else does |
| TransferTable.VoleNetFiles.BeginReceive | src/volenet/src/files.ts:727-763 | up to the first wait: fail on a bad key, wait for a probe, or decide; what the waiting handler relies on still holds when it resumes |
| TransferTable.VoleNetFiles.Decide | src/volenet/src/files.ts:764-792 | a relayed offer is accepted if and only if a hub is known, a direct one if and only if the sender answered the probe, or peers can reach this node, or a hub is known; it is pulled, pushed or relayed in that order of preference, and a push token is minted exactly for a direct offer to a reachable node |
| TransferTable.VoleNetFiles.Resume | src/volenet/src/files.ts:757-792 | a handler that waited for its probe decides on the record as it is now, even if that ended meanwhile, and the token it mints is backed |
| TransferTable.VoleNetFiles.RejectFile | src/volenet/src/files.ts:556-563 | rejecting a receive ends record and tokens whatever its state |
| TransferTable.VoleNetFiles.Cancel | src/volenet/src/files.ts:565-576 | so does cancelling, by the operator or by the record's own peer |
| TransferTable.VoleNetFiles.OnRelayReady | src/volenet/src/files.ts:838-846 | only an accepted receive of that peer starts its download |
| TransferTable.VoleNetFiles.OnPeerError | src/volenet/src/files.ts:865-878 | a sender that can push instead goes on; any other error ends record and tokens; a finished record is left alone |
| TransferTable.VoleNetFiles.Progress | src/volenet/src/files.ts:905-934 | progress never ends a record and never changes tokens |
| TransferTable.VoleNetFiles.End | src/volenet/src/files.ts:890-903 | landing or failing revokes the tokens even if the record was dropped meanwhile |
| TransferTable.VoleNetFiles.LookupToken | src/volenet/src/files.ts:355-370 | an expired token is forgotten; a pull or push token that is honoured names an existing, unfinished transfer of its direction and peer |
| TransferTable.VoleNetFiles.MintHubToken | src/volenet/src/files.ts:1241-1292 | a hub's upload and download tokens leave the peer tokens as they were |
| TransferTable.VoleNetFiles.SweepOne | src/volenet/src/files.ts:1526-1543 | one record of the sweep: expired with its tokens, dropped after a day, or left |
| TransferTable.VoleNetFiles.Sweep | src/volenet/src/files.ts:1526-1543 | exactly the unfinished records older than the offer time expire, with their tokens, and exactly those finished over a day ago go; every other is as it was |
| TransferTable.VoleNetFiles.SweepKeeps | src/volenet/src/files.ts:1526-1543 | the sweep keeps every token backed and never drops a record a waiting handler will use |
| Limiter.RelayLimiter.RelayPairAllow | src/volenet/src/seal.ts:167-187 | with pruning and the purge above 4096 pairs, every decision is that of a limiter that keeps the full history; the windows of other pairs stay as they are, except that above 4096 pairs exactly the idle ones go |
| Limiter.RelayLimiter.Purge | src/volenet/src/seal.ts:175-178 | the purge forgets only pairs idle for over a minute, all of them, and no decision changes; every window that is kept has a stamp of the last minute |
| Limiter.AtMostMaxPerMinute | src/volenet/src/seal.ts:167-187 | in every run under a nondecreasing clock, every sixty-second window lets at most the limit of a pair's messages through |
| Limiter.Relay | src/volenet/src/seal.ts:167-187 | any run of messages fed through one limiter: a message is let through if and only if fewer than the limit of its pair were let through in the sixty seconds before it, and so in every sixty-second window at most the limit is |
| Limiter.AllowsIffRoom | src/volenet/src/seal.ts:179-186 | the window decides as counting the messages let through in the last minute does, in both directions |
| Limiter.RecentIsLastMinute | src/volenet/src/seal.ts:179-181 | what counts at a time is exactly the stamps less than sixty seconds old |
| Limiter.RecentOfKept | src/volenet/src/seal.ts:179 | what pruning dropped never counts again, at this time or any later one |
| Limiter.ForgetIdle | src/volenet/src/seal.ts:175-178 | an idle pair's window may be forgotten because its stamps are in order and its last one is too old |
| Limiter.PairKeyInjective | src/volenet/src/seal.ts:173 | distinct pairs have distinct windows when ids hold no separator |
| Leader.Discovery.HealthCheck | src/volenet/src/discovery.ts:488-498 | exactly the peers silent for over 45 s are dropped |
| Leader.VoleNetLeader.LowestKnown | src/volenet/src/leader.ts:147-155 | the loop finds the id that comes before all others, of the own and the registered ones, at the first code unit where they differ |
| Leader.VoleNetLeader.ElectLeader | src/volenet/src/leader.ts:136-178 | the elected leader is the forced one if it is known, else the lowest known id, under its own or its registered name; the heartbeat runs exactly while this node leads and a callback reports exactly a change of role |
| Leader.VoleNetLeader.Start | src/volenet/src/leader.ts:75-88 | starting elects at once and reports becoming leader |
| Leader.VoleNetLeader.Stop | src/volenet/src/leader.ts:93-104 | stopping ends both timers and reports nothing |
| Leader.VoleNetLeader.Monitor | src/volenet/src/leader.ts:208-231 | each tick elects again; a follower whose leader is over fifteen seconds late counts one more, and the third in a row resets count and time and elects once more |
| Leader.VoleNetLeader.OnHeartbeat | src/volenet/src/leader.ts:238-243 | only the current leader's heartbeat resets the counter |
| Leader.VoleNetLeader.OnClaim | src/volenet/src/leader.ts:245-270 | a claim is accepted and acknowledged if and only if its id comes before the own one at the first code unit where they differ, and a leader that accepts one stops leading; any other claim changes nothing |
| Leader.Handle | src/volenet/src/leader.ts:127-231 | the handlers of one node do to registry and leader exactly what the step used in the run theorems says |
| Leader.DeadIsElectedWhileRegistered | src/volenet/src/leader.ts:222-228 | an election decides on a dead peer if and only if the registry has it and its id is below all others; otherwise it decides as if the peer were gone |
| Leader.MissedHeartbeatsReelect | src/volenet/src/leader.ts:222-228 | the third late heartbeat elects the leader that missed it, while the registry still has it |
| Leader.DeadLeaderStillLeads | src/volenet/src/leader.ts:208-231 | a concrete run in which a leader silent for forty seconds is elected again by the branch that is to replace it |
| Leader.ElectAll | src/volenet/src/leader.ts:136-178 | nodes that see exactly each other and each run one election, in any order: exactly one leads, the lowest id |
| Leader.OneLeader | src/volenet/src/leader.ts:136-178 | nodes with full views that have just elected agree on the lowest id, and exactly that node leads |
| Leader.TwoLeadersMeansBlind | src/volenet/src/leader.ts:136-178 | if two nodes both lead right after electing, the registry of the higher one lacks the lower |
| Leader.StaysDropped | src/volenet/src/discovery.ts:488-498 | a dead leader dropped by a health check stays dropped through any further events |
| Leader.HandleAll | src/volenet/src/leader.ts:208-271 | a whole run of events through a node object leaves it, after each, with the leader the step function gives |
| Leader.FailoverBound | src/volenet/src/leader.ts:208-231 | with ideal timers, a survivor that last saw the dead leader at t has elected the lowest live id by t + 70 s |
| Leader.Failover | src/volenet/src/leader.ts:208-231 | the same of a node object that the events are run through |
| Inbox.UnreadFrom | src/volenet-mcp/src/inbox.ts:134-137 | in a log with increasing stamps, what is unread is exactly what lies above the starting cursor and past where the reader stands |
| Inbox.MarkingAdvances | src/volenet-mcp/src/inbox.ts:139-145 | marking everything unread moves the reader behind the last line it saw |
| Inbox.DroppedRead | src/volenet-mcp/src/inbox.ts:175-181 | dropping read lines from the front of the log changes nothing that is unread |
| Inbox.Inbox.constructor | src/volenet-mcp/src/inbox.ts:61-66 | loading takes the log and, for each peer, the latest positive position of the files that count |
| Inbox.Inbox.MergeCursors | src/volenet-mcp/src/inbox.ts:82-117 | each position becomes the latest of the one held and those on disk: the cursor of this name, or while there is none those under older names |
| Inbox.Inbox.Merge | src/volenet-mcp/src/inbox.ts:112-117 | one cursor file moves positions forward only |
| Inbox.Inbox.MarkInMemory | src/volenet-mcp/src/inbox.ts:139-145 | the loop moves the cursor to the latest inbound stamp of each peer it covers |
| Inbox.Inbox.Add | src/volenet-mcp/src/inbox.ts:120-126 | an id is recorded once, as the last line; nothing else changes but that lines over 2000 go at the front; positions on disk are taken in |
| Inbox.Watcher.AtMostOneDelivery | src/volenet-mcp/src/watch.ts:58-83 | a check starts beside those under way, and the busy flag never lets there be two |
| Inbox.Watcher.NothingLostOrRepeated | src/volenet-mcp/src/watch.ts:58-83 | at every point the batches taken so far followed by what is unread are exactly the inbound messages above the starting cursor, each once, in log order |
| Inbox.Watcher.HandledIsNext | src/volenet-mcp/src/watch.ts:71-74 | the batch a handler has is the front of what is unread |
| Inbox.Watcher.Append | src/volenet-mcp/src/inbox.ts:165-173 | appends by anybody, at any time, keep all of this |
| Inbox.Watcher.Compact | src/volenet-mcp/src/inbox.ts:175-181 | so do compactions that drop read lines |
| Inbox.Watcher.Check | src/volenet-mcp/src/watch.ts:58-67 | a trigger while busy is remembered, a trigger after stop does nothing, any other starts a check unless paused |
| Inbox.Watcher.CursorRead | src/volenet-mcp/src/watch.ts:71-74 | the check hands over what is unread, or ends when nothing is |
| Inbox.Watcher.HandlerDone | src/volenet-mcp/src/watch.ts:74-75 | a batch that was handled is taken, exactly once |
| Inbox.Watcher.HandlerThrew | src/volenet-mcp/src/watch.ts:78-82 | after a throw nothing is marked and the batch is still the front of what is unread |
| Inbox.Watcher.Persisted | src/volenet-mcp/src/watch.ts:75-77 | after the cursor file the loop runs again exactly when a trigger was remembered and nobody stopped or paused it |
| Inbox.NextSession | src/volenet-mcp/src/inbox.ts:61-66 | a new session on the log and the cursor file of an earlier one has unread exactly what that one did not take: over both, every inbound message is taken or unread once, in log order |
| Inbox.RestOfPass | src/volenet-mcp/src/watch.ts:68-82 | from the log read on, with triggers at any point: the check looks again if and only if a trigger came, there was something to deliver, the handler did not throw, the cursor was written and nobody stopped or paused it |
| Inbox.RestOfDelivery | src/volenet-mcp/src/watch.ts:74-82 | the same from a running handler on, whatever was unread |
| Inbox.TriggerWhileHandlerThrows | src/volenet-mcp/src/watch.ts:42-44 | a message announced while the handler runs is left unread when the handler throws, and no check is under way |
| Inbox.TriggerBeforeFailedWrite | src/volenet-mcp/src/watch.ts:75-79 | nor is one when the cursor cannot be written after the handler |
| Inbox.TriggerDuringEmptyRead | src/volenet-mcp/src/watch.ts:60-73 | nor when the trigger falls between reading the log and finding nothing in it |
| Inbox.ForgottenTrigger | src/volenet-mcp/src/watch.ts:42-44 | a run from an empty reader to such a forgotten trigger |
| BlobStore.MirrorsIffRebuilt | src/volenet/src/blob-store.ts:51-61 | the index agrees with the sidecars entry by entry if and only if it is the one a restart rebuilds |
| BlobStore.UsageSet | src/volenet/src/blob-store.ts:72-78 | replacing one entry charges the pair for the new size and no longer for the old one |
| BlobStore.UsageOfOthers | src/volenet/src/blob-store.ts:72-78 | a blob that differs in sender or receiver does not count against a pair |
| BlobStore.RetryWithinQuota | src/volenet/src/blob-store.ts:88-104 | a retried create, which skips the quota check, leaves the pair within its quota if and only if the growth of its blob fits |
| BlobStore.RetryExceedsQuota | src/volenet/src/blob-store.ts:80-101 | on a store whose quota is below its blob limit, creating one transfer twice takes its pair one byte over the quota |
| BlobStore.RelayBlobStore.constructor | src/volenet/src/blob-store.ts:45-48 | a store started on the directory another left has the index that one had |
| BlobStore.RelayBlobStore.RestartFindsTheIndex | src/volenet/src/blob-store.ts:51-61 | after every operation the index equals what a restart would rebuild |
| BlobStore.RelayBlobStore.LoadExisting | src/volenet/src/blob-store.ts:51-61 | the loop over the directory rebuilds the index, skipping unreadable sidecars |
| BlobStore.RelayBlobStore.PairUsage | src/volenet/src/blob-store.ts:72-78 | the loop adds up the stored sizes of one pair |
| BlobStore.RelayBlobStore.Create | src/volenet/src/blob-store.ts:80-117 | a retry reuses the transfer's one blob, emptied, at its new size and with no quota check; a first request gets a blob if and only if the pair stays within quota with it |
| BlobStore.RetryKeeps | src/volenet/src/blob-store.ts:88-101 | a retried create keeps index, sidecars and one blob per transfer in step |
| BlobStore.FirstKeeps | src/volenet/src/blob-store.ts:102-117 | so does a first one |
| BlobStore.CompleteKeeps | src/volenet/src/blob-store.ts:129-140 | and completing, after which the blob's file is there |
| BlobStore.DeleteKeeps | src/volenet/src/blob-store.ts:157-170 | and deleting |
| BlobStore.OrphanKeeps | src/volenet/src/blob-store.ts:181-192 | and removing a file that no blob accounts for |
| BlobStore.RelayBlobStore.UploadWrites | src/volenet/src/blob-store.ts:123-126 | an upload touches only its partial file |
| BlobStore.RelayBlobStore.Complete | src/volenet/src/blob-store.ts:129-140 | completing succeeds if and only if the blob is known and has a partial file, which becomes its file |
| BlobStore.RelayBlobStore.StoredPath | src/volenet/src/blob-store.ts:152-155 | only a complete blob has a path, and then the file exists |
| BlobStore.RelayBlobStore.Delete | src/volenet/src/blob-store.ts:157-170 | the entry and all three files go, and nothing else |
| BlobStore.RelayBlobStore.Sweep | src/volenet/src/blob-store.ts:173-195 | exactly the expired blobs go, and afterwards exactly the files of live blobs are left, unchanged |
| BlobStore.RelayBlobStore.SweepOrphans | src/volenet/src/blob-store.ts:181-192 | exactly the files that belong to no indexed blob go |
| Notices.RestoreUndoesTake | src/volenet/src/chat-outbox.ts:193-219 | taken and put back around any attempts, each sender has the count, first and last it would have had without; the notice differs if and only if the sender tried meanwhile without a name and had one before |
| Notices.TakeAndRestore | src/volenet/src/chat-outbox.ts:169-219 | the store itself, through handing over, recording and putting back, ends with the notices just described |
| Notices.RecordedIsCapped | src/volenet/src/chat-outbox.ts:169-190 | recording never takes a member past 200 senders, keeps the sender it records, and evicts only one heard from longest ago |
| Notices.RestoringIsNotCapped | src/volenet/src/chat-outbox.ts:203-219 | putting back a sender that is not waiting always adds one, past any cap |
| Notices.RecordedTotal | src/volenet/src/chat-outbox.ts:169-190 | an attempt adds one to what waits, less the count it evicts |
| Notices.LatestFirstSorts | src/volenet/src/chat-outbox.ts:200 | the hand-over order is by latest attempt, with nothing lost, added or changed |
| Notices.RestoredFinds | src/volenet/src/chat-outbox.ts:203-219 | putting notices back merges each with the waiting one of its sender and touches no other |
| Notices.HitsMerge | src/volenet/src/chat-outbox.ts:169-219 | attempts counted from a notice are attempts counted without it and merged with it afterwards |
| Notices.RecordedTells | src/volenet/src/chat-outbox.ts:169-190 | after any attempts that evict nobody, each sender that tried has their number more, the time of its first and of its last one, and the last name one of them gave |
| Notices.RelayNotices.Record | src/volenet/src/chat-outbox.ts:169-190 | over any run, attempts recorded and put back are those waiting, handed over, evicted and expired; here one is recorded |
| Notices.RelayNotices.FindOldest | src/volenet/src/chat-outbox.ts:184-187 | the loop finds the first sender heard from longest ago |
| Notices.RelayNotices.Noted | src/volenet/src/chat-outbox.ts:175-189 | an attempt renews its sender's notice or makes room and adds one |
| Notices.RelayNotices.HandOver | src/volenet/src/chat-outbox.ts:193-200 | everything that waits is handed over, latest first, and counted as handed over |
| Notices.RelayNotices.Restore | src/volenet/src/chat-outbox.ts:203-219 | what is put back is merged and counted as restored |
| Notices.RelayNotices.PutBack | src/volenet/src/chat-outbox.ts:210-217 | the loop merges the notices one by one and adds up their counts |
| Notices.KeptOrExpired | src/volenet/src/chat-outbox.ts:230-239 | every waiting notice is kept or expires, and the counts of the two sides add up |
| Notices.ExpiredHolds | src/volenet/src/chat-outbox.ts:234-235 | what expires is exactly what was last heard from longer ago than the time limit |
| Notices.RelayNotices.Sweep | src/volenet/src/chat-outbox.ts:230-242 | in every member exactly the notices past their time go, and the attempts they stand for are written off as expired |
| Notices.RelayNotices.SweepMember | src/volenet/src/chat-outbox.ts:232-240 | one member of the sweep, which leaves the map when nothing is left |
| StdioFraming.SentIsParsedIffAscii | src/paw-sdk/src/transport.ts:184-247 | for every list of messages, the stream the sender writes parses back to exactly that list, with nothing left, if and only if every message is ASCII |
| StdioFraming.NextOfFrame | src/paw-sdk/src/transport.ts:204-209 | the parser cuts the message from a frame if it is ASCII and otherwise waits or cuts too much |
| StdioFraming.HeaderRoundTrip | src/paw-sdk/src/transport.ts:192-203 | the header the sender prints is read back as its number by the search for the length |
| StdioFraming.ContentLengthIff | src/paw-sdk/src/transport.ts:192-203 | a header announces a length if and only if its leftmost match of the name in any case, spaces and digits is that number; everything else in it is skipped |
| StdioFraming.HeaderEndIsFirst | src/paw-sdk/src/transport.ts:186-190 | a header ends at the first blank line |
| StdioFraming.ByteLengthIsLengthIffAscii | src/paw-sdk/src/transport.ts:245 | the byte length is never below the length in units and equals it exactly for ASCII |
| StdioFraming.ParseAppend | src/paw-sdk/src/transport.ts:184-218 | text that arrives later never changes what was already cut or skipped |
| StdioFraming.StdioTransport.Data | src/paw-sdk/src/transport.ts:179-182 | a chunk may arrive while loops wait for handlers; the buffer and what was cut stay the parse of everything fed |
| StdioFraming.StdioTransport.Resume | src/paw-sdk/src/transport.ts:211-214 | a loop that waited goes on with the buffer as other loops left it |
| StdioFraming.StdioTransport.Segment | src/paw-sdk/src/transport.ts:184-218 | one loop from start or wait to wait or end; it ends because the buffer shrinks, and leaves nothing to cut when it was the last |
| StdioFraming.StdioTransport.SplittingDoesNotMatter | src/paw-sdk/src/transport.ts:184-218 | whatever the chunks and the overlap of loops, the messages dispatched are those of the whole text in order, and all of them once no loop waits |
| StdioFraming.StdioTransport.DispatchesWhatWasSent | src/paw-sdk/src/transport.ts:184-247 | so ASCII messages are dispatched exactly as they were sent |
| Daemon.LinesAreDetermined | src/volenet-mcp/src/daemon.ts:66-71 | the lines of a text and what is left over do not depend on how it was split |
| Daemon.BufferedCut | src/volenet-mcp/src/daemon.ts:139-144 | a line cut off a reader's buffer is the next line the other side wrote, and the buffer stays in step |
| Daemon.LawfulCodecExists | src/volenet-mcp/src/daemon.ts:85-98 | the laws asked of the message codec can be met |
| Daemon.DaemonLink.AnswersAreOwn | src/volenet-mcp/src/daemon.ts:124-197 | in every reachable state a call settled by a reply has the daemon's answer to that very call |
| Daemon.DaemonLink.Ready | src/volenet-mcp/src/daemon.ts:169-171 | a call passes on a usable line, fails if there is no way to another, and else waits for one |
| Daemon.DaemonLink.Reconnect | src/volenet-mcp/src/daemon.ts:172-177 | only a call that found the line down replaces it, and then the new connection is in use whatever other calls did meanwhile |
| Daemon.DaemonLink.Call | src/volenet-mcp/src/daemon.ts:179-191 | a call gets an id that no call on any connection had, a waiter and one line on the connection in use |
| Daemon.DaemonLink.DaemonData | src/volenet-mcp/src/daemon.ts:65-72 | chunks may end anywhere; afterwards every request whose line has arrived whole is with its handler or answered, and the rest waits |
| Daemon.DaemonLink.CompleteIsBegun | src/volenet-mcp/src/daemon.ts:65-72 | in every reachable state between events the same: no complete request lies unhandled |
| Daemon.DaemonLink.DaemonLine | src/volenet-mcp/src/daemon.ts:66-103 | the next line is a call the daemon had not begun: the handler of a known operation starts, and an unknown one is answered at once with an error |
| Daemon.DaemonLink.Finish | src/volenet-mcp/src/daemon.ts:92-109 | each call is answered at most once, on the connection it came in on |
| Daemon.DaemonLink.ClientData | src/volenet-mcp/src/daemon.ts:139-155 | data on any connection, old or in use, settles only calls made on that connection, each with its own answer; and every call whose reply has arrived whole is settled afterwards |
| Daemon.DaemonLink.CompleteIsSettled | src/volenet-mcp/src/daemon.ts:139-155 | in every reachable state between events the same: no call waits whose reply line has arrived whole |
| Daemon.DaemonLink.ClientLine | src/volenet-mcp/src/daemon.ts:141-154 | the next reply settles the call of its id, with that reply unless it was settled before |
| Daemon.DaemonLink.Close | src/volenet-mcp/src/daemon.ts:157-164 | only the connection in use declares the line dead; the calls that wait on a connection are rejected by its close if and only if it is the one in use |
| Daemon.DaemonLink.Fail | src/volenet-mcp/src/daemon.ts:130-134 | the loop rejects whatever waits and nothing that is settled |
| Daemon.DaemonLink.WriteFailed | src/volenet-mcp/src/daemon.ts:184-190 | a write error rejects its call unless it is settled already |
| Daemon.StrandedCall | src/volenet-mcp/src/daemon.ts:157-177 | two calls that reconnect at once: the first one's connection is replaced, closes, and the call goes on waiting |

## Left out

- FileCrypto.ChunkNonce: indices from 2^64 on, where `writeBigUInt64BE` throws, are encoded modulo 2^64; the theorem about nonces is for indices below it.
- FileCrypto.EncryptChunk: a chunk whose ciphertext exceeds the 32-bit length prefix is excluded by `Channel.Sized`; Node's `writeUInt32BE` throws there.
- Envelope.Create: timestamps are integers below 10^21 in size, which is what the clock gives; fractional ones are not modelled.
- CanonicalJson.Canonical: BigInt values, `toJSON` methods (dates), cyclic payloads and arrays with holes, which sign as nothing and arrive as null, are not payloads here.
- CanonicalJson.Wire: transport is at the level of values, with no text parser for JSON of other shapes, duplicate keys or `__proto__`.
- Receive.Receiver.Attempt: an interrupt in the instant between the end of a stream and the first step of its landing is one before the landing.
- Receive.Receiver.Run: the grant, HTTP status codes and retry delays are one nondeterministic response; a pushed upload, which is one `ConsumeCipherStream` and one `FinalizeReceive`, is no run; the pull-to-push fallback after the last failure is in TransferTable only.
- Receive.Receiver.FinalizeReceive: the free name in the inbox and the rename into it are one step, so two receives that land at once under one name are not modelled.
- Leader.VoleNetLeader.Monitor: the exact count is stated for automatic election; with a forced leader its two elections may choose differently among peers of that name.
- Leader.VoleNetLeader.ChooseLeader: when two peers have the forced leader's name, either may be chosen; the code takes the first registered.
- Leader.FailoverBound: for automatic election and timers that fire in every span of their period; late timers add their lateness.
- TransferTable.VoleNetFiles.OnOffer: the duplicate test and the insertion are one step, although an `await` lies between them in the code.
- TransferTable.VoleNetFiles.OnPeerError: which errors count as an unreachable pull is a parameter.
- Inbox.Inbox.Add: one writer at a time; two processes that append the same id at once both succeed.
- Inbox.Watcher.Compact: requires that the lines dropped were read; a reader more than 2000 lines behind loses the rest.
- Inbox.Inbox.constructor: messages adopted from a store older than the log, torn log lines, and a cursor file that stops being readable after it was written.
- Inbox.Watcher.CursorRead: a cursor file that another process moved, after which what that process has shown is not delivered again.
- Inbox.RestOfPass: for a watcher that marks what it delivers; `markRead: false`, `onDelivered` and `waitForMessages` are left out.
- BlobStore.RelayBlobStore.Create: a random id is taken to be new; each operation's file steps are one step, so a crash between them is not modelled.
- BlobStore.RelayBlobStore.Sweep: the number of removed items is not returned.
- Notices.RelayNotices.HandOver: `take` is `Sweep` followed by this, two steps because of the `await` between them; writing and loading the notices file is left out.
- StdioFraming.StdioTransport.Segment: decoding UTF-8 chunks into text, and what handlers answer; lengths beyond 2^53 are exact here and rounded in the code, and wait for more text in both.
- Daemon.DaemonLink.Reconnect: how a daemon is reached or started, and the attach count with its callbacks. Not every call is settled, and none is claimed to be.
- seal.ts: key agreement, key derivation and sealing of the transfer key; the transfer key is given.
- The limiter on hub blob traffic has the shape of the one modelled.
- Dashboard, command line, installers, rooms, the result outbox, the chat outbox, remote tasks and orchestration: input and output, or easier versions of the above.
