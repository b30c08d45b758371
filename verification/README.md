# MPC-TLS, plaintext proofs and selective disclosure: a verified model

This project models the vendored TLSNotary stack (`tlsn/crates`) in Dafny and proves what it is
for. A prover (the *leader*) and a verifier (the *follower*) hold a TLS 1.2 connection together:
neither has the session keys, records are encrypted and decrypted in a shared virtual machine, and
at the end the verifier holds a transcript it can check and the prover can disclose in part.

Verify everything with `dafny verify dfyconfig.toml`.

| part | modules |
|---|---|
| Bytes, parties, counter mode | `Bytes`, `Parties`, `RecordTypes`, `Gctr`, `LocalAes`, `MpcAesGcm` |
| Record layer | `RecordOps`, `RecordLayer` (the object), `RecordLayerSpec` (its transitions), `RecordLayerRuns`, `RecordLayerTheorems` (whole runs), `RecordLayerLaws` (results written out) |
| Leader and follower | `MpcTls` (the two objects), `ProtocolSpec`, `Erasure`, `ProtocolTheorems`, `ProtocolLaws` (what is handed out, call by call), `ValidateTranscript` |
| Keystream and plaintext proofs | `ZkVm`, `CtrKeystream`, `ZkAes`, `GcmText`, `CommitRecords` |
| Transcripts and disclosure | `Ranges`, `TranscriptRefs`, `PartialTranscripts`, `ProofBuilder`, `Disclosure`, `TranscriptProofs`, `EndToEnd` |
| Dual execution | `DeapSpec`, `Deap`, `DeapTheorems` |
| Key exchange | `PrimeField`, `KeyExchange` |
| HMAC and PRF | `HmacSha256`, `Prf` |
| Attestations | `Attestation` |

How it is built. Objects the source updates in place are classes. Each of their methods states
exactly when it succeeds and ties the state it leaves to a transition on values; the theorems are
about those transitions and about whole runs of them. An error ends a run: the source drains
buffers and advances counters before it finds some errors, so no state is promised after one. A
panic of the source is an error of the model. The AES block function, the SHA-256 compression
function, GHASH tags, hashes and signatures are arbitrary functions, so every theorem holds
whatever they are. The shared virtual machine is one value both parties compute with: `inputs` of
a flush are the plaintexts it holds, which agree with every plaintext a party knows; for the rest
they are the leader's private assignments. Random pads and addresses chosen by a virtual machine
are parameters.

Where to look first:

- `RecordLayerTheorems.ScheduleIndependence`: when records are flushed, and whether they are
  decrypted in MPC or locally at the end, leaves no trace in the transcript.
- `ProtocolLaws.DeliversPlaintext` and `EmitsCiphertext`: what the TLS client is handed and what goes
  on the wire, over whole runs; `RecordLayerLaws.ProcessedIsAuthenticated`: nothing is processed
  without its right tag.
- `RecordLayerTheorems.PadChunksDisjoint` and `PadNeverExceeded`: no byte of the one-time pad hides
  two records, and the pad never runs out.
- `ProtocolTheorems.FollowerMirrorsLeader` and `ConnectionAgrees`: the follower is the leader with
  its secrets erased, message by message, up to the transcripts both commit to.
- `CommitRecords.ProofMeansDecryption`, `HonestProverAccepted`, `Disclosure.Receive` and
  `EndToEnd.DisclosureAccepted`: what was decrypted can be re-encrypted in zero knowledge to the
  very bytes on the wire, and any part of the transcript disclosed.
- `ProofBuilder.TranscriptProofBuilder.Build` and `Disclosure.ExactDisclosure`: a proof opens
  exactly what was asked for.
- `DeapTheorems.HonestLeaderPasses` and `PassedOutputsAreProven`: the equality check of dual
  execution accepts honest runs, and outputs that pass are the proven ones.
- `KeyExchange.PmsIsDiffieHellman`, `Prf.PHashIsStandard`, `Attestation.BuiltAnswersRequest`, `Attestation.RootBinds`.

What the code does that its documentation or its names do not say:

- The follower's check of a transcript never looks at the content type of the first record: it
  requires only that its visible plaintext opens with the right Finished message. Bytes after that
  message, and the level of a closing alert, are not looked at either.
- `opaque_into_parts` panics on payloads shorter than 24 bytes, and its own check of the nonce's
  length can never fail.
- The leader may set a server key more than once, or one that does not parse; its follower then
  fails (`ProtocolTheorems.SecondKeyRejected`). The follower mirrors the leader exactly when that
  does not happen.
- Whatever is committed may be asked for, but a proof opens whole commitments only: part of a
  committed range can be revealed to the builder and then fails to build
  (`ProofBuilder.PartOfLeafFails`).
- An attestation validates against its request exactly when the provider's algorithms are
  registered under their own ids (`Attestation.BuiltAnswersRequest`).

## Model

| member | source | states |
|---|---|---|
| `RecordLayerTheorems.ScheduleIndependence` | tlsn/crates/mpc-tls/src/record_layer.rs:375-606 | Two successful runs from the same allocation that make the same pushes and then commit end with the same transcript and the same released records, whenever they flushed, popped or started traffic and whichever flushes decrypted. |
| `RecordLayerTheorems.TranscriptFollowsPushes` | tlsn/crates/mpc-tls/src/record_layer.rs:520-606 | After any run that commits, both directions of the transcript hold exactly one record per push, in push order, each determined by its own position and push; so are the records released or still queued. |
| `RecordLayerTheorems.LeaderLearnsPlaintext` | tlsn/crates/mpc-tls/src/record_layer.rs:499-602 | The i-th received record of the leader has sequence number i, its type, nonce and ciphertext, and the GCTR decryption of that ciphertext, whether it was decrypted in MPC at a flush or locally at commit. |
| `RecordLayerTheorems.RunIsSafe` | tlsn/crates/mpc-tls/src/record_layer.rs:285-518 | On every run: sent, received and online bytes stay within their limits, both operation buffers within their bound, records followed by pending operations are numbered 0, 1, 2, ... in each direction, and no application data has been released before traffic started. |
| `RecordLayerTheorems.PoppedIsPrefix` | tlsn/crates/mpc-tls/src/record_layer.rs:353-372 | On every run the records popped so far are a prefix of what the pushes determine, in push order, each with its own ciphertext, tag and plaintext. |
| `RecordLayerTheorems.InputsAlwaysMatch` | tlsn/crates/mpc-tls/src/record_layer.rs:444-452 | In every reachable state the VM inputs of the pending encryptions have the announced lengths and agree with every plaintext this party knows, so the precondition of a flush always holds. |
| `RecordLayerTheorems.PadSlack` | tlsn/crates/mpc-tls/src/record_layer/decrypt.rs:22-39 | On every leader run that makes exactly application data private, the pad left plus the bytes privately decrypted in MPC is the online limit, the pad left covers all of the online limit not yet used, and it is a prefix of the original pad. |
| `RecordLayerTheorems.PadNeverExceeded` | tlsn/crates/mpc-tls/src/record_layer/decrypt.rs:28-36 | On those runs a flush that passes the online-quota check needs no more pad than is left, so the error for an exceeded pad cannot be reached. |
| `RecordLayerTheorems.MasksArePadChunks` | tlsn/crates/mpc-tls/src/record_layer/decrypt.rs:22-39 | On every leader run, each private record decrypted in MPC was hidden from the follower by the slice of the original pad that its position in the session determines, as long as its ciphertext; public records by nothing. |
| `RecordLayerTheorems.PadChunksDisjoint` | tlsn/crates/mpc-tls/src/record_layer/decrypt.rs:28-39 | On every leader run, the slices of the pad that hid two private records do not overlap: the later record's lies wholly before the earlier one's, both inside the original pad. |
| `RecordLayerTheorems.MaskShifts` | tlsn/crates/mpc-tls/src/record_layer/decrypt.rs:28-39 | The chunk a record gets from what is left of the pad is the chunk of the whole pad for its position in the session: batching does not show. |
| `RecordLayerTheorems.TextsDisjoint` | tlsn/crates/mpc-tls/src/record_layer/aead/aes_gcm.rs:198-259 | No two private records sent are given overlapping VM text; a later one lies before an earlier one, all inside the allocation. |
| `RecordLayerLaws.LeaderPopsPlaintext` | tlsn/crates/mpc-tls/src/record_layer.rs:353-372 | On every leader run the i-th record popped has the type and version of the i-th ciphertext pushed and, as its plaintext, the GCTR decryption of that ciphertext under its nonce. |
| `RecordLayerLaws.FollowerPopsPublic` | tlsn/crates/mpc-tls/src/record_layer.rs:353-372 | On every follower run it has that plaintext exactly when it is public, and none otherwise. |
| `RecordLayerLaws.CommittedPlaintexts` | tlsn/crates/mpc-tls/src/record_layer.rs:582-598 | After a leader's commit, what was popped and what still can be is one such plaintext for every ciphertext pushed, in order. |
| `RecordLayerLaws.LeaderEmitsCiphertext` | tlsn/crates/mpc-tls/src/record_layer.rs:474-497 | On every leader run the i-th record emitted has i as its nonce, the GCTR encryption of the i-th plaintext pushed, and the tag of that ciphertext with its own number, type, version and length. |
| `RecordLayerLaws.CommittedCiphertexts` | tlsn/crates/mpc-tls/src/record_layer.rs:520-606 | After a commit there is one such record for every plaintext pushed, in order. |
| `RecordLayerLaws.SentRecordIs` | tlsn/crates/mpc-tls/src/record_layer.rs:474-497 | The i-th sent record of a committed transcript: number i, the plaintext this party knows, its VM text if private, nonce i and the GCTR ciphertext. |
| `RecordLayerLaws.FlushTakes` | tlsn/crates/mpc-tls/src/record_layer.rs:407-517 | A flush takes all pending encrypts and a prefix of the pending decrypts: all when decrypting, else exactly those before the first application data. Each becomes one record and one output, old ones stay in front, and the online quota is charged only when decrypting. |
| `RecordLayerLaws.FlushWhen` | tlsn/crates/mpc-tls/src/record_layer.rs:421-472 | It succeeds exactly when online and, if anything is taken, the quota, text, keystream, pad, tag masks and hash-key powers suffice, nonces have eight bytes, and the tag of every taken record is right. |
| `RecordLayerLaws.CommitWhen` | tlsn/crates/mpc-tls/src/record_layer.rs:520-580 | A commit succeeds exactly when online, nothing is left to encrypt, every pending tag is right, and masks and keystream for public records suffice. |
| `RecordLayerLaws.ProcessedIsAuthenticated` | tlsn/crates/mpc-tls/src/record_layer/decrypt.rs:133-160 | On every run, a received record is processed only if its tag is the one of its own sequence number, type, version, nonce and ciphertext. |
| `RecordLayerLaws.CommittedIsAuthenticated` | tlsn/crates/mpc-tls/src/record_layer.rs:551-563 | A run commits only if that holds of every record pushed. |
| `RecordLayerLaws.AcceptedWhen` | tlsn/crates/mpc-tls/src/record_layer.rs:285-372 | Pushes are accepted exactly while fewer than 1022 operations are pending and the limit is kept; records leave exactly when they are not application data or traffic has started. |
| `RecordLayerLaws.AllocatesLimits` | tlsn/crates/mpc-tls/src/record_layer.rs:161-189 | An allocation sets the three limits to the given lengths, whole blocks of text and one mask per record for each direction, and the pad for the leader alone. |
| `RecordTypes.AadReads` | tlsn/crates/mpc-tls/src/record_layer.rs:608-633 | Number, type, version and length can be read back from the thirteen bytes of additional data, in the order of section 6.2.3.3 of RFC 5246. |
| `RecordLayerRuns.AllocIsFresh` | tlsn/crates/mpc-tls/src/record_layer.rs:138-192 | An allocation of a new record layer leaves the state that runs start from: empty buffers, zero counters, and for the leader alone a pad of the online length. |
| `RecordLayerRuns.BeginInv` | tlsn/crates/mpc-tls/src/record_layer.rs:138-192 | The run invariant holds right after allocation. |
| `RecordLayerRuns.StepKeepsInv` | tlsn/crates/mpc-tls/src/record_layer.rs:280-518 | Every successful call keeps the invariant tying counters, quotas, records, pending operations, pad, VM text and queues to the history of pushes and pops. |
| `RecordLayerRuns.RunKeepsInv` | tlsn/crates/mpc-tls/src/record_layer.rs:280-518 | So the invariant holds after every successful run. |
| `RecordLayerRuns.WithinKept` | tlsn/crates/mpc-tls/src/record_layer.rs:285-350 | Quotas, buffer limits and sequence numbers stay tied to what was pushed, call by call. |
| `RecordLayerRuns.SendsKept` | tlsn/crates/mpc-tls/src/record_layer.rs:444-497 | Sent records, pending encryptions and emitted records stay the pushes in order, with text references that depend on position alone. |
| `RecordLayerRuns.ReceivesKept` | tlsn/crates/mpc-tls/src/record_layer.rs:407-515 | The same for received records; the pad left stays the original pad minus what was privately decrypted. |
| `RecordLayerRuns.TextRefShifts` | tlsn/crates/mpc-tls/src/record_layer/aead/aes_gcm.rs:198-259 | The text an operation of a batch is given is the one its position in the whole session determines: batching does not show. |
| `RecordLayerRuns.HeldKept` | tlsn/crates/mpc-tls/src/record_layer.rs:353-372 | No call releases application data before traffic has started. |
| `RecordLayerTheorems.ChargedKept` | tlsn/crates/mpc-tls/src/record_layer.rs:426-436 | When exactly application data is private, everything privately decrypted in MPC has been charged to the online quota, and every call keeps that. |
| `RecordLayer.RecordLayer.constructor` | tlsn/crates/mpc-tls/src/record_layer.rs:104-125 | A new layer has nothing allocated, empty buffers and zero counters, and no keys. |
| `RecordLayer.RecordLayer.SetKeys` | tlsn/crates/mpc-tls/src/record_layer.rs:219-242 | Both AEADs and the local decrypter have their keys afterwards; nothing else of the layer changes. |
| `RecordLayer.RecordLayer.Alloc` | tlsn/crates/mpc-tls/src/record_layer.rs:138-192 | Succeeds exactly in the initial state with keys set and non-zero lengths; then the layer is online with the limits raised by the given lengths and, for the leader only, the pad it drew. |
| `RecordLayer.RecordLayer.AllocCiphers` | tlsn/crates/mpc-tls/src/record_layer.rs:161-179 | Both AEADs get whole blocks for their lengths and one tag mask per record, and the local decrypter is allocated. |
| `RecordLayer.RecordLayer.Setup` | tlsn/crates/mpc-tls/src/record_layer.rs:245-267 | Succeeds exactly when both AEADs are allocated and not yet set up, and makes them ready without changing anything else. |
| `RecordLayer.RecordLayer.StartTraffic` | tlsn/crates/mpc-tls/src/record_layer.rs:280-283 | Only the traffic flag changes. |
| `RecordLayer.RecordLayer.PushEncrypt` | tlsn/crates/mpc-tls/src/record_layer.rs:285-316 | Accepted exactly when the buffer has room, the send limit is kept, a known plaintext has the given length and a public one is known; then one operation with the next number, its nonce and additional data is appended and the bytes are charged. |
| `RecordLayer.RecordLayer.PushDecrypt` | tlsn/crates/mpc-tls/src/record_layer.rs:318-350 | Accepted exactly when the buffer has room and the receive limit is kept; then one operation with the next number is appended and the bytes are charged. |
| `RecordLayer.RecordLayer.NextWrite` | tlsn/crates/mpc-tls/src/record_layer.rs:608-620 | Hands out the current write number, its 8-byte big-endian nonce and the TLS 1.2 additional data, and advances the number by one. |
| `RecordLayer.RecordLayer.NextRead` | tlsn/crates/mpc-tls/src/record_layer.rs:622-633 | Hands out the current read number and its additional data, and advances the number by one. |
| `RecordLayer.RecordLayer.NextEncrypted` | tlsn/crates/mpc-tls/src/record_layer.rs:353-361 | Releases the front record unless the queue is empty or the front is application data before traffic; everything else stays. |
| `RecordLayer.RecordLayer.NextDecrypted` | tlsn/crates/mpc-tls/src/record_layer.rs:364-372 | Likewise for decrypted records. |
| `RecordLayer.RecordLayer.Flush` | tlsn/crates/mpc-tls/src/record_layer.rs:375-518 | Succeeds exactly when the layer is online and the drained batch fits quota, text, keystream, pad, masks and hash-key powers and all received tags verify; then every drained operation has one record and one queued output in order, nothing else was consumed, and each private record was masked by its own chunk of the pad. |
| `RecordLayer.RecordLayer.Process` | tlsn/crates/mpc-tls/src/record_layer.rs:438-517 | The part of a flush after draining: the two batches are processed and their results appended in order, on both parties alike. |
| `RecordLayer.RecordLayer.Commit` | tlsn/crates/mpc-tls/src/record_layer.rs:520-606 | Succeeds exactly when online, no encryption is pending, the pending tags verify and public records have keystream left; then the transcript is the records so far followed by the pending ones decrypted. |
| `RecordLayer.RecordLayer.DecryptRest` | tlsn/crates/mpc-tls/src/record_layer.rs:565-598 | After the server key is revealed to the leader, the rest decrypts to the same plaintexts a flush would have given. |
| `RecordLayer.FlushedInTwo` | tlsn/crates/mpc-tls/src/record_layer.rs:407-453 | A flush with work to do is draining and charging first, then processing what was drained: it succeeds exactly when the quota check and the processing do. |
| `RecordLayer.RunBatch` | tlsn/crates/mpc-tls/src/record_layer.rs:444-472 | Encrypting one batch, decrypting another and computing and verifying tags succeeds exactly when both fit and all tags verify, and takes from each AEAD and from the pad exactly what the batch needs. |
| `RecordLayer.CollectEncrypted` | tlsn/crates/mpc-tls/src/record_layer.rs:474-497 | Reversing the computed tags and popping one per record gives each record the tag of its own ciphertext, in order. |
| `RecordLayer.CollectDecrypted` | tlsn/crates/mpc-tls/src/record_layer.rs:499-515 | Each decrypted output becomes one queued plaintext and one transcript record, in order. |
| `RecordLayer.VerifyPending` | tlsn/crates/mpc-tls/src/record_layer/decrypt.rs:133-160 | Accepts exactly when there is a mask for every record, every nonce has eight bytes and every tag is the one of its own record. |
| `RecordOps.EncryptOne` | tlsn/crates/mpc-tls/src/record_layer/encrypt.rs:20-97 | Takes text for whole blocks from the back; the pending output and the ciphertext its tag is computed over both come from the VM's input under the record's nonce. |
| `RecordOps.EncryptTexts` | tlsn/crates/mpc-tls/src/record_layer/encrypt.rs:99-130 | A batch fits exactly when its padded lengths do, and operation i's text starts where the padded lengths up to and including i end, counted from the back. |
| `RecordOps.Encrypt` | tlsn/crates/mpc-tls/src/record_layer/encrypt.rs:99-139 | With the tag masks: succeeds exactly when text and masks are there, and pairs every tag computation with its own nonce, additional data and ciphertext. |
| `RecordOps.EncryptOutput.TryEncrypt` | tlsn/crates/mpc-tls/src/record_layer/encrypt.rs:206-265 | A private output is the decoded ciphertext; a public one XORs keystream and plaintext and fails exactly on a length mismatch. |
| `RecordOps.PrivateMpc` | tlsn/crates/mpc-tls/src/record_layer/decrypt.rs:16-52 | The leader takes exactly the last bytes of the pad left as the chunk, and what is decoded is the keystream XOR that chunk; removing it yields the GCTR plaintext. Without a pad the result stays hidden. Fails exactly on exhausted pad or keystream or a bad nonce. |
| `RecordOps.PublicMpc` | tlsn/crates/mpc-tls/src/record_layer/decrypt.rs:54-70 | A public record yields the GCTR plaintext for both parties; an empty one is refused for want of keystream. |
| `RecordOps.DecryptMpc` | tlsn/crates/mpc-tls/src/record_layer/decrypt.rs:72-95 | A batch succeeds exactly when keystream and pad suffice for all of it; each output yields the plaintext this party may learn, and each private one is masked by the chunk of the pad its position in the batch determines. |
| `RecordOps.LastIsChunk` | tlsn/crates/mpc-tls/src/record_layer/decrypt.rs:28-39 | The last bytes of what is left of the pad are the chunk of the batch position. |
| `RecordOps.DecryptLocally` | tlsn/crates/mpc-tls/src/record_layer/decrypt.rs:97-131 | At commit private records yield the same plaintexts as in MPC without using keystream, public ones still take theirs. |
| `RecordOps.LocalOne` | tlsn/crates/mpc-tls/src/record_layer/decrypt.rs:97-131 | The leader decrypts a private record with its revealed key; the follower learns nothing and cannot fail. |
| `RecordOps.DecryptOutput.TryDecrypt` | tlsn/crates/mpc-tls/src/record_layer/decrypt.rs:212-297 | Resolves a decrypt output to the plaintext it yields, and fails exactly when none is determined. |
| `RecordOps.YieldsOnce` | tlsn/crates/mpc-tls/src/record_layer/decrypt.rs:212-297 | A decrypt output yields at most one plaintext. |
| `RecordOps.PadCancels` | tlsn/crates/mpc-tls/src/record_layer/decrypt.rs:233-254 | Masking the keystream with the pad in MPC and removing the pad locally leaves the keystream. |
| `RecordOps.VerifyTagsOf` | tlsn/crates/mpc-tls/src/record_layer/decrypt.rs:133-160 | Queues a tag check for every record with its own nonce, additional data, ciphertext and tag, and takes one mask each. |
| `RecordOps.RunVerify` | tlsn/crates/mpc-tls/src/record_layer/aead/ghash/verify.rs:46-129 | The queued check succeeds exactly when every record's tag is right. |
| `Gctr.ApplyIsGctr` | tlsn/crates/mpc-tls/src/record_layer/aes_ctr.rs:205-224 | The byte-indexed keystream both decryption paths use is the block-by-block GCTR of section 6.5 of NIST SP 800-38D started from inc32(J0) as in its section 7.1, 32-bit counter wrap included. |
| `Gctr.ApplyTwice` | tlsn/crates/mpc-tls/src/record_layer/aes_ctr.rs:205-224 | Encryption and decryption under the same nonce undo each other. |
| `Gctr.GctrRefByte` | tlsn/crates/mpc-tls/src/record_layer/aes_ctr.rs:205-224 | Byte j of block q of the standard's GCTR uses counter start + q modulo 2^32. |
| `LocalAes.SeekableCtr.ApplyKeystream` | tlsn/crates/mpc-tls/src/record_layer/aes_ctr.rs:211-223 | XORs the stream into the buffer in place from the current position on, and advances by its length. |
| `LocalAes.SeekMatchesCounter` | tlsn/crates/mpc-tls/src/record_layer/aes_ctr.rs:211-223 | Seeking 32 bytes into a stream that counts from 0 starts it at counter 2, byte for byte. |
| `LocalAes.AesCtr.SetKey` | tlsn/crates/mpc-tls/src/record_layer/aes_ctr.rs:58-61 | Sets both references, to the key and the IV; the state machine does not move. |
| `LocalAes.AesCtr.Alloc` | tlsn/crates/mpc-tls/src/record_layer/aes_ctr.rs:63-106 | Succeeds exactly from the initial state with key and IV set; the leader's masked key and IV are the real ones XOR exactly the pads it drew, which it keeps; the follower draws none. |
| `LocalAes.AesCtr.DecodeKey` | tlsn/crates/mpc-tls/src/record_layer/aes_ctr.rs:108-132 | Only from the allocated state, and keeps the pads for later removal. |
| `LocalAes.AesCtr.FinishDecode` | tlsn/crates/mpc-tls/src/record_layer/aes_ctr.rs:134-179 | Only from the decoding state; the leader then holds exactly the session's key and IV, the follower nothing. |
| `LocalAes.AesCtr.Decrypt` | tlsn/crates/mpc-tls/src/record_layer/aes_ctr.rs:181-224 | The leader's seek-based local decryption is the GCTR decryption of section 3 of RFC 5288 for the record's nonce; it fails exactly in another state, for the follower or on a nonce that is not eight bytes. |
| `MpcAesGcm.MpcAesGcm.Alloc` | tlsn/crates/mpc-tls/src/record_layer/aead/aes_gcm.rs:84-140 | Succeeds exactly once, with the key set and a non-empty length; the buffers then hold whole blocks and one mask per record. |
| `MpcAesGcm.MpcAesGcm.Setup` | tlsn/crates/mpc-tls/src/record_layer/aead/aes_gcm.rs:160-186 | Succeeds exactly after allocation. |
| `MpcAesGcm.MpcAesGcm.ApplyKeystream` | tlsn/crates/mpc-tls/src/record_layer/aead/aes_gcm.rs:198-259 | Hands out the last whole blocks of text with the GCTR keystream of the given nonce, exactly when ready, the nonce has eight bytes and enough is left. |
| `GcmText.StreamDecodes` | tlsn/crates/mpc-tls/src/record_layer/aead/aes_gcm.rs:269-318 | Blocks that were given the nonce and the counters from 2 decode to the GCTR keystream of the record, byte for byte. |
| `GcmText.TextEncrypts` | tlsn/crates/mpc-tls/src/record_layer/aead/aes_gcm.rs:198-259 | The output handed out with a text decodes, once the text is committed, to the text XOR that keystream. |
| `GcmText.GcmText.Alloc` | tlsn/crates/mpc-tls/src/record_layer/aead/aes_gcm.rs:118-137 | Input, keystream and output of the length rounded up to whole blocks, in lock step. |
| `GcmText.GcmText.ApplyKeystream` | tlsn/crates/mpc-tls/src/record_layer/aead/aes_gcm.rs:198-259 | Built on the cipher's blocks: the text is the last whole blocks left, free to be assigned, and wired to its output under the nonce; succeeds exactly when ready, the nonce has eight bytes and enough is left. |
| `GcmText.GcmText.TakeKeystream` | tlsn/crates/mpc-tls/src/record_layer/aead/aes_gcm.rs:269-318 | Built on the cipher's blocks: the vector handed out is the start of the nonce's keystream, its text and output are dropped, the rest stays in lock step; an empty one is refused. |
| `MpcAesGcm.MpcAesGcm.TakeKeystream` | tlsn/crates/mpc-tls/src/record_layer/aead/aes_gcm.rs:269-318 | The keystream alone; an empty one is refused. |
| `MpcAesGcm.MpcAesGcm.TakeMasks` | tlsn/crates/mpc-tls/src/record_layer/aead/aes_gcm.rs:330-427 | One mask per tag, exactly when ready, enough are left and every nonce has eight bytes. |
| `MpcAesGcm.ComputeTags.Run` | tlsn/crates/mpc-tls/src/record_layer/aead/ghash/compute.rs:44-114 | Succeeds exactly when every record fits the hash-key powers; the leader then learns the tag of every record in order, the follower none. |
| `MpcAesGcm.VerifyTags.Run` | tlsn/crates/mpc-tls/src/record_layer/aead/ghash/verify.rs:46-129 | Succeeds exactly when every record fits and every given tag is the computed one. |
| `ProtocolTheorems.LeaderIsSafe` | tlsn/crates/mpc-tls/src/leader.rs:612-951 | On every successful sequence of calls on a leader: quotas, buffers and numbering hold, everything queued is complete, the pad covers what is left of the online quota, and nothing is pending once closed. |
| `ProtocolTheorems.CallKeepsInv` | tlsn/crates/mpc-tls/src/leader.rs:274-951 | Every successful call keeps the leader's invariant, across the handshake, active and closed phases. |
| `ProtocolTheorems.LeaderStarts` | tlsn/crates/mpc-tls/src/leader.rs:132-270 | The invariant holds after allocation and preprocessing. |
| `ProtocolTheorems.CallIsEvent` | tlsn/crates/mpc-tls/src/leader.rs:695-951 | Every call acts on the record layer as at most one of its operations, with nonce, ciphertext, tag and mode taken from the message. |
| `ProtocolTheorems.FollowerMirrorsLeader` | tlsn/crates/mpc-tls/src/follower.rs:250-378 | The follower accepts everything a successful leader run sends exactly when at most one server key was set and it parses; its state is then the leader's with private plaintexts, tags and pad erased. |
| `ProtocolTheorems.SecondKeyRejected` | tlsn/crates/mpc-tls/src/follower.rs:263-275 | A leader may set a server key twice, and its follower then always fails. |
| `ProtocolTheorems.KeyRejected` | tlsn/crates/mpc-tls/src/follower.rs:263-275 | From any mirrored state: a second key, or one that does not parse, makes the follower fail. |
| `ProtocolTheorems.MirrorCall` | tlsn/crates/mpc-tls/src/follower.rs:250-378 | From any mirrored state: the follower takes what one call sends and mirrors the leader again. |
| `ProtocolTheorems.AllocationsPair` | tlsn/crates/mpc-tls/src/follower.rs:102-155 | Two parties that allocate with the same configuration start as each other's mirror image. |
| `ProtocolTheorems.ConnectionAgrees` | tlsn/crates/mpc-tls/src/leader.rs:274-328 | For a closed connection: the leader's transcript is determined by what was pushed; the follower ends exactly when one server key was set, with the same key and every record equal but for the plaintexts of application data; and it accepts exactly when both directions are sessions opening with the verify data the TLS client was given. |
| `ProtocolTheorems.ClosedBy` | tlsn/crates/mpc-tls/src/leader.rs:274-328 | When a leader has closed, transcript and all released or queued records are determined by the calls made on it. |
| `ProtocolTheorems.LeaderHistory` | tlsn/crates/mpc-tls/src/leader.rs:695-843 | The pushes in the record layer and the key in force are exactly those of the calls, in order. |
| `ProtocolTheorems.SentShows` | tlsn/crates/mpc-tls/src/follower.rs:364-395 | Every sent record of the follower tells all of the leader's but the plaintext of application data. |
| `ProtocolTheorems.RecvShows` | tlsn/crates/mpc-tls/src/follower.rs:364-395 | And every received one. |
| `ProtocolTheorems.EmittedFrame` | tlsn/crates/mpc-tls/src/leader.rs:860-869 | The payload emitted for the i-th record parses back into its nonce, its ciphertext and the tag of that very ciphertext. |
| `ProtocolTheorems.FramedParts` | tlsn/crates/mpc-tls/src/utils.rs:7-19 | Splitting a frame gives back the nonce, ciphertext and tag it was made of. |
| `ProtocolTheorems.PartsFramed` | tlsn/crates/mpc-tls/src/utils.rs:7-19 | And every payload of at least 24 bytes is the frame of the parts it is split into. |
| `ProtocolLaws.DeliversPlaintext` | tlsn/crates/mpc-tls/src/leader.rs:755-788 | On every run of the leader, the i-th message next_incoming hands out has the type and version of the i-th push_incoming, and as payload the GCTR decryption of the bytes between the first eight, its nonce, and the last sixteen. |
| `ProtocolLaws.EmitsCiphertext` | tlsn/crates/mpc-tls/src/leader.rs:846-880 | On every run, the i-th message next_outgoing hands out is nonce i, the GCTR encryption of the i-th push_outgoing and the tag of that ciphertext, one after the other. |
| `ProtocolLaws.CallsAccepted` | tlsn/crates/mpc-tls/src/leader.rs:274-912 | The phase and inputs each call requires, call by call. |
| `ProtocolLaws.SettersDo` | tlsn/crates/mpc-tls/src/leader.rs:347-512 | What each handshake setter changes and sends, and that it changes nothing else. |
| `ProtocolLaws.HandshakeDoes` | tlsn/crates/mpc-tls/src/leader.rs:526-692 | The same for verify data, preparing encryption, starting traffic and deferring decryption. |
| `ProtocolLaws.PushesTell` | tlsn/crates/mpc-tls/src/leader.rs:695-843 | The follower is told the parts of what is received, and of what is sent everything but the bytes of application data. |
| `ProtocolLaws.FlushDoes` | tlsn/crates/mpc-tls/src/leader.rs:906-951 | A flush does and sends nothing before encryption is prepared or when both buffers are empty; otherwise it flushes with the current flag and sends it. |
| `ProtocolLaws.MessagesAccepted` | tlsn/crates/mpc-tls/src/follower.rs:249-369 | Each message's guard: nothing twice, the order of the PRF, a P-256 key that parses, and the layer's limits. |
| `ProtocolLaws.MessagesDo` | tlsn/crates/mpc-tls/src/follower.rs:249-369 | What each handshake message leaves, and nothing else. |
| `ProtocolLaws.AcceptsWhen` | tlsn/crates/mpc-tls/src/follower.rs:376-386 | A connection accepted opens with both Finished messages, and all but the last later records are application data. |
| `Erasure.ErasePushEncrypt` | tlsn/crates/mpc-tls/src/follower.rs:338-348 | Pushing to an erased layer what the leader shows is erasing the leader's layer after its push; and it is accepted. |
| `Erasure.EraseFlush` | tlsn/crates/mpc-tls/src/follower.rs:364-369 | If the leader's flush succeeds so does the follower's, and flushing commutes with erasure. |
| `Erasure.EraseCommit` | tlsn/crates/mpc-tls/src/follower.rs:370-378 | Committing commutes with erasure, and the follower's transcript is the leader's erased. |
| `Erasure.EraseSent` | tlsn/crates/mpc-tls/src/record_layer/encrypt.rs:99-139 | Emitted records and sent records of the two parties differ by exactly tags and private plaintexts. |
| `Erasure.EraseReceived` | tlsn/crates/mpc-tls/src/record_layer/decrypt.rs:72-131 | Received records of the two parties differ by exactly the private plaintexts. |
| `Erasure.ErasePop` | tlsn/crates/mpc-tls/src/record_layer.rs:353-372 | Popping at the leader leaves the mirror image as it is, since the follower pops nothing. |
| `MpcTls.OpaqueIntoParts` | tlsn/crates/mpc-tls/src/utils.rs:7-19 | Succeeds exactly on payloads of at least 24 bytes (shorter ones panic) and splits them so that framing the parts gives the payload. |
| `MpcTls.MpcTlsLeader.constructor` | tlsn/crates/mpc-tls/src/leader.rs:67-129 | A new leader is in its initial phase with an untouched record layer. |
| `MpcTls.MpcTlsLeader.Alloc` | tlsn/crates/mpc-tls/src/leader.rs:132-188 | Succeeds exactly once and with non-zero limits; the record layer is then allocated with the configured limits. |
| `MpcTls.MpcTlsLeader.Preprocess` | tlsn/crates/mpc-tls/src/leader.rs:192-270 | Only after allocation; the leader is then ready for the handshake. |
| `MpcTls.MpcTlsLeader.SetProtocolVersion` | tlsn/crates/mpc-tls/src/leader.rs:347-362 | Accepted exactly during the handshake; records the value, sends nothing, changes nothing else. |
| `MpcTls.MpcTlsLeader.SetCipherSuite` | tlsn/crates/mpc-tls/src/leader.rs:364-376 | Accepted exactly during the handshake; records the value, sends nothing, changes nothing else. |
| `MpcTls.MpcTlsLeader.SetServerCertDetails` | tlsn/crates/mpc-tls/src/leader.rs:476-494 | Accepted exactly during the handshake; records the value, sends nothing, changes nothing else. |
| `MpcTls.MpcTlsLeader.SetServerKxDetails` | tlsn/crates/mpc-tls/src/leader.rs:496-512 | Accepted exactly during the handshake; records the value, sends nothing, changes nothing else. |
| `MpcTls.MpcTlsLeader.SetServerRandom` | tlsn/crates/mpc-tls/src/leader.rs:418-449 | Accepted exactly during the handshake and once, as the PRF takes only one; sent to the follower. |
| `MpcTls.MpcTlsLeader.SetServerKeyShare` | tlsn/crates/mpc-tls/src/leader.rs:452-474 | Accepted during the handshake for a P-256 key, any number of times; sent to the follower each time, the last one counts. |
| `MpcTls.MpcTlsLeader.GetServerFinishedVd` | tlsn/crates/mpc-tls/src/leader.rs:526-566 | Needs a 32-byte hash and the client's turn over; sends the hash and returns the twelve bytes the VM computes for the server side. |
| `MpcTls.MpcTlsLeader.GetClientFinishedVd` | tlsn/crates/mpc-tls/src/leader.rs:569-609 | Needs a 32-byte hash after the server random; sends the hash and returns the twelve bytes for the client side. |
| `MpcTls.MpcTlsLeader.PrepareEncryption` | tlsn/crates/mpc-tls/src/leader.rs:612-692 | Succeeds exactly when everything of the handshake is set, the key parses and the layer can be set up; the leader is then active. |
| `MpcTls.MpcTlsLeader.PushIncoming` | tlsn/crates/mpc-tls/src/leader.rs:695-752 | Pushes the parts of the payload with the mode its type calls for and sends the same parts to the follower. |
| `MpcTls.MpcTlsLeader.NextIncoming` | tlsn/crates/mpc-tls/src/leader.rs:755-788 | Returns the next released record with its plaintext, which is always known, and sends nothing. |
| `MpcTls.MpcTlsLeader.PushOutgoing` | tlsn/crates/mpc-tls/src/leader.rs:791-843 | Pushes the plaintext and sends the follower its length, and its bytes only when the type is not application data. |
| `MpcTls.MpcTlsLeader.NextOutgoing` | tlsn/crates/mpc-tls/src/leader.rs:846-880 | Returns the next released record framed as nonce, ciphertext and tag; the tag is always known. |
| `MpcTls.MpcTlsLeader.StartTraffic` | tlsn/crates/mpc-tls/src/leader.rs:882-903 | Starts traffic in the layer and tells the follower. |
| `MpcTls.MpcTlsLeader.Flush` | tlsn/crates/mpc-tls/src/leader.rs:906-951 | Does and sends nothing before encryption is prepared or with nothing pending; otherwise flushes with the current deferral and sends that flag. |
| `MpcTls.MpcTlsLeader.CloseConnection` | tlsn/crates/mpc-tls/src/leader.rs:274-328 | Commits the layer, tells the follower and keeps the transcript; possible exactly when active and the commit succeeds. |
| `MpcTls.MpcTlsLeader.DeferDecryption` | tlsn/crates/mpc-tls/src/leader.rs:332-337 | Later flushes leave application data for the commit; nothing else changes. |
| `MpcTls.MpcTlsFollower.constructor` | tlsn/crates/mpc-tls/src/follower.rs:43-99 | A new follower has received nothing. |
| `MpcTls.MpcTlsFollower.Alloc` | tlsn/crates/mpc-tls/src/follower.rs:102-155 | Allocates as the leader does but without a pad, and is then ready to run. |
| `MpcTls.MpcTlsFollower.Receive` | tlsn/crates/mpc-tls/src/follower.rs:247-374 | A message is taken exactly when its guard holds (no repeats, P-256 keys that parse, the PRF's order, the layer's conditions), and the state it leaves is a function of the message. |
| `MpcTls.MpcTlsFollower.Finish` | tlsn/crates/mpc-tls/src/follower.rs:370-396 | After the close: succeeds exactly when the commit does, key and both verify data are present and the transcript is valid; returns the key and the transcript. |
| `MpcTls.MpcTlsFollower.Run` | tlsn/crates/mpc-tls/src/follower.rs:229-396 | The message loop ends well exactly when every message up to the close is taken and the connection is accepted; messages after the close are not looked at. |
| `ValidateTranscript.ValidateTranscript` | tlsn/crates/mpc-tls/src/follower.rs:444-586 | Accepts exactly when each direction is: a first record whose visible plaintext opens with the Finished message of that side's verify data, then application data, then at most one visible close notify. |
| `ValidateTranscript.SessionWhen` | tlsn/crates/mpc-tls/src/follower.rs:508-583 | The same record by record, with the bytes written out: header 20, 0, 0, 12 before the verify data, every record between first and last application data, the last one application data or an alert whose second byte is 0. |
| `ValidateTranscript.BackThenFront` | tlsn/crates/mpc-tls/src/follower.rs:508-583 | Looking at the last record first and then at the others from the front decides exactly that grammar. |
| `ValidateTranscript.CheckFinished` | tlsn/crates/mpc-tls/src/follower.rs:452-478 | Accepts exactly a visible plaintext that opens with the Finished message of section 7.4.9 of RFC 5246. |
| `ValidateTranscript.CheckLast` | tlsn/crates/mpc-tls/src/follower.rs:508-535 | Accepts exactly application data or a visible alert describing close notify. |
| `ValidateTranscript.CheckMiddle` | tlsn/crates/mpc-tls/src/follower.rs:566-583 | Accepts exactly when all records between the two ends are application data. |
| `ValidateTranscript.ReadFinished` | tlsn/crates/tls/core/src/msgs/handshake.rs:2180-2277 | Parses a Finished body exactly when the type byte is 20 and the declared length is there; what follows the body is not looked at. |
| `ValidateTranscript.RecordIter.Next` | tlsn/crates/mpc-tls/src/follower.rs:449-481 | Takes a record off the front of what is left. |
| `ValidateTranscript.RecordIter.NextBack` | tlsn/crates/mpc-tls/src/follower.rs:508-538 | Takes a record off the back of what is left. |
| `CtrKeystream.Keystream.New` | tlsn/crates/components/cipher/src/lib.rs:126-143 | Accepts exactly blocks whose outputs are contiguous in memory; others panic. |
| `CtrKeystream.Keystream.Consume` | tlsn/crates/components/cipher/src/lib.rs:153-163 | Takes the blocks for the length off the back exactly when enough are left; what remains and what was taken together are what was there. |
| `CtrKeystream.Keystream.Apply` | tlsn/crates/components/cipher/src/lib.rs:171-209 | For an input of exactly the keystream's non-zero length, output byte j is wired as keystream byte j XOR input byte j, the output being contiguous; nothing assigned or committed changes. |
| `CtrKeystream.Keystream.ToVector` | tlsn/crates/components/cipher/src/lib.rs:212-235 | The first bytes as one vector, exactly when they are non-empty and need all the blocks. |
| `CtrKeystream.Keystream.Assign` | tlsn/crates/components/cipher/src/lib.rs:245-264 | Gives block i the nonce and the 32-bit counter start + i, and touches nothing else. |
| `CtrKeystream.AllocKeystream` | tlsn/crates/components/cipher/src/aes/mod.rs:111-167 | Allocates all nonces and counters before any cipher call, so the outputs are contiguous, and byte j of the keystream is byte j mod 16 of block j / 16. |
| `ZkAes.ZkAesCtr.Alloc` | tlsn/crates/common/src/zk_aes.rs:45-71 | Succeeds exactly in the initial state with a key and a non-zero length; input, keystream and output then have the same padded length and are aligned position by position, none of it used. |
| `ZkAes.ZkAesCtr.Encrypt` | tlsn/crates/common/src/zk_aes.rs:93-153 | Succeeds exactly with an eight-byte nonce and enough whole blocks left; takes them off the back of all three buffers, which stay in lock step, and wires the output handed out as the encryption of the input handed out. |
| `ZkAes.LockStepSplit` | tlsn/crates/common/src/zk_aes.rs:118-131 | Taking blocks off the back leaves both the rest and the taken part in lock step, sharing no block. |
| `ZkAes.WiredComputes` | tlsn/crates/common/src/zk_aes.rs:93-153 | Whatever bytes are committed as plaintext, what the VM decodes as ciphertext is their GCTR encryption under the record's nonce, counting from 2. |
| `ZkAes.AssignInputs` | tlsn/crates/common/src/zk_aes.rs:133-150 | Assigning counters and zero padding completes the wiring of the blocks taken and leaves the plaintext and the rest free. |
| `ZkAes.AllocatesLockStep` | tlsn/crates/common/src/zk_aes.rs:45-71 | Allocated one after the other, the buffers start in lock step. |
| `CommitRecords.Commit` | tlsn/crates/common/src/commit.rs:17-49 | A sequence of records is committed exactly when each may be and the sum of their lengths rounded up to whole blocks fits the allocation; each gets its own reference and an entry in the proof. |
| `CommitRecords.CommitOne` | tlsn/crates/common/src/commit.rs:22-46 | One record: its plaintext reference is committed, holds the prover's plaintext, and is wired to the ciphertext the proof will decode. |
| `CommitRecords.CommittableWhen` | tlsn/crates/common/src/commit.rs:22-42 | A record is committed once, under an eight-byte nonce; the prover needs its whole plaintext, the verifier none. |
| `CommitRecords.RecordProof.Verify` | tlsn/crates/common/src/commit.rs:61-76 | Succeeds exactly when every ciphertext reference decodes to its ciphertext. |
| `CommitRecords.ProofMeansDecryption` | tlsn/crates/common/src/commit.rs:61-76 | For either party, the proof verifies exactly when every committed plaintext is the GCTR decryption of its record's ciphertext. |
| `CommitRecords.HonestProverAccepted` | tlsn/crates/common/src/commit.rs:22-76 | A prover whose plaintexts come from decrypting the ciphertexts is always accepted: the re-encryption is the original ciphertext byte for byte. |
| `CommitRecords.RefsDisjoint` | tlsn/crates/common/src/zk_aes.rs:118-131 | No two committed records share text, and all of it lies in the allocation. |
| `TranscriptRefs.TranscriptRefs.Get` | tlsn/crates/common/src/transcript.rs:124-163 | None exactly when the index is non-empty and ends past the total length; otherwise the slices name exactly the indexed positions, in increasing order, whatever the record lengths. |
| `TranscriptRefs.ToTranscript` | tlsn/crates/common/src/transcript.rs:19-50 | Succeeds exactly when every application record has its plaintext; then each direction is their concatenation in order. |
| `TranscriptRefs.ToTranscriptRefs` | tlsn/crates/common/src/transcript.rs:53-82 | Succeeds exactly when every application record has its reference; then they are listed in order. |
| `TranscriptRefs.CollectPlaintexts` | tlsn/crates/common/src/transcript.rs:19-50 | One direction of it. |
| `TranscriptRefs.CollectRefs` | tlsn/crates/common/src/transcript.rs:53-82 | One direction of it. |
| `TranscriptRefs.RefsHoldTranscript` | tlsn/crates/common/src/transcript.rs:19-82 | If the VM holds every record's plaintext at its reference, position x of the transcript is the byte at the x-th address of the references. |
| `TranscriptRefs.ApplicationAt` | tlsn/crates/common/src/transcript.rs:19-50 | No application record is lost, added or moved: each one's plaintext starts right after those before it, and nothing else is in the transcript. |
| `TranscriptRefs.AllPresentWhen` | tlsn/crates/common/src/transcript.rs:19-82 | The transcript is complete exactly when every application record has its plaintext, the references exactly when every one has its reference. |
| `TranscriptRefs.SliceContributes` | tlsn/crates/common/src/transcript.rs:136-157 | Each step of the two-cursor walk appends exactly the addresses the current slice and range have in common. |
| `Ranges.Canonical` | tlsn/crates/core/src/transcript.rs:450-525 | Two indices with the same positions are equal: sorted ranges with gaps are a normal form. |
| `Ranges.GatherHas` | tlsn/crates/core/src/transcript.rs:110-124 | The positions gathered for an index are exactly those it holds. |
| `Ranges.GatherIncreases` | tlsn/crates/core/src/transcript.rs:110-124 | They are gathered in strictly increasing order. |
| `Ranges.GatherPicks` | tlsn/crates/core/src/transcript.rs:110-124 | The bytes gathered are the ones at the gathered positions. |
| `Ranges.UnionHas` | tlsn/crates/core/src/transcript.rs:508-515 | A union holds exactly the positions of either. |
| `Ranges.DifferenceHas` | tlsn/crates/core/src/transcript.rs:518-520 | A difference holds exactly the positions of the first that the second lacks. |
| `Ranges.SubsetHas` | tlsn/crates/core/src/transcript.rs:523-525 | Subset means every position is in the other. |
| `Ranges.LenIsAll` | tlsn/crates/core/src/transcript.rs:268-271 | An index within n positions has n of them exactly when it is the full range. |
| `PartialTranscripts.MergeDisclosed` | tlsn/crates/core/src/transcript.rs:338-370 | Merging two disclosures of one transcript is the disclosure of the union of their indices. |
| `PartialTranscripts.MergedAllDiscloses` | tlsn/crates/core/src/transcript.rs:338-370 | Merging any number of disclosures discloses exactly the positions of any of them. |
| `PartialTranscripts.MergeAnyOrder` | tlsn/crates/core/src/transcript.rs:338-370 | Any two orders of merging the same disclosures end in the same value. |
| `PartialTranscripts.SubsequenceDiscloses` | tlsn/crates/core/src/transcript.rs:377-388 | Merging a subsequence of the transcript is like merging the disclosure of its index. |
| `PartialTranscripts.CompressExpanded` | tlsn/crates/core/src/transcript.rs:194-239 | Compressing what a valid compressed value expands to gives that value back. |
| `PartialTranscripts.PartialTranscript.Reencode` | tlsn/crates/core/src/transcript.rs:194-239 | Expanding a valid compressed value and compressing the result is the identity. |
| `PartialTranscripts.ExpandCompressed` | tlsn/crates/core/src/transcript.rs:194-239 | Expanding what was compressed keeps every authenticated byte and zeroes all others. |
| `PartialTranscripts.CompleteWhen` | tlsn/crates/core/src/transcript.rs:268-271 | As many authenticated positions as bytes means every position is authenticated. |
| `PartialTranscripts.PlacedOnce` | tlsn/crates/core/src/transcript.rs:607-613 | What a scatter over ranges leaves is determined by the bytes and the index. |
| `PartialTranscripts.PartialTranscript.constructor` | tlsn/crates/core/src/transcript.rs:248-255 | All zeros, nothing authenticated. |
| `PartialTranscripts.PartialTranscript.ToPartial` | tlsn/crates/core/src/transcript.rs:136-154 | Discloses exactly the two indices: their bytes are kept, every other byte is zero. |
| `PartialTranscripts.PartialTranscript.Decompress` | tlsn/crates/core/src/transcript.rs:211-239 | The compressed bytes are at the authenticated positions in order, zeros elsewhere. |
| `PartialTranscripts.PartialTranscript.Compress` | tlsn/crates/core/src/transcript.rs:194-209 | The authenticated bytes in order with their indices and the lengths; always a valid compressed value. |
| `PartialTranscripts.PartialTranscript.IsComplete` | tlsn/crates/core/src/transcript.rs:268-271 | True exactly when every position of both directions is authenticated. |
| `PartialTranscripts.PartialTranscript.UnionTranscript` | tlsn/crates/core/src/transcript.rs:338-370 | Takes over the newly authenticated bytes, keeps those authenticated before, unites the indices. |
| `PartialTranscripts.PartialTranscript.UnionSubsequence` | tlsn/crates/core/src/transcript.rs:377-388 | The subsequence's bytes are at its positions, all others as before; the other direction is untouched. |
| `PartialTranscripts.PartialTranscript.SetUnauthed` | tlsn/crates/core/src/transcript.rs:395-402 | Every unauthenticated byte of both directions becomes the value; authenticated ones stay. |
| `PartialTranscripts.PartialTranscript.SetUnauthedRange` | tlsn/crates/core/src/transcript.rs:411-424 | The same within one range of one direction. |
| `PartialTranscripts.ScatterRanges` | tlsn/crates/core/src/transcript.rs:607-613 | Consecutive bytes spread over the ranges with a running offset: gathering at the index gives the bytes back, and nothing else changed. |
| `PartialTranscripts.CopyRanges` | tlsn/crates/core/src/transcript.rs:353-366 | Copying range by range changes exactly the indexed positions to the source's. |
| `PartialTranscripts.FillRanges` | tlsn/crates/core/src/transcript.rs:395-402 | Filling range by range changes exactly the indexed positions. |
| `PartialTranscripts.NewSubsequence` | tlsn/crates/core/src/transcript.rs:571-579 | Accepted exactly when there are as many bytes as positions. |
| `PartialTranscripts.GetSubsequence` | tlsn/crates/core/src/transcript.rs:110-124 | The bytes at the index exactly when it is in bounds; the length check inside cannot fail. |
| `PartialTranscripts.Compressed.Check` | tlsn/crates/core/src/transcript.rs:657-682 | Valid exactly when both byte counts match their indices and both indices are in bounds. |
| `ProofBuilder.TranscriptProofBuilder.Build` | tlsn/crates/core/src/transcript/proof.rs:322-401 | Terminates; on success the openings are committed leaves whose union is exactly the query in each direction; it succeeds exactly when the query can be covered by leaves inside it (or is empty), and a cover error reports the query minus everything coverable. |
| `ProofBuilder.CoverBy` | tlsn/crates/core/src/transcript/proof.rs:343-361 | Greedy covering chooses only candidates inside the query, covers exactly the coverable positions, and chooses none exactly when nothing is. |
| `ProofBuilder.BestOf` | tlsn/crates/core/src/transcript/proof.rs:343-361 | The candidate that covers most of what is left, or none when no candidate covers any. |
| `ProofBuilder.NewTree` | tlsn/crates/core/src/transcript/encoding/tree.rs:81-140 | Fails exactly on an index out of bounds; empty indices and repetitions are skipped, and the committed sets are exactly the union of the indices. |
| `ProofBuilder.TranscriptProofBuilder.constructor` | tlsn/crates/core/src/transcript/proof.rs:230-243 | The positions that may be revealed are exactly those some encoding or hash commitment holds. |
| `ProofBuilder.TranscriptProofBuilder.Reveal` | tlsn/crates/core/src/transcript/proof.rs:266-295 | Accepted exactly when in bounds and committed; a refusal leaves the query as it was and reports the missing positions. |
| `ProofBuilder.TranscriptProofBuilder.CommitmentKinds` | tlsn/crates/core/src/transcript/proof.rs:247-258 | Keeps the preferred kinds in order without repetitions; an empty list changes nothing. |
| `ProofBuilder.BuildOutcome` | tlsn/crates/core/src/transcript/proof.rs:322-401 | For a non-empty query and encodings first: success exactly when every position lies in a committed leaf inside the query, the openings then being leaves whose union is the query; otherwise an unsupported hash as next choice, or a report of exactly the positions in no such leaf. |
| `ProofBuilder.WholeLeavesOpen` | tlsn/crates/core/src/transcript/proof.rs:322-401 | A query that is a union of committed leaves can always be built with the default kinds. |
| `ProofBuilder.PartOfLeafFails` | tlsn/crates/core/src/transcript/proof.rs:744-776 | A part of one committed range may be revealed, yet building then fails with that part uncovered. |
| `Disclosure.VerifyOpenings` | tlsn/crates/core/src/transcript/encoding/proof.rs:46-123 | Accepts exactly openings within the size bound, in bounds and included; the result authenticates exactly the opened positions and, if the openings are true of a transcript, shows its bytes there and zeros elsewhere. |
| `Disclosure.ExactDisclosure` | tlsn/crates/core/src/transcript/proof.rs:322-401 | End to end: a proof built for a query shows the verifier the transcript at exactly the query, and nothing else. |
| `Disclosure.OpeningsExist` | tlsn/crates/core/src/transcript/encoding/tree.rs:158-199 | Every opening the builder picks is a committed leaf within the transcript, so it can be made. |
| `Disclosure.Receive` | tlsn/crates/verifier/src/verify.rs:24-93 | Accepts exactly when both lengths are the transcript's (in 32 bits) and, in both directions, every authenticated position lies in the transcript and its byte is the VM's there; neither reference lookup can fail. |
| `Disclosure.AcceptableWhen` | tlsn/crates/verifier/src/verify.rs:34-86 | Position by position, nothing of either direction escapes the comparison. |
| `Disclosure.DifferentByteRefused` | tlsn/crates/verifier/src/verify.rs:74-86 | One authenticated byte of either direction that is not the VM's is enough to be refused. |
| `Disclosure.AnyDiffers` | tlsn/crates/verifier/src/verify.rs:74-86 | On streams of equal length, reports a difference exactly when they are not the same. |
| `Disclosure.DecodeAll` | tlsn/crates/verifier/src/verify.rs:65-72 | The decoded slices concatenated are the VM's bytes at the slices' addresses. |
| `Disclosure.SameBytes` | tlsn/crates/verifier/src/verify.rs:74-86 | Equal streams mean that every authenticated byte is the VM's, and conversely. |
| `Disclosure.LookupInBounds` | tlsn/crates/verifier/src/verify.rs:35-55 | Once the length check has passed, the authenticated index lies within the references. |
| `Disclosure.HonestDisclosure` | tlsn/crates/verifier/src/verify.rs:24-93 | A disclosure of the transcript whose plaintexts the VM holds passes the comparison; its length passes too if it fits 32 bits. |
| `TranscriptProofs.VerifyWithProvider` | tlsn/crates/core/src/transcript/proof.rs:41-94 | Accepts exactly when the encoding proof verifies against an attested commitment and every hash proof opens an attested commitment inside the transcript, within the size bounds; the result authenticates exactly the opened positions and discloses any transcript all openings are true of. |
| `TranscriptProofs.MergeHashes` | tlsn/crates/core/src/transcript/proof.rs:64-91 | The hash openings, merged one after the other into what the encodings authenticated. |
| `TranscriptProofs.OpenedWithin` | tlsn/crates/core/src/transcript/proof.rs:62-91 | When all hash proofs verify, the committed lengths the bound counts are the lengths of the data opened. |
| `TranscriptProofs.VerifyHash` | tlsn/crates/core/src/transcript/hash.rs:59-76 | Accepts exactly data that hashes to the commitment with the proof's blinder and has the committed length. |
| `TranscriptProofs.HashProofsHonest` | tlsn/crates/core/src/transcript/hash.rs:59-76 | With a binding hash and commitments made to the transcript, every hash proof that verifies opens the transcript's own bytes. |
| `EndToEnd.DisclosureAccepted` | tlsn/crates/verifier/src/verify.rs:24-93 | Across components: after a closed connection and both parties' commitment to its received application records, the verifier's proof of encryption verifies, and whatever parts of the sent and received plaintexts the prover discloses, the verifier's comparison accepts against its own references (for lengths below 2^32). |
| `EndToEnd.ReceivedProved` | tlsn/crates/common/src/commit.rs:17-76 | The received direction: the verifier's proof verifies, both parties have the same references, and the VM holds the prover's plaintexts there. |
| `EndToEnd.SentProved` | tlsn/crates/common/src/transcript.rs:53-82 | The sent direction: the verifier has the prover's references, and the VM holds the plaintexts there. |
| `EndToEnd.SameRefs` | tlsn/crates/common/src/commit.rs:17-49 | References come from lengths alone, so both parties commit to the same ones. |
| `EndToEnd.VerifierDecrypts` | tlsn/crates/common/src/commit.rs:61-76 | What the verifier is blind to but the prover committed is the decryption of the verifier's own ciphertext. |
| `EndToEnd.ReceivedAreDecrypted` | tlsn/crates/mpc-tls/src/record_layer.rs:565-602 | Every application record the leader received carries the decryption of its ciphertext and no text reference yet, as committing requires. |
| `EndToEnd.CommittedHold` | tlsn/crates/common/src/commit.rs:17-49 | The prover's committed records hold their plaintexts in the VM where their references point. |
| `DeapTheorems.FollowerInputsAgree` | tlsn/crates/components/deap/src/lib.rs:241-277 | After any sequence of complementary calls both parties hold the same follower inputs, and none of them is committed in either zero-knowledge VM. |
| `DeapTheorems.StepKeeps` | tlsn/crates/components/deap/src/lib.rs:187-294 | Every joint step keeps: complementary marks, equal commitments, equal public data, the same outputs, and each party's two memories aligned. |
| `DeapTheorems.RunKeeps` | tlsn/crates/components/deap/src/lib.rs:187-294 | So after any joint run. |
| `DeapTheorems.RevealWhen` | tlsn/crates/components/deap/src/lib.rs:117-151 | Revealing succeeds for both parties exactly when every follower input was committed in MPC. |
| `DeapTheorems.InputsAgree` | tlsn/crates/components/deap/src/lib.rs:117-151 | After both have revealed, the zero-knowledge VM has at every shared address exactly the input the MPC VM had: each follower input is committed with the value decoded for that address. |
| `DeapTheorems.HonestLeaderPasses` | tlsn/crates/components/deap/src/lib.rs:153-176 | With an honest leader the follower's equality check passes, after any run. |
| `DeapTheorems.PassedOutputsAreProven` | tlsn/crates/components/deap/src/lib.rs:153-176 | Whatever the leader did: for any follower state, any outputs its MPC VM was made to show and any values the leader proved about as its own inputs, an output that passes is the evaluation of the follower's own inputs, the public ones and those values. |
| `DeapTheorems.ProvenIsKnown` | tlsn/crates/components/deap/src/lib.rs:133-151 | Once the follower has revealed its inputs, the inputs the zero-knowledge VM proves about are at every shared address those the follower knows, or the leader's choice where it is blind. |
| `DeapTheorems.KnownIsAuthentic` | tlsn/crates/components/deap/src/lib.rs:117-151 | If the leader proves about what it committed in MPC, these are the inputs of the MPC VM. |
| `DeapTheorems.PassedOutputsAreTrue` | tlsn/crates/components/deap/src/lib.rs:153-176 | Over a joint run with the leader's inputs the same in both machines, outputs that pass are the evaluation of what was committed in MPC. |
| `DeapSpec.SameChecks` | tlsn/crates/components/deap/src/lib.rs:187-277 | Whatever the MPC VM accepts to mark, assign or commit, the zero-knowledge VM accepts too, so the second call cannot fail after the first. |
| `DeapSpec.MarkKeeps` | tlsn/crates/components/deap/src/lib.rs:236-277 | Marking keeps the two memories aligned: follower inputs are public in zero knowledge, all else has the same mark. |
| `DeapSpec.MarksAt` | tlsn/crates/components/deap/src/lib.rs:236-277 | Address by address: the follower's private inputs are marked private by the follower, blind by the leader, public in zero knowledge by both, and recorded; every other mark is the same in both memories. |
| `DeapSpec.MarksElsewhere` | tlsn/crates/components/deap/src/lib.rs:236-277 | Nothing outside the range is marked or recorded. |
| `DeapSpec.CommitsAt` | tlsn/crates/components/deap/src/lib.rs:206-215 | Address by address: a commitment reaches the whole range in MPC and all but the follower's inputs in zero knowledge. |
| `DeapSpec.AssignsAt` | tlsn/crates/components/deap/src/lib.rs:198-204 | An assigned byte is the same in both memories. |
| `DeapSpec.AssignKeeps` | tlsn/crates/components/deap/src/lib.rs:198-204 | Assigning keeps them aligned. |
| `DeapSpec.CommitKeeps` | tlsn/crates/components/deap/src/lib.rs:206-215 | Committing keeps them aligned: everything but follower inputs is committed in both. |
| `DeapSpec.AllocKeeps` | tlsn/crates/components/deap/src/lib.rs:187-196 | Allocation and calls keep the address spaces equal. |
| `DeapSpec.ZkKeeps` | tlsn/crates/components/deap/src/lib.rs:72-97 | Direct use of the zero-knowledge VM past the shared addresses keeps everything shared as it is. |
| `Deap.Deap.AccessZk` | tlsn/crates/components/deap/src/lib.rs:72-97 | Marks the memories as parted; nothing shared changes. |
| `Deap.Deap.AllocRaw` | tlsn/crates/components/deap/src/lib.rs:187-196 | Succeeds exactly while the memories have not parted, and gives the same range in both. |
| `Deap.Deap.CallRaw` | tlsn/crates/components/deap/src/lib.rs:285-294 | Likewise for the results of a call. |
| `Deap.Deap.MarkPublicRaw` | tlsn/crates/components/deap/src/lib.rs:236-239 | Succeeds exactly when the MPC VM accepts; public in both. |
| `Deap.Deap.MarkPrivateRaw` | tlsn/crates/components/deap/src/lib.rs:241-258 | The leader's are private in both; the follower's are private in MPC, public in zero knowledge and recorded as follower inputs. |
| `Deap.Deap.MarkBlindRaw` | tlsn/crates/components/deap/src/lib.rs:260-277 | The mirror image: blind to the leader in MPC, public in zero knowledge and recorded. |
| `Deap.Deap.AssignRaw` | tlsn/crates/components/deap/src/lib.rs:198-204 | Succeeds exactly when the MPC VM accepts; same bytes in both. |
| `Deap.Deap.CommitRaw` | tlsn/crates/components/deap/src/lib.rs:206-215 | Committed in MPC; in zero knowledge exactly the part that is no follower input, range by range. |
| `Deap.Deap.DecodeRaw` | tlsn/crates/components/deap/src/lib.rs:221-226 | Remembers the output for the equality check. |
| `Deap.Deap.FinalizeInputs` | tlsn/crates/components/deap/src/lib.rs:117-151 | Succeeds exactly when the leader has every follower input decoded and the follower has assigned its own; then all of them are committed in zero knowledge with those values and nothing else has changed. |
| `Deap.Deap.FinalizeOutputs` | tlsn/crates/components/deap/src/lib.rs:155-176 | For the follower, succeeds exactly when every output available in MPC equals the zero-knowledge one; the leader always succeeds. |
| `KeyExchange.SharesSumToX` | tlsn/crates/components/key-exchange/src/point_addition.rs:27-73 | For any prime field, points with distinct x and a correct converter, neither inversion fails and the two shares sum to slope squared minus both x: the x-coordinate of the sum in section 2.2.1 of SEC 1. |
| `KeyExchange.PmsIsDiffieHellman` | tlsn/crates/components/key-exchange/src/exchange.rs:202-452 | The key exchange agrees with the server: the pre-master secret both instances reconstruct is the x-coordinate of the server's secret times the client key, the sum of the parties' public keys; for any group with the usual laws. |
| `KeyExchange.ProductsSum` | tlsn/crates/components/key-exchange/src/exchange.rs:412-431 | The parties' products with the server key sum to the server's product with the client key. |
| `KeyExchange.HonestRunPasses` | tlsn/crates/components/key-exchange/src/exchange.rs:393-452 | Both converter instances reconstruct the same pre-master secret, that x-coordinate in 32 big-endian bytes, so the equality check passes. |
| `KeyExchange.CircuitGivesX` | tlsn/crates/components/key-exchange/src/circuit.rs:32-41 | The circuit's modular sum of one instance's two share encodings is the encoded x-coordinate. |
| `KeyExchange.EqualityMeans` | tlsn/crates/components/key-exchange/src/circuit.rs:32-39 | The third output is all zeros exactly when the two secrets are equal. |
| `KeyExchange.DecomposePoint` | tlsn/crates/components/key-exchange/src/point_addition.rs:76-95 | Reversing big-endian coordinates and reading them little-endian gives their value; the identity and out-of-range coordinates are refused, nothing else. |
| `KeyExchange.ReverseInPlace` | tlsn/crates/components/key-exchange/src/point_addition.rs:87-89 | Byte i ends up where byte n-1-i was. |
| `KeyExchange.DeriveXCoordShare` | tlsn/crates/components/key-exchange/src/point_addition.rs:16-73 | Fails exactly when the share to invert is zero; otherwise the share is the additive share of the squared ratio minus the party's own x, the follower having negated its inputs. |
| `KeyExchange.SquaresMultiply` | tlsn/crates/components/key-exchange/src/point_addition.rs:51-54 | The product of the parties' squared ratios is the square of the slope. |
| `KeyExchange.SharesNonZero` | tlsn/crates/components/key-exchange/src/point_addition.rs:51-53 | Neither multiplicative share of a non-zero value is zero. |
| `KeyExchange.MpcKeyExchange.constructor` | tlsn/crates/components/key-exchange/src/exchange.rs:94-105 | A new exchange is in its initial state without a server key; its public key is its secret times the generator. |
| `KeyExchange.MpcKeyExchange.Alloc` | tlsn/crates/components/key-exchange/src/exchange.rs:115-188 | Only from the initial state; an error leaves the error state. The leader knows the a inputs of the circuit and is blind to the b inputs, the follower the other way round. |
| `KeyExchange.MpcKeyExchange.SetServerKey` | tlsn/crates/components/key-exchange/src/exchange.rs:191-195 | Accepted in any state; the last key counts. |
| `KeyExchange.MpcKeyExchange.SetUp` | tlsn/crates/components/key-exchange/src/exchange.rs:224-286 | Only after allocation; the follower sends its public key, the leader keeps the one received. |
| `KeyExchange.MpcKeyExchange.ClientKey` | tlsn/crates/components/key-exchange/src/exchange.rs:202-221 | The sum of both parties' public keys, for the leader only, between setup and the computation of shares, and unless the sum is the identity. |
| `KeyExchange.MpcKeyExchange.ComputeShares` | tlsn/crates/components/key-exchange/src/exchange.rs:289-452 | Needs the server key, a product that is not the identity and both inversions; both shares come from the same point, the secret times the server key, over the two converters. |
| `KeyExchange.MpcKeyExchange.Assign` | tlsn/crates/components/key-exchange/src/exchange.rs:332-390 | The bytes assigned are this party's two shares, big-endian in 32 bytes, to the two inputs it knows; the other two are committed blind. |
| `KeyExchange.MpcKeyExchange.Finalize` | tlsn/crates/components/key-exchange/src/exchange.rs:393-409 | Succeeds exactly when the comparison output is all zeros. |
| `PrimeField.InverseIs` | tlsn/crates/components/key-exchange/src/point_addition.rs:51-53 | In a prime field every non-zero element has the computed inverse (extended Euclid). |
| `PrimeField.InverseOfProduct` | tlsn/crates/components/key-exchange/src/point_addition.rs:51-54 | The inverse of a product is the product of the inverses. |
| `HmacSha256.FinalizeIsHmac` | tlsn/crates/components/hmac-sha256-circuits/src/hmac_sha256.rs:64-117 | From the two states of a key of at most 64 bytes, finalizing a message is HMAC of section 2 of RFC 2104, for any compression function. |
| `HmacSha256.Midstate` | tlsn/crates/components/hmac-sha256-circuits/src/hmac_sha256.rs:105-117 | Continuing at offset 64 from the state after one block is hashing the block followed by the message: the padding counts the absorbed block. |
| `HmacSha256.HmacSha256Partial` | tlsn/crates/components/hmac-sha256-circuits/src/hmac_sha256.rs:64-79 | XORing the key into the pads in place and compressing gives the outer and inner states of that key. |
| `HmacSha256.PaddedWhole` | tlsn/crates/components/hmac-sha256-circuits/src/hmac_sha256.rs:105-117 | Message and padding always fill whole blocks. |
| `HmacSha256.PaddingIs` | tlsn/crates/components/hmac-sha256-circuits/src/hmac_sha256.rs:105-117 | The padding of section 5.1.1 of FIPS 180-4: a one bit, the fewest zeros that leave eight bytes of a block, and the length in bits. |
| `Prf.PHashCached` | tlsn/crates/components/hmac-sha256-circuits/src/prf.rs:44-68 | With all of the A values cached first, the output is the first terms of the recursive P_hash of section 5 of RFC 5246. |
| `Prf.PrfCached` | tlsn/crates/components/hmac-sha256-circuits/src/prf.rs:113-128 | The PRF of section 5 of RFC 5246, cut to length. |
| `Prf.PrfStreaming` | tlsn/crates/components/hmac-sha256-circuits/src/prf.rs:199-225 | The streaming form that keeps only the current A, with its short last chunk, writes the same PRF. |
| `Prf.PrfPrefix` | tlsn/crates/components/hmac-sha256-circuits/src/prf.rs:113-128 | A shorter output is a prefix of a longer one. |
| `Prf.PHashIsStandard` | tlsn/crates/components/hmac-sha256-circuits/src/prf.rs:44-68 | Started from a key's two states, P_hash is the standard's with RFC 2104's HMAC throughout. |
| `Prf.PrfIsStandard` | tlsn/crates/components/hmac-sha256-circuits/src/prf.rs:113-128 | For a key of at most 64 bytes the PRF is the standard's P_hash over the label followed by the seed, cut to length, from however many terms. |
| `Prf.TermAt` | tlsn/crates/components/hmac-sha256-circuits/src/prf.rs:44-68 | Term i sits at offset 32 i of any longer output. |
| `Prf.DeriveSessionKeys` | tlsn/crates/components/hmac-sha256-circuits/src/session_keys.rs:108-154 | With the standard's P_hash and the labels written out: the master secret is its first 48 bytes for the pre-master secret over label, client random and server random; the two keys and two IVs, in order, are its first 40 bytes for the master secret over label, server random and client random. |
| `Prf.VerifyData` | tlsn/crates/components/hmac-sha256-circuits/src/verify_data.rs:44-53 | The first twelve bytes of the standard's P_hash under the master secret over the label followed by the handshake hash, as section 7.4.9 of RFC 5246 has it. |
| `Attestation.BuiltAnswersRequest` | tlsn/crates/core/src/request.rs:48-93 | What is built from an accepted request validates against it exactly when the provider's hash and signature algorithms are the ones they are registered as; later extensions do no harm. |
| `Attestation.BuiltIsProvable` | tlsn/crates/core/src/attestation/builder.rs:178-211 | Every built body is numbered 0, 1, 2, ... in leaf order, the leaf at a field's id is the hash of its data, and a proof of all fields never violates what the Merkle tree demands of indices. |
| `Attestation.ProvableMeansNumbered` | tlsn/crates/core/src/attestation/proof.rs:95-104 | Sorted field ids are unique, sorted and in bounds exactly when each id is its own leaf position. |
| `Attestation.NewBodyProof` | tlsn/crates/core/src/attestation/proof.rs:91-107 | Made exactly when some order of the fields numbers them 0, 1, 2, ...; otherwise the tree panics. |
| `Attestation.VerifyBody` | tlsn/crates/core/src/attestation/proof.rs:114-135 | Accepts exactly a body some order of whose fields numbers them 0, 1, 2, ... with the proof's leaf count, the root over its leaves in that order being the header's. |
| `Attestation.HashFields` | tlsn/crates/core/src/attestation.rs:192-235 | Every field of the body once, ordered by id, fields of one id in their original order; an ordered body keeps its order. |
| `Attestation.SortFields` | tlsn/crates/core/src/attestation.rs:232-234 | Sorted by id, a permutation, and stable. |
| `Attestation.InsertIsStable` | tlsn/crates/core/src/attestation.rs:232-234 | Inserting before larger ids only puts a field behind those of its own id. |
| `Attestation.NumberedIsTheOrder` | tlsn/crates/core/src/attestation.rs:232-234 | If some order of the fields numbers them, sorting finds it. |
| `Attestation.FieldCounter.Next` | tlsn/crates/core/src/attestation.rs:100-105 | Hands out the current id and advances by one. |
| `Attestation.AttestationBuilder.AcceptRequest` | tlsn/crates/core/src/attestation/builder.rs:52-109 | Accepts exactly requests whose algorithms and commitments are supported and whose extensions the validator accepts, and keeps those extensions. |
| `Attestation.AttestationBuilder.AddExtension` | tlsn/crates/core/src/attestation/builder.rs:132-135 | Appends behind the extensions the request asked for. |
| `Attestation.AttestationBuilder.Build` | tlsn/crates/core/src/attestation/builder.rs:138-212 | Succeeds exactly with both algorithms available and all parts set (the encoder secret only for an encoding commitment); the body carries the signer's key, connection info, ephemeral key, the request's commitments and all extensions, numbered in order, and the root is over its leaves. |
| `Attestation.Validate` | tlsn/crates/core/src/request.rs:48-93 | Accepts exactly an attestation with the requested signature and hash algorithms, the same certificate commitment, the same encoding root when one was requested, and every requested extension. |
| `Attestation.AnswersBind` | tlsn/crates/core/src/request.rs:48-93 | An attestation accepted for two requests means they asked for the same algorithms and certificate commitment, and the same encoding root where both asked for one. |
| `Attestation.RootBinds` | tlsn/crates/core/src/attestation.rs:173-235 | With collision-free hashes, one root attests to one body: no field can be left out, added, changed or moved between kinds. |
| `Attestation.FieldsComplete` | tlsn/crates/core/src/attestation.rs:192-235 | Every field of the body is hashed, each as often as it is in it. |

## Left out

- RecordLayer.RecordLayer.PushEncrypt: counters, lengths and field ids are unbounded naturals; overflow of the source's 64-bit and 32-bit counters is not modelled (the 32-bit AES counter and the 32-bit transcript length are, wrap-around included).
- RecordLayer.RecordLayer.Flush: after an error nothing is promised, since the source drains its buffers before it checks the quota.
- RecordOps.PrivateMpc: the follower's share of a masked keystream is not kept, only that it learns no plaintext.
- MpcAesGcm.ComputeTags.Run: tags are an arbitrary function; the parties' GHASH shares and their combination are not modelled.
- MpcAesGcm.VerifyTags.Run: the equality protocol on shared tags is a comparison with that function.
- MpcAesGcm.MpcAesGcm.TakeMasks: the masks are counted; their values would need GHASH.
- MpcAesGcm.MpcAesGcm.ApplyKeystream: returns the keystream's value; `GcmText` builds it in a machine.
- MpcAesGcm.MpcAesGcm.TakeKeystream: likewise.
- ProtocolTheorems.FollowerMirrorsLeader: the virtual machine is ideal and shared, so a server key that arrives before the server random is not told apart from one that arrives after it.
- CtrKeystream.Keystream.Assign: the source's counter iterator overflows at 2^32, which panics or wraps depending on the build; the model wraps. Only a record of 64 GiB could tell.
- ZkVm.Vm: addresses count bytes where the machine counts bits; memory is assigned, then committed, then evaluated.
- Deap.Deap.AccessZk: direct use of the zero-knowledge machine is restricted to memory beyond the shared addresses.
- Deap.Deap.MarkPublicRaw: memory may be marked once, as the machine contract has it.
- EndToEnd.DisclosureAccepted: that both parties' machine holds the assigned texts and the prover's committed bytes is a hypothesis.
- DeapTheorems.HonestLeaderPasses: circuits are arbitrary evaluations of the shared inputs; decoding of the follower's inputs is authenticated, as the source assumes.
- ProofBuilder.CoverBy: the greedy covering and the set operations of the range library are written out from their meaning.
- ProofBuilder.TranscriptProofBuilder.Build: the Merkle proof and the encodings of the openings are not built; the openings are.
- Disclosure.VerifyOpenings: whether the Merkle proof includes the openings' encodings is a parameter.
- Attestation.VerifyBody: only proofs of all fields, which are the only ones the source makes; the Merkle proof is a computation of the root.
- KeyExchange.SharesSumToX: holds for every prime; that the P-256 modulus is prime is not proved. The converters' protocols are not modelled.
- KeyExchange.MpcKeyExchange.ComputeShares: the curve is an arbitrary group; scalar multiplication is a function of it.
- KeyExchange.MpcKeyExchange.Alloc: allocation in the machine and the circuit call are not modelled, the marks are.
- KeyExchange.MpcKeyExchange.Assign: the decoding of the comparison output is the parameter of finalize.
- Prf.DeriveSessionKeys: the circuit-building variants of HMAC, PRF and session keys are not modelled.
- Mutexes, async scheduling, preprocessing, multiplexing and the mailbox around the leader: each call is one atomic step and the channel a sequence.
- Secrecy and malicious behaviour: functional correctness and agreement only.
- HTTP and JSON committers, configuration builders, error texts, servers, bindings and the on/offramp around the libraries: no hard property.
- `RangeSet`, the Merkle library, garbled circuits, oblivious transfer and signature schemes are not part of this model.
