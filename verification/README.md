# A verified model of a threshold-signature node

The modelled program wraps a threshold-signature engine. It keeps key shares in an encrypted store and runs key
generation, signing and resharing among peers, either over RPC or inside one process ("self-host"). Two things can go
wrong outside the engine's mathematics, and they are what this project proves cannot, or says exactly when they do:

- **A share comes back different from what was saved.** A result passes through big-endian bytes, hexadecimal, CFB
  encryption, base64, a JSON record and decimal text. `SaveThenLoad`, `ReshareHistory` and `ConfigRefines` carry it
  through that chain and through every history of the store.
- **A ceremony goes wrong in some interleaving.** Coordinators, peers, workers, engine callbacks and waiting processes
  run beside each other. In self-host mode any number of ceremonies of n nodes overlap on one store, which the RPC path
  of the process uses as well (`StoreIsHistory`, `SignsWithOwnShare`, `ConfluenceAtRestAt`); over RPC n hosts have a store
  each (`CoordinatorStartsLast`, `OneRequest`, `HostStores`, `ReshareRenewsShare`). In both modes a caller's answer is
  what gets stored (`ReplyIsWhatIsStored`). The theorems hold in every interleaving and connect the last writes of a
  ceremony with what the stores serve. That nothing is promised in vain is proved beside it: whatever has happened
  before, a ceremony that begins can be brought to its end with any answers of the engine
  (`SelfHostProgress.CeremonyCompletes`, `GenerateThenSign`, `CallerCompletesCeremony`).

## Conventions

- A Go string is a sequence of bytes. A run-time panic is the outcome `Err(Panic)`. `commits` says whether the
  database accepts a transaction; it is an argument, so results hold for every pattern of failures.
- A run is any finite sequence of events. An event that is not enabled changes nothing, so runs are exactly the
  interleavings of the enabled ones.
- The engine is an environment: after its start a session gets at most one terminal report (done with a result, done
  without one, or failed). Its public keys are points of the curve, as its point type guarantees. There is at most one
  live ceremony per protocol id and host, except for the second sessions that retried calls create.
- The block cipher, the address of a key and the 32-byte hash are arbitrary functions (`Suite`); no theorem assumes
  that the cipher is invertible or that the hash has no collisions. `strict` says whether the curve library refuses to
  compress a point off the curve, which depends on the build; all results hold for both. The host key has 32 bytes.
- Each object the program updates is a class. Each method is proved against a function of the old state, and what the
  program promises is proved about that function.
- Standards: RFC 4648 section 4 (base64), NIST SP 800-38A section 6.3 (CFB with full-block feedback), SEC 1 section
  2.3.3 (point compression), RFC 8259 sections 2 to 7 (the JSON grammar), IEEE 754 (round to nearest, ties to even).

| modules | content |
|---|---|
| `Numbers`, `Base64`, `Encrypto`, `Curve`, `Float64`, `Json`, `Records` | the layers of the codec chain |
| `Fsm`, `BadgerStore`, `StoreInterface`, `StoreHistory`, `MockStore` | the key-value layer, the encrypted store, its interface and histories, the mock |
| `Keys`, `Session`, `Services` | store keys and protocols, one session, the service objects |
| `Workers`, `SelfHost` | one self-host ceremony of n nodes |
| `SelfHostStore`, `SelfHostHistory`, `SelfHostShares`, `SelfHostOutcome` | many such ceremonies over one store, its history, the shares they sign with, and how they end |
| `Effects`, `FanOut`, `TssCaller`, `RpcCoordinator` | the entry points, the log of their effects, and its replay as a ceremony |
| `RpcHost`, `RpcCeremony`, `RpcOutcome` | hosts and runs of a ceremony over RPC, and what each host's store ends with |
| `SelfHostProgress`, `RpcProgress` | reports arrive, and every ceremony can be brought to its end |
| `Requests`, `RequestJson`, `JsonScanner`, `JsonGrammar` | requests on the wire, and the grammar that the JSON scanner accepts |
| `Peers`, `SelfService` | discovery, the full mesh, opening and closing the cluster |

## Where the obvious claim is false

- A reply does not mean "stored": the done channel is closed before the write (`RepliesBeforeStored`). What holds is
  `AtRest` for one session, `StoreAtRest` and `HostAtRest` for whole runs, and `ReplyIsWhatIsStored` in both modes.
- A reshare that has finished has not always stored its share: on a key that holds no result it writes nothing, and at
  best the log says so (`ReshareSavedIff`).
- The self-host wait may return nil although a worker's error is queued (`FailureMayBeIgnored`). What holds is
  `NilMeansAllExited`: all sessions exist exactly when the queue is empty.
- In self-host mode a worker may start before the primary listens (`WorkersMayStartFirst`); on the RPC path the
  coordinator starts last (`CoordinatorStartsLast`).
- Key generation never removes its handler, unlike signing and resharing (`OnStateChanged`, `AtRest`).
- The mock ignores reshares, signatures, the queried key and failures of the database; the two stores agree exactly when
  the key's committed operations leave what was saved last (`AgreesWithMockIff`). A refused save alone sets them apart
  (`RefusedSaveSetsApart`).
- `CheckSignature` reads a stored signature as a key record and so always checks an empty one (`SignatureLost`).
- A signing over RPC leaves a host's share alone except when the message's hash is the share's own key
  (`SigningKeepsShareIff`). No session can be built on a key that holds a signature (`SignatureBuildsNothing`), and a
  reshare under way panics at its write exactly when a signing of such a message got there first
  (`ReshareAmongSignings`). In self-host mode it cannot happen (`HashIsNotNodeKey`).
- Counting peers does not make the mesh full when a stranger was discovered (`StrangerFoolsWait`); it does exactly when
  none was (`FullMeshIff`).
- The repository's README.md presents `rank` and `threshold` as inputs of key generation; the code takes neither
  from the caller: the rank is 0 and the threshold is the number of peers.

## Model

| member | source | states |
|---|---|---|
| BadgerStore.SaveThenLoad | store/badger_handler.go:25-152 | every result (any share including 0, any point of the curve, any Birkhoff table), saved over anything, is served under its own compressed key and converts to exactly the saved key, share and parameters |
| BadgerStore.ConfigOfStored | store/badger_handler.go:122-152 | a stored result answers exactly one text, the compressed form of its own key, with its decimal configuration; every other text is a mismatch |
| BadgerStore.ConfigConverts | utils/utils.go:37-79 | converting the configuration of a result restores the result |
| BadgerStore.OnlyOwnKeyOpens | store/badger_handler.go:129-135 | among curve points, the ones whose compressed form opens a record are those with the stored x and the stored parity of y |
| BadgerStore.UpdateOfStored | store/badger_handler.go:64-89 | a reshare leaves the record of the same result with the new share, sealed under the salt the next read uses, and no other key changes |
| BadgerStore.UpdateOfOthers | store/badger_handler.go:64-80 | a reshare of an absent key reports the miss, and of a signature record panics; neither writes |
| BadgerStore.ServedKeyLength | store/badger_handler.go:129-135 | a request whose key is not 66 bytes long is never served |
| BadgerStore.ServedKeyNames | store/badger_handler.go:122-152 | whoever is served has asked with the SEC 1 text of the key that is served in decimal: first byte 02 or 03 by the parity of the served y, the rest the served x, in any database |
| BadgerStore.SavedRecord | store/badger_handler.go:25-61 | the record after a save, member by member: coordinates that read back as x and y, the SEC 1 text, the library's address of the key, every Birkhoff parameter, and base64 of the CFB ciphertext of the share's digits under the host key with the text as salt |
| BadgerStore.ConvertsIff | utils/utils.go:37-79 | a configuration converts if and only if its texts are integers and the key is on the curve; exactly when each error is reported |
| BadgerStore.BadgerDB.SaveDKGResultData | store/badger_handler.go:25-61 | the key holds the record of the result, with the loop-filled Birkhoff table complete; nothing is written when the transaction fails |
| BadgerStore.BadgerDB.UpdateDKGResultData | store/badger_handler.go:64-89 | the whole effect and every error of a reshare, for any database |
| BadgerStore.BadgerDB.SaveSignerResultData | store/badger_handler.go:92-100 | the key holds the signature record |
| BadgerStore.BadgerDB.GetDKGResultData | store/badger_handler.go:103-119 | what is read through the generic JSON value, or the miss, or a bad record |
| BadgerStore.BadgerDB.GetSignerConfig | store/badger_handler.go:122-152 | the configuration or the first error, in the order of the code; `ConfigOfStored` and `ServedKeyNames` say which |
| BadgerStore.ConvertDKGResult | utils/utils.go:37-79 | the engine's key with all parameters, whatever order the map is met in, or the first error |
| StoreInterface.LoadOfStored | store/store.go:12-19 | a session built on a stored result works with exactly that result, and is refused under every other public key |
| StoreInterface.SignatureBuildsNothing | utils/utils.go:37-79 | no session can be built on a key that holds a signature, whichever way the curve library treats the origin and whatever key is asked for |
| StoreHistory.ReshareHistory | store/badger_handler.go:64-89 | after a save and any reshares of that key mixed with anything on other keys and any failures: the last committed share, the original public key, address and Birkhoff table |
| StoreHistory.RunRefines | store/badger_handler.go:25-100 | every run of the encrypted store is, step for step, a run of a map from keys to plain results and signatures |
| StoreHistory.ConfigRefines | store/badger_handler.go:122-152 | every answer of the encrypted store, errors included, is the plain store's, also for keys that hold a signature |
| StoreHistory.ApplyRefines | store/badger_handler.go:25-100 | the simulation step: one operation on the encrypted store is the same operation on the plain one |
| StoreHistory.KeyHistory | store/badger_handler.go:25-100 | after any history whatever, in any database, a key holds what its own committed operations say: the last thing written with the last share since |
| StoreHistory.ReshareWriteBack | store/badger_handler.go:64-89 | with any operations between the start of a reshare and its write: it panics exactly when the last thing written under its key is a signature, and else renews the share of what is there |
| StoreHistory.OtherKeysUntouched | store/badger_handler.go:25-100 | no operation changes another key |
| StoreHistory.OpsCommute | store/badger_handler.go:25-100 | operations on different keys commute in any database, failures included |
| MockStore.AgreesWithMockIff | store/mock.go:23-84 | over every run, whatever the database refuses, and for every key ever saved: the encrypted store gives the mock's answer if and only if the key's committed operations leave exactly the result that was saved last |
| MockStore.AgreesWhenCommitted | store/mock.go:23-84 | where all transactions succeed: if and only if no signature and no reshare to another share came after the last save |
| MockStore.RefusedSaveSetsApart | store/mock.go:23-74 | a run with neither signature nor reshare in which the two stores disagree: the mock keeps a save that the database refused |
| MockStore.RefinesMockWithoutReshare | store/mock.go:23-74 | for a key whose last save was committed, with no committed reshare or signature after it and whatever else happened and failed, the encrypted store asked with the key's own text gives exactly the mock's configuration |
| MockStore.MockHoldsLastSave | store/mock.go:44-60 | the mock holds the configuration of the last save of every key, whatever came after it and whatever the database said |
| MockStore.MockRecordDescribes | store/mock.go:23-42 | the mock's record is the encrypted store's with the share in the clear, and its texts read back as the numbers |
| MockStore.MockDB.SaveDKGResultData | store/mock.go:23-63 | both maps after a save: the plain record and the decimal configuration, with complete Birkhoff tables |
| MockStore.MockDB.GetSignerConfig | store/mock.go:65-74 | the saved configuration whatever key is queried, or not found |
| Fsm.GetIsVisible | store/badger_fsm.go:15-119 | over every history of set, append and delete, with any failures, a read of a key is determined by the operations on that key, told without the database |
| Fsm.AppendsInOrder | store/badger_fsm.go:75-106 | k appends to an absent key leave exactly the k values in order, after any history |
| Fsm.AppendedReports | store/badger_fsm.go:75-106 | an append reports success, the refused transaction or the panic, each in exactly its case, and an append that fails changes nothing |
| Fsm.FSM.Get | store/badger_fsm.go:15-50 | the value through a generic JSON value, or the miss |
| Fsm.FSM.Set | store/badger_fsm.go:53-72 | the new database, unchanged when the transaction fails |
| Fsm.FSM.SetArr | store/badger_fsm.go:75-106 | read, append and write; null starts a list and any other value panics |
| Fsm.FSM.Delete | store/badger_fsm.go:109-119 | the key is gone, or nothing changed |
| Encrypto.EncryptedRoundTrip | utils/encrypto.go:25-49 | decrypting what was encrypted restores every text, for any cipher, and base64 never reports an error on the way; encryption succeeds exactly for key sizes 16, 24, 32 and salts of at least a block |
| Encrypto.EncryptedIsCfb | utils/encrypto.go:25-36 | what is stored is base64 of the one solution of the CFB equations for the cipher under the host key and the first 16 bytes of the salt |
| Encrypto.DecryptedIsCfb | utils/encrypto.go:39-49 | any base64 text decrypts to the plaintext of which its bytes are that solution, and corrupt base64 to nothing |
| Encrypto.CfbRoundTrip | utils/encrypto.go:31-48 | CFB decryption inverts CFB encryption for every block function, vector and length, a partial last block included |
| Encrypto.CfbEncryptSolves | utils/encrypto.go:31-34 | the ciphertext satisfies the CFB equations of NIST SP 800-38A |
| Encrypto.CfbUnique | utils/encrypto.go:31-34 | and is the only text that does |
| Encrypto.KeyStreamAt | utils/encrypto.go:31-34 | each key-stream byte is the block function of the previous ciphertext block, or of the vector in the first block |
| Encrypto.XorBits | utils/encrypto.go:31-34 | the combination is the exclusive or of every bit |
| Encrypto.XorKeyStreamEncrypt | utils/encrypto.go:31-34 | the buffer filled in place byte by byte, feeding back its own output, holds the CFB encryption |
| Encrypto.XorKeyStreamDecrypt | utils/encrypto.go:44-46 | the buffer filled in place holds the CFB decryption |
| Encrypto.Encrypt | utils/encrypto.go:25-36 | when it succeeds and that decryption of its result gives the text back |
| Encrypto.Decrypt | utils/encrypto.go:39-49 | when it succeeds; corrupt base64 is decrypted as no bytes |
| Base64.RoundTrip | utils/encrypto.go:11-22 | the lenient decoder, which skips line breaks, returns every encoded byte sequence without error |
| Base64.EncodeShape | utils/encrypto.go:11-13 | encodings use the alphabet and padding of RFC 4648 and four symbols for each started group of three bytes |
| Base64.QuantumNumber | utils/encrypto.go:11-13 | the four symbols of a group are the base-64 digits of the 24-bit number of its bytes, first byte first |
| Base64.LastQuantumNumber | utils/encrypto.go:11-13 | a last group of one or two bytes is filled with zero bits and padding |
| Base64.AcceptsIff | utils/encrypto.go:15-22 | which texts the decoder accepts: full groups of symbols with padding in the last two places only |
| Numbers.HexNumberRoundTrip | store/badger_handler.go:130-131 | every non-negative number survives bytes, hexadecimal and the lenient hexadecimal parser, zero and leading zero digits included |
| Numbers.HexEncodeAt | store/badger_handler.go:29-46 | hexadecimal is two lower-case digits a byte, the high one first |
| Numbers.HexDecodeStops | store/badger_handler.go:130-131 | the lenient parser keeps what came before the first bad pair |
| Numbers.PrintIntShape | store/badger_handler.go:141-149 | decimal texts have a minus exactly when negative and no leading zero or plus |
| Numbers.ParseIntIff | utils/utils.go:37-79 | what parses as a decimal number: an optional sign and at least one digit, and nothing else |
| Numbers.FromHexInverse | store/badger_handler.go:130-131 | the lenient parser inverts both spellings, with and without 0x |
| Numbers.IntRoundTrip | utils/utils.go:37-79 | decimal printing and parsing are inverse on all integers |
| Numbers.ToHex | utils/utils.go:129-134 | the buffer holds 0x and two digits a byte, and reads back as the bytes |
| Curve.CompressedHexIdentifies | store/badger_handler.go:133-135 | two points have the same compressed text if and only if they share x and the parity of y |
| Curve.CompressedMeans | store/badger_handler.go:133-135 | the compressed text of every point is 66 lower-case digits: 02 for an even y and 03 for an odd one, then x, most significant byte first |
| Records.RecordRoundTrip | types/tss.go:26-32 | a key record written as JSON and read back through a generic value is unchanged, float64 ranks included |
| Records.SignatureRoundTrip | types/tss.go:45-49 | a signature record read as one is unchanged |
| Records.SignatureReadAsRecord | store/badger_handler.go:103-119 | a signature record read as a key record is the empty record |
| Records.SignatureLost | server/rpc_server.go:230-245 | so the signature that reaches the check is empty, whatever was stored |
| Records.ReadsIff | store/badger_handler.go:103-119 | exactly which stored values read as a key record, member by member; all others are bad records |
| Float64.Exact | types/tss.go:10-13 | integers below 2^53, and so every rank, are exact as generic JSON numbers |
| Float64.NearestIsNearest | store/badger_fsm.go:24-47 | a generic number keeps the nearest multiple of the place of its 53rd bit, and from the middle the even one |
| Json.GenericIdempotent | store/badger_fsm.go:85-92 | a second trip through a generic value changes nothing, so appended lists keep their earlier items |
| Json.GenericParts | store/badger_fsm.go:24-47 | what a generic value keeps: numbers rounded as above with their sign, lists and objects part by part |
| Keys.HashIsNotNodeKey | server/self_service.go:62-139 | a signature key never equals a node's share key, whatever the hash function returns |
| Keys.HexHashOfMessage | utils/utils.go:136-151 | the hash text is 0x and the 32 bytes of the hash of the whole message |
| Keys.NodeKeyParts | server/self_service.go:62-74 | a node key is the hash, a dash and the index in decimal, from which all three are read back |
| Keys.NodeKeyInjective | server/self_service.go:62-74 | node keys agree only for the same hash and the same index, even for hashes with dashes |
| Keys.SelfHostRendezvous | service/dkg.go:45-52 | splitting a node key at the dash recovers the protocol all nodes send on if and only if the hash has no dash |
| Keys.RpcRendezvous | service/dkg.go:45-52 | the same condition for plain hashes |
| Keys.HashRendezvous | utils/utils.go:136-151 | hashes this program makes always meet it, and different ids never share a protocol |
| Services.Rendezvous | service/dkg.go:45-52 | for key generation, signing and resharing the protocol senders use is the one node i listens on, except for a key generation whose hash has a dash |
| Services.Service.constructor | service/signer.go:29-54 | the handler is registered under the ceremony's protocol, the channel is open, and seen as a node the service is a session just built |
| Services.Service.OnStateChanged | service/signer.go:130-157 | on a terminal state the service, seen as a node of a ceremony, and its store go exactly where the callback of the session takes them; on any other nothing happens |
| Services.CallbackSteps | service/reshare.go:95-117 | the callback in one piece is the composition of the steps other threads can observe, for every store behind the interface and every session that has started |
| Session.SessionSafety | service/signer.go:112-157 | over every sequence of reports and steps: done is closed at most once, the process resumes only after that, the handler leaves only by the session's own callback, and the database is the old one with the engine's result written exactly when the callback has saved it: when it has finished with a result and the store operation reported success |
| Session.AtRest | service/signer.go:112-157 | at rest after a report the process has resumed, and the callback has saved if and only if there was a result and the store operation on it succeeds; the database has changed by exactly that operation |
| Session.SessionEnds | service/signer.go:112-157 | a started session that is given a fitting result goes through all its steps: closed once, resumed, saved, and the store changed by exactly that operation |
| Session.ReshareSavedIff | service/reshare.go:100-112 | a finished reshare has saved if and only if the engine gave a share, the transaction committed and the key held a result; on a signature or an absent key it has not |
| Session.RepliesBeforeStored | service/dkg.go:112-117 | a run in which the caller has its answer and the store has not changed |
| Session.ReshareReplacesShare | service/reshare.go:95-117 | after any run of a reshare session the host serves the old public key with the engine's new share if saved, else with the old share |
| Session.ReshareAmongSignings | service/reshare.go:100-112 | the write-back of a reshare fails exactly when a signing session of the host has meanwhile written under a message hash equal to the reshared key, and else renews that result's share |
| TssCaller.Caller.NewService | service/reshare.go:27-56 | a session exists exactly when its share is served, converts and the engine accepts; a refusal registers nothing |
| TssCaller.CoordinatorOrder | server/tss.go:91-116 | what others notice of a coordinator: first it listens, last it starts, everything between is a call of a known peer at its own address, and by then each peer of the snapshot has answered exactly once |
| TssCaller.Caller.Run | server/tss.go:22-47 | who is refused, who waits and who runs in the background, and that the objects called along the way leave that log and nothing else |
| TssCaller.Caller.Reshare | server/tss.go:61-89 | the same log, but nobody waits: the coordinator answers before its process ends |
| RpcCoordinator.CallerDrivesCeremony | server/tss.go:91-116 | the log of a coordinator replays as a run of the ceremony in which it starts with the last event and not before, with a session built on every host |
| RpcProgress.CallerCompletesCeremony | server/tss.go:22-116 | and that run can go on, whatever fitting answers the engines give, until every host has saved its own answer, every process has resumed, and each store serves what its host has generated, signed or renewed |
| RpcProgress.SessionCompletes | service/signer.go:112-157 | after any run, on any host, a started session without an answer can be given any result its store takes and brought to its end without touching anything else |
| RpcProgress.ReportArrives | service/signer.go:130-157 | after any run, on any host, a report to a started session without an answer is its answer |
| RpcProgress.SessionIff | server/rpc_peer.go:42-96 | a host gets a session for a request if and only if its engine agrees and, unless keys are generated, its own store serves the share that the request names; the session is new and for that request |
| RpcProgress.ErrorIsRetried | server/rpc_peer.go:126-140 | a call that a peer answers with an error has changed nothing, so the same peer is called again |
| RpcProgress.RefusalEndsIt | server/tss.go:22-47 | a coordinator that cannot build its session never calls anybody: whatever happens later, no host has a session |
| Workers.NoErrorLost | server/self_service.go:53-71 | in every interleaving of n-1 workers the error channel has room for each sender, and no sent error disappears |
| Workers.NilMeansAllExited | server/self_service.go:74-90 | a nil wait means every worker has exited, and all have sessions if and only if no error is queued |
| Workers.OnlyErrorReady | server/self_service.go:82-89 | a primary that waits with an error queued, while its context lives and some worker has not exited, cannot get past it: through any further steps it still waits with that error first, or has returned it |
| Workers.FailureMayBeIgnored | server/self_service.go:82-89 | a reachable state in which the wait returned nil with an error queued |
| Workers.RunsEnd | server/self_service.go:53-90 | no run of n nodes goes on for ever: at most three steps for each worker and six more do anything |
| Workers.StuckIsDone | server/self_service.go:53-90 | and none gets stuck: where nothing more can happen every worker has exited, the primary has failed, was stopped or has replied, and the goroutine that waits for the workers has ended |
| SelfHost.SelfHostSafety | server/self_service.go:40-163 | in every interleaving of n nodes, by an inductive invariant: no error dropped, no channel closed twice, no early resumption; when the primary starts, each worker has exited and has a session exactly when it left no error |
| SelfHost.WorkersMayStartFirst | server/self_service.go:58-74 | a run in which a worker's engine runs before the primary listens |
| SelfHost.OnlyEngineHolds | server/self_service.go:40-163 | a self-host ceremony never hangs by itself: where nothing more can happen without the engine, the primary has failed, was stopped, has replied, or waits for its own engine's report alone |
| SelfHostProgress.CeremonyCompletes | server/self_service.go:40-163 | after any run of the process, any ceremony of n nodes that has not begun and whose shares load can be brought to its end with any fitting answers: every node has saved its own, every process has resumed, the primary has replied, the store holds each generated result under its node key or the signature under the message's hash, and other ceremonies are where they were |
| SelfHostProgress.GenerateThenSign | server/self_service.go:40-163 | after any run, keys can be generated and then signed with: each signing session works with exactly the share its node has just generated, and both ceremonies complete |
| SelfHostProgress.ReportArrives | service/dkg.go:105-127 | after any run, a report to a started session of any node of any ceremony, a failure included, is its answer |
| SelfHostProgress.SessionIff | server/self_service.go:40-163 | after any run, a worker or the primary that comes to its session builds it if and only if its engine agrees and, to sign, the store serves the share under that node's own key; else a worker has an error and the primary has failed |
| SelfHostProgress.WaitEndsEarly | server/self_service.go:82-89 | a waiting primary can take the first error of the channel or its cancelled context |
| SelfHostProgress.FailureIsSent | server/self_service.go:53-71 | a worker whose session cannot be built leaves its error in the channel |
| SelfHostProgress.GivenUpStays | server/self_service.go:74-90 | a primary that has given up stays so for ever, and its engine is never started |
| SelfHostStore.EveryCeremonySafe | server/self_service.go:40-163 | each of any number of overlapping ceremonies keeps all of that, whatever the others and the rest of the process do |
| SelfHostStore.Provenance | server/self_service.go:58-74 | at every moment of every interleaving of any number of ceremonies, a key that the RPC path of the process has not written holds the result of a node that has saved under it, or what it held at first when none has |
| SelfHostStore.SigningKeepsShares | server/self_service.go:107-163 | until its own node saves a new share or a key generation or reshare over RPC names it, no answer for a node key changes, whatever else is signed or generated |
| SelfHostHistory.StoreIsHistory | server/self_service.go:58-163 | with any number of overlapping ceremonies and anything on the RPC path, the shared store is the initial one after the operations of the run, in order; each is the write of a node that has saved or one of the RPC path, and no node has saved without it |
| SelfHostShares.RecordOfNode | server/self_service.go:58-74 | the record of a node is the last thing written under its key with the last share reshared since; that is the node's own result, there once the node has saved, unless a key generation over RPC has named the very key, and only reshares that name it change the share |
| SelfHostShares.DkgServesEveryNode | server/self_service.go:40-93 | in any database and whatever else goes on, the key of a node that has saved serves the result last saved there with the share last reshared since, ready for the engine; the result is the node's own unless a key generation over RPC has named the key |
| SelfHostShares.DkgServesOwnResult | server/self_service.go:40-93 | where nothing over RPC has named the key, that is exactly what the node has generated |
| SelfHostShares.SignsWithOwnShare | server/self_service.go:118-142 | with any number of overlapping ceremonies and anything on the RPC path, also during late saves: every signing session of node i holds the share its own record held at a moment of the run, which is that of the result last saved for the node by then with the share last reshared since, asked for by its own public key |
| SelfHostShares.SignsWithGeneratedShare | server/self_service.go:40-163 | when the key is new and nothing over RPC names it, that is exactly the share node i has generated |
| SelfHostOutcome.ReplyIsWhatIsStored | server/tss.go:105-110 | the primary's answer never changes after the reply, and once its callback has saved, however late, the write of that answer is among the operations that make the store; the store holds it unless the RPC path has written that key, in signing when the nodes agree |
| SelfHostOutcome.ConfluenceAt | server/self_service.go:58-74 | two runs with the same saved results end with the same under every key that the RPC path has not written, whatever it did elsewhere, when writers of that key agree |
| SelfHostOutcome.Confluence | server/self_service.go:58-74 | and without the RPC path in the same store |
| SelfHostOutcome.DkgUnanimous | server/self_service.go:62-74 | key generations always meet that condition: every key has one writer |
| SelfHostOutcome.ConfluenceAtRestAt | server/self_service.go:58-74 | at rest, the engine's answers, the database's verdicts and which nodes the engine has reported to determine every key that the RPC path has not written, whatever the order of events and whatever the RPC path did elsewhere; sessions that never get a report, such as those of an aborted primary, are allowed |
| SelfHostOutcome.ConfluenceAtRest | server/self_service.go:58-74 | and without the RPC path they determine the whole store |
| SelfHostOutcome.StoreAtRest | service/dkg.go:105-127 | at rest a key that the RPC path has not written holds a result that was due there from a node with a report, and what it held at first where none was due |
| SelfHostOutcome.SignatureStored | service/signer.go:143-147 | when the nodes agree on (r, s), any save leaves that signature under the message's hash, and its texts read back as r and s |
| RpcCeremony.CoordinatorStartsLast | server/tss.go:91-116 | over the very event by which the coordinator's process comes to run: before it the handler is registered and the session not started; every called peer has a session, one more for each lost reply, and its handler unless a terminal callback there removed it |
| RpcCeremony.StartIsNow | server/tss.go:105-110 | the process comes to run by no other event and in no other state than the one in which every peer of the snapshot has answered |
| RpcCeremony.KnownPeersAreServed | server/utils.go:37-64 | every peer known when the snapshot was taken has a session by then |
| RpcCeremony.OwnHandlerFirst | server/tss.go:31-43 | no peer has a session before the coordinator listens |
| RpcCeremony.OneRequest | server/rpc_peer.go:42-96 | every session on every host is for the coordinator's own request, whatever transport carried it and whatever the JSON decoder does |
| RpcCeremony.HostStores | server/rpc_peer.go:42-96 | each host's store is the initial one after its operations in order; each session has written its own answer exactly once if its store operation succeeded and not at all otherwise, and works with the share its own host held when it was built |
| RpcCeremony.RunInv | server/tss.go:22-116 | the inductive invariant of the ceremony over every run, lost replies and second sessions included |
| RpcOutcome.HostKeys | server/rpc_peer.go:42-96 | whatever else uses the stores, every key of every host holds the last thing written there with the last share since |
| RpcOutcome.SigningKeepsShareIff | service/signer.go:130-157 | on a host where nothing else uses the key of the share, the share record survives a signing unless a session there has saved and the message's hash is that key |
| RpcOutcome.ReshareRenewsShare | service/reshare.go:95-117 | on a host where nothing else uses the key, the old public key is served with a share that a session of that host has saved, or with the old share while none has |
| RpcOutcome.DkgServesEveryHost | service/dkg.go:105-127 | on a host where nothing else uses the hash, a result that a session there has saved is served, ready for the engine, whatever was there before; while none has saved, what was there stays |
| RpcOutcome.SigningStoresSignature | service/signer.go:143-147 | a host on which a session has saved holds a signature saved there under the message's hash |
| RpcOutcome.ReplyIsWhatIsStored | server/tss.go:22-116 | once the coordinator's process has resumed its answer never changes, and once its callback has saved, however late, the write of that answer is one of the operations that make its store, which serves that key, share or signature unless something else has used its key |
| RpcOutcome.HostAtRest | service/signer.go:112-157 | at rest every session of every host that has a report has finished and resumed, and has written exactly when its store operation succeeded, which for key generation and signing means there was a result and the transaction committed |
| RpcOutcome.ReshareHasWrittenIff | service/reshare.go:100-112 | a reshare session whose callback has finished has written exactly when there was a share, the transaction committed, and the operations made on that host's store by then had left a result under the key |
| FanOut.RpcToPeer | server/utils.go:37-64 | the calls made, each to a peer of the map at its own address, and a wait-group counter of zero at the wait |
| FanOut.SendToPeer | server/rpc_peer.go:126-140 | retries until the first success and reports to the wait group once |
| FanOut.EachPeerAnswersOnce | server/utils.go:37-64 | each peer of the snapshot gives exactly one successful answer after exactly its failures, and nobody else is called |
| FanOut.FanOutDials | server/utils.go:37-64 | every call goes to a peer of the snapshot at the address the peer map gives it, and after a failed one the same peer is called again |
| FanOut.AnswersInOrder | server/utils.go:37-64 | the successful answers are those of the snapshot's peers, at their addresses, in the order of the snapshot |
| Requests.RequestAgreement | server/utils.go:18-35 | every request that reaches a peer is decoded to exactly the coordinator's request, over gRPC and HTTP, because the coordinator's own store has served it |
| Requests.WireRoundTrip | proto/tss.proto:19-28 | the wire form of every request decodes to the request |
| Requests.WireIsNotJson | server/utils.go:19-22 | those wire forms are never valid JSON |
| Requests.UnmarshalRequest | server/utils.go:18-35 | JSON first, then protobuf over a cleared request with unknown fields and well-formed groups skipped, else one error |
| Requests.FallbackIsFresh | server/utils.go:18-35 | what is no JSON is read as protobuf over a cleared request |
| Requests.OtherFieldSkipped | server/utils.go:22 | a field of any other kind or number changes nothing, nested groups included |
| Requests.BadFieldRefused | server/utils.go:22 | stray end tags, unknown kinds and values cut short are refused |
| Requests.BadTextRefused | server/utils.go:22 | a text of the request that is not UTF-8 is refused wherever it stands |
| RequestJson.RequestTextIsRead | server/utils.go:18-35 | every JSON text of a request, with its members in any order, strings in any spelling and white space anywhere, is valid, so the decoder's answer is the answer, and peers read what the coordinator has read |
| RequestJson.EveryRequestHasText | server/utils.go:18-35 | and every request, whatever bytes are in it, has such a text |
| JsonGrammar.ValidIff | server/utils.go:19 | the scanner accepts exactly the texts that the grammar of RFC 8259 writes with at most 10000 arrays and objects open at once |
| JsonScanner.ControlBytesInvalid | server/utils.go:19 | no text with a control byte other than white space is JSON, wherever it stands |
| Peers.ConnectedIsFullMesh | server/self_service.go:204-234 | if only cluster nodes are announced, a successful wait means each node lists exactly the others, then and later, so all thresholds are n-1, which is the reshare threshold exactly for n = 3 |
| Peers.FullMeshIff | server/self_service.go:215-230 | with enough peers everywhere the mesh is full if and only if no stranger is listed |
| Peers.StrangerFoolsWait | server/self_service.go:204-234 | a run of three nodes and a stranger in which the wait succeeds and the first node has never met the third |
| Peers.WaitIff | server/self_service.go:204-234 | the wait succeeds if and only if some tick finds enough peers everywhere and no tick up to it comes after the deadline; it times out if and only if some tick comes after the deadline and none before it finds them; else it goes on |
| Peers.SeenAllIff | peer/discovery.go:26-39 | a host lists exactly the peers it listed before and those it was notified of and could dial, never itself |
| Peers.AddressOfLast | peer/pm.go:91-98 | a listed peer is dialled at the last address it was seen with, followed by /p2p/ and its id |
| Peers.FullMeshStays | peer/discovery.go:26-39 | later announcements of cluster nodes keep it full |
| Peers.WaitForPeers | server/self_service.go:204-234 | connected at the first tick that finds enough peers everywhere, unless the deadline came first |
| Peers.LooksConnected | server/self_service.go:215-227 | true exactly when no manager has fewer than n-1 peers |
| Peers.P2PManager.PeerIDs | peer/pm.go:49-58 | every peer once |
| Peers.P2PManager.ClonePeerManager | peer/pm.go:34-39 | another protocol over the same, shared peer map |
| Peers.P2PManager.HandlePeerFound | peer/discovery.go:26-39 | never the host itself, and only peers that can be dialled |
| Peers.P2PManager.AddPeerID | peer/pm.go:91-98 | the peer's address with its id, replacing an older one |
| SelfService.NewSelfService | server/self_service.go:237-268 | either all hosts are open and untouched, or exactly those opened before the first refusal exist and each was asked to close once |
| SelfService.Cluster.Close | server/self_service.go:271-291 | every host is asked to close whatever the others answer, and success means all did |

## Left out

- FanOut.RpcToPeer: does not model a peer that fails forever, where the original never returns; each peer fails a finite number of times.
- FanOut.SendToPeer: the dialling and the call are one attempt that succeeds or fails; sleeping between attempts is not modelled.
- SelfService.NewSelfService: host creation is an input that succeeds or fails per port; identities and network options are not modelled.
- Requests.UnmarshalRequest: what a valid JSON text decodes to is an arbitrary function.
- RequestJson.RequestTextIsRead: strings with escaped surrogates are valid JSON like all others (JsonGrammar.ValidIff), but what they stand for is left to the decoder.
- Requests.WireRoundTrip: for texts shorter than 2^63 bytes, as Go's are, that are all UTF-8, as the original's encoder demands.
- TssCaller.Caller.Run: the wait for the engine is not inside this method but in the steps of Session, because others act meanwhile.
- MockStore.MockDB: the two maps belong to one instance, where the original shares them between all instances; GetDKGResultData of the mock is a plain lookup.
- SelfHostOutcome.ReplyIsWhatIsStored: what the store holds is said, as in SelfHostStore.Provenance, SelfHostOutcome.StoreAtRest, SelfHostOutcome.SignatureStored and SelfHostOutcome.ConfluenceAt, for keys that the RPC path of the process has not written; SelfHostHistory.StoreIsHistory has no such condition.
- SelfHostShares.SignsWithOwnShare: a share loaded from a record that nothing had written yet is described where the record held, at first, something this program had written there.
- SelfHostOutcome.SignatureStored: for nodes that agree on the signature; when they do not, Provenance still says the store holds one of theirs.
- RpcOutcome.SigningKeepsShareIff: like RpcOutcome.ReshareRenewsShare, RpcOutcome.DkgServesEveryHost, RpcOutcome.SigningStoresSignature and the store part of RpcOutcome.ReplyIsWhatIsStored, for hosts where nothing else uses the key meanwhile; RpcCeremony.HostStores and RpcOutcome.HostKeys have no such condition.
- JSON text of stored records: records are trees, so string escaping, replacement of bytes that are not UTF-8 and case-insensitive member names are not modelled.
- Short salts: slicing a salt below 16 bytes is a panic here; the language allows it up to the capacity of the converted slice, and an implementation that leaves room there encrypts under a vector padded with zeros instead.
- Texts with negative coordinates are reported as not on the curve.
- The engine's key generation, signing, resharing and Birkhoff mathematics, AES, Keccak and the group law of the curve: library code, abstract here.
- Message streams between engines (send, connect, Handle, MustSend, EnsureAllConnected) and their retries: network plumbing.
- HTTP, JSON-RPC and gRPC servers, multicast discovery, configuration and keystore files, logging, clocks.
- Guards for nil callers and empty hashes or messages, and CreatePm's discovery errors: single branches that end the request.
- EthSignMessage, ToEcdsaP256, RandomHash and the elliptic check behind CheckSignature: single-branch checks, randomness or library code.
