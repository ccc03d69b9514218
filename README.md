# kroma-prover-proxy core, modelled in Dafny

The prover proxy sits in front of an expensive zk prover that runs on a cloud
instance, and has three parts:

1. **Request coalescer** (`ProofService`, `internal/proof/service.go`). It
   answers a prove request from the store when it can. Otherwise it makes sure
   that exactly one producer computes the proof for the request's id, and
   every caller for that id waits on one completion handle. The instance is
   started on demand, and the producer releases it once nothing is in flight.
2. **Instance controller** (`Ec2`, `internal/ec2/controller.go`). It caches a
   "believed running" flag and the prover's address. It starts and stops the
   instance only when that flag says so.
3. **Proof store** (`ProofDisk`, `internal/proof/disk_repository.go`). It is a
   directory of entries keyed by id. A sweep deletes entries that are older
   than the retention window or that record an error.

Concurrency is replaced by explicit events:

- `Service.Lookup` is a request's store lookup, taken before the lock.
  `Service.Admit` is the same request taking the lock: it joins the
  producer in flight for the id, or runs withClient to register one. It
  returns either an answer, or the handle to wait on. `Service.Prove` is the
  two steps back to back. Calling `Lookup` and `Admit` separately, with
  other events between them, expresses the window the source leaves open
  between the two steps.
- `Service.ProducerComplete` is the producer goroutine running to its end.
- `Service.Await` is a waiter waking up once its own id's producer has fired
  its handle.

A `sync.WaitGroup` is a number. The service's `signaled` set holds the handles
that have fired. A ghost event log records the order of effects. The class
invariant ties that log to the registry:

- the multiset of in-flight ids equals the registry's key set, so no id ever
  has two producers;
- every signal comes right after its entry was handed to the store (whether
  or not the write succeeded) and its id was deregistered;
- a stop is only requested when the log before it has nothing in flight
  (counted from the log itself, not from the registry size the stop event
  records).

The answers of the cloud, the prover, the readiness probes and the file
system are parameters: a describe outcome or a script of them, a start or
stop outcome, and how a write ended (written, failed before the file was
opened, or failed after it was truncated).

- MD5 is an uninterpreted function that returns 16 bytes.
- JSON decoding becomes a `Json` value, or `None` when the text does not
  decode.
- Times are integer milliseconds.

A stored entry has the shape that `service.go` uses: payload bytes, an error
message, and an optional JSON-RPC error. An entry "records an error" when its
message is non-empty. Code -32000 is the first code of the server-error range
in section 5.1 of the JSON-RPC 2.0 specification. The proxy uses it for
errors that are not JSON-RPC errors from the prover.

Two declarations in the source disagree about the stored entry.
`disk_repository.go:13-17` declares `FileProof.Error` as a Go `error` and has
no `RpcError` field. `service.go`, however, takes `len(proof.Error)` and reads
`proof.RpcError`. The model follows `service.go`, and the sweep's `hasError`
test (`proof.Error != nil`) becomes "the message is non-empty".

An edge case kept from the code: if a backend error has an empty message, the
saved entry looks like an empty success. `ProofService.ProducedResponse` states
the answer only for errors with a non-empty message.

## Model

| member | source | states |
|---|---|---|
| ProofService.ComputeId | internal/proof/service.go:122-125 | the id is 32 lower-case hex characters, made from the 16-byte digest of the trace |
| ProofService.ComputeIdSameDigest | internal/proof/service.go:122-125 | two traces have the same id exactly when they have the same digest |
| ProofService.ReadBlockNumber | internal/proof/service.go:127-145 | returns `header.number` when the trace is an object whose `header` is an object whose `number` is a string; in every other case (not JSON, no header, header not an object, number not a string) returns "" |
| ProofService.BuildFileProof | internal/proof/service.go:58-66 | the entry's payload is copied only when there is a result; the message is set only when there is an error; the JSON-RPC error is present exactly when the error's unwrapping chain ends in one, and it is that error |
| ProofService.NewProofResponseFromFileProof | internal/proof/service.go:147-161 | no entry gives "unexpected error"; an entry with a message gives its stored JSON-RPC error, or a -32000 error carrying the message when none is stored; otherwise the stored payload; success exactly when an entry exists and records no error |
| ProofService.ProducedResponse | internal/proof/service.go:56-79 | a waiter reading a fresh entry gets the prover's payload on success, the prover's own JSON-RPC error unchanged, and any other error (non-empty message) as a -32000 error carrying that message |
| ProofService.RpcErrorShowsInMessage | internal/proof/client.go:55 | an error whose chain ends in a JSON-RPC error has a non-empty message, so its entry is always treated as failed |
| ProofService.FirstReady | internal/proof/service.go:105-118 | the index of the first probe that ends the readiness wait: every earlier probe failed with a connection error |
| ProofService.AwaitReady | internal/proof/service.go:105-118 | probes until the first success or non-connection error, using exactly that many probes; connection errors are retried; the result is that probe's outcome |
| ProofService.ReadyOutcome | internal/proof/service.go:98-118 | the preparation succeeds only when the instance is believed running; a start failure is that failure; after a successful start, the result is the probe that ended the wait, so a non-connection probe error makes the preparation fail before the callback runs |
| ProofService.AtMostOneProducer | internal/proof/service.go:38-44 | while the log agrees with the registry, each registered id has exactly one producer in flight and every other id has none |
| ProofService.StopsOnlyWhenIdleAt | internal/proof/service.go:51-53 | in a log that keeps the stop invariant, every stop request is preceded by a log with no producer in flight |
| ProofService.StopAfterRegisterDisagrees | internal/proof/service.go:51-53 | a stop requested right after a producer registered (with any recorded count) never agrees with any registry |
| ProofService.LogSignal | internal/proof/service.go:46-54 | a signal appended right after the save and deregistration of its id (with at most a stop request between them) keeps every signal after its save |
| ProofService.WithClientAgrees | internal/proof/service.go:91-120 | a withClient run keeps the registry, handles and log in agreement: the id is registered only when preparation succeeded, and a stop is requested only when preparation failed with nothing in flight |
| ProofService.ProducerAgrees | internal/proof/service.go:45-68 | a producer run keeps the registry, handles and log in agreement: its id leaves the registry and its handle fires, after the save |
| ProofService.Service.constructor | internal/proof/service.go:23-29 | over a constructed controller, a new service has an empty registry, no fired handles and an empty log |
| ProofService.Service.StopIfIdle | internal/proof/service.go:92-97 | the stop step runs, and is logged, exactly when the registry is empty; it then issues a stop call only if the instance is believed running |
| ProofService.Service.Register | internal/proof/service.go:42-44 | a fresh handle is entered for the id |
| ProofService.Service.Persist | internal/proof/service.go:67 | the store changes as `Save` says for the given write outcome, and the save is logged |
| ProofService.Service.Deregister | internal/proof/service.go:48-50 | the id leaves the registry, and the removal is logged |
| ProofService.Service.Signal | internal/proof/service.go:46 | the handle joins the fired set, and the firing is logged |
| ProofService.Service.Prepare | internal/proof/service.go:98-118 | starts the instance if it is not believed running, then waits for readiness; the controller's new state is that of StartIfNotRunning |
| ProofService.Service.WithClient | internal/proof/service.go:91-120 | the id is registered exactly when start and readiness succeed, otherwise that error is returned with nothing registered; the deferred stop runs only if a failure left the registry empty; the exact events and cloud calls |
| ProofService.Service.Lookup | internal/proof/service.go:32-36 | the id is the trace's id, and the request is answered exactly when the store holds a parsable entry for it, with that entry's response |
| ProofService.Service.Admit | internal/proof/service.go:37-75 | without reading the store again: an id in flight returns its producer's existing handle and changes nothing; otherwise a failed preparation is answered with its error and nothing is registered, and a successful one registers a producer under a fresh handle; the exact events and cloud calls |
| ProofService.Service.Prove | internal/proof/service.go:31-80 | a cached entry is answered without touching the registry, log or controller; an id already in flight returns its existing handle and spawns nothing; otherwise a failed preparation is answered with its error and a successful one registers a producer under a fresh handle |
| ProofService.Service.ProducerComplete | internal/proof/service.go:45-68 | the entry is handed to the store (a good write stores it, a write failing after the open leaves an unparsable file, a failed open changes nothing), then the id is deregistered, then the instance is stopped only if the registry is now empty, then the handle fires, in exactly that order |
| ProofService.Service.Await | internal/proof/service.go:76-79 | a waiter woken by the signal of its own id's producer answers from what the store now holds for the id |
| ServiceScenarios.WokenWaiterReads | internal/proof/service.go:45-79 | a waiter woken by its id's producer gets the response built from the prover's answer after a good write, "unexpected error" after a write that left the file truncated, and the earlier store content after a failed open |
| ServiceScenarios.ColdStartScenario | internal/proof/service.go:31-80 | empty store, stopped instance: two requests share one producer and handle after two refused probes; both get the payload; the instance is started once and stopped once; a later request is answered from the store with no cloud call |
| ServiceScenarios.LateAdmissionScenario | internal/proof/service.go:34-52 | a request whose lookup missed and which takes the lock only after the producer saved, deregistered and stopped the instance starts the instance again and registers a second producer, although the store holds the entry |
| ServiceScenarios.FailureNotReplayedScenario | internal/proof/service.go:34-44 | a failed proof is answered as the prover's error, swept on the next tick, and a new request registers a new producer instead of replaying the failure |
| Errors.AsRpcError | internal/proof/client.go:50-53 | finds a JSON-RPC error exactly when the unwrapping chain ends in one |
| Errors.IsUrlError | internal/proof/service.go:110-111 | holds exactly when the unwrapping chain ends in a transport (URL) error |
| Errors.ErrorString | internal/proof/client.go:55 | the text of an error: a plain or transport error prints its text; a wrapped one prints its context, ": " and then its cause's text (the `%s: %w` wrappers of controller.go:43-47, 106 and disk_repository.go:30); a JSON-RPC error prints "[" then its code, "] " and ends in its message, so wrapped and JSON-RPC errors never print as "" |
| ProofTypes.NewJsonRpcErrorFromString | internal/proof/client.go:46-48 | code -32000, which lies in the JSON-RPC server-error range, with the message unchanged |
| Ec2.ParseAddressType | internal/ec2/controller.go:33-36 | accepted exactly when the trimmed, lower-cased text is "private" or "public", and the result is that type |
| Ec2.NormalizeAddressType | internal/ec2/controller.go:33 | the normalised type is no longer than the input, has no ASCII capital and no leading or trailing white space |
| Ec2.LowerCaseSpellingAccepted | internal/ec2/controller.go:33-36 | any unpadded spelling whose Go lower-case form is "private" selects the private type |
| Ec2.DottedCapitalIAccepted | internal/ec2/controller.go:33-36 | "private" spelt with U+0130 (capital I with dot above) is accepted as the private type, because Go lower-cases U+0130 to "i" |
| Ec2.NormalizeAddressTypeIdempotent | internal/ec2/controller.go:33 | normalising twice is normalising once, and parsing normalised text gives the same answer as parsing the raw text |
| Ec2.ParseAddressTypeName | internal/ec2/controller.go:33-36 | each type's own name ("private", "public") is accepted and selects that type |
| Ec2.FirstInEntriesIsFirstCandidate | internal/ec2/controller.go:77-90 | scanning one interface's entries gives its first non-empty candidate address, skipping nil entries |
| Ec2.FirstInInterfacesIsFirstCandidate | internal/ec2/controller.go:75-93 | scanning the interfaces in order gives the first non-empty candidate address, skipping nil interfaces |
| Ec2.FindAddressSpec | internal/ec2/controller.go:74-95 | "" exactly when no entry has a non-empty address of the mode; otherwise schema://address:port for the first such address in order |
| Ec2.FindAddress | internal/ec2/controller.go:74-95 | "" or a URL beginning with the configured schema and "://" (the full characterisation is `FindAddressSpec`) |
| Ec2.PublicModeUsesAssociationOnly | internal/ec2/controller.go:82-86 | in public mode an entry with no association contributes nothing, and private addresses are ignored |
| Ec2.FirstEnd | internal/ec2/controller.go:103-112 | the index of the first describe that failed or saw "stopped"; every earlier one saw another state |
| Ec2.RunningInstanceNeverAwaited | internal/ec2/controller.go:103-112 | an instance that is "running" while the controller believes it stopped never ends the wait for "stopped", however many describes are made |
| Ec2.AwaitStopped | internal/ec2/controller.go:103-112 | re-describes until the instance is stopped or a describe fails, using exactly that many describes; a failure is wrapped with the instance id |
| Ec2.StartSpec | internal/ec2/controller.go:97-120 | after a start attempt the instance is believed running exactly when the attempt reports success; a running instance sees no cloud call; a start is issued only right after a stopped describe |
| Ec2.StopSpec | internal/ec2/controller.go:122-133 | a stop is issued only when believed running; success clears the flag and failure keeps it set |
| Ec2.Controller.UpdateState | internal/ec2/controller.go:54-64 | one describe; on success, running means "running" or "pending", the address is recomputed, and an empty address is an error; a failed describe changes nothing |
| Ec2.Controller.Init | internal/ec2/controller.go:45 | the zero-valued controller for the instance id: no address, believed stopped, no cloud call |
| Ec2.Controller.IpAddress | internal/ec2/controller.go:52 | returns the cached, non-empty address |
| Ec2.Controller.StartIfNotRunning | internal/ec2/controller.go:97-120 | no-op with no cloud call when believed running; otherwise the result, new flag and calls are given by describe-until-stopped and then start; the address is unchanged |
| Ec2.Controller.StopIfRunning | internal/ec2/controller.go:122-133 | stop issued only when believed running; the flag is cleared only on success; the address is unchanged |
| Ec2.MustNewController | internal/ec2/controller.go:26-50 | construction succeeds exactly when the type parses, the session opens, the describe succeeds and an address is found; then the controller is fresh and valid, its flag comes from the described state, its address is the found one, and exactly one describe was issued |
| ProofDisk.NormalizeBaseDir | internal/proof/disk_repository.go:33-35 | the directory ends in "/", and "/" is appended exactly when it was missing |
| ProofDisk.NormalizeBaseDirIdempotent | internal/proof/disk_repository.go:33-35 | normalising twice is normalising once |
| ProofDisk.NewDiskRepository | internal/proof/disk_repository.go:26-45 | fails only when the directory is missing and cannot be created; otherwise a store over the normalised directory with a 7-day retention and a 10-minute sweep interval |
| ProofDisk.DiskRepository.Open | internal/proof/disk_repository.go:33-43 | a store over the normalised directory, with the 7-day retention and 10-minute sweep period, over the given files |
| ProofDisk.DiskRepository.Find | internal/proof/disk_repository.go:47-56 | an entry exactly when the file exists and parses, and it is the parsed content |
| ProofDisk.DiskRepository.Save | internal/proof/disk_repository.go:58-66 | a successful write replaces the entry for the id, stamped with the write time; a write failing after the open leaves an unparsable file stamped with that time; a failed open changes nothing; every other id is unchanged |
| ProofDisk.SaveThenFind | internal/proof/disk_repository.go:47-66 | after a successful save, Find returns the saved entry, and every other id reads as before |
| ProofDisk.TruncatedWriteLosesEntry | internal/proof/disk_repository.go:58-66 | after a write that failed past the open, Find finds nothing for the id, and the sweep keeps the truncated file until the retention window has passed; every other id reads as before |
| ProofDisk.DiskRepository.DeleteOldProof | internal/proof/disk_repository.go:83-103 | afterwards the store is the swept directory, and the count is the number of removals that succeeded |
| ProofDisk.DiskRepository.SweepTick | internal/proof/disk_repository.go:74 | on a store configured as `Open` leaves it, one tick sweeps with cutoff now minus the 7-day retention |
| ProofDisk.SweptExactly | internal/proof/disk_repository.go:83-101 | a file survives exactly when it is not expired or its removal failed, and survivors are unchanged |
| ProofDisk.SweepAccounts | internal/proof/disk_repository.go:95-99 | the number of surviving files plus the number removed is the number of files listed, so the count never overstates |
| ProofDisk.SweepDropsFailures | internal/proof/disk_repository.go:87-94 | an entry recording an error is removed whatever its age; an unparsable file is removed only by age |
| ProofDisk.TenSavedSweep | internal/proof/disk_repository_test.go:26-35 | ten entries saved one second apart and swept with cutoff start+5s leave exactly the last five |
| ProofDisk.DeleteOldProofScenario | internal/proof/disk_repository_test.go:26-35 | the same run on the class: ten saves, one sweep, five deleted, and ids "5" to "9" remain |
| ProofDisk.RetentionScenario | internal/proof/disk_repository.go:83-101 | with the default retention an 8-day-old entry goes, a 1-day-old one stays, and a fresh failed one goes |
| Text.HexDecodeEncode | internal/proof/service.go:124 | hex encoding, as used for ids, can be decoded back to the digest |

## Left out

- The gRPC/HTTP server binding in `internal/proof/server.go` is not modelled. It declares a second, stale coalescer.
- `internal/proof/client.go` is not modelled apart from the JSON-RPC error record, its `-32000` constructor and its message format. The prover's answers are parameters. The `Data` field of the error is dropped because nothing reads it.
- `cmd/prover/main.go` and `cmd/prover/flag.go` (flags, server start-up, signals) are not part of this model.
- `Service.Spec` is not modelled. It runs withClient (`service.go:82-85`, `91-120`) with the prover's spec call as the callback. So it starts the instance if it is not believed running, runs the readiness poll, and on return stops the instance if the registry is empty. It does this without holding the service's lock, so its deferred check can stop the instance while a `Prove` that holds the lock is still in its readiness loop with nothing registered yet. The model has no event for that interleaving.
- `Service.Close` is not modelled. It only cancels the store's background sweep.
- Real concurrency (goroutines, the mutexes, `sync.WaitGroup`) is replaced by the explicit events above. The unlocked reads of the registry's size in the producer and in `withClient` are a race, and the model does not capture it. One consequence it leaves out: a producer can read a size of 0 after a new request's `StartIfNotRunning` has found the instance believed running; the producer's stop then lands, and that request's readiness loop probes a stopped instance forever while it holds the service's lock.
- `NewProverClient` is not modelled because it cannot fail. Readiness is a script of probe outcomes.
- `time.Sleep`, the ticker and the `scheduleDeleteOldProof` loop are left out. `SweepTick` is one tick.
- The unbounded waits (describe-until-stopped, probe-until-ready) are modelled over finite scripts. A precondition requires that the script contains an outcome that ends the wait, so a wait that never ends is not modelled.
- Ec2.AwaitStopped: requires a script that ends the wait. In the source, an instance believed stopped that reports "running" (started from outside the proxy), "pending", "shutting-down" or "terminated" is re-described forever with the controller's lock held (`RunningInstanceNeverAwaited` shows that no finite script ends it). Because `Prove` holds the service's lock through withClient, every later request that misses the store then blocks too.
- `findInstance` returning no instance and no error (no reservations) is excluded by the type of a describe outcome.
- `log.Panic*` in the constructors is modelled as an `Err` result.
- Logging is left out. So is `readBlockNumber`'s role in `Prove`: it only produces log text, so `Prove` does not call it.
- `proofType` is passed through to the prover only. The id ignores it, and the model does too.
- JSON encoding of entries is abstract: a file either holds a parsed entry or is unparsable.
- The payload/error-flag fields that `json` drops or keeps are not modelled.
- ProofDisk.DiskRepository.Save: a write that fails after the open is modelled as an empty, unparsable file. A partial file that happened to parse is not modelled, and neither is a failure of `json.Marshal`, which the source ignores.
- A `*url.Error` is a leaf of the unwrapping chain in the model. In Go it wraps a cause, which the probe classification never inspects.
- Text.ToLower: maps only the code points that Go lower-cases to an ASCII letter ('A' to 'Z', U+0130 and U+212A) and keeps every other letter as it is. This changes only the text of the rejection message for an invalid address type: whether a type is accepted does not depend on those letters.
- Plain and transport errors print as their stored text. The formatting used by the cloud SDK and by `net/url` is not modelled.
