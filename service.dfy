/** The request coalescer in front of the prover: a cache lookup, then at
    most one in-flight producer per request id, which starts the prover
    instance on demand, persists the outcome, deregisters itself and releases
    the instance when nothing else is in flight.

    Concurrency is replaced by explicit events: `Lookup` is a request's store
    lookup before the lock, `Admit` is the same request under the lock (it
    answers at once, or hands back the completion handle to wait on), and
    `Prove` is the two back to back; `ProducerComplete` is the producer
    goroutine running to its end, and `Await` is a waiter waking up after its
    id's handle fired. A completion handle
    (a wait group in the service) is a number; `signaled` holds the fired
    ones. Answers of the cloud and of the prover are parameters. */
module ProofService {
  import opened Wrappers
  import opened Errors
  import opened ProofTypes
  import Text
  import Ec2
  import ProofDisk

  // ---------------------------------------------------------------- request ids

  /** An MD5 digest. */
  type Digest = d: seq<Text.Byte> | |d| == 16 witness seq(16, _ => 0)

  /** computeId: the hex form of the trace's digest. The digest function is a
      parameter, standing in for MD5 over the trace's bytes. */
  function ComputeId(md5: string -> Digest, trace: string): (id: string)
    ensures |id| == 32
    ensures forall i :: 0 <= i < |id| ==> Text.IsLowerHexDigit(id[i])
  {
    Text.HexEncode(md5(trace))
  }

  /** Two traces share an id exactly when they share a digest. */
  lemma ComputeIdSameDigest(md5: string -> Digest, a: string, b: string)
    ensures ComputeId(md5, a) == ComputeId(md5, b) <==> md5(a) == md5(b)
  {
    if ComputeId(md5, a) == ComputeId(md5, b) {
      Text.HexEncodeInjective(md5(a), md5(b));
    }
  }

  // ---------------------------------------------------------------- block number

  /** A decoded JSON value. */
  datatype Json =
    | JNull
    | JBool(b: bool)
    | JNumber(n: int)
    | JString(s: string)
    | JArray(items: seq<Json>)
    | JObject(fields: map<string, Json>)

  /** `doc` is an object whose "header" member is an object whose "number"
      member is the string `n`. */
  predicate HeaderNumber(doc: Option<Json>, n: string)
  {
    && doc.Some? && doc.value.JObject?
    && "header" in doc.value.fields
    && doc.value.fields["header"].JObject?
    && "number" in doc.value.fields["header"].fields
    && doc.value.fields["header"].fields["number"] == JString(n)
  }

  /** readBlockNumber, over the trace as decoded JSON (`None` when it does not
      decode): `header.number` when it is a string inside an object, else "". */
  function ReadBlockNumber(doc: Option<Json>): (number: string)
    ensures forall n :: HeaderNumber(doc, n) ==> number == n
    ensures number != "" ==> HeaderNumber(doc, number)
  {
    var fields := if doc.Some? && doc.value.JObject? then doc.value.fields else map[];
    if "header" in fields then
      match fields["header"]
      case JObject(header) =>
        if "number" in header && header["number"].JString? then header["number"].s else ""
      case _ => ""
    else ""
  }

  // ---------------------------------------------------------------- entries and responses

  /** What the prover client's prove call returned: a result and an error,
      either of which may be nil. */
  datatype BackendOutcome = BackendOutcome(res: Option<ProveResponse>, err: Option<Error>)

  /** The entry the producer saves: the payload when there is a result, the
      error's message and, when the error is a JSON-RPC error, that error. */
  function BuildFileProof(o: BackendOutcome): (p: FileProof)
    ensures o.res.Some? ==> p.finalPair == o.res.value.finalPair && p.proof == o.res.value.proof
    ensures o.res.None? ==> p.finalPair == [] && p.proof == []
    ensures p.rpcError.Some? <==> o.err.Some? && Innermost(o.err.value).RpcErr?
    ensures p.rpcError.Some? ==> Innermost(o.err.value) == RpcErr(p.rpcError.value)
    ensures HasError(p) ==> o.err.Some?
    ensures o.err.Some? ==> p.error == ErrorString(o.err.value)
  {
    var p := FileProof([], [], "", None);
    var p := if o.res.Some? then p.(finalPair := o.res.value.finalPair, proof := o.res.value.proof) else p;
    if o.err.Some? then p.(error := ErrorString(o.err.value), rpcError := AsRpcError(o.err.value)) else p
  }

  /** newProofResponseFromFileProof: no entry is an internal error; an entry
      recording an error becomes that JSON-RPC error (the stored one, or a
      server error carrying the message); any other entry is a response with
      the stored payload. */
  function NewProofResponseFromFileProof(p: Option<FileProof>): (r: Result<ProveResponse, Error>)
    ensures r.Ok? <==> p.Some? && !HasError(p.value)
    ensures r.Ok? ==> r.value.finalPair == p.value.finalPair && r.value.proof == p.value.proof
    ensures p.None? ==> r == Err(Plain("unexpected error"))
    ensures p.Some? && HasError(p.value) && p.value.rpcError.Some? ==> r == Err(RpcErr(p.value.rpcError.value))
    ensures p.Some? && HasError(p.value) && p.value.rpcError.None? ==>
      r == Err(RpcErr(JsonRpcError(ServerErrorCode, p.value.error)))
  {
    if p.None? then Err(Plain("unexpected error"))
    else if |p.value.error| != 0 then
      if p.value.rpcError.Some? then Err(RpcErr(p.value.rpcError.value))
      else Err(RpcErr(NewJsonRpcErrorFromString(p.value.error)))
    else Ok(ProveResponse(p.value.finalPair, p.value.proof))
  }

  /** What a waiter gets back from a freshly produced entry: the prover's
      payload on success, the prover's own JSON-RPC error unchanged, and any
      other error as a server error carrying its message. (An error whose
      message is empty leaves an entry that reads as an empty success.) */
  lemma ProducedResponse(o: BackendOutcome)
    ensures o.err.None? ==>
      NewProofResponseFromFileProof(Some(BuildFileProof(o))) ==
      Ok(if o.res.Some? then o.res.value else ProveResponse([], []))
    ensures o.err.Some? && AsRpcError(o.err.value).Some? ==>
      NewProofResponseFromFileProof(Some(BuildFileProof(o))) == Err(RpcErr(AsRpcError(o.err.value).value))
    ensures o.err.Some? && AsRpcError(o.err.value).None? && ErrorString(o.err.value) != "" ==>
      NewProofResponseFromFileProof(Some(BuildFileProof(o))) ==
      Err(RpcErr(JsonRpcError(ServerErrorCode, ErrorString(o.err.value))))
  {
    if o.err.Some? && AsRpcError(o.err.value).Some? {
      var j := AsRpcError(o.err.value).value;
      assert Innermost(o.err.value) == RpcErr(j);
      RpcErrorShowsInMessage(o.err.value);
    }
  }

  /** An error whose chain ends in a JSON-RPC error has a non-empty message. */
  lemma {:induction false} RpcErrorShowsInMessage(e: Error)
    requires Innermost(e).RpcErr?
    ensures ErrorString(e) != ""
  {
    if e.Wrapped? {
      RpcErrorShowsInMessage(e.cause);
    }
  }

  // ---------------------------------------------------------------- readiness poll

  /** A probe answer that ends the readiness wait: success, or an error that
      is not a connection failure. */
  predicate EndsWait(probe: Outcome<Error>)
  {
    probe.Pass? || !IsUrlError(probe.error)
  }

  predicate WaitEnds(probes: seq<Outcome<Error>>)
  {
    exists k :: 0 <= k < |probes| && EndsWait(probes[k])
  }

  /** The index of the probe that ends the wait. */
  function FirstReady(probes: seq<Outcome<Error>>): (k: nat)
    requires WaitEnds(probes)
    ensures k < |probes| && EndsWait(probes[k])
    ensures forall j :: 0 <= j < k ==> !EndsWait(probes[j])
  {
    if EndsWait(probes[0]) then 0
    else
      assert WaitEnds(probes[1..]) by {
        var k :| 0 <= k < |probes| && EndsWait(probes[k]);
        assert k > 0 && EndsWait(probes[1..][k - 1]);
      }
      1 + FirstReady(probes[1..])
  }

  /** The readiness loop: probe the prover until it answers; a connection
      failure means it is still booting (sleep a second, probe again), any
      other error ends the wait with that error. */
  method AwaitReady(probes: seq<Outcome<Error>>) returns (r: Outcome<Error>, attempts: nat)
    requires WaitEnds(probes)
    ensures attempts == FirstReady(probes) + 1
    ensures r == probes[attempts - 1]
    ensures r.Fail? ==> !IsUrlError(r.error)
    ensures forall j :: 0 <= j < attempts - 1 ==> probes[j].Fail? && IsUrlError(probes[j].error)
  {
    attempts := 0;
    while true
      invariant exists k :: attempts <= k < |probes| && EndsWait(probes[k])
      invariant forall j :: 0 <= j < attempts ==> !EndsWait(probes[j])
      decreases |probes| - attempts
    {
      var probe := probes[attempts];
      attempts := attempts + 1;
      if probe.Pass? {
        return probe, attempts;
      }
      if !IsUrlError(probe.error) {
        return probe, attempts;
      }
    }
  }

  // ---------------------------------------------------------------- the event log

  /** What the service does, in the order it does it. */
  datatype Event =
    | StartRequested                          // StartIfNotRunning invoked
    | Registered(id: string, handle: nat)     // a producer registered and spawned
    | Saved(id: string, write: ProofDisk.WriteOutcome)  // the producer's entry handed to the store
    | Deregistered(id: string)                // the producer's id removed from the registry
    | StopRequested(inFlight: nat)            // StopIfRunning invoked, with the registry's size
    | Signaled(id: string, handle: nat)       // the producer's handle fired

  /** The ids with a producer in flight, counted with multiplicity. */
  ghost function InFlight(log: seq<Event>): multiset<string>
  {
    if log == [] then multiset{}
    else
      var rest := InFlight(log[..|log| - 1]);
      var e := log[|log| - 1];
      if e.Registered? then rest + multiset{e.id}
      else if e.Deregistered? then rest - multiset{e.id}
      else rest
  }

  lemma InFlightAppend(log: seq<Event>, e: Event)
    ensures e.Registered? ==> InFlight(log + [e]) == InFlight(log) + multiset{e.id}
    ensures e.Deregistered? ==> InFlight(log + [e]) == InFlight(log) - multiset{e.id}
    ensures !e.Registered? && !e.Deregistered? ==> InFlight(log + [e]) == InFlight(log)
  {
    assert (log + [e])[..|log|] == log;
  }

  /** The signal at `k` comes right after its id was deregistered (with at
      most a stop request between), which came right after its entry was saved. */
  ghost predicate PersistedBefore(log: seq<Event>, k: int)
    requires 0 <= k < |log| && log[k].Signaled?
  {
    var id := log[k].id;
    || (k >= 2 && log[k - 1] == Deregistered(id) && log[k - 2].Saved? && log[k - 2].id == id)
    || (k >= 3 && log[k - 1].StopRequested? && log[k - 2] == Deregistered(id) && log[k - 3].Saved? && log[k - 3].id == id)
  }

  ghost predicate SignalsFollowPersist(log: seq<Event>)
  {
    forall k | 0 <= k < |log| && log[k].Signaled? :: PersistedBefore(log, k)
  }

  /** Every stop was requested when the log before it had no producer in
      flight. This is read off the log itself, not off the count that the
      stop event carries. */
  ghost predicate StopsOnlyWhenIdle(log: seq<Event>)
  {
    || log == []
    || (var before := log[..|log| - 1];
        && StopsOnlyWhenIdle(before)
        && (log[|log| - 1].StopRequested? ==> InFlight(before) == multiset{}))
  }

  /** The recursive definition says the same as "every stop event sees an
      empty in-flight multiset in the log before it". */
  lemma {:induction false} StopsOnlyWhenIdleAt(log: seq<Event>, k: int)
    requires StopsOnlyWhenIdle(log) && 0 <= k < |log| && log[k].StopRequested?
    ensures InFlight(log[..k]) == multiset{}
  {
    var before := log[..|log| - 1];
    if k < |log| - 1 {
      assert before[k] == log[k] && before[..k] == log[..k];
      StopsOnlyWhenIdleAt(before, k);
    }
  }

  /** The log agrees with the registry `reg`: exactly its ids are in flight,
      every signal follows its entry's save and deregistration, and every
      stop was requested when the log before it had nothing in flight. */
  ghost predicate LogAgrees(log: seq<Event>, reg: map<string, nat>)
  {
    && InFlight(log) == multiset(reg.Keys)
    && SignalsFollowPersist(log)
    && StopsOnlyWhenIdle(log)
  }

  /** While the log agrees with a registry, no id has two producers in
      flight, and exactly the registered ids have one. This is the first
      conjunct of `LogAgrees` read as counts; the work of keeping it is done by
      `LogRegister`, `LogDeregister` and the `WithClientAgrees` and
      `ProducerAgrees` lemmas. */
  lemma AtMostOneProducer(log: seq<Event>, reg: map<string, nat>)
    requires LogAgrees(log, reg)
    ensures forall id :: InFlight(log)[id] == (if id in reg then 1 else 0)
  {
  }

  /** Handles of in-flight producers are distinct, issued and not yet fired. */
  ghost predicate HandlesAgree(reg: map<string, nat>, signaled: set<nat>, next: nat)
  {
    && (forall id | id in reg :: reg[id] < next && reg[id] !in signaled)
    && (forall h | h in signaled :: h < next)
    && (forall a, b | a in reg && b in reg && a != b :: reg[a] != reg[b])
  }

  lemma SetMultisetAdd(s: set<string>, x: string)
    requires x !in s
    ensures multiset(s + {x}) == multiset(s) + multiset{x}
  {
    assert forall y :: multiset(s + {x})[y] == (multiset(s) + multiset{x})[y];
  }

  lemma SetMultisetRemove(s: set<string>, x: string)
    requires x in s
    ensures multiset(s - {x}) == multiset(s) - multiset{x}
  {
    assert forall y :: multiset(s - {x})[y] == (multiset(s) - multiset{x})[y];
  }

  /** Appending an event other than a signal keeps every earlier signal's
      history. */
  lemma SignalsKept(log: seq<Event>, e: Event)
    requires SignalsFollowPersist(log) && !e.Signaled?
    ensures SignalsFollowPersist(log + [e])
  {
    var log' := log + [e];
    forall k | 0 <= k < |log'| && log'[k].Signaled?
      ensures PersistedBefore(log', k)
    {
      assert k < |log|;
      assert PersistedBefore(log, k);
    }
  }

  /** Appending an event other than a stop keeps every earlier stop idle. */
  lemma StopsKept(log: seq<Event>, e: Event)
    requires StopsOnlyWhenIdle(log) && (e.StopRequested? ==> InFlight(log) == multiset{})
    ensures StopsOnlyWhenIdle(log + [e])
  {
    assert (log + [e])[..|log|] == log;
  }

  /** A stop requested right after a producer registered never agrees with
      any registry, whatever count the stop event carries. */
  lemma StopAfterRegisterDisagrees(log: seq<Event>, id: string, h: nat, n: nat, reg: map<string, nat>)
    ensures !LogAgrees(log + [Registered(id, h), StopRequested(n)], reg)
  {
    var log' := log + [Registered(id, h), StopRequested(n)];
    assert log'[..|log| + 1] == log + [Registered(id, h)];
    InFlightAppend(log, Registered(id, h));
    assert id in InFlight(log'[..|log| + 1]);
  }

  /** A start request, a save, or a stop while the registry is empty leaves
      the log in agreement. */
  lemma LogNeutral(log: seq<Event>, reg: map<string, nat>, e: Event)
    requires LogAgrees(log, reg)
    requires e.StartRequested? || e.Saved? || (e == StopRequested(0) && reg == map[])
    ensures LogAgrees(log + [e], reg)
  {
    InFlightAppend(log, e);
    SignalsKept(log, e);
    StopsKept(log, e);
  }

  /** Registering a new id keeps the log in agreement. */
  lemma LogRegister(log: seq<Event>, reg: map<string, nat>, id: string, h: nat)
    requires LogAgrees(log, reg) && id !in reg
    ensures LogAgrees(log + [Registered(id, h)], reg[id := h])
  {
    InFlightAppend(log, Registered(id, h));
    SetMultisetAdd(reg.Keys, id);
    assert reg[id := h].Keys == reg.Keys + {id};
    SignalsKept(log, Registered(id, h));
    StopsKept(log, Registered(id, h));
  }

  /** Deregistering an id keeps the log in agreement. */
  lemma LogDeregister(log: seq<Event>, reg: map<string, nat>, id: string)
    requires LogAgrees(log, reg) && id in reg
    ensures LogAgrees(log + [Deregistered(id)], reg - {id})
  {
    InFlightAppend(log, Deregistered(id));
    SetMultisetRemove(reg.Keys, id);
    assert (reg - {id}).Keys == reg.Keys - {id};
    SignalsKept(log, Deregistered(id));
    StopsKept(log, Deregistered(id));
  }

  /** A signal right after the save and deregistration of its id (with at
      most a stop request between) keeps the log in agreement. */
  lemma LogSignal(log: seq<Event>, reg: map<string, nat>, id: string, h: nat, write: ProofDisk.WriteOutcome)
    requires LogAgrees(log, reg)
    requires
      || (|log| >= 2 && log[|log| - 1] == Deregistered(id) && log[|log| - 2] == Saved(id, write))
      || (|log| >= 3 && log[|log| - 1] == StopRequested(0) && log[|log| - 2] == Deregistered(id)
          && log[|log| - 3] == Saved(id, write))
    ensures LogAgrees(log + [Signaled(id, h)], reg)
  {
    var e := Signaled(id, h);
    var log' := log + [e];
    InFlightAppend(log, e);
    StopsKept(log, e);
    assert PersistedBefore(log', |log|);
    forall k | 0 <= k < |log| && log'[k].Signaled?
      ensures PersistedBefore(log', k)
    {
      assert log'[k] == log[k];
      assert PersistedBefore(log, k);
    }
  }

  lemma HandlesRegister(reg: map<string, nat>, signaled: set<nat>, next: nat, id: string)
    requires HandlesAgree(reg, signaled, next) && id !in reg
    ensures HandlesAgree(reg[id := next], signaled, next + 1)
  {
  }

  /** Removing an id keeps the handles in agreement, and no remaining id
      holds its handle. */
  lemma HandlesRelease(reg: map<string, nat>, signaled: set<nat>, next: nat, id: string)
    requires HandlesAgree(reg, signaled, next) && id in reg
    ensures HandlesAgree(reg - {id}, signaled, next)
    ensures reg[id] < next
    ensures forall x | x in reg - {id} :: (reg - {id})[x] != reg[id]
  {
  }

  // ---------------------------------------------------------------- the service

  /** One step of a prove request: an answer now, or the handle to wait on. */
  datatype ProveStep = Answered(result: Result<ProveResponse, Error>) | Waiting(id: string, handle: nat)

  /** The proof type passed through to the prover. */
  type ProofType = int

  /** The outcome of withClient's preparation: the start attempt's error, else
      the probe that ended the readiness wait. */
  function ReadyOutcome(running: bool, instanceId: string, describes: seq<Ec2.DescribeOutcome>,
                        start: Outcome<Error>, probes: seq<Outcome<Error>>): (r: Outcome<Error>)
    requires running || Ec2.PollEnds(describes)
    requires WaitEnds(probes)
    ensures r.Pass? ==> Ec2.RunningAfterStart(running, describes, start)
    ensures r.Fail? && !Ec2.RunningAfterStart(running, describes, start) ==>
      r == Ec2.StartOutcome(running, instanceId, describes, start)
    ensures r.Fail? && Ec2.RunningAfterStart(running, describes, start) ==> !IsUrlError(r.error)
    ensures Ec2.RunningAfterStart(running, describes, start) ==> r == probes[FirstReady(probes)]
  {
    Ec2.StartSpec(running, instanceId, describes, start);
    var started := Ec2.StartOutcome(running, instanceId, describes, start);
    if started.Fail? then started else probes[FirstReady(probes)]
  }

  /** The events of one withClient run for `id`, given how its preparation
      ended and whether the deferred stop found the registry empty. */
  function WithClientEvents(id: string, handle: nat, ready: Outcome<Error>, idle: bool): seq<Event>
  {
    [StartRequested]
      + (if ready.Pass? then [Registered(id, handle)] else [])
      + (if idle then [StopRequested(0)] else [])
  }

  /** The events of one producer run for `id` holding `handle`. */
  function ProducerEvents(id: string, handle: nat, write: ProofDisk.WriteOutcome, idle: bool): seq<Event>
  {
    [Saved(id, write), Deregistered(id)] + (if idle then [StopRequested(0)] else []) + [Signaled(id, handle)]
  }

  /** A withClient run keeps the registry, the handles and the log in
      agreement: the registry grows by `id` exactly when the preparation
      succeeded, and a stop is requested only when it failed with nothing in
      flight. */
  lemma WithClientAgrees(log: seq<Event>, reg: map<string, nat>, signaled: set<nat>, next: nat,
                         id: string, ready: Outcome<Error>,
                         log': seq<Event>, reg': map<string, nat>, next': nat)
    requires LogAgrees(log, reg) && HandlesAgree(reg, signaled, next) && id !in reg
    requires log' == log + WithClientEvents(id, next, ready, ready.Fail? && reg == map[])
    requires reg' == if ready.Pass? then reg[id := next] else reg
    requires next' == if ready.Pass? then next + 1 else next
    ensures LogAgrees(log', reg') && HandlesAgree(reg', signaled, next')
  {
    LogNeutral(log, reg, StartRequested);
    var started := log + [StartRequested];
    if ready.Pass? {
      LogRegister(started, reg, id, next);
      HandlesRegister(reg, signaled, next, id);
      assert log' == started + [Registered(id, next)];
    } else if reg == map[] {
      LogNeutral(started, reg, StopRequested(0));
      assert log' == started + [StopRequested(0)];
    } else {
      assert log' == started;
    }
  }

  /** A producer run keeps the registry, the handles and the log in
      agreement: its id leaves the registry and its handle fires. */
  lemma ProducerAgrees(log: seq<Event>, reg: map<string, nat>, signaled: set<nat>, next: nat,
                       id: string, write: ProofDisk.WriteOutcome,
                       log': seq<Event>, reg': map<string, nat>, signaled': set<nat>)
    requires LogAgrees(log, reg) && HandlesAgree(reg, signaled, next) && id in reg
    requires reg' == reg - {id} && signaled' == signaled + {reg[id]}
    requires log' == log + ProducerEvents(id, reg[id], write, reg' == map[])
    ensures LogAgrees(log', reg') && HandlesAgree(reg', signaled', next)
  {
    var h := reg[id];
    LogNeutral(log, reg, Saved(id, write));
    var saved := log + [Saved(id, write)];
    LogDeregister(saved, reg, id);
    var deregistered := saved + [Deregistered(id)];
    var stopped := deregistered;
    if reg' == map[] {
      LogNeutral(deregistered, reg', StopRequested(0));
      stopped := deregistered + [StopRequested(0)];
    }
    LogSignal(stopped, reg', id, h, write);
    assert log' == stopped + [Signaled(id, h)];
    HandlesRelease(reg, signaled, next, id);
  }

  class Service {
    const disk: ProofDisk.DiskRepository
    const ec2: Ec2.Controller
    const md5: string -> Digest
    /** The registry: each in-flight id and its producer's completion handle. */
    var inProgressProof: map<string, nat>
    /** The handles that have fired. */
    var signaled: set<nat>
    /** The next handle to hand out. */
    var nextHandle: nat
    /** Everything the service did, oldest first. */
    ghost var events: seq<Event>

    ghost predicate Valid()
      reads this
    {
      && HandlesAgree(inProgressProof, signaled, nextHandle)
      && LogAgrees(events, inProgressProof)
    }

    /** NewService: an empty registry over the given store and controller. */
    constructor (disk: ProofDisk.DiskRepository, ec2: Ec2.Controller, md5: string -> Digest)
      requires ec2.Valid()
      ensures Valid()
      ensures this.disk == disk && this.ec2 == ec2 && this.md5 == md5
      ensures inProgressProof == map[] && signaled == {} && nextHandle == 0 && events == []
    {
      this.disk := disk;
      this.ec2 := ec2;
      this.md5 := md5;
      inProgressProof := map[];
      signaled := {};
      nextHandle := 0;
      events := [];
    }

    /** The deferred stop-if-idle step: release the instance when no id is in
        flight. */
    method StopIfIdle(stop: Outcome<Error>)
      modifies this`events, ec2`running, ec2`calls
      ensures events == old(events) + (if inProgressProof == map[] then [StopRequested(0)] else [])
      ensures ec2.running == if inProgressProof == map[] then Ec2.RunningAfterStop(old(ec2.running), stop) else old(ec2.running)
      ensures ec2.calls == old(ec2.calls) + if inProgressProof == map[] then Ec2.StopCalls(old(ec2.running)) else []
    {
      if |inProgressProof| == 0 {
        events := events + [StopRequested(|inProgressProof|)];
        ec2.StopIfRunning(stop);
      }
    }

    /** The producer registration that Prove runs inside withClient: a fresh
        handle for `id`, entered into the registry. */
    method Register(id: string) returns (handle: nat)
      modifies this`inProgressProof, this`nextHandle, this`events
      ensures handle == old(nextHandle) && nextHandle == handle + 1
      ensures inProgressProof == old(inProgressProof)[id := handle]
      ensures events == old(events) + [Registered(id, handle)]
    {
      handle := nextHandle;
      nextHandle := nextHandle + 1;
      inProgressProof := inProgressProof[id := handle];
      events := events + [Registered(id, handle)];
    }

    /** The part of withClient before the callback: start the instance if it
        is not believed running, then probe the prover until it answers. */
    method Prepare(describes: seq<Ec2.DescribeOutcome>, start: Outcome<Error>, probes: seq<Outcome<Error>>)
      returns (ready: Outcome<Error>)
      requires ec2.running || Ec2.PollEnds(describes)
      requires WaitEnds(probes)
      modifies ec2`running, ec2`calls
      ensures ec2.ipAddress == old(ec2.ipAddress)
      ensures ready == ReadyOutcome(old(ec2.running), ec2.instanceId, describes, start, probes)
      ensures ec2.running == Ec2.RunningAfterStart(old(ec2.running), describes, start)
      ensures ec2.calls == old(ec2.calls) + Ec2.StartCalls(old(ec2.running), describes)
    {
      ready := ec2.StartIfNotRunning(describes, start);
      if ready.Pass? {
        var attempts;
        ready, attempts := AwaitReady(probes);
      }
    }

    /** withClient with the registration as its callback: start the instance
        if needed, wait for the prover to answer, then register `id`; on every
        path, finish by releasing the instance if nothing is in flight. */
    method WithClient(id: string, describes: seq<Ec2.DescribeOutcome>, start: Outcome<Error>,
                      probes: seq<Outcome<Error>>, stop: Outcome<Error>)
      returns (r: Result<nat, Error>)
      requires Valid() && id !in inProgressProof
      requires ec2.running || Ec2.PollEnds(describes)
      requires WaitEnds(probes)
      modifies this`inProgressProof, this`nextHandle, this`events, ec2`running, ec2`calls
      ensures Valid()
      ensures
        var ready := ReadyOutcome(old(ec2.running), ec2.instanceId, describes, start, probes);
        ready.Fail? ==> r == Err(ready.error) && inProgressProof == old(inProgressProof) && nextHandle == old(nextHandle)
      ensures
        var ready := ReadyOutcome(old(ec2.running), ec2.instanceId, describes, start, probes);
        ready.Pass? ==> r == Ok(old(nextHandle)) && inProgressProof == old(inProgressProof)[id := old(nextHandle)]
                        && nextHandle == old(nextHandle) + 1
      ensures
        var ready := ReadyOutcome(old(ec2.running), ec2.instanceId, describes, start, probes);
        events == old(events) + WithClientEvents(id, old(nextHandle), ready, ready.Fail? && old(inProgressProof) == map[])
      ensures
        var ready := ReadyOutcome(old(ec2.running), ec2.instanceId, describes, start, probes);
        var running := Ec2.RunningAfterStart(old(ec2.running), describes, start);
        ec2.running == if ready.Fail? && old(inProgressProof) == map[] then Ec2.RunningAfterStop(running, stop) else running
      ensures
        var ready := ReadyOutcome(old(ec2.running), ec2.instanceId, describes, start, probes);
        var running := Ec2.RunningAfterStart(old(ec2.running), describes, start);
        ec2.calls == old(ec2.calls) + Ec2.StartCalls(old(ec2.running), describes)
                     + (if ready.Fail? && old(inProgressProof) == map[] then Ec2.StopCalls(running) else [])
    {
      ghost var idle := inProgressProof == map[];
      events := events + [StartRequested];
      var ready := Prepare(describes, start, probes);
      if ready.Fail? {
        r := Err(ready.error);
      } else {
        var handle := Register(id);
        assert id in inProgressProof;
        r := Ok(handle);
      }
      StopIfIdle(stop);
      ghost var registered := if ready.Pass? then [Registered(id, old(nextHandle))] else [];
      ghost var stopped := if ready.Fail? && idle then [StopRequested(0)] else [];
      assert events == old(events) + [StartRequested] + registered + stopped;
      assert old(events) + [StartRequested] + registered + stopped == old(events) + ([StartRequested] + registered + stopped);
      WithClientAgrees(old(events), old(inProgressProof), signaled, old(nextHandle), id, ready,
                       events, inProgressProof, nextHandle);
    }

    /** The first step of a prove request, taken before the lock: compute the
        id and look it up in the store. A hit is the answer. */
    method Lookup(trace: string) returns (id: string, answer: Option<Result<ProveResponse, Error>>)
      ensures id == ComputeId(md5, trace)
      ensures answer.Some? <==> disk.Find(id).Some?
      ensures answer.Some? ==> answer.value == NewProofResponseFromFileProof(disk.Find(id))
    {
      id := ComputeId(md5, trace);
      var cached := disk.Find(id);
      answer := None;
      if cached.Some? {
        answer := Some(NewProofResponseFromFileProof(cached));
      }
    }

    /** The second step of a prove request that missed the store, taken under
        the lock: join the producer already in flight for `id`, or run
        withClient to register a new one. The store is not read again, so an
        entry saved since the lookup does not stop a second producer. */
    method Admit(id: string, describes: seq<Ec2.DescribeOutcome>, start: Outcome<Error>,
                 probes: seq<Outcome<Error>>, stop: Outcome<Error>)
      returns (r: ProveStep)
      requires Valid()
      requires id !in inProgressProof ==> ec2.running || Ec2.PollEnds(describes)
      requires id !in inProgressProof ==> WaitEnds(probes)
      modifies this`inProgressProof, this`nextHandle, this`events, ec2`running, ec2`calls
      ensures Valid()
      ensures signaled == old(signaled)
      ensures id in old(inProgressProof) ==>
        && r == Waiting(id, old(inProgressProof)[id])
        && inProgressProof == old(inProgressProof) && nextHandle == old(nextHandle) && events == old(events)
        && ec2.running == old(ec2.running) && ec2.calls == old(ec2.calls)
      ensures
        id !in old(inProgressProof) ==>
          var ready := ReadyOutcome(old(ec2.running), ec2.instanceId, describes, start, probes);
          && (ready.Fail? ==> r == Answered(Err(ready.error)) && inProgressProof == old(inProgressProof)
                              && nextHandle == old(nextHandle))
          && (ready.Pass? ==> r == Waiting(id, old(nextHandle)) && inProgressProof == old(inProgressProof)[id := old(nextHandle)]
                              && nextHandle == old(nextHandle) + 1)
      ensures
        id !in old(inProgressProof) ==>
          var ready := ReadyOutcome(old(ec2.running), ec2.instanceId, describes, start, probes);
          var running := Ec2.RunningAfterStart(old(ec2.running), describes, start);
          var idle := ready.Fail? && old(inProgressProof) == map[];
          && events == old(events) + WithClientEvents(id, old(nextHandle), ready, idle)
          && ec2.running == (if idle then Ec2.RunningAfterStop(running, stop) else running)
          && ec2.calls == old(ec2.calls) + Ec2.StartCalls(old(ec2.running), describes)
                          + (if idle then Ec2.StopCalls(running) else [])
    {
      if id in inProgressProof {
        return Waiting(id, inProgressProof[id]);
      }
      var registered := WithClient(id, describes, start, probes, stop);
      if registered.Err? {
        return Answered(Err(registered.error));
      }
      return Waiting(id, registered.value);
    }

    /** A prove request arriving, with no producer running between its lookup
        and its admission. A cached entry is answered at once and touches
        neither the registry nor the controller; an id already in flight hands
        back its producer's handle; otherwise withClient either fails (nothing
        registered, the error answered) or registers a new producer, whose
        handle the caller then waits on. */
    method Prove(trace: string, proofType: ProofType, describes: seq<Ec2.DescribeOutcome>, start: Outcome<Error>,
                 probes: seq<Outcome<Error>>, stop: Outcome<Error>)
      returns (r: ProveStep)
      requires Valid()
      requires
        var id := ComputeId(md5, trace);
        disk.Find(id).None? && id !in inProgressProof ==> ec2.running || Ec2.PollEnds(describes)
      requires
        var id := ComputeId(md5, trace);
        disk.Find(id).None? && id !in inProgressProof ==> WaitEnds(probes)
      modifies this`inProgressProof, this`nextHandle, this`events, ec2`running, ec2`calls
      ensures Valid()
      ensures signaled == old(signaled)
      ensures
        var id := ComputeId(md5, trace);
        var cached := old(disk.Find(id));
        cached.Some? ==>
          && r == Answered(NewProofResponseFromFileProof(cached))
          && inProgressProof == old(inProgressProof) && nextHandle == old(nextHandle) && events == old(events)
          && ec2.running == old(ec2.running) && ec2.calls == old(ec2.calls)
      ensures
        var id := ComputeId(md5, trace);
        old(disk.Find(id)).None? && id in old(inProgressProof) ==>
          && r == Waiting(id, old(inProgressProof)[id])
          && inProgressProof == old(inProgressProof) && nextHandle == old(nextHandle) && events == old(events)
          && ec2.running == old(ec2.running) && ec2.calls == old(ec2.calls)
      ensures
        var id := ComputeId(md5, trace);
        old(disk.Find(id)).None? && id !in old(inProgressProof) ==>
          var ready := ReadyOutcome(old(ec2.running), ec2.instanceId, describes, start, probes);
          && (ready.Fail? ==> r == Answered(Err(ready.error)) && inProgressProof == old(inProgressProof)
                              && nextHandle == old(nextHandle))
          && (ready.Pass? ==> r == Waiting(id, old(nextHandle)) && inProgressProof == old(inProgressProof)[id := old(nextHandle)]
                              && nextHandle == old(nextHandle) + 1)
      ensures
        var id := ComputeId(md5, trace);
        old(disk.Find(id)).None? && id !in old(inProgressProof) ==>
          var ready := ReadyOutcome(old(ec2.running), ec2.instanceId, describes, start, probes);
          var running := Ec2.RunningAfterStart(old(ec2.running), describes, start);
          var idle := ready.Fail? && old(inProgressProof) == map[];
          && events == old(events) + WithClientEvents(id, old(nextHandle), ready, idle)
          && ec2.running == (if idle then Ec2.RunningAfterStop(running, stop) else running)
          && ec2.calls == old(ec2.calls) + Ec2.StartCalls(old(ec2.running), describes)
                          + (if idle then Ec2.StopCalls(running) else [])
    {
      var id, answer := Lookup(trace);
      if answer.Some? {
        return Answered(answer.value);
      }
      r := Admit(id, describes, start, probes, stop);
    }

    /** The producer for `id` running to its end with the prover's answer:
        save the entry (stamped `now`; `write` says how the write
        ended), then deregister `id`, then release the instance if the
        registry is now empty, then fire the handle. */
    method ProducerComplete(id: string, outcome: BackendOutcome, now: int, write: ProofDisk.WriteOutcome, stop: Outcome<Error>)
      requires Valid() && id in inProgressProof
      modifies this`inProgressProof, this`signaled, this`events, disk`files, ec2`running, ec2`calls
      ensures Valid()
      ensures write.Written? ==> disk.files == old(disk.files)[id := ProofDisk.StoredFile(now, Some(BuildFileProof(outcome)))]
      ensures write.WriteFailed? ==> disk.files == old(disk.files)[id := ProofDisk.StoredFile(now, None)]
      ensures write.OpenFailed? ==> disk.files == old(disk.files)
      ensures inProgressProof == old(inProgressProof) - {id}
      ensures signaled == old(signaled) + {old(inProgressProof)[id]}
      ensures nextHandle == old(nextHandle)
      ensures events == old(events) + ProducerEvents(id, old(inProgressProof)[id], write, inProgressProof == map[])
      ensures ec2.running == if inProgressProof == map[] then Ec2.RunningAfterStop(old(ec2.running), stop) else old(ec2.running)
      ensures ec2.calls == old(ec2.calls) + if inProgressProof == map[] then Ec2.StopCalls(old(ec2.running)) else []
    {
      ghost var log0, reg0, signaled0 := events, inProgressProof, signaled;
      var handle := inProgressProof[id];
      Persist(id, BuildFileProof(outcome), now, write);
      // deferred: deregister, then stop if idle
      Deregister(id);
      ghost var deregistered := events;
      StopIfIdle(stop);
      // deferred: wg.Done()
      ghost var stopped := events;
      Signal(id, handle);
      assert events == log0 + ProducerEvents(id, handle, write, reg0 - {id} == map[]) by {
        assert deregistered == log0 + [Saved(id, write), Deregistered(id)];
        assert stopped == deregistered + (if reg0 - {id} == map[] then [StopRequested(0)] else []);
      }
      ProducerAgrees(log0, reg0, signaled0, nextHandle, id, write, events, inProgressProof, signaled);
    }

    /** The producer's save of its entry. */
    method Persist(id: string, proof: FileProof, now: int, write: ProofDisk.WriteOutcome)
      modifies this`events, disk`files
      ensures write.Written? ==> disk.files == old(disk.files)[id := ProofDisk.StoredFile(now, Some(proof))]
      ensures write.WriteFailed? ==> disk.files == old(disk.files)[id := ProofDisk.StoredFile(now, None)]
      ensures write.OpenFailed? ==> disk.files == old(disk.files)
      ensures events == old(events) + [Saved(id, write)]
    {
      disk.Save(id, proof, now, write);
      events := events + [Saved(id, write)];
    }

    /** The producer's first deferred step: removing its id from the registry. */
    method Deregister(id: string)
      modifies this`inProgressProof, this`events
      ensures inProgressProof == old(inProgressProof) - {id}
      ensures events == old(events) + [Deregistered(id)]
    {
      inProgressProof := inProgressProof - {id};
      events := events + [Deregistered(id)];
    }

    /** The producer's last deferred step: firing its handle. */
    method Signal(id: string, handle: nat)
      modifies this`signaled, this`events
      ensures signaled == old(signaled) + {handle}
      ensures events == old(events) + [Signaled(id, handle)]
    {
      events := events + [Signaled(id, handle)];
      signaled := signaled + {handle};
    }

    /** A waiter waking after the handle of its id's producer fired: it reads
        the store again and answers from what it finds. */
    method Await(id: string, handle: nat) returns (r: Result<ProveResponse, Error>)
      requires Signaled(id, handle) in events
      ensures r == NewProofResponseFromFileProof(disk.Find(id))
    {
      r := NewProofResponseFromFileProof(disk.Find(id));
    }
  }
}
