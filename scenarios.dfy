/** End-to-end runs of the coalescer over a fresh store and a stopped
    instance, with every cloud, prover and disk answer fixed in advance. */
module ServiceScenarios {
  import opened Wrappers
  import opened Errors
  import opened ProofTypes
  import Ec2
  import ProofDisk
  import opened ProofService

  /** The describe answers of an instance that is already stopped. */
  function StoppedDescribes(): (ds: seq<Ec2.DescribeOutcome>)
    ensures Ec2.PollEnds(ds)
  {
    var ds := [Ec2.Described(Ec2.Instance(Ec2.StoppedState, []))];
    assert Ec2.EndsPoll(ds[0]);
    ds
  }

  /** Two refused connections, then an answer. */
  function BootingProbes(): (ps: seq<Outcome<Error>>)
    ensures WaitEnds(ps) && FirstReady(ps) == 2 && ps[2] == Pass
  {
    var ps := [Fail(UrlError("connection refused")), Fail(UrlError("connection refused")), Pass];
    assert EndsWait(ps[2]);
    assert !EndsWait(ps[0]) && !EndsWait(ps[1]);
    ps
  }

  /** Against a stopped instance believed stopped, preparation issues one
      describe and one start and ends with the prover answering. */
  lemma ColdPreparation(instanceId: string)
    ensures ReadyOutcome(false, instanceId, StoppedDescribes(), Pass, BootingProbes()) == Pass
    ensures Ec2.RunningAfterStart(false, StoppedDescribes(), Pass)
    ensures Ec2.StartCalls(false, StoppedDescribes()) == [Ec2.DescribeInstances, Ec2.StartInstances]
  {
    var ds := StoppedDescribes();
    assert Ec2.FirstEnd(ds) == 0;
    assert Ec2.Describes(1) == [Ec2.DescribeInstances];
  }

  /** The prover instance as a describe call reports it while stopped: one
      interface with one private address. */
  function ProverInstance(): Ec2.Instance
  {
    Ec2.Instance(Ec2.StoppedState, [Some(Ec2.NetworkInterface([Some(Ec2.PrivateIpAddress(Some("10.0.0.7"), None))]))])
  }

  /** The stopped instance offers a private address. */
  lemma ProverInstanceAddress()
    ensures Ec2.FindAddress(ProverInstance(), Ec2.Private, "http", 3000) != ""
  {
    var entries := [Some(Ec2.PrivateIpAddress(Some("10.0.0.7"), None))];
    assert Ec2.FirstInEntries(entries, Ec2.Private) == "10.0.0.7";
    assert Ec2.FirstInInterfaces(ProverInstance().networkInterfaces, Ec2.Private) == "10.0.0.7";
  }

  /** A service over an empty store and an instance believed stopped, whose
      controller has issued only its construction describe. */
  ghost predicate Cold(service: Service)
    reads service, service.disk, service.ec2
  {
    && service.Valid() && service.inProgressProof == map[] && service.nextHandle == 0
    && service.disk.files == map[] && !service.ec2.running && service.ec2.calls == [Ec2.DescribeInstances]
  }

  /** Start-up: an empty store, and a controller built over the stopped
      instance with a private address. */
  method NewColdService(md5: string -> Digest) returns (service: Service)
    ensures Cold(service) && service.md5 == md5 && service.disk.Valid()
    ensures fresh(service) && fresh(service.disk) && fresh(service.ec2)
  {
    var disk := new ProofDisk.DiskRepository.Open("/data", map[]);
    Ec2.ParseAddressTypeName(Ec2.Private);
    ProverInstanceAddress();
    var made := Ec2.MustNewController("i-prover", "private", "http", 3000, Pass, Ec2.Described(ProverInstance()));
    assert made.Ok?;
    service := new Service(disk, made.value, md5);
  }

  /** The first request for `trace` on a cold service starts the instance
      and registers the producer under handle 0. */
  method ColdArrive(service: Service, trace: string) returns (first: ProveStep)
    requires Cold(service)
    modifies service, service.ec2
    ensures first == Waiting(ComputeId(service.md5, trace), 0)
    ensures service.Valid() && service.inProgressProof == map[ComputeId(service.md5, trace) := 0]
    ensures service.nextHandle == 1 && service.signaled == old(service.signaled)
    ensures service.disk.files == map[]
    ensures service.ec2.running
    ensures service.ec2.calls == [Ec2.DescribeInstances, Ec2.DescribeInstances, Ec2.StartInstances]
  {
    ColdPreparation(service.ec2.instanceId);
    first := service.Prove(trace, 0, StoppedDescribes(), Pass, BootingProbes(), Pass);
  }

  /** The only producer for `id`, under handle 0, completes with `outcome`:
      its entry is saved, the registry empties, the instance is stopped and
      handle 0 fires. */
  method CompleteOnly(service: Service, id: string, outcome: BackendOutcome, now: int)
    requires service.Valid() && service.inProgressProof == map[id := 0] && service.disk.files == map[]
    requires service.ec2.running
    modifies service, service.disk, service.ec2
    ensures service.Valid() && service.inProgressProof == map[] && Signaled(id, 0) in service.events
    ensures service.nextHandle == old(service.nextHandle)
    ensures service.disk.files == map[id := ProofDisk.StoredFile(now, Some(BuildFileProof(outcome)))]
    ensures !service.ec2.running
    ensures service.ec2.calls == old(service.ec2.calls) + [Ec2.StopInstances]
  {
    service.ProducerComplete(id, outcome, now, ProofDisk.Written, Pass);
    assert service.inProgressProof == map[];
    assert service.events[|service.events| - 1] == Signaled(id, 0);
  }

  /** A waiter woken by its own id's producer reads what that producer left:
      the entry built from the prover's answer after a good write, "unexpected
      error" after a write that truncated the file, and the earlier store
      content when the file could not be opened. */
  method WokenWaiterReads(service: Service, id: string, outcome: BackendOutcome, now: int,
                          write: ProofDisk.WriteOutcome, stop: Outcome<Error>)
    returns (r: Result<ProveResponse, Error>)
    requires service.Valid() && id in service.inProgressProof
    modifies service, service.disk, service.ec2
    ensures write.Written? ==> r == NewProofResponseFromFileProof(Some(BuildFileProof(outcome)))
    ensures write.WriteFailed? ==> r == Err(Plain("unexpected error"))
    ensures write.OpenFailed? ==> r == NewProofResponseFromFileProof(old(service.disk.Find(id)))
  {
    var handle := service.inProgressProof[id];
    service.ProducerComplete(id, outcome, now, write, stop);
    assert service.events[|service.events| - 1] == Signaled(id, handle);
    r := service.Await(id, handle);
  }

  /** An empty store and a stopped instance; two requests for the same trace
      arrive before the prover answers. The first starts the instance (after
      two refused probes) and registers the one producer; the second waits on
      the same handle. The producer saves the prover's payload, the registry
      empties and the instance is stopped once. Both waiters get the payload,
      and a third request is answered from the store with no cloud call. */
  method ColdStartScenario(md5: string -> Digest, trace: string, payload: ProveResponse, now: int)
    returns (first: ProveStep, second: ProveStep, answers: seq<Result<ProveResponse, Error>>,
             third: ProveStep, ghost calls: seq<Ec2.CloudCall>, running: bool)
    ensures first == Waiting(ComputeId(md5, trace), 0) && second == first
    ensures answers == [Ok(payload), Ok(payload)]
    ensures third == Answered(Ok(payload))
    ensures calls == [Ec2.DescribeInstances, Ec2.DescribeInstances, Ec2.StartInstances, Ec2.StopInstances]
    ensures !running
  {
    var service := NewColdService(md5);
    var id := ComputeId(md5, trace);

    first := ColdArrive(service, trace);
    second := service.Prove(trace, 0, StoppedDescribes(), Pass, BootingProbes(), Pass);

    CompleteOnly(service, id, BackendOutcome(Some(payload), None), now);
    var a := service.Await(id, 0);
    var b := service.Await(id, 0);
    answers := [a, b];

    third := service.Prove(trace, 0, StoppedDescribes(), Pass, BootingProbes(), Pass);
    calls := service.ec2.calls;
    running := service.ec2.running;
  }

  /** A request whose lookup misses while a producer is in flight, and which
      takes the lock only after that producer saved, deregistered and stopped
      the instance, finds no producer for its id: it starts the instance again
      and registers a second producer, although the store already holds the
      entry. */
  method LateAdmissionScenario(md5: string -> Digest, trace: string, payload: ProveResponse, now: int)
    returns (missed: bool, storedAtAdmission: bool, second: ProveStep, ghost calls: seq<Ec2.CloudCall>)
    ensures missed && storedAtAdmission
    ensures second == Waiting(ComputeId(md5, trace), 1)
    ensures calls == [Ec2.DescribeInstances, Ec2.DescribeInstances, Ec2.StartInstances, Ec2.StopInstances,
                      Ec2.DescribeInstances, Ec2.StartInstances]
  {
    var service := NewColdService(md5);
    var first := ColdArrive(service, trace);
    var id, answer := service.Lookup(trace);
    missed := answer.None?;

    CompleteOnly(service, id, BackendOutcome(Some(payload), None), now);
    storedAtAdmission := service.disk.Find(id).Some?;

    ColdPreparation(service.ec2.instanceId);
    second := service.Admit(id, StoppedDescribes(), Pass, BootingProbes(), Pass);
    calls := service.ec2.calls;
  }

  /** A failure is answered once and then swept on the next tick, so the
      next request goes to the prover again under a fresh handle instead of
      replaying the stored error. */
  method FailureNotReplayedScenario(md5: string -> Digest, trace: string, now: int)
    returns (answer: Result<ProveResponse, Error>, deleted: nat, retry: ProveStep)
    ensures answer == Err(RpcErr(JsonRpcError(-32001, "out of memory")))
    ensures deleted == 1
    ensures retry == Waiting(ComputeId(md5, trace), 1)
  {
    var service := NewColdService(md5);
    var id := ComputeId(md5, trace);

    var first := ColdArrive(service, trace);
    var failure := BackendOutcome(None, Some(RpcErr(JsonRpcError(-32001, "out of memory"))));
    CompleteOnly(service, id, failure, now);
    answer := service.Await(id, 0);

    assert ProofDisk.Removed(service.disk.files, now - ProofDisk.Retention, {}) == {id};
    deleted := service.disk.SweepTick(now, {});
    assert service.disk.files == map[];

    ColdPreparation(service.ec2.instanceId);
    retry := service.Prove(trace, 0, StoppedDescribes(), Pass, BootingProbes(), Pass);
  }
}
