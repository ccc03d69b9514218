/** The on-demand controller of the prover's cloud instance: a believed-running
    flag and a cached endpoint address, refreshed at construction and flipped
    only by successful start and stop calls. The cloud API's answers are
    parameters (one per call the controller makes); a ghost log records which
    calls were issued. */
module Ec2 {
  import opened Wrappers
  import opened Errors
  import Text

  // ---------------------------------------------------------------- instance metadata

  datatype Association = Association(publicIp: Option<string>)

  datatype PrivateIpAddress = PrivateIpAddress(privateIpAddress: Option<string>, association: Option<Association>)

  datatype NetworkInterface = NetworkInterface(privateIpAddresses: seq<Option<PrivateIpAddress>>)

  /** What a describe call reports about the instance: its state name and its
      network interfaces (nil entries are `None`). */
  datatype Instance = Instance(stateName: string, networkInterfaces: seq<Option<NetworkInterface>>)

  /** `aws.StringValue`: the empty string for nil. */
  function StringValue(s: Option<string>): string
  {
    if s.Some? then s.value else ""
  }

  /** The state names the controller reads as "running". */
  predicate IsRunningState(name: string)
  {
    name == "running" || name == "pending"
  }

  const StoppedState: string := "stopped"

  // ---------------------------------------------------------------- address type

  datatype AddressType = Private | Public

  function AddressTypeName(t: AddressType): string
  {
    match t
    case Private => "private"
    case Public => "public"
  }

  /** Trimmed and lower-cased, as the constructor normalises its argument. */
  function NormalizeAddressType(raw: string): (r: string)
    ensures |r| <= |raw|
    ensures forall i :: 0 <= i < |r| ==> !('A' <= r[i] <= 'Z')
    ensures r == [] || (!Text.IsSpace(r[0]) && !Text.IsSpace(r[|r| - 1]))
  {
    var t := Text.TrimSpace(raw);
    LowerKeepsSpace(if t == [] then ' ' else t[0]);
    LowerKeepsSpace(if t == [] then ' ' else t[|t| - 1]);
    Text.ToLower(t)
  }

  /** The address type a configuration string selects; anything other than
      "private" or "public" after normalisation is rejected. */
  function ParseAddressType(raw: string): (r: Option<AddressType>)
    ensures r.Some? <==> NormalizeAddressType(raw) in {"private", "public"}
    ensures r.Some? ==> AddressTypeName(r.value) == NormalizeAddressType(raw)
  {
    var t := NormalizeAddressType(raw);
    if t == "private" then Some(Private)
    else if t == "public" then Some(Public)
    else None
  }

  lemma LowerKeepsSpace(c: char)
    ensures Text.IsSpace(Text.LowerChar(c)) <==> Text.IsSpace(c)
  {
  }

  lemma ToLowerIdempotent(s: string)
    ensures Text.ToLower(Text.ToLower(s)) == Text.ToLower(s)
  {
    var l := Text.ToLower(s);
    var ll := Text.ToLower(l);
    assert forall i :: 0 <= i < |s| ==> ll[i] == l[i];
  }

  /** Normalising twice is normalising once, and a type's own name parses back
      to it, so the accepted spellings are exactly the padded, any-case forms
      of the two names. */
  lemma NormalizeAddressTypeIdempotent(raw: string)
    ensures NormalizeAddressType(NormalizeAddressType(raw)) == NormalizeAddressType(raw)
    ensures ParseAddressType(NormalizeAddressType(raw)) == ParseAddressType(raw)
  {
    var t := Text.TrimSpace(raw);
    var n := Text.ToLower(t);
    if n != [] {
      LowerKeepsSpace(t[0]);
      LowerKeepsSpace(t[|t| - 1]);
      assert !Text.IsSpace(n[0]) && !Text.IsSpace(n[|n| - 1]);
      assert Text.TrimLeftSpace(n) == n;
      assert Text.TrimRightSpace(n) == n;
    }
    assert Text.TrimSpace(n) == n;
    ToLowerIdempotent(t);
  }

  lemma ParseAddressTypeName(t: AddressType)
    ensures ParseAddressType(AddressTypeName(t)) == Some(t)
  {
    var name := AddressTypeName(t);
    assert !Text.IsSpace(name[0]) && !Text.IsSpace(name[|name| - 1]);
    assert Text.TrimLeftSpace(name) == name;
    assert Text.TrimRightSpace(name) == name;
    Text.ToLowerOfLower(name);
  }

  /** Any spelling without padding whose lower-case form is "private" selects
      the private type. */
  lemma LowerCaseSpellingAccepted(raw: string)
    requires raw != [] && !Text.IsSpace(raw[0]) && !Text.IsSpace(raw[|raw| - 1])
    requires Text.ToLower(raw) == "private"
    ensures ParseAddressType(raw) == Some(Private)
  {
    Text.TrimSpaceUnpadded(raw);
  }

  /** Go lower-cases U+0130 to 'i', so a configuration spelling "private" with
      a dotted capital I is accepted. */
  lemma DottedCapitalIAccepted(raw: string)
    requires raw == "pr\U{0130}vate"
    ensures ParseAddressType(raw) == Some(Private)
  {
    var lower := Text.ToLower(raw);
    assert lower == "private" by {
      forall i | 0 <= i < 7
        ensures lower[i] == "private"[i]
      {
        assert lower[i] == Text.LowerChar(raw[i]);
      }
    }
    LowerCaseSpellingAccepted(raw);
  }

  // ---------------------------------------------------------------- address lookup

  /** The address one private-IP entry offers for the configured type: the
      private address, or in public mode the association's public address
      (nothing when there is no association). */
  function Candidate(ip: PrivateIpAddress, t: AddressType): string
  {
    match t
    case Private => StringValue(ip.privateIpAddress)
    case Public => if ip.association.Some? then StringValue(ip.association.value.publicIp) else ""
  }

  function ComposeUrl(schema: string, address: string, port: int): string
  {
    schema + "://" + address + ":" + Text.IntToString(port)
  }

  /** The first non-empty candidate among one interface's entries, skipping nil
      entries; "" when there is none. */
  function FirstInEntries(entries: seq<Option<PrivateIpAddress>>, t: AddressType): string
  {
    if entries == [] then ""
    else
      var here := if entries[0].Some? then Candidate(entries[0].value, t) else "";
      if here != "" then here else FirstInEntries(entries[1..], t)
  }

  /** The first non-empty candidate over the interfaces in order, skipping nil
      interfaces; "" when there is none. */
  function FirstInInterfaces(nis: seq<Option<NetworkInterface>>, t: AddressType): string
  {
    if nis == [] then ""
    else
      var here := if nis[0].Some? then FirstInEntries(nis[0].value.privateIpAddresses, t) else "";
      if here != "" then here else FirstInInterfaces(nis[1..], t)
  }

  /** findAddress: "<schema>://<address>:<port>" for the first address found,
      or "" when the instance offers none of the configured type. */
  function FindAddress(instance: Instance, t: AddressType, schema: string, port: int): (r: string)
    ensures r == "" || (|r| > |schema| + 3 && r[..|schema| + 3] == schema + "://")
  {
    var a := FirstInInterfaces(instance.networkInterfaces, t);
    if a == "" then "" else ComposeUrl(schema, a, port)
  }

  // A reference definition: every candidate, flattened in scan order.

  function EntryCandidates(entries: seq<Option<PrivateIpAddress>>, t: AddressType): seq<string>
  {
    if entries == [] then []
    else (if entries[0].Some? then [Candidate(entries[0].value, t)] else []) + EntryCandidates(entries[1..], t)
  }

  function InterfaceCandidates(nis: seq<Option<NetworkInterface>>, t: AddressType): seq<string>
  {
    if nis == [] then []
    else (if nis[0].Some? then EntryCandidates(nis[0].value.privateIpAddresses, t) else []) + InterfaceCandidates(nis[1..], t)
  }

  /** The candidates of all non-nil entries of all non-nil interfaces, in order. */
  function Candidates(instance: Instance, t: AddressType): seq<string>
  {
    InterfaceCandidates(instance.networkInterfaces, t)
  }

  /** The first non-empty string of `cs`, or "". */
  function FirstNonEmpty(cs: seq<string>): string
  {
    if cs == [] then "" else if cs[0] != "" then cs[0] else FirstNonEmpty(cs[1..])
  }

  predicate IsFirstNonEmpty(cs: seq<string>, k: int)
  {
    0 <= k < |cs| && cs[k] != "" && forall j :: 0 <= j < k ==> cs[j] == ""
  }

  lemma {:induction false} FirstNonEmptySpec(cs: seq<string>)
    ensures FirstNonEmpty(cs) == "" <==> forall k :: 0 <= k < |cs| ==> cs[k] == ""
    ensures forall k :: IsFirstNonEmpty(cs, k) ==> FirstNonEmpty(cs) == cs[k]
  {
    if cs != [] {
      FirstNonEmptySpec(cs[1..]);
      forall k | IsFirstNonEmpty(cs, k) ensures FirstNonEmpty(cs) == cs[k] {
        if k > 0 {
          assert IsFirstNonEmpty(cs[1..], k - 1);
        }
      }
    }
  }

  lemma {:induction false} FirstNonEmptyAppend(a: seq<string>, b: seq<string>)
    ensures FirstNonEmpty(a + b) == if FirstNonEmpty(a) != "" then FirstNonEmpty(a) else FirstNonEmpty(b)
  {
    if a != [] {
      assert (a + b)[1..] == a[1..] + b;
      FirstNonEmptyAppend(a[1..], b);
    } else {
      assert a + b == b;
    }
  }

  lemma {:induction false} FirstInEntriesIsFirstCandidate(entries: seq<Option<PrivateIpAddress>>, t: AddressType)
    ensures FirstInEntries(entries, t) == FirstNonEmpty(EntryCandidates(entries, t))
  {
    if entries != [] {
      FirstInEntriesIsFirstCandidate(entries[1..], t);
      FirstNonEmptyAppend(if entries[0].Some? then [Candidate(entries[0].value, t)] else [], EntryCandidates(entries[1..], t));
    }
  }

  lemma {:induction false} FirstInInterfacesIsFirstCandidate(nis: seq<Option<NetworkInterface>>, t: AddressType)
    ensures FirstInInterfaces(nis, t) == FirstNonEmpty(InterfaceCandidates(nis, t))
  {
    if nis != [] {
      FirstInInterfacesIsFirstCandidate(nis[1..], t);
      if nis[0].Some? {
        FirstInEntriesIsFirstCandidate(nis[0].value.privateIpAddresses, t);
      }
      FirstNonEmptyAppend(if nis[0].Some? then EntryCandidates(nis[0].value.privateIpAddresses, t) else [], InterfaceCandidates(nis[1..], t));
    }
  }

  /** findAddress returns "" exactly when no entry offers an address of the
      configured type, and otherwise composes the URL from the first one in
      scan order. */
  lemma FindAddressSpec(instance: Instance, t: AddressType, schema: string, port: int)
    ensures var cs := Candidates(instance, t);
      && (FindAddress(instance, t, schema, port) == "" <==> forall k :: 0 <= k < |cs| ==> cs[k] == "")
      && forall k :: IsFirstNonEmpty(cs, k) ==> FindAddress(instance, t, schema, port) == ComposeUrl(schema, cs[k], port)
  {
    FirstInInterfacesIsFirstCandidate(instance.networkInterfaces, t);
    FirstNonEmptySpec(Candidates(instance, t));
  }

  /** In public mode, an entry without an association contributes nothing, and
      one with an association contributes its public address whatever its
      private address is. */
  lemma PublicModeUsesAssociationOnly(ip: PrivateIpAddress, other: Option<string>)
    ensures ip.association.None? ==> Candidate(ip, Public) == ""
    ensures Candidate(ip.(privateIpAddress := other), Public) == Candidate(ip, Public)
  {
  }

  // ---------------------------------------------------------------- cloud calls

  /** The calls the controller makes to the cloud API. */
  datatype CloudCall = DescribeInstances | StartInstances | StopInstances

  function Describes(n: nat): (calls: seq<CloudCall>)
    ensures |calls| == n && forall i :: 0 <= i < n ==> calls[i] == DescribeInstances
  {
    seq(n, _ => DescribeInstances)
  }

  /** The answer to one describe call. */
  datatype DescribeOutcome = Described(instance: Instance) | DescribeFailed(err: Error)

  /** A describe answer that ends the wait for the stopped state. */
  predicate EndsPoll(d: DescribeOutcome)
  {
    d.DescribeFailed? || d.instance.stateName == StoppedState
  }

  predicate PollEnds(ds: seq<DescribeOutcome>)
  {
    exists k :: 0 <= k < |ds| && EndsPoll(ds[k])
  }

  /** The index of the answer that ends the wait. */
  function FirstEnd(ds: seq<DescribeOutcome>): (k: nat)
    requires PollEnds(ds)
    ensures k < |ds| && EndsPoll(ds[k])
    ensures forall j :: 0 <= j < k ==> !EndsPoll(ds[j])
  {
    if EndsPoll(ds[0]) then 0
    else
      assert PollEnds(ds[1..]) by {
        var k :| 0 <= k < |ds| && EndsPoll(ds[k]);
        assert k > 0 && EndsPoll(ds[1..][k - 1]);
      }
      1 + FirstEnd(ds[1..])
  }

  function ReadInstanceContext(instanceId: string): string
  {
    "failed to read ec2 instance info " + instanceId
  }

  /** The describe-polling loop of the start operation: describe until the
      instance reports "stopped" (sleeping a second between tries), or return
      the describe error wrapped with the instance id. */
  method AwaitStopped(instanceId: string, describes: seq<DescribeOutcome>) returns (r: Outcome<Error>, polls: nat)
    requires PollEnds(describes)
    ensures polls == FirstEnd(describes) + 1
    ensures describes[polls - 1].DescribeFailed? ==> r == Fail(Wrapped(ReadInstanceContext(instanceId), describes[polls - 1].err))
    ensures describes[polls - 1].Described? ==> r == Pass
  {
    polls := 0;
    while true
      invariant exists k :: polls <= k < |describes| && EndsPoll(describes[k])
      invariant forall j :: 0 <= j < polls ==> !EndsPoll(describes[j])
      decreases |describes| - polls
    {
      var d := describes[polls];
      polls := polls + 1;
      if d.DescribeFailed? {
        return Fail(Wrapped(ReadInstanceContext(instanceId), d.err)), polls;
      }
      if d.instance.stateName == StoppedState {
        return Pass, polls;
      }
    }
  }

  /** An instance that is running while the controller believes it stopped
      (started from outside the proxy) never reports "stopped", so no finite
      run of describes ends the wait: the source polls forever. */
  lemma RunningInstanceNeverAwaited(n: nat, interfaces: seq<Option<NetworkInterface>>)
    ensures !PollEnds(seq(n, _ => Described(Instance("running", interfaces))))
  {
    var ds := seq(n, _ => Described(Instance("running", interfaces)));
    forall k | 0 <= k < n
      ensures !EndsPoll(ds[k])
    {
      assert ds[k].instance.stateName == "running" != StoppedState;
    }
  }

  // ---------------------------------------------------------------- start and stop, as functions

  /** What StartIfNotRunning returns, given the belief it starts from. */
  function StartOutcome(running: bool, instanceId: string, describes: seq<DescribeOutcome>, start: Outcome<Error>): Outcome<Error>
    requires running || PollEnds(describes)
  {
    if running then Pass
    else
      var d := describes[FirstEnd(describes)];
      if d.DescribeFailed? then Fail(Wrapped(ReadInstanceContext(instanceId), d.err)) else start
  }

  /** The cloud calls StartIfNotRunning issues. */
  function StartCalls(running: bool, describes: seq<DescribeOutcome>): seq<CloudCall>
    requires running || PollEnds(describes)
  {
    if running then []
    else
      var k := FirstEnd(describes);
      Describes(k + 1) + (if describes[k].DescribeFailed? then [] else [StartInstances])
  }

  /** The belief after StartIfNotRunning. */
  function RunningAfterStart(running: bool, describes: seq<DescribeOutcome>, start: Outcome<Error>): bool
    requires running || PollEnds(describes)
  {
    running || (describes[FirstEnd(describes)].Described? && start.Pass?)
  }

  /** The cloud calls StopIfRunning issues. */
  function StopCalls(running: bool): seq<CloudCall>
  {
    if running then [StopInstances] else []
  }

  /** The belief after StopIfRunning. */
  function RunningAfterStop(running: bool, stop: Outcome<Error>): bool
  {
    running && stop.Fail?
  }

  /** After a start attempt the instance is believed running exactly when the
      attempt reports success; a believed-running instance sees no cloud call;
      otherwise the start call is issued only after a describe that reported
      "stopped", as the last call, and the belief becomes true only if that
      call succeeds. */
  lemma StartSpec(running: bool, instanceId: string, describes: seq<DescribeOutcome>, start: Outcome<Error>)
    requires running || PollEnds(describes)
    ensures RunningAfterStart(running, describes, start) <==> StartOutcome(running, instanceId, describes, start).Pass?
    ensures running ==> StartCalls(running, describes) == []
    ensures StartInstances in StartCalls(running, describes) ==>
      var calls := StartCalls(running, describes);
      var k := FirstEnd(describes);
      && !running
      && describes[k].Described? && describes[k].instance.stateName == StoppedState
      && calls == Describes(k + 1) + [StartInstances]
    ensures !running && RunningAfterStart(running, describes, start) ==> StartInstances in StartCalls(running, describes) && start.Pass?
  {
    if !running {
      var k := FirstEnd(describes);
      if describes[k].Described? {
        assert StartCalls(running, describes)[k + 1] == StartInstances;
      } else {
        assert StartInstances !in Describes(k + 1);
      }
    }
  }

  /** A stop call is issued only when the instance is believed running, and the
      belief turns false exactly when that call succeeds. */
  lemma StopSpec(running: bool, stop: Outcome<Error>)
    ensures StopInstances in StopCalls(running) <==> running
    ensures RunningAfterStop(running, stop) <==> running && !stop.Pass?
  {
  }

  // ---------------------------------------------------------------- the controller

  class Controller {
    const instanceId: string
    /** The endpoint resolved at construction. */
    var ipAddress: string
    /** Whether the instance is believed to be running. */
    var running: bool
    /** The cloud calls issued so far, oldest first. */
    ghost var calls: seq<CloudCall>

    /** A controller that finished construction has an address. */
    ghost predicate Valid()
      reads this
    {
      ipAddress != ""
    }

    /** The zero-valued controller the constructor fills in. */
    constructor Init(instanceId: string)
      ensures this.instanceId == instanceId
      ensures ipAddress == "" && !running && calls == []
    {
      this.instanceId := instanceId;
      ipAddress := "";
      running := false;
      calls := [];
    }

    /** updateState: describe the instance, set the belief from its state and
        resolve the address; an empty address is an error. A failed describe
        leaves both fields as they were. */
    method UpdateState(t: AddressType, schema: string, port: int, describe: DescribeOutcome) returns (r: Outcome<Error>)
      modifies this`running, this`ipAddress, this`calls
      ensures calls == old(calls) + [DescribeInstances]
      ensures describe.DescribeFailed? ==> r == Fail(describe.err) && running == old(running) && ipAddress == old(ipAddress)
      ensures describe.Described? ==>
        && running == IsRunningState(describe.instance.stateName)
        && ipAddress == FindAddress(describe.instance, t, schema, port)
        && (r.Pass? <==> ipAddress != "")
        && (r.Fail? ==> r.error == Plain("failed to retrieve instance address"))
    {
      calls := calls + [DescribeInstances];
      r := Pass;
      if describe.Described? {
        var instance := describe.instance;
        running := instance.stateName == "running" || instance.stateName == "pending";
        ipAddress := FindAddress(instance, t, schema, port);
        if |ipAddress| == 0 {
          r := Fail(Plain("failed to retrieve instance address"));
        }
      } else {
        r := Fail(describe.err);
      }
    }

    /** The endpoint of the prover instance. */
    function IpAddress(): (a: string)
      reads this
      requires Valid()
      ensures |a| > 0 && a == ipAddress
    {
      ipAddress
    }

    /** StartIfNotRunning: nothing at all when the instance is believed
        running; otherwise wait for the "stopped" state, then issue one start
        call, and believe the instance running only if that call succeeds. */
    method StartIfNotRunning(describes: seq<DescribeOutcome>, start: Outcome<Error>) returns (r: Outcome<Error>)
      requires running || PollEnds(describes)
      modifies this`running, this`calls
      ensures ipAddress == old(ipAddress)
      ensures r == StartOutcome(old(running), instanceId, describes, start)
      ensures running == RunningAfterStart(old(running), describes, start)
      ensures calls == old(calls) + StartCalls(old(running), describes)
    {
      if running {
        return Pass;
      }
      var polled, polls := AwaitStopped(instanceId, describes);
      calls := calls + Describes(polls);
      if polled.Fail? {
        return polled;
      }
      calls := calls + [StartInstances];
      if start.Fail? {
        return start;
      }
      running := true;
      return Pass;
    }

    /** StopIfRunning: a stop call only when the instance is believed running;
        success clears the belief, failure keeps it. */
    method StopIfRunning(stop: Outcome<Error>)
      modifies this`running, this`calls
      ensures ipAddress == old(ipAddress)
      ensures running == RunningAfterStop(old(running), stop)
      ensures calls == old(calls) + StopCalls(old(running))
    {
      if running {
        calls := calls + [StopInstances];
        if stop.Pass? {
          running := false;
        }
      }
    }
  }

  /** MustNewController: validate the address type, open the cloud session and
      refresh the state; each failure (a panic in the service) is an error
      here, and success yields a controller with a resolved address. */
  method MustNewController(instanceId: string, rawAddressType: string, schema: string, port: int,
                           session: Outcome<Error>, describe: DescribeOutcome)
    returns (r: Result<Controller, Error>)
    ensures r.Ok? <==>
      && ParseAddressType(rawAddressType).Some?
      && session.Pass?
      && describe.Described?
      && FindAddress(describe.instance, ParseAddressType(rawAddressType).value, schema, port) != ""
    ensures r.Ok? ==>
      && fresh(r.value)
      && r.value.Valid()
      && r.value.instanceId == instanceId
      && r.value.running == IsRunningState(describe.instance.stateName)
      && r.value.ipAddress == FindAddress(describe.instance, ParseAddressType(rawAddressType).value, schema, port)
      && r.value.calls == [DescribeInstances]
  {
    var addressType := NormalizeAddressType(rawAddressType);
    var t := ParseAddressType(rawAddressType);
    if t.None? {
      return Err(Plain("invalid instanceAddressType " + addressType));
    }
    if session.Fail? {
      return Err(Wrapped("failed to create ec2 controller", session.error));
    }
    var c := new Controller.Init(instanceId);
    var updated := c.UpdateState(t.value, schema, port, describe);
    if updated.Fail? {
      return Err(Wrapped("failed to update ec2 controller", updated.error));
    }
    return Ok(c);
  }
}
