/** The Heat test base: the Heat client availability check, stack lookup and creation with
    in-place parameter defaulting, the cleanup filter, the stack status classifier and the
    bounded retry that checks haproxy on a guest. */
module HeatManager {
  import opened Common
  import opened Text
  import opened NManager
  import Ssh

  // ---------------------------------------------------------------- heat client

  datatype Service = Service(serviceType: string)

  /** The credentials the Heat client is built with. */
  datatype HeatCredentials = HeatCredentials(username: Option<string>, password: Option<string>)

  predicate IsOrchestration(s: Service) {
    s.serviceType == "orchestration"
  }

  /** `_get_heat_client`: the identity client is built first from the configured admin values
      (its check may raise); with no `orchestration` service listed there is no Heat client;
      otherwise falsy arguments fall back to the configured admin values. */
  function HeatClient(username: Option<string>, password: Option<string>, config: Credentials,
                      services: seq<Service>): (r: Result<Option<HeatCredentials>, ConfigError>)
    ensures r.Err? <==> ResolveCredentials("identity", NoCredentials, config).Err?
    ensures r.Err? ==> r.error == ResolveCredentials("identity", NoCredentials, config).error
    ensures r.Ok? ==> (r.value.None? <==> forall i :: 0 <= i < |services| ==> !IsOrchestration(services[i]))
    ensures r.Ok? && r.value.Some? ==>
      (!Falsy(username) ==> r.value.value.username == username)
      && (Falsy(username) ==> r.value.value.username == config.username)
      && (!Falsy(password) ==> r.value.value.password == password)
      && (Falsy(password) ==> r.value.value.password == config.password)
  {
    match ResolveCredentials("identity", NoCredentials, config)
    case Err(e) => Err(e)
    case Ok(_) =>
      if FirstMatch(services, IsOrchestration).None? then Ok(None)
      else Ok(Some(HeatCredentials(Defaulted(username, config.username), Defaulted(password, config.password))))
  }

  // ---------------------------------------------------------------- stacks

  /** A listed stack: its id, name and status, and any other attributes it carries. */
  datatype Stack = Stack(id: string, stackName: string, stackStatus: string, extra: map<string, string>)

  /** `getattr(stack, key)` when `hasattr(stack, key)`, else None. */
  function Attr(s: Stack, key: string): Option<string>
  {
    if key == "id" then Some(s.id)
    else if key == "stack_name" then Some(s.stackName)
    else if key == "stack_status" then Some(s.stackStatus)
    else if key in s.extra then Some(s.extra[key])
    else None
  }

  /** `find_stack`: the first listed stack whose attribute `key` equals `value`. */
  function FindStack(listed: seq<Stack>, key: string, value: string): (r: Option<Stack>)
    ensures r.Some? ==>
      exists i :: 0 <= i < |listed| && listed[i] == r.value && Attr(listed[i], key) == Some(value)
        && forall j :: 0 <= j < i ==> Attr(listed[j], key) != Some(value)
    ensures r.None? <==> forall i :: 0 <= i < |listed| ==> Attr(listed[i], key) != Some(value)
  {
    match FirstMatch(listed, (s: Stack) => Attr(s, key) == Some(value))
    case Some(i) => Some(listed[i])
    case None => None
  }

  /** The `parameters` dict handed to `create_stack`, which fills it in place. */
  class Params {
    var entries: map<string, string>

    constructor (m: map<string, string>)
      ensures entries == m
    {
      entries := m;
    }
  }

  /** The parameters with `InstanceType` and `ImageId` added where the caller left them out. */
  function WithDefaults(m: map<string, string>, flavorName: string, imageName: string): (r: map<string, string>)
    ensures r.Keys == m.Keys + {"InstanceType", "ImageId"}
    ensures forall k :: k in m ==> r[k] == m[k]
    ensures "InstanceType" !in m ==> r["InstanceType"] == flavorName
    ensures "ImageId" !in m ==> r["ImageId"] == imageName
  {
    var m1 := if "InstanceType" in m then m else m["InstanceType" := flavorName];
    if "ImageId" in m1 then m1 else m1["ImageId" := imageName]
  }

  /** A dict filled once keeps its values on every later fill: a dict shared between calls
      keeps the flavor and image of the first call. */
  lemma DefaultsStick(m: map<string, string>, f1: string, i1: string, f2: string, i2: string)
    ensures WithDefaults(WithDefaults(m, f1, i1), f2, i2) == WithDefaults(m, f1, i1)
  {
    var once := WithDefaults(m, f1, i1);
    var twice := WithDefaults(once, f2, i2);
    assert forall k :: k in twice <==> k in once;
    assert forall k :: k in once ==> twice[k] == once[k];
  }

  /** The template of a stack request: the built-in single-instance template or a given one. */
  datatype Template = SimpleTemplate | GivenTemplate(text: string)

  /** The arguments of `client.stacks.create`. */
  datatype CreateRequest = CreateRequest(stackName: string, template: Template, parameters: map<string, string>)

  /** Stacks that `clean_stacks` deletes: those created by the tests and in a final state. */
  predicate ToClean(recorded: seq<string>, s: Stack) {
    s.stackName in recorded && (s.stackStatus == "CREATE_COMPLETE" || s.stackStatus == "ERROR")
  }

  /** The stacks `clean_stacks` deletes, in listing order. */
  function CleanTargets(listed: seq<Stack>, recorded: seq<string>): (r: seq<Stack>)
    ensures |r| <= |listed|
    decreases |listed|
  {
    if |listed| == 0 then []
    else
      var last := listed[|listed| - 1];
      var front := listed[..|listed| - 1];
      CleanTargets(front, recorded) + (if ToClean(recorded, last) then [last] else [])
  }

  /** The targets are exactly the listed stacks that are to be cleaned. */
  lemma {:induction false} CleanTargetsExact(listed: seq<Stack>, recorded: seq<string>)
    ensures forall s :: s in CleanTargets(listed, recorded) ==> s in listed && ToClean(recorded, s)
    ensures forall s :: s in listed && ToClean(recorded, s) ==> s in CleanTargets(listed, recorded)
    decreases |listed|
  {
    if |listed| > 0 {
      var last := listed[|listed| - 1];
      var front := listed[..|listed| - 1];
      CleanTargetsExact(front, recorded);
      assert listed == front + [last];
    }
  }

  /** The ids of `ss`, in order. */
  function Ids(ss: seq<Stack>): (r: seq<string>)
    ensures |r| == |ss| && forall k :: 0 <= k < |ss| ==> r[k] == ss[k].id
  {
    if |ss| == 0 then [] else Ids(ss[..|ss| - 1]) + [ss[|ss| - 1].id]
  }

  /** The errors of deleting `ss`, where `failures` maps the id of each stack whose delete
      raises to the exception it raises. */
  function DeleteFailures(ss: seq<Stack>, failures: map<string, Exc>): (r: seq<Exc>)
    ensures |r| <= |ss|
  {
    if |ss| == 0 then []
    else
      var last := ss[|ss| - 1];
      DeleteFailures(ss[..|ss| - 1], failures) + (if last.id in failures then [failures[last.id]] else [])
  }

  /** Looking at one more listed stack extends the targets, their ids and their errors. */
  lemma CleanStep(listed: seq<Stack>, i: nat, recorded: seq<string>, failures: map<string, Exc>, t: seq<Stack>)
    requires i < |listed| && t == CleanTargets(listed[..i], recorded)
    ensures CleanTargets(listed[..i + 1], recorded) == t + (if ToClean(recorded, listed[i]) then [listed[i]] else [])
    ensures Ids(t + [listed[i]]) == Ids(t) + [listed[i].id]
    ensures DeleteFailures(t + [listed[i]], failures)
         == DeleteFailures(t, failures) + (if listed[i].id in failures then [failures[listed[i].id]] else [])
  {
    assert listed[..i + 1][..i] == listed[..i];
    assert (t + [listed[i]])[..|t|] == t;
  }

  /** The state one Heat test works on: the class-level names of the stacks created and errors
      collected while cleaning up, and the nano flavor. `_prepare_stack_resources` assigns the
      flavor on the test instance, so each instance starts from the class's `None` and keeps
      its own; an object of this class stands for the class state seen through one instance. */
  class HeatTest {
    var stacks: seq<string>
    var flavor: Option<FlavorPick>
    var errorMsg: seq<Exc>

    /** `setUpClass`: no stack recorded and no flavor yet. */
    constructor ()
      ensures stacks == [] && flavor.None? && errorMsg == []
    {
      stacks := [];
      flavor := None;
      errorMsg := [];
    }

    /** `_prepare_stack_resources`: obtain the nano flavor only when none is held. Returns
        whether a flavor creation was requested. */
    method PrepareStackResources(flavors: seq<Flavor>, name: string) returns (requested: bool)
      modifies this
      ensures old(flavor).Some? ==> flavor == old(flavor) && !requested
      ensures old(flavor).None? ==> flavor == NanoFlavor(flavors, name)
      ensures requested <==> old(flavor).None? && flavor.Some? && flavor.value.Created?
      ensures stacks == old(stacks) && errorMsg == old(errorMsg)
    {
      requested := false;
      if flavor.None? {
        flavor := NanoFlavor(flavors, name);
        requested := flavor.Some? && flavor.value.Created?;
      }
    }

    /** `create_stack`: prepare the flavor, fill in the caller's parameters in place, request
        the stack, then look it up by name and record the name when it is found. Filling in
        `InstanceType` with no flavor held raises `AttributeError`. */
    method CreateStack(stackName: string, template: Option<string>, params: Params, imageName: string,
                       flavors: seq<Flavor>, flavorName: string, listed: seq<Stack>)
      returns (r: Result<Option<Stack>, Exc>, request: Option<CreateRequest>)
      modifies this, params
      ensures old(flavor).Some? ==> flavor == old(flavor)
      ensures old(flavor).None? ==> flavor == NanoFlavor(flavors, flavorName)
      ensures errorMsg == old(errorMsg)
      ensures "InstanceType" !in old(params.entries) && flavor.None? ==>
        r == Err(AttributeError) && request.None? && params.entries == old(params.entries) && stacks == old(stacks)
      ensures "InstanceType" in old(params.entries) || flavor.Some? ==>
        && params.entries == WithDefaults(old(params.entries), if flavor.Some? then PickName(flavor.value) else "", imageName)
        && request == Some(CreateRequest(stackName, if template.None? then SimpleTemplate else GivenTemplate(template.value),
                                         params.entries))
        && r == Ok(FindStack(listed, "stack_name", stackName))
        && stacks == old(stacks) + (if r.value.Some? then [stackName] else [])
    {
      var _ := PrepareStackResources(flavors, flavorName);
      var t := if template.None? then SimpleTemplate else GivenTemplate(template.value);
      var instanceType := if flavor.Some? then PickName(flavor.value) else "";
      ghost var given := params.entries;
      if "InstanceType" !in params.entries {
        if flavor.None? {
          return Err(AttributeError), None;
        }
        params.entries := params.entries["InstanceType" := instanceType];
      }
      if "ImageId" !in params.entries {
        params.entries := params.entries["ImageId" := imageName];
      }
      assert params.entries == WithDefaults(given, instanceType, imageName);
      request := Some(CreateRequest(stackName, t, params.entries));
      var stack := FindStack(listed, "stack_name", stackName);
      if stack.Some? {
        stacks := stacks + [stackName];
      }
      r := Ok(stack);
    }

    /** `clean_stacks`: delete every listed stack that the tests created and that is complete or
        in error, recording each delete error. Returns the ids whose deletion was requested. */
    method CleanStacks(listed: seq<Stack>, failures: map<string, Exc>) returns (deleted: seq<string>)
      modifies this
      ensures deleted == Ids(CleanTargets(listed, stacks))
      ensures errorMsg == old(errorMsg) + DeleteFailures(CleanTargets(listed, stacks), failures)
      ensures stacks == old(stacks) && flavor == old(flavor)
    {
      var errs;
      deleted, errs := DeleteStacks(listed, stacks, failures);
      errorMsg := errorMsg + errs;
    }
  }

  /** The loop of `clean_stacks` over the listed stacks: the ids it deletes and the errors the
      deletes raise, in listing order. */
  method DeleteStacks(listed: seq<Stack>, recorded: seq<string>, failures: map<string, Exc>)
    returns (deleted: seq<string>, errs: seq<Exc>)
    ensures deleted == Ids(CleanTargets(listed, recorded))
    ensures errs == DeleteFailures(CleanTargets(listed, recorded), failures)
  {
    ghost var targets: seq<Stack> := [];
    deleted := [];
    errs := [];
    for i := 0 to |listed|
      invariant targets == CleanTargets(listed[..i], recorded)
      invariant deleted == Ids(targets)
      invariant errs == DeleteFailures(targets, failures)
    {
      var s := listed[i];
      CleanStep(listed, i, recorded, failures, targets);
      if s.stackName in recorded {
        if s.stackStatus == "CREATE_COMPLETE" || s.stackStatus == "ERROR" {
          assert ToClean(recorded, s);
          targets := targets + [s];
          deleted := deleted + [s.id];
          if s.id in failures {
            errs := errs + [failures[s.id]];
          }
        } else {
          assert !ToClean(recorded, s);
        }
      } else {
        assert !ToClean(recorded, s);
      }
    }
    assert listed[..|listed|] == listed;
  }

  // ---------------------------------------------------------------- stack status

  /** What `check_status` makes of one status reading. */
  datatype StatusCheck = InError | Reached | Waiting

  const ErrorStateMessage: string := "Failed to get to expected status. In ERROR state."

  /** `check_status`: `ERROR` fails, checked before the expected status; the expected status
      succeeds; anything else keeps the wait going. */
  function CheckStatus(status: string, expected: string): (r: StatusCheck)
    ensures r == InError <==> status == "ERROR"
    ensures r == Reached <==> status != "ERROR" && status == expected
    ensures r == Waiting <==> status != "ERROR" && status != expected
  {
    if status == "ERROR" then InError
    else if status == expected then Reached
    else Waiting
  }

  /** How the wait for a stack status ends. */
  datatype StatusWait = StatusReached | FailedInError | TimedOut

  /** The failure raised for each way the wait fails. */
  function StatusWaitMessage(w: StatusWait, expected: string): Option<string>
  {
    match w
    case StatusReached => None
    case FailedInError => Some(ErrorStateMessage)
    case TimedOut => Some("Timed out waiting to become " + expected)
  }

  /** `wait_for_stack_status`, given the statuses read before the deadline: the first reading
      that is not a wait decides. */
  function WaitForStackStatus(statuses: seq<string>, expected: string): (r: StatusWait)
    ensures r == StatusReached <==>
      exists i :: 0 <= i < |statuses| && CheckStatus(statuses[i], expected) == Reached
        && forall j :: 0 <= j < i ==> CheckStatus(statuses[j], expected) == Waiting
    ensures r == FailedInError <==>
      exists i :: 0 <= i < |statuses| && statuses[i] == "ERROR"
        && forall j :: 0 <= j < i ==> CheckStatus(statuses[j], expected) == Waiting
    ensures r == TimedOut <==> forall i :: 0 <= i < |statuses| ==> CheckStatus(statuses[i], expected) == Waiting
  {
    match FirstMatch(statuses, (s: string) => CheckStatus(s, expected) != Waiting)
    case None => TimedOut
    case Some(i) => if CheckStatus(statuses[i], expected) == InError then FailedInError else StatusReached
  }

  /** Waiting for the `ERROR` status itself can never succeed. */
  lemma WaitForErrorFails(statuses: seq<string>)
    ensures WaitForStackStatus(statuses, "ERROR") != StatusReached
  {
  }

  // ---------------------------------------------------------------- haproxy on a guest

  const HaproxyCommand: string := "/etc/init.d/haproxy status"
  const HaproxyRunning: string := "active (running)"
  /** The private key path the check always uses on the controller. */
  const HaproxyKey: string := "/home/yyekovenko/.ssh/id_rsa"
  /** The number of failed command runs tolerated before the check fails. */
  const HaproxyRetries: nat := 10
  const ConnectionFailed: string := "Connection failed."
  const NoControllerMessage: string := "Wrong tests configuration: controller_nodes parameter is empty "

  function RunFailedMessage(vmIp: string): string
  {
    "Running of " + HaproxyCommand + " command on " + vmIp + " machine failed."
  }

  /** The check's answer: whether haproxy runs, or the failure raised. */
  datatype HaproxyVerdict = Active(running: bool) | Fail(message: string)

  /** The verdict, the ssh client used, and how many times the command was run (each run is
      preceded by a 15 second sleep). */
  datatype HaproxyRun = HaproxyRun(verdict: HaproxyVerdict, client: Option<Ssh.Client>, runs: nat)

  predicate ExecFailed(o: Result<string, Ssh.SshError>) {
    o.Err? && o.error.ExecCommandFailed?
  }

  /** The outcomes of the command runs reach a decision: some run does not fail with a
      command failure, or there are more runs than tolerated failures. */
  predicate HaproxyEnds(outcomes: seq<Result<string, Ssh.SshError>>) {
    |outcomes| > HaproxyRetries || exists i :: 0 <= i < |outcomes| && !ExecFailed(outcomes[i])
  }

  /** The client `is_haproxy_active_on_vm` opens to the first controller. */
  function HaproxyClient(host: string, usr: string, pwd: Option<string>, timeout: int): Ssh.Client
  {
    Ssh.NewClient(host, usr, pwd, SshTimeoutFloor(timeout) as real, Ssh.NoPKey,
                  Ssh.DefaultChannelTimeout, false, Some(HaproxyKey))
  }

  /** `is_haproxy_active_on_vm`, given the outcome of each run of the command on the guest. */
  function Haproxy(hosts: seq<string>, usr: string, pwd: Option<string>, timeout: int, vmIp: string,
                   outcomes: seq<Result<string, Ssh.SshError>>): (r: HaproxyRun)
    ensures |hosts| == 0 <==> r.client.None?
    ensures |hosts| == 0 ==> r == HaproxyRun(Fail(NoControllerMessage), None, 0)
    ensures r.client.Some? ==> r.client.value.timeout >= 30 && r.client.value.keyFilename == Some(HaproxyKey)
    ensures r.runs <= HaproxyRetries + 1
  {
    if |hosts| == 0 then HaproxyRun(Fail(NoControllerMessage), None, 0)
    else
      var c := Some(HaproxyClient(hosts[0], usr, pwd, timeout));
      match FirstMatch(outcomes, (o: Result<string, Ssh.SshError>) => !ExecFailed(o))
      case Some(k) =>
        if k <= HaproxyRetries then
          match outcomes[k]
          case Ok(out) => HaproxyRun(Active(Contains(out, HaproxyRunning)), c, k + 1)
          case Err(_) => HaproxyRun(Fail(ConnectionFailed), c, k + 1)
        else HaproxyRun(Fail(RunFailedMessage(vmIp)), c, HaproxyRetries + 1)
      case None => HaproxyRun(Fail(RunFailedMessage(vmIp)), c, HaproxyRetries + 1)
  }

  /** Up to ten command failures are tolerated: the first run that succeeds decides. */
  lemma HaproxyToleratesFailures(hosts: seq<string>, usr: string, pwd: Option<string>, timeout: int,
                                 vmIp: string, outcomes: seq<Result<string, Ssh.SshError>>, n: nat)
    requires |hosts| > 0 && n <= HaproxyRetries && n < |outcomes|
    requires forall j :: 0 <= j < n ==> ExecFailed(outcomes[j])
    requires outcomes[n].Ok?
    ensures Haproxy(hosts, usr, pwd, timeout, vmIp, outcomes).verdict == Active(Contains(outcomes[n].value, HaproxyRunning))
    ensures Haproxy(hosts, usr, pwd, timeout, vmIp, outcomes).runs == n + 1
  {
    HaproxyFirstDecisive(outcomes, n);
  }

  /** The eleventh command failure in a row fails the check. */
  lemma HaproxyFailsOnEleventh(hosts: seq<string>, usr: string, pwd: Option<string>, timeout: int,
                               vmIp: string, outcomes: seq<Result<string, Ssh.SshError>>)
    requires |hosts| > 0 && |outcomes| > HaproxyRetries
    requires forall j :: 0 <= j <= HaproxyRetries ==> ExecFailed(outcomes[j])
    ensures Haproxy(hosts, usr, pwd, timeout, vmIp, outcomes) ==
      HaproxyRun(Fail(RunFailedMessage(vmIp)), Some(HaproxyClient(hosts[0], usr, pwd, timeout)), HaproxyRetries + 1)
  {
    var m := FirstMatch(outcomes, (o: Result<string, Ssh.SshError>) => !ExecFailed(o));
    if m.Some? {
      assert m.value > HaproxyRetries;
    }
  }

  /** Any other exception fails the check at once. */
  lemma HaproxyOtherErrorFails(hosts: seq<string>, usr: string, pwd: Option<string>, timeout: int,
                               vmIp: string, outcomes: seq<Result<string, Ssh.SshError>>, n: nat)
    requires |hosts| > 0 && n <= HaproxyRetries && n < |outcomes|
    requires forall j :: 0 <= j < n ==> ExecFailed(outcomes[j])
    requires outcomes[n].Err? && !outcomes[n].error.ExecCommandFailed?
    ensures Haproxy(hosts, usr, pwd, timeout, vmIp, outcomes).verdict == Fail(ConnectionFailed)
    ensures Haproxy(hosts, usr, pwd, timeout, vmIp, outcomes).runs == n + 1
  {
    HaproxyFirstDecisive(outcomes, n);
  }

  /** The first run that does not end in a command failure is the one `FirstMatch` finds. */
  lemma HaproxyFirstDecisive(outcomes: seq<Result<string, Ssh.SshError>>, n: nat)
    requires n < |outcomes| && !ExecFailed(outcomes[n])
    requires forall j :: 0 <= j < n ==> ExecFailed(outcomes[j])
    ensures FirstMatch(outcomes, (o: Result<string, Ssh.SshError>) => !ExecFailed(o)) == Some(n)
  {
    var m := FirstMatch(outcomes, (o: Result<string, Ssh.SshError>) => !ExecFailed(o));
    assert m.Some?;
    assert !(m.value < n) && !(n < m.value);
  }

  /** The retry loop of `is_haproxy_active_on_vm`, proved to compute `Haproxy`. */
  method IsHaproxyActiveOnVm(hosts: seq<string>, usr: string, pwd: Option<string>, timeout: int,
                             vmIp: string, outcomes: seq<Result<string, Ssh.SshError>>)
    returns (r: HaproxyRun)
    requires HaproxyEnds(outcomes)
    ensures r == Haproxy(hosts, usr, pwd, timeout, vmIp, outcomes)
  {
    if |hosts| == 0 {
      return HaproxyRun(Fail(NoControllerMessage), None, 0);
    }
    var c := Some(HaproxyClient(hosts[0], usr, pwd, timeout));
    var attempts := HaproxyRetries;
    var i := 0;
    while true
      invariant 0 <= i && 0 <= attempts && i + attempts == HaproxyRetries && i < |outcomes|
      invariant forall j :: 0 <= j < i ==> ExecFailed(outcomes[j])
      decreases attempts
    {
      var o := outcomes[i];
      if o.Ok? {
        HaproxyFirstDecisive(outcomes, i);
        return HaproxyRun(Active(Contains(o.value, HaproxyRunning)), c, i + 1);
      }
      if !o.error.ExecCommandFailed? {
        HaproxyFirstDecisive(outcomes, i);
        return HaproxyRun(Fail(ConnectionFailed), c, i + 1);
      }
      if attempts == 0 {
        var m := FirstMatch(outcomes, (o: Result<string, Ssh.SshError>) => !ExecFailed(o));
        assert m.Some? ==> m.value > HaproxyRetries;
        return HaproxyRun(Fail(RunFailedMessage(vmIp)), c, i + 1);
      }
      attempts := attempts - 1;
      i := i + 1;
    }
  }
}
